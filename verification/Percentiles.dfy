/** Interpolated percentiles of a window of samples. Floats are reals. */
module Percentiles {
  import opened Sorting

  function Negated(x: real): real { -x }

  /** `sorted(values)` */
  function Ascending(values: seq<real>): seq<real> { StableDescending(values, Negated) }

  ghost predicate IsAscending(s: seq<real>) {
    forall i, j :: 0 <= i < j < |s| ==> s[i] <= s[j]
  }

  /** Linear interpolation at a rank between two order statistics. */
  function AtRank(ordered: seq<real>, rank: real): real
    requires ordered != [] && 0.0 <= rank <= (|ordered| - 1) as real
  {
    var lower := rank.Floor;
    var upper := if lower + 1 < |ordered| - 1 then lower + 1 else |ordered| - 1;
    Blend(ordered[lower], ordered[upper], rank - lower as real)
  }

  function Blend(x: real, y: real, weight: real): real { x * (1.0 - weight) + y * weight }

  function Rank(percentile: real, n: nat): real
    requires n > 0
  {
    percentile / 100.0 * (n - 1) as real
  }

  lemma RankInRange(percentile: real, n: nat)
    requires n > 0 && 0.0 <= percentile <= 100.0
    ensures 0.0 <= Rank(percentile, n) <= (n - 1) as real
  {
    var f, m := percentile / 100.0, (n - 1) as real;
    assert 0.0 <= f <= 1.0;
    ScaleMonotone(0.0, f, m);
    ScaleMonotone(f, 1.0, m);
  }

  lemma ScaleMonotone(a: real, b: real, m: real)
    requires a <= b && m >= 0.0
    ensures a * m <= b * m
  {
    assert (b - a) * m >= 0.0;
  }

  function Percentile(values: seq<real>, percentile: real): real
    requires 0.0 <= percentile <= 100.0
  {
    if values == [] then 0.0
    else if |values| == 1 then values[0]
    else
      var ordered := Ascending(values);
      SortKeepsLength(values);
      RankInRange(percentile, |values|);
      AtRank(ordered, Rank(percentile, |values|))
  }

  lemma SortKeepsLength(values: seq<real>)
    ensures |Ascending(values)| == |values|
  {
    StableDescendingCorrect(values, Negated);
    assert |multiset(Ascending(values))| == |multiset(values)|;
  }

  lemma AscendingCorrect(values: seq<real>)
    ensures IsAscending(Ascending(values)) && multiset(Ascending(values)) == multiset(values)
  {
    StableDescendingCorrect(values, Negated);
    var s := Ascending(values);
    forall i, j | 0 <= i < j < |s| ensures s[i] <= s[j] {
      assert Negated(s[i]) >= Negated(s[j]);
    }
  }

  lemma BlendFromLower(x: real, y: real, w: real)
    ensures Blend(x, y, w) == x + w * (y - x)
  {
  }

  lemma Between(x: real, y: real, w: real)
    requires x <= y && 0.0 <= w <= 1.0
    ensures x <= Blend(x, y, w) <= y
  {
    hide Blend;
    BlendFromLower(x, y, w);
    ScaleMonotone(0.0, w, y - x);
    ScaleMonotone(w, 1.0, y - x);
  }

  lemma AtRankBounds(s: seq<real>, rank: real)
    requires s != [] && IsAscending(s) && 0.0 <= rank <= (|s| - 1) as real
    ensures var l := rank.Floor;
            && s[l] <= AtRank(s, rank)
            && AtRank(s, rank) <= s[if l + 1 < |s| - 1 then l + 1 else |s| - 1]
  {
    hide Blend;
    var l := rank.Floor;
    var u := if l + 1 < |s| - 1 then l + 1 else |s| - 1;
    Between(s[l], s[u], rank - l as real);
  }

  /** Interpolation is monotone in the rank. */
  lemma AtRankMonotone(s: seq<real>, r: real, t: real)
    requires s != [] && IsAscending(s) && 0.0 <= r <= t <= (|s| - 1) as real
    ensures AtRank(s, r) <= AtRank(s, t)
  {
    hide Blend;
    AtRankBounds(s, r);
    AtRankBounds(s, t);
    if r.Floor == t.Floor {
      var l := r.Floor;
      var u := if l + 1 < |s| - 1 then l + 1 else |s| - 1;
      SlopeMonotone(s[l], s[u], r - l as real, t - l as real);
    } else {
      assert r.Floor + 1 <= t.Floor;
    }
  }

  lemma SlopeMonotone(x: real, y: real, v: real, w: real)
    requires x <= y && v <= w
    ensures Blend(x, y, v) <= Blend(x, y, w)
  {
    hide Blend;
    BlendFromLower(x, y, v);
    BlendFromLower(x, y, w);
    ScaleMonotone(v, w, y - x);
  }

  lemma RanksOrdered(p: real, q: real, n: nat)
    requires n > 0 && 0.0 <= p <= q <= 100.0
    ensures 0.0 <= Rank(p, n) <= Rank(q, n) <= (n - 1) as real
  {
    RankInRange(p, n);
    RankInRange(q, n);
    ScaleMonotone(p / 100.0, q / 100.0, (n - 1) as real);
  }

  lemma AscendingWithin(values: seq<real>, lo: real, hi: real)
    requires forall v :: v in values ==> lo <= v <= hi
    ensures forall v :: v in Ascending(values) ==> lo <= v <= hi
  {
    AscendingCorrect(values);
    forall v | v in Ascending(values) ensures v in values {
      assert v in multiset(Ascending(values));
    }
  }

  lemma AtRankWithin(s: seq<real>, rank: real, lo: real, hi: real)
    requires s != [] && IsAscending(s) && 0.0 <= rank <= (|s| - 1) as real
    requires forall v :: v in s ==> lo <= v <= hi
    ensures lo <= AtRank(s, rank) <= hi
  {
    hide Blend;
    AtRankBounds(s, rank);
    var l := rank.Floor;
    assert s[l] in s && s[if l + 1 < |s| - 1 then l + 1 else |s| - 1] in s;
  }

  /** Percentiles rise with the percentage and stay within any bounds of the window. */
  lemma PercentilesOrdered(values: seq<real>, p: real, q: real, lo: real, hi: real)
    requires values != [] && 0.0 <= p <= q <= 100.0
    requires forall v :: v in values ==> lo <= v <= hi
    ensures lo <= Percentile(values, p) <= Percentile(values, q) <= hi
  {
    if |values| == 1 {
      assert values[0] in values;
    } else {
      var s, n := Ascending(values), |values|;
      SortKeepsLength(values);
      AscendingCorrect(values);
      AscendingWithin(values, lo, hi);
      RanksOrdered(p, q, n);
      AtRankMonotone(s, Rank(p, n), Rank(q, n));
      AtRankWithin(s, Rank(p, n), lo, hi);
      AtRankWithin(s, Rank(q, n), lo, hi);
    }
  }

  /** Between two neighbouring order statistics a percentile moves in proportion to the percentage: the
      `k`-th is reached at `100 * k / (n - 1)`. */
  lemma PercentileInterpolates(values: seq<real>, p: real, k: nat)
    requires 0.0 <= p <= 100.0 && k + 1 < |values|
    requires 100.0 * k as real <= p * (|values| - 1) as real <= 100.0 * (k + 1) as real
    ensures |Ascending(values)| == |values|
    ensures var s := Ascending(values);
            100.0 * (Percentile(values, p) - s[k]) == (p * (|values| - 1) as real - 100.0 * k as real) * (s[k + 1] - s[k])
  {
    hide Ascending;
    var s, rank := Ascending(values), Rank(p, |values|);
    SortKeepsLength(values);
    RankInRange(p, |values|);
    RankScaled(p, |values|);
    AtRankInCell(s, rank, k);
    assert 100.0 * ((rank - k as real) * (s[k + 1] - s[k])) == (100.0 * rank - 100.0 * k as real) * (s[k + 1] - s[k]);
  }

  lemma RankScaled(p: real, n: nat)
    requires n > 0
    ensures 100.0 * Rank(p, n) == p * (n - 1) as real
  {
  }

  lemma AtRankInCell(s: seq<real>, rank: real, k: nat)
    requires k + 1 < |s| && k as real <= rank <= (k + 1) as real
    ensures AtRank(s, rank) == s[k] + (rank - k as real) * (s[k + 1] - s[k])
  {
    if rank < (k + 1) as real {
      assert rank.Floor == k;
      BlendFromLower(s[k], s[k + 1], rank - k as real);
    } else {
      assert rank.Floor == k + 1;
    }
  }

  /** One sample is every percentile of itself, and no samples give zero. */
  lemma PercentileOfFew(x: real, p: real)
    requires 0.0 <= p <= 100.0
    ensures Percentile([x], p) == x && Percentile([], p) == 0.0
  {
  }
}
