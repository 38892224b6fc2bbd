/** Facts about sequences, sets and maps that several modules share. */
module Collections {

  function ToSet<T>(s: seq<T>): set<T> { set x | x in s }

  ghost predicate Distinct<T>(s: seq<T>) {
    forall i, j :: 0 <= i < j < |s| ==> s[i] != s[j]
  }

  /** `f` tells the members of `s` apart. */
  ghost predicate InjectiveOn(f: string -> string, s: set<string>) {
    forall x, y :: x in s && y in s && f(x) == f(y) ==> x == y
  }

  lemma InjectiveOnSubset(f: string -> string, s: set<string>, t: set<string>)
    requires s <= t && InjectiveOn(f, t)
    ensures InjectiveOn(f, s)
  {
  }

  lemma ToSetSnoc<T>(s: seq<T>, x: T)
    ensures ToSet(s + [x]) == ToSet(s) + {x}
  {
    forall y ensures y in s + [x] <==> y in s || y == x {
    }
  }

  lemma {:induction false} ToSetSize<T>(s: seq<T>)
    ensures |ToSet(s)| <= |s|
    ensures Distinct(s) ==> |ToSet(s)| == |s|
  {
    if s != [] {
      var front, last := s[..|s| - 1], s[|s| - 1];
      assert s == front + [last];
      ToSetSize(front);
      ToSetSnoc(front, last);
    }
  }

  /** A subset is no larger. */
  lemma {:induction false} SubsetSize<T>(a: set<T>, b: set<T>)
    requires a <= b
    ensures |a| <= |b|
  {
    assert b == a + (b - a);
  }

  /** The list without any occurrence of one element. */
  function Without<T(==, !new)>(s: seq<T>, x: T): (r: seq<T>)
    ensures |r| <= |s| && forall y :: y in r <==> y in s && y != x
  {
    if s == [] then []
    else if s[0] == x then Without(s[1..], x)
    else [s[0]] + Without(s[1..], x)
  }

  lemma {:induction false} WithoutDistinct<T(!new)>(s: seq<T>, x: T)
    requires Distinct(s)
    ensures Distinct(Without(s, x))
    ensures |Without(s, x)| == |s| - if x in s then 1 else 0
  {
    if s != [] {
      assert s == [s[0]] + s[1..];
      assert s[0] !in s[1..];
      WithoutDistinct(s[1..], x);
    }
  }

  lemma {:induction false} WithoutAbsent<T(!new)>(s: seq<T>, x: T)
    requires x !in s
    ensures Without(s, x) == s
  {
    if s != [] {
      WithoutAbsent(s[1..], x);
    }
  }

  lemma {:induction false} WithoutConcat<T(!new)>(a: seq<T>, b: seq<T>, x: T)
    ensures Without(a + b, x) == Without(a, x) + Without(b, x)
  {
    if a == [] {
      assert a + b == b;
    } else {
      assert (a + b)[1..] == a[1..] + b;
      WithoutConcat(a[1..], b, x);
    }
  }

  /** The sum of a map's values. */
  ghost function SumOver(f: map<string, nat>): nat {
    if f.Keys == {} then 0
    else
      var k :| k in f.Keys;
      f[k] + SumOver(f - {k})
  }

  lemma {:induction false} SumWithout(f: map<string, nat>, k: string)
    requires k in f
    ensures SumOver(f) == f[k] + SumOver(f - {k})
    decreases |f|
  {
    assert k in f.Keys;
    var j :| j in f.Keys && SumOver(f) == f[j] + SumOver(f - {j});
    if j != k {
      SumWithout(f - {j}, k);
      SumWithout(f - {k}, j);
      assert f - {j} - {k} == f - {k} - {j};
    }
  }

  lemma SumUpdated(f: map<string, nat>, k: string, v: nat)
    ensures SumOver(f[k := v]) == SumOver(f - {k}) + v
    ensures SumOver(f - {k}) <= SumOver(f)
  {
    SumWithout(f[k := v], k);
    assert f[k := v] - {k} == f - {k};
    if k in f {
      SumWithout(f, k);
    } else {
      assert f - {k} == f;
    }
  }
}
