/** How the access history bounds and moves the eviction scores. */
module EvictionTheorems {
  import opened StepGraphModel
  import opened WorkflowEviction
  import opened Wrappers

  /** The block took part in the history with the sharing it has. */
  predicate Seen(evs: seq<AccessEvent>, b: Block) {
    exists i :: 0 <= i < |evs| && !evs[i].Evicted? && evs[i].block == b
  }

  /** The greatest sharing any accessed or added block had, at least one. */
  ghost predicate IsGreatestSharing(evs: seq<AccessEvent>, m: nat) {
    && m >= 1 && (forall b :: Seen(evs, b) ==> b.sharedBySessions <= m)
    && (m > 1 ==> exists b :: Seen(evs, b) && b.sharedBySessions == m)
  }

  lemma SeenSnoc(evs: seq<AccessEvent>, ev: AccessEvent, b: Block)
    ensures Seen(evs + [ev], b) <==> Seen(evs, b) || (!ev.Evicted? && ev.block == b)
  {
    var all := evs + [ev];
    if Seen(evs, b) {
      var i :| 0 <= i < |evs| && !evs[i].Evicted? && evs[i].block == b;
      assert all[i] == evs[i];
    }
    if !ev.Evicted? && ev.block == b {
      assert all[|evs|] == ev;
    }
    if Seen(all, b) {
      var i :| 0 <= i < |all| && !all[i].Evicted? && all[i].block == b;
      assert i < |evs| ==> evs[i] == all[i];
    }
  }

  /** In every run the policy knows the greatest sharing it has met, evictions notwithstanding. */
  lemma {:induction false} KnowsGreatestSharing(evs: seq<AccessEvent>)
    ensures IsGreatestSharing(evs, AccessesAfter(evs).maxShared)
  {
    if evs != [] {
      var front, last := evs[..|evs| - 1], evs[|evs| - 1];
      assert evs == front + [last];
      KnowsGreatestSharing(front);
      forall b ensures Seen(evs, b) <==> Seen(front, b) || (!last.Evicted? && last.block == b) {
        SeenSnoc(front, last, b);
      }
      var was, m := AccessesAfter(front).maxShared, AccessesAfter(evs).maxShared;
      if m > was {
        assert Seen(evs, last.block) && last.block.sharedBySessions == m;
      } else if m > 1 {
        var b :| Seen(front, b) && b.sharedBySessions == was;
        assert Seen(evs, b);
      }
    }
  }

  predicate InUnit(x: real) { 0.0 <= x <= 1.0 }

  predicate AllInUnit(c: Components) {
    && InUnit(c.recency) && InUnit(c.frequency) && InUnit(c.shared) && InUnit(c.prefix) && InUnit(c.workflow)
    && InUnit(c.sizePenalty) && InUnit(c.reloadPenalty)
  }

  lemma QuotientInUnit(part: real, whole: real)
    requires part >= 0.0 && whole > 0.0
    ensures part / whole >= 0.0
    ensures part / whole <= 1.0 <==> part <= whole
  {
    assert part / whole * whole == part;
    if part / whole > 1.0 {
      assert part / whole * whole > whole;
    } else {
      assert part / whole * whole <= whole;
    }
  }

  /** Every component but the shared one is always a fraction. */
  lemma OthersInUnit(w: Weights, a: Accesses, g: Option<Graph>, current: Option<string>, b: Block, now: real)
    requires w.Valid()
    ensures var c := ComponentsOf(w, a, g, current, b, now);
            AllInUnit(c.(shared := 0.0)) && c.shared >= 0.0
  {
    hide StepsToExecution;
    if b.objectId in a.times {
      QuotientInUnit(1.0, 1.0 + Max0(now - a.times[b.objectId]));
    }
    QuotientInUnit(b.sizeBytes as real, w.sizeNormalizer);
    QuotientInUnit(b.sharedBySessions as real, Max(1, a.maxShared) as real);
    var cost := if b.predictedToolLatency.Some? then b.predictedToolLatency else b.reloadTag;
    if cost.Some? && cost.value > 0.0 {
      QuotientInUnit(cost.value, w.reloadNormalizer);
    }
  }

  /** In every run all components of a block are fractions if and only if its sharing is no greater
      than the greatest met so far, or one. */
  lemma ComponentsAreFractions(w: Weights, evs: seq<AccessEvent>, g: Option<Graph>, current: Option<string>, b: Block, now: real)
    requires w.Valid()
    ensures AllInUnit(ComponentsOf(w, AccessesAfter(evs), g, current, b, now))
            <==> b.sharedBySessions <= AccessesAfter(evs).maxShared
    ensures Seen(evs, b) ==> AllInUnit(ComponentsOf(w, AccessesAfter(evs), g, current, b, now))
  {
    hide ComponentsOf, WorkflowScore;
    var a := AccessesAfter(evs);
    KnowsGreatestSharing(evs);
    OthersInUnit(w, a, g, current, b, now);
    SharedIsQuotient(w, a, g, current, b, now);
    QuotientInUnit(b.sharedBySessions as real, a.maxShared as real);
  }

  lemma SharedIsQuotient(w: Weights, a: Accesses, g: Option<Graph>, current: Option<string>, b: Block, now: real)
    requires w.Valid()
    ensures ComponentsOf(w, a, g, current, b, now).shared == b.sharedBySessions as real / Max(1, a.maxShared) as real
  {
  }

  /** A candidate never accessed or added can exceed them. */
  lemma UnseenCandidateExceeds(w: Weights, b: Block, now: real)
    requires w.Valid() && b.sharedBySessions == 3
    ensures ComponentsOf(w, AccessesAfter([]), None, None, b, now).shared == 3.0
  {
  }

  /** The score then lies between the penalties and the bonuses. */
  lemma ScoreWithinWeights(w: Weights, c: Components)
    requires w.Valid() && AllInUnit(c)
    ensures -(w.size + w.reload) <= ScoreOf(w, c) <= w.recency + w.frequency + w.shared + w.prefix + w.workflow
  {
    var recency := Weighed(w.recency, c.recency);
    var frequency := Weighed(w.frequency, c.frequency);
    var shared := Weighed(w.shared, c.shared);
    var prefix := Weighed(w.prefix, c.prefix);
    var workflow := Weighed(w.workflow, c.workflow);
    var size := Weighed(w.size, c.sizePenalty);
    var reload := Weighed(w.reload, c.reloadPenalty);
    assert ScoreOf(w, c) == recency + frequency + shared + prefix + workflow - size - reload;
  }

  lemma Weighed(weight: real, x: real) returns (product: real)
    requires weight >= 0.0 && InUnit(x)
    ensures product == weight * x && 0.0 <= product <= weight
  {
    product := weight * x;
    assert weight * (1.0 - x) >= 0.0;
  }

  // How an access moves the scores

  lemma SmallerShare(part: real, whole: real, larger: real)
    requires part >= 0.0 && 0.0 < whole <= larger
    ensures part / larger <= part / whole
  {
    assert part / whole - part / larger == part * (larger - whole) / (whole * larger);
  }

  lemma ProductGrows(weight: real, x: real, y: real)
    requires weight >= 0.0 && x <= y
    ensures weight * x <= weight * y
  {
    assert weight * (y - x) >= 0.0;
  }

  lemma ScoreFollowsShared(w: Weights, c: Components, d: Components)
    requires w.Valid() && d == c.(shared := d.shared) && d.shared >= c.shared
    ensures ScoreOf(w, d) >= ScoreOf(w, c)
  {
    ProductGrows(w.shared, c.shared, d.shared);
  }

  lemma ScoreFollowsUse(w: Weights, c: Components, d: Components)
    requires w.Valid() && d == c.(recency := d.recency, frequency := d.frequency)
    requires d.recency >= c.recency && d.frequency >= c.frequency
    ensures ScoreOf(w, d) >= ScoreOf(w, c)
  {
    ProductGrows(w.recency, c.recency, d.recency);
    ProductGrows(w.frequency, c.frequency, d.frequency);
  }

  /** Whatever happens to one block never raises the score of another. */
  lemma OthersNeverGain(w: Weights, a: Accesses, ev: AccessEvent, g: Option<Graph>, current: Option<string>, b: Block, now: real)
    requires w.Valid() && b.objectId != (if ev.Evicted? then ev.objectId else ev.block.objectId)
    ensures BlockScore(w, AccessStep(a, ev), g, current, now, b) <= BlockScore(w, a, g, current, now, b)
  {
    hide WorkflowScore, ReloadPenalty, ScoreOf;
    var a' := AccessStep(a, ev);
    var c, c' := ComponentsOf(w, a, g, current, b, now), ComponentsOf(w, a', g, current, b, now);
    assert c' == c.(shared := c'.shared);
    SmallerShare(b.sharedBySessions as real, Max(1, a.maxShared) as real, Max(1, a'.maxShared) as real);
    ScoreFollowsShared(w, c', c);
  }

  /** Accessing a block whose sharing was met before never lowers its own score at that time. */
  lemma AccessNeverLosesOwn(w: Weights, a: Accesses, g: Option<Graph>, current: Option<string>, b: Block, now: real)
    requires w.Valid() && b.sharedBySessions <= Max(1, a.maxShared)
    ensures BlockScore(w, AccessStep(a, Accessed(b, now)), g, current, now, b) >= BlockScore(w, a, g, current, now, b)
  {
    hide WorkflowScore, ReloadPenalty, ScoreOf;
    var a' := AccessStep(a, Accessed(b, now));
    var c, c' := ComponentsOf(w, a, g, current, b, now), ComponentsOf(w, a', g, current, b, now);
    assert c'.recency == 1.0 >= c.recency;
    assert c'.frequency >= c.frequency;
    assert c' == c.(recency := c'.recency, frequency := c'.frequency);
    ScoreFollowsUse(w, c, c');
  }

  // The components in terms of the history

  /** Event `k` accessed or added the block. */
  predicate Touches(evs: seq<AccessEvent>, k: int, id: string) {
    0 <= k < |evs| && !evs[k].Evicted? && evs[k].block.objectId == id
  }

  /** Event `k` starts the block's count anew. */
  predicate Resets(ev: AccessEvent, id: string) {
    (ev.Evicted? && ev.objectId == id) || (ev.Added? && ev.block.objectId == id)
  }

  /** The touches of a block that count: those not followed by its eviction or another addition. */
  function Counting(evs: seq<AccessEvent>, id: string): set<nat> {
    set k: nat | k < |evs| && Touches(evs, k, id) && forall m :: k < m < |evs| ==> !Resets(evs[m], id)
  }

  lemma CountingSnoc(evs: seq<AccessEvent>, id: string)
    requires evs != []
    ensures var n := |evs| - 1;
            Counting(evs, id) ==
              (if Resets(evs[n], id) then {} else Counting(evs[..n], id)) + if Touches(evs, n, id) then {n} else {}
  {
    var n := |evs| - 1;
    var front := evs[..n];
    assert forall m :: 0 <= m < n ==> front[m] == evs[m];
  }

  /** In every run a block is remembered if and only if it was touched since it was last evicted, with
      the number of those touches since it was last added. */
  lemma {:induction false} CountsAreExact(evs: seq<AccessEvent>, id: string)
    ensures var a, n := AccessesAfter(evs), |Counting(evs, id)|;
            (id in a.counts <==> n > 0) && (id in a.counts ==> a.counts[id] == n) && (id in a.times <==> n > 0)
  {
    if evs != [] {
      var n := |evs| - 1;
      CountsAreExact(evs[..n], id);
      CountingSnoc(evs, id);
      assert n !in Counting(evs[..n], id);
      hide Counting;
    }
  }

  /** And with the time of the last of them. */
  lemma {:induction false} TimesAreLatest(evs: seq<AccessEvent>, k: nat)
    requires k < |evs| && !evs[k].Evicted?
    requires forall m :: k < m < |evs| ==> !Touches(evs, m, evs[k].block.objectId) && !Resets(evs[m], evs[k].block.objectId)
    ensures var a, id := AccessesAfter(evs), evs[k].block.objectId; id in a.times && a.times[id] == evs[k].now
  {
    var n := |evs| - 1;
    if k < n {
      assert forall m :: 0 <= m < n ==> evs[..n][m] == evs[m];
      TimesAreLatest(evs[..n], k);
      assert !Touches(evs, n, evs[k].block.objectId) && !Resets(evs[n], evs[k].block.objectId);
    }
  }

  /** A block touched just now has full recency, one touched `age` ago one over one plus that, and one
      not remembered none. */
  lemma RecencyIs(a: Accesses, id: string, now: real)
    ensures id !in a.times ==> Recency(a, id, now) == 0.0
    ensures id in a.times && now <= a.times[id] ==> Recency(a, id, now) == 1.0
    ensures id in a.times && now > a.times[id] ==> Recency(a, id, now) * (1.0 + now - a.times[id]) == 1.0
  {
  }

  /** The frequency component: a tenth for each use, up to one; a tenth for a block not remembered. */
  lemma FrequencyIs(w: Weights, evs: seq<AccessEvent>, g: Option<Graph>, current: Option<string>, b: Block, now: real)
    requires w.Valid()
    ensures var uses := |Counting(evs, b.objectId)|;
            ComponentsOf(w, AccessesAfter(evs), g, current, b, now).frequency
              == if uses == 0 then 0.1 else if uses >= 10 then 1.0 else uses as real * 0.1
  {
    hide WorkflowScore, Counting, Recency, ReloadPenalty;
    CountsAreExact(evs, b.objectId);
  }

  /** The shared component: the block's part of the greatest sharing met. */
  lemma SharedIs(w: Weights, evs: seq<AccessEvent>, g: Option<Graph>, current: Option<string>, b: Block, now: real)
    requires w.Valid()
    ensures var a := AccessesAfter(evs);
            ComponentsOf(w, a, g, current, b, now).shared * a.maxShared as real == b.sharedBySessions as real
  {
    hide ComponentsOf;
    KnowsGreatestSharing(evs);
    SharedIsQuotient(w, AccessesAfter(evs), g, current, b, now);
    Divided(b.sharedBySessions as real, AccessesAfter(evs).maxShared as real);
  }

  /** The others: the reuse score cut to [0, 1], the size over its normalizer up to one, and the recency,
      workflow and reload components below. */
  lemma OthersAre(w: Weights, a: Accesses, g: Option<Graph>, current: Option<string>, b: Block, now: real)
    requires w.Valid()
    ensures var c := ComponentsOf(w, a, g, current, b, now);
            && c.recency == Recency(a, b.objectId, now) && c.workflow == WorkflowScore(g, current, b)
            && c.reloadPenalty == ReloadPenalty(w, b)
            && (c.prefix == if b.reuseScore <= 0.0 then 0.0 else if b.reuseScore >= 1.0 then 1.0 else b.reuseScore)
            && (b.sizeBytes as real <= w.sizeNormalizer ==> c.sizePenalty * w.sizeNormalizer == b.sizeBytes as real)
            && (b.sizeBytes as real >= w.sizeNormalizer ==> c.sizePenalty == 1.0)
  {
    hide WorkflowScore, Recency, ReloadPenalty;
    var size, normalizer := b.sizeBytes as real, w.sizeNormalizer;
    QuotientInUnit(size, normalizer);
    Divided(size, normalizer);
    SizeQuotient(size, normalizer);
  }

  lemma SizeQuotient(size: real, normalizer: real)
    requires normalizer > 0.0
    ensures size >= normalizer ==> size / normalizer >= 1.0
  {
    if size / normalizer < 1.0 {
      assert size / normalizer * normalizer < normalizer;
    }
  }

  lemma Divided(part: real, whole: real)
    requires whole > 0.0
    ensures part / whole * whole == part
  {
  }

  /** The reload penalty is of the predicted tool latency, or else of the cost the block is tagged with. */
  lemma ReloadPenaltyIs(w: Weights, b: Block)
    requires w.Valid()
    ensures var cost := if b.predictedToolLatency.Some? then b.predictedToolLatency else b.reloadTag;
            && (cost.None? || cost.value <= 0.0 ==> ReloadPenalty(w, b) == 0.0)
            && (cost.Some? && 0.0 < cost.value <= w.reloadNormalizer ==> ReloadPenalty(w, b) * w.reloadNormalizer == cost.value)
            && (cost.Some? && cost.value >= w.reloadNormalizer ==> ReloadPenalty(w, b) == 1.0)
  {
    var cost := if b.predictedToolLatency.Some? then b.predictedToolLatency else b.reloadTag;
    if cost.Some? && cost.value > 0.0 {
      QuotientInUnit(cost.value, w.reloadNormalizer);
      Divided(cost.value, w.reloadNormalizer);
    }
  }

  /** The workflow component is one over one plus the steps to the next use: those recorded with the
      block, else the distance of its agent in the graph; nothing if that use is past or unknown. */
  lemma WorkflowScoreIs(g: Option<Graph>, current: Option<string>, b: Block)
    ensures var score, known := WorkflowScore(g, current, b), g.Some? && current.Some? && b.agentId.Some?;
            && (b.expectedNextUse.Some? && b.expectedNextUse.value < 0 ==> score == 0.0)
            && (b.expectedNextUse.Some? && b.expectedNextUse.value >= 0 ==> score * (1.0 + b.expectedNextUse.value as real) == 1.0)
            && (b.expectedNextUse.None? && (!known || current.value !in g.value.steps) ==> score == 0.0)
            && (b.expectedNextUse.None? && known && current.value in g.value.steps ==>
                  match StepsToExecution(g.value, b.agentId.value, current.value)
                  case None => score == 0.0
                  case Some(n) => score * (1.0 + n as real) == 1.0)
  {
    hide StepsToExecution;
  }

  /** Each component moves the score by its own weight, bonuses up and penalties down. */
  lemma EachWeightMovesItsOwn(w: Weights, c: Components, x: real)
    ensures ScoreOf(w, c.(recency := c.recency + x)) == ScoreOf(w, c) + w.recency * x
    ensures ScoreOf(w, c.(frequency := c.frequency + x)) == ScoreOf(w, c) + w.frequency * x
    ensures ScoreOf(w, c.(shared := c.shared + x)) == ScoreOf(w, c) + w.shared * x
    ensures ScoreOf(w, c.(prefix := c.prefix + x)) == ScoreOf(w, c) + w.prefix * x
    ensures ScoreOf(w, c.(workflow := c.workflow + x)) == ScoreOf(w, c) + w.workflow * x
    ensures ScoreOf(w, c.(sizePenalty := c.sizePenalty + x)) == ScoreOf(w, c) - w.size * x
    ensures ScoreOf(w, c.(reloadPenalty := c.reloadPenalty + x)) == ScoreOf(w, c) - w.reload * x
    ensures ScoreOf(w, Components(0.0, 0.0, 0.0, 0.0, 0.0, 0.0, 0.0)) == 0.0
  {
  }
}
