/** Each object is decided once, by the nearest predicted step that holds it. */
module AgentPrefetchTheorems {
  import opened AgentPrefetchModel
  import opened Collections
  import opened Sorting

  /** The predicted step at `rank` holds the object. */
  predicate HoldsAt(objects: map<string, StepObjects>, stepIds: seq<string>, rank: int, t: PrefetchType, id: string) {
    0 <= rank < |stepIds| && stepIds[rank] in objects && id in objects[stepIds[rank]].Of(t)
  }

  /** `rank` is the first predicted step that holds the object. */
  ghost predicate FirstHolder(objects: map<string, StepObjects>, stepIds: seq<string>, rank: int, t: PrefetchType, id: string) {
    && HoldsAt(objects, stepIds, rank, t, id)
    && forall r :: 0 <= r < rank ==> !HoldsAt(objects, stepIds, r, t, id)
  }

  ghost predicate UniqueKeys(entries: seq<Decision>) {
    forall i, j :: 0 <= i < j < |entries| ==> !SameKey(entries[i], entries[j])
  }

  /** One entry for each object held by a predicted step, at the priority of its first holder. */
  ghost predicate DecidedByFirstHolder(objects: map<string, StepObjects>, stepIds: seq<string>, entries: seq<Decision>) {
    && UniqueKeys(entries)
    && (forall d :: d in entries ==>
          exists r :: FirstHolder(objects, stepIds, r, d.prefetchType, d.objectId)
                      && d.priority == PriorityAt(d.prefetchType, r))
    && (forall r, t, id :: HoldsAt(objects, stepIds, r, t, id) ==>
          exists d :: d in entries && d.objectId == id && d.prefetchType == t)
  }

  // Merging keeps the first of each key

  predicate HasKey(entries: seq<Decision>, d: Decision) {
    exists e :: e in entries && SameKey(e, d)
  }

  /** The replacement test fails for `d`: its key, if present, has at least its priority. */
  ghost predicate NotBetter(entries: seq<Decision>, d: Decision) {
    forall e :: e in entries && SameKey(e, d) ==> d.priority <= e.priority
  }

  lemma {:induction false} UpsertKeepsFirst(entries: seq<Decision>, d: Decision)
    requires NotBetter(entries, d)
    ensures Upsert(entries, d) == if HasKey(entries, d) then entries else entries + [d]
  {
    if entries != [] {
      assert entries == [entries[0]] + entries[1..];
      assert entries[0] in entries;
      if !SameKey(entries[0], d) {
        UpsertKeepsFirst(entries[1..], d);
        assert HasKey(entries, d) <==> HasKey(entries[1..], d);
      }
    }
  }

  lemma {:induction false} MergedConcat(entries: seq<Decision>, a: seq<Decision>, b: seq<Decision>)
    ensures Merged(entries, a + b) == Merged(Merged(entries, a), b)
  {
    if b == [] {
      assert a + b == a;
    } else {
      assert (a + b)[..|a + b| - 1] == a + b[..|b| - 1];
      MergedConcat(entries, a, b[..|b| - 1]);
    }
  }

  lemma NearerIsHigher(t: PrefetchType, near: nat, far: nat)
    requires near <= far
    ensures PriorityAt(t, near) >= PriorityAt(t, far)
  {
    var x, y := 1.0 + near as real, 1.0 + far as real;
    assert 1.0 / x - 1.0 / y == (y - x) / (x * y);
    assert (1.0 / x - 1.0 / y) * TypeWeight(t) >= 0.0;
  }

  /** All of these decisions were made for the step at `rank`. */
  ghost predicate AtRank(cs: seq<Decision>, rank: nat) {
    forall c :: c in cs ==> c.priority == PriorityAt(c.prefetchType, rank)
  }

  /** No entry would be improved by a decision for the step at `rank`. */
  ghost predicate AtLeastRank(entries: seq<Decision>, rank: nat) {
    forall e :: e in entries ==> e.priority >= PriorityAt(e.prefetchType, rank)
  }

  /** Merging a step's decisions keeps every entry and adds the keys that are new. */
  lemma {:induction false} MergedAtRank(entries: seq<Decision>, cs: seq<Decision>, rank: nat)
    requires UniqueKeys(entries) && AtLeastRank(entries, rank) && AtRank(cs, rank)
    ensures var m := Merged(entries, cs);
            && UniqueKeys(m) && AtLeastRank(m, rank)
            && (forall d :: d in entries ==> d in m)
            && (forall d :: d in m ==> d in entries || (d in cs && !HasKey(entries, d)))
            && (forall c :: c in cs ==> HasKey(m, c))
  {
    if cs != [] {
      var front, last := cs[..|cs| - 1], cs[|cs| - 1];
      assert cs == front + [last] && last in cs;
      MergedAtRank(entries, front, rank);
      var before := Merged(entries, front);
      UpsertKeepsFirst(before, last);
      SnocUnique(before, last);
    }
  }

  lemma SnocUnique(entries: seq<Decision>, d: Decision)
    requires UniqueKeys(entries)
    ensures !HasKey(entries, d) ==> UniqueKeys(entries + [d])
    ensures HasKey(entries + [d], d)
    ensures forall c :: HasKey(entries, c) ==> HasKey(entries + [d], c)
  {
    assert d in entries + [d] && SameKey(d, d);
    forall c | HasKey(entries, c) ensures HasKey(entries + [d], c) {
      var e :| e in entries && SameKey(e, c);
      assert e in entries + [d];
    }
    if !HasKey(entries, d) {
      forall i | 0 <= i < |entries| ensures !SameKey(entries[i], d) {
        assert entries[i] in entries;
      }
    }
  }

  lemma OfTypeMembers(t: PrefetchType, ids: seq<string>, rank: nat, d: Decision)
    ensures d in OfType(t, ids, rank) <==>
              d.prefetchType == t && d.objectId in ids && d.priority == PriorityAt(t, rank)
  {
    if d.prefetchType == t && d.objectId in ids && d.priority == PriorityAt(t, rank) {
      var i :| 0 <= i < |ids| && ids[i] == d.objectId;
      assert OfType(t, ids, rank)[i] == d;
    }
  }

  lemma StepCandidatesMembers(o: StepObjects, rank: nat, d: Decision)
    ensures d in StepCandidates(o, rank) <==>
              d.objectId in o.Of(d.prefetchType) && d.priority == PriorityAt(d.prefetchType, rank)
  {
    OfTypeMembers(KvCache, o.kv, rank, d);
    OfTypeMembers(ToolArtifact, o.tool, rank, d);
    OfTypeMembers(Rag, o.rag, rank, d);
    OfTypeMembers(PlanCache, o.plan, rank, d);
    OfTypeMembers(Semantic, o.semantic, rank, d);
  }

  function Entries(objects: map<string, StepObjects>, stepIds: seq<string>): seq<Decision> {
    Merged([], Candidates(objects, stepIds))
  }

  /** What the last predicted step adds to the entries of the others. */
  lemma EntriesSnoc(objects: map<string, StepObjects>, stepIds: seq<string>)
    requires stepIds != []
    ensures var n := |stepIds| - 1;
            Entries(objects, stepIds) ==
              if stepIds[n] in objects then Merged(Entries(objects, stepIds[..n]), StepCandidates(objects[stepIds[n]], n))
              else Entries(objects, stepIds[..n])
  {
    var n := |stepIds| - 1;
    if stepIds[n] in objects {
      MergedConcat([], Candidates(objects, stepIds[..n]), StepCandidates(objects[stepIds[n]], n));
    }
  }

  lemma EarlierHolders(objects: map<string, StepObjects>, stepIds: seq<string>, r: int, t: PrefetchType, id: string)
    requires stepIds != []
    ensures var n := |stepIds| - 1;
            && (r < n ==> (HoldsAt(objects, stepIds[..n], r, t, id) <==> HoldsAt(objects, stepIds, r, t, id)))
            && (FirstHolder(objects, stepIds[..n], r, t, id) ==> FirstHolder(objects, stepIds, r, t, id))
  {
    var n := |stepIds| - 1;
    assert forall i :: 0 <= i < n ==> stepIds[..n][i] == stepIds[i];
    if FirstHolder(objects, stepIds[..n], r, t, id) {
      forall i | 0 <= i < r ensures !HoldsAt(objects, stepIds, i, t, id) {
        assert !HoldsAt(objects, stepIds[..n], i, t, id);
      }
    }
  }

  /** Whatever the predicted steps and their objects, each held object gets one decision, at its
      type's weight over one plus the rank of the first step holding it. */
  lemma {:induction false} EntriesAreFirstHolders(objects: map<string, StepObjects>, stepIds: seq<string>)
    ensures DecidedByFirstHolder(objects, stepIds, Entries(objects, stepIds))
  {
    if stepIds != [] {
      EntriesAreFirstHolders(objects, stepIds[..|stepIds| - 1]);
      EntriesSnoc(objects, stepIds);
      EntriesFromEarlier(objects, stepIds);
    }
  }

  /** Earlier entries have priorities of earlier, so higher, ranks. */
  lemma EarlierEntriesAreHigher(objects: map<string, StepObjects>, stepIds: seq<string>, entries: seq<Decision>)
    requires DecidedByFirstHolder(objects, stepIds, entries)
    ensures AtLeastRank(entries, |stepIds|)
  {
    forall e | e in entries ensures e.priority >= PriorityAt(e.prefetchType, |stepIds|) {
      var r :| FirstHolder(objects, stepIds, r, e.prefetchType, e.objectId) && e.priority == PriorityAt(e.prefetchType, r);
      NearerIsHigher(e.prefetchType, r, |stepIds|);
    }
  }

  lemma OldEntryHasHolder(objects: map<string, StepObjects>, stepIds: seq<string>, before: seq<Decision>, d: Decision)
    requires stepIds != [] && DecidedByFirstHolder(objects, stepIds[..|stepIds| - 1], before) && d in before
    ensures exists r :: FirstHolder(objects, stepIds, r, d.prefetchType, d.objectId) && d.priority == PriorityAt(d.prefetchType, r)
  {
    var r :| FirstHolder(objects, stepIds[..|stepIds| - 1], r, d.prefetchType, d.objectId)
             && d.priority == PriorityAt(d.prefetchType, r);
    EarlierHolders(objects, stepIds, r, d.prefetchType, d.objectId);
  }

  lemma NewEntryHasHolder(objects: map<string, StepObjects>, stepIds: seq<string>, before: seq<Decision>, d: Decision)
    requires stepIds != [] && DecidedByFirstHolder(objects, stepIds[..|stepIds| - 1], before) && !HasKey(before, d)
    requires var n := |stepIds| - 1; stepIds[n] in objects && d in StepCandidates(objects[stepIds[n]], n)
    ensures FirstHolder(objects, stepIds, |stepIds| - 1, d.prefetchType, d.objectId)
    ensures d.priority == PriorityAt(d.prefetchType, |stepIds| - 1)
  {
    var n := |stepIds| - 1;
    StepCandidatesMembers(objects[stepIds[n]], n, d);
    forall r | 0 <= r < n ensures !HoldsAt(objects, stepIds, r, d.prefetchType, d.objectId) {
      EarlierHolders(objects, stepIds, r, d.prefetchType, d.objectId);
    }
  }

  lemma HolderHasEntry(objects: map<string, StepObjects>, stepIds: seq<string>, before: seq<Decision>, after: seq<Decision>,
                       r: int, t: PrefetchType, id: string)
    requires stepIds != [] && DecidedByFirstHolder(objects, stepIds[..|stepIds| - 1], before)
    requires forall d :: d in before ==> d in after
    requires var n := |stepIds| - 1;
             stepIds[n] in objects ==> forall c :: c in StepCandidates(objects[stepIds[n]], n) ==> HasKey(after, c)
    requires HoldsAt(objects, stepIds, r, t, id)
    ensures exists d :: d in after && d.objectId == id && d.prefetchType == t
  {
    var n := |stepIds| - 1;
    if r < n {
      EarlierHolders(objects, stepIds, r, t, id);
    } else {
      var c := Decision(id, t, PriorityAt(t, n));
      StepCandidatesMembers(objects[stepIds[n]], n, c);
      assert HasKey(after, c);
    }
  }

  lemma EntriesFromEarlier(objects: map<string, StepObjects>, stepIds: seq<string>)
    requires stepIds != []
    requires DecidedByFirstHolder(objects, stepIds[..|stepIds| - 1], Entries(objects, stepIds[..|stepIds| - 1]))
    ensures DecidedByFirstHolder(objects, stepIds, Entries(objects, stepIds))
  {
    var n := |stepIds| - 1;
    var before, after := Entries(objects, stepIds[..n]), Entries(objects, stepIds);
    EntriesSnoc(objects, stepIds);
    EarlierEntriesAreHigher(objects, stepIds[..n], before);
    if stepIds[n] in objects {
      LastStepAtRank(objects[stepIds[n]], n);
      MergedAtRank(before, StepCandidates(objects[stepIds[n]], n), n);
    }
    hide Entries, StepCandidates, FirstHolder, HoldsAt, HasKey, AtLeastRank, AtRank;
    forall d | d in after
      ensures exists r :: FirstHolder(objects, stepIds, r, d.prefetchType, d.objectId) && d.priority == PriorityAt(d.prefetchType, r)
    {
      if d in before {
        OldEntryHasHolder(objects, stepIds, before, d);
      } else {
        NewEntryHasHolder(objects, stepIds, before, d);
      }
    }
    forall r, t, id | HoldsAt(objects, stepIds, r, t, id)
      ensures exists d :: d in after && d.objectId == id && d.prefetchType == t
    {
      HolderHasEntry(objects, stepIds, before, after, r, t, id);
    }
  }

  lemma LastStepAtRank(o: StepObjects, rank: nat)
    ensures AtRank(StepCandidates(o, rank), rank)
  {
    forall c | c in StepCandidates(o, rank) ensures c.priority == PriorityAt(c.prefetchType, rank) {
      StepCandidatesMembers(o, rank, c);
    }
  }

  /** The replacement test never improves an entry: merging is keeping the first of each key. */
  lemma ReplacementNeverImproves(objects: map<string, StepObjects>, stepIds: seq<string>, d: Decision, rank: nat)
    requires |stepIds| <= rank && d.priority == PriorityAt(d.prefetchType, rank)
    ensures NotBetter(Entries(objects, stepIds), d)
    ensures Upsert(Entries(objects, stepIds), d) ==
              if HasKey(Entries(objects, stepIds), d) then Entries(objects, stepIds) else Entries(objects, stepIds) + [d]
  {
    EntriesAreFirstHolders(objects, stepIds);
    EarlierEntriesAreHigher(objects, stepIds, Entries(objects, stepIds));
    NearerIsHigher(d.prefetchType, |stepIds|, rank);
    UpsertKeepsFirst(Entries(objects, stepIds), d);
  }

  /** The decisions are the stable top of the entries: nothing left out has a higher priority, and
      decisions of one priority keep the entries' order. */
  lemma DecisionsAreStableTop(objects: map<string, StepObjects>, stepIds: seq<string>, maxDecisions: nat) returns (rest: seq<Decision>)
    ensures var top, entries := DecisionsFor(objects, stepIds, maxDecisions), Entries(objects, stepIds);
            && |top| <= maxDecisions && (rest != [] ==> |top| == maxDecisions)
            && multiset(top + rest) == multiset(entries)
            && Descending(top + rest, Priority)
            && forall v :: OfKey(top + rest, Priority, v) == OfKey(entries, Priority, v)
  {
    var entries := Entries(objects, stepIds);
    var sorted, top := StableDescending(entries, Priority), DecisionsFor(objects, stepIds, maxDecisions);
    rest := sorted[|top|..];
    assert top + rest == sorted;
    StableDescendingCorrect(entries, Priority);
    forall v ensures OfKey(sorted, Priority, v) == OfKey(entries, Priority, v) {
      StableDescendingIsStable(entries, Priority, v);
    }
  }

  // The ledger

  ghost predicate Booked(l: Ledger) {
    && l.used <= l.predicted && l.wasted <= l.predicted
    && |l.predicted| <= l.prefetchCount && l.recallHits <= l.expected
  }

  lemma StepKeepsBooked(l: Ledger, e: Event)
    requires Booked(l)
    ensures Booked(LedgerStep(l, e))
  {
    match e
    case Predict(ds) =>
      var ids := ToSet(IdsOf(ds));
      ToSetSize(IdsOf(ds));
      assert l.predicted + ids == l.predicted + (ids - l.predicted);
      SubsetSize(ids - l.predicted, ids);
    case Requested(ids) => SubsetSize(RequestedIds(ids) * l.predicted, RequestedIds(ids));
    case Used(_, _) =>
    case Wasted(_, _) =>
  }

  lemma {:induction false} LedgerIsBooked(es: seq<Event>)
    ensures Booked(LedgerAfter(es))
  {
    if es != [] {
      LedgerIsBooked(es[..|es| - 1]);
      StepKeepsBooked(LedgerAfter(es[..|es| - 1]), es[|es| - 1]);
    }
  }

  lemma RatioInUnit(part: nat, whole: nat)
    requires part <= whole && whole > 0
    ensures 0.0 <= part as real / whole as real <= 1.0
  {
  }

  /** In every run precision and recall are proper fractions. */
  lemma PrecisionAndRecallAreFractions(es: seq<Event>)
    ensures 0.0 <= Precision(LedgerAfter(es)) <= 1.0
    ensures 0.0 <= Recall(LedgerAfter(es)) <= 1.0
  {
    var l := LedgerAfter(es);
    LedgerIsBooked(es);
    SubsetSize(l.used, l.predicted);
    if l.prefetchCount > 0 {
      RatioInUnit(|l.used|, l.prefetchCount);
    }
    if l.expected > 0 {
      RatioInUnit(l.recallHits, l.expected);
    }
  }
}
