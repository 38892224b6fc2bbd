/** The order of prefetch decisions of equal priority: nearer steps first, then as the step lists them. */
module PrefetchOrder {
  import opened AgentPrefetchModel
  import opened AgentPrefetchTheorems
  import opened StepGraphModel

  /** The first position of a decision for the key, or the length if there is none. */
  function KeyIndex(cs: seq<Decision>, d: Decision): (i: nat)
    ensures i <= |cs|
    ensures i < |cs| ==> SameKey(cs[i], d)
    ensures HasKey(cs, d) <==> i < |cs|
  {
    if cs == [] then 0
    else if SameKey(cs[0], d) then assert cs[0] in cs; 0
    else
      assert cs == [cs[0]] + cs[1..];
      assert forall c :: c in cs <==> c == cs[0] || c in cs[1..];
      1 + KeyIndex(cs[1..], d)
  }

  lemma {:induction false} KeyIndexConcat(a: seq<Decision>, b: seq<Decision>, d: Decision)
    ensures KeyIndex(a + b, d) == if HasKey(a, d) then KeyIndex(a, d) else |a| + KeyIndex(b, d)
  {
    if a == [] {
      assert a + b == b;
    } else {
      assert (a + b)[1..] == a[1..] + b;
      KeyIndexConcat(a[1..], b, d);
    }
  }

  lemma {:induction false} KeyIndexOfType(t: PrefetchType, ids: seq<string>, rank: nat, d: Decision)
    ensures KeyIndex(OfType(t, ids, rank), d) == if d.prefetchType == t then IndexOf(ids, d.objectId) else |ids|
  {
    if ids != [] {
      assert OfType(t, ids, rank)[1..] == OfType(t, ids[1..], rank);
      KeyIndexOfType(t, ids[1..], rank, d);
    }
  }

  /** Among a step's candidates of one type, positions follow the step's list. */
  lemma StepPosition(o: StepObjects, rank: nat, d: Decision, e: Decision)
    requires d.prefetchType == e.prefetchType && d.objectId in o.Of(d.prefetchType) && e.objectId in o.Of(d.prefetchType)
    ensures KeyIndex(StepCandidates(o, rank), d) - IndexOf(o.Of(d.prefetchType), d.objectId)
         == KeyIndex(StepCandidates(o, rank), e) - IndexOf(o.Of(d.prefetchType), e.objectId)
  {
    PositionOf(o, rank, d);
    PositionOf(o, rank, e);
  }

  /** Where the candidates of a type begin. */
  function Offset(o: StepObjects, t: PrefetchType): nat {
    match t
    case KvCache => 0
    case ToolArtifact => |o.kv|
    case Rag => |o.kv| + |o.tool|
    case PlanCache => |o.kv| + |o.tool| + |o.rag|
    case Semantic => |o.kv| + |o.tool| + |o.rag| + |o.plan|
  }

  lemma PositionOf(o: StepObjects, rank: nat, d: Decision)
    requires d.objectId in o.Of(d.prefetchType)
    ensures KeyIndex(StepCandidates(o, rank), d) == Offset(o, d.prefetchType) + IndexOf(o.Of(d.prefetchType), d.objectId)
  {
    hide OfType;
    var kv, tool, rag := OfType(KvCache, o.kv, rank), OfType(ToolArtifact, o.tool, rank), OfType(Rag, o.rag, rank);
    var plan, semantic := OfType(PlanCache, o.plan, rank), OfType(Semantic, o.semantic, rank);
    OfTypeSize(KvCache, o.kv, rank);
    OfTypeSize(ToolArtifact, o.tool, rank);
    OfTypeSize(Rag, o.rag, rank);
    OfTypeSize(PlanCache, o.plan, rank);
    KeyIndexOfType(KvCache, o.kv, rank, d);
    KeyIndexOfType(ToolArtifact, o.tool, rank, d);
    KeyIndexOfType(Rag, o.rag, rank, d);
    KeyIndexOfType(PlanCache, o.plan, rank, d);
    KeyIndexOfType(Semantic, o.semantic, rank, d);
    KeyIndexConcat(kv, tool, d);
    KeyIndexConcat(kv + tool, rag, d);
    KeyIndexConcat(kv + tool + rag, plan, d);
    KeyIndexConcat(kv + tool + rag + plan, semantic, d);
  }

  lemma OfTypeSize(t: PrefetchType, ids: seq<string>, rank: nat)
    ensures |OfType(t, ids, rank)| == |ids|
  {
  }

  /** `m` continues the entries with candidates in the order of their keys. */
  ghost predicate ContinuesInOrder(entries: seq<Decision>, cs: seq<Decision>, m: seq<Decision>) {
    && |entries| <= |m| && m[..|entries|] == entries
    && (forall i :: |entries| <= i < |m| ==> m[i] in cs)
    && forall i, j :: |entries| <= i < j < |m| ==> KeyIndex(cs, m[i]) < KeyIndex(cs, m[j])
  }

  /** Merging a step's candidates appends the new keys in the order of their first candidates. */
  lemma {:induction false} MergedInOrder(entries: seq<Decision>, cs: seq<Decision>, rank: nat)
    requires UniqueKeys(entries) && AtLeastRank(entries, rank) && AtRank(cs, rank)
    ensures ContinuesInOrder(entries, cs, Merged(entries, cs))
  {
    if cs != [] {
      var front, c := cs[..|cs| - 1], cs[|cs| - 1];
      var m := Merged(entries, front);
      assert cs == front + [c] && c in cs && Merged(entries, cs) == Upsert(m, c);
      hide KeyIndex, AtLeastRank, ContinuesInOrder, Merged, Upsert, UniqueKeys;
      FrontAtRank(cs, rank);
      MergedInOrder(entries, front, rank);
      MergedAtRank(entries, front, rank);
      LastIsNotBetter(m, c, rank);
      UpsertKeepsFirst(m, c);
      CoveredKeys(front, m, c);
      OneMoreInOrder(entries, front, m, c);
    }
  }

  lemma OneMoreInOrder(entries: seq<Decision>, front: seq<Decision>, m: seq<Decision>, c: Decision)
    requires ContinuesInOrder(entries, front, m) && (HasKey(front, c) ==> HasKey(m, c))
    ensures ContinuesInOrder(entries, front + [c], if HasKey(m, c) then m else m + [c])
  {
    hide KeyIndex;
    var cs, m' := front + [c], if HasKey(m, c) then m else m + [c];
    forall i | |entries| <= i < |m| ensures KeyIndex(cs, m[i]) == KeyIndex(front, m[i]) < |front| {
      assert HasKey(front, m[i]);
      KeyIndexConcat(front, [c], m[i]);
      KeyIndexBound(front, m[i]);
    }
    if !HasKey(m, c) {
      KeyIndexConcat(front, [c], c);
    }
  }

  lemma CoveredKeys(cs: seq<Decision>, m: seq<Decision>, c: Decision)
    requires forall x :: x in cs ==> HasKey(m, x)
    ensures HasKey(cs, c) ==> HasKey(m, c)
  {
    if HasKey(cs, c) {
      var x :| x in cs && SameKey(x, c);
      assert HasKey(m, x);
      var y :| y in m && SameKey(y, x);
    }
  }

  lemma KeyIndexBound(cs: seq<Decision>, d: Decision)
    requires HasKey(cs, d)
    ensures KeyIndex(cs, d) < |cs|
  {
  }

  lemma FrontAtRank(cs: seq<Decision>, rank: nat)
    requires cs != [] && AtRank(cs, rank)
    ensures AtRank(cs[..|cs| - 1], rank)
  {
    assert forall c :: c in cs[..|cs| - 1] ==> c in cs;
  }

  lemma LastIsNotBetter(entries: seq<Decision>, c: Decision, rank: nat)
    requires AtLeastRank(entries, rank) && c.priority == PriorityAt(c.prefetchType, rank)
    ensures NotBetter(entries, c)
  {
  }

  /** Of two entries the first has the nearer first holder, or the same one, where those of one type keep
      the order of the step's list. */
  ghost predicate InStepOrder(objects: map<string, StepObjects>, stepIds: seq<string>, d: Decision, e: Decision) {
    exists r: nat, q: nat ::
      && FirstHolder(objects, stepIds, r, d.prefetchType, d.objectId)
      && FirstHolder(objects, stepIds, q, e.prefetchType, e.objectId)
      && r <= q
      && (r == q && d.prefetchType == e.prefetchType ==>
            IndexOf(objects[stepIds[r]].Of(d.prefetchType), d.objectId) < IndexOf(objects[stepIds[r]].Of(d.prefetchType), e.objectId))
  }

  ghost predicate AllInStepOrder(objects: map<string, StepObjects>, stepIds: seq<string>, entries: seq<Decision>) {
    forall i, j :: 0 <= i < j < |entries| ==> InStepOrder(objects, stepIds, entries[i], entries[j])
  }

  lemma OldPairInOrder(objects: map<string, StepObjects>, stepIds: seq<string>, d: Decision, e: Decision)
    requires stepIds != [] && InStepOrder(objects, stepIds[..|stepIds| - 1], d, e)
    ensures InStepOrder(objects, stepIds, d, e)
  {
    var n := |stepIds| - 1;
    var front := stepIds[..n];
    var r: nat, q: nat :|
      && FirstHolder(objects, front, r, d.prefetchType, d.objectId)
      && FirstHolder(objects, front, q, e.prefetchType, e.objectId)
      && r <= q
      && (r == q && d.prefetchType == e.prefetchType ==>
            IndexOf(objects[front[r]].Of(d.prefetchType), d.objectId) < IndexOf(objects[front[r]].Of(d.prefetchType), e.objectId));
    EarlierHolders(objects, stepIds, r, d.prefetchType, d.objectId);
    EarlierHolders(objects, stepIds, q, e.prefetchType, e.objectId);
    assert front[r] == stepIds[r];
  }

  lemma OldBeforeNew(objects: map<string, StepObjects>, stepIds: seq<string>, before: seq<Decision>, d: Decision, e: Decision)
    requires stepIds != [] && DecidedByFirstHolder(objects, stepIds[..|stepIds| - 1], before) && d in before
    requires FirstHolder(objects, stepIds, |stepIds| - 1, e.prefetchType, e.objectId)
    ensures InStepOrder(objects, stepIds, d, e)
  {
    var n := |stepIds| - 1;
    var r :| FirstHolder(objects, stepIds[..n], r, d.prefetchType, d.objectId);
    EarlierHolders(objects, stepIds, r, d.prefetchType, d.objectId);
    assert r < n;
  }

  lemma NewPairInOrder(objects: map<string, StepObjects>, stepIds: seq<string>, d: Decision, e: Decision)
    requires stepIds != [] && stepIds[|stepIds| - 1] in objects
    requires var n := |stepIds| - 1;
             && FirstHolder(objects, stepIds, n, d.prefetchType, d.objectId)
             && FirstHolder(objects, stepIds, n, e.prefetchType, e.objectId)
             && var cs := StepCandidates(objects[stepIds[n]], n);
                KeyIndex(cs, d) < KeyIndex(cs, e)
    ensures InStepOrder(objects, stepIds, d, e)
  {
    hide StepCandidates;
    var n := |stepIds| - 1;
    if d.prefetchType == e.prefetchType {
      StepPosition(objects[stepIds[n]], n, d, e);
    }
  }

  /** The entries come in this order, so decisions of equal priority do too. */
  lemma {:induction false} EntriesInStepOrder(objects: map<string, StepObjects>, stepIds: seq<string>)
    ensures AllInStepOrder(objects, stepIds, Entries(objects, stepIds))
  {
    if stepIds != [] {
      var n := |stepIds| - 1;
      var front := stepIds[..n];
      var before, entries := Entries(objects, front), Entries(objects, stepIds);
      EntriesInStepOrder(objects, front);
      EntriesAreFirstHolders(objects, front);
      EntriesSnoc(objects, stepIds);
      hide FirstHolder, InStepOrder, StepCandidates, Merged, Entries, KeyIndex;
      if stepIds[n] in objects {
        LastStepInOrder(objects, stepIds, before, entries);
      } else {
        forall i, j | 0 <= i < j < |entries| ensures InStepOrder(objects, stepIds, entries[i], entries[j]) {
          OldPairInOrder(objects, stepIds, entries[i], entries[j]);
        }
      }
    }
  }

  lemma LastStepInOrder(objects: map<string, StepObjects>, stepIds: seq<string>, before: seq<Decision>, entries: seq<Decision>)
    requires stepIds != [] && stepIds[|stepIds| - 1] in objects
    requires var n := |stepIds| - 1;
             && DecidedByFirstHolder(objects, stepIds[..n], before) && AllInStepOrder(objects, stepIds[..n], before)
             && entries == Merged(before, StepCandidates(objects[stepIds[n]], n))
    ensures AllInStepOrder(objects, stepIds, entries)
  {
    hide FirstHolder, InStepOrder, StepCandidates, Merged, KeyIndex;
    var n := |stepIds| - 1;
    var cs := StepCandidates(objects[stepIds[n]], n);
    EarlierEntriesAreHigher(objects, stepIds[..n], before);
    LastStepAtRank(objects[stepIds[n]], n);
    MergedInOrder(before, cs, n);
    MergedAtRank(before, cs, n);
    forall i | |before| <= i < |entries|
      ensures FirstHolder(objects, stepIds, n, entries[i].prefetchType, entries[i].objectId)
    {
      NotInFront(entries, |before|, i);
      NewEntryHasHolder(objects, stepIds, before, entries[i]);
    }
    forall i, j | 0 <= i < j < |entries| ensures InStepOrder(objects, stepIds, entries[i], entries[j]) {
      if j < |before| {
        assert entries[i] == before[i] && entries[j] == before[j];
        OldPairInOrder(objects, stepIds, entries[i], entries[j]);
      } else if i < |before| {
        assert entries[i] == before[i];
        OldBeforeNew(objects, stepIds, before, entries[i], entries[j]);
      } else {
        NewPairInOrder(objects, stepIds, entries[i], entries[j]);
      }
    }
  }

  lemma NotInFront(entries: seq<Decision>, n: nat, i: nat)
    requires UniqueKeys(entries) && n <= i < |entries|
    ensures !HasKey(entries[..n], entries[i])
  {
  }
}
