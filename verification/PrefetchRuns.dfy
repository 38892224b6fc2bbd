/** What a prefetch policy decides and books over whole runs, in terms of the graph's steps, the
    objects registered for them and the policy's own events. */
module PrefetchRuns {
  import opened AgentPrefetch
  import opened AgentPrefetchModel
  import opened AgentPrefetchTheorems
  import opened Collections
  import opened Sorting
  import opened StepGraphModel
  import opened StepHistory
  import opened Wrappers
  import Graphs = StepGraphTheorems

  // Decisions

  /** The list of a step's objects each type is taken from, and its weight: a KV block before a tool
      artifact, a RAG object, a plan and a semantic entry. */
  lemma FieldsAndWeights(o: StepObjects, rank: nat)
    ensures o.Of(PrefetchType.KvCache) == o.kv && PriorityAt(PrefetchType.KvCache, rank) * (1.0 + rank as real) == 1.0
    ensures o.Of(ToolArtifact) == o.tool && PriorityAt(ToolArtifact, rank) * (1.0 + rank as real) == 0.9
    ensures o.Of(Rag) == o.rag && PriorityAt(Rag, rank) * (1.0 + rank as real) == 0.85
    ensures o.Of(PlanCache) == o.plan && PriorityAt(PlanCache, rank) * (1.0 + rank as real) == 0.8
    ensures o.Of(Semantic) == o.semantic && PriorityAt(Semantic, rank) * (1.0 + rank as real) == 0.75
  {
    assert 1.0 / (1.0 + rank as real) * (1.0 + rank as real) == 1.0;
  }

  /** Registering keeps each list under its own type, without repeats and empty ids. */
  lemma RegisteredFields(o: StepObjects)
    ensures var r := DedupedObjects(o);
            && (forall id :: id in r.kv <==> id in o.kv && id != "")
            && (forall id :: id in r.rag <==> id in o.rag && id != "")
            && (forall id :: id in r.semantic <==> id in o.semantic && id != "")
            && (forall id :: id in r.tool <==> id in o.tool && id != "")
            && (forall id :: id in r.plan <==> id in o.plan && id != "")
            && Distinct(r.kv) && Distinct(r.rag) && Distinct(r.semantic) && Distinct(r.tool) && Distinct(r.plan)
  {
    DedupedCorrect(o.kv);
    DedupedCorrect(o.rag);
    DedupedCorrect(o.semantic);
    DedupedCorrect(o.tool);
    DedupedCorrect(o.plan);
  }

  /** In every run the steps looked at are the first `topK` uncompleted children of the current step, or,
      without any, uncompleted steps after it; none without a known current step. */
  lemma AheadIsExact(ops: seq<Graphs.Op>, current: Option<string>, topK: nat)
    requires topK > 0
    ensures var g := Graphs.Run(ops);
            && (current.None? || current.value !in g.steps ==> Ahead(g, current, topK) == [])
            && (current.Some? && current.value in g.steps ==>
                  IsHead(Ahead(g, current, topK), Listed(g.workflows, g.steps[current.value].workflowId),
                         if OpenChildren(g, current.value) != {} then OpenChildren(g, current.value)
                         else OpenLater(g, current.value), topK))
  {
    hide IsHead, OpenChildren, OpenLater, Graphs.Run;
    var g := Graphs.Run(ops);
    if current.Some? && current.value in g.steps {
      PredictionsAreExact(ops, g.steps[current.value].workflowId, current.value, topK);
    }
  }

  /** So each decision is for an object of such a step, at the weight of its type over one plus the
      rank of the first of them that holds it. */
  lemma DecisionsAreForStepsAhead(ops: seq<Graphs.Op>, current: Option<string>, topK: nat, maxDecisions: nat,
                                  objects: map<string, StepObjects>, d: Decision)
    requires topK > 0 && d in DecisionsFor(objects, Ahead(Graphs.Run(ops), current, topK), maxDecisions)
    ensures var g := Graphs.Run(ops);
            && current.Some? && current.value in g.steps
            && exists r, id :: id in (if OpenChildren(g, current.value) != {} then OpenChildren(g, current.value)
                                      else OpenLater(g, current.value))
                 && id in objects && d.objectId in objects[id].Of(d.prefetchType)
                 && 0 <= r < topK && d.priority == PriorityAt(d.prefetchType, r)
                 && FirstHolder(objects, Ahead(g, current, topK), r, d.prefetchType, d.objectId)
  {
    hide OpenChildren, OpenLater, Graphs.Run, Ahead, DecisionsFor, PriorityAt;
    var ahead := Ahead(Graphs.Run(ops), current, topK);
    AheadIsExact(ops, current, topK);
    DecisionHasHolder(objects, ahead, maxDecisions, d);
    var r: nat :| FirstHolder(objects, ahead, r, d.prefetchType, d.objectId) && d.priority == PriorityAt(d.prefetchType, r);
    assert HoldsAt(objects, ahead, r, d.prefetchType, d.objectId);
    assert ahead[r] in ahead;
  }

  lemma DecisionHasHolder(objects: map<string, StepObjects>, stepIds: seq<string>, maxDecisions: nat, d: Decision)
    requires d in DecisionsFor(objects, stepIds, maxDecisions)
    ensures exists r: nat :: FirstHolder(objects, stepIds, r, d.prefetchType, d.objectId) && d.priority == PriorityAt(d.prefetchType, r)
  {
    hide DecisionsFor, PriorityAt;
    var rest := DecisionsAreStableTop(objects, stepIds, maxDecisions);
    var top, entries := DecisionsFor(objects, stepIds, maxDecisions), Entries(objects, stepIds);
    EntriesAreFirstHolders(objects, stepIds);
    assert d in multiset(top + rest);
    assert d in multiset(entries);
    assert d in entries;
  }

  // The ledger

  predicate PredictsAt(es: seq<Event>, i: int, id: string) {
    0 <= i < |es| && es[i].Predict? && exists k :: 0 <= k < |es[i].decisions| && es[i].decisions[k].objectId == id
  }

  /** Event `j` reports the use of an object predicted before. */
  predicate UsesAt(es: seq<Event>, j: int, id: string) {
    && 0 <= j < |es| && es[j].Used? && es[j].objectId == id && es[j].latencySaved >= 0.0
    && exists i :: 0 <= i < j && PredictsAt(es, i, id)
  }

  predicate WastesAt(es: seq<Event>, j: int, id: string) {
    && 0 <= j < |es| && es[j].Wasted? && es[j].objectId == id && es[j].sizeBytes >= 0
    && exists i :: 0 <= i < j && PredictsAt(es, i, id)
  }

  predicate WasUsed(es: seq<Event>, id: string) { exists j :: 0 <= j < |es| && UsesAt(es, j, id) }

  predicate WasWasted(es: seq<Event>, id: string) { exists j :: 0 <= j < |es| && WastesAt(es, j, id) }

  predicate WasPredicted(es: seq<Event>, id: string) { exists i :: 0 <= i < |es| && PredictsAt(es, i, id) }

  lemma PredictedSnoc(es: seq<Event>, id: string)
    requires es != []
    ensures var n := |es| - 1; WasPredicted(es, id) <==> WasPredicted(es[..n], id) || PredictsAt(es, n, id)
  {
    var n := |es| - 1;
    forall i | 0 <= i < n ensures PredictsAt(es[..n], i, id) <==> PredictsAt(es, i, id) {
    }
    if WasPredicted(es[..n], id) {
      var i :| 0 <= i < n && PredictsAt(es[..n], i, id);
      assert PredictsAt(es, i, id);
    }
  }

  lemma UsedSnoc(es: seq<Event>, id: string)
    requires es != []
    ensures var n := |es| - 1;
            && (WasUsed(es, id) <==> WasUsed(es[..n], id) || UsesAt(es, n, id))
            && (WasWasted(es, id) <==> WasWasted(es[..n], id) || WastesAt(es, n, id))
            && (UsesAt(es, n, id) <==>
                  es[n].Used? && es[n].objectId == id && es[n].latencySaved >= 0.0 && WasPredicted(es[..n], id))
            && (WastesAt(es, n, id) <==>
                  es[n].Wasted? && es[n].objectId == id && es[n].sizeBytes >= 0 && WasPredicted(es[..n], id))
  {
    hide PredictsAt;
    var n := |es| - 1;
    forall i | 0 <= i < n ensures PredictsAt(es[..n], i, id) <==> PredictsAt(es, i, id) {
      SamePrediction(es, i, id);
    }
    forall j | 0 <= j < n ensures UsesAt(es[..n], j, id) <==> UsesAt(es, j, id)
      ensures WastesAt(es[..n], j, id) <==> WastesAt(es, j, id)
    {
    }
    if WasUsed(es[..n], id) {
      var j :| 0 <= j < n && UsesAt(es[..n], j, id);
      assert UsesAt(es, j, id);
    }
    if WasWasted(es[..n], id) {
      var j :| 0 <= j < n && WastesAt(es[..n], j, id);
      assert WastesAt(es, j, id);
    }
    if WasPredicted(es[..n], id) {
      var i :| 0 <= i < n && PredictsAt(es[..n], i, id);
      assert PredictsAt(es, i, id);
    }
  }

  lemma SamePrediction(es: seq<Event>, i: int, id: string)
    requires es != [] && i < |es| - 1
    ensures PredictsAt(es[..|es| - 1], i, id) <==> PredictsAt(es, i, id)
  {
  }

  lemma StepOfSets(l: Ledger, e: Event, id: string)
    ensures var l' := LedgerStep(l, e);
            && (id in l'.predicted <==> id in l.predicted || PredictsAt([e], 0, id))
            && (id in l'.used <==>
                  id in l.used || (e.Used? && e.objectId == id && e.latencySaved >= 0.0 && id in l.predicted))
            && (id in l'.wasted <==>
                  id in l.wasted || (e.Wasted? && e.objectId == id && e.sizeBytes >= 0 && id in l.predicted))
  {
    if e.Predict? {
      var ids := IdsOf(e.decisions);
      assert id in ToSet(ids) <==> exists k :: 0 <= k < |ids| && ids[k] == id;
      if PredictsAt([e], 0, id) {
        var k :| 0 <= k < |e.decisions| && e.decisions[k].objectId == id;
        assert ids[k] == id;
      }
      if k :| 0 <= k < |ids| && ids[k] == id {
        assert [e][0].decisions[k].objectId == id;
      }
    }
  }

  /** In every run an object is booked as predicted if and only if some prediction named it, and as used
      or wasted if and only if that was reported after such a prediction. */
  lemma {:induction false} LedgerSetsAreExact(es: seq<Event>, id: string)
    ensures id in LedgerAfter(es).predicted <==> WasPredicted(es, id)
    ensures id in LedgerAfter(es).used <==> WasUsed(es, id)
    ensures id in LedgerAfter(es).wasted <==> WasWasted(es, id)
  {
    if es != [] {
      hide LedgerStep, WasUsed, WasWasted, WasPredicted;
      var n := |es| - 1;
      LedgerSetsAreExact(es[..n], id);
      StepOfSets(LedgerAfter(es[..n]), es[n], id);
      PredictedSnoc(es, id);
      UsedSnoc(es, id);
      assert PredictsAt([es[n]], 0, id) <==> PredictsAt(es, n, id);
    }
  }

  datatype Sums = Sums(requests: nat, decisions: nat, expected: nat, hits: nat, saved: real, wasted: int) {
    function Plus(t: Sums): Sums {
      Sums(requests + t.requests, decisions + t.decisions, expected + t.expected, hits + t.hits, saved + t.saved, wasted + t.wasted)
    }
  }

  /** What one event adds: savings and wasted sizes count with the first report of each object. */
  function SumsAt(es: seq<Event>, n: nat): Sums
    requires n < |es|
  {
    match es[n]
    case Predict(ds) => Sums(1, |ds|, 0, 0, 0.0, 0)
    case Used(id, saved) =>
      Sums(0, 0, 0, 0, if UsesAt(es, n, id) && !WasUsed(es[..n], id) then saved else 0.0, 0)
    case Wasted(id, size) =>
      Sums(0, 0, 0, 0, 0.0, if WastesAt(es, n, id) && !WasWasted(es[..n], id) then size else 0)
    case Requested(ids) =>
      var asked := set id | id in ids && id != "";
      Sums(0, 0, |asked|, |set id | id in asked && WasPredicted(es[..n], id)|, 0.0, 0)
  }

  function SumsOf(es: seq<Event>): Sums {
    if es == [] then Sums(0, 0, 0, 0, 0.0, 0)
    else
      var n := |es| - 1;
      SumsOf(es[..n]).Plus(SumsAt(es, n))
  }

  predicate Adds(l: Ledger, t: Sums, l': Ledger) {
    && l'.requests == l.requests + t.requests && l'.prefetchCount == l.prefetchCount + t.decisions
    && l'.expected == l.expected + t.expected && l'.recallHits == l.recallHits + t.hits
    && l'.latencySaved == l.latencySaved + t.saved && l'.wastedBytes == l.wastedBytes + t.wasted
  }

  lemma StepAdds(es: seq<Event>)
    requires es != []
    ensures var n := |es| - 1; Adds(LedgerAfter(es[..n]), SumsAt(es, n), LedgerAfter(es))
  {
    hide WasUsed, WasWasted, WasPredicted, UsesAt, WastesAt;
    var n := |es| - 1;
    var l := LedgerAfter(es[..n]);
    match es[n]
    case Predict(_) =>
    case Used(id, _) =>
      LedgerSetsAreExact(es[..n], id);
      UsedSnoc(es, id);
    case Wasted(id, _) =>
      LedgerSetsAreExact(es[..n], id);
      UsedSnoc(es, id);
    case Requested(ids) =>
      forall id ensures id in l.predicted <==> WasPredicted(es[..n], id) {
        LedgerSetsAreExact(es[..n], id);
      }
      var asked := set id | id in ids && id != "";
      assert RequestedIds(ids) == asked;
      assert asked * l.predicted == set id | id in asked && WasPredicted(es[..n], id);
  }

  /** Every total of the ledger is the sum of what the run's events add to it. */
  lemma {:induction false} LedgerTotalsAreSums(es: seq<Event>)
    ensures Adds(EMPTY_LEDGER, SumsOf(es), LedgerAfter(es))
  {
    if es != [] {
      hide SumsAt, LedgerAfter, Adds, Sums.Plus;
      var n := |es| - 1;
      LedgerTotalsAreSums(es[..n]);
      StepAdds(es);
      AddsMore(EMPTY_LEDGER, SumsOf(es[..n]), LedgerAfter(es[..n]), SumsAt(es, n), LedgerAfter(es));
    }
  }

  lemma AddsMore(l: Ledger, s: Sums, m: Ledger, t: Sums, n: Ledger)
    requires Adds(l, s, m) && Adds(m, t, n)
    ensures Adds(l, s.Plus(t), n)
  {
  }

  /** Precision is used over predicted decisions, and recall hits over expected objects. */
  lemma PrecisionAndRecallAre(l: Ledger)
    ensures if l.prefetchCount == 0 then Precision(l) == 0.0 else Precision(l) * l.prefetchCount as real == |l.used| as real
    ensures if l.expected == 0 then Recall(l) == 0.0 else Recall(l) * l.expected as real == l.recallHits as real
  {
  }
}
