/** The prefetch policy of `policies/prefetch/agent_prefetch.py`, over a step graph. */
module AgentPrefetch {
  import opened AgentPrefetchModel
  import opened AgentPrefetchTheorems
  import opened Collections
  import opened Sorting
  import opened StepGraphModel
  import opened StepGraphTheorems
  import opened StepGraphs
  import opened Wrappers

  /** The steps a policy looks ahead to from its current step. */
  function Ahead(g: Graph, current: Option<string>, topK: int): seq<string> {
    if current.None? || current.value !in g.steps then []
    else NextSteps(g, g.steps[current.value].workflowId, current.value, topK)
  }

  class AgentPrefetchPolicy {
    const graph: AgentStepGraph
    const nextStepTopK: nat
    const maxDecisions: nat
    var currentStepId: Option<string>
    var stepObjects: map<string, StepObjects>
    var predictedIds: set<string>
    var usedIds: set<string>
    var wastedIds: set<string>
    var requests: nat
    var agentPrefetchCount: nat
    var expectedCount: nat
    var recallHits: nat
    var wastedBytes: nat
    var latencySaved: real

    ghost function Ledger(): Ledger
      reads this
    {
      AgentPrefetchModel.Ledger(predictedIds, usedIds, wastedIds, requests, agentPrefetchCount, expectedCount,
                                recallHits, wastedBytes, latencySaved)
    }

    constructor (graph: AgentStepGraph, currentStepId: Option<string>, nextStepTopK: nat, maxDecisions: nat)
      requires nextStepTopK > 0 && maxDecisions > 0
      ensures this.graph == graph && this.currentStepId == currentStepId
      ensures this.nextStepTopK == nextStepTopK && this.maxDecisions == maxDecisions
      ensures stepObjects == map[] && Ledger() == EMPTY_LEDGER
    {
      this.graph, this.currentStepId := graph, currentStepId;
      this.nextStepTopK, this.maxDecisions := nextStepTopK, maxDecisions;
      stepObjects := map[];
      predictedIds, usedIds, wastedIds := {}, {}, {};
      requests, agentPrefetchCount, expectedCount, recallHits, wastedBytes := 0, 0, 0, 0, 0;
      latencySaved := 0.0;
    }

    method SetCurrentStep(stepId: Option<string>)
      modifies this`currentStepId
      ensures currentStepId == stepId
    {
      currentStepId := stepId;
    }

    /** Fails on an empty step id. */
    method RegisterStepObjects(stepId: string, objects: StepObjects) returns (registered: bool)
      modifies this`stepObjects
      ensures registered <==> stepId != ""
      ensures stepObjects == if registered then old(stepObjects)[stepId := DedupedObjects(objects)] else old(stepObjects)
    {
      if stepId == "" {
        return false;
      }
      stepObjects := stepObjects[stepId := DedupedObjects(objects)];
      return true;
    }

    method PredictPrefetch() returns (decisions: seq<Decision>)
      requires graph.Valid()
      modifies this
      ensures decisions == DecisionsFor(stepObjects, Ahead(graph.view, currentStepId, nextStepTopK), maxDecisions)
      ensures Ledger() == LedgerStep(old(Ledger()), Predict(decisions))
      ensures stepObjects == old(stepObjects) && currentStepId == old(currentStepId)
    {
      hide LedgerStep, DecisionsFor, Ahead;
      decisions := LookAhead();
      Book(decisions);
    }

    /** The decisions for the steps ahead; none without a known current step. */
    method LookAhead() returns (decisions: seq<Decision>)
      requires graph.Valid()
      ensures decisions == DecisionsFor(stepObjects, Ahead(graph.view, currentStepId, nextStepTopK), maxDecisions)
    {
      hide WellFormed, NextSteps, StableDescending, Merged;
      if currentStepId.None? || currentStepId.value !in graph.steps {
        decisions := NoDecisions();
        return;
      }
      var workflow := graph.WorkflowOf(currentStepId.value);
      var next := graph.PredictNextSteps(workflow, currentStepId.value, nextStepTopK);
      match next {
        case Success(steps) =>
          decisions := DecisionsForSteps(steps);
      }
    }

    method Book(decisions: seq<Decision>)
      modifies this`requests, this`agentPrefetchCount, this`predictedIds
      ensures Ledger() == LedgerStep(old(Ledger()), Predict(decisions))
    {
      requests := requests + 1;
      agentPrefetchCount := agentPrefetchCount + |decisions|;
      predictedIds := predictedIds + ToSet(IdsOf(decisions));
    }

    method NoDecisions() returns (none: seq<Decision>)
      ensures none == [] && none == DecisionsFor(stepObjects, [], maxDecisions)
    {
      none := [];
    }

    method DecisionsForSteps(stepIds: seq<string>) returns (decisions: seq<Decision>)
      ensures decisions == DecisionsFor(stepObjects, stepIds, maxDecisions)
    {
      hide StableDescending, StepCandidates;
      var entries: seq<Decision> := [];
      for rank := 0 to |stepIds|
        invariant entries == Entries(stepObjects, stepIds[..rank])
      {
        assert stepIds[..rank + 1][..rank] == stepIds[..rank];
        EntriesSnoc(stepObjects, stepIds[..rank + 1]);
        if stepIds[rank] in stepObjects {
          entries := MergeStep(entries, stepObjects[stepIds[rank]], rank);
        }
      }
      assert stepIds[..|stepIds|] == stepIds;
      var sorted := StableDescending(entries, Priority);
      decisions := if |sorted| > maxDecisions then sorted[..maxDecisions] else sorted;
    }

    /** The two inner loops: a step's object lists by type, and their ids. */
    method MergeStep(entries: seq<Decision>, o: StepObjects, rank: nat) returns (merged: seq<Decision>)
      ensures merged == Merged(entries, StepCandidates(o, rank))
    {
      var groups := [(KvCache, o.kv), (ToolArtifact, o.tool), (Rag, o.rag), (PlanCache, o.plan), (Semantic, o.semantic)];
      merged := entries;
      ghost var done: seq<Decision> := [];
      for i := 0 to 5
        invariant done == GroupCandidates(groups[..i], rank) && merged == Merged(entries, done)
      {
        assert groups[..i + 1][..i] == groups[..i];
        var (t, ids) := groups[i];
        MergedConcat(entries, done, OfType(t, ids, rank));
        merged := MergeIds(merged, t, ids, rank);
        done := done + OfType(t, ids, rank);
      }
      GroupsAreStep(o, rank);
      assert groups[..5] == groups;
    }

    static ghost function GroupCandidates(groups: seq<(PrefetchType, seq<string>)>, rank: nat): seq<Decision> {
      if groups == [] then []
      else GroupCandidates(groups[..|groups| - 1], rank) + OfType(groups[|groups| - 1].0, groups[|groups| - 1].1, rank)
    }

    static lemma GroupsAreStep(o: StepObjects, rank: nat)
      ensures GroupCandidates([(KvCache, o.kv), (ToolArtifact, o.tool), (Rag, o.rag), (PlanCache, o.plan), (Semantic, o.semantic)], rank)
           == StepCandidates(o, rank)
    {
      hide OfType;
      var g5 := [(KvCache, o.kv), (ToolArtifact, o.tool), (Rag, o.rag), (PlanCache, o.plan), (Semantic, o.semantic)];
      var g4 := [(KvCache, o.kv), (ToolArtifact, o.tool), (Rag, o.rag), (PlanCache, o.plan)];
      var g3 := [(KvCache, o.kv), (ToolArtifact, o.tool), (Rag, o.rag)];
      var g2 := [(KvCache, o.kv), (ToolArtifact, o.tool)];
      assert g5[..4] == g4 && g4[..3] == g3 && g3[..2] == g2 && g2[..1] == [(KvCache, o.kv)];
      assert [(KvCache, o.kv)][..0] == [];
      assert GroupCandidates([(KvCache, o.kv)], rank) == OfType(KvCache, o.kv, rank);
      assert GroupCandidates(g2, rank) == OfType(KvCache, o.kv, rank) + OfType(ToolArtifact, o.tool, rank);
      assert GroupCandidates(g3, rank) == GroupCandidates(g2, rank) + OfType(Rag, o.rag, rank);
      assert GroupCandidates(g4, rank) == GroupCandidates(g3, rank) + OfType(PlanCache, o.plan, rank);
    }

    method MergeIds(entries: seq<Decision>, t: PrefetchType, ids: seq<string>, rank: nat) returns (merged: seq<Decision>)
      ensures merged == Merged(entries, OfType(t, ids, rank))
    {
      var priority := PriorityAt(t, rank);
      merged := entries;
      for i := 0 to |ids|
        invariant merged == Merged(entries, OfType(t, ids[..i], rank))
      {
        ghost var more := OfType(t, ids[..i + 1], rank);
        assert more[..|more| - 1] == OfType(t, ids[..i], rank);
        assert more[|more| - 1] == Decision(ids[i], t, priority);
        merged := Upsert(merged, Decision(ids[i], t, priority));
      }
      assert ids[..|ids|] == ids;
    }

    method OnPrefetchUsed(objectId: string, saved: real) returns (accepted: bool)
      modifies this
      ensures accepted <==> saved >= 0.0
      ensures Ledger() == LedgerStep(old(Ledger()), Used(objectId, saved))
    {
      if saved < 0.0 {
        return false;
      }
      if objectId in predictedIds && objectId !in usedIds {
        usedIds := usedIds + {objectId};
        latencySaved := latencySaved + saved;
      }
      return true;
    }

    method OnPrefetchWasted(objectId: string, sizeBytes: int) returns (accepted: bool)
      modifies this
      ensures accepted <==> sizeBytes >= 0
      ensures Ledger() == LedgerStep(old(Ledger()), Wasted(objectId, sizeBytes))
    {
      if sizeBytes < 0 {
        return false;
      }
      if objectId in predictedIds && objectId !in wastedIds {
        wastedIds := wastedIds + {objectId};
        wastedBytes := wastedBytes + sizeBytes;
      }
      return true;
    }

    method OnObjectsRequested(objectIds: seq<string>)
      modifies this
      ensures Ledger() == LedgerStep(old(Ledger()), Requested(objectIds))
    {
      var requested := RequestedIds(objectIds);
      expectedCount := expectedCount + |requested|;
      recallHits := recallHits + |requested * predictedIds|;
    }
  }
}
