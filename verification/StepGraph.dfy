/** The mutable step graph of `metadata/agent_step_graph.py`: node objects reached through maps. */
module StepGraphs {
  import opened StepGraphModel
  import opened StepGraphTheorems
  import opened Wrappers

  class AgentStepNode {
    const workflowId: string
    const stepId: string
    const agentId: string
    const parentStepId: Option<string>
    const turnId: int
    var completed: bool
    var childStepIds: seq<string>

    constructor (workflowId: string, stepId: string, agentId: string, parentStepId: Option<string>, turnId: int)
      ensures Value() == StepNode(workflowId, stepId, agentId, parentStepId, false, [], turnId)
    {
      this.workflowId, this.stepId, this.agentId := workflowId, stepId, agentId;
      this.parentStepId, this.turnId := parentStepId, turnId;
      completed, childStepIds := false, [];
    }

    ghost function Value(): StepNode
      reads this
    {
      StepNode(workflowId, stepId, agentId, parentStepId, completed, childStepIds, turnId)
    }
  }

  class AgentStepGraph {
    var workflowSteps: map<string, seq<string>>
    var steps: map<string, AgentStepNode>
    var agentSteps: map<string, seq<string>>
    ghost var view: Graph

    ghost predicate Represents(g: Graph)
      reads this, steps.Values
    {
      g.workflows == workflowSteps && g.agents == agentSteps && HasNodes(g.steps)
    }

    ghost predicate HasNodes(nodes: Steps)
      reads this`steps, steps.Values
    {
      && nodes.Keys == steps.Keys
      && forall id :: id in steps ==> steps[id].Value() == nodes[id] && steps[id].stepId == id
    }

    ghost predicate Valid()
      reads this, steps.Values
    {
      Represents(view) && WellFormed(view)
    }

    constructor ()
      ensures Valid() && view == EMPTY_GRAPH && steps == map[]
    {
      workflowSteps, steps, agentSteps := map[], map[], map[];
      view := EMPTY_GRAPH;
    }

    method AddWorkflow(workflowId: string)
      requires Valid()
      modifies this
      ensures Valid() && steps == old(steps)
      ensures view == Step(old(view), StepGraphTheorems.AddWorkflow(workflowId))
    {
      hide WellFormed;
      StepKeepsWellFormed(view, StepGraphTheorems.AddWorkflow(workflowId));
      if workflowId !in workflowSteps {
        workflowSteps := workflowSteps[workflowId := []];
      }
      view := WorkflowAdded(view, workflowId);
    }

    method AddStep(workflowId: string, stepId: string, agentId: string, parentStepId: Option<string>, turnId: int)
      returns (error: Option<GraphError>)
      requires Valid()
      modifies this, steps.Values
      ensures Valid() && fresh(steps.Values - old(steps.Values))
      ensures view == Step(old(view), StepGraphTheorems.AddStep(workflowId, stepId, agentId, parentStepId, turnId))
      ensures error == AddErrorOf(old(view), workflowId, stepId, parentStepId)
    {
      hide WellFormed, HasNodes;
      StepKeepsWellFormed(view, StepGraphTheorems.AddStep(workflowId, stepId, agentId, parentStepId, turnId));
      error := CheckStep(workflowId, stepId, parentStepId);
      if error.None? {
        InsertStep(workflowId, stepId, agentId, parentStepId, turnId);
        view := StepAdded(view, workflowId, stepId, agentId, parentStepId, turnId);
      }
    }

    method CheckStep(workflowId: string, stepId: string, parentStepId: Option<string>) returns (error: Option<GraphError>)
      requires Represents(view)
      ensures error == AddErrorOf(view, workflowId, stepId, parentStepId)
    {
      if stepId in steps {
        return Some(StepExists);
      }
      if parentStepId.Some? && parentStepId.value !in steps {
        return Some(UnknownParent);
      }
      if parentStepId.Some? && steps[parentStepId.value].workflowId != workflowId {
        return Some(ParentElsewhere);
      }
      return None;
    }

    method InsertStep(workflowId: string, stepId: string, agentId: string, parentStepId: Option<string>, turnId: int)
      requires Represents(view) && AddErrorOf(view, workflowId, stepId, parentStepId).None?
      modifies this, steps.Values
      ensures view == old(view) && fresh(steps.Values - old(steps.Values))
      ensures Represents(StepAdded(view, workflowId, stepId, agentId, parentStepId, turnId))
    {
      hide HasNodes;
      NodesAreSteps(view.steps);
      AppendToLists(workflowId, stepId, agentId);
      InsertNode(workflowId, stepId, agentId, parentStepId, turnId);
      if parentStepId.Some? {
        ghost var node := StepNode(workflowId, stepId, agentId, parentStepId, false, [], turnId);
        AdoptChild(view.steps[stepId := node], parentStepId.value, stepId);
      }
    }

    method AppendToLists(workflowId: string, stepId: string, agentId: string)
      modifies this`workflowSteps, this`agentSteps
      ensures workflowSteps == old(workflowSteps)[workflowId := Listed(old(workflowSteps), workflowId) + [stepId]]
      ensures agentSteps == old(agentSteps)[agentId := Listed(old(agentSteps), agentId) + [stepId]]
    {
      if workflowId !in workflowSteps {
        workflowSteps := workflowSteps[workflowId := []];
      }
      workflowSteps := workflowSteps[workflowId := workflowSteps[workflowId] + [stepId]];
      if agentId !in agentSteps {
        agentSteps := agentSteps[agentId := []];
      }
      agentSteps := agentSteps[agentId := agentSteps[agentId] + [stepId]];
    }

    /** Creates the node, before its parent learns of it. */
    method InsertNode(workflowId: string, stepId: string, agentId: string, parentStepId: Option<string>, turnId: int)
      requires HasNodes(view.steps) && stepId !in steps
      modifies this`steps
      ensures HasNodes(view.steps[stepId := StepNode(workflowId, stepId, agentId, parentStepId, false, [], turnId)])
      ensures fresh(steps[stepId]) && steps == old(steps)[stepId := steps[stepId]]
    {
      var node := new AgentStepNode(workflowId, stepId, agentId, parentStepId, turnId);
      steps := steps[stepId := node];
    }

    method AdoptChild(ghost nodes: Steps, parent: string, child: string)
      requires HasNodes(nodes) && parent in steps && parent in nodes
      modifies steps[parent]
      ensures HasNodes(nodes[parent := nodes[parent].(children := nodes[parent].children + [child])])
    {
      var node := steps[parent];
      node.childStepIds := node.childStepIds + [child];
    }

    method MarkStepCompleted(stepId: string) returns (error: Option<GraphError>)
      requires Valid()
      modifies this`view, if stepId in steps then {steps[stepId]} else {}
      ensures Valid()
      ensures view == Step(old(view), Complete(stepId))
      ensures error == if stepId in old(view).steps then None else Some(UnknownStep)
    {
      hide WellFormed, HasNodes;
      StepKeepsWellFormed(view, Complete(stepId));
      NodesAreSteps(view.steps);
      if stepId !in steps {
        return Some(UnknownStep);
      }
      CompleteNode(view.steps, stepId);
      view := StepCompleted(view, stepId);
      return None;
    }

    lemma NodesAreSteps(nodes: Steps)
      requires HasNodes(nodes)
      ensures nodes.Keys == steps.Keys
      ensures forall id :: id in steps ==> steps[id].Value() == nodes[id]
    {
    }

    method CompleteNode(ghost nodes: Steps, stepId: string)
      requires HasNodes(nodes) && stepId in steps && stepId in nodes
      modifies steps[stepId]
      ensures HasNodes(nodes[stepId := nodes[stepId].(completed := true)])
    {
      var node := steps[stepId];
      node.completed := true;
    }

    /** A list comprehension over the uncompleted ids. */
    method KeepUncompleted(ids: seq<string>) returns (kept: seq<string>)
      requires Represents(view) && forall id :: id in ids ==> id in steps
      ensures kept == Uncompleted(view.steps, ids)
    {
      kept := [];
      for i := 0 to |ids|
        invariant kept == Uncompleted(view.steps, ids[..i])
      {
        assert ids[..i + 1][..i] == ids[..i] && ids[i] in ids;
        if !steps[ids[i]].completed {
          kept := kept + [ids[i]];
        }
      }
      assert ids[..|ids|] == ids;
    }

    method FutureUncompletedSteps(current: string) returns (future: seq<string>)
      requires Valid() && current in steps
      ensures future == Future(view, view.steps[current].workflowId, current)
    {
      hide WellFormed;
      var order := workflowSteps[WorkflowOf(current)];
      ListedOwn(current);
      var i := IndexOf(order, current);
      future := KeepUncompleted(order[i + 1..]);
    }

    function WorkflowOf(id: string): (w: string)
      requires id in steps
      requires Valid()
      reads this, steps.Values
      ensures w == view.steps[id].workflowId && w in workflowSteps
    {
      assert IsListed(view, id);
      steps[id].workflowId
    }

    lemma ListedOwn(id: string)
      requires Valid() && id in steps
      ensures var order := Listed(view.workflows, view.steps[id].workflowId);
              id in order && forall i :: i in order ==> i in steps
    {
      assert IsListed(view, id) && ListsOwn(view, view.steps[id].workflowId);
    }

    lemma ChildrenExist(id: string)
      requires Valid() && id in steps
      ensures forall i :: i in view.steps[id].children ==> i in steps
    {
      assert ChildListed(view, id) && IsListed(view, id);
      ChildrenMembers(view.steps, Listed(view.workflows, view.steps[id].workflowId), id);
    }

    method PredictNextSteps(workflowId: string, current: string, topK: int) returns (result: Result<seq<string>, GraphError>)
      requires Valid()
      ensures result == match PredictErrorOf(view, workflowId, current, topK)
                        case Some(e) => Failure(e)
                        case None => Success(NextSteps(view, workflowId, current, topK))
    {
      if topK <= 0 {
        return Success([]);
      }
      hide WellFormed, NextCandidates, Take, HasNodes;
      NodesAreSteps(view.steps);
      if current !in steps {
        return Failure(UnknownStep);
      }
      if WorkflowOf(current) != workflowId {
        return Failure(OtherWorkflow);
      }
      var candidates := Candidates(current);
      return Success(Take(candidates, topK));
    }

    method Candidates(current: string) returns (candidates: seq<string>)
      requires Valid() && current in steps && current in view.steps
      ensures candidates == NextCandidates(view, view.steps[current].workflowId, current)
    {
      hide WellFormed, Future, Uncompleted, HasNodes;
      NodesAreSteps(view.steps);
      ChildrenExist(current);
      candidates := KeepUncompleted(steps[current].childStepIds);
      if candidates == [] {
        candidates := FutureUncompletedSteps(current);
      }
    }

    method StepsTo(agentId: string, current: string) returns (result: Result<Option<nat>, GraphError>)
      requires Valid()
      ensures result == if current !in view.steps then Failure(UnknownStep)
                        else Success(StepsToExecution(view, agentId, current))
    {
      if current !in steps {
        return Failure(UnknownStep);
      }
      hide WellFormed, Future, Distance;
      var future := FutureUncompletedSteps(current);
      FutureExists(current);
      var distance := FirstOfAgent(future, agentId);
      return Success(distance);
    }

    method FirstOfAgent(future: seq<string>, agentId: string) returns (distance: Option<nat>)
      requires Represents(view) && forall id :: id in future ==> id in steps
      ensures distance == Distance(view.steps, future, agentId)
    {
      assert future[0..] == future;
      for i := 0 to |future|
        invariant Later(Distance(view.steps, future[i..], agentId), i) == Distance(view.steps, future, agentId)
      {
        assert future[i..][1..] == future[i + 1..] && future[i] in future;
        if steps[future[i]].agentId == agentId {
          return Some(i + 1);
        }
      }
      return None;
    }

    static function Later(d: Option<nat>, n: nat): Option<nat> {
      if d.None? then None else Some(d.value + n)
    }

    lemma FutureExists(current: string)
      requires Valid() && current in steps
      ensures forall id :: id in Future(view, view.steps[current].workflowId, current) ==> id in steps
    {
      FutureMembers(view, current);
      ListedOwn(current);
    }
  }
}
