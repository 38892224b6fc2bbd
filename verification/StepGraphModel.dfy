/** The step graph of `metadata/agent_step_graph.py` as values, and its operations as functions. */
module StepGraphModel {
  import opened Wrappers

  datatype StepNode = StepNode(
    workflowId: string,
    stepId: string,
    agentId: string,
    parent: Option<string>,
    completed: bool,
    children: seq<string>,
    turnId: int)

  type Steps = map<string, StepNode>

  datatype Graph = Graph(workflows: map<string, seq<string>>, steps: Steps, agents: map<string, seq<string>>)

  const EMPTY_GRAPH := Graph(map[], map[], map[])

  datatype GraphError = StepExists | UnknownParent | ParentElsewhere | UnknownStep | OtherWorkflow

  function Listed(lists: map<string, seq<string>>, key: string): seq<string> {
    if key in lists then lists[key] else []
  }

  function WorkflowAdded(g: Graph, workflowId: string): Graph {
    g.(workflows := g.workflows[workflowId := Listed(g.workflows, workflowId)])
  }

  function AddErrorOf(g: Graph, workflowId: string, stepId: string, parent: Option<string>): Option<GraphError> {
    if stepId in g.steps then Some(StepExists)
    else if parent.None? then None
    else if parent.value !in g.steps then Some(UnknownParent)
    else if g.steps[parent.value].workflowId != workflowId then Some(ParentElsewhere)
    else None
  }

  function StepAdded(g: Graph, workflowId: string, stepId: string, agentId: string, parent: Option<string>, turnId: int): Graph
    requires AddErrorOf(g, workflowId, stepId, parent).None?
  {
    var steps := g.steps[stepId := StepNode(workflowId, stepId, agentId, parent, false, [], turnId)];
    Graph(g.workflows[workflowId := Listed(g.workflows, workflowId) + [stepId]],
          if parent.None? then steps
          else steps[parent.value := g.steps[parent.value].(children := g.steps[parent.value].children + [stepId])],
          g.agents[agentId := Listed(g.agents, agentId) + [stepId]])
  }

  function StepCompleted(g: Graph, stepId: string): Graph
    requires stepId in g.steps
  {
    g.(steps := g.steps[stepId := g.steps[stepId].(completed := true)])
  }

  // Reading the graph

  /** The first position of an id, or the length if it is not listed. */
  function IndexOf(order: seq<string>, id: string): (i: nat)
    ensures i <= |order|
    ensures i < |order| ==> order[i] == id
    ensures id in order <==> i < |order|
  {
    if order == [] then 0
    else if order[0] == id then 0
    else 1 + IndexOf(order[1..], id)
  }

  function Uncompleted(steps: Steps, order: seq<string>): seq<string> {
    if order == [] then []
    else
      var front, last := Uncompleted(steps, order[..|order| - 1]), order[|order| - 1];
      if last in steps && !steps[last].completed then front + [last] else front
  }

  function ChildrenIn(steps: Steps, order: seq<string>, parent: string): seq<string> {
    if order == [] then []
    else
      var front, last := ChildrenIn(steps, order[..|order| - 1], parent), order[|order| - 1];
      if last in steps && steps[last].parent == Some(parent) then front + [last] else front
  }

  /** The uncompleted steps listed after the current one in a workflow. */
  function Future(g: Graph, workflowId: string, current: string): seq<string> {
    var order := Listed(g.workflows, workflowId);
    if current in order then Uncompleted(g.steps, order[IndexOf(order, current) + 1..]) else []
  }

  function Take(xs: seq<string>, n: int): seq<string> {
    if n <= 0 then [] else if n < |xs| then xs[..n] else xs
  }

  function PredictErrorOf(g: Graph, workflowId: string, current: string, topK: int): Option<GraphError> {
    if topK <= 0 then None
    else if current !in g.steps then Some(UnknownStep)
    else if g.steps[current].workflowId != workflowId then Some(OtherWorkflow)
    else None
  }

  /** The uncompleted children of the current step, or else all uncompleted steps after it. */
  function NextCandidates(g: Graph, workflowId: string, current: string): seq<string>
    requires current in g.steps
  {
    var children := Uncompleted(g.steps, g.steps[current].children);
    if children == [] then Future(g, workflowId, current) else children
  }

  function NextSteps(g: Graph, workflowId: string, current: string, topK: int): seq<string>
    requires topK <= 0 || current in g.steps
  {
    if topK <= 0 then [] else Take(NextCandidates(g, workflowId, current), topK)
  }

  /** The position, from one, of the first listed step of an agent. */
  function Distance(steps: Steps, future: seq<string>, agentId: string): Option<nat> {
    if future == [] then None
    else if future[0] in steps && steps[future[0]].agentId == agentId then Some(1)
    else
      match Distance(steps, future[1..], agentId)
      case None => None
      case Some(d) => Some(d + 1)
  }

  function StepsToExecution(g: Graph, agentId: string, current: string): Option<nat>
    requires current in g.steps
  {
    Distance(g.steps, Future(g, g.steps[current].workflowId, current), agentId)
  }
}
