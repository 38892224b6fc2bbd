/** The step graph in terms of the operations that built it, and its predictions in terms of the steps'
    own fields. */
module StepHistory {
  import opened Collections
  import opened StepDistance
  import opened StepGraphModel
  import opened StepGraphTheorems
  import opened Wrappers

  // What a history leaves of each step

  /** Operation `k` of the history adds the step: its id is new, and its parent, if it has one, is a
      step of the same workflow. */
  ghost predicate Adds(ops: seq<Op>, k: int, id: string) {
    && 0 <= k < |ops| && ops[k].AddStep? && ops[k].stepId == id
    && var g := Run(ops[..k]);
       && id !in g.steps
       && (ops[k].parent.Some? ==>
             ops[k].parent.value in g.steps && g.steps[ops[k].parent.value].workflowId == ops[k].workflowId)
  }

  /** The step has the fields operation `k` gave it, and is completed if it was since. */
  ghost predicate IsAsAdded(ops: seq<Op>, k: int, id: string, g: Graph) {
    && 0 <= k < |ops| && ops[k].AddStep? && id in g.steps
    && var n, op := g.steps[id], ops[k];
       && n.workflowId == op.workflowId && n.agentId == op.agentId && n.parent == op.parent && n.turnId == op.turnId
       && (n.completed <==> exists m :: k < m < |ops| && ops[m] == Complete(id))
  }

  lemma StepOfNode(g: Graph, op: Op, id: string)
    ensures var g' := Step(g, op);
            if op.AddStep? && op.stepId == id && AddErrorOf(g, op.workflowId, id, op.parent).None? then
              id in g'.steps && g'.steps[id].(children := []) ==
                StepNode(op.workflowId, id, op.agentId, op.parent, false, [], op.turnId)
            else
              && (id in g'.steps <==> id in g.steps)
              && (id in g.steps ==>
                    g'.steps[id].(children := []) ==
                      g.steps[id].(children := [], completed := g.steps[id].completed || op == Complete(id)))
  {
  }

  lemma AddsFront(ops: seq<Op>, k: int, id: string)
    requires ops != [] && k < |ops| - 1
    ensures Adds(ops[..|ops| - 1], k, id) <==> Adds(ops, k, id)
  {
    if 0 <= k {
      assert ops[..|ops| - 1][..k] == ops[..k];
    }
  }

  lemma AddsLast(ops: seq<Op>, id: string)
    requires ops != []
    ensures var n := |ops| - 1;
            Adds(ops, n, id) <==> ops[n].AddStep? && ops[n].stepId == id
                                  && AddErrorOf(Run(ops[..n]), ops[n].workflowId, id, ops[n].parent).None?
  {
  }

  lemma CompletedLater(ops: seq<Op>, k: int, id: string)
    requires ops != [] && 0 <= k < |ops| - 1
    ensures var n := |ops| - 1;
            (exists m :: k < m < |ops| && ops[m] == Complete(id)) <==>
              (exists m :: k < m < n && ops[..n][m] == Complete(id)) || ops[n] == Complete(id)
  {
    var n := |ops| - 1;
    if exists m :: k < m < n && ops[..n][m] == Complete(id) {
      var m :| k < m < n && ops[..n][m] == Complete(id);
      assert ops[m] == Complete(id);
    }
    if m :| k < m < |ops| && ops[m] == Complete(id) {
      assert m < n ==> ops[..n][m] == Complete(id);
    }
  }

  /** A step exists if and only if an operation added it, with that operation's fields, and it is
      completed if and only if it was completed later. */
  lemma {:induction false} StepsAreAsAdded(ops: seq<Op>, id: string)
    ensures id in Run(ops).steps <==> exists k :: Adds(ops, k, id)
    ensures forall k :: Adds(ops, k, id) ==> IsAsAdded(ops, k, id, Run(ops))
  {
    if ops != [] {
      var n := |ops| - 1;
      var front, g := ops[..n], Run(ops[..n]);
      StepsAreAsAdded(front, id);
      StepOfNode(g, ops[n], id);
      AddsLast(ops, id);
      forall k | Adds(ops, k, id) ensures IsAsAdded(ops, k, id, Run(ops)) {
        if k < n {
          AddsFront(ops, k, id);
          CompletedLater(ops, k, id);
          assert IsAsAdded(front, k, id, g) && front[k] == ops[k];
        }
      }
      if id in Run(ops).steps && !Adds(ops, n, id) {
        var k :| Adds(front, k, id);
        AddsFront(ops, k, id);
      }
    }
  }

  /** A workflow lists its steps in the order they were added. */
  lemma {:induction false} ListedAsAdded(ops: seq<Op>, k: int, id: string, m: int, later: string)
    requires Adds(ops, k, id) && Adds(ops, m, later) && k < m && ops[k].workflowId == ops[m].workflowId
    ensures var order := Listed(Run(ops).workflows, ops[k].workflowId);
            IndexOf(order, id) < IndexOf(order, later) < |order|
    decreases |ops|
  {
    AddsInRange(ops, k, id);
    AddsInRange(ops, m, later);
    hide Run, Adds, Listed, WellFormed;
    var n := |ops| - 1;
    var front, w := ops[..n], ops[k].workflowId;
    AddsFront(ops, k, id);
    IsListedIn(front, k, id);
    OrderGrows(ops, w);
    var order := Listed(Run(front).workflows, w);
    GrownKeepsIndex(order, Listed(Run(ops).workflows, w), id);
    if m < n {
      AddsFront(ops, m, later);
      ListedAsAdded(front, k, id, m, later);
      GrownKeepsIndex(order, Listed(Run(ops).workflows, w), later);
    } else {
      LastIsAppended(ops, later);
      IndexOfAppend(order, [later], later);
    }
  }

  lemma AddsInRange(ops: seq<Op>, k: int, id: string)
    requires Adds(ops, k, id)
    ensures 0 <= k < |ops| && ops[k].AddStep?
  {
  }

  lemma GrownKeepsIndex(order: seq<string>, grown: seq<string>, id: string)
    requires order <= grown && id in order
    ensures IndexOf(grown, id) == IndexOf(order, id) < |order|
  {
    assert grown == order + grown[|order|..];
    IndexOfAppend(order, grown[|order|..], id);
  }

  lemma LastIsAppended(ops: seq<Op>, id: string)
    requires ops != [] && Adds(ops, |ops| - 1, id)
    ensures var n := |ops| - 1;
            var order := Listed(Run(ops[..n]).workflows, ops[n].workflowId);
            id !in order && Listed(Run(ops).workflows, ops[n].workflowId) == order + [id]
  {
    var n := |ops| - 1;
    var g, op := Run(ops[..n]), ops[n];
    AddsLast(ops, id);
    ReachableIsWellFormed(ops[..n]);
    NewIsUnlisted(g, op.workflowId, id);
    AddedOrder(g, op.workflowId, id, op.agentId, op.parent, op.turnId, op.workflowId);
  }

  lemma IsListedIn(ops: seq<Op>, k: int, id: string)
    requires Adds(ops, k, id)
    ensures id in Listed(Run(ops).workflows, ops[k].workflowId)
  {
    StepsAreAsAdded(ops, id);
    ReachableIsWellFormed(ops);
    assert IsListed(Run(ops), id) && IsAsAdded(ops, k, id, Run(ops));
  }

  lemma OrderGrows(ops: seq<Op>, w: string)
    requires ops != []
    ensures Listed(Run(ops[..|ops| - 1]).workflows, w) <= Listed(Run(ops).workflows, w)
  {
    StepGrows(Run(ops[..|ops| - 1]), ops[|ops| - 1], w);
  }

  lemma StepGrows(g: Graph, op: Op, w: string)
    ensures Listed(g.workflows, w) <= Listed(Step(g, op).workflows, w)
  {
    hide StepAdded, StepCompleted;
    match op
    case AddWorkflow(v) =>
    case AddStep(v, id, a, p, t) =>
      if AddErrorOf(g, v, id, p).None? {
        AddedOrder(g, v, id, a, p, t, w);
      }
    case Complete(id) =>
      if id in g.steps {
        CompletedKeepsLists(g, id, w);
      }
  }

  /** What is refused, in this order: an id already used, a parent that does not exist, and one of
      another workflow. */
  lemma AddRefused(g: Graph, workflowId: string, id: string, parent: Option<string>)
    ensures var e := AddErrorOf(g, workflowId, id, parent);
            && (e == Some(StepExists) <==> id in g.steps)
            && (e == Some(UnknownParent) <==> id !in g.steps && parent.Some? && parent.value !in g.steps)
            && (e == Some(ParentElsewhere) <==>
                  id !in g.steps && parent.Some? && parent.value in g.steps && g.steps[parent.value].workflowId != workflowId)
            && (e == None || e.value in {StepExists, UnknownParent, ParentElsewhere})
  {
  }

  /** Agents list exactly their own steps, once each. */
  ghost predicate AgentListed(g: Graph, a: string) {
    var ids := Listed(g.agents, a);
    Distinct(ids) && forall id :: id in ids <==> id in g.steps && g.steps[id].agentId == a
  }

  lemma StepKeepsAgentListed(g: Graph, op: Op, a: string)
    requires AgentListed(g, a)
    ensures AgentListed(Step(g, op), a)
  {
    forall id {
      StepOfNode(g, op, id);
    }
    if op.AddStep? && AddErrorOf(g, op.workflowId, op.stepId, op.parent).None? {
      assert op.stepId !in Listed(g.agents, a);
    }
  }

  lemma {:induction false} AgentsListTheirSteps(ops: seq<Op>, a: string)
    ensures AgentListed(Run(ops), a)
  {
    if ops != [] {
      AgentsListTheirSteps(ops[..|ops| - 1], a);
      StepKeepsAgentListed(Run(ops[..|ops| - 1]), ops[|ops| - 1], a);
    }
  }

  // Predictions

  /** `head` is the first up to `n` of the members, in their order. */
  ghost predicate IsHead(head: seq<string>, order: seq<string>, members: set<string>, n: nat) {
    && InOrder(head, order) && (forall id :: id in head ==> id in members)
    && |head| == (if |members| < n then |members| else n)
    && forall id, h :: id in members && id !in head && h in head ==> IndexOf(order, h) < IndexOf(order, id)
  }

  lemma InOrderSize(ids: seq<string>, order: seq<string>)
    requires InOrder(ids, order)
    ensures Distinct(ids) && |ToSet(ids)| == |ids|
  {
    InOrderIsDistinct(ids, order);
    ToSetSize(ids);
  }

  lemma TakeIsHead(ids: seq<string>, order: seq<string>, members: set<string>, n: nat)
    requires InOrder(ids, order) && ToSet(ids) == members && n > 0
    ensures IsHead(Take(ids, n), order, members, n)
  {
    var head := Take(ids, n);
    InOrderSize(ids, order);
    assert forall i :: 0 <= i < |head| ==> head[i] == ids[i];
    forall id | id in head ensures id in ids {
    }
    forall id, h | id in members && id !in head && h in head ensures IndexOf(order, h) < IndexOf(order, id) {
      assert id in ids;
      var i, j :| 0 <= i < |ids| && ids[i] == id && 0 <= j < |head| && head[j] == h;
      assert i < |head| ==> head[i] == id;
    }
  }

  /** The uncompleted steps whose parent is the current one. */
  ghost function OpenChildren(g: Graph, current: string): set<string> {
    set id | id in g.steps && g.steps[id].parent == Some(current) && !g.steps[id].completed
  }

  /** The uncompleted steps of its workflow listed after the current one. */
  ghost function OpenLater(g: Graph, current: string): set<string>
    requires current in g.steps
  {
    var w := g.steps[current].workflowId;
    var order := Listed(g.workflows, w);
    set id | id in g.steps && g.steps[id].workflowId == w && IndexOf(order, current) < IndexOf(order, id)
             && !g.steps[id].completed
  }

  lemma UncompletedChildren(g: Graph, current: string)
    requires WellFormed(g) && current in g.steps
    ensures var c := Uncompleted(g.steps, g.steps[current].children);
            ToSet(c) == OpenChildren(g, current) && InOrder(c, Listed(g.workflows, g.steps[current].workflowId))
  {
    var w := g.steps[current].workflowId;
    var order, children := Listed(g.workflows, w), g.steps[current].children;
    assert ListsOwn(g, w) && ChildListed(g, current) by {
      assert IsListed(g, current);
    }
    assert order[0..] == order;
    SuffixInOrder(order, 0);
    ChildrenInOrder(g.steps, order, order, current);
    ChildrenMembers(g.steps, order, current);
    UncompletedInOrder(g.steps, children, order);
    UncompletedMembers(g.steps, children);
    forall id | id in OpenChildren(g, current) ensures id in order {
      assert ParentFirst(g, id) && IsListed(g, id);
    }
  }

  lemma FutureIsLater(g: Graph, current: string)
    requires WellFormed(g) && current in g.steps
    ensures ToSet(Future(g, g.steps[current].workflowId, current)) == OpenLater(g, current)
    ensures forall id :: id in Future(g, g.steps[current].workflowId, current) ==> id in g.steps
    ensures InOrder(Future(g, g.steps[current].workflowId, current), Listed(g.workflows, g.steps[current].workflowId))
  {
    var w := g.steps[current].workflowId;
    FutureMembers(g, current);
    assert ListsOwn(g, w) by {
      assert IsListed(g, current);
    }
    forall id | id in OpenLater(g, current) ensures id in Listed(g.workflows, w) {
      assert IsListed(g, id);
    }
  }

  /** In every run a prediction is the first `topK` of the current step's uncompleted children, in
      workflow order, or, if it has none, of the uncompleted steps listed after it. */
  lemma PredictionsAreExact(ops: seq<Op>, workflowId: string, current: string, topK: nat)
    requires topK > 0 && current in Run(ops).steps && Run(ops).steps[current].workflowId == workflowId
    ensures var g := Run(ops);
            IsHead(NextSteps(g, workflowId, current, topK), Listed(g.workflows, workflowId),
                   if OpenChildren(g, current) != {} then OpenChildren(g, current) else OpenLater(g, current), topK)
  {
    hide WellFormed, Run, Future, Uncompleted, IsHead, InOrder;
    var g := Run(ops);
    ReachableIsWellFormed(ops);
    UncompletedChildren(g, current);
    FutureIsLater(g, current);
    var children := Uncompleted(g.steps, g.steps[current].children);
    EmptyAsSet(children);
    TakeIsHead(NextCandidates(g, workflowId, current), Listed(g.workflows, workflowId),
               ToSet(NextCandidates(g, workflowId, current)), topK);
  }

  lemma EmptyAsSet(ids: seq<string>)
    ensures ids == [] <==> ToSet(ids) == {}
  {
    assert ids != [] ==> ids[0] in ToSet(ids);
  }

  /** What is refused: an unknown current step, or one of another workflow; nothing is when none are asked for. */
  lemma PredictionRefused(g: Graph, workflowId: string, current: string, topK: int)
    ensures PredictErrorOf(g, workflowId, current, topK) ==
              if topK > 0 && current !in g.steps then Some(UnknownStep)
              else if topK > 0 && g.steps[current].workflowId != workflowId then Some(OtherWorkflow)
              else None
    ensures topK <= 0 ==> NextSteps(g, workflowId, current, topK) == []
  {
  }

  // Distances

  /** The distance is the position, from one, of the first listed step of the agent. */
  lemma {:induction false} DistanceIsPosition(steps: Steps, ids: seq<string>, agentId: string)
    requires forall id :: id in ids ==> id in steps
    ensures match Distance(steps, ids, agentId)
            case None => forall id :: id in ids ==> steps[id].agentId != agentId
            case Some(d) =>
              && 1 <= d <= |ids| && steps[ids[d - 1]].agentId == agentId
              && forall i :: 0 <= i < d - 1 ==> steps[ids[i]].agentId != agentId
  {
    if ids != [] {
      assert ids == [ids[0]] + ids[1..];
      DistanceIsPosition(steps, ids[1..], agentId);
    }
  }

  /** In every run an agent is `d` steps away if and only if the `d`-th uncompleted step after the current
      one is its first; it is nowhere ahead if and only if none of them is its own. */
  lemma StepsToExecutionIsExact(ops: seq<Op>, agentId: string, current: string)
    requires current in Run(ops).steps
    ensures var g := Run(ops);
            var w, later := g.steps[current].workflowId, OpenLater(g, current);
            match StepsToExecution(g, agentId, current)
            case None => forall id :: id in later ==> g.steps[id].agentId != agentId
            case Some(d) =>
              exists id :: id in later && g.steps[id].agentId == agentId
                && (forall j :: j in later && g.steps[j].agentId == agentId ==>
                      IndexOf(Listed(g.workflows, w), id) <= IndexOf(Listed(g.workflows, w), j))
                && d == 1 + |Between(g, current, id)|
  {
    hide WellFormed, Run, Distance, Between, OpenLater;
    var g := Run(ops);
    var w := g.steps[current].workflowId;
    var order, future := Listed(g.workflows, w), Future(g, w, current);
    ReachableIsWellFormed(ops);
    FutureIsLater(g, current);
    assert forall id :: id in future ==> id in ToSet(future);
    DistanceIsPosition(g.steps, future, agentId);
    var distance := Distance(g.steps, future, agentId);
    if distance.Some? {
      var d := distance.value;
      assert future[d - 1] in ToSet(future);
      FirstIsEarliest(g.steps, future, order, agentId, d);
      FirstOnes(g, current, d);
    }
  }

  lemma FirstIsEarliest(steps: Steps, ids: seq<string>, order: seq<string>, agentId: string, d: nat)
    requires InOrder(ids, order) && (forall id :: id in ids ==> id in steps) && 1 <= d <= |ids|
    requires forall i :: 0 <= i < d - 1 ==> steps[ids[i]].agentId != agentId
    ensures forall j :: j in ToSet(ids) && steps[j].agentId == agentId ==> IndexOf(order, ids[d - 1]) <= IndexOf(order, j)
  {
    forall j | j in ToSet(ids) && steps[j].agentId == agentId ensures IndexOf(order, ids[d - 1]) <= IndexOf(order, j) {
      var i :| 0 <= i < |ids| && ids[i] == j;
    }
  }

  /** The uncompleted steps between the current step and another. */
  ghost function Between(g: Graph, current: string, id: string): set<string>
    requires current in g.steps
  {
    EarlierIn(OpenLater(g, current), Listed(g.workflows, g.steps[current].workflowId), id)
  }

  ghost function EarlierIn(members: set<string>, order: seq<string>, id: string): set<string> {
    set j | j in members && IndexOf(order, j) < IndexOf(order, id)
  }

  lemma FirstOnes(g: Graph, current: string, d: nat)
    requires WellFormed(g) && current in g.steps
    requires 1 <= d <= |Future(g, g.steps[current].workflowId, current)|
    ensures |Between(g, current, Future(g, g.steps[current].workflowId, current)[d - 1])| == d - 1
  {
    hide Future, WellFormed, InOrder, OpenLater;
    var w := g.steps[current].workflowId;
    var order, future := Listed(g.workflows, w), Future(g, w, current);
    FutureIsLater(g, current);
    OnesBefore(future, order, d);
  }

  lemma OnesBefore(ids: seq<string>, order: seq<string>, d: nat)
    requires InOrder(ids, order) && 1 <= d <= |ids|
    ensures |EarlierIn(ToSet(ids), order, ids[d - 1])| == d - 1
  {
    hide IndexOf;
    var before := ids[..d - 1];
    assert InOrder(before, order) by {
      assert forall i :: 0 <= i < |before| ==> before[i] == ids[i] && ids[i] in ids;
    }
    InOrderSize(before, order);
    var earlier := EarlierIn(ToSet(ids), order, ids[d - 1]);
    forall j | j in before ensures j in earlier {
      var i :| 0 <= i < |before| && before[i] == j;
      assert ids[i] == j;
    }
    forall j | j in earlier ensures j in before {
      var i :| 0 <= i < |ids| && ids[i] == j;
      assert i < d - 1;
      assert before[i] == j;
    }
    assert ToSet(before) == earlier;
  }
}
