/** What every history of added and completed steps keeps true of the step graph. */
module StepGraphTheorems {
  import opened Collections
  import opened StepGraphModel
  import opened Wrappers

  /** The ids appear in `order`, in its order and without repeats. */
  ghost predicate InOrder(ids: seq<string>, order: seq<string>) {
    && (forall id :: id in ids ==> id in order)
    && (forall i, j :: 0 <= i < j < |ids| ==> IndexOf(order, ids[i]) < IndexOf(order, ids[j]))
  }

  /** Workflows list exactly their own steps, once each. */
  ghost predicate ListsSteps(g: Graph) {
    && (forall w :: w in g.workflows ==> ListsOwn(g, w))
    && (forall id :: id in g.steps ==> IsListed(g, id))
  }

  ghost predicate ListsOwn(g: Graph, w: string) {
    var order := Listed(g.workflows, w);
    Distinct(order) && forall id :: id in order ==> id in g.steps && g.steps[id].workflowId == w
  }

  ghost predicate IsListed(g: Graph, id: string) {
    id in g.steps && g.steps[id].stepId == id && id in Listed(g.workflows, g.steps[id].workflowId)
  }

  /** Parents precede their children in the workflow they share. */
  ghost predicate ParentsFirst(g: Graph) {
    forall id :: id in g.steps ==> ParentFirst(g, id)
  }

  ghost predicate ParentFirst(g: Graph, id: string) {
    id in g.steps && g.steps[id].parent.Some? ==>
      var p := g.steps[id].parent.value;
      && p in g.steps && g.steps[p].workflowId == g.steps[id].workflowId
      && var order := Listed(g.workflows, g.steps[id].workflowId);
         IndexOf(order, p) < IndexOf(order, id)
  }

  /** A step's child list is its workflow's order restricted to its children. */
  ghost predicate ChildrenListed(g: Graph) {
    forall id :: id in g.steps ==> ChildListed(g, id)
  }

  ghost predicate ChildListed(g: Graph, id: string) {
    id in g.steps && g.steps[id].children == ChildrenIn(g.steps, Listed(g.workflows, g.steps[id].workflowId), id)
  }

  ghost predicate WellFormed(g: Graph) {
    ListsSteps(g) && ParentsFirst(g) && ChildrenListed(g)
  }

  datatype Op =
    | AddWorkflow(workflowId: string)
    | AddStep(workflowId: string, stepId: string, agentId: string, parent: Option<string>, turnId: int)
    | Complete(stepId: string)

  /** Rejected operations raise and change nothing. */
  function Step(g: Graph, op: Op): Graph {
    match op
    case AddWorkflow(w) => WorkflowAdded(g, w)
    case AddStep(w, id, a, p, t) => if AddErrorOf(g, w, id, p).Some? then g else StepAdded(g, w, id, a, p, t)
    case Complete(id) => if id in g.steps then StepCompleted(g, id) else g
  }

  function Run(ops: seq<Op>): Graph {
    if ops == [] then EMPTY_GRAPH else Step(Run(ops[..|ops| - 1]), ops[|ops| - 1])
  }

  // Facts about the filters

  lemma {:induction false} IndexOfAppend(order: seq<string>, more: seq<string>, id: string)
    ensures id in order ==> IndexOf(order + more, id) == IndexOf(order, id)
    ensures id !in order ==> IndexOf(order + more, id) == |order| + IndexOf(more, id)
  {
    if order == [] {
      assert order + more == more;
    } else if order[0] != id {
      assert (order + more)[1..] == order[1..] + more;
      IndexOfAppend(order[1..], more, id);
    }
  }

  lemma {:induction false} IndexOfDistinct(order: seq<string>, i: nat)
    requires Distinct(order) && i < |order|
    ensures IndexOf(order, order[i]) == i
  {
    if i > 0 {
      assert order[0] != order[i];
      IndexOfDistinct(order[1..], i - 1);
    }
  }

  /** Filters that agree on the ids they see agree on the list. */
  lemma {:induction false} SameChildren(s: Steps, t: Steps, order: seq<string>, parent: string)
    requires forall id :: id in order ==> (id in s <==> id in t) && (id in s ==> s[id].parent == t[id].parent)
    ensures ChildrenIn(s, order, parent) == ChildrenIn(t, order, parent)
  {
    if order != [] {
      assert order == order[..|order| - 1] + [order[|order| - 1]];
      SameChildren(s, t, order[..|order| - 1], parent);
    }
  }

  lemma {:induction false} NoChildren(s: Steps, order: seq<string>, parent: string)
    requires forall id :: id in order && id in s ==> s[id].parent != Some(parent)
    ensures ChildrenIn(s, order, parent) == []
  {
    if order != [] {
      assert order == order[..|order| - 1] + [order[|order| - 1]];
      NoChildren(s, order[..|order| - 1], parent);
    }
  }

  lemma ChildrenSnoc(s: Steps, order: seq<string>, last: string, parent: string)
    ensures ChildrenIn(s, order + [last], parent) ==
              if last in s && s[last].parent == Some(parent) then ChildrenIn(s, order, parent) + [last]
              else ChildrenIn(s, order, parent)
  {
    assert (order + [last])[..|order|] == order;
  }

  // Every operation keeps the graph well formed

  lemma CompleteKeeps(g: Graph, id: string)
    requires WellFormed(g) && id in g.steps
    ensures WellFormed(StepCompleted(g, id))
  {
    var g' := StepCompleted(g, id);
    forall w | w in g'.workflows ensures ListsOwn(g', w) {
      assert ListsOwn(g, w);
    }
    forall i | i in g'.steps ensures IsListed(g', i) && ParentFirst(g', i) && ChildListed(g', i) {
      assert IsListed(g, i) && ParentFirst(g, i) && ChildListed(g, i);
      SameChildren(g'.steps, g.steps, Listed(g.workflows, g.steps[i].workflowId), i);
    }
  }

  /** What an accepted step changes of the others: nothing but its parent's child list. */
  lemma AddedKeepsOthers(g: Graph, w: string, id: string, a: string, p: Option<string>, t: int, i: string)
    requires AddErrorOf(g, w, id, p).None? && i in g.steps
    ensures var g' := StepAdded(g, w, id, a, p, t);
            && i in g'.steps
            && g'.steps[i] == g.steps[i].(children :=
                 if p == Some(i) then g.steps[i].children + [id] else g.steps[i].children)
  {
  }

  /** A new step is listed nowhere yet. */
  lemma NewIsUnlisted(g: Graph, w: string, id: string)
    requires ListsSteps(g) && id !in g.steps
    ensures id !in Listed(g.workflows, w)
  {
    if w in g.workflows {
      assert ListsOwn(g, w);
    }
  }

  lemma AddedListsOwn(g: Graph, w: string, id: string, a: string, p: Option<string>, t: int, v: string)
    requires ListsSteps(g) && AddErrorOf(g, w, id, p).None?
    ensures ListsOwn(StepAdded(g, w, id, a, p, t), v)
  {
    var order := Listed(g.workflows, v);
    NewIsUnlisted(g, v, id);
    if v in g.workflows {
      assert ListsOwn(g, v);
    }
    forall i | i in order ensures i in g.steps && i in StepAdded(g, w, id, a, p, t).steps
                                  && StepAdded(g, w, id, a, p, t).steps[i].workflowId == v
    {
      AddedKeepsOthers(g, w, id, a, p, t, i);
    }
  }

  lemma AddedIsListed(g: Graph, w: string, id: string, a: string, p: Option<string>, t: int, i: string)
    requires ListsSteps(g) && AddErrorOf(g, w, id, p).None? && (i in g.steps || i == id)
    ensures IsListed(StepAdded(g, w, id, a, p, t), i)
  {
    if i != id {
      assert IsListed(g, i);
      AddedKeepsOthers(g, w, id, a, p, t, i);
    }
  }

  /** A listed step keeps its place when another is appended. */
  lemma AppendKeepsPlace(order: seq<string>, id: string, i: string)
    requires i in order
    ensures IndexOf(order + [id], i) == IndexOf(order, i) < |order|
  {
    IndexOfAppend(order, [id], i);
  }

  lemma AddedParentFirst(g: Graph, w: string, id: string, a: string, p: Option<string>, t: int, i: string)
    requires ListsSteps(g) && ParentsFirst(g) && AddErrorOf(g, w, id, p).None? && i in g.steps
    ensures ParentFirst(StepAdded(g, w, id, a, p, t), i)
  {
    assert ParentFirst(g, i) && IsListed(g, i);
    AddedKeepsOthers(g, w, id, a, p, t, i);
    if g.steps[i].parent.Some? {
      var q, order := g.steps[i].parent.value, Listed(g.workflows, g.steps[i].workflowId);
      assert IsListed(g, q);
      AddedKeepsOthers(g, w, id, a, p, t, q);
      AppendKeepsPlace(order, id, q);
      AppendKeepsPlace(order, id, i);
    }
  }

  lemma AddedAfterParent(g: Graph, w: string, id: string, a: string, p: Option<string>, t: int)
    requires ListsSteps(g) && AddErrorOf(g, w, id, p).None?
    ensures ParentFirst(StepAdded(g, w, id, a, p, t), id)
  {
    if p.Some? {
      var order := Listed(g.workflows, w);
      assert IsListed(g, p.value);
      AddedKeepsOthers(g, w, id, a, p, t, p.value);
      NewIsUnlisted(g, w, id);
      AppendKeepsPlace(order, id, p.value);
      IndexOfAppend(order, [id], id);
    }
  }

  lemma AddedSameChildren(g: Graph, w: string, id: string, a: string, p: Option<string>, t: int, v: string, i: string)
    requires ListsSteps(g) && AddErrorOf(g, w, id, p).None?
    ensures var order := Listed(g.workflows, v);
            ChildrenIn(StepAdded(g, w, id, a, p, t).steps, order, i) == ChildrenIn(g.steps, order, i)
  {
    var g', order := StepAdded(g, w, id, a, p, t), Listed(g.workflows, v);
    if v in g.workflows {
      assert ListsOwn(g, v);
    }
    forall j | j in order ensures j in g'.steps && j in g.steps && g'.steps[j].parent == g.steps[j].parent {
      AddedKeepsOthers(g, w, id, a, p, t, j);
    }
    SameChildren(g'.steps, g.steps, order, i);
  }

  lemma AddedChildListed(g: Graph, w: string, id: string, a: string, p: Option<string>, t: int, i: string)
    requires ListsSteps(g) && ChildrenListed(g) && AddErrorOf(g, w, id, p).None? && i in g.steps
    ensures ChildListed(StepAdded(g, w, id, a, p, t), i)
  {
    var g', v := StepAdded(g, w, id, a, p, t), g.steps[i].workflowId;
    assert ChildListed(g, i);
    AddedKeepsOthers(g, w, id, a, p, t, i);
    AddedSameChildren(g, w, id, a, p, t, v, i);
    if v == w {
      ChildrenSnoc(g'.steps, Listed(g.workflows, v), id, i);
    }
  }

  lemma AddedHasNoChildren(g: Graph, w: string, id: string, a: string, p: Option<string>, t: int)
    requires ListsSteps(g) && ParentsFirst(g) && AddErrorOf(g, w, id, p).None?
    ensures ChildListed(StepAdded(g, w, id, a, p, t), id)
  {
    var g', order := StepAdded(g, w, id, a, p, t), Listed(g.workflows, w);
    if w in g.workflows {
      assert ListsOwn(g, w);
    }
    forall j | j in order ensures g.steps[j].parent != Some(id) {
      assert ParentFirst(g, j);
    }
    NoChildren(g.steps, order, id);
    AddedSameChildren(g, w, id, a, p, t, w, id);
    ChildrenSnoc(g'.steps, order, id, id);
  }

  lemma AddKeeps(g: Graph, w: string, id: string, a: string, p: Option<string>, t: int)
    requires WellFormed(g) && AddErrorOf(g, w, id, p).None?
    ensures WellFormed(StepAdded(g, w, id, a, p, t))
  {
    hide ListsOwn, IsListed, ParentFirst, ChildListed, IndexOf;
    var g' := StepAdded(g, w, id, a, p, t);
    forall v | v in g'.workflows ensures ListsOwn(g', v) {
      AddedListsOwn(g, w, id, a, p, t, v);
    }
    forall i | i in g'.steps ensures IsListed(g', i) && ParentFirst(g', i) && ChildListed(g', i) {
      AddedIsListed(g, w, id, a, p, t, i);
      if i == id {
        AddedAfterParent(g, w, id, a, p, t);
        AddedHasNoChildren(g, w, id, a, p, t);
      } else {
        AddedParentFirst(g, w, id, a, p, t, i);
        AddedChildListed(g, w, id, a, p, t, i);
      }
    }
  }

  lemma AddWorkflowKeeps(g: Graph, w: string)
    requires WellFormed(g)
    ensures WellFormed(WorkflowAdded(g, w))
  {
    var g' := WorkflowAdded(g, w);
    forall v ensures Listed(g'.workflows, v) == Listed(g.workflows, v) {
    }
    forall v | v in g'.workflows ensures ListsOwn(g', v) {
      assert v in g.workflows ==> ListsOwn(g, v);
    }
    forall i | i in g'.steps ensures IsListed(g', i) && ParentFirst(g', i) && ChildListed(g', i) {
      assert IsListed(g, i) && ParentFirst(g, i) && ChildListed(g, i);
    }
  }

  lemma StepKeepsWellFormed(g: Graph, op: Op)
    requires WellFormed(g)
    ensures WellFormed(Step(g, op))
  {
    hide WellFormed, StepAdded, StepCompleted, WorkflowAdded;
    match op
    case AddWorkflow(w) => AddWorkflowKeeps(g, w);
    case AddStep(w, id, a, p, t) =>
      if AddErrorOf(g, w, id, p).None? {
        AddKeeps(g, w, id, a, p, t);
      }
    case Complete(id) =>
      if id in g.steps {
        CompleteKeeps(g, id);
      }
  }

  lemma {:induction false} ReachableIsWellFormed(ops: seq<Op>)
    ensures WellFormed(Run(ops))
  {
    if ops != [] {
      ReachableIsWellFormed(ops[..|ops| - 1]);
      StepKeepsWellFormed(Run(ops[..|ops| - 1]), ops[|ops| - 1]);
    }
  }

  // The parent relation is a forest

  /** The `n`-th parent up from a step. */
  function Ancestor(g: Graph, id: string, n: nat): Option<string> {
    if n == 0 then Some(id)
    else
      match Ancestor(g, id, n - 1)
      case None => None
      case Some(a) => if a in g.steps then g.steps[a].parent else None
  }

  /** Every step up goes strictly earlier in the same workflow. */
  lemma {:induction false} AncestorsAreEarlier(ops: seq<Op>, id: string, n: nat)
    requires id in Run(ops).steps && Ancestor(Run(ops), id, n).Some?
    ensures var g := Run(ops);
            var a, order := Ancestor(g, id, n).value, Listed(g.workflows, g.steps[id].workflowId);
            && a in g.steps && g.steps[a].workflowId == g.steps[id].workflowId
            && IndexOf(order, a) + n <= IndexOf(order, id)
            && (n > 0 ==> a != id)
  {
    hide Run, IndexOf;
    if n > 0 {
      AncestorsAreEarlier(ops, id, n - 1);
      ParentIsEarlier(ops, Ancestor(Run(ops), id, n - 1).value);
    }
  }

  lemma ParentIsEarlier(ops: seq<Op>, id: string)
    requires id in Run(ops).steps && Run(ops).steps[id].parent.Some?
    ensures var g := Run(ops);
            var p, order := g.steps[id].parent.value, Listed(g.workflows, g.steps[id].workflowId);
            && p in g.steps && g.steps[p].workflowId == g.steps[id].workflowId
            && IndexOf(order, p) < IndexOf(order, id)
  {
    hide Run, IndexOf;
    ReachableIsWellFormed(ops);
    assert ParentFirst(Run(ops), id);
  }

  // Predictions

  lemma {:induction false} UncompletedMembers(steps: Steps, order: seq<string>)
    ensures forall id :: id in Uncompleted(steps, order) <==> id in order && id in steps && !steps[id].completed
  {
    if order != [] {
      assert order == order[..|order| - 1] + [order[|order| - 1]];
      UncompletedMembers(steps, order[..|order| - 1]);
    }
  }

  lemma {:induction false} ChildrenMembers(steps: Steps, order: seq<string>, parent: string)
    ensures forall id :: id in ChildrenIn(steps, order, parent) <==>
                         id in order && id in steps && steps[id].parent == Some(parent)
  {
    if order != [] {
      assert order == order[..|order| - 1] + [order[|order| - 1]];
      ChildrenMembers(steps, order[..|order| - 1], parent);
    }
  }

  lemma SnocInOrder(ids: seq<string>, last: string, order: seq<string>)
    requires InOrder(ids, order) && last in order
    requires forall id :: id in ids ==> IndexOf(order, id) < IndexOf(order, last)
    ensures InOrder(ids + [last], order)
  {
    var all := ids + [last];
    forall i, j | 0 <= i < j < |all| ensures IndexOf(order, all[i]) < IndexOf(order, all[j]) {
      assert ids[i] in ids;
    }
  }

  lemma FrontInOrder(ids: seq<string>, order: seq<string>)
    requires ids != [] && InOrder(ids, order)
    ensures var front, last := ids[..|ids| - 1], ids[|ids| - 1];
            InOrder(front, order) && last in order
            && forall id :: id in front ==> IndexOf(order, id) < IndexOf(order, last)
  {
    var front, last := ids[..|ids| - 1], ids[|ids| - 1];
    forall id | id in front ensures id in order && IndexOf(order, id) < IndexOf(order, last) {
      var i :| 0 <= i < |front| && front[i] == id;
      assert ids[i] == id && ids[i] in ids;
    }
  }

  lemma {:induction false} UncompletedInOrder(steps: Steps, ids: seq<string>, order: seq<string>)
    requires InOrder(ids, order)
    ensures InOrder(Uncompleted(steps, ids), order)
  {
    if ids != [] {
      var front, last := ids[..|ids| - 1], ids[|ids| - 1];
      FrontInOrder(ids, order);
      UncompletedInOrder(steps, front, order);
      UncompletedMembers(steps, front);
      if last in steps && !steps[last].completed {
        SnocInOrder(Uncompleted(steps, front), last, order);
      }
    }
  }

  lemma {:induction false} ChildrenInOrder(steps: Steps, ids: seq<string>, order: seq<string>, parent: string)
    requires InOrder(ids, order)
    ensures InOrder(ChildrenIn(steps, ids, parent), order)
  {
    if ids != [] {
      var front, last := ids[..|ids| - 1], ids[|ids| - 1];
      FrontInOrder(ids, order);
      ChildrenInOrder(steps, front, order, parent);
      ChildrenMembers(steps, front, parent);
      if last in steps && steps[last].parent == Some(parent) {
        SnocInOrder(ChildrenIn(steps, front, parent), last, order);
      }
    }
  }

  lemma SuffixInOrder(order: seq<string>, from: nat)
    requires Distinct(order) && from <= |order|
    ensures InOrder(order[from..], order)
    ensures forall id :: id in order[from..] <==> id in order && from <= IndexOf(order, id)
  {
    var rest := order[from..];
    forall i | 0 <= i < |rest| ensures IndexOf(order, rest[i]) == from + i {
      IndexOfDistinct(order, from + i);
    }
    forall id | id in order && from <= IndexOf(order, id) ensures id in rest {
      assert rest[IndexOf(order, id) - from] == id;
    }
  }

  /** The future of a step: the uncompleted steps listed after it. */
  lemma FutureMembers(g: Graph, current: string)
    requires ListsSteps(g) && current in g.steps
    ensures var w := g.steps[current].workflowId;
            var order, future := Listed(g.workflows, w), Future(g, w, current);
            && InOrder(future, order)
            && forall id :: id in future <==>
                 id in order && IndexOf(order, current) < IndexOf(order, id) && !g.steps[id].completed
  {
    var w := g.steps[current].workflowId;
    var order := Listed(g.workflows, w);
    assert IsListed(g, current);
    assert ListsOwn(g, w);
    var from := IndexOf(order, current) + 1;
    SuffixInOrder(order, from);
    UncompletedInOrder(g.steps, order[from..], order);
    UncompletedMembers(g.steps, order[from..]);
  }

  lemma CandidatesAreFuture(g: Graph, current: string)
    requires WellFormed(g) && current in g.steps
    ensures var w := g.steps[current].workflowId;
            var c := NextCandidates(g, w, current);
            && InOrder(c, Listed(g.workflows, w))
            && (forall id :: id in c ==> id in Future(g, w, current))
            && (c == [] ==> Future(g, w, current) == [])
  {
    var w := g.steps[current].workflowId;
    var order, children := Listed(g.workflows, w), g.steps[current].children;
    FutureMembers(g, current);
    assert ListsOwn(g, w) && ChildListed(g, current) by {
      assert IsListed(g, current);
    }
    assert order[0..] == order;
    SuffixInOrder(order, 0);
    ChildrenInOrder(g.steps, order, order, current);
    ChildrenMembers(g.steps, order, current);
    UncompletedInOrder(g.steps, children, order);
    UncompletedMembers(g.steps, children);
    forall id | id in Uncompleted(g.steps, children) ensures id in Future(g, w, current) {
      assert ParentFirst(g, id);
    }
  }

  lemma TakeInOrder(c: seq<string>, order: seq<string>, n: int)
    requires InOrder(c, order) && n > 0
    ensures var t := Take(c, n);
            && InOrder(t, order) && Distinct(t) && |t| <= n
            && (forall id :: id in t ==> id in c) && (t == [] <==> c == [])
  {
    var t := Take(c, n);
    forall i | 0 <= i < |t| ensures t[i] == c[i] && c[i] in c {
    }
  }

  /** A prediction lists, in workflow order and without repeats, up to `topK` uncompleted steps
      after the current one, whichever branch it took; it is empty only if there are none. */
  lemma PredictionsAreFutureSteps(ops: seq<Op>, workflowId: string, current: string, topK: int)
    requires topK > 0 && PredictErrorOf(Run(ops), workflowId, current, topK).None?
    ensures var g := Run(ops);
            var next, future := NextSteps(g, workflowId, current, topK), Future(g, workflowId, current);
            && InOrder(next, Listed(g.workflows, workflowId)) && Distinct(next) && |next| <= topK
            && (forall id :: id in next ==> id in future)
            && (next == [] <==> future == [])
  {
    var g := Run(ops);
    ReachableIsWellFormed(ops);
    hide WellFormed, Run, Future;
    var c := NextCandidates(g, workflowId, current);
    CandidatesAreFuture(g, current);
    TakeInOrder(c, Listed(g.workflows, workflowId), topK);
    assert c != [] ==> c[0] in c;
  }
}
