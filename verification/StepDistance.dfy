/** How far away an agent's next step is, and what completing or adding steps does to it. */
module StepDistance {
  import opened Collections
  import opened StepGraphModel
  import opened StepGraphTheorems
  import opened Wrappers

  lemma UncompletedSnoc(steps: Steps, order: seq<string>, last: string)
    ensures Uncompleted(steps, order + [last]) ==
              if last in steps && !steps[last].completed then Uncompleted(steps, order) + [last]
              else Uncompleted(steps, order)
  {
    assert (order + [last])[..|order|] == order;
  }

  /** Completing a step drops it from every list of uncompleted steps. */
  lemma {:induction false} CompletedIsDropped(g: Graph, x: string, order: seq<string>)
    requires x in g.steps
    ensures Uncompleted(StepCompleted(g, x).steps, order) == Without(Uncompleted(g.steps, order), x)
  {
    if order != [] {
      var front, last := order[..|order| - 1], order[|order| - 1];
      CompletedIsDropped(g, x, front);
      WithoutConcat(Uncompleted(g.steps, front), [last], x);
    }
  }

  lemma {:induction false} SameDistance(s: Steps, t: Steps, future: seq<string>, agentId: string)
    requires forall id :: id in future ==> (id in s <==> id in t) && (id in s ==> s[id].agentId == t[id].agentId)
    ensures Distance(s, future, agentId) == Distance(t, future, agentId)
  {
    if future != [] {
      assert future == [future[0]] + future[1..];
      SameDistance(s, t, future[1..], agentId);
    }
  }

  /** Whether `x` is listed before the agent's next step. */
  predicate Precedes(future: seq<string>, x: string, d: Option<nat>) {
    x in future && d.Some? && IndexOf(future, x) + 1 < d.value
  }

  /** Dropping a step of another agent brings the agent's next step one closer if it was in the way. */
  lemma {:induction false} DistanceWithout(steps: Steps, future: seq<string>, agentId: string, x: string)
    requires Distinct(future) && x in steps && steps[x].agentId != agentId
    ensures var d, d' := Distance(steps, future, agentId), Distance(steps, Without(future, x), agentId);
            && (d.None? <==> d'.None?)
            && (d.Some? ==> d'.value == d.value - if Precedes(future, x, d) then 1 else 0)
  {
    if future != [] {
      var rest := future[1..];
      assert future == [future[0]] + rest;
      assert future[0] !in rest;
      if future[0] == x {
        WithoutAbsent(rest, x);
      } else {
        DistanceWithout(steps, rest, agentId, x);
      }
    }
  }

  lemma {:induction false} DistanceAppend(steps: Steps, future: seq<string>, more: seq<string>, agentId: string)
    ensures Distance(steps, future, agentId).Some? ==>
              Distance(steps, future + more, agentId) == Distance(steps, future, agentId)
  {
    if future != [] {
      assert (future + more)[1..] == future[1..] + more;
      DistanceAppend(steps, future[1..], more, agentId);
    }
  }

  lemma InOrderIsDistinct(ids: seq<string>, order: seq<string>)
    requires InOrder(ids, order)
    ensures Distinct(ids)
  {
  }

  lemma CompletedKeepsLists(g: Graph, x: string, w: string)
    requires x in g.steps
    ensures Listed(StepCompleted(g, x).workflows, w) == Listed(g.workflows, w)
  {
  }

  lemma CompletedFuture(g: Graph, w: string, current: string, x: string)
    requires x in g.steps
    ensures Future(StepCompleted(g, x), w, current) == Without(Future(g, w, current), x)
  {
    hide Uncompleted, Without, StepCompleted;
    CompletedKeepsLists(g, x, w);
    var order := Listed(g.workflows, w);
    if current in order {
      CompletedIsDropped(g, x, order[IndexOf(order, current) + 1..]);
    }
  }

  lemma SameAgents(g: Graph, x: string, future: seq<string>, agentId: string)
    requires x in g.steps
    ensures Distance(StepCompleted(g, x).steps, future, agentId) == Distance(g.steps, future, agentId)
  {
    SameDistance(StepCompleted(g, x).steps, g.steps, future, agentId);
  }

  lemma FutureIsDistinct(g: Graph, current: string)
    requires WellFormed(g) && current in g.steps
    ensures Distinct(Future(g, g.steps[current].workflowId, current))
  {
    FutureMembers(g, current);
    InOrderIsDistinct(Future(g, g.steps[current].workflowId, current), Listed(g.workflows, g.steps[current].workflowId));
  }

  /** Completing another agent's step brings an agent's next step exactly one closer if it lay in
      between, and otherwise leaves the distance alone: it never rises. */
  lemma CompletingOthersBringsCloser(g: Graph, agentId: string, current: string, x: string)
    requires WellFormed(g) && current in g.steps && x in g.steps && g.steps[x].agentId != agentId
    ensures var future := Future(g, g.steps[current].workflowId, current);
            var before, after := StepsToExecution(g, agentId, current),
                                 StepsToExecution(StepCompleted(g, x), agentId, current);
            && (before.None? <==> after.None?)
            && (before.Some? ==> after.value == before.value - if Precedes(future, x, before) then 1 else 0)
  {
    hide WellFormed, Future, Distance, Precedes;
    var w := g.steps[current].workflowId;
    var future := Future(g, w, current);
    FutureIsDistinct(g, current);
    CompletedFuture(g, w, current, x);
    DistanceWithout(g.steps, future, agentId, x);
    SameAgents(g, x, Without(future, x), agentId);
  }

  lemma {:induction false} SameUncompleted(s: Steps, t: Steps, order: seq<string>)
    requires forall id :: id in order ==> (id in s <==> id in t) && (id in s ==> s[id].completed == t[id].completed)
    ensures Uncompleted(s, order) == Uncompleted(t, order)
  {
    if order != [] {
      assert order == order[..|order| - 1] + [order[|order| - 1]];
      SameUncompleted(s, t, order[..|order| - 1]);
    }
  }

  /** The workflow lists after a step is added. */
  lemma AddedOrder(g: Graph, w: string, id: string, a: string, p: Option<string>, t: int, v: string)
    requires AddErrorOf(g, w, id, p).None?
    ensures Listed(StepAdded(g, w, id, a, p, t).workflows, v) == Listed(g.workflows, v) + if v == w then [id] else []
  {
    assert Listed(g.workflows, v) + [] == Listed(g.workflows, v);
  }

  /** A new step joins the end of its workflow's futures and changes no other. */
  lemma AddingExtendsFuture(g: Graph, w: string, id: string, a: string, p: Option<string>, t: int, current: string)
    requires ListsSteps(g) && AddErrorOf(g, w, id, p).None? && current in g.steps
    ensures var v, g' := g.steps[current].workflowId, StepAdded(g, w, id, a, p, t);
            Future(g', v, current) == Future(g, v, current) + if v == w then [id] else []
  {
    hide IndexOf, Uncompleted;
    var v, g' := g.steps[current].workflowId, StepAdded(g, w, id, a, p, t);
    var order := Listed(g.workflows, v);
    assert IsListed(g, current);
    var from := IndexOf(order, current) + 1;
    assert forall i :: i in order[from..] ==> i in order;
    AddedOrder(g, w, id, a, p, t, v);
    AddedKeepsUncompleted(g, w, id, a, p, t, v, order[from..]);
    assert id in g'.steps && !g'.steps[id].completed;
    if v == w {
      FutureAppended(g, g', v, current, id);
    } else {
      SameFuture(g, g', v, current);
    }
  }

  lemma FutureAppended(g: Graph, g': Graph, v: string, current: string, id: string)
    requires var order := Listed(g.workflows, v);
             && current in order && Listed(g'.workflows, v) == order + [id]
             && var rest := order[IndexOf(order, current) + 1..];
                Uncompleted(g'.steps, rest) == Uncompleted(g.steps, rest)
    requires id in g'.steps && !g'.steps[id].completed
    ensures Future(g', v, current) == Future(g, v, current) + [id]
  {
    hide Uncompleted, IndexOf;
    var order := Listed(g.workflows, v);
    var from := IndexOf(order, current) + 1;
    AppendKeepsPlace(order, id, current);
    assert (order + [id])[from..] == order[from..] + [id];
    UncompletedSnoc(g'.steps, order[from..], id);
  }

  lemma SameFuture(g: Graph, g': Graph, v: string, current: string)
    requires var order := Listed(g.workflows, v);
             && current in order && Listed(g'.workflows, v) == order + []
             && var rest := order[IndexOf(order, current) + 1..];
                Uncompleted(g'.steps, rest) == Uncompleted(g.steps, rest)
    ensures Future(g', v, current) == Future(g, v, current) + []
  {
    hide Uncompleted, IndexOf;
    assert Listed(g.workflows, v) + [] == Listed(g.workflows, v);
  }

  lemma AddedKeepsUncompleted(g: Graph, w: string, id: string, a: string, p: Option<string>, t: int,
                              v: string, ids: seq<string>)
    requires ListsSteps(g) && AddErrorOf(g, w, id, p).None?
    requires forall i :: i in ids ==> i in Listed(g.workflows, v)
    ensures Uncompleted(StepAdded(g, w, id, a, p, t).steps, ids) == Uncompleted(g.steps, ids)
  {
    var g' := StepAdded(g, w, id, a, p, t);
    assert v in g.workflows ==> ListsOwn(g, v);
    forall i | i in ids ensures i in g.steps && i in g'.steps && g'.steps[i].completed == g.steps[i].completed {
      AddedKeepsOthers(g, w, id, a, p, t, i);
    }
    SameUncompleted(g'.steps, g.steps, ids);
  }

  /** Adding a step never changes a distance already found. */
  lemma AddingKeepsDistance(g: Graph, w: string, id: string, a: string, p: Option<string>, t: int,
                            agentId: string, current: string)
    requires WellFormed(g) && AddErrorOf(g, w, id, p).None? && current in g.steps
    ensures var before := StepsToExecution(g, agentId, current);
            var g' := StepAdded(g, w, id, a, p, t);
            current in g'.steps && (before.Some? ==> StepsToExecution(g', agentId, current) == before)
  {
    hide StepAdded, Future, Distance;
    var v, g' := g.steps[current].workflowId, StepAdded(g, w, id, a, p, t);
    var future := Future(g, v, current);
    AddedKeepsOthers(g, w, id, a, p, t, current);
    AddingExtendsFuture(g, w, id, a, p, t, current);
    FutureMembers(g, current);
    assert ListsOwn(g, v) by {
      assert IsListed(g, current);
    }
    forall i | i in future ensures i in g.steps && i in g'.steps && g'.steps[i].agentId == g.steps[i].agentId {
      AddedKeepsOthers(g, w, id, a, p, t, i);
    }
    SameDistance(g'.steps, g.steps, future, agentId);
    DistanceAppend(g'.steps, future, if v == w then [id] else [], agentId);
    assert future + [] == future;
  }
}
