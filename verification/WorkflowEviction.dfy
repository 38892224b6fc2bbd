/** The eviction scores of `policies/eviction/workflow_aware.py`. Floats are reals and the clock is
    an argument. */
module WorkflowEviction {
  import opened Sorting
  import opened StepDistance
  import opened StepGraphModel
  import opened StepGraphTheorems
  import opened StepGraphs
  import opened Wrappers

  /** The fields of a KV block the scores read; `reloadTag` is its `reload_cost_ms` tag, if numeric. */
  datatype Block = Block(
    objectId: string,
    sharedBySessions: nat,
    reuseScore: real,
    sizeBytes: nat,
    expectedNextUse: Option<int>,
    agentId: Option<string>,
    predictedToolLatency: Option<real>,
    reloadTag: Option<real>)

  datatype Weights = Weights(
    recency: real, frequency: real, shared: real, prefix: real, workflow: real, size: real, reload: real,
    sizeNormalizer: real, reloadNormalizer: real)
  {
    predicate Valid() {
      && recency >= 0.0 && frequency >= 0.0 && shared >= 0.0 && prefix >= 0.0 && workflow >= 0.0
      && size >= 0.0 && reload >= 0.0 && sizeNormalizer > 0.0 && reloadNormalizer > 0.0
    }
  }

  datatype Components = Components(
    recency: real, frequency: real, shared: real, prefix: real, workflow: real, sizePenalty: real, reloadPenalty: real)

  datatype Accesses = Accesses(times: map<string, real>, counts: map<string, nat>, maxShared: nat)

  datatype AccessEvent = Accessed(block: Block, now: real) | Added(block: Block, now: real) | Evicted(objectId: string)

  const NO_ACCESSES := Accesses(map[], map[], 1)

  /** What the policy remembers after an event. */
  function AccessStep(a: Accesses, ev: AccessEvent): Accesses {
    match ev
    case Accessed(b, now) =>
      var count := if b.objectId in a.counts then a.counts[b.objectId] + 1 else 1;
      Accesses(a.times[b.objectId := now], a.counts[b.objectId := count], Max(a.maxShared, b.sharedBySessions))
    case Added(b, now) =>
      Accesses(a.times[b.objectId := now], a.counts[b.objectId := 1], Max(a.maxShared, b.sharedBySessions))
    case Evicted(id) => Accesses(a.times - {id}, a.counts - {id}, a.maxShared)
  }

  function AccessesAfter(evs: seq<AccessEvent>): Accesses {
    if evs == [] then NO_ACCESSES else AccessStep(AccessesAfter(evs[..|evs| - 1]), evs[|evs| - 1])
  }

  function Max(m: nat, n: nat): nat { if m >= n then m else n }

  function Min1(x: real): real { if x < 1.0 then x else 1.0 }

  function Max0(x: real): real { if x > 0.0 then x else 0.0 }

  function Fraction(steps: nat): (r: real)
    ensures 0.0 < r <= 1.0
  {
    1.0 / (1.0 + steps as real)
  }

  /** How soon the block's agent runs next, one for at once and nothing when unknown. */
  function WorkflowScore(g: Option<Graph>, current: Option<string>, b: Block): real {
    if b.expectedNextUse.Some? then
      if b.expectedNextUse.value < 0 then 0.0 else Fraction(b.expectedNextUse.value)
    else if g.None? || current.None? || b.agentId.None? then 0.0
    else if current.value !in g.value.steps then 0.0
    else
      match StepsToExecution(g.value, b.agentId.value, current.value)
      case None => 0.0
      case Some(steps) => Fraction(steps)
  }

  function Recency(a: Accesses, id: string, now: real): real {
    if id in a.times then 1.0 / (1.0 + Max0(now - a.times[id])) else 0.0
  }

  function ReloadPenalty(w: Weights, b: Block): real
    requires w.Valid()
  {
    var cost := if b.predictedToolLatency.Some? then b.predictedToolLatency else b.reloadTag;
    if cost.None? || cost.value <= 0.0 then 0.0 else Min1(cost.value / w.reloadNormalizer)
  }

  function ComponentsOf(w: Weights, a: Accesses, g: Option<Graph>, current: Option<string>, b: Block, now: real): Components
    requires w.Valid()
  {
    Components(
      Recency(a, b.objectId, now),
      Min1((if b.objectId in a.counts then a.counts[b.objectId] else 1) as real / 10.0),
      b.sharedBySessions as real / (if a.maxShared > 1 then a.maxShared else 1) as real,
      Max0(Min1(b.reuseScore)),
      WorkflowScore(g, current, b),
      Min1(b.sizeBytes as real / w.sizeNormalizer),
      ReloadPenalty(w, b))
  }

  function ScoreOf(w: Weights, c: Components): real {
    w.recency * c.recency + w.frequency * c.frequency + w.shared * c.shared + w.prefix * c.prefix
    + w.workflow * c.workflow - w.size * c.sizePenalty - w.reload * c.reloadPenalty
  }

  function BlockScore(w: Weights, a: Accesses, g: Option<Graph>, current: Option<string>, now: real, b: Block): real
    requires w.Valid()
  {
    ScoreOf(w, ComponentsOf(w, a, g, current, b, now))
  }

  // How the scores move with the workflow

  lemma CloserScoresHigher(near: nat, far: nat)
    requires near <= far
    ensures Fraction(near) >= Fraction(far)
  {
    var x, y := 1.0 + near as real, 1.0 + far as real;
    assert 1.0 / x - 1.0 / y == (y - x) / (x * y);
  }

  /** An event of the graph other than completing a step of the block's own agent. */
  predicate NotOwnCompletion(g: Graph, op: Op, agentId: Option<string>) {
    op.Complete? && op.stepId in g.steps ==> agentId != Some(g.steps[op.stepId].agentId)
  }

  lemma WorkflowAddedSameFuture(g: Graph, v: string, at: string)
    requires at in g.steps
    ensures var w := g.steps[at].workflowId; Future(WorkflowAdded(g, v), w, at) == Future(g, w, at)
  {
    assert Listed(WorkflowAdded(g, v).workflows, g.steps[at].workflowId) == Listed(g.workflows, g.steps[at].workflowId);
  }

  /** With the current step fixed, no such event ever lowers a block's workflow score. */
  lemma WorkflowScoreNeverDrops(g: Graph, op: Op, current: Option<string>, b: Block)
    requires WellFormed(g) && NotOwnCompletion(g, op, b.agentId)
    ensures WorkflowScore(Some(Step(g, op)), current, b) >= WorkflowScore(Some(g), current, b)
  {
    hide Future, Distance, Fraction, WellFormed, Precedes;
    if b.expectedNextUse.None? && current.Some? && b.agentId.Some? && current.value in g.steps {
      var agent, at := b.agentId.value, current.value;
      match op
      case AddWorkflow(v) => WorkflowAddedSameFuture(g, v, at);
      case AddStep(v, id, a, p, t) =>
        if AddErrorOf(g, v, id, p).None? {
          AddingKeepsDistance(g, v, id, a, p, t, agent, at);
        }
      case Complete(x) =>
        if x in g.steps {
          CompletingOthersBringsCloser(g, agent, at, x);
          var before, after := StepsToExecution(g, agent, at), StepsToExecution(StepCompleted(g, x), agent, at);
          if before.Some? {
            CloserScoresHigher(after.value, before.value);
          }
        }
    }
  }

  /** Over any further history of such events the score only rises. */
  lemma {:induction false} WorkflowScoreOnlyRises(ops: seq<Op>, more: seq<Op>, current: Option<string>, b: Block)
    requires forall i :: 0 <= i < |more| ==> NotOwnCompletion(Run(ops + more[..i]), more[i], b.agentId)
    ensures WorkflowScore(Some(Run(ops + more)), current, b) >= WorkflowScore(Some(Run(ops)), current, b)
  {
    hide WorkflowScore, NotOwnCompletion, WellFormed, Step;
    if more == [] {
      assert ops + more == ops;
    } else {
      var n := |more| - 1;
      forall i | 0 <= i < n ensures more[..n][..i] == more[..i] {
      }
      WorkflowScoreOnlyRises(ops, more[..n], current, b);
      ReachableIsWellFormed(ops + more[..n]);
      WorkflowScoreNeverDrops(Run(ops + more[..n]), more[n], current, b);
      assert (ops + more)[..|ops + more| - 1] == ops + more[..n];
    }
  }

  lemma ScoreFollowsWorkflow(w: Weights, c: Components, d: Components)
    requires w.Valid() && d == c.(workflow := d.workflow) && d.workflow >= c.workflow
    ensures ScoreOf(w, d) >= ScoreOf(w, c)
  {
    assert w.workflow * (d.workflow - c.workflow) >= 0.0;
    assert w.workflow * d.workflow == w.workflow * c.workflow + w.workflow * (d.workflow - c.workflow);
  }

  /** So neither does its retention score, all else equal. */
  lemma RetentionScoreNeverDrops(w: Weights, a: Accesses, g: Graph, op: Op, current: Option<string>, b: Block, now: real)
    requires w.Valid() && WellFormed(g) && NotOwnCompletion(g, op, b.agentId)
    ensures BlockScore(w, a, Some(Step(g, op)), current, now, b) >= BlockScore(w, a, Some(g), current, now, b)
  {
    hide WorkflowScore, WellFormed, ScoreOf, NotOwnCompletion;
    WorkflowScoreNeverDrops(g, op, current, b);
    ScoreFollowsWorkflow(w, ComponentsOf(w, a, Some(g), current, b, now), ComponentsOf(w, a, Some(Step(g, op)), current, b, now));
  }

  datatype EvictionDecision = EvictionDecision(objectId: string, priority: real)

  function Negated(scored: (string, real)): real { -scored.1 }

  class WorkflowAwareEviction {
    const weights: Weights
    const graph: AgentStepGraph?
    var currentStepId: Option<string>
    var accessTimes: map<string, real>
    var accessCounts: map<string, nat>
    var maxShared: nat

    ghost predicate Valid()
      reads this, graph
      reads if graph != null then graph.steps.Values else {}
    {
      weights.Valid() && (graph != null ==> graph.Valid())
    }

    ghost function GraphView(): Option<Graph>
      reads graph
    {
      if graph == null then None else Some(graph.view)
    }

    ghost function View(): Accesses
      reads this
    {
      Accesses(accessTimes, accessCounts, maxShared)
    }

    constructor (weights: Weights, graph: AgentStepGraph?, currentStepId: Option<string>)
      requires weights.Valid() && (graph != null ==> graph.Valid())
      ensures Valid() && this.graph == graph && this.currentStepId == currentStepId && this.weights == weights
      ensures View() == NO_ACCESSES
    {
      this.weights, this.graph, this.currentStepId := weights, graph, currentStepId;
      accessTimes, accessCounts, maxShared := map[], map[], 1;
    }

    method SetCurrentStep(stepId: Option<string>)
      modifies this`currentStepId
      ensures currentStepId == stepId
    {
      currentStepId := stepId;
    }

    method OnBlockAccessed(b: Block, now: real)
      modifies this
      ensures currentStepId == old(currentStepId)
      ensures View() == AccessStep(old(View()), Accessed(b, now))
    {
      accessTimes := accessTimes[b.objectId := now];
      accessCounts := accessCounts[b.objectId := (if b.objectId in accessCounts then accessCounts[b.objectId] else 0) + 1];
      if b.sharedBySessions > maxShared {
        maxShared := b.sharedBySessions;
      }
    }

    method OnBlockAdded(b: Block, now: real)
      modifies this
      ensures currentStepId == old(currentStepId)
      ensures View() == AccessStep(old(View()), Added(b, now))
    {
      accessTimes := accessTimes[b.objectId := now];
      accessCounts := accessCounts[b.objectId := 1];
      if b.sharedBySessions > maxShared {
        maxShared := b.sharedBySessions;
      }
    }

    method OnBlockEvicted(objectId: string)
      modifies this
      ensures currentStepId == old(currentStepId)
      ensures View() == AccessStep(old(View()), Evicted(objectId))
    {
      accessTimes := accessTimes - {objectId};
      accessCounts := accessCounts - {objectId};
    }

    method WorkflowNextUse(b: Block) returns (score: real)
      requires Valid()
      ensures score == WorkflowScore(GraphView(), currentStepId, b)
    {
      hide WellFormed, Future, Distance;
      if b.expectedNextUse.Some? {
        if b.expectedNextUse.value < 0 {
          return 0.0;
        }
        return 1.0 / (1.0 + b.expectedNextUse.value as real);
      }
      if graph == null || currentStepId.None? || b.agentId.None? {
        return 0.0;
      }
      var steps := graph.StepsTo(b.agentId.value, currentStepId.value);
      match steps {
        case Failure(_) => return 0.0;
        case Success(None) => return 0.0;
        case Success(Some(n)) => return 1.0 / (1.0 + n as real);
      }
    }

    method ScoreBlock(b: Block, now: real) returns (score: real)
      requires Valid()
      ensures score == BlockScore(weights, View(), GraphView(), currentStepId, now, b)
    {
      hide WorkflowScore, ScoreOf, Recency, ReloadPenalty, WellFormed;
      var workflow := WorkflowNextUse(b);
      var count := if b.objectId in accessCounts then accessCounts[b.objectId] else 1;
      var components := Components(
        Recency(Accesses(accessTimes, accessCounts, maxShared), b.objectId, now),
        Min1(count as real / 10.0),
        b.sharedBySessions as real / (if maxShared > 1 then maxShared else 1) as real,
        Max0(Min1(b.reuseScore)),
        workflow,
        Min1(b.sizeBytes as real / weights.sizeNormalizer),
        ReloadPenalty(weights, b));
      score := ScoreOf(weights, components);
    }

    /** The earliest candidate of lowest score. */
    method SelectVictim(candidates: seq<Block>, now: real) returns (victim: Option<EvictionDecision>)
      requires Valid()
      ensures victim.None? <==> candidates == []
      ensures victim.Some? ==>
                exists k :: 0 <= k < |candidates| && IsVictim(candidates, now, k)
                  && victim.value == EvictionDecision(candidates[k].objectId, -Score(candidates[k], now))
    {
      if candidates == [] {
        return None;
      }
      var scored: seq<(string, real)> := [];
      for i := 0 to |candidates|
        invariant |scored| == i
        invariant forall j :: 0 <= j < i ==> scored[j] == (candidates[j].objectId, Score(candidates[j], now))
      {
        var score := ScoreBlock(candidates[i], now);
        scored := scored + [(candidates[i].objectId, score)];
      }
      var sorted := StableDescending(scored, Negated);
      ghost var k := HeadIsEarliestLargest(scored, Negated);
      assert forall j :: 0 <= j < |candidates| ==> Negated(scored[j]) == -Score(candidates[j], now);
      assert IsVictim(candidates, now, k);
      return Some(EvictionDecision(sorted[0].0, -sorted[0].1));
    }

    ghost function Score(b: Block, now: real): real
      requires weights.Valid()
      reads this, graph
    {
      BlockScore(weights, View(), GraphView(), currentStepId, now, b)
    }

    ghost predicate IsVictim(candidates: seq<Block>, now: real, k: int)
      requires weights.Valid() && 0 <= k < |candidates|
      reads this, graph
    {
      && (forall j :: 0 <= j < |candidates| ==> Score(candidates[j], now) >= Score(candidates[k], now))
      && (forall j :: 0 <= j < k ==> Score(candidates[j], now) > Score(candidates[k], now))
    }
  }
}
