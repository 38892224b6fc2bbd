/** The tables, triggers, sets and counters of the retention policy, in terms of a run's events. */
module RetentionLedger {
  import opened Collections
  import opened LatencyModel
  import opened LatencyTheorems
  import opened RetentionModel
  import opened RetentionTheorems
  import opened Text
  import opened Wrappers

  /** The event decides what becomes of the blocks during a tool call. */
  predicate Decides(c: PolicyConfig, ev: Event, tc: string) {
    ev.StepCompleted? && StepAccepted(c, ev.end) && ToolCall(ev.end) == Some(tc)
  }

  /** Event `j` is the last to decide for the tool call. */
  predicate LastDecision(c: PolicyConfig, evs: seq<Event>, j: int, tc: string) {
    0 <= j < |evs| && Decides(c, evs[j], tc) && forall m :: j < m < |evs| ==> !Decides(c, evs[m], tc)
  }

  lemma LastDecisionSnoc(c: PolicyConfig, evs: seq<Event>, j: int, tc: string)
    requires evs != []
    ensures var n := |evs| - 1;
            LastDecision(c, evs, j, tc) <==>
              if j == n then Decides(c, evs[n], tc) else LastDecision(c, evs[..n], j, tc) && !Decides(c, evs[n], tc)
  {
    hide Decides;
    var n := |evs| - 1;
    assert forall m :: 0 <= m < n ==> evs[..n][m] == evs[m];
  }

  /** What the estimator predicted when step `j` of the run completed. */
  function PredictedAt(c: PolicyConfig, ec: Config, start: Estimator, evs: seq<Event>, j: int): real
    requires 0 <= j < |evs| && evs[j].StepCompleted?
  {
    Predicted(ec, Run(c, ec, start, evs[..j]).estimator, ToolName(evs[j].end), NormalizedClass(evs[j].end.argsClass))
  }

  // The decision tables

  /** The tables hold what event `j` of the run decided. */
  ghost predicate TablesHold(c: PolicyConfig, ec: Config, start: Estimator, evs: seq<Event>, j: int, tc: string, p: Policy) {
    && 0 <= j < |evs| && evs[j].StepCompleted?
    && tc in p.byToolCall && p.byToolCall[tc] == Decide(c, evs[j].end, PredictedAt(c, ec, start, evs, j))
    && tc in p.toolProfiles && p.toolProfiles[tc] == ToolProfile(ToolName(evs[j].end), evs[j].end.argsClass)
  }

  lemma StepOfTables(c: PolicyConfig, ec: Config, s: State, ev: Event, tc: string)
    ensures var p, p' := s.policy, Step(c, ec, s, ev).policy;
            if Decides(c, ev, tc) then
              && tc in p'.byToolCall && tc in p'.toolProfiles
              && p'.byToolCall[tc] == Decide(c, ev.end, Predicted(ec, s.estimator, ToolName(ev.end), NormalizedClass(ev.end.argsClass)))
              && p'.toolProfiles[tc] == ToolProfile(ToolName(ev.end), ev.end.argsClass)
            else
              && (tc in p'.byToolCall <==> tc in p.byToolCall) && (tc in p'.toolProfiles <==> tc in p.toolProfiles)
              && (tc in p.byToolCall ==> p'.byToolCall[tc] == p.byToolCall[tc])
              && (tc in p.toolProfiles ==> p'.toolProfiles[tc] == p.toolProfiles[tc])
  {
    hide Predicted, LatencyRecorded, ToolName, NormalizedClass, Due, Observed;
    if ev.StepCompleted? && StepAccepted(c, ev.end) {
      var d := Decide(c, ev.end, Predicted(ec, s.estimator, ToolName(ev.end), NormalizedClass(ev.end.argsClass)));
      assert d.toolCallId == ToolCall(ev.end);
      assert Counted(s.policy, d).byToolCall == s.policy.byToolCall && Counted(s.policy, d).toolProfiles == s.policy.toolProfiles;
    }
  }

  /** After every run the tables hold, for each tool call, its last decision and the tool it named. */
  lemma {:induction false} TablesHoldLastDecision(c: PolicyConfig, ec: Config, start: Estimator, evs: seq<Event>, tc: string)
    ensures var p := Run(c, ec, start, evs).policy;
            && (tc in p.byToolCall || tc in p.toolProfiles ==> exists j :: LastDecision(c, evs, j, tc))
            && forall j :: LastDecision(c, evs, j, tc) ==> TablesHold(c, ec, start, evs, j, tc, p)
  {
    if evs != [] {
      hide Step, Decides, LastDecision, Decide, ToolName;
      var n := |evs| - 1;
      TablesHoldLastDecision(c, ec, start, evs[..n], tc);
      StepOfTables(c, ec, Run(c, ec, start, evs[..n]), evs[n], tc);
      var p := Run(c, ec, start, evs).policy;
      forall j | LastDecision(c, evs, j, tc) ensures TablesHold(c, ec, start, evs, j, tc, p) {
        LastDecisionSnoc(c, evs, j, tc);
        DecidesIsStep(c, evs[n], tc);
        if j < n {
          assert evs[..n][..j] == evs[..j];
        }
      }
      if Decides(c, evs[n], tc) {
        LastDecisionSnoc(c, evs, n, tc);
      } else if tc in p.byToolCall || tc in p.toolProfiles {
        var j :| LastDecision(c, evs[..n], j, tc);
        LastDecisionBound(c, evs[..n], j, tc);
        LastDecisionSnoc(c, evs, j, tc);
      }
    }
  }

  lemma DecidesIsStep(c: PolicyConfig, ev: Event, tc: string)
    ensures Decides(c, ev, tc) ==> ev.StepCompleted?
  {
  }

  lemma LastDecisionBound(c: PolicyConfig, evs: seq<Event>, j: int, tc: string)
    requires LastDecision(c, evs, j, tc)
    ensures 0 <= j < |evs|
  {
  }

  /** Event `j` is the last to decide for the step. */
  predicate LastOfStep(c: PolicyConfig, evs: seq<Event>, j: int, stepId: string) {
    && 0 <= j < |evs| && DecidesStep(c, evs[j], stepId)
    && forall m :: j < m < |evs| ==> !DecidesStep(c, evs[m], stepId)
  }

  predicate DecidesStep(c: PolicyConfig, ev: Event, stepId: string) {
    ev.StepCompleted? && StepAccepted(c, ev.end) && ev.end.step.stepId == stepId
  }

  lemma StepOfByStep(c: PolicyConfig, ec: Config, s: State, ev: Event, stepId: string)
    ensures var p, p' := s.policy, Step(c, ec, s, ev).policy;
            if DecidesStep(c, ev, stepId) then
              stepId in p'.byStep
              && p'.byStep[stepId] == Decide(c, ev.end, Predicted(ec, s.estimator, ToolName(ev.end), NormalizedClass(ev.end.argsClass)))
            else
              (stepId in p'.byStep <==> stepId in p.byStep) && (stepId in p.byStep ==> p'.byStep[stepId] == p.byStep[stepId])
  {
    hide Predicted, LatencyRecorded, ToolName, NormalizedClass, Due, Observed;
    if ev.StepCompleted? && StepAccepted(c, ev.end) {
      var d := Decide(c, ev.end, Predicted(ec, s.estimator, ToolName(ev.end), NormalizedClass(ev.end.argsClass)));
      assert Counted(s.policy, d).byStep == s.policy.byStep;
    }
  }

  lemma LastOfStepSnoc(c: PolicyConfig, evs: seq<Event>, j: int, stepId: string)
    requires evs != []
    ensures var n := |evs| - 1;
            LastOfStep(c, evs, j, stepId) <==>
              if j == n then DecidesStep(c, evs[n], stepId)
              else LastOfStep(c, evs[..n], j, stepId) && !DecidesStep(c, evs[n], stepId)
    ensures LastOfStep(c, evs, j, stepId) ==> 0 <= j < |evs| && evs[j].StepCompleted?
  {
    var n := |evs| - 1;
    assert forall m :: 0 <= m < n ==> evs[..n][m] == evs[m];
  }

  /** After every run the decision kept for a step is the one last made when it completed. */
  lemma {:induction false} StepDecisionIsLatest(c: PolicyConfig, ec: Config, start: Estimator, evs: seq<Event>, stepId: string)
    ensures var p := Run(c, ec, start, evs).policy;
            && (stepId in p.byStep ==> exists j :: LastOfStep(c, evs, j, stepId))
            && forall j :: LastOfStep(c, evs, j, stepId) ==>
                 && j < |evs| && evs[j].StepCompleted? && stepId in p.byStep
                 && p.byStep[stepId] == Decide(c, evs[j].end, PredictedAt(c, ec, start, evs, j))
  {
    if evs != [] {
      hide Step, DecidesStep, LastOfStep, Decide, ToolName;
      var n := |evs| - 1;
      StepDecisionIsLatest(c, ec, start, evs[..n], stepId);
      StepOfByStep(c, ec, Run(c, ec, start, evs[..n]), evs[n], stepId);
      var p := Run(c, ec, start, evs).policy;
      forall j | LastOfStep(c, evs, j, stepId)
        ensures 0 <= j < |evs| && evs[j].StepCompleted? && stepId in p.byStep
        ensures p.byStep[stepId] == Decide(c, evs[j].end, PredictedAt(c, ec, start, evs, j))
      {
        LastOfStepSnoc(c, evs, j, stepId);
        if j < n {
          assert evs[..n][..j] == evs[..j];
        }
      }
      if DecidesStep(c, evs[n], stepId) {
        LastOfStepSnoc(c, evs, n, stepId);
      } else if stepId in p.byStep {
        var j :| LastOfStep(c, evs[..n], j, stepId);
        InStepRange(c, evs[..n], j, stepId);
        LastOfStepSnoc(c, evs, j, stepId);
      }
    }
  }

  lemma InStepRange(c: PolicyConfig, evs: seq<Event>, j: int, stepId: string)
    requires LastOfStep(c, evs, j, stepId)
    ensures 0 <= j < |evs|
  {
  }

  // Decisions and triggers

  /** The blocks of a step, those given to the call winning over its own. */
  function BlocksOf(e: StepEnd): seq<string> {
    match e.kvBlockIds
    case Some(ids) => ids
    case None => e.step.kvBlockIds
  }

  function CostOf(c: PolicyConfig, e: StepEnd): real {
    match e.reloadCost
    case Some(cost) => cost
    case None => c.reloadCost
  }

  /** A decision field by field: kept for at least the default ttl and for the predicted wait and the
      reload, or offloaded with a prefetch due the margin before the predicted end. */
  lemma DecisionFields(c: PolicyConfig, e: StepEnd, predicted: real)
    ensures var d := Decide(c, e, predicted);
            && d.stepId == e.step.stepId && d.kvBlockIds == BlocksOf(e) && d.toolCallId == ToolCall(e)
            && d.reloadCost == Some(CostOf(c, e))
            && (d.action == Retain <==> ToolCall(e).None?)
            && (d.action == Pin <==> ToolCall(e).Some? && predicted <= c.threshold)
            && (d.action == Offload <==> ToolCall(e).Some? && predicted > c.threshold)
            && (d.predictedLatency == if ToolCall(e).Some? then Some(predicted) else None)
            && (d.action == Pin <==> d.ttl.Some?)
            && (d.action == Pin ==> d.ttl.value >= c.defaultTtl && d.ttl.value >= predicted + CostOf(c, e)
                                    && d.ttl.value in {c.defaultTtl, predicted + CostOf(c, e)})
            && (d.action == Offload <==> d.prefetchDelay.Some?)
            && (d.action == Offload ==> d.prefetchDelay.value >= 0.0 && d.prefetchDelay.value >= predicted - c.prefetchMargin
                                        && d.prefetchDelay.value in {0.0, predicted - c.prefetchMargin})
  {
  }

  /** The tool call of a step: the one given, unless it is missing or empty, else the step's own. */
  lemma ToolCallOf(e: StepEnd)
    ensures e.toolCallId.Some? && e.toolCallId.value != "" ==> ToolCall(e) == e.toolCallId
    ensures e.toolCallId.None? || e.toolCallId.value == "" ==> ToolCall(e) == e.step.toolCallId
  {
  }

  /** The tool of a step: the name given, else its own, without surrounding space; unknown if there is none. */
  lemma ToolNameOf(e: StepEnd)
    ensures var named := e.toolName.Some? && e.toolName.value != "";
            && (named && Strip(e.toolName.value) != "" ==> ToolName(e) == Strip(e.toolName.value))
            && (!named && e.step.toolName.Some? && Strip(e.step.toolName.value) != "" ==> ToolName(e) == Strip(e.step.toolName.value))
            && (named && Strip(e.toolName.value) == "" ==> ToolName(e) == "unknown")
            && (!named && (e.step.toolName.None? || Strip(e.step.toolName.value) == "") ==> ToolName(e) == "unknown")
  {
  }

  lemma {:induction false} TriggeredExactly(c: PolicyConfig, ec: Config, start: Estimator, evs: seq<Event>, tc: string)
    ensures tc in Run(c, ec, start, evs).policy.triggered <==> exists k: nat :: k < |evs| && TriggersAt(c, ec, start, evs, k, tc)
  {
    if evs != [] {
      var n := |evs| - 1;
      TriggeredExactly(c, ec, start, evs[..n], tc);
      StepOfTriggered(c, ec, Run(c, ec, start, evs[..n]), evs[n], tc);
      hide Step, Due;
      forall k: nat | k < n ensures TriggersAt(c, ec, start, evs[..n], k, tc) <==> TriggersAt(c, ec, start, evs, k, tc) {
        assert evs[..n][..k] == evs[..k];
      }
      if tc in Run(c, ec, start, evs).policy.triggered {
        if tc in Run(c, ec, start, evs[..n]).policy.triggered {
          var k: nat :| k < n && TriggersAt(c, ec, start, evs[..n], k, tc);
          assert TriggersAt(c, ec, start, evs, k, tc);
        } else {
          assert TriggersAt(c, ec, start, evs, n, tc);
        }
      }
    }
  }

  lemma StepOfTriggered(c: PolicyConfig, ec: Config, s: State, ev: Event, tc: string)
    ensures tc in Step(c, ec, s, ev).policy.triggered <==>
              tc in s.policy.triggered || (ev.PrefetchDue? && ev.toolCallId == tc && Due(s.policy, tc, ev.elapsed).Some?)
  {
    hide Predicted, LatencyRecorded, ToolName, NormalizedClass, Observed, Due;
  }

  /** What a timer returns: the blocks and figures of the decision, to be prefetched. */
  function PrefetchOf(c: PolicyConfig, e: StepEnd, tc: string, predicted: real): Decision {
    Decision(e.step.stepId, BlocksOf(e), PrefetchLater, None, Some(tc), Some(predicted), Some(CostOf(c, e)),
             Some(if predicted > c.prefetchMargin then predicted - c.prefetchMargin else 0.0))
  }

  /** A timer that has run `elapsed` triggers the prefetch of a tool call if and only if none has before,
      its last decision was to offload, and the predicted end is at most the margin away. It then
      returns that decision's blocks and figures. */
  lemma TriggersExactlyWhenDue(c: PolicyConfig, ec: Config, start: Estimator, evs: seq<Event>, i: nat, tc: string, j: int)
    requires i < |evs| && evs[i].PrefetchDue? && evs[i].toolCallId == tc && evs[i].elapsed >= 0.0
    requires LastDecision(c, evs[..i], j, tc)
    ensures 0 <= j < i && evs[j].StepCompleted?
    ensures var predicted := PredictedAt(c, ec, start, evs, j);
            && (TriggersAt(c, ec, start, evs, i, tc) <==>
                  && (forall k: nat :: k < i ==> !TriggersAt(c, ec, start, evs, k, tc))
                  && predicted > c.threshold && evs[i].elapsed >= predicted - c.prefetchMargin)
            && (TriggersAt(c, ec, start, evs, i, tc) ==>
                  Due(Run(c, ec, start, evs[..i]).policy, tc, evs[i].elapsed) == Some(PrefetchOf(c, evs[j].end, tc, predicted)))
  {
    hide Run, Predicted, ToolName;
    TablesHoldLastDecision(c, ec, start, evs[..i], tc);
    TriggeredExactly(c, ec, start, evs[..i], tc);
    assert TablesHold(c, ec, start, evs[..i], j, tc, Run(c, ec, start, evs[..i]).policy);
    assert evs[..i][..j] == evs[..j];
    assert PredictedAt(c, ec, start, evs[..i], j) == PredictedAt(c, ec, start, evs, j);
    EarlierTriggers(c, ec, start, evs, i, tc);
    assert ToolCall(evs[j].end) == Some(tc);
  }

  lemma EarlierTriggers(c: PolicyConfig, ec: Config, start: Estimator, evs: seq<Event>, i: nat, tc: string)
    requires i <= |evs|
    ensures (exists k: nat :: k < |evs[..i]| && TriggersAt(c, ec, start, evs[..i], k, tc)) <==>
              (exists k: nat :: k < i && TriggersAt(c, ec, start, evs, k, tc))
  {
    hide Run, Due;
    forall k: nat | k < i ensures TriggersAt(c, ec, start, evs[..i], k, tc) <==> TriggersAt(c, ec, start, evs, k, tc) {
      assert evs[..i][..k] == evs[..k];
    }
    if exists k: nat :: k < |evs[..i]| && TriggersAt(c, ec, start, evs[..i], k, tc) {
      var k: nat :| k < |evs[..i]| && TriggersAt(c, ec, start, evs[..i], k, tc);
      assert TriggersAt(c, ec, start, evs, k, tc);
    }
  }

  /** And a tool call no step decided for never triggers. */
  lemma UndecidedNeverTriggers(c: PolicyConfig, ec: Config, start: Estimator, evs: seq<Event>, i: nat, tc: string)
    requires i < |evs| && forall j :: !LastDecision(c, evs[..i], j, tc)
    ensures !TriggersAt(c, ec, start, evs, i, tc)
  {
    TablesHoldLastDecision(c, ec, start, evs[..i], tc);
  }

  // Which tool a completion is recorded under

  /** A completion is recorded under the name it gives, or else under the tool of the step that last
      decided for its call; the class given wins over that step's. */
  lemma CompletionIsRecorded(c: PolicyConfig, ec: Config, start: Estimator, evs: seq<Event>, ev: Event, j: int)
    requires ev.ToolCompleted? && ev.latency >= 0.0 && LastDecision(c, evs, j, ev.toolCallId)
    ensures 0 <= j < |evs| && evs[j].StepCompleted?
    ensures var named := ev.toolName.Some? && ev.toolName.value != "";
            var name := if named then Strip(ev.toolName.value) else ToolName(evs[j].end);
            var argsClass := if ev.argsClass.Some? then ev.argsClass else evs[j].end.argsClass;
            Observed(Run(c, ec, start, evs), ev)
              == if name == "" then None else Some(Observation(name, NormalizedClass(argsClass), ev.latency))
  {
    hide Run, Decide, PredictedAt, NormalizedClass, Strip;
    TablesHoldLastDecision(c, ec, start, evs, ev.toolCallId);
    NamesAreStripped(evs[j].end);
  }

  lemma NamesAreStripped(e: StepEnd)
    ensures ToolName(e) != "" && Strip(ToolName(e)) == ToolName(e)
  {
    var name := Or(e.toolName, e.step.toolName);
    assert Stripped("unknown") by {
      assert "unknown"[0] == 'u' && "unknown"[6] == 'n';
    }
    StripCorrect("unknown");
    if name.Some? {
      StripCorrect(name.value);
      StripCorrect(Strip(name.value));
    }
  }

  /** Without such a step it must give a name. */
  lemma StrangeCompletionNeedsName(c: PolicyConfig, ec: Config, start: Estimator, evs: seq<Event>, ev: Event)
    requires ev.ToolCompleted? && ev.latency >= 0.0 && forall j :: !LastDecision(c, evs, j, ev.toolCallId)
    ensures var name := if ev.toolName.Some? then Strip(ev.toolName.value) else "";
            Observed(Run(c, ec, start, evs), ev)
              == if name == "" then None else Some(Observation(name, NormalizedClass(ev.argsClass), ev.latency))
  {
    hide Run, NormalizedClass;
    TablesHoldLastDecision(c, ec, start, evs, ev.toolCallId);
  }

  // The block sets and the counters

  /** Event `j` of the run decides with a tool call to come and a known reload cost. */
  predicate Weighs(c: PolicyConfig, evs: seq<Event>, j: int) {
    0 <= j < |evs| && evs[j].StepCompleted? && CostOf(c, evs[j].end) >= 0.0 && ToolCall(evs[j].end).Some?
  }

  predicate PinsAt(c: PolicyConfig, ec: Config, start: Estimator, evs: seq<Event>, j: int, b: string) {
    Weighs(c, evs, j) && PredictedAt(c, ec, start, evs, j) <= c.threshold && b in BlocksOf(evs[j].end)
  }

  predicate OffloadsAt(c: PolicyConfig, ec: Config, start: Estimator, evs: seq<Event>, j: int, b: string) {
    Weighs(c, evs, j) && PredictedAt(c, ec, start, evs, j) > c.threshold && b in BlocksOf(evs[j].end)
  }

  /** The block was pinned, and not released since. */
  predicate IsPinned(c: PolicyConfig, ec: Config, start: Estimator, evs: seq<Event>, j: int, b: string) {
    PinsAt(c, ec, start, evs, j, b) && forall m :: j < m < |evs| && evs[m].PinnedReleased? ==> b !in evs[m].ids
  }

  /** The block was offloaded, and not reloaded since. */
  predicate IsOffloaded(c: PolicyConfig, ec: Config, start: Estimator, evs: seq<Event>, j: int, b: string) {
    OffloadsAt(c, ec, start, evs, j, b) && forall m :: j < m < |evs| && evs[m].KvReloaded? ==> b !in evs[m].ids
  }

  lemma StepOfSets(c: PolicyConfig, ec: Config, start: Estimator, evs: seq<Event>, b: string)
    requires evs != []
    ensures var n := |evs| - 1;
            var p, p', ev := Run(c, ec, start, evs[..n]).policy, Run(c, ec, start, evs).policy, evs[n];
            && (b in p'.pinned <==>
                  PinsAt(c, ec, start, evs, n, b) || (b in p.pinned && !(ev.PinnedReleased? && b in ev.ids)))
            && (b in p'.offloaded <==>
                  OffloadsAt(c, ec, start, evs, n, b) || (b in p.offloaded && !(ev.KvReloaded? && b in ev.ids)))
  {
    hide Predicted, LatencyRecorded, ToolName, NormalizedClass, Observed, Due, Decide, Booked;
    var n := |evs| - 1;
    if evs[n].StepCompleted? {
      DecisionSets(c, Run(c, ec, start, evs[..n]).policy, evs[n].end, PredictedAt(c, ec, start, evs, n), b);
    }
  }

  lemma DecisionSets(c: PolicyConfig, p: Policy, e: StepEnd, predicted: real, b: string)
    ensures var p', decided := Booked(p, e, Decide(c, e, predicted)), ToolCall(e).Some? && b in BlocksOf(e);
            && (b in p'.pinned <==> b in p.pinned || (decided && predicted <= c.threshold))
            && (b in p'.offloaded <==> b in p.offloaded || (decided && predicted > c.threshold))
  {
    hide Hidden;
  }

  lemma PinnedSnoc(c: PolicyConfig, ec: Config, start: Estimator, evs: seq<Event>, j: int, b: string)
    requires evs != []
    ensures var n := |evs| - 1;
            && (IsPinned(c, ec, start, evs, j, b) <==>
                  if j == n then PinsAt(c, ec, start, evs, n, b)
                  else IsPinned(c, ec, start, evs[..n], j, b) && !(evs[n].PinnedReleased? && b in evs[n].ids))
            && (IsOffloaded(c, ec, start, evs, j, b) <==>
                  if j == n then OffloadsAt(c, ec, start, evs, n, b)
                  else IsOffloaded(c, ec, start, evs[..n], j, b) && !(evs[n].KvReloaded? && b in evs[n].ids))
  {
    hide Predicted, ToolName, NormalizedClass, Run;
    var n := |evs| - 1;
    if 0 <= j < n {
      assert evs[..n][..j] == evs[..j];
    }
    assert forall m :: 0 <= m < n ==> evs[..n][m] == evs[m];
  }

  /** After every run the pinned blocks are those pinned and not released since, and the offloaded ones
      those offloaded and not reloaded since. */
  lemma {:induction false} SetsAreExact(c: PolicyConfig, ec: Config, start: Estimator, evs: seq<Event>, b: string)
    ensures b in Run(c, ec, start, evs).policy.pinned <==> exists j :: IsPinned(c, ec, start, evs, j, b)
    ensures b in Run(c, ec, start, evs).policy.offloaded <==> exists j :: IsOffloaded(c, ec, start, evs, j, b)
  {
    if evs == [] {
      assert forall j :: !IsPinned(c, ec, start, evs, j, b) && !IsOffloaded(c, ec, start, evs, j, b);
    } else {
      hide Run, PinsAt, OffloadsAt, IsPinned, IsOffloaded;
      var n := |evs| - 1;
      SetsAreExact(c, ec, start, evs[..n], b);
      StepOfSets(c, ec, start, evs, b);
      forall j {
        PinnedSnoc(c, ec, start, evs, j, b);
      }
      NotYet(c, ec, start, evs[..n], b);
      assert IsPinned(c, ec, start, evs, n, b) <==> PinsAt(c, ec, start, evs, n, b);
      assert IsOffloaded(c, ec, start, evs, n, b) <==> OffloadsAt(c, ec, start, evs, n, b);
      if b in Run(c, ec, start, evs).policy.pinned && !PinsAt(c, ec, start, evs, n, b) {
        var j :| IsPinned(c, ec, start, evs[..n], j, b);
        assert IsPinned(c, ec, start, evs, j, b);
      }
      if b in Run(c, ec, start, evs).policy.offloaded && !OffloadsAt(c, ec, start, evs, n, b) {
        var j :| IsOffloaded(c, ec, start, evs[..n], j, b);
        assert IsOffloaded(c, ec, start, evs, j, b);
      }
    }
  }

  lemma NotYet(c: PolicyConfig, ec: Config, start: Estimator, evs: seq<Event>, b: string)
    ensures !IsPinned(c, ec, start, evs, |evs|, b) && !IsOffloaded(c, ec, start, evs, |evs|, b)
  {
  }

  datatype Tally = Tally(retained: nat, evicted: nat, reloaded: nat, triggered: nat, hidden: real) {
    function Plus(t: Tally): Tally {
      Tally(retained + t.retained, evicted + t.evicted, reloaded + t.reloaded, triggered + t.triggered, hidden + t.hidden)
    }
  }

  /** What a step adds: its blocks are kept through a short wait and offloaded for a long one. */
  function TallyOfStep(c: PolicyConfig, e: StepEnd, predicted: real): Tally {
    var n, cost := |BlocksOf(e)|, CostOf(c, e);
    if ToolCall(e).None? then Tally(0, 0, 0, 0, 0.0)
    else if predicted > c.threshold then Tally(0, n, 0, 0, 0.0)
    else Tally(n, 0, 0, 0, (if predicted < cost then predicted else cost) * n as real)
  }

  /** What one event of a run adds up to. */
  function TallyAt(c: PolicyConfig, ec: Config, start: Estimator, evs: seq<Event>, j: int): Tally
    requires 0 <= j < |evs|
  {
    match evs[j]
    case StepCompleted(e) =>
      if CostOf(c, e) < 0.0 then Tally(0, 0, 0, 0, 0.0) else TallyOfStep(c, e, PredictedAt(c, ec, start, evs, j))
    case PrefetchDue(tc, elapsed) =>
      var due := Due(Run(c, ec, start, evs[..j]).policy, tc, elapsed);
      Tally(0, 0, 0, if due.Some? then |due.value.kvBlockIds| else 0, 0.0)
    case KvReloaded(ids) => Tally(0, 0, |ToSet(ids)|, 0, 0.0)
    case _ => Tally(0, 0, 0, 0, 0.0)
  }

  function TallyOf(c: PolicyConfig, ec: Config, start: Estimator, evs: seq<Event>): Tally {
    if evs == [] then Tally(0, 0, 0, 0, 0.0)
    else
      var n := |evs| - 1;
      TallyOf(c, ec, start, evs[..n]).Plus(TallyAt(c, ec, start, evs, n))
  }

  /** The counters have grown by the tally: kept blocks are also those whose recompute was avoided, and
      offloaded ones those whose prefetch is scheduled. */
  predicate Adds(p: Policy, t: Tally, p': Policy) {
    && p'.kvRetained == p.kvRetained + t.retained && p'.recomputeAvoided == p.recomputeAvoided + t.retained
    && p'.kvEvicted == p.kvEvicted + t.evicted && p'.scheduled == p.scheduled + t.evicted
    && p'.kvReloaded == p.kvReloaded + t.reloaded && p'.triggerCount == p.triggerCount + t.triggered
    && p'.waitHidden == p.waitHidden + t.hidden
  }

  lemma DecisionAdds(c: PolicyConfig, p: Policy, e: StepEnd, predicted: real)
    ensures Adds(p, TallyOfStep(c, e, predicted), Booked(p, e, Decide(c, e, predicted)))
  {
    var d := Decide(c, e, predicted);
    if d.action == Pin {
      var n, cost := |BlocksOf(e)| as real, CostOf(c, e);
      assert Hidden(d) == if predicted < cost then predicted else cost;
    }
  }

  lemma StepOfCounters(c: PolicyConfig, ec: Config, start: Estimator, evs: seq<Event>)
    requires evs != []
    ensures var n := |evs| - 1;
            Adds(Run(c, ec, start, evs[..n]).policy, TallyAt(c, ec, start, evs, n), Run(c, ec, start, evs).policy)
  {
    hide Predicted, LatencyRecorded, ToolName, NormalizedClass, Observed, Due, Decide, Booked;
    var n := |evs| - 1;
    if evs[n].StepCompleted? {
      DecisionAdds(c, Run(c, ec, start, evs[..n]).policy, evs[n].end, PredictedAt(c, ec, start, evs, n));
    }
  }

  /** Every counter is the sum of what the run's events add to it: the hidden wait of a pinned step is
      the smaller of wait and reload for each block. */
  lemma {:induction false} CountersAreTallies(c: PolicyConfig, ec: Config, start: Estimator, evs: seq<Event>)
    ensures Adds(FRESH_POLICY, TallyOf(c, ec, start, evs), Run(c, ec, start, evs).policy)
  {
    if evs != [] {
      hide Run, TallyAt, Adds, Tally.Plus;
      var n := |evs| - 1;
      var before, t := TallyOf(c, ec, start, evs[..n]), TallyAt(c, ec, start, evs, n);
      CountersAreTallies(c, ec, start, evs[..n]);
      StepOfCounters(c, ec, start, evs);
      AddsMore(FRESH_POLICY, before, Run(c, ec, start, evs[..n]).policy, t, Run(c, ec, start, evs).policy);
    }
  }

  lemma AddsMore(p: Policy, s: Tally, q: Policy, t: Tally, r: Policy)
    requires Adds(p, s, q) && Adds(q, t, r)
    ensures Adds(p, s.Plus(t), r)
  {
  }
}
