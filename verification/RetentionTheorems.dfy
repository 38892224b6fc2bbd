/** The retention ledger over whole runs, and how learned latencies drive it. */
module RetentionTheorems {
  import opened Collections
  import opened LatencyModel
  import opened LatencyTheorems
  import opened RetentionModel
  import opened Text
  import opened Wrappers

  datatype Event =
    | StepCompleted(end: StepEnd)
    | PrefetchDue(toolCallId: string, elapsed: real)
    | ToolCompleted(toolCallId: string, latency: real, toolName: Option<string>, argsClass: Option<string>)
    | KvReloaded(ids: seq<string>)
    | PinnedReleased(ids: seq<string>)
    | RecordedElsewhere(tool: string, observed: real, ofClass: Option<string>)

  /** The policy with the estimator it feeds, which others may feed too. */
  datatype State = State(policy: Policy, estimator: Estimator)

  predicate StepAccepted(c: PolicyConfig, e: StepEnd) { Cost(c, e) >= 0.0 }

  /** The observation an event records, if it is accepted. */
  function Observed(s: State, ev: Event): Option<Observation> {
    if ev.RecordedElsewhere? then
      if RecordErrorOf(ev.tool, ev.observed).Some? then None
      else Some(Observation(Strip(ev.tool), NormalizedClass(ev.ofClass), ev.observed))
    else if !ev.ToolCompleted? || ev.latency < 0.0 then None
    else
      var tool := CompletedTool(s.policy, ev.toolCallId, ev.toolName);
      if tool.None? || Strip(tool.value) == "" then None
      else Some(Observation(Strip(tool.value),
                            NormalizedClass(CompletedClass(s.policy, ev.toolCallId, ev.argsClass)), ev.latency))
  }

  function Step(c: PolicyConfig, ec: Config, s: State, ev: Event): State {
    match ev
    case StepCompleted(e) =>
      if !StepAccepted(c, e) then s
      else
        var predicted := Predicted(ec, s.estimator, ToolName(e), NormalizedClass(e.argsClass));
        s.(policy := Booked(s.policy, e, Decide(c, e, predicted)))
    case PrefetchDue(tc, elapsed) => s.(policy := AfterDue(s.policy, tc, Due(s.policy, tc, elapsed)))
    case KvReloaded(ids) => s.(policy := Reloaded(s.policy, ids))
    case PinnedReleased(ids) => s.(policy := Released(s.policy, ids))
    case _ =>
      var o := Observed(s, ev);
      if o.None? then s
      else s.(estimator := LatencyRecorded(ec, s.estimator, o.value.toolName, o.value.argsClass, o.value.latency))
  }

  /** A fresh policy over an estimator that may have learned already. */
  function Run(c: PolicyConfig, ec: Config, start: Estimator, evs: seq<Event>): State {
    if evs == [] then State(FRESH_POLICY, start)
    else Step(c, ec, Run(c, ec, start, evs[..|evs| - 1]), evs[|evs| - 1])
  }

  // The ledger

  /** Blocks of offload decisions that have not triggered their prefetch yet. */
  ghost function Pending(byToolCall: map<string, Decision>, triggered: set<string>): map<string, nat> {
    map tc | tc in byToolCall && tc !in triggered && byToolCall[tc].action == Offload :: |byToolCall[tc].kvBlockIds|
  }

  /** The ledger balances with `booked` scheduled blocks whose decision is not in the tables yet. */
  ghost predicate BalancedWith(c: PolicyConfig, p: Policy, booked: nat) {
    && p.triggerCount + SumOver(Pending(p.byToolCall, p.triggered)) + booked <= p.scheduled
    && WaitBounded(c, p)
    && |p.pinned| <= p.kvRetained && |p.offloaded| <= p.kvEvicted
    && p.scheduled == p.kvEvicted && p.recomputeAvoided == p.kvRetained
  }

  predicate WaitBounded(c: PolicyConfig, p: Policy) {
    p.waitHidden <= c.threshold * p.kvRetained as real
  }

  ghost predicate Balanced(c: PolicyConfig, p: Policy) { BalancedWith(c, p, 0) }

  function Booking(d: Decision): nat { if d.action == Offload then |d.kvBlockIds| else 0 }

  lemma UnionSize(a: set<string>, ids: seq<string>)
    ensures |a + ToSet(ids)| <= |a| + |ids|
  {
    ToSetSize(ids);
    assert a + ToSet(ids) == a + (ToSet(ids) - a);
    SubsetSize(ToSet(ids) - a, ToSet(ids));
  }

  lemma HiddenBound(hidden: real, threshold: real, m: real, n: real, waited: real)
    requires hidden <= threshold && 0.0 <= n && waited <= threshold * m
    ensures waited + hidden * n <= threshold * (m + n)
  {
    assert (threshold - hidden) * n >= 0.0;
    assert threshold * (m + n) == threshold * m + threshold * n;
  }

  lemma CountedWait(c: PolicyConfig, p: Policy, d: Decision)
    requires WaitBounded(c, p) && (d.action == Pin ==> Hidden(d) <= c.threshold)
    ensures WaitBounded(c, Counted(p, d))
  {
    hide Hidden;
    if d.action == Pin {
      var n := |d.kvBlockIds|;
      HiddenBound(Hidden(d), c.threshold, p.kvRetained as real, n as real, p.waitHidden);
      assert (p.kvRetained + n) as real == p.kvRetained as real + n as real;
    }
  }

  lemma CountedBalances(c: PolicyConfig, p: Policy, d: Decision)
    requires Balanced(c, p) && (d.action == Pin ==> Hidden(d) <= c.threshold)
    ensures BalancedWith(c, Counted(p, d), Booking(d))
  {
    hide SumOver, WaitBounded, Hidden, Pending;
    UnionSize(p.pinned, d.kvBlockIds);
    UnionSize(p.offloaded, d.kvBlockIds);
    CountedWait(c, p, d);
  }

  lemma TabledPending(byToolCall: map<string, Decision>, triggered: set<string>, tc: string, d: Decision)
    ensures SumOver(Pending(byToolCall[tc := d], triggered)) <= SumOver(Pending(byToolCall, triggered)) + Booking(d)
  {
    hide SumOver, Pending;
    PendingTabled(byToolCall, triggered, tc, d);
    SumUpdated(Pending(byToolCall, triggered), tc, |d.kvBlockIds|);
  }

  lemma PendingTabled(byToolCall: map<string, Decision>, triggered: set<string>, tc: string, d: Decision)
    ensures Pending(byToolCall[tc := d], triggered) ==
              if tc !in triggered && d.action == Offload then Pending(byToolCall, triggered)[tc := |d.kvBlockIds|]
              else Pending(byToolCall, triggered) - {tc}
  {
  }

  lemma TabledBalances(c: PolicyConfig, p: Policy, e: StepEnd, d: Decision)
    requires BalancedWith(c, p, Booking(d)) && (d.action == Offload ==> d.toolCallId.Some?)
    ensures Balanced(c, Tabled(p, e, d))
  {
    hide SumOver, Pending;
    if d.toolCallId.Some? {
      TabledPending(p.byToolCall, p.triggered, d.toolCallId.value, d);
    }
  }

  lemma DecisionKeepsBalance(c: PolicyConfig, p: Policy, e: StepEnd, predicted: real)
    requires Balanced(c, p)
    ensures Balanced(c, Booked(p, e, Decide(c, e, predicted)))
  {
    hide BalancedWith, Counted, Tabled;
    var d := Decide(c, e, predicted);
    CountedBalances(c, p, d);
    TabledBalances(c, Counted(p, d), e, d);
  }

  lemma TriggerKeepsBalance(c: PolicyConfig, p: Policy, tc: string, elapsed: real)
    requires Balanced(c, p)
    ensures Balanced(c, AfterDue(p, tc, Due(p, tc, elapsed)))
  {
    hide SumOver;
    if Due(p, tc, elapsed).Some? {
      var before := Pending(p.byToolCall, p.triggered);
      SumWithout(before, tc);
      assert Pending(p.byToolCall, p.triggered + {tc}) == before - {tc};
    }
  }

  lemma ForgettingKeepsBalance(c: PolicyConfig, p: Policy, ids: seq<string>)
    requires Balanced(c, p)
    ensures Balanced(c, Reloaded(p, ids)) && Balanced(c, Released(p, ids))
  {
    hide SumOver, Pending;
    SubsetSize(p.offloaded - ToSet(ids), p.offloaded);
    SubsetSize(p.pinned - ToSet(ids), p.pinned);
  }

  lemma StepKeepsBalance(c: PolicyConfig, ec: Config, s: State, ev: Event)
    requires Balanced(c, s.policy)
    ensures Balanced(c, Step(c, ec, s, ev).policy)
  {
    hide Balanced, Booked, Decide, AfterDue, Due, Reloaded, Released;
    match ev
    case StepCompleted(e) =>
      DecisionKeepsBalance(c, s.policy, e, Predicted(ec, s.estimator, ToolName(e), NormalizedClass(e.argsClass)));
    case PrefetchDue(tc, elapsed) => TriggerKeepsBalance(c, s.policy, tc, elapsed);
    case KvReloaded(ids) => ForgettingKeepsBalance(c, s.policy, ids);
    case PinnedReleased(ids) => ForgettingKeepsBalance(c, s.policy, ids);
    case _ =>
  }

  lemma {:induction false} RunIsBalanced(c: PolicyConfig, ec: Config, start: Estimator, evs: seq<Event>)
    ensures Balanced(c, Run(c, ec, start, evs).policy)
  {
    if evs == [] {
      assert Pending(map[], {}) == map[];
    } else {
      hide Balanced, Step;
      RunIsBalanced(c, ec, start, evs[..|evs| - 1]);
      StepKeepsBalance(c, ec, Run(c, ec, start, evs[..|evs| - 1]), evs[|evs| - 1]);
    }
  }

  /** Over any run, steps and tool calls re-decided or not: no more blocks are triggered than
      scheduled, the hidden wait stays under the threshold for each retained block, and the block
      sets are no larger than their counters. */
  lemma LedgerHolds(c: PolicyConfig, ec: Config, start: Estimator, evs: seq<Event>)
    ensures var p := Run(c, ec, start, evs).policy;
            && p.triggerCount <= p.scheduled
            && p.waitHidden <= c.threshold * p.kvRetained as real
            && |p.pinned| <= p.kvRetained && |p.offloaded| <= p.kvEvicted
  {
    hide Run, SumOver, Pending;
    RunIsBalanced(c, ec, start, evs);
  }

  // Triggering

  /** Event `i` of the run triggers the prefetch of tool call `tc`. */
  ghost predicate TriggersAt(c: PolicyConfig, ec: Config, start: Estimator, evs: seq<Event>, i: nat, tc: string)
    requires i < |evs|
  {
    && evs[i].PrefetchDue? && evs[i].toolCallId == tc
    && Due(Run(c, ec, start, evs[..i]).policy, tc, evs[i].elapsed).Some?
  }

  lemma {:induction false} TriggeredStays(c: PolicyConfig, ec: Config, start: Estimator, evs: seq<Event>, i: nat, tc: string)
    requires i <= |evs| && tc in Run(c, ec, start, evs[..i]).policy.triggered
    ensures tc in Run(c, ec, start, evs).policy.triggered
    decreases |evs|
  {
    if i == |evs| {
      assert evs[..i] == evs;
    } else {
      assert evs[..|evs| - 1][..i] == evs[..i];
      TriggeredStays(c, ec, start, evs[..|evs| - 1], i, tc);
    }
  }

  /** A tool call triggers at most once in a run, however often it is re-decided. */
  lemma TriggersOnce(c: PolicyConfig, ec: Config, start: Estimator, evs: seq<Event>, i: nat, j: nat, tc: string)
    requires i < j < |evs| && TriggersAt(c, ec, start, evs, i, tc)
    ensures !TriggersAt(c, ec, start, evs, j, tc)
  {
    assert evs[..i + 1][..i] == evs[..i] && evs[..j][..i + 1] == evs[..i + 1];
    assert tc in Run(c, ec, start, evs[..i + 1]).policy.triggered;
    TriggeredStays(c, ec, start, evs[..j], i + 1, tc);
  }

  /** Decisions in the tables carry what their action needs. */
  ghost predicate WellBooked(c: PolicyConfig, p: Policy) {
    forall tc :: tc in p.byToolCall ==>
      var d := p.byToolCall[tc];
      d.action == Offload ==>
        && d.predictedLatency.Some? && d.predictedLatency.value > c.threshold
        && d.prefetchDelay == Some(Larger(0.0, d.predictedLatency.value - c.prefetchMargin))
  }

  lemma StepIsWellBooked(c: PolicyConfig, ec: Config, s: State, ev: Event)
    requires WellBooked(c, s.policy)
    ensures WellBooked(c, Step(c, ec, s, ev).policy)
  {
    hide Predicted, LatencyRecorded;
    if ev.StepCompleted? {
      var predicted := Predicted(ec, s.estimator, ToolName(ev.end), NormalizedClass(ev.end.argsClass));
      var d := Decide(c, ev.end, predicted);
      assert Counted(s.policy, d).byToolCall == s.policy.byToolCall;
    }
  }

  lemma {:induction false} RunIsWellBooked(c: PolicyConfig, ec: Config, start: Estimator, evs: seq<Event>)
    ensures WellBooked(c, Run(c, ec, start, evs).policy)
  {
    if evs != [] {
      RunIsWellBooked(c, ec, start, evs[..|evs| - 1]);
      StepIsWellBooked(c, ec, Run(c, ec, start, evs[..|evs| - 1]), evs[|evs| - 1]);
    }
  }

  /** A trigger comes no earlier than the margin before the predicted end of the call, and names
      the blocks of the call's latest decision. */
  lemma TriggersOnlyWhenDue(c: PolicyConfig, ec: Config, start: Estimator, evs: seq<Event>, i: nat, tc: string)
    requires c.Valid() && i < |evs| && TriggersAt(c, ec, start, evs, i, tc)
    ensures var d := Run(c, ec, start, evs[..i]).policy.byToolCall[tc];
            && d.action == Offload && d.predictedLatency.Some?
            && evs[i].elapsed >= d.predictedLatency.value - c.prefetchMargin
            && Due(Run(c, ec, start, evs[..i]).policy, tc, evs[i].elapsed).value.kvBlockIds == d.kvBlockIds
  {
    RunIsWellBooked(c, ec, start, evs[..i]);
  }

  // Learning

  /** Everything the run's completions taught the estimator. */
  function Observations(c: PolicyConfig, ec: Config, start: Estimator, evs: seq<Event>): seq<Observation> {
    if evs == [] then []
    else
      var before := Observations(c, ec, start, evs[..|evs| - 1]);
      var o := Observed(Run(c, ec, start, evs[..|evs| - 1]), evs[|evs| - 1]);
      if o.Some? then before + [o.value] else before
  }

  lemma StepLearns(c: PolicyConfig, ec: Config, s: State, ev: Event)
    ensures Step(c, ec, s, ev).estimator ==
              match Observed(s, ev)
              case None => s.estimator
              case Some(o) => LatencyRecorded(ec, s.estimator, o.toolName, o.argsClass, o.latency)
  {
    hide Booked, Decide, AfterDue, Due, Reloaded, Released, Predicted, LatencyRecorded, CompletedTool, CompletedClass;
  }

  /** The run's estimator has learned exactly its accepted completions. */
  lemma {:induction false} RunLearns(c: PolicyConfig, ec: Config, start: Estimator, evs: seq<Event>)
    ensures Run(c, ec, start, evs).estimator == LearnedFrom(ec, start, Observations(c, ec, start, evs))
  {
    hide Step, Observed, LatencyRecorded;
    if evs != [] {
      var front := evs[..|evs| - 1];
      RunLearns(c, ec, start, front);
      StepLearns(c, ec, Run(c, ec, start, front), evs[|evs| - 1]);
      var before, os := Observations(c, ec, start, front), Observations(c, ec, start, evs);
      assert |os| > |before| ==> os[..|os| - 1] == before;
    }
  }

  /** The latencies a step's prediction rests on: those of its tool and class if there are any, else
      those of its tool. The pasts are what the estimator had observed before it was given to the
      policy, which after a restore is what its windows held. */
  function Relevant(c: PolicyConfig, ec: Config, start: Estimator, classPast: seq<real>, toolPast: seq<real>,
                    evs: seq<Event>, e: StepEnd): seq<real>
  {
    var os, name, argsClass := Observations(c, ec, start, evs), ToolName(e), NormalizedClass(e.argsClass);
    var ofClass := classPast + ClassHistory(os, name, argsClass);
    if ofClass != [] then ofClass else toolPast + History(os, Key(name, None))
  }

  ghost predicate HasPasts(ec: Config, start: Estimator, classPast: seq<real>, toolPast: seq<real>, e: StepEnd) {
    var name, argsClass := ToolName(e), NormalizedClass(e.argsClass);
    && ProfileIs(ec, start, Key(name, None), toolPast)
    && if argsClass.Some? then ProfileIs(ec, start, Key(name, argsClass), classPast) else classPast == []
  }

  /** A step's prediction is the average of the relevant latencies, or the default if there are none. */
  lemma PredictionIsAverage(c: PolicyConfig, ec: Config, start: Estimator, classPast: seq<real>, toolPast: seq<real>,
                            evs: seq<Event>, e: StepEnd)
    requires ec.Valid() && HasPasts(ec, start, classPast, toolPast, e)
    ensures var seen := Relevant(c, ec, start, classPast, toolPast, evs, e);
            Predicted(ec, Run(c, ec, start, evs).estimator, ToolName(e), NormalizedClass(e.argsClass))
              == if seen == [] then ec.defaultLatency else Ema(ec.alpha, seen)
  {
    hide StatsOf, Run, Observations, LearnedFrom, History, ProfileIs, Predicted, ToolName, NormalizedClass;
    var os, name, argsClass := Observations(c, ec, start, evs), ToolName(e), NormalizedClass(e.argsClass);
    RunLearns(c, ec, start, evs);
    LearningExtends(ec, start, toolPast, os, Key(name, None));
    if argsClass.Some? {
      LearningExtends(ec, start, classPast, os, Key(name, argsClass));
    }
    PredictionOfProfiles(ec, LearnedFrom(ec, start, os), name, argsClass,
                         classPast + ClassHistory(os, name, argsClass), toolPast + History(os, Key(name, None)));
  }

  /** If every relevant latency was at or below the threshold, the next step is pinned for at least the
      predicted latency and the reload; if every one was above, it is offloaded. For a tool never seen
      the default latency decides. */
  lemma LearnedLatenciesDecide(c: PolicyConfig, ec: Config, start: Estimator, classPast: seq<real>, toolPast: seq<real>,
                               evs: seq<Event>, e: StepEnd)
    requires c.Valid() && ec.Valid() && ToolCall(e).Some? && HasPasts(ec, start, classPast, toolPast, e)
    ensures var seen := Relevant(c, ec, start, classPast, toolPast, evs, e);
            var predicted := Predicted(ec, Run(c, ec, start, evs).estimator, ToolName(e), NormalizedClass(e.argsClass));
            var d := Decide(c, e, predicted);
            && (seen != [] && (forall x :: x in seen ==> x <= c.threshold) ==>
                  d.action == Pin && d.ttl.Some? && d.ttl.value >= predicted + Cost(c, e))
            && (seen != [] && (forall x :: x in seen ==> x > c.threshold) ==> d.action == Offload)
            && (seen == [] ==> d.action == if ec.defaultLatency <= c.threshold then Pin else Offload)
  {
    hide StatsOf, Run, Relevant, Predicted, HasPasts;
    var seen := Relevant(c, ec, start, classPast, toolPast, evs, e);
    PredictionIsAverage(c, ec, start, classPast, toolPast, evs, e);
    if seen != [] {
      AveragesOf(ec, seen);
      ExtremesAreExact(ec, seen);
      ProfileEmaWithinExtremes(ec, seen);
    }
  }
}
