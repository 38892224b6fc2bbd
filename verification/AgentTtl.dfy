/** The retention policy of `policies/retention/agent_ttl.py`, feeding a latency estimator. */
module AgentTtl {
  import opened Collections
  import opened LatencyEstimators
  import opened LatencyModel
  import opened RetentionModel
  import opened RetentionTheorems
  import opened Text
  import opened Wrappers

  datatype PolicyError = NegativeReloadCost | NegativeElapsed | NegativeActual | UnknownTool | Rejected(error: RecordError)

  class AgentTTLPolicy {
    const latencyEstimator: ToolLatencyEstimator
    const config: PolicyConfig
    var decisionsByStep: map<string, Decision>
    var decisionsByToolCall: map<string, Decision>
    var toolProfiles: map<string, ToolProfile>
    var prefetchTriggered: set<string>
    var pinnedBlocks: set<string>
    var offloadedBlocks: set<string>
    var kvRetained: nat
    var kvEvicted: nat
    var kvReloaded: nat
    var recomputeAvoided: nat
    var toolWaitHidden: real
    var prefetchScheduled: nat
    var prefetchTriggerCount: nat

    ghost function View(): Policy
      reads this
    {
      Policy(decisionsByStep, decisionsByToolCall, toolProfiles, prefetchTriggered, pinnedBlocks, offloadedBlocks,
             kvRetained, kvEvicted, kvReloaded, recomputeAvoided, toolWaitHidden, prefetchScheduled,
             prefetchTriggerCount)
    }

    /** The policy and its estimator as one state of a run. */
    ghost function Whole(): State
      reads this, latencyEstimator
    {
      State(View(), latencyEstimator.View())
    }

    constructor (estimator: ToolLatencyEstimator, config: PolicyConfig)
      requires config.Valid()
      ensures latencyEstimator == estimator && this.config == config && View() == FRESH_POLICY
    {
      latencyEstimator, this.config := estimator, config;
      decisionsByStep, decisionsByToolCall, toolProfiles := map[], map[], map[];
      prefetchTriggered, pinnedBlocks, offloadedBlocks := {}, {}, {};
      kvRetained, kvEvicted, kvReloaded, recomputeAvoided := 0, 0, 0, 0;
      toolWaitHidden, prefetchScheduled, prefetchTriggerCount := 0.0, 0, 0;
    }

    method OnLlmStepCompleted(e: StepEnd) returns (result: Result<Decision, PolicyError>)
      modifies this
      ensures Whole() == Step(config, latencyEstimator.config, old(Whole()), StepCompleted(e))
      ensures result == if !StepAccepted(config, e) then Failure(NegativeReloadCost)
                        else Success(Decide(config, e, Predicted(latencyEstimator.config, latencyEstimator.View(),
                                                                 ToolName(e), NormalizedClass(e.argsClass))))
    {
      hide Predicted, Booked, ToolName;
      var cost := if e.reloadCost.None? then config.reloadCost else e.reloadCost.value;
      if cost < 0.0 {
        return Failure(NegativeReloadCost);
      }
      var blocks := if e.kvBlockIds.None? then e.step.kvBlockIds else e.kvBlockIds.value;
      var toolCall := Or(e.toolCallId, e.step.toolCallId);
      var decision;
      if toolCall.None? {
        decision := Decision(e.step.stepId, blocks, Retain, None, None, None, Some(cost), None);
      } else {
        var predicted := PredictFor(e);
        if predicted <= config.threshold {
          var ttl := Larger(config.defaultTtl, predicted + cost);
          decision := Decision(e.step.stepId, blocks, Pin, Some(ttl), toolCall, Some(predicted), Some(cost), None);
        } else {
          var delay := Larger(0.0, predicted - config.prefetchMargin);
          decision := Decision(e.step.stepId, blocks, Offload, None, toolCall, Some(predicted), Some(cost), Some(delay));
        }
      }
      Book(e, decision);
      return Success(decision);
    }

    method PredictFor(e: StepEnd) returns (predicted: real)
      ensures predicted == Predicted(latencyEstimator.config, latencyEstimator.View(), ToolName(e), NormalizedClass(e.argsClass))
    {
      StripCorrect(ToolName(e));
      ToolNameIsStripped(e);
      var r := latencyEstimator.PredictLatency(ToolName(e), e.argsClass);
      match r {
        case Success(latency) => predicted := latency;
      }
    }

    static lemma ToolNameIsStripped(e: StepEnd)
      ensures ToolName(e) != "" && Strip(ToolName(e)) == ToolName(e)
    {
      var name := Or(e.toolName, e.step.toolName);
      StripCorrect("unknown");
      if name.Some? {
        StripCorrect(name.value);
        StripCorrect(Strip(name.value));
      }
    }

    /** Counts a decision, then stores it. */
    method Book(e: StepEnd, d: Decision)
      requires d.action == Pin ==> d.predictedLatency.Some? && d.reloadCost.Some?
      requires d.toolCallId == ToolCall(e)
      modifies this
      ensures View() == Booked(old(View()), e, d)
    {
      var n := |d.kvBlockIds|;
      if d.action == Pin {
        kvRetained := kvRetained + n;
        recomputeAvoided := recomputeAvoided + n;
        toolWaitHidden := toolWaitHidden + Smaller(d.predictedLatency.value, d.reloadCost.value) * n as real;
        pinnedBlocks := pinnedBlocks + ToSet(d.kvBlockIds);
      } else if d.action == Offload {
        kvEvicted := kvEvicted + n;
        prefetchScheduled := prefetchScheduled + n;
        offloadedBlocks := offloadedBlocks + ToSet(d.kvBlockIds);
      }
      assert View() == Counted(old(View()), d);
      Store(e, d);
    }

    method Store(e: StepEnd, d: Decision)
      modifies this
      ensures View() == Tabled(old(View()), e, d)
    {
      decisionsByStep := decisionsByStep[d.stepId := d];
      if d.toolCallId.Some? {
        decisionsByToolCall := decisionsByToolCall[d.toolCallId.value := d];
        toolProfiles := toolProfiles[d.toolCallId.value := ToolProfile(ToolName(e), e.argsClass)];
      }
    }

    method OnPrefetchTimer(toolCallId: string, elapsed: real) returns (result: Result<Option<Decision>, PolicyError>)
      modifies this
      ensures Whole() == Step(config, latencyEstimator.config, old(Whole()), PrefetchDue(toolCallId, elapsed))
      ensures result == if elapsed < 0.0 then Failure(NegativeElapsed)
                        else Success(Due(old(View()), toolCallId, elapsed))
    {
      if elapsed < 0.0 {
        return Failure(NegativeElapsed);
      }
      if toolCallId in prefetchTriggered || toolCallId !in decisionsByToolCall {
        return Success(None);
      }
      var d := decisionsByToolCall[toolCallId];
      if d.action != Offload {
        return Success(None);
      }
      if d.prefetchDelay.None? || elapsed < d.prefetchDelay.value {
        return Success(None);
      }
      prefetchTriggered := prefetchTriggered + {toolCallId};
      prefetchTriggerCount := prefetchTriggerCount + |d.kvBlockIds|;
      return Success(Some(Decision(d.stepId, d.kvBlockIds, PrefetchLater, None, Some(toolCallId),
                                   d.predictedLatency, d.reloadCost, d.prefetchDelay)));
    }

    method OnToolCompleted(toolCallId: string, actualLatency: real, toolName: Option<string>, argsClass: Option<string>)
      returns (error: Option<PolicyError>)
      modifies latencyEstimator
      ensures Whole() == Step(config, latencyEstimator.config, old(Whole()),
                              ToolCompleted(toolCallId, actualLatency, toolName, argsClass))
      ensures error.None? <==> Observed(old(Whole()), ToolCompleted(toolCallId, actualLatency, toolName, argsClass)).Some?
      ensures error == Some(NegativeActual) <==> actualLatency < 0.0
      ensures error == Some(UnknownTool) <==> actualLatency >= 0.0 && CompletedTool(old(View()), toolCallId, toolName).None?
    {
      hide LatencyRecorded;
      if actualLatency < 0.0 {
        return Some(NegativeActual);
      }
      var profile := if toolCallId in toolProfiles then Some(toolProfiles[toolCallId]) else None;
      var name := Or(toolName, if profile.Some? then Some(profile.value.toolName) else None);
      if name.None? {
        return Some(UnknownTool);
      }
      var args := if argsClass.Some? then argsClass else if profile.Some? then profile.value.argsClass else None;
      var rejected := latencyEstimator.RecordLatency(name.value, actualLatency, args);
      return if rejected.None? then None else Some(Rejected(rejected.value));
    }

    method DecideRetention(stepId: string) returns (decision: Option<Decision>)
      ensures decision == if stepId in View().byStep then Some(View().byStep[stepId]) else None
    {
      decision := if stepId in decisionsByStep then Some(decisionsByStep[stepId]) else None;
    }

    method OnKvReloaded(kvBlockIds: seq<string>)
      modifies this
      ensures Whole() == Step(config, latencyEstimator.config, old(Whole()), KvReloaded(kvBlockIds))
    {
      var ids := ToSet(kvBlockIds);
      kvReloaded := kvReloaded + |ids|;
      offloadedBlocks := offloadedBlocks - ids;
    }

    method OnPinnedKvReleased(kvBlockIds: seq<string>)
      modifies this
      ensures Whole() == Step(config, latencyEstimator.config, old(Whole()), PinnedReleased(kvBlockIds))
    {
      pinnedBlocks := pinnedBlocks - ToSet(kvBlockIds);
    }
  }
}
