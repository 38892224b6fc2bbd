/** What `policies/retention/agent_ttl.py` decides after each event, as functions. */
module RetentionModel {
  import opened Collections
  import opened Text
  import opened Wrappers

  datatype Action = Pin | Offload | PrefetchLater | Retain

  datatype Decision = Decision(
    stepId: string,
    kvBlockIds: seq<string>,
    action: Action,
    ttl: Option<real>,
    toolCallId: Option<string>,
    predictedLatency: Option<real>,
    reloadCost: Option<real>,
    prefetchDelay: Option<real>)

  datatype PolicyConfig = PolicyConfig(threshold: real, defaultTtl: real, reloadCost: real, prefetchMargin: real) {
    predicate Valid() { threshold >= 0.0 && defaultTtl >= 0.0 && reloadCost >= 0.0 && prefetchMargin >= 0.0 }
  }

  datatype ToolProfile = ToolProfile(toolName: string, argsClass: Option<string>)

  datatype Policy = Policy(
    byStep: map<string, Decision>,
    byToolCall: map<string, Decision>,
    toolProfiles: map<string, ToolProfile>,
    triggered: set<string>,
    pinned: set<string>,
    offloaded: set<string>,
    kvRetained: nat,
    kvEvicted: nat,
    kvReloaded: nat,
    recomputeAvoided: nat,
    waitHidden: real,
    scheduled: nat,
    triggerCount: nat)

  const FRESH_POLICY := Policy(map[], map[], map[], {}, {}, {}, 0, 0, 0, 0, 0.0, 0, 0)

  datatype AgentStep = AgentStep(
    stepId: string, toolCallId: Option<string>, kvBlockIds: seq<string>, toolName: Option<string>)

  /** Everything `on_llm_step_completed` is given. */
  datatype StepEnd = StepEnd(
    step: AgentStep,
    kvBlockIds: Option<seq<string>>,
    toolCallId: Option<string>,
    toolName: Option<string>,
    argsClass: Option<string>,
    reloadCost: Option<real>)

  /** Python's `a or b` on optional strings. */
  function Or(a: Option<string>, b: Option<string>): Option<string> {
    if a.Some? && a.value != "" then a else b
  }

  function Blocks(e: StepEnd): seq<string> {
    if e.kvBlockIds.Some? then e.kvBlockIds.value else e.step.kvBlockIds
  }

  function ToolCall(e: StepEnd): Option<string> { Or(e.toolCallId, e.step.toolCallId) }

  function ToolName(e: StepEnd): string {
    match Or(e.toolName, e.step.toolName)
    case None => "unknown"
    case Some(name) => if Strip(name) == "" then "unknown" else Strip(name)
  }

  function Cost(c: PolicyConfig, e: StepEnd): real {
    if e.reloadCost.Some? then e.reloadCost.value else c.reloadCost
  }

  function Larger(x: real, y: real): real { if x >= y then x else y }

  function Smaller(x: real, y: real): real { if x <= y then x else y }

  /** Keep the blocks through a short tool call, offload them for a long one. */
  function Decide(c: PolicyConfig, e: StepEnd, predicted: real): Decision {
    var cost := Cost(c, e);
    if ToolCall(e).None? then
      Decision(e.step.stepId, Blocks(e), Retain, None, None, None, Some(cost), None)
    else if predicted <= c.threshold then
      Decision(e.step.stepId, Blocks(e), Pin, Some(Larger(c.defaultTtl, predicted + cost)),
               ToolCall(e), Some(predicted), Some(cost), None)
    else
      Decision(e.step.stepId, Blocks(e), Offload, None,
               ToolCall(e), Some(predicted), Some(cost), Some(Larger(0.0, predicted - c.prefetchMargin)))
  }

  /** The reload a pinned step's wait hides, per block. */
  function Hidden(d: Decision): real {
    if d.predictedLatency.Some? && d.reloadCost.Some?
    then Smaller(d.predictedLatency.value, d.reloadCost.value) else 0.0
  }

  /** The counters and block sets after a decision. */
  function Counted(p: Policy, d: Decision): Policy {
    var n := |d.kvBlockIds|;
    match d.action
    case Pin =>
      p.(kvRetained := p.kvRetained + n, recomputeAvoided := p.recomputeAvoided + n,
         waitHidden := p.waitHidden + Hidden(d) * n as real, pinned := p.pinned + ToSet(d.kvBlockIds))
    case Offload =>
      p.(kvEvicted := p.kvEvicted + n, scheduled := p.scheduled + n, offloaded := p.offloaded + ToSet(d.kvBlockIds))
    case _ => p
  }

  /** The decision tables after a decision. */
  function Tabled(p: Policy, e: StepEnd, d: Decision): Policy {
    var stored := p.(byStep := p.byStep[d.stepId := d]);
    if d.toolCallId.None? then stored
    else stored.(byToolCall := p.byToolCall[d.toolCallId.value := d],
                 toolProfiles := p.toolProfiles[d.toolCallId.value := ToolProfile(ToolName(e), e.argsClass)])
  }

  function Booked(p: Policy, e: StepEnd, d: Decision): Policy { Tabled(Counted(p, d), e, d) }

  /** The prefetch a tool call is due after waiting so long, if any. */
  function Due(p: Policy, toolCallId: string, elapsed: real): Option<Decision> {
    if elapsed < 0.0 || toolCallId in p.triggered || toolCallId !in p.byToolCall then None
    else
      var d := p.byToolCall[toolCallId];
      if d.action != Offload || d.prefetchDelay.None? || elapsed < d.prefetchDelay.value then None
      else Some(Decision(d.stepId, d.kvBlockIds, PrefetchLater, None, Some(toolCallId),
                         d.predictedLatency, d.reloadCost, d.prefetchDelay))
  }

  function AfterDue(p: Policy, toolCallId: string, due: Option<Decision>): Policy {
    if due.None? then p
    else p.(triggered := p.triggered + {toolCallId}, triggerCount := p.triggerCount + |due.value.kvBlockIds|)
  }

  /** The tool and class a completion is recorded under; `None` when the tool is unknown. */
  function CompletedTool(p: Policy, toolCallId: string, toolName: Option<string>): Option<string> {
    Or(toolName, if toolCallId in p.toolProfiles then Some(p.toolProfiles[toolCallId].toolName) else None)
  }

  function CompletedClass(p: Policy, toolCallId: string, argsClass: Option<string>): Option<string> {
    if argsClass.Some? then argsClass
    else if toolCallId in p.toolProfiles then p.toolProfiles[toolCallId].argsClass
    else None
  }

  function Reloaded(p: Policy, ids: seq<string>): Policy {
    p.(kvReloaded := p.kvReloaded + |ToSet(ids)|, offloaded := p.offloaded - ToSet(ids))
  }

  function Released(p: Policy, ids: seq<string>): Policy {
    p.(pinned := p.pinned - ToSet(ids))
  }
}
