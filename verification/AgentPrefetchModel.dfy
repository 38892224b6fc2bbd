/** The prefetch decisions of `policies/prefetch/agent_prefetch.py`, and its usage ledger. */
module AgentPrefetchModel {
  import opened Collections
  import opened Sorting

  datatype PrefetchType = KvCache | ToolArtifact | Rag | PlanCache | Semantic

  function TypeWeight(t: PrefetchType): real {
    match t
    case KvCache => 1.0
    case ToolArtifact => 0.9
    case Rag => 0.85
    case PlanCache => 0.8
    case Semantic => 0.75
  }

  datatype StepObjects = StepObjects(
    kv: seq<string>, rag: seq<string>, semantic: seq<string>, tool: seq<string>, plan: seq<string>)
  {
    function Of(t: PrefetchType): seq<string> {
      match t
      case KvCache => kv
      case ToolArtifact => tool
      case Rag => rag
      case PlanCache => plan
      case Semantic => semantic
    }
  }

  /** `list(dict.fromkeys(v for v in values if v))` */
  function Deduped(values: seq<string>): seq<string> {
    if values == [] then []
    else
      var front, last := Deduped(values[..|values| - 1]), values[|values| - 1];
      if last == "" || last in front then front else front + [last]
  }

  function DedupedObjects(o: StepObjects): StepObjects {
    StepObjects(Deduped(o.kv), Deduped(o.rag), Deduped(o.semantic), Deduped(o.tool), Deduped(o.plan))
  }

  lemma {:induction false} DedupedCorrect(values: seq<string>)
    ensures Distinct(Deduped(values))
    ensures forall v :: v in Deduped(values) <==> v in values && v != ""
  {
    if values != [] {
      assert values == values[..|values| - 1] + [values[|values| - 1]];
      DedupedCorrect(values[..|values| - 1]);
    }
  }

  datatype Decision = Decision(objectId: string, prefetchType: PrefetchType, priority: real)

  function Priority(d: Decision): real { d.priority }

  function PriorityAt(t: PrefetchType, rank: nat): real { 1.0 / (1.0 + rank as real) * TypeWeight(t) }

  // The decision dictionary, as its values in insertion order

  predicate SameKey(d: Decision, e: Decision) {
    d.objectId == e.objectId && d.prefetchType == e.prefetchType
  }

  /** Adds a decision unless its key already has one of at least its priority. */
  function Upsert(entries: seq<Decision>, d: Decision): seq<Decision> {
    if entries == [] then [d]
    else if SameKey(entries[0], d) then
      if d.priority > entries[0].priority then [d] + entries[1..] else entries
    else [entries[0]] + Upsert(entries[1..], d)
  }

  function Merged(entries: seq<Decision>, candidates: seq<Decision>): seq<Decision> {
    if candidates == [] then entries
    else Upsert(Merged(entries, candidates[..|candidates| - 1]), candidates[|candidates| - 1])
  }

  function OfType(t: PrefetchType, ids: seq<string>, rank: nat): seq<Decision> {
    seq(|ids|, i requires 0 <= i < |ids| => Decision(ids[i], t, PriorityAt(t, rank)))
  }

  /** A step's candidates, type by type. */
  function StepCandidates(o: StepObjects, rank: nat): seq<Decision> {
    OfType(KvCache, o.kv, rank) + OfType(ToolArtifact, o.tool, rank) + OfType(Rag, o.rag, rank)
    + OfType(PlanCache, o.plan, rank) + OfType(Semantic, o.semantic, rank)
  }

  /** All candidates of a list of predicted steps, nearest step first. */
  function Candidates(objects: map<string, StepObjects>, stepIds: seq<string>): seq<Decision> {
    if stepIds == [] then []
    else
      var n := |stepIds| - 1;
      var front := Candidates(objects, stepIds[..n]);
      if stepIds[n] in objects then front + StepCandidates(objects[stepIds[n]], n) else front
  }

  function DecisionsFor(objects: map<string, StepObjects>, stepIds: seq<string>, maxDecisions: nat): seq<Decision> {
    var sorted := StableDescending(Merged([], Candidates(objects, stepIds)), Priority);
    if |sorted| > maxDecisions then sorted[..maxDecisions] else sorted
  }

  // The usage ledger

  datatype Ledger = Ledger(
    predicted: set<string>, used: set<string>, wasted: set<string>,
    requests: nat, prefetchCount: nat, expected: nat, recallHits: nat, wastedBytes: nat, latencySaved: real)

  const EMPTY_LEDGER := Ledger({}, {}, {}, 0, 0, 0, 0, 0, 0.0)

  function IdsOf(decisions: seq<Decision>): seq<string> {
    seq(|decisions|, i requires 0 <= i < |decisions| => decisions[i].objectId)
  }

  datatype Event =
    | Predict(decisions: seq<Decision>)
    | Used(objectId: string, latencySaved: real)
    | Wasted(objectId: string, sizeBytes: int)
    | Requested(objectIds: seq<string>)

  function RequestedIds(ids: seq<string>): set<string> { set id | id in ids && id != "" }

  /** Rejected events, with a negative saving or size, change nothing. */
  function LedgerStep(l: Ledger, e: Event): Ledger {
    match e
    case Predict(ds) =>
      l.(requests := l.requests + 1, prefetchCount := l.prefetchCount + |ds|, predicted := l.predicted + ToSet(IdsOf(ds)))
    case Used(id, saved) =>
      if saved >= 0.0 && id in l.predicted && id !in l.used
      then l.(used := l.used + {id}, latencySaved := l.latencySaved + saved) else l
    case Wasted(id, size) =>
      if size >= 0 && id in l.predicted && id !in l.wasted
      then l.(wasted := l.wasted + {id}, wastedBytes := l.wastedBytes + size) else l
    case Requested(ids) =>
      l.(expected := l.expected + |RequestedIds(ids)|,
         recallHits := l.recallHits + |RequestedIds(ids) * l.predicted|)
  }

  function LedgerAfter(es: seq<Event>): Ledger {
    if es == [] then EMPTY_LEDGER else LedgerStep(LedgerAfter(es[..|es| - 1]), es[|es| - 1])
  }

  function Precision(l: Ledger): real {
    if l.prefetchCount == 0 then 0.0 else |l.used| as real / l.prefetchCount as real
  }

  function Recall(l: Ledger): real {
    if l.expected == 0 then 0.0 else l.recallHits as real / l.expected as real
  }
}
