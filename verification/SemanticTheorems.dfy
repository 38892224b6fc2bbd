/** The semantic index offers only entries the store can load. */
module SemanticTheorems {
  import opened MetadataStores
  import opened ObjectTypes
  import opened StoreModel
  import opened StoreTheorems
  import opened Wrappers
  import Hnsw = HnswIndexes

  predicate Live(md: Metadata, id: string) {
    md.semantic.Some? && id in md.semantic.value.objectToId
  }

  /** Every object live in the semantic index is completely stored. */
  ghost predicate LiveAreHeld(s: Store, c: Contents) {
    forall id :: Live(s.metadata, id) ==> (SemanticCache, id) in c
  }

  /** The guard: no live entry is lost to a failed data write of its replacement. */
  predicate LosesNoLive(s: Store, op: Op) {
    op.OpPut? && op.entry.SemanticEntry? && Live(s.metadata, op.id) ==> op.faults.metaWrite || !op.faults.dataWrite
  }

  /** What an operation does to the index: only storing an entry adds it, and deleting removes it. */
  lemma LiveAfter(env: Env, s: Store, op: Op, id: string)
    requires OpValid(op) && Live(Step(env, s, op).metadata, id)
    ensures Live(s.metadata, id)
            || (op.OpPut? && op.entry.SemanticEntry? && op.id == id && Written(SemanticCache, op.faults))
    ensures op.OpDelete? && op.kind == SemanticCache && HasKey(env.prefix, s.objects, SemanticCache, op.id) ==> id != op.id
  {
  }

  lemma FailedPutKeepsLive(env: Env, s: Store, op: Op)
    requires OpValid(op) && !LosesNoLive(s, op)
    ensures Live(Step(env, s, op).metadata, op.id) && (SemanticCache, op.id) !in ContentsStep(map[], op)
  {
  }

  /** Exactly the operations that lose no live entry keep the index within the store. */
  lemma StepKeepsHeld(env: Env, s: Store, c: Contents, op: Op)
    requires env.Valid() && OpValid(op) && Holds(env.prefix, s.objects, c) && LiveAreHeld(s, c)
    ensures LiveAreHeld(Step(env, s, op), ContentsStep(c, op)) <==> LosesNoLive(s, op)
  {
    if LosesNoLive(s, op) {
      forall id | Live(Step(env, s, op).metadata, id) ensures (SemanticCache, id) in ContentsStep(c, op) {
        LiveAfter(env, s, op, id);
      }
    } else {
      FailedPutKeepsLive(env, s, op);
    }
  }

  ghost predicate RunLosesNoLive(env: Env, ops: seq<Op>)
    requires OpsValid(ops)
  {
    forall i :: 0 <= i < |ops| ==> LosesNoLive(Run(env, ops[..i]), ops[i])
  }

  lemma {:induction false} RunKeepsHeld(env: Env, ops: seq<Op>)
    requires env.Valid() && OpsValid(ops) && NoDoubleFault(ops) && RunLosesNoLive(env, ops)
    ensures LiveAreHeld(Run(env, ops), ContentsAfter(ops))
  {
    if ops != [] {
      hide LosesNoLive;
      var front := ops[..|ops| - 1];
      forall i | 0 <= i < |front| ensures LosesNoLive(Run(env, front[..i]), front[i]) {
        assert front[..i] == ops[..i];
      }
      RunKeepsHeld(env, front);
      RunHolds(env, front);
      StepKeepsHeld(env, Run(env, front), ContentsAfter(front), ops[|ops| - 1]);
    }
  }

  /** So whatever a similarity search can name loads, through the Bloom gate, as a complete entry. */
  lemma LiveEntriesLoad(env: Env, ops: seq<Op>, id: string)
    requires env.Valid() && OpsValid(ops) && NoDoubleFault(ops) && RunLosesNoLive(env, ops)
    requires Live(Run(env, ops).metadata, id)
    ensures Get(env, Run(env, ops), SemanticCache, id).Some?
  {
    RunKeepsHeld(env, ops);
    GetIsReference(env, ops, SemanticCache, id);
  }

  /** A replacement whose data write fails leaves an id that a search can name and no get can load. */
  lemma FailedReplacementDangles(env: Env, e: Hnsw.Embedding)
    requires env.Valid() && env.expectedItems > 0 && e.shape == [2]
    ensures var put := OpPut("a", SemanticEntry("m", e), NO_FAULTS);
            var ops := [put, put.(faults := Faults(false, true, false))];
            Live(Run(env, ops).metadata, "a") && Get(env, Run(env, ops), SemanticCache, "a") == None
  {
    var put := OpPut("a", SemanticEntry("m", e), NO_FAULTS);
    var ops := [put, put.(faults := Faults(false, true, false))];
    assert ops[..1] == [put] && [put][..0] == [];
    assert Live(Step(env, EMPTY_STORE, put).metadata, "a");
    assert Run(env, ops).metadata == Run(env, ops[..1]).metadata == Step(env, EMPTY_STORE, put).metadata;
    GetIsReference(env, ops, SemanticCache, "a");
  }
}
