/** What a put tells its caller, and what later gets and searches make of it. */
module StorePuts {
  import opened MetadataStores
  import opened ObjectTypes
  import opened SemanticTheorems
  import opened StoreKeys
  import opened StoreModel
  import opened StoreTheorems
  import opened Wrappers
  import Hnsw = HnswIndexes

  /** A put reports a backend failure exactly when one of its writes raised, and then indexes nothing.
      Otherwise the object is stored; if indexing failed, the live entries of the semantic index are
      those before, and if nothing failed a semantic entry is live. */
  lemma PutErrorTells(env: Env, s: Store, id: string, e: Entry, f: Faults)
    requires PutsArray(e)
    ensures var error, after, kind := PutErrorOf(env, s, id, e, f), Put(env, s, id, e, f), e.Kind();
            && (error == Some(BackendFailed) <==> f.metaWrite || (kind.IsPair() && f.dataWrite))
            && (error == Some(BackendFailed) ==> after.metadata == s.metadata)
            && (error != Some(BackendFailed) ==>
                  id in after.metadata.added && Lookup(env.prefix, after.objects, kind, id) == Some(e.Stored()))
            && (error.Some? && error.value.IndexFailed? ==>
                  e.SemanticEntry? && forall i :: Live(after.metadata, i) <==> Live(s.metadata, i))
            && (error == None && e.SemanticEntry? ==> Live(after.metadata, id))
  {
    MetaAndDataDiffer(env.prefix, e.Kind(), id, e.Kind(), id);
  }

  // Refusals of the semantic index

  /** The index, once there, is well formed, of a positive dimension, and sized for the expected items. */
  ghost predicate IndexSound(env: Env, md: Metadata) {
    md.semantic.Some? ==>
      Hnsw.WellFormed(md.semantic.value) && md.semantic.value.dim > 0 && md.semantic.value.maxElements == env.expectedItems
  }

  lemma EntryKeepsSound(env: Env, md: Metadata, id: string, e: Hnsw.Embedding)
    requires IndexSound(env, md) && e.shape != []
    ensures IndexSound(env, SemanticEntryAdded(md, env.expectedItems, id, e))
  {
    hide Hnsw.WellFormed, Hnsw.Stored;
    Hnsw.ReachableIsWellFormed(LastAxis(e), env.expectedItems, []);
    match EnsuredSlots(md, env.expectedItems, LastAxis(e))
    case Failure(_) =>
    case Success(slots) =>
      Hnsw.AddKeepsWellFormed(slots, id, e);
      AddKeepsSize(slots, id, e);
  }

  lemma AddKeepsSize(s: Hnsw.Slots, id: string, e: Hnsw.Embedding)
    ensures Hnsw.Added(s, id, e).dim == s.dim && Hnsw.Added(s, id, e).maxElements == s.maxElements
  {
  }

  lemma StepKeepsSound(env: Env, s: Store, op: Op)
    requires OpValid(op) && IndexSound(env, s.metadata)
    ensures IndexSound(env, Step(env, s, op).metadata)
  {
    hide Hnsw.WellFormed, SemanticEntryAdded, Hnsw.Removed;
    match op
    case OpPut(id, e, f) =>
      if e.SemanticEntry? {
        EntryKeepsSound(env, s.metadata, id, e.embedding);
      }
    case OpDelete(kind, id) =>
      if s.metadata.semantic.Some? {
        Hnsw.RemoveKeepsWellFormed(s.metadata.semantic.value, id);
        RemoveKeepsSize(s.metadata.semantic.value, id);
      }
  }

  lemma RemoveKeepsSize(s: Hnsw.Slots, id: string)
    ensures Hnsw.Removed(s, id).dim == s.dim && Hnsw.Removed(s, id).maxElements == s.maxElements
  {
  }

  lemma {:induction false} RunIsSound(env: Env, ops: seq<Op>)
    requires OpsValid(ops)
    ensures IndexSound(env, Run(env, ops).metadata)
  {
    if ops != [] {
      RunIsSound(env, ops[..|ops| - 1]);
      StepKeepsSound(env, Run(env, ops[..|ops| - 1]), ops[|ops| - 1]);
    }
  }

  /** In every run a written semantic entry is refused by the index in exactly these cases: a first one
      with an empty last axis, a later one of another dimension, a new one when the expected number is
      live, and one that is not a single vector. */
  lemma SemanticRefusals(env: Env, ops: seq<Op>, id: string, meta: string, e: Hnsw.Embedding)
    requires OpsValid(ops) && e.shape != []
    ensures var s, last := Run(env, ops), e.shape[|e.shape| - 1];
            var error, index := PutErrorOf(env, s, id, SemanticEntry(meta, e), NO_FAULTS), s.metadata.semantic;
            var fits := index.None? || index.value.dim == last;
            var full := (if index.None? then 0 else |index.value.objectToId|) == env.expectedItems;
            var unlisted := !Live(s.metadata, id);
            && (error == Some(IndexFailed(InvalidDimension)) <==> index.None? && last == 0)
            && (error == Some(IndexFailed(DimensionMismatch)) <==> !fits)
            && (error == Some(IndexFailed(NotAdded(Hnsw.CapacityReached))) <==>
                  fits && !(index.None? && last == 0) && unlisted && full)
            && (error == Some(IndexFailed(NotAdded(Hnsw.BadShape))) <==>
                  fits && !(index.None? && last == 0) && unlisted && !full && e.shape != [last] && e.shape != [1, last])
  {
    hide Hnsw.WellFormed, Run;
    RunIsSound(env, ops);
    var md, last := Run(env, ops).metadata, LastAxis(e);
    match EnsuredSlots(md, env.expectedItems, last)
    case Failure(_) =>
    case Success(slots) =>
      Hnsw.ReachableIsWellFormed(last, env.expectedItems, []);
      Hnsw.AddRefused(slots, id, e);
  }

  /** An entry put without error stays searchable until it is deleted. */
  lemma {:induction false} EntriesStaySearchable(env: Env, ops: seq<Op>, i: nat)
    requires OpsValid(ops) && i < |ops| && ops[i].OpPut? && ops[i].entry.SemanticEntry?
    requires PutErrorOf(env, Run(env, ops[..i]), ops[i].id, ops[i].entry, ops[i].faults) == None
    requires forall j :: i < j < |ops| ==> ops[j] != OpDelete(SemanticCache, ops[i].id)
    ensures Live(Run(env, ops).metadata, ops[i].id)
  {
    hide PutErrorOf, Live, Put, Delete;
    var n := |ops| - 1;
    if i == n {
      PutErrorTells(env, Run(env, ops[..n]), ops[n].id, ops[n].entry, ops[n].faults);
    } else {
      assert ops[..n][..i] == ops[..i];
      EntriesStaySearchable(env, ops[..n], i);
      StaysLive(env, Run(env, ops[..n]), ops[n], ops[i].id);
    }
  }

  lemma StaysLive(env: Env, s: Store, op: Op, id: string)
    requires OpValid(op) && Live(s.metadata, id) && op != OpDelete(SemanticCache, id)
    ensures Live(Step(env, s, op).metadata, id)
  {
  }

  // What a get returns

  predicate Concerns(op: Op, kind: Kind, id: string) {
    (if op.OpPut? then op.entry.Kind() else op.kind) == kind && op.id == id
  }

  lemma {:induction false} LastPutIsHeld(ops: seq<Op>, i: nat)
    requires i < |ops| && ops[i].OpPut? && Written(ops[i].entry.Kind(), ops[i].faults)
    requires forall j :: i < j < |ops| ==> !Concerns(ops[j], ops[i].entry.Kind(), ops[i].id)
    ensures var key := (ops[i].entry.Kind(), ops[i].id);
            key in ContentsAfter(ops) && ContentsAfter(ops)[key] == ops[i].entry.Stored()
  {
    if i < |ops| - 1 {
      LastPutIsHeld(ops[..|ops| - 1], i);
    }
  }

  /** After every history without a double fault, a get returns what the last successful put of the id
      was given, metadata and data alike. */
  lemma GetReturnsWhatWasPut(env: Env, ops: seq<Op>, i: nat)
    requires env.Valid() && OpsValid(ops) && NoDoubleFault(ops)
    requires i < |ops| && ops[i].OpPut? && Written(ops[i].entry.Kind(), ops[i].faults)
    requires forall j :: i < j < |ops| ==> !Concerns(ops[j], ops[i].entry.Kind(), ops[i].id)
    ensures var got := Get(env, Run(env, ops), ops[i].entry.Kind(), ops[i].id);
            match ops[i].entry
            case KvEntry(block, tensors) => ops[i].entry.Kind() == KvCache && got == Some(Pair(KvMeta(block), Plain(tensors)))
            case RagEntry(meta, e) => ops[i].entry.Kind() == Rag && got == Some(Pair(Plain(meta), Array(e)))
            case SemanticEntry(meta, e) => ops[i].entry.Kind() == SemanticCache && got == Some(Pair(Plain(meta), Array(e)))
            case PlanEntry(meta, e) => ops[i].entry.Kind() == PlanCache && got == Some(Pair(Plain(meta), Array(e)))
            case ToolEntry(a) => ops[i].entry.Kind() == ToolArtifact && got == Some(Single(ToolMeta(a)))
            case WorkflowEntry(meta) => ops[i].entry.Kind() == AgentWorkflow && got == Some(Single(Plain(meta)))
            case StepEntry(meta) => ops[i].entry.Kind() == AgentStep && got == Some(Single(Plain(meta)))
            case TraceEntry(meta) => ops[i].entry.Kind() == WorkflowTrace && got == Some(Single(Plain(meta)))
  {
    hide Get, Run, ContentsAfter, Written, Concerns;
    LastPutIsHeld(ops, i);
    GetIsReference(env, ops, ops[i].entry.Kind(), ops[i].id);
  }

  /** The keys of a block, and of an object of each other kind, under the default prefixes. */
  lemma DefaultKeys(id: string)
    ensures MetaKey(DefaultPrefix, KvCache, id) == "kv/" + id + ".meta.json" && DataKey(DefaultPrefix, KvCache, id) == "kv/" + id + ".data.npz"
    ensures MetaKey(DefaultPrefix, Rag, id) == "rag/" + id + ".meta.json" && DataKey(DefaultPrefix, Rag, id) == "rag/" + id + ".data.npy"
    ensures MetaKey(DefaultPrefix, SemanticCache, id) == "sem/" + id + ".meta.json"
    ensures DataKey(DefaultPrefix, SemanticCache, id) == "sem/" + id + ".data.npy"
    ensures MetaKey(DefaultPrefix, PlanCache, id) == "agent/plans/" + id + ".meta.json"
    ensures DataKey(DefaultPrefix, PlanCache, id) == "agent/plans/" + id + ".data.npy"
    ensures MetaKey(DefaultPrefix, AgentWorkflow, id) == "agent/workflows/" + id + ".meta.json"
    ensures MetaKey(DefaultPrefix, AgentStep, id) == "agent/steps/" + id + ".meta.json"
    ensures MetaKey(DefaultPrefix, ToolArtifact, id) == "agent/tools/" + id + ".meta.json"
    ensures MetaKey(DefaultPrefix, WorkflowTrace, id) == "agent/traces/" + id + ".meta.json"
  {
    SplitDot(DefaultPrefix(KvCache) + id, "data.npz");
    SplitDot(DefaultPrefix(Rag) + id, "data.npy");
    SplitDot(DefaultPrefix(SemanticCache) + id, "data.npy");
    SplitDot(DefaultPrefix(PlanCache) + id, "data.npy");
  }

  lemma SplitDot(start: string, ext: string)
    ensures start + "." + ext == start + ("." + ext)
  {
  }
}
