/** What a prefetch batch loads, by the type names callers write. */
module PrefetchBatchTheorems {
  import opened ObjectStores
  import opened ObjectTypes
  import opened StoreModel
  import opened StoreTheorems
  import opened Wrappers

  function HeldIn(c: Contents, kind: Kind, id: string): Option<Stored> {
    if (kind, id) in c then Some(c[(kind, id)]) else None
  }

  const KNOWN_TYPES := {"kv_cache", "rag", "semantic", "tool_artifact", "plan_cache"}

  /** After every history without a double fault a batch holds, for each named id, the object last put
      of the kind its first decision names; nothing if there is none, or the name is missing or another. */
  lemma BatchHoldsContents(env: Env, ops: seq<Op>, decisions: seq<Decision>, results: map<string, Stored>, i: nat, id: string)
    requires env.Valid() && OpsValid(ops) && NoDoubleFault(ops)
    requires IsBatch(env, Run(env, ops), decisions, results) && DecidesFetch(decisions, i, id)
    ensures var c, name, found := ContentsAfter(ops), decisions[i].prefetchType, Found(results, id);
            && (name == Some("kv_cache") ==> found == HeldIn(c, KvCache, id))
            && (name == Some("rag") ==> found == HeldIn(c, Rag, id))
            && (name == Some("semantic") ==> found == HeldIn(c, SemanticCache, id))
            && (name == Some("tool_artifact") ==> found == HeldIn(c, ToolArtifact, id))
            && (name == Some("plan_cache") ==> found == HeldIn(c, PlanCache, id))
            && (name.None? || name.value !in KNOWN_TYPES ==> found == None)
  {
    hide Get, Run, ContentsAfter;
    var name := decisions[i].prefetchType;
    assert Found(results, id) == Fetched(env, Run(env, ops), name, id);
    forall kind: Kind ensures Get(env, Run(env, ops), kind, id) == HeldIn(ContentsAfter(ops), kind, id) {
      GetIsReference(env, ops, kind, id);
    }
  }

  /** Ids no decision names, and the empty id, are not in it. */
  lemma BatchHoldsNothingElse(env: Env, s: Store, decisions: seq<Decision>, results: map<string, Stored>, id: string)
    requires env.bloom.Valid() && IsBatch(env, s, decisions, results) && id in results
    ensures id != "" && exists i :: 0 <= i < |decisions| && decisions[i].objectId == Some(id)
  {
    var i :| DecidesFetch(decisions, i, id);
    assert decisions[i].objectId == Some(id);
  }
}
