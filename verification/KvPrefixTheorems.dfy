/** Prefix queries on stored KV blocks agree with a scan of the backend. */
module KvPrefixTheorems {
  import opened ObjectTypes
  import opened PrefixTrees
  import opened StoreModel
  import opened StoreTheorems
  import opened Wrappers
  import Runs = PrefixTreeRuns

  /** The tokens of the block stored under an id, if a complete one is. */
  function StoredTokens(env: Env, s: Store, id: string): Option<Tokens> {
    match Lookup(env.prefix, s.objects, KvCache, id)
    case Some(Pair(KvMeta(block), _)) => Some(block.tokenIds)
    case _ => None
  }

  /** Brute force: the id's stored block has non-empty tokens that prefix the query. */
  predicate Scanned(env: Env, s: Store, query: Tokens, id: string) {
    var t := StoredTokens(env, s, id);
    t.Some? && t.value != [] && t.value <= query
  }

  /** The trie holds exactly the stored blocks with tokens, each under its own. */
  ghost predicate TrieMatchesStore(env: Env, s: Store) {
    && Runs.SearchExact(s.metadata.index)
    && forall id, t :: (t, id) in s.metadata.index.entries <==> t != [] && StoredTokens(env, s, id) == Some(t)
  }

  /** The guard a caller can check: a block that is stored with tokens is not replaced by one with
      others, nor lost to a failed data write. */
  predicate KeepsTokens(env: Env, s: Store, op: Op) {
    op.OpPut? && op.entry.KvEntry? && !op.faults.metaWrite ==>
      var stored := StoredTokens(env, s, op.id);
      stored in {None, Some([])}
      || (!op.faults.dataWrite && stored == Some(op.entry.block.tokenIds))
  }

  lemma OthersKeepTokens(env: Env, s: Store, op: Op, id: string)
    requires env.Valid() && OpValid(op)
    requires (KvCache, id) != (if op.OpPut? then op.entry.Kind() else op.kind, op.id)
    ensures StoredTokens(env, Step(env, s, op), id) == StoredTokens(env, s, id)
  {
    OthersKeepLookup(env, s, op, KvCache, id);
  }

  lemma OtherKindsKeepTrie(env: Env, s: Store, op: Op)
    requires OpValid(op) && (if op.OpPut? then op.entry.Kind() else op.kind) != KvCache
    ensures Step(env, s, op).metadata.index == s.metadata.index
  {
  }

  lemma PutKeepsTrie(env: Env, s: Store, op: Op)
    requires env.Valid() && TrieMatchesStore(env, s)
    requires OpValid(op) && op.OpPut? && op.entry.KvEntry? && !op.faults.Double()
    ensures TrieMatchesStore(env, Step(env, s, op)) <==> KeepsTokens(env, s, op)
  {
    var s' := Step(env, s, op);
    var stored := StoredTokens(env, s, op.id);
    PutLookup(env, s, op.id, op.entry, op.faults);
    forall id | id != op.id ensures StoredTokens(env, s', id) == StoredTokens(env, s, id) {
      OthersKeepTokens(env, s, op, id);
    }
    if !KeepsTokens(env, s, op) {
      assert (stored.value, op.id) in s.metadata.index.entries;
      assert (stored.value, op.id) in s'.metadata.index.entries;
    }
  }

  lemma DeleteKeepsTrie(env: Env, s: Store, op: Op)
    requires env.Valid() && TrieMatchesStore(env, s)
    requires op.OpDelete? && op.kind == KvCache
    ensures TrieMatchesStore(env, Step(env, s, op))
  {
    var s' := Step(env, s, op);
    forall id | id != op.id ensures StoredTokens(env, s', id) == StoredTokens(env, s, id) {
      OthersKeepTokens(env, s, op, id);
    }
    var index := s.metadata.index;
    if op.id in index.registered && index.registered[op.id] != [] {
      assert (index.registered[op.id], op.id) in index.entries;
    }
  }

  /** Exactly the operations that keep tokens keep the trie in step with the store. */
  lemma StepKeepsTrie(env: Env, s: Store, op: Op)
    requires env.Valid() && OpValid(op) && TrieMatchesStore(env, s)
    requires op.OpPut? && op.entry.KvEntry? ==> !op.faults.Double()
    ensures TrieMatchesStore(env, Step(env, s, op)) <==> KeepsTokens(env, s, op)
  {
    if (if op.OpPut? then op.entry.Kind() else op.kind) != KvCache {
      OtherKindsKeepTrie(env, s, op);
      forall id ensures StoredTokens(env, Step(env, s, op), id) == StoredTokens(env, s, id) {
        OthersKeepTokens(env, s, op, id);
      }
    } else if op.OpPut? {
      PutKeepsTrie(env, s, op);
    } else {
      DeleteKeepsTrie(env, s, op);
    }
  }

  /** Every step of the history keeps tokens; failed writes are allowed where no block is lost. */
  ghost predicate RunKeepsTokens(env: Env, ops: seq<Op>)
    requires OpsValid(ops)
  {
    forall i :: 0 <= i < |ops| ==> KeepsTokens(env, Run(env, ops[..i]), ops[i])
  }

  lemma {:induction false} RunKeepsTrie(env: Env, ops: seq<Op>)
    requires env.Valid() && OpsValid(ops) && NoDoubleFault(ops) && RunKeepsTokens(env, ops)
    ensures TrieMatchesStore(env, Run(env, ops))
  {
    if ops != [] {
      var front, last := ops[..|ops| - 1], ops[|ops| - 1];
      forall i | 0 <= i < |front| ensures KeepsTokens(env, Run(env, front[..i]), front[i]) {
        assert front[..i] == ops[..i];
      }
      RunKeepsTrie(env, front);
      StepKeepsTrie(env, Run(env, front), last);
    }
  }

  /** A prefix query finds exactly the ids a scan of the store would. */
  lemma PrefixQueryIsScan(env: Env, ops: seq<Op>, query: Tokens, id: string)
    requires env.Valid() && OpsValid(ops) && NoDoubleFault(ops) && RunKeepsTokens(env, ops)
    ensures var s := Run(env, ops);
            (exists m :: m in MatchSet(s.metadata.index.entries, query) && m.objectId == id)
            <==> Scanned(env, s, query, id)
  {
    RunKeepsTrie(env, ops);
    var s := Run(env, ops);
    if Scanned(env, s, query, id) {
      var e := (StoredTokens(env, s, id).value, id);
      assert e in s.metadata.index.entries;
      assert PrefixMatch(id, |e.0|) in MatchSet(s.metadata.index.entries, query);
    }
  }

  /** A longest match is a stored block, and no scanned block has more tokens. */
  lemma LongestMatchIsLongestScanned(env: Env, ops: seq<Op>, query: Tokens, longest: PrefixMatch)
    requires env.Valid() && OpsValid(ops) && NoDoubleFault(ops) && RunKeepsTokens(env, ops)
    requires longest in MatchSet(Run(env, ops).metadata.index.entries, query)
    requires forall m :: m in MatchSet(Run(env, ops).metadata.index.entries, query) ==>
               m.matchedLength <= longest.matchedLength
    ensures var s := Run(env, ops);
            && Scanned(env, s, query, longest.objectId)
            && |StoredTokens(env, s, longest.objectId).value| == longest.matchedLength
            && forall id :: Scanned(env, s, query, id) ==>
                 |StoredTokens(env, s, id).value| <= longest.matchedLength
  {
    RunKeepsTrie(env, ops);
    var s := Run(env, ops);
    forall id | Scanned(env, s, query, id)
      ensures |StoredTokens(env, s, id).value| <= longest.matchedLength
    {
      var e := (StoredTokens(env, s, id).value, id);
      assert e in s.metadata.index.entries;
      assert PrefixMatch(id, |e.0|) in MatchSet(s.metadata.index.entries, query);
    }
  }
}
