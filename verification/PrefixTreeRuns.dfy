/** What whole histories of inserts and removals leave in the trie. */
module PrefixTreeRuns {
  import opened PrefixTrees

  datatype Op = Insert(tokenIds: Tokens, objectId: string) | Remove(objectId: string)

  function Step(ix: Index, op: Op): Index {
    match op
    case Insert(t, id) => Inserted(ix, t, id)
    case Remove(id) => Removed(ix, id)
  }

  function Run(ops: seq<Op>): Index {
    if ops == [] then EMPTY_INDEX else Step(Run(ops[..|ops| - 1]), ops[|ops| - 1])
  }

  /** The last operation on `id` in the history inserted it under `t`. */
  ghost predicate LiveUnder(ops: seq<Op>, id: string, t: Tokens) {
    exists k :: 0 <= k < |ops| && ops[k] == Insert(t, id) && Untouched(ops, k, id)
  }

  ghost predicate Untouched(ops: seq<Op>, k: int, id: string) {
    forall j :: k < j < |ops| ==> 0 <= j && ops[j].objectId != id
  }

  /** No id is inserted under new tokens while it is still live under other non-empty ones. */
  ghost predicate NoStaleReinserts(ops: seq<Op>) {
    forall k, t :: 0 <= k < |ops| && ops[k].Insert? && LiveUnder(ops[..k], ops[k].objectId, t)
                   ==> t in {[], ops[k].tokenIds}
  }

  /** Below the root, the trie stores each registered id under its registered tokens and nothing else. */
  ghost predicate SearchExact(ix: Index) {
    forall t, id :: t != [] ==> ((t, id) in ix.entries <==> id in ix.registered && ix.registered[id] == t)
  }

  /** A correct report: the match is a registered id whose tokens are a non-empty prefix of the query. */
  ghost predicate ReportsRightly(ix: Index, query: Tokens, m: PrefixMatch) {
    m in MatchSet(ix.entries, query) <==>
      && m.objectId in ix.registered && 0 < m.matchedLength <= |query|
      && ix.registered[m.objectId] == query[..m.matchedLength]
  }

  /** Whether an operation may leave an id behind at a path it no longer belongs to. Ids stored at the
      root are never reported. */
  predicate LeavesNoStaleId(ix: Index, op: Op) {
    op.Insert? && op.objectId in ix.registered ==> ix.registered[op.objectId] in {[], op.tokenIds}
  }

  lemma EntryIsMatch(ix: Index, query: Tokens, m: PrefixMatch)
    requires 0 < m.matchedLength <= |query|
    ensures m in MatchSet(ix.entries, query) <==> (query[..m.matchedLength], m.objectId) in ix.entries
  {
    var e := (query[..m.matchedLength], m.objectId);
    assert e in ix.entries ==> e.0 != [] && e.0 <= query && PrefixMatch(e.1, |e.0|) == m;
    if m in MatchSet(ix.entries, query) {
      var d :| d in ix.entries && d.0 != [] && d.0 <= query && PrefixMatch(d.1, |d.0|) == m;
      assert d.0 == query[..|d.0|] && d == (d.0, d.1);
    }
  }

  /** The index is exact if and only if every report of every search is right. */
  lemma SearchExactIsObservable(ix: Index)
    ensures SearchExact(ix) <==> forall query, m :: ReportsRightly(ix, query, m)
  {
    if SearchExact(ix) {
      forall query, m ensures ReportsRightly(ix, query, m) {
        if 0 < m.matchedLength <= |query| {
          EntryIsMatch(ix, query, m);
        }
      }
    } else {
      var t, id :| t != [] && !((t, id) in ix.entries <==> id in ix.registered && ix.registered[id] == t);
      assert t[..|t|] == t;
      EntryIsMatch(ix, t, PrefixMatch(id, |t|));
      assert !ReportsRightly(ix, t, PrefixMatch(id, |t|));
    }
  }

  lemma LiveUnderLast(ops: seq<Op>, id: string, t: Tokens)
    requires ops != []
    ensures var last := ops[|ops| - 1];
            LiveUnder(ops, id, t) <==>
              last == Insert(t, id) || (last.objectId != id && LiveUnder(ops[..|ops| - 1], id, t))
  {
    var front, last := ops[..|ops| - 1], ops[|ops| - 1];
    if last == Insert(t, id) {
      assert Untouched(ops, |ops| - 1, id);
    }
    if last.objectId != id && LiveUnder(front, id, t) {
      var k :| 0 <= k < |front| && front[k] == Insert(t, id) && Untouched(front, k, id);
      assert ops[k] == Insert(t, id) && Untouched(ops, k, id);
    }
    if LiveUnder(ops, id, t) && last != Insert(t, id) {
      var k :| 0 <= k < |ops| && ops[k] == Insert(t, id) && Untouched(ops, k, id);
      assert front[k] == Insert(t, id) && Untouched(front, k, id);
    }
  }

  /** The reverse map always holds the live ids, whatever the history. */
  lemma {:induction false} RegisteredAreLive(ops: seq<Op>)
    ensures forall id, t :: LiveUnder(ops, id, t) <==>
                            id in Run(ops).registered && Run(ops).registered[id] == t
  {
    if ops != [] {
      RegisteredAreLive(ops[..|ops| - 1]);
      forall id, t {
        LiveUnderLast(ops, id, t);
      }
    }
  }

  /** Whatever the history, every registered id is stored at its path, so `remove` never bails out. */
  lemma {:induction false} RegisteredAreStored(ops: seq<Op>)
    ensures Backed(Run(ops))
  {
    if ops != [] {
      RegisteredAreStored(ops[..|ops| - 1]);
    }
  }

  /** Exactly the re-inserts of an id live under other, non-empty tokens break the search. */
  lemma StepKeepsSearchExact(ix: Index, op: Op)
    requires SearchExact(ix)
    ensures SearchExact(Step(ix, op)) <==> LeavesNoStaleId(ix, op)
  {
    if !LeavesNoStaleId(ix, op) {
      assert (ix.registered[op.objectId], op.objectId) in Step(ix, op).entries;
    }
  }

  lemma {:induction false} RunIsSearchExact(ops: seq<Op>)
    requires NoStaleReinserts(ops)
    ensures SearchExact(Run(ops))
  {
    if ops != [] {
      var front, last := ops[..|ops| - 1], ops[|ops| - 1];
      PrefixHasNoStaleReinserts(ops, |ops| - 1);
      RunIsSearchExact(front);
      RegisteredAreLive(front);
      if last.Insert? && last.objectId in Run(front).registered {
        assert LiveUnder(front, last.objectId, Run(front).registered[last.objectId]);
      }
      StepKeepsSearchExact(Run(front), last);
    }
  }

  lemma PrefixHasNoStaleReinserts(ops: seq<Op>, n: nat)
    requires n <= |ops| && NoStaleReinserts(ops)
    ensures NoStaleReinserts(ops[..n])
  {
    forall k, t | 0 <= k < n && ops[..n][k].Insert? && LiveUnder(ops[..n][..k], ops[k].objectId, t)
      ensures t in {[], ops[k].tokenIds}
    {
      assert ops[..n][..k] == ops[..k];
    }
  }

  /** Searches are right throughout a history if and only if it has no stale re-insert. */
  lemma ExactThroughoutIffNoStaleReinserts(ops: seq<Op>)
    ensures (forall n :: 0 <= n <= |ops| ==> SearchExact(Run(ops[..n]))) <==> NoStaleReinserts(ops)
  {
    if NoStaleReinserts(ops) {
      forall n | 0 <= n <= |ops| ensures SearchExact(Run(ops[..n])) {
        PrefixHasNoStaleReinserts(ops, n);
        RunIsSearchExact(ops[..n]);
      }
    }
    if forall n :: 0 <= n <= |ops| ==> SearchExact(Run(ops[..n])) {
      forall k, t | 0 <= k < |ops| && ops[k].Insert? && LiveUnder(ops[..k], ops[k].objectId, t)
        ensures t in {[], ops[k].tokenIds}
      {
        assert ops[..k + 1][..k] == ops[..k];
        assert SearchExact(Run(ops[..k])) && SearchExact(Run(ops[..k + 1]));
        StepKeepsSearchExact(Run(ops[..k]), ops[k]);
        RegisteredAreLive(ops[..k]);
      }
    }
  }

  /** Search equals a scan of the history: it reports exactly the live ids whose non-empty tokens
      are a prefix of the query, with their own lengths. */
  lemma SearchIsScanOfLiveIds(ops: seq<Op>, query: Tokens, m: PrefixMatch)
    requires NoStaleReinserts(ops)
    ensures m in MatchSet(Run(ops).entries, query) <==>
              0 < m.matchedLength <= |query| && LiveUnder(ops, m.objectId, query[..m.matchedLength])
  {
    RunIsSearchExact(ops);
    RegisteredAreLive(ops);
    if 0 < m.matchedLength <= |query| {
      EntryIsMatch(Run(ops), query, m);
    }
  }

  /** No id is reported twice: each has one matched length. */
  lemma SearchReportsEachIdOnce(ops: seq<Op>, query: Tokens, m: PrefixMatch, n: PrefixMatch)
    requires NoStaleReinserts(ops)
    requires m in MatchSet(Run(ops).entries, query) && n in MatchSet(Run(ops).entries, query)
    requires m.objectId == n.objectId
    ensures m == n
  {
    RunIsSearchExact(ops);
  }

  /** Removing undoes inserting exactly when the id was new at that path and unregistered. */
  lemma RemoveUndoesInsert(ix: Index, t: Tokens, id: string)
    ensures Removed(Inserted(ix, t, id), id) == ix <==> id !in ix.registered && (t, id) !in ix.entries
  {
    var after := Removed(Inserted(ix, t, id), id);
    assert id !in after.registered && (t, id) !in after.entries;
  }

  /** Without the condition search is wrong: a block re-inserted under other tokens is still
      found under its old ones. */
  lemma StaleIdIsReported()
    ensures var ops := [Insert([1], "a"), Insert([2], "a")];
            && PrefixMatch("a", 1) in MatchSet(Run(ops).entries, [1])
            && !LiveUnder(ops, "a", [1])
  {
    var ops := [Insert([1], "a"), Insert([2], "a")];
    assert ops[..1] == [Insert([1], "a")];
    assert Run(ops[..1]) == Inserted(EMPTY_INDEX, [1], "a") by { assert ops[..1][..0] == []; }
    var e := ([1], "a");
    assert e in Run(ops).entries && e.0 <= [1];
    if LiveUnder(ops, "a", [1]) {
      LiveUnderLast(ops, "a", [1]);
      assert false;
    }
  }
}
