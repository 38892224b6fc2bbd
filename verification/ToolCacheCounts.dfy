/** What the counters of the tool cache count, over whole runs. */
module ToolCacheCounts {
  import opened StoreTheorems
  import opened ToolCacheModel
  import opened ToolCacheRebuild
  import opened ToolCacheTheorems

  /** How an operation is counted, given the cache it meets. */
  datatype Count = Count(puts: nat, hits: nat, misses: nat, replaced: nat) {
    function Plus(more: Count): Count {
      Count(puts + more.puts, hits + more.hits, misses + more.misses, replaced + more.replaced)
    }
  }

  function CountOf(c: Cache, op: Op): Count {
    match op
    case OpPut(a) => Count(1, 0, 0, if KeyOf(a) in c.index then 1 else 0)
    case OpGet(key, version, now) =>
      if Answer(GetOutcome(c, key, version, now)).Some? then Count(0, 1, 0, 0) else Count(0, 0, 1, 0)
    case _ => Count(0, 0, 0, 0)
  }

  function Total(ops: seq<Op>, caches: seq<Cache>): Count
    requires |caches| == |ops| + 1
  {
    if ops == [] then Count(0, 0, 0, 0)
    else
      var n := |ops| - 1;
      Total(ops[..n], caches[..n + 1]).Plus(CountOf(caches[n], ops[n]))
  }

  lemma StepCounts(c: Cache, op: Op, c': Cache)
    requires Steps(c, op, c')
    ensures var k, before, after := CountOf(c, op), c.counters, c'.counters;
            after.puts == before.puts + k.puts && after.hits == before.hits + k.hits && after.misses == before.misses + k.misses
  {
    hide Rebuilds, Purged, Dropped;
  }

  /** In every run `puts` counts the puts, `hits` the gets that returned an artifact and `misses` the
      others. */
  lemma {:induction false} CountersAreExact(ops: seq<Op>, caches: seq<Cache>)
    requires IsRun(ops, caches)
    ensures var k, counters := Total(ops, caches), caches[|ops|].counters;
            counters.puts == k.puts && counters.hits == k.hits && counters.misses == k.misses
  {
    if ops != [] {
      hide Steps, CountOf;
      var n := |ops| - 1;
      CountersAreExact(ops[..n], caches[..n + 1]);
      StepCounts(caches[n], ops[n], caches[n + 1]);
    }
  }

  /** Everything that has left the store since the run began, by how it was counted. */
  function Gone(c: Counters): nat { c.expired + c.invalidated + c.purged }

  lemma PutBalances(c: Cache, op: Op)
    requires Bijection(c) && op.OpPut? && IdIsFreeFor(c, op.artifact)
    ensures |Put(c, op.artifact).artifacts| + CountOf(c, op).replaced == |c.artifacts| + 1
  {
    var a := op.artifact;
    var key, stored := KeyOf(a), c.artifacts[a.toolCallId := a];
    if key !in c.index {
      assert stored.Keys == c.artifacts.Keys + {a.toolCallId};
    } else if c.index[key] == a.toolCallId {
      assert stored.Keys == c.artifacts.Keys;
    } else {
      assert a.toolCallId !in c.artifacts;
      assert (stored - {c.index[key]}).Keys == c.artifacts.Keys + {a.toolCallId} - {c.index[key]};
    }
  }

  lemma GetBalances(c: Cache, key: Key, o: Outcome)
    requires o.Expired? ==> key in c.index && c.index[key] in c.artifacts
    ensures |AfterGet(c, key, o).artifacts| + Gone(AfterGet(c, key, o).counters) == |c.artifacts| + Gone(c.counters)
  {
    if o.Expired? {
      assert (c.artifacts - {c.index[key]}).Keys == c.artifacts.Keys - {c.index[key]};
    }
  }

  lemma StepBalances(c: Cache, op: Op, c': Cache)
    requires Bijection(c) && Steps(c, op, c') && (op.OpPut? ==> IdIsFreeFor(c, op.artifact))
    ensures var k := CountOf(c, op);
            |c'.artifacts| + Gone(c'.counters) + k.replaced == |c.artifacts| + Gone(c.counters) + k.puts
  {
    hide Rebuilds, Purged, Dropped, Bijection, IdIsFreeFor, AfterGet;
    match op
    case OpPut(a) => PutBalances(c, op);
    case OpGet(key, version, now) => GetBalances(c, key, GetOutcome(c, key, version, now));
    case _ =>
  }

  /** Conservation: in every run each artifact put is still stored, was replaced by a later put of its
      key, or is counted once as expired, invalidated or purged. */
  lemma {:induction false} ArtifactsAreConserved(ops: seq<Op>, caches: seq<Cache>, start: real)
    requires IsOrderlyRun(ops, caches, start)
    ensures var k, c := Total(ops, caches), caches[|ops|];
            |c.artifacts| + Gone(c.counters) + k.replaced == k.puts
  {
    if ops != [] {
      hide Steps, CountOf, Gone, Refines, ClockNeverRunsBack, PutsAreListable;
      var n := |ops| - 1;
      FrontIsOrderly(ops, caches, start, n);
      ArtifactsAreConserved(ops[..n], caches[..n + 1], start);
      StoredInBijection(ops[..n], caches[..n + 1], start);
      StepBalances(caches[n], ops[n], caches[n + 1]);
    }
  }

  lemma StoredInBijection(ops: seq<Op>, caches: seq<Cache>, start: real)
    requires IsOrderlyRun(ops, caches, start)
    ensures Bijection(caches[|ops|])
  {
    RunRefines(ops, caches, start);
  }
}
