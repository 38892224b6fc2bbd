/** The tool cache refines a plain map that never forgets an artifact until it is replaced or
    invalidated: lazy deletion, purging and rebuilding cannot be observed. */
module ToolCacheTheorems {
  import opened Collections
  import opened ObjectTypes
  import opened StoreTheorems
  import opened ToolCacheModel
  import opened ToolCacheRebuild
  import opened ToolCallIds
  import opened Wrappers

  type Latest = map<Key, ToolCallArtifact>

  /** The reference answer: the latest put, if its version fits and it has not expired. */
  function ReferenceAnswer(latest: Latest, key: Key, version: Option<string>, now: real): Option<ToolCallArtifact> {
    if key in latest && (version.None? || latest[key].sourceVersion == version.value) && !latest[key].IsExpired(now)
    then Some(latest[key])
    else None
  }

  /** The index is a bijection onto the stored artifacts, each under its own id. */
  ghost predicate Bijection(c: Cache) {
    && SelfNamed(c.artifacts)
    && (forall key :: key in c.index ==> c.index[key] in c.artifacts && KeyOf(c.artifacts[c.index[key]]) == key)
    && (forall id :: id in c.artifacts ==>
          KeyOf(c.artifacts[id]) in c.index && c.index[KeyOf(c.artifacts[id])] == id)
  }

  /** The cache holds the latest artifact of every key it indexes; the others have expired by `clock`. */
  ghost predicate Refines(c: Cache, latest: Latest, clock: real) {
    && Bijection(c)
    && (forall key :: key in c.index ==> key in latest && latest[key] == c.artifacts[c.index[key]])
    && (forall key :: key in latest && key !in c.index ==> latest[key].IsExpired(clock))
  }

  // One operation at a time

  /** The id of a new artifact is not already held by another key. */
  predicate IdIsFreeFor(c: Cache, a: ToolCallArtifact) {
    a.toolCallId in c.artifacts ==> KeyOf(c.artifacts[a.toolCallId]) == KeyOf(a)
  }

  lemma PutKeepsBijection(c: Cache, a: ToolCallArtifact)
    requires Bijection(c) && IdIsFreeFor(c, a)
    ensures Bijection(Put(c, a))
    ensures forall key :: key in c.index && key != KeyOf(a) ==>
              c.index[key] in Put(c, a).artifacts && Put(c, a).artifacts[c.index[key]] == c.artifacts[c.index[key]]
  {
    var c', key := Put(c, a), KeyOf(a);
    forall k | k in c.index && k != key
      ensures c.index[k] in c'.artifacts && c'.artifacts[c.index[k]] == c.artifacts[c.index[k]]
    {
      assert KeyOf(c.artifacts[c.index[k]]) == k;
      assert c.index[k] != a.toolCallId;
      assert key in c.index ==> c.index[k] != c.index[key];
    }
    forall id | id in c'.artifacts && id != a.toolCallId
      ensures KeyOf(c'.artifacts[id]) in c'.index && c'.index[KeyOf(c'.artifacts[id])] == id
    {
      assert c.index[KeyOf(c.artifacts[id])] == id;
    }
  }

  lemma CollisionBreaksBijection(c: Cache, a: ToolCallArtifact)
    requires Bijection(c) && !IdIsFreeFor(c, a)
    ensures !Bijection(Put(c, a))
  {
    var other := KeyOf(c.artifacts[a.toolCallId]);
    var c' := Put(c, a);
    assert other in c'.index && c'.index[other] == a.toolCallId;
    assert a.toolCallId in c'.artifacts ==> KeyOf(c'.artifacts[a.toolCallId]) != other;
  }

  /** A put keeps the refinement exactly when its id does not collide with another key's. */
  lemma PutRefines(c: Cache, latest: Latest, clock: real, a: ToolCallArtifact)
    requires Refines(c, latest, clock)
    ensures Refines(Put(c, a), latest[KeyOf(a) := a], clock) <==> IdIsFreeFor(c, a)
  {
    if IdIsFreeFor(c, a) {
      PutKeepsBijection(c, a);
    } else {
      CollisionBreaksBijection(c, a);
    }
  }

  /** A get answers as the reference does, and forgetting what has expired is unobservable. */
  lemma GetRefines(c: Cache, latest: Latest, clock: real, key: Key, version: Option<string>, now: real)
    requires Refines(c, latest, clock) && clock <= now
    ensures var o := GetOutcome(c, key, version, now);
            && Answer(o) == ReferenceAnswer(latest, key, version, now)
            && Refines(AfterGet(c, key, o), latest, now)
  {
    var o := GetOutcome(c, key, version, now);
    if o.Expired? {
      ForgettingRefines(c, latest, clock, now, key);
      RefinesIgnoresCounters(Forgotten(c, key), AfterGet(c, key, o), latest, now);
    } else {
      RefinesLater(c, latest, clock, now);
      RefinesIgnoresCounters(c, AfterGet(c, key, o), latest, now);
    }
  }

  function Forgotten(c: Cache, key: Key): Cache
    requires key in c.index
  {
    Cache(c.index - {key}, c.artifacts - {c.index[key]}, c.counters)
  }

  /** Forgetting an expired key with its artifact. */
  lemma ForgettingRefines(c: Cache, latest: Latest, clock: real, now: real, key: Key)
    requires Refines(c, latest, clock) && clock <= now && key in c.index && c.artifacts[c.index[key]].IsExpired(now)
    ensures Refines(Forgotten(c, key), latest, now)
  {
    var c' := Forgotten(c, key);
    forall k | k in c'.index ensures c'.index[k] in c'.artifacts {
      assert c.index[k] != c.index[key];
    }
  }

  /** Dropping indexed keys keeps the bijection. */
  lemma DroppedIsBijection(c: Cache, keys: set<Key>)
    requires Bijection(c)
    ensures Bijection(Dropped(c, keys))
    ensures forall key :: key in c.index && key !in keys ==>
              Dropped(c, keys).artifacts[c.index[key]] == c.artifacts[c.index[key]]
  {
    forall key | key in c.index && key !in keys ensures c.index[key] !in IdsOf(c.index, keys) {
    }
    forall id | id in Dropped(c, keys).artifacts ensures KeyOf(c.artifacts[id]) !in keys {
    }
  }

  lemma InvalidateRefines(c: Cache, latest: Latest, clock: real, toolName: Option<string>, scope: Option<Scope>)
    requires Refines(c, latest, clock)
    ensures var kept := map key | key in latest && !Matches(key, toolName, scope) :: latest[key];
            Refines(Dropped(c, MatchingKeys(c.index, toolName, scope)), kept, clock)
  {
    DroppedIsBijection(c, MatchingKeys(c.index, toolName, scope));
  }

  lemma PurgeRefines(c: Cache, latest: Latest, clock: real, now: real)
    requires Refines(c, latest, clock) && clock <= now
    ensures Refines(Purged(c, now), latest, now)
  {
    DroppedIsBijection(c, ExpiredKeys(c, now) + DanglingKeys(c));
  }

  /** A purge leaves no expired artifact and deletes no other. */
  lemma PurgeIsExact(c: Cache, now: real)
    requires Bijection(c)
    ensures Purged(c, now).artifacts == Unexpired(c.artifacts, now)
    ensures Purged(c, now).index == c.index - ExpiredKeys(c, now)
  {
    forall id | id in c.artifacts ensures id in Purged(c, now).artifacts <==> !c.artifacts[id].IsExpired(now) {
      var key := KeyOf(c.artifacts[id]);
      assert c.index[key] == id;
      if id in IdsOf(c.index, ExpiredKeys(c, now) + DanglingKeys(c)) {
        var k :| k in ExpiredKeys(c, now) + DanglingKeys(c) && k in c.index && c.index[k] == id;
      }
    }
    assert DanglingKeys(c) == {};
  }

  /** Under the bijection a rebuild yields exactly the old index without its expired entries. */
  lemma RebuildRestrictsIndex(c: Cache, now: real, index: map<Key, string>, artifacts: Artifacts)
    requires Bijection(c) && IsRebuilt(c, now, index, artifacts)
    ensures index == c.index - ExpiredKeys(c, now)
    ensures artifacts == c.artifacts - IdsOf(c.index, ExpiredKeys(c, now))
  {
    forall id | id in c.artifacts
      ensures id in artifacts <==> id !in IdsOf(c.index, ExpiredKeys(c, now))
    {
      var key := KeyOf(c.artifacts[id]);
      assert key in ExpiredKeys(c, now) <==> id !in artifacts;
      if id in IdsOf(c.index, ExpiredKeys(c, now)) {
        var k :| k in ExpiredKeys(c, now) && c.index[k] == id;
      }
    }
  }

  lemma RebuildRefines(c: Cache, latest: Latest, clock: real, now: real, index: map<Key, string>, artifacts: Artifacts,
                       counters: Counters)
    requires Refines(c, latest, clock) && clock <= now && Rebuilds(c, now, index, artifacts)
    requires forall id :: id in c.artifacts ==> Listable(id)
    ensures Refines(Cache(index, artifacts, counters), latest, now)
  {
    AllVisible(c, now, index, artifacts);
    RebuildRestrictsIndex(c, now, index, artifacts);
    DroppedIsBijection(c, ExpiredKeys(c, now));
  }

  // Histories

  datatype Op =
    | OpPut(artifact: ToolCallArtifact)
    | OpGet(key: Key, version: Option<string>, now: real)
    | OpInvalidate(toolName: Option<string>, scope: Option<Scope>)
    | OpPurge(now: real)
    | OpRebuild(now: real)
    | OpRejected

  /** The caches an operation may lead to: a rebuild is described rather than computed, and a call
      rejected for its arguments changes nothing. */
  ghost predicate Steps(c: Cache, op: Op, c': Cache) {
    match op
    case OpPut(a) => c' == Put(c, a)
    case OpGet(key, version, now) => c' == AfterGet(c, key, GetOutcome(c, key, version, now))
    case OpInvalidate(t, s) =>
      && c'.index == Dropped(c, MatchingKeys(c.index, t, s)).index
      && c'.artifacts == Dropped(c, MatchingKeys(c.index, t, s)).artifacts
      && c'.counters == c.counters.(invalidated := c'.counters.invalidated)
      && c'.counters.invalidated + |c'.artifacts| == c.counters.invalidated + |c.artifacts|
    case OpPurge(now) =>
      && c'.index == Purged(c, now).index && c'.artifacts == Purged(c, now).artifacts
      && c'.counters == c.counters.(purged := c'.counters.purged)
      && c'.counters.purged + |c'.artifacts| == c.counters.purged + |c.artifacts|
    case OpRebuild(now) =>
      && Rebuilds(c, now, c'.index, c'.artifacts)
      && c'.counters == c.counters.(purged := c'.counters.purged, reindexed := c.counters.reindexed + |c'.index|)
      && c'.counters.purged + |c'.artifacts| == c.counters.purged + |c.artifacts|
    case OpRejected => c' == c
  }

  function LatestStep(latest: Latest, op: Op): Latest {
    match op
    case OpPut(a) => latest[KeyOf(a) := a]
    case OpInvalidate(t, s) => map key | key in latest && !Matches(key, t, s) :: latest[key]
    case _ => latest
  }

  function LatestAfter(ops: seq<Op>): Latest {
    if ops == [] then map[] else LatestStep(LatestAfter(ops[..|ops| - 1]), ops[|ops| - 1])
  }

  function TimeOf(op: Op, clock: real): real {
    match op
    case OpPut(a) => a.createdAt
    case OpInvalidate(_, _) => clock
    case OpRejected => clock
    case OpGet(_, _, now) => now
    case OpPurge(now) => now
    case OpRebuild(now) => now
  }

  /** The time of the last operation that reads the clock. */
  function ClockAfter(start: real, ops: seq<Op>): real {
    if ops == [] then start else TimeOf(ops[|ops| - 1], ClockAfter(start, ops[..|ops| - 1]))
  }

  ghost predicate ClockNeverRunsBack(start: real, ops: seq<Op>) {
    forall i :: 0 <= i < |ops| ==> ClockAfter(start, ops[..i]) <= TimeOf(ops[i], ClockAfter(start, ops[..i]))
  }

  /** A run of the cache from empty, with the cache before and after each operation. */
  ghost predicate IsRun(ops: seq<Op>, caches: seq<Cache>) {
    && |caches| == |ops| + 1
    && caches[0] == Cache(map[], map[], ZERO)
    && forall i :: 0 <= i < |ops| ==> Steps(caches[i], ops[i], caches[i + 1])
  }

  ghost predicate NoIdCollides(ops: seq<Op>, caches: seq<Cache>)
    requires |caches| == |ops| + 1
  {
    forall i :: 0 <= i < |ops| && ops[i].OpPut? ==> IdIsFreeFor(caches[i], ops[i].artifact)
  }

  lemma RefinesIgnoresCounters(c: Cache, d: Cache, latest: Latest, clock: real)
    requires Refines(c, latest, clock) && d.index == c.index && d.artifacts == c.artifacts
    ensures Refines(d, latest, clock)
  {
  }

  lemma RefinesLater(c: Cache, latest: Latest, clock: real, later: real)
    requires Refines(c, latest, clock) && clock <= later
    ensures Refines(c, latest, later)
  {
  }

  lemma StepRefines(c: Cache, op: Op, c': Cache, latest: Latest, clock: real)
    requires Refines(c, latest, clock) && Steps(c, op, c') && clock <= TimeOf(op, clock)
    requires op.OpPut? ==> IdIsFreeFor(c, op.artifact)
    requires forall id :: id in c.artifacts ==> Listable(id)
    ensures Refines(c', LatestStep(latest, op), TimeOf(op, clock))
  {
    hide Refines, Rebuilds, Dropped, Purged, AfterGet, Put, MatchingKeys;
    match op
    case OpPut(a) =>
      PutRefines(c, latest, clock, a);
      RefinesLater(c', LatestStep(latest, op), clock, a.createdAt);
    case OpGet(key, version, now) => GetRefines(c, latest, clock, key, version, now);
    case OpInvalidate(t, s) =>
      InvalidateRefines(c, latest, clock, t, s);
      RefinesIgnoresCounters(Dropped(c, MatchingKeys(c.index, t, s)), c', LatestStep(latest, op), clock);
    case OpPurge(now) =>
      PurgeRefines(c, latest, clock, now);
      RefinesIgnoresCounters(Purged(c, now), c', latest, now);
    case OpRebuild(now) => RebuildRefines(c, latest, clock, now, c'.index, c'.artifacts, c'.counters);
    case OpRejected =>
  }

  ghost predicate PutsAreListable(ops: seq<Op>) {
    forall i :: 0 <= i < |ops| && ops[i].OpPut? ==> Listable(ops[i].artifact.toolCallId)
  }

  /** Each stored artifact was put by some operation. */
  lemma {:induction false} StoredWerePut(ops: seq<Op>, caches: seq<Cache>, id: string)
    requires IsRun(ops, caches) && id in caches[|ops|].artifacts
    ensures exists i :: 0 <= i < |ops| && ops[i] == OpPut(caches[|ops|].artifacts[id])
              && ops[i].artifact.toolCallId == id
  {
    if ops != [] {
      var n := |ops| - 1;
      var c, c' := caches[n], caches[n + 1];
      assert Steps(c, ops[n], c');
      if ops[n].OpPut? && ops[n].artifact.toolCallId == id {
        assert c'.artifacts[id] == ops[n].artifact;
      } else {
        StoredBefore(c, ops[n], c', id);
        StoredWerePut(ops[..n], caches[..n + 1], id);
        var i :| 0 <= i < n && ops[..n][i] == OpPut(c.artifacts[id]) && ops[..n][i].artifact.toolCallId == id;
        assert ops[i] == OpPut(c'.artifacts[id]);
      }
    }
  }

  /** Only its own put brings an artifact in. */
  lemma StoredBefore(c: Cache, op: Op, c': Cache, id: string)
    requires Steps(c, op, c') && id in c'.artifacts
    requires op.OpPut? ==> op.artifact.toolCallId != id
    ensures id in c.artifacts && c.artifacts[id] == c'.artifacts[id]
  {
    hide Rebuilds, Put, AfterGet, GetOutcome, Dropped, Purged, MatchingKeys;
    match op
    case OpPut(a) => PutBringsOnlyIts(c, a, id);
    case OpGet(key, version, now) => GetBringsNone(c, key, GetOutcome(c, key, version, now), id);
    case OpInvalidate(t, s) => DropBringsNone(c, MatchingKeys(c.index, t, s), id);
    case OpPurge(now) => PurgeBringsNone(c, now, id);
    case OpRebuild(now) => RebuildShrinks(c, now, c'.index, c'.artifacts, id);
    case OpRejected =>
  }

  lemma PutBringsOnlyIts(c: Cache, a: ToolCallArtifact, id: string)
    requires a.toolCallId != id && id in Put(c, a).artifacts
    ensures id in c.artifacts && c.artifacts[id] == Put(c, a).artifacts[id]
  {
  }

  lemma GetBringsNone(c: Cache, key: Key, o: Outcome, id: string)
    requires id in AfterGet(c, key, o).artifacts
    ensures id in c.artifacts && c.artifacts[id] == AfterGet(c, key, o).artifacts[id]
  {
  }

  lemma DropBringsNone(c: Cache, keys: set<Key>, id: string)
    requires id in Dropped(c, keys).artifacts
    ensures id in c.artifacts && c.artifacts[id] == Dropped(c, keys).artifacts[id]
  {
  }

  lemma PurgeBringsNone(c: Cache, now: real, id: string)
    requires id in Purged(c, now).artifacts
    ensures id in c.artifacts && c.artifacts[id] == Purged(c, now).artifacts[id]
  {
  }

  lemma StoredAreListable(ops: seq<Op>, caches: seq<Cache>)
    requires IsRun(ops, caches) && PutsAreListable(ops)
    ensures forall id :: id in caches[|ops|].artifacts ==> Listable(id)
  {
    hide Listable;
    forall id | id in caches[|ops|].artifacts ensures Listable(id) {
      StoredWerePut(ops, caches, id);
    }
  }

  /** A run this module speaks of: the clock never runs back, no put takes the id of another key's
      artifact, and the ids put can be listed. */
  ghost predicate IsOrderlyRun(ops: seq<Op>, caches: seq<Cache>, start: real) {
    IsRun(ops, caches) && ClockNeverRunsBack(start, ops) && NoIdCollides(ops, caches) && PutsAreListable(ops)
  }

  lemma FrontIsOrderly(ops: seq<Op>, caches: seq<Cache>, start: real, n: nat)
    requires n <= |ops| && IsOrderlyRun(ops, caches, start)
    ensures IsOrderlyRun(ops[..n], caches[..n + 1], start)
  {
    forall i | 0 <= i < n ensures ops[..n][..i] == ops[..i] {
    }
  }

  lemma {:induction false} RunRefines(ops: seq<Op>, caches: seq<Cache>, start: real)
    requires IsOrderlyRun(ops, caches, start)
    ensures Refines(caches[|ops|], LatestAfter(ops), ClockAfter(start, ops))
  {
    hide Refines, Steps, TimeOf, LatestStep, Listable;
    if ops == [] {
      RefinesAtStart(caches[0], start);
    } else {
      var n := |ops| - 1;
      FrontIsOrderly(ops, caches, start, n);
      RunRefines(ops[..n], caches[..n + 1], start);
      StoredAreListable(ops[..n], caches[..n + 1]);
      assert ClockAfter(start, ops[..n]) <= TimeOf(ops[n], ClockAfter(start, ops[..n]));
      StepRefines(caches[n], ops[n], caches[n + 1], LatestAfter(ops[..n]), ClockAfter(start, ops[..n]));
    }
  }

  lemma RefinesAtStart(c: Cache, start: real)
    requires c.index == map[] && c.artifacts == map[]
    ensures Refines(c, map[], start)
  {
  }

  /** Every get of every run answers as the plain map of latest puts does. */
  lemma GetsAnswerAsReference(ops: seq<Op>, caches: seq<Cache>, start: real, i: nat)
    requires IsOrderlyRun(ops, caches, start) && i < |ops| && ops[i].OpGet?
    ensures var OpGet(key, version, now) := ops[i];
            Answer(GetOutcome(caches[i], key, version, now))
              == ReferenceAnswer(LatestAfter(ops[..i]), key, version, now)
  {
    hide Refines, Steps, AfterGet;
    FrontIsOrderly(ops, caches, start, i);
    RunRefines(ops[..i], caches[..i + 1], start);
    var OpGet(key, version, now) := ops[i];
    assert ClockAfter(start, ops[..i]) <= TimeOf(ops[i], ClockAfter(start, ops[..i]));
    GetRefines(caches[i], LatestAfter(ops[..i]), ClockAfter(start, ops[..i]), key, version, now);
  }

  /** In every run a rebuild yields the index it replaces, less what has expired. */
  lemma RebuildsAreUnobservable(ops: seq<Op>, caches: seq<Cache>, start: real, i: nat)
    requires IsOrderlyRun(ops, caches, start) && i < |ops| && ops[i].OpRebuild?
    ensures Bijection(caches[i])
    ensures caches[i + 1].index == caches[i].index - ExpiredKeys(caches[i], ops[i].now)
  {
    FrontIsOrderly(ops, caches, start, i);
    RunRefines(ops[..i], caches[..i + 1], start);
    StoredAreListable(ops[..i], caches[..i + 1]);
    assert Steps(caches[i], ops[i], caches[i + 1]);
    AllVisible(caches[i], ops[i].now, caches[i + 1].index, caches[i + 1].artifacts);
    RebuildRestrictsIndex(caches[i], ops[i].now, caches[i + 1].index, caches[i + 1].artifacts);
  }

  /** Nothing returned is expired, of another key, or of a version other than the one asked for. */
  lemma AnswersAreValid(c: Cache, key: Key, version: Option<string>, now: real)
    requires Bijection(c) && GetOutcome(c, key, version, now).Hit?
    ensures var a := GetOutcome(c, key, version, now).artifact;
            KeyOf(a) == key && now < a.expiresAt && (version.Some? ==> a.sourceVersion == version.value)
  {
  }

  /** Over any cache, a get forgets a key whose artifact it found missing or expired, and an expired
      artifact with it; a miss for another reason, and a hit, keep everything. */
  lemma GetForgets(c: Cache, key: Key, version: Option<string>, now: real)
    ensures var o := GetOutcome(c, key, version, now);
            var c' := AfterGet(c, key, o);
            && (o.Dangling? || o.Expired? ==> c'.index == c.index - {key})
            && (o.Expired? ==> key in c.index && c'.artifacts == c.artifacts - {c.index[key]})
            && (!o.Expired? ==> c'.artifacts == c.artifacts)
            && (!o.Dangling? && !o.Expired? ==> c'.index == c.index)
  {
  }

  // When ids collide

  /** The ids of the artifacts put were computed from their fields. */
  ghost predicate IdsComputed(digest: Digest, ops: seq<Op>) {
    forall i :: 0 <= i < |ops| && ops[i].OpPut? ==>
      IsHash(ops[i].artifact.argsHash) && ops[i].artifact.toolCallId == IdOf(digest, ops[i].artifact)
  }

  ghost predicate NamesDoNotNest(ops: seq<Op>) {
    forall i, j :: 0 <= i < |ops| && 0 <= j < |ops| && ops[i].OpPut? && ops[j].OpPut? ==>
      !Nests(ops[i].artifact.toolName, ops[j].artifact.toolName)
  }

  /** The texts the digest was given to name the artifacts put. */
  ghost function PayloadsPut(ops: seq<Op>): set<string> {
    set i | 0 <= i < |ops| && ops[i].OpPut? :: PayloadOf(ops[i].artifact)
  }

  /** If the digest tells the run's own payloads apart and its tool names do not nest, the run has no
      collision. */
  lemma ComputedIdsNeverCollide(digest: Digest, ops: seq<Op>, caches: seq<Cache>)
    requires IsRun(ops, caches) && IdsComputed(digest, ops) && NamesDoNotNest(ops)
    requires InjectiveOn(digest, PayloadsPut(ops))
    ensures NoIdCollides(ops, caches)
  {
    hide Steps, Nests, IsHash, Payload;
    forall i | 0 <= i < |ops| && ops[i].OpPut? && ops[i].artifact.toolCallId in caches[i].artifacts
      ensures KeyOf(caches[i].artifacts[ops[i].artifact.toolCallId]) == KeyOf(ops[i].artifact)
    {
      var a := ops[i].artifact;
      StoredWerePut(ops[..i], caches[..i + 1], a.toolCallId);
      var b := caches[i].artifacts[a.toolCallId];
      var j :| 0 <= j < i && ops[..i][j] == OpPut(b) && ops[..i][j].artifact.toolCallId == a.toolCallId;
      assert ops[j] == OpPut(b);
      assert PayloadOf(a) in PayloadsPut(ops) && PayloadOf(b) in PayloadsPut(ops);
      IdsAreDistinct(digest, a.toolName, a.argsHash, a.scope, a.sourceVersion,
                     b.toolName, b.argsHash, b.scope, b.sourceVersion);
    }
  }

  /** Hexadecimal ids can all be listed, so every artifact a run stores is seen by a rebuild. */
  lemma ComputedIdsAreListable(digest: Digest, ops: seq<Op>)
    requires YieldsHex(digest) && IdsComputed(digest, ops)
    ensures PutsAreListable(ops)
  {
    forall i | 0 <= i < |ops| && ops[i].OpPut? ensures Listable(ops[i].artifact.toolCallId) {
      assert ops[i].artifact.toolCallId == digest(PayloadOf(ops[i].artifact));
    }
  }

  /** Under the bijection each dropped key is one deleted artifact: the count an invalidation
      returns is the number of keys it matched. */
  lemma {:induction false} DroppedCount(c: Cache, keys: set<Key>)
    requires Bijection(c) && keys <= c.index.Keys
    ensures |Dropped(c, keys).artifacts| == |c.artifacts| - |keys|
  {
    var ids := IdsOf(c.index, keys);
    SameCount(c, keys);
    assert ids <= c.artifacts.Keys;
    assert Dropped(c, keys).artifacts.Keys == c.artifacts.Keys - ids;
  }

  lemma {:induction false} SameCount(c: Cache, keys: set<Key>)
    requires Bijection(c) && keys <= c.index.Keys
    ensures |IdsOf(c.index, keys)| == |keys|
    decreases keys
  {
    if keys == {} {
      assert IdsOf(c.index, keys) == {};
    } else {
      var key :| key in keys;
      SameCount(c, keys - {key});
      assert IdsOf(c.index, keys) == IdsOf(c.index, keys - {key}) + {c.index[key]};
      assert c.index[key] !in IdsOf(c.index, keys - {key});
    }
  }

  /** Tool names that nest do collide: the second put replaces the first tool's artifact, and a get
      for the first tool then returns the second tool's output. */
  lemma NestedNamesGiveWrongAnswer(digest: Digest, a: ToolCallArtifact, b: ToolCallArtifact, now: real)
    requires IsHash(a.argsHash) && a.scope == b.scope
    requires b.toolName == a.toolName + ":" + a.argsHash + ":" + ScopeName(a.scope)
    requires a.sourceVersion == b.argsHash + ":" + ScopeName(b.scope) + ":" + b.sourceVersion
    requires a.toolCallId == IdOf(digest, a) && b.toolCallId == IdOf(digest, b)
    requires now < a.expiresAt && now < b.expiresAt
    ensures var c := Put(Put(Cache(map[], map[], ZERO), a), b);
            && Answer(GetOutcome(c, KeyOf(a), None, now)) == Some(b)
            && ReferenceAnswer(map[KeyOf(a) := a][KeyOf(b) := b], KeyOf(a), None, now) == Some(a)
            && a != b
  {
    assert |b.toolName| > |a.toolName|;
    var head := Head(a.toolName, a.argsHash, a.scope);
    assert head == b.toolName + ":";
    assert Payload(a.toolName, a.argsHash, a.scope, a.sourceVersion)
        == head + (b.argsHash + ":" + ScopeName(b.scope) + ":" + b.sourceVersion);
    assert Payload(b.toolName, b.argsHash, b.scope, b.sourceVersion)
        == head + (b.argsHash + ":" + ScopeName(b.scope) + ":" + b.sourceVersion);
  }
}
