/** The tool artifact cache of `agent/tool_cache.py`, over a unified store. Arguments and outputs
    arrive as their canonical JSON, and the clock as an argument. */
module ToolCaches {
  import opened Collections
  import opened ObjectStores
  import opened ObjectTypes
  import opened Sorting
  import opened StoreModel
  import opened StoreTheorems
  import opened Text
  import opened ToolCacheModel
  import opened ToolCacheRebuild
  import opened ToolCallIds
  import opened ToolViews
  import opened Wrappers

  class ToolArtifactCache {
    const store: UnifiedObjectStore
    const requireSourceVersion: bool
    const digest: Digest
    var index: map<Key, string>
    var counters: Counters

    ghost predicate Valid()
      reads store, store.Repr, store.backend, store.metadata
      reads store.metadata.bloom, store.metadata.prefixTree, store.metadata.hnsw
    {
      store.Valid() && this !in store.Repr
    }

    ghost function View(): Cache
      reads this, store
    {
      Cache(index, store.tools, counters)
    }

    constructor (store: UnifiedObjectStore, requireSourceVersion: bool, digest: Digest)
      requires store.Valid()
      ensures Valid() && this.store == store && this.digest == digest
      ensures this.requireSourceVersion == requireSourceVersion
      ensures View() == Cache(map[], store.tools, ZERO)
    {
      this.store, this.requireSourceVersion, this.digest := store, requireSourceVersion, digest;
      index, counters := map[], ZERO;
    }

    // The store, seen through its tool artifacts

    method StoreArtifact(artifact: ToolCallArtifact) returns (objectId: string)
      requires Valid()
      modifies store.Repr
      ensures Valid() && fresh(store.Repr - old(store.Repr))
      ensures objectId == artifact.toolCallId
      ensures store.tools == old(store.tools)[objectId := artifact]
    {
      objectId := store.PutToolArtifact(artifact);
    }

    method DeleteArtifact(objectId: string) returns (deleted: bool)
      requires Valid()
      modifies store.Repr
      ensures Valid() && store.Repr == old(store.Repr)
      ensures store.tools == old(store.tools) - {objectId}
      ensures deleted <==> objectId in old(store.tools)
    {
      ToolsAnswer(store.EnvOf(), store.View(), store.tools, objectId);
      deleted := store.DeleteObject(ToolArtifact, objectId);
    }

    method LoadArtifact(objectId: string) returns (artifact: Option<ToolCallArtifact>)
      requires Valid()
      ensures artifact == if objectId in store.tools then Some(store.tools[objectId]) else None
    {
      ToolsAnswer(store.EnvOf(), store.View(), store.tools, objectId);
      artifact := store.GetToolArtifact(objectId);
    }

    /** Changes the cache's own fields only. */
    method Record(index': map<Key, string>, counters': Counters)
      requires Valid()
      modifies this
      ensures Valid() && index == index' && counters == counters' && store.tools == old(store.tools)
      ensures store.Repr == old(store.Repr)
    {
      index, counters := index', counters';
    }

    // Operations

    method PutToolArtifact(toolName: string, args: string, output: string, ttl: real,
                           scope: Scope, sourceVersion: string, now: real)
      returns (result: Result<string, CacheError>)
      requires Valid()
      modifies this, store.Repr
      ensures Valid() && fresh(store.Repr - old(store.Repr))
      ensures match CacheErrorOf(requireSourceVersion, toolName, ttl, sourceVersion)
              case Some(e) => result == Failure(e) && View() == old(View())
              case None =>
                var a := NewArtifact(digest, toolName, args, output, ttl, scope, sourceVersion, now);
                result == Success(a.toolCallId) && View() == ToolCacheModel.Put(old(View()), a)
    {
      var name := Strip(toolName);
      if name == "" {
        return Failure(EmptyToolName);
      }
      if ttl <= 0.0 {
        return Failure(NonPositiveTtl);
      }
      if requireSourceVersion && sourceVersion == "" {
        return Failure(VersionRequired);
      }
      var artifact := NewArtifact(digest, toolName, args, output, ttl, scope, sourceVersion, now);
      var objectId := Replace(artifact);
      return Success(objectId);
    }

    method Replace(artifact: ToolCallArtifact) returns (objectId: string)
      requires Valid()
      modifies this, store.Repr
      ensures Valid() && fresh(store.Repr - old(store.Repr))
      ensures objectId == artifact.toolCallId && View() == ToolCacheModel.Put(old(View()), artifact)
    {
      hide UnifiedObjectStore.Valid;
      var key := KeyOf(artifact);
      objectId := StoreArtifact(artifact);
      if key in index && index[key] != objectId {
        var _ := DeleteArtifact(index[key]);
      }
      Record(index[key := objectId], counters.(puts := counters.puts + 1));
    }

    method GetToolArtifact(toolName: string, args: string, scope: Scope, sourceVersion: Option<string>, now: real)
      returns (result: Result<Option<ToolCallArtifact>, CacheError>)
      requires Valid()
      modifies this, store.Repr
      ensures Valid() && store.Repr == old(store.Repr)
      ensures Strip(toolName) == "" ==> result == Failure(EmptyToolName) && View() == old(View())
      ensures Strip(toolName) != "" ==>
                var key := Key(Strip(toolName), digest(args), scope);
                var o := GetOutcome(old(View()), key, sourceVersion, now);
                result == Success(Answer(o)) && View() == AfterGet(old(View()), key, o)
    {
      var name := Strip(toolName);
      if name == "" {
        return Failure(EmptyToolName);
      }
      var artifact := GetKey(Key(name, digest(args), scope), sourceVersion, now);
      return Success(artifact);
    }

    method GetKey(key: Key, sourceVersion: Option<string>, now: real) returns (found: Option<ToolCallArtifact>)
      requires Valid()
      modifies this, store.Repr
      ensures Valid() && store.Repr == old(store.Repr)
      ensures var o := GetOutcome(old(View()), key, sourceVersion, now);
              found == Answer(o) && View() == AfterGet(old(View()), key, o)
    {
      hide UnifiedObjectStore.Valid, GetOutcome;
      var outcome := Examine(key, sourceVersion, now);
      if outcome.Hit? {
        Record(index, counters.(hits := counters.hits + 1));
        return Some(outcome.artifact);
      }
      if outcome.Expired? {
        ExpiredIsIndexed(View(), key, sourceVersion, now);
        Expire(key);
        return None;
      }
      Record(if outcome.Dangling? then index - {key} else index, counters.(misses := counters.misses + 1));
      return None;
    }

    static lemma ExpiredIsIndexed(c: Cache, key: Key, version: Option<string>, now: real)
      ensures GetOutcome(c, key, version, now).Expired? ==> key in c.index
    {
    }

    method Expire(key: Key)
      requires Valid() && key in index
      modifies this, store.Repr
      ensures Valid() && store.Repr == old(store.Repr)
      ensures View() == AfterGet(old(View()), key, Expired)
    {
      hide UnifiedObjectStore.Valid;
      var _ := DropKey(key);
      Record(index, counters.(misses := counters.misses + 1, expired := counters.expired + 1));
    }

    /** The checks of a get, in order, before anything changes. */
    method Examine(key: Key, sourceVersion: Option<string>, now: real) returns (outcome: Outcome)
      requires Valid()
      ensures outcome == GetOutcome(View(), key, sourceVersion, now)
    {
      if key !in index {
        return NoEntry;
      }
      var artifact := LoadArtifact(index[key]);
      if artifact.None? {
        return Dangling;
      }
      if sourceVersion.Some? && artifact.value.sourceVersion != sourceVersion.value {
        return OtherVersion;
      }
      if artifact.value.scope != key.scope {
        return OtherScope;
      }
      if artifact.value.IsExpired(now) {
        return Expired;
      }
      return Hit(artifact.value);
    }

    method InvalidateToolArtifacts(toolName: Option<string>, scope: Option<Scope>)
      returns (result: Result<nat, CacheError>)
      requires Valid()
      modifies this, store.Repr
      ensures Valid() && store.Repr == old(store.Repr)
      ensures toolName.Some? && Strip(toolName.value) == "" ==>
                result == Failure(EmptyToolName) && View() == old(View())
      ensures toolName.None? || Strip(toolName.value) != "" ==>
                var name := if toolName.None? then None else Some(Strip(toolName.value));
                var gone := |old(store.tools)| - |store.tools|;
                && result.Success? && result.value == gone
                && View() == Dropped(old(View()), MatchingKeys(old(index), name, scope)).(
                     counters := old(counters).(invalidated := old(counters).invalidated + gone))
    {
      var name := if toolName.None? then None else Some(Strip(toolName.value));
      if name == Some("") {
        return Failure(EmptyToolName);
      }
      hide UnifiedObjectStore.Valid, Dropped, MatchingKeys, Strip;
      var deleted := DropMatching(name, scope);
      return Success(deleted);
    }

    /** Drops the matching keys with their artifacts, and counts the artifacts that were there. */
    method DropMatching(toolName: Option<string>, scope: Option<Scope>) returns (deleted: nat)
      requires Valid()
      modifies this, store.Repr
      ensures Valid() && store.Repr == old(store.Repr)
      ensures deleted == |old(store.tools)| - |store.tools|
      ensures View() == Dropped(old(View()), MatchingKeys(old(index), toolName, scope)).(
                          counters := old(counters).(invalidated := old(counters).invalidated + deleted))
    {
      MatchingAreKeys(index, toolName, scope);
      hide UnifiedObjectStore.Valid, MatchingKeys;
      deleted := DropKeys(MatchingKeys(index, toolName, scope));
      Record(index, counters.(invalidated := counters.invalidated + deleted));
    }

    static lemma MatchingAreKeys(index: map<Key, string>, toolName: Option<string>, scope: Option<Scope>)
      ensures MatchingKeys(index, toolName, scope) <= index.Keys
    {
    }

    /** The deleting loop: each key leaves the index and its artifact the store. */
    method DropKeys(keys: set<Key>) returns (deleted: nat)
      requires Valid() && keys <= index.Keys
      modifies this, store.Repr
      ensures Valid() && store.Repr == old(store.Repr)
      ensures View() == Dropped(old(View()), keys)
      ensures deleted == |old(store.tools)| - |store.tools|
    {
      hide UnifiedObjectStore.Valid, Dropped;
      deleted := 0;
      var rest := keys;
      ghost var start := View();
      DroppedNone(start, keys);
      while rest != {}
        invariant rest <= keys && Valid() && store.Repr == old(store.Repr)
        invariant View() == Dropped(start, keys - rest)
        invariant deleted + |store.tools| == |start.artifacts|
      {
        var key :| key in rest;
        DroppedOneMore(start, keys, rest, key);
        var gone := DropKey(key);
        deleted := if gone then deleted + 1 else deleted;
        rest := rest - {key};
      }
      DroppedAll(start, keys);
    }

    method DropKey(key: Key) returns (deleted: bool)
      requires Valid() && key in index
      modifies this, store.Repr
      ensures Valid() && store.Repr == old(store.Repr)
      ensures View() == Cache(old(index) - {key}, old(store.tools) - {old(index)[key]}, old(counters))
      ensures |store.tools| == |old(store.tools)| - if deleted then 1 else 0
    {
      RemovedSize(store.tools, index[key]);
      deleted := DeleteArtifact(index[key]);
      Record(index - {key}, counters);
    }

    method PurgeExpired(now: real) returns (purged: nat)
      requires Valid()
      modifies this, store.Repr
      ensures Valid() && store.Repr == old(store.Repr)
      ensures purged == |old(store.tools)| - |store.tools|
      ensures View() == Purged(old(View()), now).(
                          counters := old(counters).(purged := old(counters).purged + purged))
    {
      hide UnifiedObjectStore.Valid;
      purged := 0;
      var rest := index.Keys;
      ghost var start := View();
      PurgedNone(start, now);
      while rest != {}
        invariant rest <= start.index.Keys && Valid() && store.Repr == old(store.Repr)
        invariant View() == PurgedSoFar(start, now, rest)
        invariant purged + |store.tools| == |start.artifacts|
      {
        var key :| key in rest;
        PurgedOneMore(start, now, rest, key);
        var gone := PurgeKey(key, now);
        purged := if gone then purged + 1 else purged;
        rest := rest - {key};
      }
      PurgedAll(start, now);
      Record(index, counters.(purged := counters.purged + purged));
    }

    /** The body of the purging loop. */
    method PurgeKey(key: Key, now: real) returns (deleted: bool)
      requires Valid() && key in index
      modifies this, store.Repr
      ensures Valid() && store.Repr == old(store.Repr)
      ensures View() == PurgedKey(old(View()), key, now)
      ensures |store.tools| == |old(store.tools)| - if deleted then 1 else 0
    {
      hide UnifiedObjectStore.Valid;
      deleted := false;
      var artifact := LoadArtifact(index[key]);
      if artifact.None? {
        Record(index - {key}, counters);
      } else if artifact.value.IsExpired(now) {
        deleted := DropKey(key);
      }
    }

    static function PurgedKey(c: Cache, key: Key, now: real): Cache
      requires key in c.index
    {
      var id := c.index[key];
      if id !in c.artifacts then c.(index := c.index - {key})
      else if c.artifacts[id].IsExpired(now) then Cache(c.index - {key}, c.artifacts - {id}, c.counters)
      else c
    }

    static function PurgedSoFar(c: Cache, now: real, rest: set<Key>): Cache {
      Dropped(c, ExpiredKeys(c, now) + DanglingKeys(c) - rest)
    }

    static lemma PurgedNone(c: Cache, now: real)
      ensures PurgedSoFar(c, now, c.index.Keys) == c
    {
      assert ExpiredKeys(c, now) + DanglingKeys(c) - c.index.Keys == {};
      assert IdsOf(c.index, {}) == {};
    }

    static lemma PurgedAll(c: Cache, now: real)
      ensures PurgedSoFar(c, now, {}) == Purged(c, now)
    {
      assert ExpiredKeys(c, now) + DanglingKeys(c) - {} == ExpiredKeys(c, now) + DanglingKeys(c);
    }

    static lemma PurgedOneMore(c: Cache, now: real, rest: set<Key>, key: Key)
      requires key in rest && rest <= c.index.Keys
      ensures key in PurgedSoFar(c, now, rest).index
      ensures PurgedSoFar(c, now, rest - {key}) == PurgedKey(PurgedSoFar(c, now, rest), key, now)
    {
      var gone := ExpiredKeys(c, now) + DanglingKeys(c);
      var id := c.index[key];
      if key in gone {
        assert gone - (rest - {key}) == (gone - rest) + {key};
        assert IdsOf(c.index, (gone - rest) + {key}) == IdsOf(c.index, gone - rest) + {id};
      } else {
        assert gone - (rest - {key}) == gone - rest;
        assert id !in IdsOf(c.index, gone - rest);
      }
    }

    /** Over any stored artifacts, however many share a key; those whose ids the listing cannot name
        are neither indexed nor purged. */
    method RebuildIndex(now: real) returns (indexed: nat)
      requires Valid()
      modifies this, store.Repr
      ensures Valid() && store.Repr == old(store.Repr)
      ensures Rebuilds(old(View()), now, index, store.tools)
      ensures indexed == |index|
      ensures counters.purged + |store.tools| == old(counters).purged + |old(store.tools)|
      ensures counters == old(counters).(reindexed := old(counters).reindexed + indexed, purged := counters.purged)
    {
      hide UnifiedObjectStore.Valid, RebuiltSoFar, Reindexed, Swept, Rebuilds, SelfNamed;
      ghost var start := View();
      var ids := ListTools();
      Record(map[], counters);
      indexed := 0;
      NothingRebuilt(start.artifacts, now);
      for i := 0 to |ids|
        invariant Valid() && store.Repr == old(store.Repr)
        invariant RebuiltSoFar(start.artifacts, ids[..i], now, index, store.tools)
        invariant indexed == |index|
        invariant counters.purged + |store.tools| == start.counters.purged + |start.artifacts|
        invariant counters == start.counters.(purged := counters.purged)
      {
        assert ids[..i + 1] == ids[..i] + [ids[i]];
        RebuildOneMore(start.artifacts, ids[..i], ids[i], now, index, store.tools);
        var added := RebuildOne(ids[i], now);
        indexed := if added then indexed + 1 else indexed;
      }
      RebuildDone(start, ids[..|ids|], now, index, store.tools);
      Record(index, counters.(reindexed := counters.reindexed + indexed));
    }

    method ListTools() returns (ids: seq<string>)
      requires Valid()
      ensures SelfNamed(store.tools) && Distinct(ids) && SortedBy(ids, StrLe)
      ensures forall id :: id in store.tools ==> (id in ids <==> Listable(id))
    {
      ids := store.ListIds(ToolArtifact);
      forall id | id in store.tools ensures id in ids <==> Listable(id) {
        ListedExactlyIfListable(id);
        assert id in ids <==> id in ToSet(ids);
      }
    }

    lemma ListedExactlyIfListable(id: string)
      requires Valid() && id in store.tools
      ensures id in Listed(store.prefix, store.backend.objects, ToolArtifact) <==> Listable(id)
    {
      if Listable(id) {
        ListableIsListed(store.prefix, store.backend.objects, ToolArtifact, id);
      }
      if id in Listed(store.prefix, store.backend.objects, ToolArtifact) {
        ListedIsListable(store.prefix, store.backend.objects, ToolArtifact, id);
      }
    }

    /** The body of the rebuilding loop. */
    method RebuildOne(id: string, now: real) returns (added: bool)
      requires Valid()
      modifies this, store.Repr
      ensures Valid() && store.Repr == old(store.Repr)
      ensures index == Reindexed(old(index), old(store.tools), id, now)
      ensures store.tools == Swept(old(store.tools), id, now)
      ensures |index| == |old(index)| + if added then 1 else 0
      ensures counters.purged + |store.tools| == old(counters).purged + |old(store.tools)|
      ensures counters == old(counters).(purged := counters.purged)
    {
      hide UnifiedObjectStore.Valid;
      added := false;
      var artifact := LoadArtifact(id);
      if artifact.None? {
        return;
      }
      if artifact.value.IsExpired(now) {
        RemovedSize(store.tools, id);
        var _ := DeleteArtifact(id);
        Record(index, counters.(purged := counters.purged + 1));
        return;
      }
      added := Reindex(artifact.value);
    }

    method Reindex(artifact: ToolCallArtifact) returns (added: bool)
      requires Valid()
      modifies this
      ensures Valid() && store.Repr == old(store.Repr) && store.tools == old(store.tools)
      ensures var key := KeyOf(artifact);
              index == if key !in old(index) || old(index)[key] !in store.tools
                          || artifact.expiresAt > store.tools[old(index)[key]].expiresAt
                       then old(index)[key := artifact.toolCallId] else old(index)
      ensures counters == old(counters) && |index| == |old(index)| + if added then 1 else 0
    {
      hide UnifiedObjectStore.Valid;
      var key := KeyOf(artifact);
      if key !in index {
        AddedSize(index, key, artifact.toolCallId);
        Record(index[key := artifact.toolCallId], counters);
        return true;
      }
      var current := LoadArtifact(index[key]);
      if current.None? || artifact.expiresAt > current.value.expiresAt {
        AddedSize(index, key, artifact.toolCallId);
        Record(index[key := artifact.toolCallId], counters);
      }
      return false;
    }

    static lemma AddedSize(m: map<Key, string>, key: Key, id: string)
      ensures |m[key := id]| == |m| + if key in m then 0 else 1
    {
      assert m[key := id].Keys == m.Keys + {key};
    }

    static lemma RemovedSize(m: Artifacts, id: string)
      ensures |m - {id}| == |m| - if id in m then 1 else 0
    {
      assert (m - {id}).Keys == m.Keys - {id};
    }

    static lemma DroppedNone(c: Cache, keys: set<Key>)
      ensures Dropped(c, keys - keys) == c
    {
      assert IdsOf(c.index, keys - keys) == {};
    }

    static lemma DroppedAll(c: Cache, keys: set<Key>)
      ensures Dropped(c, keys - {}) == Dropped(c, keys)
    {
      assert keys - {} == keys;
    }

    static lemma DroppedOneMore(c: Cache, keys: set<Key>, rest: set<Key>, key: Key)
      requires keys <= c.index.Keys && rest <= keys && key in rest
      ensures var d, e := Dropped(c, keys - rest), Dropped(c, keys - (rest - {key}));
              && key in d.index
              && e == Cache(d.index - {key}, d.artifacts - {d.index[key]}, d.counters)
    {
      assert keys - (rest - {key}) == (keys - rest) + {key};
      assert IdsOf(c.index, (keys - rest) + {key}) == IdsOf(c.index, keys - rest) + {c.index[key]};
    }
  }
}
