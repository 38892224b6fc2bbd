/** The unified store of `core/object_store.py`. Its eight families of methods have two shapes,
    metadata with data and metadata alone; each shape is one set of methods here, taking the kind. */
module ObjectStores {
  import opened BloomFilters
  import opened Collections
  import opened MemoryBackends
  import opened MetadataStores
  import opened ObjectTypes
  import opened PrefixTrees
  import opened Sorting
  import opened StoreKeys
  import opened StoreModel
  import opened StoreTheorems
  import opened Text
  import opened ToolViews
  import opened Wrappers

  /** The attributes `prefetch_batch` reads off a decision, either of which may be missing. */
  datatype Decision = Decision(objectId: Option<string>, prefetchType: Option<string>)

  function KindOfPrefetch(prefetchType: Option<string>): Option<Kind> {
    match prefetchType
    case None => None
    case Some(t) =>
      if t == "kv_cache" then Some(KvCache)
      else if t == "rag" then Some(Rag)
      else if t == "semantic" then Some(SemanticCache)
      else if t == "tool_artifact" then Some(ToolArtifact)
      else if t == "plan_cache" then Some(PlanCache)
      else None
  }

  /** `i` is the first decision naming `id`, so the one that decides how `id` is fetched. */
  ghost predicate DecidesFetch(decisions: seq<Decision>, i: int, id: string) {
    && 0 <= i < |decisions| && id != "" && decisions[i].objectId == Some(id)
    && forall j :: 0 <= j < i ==> decisions[j].objectId != Some(id)
  }

  ghost function Fetched(env: Env, s: Store, prefetchType: Option<string>, id: string): Option<Stored>
    requires env.bloom.Valid()
  {
    var kind := KindOfPrefetch(prefetchType);
    if kind.None? then None else Get(env, s, kind.value, id)
  }

  function Found(results: map<string, Stored>, id: string): Option<Stored> {
    if id in results then Some(results[id]) else None
  }

  /** The result of a batch: each named id as its first decision says, if found, and nothing else. */
  ghost predicate IsBatch(env: Env, s: Store, decisions: seq<Decision>, results: map<string, Stored>)
    requires env.bloom.Valid()
  {
    && (forall i, id :: DecidesFetch(decisions, i, id) ==> Found(results, id) == Fetched(env, s, decisions[i].prefetchType, id))
    && (forall id :: id in results ==> exists i :: DecidesFetch(decisions, i, id))
  }

  /** A named id is decided at `i` or was decided before. */
  lemma {:induction false} FirstOrSeen(decisions: seq<Decision>, i: nat, id: string)
    requires i < |decisions| && id != "" && decisions[i].objectId == Some(id)
    ensures exists j :: j <= i && DecidesFetch(decisions, j, id)
  {
    if !DecidesFetch(decisions, i, id) {
      var j :| 0 <= j < i && decisions[j].objectId == Some(id);
      FirstOrSeen(decisions, j, id);
    }
  }

  class UnifiedObjectStore {
    const backend: MemoryBackend
    const metadata: MetadataStore
    const prefix: Prefixes
    ghost var Repr: set<object>
    ghost var tools: Tools  // the tool artifacts among the objects

    ghost function EnvOf(): Env {
      Env(prefix, metadata.bloom.params, metadata.expectedItems)
    }

    ghost predicate Valid()
      reads this, Repr, backend, metadata, metadata.bloom, metadata.prefixTree, metadata.hnsw
      ensures Valid() ==> this in Repr
    {
      && this in Repr && backend in Repr && metadata in Repr && metadata.Repr <= Repr
      && this !in metadata.Repr && backend !in metadata.Repr
      && metadata.Valid() && EnvOf().Valid()
      && Gated(prefix, View()) && ToolsAre(prefix, backend.objects, tools)
    }

    /** What an operation leaves valid, given what it did. */
    lemma StepStaysSound(op: Op)
      requires Valid() && OpValid(op)
      ensures Gated(prefix, Step(EnvOf(), View(), op))
      ensures ToolsAre(prefix, Step(EnvOf(), View(), op).objects, ToolsStep(tools, op))
    {
      StepKeepsGated(EnvOf(), View(), op);
      StepKeepsTools(EnvOf(), View(), tools, op);
    }

    ghost function View(): Store
      reads this, backend, metadata, metadata.bloom, metadata.prefixTree, metadata.hnsw
    {
      Store(backend.objects, metadata.View())
    }

    constructor (prefix: Prefixes, bloomParams: Params, expectedItems: nat)
      requires Env(prefix, bloomParams, expectedItems).Valid()
      ensures Valid() && fresh(Repr) && View() == EMPTY_STORE && tools == map[]
      ensures EnvOf() == Env(prefix, bloomParams, expectedItems)
    {
      this.prefix := prefix;
      backend := new MemoryBackend();
      metadata := new MetadataStore(bloomParams, expectedItems);
      new;
      Repr := {this, backend} + metadata.Repr;
      tools := map[];
    }

    // Metadata with data

    method WritePairToBackend(metaKey: string, meta: Blob, dataKey: string, data: Blob, faults: Faults)
      returns (written: bool)
      modifies backend
      ensures backend.objects == WritePair(old(backend.objects), metaKey, meta, dataKey, data, faults)
      ensures written <==> !faults.metaWrite && !faults.dataWrite
    {
      written := backend.Put(metaKey, meta, faults.metaWrite);
      if !written {
        return;
      }
      written := backend.Put(dataKey, data, faults.dataWrite);
      if !written && !faults.rollback {
        var _ := backend.Delete(metaKey);
        MapRestored(old(backend.objects), metaKey, meta);
      }
    }

    lemma MapRestored(objects: Objects, key: string, value: Blob)
      ensures objects[key := value] - {key} == objects - {key}
    {
    }

    /** `put_kv_block`, `put_rag_object` and `put_plan_cache_entry`. */
    method PutPair(objectId: string, entry: Entry, faults: Faults) returns (error: Option<PutError>)
      requires Valid() && PutsArray(entry) && (entry.KvEntry? || entry.RagEntry? || entry.PlanEntry?)
      modifies Repr
      ensures Valid() && fresh(Repr - old(Repr))
      ensures View() == Put(EnvOf(), old(View()), objectId, entry, faults) && tools == old(tools)
      ensures error == PutErrorOf(EnvOf(), old(View()), objectId, entry, faults)
    {
      hide MetadataStore.Valid, Gated, ToolsAre, MetaKey, DataKey;
      var kind := entry.Kind();
      StepStaysSound(OpPut(objectId, entry, faults));
      var written := WritePairToBackend(MetaKey(prefix, kind, objectId), entry.MetaBlob(),
                                        DataKey(prefix, kind, objectId), entry.DataBlob(), faults);
      if !written {
        return Some(BackendFailed);
      }
      metadata.OnObjectAdded(kind, objectId, if entry.KvEntry? then entry.block.tokenIds else []);
      Repr := Repr + metadata.Repr;
      return None;
    }

    method PutSemanticEntry(objectId: string, entry: Entry, faults: Faults) returns (error: Option<PutError>)
      requires Valid() && PutsArray(entry) && entry.SemanticEntry?
      modifies Repr
      ensures Valid() && fresh(Repr - old(Repr))
      ensures View() == Put(EnvOf(), old(View()), objectId, entry, faults) && tools == old(tools)
      ensures error == PutErrorOf(EnvOf(), old(View()), objectId, entry, faults)
    {
      hide MetadataStore.Valid, Gated, ToolsAre, MetaKey, DataKey, EnsuredSlots;
      StepStaysSound(OpPut(objectId, entry, faults));
      var written := WritePairToBackend(MetaKey(prefix, SemanticCache, objectId), entry.MetaBlob(),
                                        DataKey(prefix, SemanticCache, objectId), entry.DataBlob(), faults);
      if !written {
        return Some(BackendFailed);
      }
      var refused := metadata.OnSemanticEntryAdded(objectId, entry.embedding);
      Repr := Repr + metadata.Repr;
      return if refused.None? then None else Some(IndexFailed(refused.value));
    }

    // Metadata alone

    method PutMetaObject(objectId: string, entry: Entry, fails: bool) returns (error: Option<PutError>)
      requires Valid() && !entry.Kind().IsPair()
      requires entry.ToolEntry? ==> entry.artifact.toolCallId == objectId
      modifies Repr
      ensures Valid() && fresh(Repr - old(Repr))
      ensures View() == Put(EnvOf(), old(View()), objectId, entry, Faults(fails, false, false))
      ensures tools == ToolsStep(old(tools), OpPut(objectId, entry, Faults(fails, false, false)))
      ensures error.None? <==> !fails
    {
      hide MetadataStore.Valid, Gated, ToolsAre, MetaKey, DataKey;
      StepStaysSound(OpPut(objectId, entry, Faults(fails, false, false)));
      var written := backend.Put(MetaKey(prefix, entry.Kind(), objectId), entry.MetaBlob(), fails);
      if !written {
        return Some(BackendFailed);
      }
      metadata.OnObjectAdded(entry.Kind(), objectId, []);
      tools := ToolsStep(tools, OpPut(objectId, entry, Faults(fails, false, false)));
      Repr := Repr + metadata.Repr;
      return None;
    }

    method PutToolArtifact(artifact: ToolCallArtifact) returns (objectId: string)
      requires Valid()
      modifies Repr
      ensures Valid() && fresh(Repr - old(Repr))
      ensures objectId == artifact.toolCallId
      ensures View() == Put(EnvOf(), old(View()), objectId, ToolEntry(artifact), NO_FAULTS)
      ensures tools == old(tools)[objectId := artifact]
    {
      objectId := artifact.toolCallId;
      var _ := PutMetaObject(objectId, ToolEntry(artifact), false);
    }

    // Both

    /** Every `get_*`: nothing unless the Bloom filter may know the id, then one read or two. */
    method GetObject(kind: Kind, objectId: string) returns (stored: Option<Stored>)
      requires Valid()
      ensures stored == Get(EnvOf(), View(), kind, objectId)
    {
      var mightExist := metadata.MightExist(objectId);
      if !mightExist {
        return None;
      }
      var meta := backend.Get(MetaKey(prefix, kind, objectId));
      if meta.None? {
        return None;
      }
      if !kind.IsPair() {
        return Some(Single(meta.value));
      }
      var data := backend.Get(DataKey(prefix, kind, objectId));
      if data.None? {
        return None;
      }
      return Some(Pair(meta.value, data.value));
    }

    method GetToolArtifact(toolCallId: string) returns (artifact: Option<ToolCallArtifact>)
      requires Valid()
      ensures artifact == match Get(EnvOf(), View(), ToolArtifact, toolCallId)
                          case Some(Single(ToolMeta(a))) => Some(a)
                          case _ => None
    {
      var stored := GetObject(ToolArtifact, toolCallId);
      match stored {
        case Some(Single(ToolMeta(a))) => artifact := Some(a);
        case _ => artifact := None;
      }
    }

    /** Every `delete_*`: `delete_many` on the keys of a pair, one `delete` otherwise. */
    method DeleteObject(kind: Kind, objectId: string) returns (deleted: bool)
      requires Valid()
      modifies Repr
      ensures Valid() && Repr == old(Repr)
      ensures View() == Delete(EnvOf(), old(View()), kind, objectId)
      ensures tools == if kind == ToolArtifact then old(tools) - {objectId} else old(tools)
      ensures deleted <==> HasKey(prefix, old(backend.objects), kind, objectId)
    {
      hide MetadataStore.Valid, Gated, ToolsAre, MetaKey, DataKey, ObjectRemoved;
      StepStaysSound(OpDelete(kind, objectId));
      deleted := DeleteFromBackend(kind, objectId);
      if deleted {
        metadata.OnObjectRemoved(kind, objectId);
      }
    }

    method DeleteFromBackend(kind: Kind, objectId: string) returns (deleted: bool)
      requires Valid()
      modifies this`tools, backend
      ensures metadata.Valid() && metadata.View() == old(metadata.View())
      ensures backend.objects == old(backend.objects) - KeysOf(prefix, kind, objectId)
      ensures tools == ToolsStep(old(tools), OpDelete(kind, objectId))
      ensures deleted <==> HasKey(prefix, old(backend.objects), kind, objectId)
    {
      hide MetadataStore.Valid, Gated, ToolsAre, MetaKey, DataKey;
      tools := ToolsStep(tools, OpDelete(kind, objectId));
      deleted := DeleteKeys(kind, objectId);
    }

    method DeleteKeys(kind: Kind, objectId: string) returns (deleted: bool)
      modifies backend
      ensures backend.objects == old(backend.objects) - KeysOf(prefix, kind, objectId)
      ensures deleted <==> HasKey(prefix, old(backend.objects), kind, objectId)
    {
      if kind.IsPair() {
        var keys := [MetaKey(prefix, kind, objectId), DataKey(prefix, kind, objectId)];
        var count := backend.DeleteMany(keys);
        assert ToSet(keys) == KeysOf(prefix, kind, objectId);
        assert keys[0] in keys && keys[1] in keys;
        deleted := count > 0;
      } else {
        deleted := backend.Delete(MetaKey(prefix, kind, objectId));
      }
    }

    method ListIds(kind: Kind) returns (ids: seq<string>)
      requires Valid()
      ensures IsListing(ids, Listed(prefix, backend.objects, kind), StrLe)
    {
      var keys := backend.ListKeys(prefix(kind));
      var named: set<string> := {};
      for i := 0 to |keys|
        invariant named == NamesOf(prefix, ToSet(keys[..i]), kind)
      {
        assert keys[i] in ToSet(keys);
        assert keys[..i + 1] == keys[..i] + [keys[i]];
        ToSetSnoc(keys[..i], keys[i]);
        NamesOfMore(prefix, ToSet(keys[..i]), kind, keys[i]);
        var name := ListedId(prefix, kind, keys[i]);
        if name != "" {
          named := named + {name};
        }
      }
      assert keys[..|keys|] == keys;
      NamesOfPrefixed(prefix, backend.objects.Keys, kind);
      StrLeIsTotalOrder();
      ids := SortSet(named, StrLe);
    }

    static lemma NamesOfMore(prefix: Prefixes, keys: set<string>, kind: Kind, key: string)
      requires prefix(kind) <= key
      ensures var name := ListedId(prefix, kind, key);
              NamesOf(prefix, keys + {key}, kind) == NamesOf(prefix, keys, kind) + if name != "" then {name} else {}
    {
    }

    static lemma NamesOfPrefixed(prefix: Prefixes, keys: set<string>, kind: Kind)
      ensures NamesOf(prefix, (set key | key in keys && prefix(kind) <= key), kind) == NamesOf(prefix, keys, kind)
    {
    }

    // Prefix queries

    method FindKvPrefixMatches(tokenIds: Tokens) returns (ids: seq<string>)
      requires Valid()
      ensures forall id :: id in ids <==>
                exists m :: m in MatchSet(View().metadata.index.entries, tokenIds) && m.objectId == id
      ensures exists matches: seq<PrefixMatch> ::
                && IsSearchResult(matches, View().metadata.index.entries, tokenIds)
                && |ids| == |matches| && forall i :: 0 <= i < |ids| ==> ids[i] == matches[i].objectId
    {
      var matches := metadata.FindPrefixMatches(tokenIds);
      ids := seq(|matches|, i requires 0 <= i < |matches| => matches[i].objectId);
      forall m | m in MatchSet(View().metadata.index.entries, tokenIds) ensures m.objectId in ids {
        var i :| 0 <= i < |matches| && matches[i] == m;
        assert ids[i] == m.objectId;
      }
      forall id | id in ids
        ensures exists m :: m in MatchSet(View().metadata.index.entries, tokenIds) && m.objectId == id
      {
        var i :| 0 <= i < |ids| && ids[i] == id;
        assert matches[i] in matches;
      }
    }

    method FindKvLongestPrefix(tokenIds: Tokens) returns (id: Option<string>)
      requires Valid()
      ensures id.None? <==> MatchSet(View().metadata.index.entries, tokenIds) == {}
      ensures id.Some? ==> exists m ::
                && m in MatchSet(View().metadata.index.entries, tokenIds) && m.objectId == id.value
                && forall n :: n in MatchSet(View().metadata.index.entries, tokenIds) ==>
                     n.matchedLength <= m.matchedLength
    {
      var longest := metadata.FindLongestPrefix(tokenIds);
      id := if longest.None? then None else Some(longest.value.objectId);
    }

    // Batches

    /** Loads each named object once, the way its first decision says; what is missing is skipped. */
    method PrefetchBatch(decisions: seq<Decision>) returns (results: map<string, Stored>)
      requires Valid()
      ensures IsBatch(EnvOf(), View(), decisions, results)
    {
      hide MetadataStore.Valid, Gated, ToolsAre, Fetched, PrefixFree;
      results := map[];
      var seen: set<string> := {};
      ghost var env, s := EnvOf(), View();
      for i := 0 to |decisions|
        invariant forall id :: id in seen <==> exists j :: j < i && DecidesFetch(decisions, j, id)
        invariant results.Keys <= seen
        invariant forall j, id :: j < i && DecidesFetch(decisions, j, id) ==>
                    Found(results, id) == Fetched(env, s, decisions[j].prefetchType, id)
      {
        var d := decisions[i];
        if d.objectId.Some? && d.objectId.value != "" {
          FirstOrSeen(decisions, i, d.objectId.value);
          if d.objectId.value !in seen {
            seen := seen + {d.objectId.value};
            var loaded := PrefetchOne(d.objectId.value, d.prefetchType);
            if loaded.Some? {
              results := results[d.objectId.value := loaded.value];
            }
          }
        }
      }
    }

    method PrefetchOne(objectId: string, prefetchType: Option<string>) returns (loaded: Option<Stored>)
      requires Valid()
      ensures loaded == Fetched(EnvOf(), View(), prefetchType, objectId)
    {
      var kind := KindOfPrefetch(prefetchType);
      if kind.None? {
        return None;
      }
      loaded := GetObject(kind.value, objectId);
    }
  }
}
