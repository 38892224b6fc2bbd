/** The loop of `rebuild_index`, one listed id at a time. */
module ToolCacheRebuild {
  import opened ObjectTypes
  import opened StoreTheorems
  import opened Text
  import opened ToolCacheModel

  function Swept(artifacts: Artifacts, id: string, now: real): Artifacts {
    if id in artifacts && artifacts[id].IsExpired(now) then artifacts - {id} else artifacts
  }

  function Reindexed(index: map<Key, string>, artifacts: Artifacts, id: string, now: real): map<Key, string> {
    if id !in artifacts || artifacts[id].IsExpired(now) then index
    else
      var a, key := artifacts[id], KeyOf(artifacts[id]);
      if key !in index || index[key] !in artifacts || a.expiresAt > artifacts[index[key]].expiresAt
      then index[key := a.toolCallId]
      else index
  }

  /** The unexpired artifacts among the listed ids. */
  function LiveAmong(start: Artifacts, ids: seq<string>, now: real): Artifacts {
    map id | id in start && id in ids && !start[id].IsExpired(now) :: start[id]
  }

  ghost predicate PicksBest(index: map<Key, string>, live: Artifacts) {
    && (forall key :: key in index ==> Best(live, index[key]) && KeyOf(live[index[key]]) == key)
    && (forall id :: id in live ==> KeyOf(live[id]) in index)
  }

  /** After the listed ids: their expired artifacts are gone and each key has its best. */
  ghost predicate RebuiltSoFar(start: Artifacts, ids: seq<string>, now: real,
                               index: map<Key, string>, artifacts: Artifacts) {
    SweptSoFar(start, ids, now, artifacts) && PicksBest(index, LiveAmong(start, ids, now))
  }

  lemma NothingRebuilt(start: Artifacts, now: real)
    ensures RebuiltSoFar(start, [], now, map[], start)
  {
  }

  lemma LiveAmongMore(start: Artifacts, ids: seq<string>, id: string, now: real)
    ensures LiveAmong(start, ids + [id], now) ==
              if id in start && !start[id].IsExpired(now) then LiveAmong(start, ids, now)[id := start[id]]
              else LiveAmong(start, ids, now)
  {
  }

  /** A later id takes its key over only by expiring strictly later. */
  lemma PickOne(index: map<Key, string>, live: Artifacts, id: string, a: ToolCallArtifact)
    requires PicksBest(index, live) && id !in live
    requires forall other :: other in live ==> StrLe(other, id)
    ensures var key := KeyOf(a);
            var better := key !in index || a.expiresAt > live[index[key]].expiresAt;
            PicksBest(if better then index[key := id] else index, live[id := a])
  {
    var key, live' := KeyOf(a), live[id := a];
    var better := key !in index || a.expiresAt > live[index[key]].expiresAt;
    var index' := if better then index[key := id] else index;
    StrLeTotal(id, id);
    forall k | k in index' ensures Best(live', index'[k]) && KeyOf(live'[index'[k]]) == k {
      if k != key {
        assert Best(live, index[k]);
      } else if key in index {
        assert Best(live, index[key]);
      }
    }
  }

  /** The sweep: of the listed ids' artifacts, the expired ones are gone. */
  ghost predicate SweptSoFar(start: Artifacts, ids: seq<string>, now: real, artifacts: Artifacts) {
    && artifacts.Keys == (set id | id in start && !(id in ids && start[id].IsExpired(now)))
    && (forall id :: id in artifacts ==> artifacts[id] == start[id])
  }

  lemma SweepOneMore(start: Artifacts, ids: seq<string>, id: string, now: real, artifacts: Artifacts)
    requires SweptSoFar(start, ids, now, artifacts) && id !in ids
    ensures SweptSoFar(start, ids + [id], now, Swept(artifacts, id, now))
  {
  }

  lemma PicksAreStored(start: Artifacts, ids: seq<string>, now: real, index: map<Key, string>, artifacts: Artifacts)
    requires SweptSoFar(start, ids, now, artifacts) && PicksBest(index, LiveAmong(start, ids, now))
    ensures forall key :: key in index ==>
              index[key] in artifacts && artifacts[index[key]] == LiveAmong(start, ids, now)[index[key]]
  {
    forall key | key in index ensures index[key] in LiveAmong(start, ids, now) {
      assert Best(LiveAmong(start, ids, now), index[key]);
    }
  }

  lemma RebuildOneMore(start: Artifacts, ids: seq<string>, id: string, now: real,
                       index: map<Key, string>, artifacts: Artifacts)
    requires SelfNamed(start) && RebuiltSoFar(start, ids, now, index, artifacts)
    requires id !in ids && forall other :: other in ids ==> StrLe(other, id)
    ensures RebuiltSoFar(start, ids + [id], now,
                         Reindexed(index, artifacts, id, now), Swept(artifacts, id, now))
  {
    hide PicksBest, Swept, StrLe;
    var live := LiveAmong(start, ids, now);
    LiveAmongMore(start, ids, id, now);
    SweepOneMore(start, ids, id, now, artifacts);
    PicksAreStored(start, ids, now, index, artifacts);
    if id in start && !start[id].IsExpired(now) {
      PickOne(index, live, id, start[id]);
    }
  }

  /** The artifacts a rebuild sees: those whose ids the store's listing can name. */
  function Visible(artifacts: Artifacts): Artifacts {
    map id | id in artifacts && Listable(id) :: artifacts[id]
  }

  /** What a rebuild does: the index picks the best of the visible artifacts, the expired ones of
      them go, and the others are left alone. */
  ghost predicate Rebuilds(c: Cache, now: real, index: map<Key, string>, artifacts: Artifacts) {
    && IsRebuilt(c.(artifacts := Visible(c.artifacts)), now, index, Visible(artifacts))
    && artifacts - Visible(artifacts).Keys == c.artifacts - Visible(c.artifacts).Keys
  }

  lemma LiveAmongListed(start: Artifacts, ids: seq<string>, now: real, artifacts: Artifacts)
    requires SweptSoFar(start, ids, now, artifacts)
    requires forall id :: id in start ==> (id in ids <==> Listable(id))
    ensures LiveAmong(start, ids, now) == Unexpired(Visible(start), now) == Visible(artifacts)
    ensures artifacts - Visible(artifacts).Keys == start - Visible(start).Keys
  {
    hide Listable;
  }

  /** Once every listable id was listed, the rebuild is done. */
  lemma RebuildDone(c: Cache, ids: seq<string>, now: real, index: map<Key, string>, artifacts: Artifacts)
    requires RebuiltSoFar(c.artifacts, ids, now, index, artifacts)
    requires forall id :: id in c.artifacts ==> (id in ids <==> Listable(id))
    ensures Rebuilds(c, now, index, artifacts)
  {
    hide Listable, LiveAmong, Unexpired, Visible;
    LiveAmongListed(c.artifacts, ids, now, artifacts);
  }

  lemma VisibleOfListable(artifacts: Artifacts)
    requires forall id :: id in artifacts ==> Listable(id)
    ensures Visible(artifacts) == artifacts
  {
  }

  /** A rebuild keeps no artifact it did not find. */
  lemma RebuildShrinks(c: Cache, now: real, index: map<Key, string>, artifacts: Artifacts, id: string)
    requires Rebuilds(c, now, index, artifacts) && id in artifacts
    ensures id in c.artifacts && artifacts[id] == c.artifacts[id]
  {
    if Listable(id) {
      assert id in Visible(artifacts) && id in Visible(c.artifacts);
    } else {
      assert id in artifacts - Visible(artifacts).Keys;
    }
  }

  /** Where every id can be listed, a rebuild sees everything. */
  lemma AllVisible(c: Cache, now: real, index: map<Key, string>, artifacts: Artifacts)
    requires Rebuilds(c, now, index, artifacts) && forall id :: id in c.artifacts ==> Listable(id)
    ensures IsRebuilt(c, now, index, artifacts)
  {
    hide IsRebuilt, Listable;
    VisibleOfListable(c.artifacts);
    forall id | id in artifacts ensures Listable(id) {
      RebuildShrinks(c, now, index, artifacts, id);
    }
    VisibleOfListable(artifacts);
  }
}
