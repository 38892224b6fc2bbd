/** The label bookkeeping of `metadata/hnsw_index.py`. The nearest-neighbour library is reduced
    to the vectors it holds and the labels marked deleted; its answers are parameters. */
module HnswIndexes {
  import opened Collections
  import opened Wrappers

  datatype Embedding = Embedding(shape: seq<nat>, data: seq<real>)

  datatype AddError = CapacityReached | BadShape

  datatype Library = Library(vectors: map<nat, seq<real>>, deleted: set<nat>)

  datatype Slots = Slots(
    dim: nat,
    maxElements: nat,
    idToObject: map<nat, string>,
    objectToId: map<string, nat>,
    freeIds: seq<nat>,
    nextId: nat,
    index: Library)

  function EmptySlots(dim: nat, maxElements: nat): Slots {
    Slots(dim, maxElements, map[], map[], [], 0, Library(map[], {}))
  }

  predicate ShapeFits(dim: nat, e: Embedding) { e.shape == [dim] || e.shape == [1, dim] }

  function AddErrorOf(s: Slots, objectId: string, e: Embedding): Option<AddError> {
    if objectId in s.objectToId then None
    else if s.freeIds == [] && s.nextId >= s.maxElements then Some(CapacityReached)
    else if !ShapeFits(s.dim, e) then Some(BadShape)
    else None
  }

  function Stored(s: Slots, slot: nat, objectId: string, e: Embedding): Slots {
    s.(idToObject := s.idToObject[slot := objectId],
       objectToId := s.objectToId[objectId := slot],
       index := Library(s.index.vectors[slot := e.data], s.index.deleted - {slot}))
  }

  /** A new object takes the label freed last, or else the next unused one. */
  function Added(s: Slots, objectId: string, e: Embedding): Slots {
    if objectId in s.objectToId || AddErrorOf(s, objectId, e).Some? then s
    else if s.freeIds != [] then
      var last := |s.freeIds| - 1;
      Stored(s, s.freeIds[last], objectId, e).(freeIds := s.freeIds[..last])
    else
      Stored(s, s.nextId, objectId, e).(nextId := s.nextId + 1)
  }

  function Removed(s: Slots, objectId: string): Slots {
    if objectId !in s.objectToId then s
    else
      var slot := s.objectToId[objectId];
      s.(objectToId := s.objectToId - {objectId},
         idToObject := s.idToObject - {slot},
         index := s.index.(deleted := s.index.deleted + {slot}),
         freeIds := s.freeIds + [slot])
  }

  ghost predicate MutualInverses(s: Slots) {
    && (forall o :: o in s.objectToId ==> s.objectToId[o] in s.idToObject && s.idToObject[s.objectToId[o]] == o)
    && (forall l :: l in s.idToObject ==> s.idToObject[l] in s.objectToId && s.objectToId[s.idToObject[l]] == l)
  }

  /** Every label handed out is either live or free, never both, and free ones are listed once. */
  ghost predicate LabelsPartitioned(s: Slots) {
    && Distinct(s.freeIds)
    && (forall l :: l in s.freeIds ==> l !in s.idToObject)
    && (forall l: nat :: l < s.nextId <==> l in s.idToObject || l in s.freeIds)
    && s.nextId <= s.maxElements
  }

  /** The library holds a vector for every label and marks exactly the free ones deleted. */
  ghost predicate LibraryInStep(s: Slots) {
    && (forall l: nat :: l in s.index.vectors <==> l < s.nextId)
    && (forall l :: l in s.index.deleted <==> l in s.freeIds)
  }

  ghost predicate WellFormed(s: Slots) {
    MutualInverses(s) && LabelsPartitioned(s) && LibraryInStep(s)
  }

  lemma StoredInverses(s: Slots, slot: nat, objectId: string, e: Embedding)
    requires MutualInverses(s) && objectId !in s.objectToId && slot !in s.idToObject
    ensures MutualInverses(Stored(s, slot, objectId, e))
  {
  }

  /** Taking the label freed last. */
  lemma ReuseKeepsWellFormed(s: Slots, objectId: string, e: Embedding)
    requires WellFormed(s) && objectId !in s.objectToId && s.freeIds != []
    ensures var last := |s.freeIds| - 1;
            WellFormed(Stored(s, s.freeIds[last], objectId, e).(freeIds := s.freeIds[..last]))
  {
    var last := |s.freeIds| - 1;
    var slot, rest := s.freeIds[last], s.freeIds[..last];
    var t := Stored(s, slot, objectId, e).(freeIds := rest);
    assert s.freeIds == rest + [slot];
    assert slot in s.freeIds && slot !in rest;
    forall l ensures l in rest <==> l in s.freeIds && l != slot {
    }
    assert MutualInverses(t) by {
      StoredInverses(s, slot, objectId, e);
    }
    assert LabelsPartitioned(t) && LibraryInStep(t);
  }

  /** Taking the next unused label. */
  lemma FreshKeepsWellFormed(s: Slots, objectId: string, e: Embedding)
    requires WellFormed(s) && objectId !in s.objectToId && s.freeIds == [] && s.nextId < s.maxElements
    ensures WellFormed(Stored(s, s.nextId, objectId, e).(nextId := s.nextId + 1))
  {
    StoredInverses(s, s.nextId, objectId, e);
  }

  lemma AddKeepsWellFormed(s: Slots, objectId: string, e: Embedding)
    requires WellFormed(s)
    ensures WellFormed(Added(s, objectId, e))
  {
    hide WellFormed, Stored;
    if objectId !in s.objectToId && AddErrorOf(s, objectId, e).None? {
      if s.freeIds != [] {
        ReuseKeepsWellFormed(s, objectId, e);
      } else {
        FreshKeepsWellFormed(s, objectId, e);
      }
    }
  }

  lemma RemoveKeepsWellFormed(s: Slots, objectId: string)
    requires WellFormed(s)
    ensures WellFormed(Removed(s, objectId))
  {
  }

  lemma LiveAndFreeCount(s: Slots)
    requires WellFormed(s)
    ensures |s.idToObject| + |s.freeIds| == s.nextId
  {
    ToSetSize(s.freeIds);
    assert s.idToObject.Keys + ToSet(s.freeIds) == Below(s.nextId);
    assert s.idToObject.Keys !! ToSet(s.freeIds);
  }

  ghost function Below(n: nat): (ls: set<nat>)
    ensures forall l: nat :: l in ls <==> l < n
    ensures |ls| == n
  {
    if n == 0 then {} else Below(n - 1) + {n - 1}
  }

  /** Capacity is refused exactly when `maxElements` objects are live and the object is new. */
  lemma RefusedOnlyWhenFull(s: Slots, objectId: string, e: Embedding)
    requires WellFormed(s)
    ensures AddErrorOf(s, objectId, e) == Some(CapacityReached) <==>
              objectId !in s.objectToId && |s.objectToId| == s.maxElements
    ensures |s.objectToId| <= s.maxElements
  {
    LiveAndFreeCount(s);
    SameSize(s);
  }

  /** The two maps have the same number of entries. */
  lemma {:induction false} SameSize(s: Slots)
    requires MutualInverses(s)
    ensures |s.objectToId| == |s.idToObject|
    decreases |s.objectToId|
  {
    if s.objectToId.Keys == {} {
      forall l ensures l !in s.idToObject {
        if l in s.idToObject {
          assert false;
        }
      }
      assert s.idToObject.Keys == {};
    } else {
      var o :| o in s.objectToId.Keys;
      var l := s.objectToId[o];
      var t := s.(objectToId := s.objectToId - {o}, idToObject := s.idToObject - {l});
      assert |t.objectToId.Keys| == |s.objectToId.Keys| - 1 by {
        assert t.objectToId.Keys == s.objectToId.Keys - {o};
      }
      assert |t.idToObject.Keys| == |s.idToObject.Keys| - 1 by {
        assert t.idToObject.Keys == s.idToObject.Keys - {l};
      }
      SameSize(t);
    }
  }

  datatype Op = Add(objectId: string, embedding: Embedding) | Remove(objectId: string)

  function Run(dim: nat, maxElements: nat, ops: seq<Op>): Slots {
    if ops == [] then EmptySlots(dim, maxElements)
    else
      var before := Run(dim, maxElements, ops[..|ops| - 1]);
      match ops[|ops| - 1]
      case Add(id, e) => Added(before, id, e)
      case Remove(id) => Removed(before, id)
  }

  /** Every history of adds and removals leaves the allocator well formed. */
  lemma {:induction false} ReachableIsWellFormed(dim: nat, maxElements: nat, ops: seq<Op>)
    ensures WellFormed(Run(dim, maxElements, ops))
  {
    if ops != [] {
      var before := Run(dim, maxElements, ops[..|ops| - 1]);
      ReachableIsWellFormed(dim, maxElements, ops[..|ops| - 1]);
      match ops[|ops| - 1]
      case Add(id, e) => AddKeepsWellFormed(before, id, e);
      case Remove(id) => RemoveKeepsWellFormed(before, id);
    }
  }

  /** Reference: the embedding each live object was first added with since it was last absent. */
  function FirstEmbeddings(dim: nat, maxElements: nat, ops: seq<Op>): map<string, seq<real>> {
    if ops == [] then map[]
    else
      var before := Run(dim, maxElements, ops[..|ops| - 1]);
      var first := FirstEmbeddings(dim, maxElements, ops[..|ops| - 1]);
      match ops[|ops| - 1]
      case Add(id, e) => if id in first || AddErrorOf(before, id, e).Some? then first else first[id := e.data]
      case Remove(id) => first - {id}
  }

  /** However labels are recycled, a live object's label holds its own first embedding: re-adding a
      live object under a new embedding leaves the old one in place. */
  ghost predicate HoldsEmbeddings(s: Slots, first: map<string, seq<real>>) {
    && (forall o :: o in s.objectToId <==> o in first)
    && (forall o :: o in s.objectToId ==>
          s.objectToId[o] in s.index.vectors && s.index.vectors[s.objectToId[o]] == first[o])
  }

  lemma AddHoldsEmbeddings(s: Slots, first: map<string, seq<real>>, id: string, e: Embedding)
    requires WellFormed(s) && HoldsEmbeddings(s, first)
    ensures HoldsEmbeddings(Added(s, id, e),
                            if id in first || AddErrorOf(s, id, e).Some? then first else first[id := e.data])
  {
    if id !in first && AddErrorOf(s, id, e).None? {
      var slot := if s.freeIds != [] then s.freeIds[|s.freeIds| - 1] else s.nextId;
      assert slot !in s.idToObject;
    }
  }

  lemma {:induction false} LabelsHoldOwnEmbeddings(dim: nat, maxElements: nat, ops: seq<Op>)
    ensures HoldsEmbeddings(Run(dim, maxElements, ops), FirstEmbeddings(dim, maxElements, ops))
  {
    if ops != [] {
      var front, op := ops[..|ops| - 1], ops[|ops| - 1];
      ReachableIsWellFormed(dim, maxElements, front);
      LabelsHoldOwnEmbeddings(dim, maxElements, front);
      if op.Add? {
        AddHoldsEmbeddings(Run(dim, maxElements, front), FirstEmbeddings(dim, maxElements, front), op.objectId, op.embedding);
      }
    }
  }

  /** Adding a live id again under another embedding changes nothing. */
  lemma ReAddKeepsOldEmbedding()
    ensures var before, after := Embedding([1], [0.0]), Embedding([1], [1.0]);
            var s := Run(1, 8, [Add("a", before), Add("a", after)]);
            "a" in s.objectToId && s.objectToId["a"] in s.index.vectors && s.index.vectors[s.objectToId["a"]] == before.data
  {
    var before, after := Embedding([1], [0.0]), Embedding([1], [1.0]);
    var ops := [Add("a", before), Add("a", after)];
    assert ops[..1] == [Add("a", before)] && ops[..1][..0] == [];
    assert Run(1, 8, ops[..1]) == Added(EmptySlots(1, 8), "a", before);
  }

  datatype Hit = Hit(objectId: string, similarity: real)

  /** The library's contract for a query: distinct live labels, as many as asked for. */
  ghost predicate IsKnnAnswer(s: Slots, queryK: nat, labels: seq<nat>, distances: seq<real>) {
    && |labels| == |distances| == queryK
    && (forall i, j :: 0 <= i < j < |labels| ==> labels[i] != labels[j])
    && (forall l :: l in labels ==> l in s.idToObject)
  }

  /** The hits a library answer stands for: its live labels at or above the threshold, in order. */
  ghost function HitsOf(s: Slots, labels: seq<nat>, distances: seq<real>, threshold: real): (hits: seq<Hit>)
    requires |labels| == |distances|
  {
    if labels == [] then []
    else
      var last := |labels| - 1;
      var before := HitsOf(s, labels[..last], distances[..last], threshold);
      if labels[last] in s.idToObject && 1.0 - distances[last] >= threshold
      then before + [Hit(s.idToObject[labels[last]], 1.0 - distances[last])]
      else before
  }

  lemma HitsOfNone(s: Slots, threshold: real)
    ensures HitsOf(s, [], [], threshold) == []
  {
  }

  lemma HitsOfMore(s: Slots, labels: seq<nat>, distances: seq<real>, threshold: real, slot: nat, distance: real)
    requires |labels| == |distances|
    ensures HitsOf(s, labels + [slot], distances + [distance], threshold) ==
              if slot in s.idToObject && 1.0 - distance >= threshold
              then HitsOf(s, labels, distances, threshold) + [Hit(s.idToObject[slot], 1.0 - distance)]
              else HitsOf(s, labels, distances, threshold)
  {
    assert (labels + [slot])[..|labels|] == labels && (distances + [distance])[..|labels|] == distances;
  }

  ghost predicate DistinctLiveHits(s: Slots, labels: seq<nat>, hits: seq<Hit>, threshold: real) {
    && |hits| <= |labels|
    && (forall i, j :: 0 <= i < j < |hits| ==> hits[i].objectId != hits[j].objectId)
    && (forall h :: h in hits ==> h.objectId in s.objectToId && s.objectToId[h.objectId] in labels
                                  && h.similarity >= threshold)
  }

  /** The returned label at `i` is live and near enough. */
  predicate Qualifies(s: Slots, labels: seq<nat>, distances: seq<real>, threshold: real, i: nat) {
    i < |labels| == |distances| && labels[i] in s.idToObject && 1.0 - distances[i] >= threshold
  }

  /** The hits are exactly the qualifying labels, in their order, at one less the distance. */
  ghost predicate AreHits(s: Slots, labels: seq<nat>, distances: seq<real>, threshold: real, at: seq<nat>, hits: seq<Hit>) {
    && |at| == |hits| && (forall i: nat :: i in at <==> Qualifies(s, labels, distances, threshold, i))
    && (forall a, b :: 0 <= a < b < |at| ==> at[a] < at[b])
    && forall a :: 0 <= a < |at| ==>
         at[a] < |labels| == |distances| && labels[at[a]] in s.idToObject
         && hits[a] == Hit(s.idToObject[labels[at[a]]], 1.0 - distances[at[a]])
  }

  lemma {:induction false} HitsAreQualifying(s: Slots, labels: seq<nat>, distances: seq<real>, threshold: real) returns (at: seq<nat>)
    requires |labels| == |distances|
    ensures AreHits(s, labels, distances, threshold, at, HitsOf(s, labels, distances, threshold))
  {
    if labels == [] {
      at := [];
    } else {
      var n := |labels| - 1;
      at := HitsAreQualifying(s, labels[..n], distances[..n], threshold);
      assert forall i: nat :: Qualifies(s, labels[..n], distances[..n], threshold, i) <==>
                              i < n && Qualifies(s, labels, distances, threshold, i);
      if Qualifies(s, labels, distances, threshold, n) {
        assert forall a :: 0 <= a < |at| ==> at[a] in at;
        at := at + [n];
      }
    }
  }

  /** What is refused: a new object when the index is full, and an array that is not one vector of its
      dimension. */
  lemma AddRefused(s: Slots, objectId: string, e: Embedding)
    requires WellFormed(s)
    ensures var error, full := AddErrorOf(s, objectId, e), |s.objectToId| == s.maxElements;
            && (error == Some(CapacityReached) <==> objectId !in s.objectToId && full)
            && (error == Some(BadShape) <==> objectId !in s.objectToId && !full && e.shape != [s.dim] && e.shape != [1, s.dim])
            && (error == None || error.value in {CapacityReached, BadShape})
  {
    RefusedOnlyWhenFull(s, objectId, e);
  }

  /** Hits name distinct live objects, none below the threshold. */
  lemma {:induction false} HitsAreDistinctAndLive(s: Slots, labels: seq<nat>, distances: seq<real>, threshold: real)
    requires MutualInverses(s) && IsKnnAnswer(s, |labels|, labels, distances)
    ensures DistinctLiveHits(s, labels, HitsOf(s, labels, distances, threshold), threshold)
  {
    if labels != [] {
      var last := |labels| - 1;
      assert labels == labels[..last] + [labels[last]];
      assert labels[last] !in labels[..last];
      HitsAreDistinctAndLive(s, labels[..last], distances[..last], threshold);
    }
  }

  class HnswIndex {
    const dim: nat
    const maxElements: nat
    var idToObject: map<nat, string>
    var objectToId: map<string, nat>
    var freeIds: seq<nat>
    var nextId: nat
    var index: Library

    ghost function View(): Slots
      reads this
    {
      Slots(dim, maxElements, idToObject, objectToId, freeIds, nextId, index)
    }

    constructor (dim: nat, maxElements: nat)
      ensures View() == EmptySlots(dim, maxElements) && WellFormed(View())
    {
      this.dim, this.maxElements := dim, maxElements;
      idToObject, objectToId, freeIds, nextId := map[], map[], [], 0;
      index := Library(map[], {});
    }

    method Add(objectId: string, embedding: Embedding) returns (error: Option<AddError>)
      requires WellFormed(View())
      modifies this
      ensures WellFormed(View())
      ensures View() == Added(old(View()), objectId, embedding)
      ensures error == AddErrorOf(old(View()), objectId, embedding)
    {
      AddKeepsWellFormed(View(), objectId, embedding);
      if objectId in objectToId {
        return None;
      }
      if freeIds == [] && nextId >= maxElements {
        return Some(CapacityReached);
      }
      if !ShapeFits(dim, embedding) {
        return Some(BadShape);
      }
      var slot;
      if freeIds != [] {
        slot := freeIds[|freeIds| - 1];
        freeIds := freeIds[..|freeIds| - 1];
      } else {
        slot := nextId;
        nextId := nextId + 1;
      }
      index := Library(index.vectors[slot := embedding.data], index.deleted - {slot});
      idToObject := idToObject[slot := objectId];
      objectToId := objectToId[objectId := slot];
      return None;
    }

    method Remove(objectId: string) returns (removed: bool)
      requires WellFormed(View())
      modifies this
      ensures WellFormed(View())
      ensures View() == Removed(old(View()), objectId)
      ensures removed <==> objectId in old(objectToId)
    {
      RemoveKeepsWellFormed(View(), objectId);
      if objectId !in objectToId {
        return false;
      }
      var slot := objectToId[objectId];
      objectToId := objectToId - {objectId};
      idToObject := idToObject - {slot};
      index := index.(deleted := index.deleted + {slot});
      freeIds := freeIds + [slot];
      return true;
    }

    /** `labels` and `distances` are the library's answer for the `min(k, live)` nearest. */
    method Search(query: Embedding, k: int, threshold: real, labels: seq<nat>, distances: seq<real>)
      returns (results: Result<seq<Hit>, AddError>)
      requires WellFormed(View())
      requires k > 0 && idToObject != map[] ==>
                 IsKnnAnswer(View(), if k < |idToObject| then k else |idToObject|, labels, distances)
      ensures k <= 0 || idToObject == map[] ==> results == Success([])
      ensures k > 0 && idToObject != map[] && !ShapeFits(dim, query) ==> results == Failure(BadShape)
      ensures k > 0 && idToObject != map[] && ShapeFits(dim, query) ==>
                results == Success(HitsOf(View(), labels, distances, threshold)) && |results.value| <= k
    {
      if k <= 0 || idToObject == map[] {
        return Success([]);
      }
      if !ShapeFits(dim, query) {
        return Failure(BadShape);
      }
      hide WellFormed, HitsOf;
      var hits := CollectHits(k, threshold, labels, distances);
      return Success(hits);
    }

    /** The loop over the library's answer, which holds at most `k` labels. */
    method CollectHits(k: int, threshold: real, labels: seq<nat>, distances: seq<real>) returns (hits: seq<Hit>)
      requires |labels| == |distances| && |labels| <= k
      ensures hits == HitsOf(View(), labels, distances, threshold) && |hits| <= k
    {
      hide HitsOf;
      ghost var s := View();
      HitsOfNone(s, threshold);
      hits := [];
      for i := 0 to |labels|
        invariant hits == HitsOf(s, labels[..i], distances[..i], threshold) && |hits| <= i
      {
        assert labels[..i + 1] == labels[..i] + [labels[i]] && distances[..i + 1] == distances[..i] + [distances[i]];
        HitsOfMore(s, labels[..i], distances[..i], threshold, labels[i], distances[i]);
        if labels[i] in idToObject {
          var similarity := 1.0 - distances[i];
          if similarity >= threshold {
            hits := hits + [Hit(idToObject[labels[i]], similarity)];
          }
          if |hits| >= k {
            break;
          }
        }
      }
      assert labels[..|labels|] == labels && distances[..|labels|] == distances;
    }
  }
}
