/** When listing a kind returns exactly the objects a get can find. */
module ListingTheorems {
  import opened ObjectTypes
  import opened StoreKeys
  import opened StoreModel
  import opened StoreTheorems
  import opened Text
  import opened Wrappers

  /** The id is listed if and only if a complete object is stored under it. */
  ghost predicate ListsRightly(prefix: Prefixes, objects: Objects, kind: Kind, id: string) {
    id in Listed(prefix, objects, kind) <==> Lookup(prefix, objects, kind, id).Some?
  }

  ghost predicate ListsExactly(prefix: Prefixes, objects: Objects, kind: Kind) {
    forall id :: ListsRightly(prefix, objects, kind, id)
  }

  /** One key of a pair without the other: listed, but not there for a get. */
  predicate HalfPair(prefix: Prefixes, objects: Objects, kind: Kind, id: string) {
    HasKey(prefix, objects, kind, id) && Lookup(prefix, objects, kind, id).None?
  }

  /** A half pair is listed under the first segment of its id, which names no complete object. */
  predicate Misleads(prefix: Prefixes, objects: Objects, kind: Kind, id: string) {
    && HalfPair(prefix, objects, kind, id)
    && FirstSegment(id) != "" && Lookup(prefix, objects, kind, FirstSegment(id)).None?
  }

  /** Whatever writes failed, a listing is exact if and only if every complete object has a non-empty,
      dot-free id and no half pair misleads. */
  lemma ListingIsExact(env: Env, ops: seq<Op>, kind: Kind)
    requires env.Valid() && OpsValid(ops)
    ensures var objects := Run(env, ops).objects;
            ListsExactly(env.prefix, objects, kind) <==>
              && (forall id :: Lookup(env.prefix, objects, kind, id).Some? ==> Listable(id))
              && (forall id :: !Misleads(env.prefix, objects, kind, id))
  {
    var prefix, objects := env.prefix, Run(env, ops).objects;
    RunIsNamed(env, ops);
    if ListsExactly(prefix, objects, kind) {
      forall id | Lookup(prefix, objects, kind, id).Some? ensures Listable(id) {
        assert ListsRightly(prefix, objects, kind, id);
        ListedIsListable(prefix, objects, kind, id);
      }
      forall id | HalfPair(prefix, objects, kind, id) && FirstSegment(id) != ""
        ensures Lookup(prefix, objects, kind, FirstSegment(id)).Some?
      {
        ListedUnderFirstSegment(prefix, objects, kind, id);
        assert ListsRightly(prefix, objects, kind, FirstSegment(id));
      }
    } else {
      var id :| !ListsRightly(prefix, objects, kind, id);
      InexactHasCulprit(env, ops, kind, id);
    }
  }

  lemma InexactHasCulprit(env: Env, ops: seq<Op>, kind: Kind, id: string)
    requires env.Valid() && OpsValid(ops) && !ListsRightly(env.prefix, Run(env, ops).objects, kind, id)
    ensures var objects := Run(env, ops).objects;
            || (exists i :: Lookup(env.prefix, objects, kind, i).Some? && !Listable(i))
            || (exists i :: Misleads(env.prefix, objects, kind, i))
  {
    var prefix, objects := env.prefix, Run(env, ops).objects;
    RunIsNamed(env, ops);
    if Lookup(prefix, objects, kind, id).Some? {
      if Listable(id) {
        ListableIsListed(prefix, objects, kind, id);
      }
    } else {
      var owner := ListedFrom(prefix, objects, kind, id);
      ListedIsListable(prefix, objects, kind, id);
      assert Listable(owner) ==> owner == id;
      assert Lookup(prefix, objects, kind, owner).None? ==> Misleads(prefix, objects, kind, owner);
    }
  }

  // Which puts leave half a pair behind

  ghost predicate AllWhole(prefix: Prefixes, objects: Objects) {
    forall kind: Kind, id :: !HalfPair(prefix, objects, kind, id)
  }

  /** A put of a pair that loses its data write: rolled back over older data, which stays, or not
      rolled back where there was none. */
  predicate LeavesHalf(env: Env, s: Store, op: Op) {
    && op.OpPut? && op.entry.Kind().IsPair() && !op.faults.metaWrite && op.faults.dataWrite
    && (op.faults.rollback <==> DataKey(env.prefix, op.entry.Kind(), op.id) !in s.objects)
  }

  /** Exactly those puts break the pairing of keys. */
  lemma StepKeepsWhole(env: Env, s: Store, op: Op)
    requires env.Valid() && OpValid(op) && AllWhole(env.prefix, s.objects)
    ensures AllWhole(env.prefix, Step(env, s, op).objects) <==> !LeavesHalf(env, s, op)
  {
    var own := if op.OpPut? then op.entry.Kind() else op.kind;
    var after := Step(env, s, op).objects;
    MetaAndDataDiffer(env.prefix, own, op.id, own, op.id);
    assert !HalfPair(env.prefix, s.objects, own, op.id);
    assert HalfPair(env.prefix, after, own, op.id) <==> LeavesHalf(env, s, op);
    forall kind: Kind, id | (kind, id) != (own, op.id) ensures !HalfPair(env.prefix, after, kind, id) {
      OthersKeepLookup(env, s, op, kind, id);
      assert !HalfPair(env.prefix, s.objects, kind, id);
    }
  }

  ghost predicate RunLeavesNoHalf(env: Env, ops: seq<Op>)
    requires OpsValid(ops)
  {
    forall i :: 0 <= i < |ops| ==> !LeavesHalf(env, Run(env, ops[..i]), ops[i])
  }

  lemma {:induction false} RunKeepsWhole(env: Env, ops: seq<Op>)
    requires env.Valid() && OpsValid(ops) && RunLeavesNoHalf(env, ops)
    ensures AllWhole(env.prefix, Run(env, ops).objects)
  {
    if ops != [] {
      hide LeavesHalf;
      var front := ops[..|ops| - 1];
      forall i | 0 <= i < |front| ensures !LeavesHalf(env, Run(env, front[..i]), front[i]) {
        assert front[..i] == ops[..i];
      }
      RunKeepsWhole(env, front);
      StepKeepsWhole(env, Run(env, front), ops[|ops| - 1]);
    }
  }

  lemma WholeNeverMisleads(prefix: Prefixes, objects: Objects, kind: Kind, id: string)
    requires AllWhole(prefix, objects)
    ensures !Misleads(prefix, objects, kind, id)
  {
    assert !HalfPair(prefix, objects, kind, id);
  }

  lemma HeldIsComplete(prefix: Prefixes, objects: Objects, c: Contents, kind: Kind, id: string)
    requires Holds(prefix, objects, c)
    ensures (kind, id) in c <==> Lookup(prefix, objects, kind, id).Some?
  {
    assert (kind, id) in c <==> MetaKey(prefix, kind, id) in objects;
  }

  /** Over histories that leave no half pair, a listing returns exactly the reference contents if and
      only if all their ids are non-empty and dot-free. */
  lemma ListingMatchesContents(env: Env, ops: seq<Op>, kind: Kind)
    requires env.Valid() && OpsValid(ops) && NoDoubleFault(ops) && RunLeavesNoHalf(env, ops)
    ensures (forall id :: id in Listed(env.prefix, Run(env, ops).objects, kind) <==> (kind, id) in ContentsAfter(ops))
            <==> (forall id :: (kind, id) in ContentsAfter(ops) ==> Listable(id))
  {
    hide Lookup, Listed, Misleads, Holds, AllWhole, ContentsAfter, Run, RunLeavesNoHalf, NoDoubleFault, Listable;
    var objects, c := Run(env, ops).objects, ContentsAfter(ops);
    RunHolds(env, ops);
    RunKeepsWhole(env, ops);
    if forall id :: (kind, id) in c ==> Listable(id) {
      forall id
        ensures (Lookup(env.prefix, objects, kind, id).Some? ==> Listable(id)) && !Misleads(env.prefix, objects, kind, id)
      {
        HeldIsComplete(env.prefix, objects, c, kind, id);
        WholeNeverMisleads(env.prefix, objects, kind, id);
      }
      ListingIsExact(env, ops, kind);
      forall id ensures id in Listed(env.prefix, objects, kind) <==> (kind, id) in c {
        HeldIsComplete(env.prefix, objects, c, kind, id);
        assert ListsRightly(env.prefix, objects, kind, id);
      }
    }
    forall id | id in Listed(env.prefix, objects, kind) ensures Listable(id) {
      ListedIsListable(env.prefix, objects, kind, id);
    }
  }

  // Where listing fails

  lemma RunOfOne(env: Env, op: Op)
    requires OpValid(op)
    ensures Run(env, [op]) == Step(env, EMPTY_STORE, op)
  {
    assert [op][..0] == [];
  }

  lemma RunOfTwo(env: Env, first: Op, second: Op)
    requires OpValid(first) && OpValid(second)
    ensures Run(env, [first, second]) == Step(env, Step(env, EMPTY_STORE, first), second)
  {
    assert [first, second][..1] == [first];
    RunOfOne(env, first);
  }

  /** A block lost to a rolled-back overwrite is still listed, though no get finds it. */
  lemma LostBlockIsListed(env: Env, b: KvBlock)
    requires env.Valid()
    ensures var ops := [OpPut("a", KvEntry(b, "x"), NO_FAULTS), OpPut("a", KvEntry(b, "y"), Faults(false, true, false))];
            && NoDoubleFault(ops) && Listable("a")
            && "a" in Listed(env.prefix, Run(env, ops).objects, KvCache)
            && (KvCache, "a") !in ContentsAfter(ops) && Get(env, Run(env, ops), KvCache, "a") == None
  {
    var put, lost := OpPut("a", KvEntry(b, "x"), NO_FAULTS), OpPut("a", KvEntry(b, "y"), Faults(false, true, false));
    var ops := [put, lost];
    RunOfTwo(env, put, lost);
    assert ops[..1] == [put] && [put][..0] == [];
    MetaAndDataDiffer(env.prefix, KvCache, "a", KvCache, "a");
    ListableIsListed(env.prefix, Run(env, ops).objects, KvCache, "a");
  }

  /** A block whose id has a dot is listed under another name. */
  lemma DottedIdIsListedShort(env: Env, b: KvBlock)
    requires env.Valid()
    ensures var ops := [OpPut("a.b", KvEntry(b, "x"), NO_FAULTS)];
            && Get(env, Run(env, ops), KvCache, "a.b").Some? && "a.b" !in Listed(env.prefix, Run(env, ops).objects, KvCache)
            && Get(env, Run(env, ops), KvCache, "a").None? && "a" in Listed(env.prefix, Run(env, ops).objects, KvCache)
  {
    var put := OpPut("a.b", KvEntry(b, "x"), NO_FAULTS);
    RunOfOne(env, put);
    assert [put][..0] == [];
    GetIsReference(env, [put], KvCache, "a.b");
    GetIsReference(env, [put], KvCache, "a");
    ListedUnderFirstSegment(env.prefix, Run(env, [put]).objects, KvCache, "a.b");
    FirstSegmentOfDotted("a", "b");
    assert "a" + "." + "b" == "a.b";
    assert !DotFree("a.b") by { assert "a.b"[1] == '.'; }
  }
}
