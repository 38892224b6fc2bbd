/** What every history of puts and deletes keeps true of the store. */
module StoreTheorems {
  import opened ObjectTypes
  import opened StoreKeys
  import opened StoreModel
  import opened Text
  import opened Wrappers

  // Reference: which complete object each (kind, id) holds

  type Contents = map<(Kind, string), Stored>

  /** A put that succeeds replaces the object, one whose data write fails loses it, and one whose
      metadata write fails changes nothing. */
  function ContentsStep(c: Contents, op: Op): Contents {
    match op
    case OpPut(id, e, f) =>
      if Written(e.Kind(), f) then c[(e.Kind(), id) := e.Stored()]
      else if f.metaWrite then c
      else c - {(e.Kind(), id)}
    case OpDelete(kind, id) => c - {(kind, id)}
  }

  function ContentsAfter(ops: seq<Op>): Contents {
    if ops == [] then map[] else ContentsStep(ContentsAfter(ops[..|ops| - 1]), ops[|ops| - 1])
  }

  ghost predicate NoDoubleFault(ops: seq<Op>) {
    forall i :: 0 <= i < |ops| && ops[i].OpPut? && ops[i].entry.Kind().IsPair() ==> !ops[i].faults.Double()
  }

  /** The backend holds exactly the contents: metadata keys mark the complete objects. Data left
      behind by a rolled-back overwrite may remain. */
  ghost predicate Holds(prefix: Prefixes, objects: Objects, c: Contents) {
    forall kind: Kind, id ::
      && ((kind, id) in c <==> MetaKey(prefix, kind, id) in objects)
      && ((kind, id) in c ==> Lookup(prefix, objects, kind, id) == Some(c[(kind, id)]))
  }

  /** Keys of different objects are different. */
  lemma KeysApart(prefix: Prefixes, kind: Kind, id: string, kind': Kind, id': string)
    requires PrefixFree(prefix) && (kind, id) != (kind', id')
    ensures MetaKey(prefix, kind, id) !in KeysOf(prefix, kind', id')
    ensures DataKey(prefix, kind, id) !in KeysOf(prefix, kind', id')
  {
    MetaAndDataDiffer(prefix, kind, id, kind', id');
    MetaAndDataDiffer(prefix, kind', id', kind, id);
    if MetaKey(prefix, kind, id) == MetaKey(prefix, kind', id') {
      MetaKeyInjective(prefix, kind, id, kind', id');
    }
    if DataKey(prefix, kind, id) == DataKey(prefix, kind', id') {
      DataKeyInjective(prefix, kind, id, kind', id');
    }
  }

  ghost predicate AgreeOutside(before: Objects, after: Objects, keys: set<string>) {
    forall key :: key !in keys ==>
      (key in after <==> key in before) && (key in before ==> after[key] == before[key])
  }

  /** An operation touches only the keys of its own object. */
  lemma StepFrames(env: Env, s: Store, op: Op)
    requires OpValid(op)
    ensures var kind := if op.OpPut? then op.entry.Kind() else op.kind;
            AgreeOutside(s.objects, Step(env, s, op).objects, KeysOf(env.prefix, kind, op.id))
  {
  }

  lemma OthersKeepLookup(env: Env, s: Store, op: Op, kind: Kind, id: string)
    requires env.Valid() && OpValid(op)
    requires (kind, id) != (if op.OpPut? then op.entry.Kind() else op.kind, op.id)
    ensures var after := Step(env, s, op).objects;
            && (MetaKey(env.prefix, kind, id) in after <==> MetaKey(env.prefix, kind, id) in s.objects)
            && (DataKey(env.prefix, kind, id) in after <==> DataKey(env.prefix, kind, id) in s.objects)
            && Lookup(env.prefix, after, kind, id) == Lookup(env.prefix, s.objects, kind, id)
  {
    StepFrames(env, s, op);
    KeysApart(env.prefix, kind, id, if op.OpPut? then op.entry.Kind() else op.kind, op.id);
  }

  /** What a put leaves of its own object. */
  lemma PutLookup(env: Env, s: Store, id: string, e: Entry, f: Faults)
    requires PutsArray(e) && (e.Kind().IsPair() ==> !f.Double())
    ensures var kind, after := e.Kind(), Put(env, s, id, e, f).objects;
            Lookup(env.prefix, after, kind, id) ==
              if Written(kind, f) then Some(e.Stored())
              else if f.metaWrite then Lookup(env.prefix, s.objects, kind, id)
              else None
    ensures var kind, after := e.Kind(), Put(env, s, id, e, f).objects;
            MetaKey(env.prefix, kind, id) in after <==>
              Written(kind, f) || (f.metaWrite && MetaKey(env.prefix, kind, id) in s.objects)
  {
    MetaAndDataDiffer(env.prefix, e.Kind(), id, e.Kind(), id);
  }

  lemma StepHolds(env: Env, s: Store, c: Contents, op: Op)
    requires env.Valid() && OpValid(op) && Holds(env.prefix, s.objects, c)
    requires op.OpPut? && op.entry.Kind().IsPair() ==> !op.faults.Double()
    ensures Holds(env.prefix, Step(env, s, op).objects, ContentsStep(c, op))
  {
    var objects, c' := Step(env, s, op).objects, ContentsStep(c, op);
    forall kind: Kind, id
      ensures (kind, id) in c' <==> MetaKey(env.prefix, kind, id) in objects
      ensures (kind, id) in c' ==> Lookup(env.prefix, objects, kind, id) == Some(c'[(kind, id)])
    {
      if (kind, id) != (if op.OpPut? then op.entry.Kind() else op.kind, op.id) {
        OthersKeepLookup(env, s, op, kind, id);
      } else if op.OpPut? {
        PutLookup(env, s, op.id, op.entry, op.faults);
      }
    }
  }

  lemma {:induction false} RunHolds(env: Env, ops: seq<Op>)
    requires env.Valid() && OpsValid(ops) && NoDoubleFault(ops)
    ensures Holds(env.prefix, Run(env, ops).objects, ContentsAfter(ops))
  {
    if ops != [] {
      var front, last := ops[..|ops| - 1], ops[|ops| - 1];
      RunHolds(env, front);
      StepHolds(env, Run(env, front), ContentsAfter(front), last);
    }
  }

  // The Bloom gate

  /** The key a put writes last. */
  function LastKey(prefix: Prefixes, kind: Kind, id: string): string {
    if kind.IsPair() then DataKey(prefix, kind, id) else MetaKey(prefix, kind, id)
  }

  /** Every id whose object could be complete was added to the filter. */
  ghost predicate Gated(prefix: Prefixes, s: Store) {
    forall kind: Kind, id :: LastKey(prefix, kind, id) in s.objects ==> id in s.metadata.added
  }

  lemma StepKeepsGated(env: Env, s: Store, op: Op)
    requires env.Valid() && OpValid(op) && Gated(env.prefix, s)
    ensures Gated(env.prefix, Step(env, s, op))
  {
    forall kind: Kind, id | LastKey(env.prefix, kind, id) in Step(env, s, op).objects
      ensures id in Step(env, s, op).metadata.added
    {
      if (kind, id) != (if op.OpPut? then op.entry.Kind() else op.kind, op.id) {
        OthersKeepLookup(env, s, op, kind, id);
      } else {
        MetaAndDataDiffer(env.prefix, kind, id, kind, id);
      }
      assert LastKey(env.prefix, kind, id) in s.objects ==> id in s.metadata.added;
    }
  }

  lemma {:induction false} RunIsGated(env: Env, ops: seq<Op>)
    requires env.Valid() && OpsValid(ops)
    ensures Gated(env.prefix, Run(env, ops))
  {
    if ops != [] {
      RunIsGated(env, ops[..|ops| - 1]);
      StepKeepsGated(env, Run(env, ops[..|ops| - 1]), ops[|ops| - 1]);
    }
  }

  /** In a gated store the filter never changes an answer. */
  lemma GatedGet(env: Env, s: Store, kind: Kind, id: string)
    requires env.Valid() && Gated(env.prefix, s)
    ensures Get(env, s, kind, id) == Lookup(env.prefix, s.objects, kind, id)
  {
    if id in s.metadata.added {
      env.bloom.AddedIsReported(s.metadata.added, id);
    } else {
      assert LastKey(env.prefix, kind, id) !in s.objects;
    }
  }

  /** The filter never changes an answer, whatever writes failed. */
  lemma GateIsTransparent(env: Env, ops: seq<Op>, kind: Kind, id: string)
    requires env.Valid() && OpsValid(ops)
    ensures Get(env, Run(env, ops), kind, id) == Lookup(env.prefix, Run(env, ops).objects, kind, id)
  {
    RunIsGated(env, ops);
    GatedGet(env, Run(env, ops), kind, id);
  }

  /** Every get answers from the reference contents of its own kind: never a torn pair, never an
      object of another kind, never lost to the filter. */
  lemma GetIsReference(env: Env, ops: seq<Op>, kind: Kind, id: string)
    requires env.Valid() && OpsValid(ops) && NoDoubleFault(ops)
    ensures var c := ContentsAfter(ops);
            Get(env, Run(env, ops), kind, id) == if (kind, id) in c then Some(c[(kind, id)]) else None
  {
    GateIsTransparent(env, ops, kind, id);
    RunHolds(env, ops);
  }

  // Torn pairs

  /** A put leaves a torn pair, neither the old object nor the new one nor nothing, exactly when both
      the data write and the rollback raise over older data that pairs with the new metadata in
      neither of the two. */
  lemma TornExactlyOnDoubleFault(env: Env, s: Store, id: string, e: Entry, f: Faults)
    requires PutsArray(e)
    ensures var kind := e.Kind();
            var before := Lookup(env.prefix, s.objects, kind, id);
            var after := Lookup(env.prefix, Put(env, s, id, e, f).objects, kind, id);
            var dataKey := DataKey(env.prefix, kind, id);
            after != before && after != Some(e.Stored()) && after != None <==>
              && kind.IsPair() && f.Double()
              && dataKey in s.objects && s.objects[dataKey] != e.DataBlob()
              && before != Some(Pair(e.MetaBlob(), s.objects[dataKey]))
  {
    MetaAndDataDiffer(env.prefix, e.Kind(), id, e.Kind(), id);
    if !(e.Kind().IsPair() && f.Double()) {
      PutLookup(env, s, id, e, f);
    }
  }

  /** New metadata with old tensors: a block is overwritten, and its data write and the rollback both
      fail. */
  lemma DoubleFaultTearsPair(env: Env, before: KvBlock, after: KvBlock)
    requires env.Valid()
    ensures var ops := [OpPut("a", KvEntry(before, "x"), NO_FAULTS), OpPut("a", KvEntry(after, "y"), Faults(false, true, true))];
            Get(env, Run(env, ops), KvCache, "a") == Some(Pair(KvMeta(after), Plain("x")))
  {
    var put, torn := OpPut("a", KvEntry(before, "x"), NO_FAULTS), OpPut("a", KvEntry(after, "y"), Faults(false, true, true));
    assert [put, torn][..1] == [put] && [put][..0] == [];
    MetaAndDataDiffer(env.prefix, KvCache, "a", KvCache, "a");
    GateIsTransparent(env, [put, torn], KvCache, "a");
  }

  // Listing

  /** Every backend key belongs to some object. */
  ghost predicate Named(prefix: Prefixes, objects: Objects) {
    forall key :: key in objects ==> exists kind, id :: key in KeysOf(prefix, kind, id)
  }

  lemma {:induction false} RunIsNamed(env: Env, ops: seq<Op>)
    requires OpsValid(ops)
    ensures Named(env.prefix, Run(env, ops).objects)
  {
    if ops != [] {
      var s, op := Run(env, ops[..|ops| - 1]), ops[|ops| - 1];
      RunIsNamed(env, ops[..|ops| - 1]);
      StepFrames(env, s, op);
      var kind := if op.OpPut? then op.entry.Kind() else op.kind;
      forall key | key in Step(env, s, op).objects
        ensures exists kind, id :: key in KeysOf(env.prefix, kind, id)
      {
        assert key in s.objects || key in KeysOf(env.prefix, kind, op.id);
      }
    }
  }

  lemma KeyOfKind(prefix: Prefixes, kind: Kind, key: string, kind': Kind, id: string)
    requires PrefixFree(prefix) && key in KeysOf(prefix, kind', id) && prefix(kind) <= key
    ensures kind == kind'
  {
    if key == MetaKey(prefix, kind', id) {
      assert key == prefix(kind') + (id + ".meta.json");
      KeyStart(prefix, kind', kind, id + ".meta.json");
    } else {
      assert key == prefix(kind') + (id + "." + kind'.DataExt());
      KeyStart(prefix, kind', kind, id + "." + kind'.DataExt());
    }
  }

  predicate Listable(id: string) { id != "" && DotFree(id) }

  lemma KeyNamesItsId(prefix: Prefixes, objects: Objects, kind: Kind, key: string, id: string)
    requires key in objects && key in KeysOf(prefix, kind, id)
    ensures HasKey(prefix, objects, kind, id)
    ensures prefix(kind) <= key && ListedId(prefix, kind, key) == FirstSegment(id)
  {
    ListedIdOfKey(prefix, kind, id);
  }

  /** A listed name was read off the key of some object. */
  lemma ListedFrom(prefix: Prefixes, objects: Objects, kind: Kind, listed: string) returns (id: string)
    requires PrefixFree(prefix) && Named(prefix, objects)
    requires listed in Listed(prefix, objects, kind)
    ensures HasKey(prefix, objects, kind, id) && listed == FirstSegment(id)
  {
    var key :| key in objects && prefix(kind) <= key && ListedId(prefix, kind, key) == listed;
    var kind';
    kind', id :| key in KeysOf(prefix, kind', id);
    KeyOfKind(prefix, kind, key, kind', id);
    KeyNamesItsId(prefix, objects, kind, key, id);
  }

  /** Every object with a key is listed under the first segment of its id, if that is not empty. */
  lemma ListedUnderFirstSegment(prefix: Prefixes, objects: Objects, kind: Kind, id: string)
    requires HasKey(prefix, objects, kind, id) && FirstSegment(id) != ""
    ensures FirstSegment(id) in Listed(prefix, objects, kind)
  {
    ListedIdOfKey(prefix, kind, id);
  }

  lemma ListableIsListed(prefix: Prefixes, objects: Objects, kind: Kind, id: string)
    requires HasKey(prefix, objects, kind, id) && Listable(id)
    ensures id in Listed(prefix, objects, kind)
  {
    ListedIdOfKey(prefix, kind, id);
  }

  lemma ListedIsListable(prefix: Prefixes, objects: Objects, kind: Kind, id: string)
    requires id in Listed(prefix, objects, kind)
    ensures Listable(id)
  {
  }

  /** An operation on one kind of object never changes what another kind lists. */
  lemma OthersKeepListing(env: Env, s: Store, op: Op, kind: Kind)
    requires env.Valid() && OpValid(op)
    requires kind != if op.OpPut? then op.entry.Kind() else op.kind
    ensures Listed(env.prefix, Step(env, s, op).objects, kind) == Listed(env.prefix, s.objects, kind)
  {
    var after := Step(env, s, op).objects;
    StepFrames(env, s, op);
    forall key | env.prefix(kind) <= key
      ensures (key in after <==> key in s.objects)
    {
      var own := if op.OpPut? then op.entry.Kind() else op.kind;
      if key in KeysOf(env.prefix, own, op.id) {
        KeyOfKind(env.prefix, kind, key, own, op.id);
        assert false;
      }
    }
  }
}
