/** What one call on the unified store does to the flat backend and the index, as functions. */
module StoreModel {
  import opened BloomFilters
  import opened MetadataStores
  import opened ObjectTypes
  import opened StoreKeys
  import opened Wrappers

  type Objects = map<string, Blob>

  datatype Env = Env(prefix: Prefixes, bloom: Params, expectedItems: nat) {
    ghost predicate Valid() { bloom.Valid() && PrefixFree(prefix) }
  }

  datatype Store = Store(objects: Objects, metadata: Metadata)

  const EMPTY_STORE := Store(map[], EMPTY_METADATA)

  /** Which backend writes of one put raise: the metadata write, the data write, and the delete
      that rolls the metadata back. */
  datatype Faults = Faults(metaWrite: bool, dataWrite: bool, rollback: bool) {
    predicate Double() { !metaWrite && dataWrite && rollback }
  }

  const NO_FAULTS := Faults(false, false, false)

  datatype PutError = BackendFailed | IndexFailed(error: SemanticError)

  predicate Written(kind: Kind, f: Faults) {
    !f.metaWrite && (kind.IsPair() ==> !f.dataWrite)
  }

  function WritePair(objects: Objects, metaKey: string, meta: Blob, dataKey: string, data: Blob, f: Faults): Objects {
    if f.metaWrite then objects
    else if !f.dataWrite then objects[metaKey := meta][dataKey := data]
    else if f.rollback then objects[metaKey := meta]
    else objects - {metaKey}
  }

  function WriteEntry(prefix: Prefixes, objects: Objects, id: string, e: Entry, f: Faults): Objects {
    var kind := e.Kind();
    if kind.IsPair() then
      WritePair(objects, MetaKey(prefix, kind, id), e.MetaBlob(), DataKey(prefix, kind, id), e.DataBlob(), f)
    else if f.metaWrite then objects
    else objects[MetaKey(prefix, kind, id) := e.MetaBlob()]
  }

  /** Embeddings have at least one axis; the source reads the length of the last. */
  predicate PutsArray(e: Entry) {
    (e.RagEntry? || e.SemanticEntry? || e.PlanEntry?) ==> e.embedding.shape != []
  }

  function Indexed(md: Metadata, expectedItems: nat, id: string, e: Entry): Metadata
    requires PutsArray(e)
  {
    match e
    case SemanticEntry(_, embedding) => SemanticEntryAdded(md, expectedItems, id, embedding)
    case KvEntry(block, _) => ObjectAdded(md, KvCache, id, block.tokenIds)
    case _ => ObjectAdded(md, e.Kind(), id, [])
  }

  function Put(env: Env, s: Store, id: string, e: Entry, f: Faults): Store
    requires PutsArray(e)
  {
    Store(WriteEntry(env.prefix, s.objects, id, e, f),
          if Written(e.Kind(), f) then Indexed(s.metadata, env.expectedItems, id, e) else s.metadata)
  }

  function PutErrorOf(env: Env, s: Store, id: string, e: Entry, f: Faults): Option<PutError>
    requires PutsArray(e)
  {
    if !Written(e.Kind(), f) then Some(BackendFailed)
    else if e.SemanticEntry? then
      match SemanticErrorOf(s.metadata, env.expectedItems, id, e.embedding)
      case None => None
      case Some(error) => Some(IndexFailed(error))
    else None
  }

  function KeysOf(prefix: Prefixes, kind: Kind, id: string): set<string> {
    if kind.IsPair() then {MetaKey(prefix, kind, id), DataKey(prefix, kind, id)}
    else {MetaKey(prefix, kind, id)}
  }

  /** Some key of the object is in the backend: enough for `delete` to find it and `list` to name it. */
  predicate HasKey(prefix: Prefixes, objects: Objects, kind: Kind, id: string) {
    || MetaKey(prefix, kind, id) in objects
    || (kind.IsPair() && DataKey(prefix, kind, id) in objects)
  }

  function Delete(env: Env, s: Store, kind: Kind, id: string): Store {
    Store(s.objects - KeysOf(env.prefix, kind, id),
          if HasKey(env.prefix, s.objects, kind, id) then ObjectRemoved(s.metadata, kind, id) else s.metadata)
  }

  /** The complete object in the backend, read without consulting the Bloom filter. */
  function Lookup(prefix: Prefixes, objects: Objects, kind: Kind, id: string): Option<Stored> {
    if MetaKey(prefix, kind, id) !in objects then None
    else if !kind.IsPair() then Some(Single(objects[MetaKey(prefix, kind, id)]))
    else if DataKey(prefix, kind, id) !in objects then None
    else Some(Pair(objects[MetaKey(prefix, kind, id)], objects[DataKey(prefix, kind, id)]))
  }

  ghost function Get(env: Env, s: Store, kind: Kind, id: string): Option<Stored>
    requires env.bloom.Valid()
  {
    if env.bloom.MightContain(s.metadata.added, id) then Lookup(env.prefix, s.objects, kind, id) else None
  }

  /** The ids `_list_ids` returns, as a set. */
  ghost function Listed(prefix: Prefixes, objects: Objects, kind: Kind): set<string> {
    NamesOf(prefix, objects.Keys, kind)
  }

  ghost function NamesOf(prefix: Prefixes, keys: set<string>, kind: Kind): set<string> {
    set key | key in keys && prefix(kind) <= key && ListedId(prefix, kind, key) != "" :: ListedId(prefix, kind, key)
  }

  // Histories

  datatype Op = OpPut(id: string, entry: Entry, faults: Faults) | OpDelete(kind: Kind, id: string)

  predicate OpValid(op: Op) {
    op.OpPut? ==> PutsArray(op.entry) && (op.entry.ToolEntry? ==> op.entry.artifact.toolCallId == op.id)
  }

  function Step(env: Env, s: Store, op: Op): Store
    requires OpValid(op)
  {
    match op
    case OpPut(id, e, f) => Put(env, s, id, e, f)
    case OpDelete(kind, id) => Delete(env, s, kind, id)
  }

  predicate OpsValid(ops: seq<Op>) {
    forall i :: 0 <= i < |ops| ==> OpValid(ops[i])
  }

  function Run(env: Env, ops: seq<Op>): Store
    requires OpsValid(ops)
  {
    if ops == [] then EMPTY_STORE else Step(env, Run(env, ops[..|ops| - 1]), ops[|ops| - 1])
  }
}
