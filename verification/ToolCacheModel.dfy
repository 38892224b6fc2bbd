/** What each operation of `agent/tool_cache.py` does to the index and the stored artifacts. */
module ToolCacheModel {
  import opened ObjectTypes
  import opened Text
  import opened ToolCallIds
  import opened Wrappers

  datatype Key = Key(toolName: string, argsHash: string, scope: Scope)

  type Artifacts = map<string, ToolCallArtifact>

  datatype Counters = Counters(
    puts: nat, hits: nat, misses: nat, expired: nat, invalidated: nat, reindexed: nat, purged: nat)

  const ZERO := Counters(0, 0, 0, 0, 0, 0, 0)

  /** The index, and the tool artifacts in the store by id. */
  datatype Cache = Cache(index: map<Key, string>, artifacts: Artifacts, counters: Counters)

  function KeyOf(a: ToolCallArtifact): Key { Key(a.toolName, a.argsHash, a.scope) }

  function PayloadOf(a: ToolCallArtifact): string { Payload(a.toolName, a.argsHash, a.scope, a.sourceVersion) }

  function IdOf(digest: Digest, a: ToolCallArtifact): string {
    ToolCallId(digest, a.toolName, a.argsHash, a.scope, a.sourceVersion)
  }

  datatype CacheError = EmptyToolName | NonPositiveTtl | VersionRequired

  function CacheErrorOf(requireVersion: bool, toolName: string, ttl: real, version: string): Option<CacheError> {
    if Strip(toolName) == "" then Some(EmptyToolName)
    else if ttl <= 0.0 then Some(NonPositiveTtl)
    else if requireVersion && version == "" then Some(VersionRequired)
    else None
  }

  function NewArtifact(digest: Digest, toolName: string, args: string, output: string, ttl: real,
                       scope: Scope, version: string, now: real): ToolCallArtifact {
    var hash := digest(args);
    var name := Strip(toolName);
    ToolCallArtifact(ToolCallId(digest, name, hash, scope, version), name, hash, digest(output), output,
                     ttl, version, scope, now, now + ttl)
  }

  /** Stores the artifact, drops the one its key named before under another id, and re-indexes the key. */
  function Put(c: Cache, a: ToolCallArtifact): Cache {
    var key, id := KeyOf(a), a.toolCallId;
    var stored := c.artifacts[id := a];
    Cache(c.index[key := id],
          if key in c.index && c.index[key] != id then stored - {c.index[key]} else stored,
          c.counters.(puts := c.counters.puts + 1))
  }

  datatype Outcome = NoEntry | Dangling | OtherVersion | OtherScope | Expired | Hit(artifact: ToolCallArtifact)

  function GetOutcome(c: Cache, key: Key, version: Option<string>, now: real): Outcome {
    if key !in c.index then NoEntry
    else if c.index[key] !in c.artifacts then Dangling
    else
      var a := c.artifacts[c.index[key]];
      if version.Some? && a.sourceVersion != version.value then OtherVersion
      else if a.scope != key.scope then OtherScope
      else if a.IsExpired(now) then Expired
      else Hit(a)
  }

  function Answer(o: Outcome): Option<ToolCallArtifact> {
    if o.Hit? then Some(o.artifact) else None
  }

  /** A dangling key is forgotten; an expired artifact is deleted with its key. */
  function AfterGet(c: Cache, key: Key, o: Outcome): Cache {
    var missed := c.counters.(misses := c.counters.misses + 1);
    match o
    case Hit(_) => c.(counters := c.counters.(hits := c.counters.hits + 1))
    case Dangling => c.(index := c.index - {key}, counters := missed)
    case Expired =>
      if key in c.index then
        Cache(c.index - {key}, c.artifacts - {c.index[key]}, missed.(expired := missed.expired + 1))
      else c
    case _ => c.(counters := missed)
  }

  predicate Matches(key: Key, toolName: Option<string>, scope: Option<Scope>) {
    (toolName.None? || key.toolName == toolName.value) && (scope.None? || key.scope == scope.value)
  }

  function MatchingKeys(index: map<Key, string>, toolName: Option<string>, scope: Option<Scope>): set<Key> {
    set key | key in index && Matches(key, toolName, scope)
  }

  function IdsOf(index: map<Key, string>, keys: set<Key>): set<string> {
    set key | key in keys && key in index :: index[key]
  }

  /** Drops keys and the artifacts they name. */
  function Dropped(c: Cache, keys: set<Key>): Cache {
    Cache(c.index - keys, c.artifacts - IdsOf(c.index, keys), c.counters)
  }

  function ExpiredKeys(c: Cache, now: real): set<Key> {
    set key | key in c.index && c.index[key] in c.artifacts && c.artifacts[c.index[key]].IsExpired(now)
  }

  function DanglingKeys(c: Cache): set<Key> {
    set key | key in c.index && c.index[key] !in c.artifacts
  }

  /** Keys whose artifact is expired or missing go; expired artifacts are deleted. */
  function Purged(c: Cache, now: real): Cache {
    Dropped(c, ExpiredKeys(c, now) + DanglingKeys(c))
  }

  function Unexpired(artifacts: Artifacts, now: real): Artifacts {
    map id | id in artifacts && !artifacts[id].IsExpired(now) :: artifacts[id]
  }

  /** `id` is the artifact a rebuild picks for its key: none of the key expires later, and those that
      expire together come after it in the listing. */
  ghost predicate Best(live: Artifacts, id: string) {
    && id in live
    && forall other :: other in live && KeyOf(live[other]) == KeyOf(live[id]) ==>
         live[other].expiresAt < live[id].expiresAt
         || (live[other].expiresAt == live[id].expiresAt && StrLe(id, other))
  }

  /** The outcome of a rebuild: one best unexpired artifact per key, and only expired ones deleted. */
  ghost predicate IsRebuilt(c: Cache, now: real, index: map<Key, string>, artifacts: Artifacts) {
    && artifacts == Unexpired(c.artifacts, now)
    && (forall key :: key in index ==> Best(artifacts, index[key]) && KeyOf(artifacts[index[key]]) == key)
    && (forall id :: id in artifacts ==> KeyOf(artifacts[id]) in index)
  }

  /** Artifacts are stored under their own ids. */
  ghost predicate SelfNamed(artifacts: Artifacts) {
    forall id :: id in artifacts ==> artifacts[id].toolCallId == id
  }
}
