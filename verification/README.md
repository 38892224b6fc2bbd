# A model of l3store's in-memory indexes and policies

`l3store` keeps KV-cache blocks, RAG objects, semantic-cache entries and agent objects in one flat
key/value backend, and puts several stateful structures beside it that speed up or summarise something
simple: a trie and a Bloom filter over the stored blocks, a label allocator for a vector index, a
tool-result cache, two LRU caches, a latency estimator, and the retention, eviction and prefetch policies
built on a graph of agent steps. Each of these must agree with the simple thing it stands for over every
run. This project models those structures and proves that agreement, or proves exactly when it holds.

## How the model is organised

Every Python class whose methods update its fields is a Dafny `class` with those fields. Its `View()` (or
ghost `view`) is a value, each method states the whole new value as a function of the old one, and the
theorems about runs are lemmas over those functions and over arbitrary sequences of operations. The main
theorems speak of the calls, events or stored fields themselves: which put a get answers from, which
decision a timer fires for, which steps a prediction names.

| source | classes | model and theorems |
|---|---|---|
| `metadata/prefix_tree.py` | `PrefixTrees.PrefixTree`, `Node` (a heap of linked nodes) | `PrefixTreeRuns` |
| `metadata/bloom_filter.py`, `metadata/hnsw_index.py` | `BloomFilters.BloomFilter` (a byte array), `HnswIndexes.HnswIndex` | same modules |
| `storage/`, `metadata/metadata_store.py`, `core/object_store.py` | `MemoryBackend`, `MetadataStore`, `UnifiedObjectStore` | `StoreKeys`, `StoreModel`, `StoreTheorems`, `ListingTheorems`, `KvPrefixTheorems`, `SemanticTheorems`, `StorePuts`, `PrefetchBatchTheorems`, `ToolViews` |
| `agent/tool_cache.py` | `ToolCaches.ToolArtifactCache` | `ToolCallIds`, `ToolCacheModel`, `ToolCacheRebuild`, `ToolCacheTheorems`, `ToolCacheCalls`, `ToolCacheCounts` |
| `embeddings/cache.py`, `benchmarks/baselines/agentic.py` | `LruCaches.CachedEmbeddingService`, `AgentLruBaseline` | `LruModel` |
| `policies/agent/tool_latency_estimator.py` | `LatencyEstimators.ToolLatencyEstimator` | `Percentiles`, `LatencyModel`, `LatencyTheorems` |
| `policies/retention/agent_ttl.py` | `AgentTtl.AgentTTLPolicy` | `RetentionModel`, `RetentionTheorems`, `RetentionLedger` |
| `metadata/agent_step_graph.py` | `StepGraphs.AgentStepGraph`, `AgentStepNode` | `StepGraphModel`, `StepGraphTheorems`, `StepDistance`, `StepHistory` |
| `policies/eviction/workflow_aware.py` | `WorkflowEviction.WorkflowAwareEviction` | same module, `EvictionTheorems` |
| `policies/prefetch/agent_prefetch.py` | `AgentPrefetch.AgentPrefetchPolicy` | `AgentPrefetchModel`, `AgentPrefetchTheorems`, `PrefetchOrder`, `PrefetchRuns` |

`Wrappers`, `Collections`, `Sorting`, `Text` and `ObjectTypes` hold the shared vocabulary.

## Modelling choices

- Floats are `real`. The clock is an argument of each operation that reads it.
- Digests (Bloom hashes, the argument hash, the tool-call id, the embedding-cache key) are arbitrary
  functions. The source's digests are cut to sixteen hexadecimal digits, so none is injective; where a
  theorem needs one to tell texts apart, its `requires` names the run's own texts and no others.
- Serialisation and deserialisation are inverse: a backend value is what was serialised.
- A put names, per backend operation (metadata write, data write, rollback delete), whether it fails, so a
  history ranges over every pattern of backend failures.
- The eight families of `put_*`, `get_*`, `delete_*` and `list_*` in `object_store.py` differ only in
  their key prefix and in whether they store a pair or one metadata object. They are methods that
  take the kind.
- Tool arguments and outputs arrive as their canonical JSON text.
- `hnswlib` is assumed to be a map from labels to vectors: storing a vector under a label, whichever
  deleted element the library recycles for it, replaces what the map held there and nothing else. The
  labels and distances of a k-NN query are parameters, required to be distinct live labels.
- The latency estimator of a retention policy may have learned or been restored before, and others may
  record into it between the policy's own events (`RecordedElsewhere`).
- `prefetch_due` is the method `OnPrefetchTimer`, `_touch` is `Touch`, `steps_to_execution` is `StepsTo`.
- An `OrderedDict` is a sequence of keys, oldest first, beside a map.

## What the code does not promise

Each of these is a result about the code as it is, with the exact condition where one exists.

- **Stale trie entries** (`prefix_tree.py:37-38`). Re-inserting an id that is live under other, non-empty
  tokens leaves it at its old node. Searches are right throughout a history if and only if it has no
  such re-insert (`ExactThroughoutIffNoStaleReinserts`); `StaleIdIsReported` is one that has.
  `StepKeepsTrie` gives the guard for the store: a block stored with tokens must not be replaced by one
  with others, nor lost to a failed data write.
- **Torn pairs** (`object_store.py:46-52`). New metadata can meet old data only when the data write and
  the rollback delete both fail, the metadata write succeeds, and older, different data is there
  (`TornExactlyOnDoubleFault`; a history in `DoubleFaultTearsPair`).
- **Listing** (`object_store.py:107-114`). `_list_ids` names what has a key, not what a get can find. It is
  exact if and only if every complete object has a non-empty, dot-free id and no half of a pair is listed
  under a name without an object (`ListingIsExact`). A put leaves such a half exactly when its data write
  fails and it is rolled back over older data, or not rolled back where there was none (`StepKeepsWhole`).
  Histories: `LostBlockIsListed`, `DottedIdIsListedShort`. `rebuild_index` never sees, indexes or purges
  artifacts under ids that are empty or dotted.
- **Dangling index entries** (`object_store.py:46-52`). A put of an already indexed semantic entry whose
  data write fails leaves an id in the vector index that no longer loads (`StepKeepsHeld`; a history in
  `FailedReplacementDangles`).
- **Colliding tool-call ids** (`tool_cache.py:249-257`). The hashed text `tool:hash:scope:version` does not
  determine its parts when tool names contain colons. Two different tools can collide exactly when one
  name continues the other by a hash and a scope (`CollideExactlyWhenNested`), and then a get can return
  the other tool's result (`NestedNamesGiveWrongAnswer`).
- **Old embeddings** (`hnsw_index.py:58-60`). Adding an id that is already live keeps its first embedding
  (`LabelsHoldOwnEmbeddings`; an instance in `ReAddKeepsOldEmbedding`). A put whose indexing fails, for
  another dimension say, has replaced the stored entry all the same (`PutErrorTells`).
- **Restoring** (`tool_latency_estimator.py:171-194`). A restored profile counts only its window. Its
  statistics equal the original's exactly when the profile was never truncated (`RestoreKeepsWindowStats`;
  an instance in `TruncatedRestoreForgets`).
- **Shared component** (`workflow_aware.py:98-128`). A block's components are all fractions if and only if
  its sharing is no greater than the greatest met so far, or one (`ComponentsAreFractions`); a candidate
  never accessed or added can exceed them (`UnseenCandidateExceeds`).

## Model
| member | source | states |
|---|---|---|
| PrefixTrees.PrefixTree.Insert | src/l3store/metadata/prefix_tree.py:31-38 | after an insert the tree holds the old entries plus this one, on a linked, unshared, canonical heap, and the reverse map gives the id these tokens |
| PrefixTrees.PrefixTree.Search | src/l3store/metadata/prefix_tree.py:40-53 | the result lists every stored id whose non-empty tokens prefix the query, each once, with its own length, shortest first, and nothing else |
| PrefixTrees.PrefixTree.LongestMatch | src/l3store/metadata/prefix_tree.py:55-57 | nothing exactly when no stored tokens prefix the query, otherwise a match of greatest length |
| PrefixTrees.PrefixTree.Remove | src/l3store/metadata/prefix_tree.py:59-82 | true exactly for registered ids; the id leaves its registered path, pruning keeps the tree canonical and creates no node |
| PrefixTrees.PrefixTree.WalkTo | src/l3store/metadata/prefix_tree.py:64-70 | the walk of a removal always reaches the node of the registered tokens, so its bail-out is dead |
| PrefixTrees.PrefixTree.Prune | src/l3store/metadata/prefix_tree.py:72-80 | cutting empty leaves from the bottom up makes the tree canonical again without losing an entry |
| PrefixTrees.PrefixTree.ShapeIsDetermined | src/l3store/metadata/prefix_tree.py:59-82 | the node paths and the ids at each are determined by the stored entries alone, so equal contents mean the identical tree |
| PrefixTreeRuns.RegisteredAreLive | src/l3store/metadata/prefix_tree.py:31-82 | for every history the reverse map holds exactly the ids whose last operation was an insert, under that insert's tokens |
| PrefixTreeRuns.RegisteredAreStored | src/l3store/metadata/prefix_tree.py:59-70 | for every history, re-inserts included, each registered id is stored at its registered path |
| PrefixTreeRuns.SearchExactIsObservable | src/l3store/metadata/prefix_tree.py:40-53 | the index is exact below the root if and only if every report of every search is right |
| PrefixTreeRuns.StepKeepsSearchExact | src/l3store/metadata/prefix_tree.py:31-38 | an operation keeps every search right if and only if it does not re-insert an id live under other, non-empty tokens |
| PrefixTreeRuns.ExactThroughoutIffNoStaleReinserts | src/l3store/metadata/prefix_tree.py:31-82 | searches are right after every operation of a history if and only if it has no such re-insert |
| PrefixTreeRuns.SearchIsScanOfLiveIds | src/l3store/metadata/prefix_tree.py:40-53 | over such a history a match is reported if and only if that id is live under that non-empty prefix of the query |
| PrefixTreeRuns.SearchReportsEachIdOnce | src/l3store/metadata/prefix_tree.py:40-53 | over such a history an id has one matched length |
| PrefixTreeRuns.RemoveUndoesInsert | src/l3store/metadata/prefix_tree.py:31-82 | removing after inserting restores the index if and only if the id was unregistered and not stored at that path |
| PrefixTreeRuns.StaleIdIsReported | src/l3store/metadata/prefix_tree.py:37-38 | after inserting one id under two token lists, a search for the first still reports it |
| BloomFilters.BloomFilter.SetIndex | src/l3store/metadata/bloom_filter.py:20-23 | setting a packed bit changes that bit and no other |
| BloomFilters.BloomFilter.Add | src/l3store/metadata/bloom_filter.py:20-23 | the set bits stay exactly those of the keys added, this one included |
| BloomFilters.BloomFilter.MightContain | src/l3store/metadata/bloom_filter.py:25-29 | reports a key if and only if every one of its bits was set by some added key, so every added key is reported |
| BloomFilters.Params.IndexWraps | src/l3store/metadata/bloom_filter.py:35-38 | the i-th bit of a key is its first digest plus i times its second, wrapped to the size |
| HnswIndexes.HnswIndex.Add | src/l3store/metadata/hnsw_index.py:58-80 | the next slot state or the error for a full index or a bad shape, which changes nothing |
| HnswIndexes.HnswIndex.Remove | src/l3store/metadata/hnsw_index.py:109-118 | the label of a live id is marked deleted and freed for reuse |
| HnswIndexes.HnswIndex.Search | src/l3store/metadata/hnsw_index.py:82-107 | hits are the live ids of the returned labels at or above the threshold, in order |
| HnswIndexes.ReachableIsWellFormed | src/l3store/metadata/hnsw_index.py:49-118 | in every run the two label maps are mutual inverses, free labels are distinct, and live plus free labels are exactly those below the next one, never more than the capacity |
| HnswIndexes.RefusedOnlyWhenFull | src/l3store/metadata/hnsw_index.py:59-62 | capacity is refused if and only if the id is new and exactly the maximum number of objects is live |
| HnswIndexes.AddRefused | src/l3store/metadata/hnsw_index.py:59-64 | a live id is never refused; a new one is when the index is full, else exactly when the array is not one vector of the dimension |
| HnswIndexes.LabelsHoldOwnEmbeddings | src/l3store/metadata/hnsw_index.py:58-118 | in every run each live label holds the embedding its object first came with since it was last absent, slot reuse included |
| HnswIndexes.ReAddKeepsOldEmbedding | src/l3store/metadata/hnsw_index.py:58-60 | adding a live id under a second embedding leaves the first |
| HnswIndexes.HitsAreDistinctAndLive | src/l3store/metadata/hnsw_index.py:96-107 | hits name distinct live objects, each above the threshold and each from a returned label |
| HnswIndexes.HitsAreQualifying | src/l3store/metadata/hnsw_index.py:96-107 | hits are exactly the returned labels that are live and near enough, in their order, each with one less its distance |
| StoreKeys.DefaultIsPrefixFree | src/l3store/utils/config.py:18-36 | none of the eight default key prefixes is a prefix of another |
| StoreKeys.SeparateExactlyWhenPrefixFree | src/l3store/core/object_store.py:54-114 | keys determine kind and id, and listing one kind never meets another's keys, if and only if the configured prefixes are prefix-free |
| StorePuts.DefaultKeys | src/l3store/core/object_store.py:118-147 | the backend keys of each kind under the default prefixes |
| MemoryBackends.MemoryBackend.DeleteMany | src/l3store/storage/backend.py:21-26 | exactly the given keys are gone, and the count is the number of them that existed |
| MemoryBackends.MemoryBackend.ListKeys | src/l3store/storage/memory_backend.py:31-34 | the sorted, repeat-free listing of exactly the stored keys with the prefix |
| MemoryBackends.MemoryBackend.Delete | src/l3store/storage/memory_backend.py:22-26 | exactly this key is gone, and the answer says whether it was there |
| MetadataStores.MetadataStore.OnObjectAdded | src/l3store/metadata/metadata_store.py:36-45 | the id enters the filter, and the trie only if it is a KV block with tokens |
| MetadataStores.MetadataStore.OnSemanticEntryAdded | src/l3store/metadata/metadata_store.py:47-54 | the id enters the filter and then the index of its dimension, created on first use, or the error says why not |
| MetadataStores.MetadataStore.EnsureHnsw | src/l3store/metadata/metadata_store.py:91-102 | the existing index, a new one of the embedding's dimension, or an error that changes nothing |
| MetadataStores.MetadataStore.OnObjectRemoved | src/l3store/metadata/metadata_store.py:56-63 | the filter keeps the id; trie or vector index forget it by kind |
| MetadataStores.MetadataStore.FindPrefixMatches | src/l3store/metadata/metadata_store.py:68-69 | every indexed block that prefixes the query, once, shortest first |
| MetadataStores.MetadataStore.MightExist | src/l3store/metadata/metadata_store.py:65-66 | the filter's answer over every id ever added |
| ObjectStores.UnifiedObjectStore.WritePairToBackend | src/l3store/core/object_store.py:46-52 | the backend after a two-key write with rollback, for every pattern of failures |
| ObjectStores.UnifiedObjectStore.PutPair | src/l3store/core/object_store.py:118-147 | the whole store after storing a KV block, RAG object or plan entry, and its error |
| ObjectStores.UnifiedObjectStore.PutSemanticEntry | src/l3store/core/object_store.py:225-241 | the whole store after storing a semantic entry; an indexing error comes after the pair is written |
| ObjectStores.UnifiedObjectStore.PutMetaObject | src/l3store/core/object_store.py:67-76 | the whole store after storing an object of a one-key kind |
| ObjectStores.UnifiedObjectStore.PutToolArtifact | src/l3store/core/object_store.py:322-334 | the artifact is stored under its own tool-call id, beside the others |
| ObjectStores.UnifiedObjectStore.GetObject | src/l3store/core/object_store.py:78-94 | the gated lookup, for pairs and single objects alike |
| ObjectStores.UnifiedObjectStore.DeleteObject | src/l3store/core/object_store.py:96-105 | the object's keys are gone, its metadata is forgotten if a key existed, and the answer says whether one did |
| ObjectStores.UnifiedObjectStore.ListIds | src/l3store/core/object_store.py:107-114 | the sorted, repeat-free listing of the ids read off the kind's keys |
| ObjectStores.UnifiedObjectStore.FindKvPrefixMatches | src/l3store/core/object_store.py:172-174 | the ids of exactly the trie's matches, in match order |
| ObjectStores.UnifiedObjectStore.FindKvLongestPrefix | src/l3store/core/object_store.py:176-178 | the id of a longest match, nothing exactly when there is no match |
| ObjectStores.UnifiedObjectStore.PrefetchBatch | src/l3store/core/object_store.py:436-477 | each named id is looked up once, in the way its first decision says, and only what is found is returned |
| ObjectStores.UnifiedObjectStore.PrefetchOne | src/l3store/core/object_store.py:460-477 | the gated lookup of the kind the decision names; an unknown or missing type finds nothing |
| PrefetchBatchTheorems.BatchHoldsContents | src/l3store/core/object_store.py:436-477 | after every history without a double fault a batch holds, for each named id, the object last put of the kind its first decision's type name means, and nothing for a missing or other name |
| PrefetchBatchTheorems.BatchHoldsNothingElse | src/l3store/core/object_store.py:445-458 | a batch holds no id that no decision names |
| StoreTheorems.PutLookup | src/l3store/core/object_store.py:46-61 | after a put without a double fault an ungated lookup gives the new object, the old one if the first write failed, or nothing |
| StoreTheorems.OthersKeepLookup | src/l3store/core/object_store.py:118-178 | an operation on one object never changes the lookup of another, of the same kind or not |
| StoreTheorems.RunHolds | src/l3store/core/object_store.py:46-114 | after every history without a double fault the backend holds exactly the pairs and objects of a plain map from (kind, id) to the last complete put |
| StoreTheorems.GateIsTransparent | src/l3store/core/object_store.py:78-94 | after every history, whatever writes failed, a gated get equals the ungated lookup |
| StoreTheorems.GetIsReference | src/l3store/core/object_store.py:54-61 | every get of every such history answers as the plain map does |
| StorePuts.GetReturnsWhatWasPut | src/l3store/core/object_store.py:54-61 | after every such history a get returns the metadata and data given to the last successful put of the id |
| StorePuts.PutErrorTells | src/l3store/core/object_store.py:46-52 | a put reports a backend failure exactly when a write raised, and then indexes nothing; otherwise the object is stored, and a semantic entry is live unless indexing failed, which changes no live entry |
| StoreTheorems.TornExactlyOnDoubleFault | src/l3store/core/object_store.py:46-52 | a put leaves something other than the previous object, the new one or nothing if and only if data write and rollback both failed over older, different data |
| StoreTheorems.DoubleFaultTearsPair | src/l3store/core/object_store.py:46-52 | an overwrite whose data write and rollback both fail gives a get of new metadata with old tensors |
| ListingTheorems.ListingIsExact | src/l3store/core/object_store.py:107-114 | after every history, whatever writes failed, listing returns exactly the ids a get finds if and only if complete objects have non-empty dot-free ids and no half pair is listed under a name without an object |
| ListingTheorems.StepKeepsWhole | src/l3store/core/object_store.py:46-52 | an operation keeps pairs whole if and only if it is not a put whose data write fails and that is rolled back over older data, or not rolled back where there was none |
| ListingTheorems.ListingMatchesContents | src/l3store/core/object_store.py:107-114 | over histories without such puts, listing returns exactly the plain map's ids if and only if these are all non-empty and dot-free |
| ListingTheorems.LostBlockIsListed | src/l3store/core/object_store.py:46-52 | a block lost to a rolled-back overwrite is listed, though no get finds it |
| ListingTheorems.DottedIdIsListedShort | src/l3store/core/object_store.py:107-114 | a block with a dot in its id is listed under the part before it |
| StoreTheorems.OthersKeepListing | src/l3store/core/object_store.py:107-114 | an operation on one kind never changes what another kind lists |
| KvPrefixTheorems.StepKeepsTrie | src/l3store/core/object_store.py:118-167 | an operation keeps the trie equal to the stored blocks with tokens if and only if it replaces no such block by other tokens and loses none to a failed data write |
| KvPrefixTheorems.PrefixQueryIsScan | src/l3store/core/object_store.py:172-174 | over every history of such operations the trie matches an id if and only if a scan of all stored blocks does |
| KvPrefixTheorems.LongestMatchIsLongestScanned | src/l3store/core/object_store.py:176-178 | a longest match is a stored block with that many tokens, and no scanned block has more |
| SemanticTheorems.StepKeepsHeld | src/l3store/core/object_store.py:225-261 | an operation keeps every object live in the vector index completely stored if and only if it loses no live entry to a failed data write |
| SemanticTheorems.LiveEntriesLoad | src/l3store/core/object_store.py:243-255 | over every history of such operations each id a similarity search can name loads as a complete entry |
| StorePuts.EntriesStaySearchable | src/l3store/core/object_store.py:225-261 | in every run a semantic entry put without error is live until it is deleted |
| StorePuts.SemanticRefusals | src/l3store/metadata/metadata_store.py:91-102 | in every run the index refuses a written entry exactly for an empty first dimension, another dimension, a new id when the expected number is live, or an array that is not one vector |
| SemanticTheorems.FailedReplacementDangles | src/l3store/core/object_store.py:225-241 | a replacement whose data write fails leaves an id live in the vector index that no get can load |
| ToolViews.StepKeepsTools | src/l3store/core/object_store.py:322-351 | every store operation acts on the stored tool artifacts as a plain map from id to artifact |
| ToolCallIds.PayloadReads | src/l3store/agent/tool_cache.py:249-257 | the hashed text is the tool, the argument hash, the scope's name and the version, parted by colons |
| ToolCallIds.CollideExactlyWhenNested | src/l3store/agent/tool_cache.py:249-257 | two different tool names admit calls with one hashed text if and only if one continues the other by a hash and a scope |
| ToolCallIds.IdsAreDistinct | src/l3store/agent/tool_cache.py:249-257 | where the digest tells two hashed texts apart and the names do not nest, equal ids mean equal tool, arguments, scope and version |
| ToolCallIds.ColonFreeNeverNests | src/l3store/agent/tool_cache.py:249-257 | a name without a colon never nests another |
| ToolCaches.ToolArtifactCache.PutToolArtifact | src/l3store/agent/tool_cache.py:36-83 | the validation errors in order, or the cache after storing the artifact, replacing and deleting the key's earlier one |
| ToolCaches.ToolArtifactCache.GetToolArtifact | src/l3store/agent/tool_cache.py:85-122 | the artifact or the kind of miss, with the lazy deletions and counters of each |
| ToolCaches.ToolArtifactCache.InvalidateToolArtifacts | src/l3store/agent/tool_cache.py:124-148 | exactly the matching keys and their artifacts are gone, and the count is the number of artifacts deleted |
| ToolCaches.ToolArtifactCache.RebuildIndex | src/l3store/agent/tool_cache.py:150-184 | over any stored artifacts, each key of a listable unexpired one gets an artifact of latest expiry, the first listed on a tie, and exactly the listable expired ones are deleted |
| ToolCaches.ToolArtifactCache.PurgeExpired | src/l3store/agent/tool_cache.py:186-202 | expired and dangling keys go, expired artifacts are deleted, and the count is the number deleted |
| ToolCacheTheorems.PutRefines | src/l3store/agent/tool_cache.py:76-83 | a put refines the plain map of latest puts if and only if its id is not held by another key |
| ToolCacheTheorems.GetRefines | src/l3store/agent/tool_cache.py:85-122 | a get answers as the plain map does and its deletions keep the refinement |
| ToolCacheTheorems.InvalidateRefines | src/l3store/agent/tool_cache.py:124-148 | invalidating refines forgetting the matching keys of the plain map |
| ToolCacheTheorems.PurgeIsExact | src/l3store/agent/tool_cache.py:186-202 | under the bijection a purge leaves exactly the unexpired artifacts and their keys |
| ToolCacheTheorems.RunRefines | src/l3store/agent/tool_cache.py:36-202 | every run with a clock that never runs back, listable ids and no id collisions refines the plain map, and its index is a bijection onto the stored artifacts |
| ToolCacheTheorems.GetsAnswerAsReference | src/l3store/agent/tool_cache.py:85-122 | every get of every such run returns the latest put if its version fits and it is unexpired, so expiry, purge, version replacement and rebuild are unobservable |
| ToolCacheTheorems.RebuildRestrictsIndex | src/l3store/agent/tool_cache.py:150-184 | under the bijection a rebuild gives exactly the old index less its expired keys, and the old artifacts less the expired ones |
| ToolCacheTheorems.RebuildsAreUnobservable | src/l3store/agent/tool_cache.py:150-184 | so does every rebuild of every such run |
| ToolCacheTheorems.AnswersAreValid | src/l3store/agent/tool_cache.py:98-122 | no returned artifact is expired, of another key, or of a version other than the one asked for |
| ToolCacheTheorems.GetForgets | src/l3store/agent/tool_cache.py:103-119 | over any cache a get forgets a key whose artifact it finds missing or expired, deletes an expired one, and changes nothing else |
| ToolCacheTheorems.ComputedIdsNeverCollide | src/l3store/agent/tool_cache.py:249-257 | if the digest tells the run's own hashed texts apart and its names do not nest, the run has no collision |
| ToolCacheTheorems.ComputedIdsAreListable | src/l3store/agent/tool_cache.py:249-257 | hexadecimal ids can all be listed, so a rebuild sees every artifact a run stores |
| ToolCacheCalls.CallRunIsOrderly | src/l3store/agent/tool_cache.py:36-202 | for a sixteen-digit hexadecimal digest that tells the run's texts apart, every run of calls, rejected ones included, meets the conditions above |
| ToolCacheCalls.GetsReturnLatestResult | src/l3store/agent/tool_cache.py:85-122 | every get of every such run answers as a map from tool, argument text and scope to the latest put |
| ToolCacheCalls.GetReturnsLastPut | src/l3store/agent/tool_cache.py:36-122 | a get hits if and only if the last accepted put of its tool, arguments and scope, not invalidated since, has the version asked for and put time plus ttl lies after the get; it then returns that put's output, its digest, version and times |
| ToolCacheCalls.GetMissesWithoutPut | src/l3store/agent/tool_cache.py:85-122 | and it misses if there is no such put |
| ToolCacheCalls.PutRefused | src/l3store/agent/tool_cache.py:48-53 | a put is refused exactly for a blank tool name, a ttl that is not positive, or a missing version where one is required, in this order |
| ToolCacheCounts.CountersAreExact | src/l3store/agent/tool_cache.py:82-122 | in every run the put, hit and miss counters are the numbers of puts, of gets that returned an artifact and of the other gets |
| ToolCacheCounts.ArtifactsAreConserved | src/l3store/agent/tool_cache.py:36-202 | in every run each artifact put is still stored, was replaced by a later put of its key, or is counted once as expired, invalidated or purged |
| ToolCacheCalls.RebuildsChangeNothing | src/l3store/agent/tool_cache.py:150-184 | every rebuild of such a run leaves the index as it was, less its expired keys |
| ToolCacheTheorems.DroppedCount | src/l3store/agent/tool_cache.py:142-148 | under the bijection an invalidation or purge deletes one artifact per dropped key |
| ToolCacheTheorems.NestedNamesGiveWrongAnswer | src/l3store/agent/tool_cache.py:76-83 | two puts of nesting tool names after which a get of the first returns the second's artifact |
| ToolCacheRebuild.RebuildOneMore | src/l3store/agent/tool_cache.py:156-181 | one step of the rebuild loop extends the best choice per key by the next listed id |
| ToolCacheRebuild.AllVisible | src/l3store/agent/tool_cache.py:150-184 | where every stored id can be listed, a rebuild is over all stored artifacts |
| ToolCacheRebuild.RebuildShrinks | src/l3store/agent/tool_cache.py:150-184 | a rebuild stores nothing it did not find |
| LruCaches.CachedEmbeddingService.Embed | src/l3store/embeddings/cache.py:22-32 | the keys change by one LRU step, a hit is a key already held, and the answer is the backend's for a text embedded under the same key: for this text on a miss, or if the keys tell apart the texts embedded so far |
| LruCaches.CachedEmbeddingService.EvictIfNeeded | src/l3store/embeddings/cache.py:56-58 | the newest keys up to the bound stay, with their values |
| LruCaches.CachedEmbeddingService.EmbedBatch | src/l3store/embeddings/cache.py:34-39 | keys and hits are those of the LRU trace, and every answer is the backend's if the keys tell apart the texts embedded so far |
| LruCaches.AgentLruBaseline.Process | benchmarks/baselines/agentic.py:31-49 | the list-based cache hits exactly on its keys and changes by the same LRU step |
| LruCaches.AgentLruBaseline.Touch | benchmarks/baselines/agentic.py:51-58 | one LRU step on a list, evicting exactly on a miss of a full list |
| LruCaches.AgentLruBaseline.ProcessAll | benchmarks/baselines/agentic.py:31-58 | over a trace of requests the hits and the list are those of the LRU trace |
| LruCaches.SameHits | benchmarks/baselines/agentic.py:31-58 | on every trace the list-based cache and the ordered dictionary give the same hits and end with the same keys |
| LruModel.HoldsMostRecent | src/l3store/embeddings/cache.py:22-58 | after every trace a cache holds exactly its capacity's worth of most recent distinct keys, in order |
| LruModel.RecencyIsByLastAccess | src/l3store/embeddings/cache.py:22-32 | the recency order of that reference is the order of last accesses in the trace |
| LruModel.LargerIncludesSmaller | src/l3store/embeddings/cache.py:56-58 | on one trace a larger cache holds all keys of a smaller one |
| LruModel.HitsAreMonotone | benchmarks/baselines/agentic.py:31-58 | every hit of a smaller cache is a hit of a larger one |
| LruModel.HitsExactlyWithinCapacity | benchmarks/baselines/agentic.py:31-58 | access i of a trace hits if and only if its key was accessed before and fewer distinct keys than the capacity were used since its last access |
| Percentiles.PercentilesOrdered | src/l3store/policies/agent/tool_latency_estimator.py:282-292 | percentiles of a window rise with the percentage and stay within its bounds |
| Percentiles.AtRankMonotone | src/l3store/policies/agent/tool_latency_estimator.py:282-292 | interpolation between order statistics is monotone in the rank |
| Percentiles.PercentileInterpolates | src/l3store/policies/agent/tool_latency_estimator.py:282-292 | between neighbouring order statistics a percentile moves in proportion to the percentage, reaching the k-th at 100 k / (n - 1) |
| LatencyEstimators.ToolLatencyEstimator.RecordLatency | src/l3store/policies/agent/tool_latency_estimator.py:66-81 | the error of a rejected latency or name, or the observation in the tool's aggregate and its class profile |
| LatencyEstimators.ToolLatencyEstimator.RecordInterval | src/l3store/policies/agent/tool_latency_estimator.py:83-98 | accepts intervals that do not end before they start and records their length in milliseconds |
| LatencyEstimators.ToolLatencyEstimator.Record | src/l3store/policies/agent/tool_latency_estimator.py:220-265 | the next statistics and the trimmed window of one profile; no other changes |
| LatencyEstimators.ToolLatencyEstimator.PredictLatency | src/l3store/policies/agent/tool_latency_estimator.py:100-119 | the class profile's average, else the tool's, else the default |
| LatencyEstimators.ToolLatencyEstimator.TakeSnapshot | src/l3store/policies/agent/tool_latency_estimator.py:147-169 | the configuration and every profile's window, in the order of the profile keys |
| LatencyEstimators.ToolLatencyEstimator.FromSnapshot | src/l3store/policies/agent/tool_latency_estimator.py:171-194 | fails exactly on samples without a tool name; otherwise records each profile's samples into that profile only |
| LatencyTheorems.LearnedIsHistory | src/l3store/policies/agent/tool_latency_estimator.py:220-265 | in every run each profile is determined by its own history, and its window is the last observations in order |
| LatencyTheorems.WindowIsLatest | src/l3store/policies/agent/tool_latency_estimator.py:220-228 | a window is the end of the history, full or all of it |
| LatencyTheorems.PredictionsFallBack | src/l3store/policies/agent/tool_latency_estimator.py:100-119 | after any observations a prediction is the average of all latencies of the class if it was seen, else of the tool if it was, else the default |
| LatencyTheorems.RecordRefused | src/l3store/policies/agent/tool_latency_estimator.py:66-76 | an observation is refused exactly for a blank tool name or a negative latency, in this order |
| LatencyTheorems.ClassNormalised | src/l3store/policies/agent/tool_latency_estimator.py:274-280 | a class is compared without surrounding space, and a blank one is none |
| LatencyTheorems.ProfileOrder | src/l3store/policies/agent/tool_latency_estimator.py:147-169 | profiles are listed by tool name, a tool's aggregate before its classes |
| Text.StripRemovesSpace | src/l3store/policies/agent/tool_latency_estimator.py:267-280 | normalising a name removes space at its two ends and nothing else |
| LatencyTheorems.StatsAreExact | src/l3store/policies/agent/tool_latency_estimator.py:220-265 | count and mean are exact over the whole history, last is its last, and the extremes are attained bounds |
| LatencyTheorems.ProfileEmaWithinExtremes | src/l3store/policies/agent/tool_latency_estimator.py:220-265 | a profile's average lies between the least and the greatest of everything it observed |
| LatencyTheorems.RepeatsConverge | src/l3store/policies/agent/tool_latency_estimator.py:220-265 | n repeats of a value shrink the average's distance to it by exactly (1 - alpha) to the n |
| LatencyTheorems.WindowOrder | src/l3store/policies/agent/tool_latency_estimator.py:220-265 | window minimum, p50, p95 and window maximum come in this order |
| LatencyTheorems.AggregateCountsClasses | src/l3store/policies/agent/tool_latency_estimator.py:66-81 | a tool's aggregate has seen at least as many observations as any distinct classes of it together |
| LatencyTheorems.RestoredFromSnapshot | src/l3store/policies/agent/tool_latency_estimator.py:171-194 | restoring gives every profile its window as history, so aggregates are not counted twice |
| LatencyTheorems.SnapshotRoundTrip | src/l3store/policies/agent/tool_latency_estimator.py:147-194 | a snapshot of the restored estimator is the snapshot it was restored from |
| LatencyTheorems.RestoreKeepsWindowStats | src/l3store/policies/agent/tool_latency_estimator.py:171-194 | last, p50 and p95 survive a restore; the count does if and only if nothing was truncated, and then all statistics do |
| LatencyTheorems.RestoreKeepsPredictions | src/l3store/policies/agent/tool_latency_estimator.py:100-119 | without truncation every prediction survives a restore |
| LatencyTheorems.TruncatedRestoreForgets | src/l3store/policies/agent/tool_latency_estimator.py:171-194 | with room for one sample, a tool seen twice is restored as seen once, with another mean |
| LatencyTheorems.LearningExtends | src/l3store/policies/agent/tool_latency_estimator.py:66-81 | whatever history a profile started from, learning appends to it |
| AgentTtl.AgentTTLPolicy.OnLlmStepCompleted | src/l3store/policies/retention/agent_ttl.py:83-164 | the decision for the predicted latency, or the error, and the whole policy after booking it |
| AgentTtl.AgentTTLPolicy.OnPrefetchTimer | src/l3store/policies/retention/agent_ttl.py:178-210 | the decision due for a tool call after a wait, and the ledger after triggering it |
| AgentTtl.AgentTTLPolicy.OnToolCompleted | src/l3store/policies/retention/agent_ttl.py:212-238 | the observation, under the tool and class remembered for the call, reaches the estimator or an error is given |
| AgentTtl.AgentTTLPolicy.OnKvReloaded | src/l3store/policies/retention/agent_ttl.py:240-243 | exactly the reloaded blocks leave the offloaded set |
| AgentTtl.AgentTTLPolicy.OnPinnedKvReleased | src/l3store/policies/retention/agent_ttl.py:245-248 | exactly the released blocks leave the pinned set |
| AgentTtl.AgentTTLPolicy.DecideRetention | src/l3store/policies/retention/agent_ttl.py:166-167 | the decision the tables keep for the step |
| RetentionTheorems.LedgerHolds | src/l3store/policies/retention/agent_ttl.py:127-161 | in every run triggered blocks never exceed scheduled ones, hidden wait is at most the threshold per retained block, and the block sets are bounded by their counters |
| RetentionTheorems.RunIsBalanced | src/l3store/policies/retention/agent_ttl.py:288-291 | in every run triggered plus still pending blocks stay within the scheduled ones, even when steps and calls are re-decided |
| RetentionTheorems.TriggersOnce | src/l3store/policies/retention/agent_ttl.py:178-210 | no tool call triggers its prefetch twice in any run |
| RetentionTheorems.TriggersOnlyWhenDue | src/l3store/policies/retention/agent_ttl.py:190-197 | a prefetch triggers only for an offload decision and at or after its predicted latency less the margin |
| RetentionTheorems.RunLearns | src/l3store/policies/retention/agent_ttl.py:212-238 | in every run, from any estimator and with others recording into it, the estimator has learned exactly what was accepted |
| RetentionTheorems.PredictionIsAverage | src/l3store/policies/retention/agent_ttl.py:117-121 | in every run a step's prediction is the average of all latencies of its tool and class if there are any, observed before or during the run, else of its tool, else the default |
| RetentionTheorems.LearnedLatenciesDecide | src/l3store/policies/retention/agent_ttl.py:117-161 | if all these latencies are at or below the threshold the next step is pinned with a ttl of at least prediction plus reload cost; if all are above it is offloaded; for a tool never seen the default decides |
| RetentionLedger.TablesHoldLastDecision | src/l3store/policies/retention/agent_ttl.py:122-125 | after every run the tables hold, for each tool call, the decision of the last accepted step that named it, with its tool and class |
| RetentionLedger.StepDecisionIsLatest | src/l3store/policies/retention/agent_ttl.py:288-291 | after every run the decision kept for a step is the one last made when it completed |
| RetentionLedger.DecisionFields | src/l3store/policies/retention/agent_ttl.py:95-161 | every field of a decision: given blocks over the step's own, retained without a tool call, pinned up to the threshold with the larger of default ttl and prediction plus cost, else offloaded with a prefetch the margin before the predicted end |
| RetentionLedger.ToolNameOf | src/l3store/policies/retention/agent_ttl.py:307-312 | the tool is the name given, else the step's, stripped, and unknown if blank |
| RetentionLedger.TriggersExactlyWhenDue | src/l3store/policies/retention/agent_ttl.py:178-210 | in every run a timer triggers a call's prefetch if and only if none has before, its last decision was to offload and the predicted end is at most the margin away; it then returns that decision's blocks and figures |
| RetentionLedger.UndecidedNeverTriggers | src/l3store/policies/retention/agent_ttl.py:193-196 | a call no step decided for never triggers |
| RetentionLedger.CompletionIsRecorded | src/l3store/policies/retention/agent_ttl.py:212-238 | a completion is recorded under the name it gives, else the tool of the step that last decided for its call, in the class it gives, else that step's |
| RetentionLedger.StrangeCompletionNeedsName | src/l3store/policies/retention/agent_ttl.py:212-238 | a completion of a call no step decided for is recorded exactly if it gives a name |
| RetentionLedger.SetsAreExact | src/l3store/policies/retention/agent_ttl.py:127-161 | after every run a block is pinned if and only if a step pinned it and no release since names it, and offloaded if and only if a step offloaded it and no reload since does |
| RetentionLedger.CountersAreTallies | src/l3store/policies/retention/agent_ttl.py:127-161 | every counter is the sum over the run's events of the blocks kept, offloaded, reloaded and triggered, and of the smaller of wait and reload cost per kept block |
| StepGraphs.AgentStepGraph.AddStep | src/l3store/metadata/agent_step_graph.py:39-70 | the error of a rejected step, or the graph with the step appended to its lists and its parent's children |
| StepGraphs.AgentStepGraph.AddWorkflow | src/l3store/metadata/agent_step_graph.py:33-34 | the workflow is listed, with the steps it already had |
| StepGraphs.AgentStepGraph.MarkStepCompleted | src/l3store/metadata/agent_step_graph.py:83-84 | the step is completed, or unknown |
| StepGraphs.AgentStepGraph.PredictNextSteps | src/l3store/metadata/agent_step_graph.py:86-107 | the uncompleted children, else the uncompleted later steps, up to the limit, or the error |
| StepGraphs.AgentStepGraph.StepsTo | src/l3store/metadata/agent_step_graph.py:109-122 | the position of the agent's first step among the future ones |
| StepGraphs.AgentStepGraph.FutureUncompletedSteps | src/l3store/metadata/agent_step_graph.py:152-167 | the uncompleted steps after the current one, in workflow order |
| StepGraphTheorems.ReachableIsWellFormed | src/l3store/metadata/agent_step_graph.py:39-84 | in every run workflows list exactly their steps once, parents precede children, and child lists are the workflow's order restricted to the children |
| StepGraphTheorems.AncestorsAreEarlier | src/l3store/metadata/agent_step_graph.py:39-70 | in every run an ancestor n levels up is at least n places earlier in the same workflow, so the parent relation has no cycle |
| StepGraphTheorems.PredictionsAreFutureSteps | src/l3store/metadata/agent_step_graph.py:86-107 | in every run predictions are repeat-free future uncompleted steps in workflow order, empty if and only if none remain |
| StepHistory.StepsAreAsAdded | src/l3store/metadata/agent_step_graph.py:39-84 | in every run a step exists if and only if an operation added it, with that operation's fields, and is completed if and only if it was completed later |
| StepHistory.ListedAsAdded | src/l3store/metadata/agent_step_graph.py:39-70 | a workflow lists its steps in the order they were added |
| StepHistory.AgentsListTheirSteps | src/l3store/metadata/agent_step_graph.py:39-70 | in every run agents list exactly their own steps, once each |
| StepHistory.AddRefused | src/l3store/metadata/agent_step_graph.py:48-56 | a step is refused exactly for an id in use, an unknown parent or a parent of another workflow, in this order |
| StepHistory.PredictionsAreExact | src/l3store/metadata/agent_step_graph.py:86-107 | in every run a prediction is the first top-k of the uncompleted steps whose parent is the current one, in workflow order, or, if there are none, of the uncompleted steps listed after it |
| StepHistory.PredictionRefused | src/l3store/metadata/agent_step_graph.py:92-97 | a prediction is refused exactly for an unknown current step or one of another workflow, and never when none are asked for |
| StepHistory.StepsToExecutionIsExact | src/l3store/metadata/agent_step_graph.py:109-122 | in every run the distance of an agent is one more than the uncompleted steps between the current step and its first uncompleted one ahead, and there is none if and only if it has none ahead |
| StepDistance.CompletingOthersBringsCloser | src/l3store/metadata/agent_step_graph.py:109-122 | completing another agent's step lowers a distance by one if the step was in the way and otherwise not at all |
| StepDistance.AddingExtendsFuture | src/l3store/metadata/agent_step_graph.py:152-167 | a new step joins the end of its workflow's futures and changes no other future |
| StepDistance.AddingKeepsDistance | src/l3store/metadata/agent_step_graph.py:109-122 | adding a step never changes a distance already found |
| WorkflowEviction.WorkflowAwareEviction.SelectVictim | src/l3store/policies/eviction/workflow_aware.py:80-90 | the earliest candidate of least score, none exactly for no candidates |
| WorkflowEviction.WorkflowAwareEviction.ScoreBlock | src/l3store/policies/eviction/workflow_aware.py:92-128 | the weighted sum of the components of the current graph, accesses and time |
| WorkflowEviction.WorkflowAwareEviction.WorkflowNextUse | src/l3store/policies/eviction/workflow_aware.py:134-155 | the workflow component for the current step, read off the live graph |
| WorkflowEviction.WorkflowAwareEviction.OnBlockAccessed | src/l3store/policies/eviction/workflow_aware.py:68-72 | one access step of the history the results below range over |
| WorkflowEviction.WorkflowAwareEviction.OnBlockAdded | src/l3store/policies/eviction/workflow_aware.py:74-78 | one addition step of that history |
| WorkflowEviction.WorkflowAwareEviction.OnBlockEvicted | src/l3store/policies/eviction/workflow_aware.py:130-132 | one eviction step of that history |
| WorkflowEviction.WorkflowScoreNeverDrops | src/l3store/policies/eviction/workflow_aware.py:134-155 | no graph event but the completion of the block's own agent lowers its workflow component |
| WorkflowEviction.WorkflowScoreOnlyRises | src/l3store/policies/eviction/workflow_aware.py:134-155 | over every further history of such events the component only rises |
| WorkflowEviction.RetentionScoreNeverDrops | src/l3store/policies/eviction/workflow_aware.py:98-128 | nor does any such event lower the retention score, all else equal |
| EvictionTheorems.KnowsGreatestSharing | src/l3store/policies/eviction/workflow_aware.py:177-178 | in every run the policy holds the greatest sharing any accessed or added block had, at least one, evictions notwithstanding |
| EvictionTheorems.ComponentsAreFractions | src/l3store/policies/eviction/workflow_aware.py:98-128 | in every run all components of a block lie in [0, 1] if and only if its sharing is no greater than that, as it is for every block accessed or added |
| EvictionTheorems.UnseenCandidateExceeds | src/l3store/policies/eviction/workflow_aware.py:98-128 | a candidate with three sharers that was never met has a shared component of three |
| EvictionTheorems.ScoreWithinWeights | src/l3store/policies/eviction/workflow_aware.py:92-128 | the score then lies between minus the penalty weights and the sum of the others |
| EvictionTheorems.EachWeightMovesItsOwn | src/l3store/policies/eviction/workflow_aware.py:110-118 | each component moves the score by its own weight, the two penalties downward |
| EvictionTheorems.CountsAreExact | src/l3store/policies/eviction/workflow_aware.py:68-78 | in every run a block is remembered if and only if it was touched since its last eviction, with the number of touches since it was last added |
| EvictionTheorems.TimesAreLatest | src/l3store/policies/eviction/workflow_aware.py:68-78 | and with the time of the last of them |
| EvictionTheorems.FrequencyIs | src/l3store/policies/eviction/workflow_aware.py:98-104 | in every run the frequency component is a tenth for each such touch, up to one |
| EvictionTheorems.SharedIs | src/l3store/policies/eviction/workflow_aware.py:104-104 | in every run the shared component is the block's part of the greatest sharing met |
| EvictionTheorems.OthersAre | src/l3store/policies/eviction/workflow_aware.py:98-108 | the reuse score and the size are cut to [0, 1] |
| EvictionTheorems.RecencyIs | src/l3store/policies/eviction/workflow_aware.py:157-161 | recency is one over one plus the age, full when just touched and nothing when not remembered |
| EvictionTheorems.WorkflowScoreIs | src/l3store/policies/eviction/workflow_aware.py:134-155 | the workflow component is one over one plus the steps to the next use, recorded with the block or else the distance of its agent |
| EvictionTheorems.ReloadPenaltyIs | src/l3store/policies/eviction/workflow_aware.py:163-175 | the reload penalty is of the predicted tool latency, else of the tagged cost, over its normalizer up to one |
| EvictionTheorems.OthersNeverGain | src/l3store/policies/eviction/workflow_aware.py:68-132 | no access, addition or eviction of one block raises the score of another |
| EvictionTheorems.AccessNeverLosesOwn | src/l3store/policies/eviction/workflow_aware.py:68-72 | accessing a block whose sharing was met before never lowers its own score at that time |
| AgentPrefetch.AgentPrefetchPolicy.PredictPrefetch | src/l3store/policies/prefetch/agent_prefetch.py:111-140 | the decisions for the steps ahead of the current one, booked in the ledger |
| AgentPrefetch.AgentPrefetchPolicy.DecisionsForSteps | src/l3store/policies/prefetch/agent_prefetch.py:208-234 | the merged, sorted and cut decisions of the given steps |
| AgentPrefetch.AgentPrefetchPolicy.OnPrefetchUsed | src/l3store/policies/prefetch/agent_prefetch.py:142-153 | a predicted object is booked as used once, with the time it saved |
| AgentPrefetch.AgentPrefetchPolicy.OnPrefetchWasted | src/l3store/policies/prefetch/agent_prefetch.py:155-169 | a predicted object is booked as wasted once, with its size |
| AgentPrefetch.AgentPrefetchPolicy.OnObjectsRequested | src/l3store/policies/prefetch/agent_prefetch.py:171-176 | the distinct non-empty ids are expected, and those predicted are recall hits |
| AgentPrefetch.AgentPrefetchPolicy.RegisterStepObjects | src/l3store/policies/prefetch/agent_prefetch.py:102-109 | the step's objects are replaced by their repeat-free lists, or an empty step id is refused |
| AgentPrefetchModel.DedupedCorrect | src/l3store/policies/prefetch/agent_prefetch.py:263-265 | removing repeats and empty ids keeps exactly the non-empty ids, once each |
| AgentPrefetchTheorems.EntriesAreFirstHolders | src/l3store/policies/prefetch/agent_prefetch.py:208-228 | before the cut there is exactly one entry for each (type, id) held by a predicted step, with priority type weight over one plus the rank of the first holder |
| AgentPrefetchTheorems.ReplacementNeverImproves | src/l3store/policies/prefetch/agent_prefetch.py:226-228 | the replacement test never succeeds: a later step never has a higher priority for the same key |
| AgentPrefetchTheorems.DecisionsAreStableTop | src/l3store/policies/prefetch/agent_prefetch.py:230-234 | the decisions are the stable top of the entries: with what was cut they are the entries, in descending priority, equal priorities in their first order |
| PrefetchOrder.EntriesInStepOrder | src/l3store/policies/prefetch/agent_prefetch.py:208-234 | entries, and so decisions of equal priority, come by the rank of their first holder, and those of one type and step in the order that step lists them |
| PrefetchRuns.FieldsAndWeights | src/l3store/policies/prefetch/agent_prefetch.py:41-47 | the list each type is taken from, and its weight |
| PrefetchRuns.RegisteredFields | src/l3store/policies/prefetch/agent_prefetch.py:249-261 | registering keeps each list under its own type, without repeats and empty ids |
| PrefetchRuns.AheadIsExact | src/l3store/policies/prefetch/agent_prefetch.py:118-130 | in every run of the graph the steps looked at are the first uncompleted children of the current step, or else uncompleted steps after it; none without a known current step |
| PrefetchRuns.DecisionsAreForStepsAhead | src/l3store/policies/prefetch/agent_prefetch.py:111-140 | every decision is for an object of such a step, at its type's weight over one plus the rank of the first that holds it |
| PrefetchRuns.LedgerSetsAreExact | src/l3store/policies/prefetch/agent_prefetch.py:132-169 | in every run an object is booked as predicted exactly if a prediction named it, and as used or wasted exactly if that was reported after one did |
| PrefetchRuns.LedgerTotalsAreSums | src/l3store/policies/prefetch/agent_prefetch.py:111-176 | every total is the sum of what the events add, savings and wasted sizes counting once for each object |
| PrefetchRuns.PrecisionAndRecallAre | src/l3store/policies/prefetch/agent_prefetch.py:178-186 | precision is used objects over decisions, recall hits over expected objects, and zero over nothing |
| AgentPrefetchTheorems.LedgerIsBooked | src/l3store/policies/prefetch/agent_prefetch.py:142-176 | in every run used objects were predicted, predicted ones are within the prefetch count, and recall hits are expected |
| AgentPrefetchTheorems.PrecisionAndRecallAreFractions | src/l3store/policies/prefetch/agent_prefetch.py:178-196 | in every run precision and recall lie in [0, 1] |

## Left out
- S3 storage, the gRPC client and server, protobuf converters, YAML and Docker configuration: I/O and library wrappers.
- HnswIndexes.HnswIndex.Search: does not say how near the returned labels are to the query, because that is `hnswlib`'s; it is given distinct live labels.
- BloomFilters.BloomFilter.MightContain: gives no false-positive rate, and the sizing formulas are parameters, because both rest on the quality of the hash.
- LruCaches.CachedEmbeddingService.Embed: two texts embedded under one key share the first's embedding, as in the source; its contract says so and no more.
- ObjectStores.UnifiedObjectStore.FindKvLongestPrefix: does not say which of several ids at the greatest length is returned, because the source takes it from the iteration order of a set.
- ObjectStores.UnifiedObjectStore.PutSemanticEntry: embeddings have at least one axis, because the source reads the length of the last axis before anything else.
- LatencyTheorems.SnapshotRoundTrip: over reals, so float rounding of the statistics is not captured.
- A new `MetadataStore` over an existing backend: its empty Bloom filter hides everything stored, so the recovery results are for the store that wrote the artifacts.
- Access bookkeeping of stored objects (`touch`, sizes, token hashes) and the backend's user metadata: no modelled answer reads them.
- Thread interleavings: the source takes no locks and promises nothing there; operations are sequential.
- Iteration order of dictionaries in purge and invalidate: the results are shown not to depend on it.
- `classify_args`, `pending_prefetches`, `add_step_object`, `add_workflow_object`, `search_similar_prompts`, `clear_cache`: thin wrappers or formatting over what is modelled.
- Pinned and offloaded blocks: the source does not keep the two sets disjoint, and nothing here says so.
- Constructor validation, logging, statistics and snapshot rendering beyond precision and recall.
- `AdaptivePrefetchPolicy`, `LRUEviction`, `PrefixReuseEviction`, `SessionPrefetchPolicy`, `SimilaritySearch`, `PlanCacheManager` and the benchmark systems other than the LRU baseline: they would add easier forms of the results above.
