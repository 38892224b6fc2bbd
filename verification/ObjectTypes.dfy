/** The stored objects of `core/types.py`, reduced to the fields the index and policies read.
    Serialisation is taken to be faithful, so a stored blob is the object itself. */
module ObjectTypes {
  import opened HnswIndexes

  datatype Kind =
    | KvCache | Rag | SemanticCache | AgentWorkflow | AgentStep | ToolArtifact | PlanCache | WorkflowTrace
  {
    /** Stored as a metadata object and a data object, rather than metadata alone. */
    predicate IsPair() { KvCache? || Rag? || SemanticCache? || PlanCache? }

    function DataExt(): string { if KvCache? then "data.npz" else "data.npy" }
  }

  datatype Scope = Public | Session | User | Workflow | Private

  datatype KvBlock = KvBlock(tokenIds: seq<int>, rest: string)

  datatype ToolCallArtifact = ToolCallArtifact(
    toolCallId: string,
    toolName: string,
    argsHash: string,
    outputHash: string,
    output: string,
    ttl: real,
    sourceVersion: string,
    scope: Scope,
    createdAt: real,
    expiresAt: real)
  {
    predicate IsExpired(now: real) { now >= expiresAt }
  }

  datatype Blob =
    | KvMeta(block: KvBlock)
    | ToolMeta(artifact: ToolCallArtifact)
    | Plain(payload: string)
    | Array(embedding: Embedding)

  /** What one `put_*` call stores. */
  datatype Entry =
    | KvEntry(block: KvBlock, tensors: string)
    | RagEntry(meta: string, embedding: Embedding)
    | SemanticEntry(meta: string, embedding: Embedding)
    | PlanEntry(meta: string, embedding: Embedding)
    | ToolEntry(artifact: ToolCallArtifact)
    | WorkflowEntry(meta: string)
    | StepEntry(meta: string)
    | TraceEntry(meta: string)
  {
    function Kind(): Kind {
      match this
      case KvEntry(_, _) => KvCache
      case RagEntry(_, _) => Rag
      case SemanticEntry(_, _) => SemanticCache
      case PlanEntry(_, _) => PlanCache
      case ToolEntry(_) => ToolArtifact
      case WorkflowEntry(_) => AgentWorkflow
      case StepEntry(_) => AgentStep
      case TraceEntry(_) => WorkflowTrace
    }

    function MetaBlob(): Blob {
      match this
      case KvEntry(b, _) => KvMeta(b)
      case ToolEntry(a) => ToolMeta(a)
      case _ => Plain(meta)
    }

    function DataBlob(): Blob
      requires Kind().IsPair()
    {
      if KvEntry? then Plain(tensors) else Array(embedding)
    }

    function Stored(): Stored {
      if Kind().IsPair() then Pair(MetaBlob(), DataBlob()) else Single(MetaBlob())
    }
  }

  /** A complete stored object. */
  datatype Stored = Pair(meta: Blob, data: Blob) | Single(meta: Blob)
}
