/** The tool artifacts in a store, as a map from their ids. */
module ToolViews {
  import opened ObjectTypes
  import opened StoreKeys
  import opened StoreModel
  import opened StoreTheorems
  import opened Wrappers

  type Tools = map<string, ToolCallArtifact>

  function ToolKey(prefix: Prefixes, id: string): string { MetaKey(prefix, ToolArtifact, id) }

  /** The objects under tool keys are exactly these artifacts, each under its own id. */
  ghost predicate ToolsAre(prefix: Prefixes, objects: Objects, tools: Tools) {
    && (forall id :: ToolKey(prefix, id) in objects <==> id in tools)
    && (forall id :: id in tools ==> objects[ToolKey(prefix, id)] == ToolMeta(tools[id]) && tools[id].toolCallId == id)
  }

  /** Putting an artifact adds it, deleting its id removes it, and nothing else matters. */
  function ToolsStep(tools: Tools, op: Op): Tools {
    match op
    case OpPut(id, ToolEntry(a), f) => if f.metaWrite then tools else tools[id := a]
    case OpDelete(ToolArtifact, id) => tools - {id}
    case _ => tools
  }

  lemma OtherToolKept(env: Env, s: Store, op: Op, id: string)
    requires env.Valid() && OpValid(op)
    requires (ToolArtifact, id) != (if op.OpPut? then op.entry.Kind() else op.kind, op.id)
    ensures var key, after := ToolKey(env.prefix, id), Step(env, s, op).objects;
            (key in after <==> key in s.objects) && (key in after ==> after[key] == s.objects[key])
  {
    StepFrames(env, s, op);
    KeysApart(env.prefix, ToolArtifact, id, if op.OpPut? then op.entry.Kind() else op.kind, op.id);
  }

  lemma OwnTool(env: Env, s: Store, op: Op)
    requires OpValid(op) && (if op.OpPut? then op.entry.Kind() else op.kind) == ToolArtifact
    ensures var key, after := ToolKey(env.prefix, op.id), Step(env, s, op).objects;
            if op.OpDelete? then key !in after
            else if op.faults.metaWrite then after == s.objects
            else key in after && after[key] == ToolMeta(op.entry.artifact)
  {
  }

  lemma StepKeepsTools(env: Env, s: Store, tools: Tools, op: Op)
    requires env.Valid() && OpValid(op) && ToolsAre(env.prefix, s.objects, tools)
    ensures ToolsAre(env.prefix, Step(env, s, op).objects, ToolsStep(tools, op))
  {
    var after, tools' := Step(env, s, op).objects, ToolsStep(tools, op);
    forall id
      ensures ToolKey(env.prefix, id) in after <==> id in tools'
      ensures id in tools' ==> after[ToolKey(env.prefix, id)] == ToolMeta(tools'[id]) && tools'[id].toolCallId == id
    {
      if (ToolArtifact, id) == (if op.OpPut? then op.entry.Kind() else op.kind, op.id) {
        OwnTool(env, s, op);
      } else {
        OtherToolKept(env, s, op, id);
      }
    }
  }

  /** Reads and deletions of tool artifacts go by the tools. */
  lemma ToolsAnswer(env: Env, s: Store, tools: Tools, id: string)
    requires env.Valid() && Gated(env.prefix, s) && ToolsAre(env.prefix, s.objects, tools)
    ensures Get(env, s, ToolArtifact, id) == (if id in tools then Some(Single(ToolMeta(tools[id]))) else None)
    ensures HasKey(env.prefix, s.objects, ToolArtifact, id) <==> id in tools
  {
    GatedGet(env, s, ToolArtifact, id);
    assert ToolKey(env.prefix, id) in s.objects <==> id in tools;
  }
}
