/** Backend keys: one namespace per kind of object in one flat key map. */
module StoreKeys {
  import opened ObjectTypes
  import opened Text

  type Prefixes = Kind -> string

  /** The configured defaults. */
  function DefaultPrefix(kind: Kind): string {
    match kind
    case KvCache => "kv/"
    case Rag => "rag/"
    case SemanticCache => "sem/"
    case AgentWorkflow => "agent/workflows/"
    case AgentStep => "agent/steps/"
    case ToolArtifact => "agent/tools/"
    case PlanCache => "agent/plans/"
    case WorkflowTrace => "agent/traces/"
  }

  function MetaKey(prefix: Prefixes, kind: Kind, id: string): string {
    prefix(kind) + id + ".meta.json"
  }

  function DataKey(prefix: Prefixes, kind: Kind, id: string): string {
    prefix(kind) + id + "." + kind.DataExt()
  }

  ghost predicate PrefixFree(prefix: Prefixes) {
    forall k, l :: k != l ==> !(prefix(k) <= prefix(l))
  }

  /** No key of one kind starts with the prefix of another, and keys determine kind and id. */
  ghost predicate KeysSeparate(prefix: Prefixes) {
    && (forall k, l, i {:trigger MetaKey(prefix, k, i), prefix(l)} :: prefix(l) <= MetaKey(prefix, k, i) ==> k == l)
    && (forall k, l, i {:trigger DataKey(prefix, k, i), prefix(l)} :: prefix(l) <= DataKey(prefix, k, i) ==> k == l)
    && (forall k, l, i, j :: MetaKey(prefix, k, i) == MetaKey(prefix, l, j) ==> k == l && i == j)
    && (forall k, l, i, j :: DataKey(prefix, k, i) == DataKey(prefix, l, j) ==> k == l && i == j)
    && (forall k, l, i, j :: MetaKey(prefix, k, i) != DataKey(prefix, l, j))
  }

  lemma DefaultIsPrefixFree()
    ensures PrefixFree(DefaultPrefix)
  {
    forall k, l | k != l ensures !(DefaultPrefix(k) <= DefaultPrefix(l)) {
      var p, q := DefaultPrefix(k), DefaultPrefix(l);
      assert |p| <= |q| ==> p[0] != q[0] || p[1] != q[1] || (|p| > 7 && (p[6] != q[6] || p[7] != q[7]));
    }
  }

  lemma MetaAndDataDiffer(prefix: Prefixes, k: Kind, i: string, l: Kind, j: string)
    ensures MetaKey(prefix, k, i) != DataKey(prefix, l, j)
  {
    var m, d := MetaKey(prefix, k, i), DataKey(prefix, l, j);
    assert m[|m| - 1] == 'n';
    assert d[|d| - 1] == 'z' || d[|d| - 1] == 'y';
  }

  lemma KeyStart(prefix: Prefixes, k: Kind, l: Kind, rest: string)
    requires PrefixFree(prefix) && prefix(l) <= prefix(k) + rest
    ensures k == l
  {
    if |prefix(l)| <= |prefix(k)| {
      assert prefix(l) <= prefix(k);
    } else {
      assert prefix(k) <= prefix(l);
    }
  }

  lemma SameRest(p: string, i: string, j: string, ext: string)
    requires p + i + ext == p + j + ext
    ensures i == j
  {
    assert |i| == |j|;
    assert (p + i + ext)[|p|..|p| + |i|] == i;
    assert (p + j + ext)[|p|..|p| + |j|] == j;
  }

  lemma MetaKeyInjective(prefix: Prefixes, k: Kind, i: string, l: Kind, j: string)
    requires PrefixFree(prefix) && MetaKey(prefix, k, i) == MetaKey(prefix, l, j)
    ensures k == l && i == j
  {
    assert MetaKey(prefix, k, i) == prefix(k) + (i + ".meta.json");
    assert prefix(l) <= MetaKey(prefix, l, j);
    KeyStart(prefix, k, l, i + ".meta.json");
    SameRest(prefix(k), i, j, ".meta.json");
  }

  lemma DataKeyParts(prefix: Prefixes, kind: Kind, id: string)
    ensures DataKey(prefix, kind, id) == prefix(kind) + (id + "." + kind.DataExt())
    ensures DataKey(prefix, kind, id) == prefix(kind) + id + ("." + kind.DataExt())
    ensures prefix(kind) <= DataKey(prefix, kind, id)
  {
  }

  lemma DataKeyInjective(prefix: Prefixes, k: Kind, i: string, l: Kind, j: string)
    requires PrefixFree(prefix) && DataKey(prefix, k, i) == DataKey(prefix, l, j)
    ensures k == l && i == j
  {
    DataKeyParts(prefix, k, i);
    DataKeyParts(prefix, l, j);
    hide DataKey;
    KeyStart(prefix, k, l, i + "." + k.DataExt());
    SameRest(prefix(k), i, j, "." + k.DataExt());
  }

  lemma PrefixFreeSeparates(prefix: Prefixes)
    requires PrefixFree(prefix)
    ensures KeysSeparate(prefix)
  {
    forall k, l, i | prefix(l) <= MetaKey(prefix, k, i) ensures k == l {
      assert MetaKey(prefix, k, i) == prefix(k) + (i + ".meta.json");
      KeyStart(prefix, k, l, i + ".meta.json");
    }
    forall k, l, i | prefix(l) <= DataKey(prefix, k, i) ensures k == l {
      assert DataKey(prefix, k, i) == prefix(k) + (i + "." + k.DataExt());
      KeyStart(prefix, k, l, i + "." + k.DataExt());
    }
    forall k, l, i, j | MetaKey(prefix, k, i) == MetaKey(prefix, l, j) ensures k == l && i == j {
      MetaKeyInjective(prefix, k, i, l, j);
    }
    forall k, l, i, j | DataKey(prefix, k, i) == DataKey(prefix, l, j) ensures k == l && i == j {
      DataKeyInjective(prefix, k, i, l, j);
    }
    forall k, l, i, j ensures MetaKey(prefix, k, i) != DataKey(prefix, l, j) {
      MetaAndDataDiffer(prefix, k, i, l, j);
    }
  }

  lemma NestedPrefixesCollide(prefix: Prefixes, k: Kind, l: Kind)
    requires prefix(k) <= prefix(l)
    ensures MetaKey(prefix, k, prefix(l)[|prefix(k)|..]) == MetaKey(prefix, l, "")
  {
    assert prefix(k) + prefix(l)[|prefix(k)|..] == prefix(l);
  }

  /** Keys separate kinds exactly when no configured prefix is a prefix of another. */
  lemma SeparateExactlyWhenPrefixFree(prefix: Prefixes)
    ensures KeysSeparate(prefix) <==> PrefixFree(prefix)
  {
    if PrefixFree(prefix) {
      PrefixFreeSeparates(prefix);
    }
    forall k, l | k != l && prefix(k) <= prefix(l) ensures !KeysSeparate(prefix) {
      NestedPrefixesCollide(prefix, k, l);
    }
  }

  /** The id `_list_ids` reads off a key of the kind. */
  function ListedId(prefix: Prefixes, kind: Kind, key: string): string
    requires prefix(kind) <= key
  {
    FirstSegment(key[|prefix(kind)|..])
  }

  /** A key is listed under the first segment of its object's id. */
  lemma ListedIdOfKey(prefix: Prefixes, kind: Kind, id: string)
    ensures prefix(kind) <= MetaKey(prefix, kind, id) && prefix(kind) <= DataKey(prefix, kind, id)
    ensures ListedId(prefix, kind, MetaKey(prefix, kind, id)) == FirstSegment(id)
    ensures ListedId(prefix, kind, DataKey(prefix, kind, id)) == FirstSegment(id)
  {
    assert MetaKey(prefix, kind, id)[|prefix(kind)|..] == id + "." + "meta.json";
    assert DataKey(prefix, kind, id)[|prefix(kind)|..] == id + "." + kind.DataExt();
    FirstSegmentOfDotted(id, "meta.json");
    FirstSegmentOfDotted(id, kind.DataExt());
  }
}
