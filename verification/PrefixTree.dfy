/** The token trie of `metadata/prefix_tree.py`: a mutable tree of nodes with a reverse
    map from object ids to the tokens they were last inserted under. */
module PrefixTrees {
  import opened Collections
  import opened Wrappers

  type Tokens = seq<int>

  datatype PrefixMatch = PrefixMatch(objectId: string, matchedLength: nat)

  /** What a trie means: the ids stored at each token path, and the reverse map. */
  datatype Index = Index(entries: set<(Tokens, string)>, registered: map<string, Tokens>)

  const EMPTY_INDEX := Index({}, map[])

  function Inserted(ix: Index, tokenIds: Tokens, objectId: string): Index {
    Index(ix.entries + {(tokenIds, objectId)}, ix.registered[objectId := tokenIds])
  }

  function Removed(ix: Index, objectId: string): Index {
    if objectId in ix.registered then
      Index(ix.entries - {(ix.registered[objectId], objectId)}, ix.registered - {objectId})
    else
      ix
  }

  /** Every reverse-map entry is backed by an id stored at that path. */
  ghost predicate Backed(ix: Index) {
    forall id :: id in ix.registered ==> (ix.registered[id], id) in ix.entries
  }

  /** The stored blocks whose tokens are a non-empty prefix of the query. */
  ghost function MatchSet(entries: set<(Tokens, string)>, query: Tokens): set<PrefixMatch> {
    set e | e in entries && e.0 != [] && e.0 <= query :: PrefixMatch(e.1, |e.0|)
  }

  /** A correct answer to `search`: each match once, shortest first. */
  ghost predicate IsSearchResult(matches: seq<PrefixMatch>, entries: set<(Tokens, string)>, query: Tokens) {
    && (forall m :: m in matches <==> m in MatchSet(entries, query))
    && Distinct(matches)
    && (forall i, j :: 0 <= i < j < |matches| ==> matches[i].matchedLength <= matches[j].matchedLength)
  }

  // The tree a set of entries determines: one node for each prefix of a stored path.

  function Ext(p: Tokens, token: int): Tokens { p + [token] }

  lemma ExtInjective(p: Tokens, k: int, q: Tokens, j: int)
    requires Ext(p, k) == Ext(q, j)
    ensures p == q && k == j
  {
    assert Ext(p, k)[..|p|] == p && Ext(q, j)[..|q|] == q;
    assert Ext(p, k)[|p|] == k && Ext(q, j)[|q|] == j;
  }

  ghost function NodePaths(entries: set<(Tokens, string)>): set<Tokens> {
    {[]} + set e, n | e in entries && 0 <= n <= |e.0| :: e.0[..n]
  }

  ghost function IdsAt(entries: set<(Tokens, string)>, p: Tokens): set<string> {
    set e | e in entries && e.0 == p :: e.1
  }

  ghost function ShapeOf(entries: set<(Tokens, string)>): map<Tokens, set<string>> {
    map p | p in NodePaths(entries) :: IdsAt(entries, p)
  }

  class Node {
    var children: map<int, Node>
    var objectIds: set<string>

    constructor ()
      ensures children == map[] && objectIds == {}
    {
      children := map[];
      objectIds := {};
    }
  }

  class PrefixTree {
    var root: Node
    var objectToTokens: map<string, Tokens>
    ghost var at: map<Tokens, Node>  // the node reached by each path
    ghost var view: Index

    /** `at` describes the heap: it follows exactly the child links, without sharing. */
    ghost predicate Linked()
      reads this, at.Values
    {
      && [] in at && at[[]] == root
      && (forall p, k {:trigger Ext(p, k)} ::
            Ext(p, k) in at <==> p in at && k in at[p].children)
      && (forall p, k {:trigger Ext(p, k)} ::
            p in at && k in at[p].children ==> at[p].children[k] == at[Ext(p, k)])
      && (forall p, q :: p in at && q in at && at[p] == at[q] ==> p == q)
    }

    ghost predicate Occupied(p: Tokens)
      requires p in at
      reads this, at.Values
    {
      at[p].children.Keys != {} || at[p].objectIds != {}
    }

    /** No node except the root, and possibly the one at `hole`, is childless and id-less. */
    ghost predicate CanonicalExcept(hole: Tokens)
      reads this, at.Values
    {
      forall p :: p in at && p != [] && p != hole ==> Occupied(p)
    }

    ghost predicate Holds(entries: set<(Tokens, string)>)
      reads this, at.Values
    {
      forall p, id :: (p, id) in entries <==> p in at && id in at[p].objectIds
    }

    ghost predicate Valid()
      reads this, at.Values
    {
      && Linked() && CanonicalExcept([]) && Holds(view.entries)
      && objectToTokens == view.registered && Backed(view)
    }

    /** The tree itself: its node paths with the ids stored at each. */
    ghost function Shape(): map<Tokens, set<string>>
      reads this, at.Values
    {
      map p | p in at :: at[p].objectIds
    }

    constructor ()
      ensures Valid() && fresh(at.Values) && view == EMPTY_INDEX
    {
      root := new Node();
      objectToTokens := map[];
      new;
      at := map[[] := root];
      view := EMPTY_INDEX;
      assert at.Values == {root} by { assert at[[]] == root; }
    }

    lemma PathPrefix(p: Tokens, n: nat)
      requires Linked() && p in at && n <= |p|
      ensures p[..n] in at
      decreases |p| - n
    {
      if n == |p| {
        assert p[..n] == p;
      } else {
        PathPrefix(p, n + 1);
        assert p[..n + 1] == Ext(p[..n], p[n]);
      }
    }

    method Descend(ghost p: Tokens, node: Node, token: int) returns (child: Node)
      requires Linked() && p in at && at[p] == node && CanonicalExcept(p) && Holds(view.entries)
      modifies this`at, node`children
      ensures Linked() && Ext(p, token) in at && at[Ext(p, token)] == child
      ensures CanonicalExcept(Ext(p, token)) && Holds(view.entries)
      ensures fresh(at.Values - old(at.Values))
    {
      if token !in node.children {
        AddChild(p, node, token);
      }
      child := node.children[token];
    }

    method AddChild(ghost p: Tokens, node: Node, token: int)
      requires Linked() && p in at && at[p] == node && CanonicalExcept(p) && Holds(view.entries)
      requires token !in node.children
      modifies this`at, node`children
      ensures Linked() && p in at && at[p] == node && token in node.children
      ensures CanonicalExcept(Ext(p, token)) && Holds(view.entries)
      ensures fresh(at.Values - old(at.Values))
    {
      var child := new Node();
      node.children := node.children[token := child];
      at := at[Ext(p, token) := child];
      forall q, k | Ext(q, k) == Ext(p, token) ensures q == p && k == token {
        ExtInjective(q, k, p, token);
      }
    }

    method Insert(tokenIds: Tokens, objectId: string)
      requires Valid()
      modifies this, at.Values
      ensures Valid() && fresh(at.Values - old(at.Values))
      ensures view == Inserted(old(view), tokenIds, objectId)
    {
      var node := root;
      assert [] in at && at[[]] == root;
      hide Linked, CanonicalExcept, Holds;
      for i := 0 to |tokenIds|
        invariant Linked() && tokenIds[..i] in at && at[tokenIds[..i]] == node
        invariant CanonicalExcept(tokenIds[..i]) && Holds(view.entries)
        invariant view == old(view) && objectToTokens == old(objectToTokens)
        invariant fresh(at.Values - old(at.Values))
      {
        assert tokenIds[..i + 1] == Ext(tokenIds[..i], tokenIds[i]);
        node := Descend(tokenIds[..i], node, tokenIds[i]);
      }
      assert tokenIds[..|tokenIds|] == tokenIds;
      StoreId(tokenIds, node, objectId);
    }

    method StoreId(tokenIds: Tokens, node: Node, objectId: string)
      requires Linked() && tokenIds in at && at[tokenIds] == node
      requires CanonicalExcept(tokenIds) && Holds(view.entries)
      requires objectToTokens == view.registered && Backed(view)
      modifies this`objectToTokens, this`view, node`objectIds
      ensures Valid() && view == Inserted(old(view), tokenIds, objectId)
    {
      node.objectIds := node.objectIds + {objectId};
      objectToTokens := objectToTokens[objectId := tokenIds];
      view := Inserted(view, tokenIds, objectId);
    }

    method Search(tokenIds: Tokens) returns (matches: seq<PrefixMatch>)
      requires Valid()
      ensures IsSearchResult(matches, view.entries, tokenIds)
    {
      matches := [];
      var node := root;
      for i := 0 to |tokenIds|
        invariant tokenIds[..i] in at && at[tokenIds[..i]] == node
        invariant IsSearchResult(matches, view.entries, tokenIds[..i])
      {
        assert tokenIds[..i + 1] == Ext(tokenIds[..i], tokenIds[i]);
        if tokenIds[i] !in node.children {
          NothingDeeper(tokenIds, i);
          return;
        }
        node := node.children[tokenIds[i]];
        matches := AppendIds(tokenIds[..i + 1], i + 1, node, matches);
      }
      assert tokenIds[..|tokenIds|] == tokenIds;
    }

    /** Once the walk leaves the tree, longer prefixes of the query store nothing. */
    lemma NothingDeeper(tokenIds: Tokens, i: nat)
      requires Valid() && i < |tokenIds| && tokenIds[..i + 1] !in at
      ensures MatchSet(view.entries, tokenIds) == MatchSet(view.entries, tokenIds[..i])
    {
      forall e | e in view.entries && e.0 <= tokenIds ensures e.0 <= tokenIds[..i] {
        if |e.0| > i {
          assert e.0[..i + 1] == tokenIds[..i + 1];
          PathPrefix(e.0, i + 1);
        }
      }
    }

    /** The inner loop of `search`: reports every id stored at the node just reached. */
    method AppendIds(ghost path: Tokens, depth: nat, node: Node, found: seq<PrefixMatch>) returns (matches: seq<PrefixMatch>)
      requires depth == |path| && Valid() && path != [] && path in at && at[path] == node
      requires IsSearchResult(found, view.entries, path[..|path| - 1])
      ensures IsSearchResult(matches, view.entries, path)
    {
      matches := found;
      var rest := node.objectIds;
      while rest != {}
        invariant rest <= node.objectIds
        invariant forall m :: m in matches <==>
                    m in found || (m.matchedLength == |path| && m.objectId in node.objectIds - rest)
        invariant Distinct(matches)
        invariant forall i, j :: 0 <= i < j < |matches| ==> matches[i].matchedLength <= matches[j].matchedLength
      {
        var id :| id in rest;
        matches := matches + [PrefixMatch(id, depth)];
        rest := rest - {id};
      }
      SplitMatches(path);
    }

    /** Matches of a path: those of the path without its last token, and the ids stored at its end. */
    lemma SplitMatches(path: Tokens)
      requires Valid() && path != [] && path in at
      ensures forall m :: m in MatchSet(view.entries, path) <==>
                m in MatchSet(view.entries, path[..|path| - 1])
                || (m.matchedLength == |path| && m.objectId in at[path].objectIds)
    {
      var shorter := path[..|path| - 1];
      forall e | e in view.entries && e.0 <= path && e.0 != path ensures e.0 <= shorter {
        assert |e.0| < |path|;
      }
      forall m: PrefixMatch | m.matchedLength == |path| && m.objectId in at[path].objectIds
        ensures m in MatchSet(view.entries, path)
      {
        assert (path, m.objectId) in view.entries;
      }
    }

    method LongestMatch(tokenIds: Tokens) returns (longest: Option<PrefixMatch>)
      requires Valid()
      ensures longest.None? <==> MatchSet(view.entries, tokenIds) == {}
      ensures longest.Some? ==>
                && longest.value in MatchSet(view.entries, tokenIds)
                && forall m :: m in MatchSet(view.entries, tokenIds) ==> m.matchedLength <= longest.value.matchedLength
    {
      var matches := Search(tokenIds);
      if matches == [] {
        return None;
      }
      assert matches[|matches| - 1] in matches;
      return Some(matches[|matches| - 1]);
    }

    method Remove(objectId: string) returns (removed: bool)
      requires Valid()
      modifies this, at.Values
      ensures Valid() && at.Keys <= old(at.Keys) && at.Values <= old(at.Values)
      ensures view == Removed(old(view), objectId)
      ensures removed <==> objectId in old(objectToTokens)
    {
      if objectId !in objectToTokens {
        return false;
      }
      var tokenIds := objectToTokens[objectId];
      var node, path := WalkTo(tokenIds);
      DropId(tokenIds, node, objectId);
      Prune(tokenIds, path);
      return true;
    }

    /** The walk down of `remove`. The source gives up when a child is missing; for a path in
        the tree, and so for every registered id, that branch is dead. */
    method WalkTo(tokenIds: Tokens) returns (node: Node, path: seq<(int, Node)>)
      requires Valid() && tokenIds in at
      ensures at[tokenIds] == node
      ensures OnPath(tokenIds, path) && |path| == |tokenIds|
    {
      node, path := root, [];
      for i := 0 to |tokenIds|
        invariant tokenIds[..i] in at && at[tokenIds[..i]] == node
        invariant OnPath(tokenIds, path) && |path| == i
      {
        PathPrefix(tokenIds, i + 1);
        assert tokenIds[..i + 1] == Ext(tokenIds[..i], tokenIds[i]);
        if tokenIds[i] !in node.children {
          assert false;
        }
        path := path + [(tokenIds[i], node)];
        node := node.children[tokenIds[i]];
      }
      assert tokenIds[..|tokenIds|] == tokenIds;
    }

    method DropId(ghost tokenIds: Tokens, node: Node, objectId: string)
      requires Valid() && objectId in objectToTokens && objectToTokens[objectId] == tokenIds
      requires tokenIds in at && at[tokenIds] == node
      modifies this`objectToTokens, this`view, node`objectIds
      ensures Linked() && CanonicalExcept(tokenIds) && Holds(view.entries)
      ensures view == Removed(old(view), objectId) && objectToTokens == view.registered && Backed(view)
    {
      node.objectIds := node.objectIds - {objectId};
      objectToTokens := objectToTokens - {objectId};
      view := Removed(view, objectId);
    }

    /** `path` lists, for each token on the way down, the token and the node above it. */
    ghost predicate OnPath(tokenIds: Tokens, path: seq<(int, Node)>)
      reads this
    {
      && |path| <= |tokenIds|
      && forall j :: 0 <= j < |path| ==>
           path[j].0 == tokenIds[j] && tokenIds[..j] in at && at[tokenIds[..j]] == path[j].1
    }

    method Prune(ghost tokenIds: Tokens, path: seq<(int, Node)>)
      requires Linked() && CanonicalExcept(tokenIds) && Holds(view.entries)
      requires tokenIds in at && OnPath(tokenIds, path) && |path| == |tokenIds|
      modifies this`at, set j | 0 <= j < |path| :: path[j].1
      ensures Linked() && CanonicalExcept([]) && Holds(view.entries)
      ensures at.Keys <= old(at.Keys) && at.Values <= old(at.Values)
    {
      hide Linked, Holds, CanonicalExcept;
      ghost var start := at;
      var i := |path|;
      assert tokenIds[..i] == tokenIds;
      while i > 0
        invariant 0 <= i <= |path| && Linked() && Holds(view.entries) && CanonicalExcept(tokenIds[..i])
        invariant forall q :: q in at ==> q in start && at[q] == start[q]
        invariant forall q :: q in start && |q| <= i ==> q in at
      {
        var (token, parent) := path[i - 1];
        assert tokenIds[..i] == Ext(tokenIds[..i - 1], token) && tokenIds[..i - 1] in start;
        ChildIsLinked(tokenIds[..i - 1], token);
        var child := parent.children[token];
        if child.children.Keys == {} && child.objectIds == {} {
          DropLeaf(tokenIds[..i - 1], parent, token);
          i := i - 1;
        } else {
          OccupiedIsCanonical(tokenIds[..i]);
          return;
        }
      }
    }

    lemma ChildIsLinked(p: Tokens, token: int)
      requires Linked() && Ext(p, token) in at
      ensures p in at && token in at[p].children && at[p].children[token] == at[Ext(p, token)]
    {
    }

    lemma OccupiedIsCanonical(p: Tokens)
      requires p in at && Occupied(p) && CanonicalExcept(p)
      ensures CanonicalExcept([])
    {
    }

    method DropLeaf(ghost p: Tokens, parent: Node, token: int)
      requires Linked() && p in at && at[p] == parent && token in parent.children
      requires CanonicalExcept(Ext(p, token)) && Holds(view.entries)
      requires Ext(p, token) in at && !Occupied(Ext(p, token))
      modifies this`at, parent`children
      ensures Linked() && p in at && CanonicalExcept(p) && Holds(view.entries)
      ensures at == old(at) - {Ext(p, token)}
    {
      parent.children := parent.children - {token};
      at := at - {Ext(p, token)};
      forall q, k | Ext(q, k) == Ext(p, token) ensures q == p && k == token {
        ExtInjective(q, k, p, token);
      }
    }

    /** Canonical form: the tree is exactly the one its entries determine, so two histories that
        leave the same entries leave the identical tree. */
    lemma ShapeIsDetermined()
      requires Valid()
      ensures Shape() == ShapeOf(view.entries)
    {
      forall p | p in at ensures p in NodePaths(view.entries) {
        if p != [] {
          LeadsToEntry(p);
        }
      }
      forall e, n | e in view.entries && 0 <= n <= |e.0| ensures e.0[..n] in at {
        PathPrefix(e.0, n);
      }
      assert at.Keys == NodePaths(view.entries);
      forall p | p in at ensures at[p].objectIds == IdsAt(view.entries, p) {
        forall id | id in at[p].objectIds ensures id in IdsAt(view.entries, p) {
          assert (p, id) in view.entries;
        }
      }
    }

    static lemma HasKey(m: map<int, Node>)
      ensures m.Keys == {} || exists k :: k in m
    {
      if forall k :: k !in m {
        assert m.Keys == {};
      }
    }

    /** Every node lies on the way to some stored id. */
    lemma LeadsToEntry(p: Tokens)
      requires Valid() && p in at && p != []
      ensures exists e, n :: e in view.entries && 0 <= n <= |e.0| && e.0[..n] == p
      decreases set q | q in at && p <= q
    {
      assert Occupied(p);
      if at[p].objectIds != {} {
        var id :| id in at[p].objectIds;
        var e := (p, id);
        assert e in view.entries && e.0[..|p|] == p;
      } else {
        HasKey(at[p].children);
        var k :| k in at[p].children;
        var child := Ext(p, k);
        var below, belowChild := set q | q in at && p <= q, set q | q in at && child <= q;
        assert belowChild < below by {
          assert p <= child;
          assert p in below && p !in belowChild;
        }
        LeadsToEntry(child);
        var e, n :| e in view.entries && 0 <= n <= |e.0| && e.0[..n] == child;
        assert e.0[..|p|] == p;
      }
    }
  }
}
