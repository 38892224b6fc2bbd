/** The in-memory index of `metadata/metadata_store.py`: Bloom filter, token trie and semantic
    index behind one interface. */
module MetadataStores {
  import opened BloomFilters
  import opened HnswIndexes
  import opened ObjectTypes
  import opened PrefixTrees
  import opened Wrappers
  import Hnsw = HnswIndexes
  import Trie = PrefixTrees

  datatype Metadata = Metadata(added: set<string>, index: Index, semantic: Option<Slots>)

  const EMPTY_METADATA := Metadata({}, EMPTY_INDEX, None)

  datatype SemanticError = InvalidDimension | DimensionMismatch | NotAdded(error: AddError)

  function ObjectAdded(md: Metadata, kind: Kind, id: string, tokenIds: seq<int>): Metadata {
    md.(added := md.added + {id},
        index := if kind.KvCache? && tokenIds != [] then Inserted(md.index, tokenIds, id) else md.index)
  }

  function ObjectRemoved(md: Metadata, kind: Kind, id: string): Metadata {
    match kind
    case KvCache => md.(index := Trie.Removed(md.index, id))
    case SemanticCache =>
      if md.semantic.Some? then md.(semantic := Some(Hnsw.Removed(md.semantic.value, id))) else md
    case _ => md
  }

  function LastAxis(e: Embedding): nat
    requires e.shape != []
  {
    e.shape[|e.shape| - 1]
  }

  /** The semantic index an embedding goes to: the existing one, or a new one of its dimension. */
  function EnsuredSlots(md: Metadata, expectedItems: nat, dim: nat): Result<Slots, SemanticError> {
    match md.semantic
    case None => if dim == 0 then Failure(InvalidDimension) else Success(EmptySlots(dim, expectedItems))
    case Some(s) => if s.dim == dim then Success(s) else Failure(DimensionMismatch)
  }

  function SemanticEntryAdded(md: Metadata, expectedItems: nat, id: string, e: Embedding): Metadata
    requires e.shape != []
  {
    var marked := md.(added := md.added + {id});
    match EnsuredSlots(md, expectedItems, LastAxis(e))
    case Failure(_) => marked
    case Success(s) => marked.(semantic := Some(Hnsw.Added(s, id, e)))
  }

  function SemanticErrorOf(md: Metadata, expectedItems: nat, id: string, e: Embedding): Option<SemanticError>
    requires e.shape != []
  {
    match EnsuredSlots(md, expectedItems, LastAxis(e))
    case Failure(error) => Some(error)
    case Success(s) =>
      match AddErrorOf(s, id, e)
      case None => None
      case Some(error) => Some(NotAdded(error))
  }

  class MetadataStore {
    const bloom: BloomFilter
    const prefixTree: PrefixTree
    const expectedItems: nat
    var hnsw: HnswIndex?
    ghost var Repr: set<object>

    ghost predicate Valid()
      reads this, Repr
      ensures Valid() ==> this in Repr
    {
      && this in Repr && bloom in Repr && bloom.bits in Repr && prefixTree in Repr
      && prefixTree.at.Values <= Repr
      && (hnsw != null ==> hnsw in Repr)
      && bloom.Valid() && prefixTree.Valid()
      && (hnsw != null ==> WellFormed(hnsw.View()))
    }

    ghost function View(): Metadata
      reads this, bloom, prefixTree, hnsw
    {
      Metadata(bloom.added, prefixTree.view, if hnsw == null then None else Some(hnsw.View()))
    }

    constructor (bloomParams: Params, expectedItems: nat)
      requires bloomParams.Valid()
      ensures Valid() && fresh(Repr) && View() == EMPTY_METADATA
      ensures bloom.params == bloomParams && this.expectedItems == expectedItems
    {
      bloom := new BloomFilter(bloomParams);
      prefixTree := new PrefixTree();
      this.expectedItems := expectedItems;
      hnsw := null;
      new;
      Repr := {this, bloom, bloom.bits, prefixTree} + prefixTree.at.Values;
    }

    method OnObjectAdded(kind: Kind, objectId: string, tokenIds: seq<int>)
      requires Valid()
      modifies Repr
      ensures Valid() && fresh(Repr - old(Repr))
      ensures View() == ObjectAdded(old(View()), kind, objectId, tokenIds)
    {
      bloom.Add(objectId);
      if kind.KvCache? && tokenIds != [] {
        prefixTree.Insert(tokenIds, objectId);
        Repr := Repr + prefixTree.at.Values;
      }
    }

    method OnSemanticEntryAdded(objectId: string, embedding: Embedding) returns (error: Option<SemanticError>)
      requires Valid() && embedding.shape != []
      modifies Repr
      ensures Valid() && fresh(Repr - old(Repr))
      ensures View() == SemanticEntryAdded(old(View()), expectedItems, objectId, embedding)
      ensures error == SemanticErrorOf(old(View()), expectedItems, objectId, embedding)
    {
      bloom.Add(objectId);
      error := EnsureHnsw(LastAxis(embedding));
      if error.None? {
        var refused := hnsw.Add(objectId, embedding);
        error := if refused.None? then None else Some(NotAdded(refused.value));
      }
    }

    method EnsureHnsw(dim: nat) returns (error: Option<SemanticError>)
      requires Valid()
      modifies this
      ensures Valid() && fresh(Repr - old(Repr)) && Repr >= old(Repr)
      ensures bloom.added == old(bloom.added) && prefixTree.view == old(prefixTree.view)
      ensures match EnsuredSlots(old(View()), expectedItems, dim)
              case Failure(e) => error == Some(e) && View() == old(View())
              case Success(s) => error == None && hnsw != null && hnsw.View() == s
    {
      if hnsw == null {
        if dim == 0 {
          return Some(InvalidDimension);
        }
        hnsw := new HnswIndex(dim, expectedItems);
        Repr := Repr + {hnsw};
      } else if hnsw.dim != dim {
        return Some(DimensionMismatch);
      }
      return None;
    }

    method OnObjectRemoved(kind: Kind, objectId: string)
      requires Valid()
      modifies Repr
      ensures Valid() && Repr == old(Repr)
      ensures View() == ObjectRemoved(old(View()), kind, objectId)
    {
      if kind.KvCache? {
        var _ := prefixTree.Remove(objectId);
      } else if kind.SemanticCache? && hnsw != null {
        var _ := hnsw.Remove(objectId);
      }
    }

    method MightExist(objectId: string) returns (found: bool)
      requires Valid()
      ensures found <==> bloom.params.MightContain(View().added, objectId)
    {
      found := bloom.MightContain(objectId);
    }

    method FindPrefixMatches(tokenIds: Tokens) returns (matches: seq<PrefixMatch>)
      requires Valid()
      ensures IsSearchResult(matches, View().index.entries, tokenIds)
    {
      matches := prefixTree.Search(tokenIds);
    }

    method FindLongestPrefix(tokenIds: Tokens) returns (longest: Option<PrefixMatch>)
      requires Valid()
      ensures longest.None? <==> MatchSet(View().index.entries, tokenIds) == {}
      ensures longest.Some? ==>
                && longest.value in MatchSet(View().index.entries, tokenIds)
                && forall m :: m in MatchSet(View().index.entries, tokenIds) ==>
                     m.matchedLength <= longest.value.matchedLength
    {
      longest := prefixTree.LongestMatch(tokenIds);
    }
  }
}
