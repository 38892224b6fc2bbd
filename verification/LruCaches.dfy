/** The two LRU caches: the embedding cache over an ordered dictionary (`embeddings/cache.py`) and
    the list-based baseline (`benchmarks/baselines/agentic.py`). */
module LruCaches {
  import opened Collections
  import opened LruModel

  class CachedEmbeddingService<V(0)> {
    const maxCacheSize: nat
    const cacheKey: string -> string
    const backend: string -> V
    var order: seq<string>        // the dictionary's keys, least recent first
    var cache: map<string, V>
    ghost var embedded: set<string>   // every text embedded so far

    ghost predicate Valid()
      reads this
    {
      && maxCacheSize > 0 && |order| <= maxCacheSize && Distinct(order)
      && cache.Keys == ToSet(order)
      && forall k :: k in cache ==> exists text :: text in embedded && cacheKey(text) == k && cache[k] == backend(text)
    }

    constructor (backend: string -> V, cacheKey: string -> string, maxCacheSize: nat)
      requires maxCacheSize > 0
      ensures Valid() && order == [] && embedded == {}
      ensures this.backend == backend && this.cacheKey == cacheKey && this.maxCacheSize == maxCacheSize
    {
      this.backend, this.cacheKey, this.maxCacheSize := backend, cacheKey, maxCacheSize;
      order, cache, embedded := [], map[], {};
    }

    /** The answer is the backend's for some text embedded under the same key, so for this very text
        as long as the keys tell apart the texts embedded so far. */
    method Embed(text: string) returns (embedding: V, ghost hit: bool)
      requires Valid()
      modifies this
      ensures Valid() && order == LruStep(old(order), maxCacheSize, cacheKey(text))
      ensures embedded == old(embedded) + {text} && (hit <==> cacheKey(text) in old(order))
      ensures exists t :: t in embedded && cacheKey(t) == cacheKey(text) && embedding == backend(t)
      ensures !hit || InjectiveOn(cacheKey, embedded) ==> embedding == backend(text)
    {
      var key := cacheKey(text);
      hit := key in order;
      embedded := embedded + {text};
      WithoutDistinct(order, key);
      if key in cache {
        assert key in order;
        embedding := cache[key];
        order := Without(order, key) + [key];
        return;
      }
      assert key !in order;
      WithoutAbsent(order, key);
      embedding := backend(text);
      ToSetSnoc(order, key);
      cache := cache[key := embedding];
      order := order + [key];
      EvictIfNeeded();
    }

    method EvictIfNeeded()
      requires maxCacheSize > 0 && Distinct(order) && cache.Keys == ToSet(order)
      modifies this`order, this`cache
      ensures order == Newest(old(order), maxCacheSize) && Distinct(order) && cache.Keys == ToSet(order)
      ensures forall k :: k in cache ==> k in old(cache) && cache[k] == old(cache)[k]
    {
      while |order| > maxCacheSize
        invariant Distinct(order) && cache.Keys == ToSet(order)
        invariant |order| >= maxCacheSize || order == old(order)
        invariant |order| <= |old(order)| && order == old(order)[|old(order)| - |order|..]
        invariant forall k :: k in cache ==> k in old(cache) && cache[k] == old(cache)[k]
      {
        PopOldest();
      }
    }

    method PopOldest()
      requires order != [] && Distinct(order) && cache.Keys == ToSet(order)
      modifies this`order, this`cache
      ensures order == old(order)[1..] && Distinct(order)
      ensures cache == old(cache) - {old(order)[0]} && cache.Keys == ToSet(order)
    {
      ghost var before := order;
      assert before == [before[0]] + before[1..];
      assert before[0] !in before[1..];
      cache := cache - {order[0]};
      order := order[1..];
    }

    /** The cache keys of a batch. */
    function Keys(texts: seq<string>): seq<string> {
      if texts == [] then [] else Keys(texts[..|texts| - 1]) + [cacheKey(texts[|texts| - 1])]
    }

    /** Each text got its own embedding. */
    ghost predicate Answered(texts: seq<string>, embeddings: seq<V>) {
      |embeddings| == |texts| && forall i :: 0 <= i < |texts| ==> embeddings[i] == backend(texts[i])
    }

    /** One more text of a batch. */
    lemma BatchSnoc(start: seq<string>, texts: seq<string>, text: string)
      ensures var keys := Keys(texts + [text]);
              && LruFrom(start, keys, maxCacheSize) == LruStep(LruFrom(start, Keys(texts), maxCacheSize), maxCacheSize, cacheKey(text))
              && HitsFrom(start, keys, maxCacheSize)
                 == HitsFrom(start, Keys(texts), maxCacheSize) + [cacheKey(text) in LruFrom(start, Keys(texts), maxCacheSize)]
    {
      assert (texts + [text])[..|texts|] == texts;
      TraceSnoc(start, Keys(texts), maxCacheSize, cacheKey(text));
    }

    lemma AnsweredSnoc(texts: seq<string>, embeddings: seq<V>, text: string, before: set<string>, after: set<string>)
      requires before <= after && (InjectiveOn(cacheKey, before) ==> Answered(texts, embeddings))
      ensures InjectiveOn(cacheKey, after) ==> Answered(texts + [text], embeddings + [backend(text)])
    {
      if InjectiveOn(cacheKey, after) {
        InjectiveOnSubset(cacheKey, before, after);
      }
    }

    method EmbedBatch(texts: seq<string>) returns (embeddings: seq<V>, ghost hits: seq<bool>)
      requires Valid()
      modifies this
      ensures Valid() && embedded == old(embedded) + ToSet(texts)
      ensures InjectiveOn(cacheKey, embedded) ==> Answered(texts, embeddings)
      ensures order == LruFrom(old(order), Keys(texts), maxCacheSize)
      ensures hits == HitsFrom(old(order), Keys(texts), maxCacheSize)
    {
      assert Answered([], []) && Keys([]) == [];
      assert LruFrom(order, [], maxCacheSize) == order && HitsFrom(order, [], maxCacheSize) == [];
      hide LruStep, LruFrom, HitsFrom, Keys, Answered, InjectiveOn, Valid;
      embeddings, hits := [], [];
      for i := 0 to |texts|
        invariant Valid() && embedded == old(embedded) + ToSet(texts[..i])
        invariant InjectiveOn(cacheKey, embedded) ==> Answered(texts[..i], embeddings)
        invariant order == LruFrom(old(order), Keys(texts[..i]), maxCacheSize)
        invariant hits == HitsFrom(old(order), Keys(texts[..i]), maxCacheSize)
      {
        ghost var before := embedded;
        assert texts[..i + 1] == texts[..i] + [texts[i]];
        ToSetSnoc(texts[..i], texts[i]);
        BatchSnoc(old(order), texts[..i], texts[i]);
        var e, hit := Embed(texts[i]);
        AnsweredSnoc(texts[..i], embeddings, texts[i], before, embedded);
        embeddings := embeddings + [e];
        hits := hits + [hit];
      }
      assert texts[..|texts|] == texts;
    }
  }

  /** `list.remove`: drops the first occurrence. */
  function RemoveFirst(xs: seq<string>, x: string): seq<string>
    requires x in xs
  {
    if xs[0] == x then xs[1..] else [xs[0]] + RemoveFirst(xs[1..], x)
  }

  lemma {:induction false} RemoveFirstOfDistinct(xs: seq<string>, x: string)
    requires Distinct(xs) && x in xs
    ensures RemoveFirst(xs, x) == Without(xs, x)
  {
    assert xs == [xs[0]] + xs[1..];
    if xs[0] == x {
      WithoutAbsent(xs[1..], x);
    } else {
      RemoveFirstOfDistinct(xs[1..], x);
    }
  }

  class AgentLruBaseline {
    const capacity: nat
    var recentSteps: seq<string>

    ghost predicate Valid()
      reads this
    {
      capacity > 0 && |recentSteps| <= capacity && Distinct(recentSteps)
    }

    constructor (capacity: nat)
      requires capacity > 0
      ensures Valid() && recentSteps == [] && this.capacity == capacity
    {
      this.capacity := capacity;
      recentSteps := [];
    }

    method Process(cacheKey: string) returns (isHit: bool, evicted: bool)
      requires Valid()
      modifies this
      ensures Valid() && recentSteps == LruStep(old(recentSteps), capacity, cacheKey)
      ensures isHit <==> cacheKey in old(recentSteps)
      ensures evicted <==> !isHit && |old(recentSteps)| == capacity
    {
      isHit := cacheKey in recentSteps;
      evicted := Touch(cacheKey);
    }

    method Touch(key: string) returns (evicted: bool)
      requires Valid()
      modifies this
      ensures Valid() && recentSteps == LruStep(old(recentSteps), capacity, key)
      ensures evicted <==> key !in old(recentSteps) && |old(recentSteps)| == capacity
    {
      WithoutDistinct(recentSteps, key);
      if key in recentSteps {
        RemoveFirstOfDistinct(recentSteps, key);
        recentSteps := RemoveFirst(recentSteps, key);
      } else {
        WithoutAbsent(recentSteps, key);
      }
      recentSteps := recentSteps + [key];
      if |recentSteps| > capacity {
        recentSteps := recentSteps[1..];
        return true;
      }
      return false;
    }

    /** The requests of a benchmark, one after the other. */
    method ProcessAll(cacheKeys: seq<string>) returns (hits: seq<bool>)
      requires Valid()
      modifies this
      ensures Valid() && recentSteps == LruFrom(old(recentSteps), cacheKeys, capacity)
      ensures hits == HitsFrom(old(recentSteps), cacheKeys, capacity)
    {
      hits := [];
      for i := 0 to |cacheKeys|
        invariant Valid() && recentSteps == LruFrom(old(recentSteps), cacheKeys[..i], capacity)
        invariant hits == HitsFrom(old(recentSteps), cacheKeys[..i], capacity)
      {
        assert cacheKeys[..i + 1] == cacheKeys[..i] + [cacheKeys[i]];
        TraceSnoc(old(recentSteps), cacheKeys[..i], capacity, cacheKeys[i]);
        var isHit, _ := Process(cacheKeys[i]);
        hits := hits + [isHit];
      }
      assert cacheKeys[..|cacheKeys|] == cacheKeys;
    }
  }

  /** From the same keys and with the same capacity, the list gives the hits of the ordered dictionary
      and ends with its keys. */
  method SameHits<V(0)>(service: CachedEmbeddingService<V>, baseline: AgentLruBaseline, texts: seq<string>)
    returns (ghost hits: seq<bool>, listHits: seq<bool>)
    requires service.Valid() && baseline.Valid()
    requires service.order == baseline.recentSteps && service.maxCacheSize == baseline.capacity
    modifies service, baseline
    ensures hits == listHits == HitsFrom(old(service.order), service.Keys(texts), baseline.capacity)
    ensures service.order == baseline.recentSteps
  {
    var _, ds := service.EmbedBatch(texts);
    hits := ds;
    listHits := baseline.ProcessAll(service.Keys(texts));
  }
}
