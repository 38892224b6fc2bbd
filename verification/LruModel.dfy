/** Least-recently-used order: the one specification of the two LRU caches. */
module LruModel {
  import opened Collections

  /** `key` becomes the most recent. */
  function Touched(order: seq<string>, key: string): seq<string> { Without(order, key) + [key] }

  /** The last `n` elements. */
  function Newest(order: seq<string>, n: nat): seq<string> {
    if |order| <= n then order else order[|order| - n..]
  }

  function LruStep(order: seq<string>, capacity: nat, key: string): seq<string> {
    Newest(Touched(order, key), capacity)
  }

  /** A cache's keys, oldest first, after a trace of accesses from the keys `start`. */
  function LruFrom(start: seq<string>, trace: seq<string>, capacity: nat): seq<string> {
    if trace == [] then start
    else LruStep(LruFrom(start, trace[..|trace| - 1], capacity), capacity, trace[|trace| - 1])
  }

  /** Whether each access of the trace hits. */
  function HitsFrom(start: seq<string>, trace: seq<string>, capacity: nat): seq<bool> {
    if trace == [] then []
    else
      var front := trace[..|trace| - 1];
      HitsFrom(start, front, capacity) + [trace[|trace| - 1] in LruFrom(start, front, capacity)]
  }

  function LruAfter(trace: seq<string>, capacity: nat): seq<string> { LruFrom([], trace, capacity) }

  function HitsOf(trace: seq<string>, capacity: nat): seq<bool> { HitsFrom([], trace, capacity) }

  /** One more access. */
  lemma TraceSnoc(start: seq<string>, trace: seq<string>, capacity: nat, key: string)
    ensures LruFrom(start, trace + [key], capacity) == LruStep(LruFrom(start, trace, capacity), capacity, key)
    ensures HitsFrom(start, trace + [key], capacity)
         == HitsFrom(start, trace, capacity) + [key in LruFrom(start, trace, capacity)]
  {
    assert (trace + [key])[..|trace|] == trace;
  }

  /** Reference: all distinct keys of the trace, by last access. */
  function Recency(trace: seq<string>): seq<string> {
    if trace == [] then [] else Touched(Recency(trace[..|trace| - 1]), trace[|trace| - 1])
  }

  function LastAccess(trace: seq<string>, key: string): int {
    if trace == [] then -1
    else if trace[|trace| - 1] == key then |trace| - 1
    else LastAccess(trace[..|trace| - 1], key)
  }

  lemma NewestOfConcat(gone: seq<string>, kept: seq<string>, n: nat)
    requires |kept| >= n
    ensures Newest(gone + kept, n) == Newest(kept, n)
  {
  }

  /** Dropping the oldest first does not matter to what a touch leaves newest. */
  lemma TouchedParts(gone: seq<string>, kept: seq<string>, key: string)
    requires Distinct(gone + kept)
    ensures Touched(gone + kept, key) == Without(gone, key) + Touched(kept, key)
    ensures key !in kept ==> Touched(kept, key) == kept + [key]
    ensures key in kept ==> Without(gone, key) == gone && |Touched(kept, key)| == |kept|
  {
    WithoutConcat(gone, kept, key);
    assert Distinct(kept) by {
      assert forall i :: 0 <= i < |kept| ==> kept[i] == (gone + kept)[|gone| + i];
    }
    WithoutDistinct(kept, key);
    if key in kept {
      var j :| 0 <= j < |kept| && kept[j] == key;
      assert (gone + kept)[|gone| + j] == key;
      assert forall i :: 0 <= i < |gone| ==> gone[i] == (gone + kept)[i];
      WithoutAbsent(gone, key);
    } else {
      WithoutAbsent(kept, key);
    }
  }

  /** A bounded cache keeps exactly the newest of what an unbounded one would. */
  lemma StepKeepsNewest(order: seq<string>, capacity: nat, key: string)
    requires Distinct(order) && capacity > 0
    ensures LruStep(Newest(order, capacity), capacity, key) == Newest(Touched(order, key), capacity)
  {
    if |order| > capacity {
      hide Touched;
      var gone, kept := order[..|order| - capacity], order[|order| - capacity..];
      assert order == gone + kept;
      TouchedParts(gone, kept, key);
      NewestOfConcat(Without(gone, key), Touched(kept, key), capacity);
    }
  }

  lemma {:induction false} RecencyIsDistinct(trace: seq<string>)
    ensures Distinct(Recency(trace))
    ensures forall k :: k in Recency(trace) <==> k in trace
  {
    if trace != [] {
      var front, last := trace[..|trace| - 1], trace[|trace| - 1];
      assert trace == front + [last];
      RecencyIsDistinct(front);
      WithoutDistinct(Recency(front), last);
    }
  }

  ghost predicate ByLastAccess(order: seq<string>, trace: seq<string>) {
    forall i, j :: 0 <= i < j < |order| ==> LastAccess(trace, order[i]) < LastAccess(trace, order[j])
  }

  lemma {:induction false} WithoutKeepsOrder(order: seq<string>, key: string, trace: seq<string>)
    requires ByLastAccess(order, trace)
    ensures ByLastAccess(Without(order, key), trace)
  {
    if order != [] {
      var rest := order[1..];
      assert order == [order[0]] + rest;
      WithoutKeepsOrder(rest, key, trace);
      forall k | k in Without(rest, key) ensures LastAccess(trace, order[0]) < LastAccess(trace, k) {
        var j :| 0 <= j < |rest| && rest[j] == k;
        assert order[j + 1] == k;
      }
    }
  }

  lemma {:induction false} LastAccessBound(trace: seq<string>, key: string)
    ensures LastAccess(trace, key) < |trace|
    ensures LastAccess(trace, key) >= 0 ==> trace[LastAccess(trace, key)] == key
  {
    if trace != [] && trace[|trace| - 1] != key {
      LastAccessBound(trace[..|trace| - 1], key);
    }
  }

  /** The reference lists keys in the order of their last accesses. */
  lemma {:induction false} RecencyIsByLastAccess(trace: seq<string>)
    ensures ByLastAccess(Recency(trace), trace)
  {
    if trace != [] {
      var front, last := trace[..|trace| - 1], trace[|trace| - 1];
      RecencyIsByLastAccess(front);
      WithoutKeepsOrder(Recency(front), last, front);
      var kept := Without(Recency(front), last);
      forall k | k in kept ensures LastAccess(trace, k) == LastAccess(front, k) < |trace| - 1 {
        LastAccessBound(front, k);
      }
      forall i, j | 0 <= i < j < |Recency(trace)|
        ensures LastAccess(trace, Recency(trace)[i]) < LastAccess(trace, Recency(trace)[j])
      {
        assert kept[i] in kept;
        if j < |kept| {
          assert kept[j] in kept;
        }
      }
    }
  }

  /** After any trace the cache holds exactly the `capacity` most recent distinct keys, in order. */
  lemma {:induction false} HoldsMostRecent(trace: seq<string>, capacity: nat)
    requires capacity > 0
    ensures LruAfter(trace, capacity) == Newest(Recency(trace), capacity)
  {
    if trace != [] {
      var front, last := trace[..|trace| - 1], trace[|trace| - 1];
      HoldsMostRecent(front, capacity);
      RecencyIsDistinct(front);
      StepKeepsNewest(Recency(front), capacity, last);
    }
  }

  /** Inclusion: a larger cache holds everything a smaller one does on the same trace. */
  lemma LargerIncludesSmaller(trace: seq<string>, small: nat, large: nat, key: string)
    requires 0 < small <= large && key in LruAfter(trace, small)
    ensures key in LruAfter(trace, large)
  {
    HoldsMostRecent(trace, small);
    HoldsMostRecent(trace, large);
  }

  /** So every hit of the smaller cache is a hit of the larger. */
  lemma {:induction false} HitsAreMonotone(trace: seq<string>, small: nat, large: nat)
    requires 0 < small <= large
    ensures |HitsOf(trace, small)| == |HitsOf(trace, large)| == |trace|
    ensures forall i :: 0 <= i < |trace| && HitsOf(trace, small)[i] ==> HitsOf(trace, large)[i]
  {
    if trace != [] {
      var front, last := trace[..|trace| - 1], trace[|trace| - 1];
      HitsAreMonotone(front, small, large);
      if last in LruAfter(front, small) {
        LargerIncludesSmaller(front, small, large, last);
      }
    }
  }

  /** The distinct keys accessed after the last access of `key`. */
  function UsedSince(trace: seq<string>, key: string): set<string>
    requires key in trace
  {
    LastAccessOf(trace, key);
    ToSet(trace[LastAccess(trace, key) + 1..])
  }

  lemma {:induction false} LastAccessOf(trace: seq<string>, key: string)
    requires key in trace
    ensures 0 <= LastAccess(trace, key) < |trace| && trace[LastAccess(trace, key)] == key
  {
    LastAccessBound(trace, key);
    var i :| 0 <= i < |trace| && trace[i] == key;
    LastAccessIsLast(trace, i);
  }

  lemma {:induction false} LastAccessIsLast(trace: seq<string>, i: nat)
    requires i < |trace|
    ensures i <= LastAccess(trace, trace[i])
  {
    if trace[|trace| - 1] != trace[i] {
      LastAccessIsLast(trace[..|trace| - 1], i);
    }
  }

  /** The keys after a key in recency order are the distinct keys used since its last access. */
  lemma LaterKeysAreUsedSince(trace: seq<string>, at: nat)
    requires at < |Recency(trace)| && Recency(trace)[at] in trace
    ensures ToSet(Recency(trace)[at + 1..]) == UsedSince(trace, Recency(trace)[at])
  {
    var order, key := Recency(trace), Recency(trace)[at];
    var last := LastAccess(trace, key);
    RecencyIsDistinct(trace);
    RecencyIsByLastAccess(trace);
    LastAccessOf(trace, key);
    var later, since := order[at + 1..], trace[last + 1..];
    forall k ensures k in later <==> k in since {
      if k in later {
        LastAccessOf(trace, k);
        assert since[LastAccess(trace, k) - last - 1] == k;
      }
      if k in since {
        var i :| 0 <= i < |since| && since[i] == k;
        LastAccessIsLast(trace, last + 1 + i);
        assert k in order;
        var j :| 0 <= j < |order| && order[j] == k;
        assert j > at && later[j - at - 1] == k;
      }
    }
  }

  /** A key accessed before is still cached exactly when fewer than `capacity` distinct keys were used
      since its last access. */
  lemma CachedExactlyWithinCapacity(trace: seq<string>, capacity: nat, key: string)
    requires capacity > 0 && key in trace
    ensures key in LruAfter(trace, capacity) <==> |UsedSince(trace, key)| < capacity
  {
    var order := Recency(trace);
    HoldsMostRecent(trace, capacity);
    RecencyIsDistinct(trace);
    assert key in order;
    var at :| 0 <= at < |order| && order[at] == key;
    LaterKeysAreUsedSince(trace, at);
    ToSetSize(order[at + 1..]);
    assert |UsedSince(trace, key)| == |order| - at - 1;
  }

  lemma {:induction false} HitAt(trace: seq<string>, capacity: nat, i: nat)
    requires i < |trace|
    ensures |HitsOf(trace, capacity)| == |trace|
    ensures HitsOf(trace, capacity)[i] <==> trace[i] in LruAfter(trace[..i], capacity)
  {
    var n := |trace| - 1;
    HitsLength(trace, capacity);
    HitsLength(trace[..n], capacity);
    if i < n {
      assert trace[..n][..i] == trace[..i];
      HitAt(trace[..n], capacity, i);
    }
  }

  lemma {:induction false} HitsLength(trace: seq<string>, capacity: nat)
    ensures |HitsOf(trace, capacity)| == |trace|
  {
    if trace != [] {
      HitsLength(trace[..|trace| - 1], capacity);
    }
  }

  /** An access hits exactly when its key was accessed before and fewer than `capacity` distinct keys
      were used since. */
  lemma HitsExactlyWithinCapacity(trace: seq<string>, capacity: nat, i: nat)
    requires capacity > 0 && i < |trace|
    ensures |HitsOf(trace, capacity)| == |trace|
    ensures HitsOf(trace, capacity)[i] <==>
              trace[i] in trace[..i] && |UsedSince(trace[..i], trace[i])| < capacity
  {
    HitAt(trace, capacity, i);
    if trace[i] in trace[..i] {
      CachedExactlyWithinCapacity(trace[..i], capacity, trace[i]);
    } else {
      HoldsMostRecent(trace[..i], capacity);
      RecencyIsDistinct(trace[..i]);
    }
  }
}
