/** Python's `sorted`: a set listed in a total order, and a stable sort of a list by a real key. */
module Sorting {
  import opened Collections

  // Listing a set in order

  ghost predicate TotalOrder<T(!new)>(le: (T, T) -> bool) {
    && (forall x, y :: le(x, y) || le(y, x))
    && (forall x, y :: le(x, y) && le(y, x) ==> x == y)
    && (forall x, y, z :: le(x, y) && le(y, z) ==> le(x, z))
  }

  ghost predicate SortedBy<T>(s: seq<T>, le: (T, T) -> bool) {
    forall i, j :: 0 <= i < j < |s| ==> le(s[i], s[j])
  }

  ghost predicate IsListing<T>(r: seq<T>, s: set<T>, le: (T, T) -> bool) {
    ToSet(r) == s && Distinct(r) && SortedBy(r, le)
  }

  lemma {:induction false} ListingUnique<T(!new)>(a: seq<T>, b: seq<T>, s: set<T>, le: (T, T) -> bool)
    requires TotalOrder(le) && IsListing(a, s, le) && IsListing(b, s, le)
    ensures a == b
    decreases |a|
  {
    ToSetSize(a);
    ToSetSize(b);
    if a != [] {
      var x, y := a[0], b[0];
      assert x in ToSet(b) && y in ToSet(a);
      assert x == y;
      forall z ensures z in a[1..] <==> z in s && z != x {
        assert a == [x] + a[1..];
      }
      forall z ensures z in b[1..] <==> z in s && z != x {
        assert b == [x] + b[1..];
      }
      ListingUnique(a[1..], b[1..], s - {x}, le);
    }
  }

  /** `sorted(s)` for a set `s`. */
  method SortSet<T(==, !new)>(s: set<T>, le: (T, T) -> bool) returns (r: seq<T>)
    requires TotalOrder(le)
    ensures IsListing(r, s, le)
  {
    r := [];
    var rest := s;
    while rest != {}
      invariant rest <= s && IsListing(r, s - rest, le)
    {
      var x :| x in rest;
      var i := 0;
      while i < |r| && le(r[i], x)
        invariant 0 <= i <= |r|
        invariant forall j :: 0 <= j < i ==> le(r[j], x)
      {
        i := i + 1;
      }
      InsertListed(r, s - rest, le, x, i);
      r := r[..i] + [x] + r[i..];
      rest := rest - {x};
      assert s - rest == (s - (rest + {x})) + {x};
    }
    assert s - rest == s;
  }

  lemma InsertListed<T(!new)>(r: seq<T>, s: set<T>, le: (T, T) -> bool, x: T, i: nat)
    requires TotalOrder(le) && IsListing(r, s, le) && x !in s && i <= |r|
    requires forall j :: 0 <= j < i ==> le(r[j], x)
    requires i < |r| ==> !le(r[i], x)
    ensures IsListing(r[..i] + [x] + r[i..], s + {x}, le)
  {
    InsertedElements(r, x, i);
    InsertedSorted(r, le, x, i);
  }

  lemma InsertedElements<T>(r: seq<T>, x: T, i: nat)
    requires i <= |r| && Distinct(r) && x !in ToSet(r)
    ensures var t := r[..i] + [x] + r[i..]; Distinct(t) && ToSet(t) == ToSet(r) + {x}
  {
    var t := r[..i] + [x] + r[i..];
    assert forall j :: 0 <= j < |r| ==> r[j] in ToSet(r);
    forall z ensures z in t <==> z in r || z == x {
      assert r == r[..i] + r[i..];
    }
  }

  lemma InsertedSorted<T(!new)>(r: seq<T>, le: (T, T) -> bool, x: T, i: nat)
    requires TotalOrder(le) && SortedBy(r, le) && i <= |r|
    requires forall j :: 0 <= j < i ==> le(r[j], x)
    requires i < |r| ==> !le(r[i], x)
    ensures SortedBy(r[..i] + [x] + r[i..], le)
  {
    forall j | i <= j < |r| ensures le(x, r[j]) {
      assert le(x, r[i]);
      assert j > i ==> le(r[i], r[j]);
    }
  }

  // Stable sorting by a key, largest first

  function Insert<T>(xs: seq<T>, x: T, key: T -> real): seq<T> {
    if xs == [] then [x]
    else if key(xs[|xs| - 1]) >= key(x) then xs + [x]
    else Insert(xs[..|xs| - 1], x, key) + [xs[|xs| - 1]]
  }

  /** `sorted(xs, key=key, reverse=True)`: later elements go after earlier ones of equal key. */
  function StableDescending<T>(xs: seq<T>, key: T -> real): seq<T> {
    if xs == [] then []
    else Insert(StableDescending(xs[..|xs| - 1], key), xs[|xs| - 1], key)
  }

  ghost predicate Descending<T>(xs: seq<T>, key: T -> real) {
    forall i, j :: 0 <= i < j < |xs| ==> key(xs[i]) >= key(xs[j])
  }

  /** The elements of one key value, in list order. */
  function OfKey<T>(xs: seq<T>, key: T -> real, v: real): seq<T> {
    if xs == [] then []
    else if key(xs[|xs| - 1]) == v then OfKey(xs[..|xs| - 1], key, v) + [xs[|xs| - 1]]
    else OfKey(xs[..|xs| - 1], key, v)
  }

  lemma {:induction false} InsertPermutes<T>(xs: seq<T>, x: T, key: T -> real)
    ensures multiset(Insert(xs, x, key)) == multiset(xs) + multiset{x}
  {
    if xs != [] && key(xs[|xs| - 1]) < key(x) {
      InsertPermutes(xs[..|xs| - 1], x, key);
      assert xs == xs[..|xs| - 1] + [xs[|xs| - 1]];
    }
  }

  /** Inserting keeps a list descending; its last key is the smaller of the two. */
  lemma {:induction false} InsertSorts<T>(xs: seq<T>, x: T, key: T -> real)
    requires Descending(xs, key)
    ensures Descending(Insert(xs, x, key), key)
    ensures var r := Insert(xs, x, key);
            r != [] && (key(r[|r| - 1]) == key(x) || (xs != [] && key(r[|r| - 1]) == key(xs[|xs| - 1])))
  {
    if xs != [] && key(xs[|xs| - 1]) < key(x) {
      InsertSorts(xs[..|xs| - 1], x, key);
    }
  }

  lemma {:induction false} InsertIsStable<T>(xs: seq<T>, x: T, key: T -> real, v: real)
    requires Descending(xs, key)
    ensures OfKey(Insert(xs, x, key), key, v) == OfKey(xs + [x], key, v)
  {
    assert (xs + [x])[..|xs|] == xs;
    if xs != [] && key(xs[|xs| - 1]) < key(x) {
      var front, last := xs[..|xs| - 1], xs[|xs| - 1];
      InsertIsStable(front, x, key, v);
      var r := Insert(front, x, key);
      assert (r + [last])[..|r|] == r;
      assert (front + [x])[..|front|] == front;
    }
  }

  lemma {:induction false} StableDescendingPermutes<T>(xs: seq<T>, key: T -> real)
    ensures multiset(StableDescending(xs, key)) == multiset(xs)
  {
    if xs != [] {
      var front, last := xs[..|xs| - 1], xs[|xs| - 1];
      assert xs == front + [last];
      StableDescendingPermutes(front, key);
      InsertPermutes(StableDescending(front, key), last, key);
    }
  }

  lemma {:induction false} StableDescendingSorts<T>(xs: seq<T>, key: T -> real)
    ensures Descending(StableDescending(xs, key), key)
  {
    if xs != [] {
      var front, last := xs[..|xs| - 1], xs[|xs| - 1];
      StableDescendingSorts(front, key);
      InsertSorts(StableDescending(front, key), last, key);
    }
  }

  /** The sort permutes its input and orders it. */
  lemma StableDescendingCorrect<T>(xs: seq<T>, key: T -> real)
    ensures multiset(StableDescending(xs, key)) == multiset(xs)
    ensures Descending(StableDescending(xs, key), key)
  {
    StableDescendingPermutes(xs, key);
    StableDescendingSorts(xs, key);
  }

  /** Elements of equal key stay in their order. */
  lemma {:induction false} StableDescendingIsStable<T>(xs: seq<T>, key: T -> real, v: real)
    ensures OfKey(StableDescending(xs, key), key, v) == OfKey(xs, key, v)
  {
    if xs != [] {
      var front, last := xs[..|xs| - 1], xs[|xs| - 1];
      var s := StableDescending(front, key);
      StableDescendingIsStable(front, key, v);
      StableDescendingSorts(front, key);
      InsertIsStable(s, last, key, v);
      assert (s + [last])[..|s|] == s;
    }
  }

  /** The head of the sort is the earliest element of largest key. */
  lemma {:induction false} HeadIsEarliestLargest<T>(xs: seq<T>, key: T -> real) returns (k: nat)
    requires xs != []
    ensures k < |xs| && StableDescending(xs, key) != [] && StableDescending(xs, key)[0] == xs[k]
    ensures forall j :: 0 <= j < |xs| ==> key(xs[j]) <= key(xs[k])
    ensures forall j :: 0 <= j < k ==> key(xs[j]) < key(xs[k])
  {
    hide Insert, Descending;
    var front, last := xs[..|xs| - 1], xs[|xs| - 1];
    if front == [] {
      InsertAlone(last, key);
      k := 0;
    } else {
      k := HeadIsEarliestLargest(front, key);
      StableDescendingSorts(front, key);
      HeadOfInsert(StableDescending(front, key), last, key);
      if key(front[k]) < key(last) {
        k := |xs| - 1;
      }
    }
  }

  lemma InsertAlone<T>(x: T, key: T -> real)
    ensures Insert([], x, key) == [x]
  {
  }

  lemma {:induction false} HeadOfInsert<T>(xs: seq<T>, x: T, key: T -> real)
    requires xs != [] && Descending(xs, key)
    ensures Insert(xs, x, key) != []
    ensures Insert(xs, x, key)[0] == if key(xs[0]) < key(x) then x else xs[0]
  {
    if key(xs[|xs| - 1]) < key(x) && |xs| > 1 {
      HeadOfInsert(xs[..|xs| - 1], x, key);
    }
  }
}
