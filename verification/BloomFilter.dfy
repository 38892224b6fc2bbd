/** The Bloom filter of `metadata/bloom_filter.py`. The two digests are parameters. */
module BloomFilters {

  /** The filter's sizes and digests, fixed when it is built. */
  datatype Params = Params(size: nat, numHashes: nat, h1: string -> nat, h2: string -> nat) {
    predicate Valid() { size >= 64 && numHashes >= 1 }

    function Index(key: string, i: nat): (b: nat)
      requires Valid()
      ensures b < size
    {
      (h1(key) + i * h2(key)) % size
    }

    /** Double hashing: the `i`-th bit is the first digest plus `i` times the second, wrapped to the size. */
    lemma IndexWraps(key: string, i: nat) returns (q: nat)
      requires Valid()
      ensures h1(key) + i * h2(key) == q * size + Index(key, i) && Index(key, i) < size
    {
      q := (h1(key) + i * h2(key)) / size;
    }

    /** Bit `b` is one of those `key` sets and tests. */
    predicate Covers(key: string, b: nat)
      requires Valid()
    {
      exists i: nat :: i < numHashes && Index(key, i) == b
    }

    ghost predicate Covered(added: set<string>, b: nat)
      requires Valid()
    {
      exists k :: k in added && Covers(k, b)
    }

    /** Every bit of `key` has been set by some added key: the filter's exact answer. */
    ghost predicate MightContain(added: set<string>, key: string)
      requires Valid()
    {
      forall i: nat :: i < numHashes ==> Covered(added, Index(key, i))
    }

    /** No false negatives: an added key is always reported. */
    lemma AddedIsReported(added: set<string>, key: string)
      requires Valid() && key in added
      ensures MightContain(added, key)
    {
      forall i: nat | i < numHashes ensures Covers(key, Index(key, i)) {
      }
    }
  }

  function Mask(bit: nat): bv8
    requires bit < 8
  {
    1 << bit
  }

  predicate HasBit(byte: bv8, bit: nat)
    requires bit < 8
  {
    byte & Mask(bit) != 0
  }

  /** Setting one bit of a byte changes that bit only. */
  lemma SetBit(byte: bv8, bit: nat, other: nat)
    requires bit < 8 && other < 8
    ensures HasBit(byte | Mask(bit), other) <==> other == bit || HasBit(byte, other)
  {
  }

  class BloomFilter {
    const params: Params
    const bits: array<bv8>
    var count: nat
    ghost var added: set<string>

    ghost predicate BitIsSet(b: nat)
      requires params.Valid() && b < params.size && bits.Length == (params.size + 7) / 8
      reads bits
    {
      HasBit(bits[b / 8], b % 8)
    }

    ghost predicate Valid()
      reads this, bits
    {
      && params.Valid() && bits.Length == (params.size + 7) / 8
      && forall b: nat :: b < params.size ==>
           (BitIsSet(b) <==> params.Covered(added, b))
    }

    constructor (params: Params)
      requires params.Valid()
      ensures Valid() && this.params == params && added == {} && count == 0 && fresh(bits)
    {
      this.params := params;
      bits := new bv8[(params.size + 7) / 8](_ => 0);
      count := 0;
      added := {};
      new;
      assert forall b: nat :: b < 8 ==> !HasBit(0, b);
    }

    method Add(key: string)
      requires Valid()
      modifies this, bits
      ensures Valid() && added == old(added) + {key} && count == old(count) + 1
    {
      for i := 0 to params.numHashes
        invariant added == old(added) && count == old(count)
        invariant forall b: nat :: b < params.size ==>
                    (BitIsSet(b) <==>
                       params.Covered(added, b) || exists j: nat :: j < i && params.Index(key, j) == b)
      {
        SetIndex(params.Index(key, i));
      }
      forall b: nat | b < params.size
        ensures params.Covered(added + {key}, b) <==> params.Covered(added, b) || params.Covers(key, b)
      {
        if params.Covers(key, b) {
          assert key in added + {key};
        }
      }
      count := count + 1;
      added := added + {key};
    }

    method SetIndex(idx: nat)
      requires params.Valid() && bits.Length == (params.size + 7) / 8 && idx < params.size
      modifies bits
      ensures forall b: nat :: b < params.size ==> (BitIsSet(b) <==> b == idx || old(BitIsSet(b)))
    {
      bits[idx / 8] := bits[idx / 8] | Mask(idx % 8);
      forall b: nat | b < params.size && b / 8 == idx / 8
        ensures BitIsSet(b) <==> b == idx || old(BitIsSet(b))
      {
        SetBit(old(bits[idx / 8]), idx % 8, b % 8);
      }
    }

    method MightContain(key: string) returns (found: bool)
      requires Valid()
      ensures found <==> params.MightContain(added, key)
      ensures key in added ==> found
    {
      hide Params.Covered;
      if key in added {
        params.AddedIsReported(added, key);
      }
      for i := 0 to params.numHashes
        invariant forall j: nat :: j < i ==> params.Covered(added, params.Index(key, j))
      {
        var idx := params.Index(key, i);
        if bits[idx / 8] & Mask(idx % 8) == 0 {
          assert !BitIsSet(idx);
          return false;
        }
        assert BitIsSet(idx);
      }
      return true;
    }
  }
}
