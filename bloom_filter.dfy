/**
 * The `BloomFilter` wrapper: the filter's parameters and its one bit array,
 * with insert, contains, their batch forms and the check-then-insert
 * `signin`, each delegating to the kernel of the same name.
 */
module Filter {
  import opened BitArray
  import opened Bloom

  /** 2^32: the capacity is stored as a `uint32`. */
  const Uint32Range: int := 0x1_0000_0000

  /** The largest hash count a `uint8` holds, plus one. */
  const Uint8Range: nat := 0x100

  class BloomFilter {
    /** Target capacity, truncated to 32 bits as `np.uint32(n)` does. */
    const n: int
    /** Target false-positive probability, kept for display only. */
    const p: real
    /** Number of addressable bits. */
    const m: nat
    /** Number of probes per item. */
    const k: nat
    /** The hash seeds shared by every filter of the process. */
    const seeds: Seeds
    /** The packed bits: `(m + 7) // 8` bytes. */
    const bitArray: array<bv8>

    /** The filter's invariant: `m` and `k` fit their integer types and the buffer has `(m + 7) // 8` bytes. */
    ghost predicate Valid()
    {
      && 1 <= m < Uint32Range
      && k < Uint8Range
      && seeds.seed1 != seeds.seed2
      && bitArray.Length == NumBytes(m)
    }

    /**
     * A fresh filter with `m` bits and `k` probes, all bits 0. The bit and
     * probe counts are given rather than derived from `n` and `p`.
     */
    constructor (n: int, p: real, m: nat, k: nat, seeds: Seeds)
      requires 1 <= m < Uint32Range && k < Uint8Range
      requires seeds.seed1 != seeds.seed2
      ensures Valid() && fresh(bitArray)
      ensures this.n == n % Uint32Range && this.p == p
      ensures this.m == m && this.k == k && this.seeds == seeds
      ensures bitArray[..] == Zeros(NumBytes(m))
    {
      this.n := n % Uint32Range;
      this.p := p;
      this.m := m;
      this.k := k;
      this.seeds := seeds;
      bitArray := new bv8[NumBytes(m)](_ => 0);
    }

    /** Sets the `k` probe bits of `item`. */
    method Insert(item: bv64)
      requires Valid()
      modifies bitArray
      ensures bitArray[..] == Inserted(old(bitArray[..]), seeds, item, k, m)
    {
      BloomInsert(bitArray, item, seeds, k, m);
    }

    /** Whether all `k` probe bits of `item` are 1. */
    method Contains(item: bv64) returns (found: bool)
      requires Valid()
      ensures found == AllProbesSet(bitArray[..], seeds, item, k, m)
    {
      var answer, _ := BloomContains(bitArray, item, seeds, k, m);
      found := answer;
    }

    /** Inserts every item of `items`, in order. */
    method BatchInsert(items: array<bv64>)
      requires Valid()
      modifies bitArray
      ensures bitArray[..] == InsertAll(old(bitArray[..]), seeds, items[..], k, m)
    {
      BloomBatchInsert(bitArray, items, seeds, k, m);
    }

    /** One `Contains` answer per item of `items`, at the item's index. */
    method BatchContains(items: array<bv64>) returns (results: array<bool>)
      requires Valid()
      ensures fresh(results) && results.Length == items.Length
      ensures forall idx :: 0 <= idx < items.Length ==>
                results[idx] == AllProbesSet(bitArray[..], seeds, items[idx], k, m)
    {
      results := BloomBatchContains(bitArray, items, seeds, k, m);
    }

    /**
     * Check-then-insert: inserts `item` only when `Contains` rejects it.
     * Either way the buffer ends as a plain insert would leave it, `item` is
     * accepted afterwards, and an item already accepted changes nothing.
     */
    method Signin(item: bv64)
      requires Valid()
      modifies bitArray
      ensures bitArray[..] == Inserted(old(bitArray[..]), seeds, item, k, m)
      ensures AllProbesSet(bitArray[..], seeds, item, k, m)
      ensures AllProbesSet(old(bitArray[..]), seeds, item, k, m) ==> bitArray[..] == old(bitArray[..])
    {
      var present := Contains(item);
      if !present {
        Insert(item);
      } else {
        InsertWhenPresent(bitArray[..], seeds, item, k, m);
      }
      NoFalseNegatives(old(bitArray[..]), seeds, item, k, m);
    }
  }

  /** A fresh filter with at least one probe rejects every item. */
  method FreshFilterRejects(n: int, p: real, m: nat, k: nat, seeds: Seeds, item: bv64) returns (found: bool)
    requires 1 <= m < Uint32Range && 1 <= k < Uint8Range
    requires seeds.seed1 != seeds.seed2
    ensures !found
  {
    var filter := new BloomFilter(n, p, m, k, seeds);
    EmptyRejectsAll(NumBytes(m), seeds, item, k, m);
    found := filter.Contains(item);
  }
}
