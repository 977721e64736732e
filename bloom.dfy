/**
 * The Bloom filter's probing scheme and its four numba kernels: insert,
 * contains, batch insert and batch contains on a packed `uint8` bit array.
 *
 * An item's `k` bit positions come from its two base hashes by double hashing
 * (Kirsch-Mitzenmacher): the i-th position is `(h1 + i * h2) % m`. The
 * specification functions below describe a kernel's effect on the contents
 * of the buffer; the lemmas prove the filter's guarantees about them.
 */
module Bloom {
  import opened HashEngine
  import opened BitArray

  /** 2^64: unsigned 64-bit arithmetic wraps modulo this. */
  const Word: int := 0x1_0000_0000_0000_0000

  /** The process-wide hash seeds; module start-up draws them until they differ. */
  datatype Seeds = Seeds(seed1: bv64, seed2: bv64)

  /**
   * The i-th probe position `(h1 + i * h2) % m`, with the sum and product
   * wrapping modulo 2^64 before the reduction modulo `m`.
   */
  function Probe(h1: bv64, h2: bv64, i: nat, m: nat): (pos: nat)
    requires m >= 1
    ensures pos < m
  {
    ((h1 as int + i * h2 as int) % Word) % m
  }

  /** The i-th probe position of `item`, from its base hashes under `seeds`. */
  function ProbeOf(seeds: Seeds, item: bv64, i: nat, m: nat): (pos: nat)
    requires m >= 1
    ensures pos < m
  {
    var (h1, h2) := HashValue(item, seeds.seed1, seeds.seed2);
    Probe(h1, h2, i, m)
  }

  /** Every probe position, all below `m`, addresses a bit of the buffer. */
  predicate Addressable(bytes: seq<bv8>, m: nat)
  {
    1 <= m <= 8 * |bytes|
  }

  /** Bit `q` is one of the first `k` probe positions of `item`. */
  ghost predicate IsProbe(seeds: Seeds, item: bv64, k: nat, m: nat, q: nat)
    requires m >= 1
  {
    exists i :: 0 <= i < k && ProbeOf(seeds, item, i, m) == q
  }

  /** Bit `q` is one of the first `k` probe positions of some item of `items`. */
  ghost predicate IsProbeOfSome(seeds: Seeds, items: seq<bv64>, k: nat, m: nat, q: nat)
    requires m >= 1
  {
    exists x :: x in items && IsProbe(seeds, x, k, m, q)
  }

  /** What `contains` answers: all of the first `k` probe bits of `item` are 1. */
  predicate AllProbesSet(bytes: seq<bv8>, seeds: Seeds, item: bv64, k: nat, m: nat)
    requires Addressable(bytes, m)
  {
    forall i :: 0 <= i < k ==> BitSet(bytes, ProbeOf(seeds, item, i, m))
  }

  /** The buffer after setting the first `k` probe bits of `item`, in probe order. */
  function Inserted(bytes: seq<bv8>, seeds: Seeds, item: bv64, k: nat, m: nat): (r: seq<bv8>)
    requires Addressable(bytes, m)
    ensures |r| == |bytes|
    decreases k
  {
    if k == 0 then bytes
    else SetBit(Inserted(bytes, seeds, item, k - 1, m), ProbeOf(seeds, item, k - 1, m))
  }

  /** The buffer after inserting `items[0]`, `items[1]`, ... one at a time. */
  function InsertAll(bytes: seq<bv8>, seeds: Seeds, items: seq<bv64>, k: nat, m: nat): (r: seq<bv8>)
    requires Addressable(bytes, m)
    ensures |r| == |bytes|
    decreases |items|
  {
    if |items| == 0 then bytes
    else Inserted(InsertAll(bytes, seeds, items[..|items| - 1], k, m), seeds, items[|items| - 1], k, m)
  }

  /**
   * Insert sets exactly the probe bits of `item`: a bit is 1 afterwards if and
   * only if it was 1 before or it is one of the `k` probe positions.
   */
  lemma {:induction false} InsertedBits(bytes: seq<bv8>, seeds: Seeds, item: bv64, k: nat, m: nat, q: nat)
    requires Addressable(bytes, m) && q < 8 * |bytes|
    ensures BitSet(Inserted(bytes, seeds, item, k, m), q) <==> BitSet(bytes, q) || IsProbe(seeds, item, k, m, q)
    decreases k
  {
    if k > 0 {
      var pos := ProbeOf(seeds, item, k - 1, m);
      InsertedBits(bytes, seeds, item, k - 1, m, q);
      SetBitBits(Inserted(bytes, seeds, item, k - 1, m), pos, q);
      if IsProbe(seeds, item, k, m, q) && q != pos {
        var i :| 0 <= i < k && ProbeOf(seeds, item, i, m) == q;
        assert i < k - 1;
        assert IsProbe(seeds, item, k - 1, m, q);
      }
      if q == pos {
        assert IsProbe(seeds, item, k, m, q) by { assert ProbeOf(seeds, item, k - 1, m) == q; }
      }
      if IsProbe(seeds, item, k - 1, m, q) {
        var i :| 0 <= i < k - 1 && ProbeOf(seeds, item, i, m) == q;
        assert IsProbe(seeds, item, k, m, q) by { assert 0 <= i < k && ProbeOf(seeds, item, i, m) == q; }
      }
    }
  }

  /** Insert never clears a bit. */
  lemma InsertNeverClears(bytes: seq<bv8>, seeds: Seeds, item: bv64, k: nat, m: nat, q: nat)
    requires Addressable(bytes, m) && q < 8 * |bytes| && BitSet(bytes, q)
    ensures BitSet(Inserted(bytes, seeds, item, k, m), q)
  {
    InsertedBits(bytes, seeds, item, k, m, q);
  }

  /** Insert leaves alone every byte that none of the probe positions falls in. */
  lemma {:induction false} InsertedLeavesOtherBytes(bytes: seq<bv8>, seeds: Seeds, item: bv64, k: nat, m: nat, j: nat)
    requires Addressable(bytes, m) && j < |bytes|
    requires forall i :: 0 <= i < k ==> ProbeOf(seeds, item, i, m) / 8 != j
    ensures Inserted(bytes, seeds, item, k, m)[j] == bytes[j]
    decreases k
  {
    if k > 0 {
      InsertedLeavesOtherBytes(bytes, seeds, item, k - 1, m, j);
    }
  }

  /** No false negatives: right after inserting `item`, every probe bit of it is 1. */
  lemma NoFalseNegatives(bytes: seq<bv8>, seeds: Seeds, item: bv64, k: nat, m: nat)
    requires Addressable(bytes, m)
    ensures AllProbesSet(Inserted(bytes, seeds, item, k, m), seeds, item, k, m)
  {
    forall i | 0 <= i < k
      ensures BitSet(Inserted(bytes, seeds, item, k, m), ProbeOf(seeds, item, i, m))
    {
      var q := ProbeOf(seeds, item, i, m);
      InsertedBits(bytes, seeds, item, k, m, q);
      assert IsProbe(seeds, item, k, m, q);
    }
  }

  /** An item that `contains` accepts stays accepted after another item is inserted. */
  lemma InsertKeepsMembers(bytes: seq<bv8>, seeds: Seeds, x: bv64, y: bv64, k: nat, m: nat)
    requires Addressable(bytes, m) && AllProbesSet(bytes, seeds, x, k, m)
    ensures AllProbesSet(Inserted(bytes, seeds, y, k, m), seeds, x, k, m)
  {
    forall i | 0 <= i < k
      ensures BitSet(Inserted(bytes, seeds, y, k, m), ProbeOf(seeds, x, i, m))
    {
      InsertNeverClears(bytes, seeds, y, k, m, ProbeOf(seeds, x, i, m));
    }
  }

  /** Inserting an item whose probe bits are all 1 already leaves the buffer unchanged. */
  lemma {:induction false} InsertWhenPresent(bytes: seq<bv8>, seeds: Seeds, item: bv64, k: nat, m: nat)
    requires Addressable(bytes, m) && AllProbesSet(bytes, seeds, item, k, m)
    ensures Inserted(bytes, seeds, item, k, m) == bytes
    decreases k
  {
    if k > 0 {
      assert AllProbesSet(bytes, seeds, item, k - 1, m);
      InsertWhenPresent(bytes, seeds, item, k - 1, m);
      SetBitWhenSet(bytes, ProbeOf(seeds, item, k - 1, m));
    }
  }

  /** Insert is idempotent: inserting an item twice is inserting it once. */
  lemma InsertIdempotent(bytes: seq<bv8>, seeds: Seeds, item: bv64, k: nat, m: nat)
    requires Addressable(bytes, m)
    ensures Inserted(Inserted(bytes, seeds, item, k, m), seeds, item, k, m) == Inserted(bytes, seeds, item, k, m)
  {
    NoFalseNegatives(bytes, seeds, item, k, m);
    InsertWhenPresent(Inserted(bytes, seeds, item, k, m), seeds, item, k, m);
  }

  /** A probe of some item of `init + [last]` is a probe of some item of `init` or of `last`. */
  lemma IsProbeOfSomeSnoc(seeds: Seeds, init: seq<bv64>, last: bv64, k: nat, m: nat, q: nat)
    requires m >= 1
    ensures IsProbeOfSome(seeds, init + [last], k, m, q)
            <==> IsProbeOfSome(seeds, init, k, m, q) || IsProbe(seeds, last, k, m, q)
  {
    var items := init + [last];
    if IsProbeOfSome(seeds, items, k, m, q) {
      var x :| x in items && IsProbe(seeds, x, k, m, q);
      if x != last {
        assert x in init;
      }
    }
    if IsProbeOfSome(seeds, init, k, m, q) {
      var x :| x in init && IsProbe(seeds, x, k, m, q);
      assert x in items;
    }
    if IsProbe(seeds, last, k, m, q) {
      assert last in items;
    }
  }

  /**
   * After a batch of inserts a bit is 1 if and only if it was 1 before or it
   * is a probe position of some item of the batch.
   */
  lemma {:induction false} InsertAllBits(bytes: seq<bv8>, seeds: Seeds, items: seq<bv64>, k: nat, m: nat, q: nat)
    requires Addressable(bytes, m) && q < 8 * |bytes|
    ensures BitSet(InsertAll(bytes, seeds, items, k, m), q) <==> BitSet(bytes, q) || IsProbeOfSome(seeds, items, k, m, q)
    decreases |items|
  {
    if |items| == 0 {
      assert !IsProbeOfSome(seeds, items, k, m, q);
    } else {
      var init, last := items[..|items| - 1], items[|items| - 1];
      assert items == init + [last];
      var before := InsertAll(bytes, seeds, init, k, m);
      assert InsertAll(bytes, seeds, items, k, m) == Inserted(before, seeds, last, k, m);
      InsertAllBits(bytes, seeds, init, k, m, q);
      InsertedBits(before, seeds, last, k, m, q);
      IsProbeOfSomeSnoc(seeds, init, last, k, m, q);
    }
  }

  /**
   * The order of a batch does not matter (bitwise OR commutes), and neither
   * do repetitions: two batches holding the same items give the same buffer.
   */
  lemma BatchOrderIrrelevant(bytes: seq<bv8>, seeds: Seeds, xs: seq<bv64>, ys: seq<bv64>, k: nat, m: nat)
    requires Addressable(bytes, m)
    requires forall x :: x in xs <==> x in ys
    ensures InsertAll(bytes, seeds, xs, k, m) == InsertAll(bytes, seeds, ys, k, m)
  {
    var a, b := InsertAll(bytes, seeds, xs, k, m), InsertAll(bytes, seeds, ys, k, m);
    forall q | 0 <= q < 8 * |a|
      ensures BitSet(a, q) <==> BitSet(b, q)
    {
      InsertAllBits(bytes, seeds, xs, k, m, q);
      InsertAllBits(bytes, seeds, ys, k, m, q);
      if IsProbeOfSome(seeds, xs, k, m, q) {
        var x :| x in xs && IsProbe(seeds, x, k, m, q);
        assert x in ys;
      }
      if IsProbeOfSome(seeds, ys, k, m, q) {
        var x :| x in ys && IsProbe(seeds, x, k, m, q);
        assert x in xs;
      }
    }
    BitsDetermineBytes(a, b);
  }

  /** Two batches one after the other are one batch of both. */
  lemma {:induction false} InsertAllAppend(bytes: seq<bv8>, seeds: Seeds, xs: seq<bv64>, ys: seq<bv64>, k: nat, m: nat)
    requires Addressable(bytes, m)
    ensures InsertAll(InsertAll(bytes, seeds, xs, k, m), seeds, ys, k, m) == InsertAll(bytes, seeds, xs + ys, k, m)
    decreases |ys|
  {
    if |ys| == 0 {
      assert xs + ys == xs;
    } else {
      var init := ys[..|ys| - 1];
      InsertAllAppend(bytes, seeds, xs, init, k, m);
      assert (xs + ys)[..|xs + ys| - 1] == xs + init;
      assert (xs + ys)[|xs + ys| - 1] == ys[|ys| - 1];
    }
  }

  /** Every item of a batch is accepted by `contains` after the batch is inserted. */
  lemma BatchNoFalseNegatives(bytes: seq<bv8>, seeds: Seeds, items: seq<bv64>, k: nat, m: nat, j: nat)
    requires Addressable(bytes, m) && j < |items|
    ensures AllProbesSet(InsertAll(bytes, seeds, items, k, m), seeds, items[j], k, m)
  {
    forall i | 0 <= i < k
      ensures BitSet(InsertAll(bytes, seeds, items, k, m), ProbeOf(seeds, items[j], i, m))
    {
      var q := ProbeOf(seeds, items[j], i, m);
      InsertAllBits(bytes, seeds, items, k, m, q);
      assert IsProbe(seeds, items[j], k, m, q);
      assert IsProbeOfSome(seeds, items, k, m, q) by { assert items[j] in items; }
    }
  }

  /** An accepted item stays accepted after any further batch of inserts. */
  lemma InsertAllKeepsMembers(bytes: seq<bv8>, seeds: Seeds, x: bv64, items: seq<bv64>, k: nat, m: nat)
    requires Addressable(bytes, m) && AllProbesSet(bytes, seeds, x, k, m)
    ensures AllProbesSet(InsertAll(bytes, seeds, items, k, m), seeds, x, k, m)
  {
    forall i | 0 <= i < k
      ensures BitSet(InsertAll(bytes, seeds, items, k, m), ProbeOf(seeds, x, i, m))
    {
      InsertAllBits(bytes, seeds, items, k, m, ProbeOf(seeds, x, i, m));
    }
  }

  /** With at least one probe, an all-zero buffer accepts no item. */
  lemma EmptyRejectsAll(len: nat, seeds: Seeds, item: bv64, k: nat, m: nat)
    requires Addressable(Zeros(len), m) && k >= 1
    ensures !AllProbesSet(Zeros(len), seeds, item, k, m)
  {
    ZerosClear(len, ProbeOf(seeds, item, 0, m));
  }

  /**
   * The insert kernel: hash once, then OR the mask of each of the `k` probe
   * positions into its byte, in probe order.
   */
  method BloomInsert(bitArray: array<bv8>, item: bv64, seeds: Seeds, k: nat, m: nat)
    requires 1 <= m <= 8 * bitArray.Length
    modifies bitArray
    ensures bitArray[..] == Inserted(old(bitArray[..]), seeds, item, k, m)
  {
    var h1, h2 := Hash(item, seeds.seed1, seeds.seed2);
    for i := 0 to k
      invariant bitArray[..] == Inserted(old(bitArray[..]), seeds, item, i, m)
    {
      var pos := Probe(h1, h2, i, m);
      assert pos == ProbeOf(seeds, item, i, m);
      bitArray[pos / 8] := bitArray[pos / 8] | Mask(pos % 8);
    }
  }

  /**
   * The contains kernel: test the probe bits in order and answer false at the
   * first one that is 0. `stop` is the number of probes examined before the
   * answer.
   */
  method BloomContains(bitArray: array<bv8>, item: bv64, seeds: Seeds, k: nat, m: nat)
    returns (found: bool, ghost stop: nat)
    requires 1 <= m <= 8 * bitArray.Length
    ensures found == AllProbesSet(bitArray[..], seeds, item, k, m)
    ensures stop <= k && (found <==> stop == k)
    ensures forall i :: 0 <= i < stop ==> BitSet(bitArray[..], ProbeOf(seeds, item, i, m))
    ensures !found ==> !BitSet(bitArray[..], ProbeOf(seeds, item, stop, m))
  {
    var h1, h2 := Hash(item, seeds.seed1, seeds.seed2);
    for i := 0 to k
      invariant forall j :: 0 <= j < i ==> BitSet(bitArray[..], ProbeOf(seeds, item, j, m))
    {
      var pos := Probe(h1, h2, i, m);
      assert pos == ProbeOf(seeds, item, i, m);
      if bitArray[pos / 8] & Mask(pos % 8) == 0 {
        assert !BitSet(bitArray[..], pos);
        return false, i;
      }
    }
    return true, k;
  }

  /** The batch insert kernel: insert the items one after another. */
  method BloomBatchInsert(bitArray: array<bv8>, items: array<bv64>, seeds: Seeds, k: nat, m: nat)
    requires 1 <= m <= 8 * bitArray.Length
    modifies bitArray
    ensures bitArray[..] == InsertAll(old(bitArray[..]), seeds, items[..], k, m)
  {
    for idx := 0 to items.Length
      invariant bitArray[..] == InsertAll(old(bitArray[..]), seeds, items[..idx], k, m)
    {
      BloomInsert(bitArray, items[idx], seeds, k, m);
      assert items[..idx + 1][..idx] == items[..idx];
    }
    assert items[..items.Length] == items[..];
  }

  /** The batch contains kernel: one answer per item, at the item's index. */
  method BloomBatchContains(bitArray: array<bv8>, items: array<bv64>, seeds: Seeds, k: nat, m: nat)
    returns (results: array<bool>)
    requires 1 <= m <= 8 * bitArray.Length
    ensures fresh(results) && results.Length == items.Length
    ensures forall idx :: 0 <= idx < items.Length ==>
              results[idx] == AllProbesSet(bitArray[..], seeds, items[idx], k, m)
  {
    results := new bool[items.Length];
    for idx := 0 to items.Length
      invariant forall j :: 0 <= j < idx ==> results[j] == AllProbesSet(bitArray[..], seeds, items[j], k, m)
    {
      var found, _ := BloomContains(bitArray, items[idx], seeds, k, m);
      results[idx] := found;
    }
  }
}
