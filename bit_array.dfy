/**
 * The packed bit array of the Bloom filter: `m` addressable bits stored eight
 * to a byte in a `uint8` buffer of `(m + 7) // 8` bytes. Bit `pos` lives in
 * byte `pos >> 3` under the mask `1 << (pos & 7)`; for a non-negative `pos`
 * these are `pos / 8` and `pos % 8`. The buffer is only ever read or OR-ed
 * into, so the array is described by two operations on its contents:
 * testing a bit and setting one.
 */
module BitArray {

  /** The byte count `(m + 7) // 8` of the buffer allocated for `m` bits. */
  function NumBytes(m: nat): (n: nat)
    ensures m <= 8 * n < m + 8
  {
    (m + 7) / 8
  }

  /** The single-bit mask `np.uint8(1 << j)` of bit `j` within a byte. */
  function Mask(j: nat): bv8
    requires j < 8
  {
    (1 as bv8) << j
  }

  /** Whether bit `pos` of the buffer is 1: `bytes[pos >> 3] & (1 << (pos & 7)) != 0`. */
  predicate BitSet(bytes: seq<bv8>, pos: nat)
    requires pos < 8 * |bytes|
  {
    bytes[pos / 8] & Mask(pos % 8) != 0
  }

  /** The buffer after `bytes[pos >> 3] |= 1 << (pos & 7)`. */
  function SetBit(bytes: seq<bv8>, pos: nat): (r: seq<bv8>)
    requires pos < 8 * |bytes|
    ensures |r| == |bytes|
  {
    bytes[pos / 8 := bytes[pos / 8] | Mask(pos % 8)]
  }

  /** An all-zero buffer of `len` bytes, as `np.zeros(len, dtype = np.uint8)` allocates. */
  function Zeros(len: nat): (r: seq<bv8>)
    ensures |r| == len
  {
    seq(len, _ => 0)
  }

  /** OR-ing a single-bit mask into a byte sets that bit and leaves the other seven. */
  lemma MaskOr(b: bv8, j: nat, l: nat)
    requires j < 8 && l < 8
    ensures (b | Mask(j)) & Mask(l) != 0 <==> j == l || b & Mask(l) != 0
  {
  }

  /** OR-ing in a bit that is already 1 leaves the byte as it was. */
  lemma MaskOrSet(b: bv8, j: nat)
    requires j < 8 && b & Mask(j) != 0
    ensures b | Mask(j) == b
  {
  }

  /** A byte is determined by its eight bits. */
  lemma BitsDetermineByte(a: bv8, b: bv8)
    requires forall l :: 0 <= l < 8 ==> (a & Mask(l) != 0 <==> b & Mask(l) != 0)
    ensures a == b
  {
    assert a & Mask(0) != 0 <==> b & Mask(0) != 0;
    assert a & Mask(1) != 0 <==> b & Mask(1) != 0;
    assert a & Mask(2) != 0 <==> b & Mask(2) != 0;
    assert a & Mask(3) != 0 <==> b & Mask(3) != 0;
    assert a & Mask(4) != 0 <==> b & Mask(4) != 0;
    assert a & Mask(5) != 0 <==> b & Mask(5) != 0;
    assert a & Mask(6) != 0 <==> b & Mask(6) != 0;
    assert a & Mask(7) != 0 <==> b & Mask(7) != 0;
  }

  /** Setting bit `pos` makes exactly bit `pos` 1 and leaves every other bit as it was. */
  lemma SetBitBits(bytes: seq<bv8>, pos: nat, q: nat)
    requires pos < 8 * |bytes| && q < 8 * |bytes|
    ensures BitSet(SetBit(bytes, pos), q) <==> q == pos || BitSet(bytes, q)
  {
    if q / 8 == pos / 8 {
      MaskOr(bytes[pos / 8], pos % 8, q % 8);
    }
  }

  /** Setting a bit that is already 1 changes nothing. */
  lemma SetBitWhenSet(bytes: seq<bv8>, pos: nat)
    requires pos < 8 * |bytes| && BitSet(bytes, pos)
    ensures SetBit(bytes, pos) == bytes
  {
    MaskOrSet(bytes[pos / 8], pos % 8);
  }

  /** Two buffers of one length with the same bits are the same buffer. */
  lemma BitsDetermineBytes(a: seq<bv8>, b: seq<bv8>)
    requires |a| == |b|
    requires forall q :: 0 <= q < 8 * |a| ==> (BitSet(a, q) <==> BitSet(b, q))
    ensures a == b
  {
    forall j | 0 <= j < |a|
      ensures a[j] == b[j]
    {
      forall l | 0 <= l < 8
        ensures a[j] & Mask(l) != 0 <==> b[j] & Mask(l) != 0
      {
        var q := 8 * j + l;
        assert q / 8 == j && q % 8 == l;
        assert BitSet(a, q) <==> BitSet(b, q);
      }
      BitsDetermineByte(a[j], b[j]);
    }
  }

  /** No bit of an all-zero buffer is set. */
  lemma ZerosClear(len: nat, q: nat)
    requires q < 8 * len
    ensures !BitSet(Zeros(len), q)
  {
  }
}
