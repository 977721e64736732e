# Bloom filter

A Dafny model of a classic, non-removable Bloom filter over 64-bit unsigned
keys, and proofs of its functional guarantees.

The filter keeps `m` bits packed eight to a byte in a `uint8` buffer of
`(m + 7) // 8` bytes. A key is hashed once into two 64-bit values `(h1, h2)`.
The hash is a seeded byte fold followed by the SplitMix64 finaliser. The key's
`k` bit positions are `(h1 + i * h2) % m` for `i` in `0 .. k` (double hashing
in the style of Kirsch and Mitzenmacher). Insert ORs those bits in. Contains
tests them in order and answers false at the first 0. The batch forms loop
the single-item kernels over an array of keys. The `BloomFilter` class holds
`n, p, m, k` and the buffer and adds `signin`, which inserts only when
contains answers false.

Files:

- `hash_engine.dfy` (module `HashEngine`): `Mix`, one fold round, the fold,
  `HashValue` (the hash as a function) and `Hash` (the loop that computes it).
  All of it is on `bv64`, so every shift, add and multiply wraps modulo 2^64.
- `bit_array.dfy` (module `BitArray`): the buffer's contents as `seq<bv8>`.
  Testing a bit and setting a bit are functions on it, and lemmas say what
  setting a bit does.
- `bloom.dfy` (module `Bloom`): probe positions. It gives the effect of
  insert and of a batch of inserts as functions on the buffer, states what
  contains answers, proves the filter's guarantees as lemmas, and has the
  four numba kernels as methods over `array<bv8>`, each proved against those
  functions.
- `bloom_filter.dfy` (module `Filter`): class `BloomFilter`, whose methods
  delegate to the kernels.

Modelling decisions:

- Probe arithmetic is exact unsigned 64-bit: `((h1 + i * h2) mod 2^64) % m`.
  With the `np.uint8` `k` that `BloomFilter` passes (bloom.py:64, 67, 69),
  numba's `range` gives an unsigned loop index, so the sum and product wrap
  modulo 2^64 as modelled. Called directly with a signed `k`, numba would
  promote `i * h2` to `float64`; that case is not modelled. None of the filter lemmas looks inside `ProbeOf`. They use only that
  it is a function of the key, the seeds and `i`, and that it is below `m`. So
  they hold for any probe computation with those two properties.
- `np.uint8(x)` in the fold is `x & 0xFF`. `np.uint32(pos)` changes nothing,
  because `pos < m` and `m` fits in 32 bits. `pos >> 3` and `pos & 7` are
  `pos / 8` and `pos % 8`, which agree for a non-negative `pos`.
- The process-wide seeds `gseed1, gseed2` are an explicit `Seeds` value. The
  filter is given it at construction. `Valid()` keeps only the two seeds'
  distinctness. Start-up also draws `gseed1` at least 2^32, which is not kept
  and which no property needs.
- `m` and `k` are constructor parameters. The source derives them from `n`
  and `p` with floating-point logarithms. The model keeps `1 <= m < 2^32`
  (a `uint32`) and `k < 256` (a `uint8`). `n` is stored as `n mod 2^32`,
  which is what `np.uint32(n)` does under NumPy 1.x. `p` is stored as given.
- The kernels require only `1 <= m <= 8 * |buffer|`. The class invariant
  fixes the buffer at exactly `(m + 7) // 8` bytes.
- `prange` is modelled as a sequential loop. `BatchOrderIrrelevant` says
  that the order in which items are inserted does not change the result.
- `__init__` checks neither `n` nor `p`, so the constructor has no error
  path. Its requires clause only bounds the given `m` and `k`.
- NumPy 1.x scalar semantics are assumed for the two integer expressions of
  `__init__` (see `Filter.BloomFilter.constructor` under "## Left out").

## Model

| member | source | states |
|---|---|---|
| `HashEngine.Mix` | bloom.py:9-15 | the SplitMix64 finaliser on a 64-bit word, every multiply wrapping modulo 2^64; `MixKnownAnswers` checks it against published outputs |
| `HashEngine.Round` | bloom.py:21-22 | one fold round: the key's low byte, the round constant and the accumulator shifted left 6 and right 2 are added with wrap-around and xored into the accumulator |
| `HashEngine.Fold` | bloom.py:20-23 | `rounds` fold rounds, the key shifted right by 8 after each; `FoldRounds` is proved to compute it for eight rounds |
| `HashEngine.HashValue` | bloom.py:17-24 | the pair of base hashes as a function of key and seeds; `Hash` is proved to return it |
| `HashEngine.Hash` | bloom.py:17-24 | the loop's result is exactly `HashValue(x, seed1, seed2)`: the finaliser applied to each accumulator after eight wrapping fold rounds, so the hash is a deterministic function of key and seeds |
| `HashEngine.FoldRounds` | bloom.py:18-23 | after the eight-byte loop each accumulator equals the fold of its seed over the key's bytes, low byte first, with its own round constant |
| `HashEngine.MixKnownAnswers` | bloom.py:9-15 | the finaliser agrees with the first two published SplitMix64 outputs for seed 0 (a known-answer test, not a proof that the constants are unique) |
| `BitArray.NumBytes` | bloom.py:57 | `(m + 7) // 8` is the least byte count holding `m` bits: `m <= 8 * n < m + 8` |
| `BitArray.BitSet` | bloom.py:37 | bit `pos` is tested in byte `pos >> 3` under mask `1 << (pos & 7)`; `SetBitBits` relates it to `SetBit` and `BitsDetermineBytes` shows the bits determine the buffer |
| `BitArray.Zeros` | bloom.py:57 | the freshly allocated buffer of `len` zero bytes has length `len`; `ZerosClear` states that none of its bits is set |
| `BitArray.SetBit` | bloom.py:31 | OR-ing a mask into one byte keeps the buffer length |
| `BitArray.SetBitBits` | bloom.py:31 | after `bytes[pos >> 3] \|= 1 << (pos & 7)`, bit `q` is 1 iff `q == pos` or it was 1 before |
| `BitArray.SetBitWhenSet` | bloom.py:31 | setting a bit that is already 1 leaves the buffer identical |
| `BitArray.ZerosClear` | bloom.py:57 | no bit of the freshly allocated zero buffer is set |
| `Bloom.Probe` | bloom.py:30 | every probe position `(h1 + i * h2) % m`, sum and product wrapping modulo 2^64, is below `m`; the bit functions then find it inside a buffer of `(m + 7) // 8` bytes |
| `Bloom.ProbeOf` | bloom.py:28-30 | the i-th probe of an item, from its hash under the seeds, is below `m` |
| `Bloom.AllProbesSet` | bloom.py:35-39 | what contains answers: every one of the item's `k` probe bits is 1; `BloomContains` is proved to compute it and `NoFalseNegatives`, `EmptyRejectsAll` state its guarantees |
| `Bloom.Inserted` | bloom.py:29-31 | setting the `k` probe bits keeps the buffer length |
| `Bloom.InsertAll` | bloom.py:43-44 | inserting a batch item by item keeps the buffer length |
| `Bloom.InsertedBits` | bloom.py:29-31 | after insert, a bit is 1 iff it was 1 before or it is one of the item's `k` probe positions (monotone, and only the probe bits change) |
| `Bloom.InsertNeverClears` | bloom.py:31 | insert never turns a 1 bit into 0 |
| `Bloom.InsertedLeavesOtherBytes` | bloom.py:29-31 | a byte that no probe position of the item falls in is unchanged by insert |
| `Bloom.NoFalseNegatives` | bloom.py:27-39 | right after inserting an item, every one of its probe bits is 1, so contains answers true |
| `Bloom.InsertKeepsMembers` | bloom.py:27-39 | an item contains accepts is still accepted after inserting any other item |
| `Bloom.InsertWhenPresent` | bloom.py:29-31 | inserting an item whose probe bits are all 1 leaves the buffer identical |
| `Bloom.InsertIdempotent` | bloom.py:29-31 | inserting an item twice gives the same buffer as inserting it once |
| `Bloom.InsertAllBits` | bloom.py:42-44 | after a batch insert, a bit is 1 iff it was 1 before or it is a probe position of some item of the batch |
| `Bloom.BatchOrderIrrelevant` | bloom.py:42-44 | two batches with the same items, in any order and with any repetitions, give the same buffer |
| `Bloom.InsertAllAppend` | bloom.py:42-44 | a batch insert followed by another is the batch insert of both item sequences concatenated |
| `Bloom.BatchNoFalseNegatives` | bloom.py:42-50 | after a batch insert, contains accepts every item of the batch |
| `Bloom.InsertAllKeepsMembers` | bloom.py:42-44 | an item contains accepts stays accepted after any further batch insert |
| `Bloom.EmptyRejectsAll` | bloom.py:57 | with `k >= 1`, the all-zero buffer makes contains answer false for every item |
| `Bloom.BloomInsert` | bloom.py:27-31 | the kernel's new buffer is `Inserted(old buffer, item)`: exactly the `k` probe bits are OR-ed in |
| `Bloom.BloomContains` | bloom.py:33-39 | answers true iff all `k` probe bits are 1; when it answers false, the probe it stopped at is the first one whose bit is 0; it changes nothing |
| `Bloom.BloomBatchInsert` | bloom.py:42-44 | the kernel's new buffer is the one left by inserting `items[0]`, `items[1]`, ... one at a time |
| `Bloom.BloomBatchContains` | bloom.py:46-50 | a fresh result array of the same length whose `idx`-th entry is what contains answers for `items[idx]` |
| `Filter.BloomFilter.constructor` | bloom.py:52-57 | stores `n mod 2^32`, `p`, `m`, `k` and allocates an all-zero buffer of `(m + 7) // 8` bytes |
| `Filter.BloomFilter.Insert` | bloom.py:66-67 | the new buffer is the old one with the item's probe bits set |
| `Filter.BloomFilter.Contains` | bloom.py:68-69 | answers true iff all the item's probe bits are 1 |
| `Filter.BloomFilter.BatchInsert` | bloom.py:71-72 | the new buffer is the old one with every item of the batch inserted in order |
| `Filter.BloomFilter.BatchContains` | bloom.py:73-74 | one contains answer per item, at the item's index |
| `Filter.BloomFilter.Signin` | bloom.py:76-79 | afterwards the item is accepted; an item already accepted leaves the buffer unchanged; in every case the buffer is what a plain insert gives |
| `Filter.FreshFilterRejects` | bloom.py:52-69 | a freshly constructed filter with `k >= 1` rejects every item |

## Left out

- Sizing: `_get_size` and `_get_hash_count` compute `m` and `k` from `n` and `p` with floating-point logarithms and `ceil`, then truncate to `uint32` and `uint8`. They are not modelled; `m` and `k` are constructor parameters.
- Seed generation: module start-up draws random seeds and redraws `gseed2` until the two differ. Randomness is not modelled; the seeds are a parameter, and only their distinctness is kept. The lower bound `gseed1 >= 2^32` of bloom.py:4 is not kept; no proof needs it.
- Mix: no property of the finaliser beyond its known answers is proved (for instance that it is a bijection). The filter's guarantees need only that the hash is a deterministic function.
- Filter.BloomFilter.constructor: assumes NumPy 1.x integer promotion in `__init__`. There `(self.m + 7) // 8` (bloom.py:57) promotes the `uint32` scalar `self.m` to a wider integer, so the buffer has `NumBytes(m)` bytes for every `m < 2^32`. Under NumPy 2 the sum stays `uint32` and wraps, so for `m` in `[2^32 - 7, 2^32 - 1]` the source allocates 0 bytes instead, which the model does not capture. Likewise `np.uint32(n)` (bloom.py:53) wraps `n` modulo 2^32 under NumPy 1.x for an `n` that fits a C 64-bit integer, which is what the model stores; beyond that range NumPy 1.x also raises OverflowError, which is not modelled. Under NumPy 2 it raises OverflowError for `n` outside `[0, 2^32)`, and that error path is not modelled.
- Numba typing: a kernel called directly with a signed `k` would have numba promote `i * h2` to `float64`. That case is not modelled; the model covers the unsigned loop index that the `np.uint8` `k` of `BloomFilter` gives (see modelling decisions).
- Parallelism: the batch kernels run their iterations with `prange`. The model runs them in order. `bit_array[pos >> 3] |= mask` is a read-modify-write of a shared byte, so two iterations setting different bits of one byte at the same time can lose one of the bits, which would break the no-false-negatives guarantee. The sequential result, and with it `BatchOrderIrrelevant` and `BatchNoFalseNegatives`, is what `batch_insert` gives only if each byte update is atomic. Data races, torn reads and an insert batch running concurrently with a contains batch are not modelled.
- False-positive rate: it is a statistical property, not a functional contract, and is not stated.
- The harness in test.py (workload generation, error counting, progress bars, printing) is not part of this model.
