/**
 * The hash engine of the Bloom filter: a seeded byte-fold over a 64-bit key
 * followed by the SplitMix64 ("Mix13", Stafford variant 13) finaliser on each
 * of the two accumulators. Every operation is on 64-bit words and wraps
 * modulo 2^64, which `bv64` arithmetic does by construction.
 */
module HashEngine {

  /** The first accumulator's additive constant (the 64-bit golden ratio). */
  const Gamma1: bv64 := 0x9E3779B97F4A7C15
  /** The second accumulator's additive constant. */
  const Gamma2: bv64 := 0xC6EF372FE94F82BE

  /** The avalanche finaliser: xor-shift, multiply, xor-shift, multiply, xor-shift. */
  function Mix(h: bv64): bv64
  {
    var a := h ^ (h >> 30);
    var b := a * 0xBF58476D1CE4E5B9;
    var c := b ^ (b >> 27);
    var d := c * 0x94D049BB133111EB;
    d ^ (d >> 31)
  }

  /**
   * Mix is the SplitMix64 output function: the generator seeded with 0 emits
   * Mix of its first two states, 0x9E3779B97F4A7C15 and twice that, and its
   * published first outputs are these.
   */
  lemma MixKnownAnswers()
    ensures Mix(0x9E3779B97F4A7C15) == 0xE220A8397B1DCDAF
    ensures Mix(0x3C6EF372FE94F82A) == 0x6E789E6AA1B965F4
  {
  }

  /** Number of fold rounds: one per byte of the 64-bit key. */
  const KeyBytes: nat := 8

  /**
   * One round of the byte fold: the low byte of `x` (`np.uint8(x)`), the
   * round constant and two shifts of the accumulator are added, wrapping,
   * and xored into the accumulator.
   */
  function Round(h: bv64, x: bv64, gamma: bv64): bv64
  {
    h ^ ((x & 0xFF) + gamma + (h << 6) + (h >> 2))
  }

  /** `rounds` rounds of the fold, consuming `x` one byte at a time from the low end. */
  function Fold(h: bv64, x: bv64, gamma: bv64, rounds: nat): bv64
    decreases rounds
  {
    if rounds == 0 then h else Fold(Round(h, x, gamma), x >> 8, gamma, rounds - 1)
  }

  /** Peeling off the first round of a fold. */
  lemma FoldStep(h: bv64, x: bv64, gamma: bv64, rounds: nat)
    requires rounds > 0
    ensures Fold(h, x, gamma, rounds) == Fold(Round(h, x, gamma), x >> 8, gamma, rounds - 1)
  {
  }

  /** The pair of base hashes of key `x` under the seed pair `(seed1, seed2)`. */
  function HashValue(x: bv64, seed1: bv64, seed2: bv64): (bv64, bv64)
  {
    (Mix(Fold(seed1, x, Gamma1, KeyBytes)), Mix(Fold(seed2, x, Gamma2, KeyBytes)))
  }

  /**
   * The loop of the hash: eight rounds over the bytes of `x`, both
   * accumulators side by side, each with its own round constant. The round
   * constants are parameters, so the proof of the loop does not unfold the
   * 64-bit literals; `Hash` passes in `Gamma1` and `Gamma2`.
   */
  method FoldRounds(x: bv64, seed1: bv64, seed2: bv64, gamma1: bv64, gamma2: bv64)
    returns (h1: bv64, h2: bv64)
    ensures h1 == Fold(seed1, x, gamma1, KeyBytes)
    ensures h2 == Fold(seed2, x, gamma2, KeyBytes)
  {
    h1, h2 := seed1, seed2;
    var rest := x;
    for i := 0 to KeyBytes
      invariant Fold(h1, rest, gamma1, KeyBytes - i) == Fold(seed1, x, gamma1, KeyBytes)
      invariant Fold(h2, rest, gamma2, KeyBytes - i) == Fold(seed2, x, gamma2, KeyBytes)
    {
      FoldStep(h1, rest, gamma1, KeyBytes - i);
      FoldStep(h2, rest, gamma2, KeyBytes - i);
      h1 := Round(h1, rest, gamma1);
      h2 := Round(h2, rest, gamma2);
      rest := rest >> 8;
    }
  }

  /**
   * The hash: the byte fold under the two round constants, then the
   * finaliser on each accumulator. Its result is the deterministic function
   * HashValue of the key and the seeds.
   */
  method Hash(x: bv64, seed1: bv64, seed2: bv64) returns (h1: bv64, h2: bv64)
    ensures (h1, h2) == HashValue(x, seed1, seed2)
  {
    h1, h2 := FoldRounds(x, seed1, seed2, Gamma1, Gamma2);
    h1, h2 := Mix(h1), Mix(h2);
  }
}
