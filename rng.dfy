/**
 * `java.util.Random`, which the world generators draw from, as an abstract
 * stream: a seed selects a stream of raw values and every draw takes the
 * next one, reduced into the range the draw promises. The JDK's linear
 * congruential generator is not part of this model; the generators rely
 * only on each draw lying in its range and on a seed fixing every draw.
 */
module Rng {
  /** 2^24 steps of `nextFloat`. */
  const FloatSteps: int := 0x100_0000
  /** 2^53 steps of `nextDouble`. */
  const DoubleSteps: int := 0x20_0000_0000_0000

  /** `nextInt(bound)` at stream position k of seed s. */
  function IntAt(raw: (int, nat) -> int, s: int, k: nat, bound: int): (r: int)
    requires bound > 0
    ensures 0 <= r < bound
  {
    raw(s, k) % bound
  }

  /** `nextFloat()` at stream position k of seed s. */
  function FloatAt(raw: (int, nat) -> int, s: int, k: nat): (r: real)
    ensures 0.0 <= r < 1.0
  {
    (raw(s, k) % FloatSteps) as real / FloatSteps as real
  }

  /** `nextDouble()` at stream position k of seed s. */
  function DoubleAt(raw: (int, nat) -> int, s: int, k: nat): (r: real)
    ensures 0.0 <= r < 1.0
  {
    (raw(s, k) % DoubleSteps) as real / DoubleSteps as real
  }

  class Random {
    /** The raw value at position k of the stream that seed s starts. */
    const raw: (int, nat) -> int
    var seed: int
    /** How many values have been drawn since the seed was set. */
    var drawn: nat

    /** `new Random(seed)`. */
    constructor (raw: (int, nat) -> int, seed: int)
      ensures this.raw == raw && this.seed == seed && drawn == 0
    {
      this.raw := raw;
      this.seed := seed;
      drawn := 0;
    }

    /** `setSeed(s)`: the stream restarts. */
    method SetSeed(s: int)
      modifies this`seed, this`drawn
      ensures seed == s && drawn == 0
    {
      seed, drawn := s, 0;
    }

    method NextInt(bound: int) returns (r: int)
      requires bound > 0
      modifies this`drawn
      ensures r == IntAt(raw, seed, old(drawn), bound) && drawn == old(drawn) + 1
    {
      r := raw(seed, drawn) % bound;
      drawn := drawn + 1;
    }

    method NextFloat() returns (r: real)
      modifies this`drawn
      ensures r == FloatAt(raw, seed, old(drawn)) && drawn == old(drawn) + 1
    {
      r := (raw(seed, drawn) % FloatSteps) as real / FloatSteps as real;
      drawn := drawn + 1;
    }

    method NextDouble() returns (r: real)
      modifies this`drawn
      ensures r == DoubleAt(raw, seed, old(drawn)) && drawn == old(drawn) + 1
    {
      r := (raw(seed, drawn) % DoubleSteps) as real / DoubleSteps as real;
      drawn := drawn + 1;
    }

    /** `nextLong()`: the raw value itself. */
    method NextLong() returns (r: int)
      modifies this`drawn
      ensures r == raw(seed, old(drawn)) && drawn == old(drawn) + 1
    {
      r := raw(seed, drawn);
      drawn := drawn + 1;
    }
  }
}
