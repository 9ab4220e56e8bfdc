/**
 * The C++ port's `PerlinNoise`: a single gradient noise without offsets.
 * The constructor fills a table of 512 words with 0..255, shuffles the
 * first 256 by exchanging entry i with a drawn entry at or below it for i
 * from 255 down to 1, and copies them into the upper half. `noise` blends
 * the gradients at the eight corners of the lattice cube around a point
 * exactly as the Java `ImprovedNoise` does with its offsets at zero.
 */
module PerlinNoiseCpp {
  import Mth
  import ImprovedNoise

  /** The draws `Mth::random(0, i)` of the shuffle: draws[i] lies in
      [0, i] for every i from 1 to 255 (draws[0] is never used). */
  predicate ValidDraws(draws: seq<int>)
  {
    |draws| == 256 && forall i :: 1 <= i < 256 ==> 0 <= draws[i] <= i
  }

  /** The first 256 words after n steps of the shuffle: step n exchanges
      entry 256 - n with entry draws[256 - n]. */
  function Shuffled(draws: seq<int>, n: nat): (r: seq<int>)
    requires ValidDraws(draws) && n <= 255
    ensures |r| == 256
  {
    if n == 0 then ImprovedNoise.Iota(256)
    else ImprovedNoise.Swap(Shuffled(draws, n - 1), 256 - n, draws[256 - n])
  }

  /** Every stage of the shuffle is a permutation of 0..255. */
  lemma {:induction false} ShuffledIsPermutation(draws: seq<int>, n: nat)
    requires ValidDraws(draws) && n <= 255
    ensures ImprovedNoise.IsPermutation(Shuffled(draws, n))
  {
    if n > 0 {
      ShuffledIsPermutation(draws, n - 1);
    }
  }

  /** Once step n has placed entry 256 - n, no later step moves it: the
      entries from 256 - n up are final. */
  lemma {:induction false} ShuffledSettles(draws: seq<int>, n: nat, m: nat)
    requires ValidDraws(draws) && n <= m <= 255
    ensures forall j :: 256 - n <= j < 256 ==> Shuffled(draws, m)[j] == Shuffled(draws, n)[j]
    decreases m - n
  {
    if n < m {
      ShuffledSettles(draws, n, m - 1);
    }
  }

  /** `noise` on a table p: the lattice cube is the floor of each
      coordinate masked to 0..255, the fractions are faded, and the
      gradients at the cube's eight corners are blended along x, then y,
      then z. */
  function Blend(p: seq<int>, x: real, y: real, z: real): (r: real)
    requires ImprovedNoise.Hashes(p)
    ensures r == ImprovedNoise.NoiseAt(p, x, y, z)
    ensures -2.0 <= r <= 2.0
  {
    var X, Y, Z := ImprovedNoise.Cell(x), ImprovedNoise.Cell(y), ImprovedNoise.Cell(z);
    var fx, fy, fz := ImprovedNoise.Frac(x), ImprovedNoise.Frac(y), ImprovedNoise.Frac(z);
    var u, v, w := ImprovedNoise.Fade(fx), ImprovedNoise.Fade(fy), ImprovedNoise.Fade(fz);
    var A := p[X] + Y;
    var AA := p[A] + Z;
    var AB := p[A + 1] + Z;
    var B := p[X + 1] + Y;
    var BA := p[B] + Z;
    var BB := p[B + 1] + Z;
    var e0 := Mth.Lerp(ImprovedNoise.Grad(p[AA], fx, fy, fz), ImprovedNoise.Grad(p[BA], fx - 1.0, fy, fz), u);
    var e1 := Mth.Lerp(ImprovedNoise.Grad(p[AB], fx, fy - 1.0, fz), ImprovedNoise.Grad(p[BB], fx - 1.0, fy - 1.0, fz), u);
    var e2 := Mth.Lerp(ImprovedNoise.Grad(p[AA + 1], fx, fy, fz - 1.0), ImprovedNoise.Grad(p[BA + 1], fx - 1.0, fy, fz - 1.0), u);
    var e3 := Mth.Lerp(ImprovedNoise.Grad(p[AB + 1], fx, fy - 1.0, fz - 1.0), ImprovedNoise.Grad(p[BB + 1], fx - 1.0, fy - 1.0, fz - 1.0), u);
    EdgesAre(p, X, Y, Z, fx, fy, fz);
    Mth.Lerp(Mth.Lerp(e0, e1, v), Mth.Lerp(e2, e3, v), w)
  }

  /** The Java edges, spelled out as `noise` computes them. */
  lemma EdgesAre(p: seq<int>, X: int, Y: int, Z: int, fx: real, gy: real, fz: real)
    requires ImprovedNoise.Hashes(p) && 0 <= X < 256 && 0 <= Y < 256 && 0 <= Z < 256
    ensures var u, A, B := ImprovedNoise.Fade(fx), p[X] + Y, p[X + 1] + Y;
            var AA, AB, BA, BB := p[A] + Z, p[A + 1] + Z, p[B] + Z, p[B + 1] + Z;
            ImprovedNoise.Edges(p, X, Y, Z, fx, gy, fz)
            == (Mth.Lerp(ImprovedNoise.Grad(p[AA], fx, gy, fz), ImprovedNoise.Grad(p[BA], fx - 1.0, gy, fz), u),
                Mth.Lerp(ImprovedNoise.Grad(p[AB], fx, gy - 1.0, fz), ImprovedNoise.Grad(p[BB], fx - 1.0, gy - 1.0, fz), u),
                Mth.Lerp(ImprovedNoise.Grad(p[AA + 1], fx, gy, fz - 1.0), ImprovedNoise.Grad(p[BA + 1], fx - 1.0, gy, fz - 1.0), u),
                Mth.Lerp(ImprovedNoise.Grad(p[AB + 1], fx, gy - 1.0, fz - 1.0), ImprovedNoise.Grad(p[BB + 1], fx - 1.0, gy - 1.0, fz - 1.0), u))
  {
  }

  /** The noise vanishes at every lattice point: all fractions are 0, so
      the blend is the gradient at the cube's own corner, taken at the
      origin. */
  lemma LatticeZero(p: seq<int>, x: int, y: int, z: int)
    requires ImprovedNoise.Hashes(p)
    ensures Blend(p, x as real, y as real, z as real) == 0.0
  {
    assert Mth.Floor(x as real) == x && Mth.Floor(y as real) == y && Mth.Floor(z as real) == z;
  }

  class PerlinNoise {
    /** The table: a permutation of 0..255 and its copy. */
    const p: array<int>

    ghost predicate Valid()
      reads p
    {
      ImprovedNoise.Table(p[..]) && ImprovedNoise.Hashes(p[..])
    }

    /** The constructor: the seed fixes the shuffle's draws, which the
        model takes as given. */
    constructor (draws: seq<int>)
      requires ValidDraws(draws)
      ensures Valid() && fresh(p)
      ensures p[..256] == Shuffled(draws, 255)
    {
      p := new int[512];
      new;
      for i := 0 to 256
        invariant forall j :: 0 <= j < i ==> p[j] == j
      {
        p[i] := i;
      }
      assert p[..256] == ImprovedNoise.Iota(256);
      Shuffle(draws);
      Mirror();
      ShuffledIsPermutation(draws, 255);
      ImprovedNoise.TableHashes(p[..]);
    }

    /** The shuffle: for i from 255 down to 1, entry i is exchanged with
        entry draws[i]. */
    method Shuffle(draws: seq<int>)
      requires p.Length == 512 && ValidDraws(draws) && p[..256] == ImprovedNoise.Iota(256)
      modifies p
      ensures p[..256] == Shuffled(draws, 255)
    {
      var i := 255;
      ghost var n := 0;
      while i > 0
        invariant 0 <= i <= 255 && n == 255 - i && p[..256] == Shuffled(draws, n)
      {
        Exchange(i, draws[i]);
        assert Shuffled(draws, n + 1) == ImprovedNoise.Swap(Shuffled(draws, n), i, draws[i]);
        i, n := i - 1, n + 1;
      }
    }

    /** `std::swap(p[i], p[j])`. */
    method Exchange(i: int, j: int)
      requires p.Length == 512 && 0 <= j <= i < 256
      modifies p
      ensures p[..256] == ImprovedNoise.Swap(old(p[..256]), i, j)
    {
      var t := p[i];
      p[i] := p[j];
      p[j] := t;
    }

    /** The copy of entries 0..255 into 256..511. */
    method Mirror()
      requires p.Length == 512
      modifies p
      ensures p[..256] == old(p[..256])
      ensures forall k :: 0 <= k < 256 ==> p[256 + k] == p[k]
    {
      for i := 0 to 256
        invariant p[..256] == old(p[..256])
        invariant forall k :: 0 <= k < i ==> p[256 + k] == p[k]
      {
        p[256 + i] := p[i];
      }
    }

    /** `noise(x, y, z)`. */
    function Noise(x: real, y: real, z: real): (r: real)
      requires Valid()
      reads this, p
      ensures -2.0 <= r <= 2.0
    {
      Blend(p[..], x, y, z)
    }

    /** `noise2D(x, y)`: the noise in the plane z = 0. */
    function Noise2D(x: real, y: real): (r: real)
      requires Valid()
      reads this, p
      ensures r == Noise(x, y, 0.0)
    {
      Noise(x, y, 0.0)
    }
  }
}
