/**
 * The Java `ImprovedNoise`: Ken Perlin's improved gradient noise over a
 * permutation table of 256 entries stored twice, with a random offset per
 * axis. Doubles are modelled as reals; the random draws of the constructor
 * are inputs.
 */
module ImprovedNoise {
  import Mth
  import Level

  /** [0, 1, ..., n-1]. */
  function Iota(n: nat): (r: seq<int>)
    ensures |r| == n && forall i :: 0 <= i < n ==> r[i] == i
  {
    seq(n, i => i)
  }

  /** s holds 0 .. |s|-1, each once. */
  ghost predicate IsPermutation(s: seq<int>)
  {
    multiset(s) == multiset(Iota(|s|))
  }

  /** Every entry of a permutation lies in [0, |s|). */
  lemma PermutationValues(s: seq<int>)
    requires IsPermutation(s)
    ensures forall i :: 0 <= i < |s| ==> 0 <= s[i] < |s|
  {
    forall i | 0 <= i < |s|
      ensures 0 <= s[i] < |s|
    {
      assert s[i] in multiset(s);
      assert s[i] in multiset(Iota(|s|));
      var k :| 0 <= k < |s| && Iota(|s|)[k] == s[i];
    }
  }

  /** s with entries i and j exchanged. */
  function Swap(s: seq<int>, i: int, j: int): (r: seq<int>)
    requires 0 <= i < |s| && 0 <= j < |s|
    ensures |r| == |s| && multiset(r) == multiset(s)
    ensures r[i] == s[j] && r[j] == s[i]
    ensures forall k :: 0 <= k < |s| && k != i && k != j ==> r[k] == s[k]
  {
    s[i := s[j]][j := s[i]]
  }

  /** The first 256 words of the table after k steps of the constructor's
      shuffle: step i exchanges entry i with entry i + picks[i], where
      picks[i] is the draw `nextInt(256 - i)`. */
  function Shuffled(picks: seq<int>, k: nat): (r: seq<int>)
    requires ValidPicks(picks) && k <= 256
    ensures |r| == 256
  {
    if k == 0 then Iota(256)
    else Swap(Shuffled(picks, k - 1), k - 1, picks[k - 1] + k - 1)
  }

  /** `nextInt(256 - i)` lies in [0, 256 - i). */
  predicate ValidPicks(picks: seq<int>)
  {
    |picks| == 256 && forall i :: 0 <= i < 256 ==> 0 <= picks[i] < 256 - i
  }

  /** Every stage of the shuffle is a permutation of 0..255. */
  lemma {:induction false} ShuffledIsPermutation(picks: seq<int>, k: nat)
    requires ValidPicks(picks) && k <= 256
    ensures IsPermutation(Shuffled(picks, k))
  {
    if k > 0 {
      ShuffledIsPermutation(picks, k - 1);
    }
  }

  /** A complete table: a permutation of 0..255 followed by a copy of it. */
  ghost predicate Table(p: seq<int>)
  {
    |p| == 512 && IsPermutation(p[..256]) && forall i :: 0 <= i < 256 ==> p[i + 256] == p[i]
  }

  /** What the lookups need: 512 entries, each in [0, 256). */
  ghost predicate Hashes(p: seq<int>)
  {
    |p| == 512 && forall i :: 0 <= i < 512 ==> 0 <= p[i] < 256
  }

  lemma TableHashes(p: seq<int>)
    requires Table(p)
    ensures Hashes(p)
  {
    PermutationValues(p[..256]);
    forall i | 0 <= i < 512
      ensures 0 <= p[i] < 256
    {
      if i >= 256 {
        assert p[i] == p[i - 256] == p[..256][i - 256];
      } else {
        assert p[i] == p[..256][i];
      }
    }
  }

  /** The fade curve 6t^5 - 15t^4 + 10t^3: it fixes 0 and 1 and keeps
      [0, 1] within [0, 1]. */
  function Fade(t: real): (r: real)
    ensures t == 0.0 ==> r == 0.0
    ensures t == 1.0 ==> r == 1.0
    ensures 0.0 <= t <= 1.0 ==> 0.0 <= r <= 1.0
  {
    var r := t * t * t * (t * (t * 6.0 - 15.0) + 10.0);
    if 0.0 <= t <= 1.0 then
      FadeBounds(t);
      r
    else
      r
  }

  lemma FadeBounds(t: real)
    requires 0.0 <= t <= 1.0
    ensures 0.0 <= t * t * t * (t * (t * 6.0 - 15.0) + 10.0) <= 1.0
  {
    var s := 1.0 - t;
    var q := t * (t * 6.0 - 15.0) + 10.0;
    assert q == 6.0 * (t - 1.25) * (t - 1.25) + 0.625;
    var q' := 6.0 * t * t + 3.0 * t + 1.0;
    assert 1.0 - t * t * t * q == s * s * s * q';
    Mth.MulNonneg(t * t, t);
    Mth.MulNonneg(t * t * t, q);
    Mth.MulNonneg(s * s, s);
    Mth.MulNonneg(s * s * s, q');
  }

  /** -m <= a, b <= m keeps a linear interpolation with t in [0, 1] inside
      [-m, m]. */
  lemma LerpBounded(a: real, b: real, t: real, m: real)
    requires -m <= a <= m && -m <= b <= m && 0.0 <= t <= 1.0
    ensures -m <= Mth.Lerp(a, b, t) <= m
  {
    if b < a {
      assert Mth.Lerp(a, b, t) == b + (1.0 - t) * (a - b);
      Mth.LerpBetween(b, a, 1.0 - t, Mth.Lerp(a, b, t));
    }
  }

  /** `grad`: the low four bits h of the hash pick one of twelve gradient
      directions; the result is plus or minus one coordinate plus or minus
      another (x then y for h < 4, x then z for h < 8, else y then x when h
      is 12 or 14 and y then z otherwise). With every coordinate in [-1, 1]
      it lies in [-2, 2]. */
  function Grad(hash: int, x: real, y: real, z: real): (r: real)
    ensures -1.0 <= x <= 1.0 && -1.0 <= y <= 1.0 && -1.0 <= z <= 1.0 ==> -2.0 <= r <= 2.0
  {
    var h := hash % 16;
    var u := if h < 8 then x else y;
    var v := if h < 4 then y else if h == 12 || h == 14 then x else z;
    (if h % 2 == 0 then u else -u) + (if h / 2 % 2 == 0 then v else -v)
  }

  /** Only the low four bits of the hash matter. */
  lemma GradLowBits(hash: int, x: real, y: real, z: real)
    ensures Grad(hash, x, y, z) == Grad(hash % 16, x, y, z)
  {
  }

  /** `grad2`: u is x when bit 3 of h is clear and 0 otherwise, v is 0 for
      h < 4, x for 12 and 14, z otherwise. */
  function Grad2(hash: int, x: real, z: real): (r: real)
    ensures r == Grad(hash, x, 0.0, z)
  {
    var h := hash % 16;
    assert h / 8 % 2 == if h < 8 then 0 else 1;
    var u := (1 - h / 8 % 2) as real * x;
    var v := if h < 4 then 0.0 else if h == 12 || h == 14 then x else z;
    (if h % 2 == 0 then u else -u) + (if h / 2 % 2 == 0 then v else -v)
  }

  /** The hashes and x-interpolated gradients of the cube at lattice
      (X, Y, Z), for a point at fractions fx and fz and with gy as the y
      coordinate handed to the gradients: the bottom-front, top-front,
      bottom-back and top-back edges, in that order. */
  function Edges(p: seq<int>, X: int, Y: int, Z: int, fx: real, gy: real, fz: real): (r: (real, real, real, real))
    requires Hashes(p) && 0 <= X < 256 && 0 <= Y < 256 && 0 <= Z < 256
    ensures 0.0 <= fx <= 1.0 && 0.0 <= gy <= 1.0 && 0.0 <= fz <= 1.0 ==>
              -2.0 <= r.0 <= 2.0 && -2.0 <= r.1 <= 2.0 && -2.0 <= r.2 <= 2.0 && -2.0 <= r.3 <= 2.0
  {
    var u := Fade(fx);
    var A := p[X] + Y;
    var AA := p[A] + Z;
    var AB := p[A + 1] + Z;
    var B := p[X + 1] + Y;
    var BA := p[B] + Z;
    var BB := p[B + 1] + Z;
    var e0 := Mth.Lerp(Grad(p[AA], fx, gy, fz), Grad(p[BA], fx - 1.0, gy, fz), u);
    var e1 := Mth.Lerp(Grad(p[AB], fx, gy - 1.0, fz), Grad(p[BB], fx - 1.0, gy - 1.0, fz), u);
    var e2 := Mth.Lerp(Grad(p[AA + 1], fx, gy, fz - 1.0), Grad(p[BA + 1], fx - 1.0, gy, fz - 1.0), u);
    var e3 := Mth.Lerp(Grad(p[AB + 1], fx, gy - 1.0, fz - 1.0), Grad(p[BB + 1], fx - 1.0, gy - 1.0, fz - 1.0), u);
    if 0.0 <= fx <= 1.0 && 0.0 <= gy <= 1.0 && 0.0 <= fz <= 1.0 then
      LerpBounded(Grad(p[AA], fx, gy, fz), Grad(p[BA], fx - 1.0, gy, fz), u, 2.0);
      LerpBounded(Grad(p[AB], fx, gy - 1.0, fz), Grad(p[BB], fx - 1.0, gy - 1.0, fz), u, 2.0);
      LerpBounded(Grad(p[AA + 1], fx, gy, fz - 1.0), Grad(p[BA + 1], fx - 1.0, gy, fz - 1.0), u, 2.0);
      LerpBounded(Grad(p[AB + 1], fx, gy - 1.0, fz - 1.0), Grad(p[BB + 1], fx - 1.0, gy - 1.0, fz - 1.0), u, 2.0);
      (e0, e1, e2, e3)
    else
      (e0, e1, e2, e3)
  }

  /** The noise value in the cube at lattice (X, Y, Z) for a point at
      fractions (fx, fy, fz), the gradients taking gy as their y
      coordinate: the four edges blended along y, then along z. Gradient
      noise proper has gy == fy. */
  function Sample(p: seq<int>, X: int, Y: int, Z: int, fx: real, fy: real, fz: real, gy: real): (r: real)
    requires Hashes(p) && 0 <= X < 256 && 0 <= Y < 256 && 0 <= Z < 256
    ensures 0.0 <= fx <= 1.0 && 0.0 <= fy <= 1.0 && 0.0 <= fz <= 1.0 && 0.0 <= gy <= 1.0 ==> -2.0 <= r <= 2.0
  {
    var e := Edges(p, X, Y, Z, fx, gy, fz);
    var v, w := Fade(fy), Fade(fz);
    var r := Mth.Lerp(Mth.Lerp(e.0, e.1, v), Mth.Lerp(e.2, e.3, v), w);
    if 0.0 <= fx <= 1.0 && 0.0 <= fy <= 1.0 && 0.0 <= fz <= 1.0 && 0.0 <= gy <= 1.0 then
      LerpBounded(e.0, e.1, v, 2.0);
      LerpBounded(e.2, e.3, v, 2.0);
      LerpBounded(Mth.Lerp(e.0, e.1, v), Mth.Lerp(e.2, e.3, v), w, 2.0);
      r
    else
      r
  }

  /** The lattice coordinate of v masked to [0, 256) (`(int) floor & 255`),
      and its fraction in [0, 1). */
  function Cell(v: real): (r: int)
    ensures 0 <= r < 256
  {
    Mth.Floor(v) % 256
  }

  function Frac(v: real): (r: real)
    ensures 0.0 <= r < 1.0
  {
    v - Mth.Floor(v) as real
  }

  /** Gradient noise at a point given relative to the lattice (the offsets
      already added). */
  function NoiseAt(p: seq<int>, x: real, y: real, z: real): (r: real)
    requires Hashes(p)
    ensures -2.0 <= r <= 2.0
  {
    Sample(p, Cell(x), Cell(y), Cell(z), Frac(x), Frac(y), Frac(z), Frac(y))
  }

  /** The value the 2-D branch of `add` computes at lattice (X, Z) and
      fractions (fx, fz): the cube at lattice y 0, sampled at y 0. */
  function Flat(p: seq<int>, X: int, Z: int, fx: real, fz: real): (r: real)
    requires Hashes(p) && 0 <= X < 256 && 0 <= Z < 256
    ensures r == Sample(p, X, 0, Z, fx, 0.0, fz, 0.0)
  {
    var u := Fade(fx);
    var A := p[X] + 0;
    var AA := p[A] + Z;
    var B := p[X + 1] + 0;
    var BA := p[B] + Z;
    var e0 := Mth.Lerp(Grad2(p[AA], fx, fz), Grad(p[BA], fx - 1.0, 0.0, fz), u);
    var e2 := Mth.Lerp(Grad(p[AA + 1], fx, 0.0, fz - 1.0), Grad(p[BA + 1], fx - 1.0, 0.0, fz - 1.0), u);
    Mth.Lerp(e0, e2, Fade(fz))
  }

  /** The offset draws `nextDouble() * 256` land in [0, 256). */
  predicate ValidOffset(d: real)
  {
    0.0 <= d < 1.0
  }

  /** The sample grid `add` fills: sizeX * sizeY * sizeZ points, point
      (i, j, k) at ((x + i) * scaleX, (y + j) * scaleY, (z + k) * scaleZ),
      stored at index (i * sizeZ + k) * sizeY + j. */
  datatype Region = Region(x: real, y: real, z: real, sizeX: int, sizeY: int, sizeZ: int,
                           scaleX: real, scaleY: real, scaleZ: real)

  /** A coordinate moved by the noise's own offset. */
  function Moved(c: real, offset: real): real
  {
    c + offset
  }

  /** The coordinate `add` samples at step n of an axis that starts at
      origin, with the axis scale and the noise's own offset. */
  function At(origin: real, n: int, scale: real, offset: real): real
  {
    (origin + n as real) * scale + offset
  }

  /** The buffer entry of sample (i, j, k): y varies fastest, then z, then
      x, and every sample of the region has its own entry below
      sizeX * sizeY * sizeZ. */
  function Slot(r: Region, i: int, j: int, k: int): (n: int)
    requires Level.InBounds(r.sizeY, r.sizeX, r.sizeZ, j, i, k)
    ensures n == Level.Index(r.sizeY, r.sizeZ, j, i, k)
    ensures 0 <= n < r.sizeY * r.sizeX * r.sizeZ
  {
    Level.IndexRange(r.sizeY, r.sizeX, r.sizeZ, j, i, k);
    Level.Index(r.sizeY, r.sizeZ, j, i, k)
  }

  /** Index arithmetic of `add`'s running counter: a finished y row moves
      to the next z, a finished z layer to the next x, and the last layer
      ends at the size of the region. */
  lemma NextRow(w: int, d: int, i: int, k: int)
    ensures Level.Index(w, d, w, i, k) == Level.Index(w, d, 0, i, k + 1)
  {
    assert (i * d + k + 1) * w == (i * d + k) * w + w;
  }

  lemma NextLayer(w: int, d: int, i: int)
    ensures Level.Index(w, d, 0, i, d) == Level.Index(w, d, 0, i + 1, 0)
  {
    assert (i + 1) * d == i * d + d;
  }

  lemma LastLayer(w: int, h: int, d: int)
    ensures Level.Index(w, d, 0, h, 0) == w * h * d
  {
    assert (h * d) * w == w * h * d;
  }

  /** The 3-D branch of `add` recomputes the x-interpolated gradients only
      for the first sample of a column and when the masked lattice y
      changes; this is the sample whose values sample j reuses. Every
      sample from there to j lies in the same lattice cell. */
  ghost function CacheStart(r: Region, yo: real, j: nat): (s: nat)
    ensures s <= j && Cell(At(r.y, s, r.scaleY, yo)) == Cell(At(r.y, j, r.scaleY, yo))
    ensures s == 0 || Cell(At(r.y, s, r.scaleY, yo)) != Cell(At(r.y, s - 1, r.scaleY, yo))
  {
    if j == 0 || Cell(At(r.y, j, r.scaleY, yo)) != Cell(At(r.y, j - 1, r.scaleY, yo)) then j
    else CacheStart(r, yo, j - 1)
  }

  /** What `add` computes at sample (i, j, k) of a noise with table p and
      offsets (xo, yo, zo), before scaling by 1/freq: with one row of y the
      cube at lattice y 0 sampled at y 0; otherwise the cube of the
      sample's lattice cell, blended at the sample's own fractions but with
      the gradients taken at the y fraction of the cell's first sample.
      Outside its domain (a table whose entries are not hashes, a negative
      j) it is 0. */
  ghost function Added(p: seq<int>, xo: real, yo: real, zo: real, r: Region, i: int, j: int, k: int): real
  {
    if !Hashes(p) || j < 0 then 0.0
    else
      var xx, yy, zz := At(r.x, i, r.scaleX, xo), At(r.y, j, r.scaleY, yo), At(r.z, k, r.scaleZ, zo);
      if r.sizeY == 1 then Flat(p, Cell(xx), Cell(zz), Frac(xx), Frac(zz))
      else Sample(p, Cell(xx), Cell(yy), Cell(zz), Frac(xx), Frac(yy), Frac(zz), Frac(At(r.y, CacheStart(r, yo, j), r.scaleY, yo)))
  }

  /** In the 2-D branch (a single row of y) a sample does not depend on
      the region's y origin nor on its y scale. */
  lemma FlatIgnoresY(p: seq<int>, xo: real, yo: real, zo: real, r: Region, r': Region, i: int, k: int)
    requires r.sizeY == 1 && r' == r.(y := r'.y, scaleY := r'.scaleY)
    ensures Added(p, xo, yo, zo, r, i, 0, k) == Added(p, xo, yo, zo, r', i, 0, k)
  {
  }

  /** `Added` as a function of the sample. */
  ghost function AddedOver(p: seq<int>, xo: real, yo: real, zo: real, r: Region): (f: (int, int, int) -> real)
    ensures forall i, j, k :: f(i, j, k) == Added(p, xo, yo, zo, r, i, j, k)
  {
    (i: int, j: int, k: int) => Added(p, xo, yo, zo, r, i, j, k)
  }

  /** The first sample of each lattice cell is gradient noise at its
      point; in the 2-D branch every sample is gradient noise in the plane
      y = 0, without the y offset. */
  lemma AddedIsNoise(p: seq<int>, xo: real, yo: real, zo: real, r: Region, i: int, j: nat, k: int)
    requires Hashes(p)
    ensures r.sizeY == 1 ==>
              Added(p, xo, yo, zo, r, i, j, k) == NoiseAt(p, At(r.x, i, r.scaleX, xo), 0.0, At(r.z, k, r.scaleZ, zo))
    ensures r.sizeY != 1 && CacheStart(r, yo, j) == j ==>
              Added(p, xo, yo, zo, r, i, j, k)
              == NoiseAt(p, At(r.x, i, r.scaleX, xo), At(r.y, j, r.scaleY, yo), At(r.z, k, r.scaleZ, zo))
  {
    assert Mth.Floor(0.0) == 0;
  }

  /** The cached computation of the 3-D branch: with the x-interpolated
      gradients of the sample's cell taken at the y fraction of the cell's
      first sample, blending them along y and z gives `Added`. */
  lemma AddedCached(p: seq<int>, xo: real, yo: real, zo: real, r: Region, i: int, j: nat, k: int, e: (real, real, real, real))
    requires Hashes(p) && r.sizeY != 1
    requires var xx, yy, zz := At(r.x, i, r.scaleX, xo), At(r.y, j, r.scaleY, yo), At(r.z, k, r.scaleZ, zo);
      e == Edges(p, Cell(xx), Cell(yy), Cell(zz), Frac(xx), Frac(At(r.y, CacheStart(r, yo, j), r.scaleY, yo)), Frac(zz))
    ensures var v := Fade(Frac(At(r.y, j, r.scaleY, yo)));
      Added(p, xo, yo, zo, r, i, j, k)
      == Mth.Lerp(Mth.Lerp(e.0, e.1, v), Mth.Lerp(e.2, e.3, v), Fade(Frac(At(r.z, k, r.scaleZ, zo))))
  {
  }

  /** The buffer s after `add` has written its first n entries, starting
      from before: the entry of every sample below n has gained f of that
      sample times scale, and every entry from n on is untouched. */
  ghost predicate Filled(s: seq<real>, before: seq<real>, f: (int, int, int) -> real, scale: real, r: Region, n: int)
  {
    |s| == |before| && n <= |s|
    && (forall i, j, k :: Level.InBounds(r.sizeY, r.sizeX, r.sizeZ, j, i, k) && Slot(r, i, j, k) < n ==>
          s[Slot(r, i, j, k)] == before[Slot(r, i, j, k)] + f(i, j, k) * scale)
    && (forall m :: 0 <= n <= m < |s| ==> s[m] == before[m])
  }

  /** A finished sample's entry holds its earlier value plus its scaled
      sample. */
  lemma FilledAt(s: seq<real>, before: seq<real>, f: (int, int, int) -> real, scale: real, r: Region, i: int, j: int, k: int, n: int)
    requires Filled(s, before, f, scale, r, r.sizeY * r.sizeX * r.sizeZ) && Level.InBounds(r.sizeY, r.sizeX, r.sizeZ, j, i, k)
    requires n == Slot(r, i, j, k)
    ensures 0 <= n < |s| && s[n] == before[n] + f(i, j, k) * scale
  {
  }

  /** Writing sample (i, j, k) at the counter's entry extends the finished
      prefix by one: distinct samples have distinct entries. */
  lemma FilledStep(s: seq<real>, before: seq<real>, f: (int, int, int) -> real, scale: real, r: Region, i: int, j: int, k: int, delta: real)
    requires Level.InBounds(r.sizeY, r.sizeX, r.sizeZ, j, i, k)
    requires r.sizeY * r.sizeX * r.sizeZ <= |s| && Filled(s, before, f, scale, r, Slot(r, i, j, k))
    requires delta == f(i, j, k) * scale
    ensures Filled(s[Slot(r, i, j, k) := s[Slot(r, i, j, k)] + delta], before, f, scale, r, Slot(r, i, j, k) + 1)
  {
    var n := Slot(r, i, j, k);
    var t := s[n := s[n] + delta];
    forall i', j', k' | Level.InBounds(r.sizeY, r.sizeX, r.sizeZ, j', i', k') && Slot(r, i', j', k') < n + 1
      ensures t[Slot(r, i', j', k')] == before[Slot(r, i', j', k')] + f(i', j', k') * scale
    {
      Level.IndexInjective(r.sizeY, r.sizeX, r.sizeZ, j, i, k, j', i', k');
    }
  }

  class ImprovedNoise {
    const p: array<int>
    const xo: real
    const yo: real
    const zo: real

    ghost predicate Valid()
      reads p
    {
      Table(p[..]) && Hashes(p[..])
    }

    /** The constructor: the offsets are the three `nextDouble` draws times
        256; the table starts as 0..255 and step i exchanges entry i with
        entry i + picks[i] and copies the settled entry i to i + 256. */
    constructor (dx: real, dy: real, dz: real, picks: seq<int>)
      requires ValidOffset(dx) && ValidOffset(dy) && ValidOffset(dz) && ValidPicks(picks)
      ensures Valid() && fresh(p)
      ensures xo == dx * 256.0 && yo == dy * 256.0 && zo == dz * 256.0
      ensures 0.0 <= xo < 256.0 && 0.0 <= yo < 256.0 && 0.0 <= zo < 256.0
      ensures p[..256] == Shuffled(picks, 256)
    {
      p := new int[512];
      xo := dx * 256.0;
      yo := dy * 256.0;
      zo := dz * 256.0;
      new;
      for i := 0 to 256
        invariant forall j :: 0 <= j < i ==> p[j] == j
      {
        p[i] := i;
      }
      assert p[..256] == Iota(256);
      Shuffle(picks);
      ShuffledIsPermutation(picks, 256);
      TableHashes(p[..]);
    }

    /** The constructor's shuffle: step i exchanges entry i with entry
        i + picks[i] and copies the settled entry i to i + 256. */
    method Shuffle(picks: seq<int>)
      requires p.Length == 512 && ValidPicks(picks) && p[..256] == Iota(256)
      modifies p
      ensures p[..256] == Shuffled(picks, 256)
      ensures forall j :: 0 <= j < 256 ==> p[j + 256] == p[j]
    {
      for i := 0 to 256
        invariant p[..256] == Shuffled(picks, i)
        invariant forall j :: 0 <= j < i ==> p[j + 256] == p[j]
      {
        ShuffleStep(i, picks[i] + i);
      }
    }

    /** `noise`: gradient noise at the point moved by the offsets. */
    function Noise(x: real, y: real, z: real): (r: real)
      requires Valid()
      reads this, p
      ensures -2.0 <= r <= 2.0
    {
      NoiseAt(p[..], Moved(x, xo), Moved(y, yo), Moved(z, zo))
    }

    /** `getValue(x, y)`: the noise in the plane z = 0 of its own axes. */
    function GetValue2(x: real, y: real): (r: real)
      requires Valid()
      reads this, p
      ensures r == Noise(x, y, 0.0) && -2.0 <= r <= 2.0
    {
      Noise(x, y, 0.0)
    }

    /** `getValue(x, y, z)`: the noise itself. */
    function GetValue3(x: real, y: real, z: real): (r: real)
      requires Valid()
      reads this, p
    {
      Noise(x, y, z)
    }

    /** `add`: adds the value of every sample of the region, divided by
        freq, to the buffer entry of that sample; the rest of the buffer is
        left alone. A buffer too short for the region makes the source throw;
        the model demands one that fits. */
    method Add(buffer: array<real>, r: Region, freq: real)
      requires Valid() && freq != 0.0
      requires r.sizeX >= 0 && r.sizeY >= 0 && r.sizeZ >= 0 && r.sizeY * r.sizeX * r.sizeZ <= buffer.Length
      modifies buffer
      ensures Filled(buffer[..], old(buffer[..]), AddedOver(p[..], xo, yo, zo, r), 1.0 / freq, r, r.sizeY * r.sizeX * r.sizeZ)
    {
      if r.sizeY == 1 {
        AddFlat(buffer, r, freq);
      } else {
        AddFull(buffer, r, freq);
      }
    }

    /** The 2-D branch of `add` (a single row of y): every sample is noise
        in the plane y = 0, with x outermost and z inner. */
    method AddFlat(buffer: array<real>, r: Region, freq: real)
      requires Valid() && freq != 0.0 && r.sizeY == 1
      requires r.sizeX >= 0 && r.sizeZ >= 0 && r.sizeY * r.sizeX * r.sizeZ <= buffer.Length
      modifies buffer
      ensures Filled(buffer[..], old(buffer[..]), AddedOver(p[..], xo, yo, zo, r), 1.0 / freq, r, r.sizeY * r.sizeX * r.sizeZ)
    {
      var inv := 1.0 / freq;
      var n := 0;
      ghost var before := buffer[..];
      ghost var ps := p[..];
      ghost var f := AddedOver(ps, xo, yo, zo, r);
      for i := 0 to r.sizeX
        invariant n == Level.Index(1, r.sizeZ, 0, i, 0)
        invariant Filled(buffer[..], before, f, inv, r, n)
      {
        var xx := At(r.x, i, r.scaleX, xo);
        var X, fx := Cell(xx), Frac(xx);
        for k := 0 to r.sizeZ
          invariant n == Level.Index(1, r.sizeZ, 0, i, k)
          invariant Filled(buffer[..], before, f, inv, r, n)
        {
          var zz := At(r.z, k, r.scaleZ, zo);
          var value := Flat(p[..], X, Cell(zz), fx, Frac(zz));
          assert value == f(i, 0, k);
          Accumulate(buffer, before, f, inv, r, i, 0, k, n, value);
          n := n + 1;
          NextRow(1, r.sizeZ, i, k);
        }
        NextLayer(1, r.sizeZ, i);
      }
      LastLayer(r.sizeY, r.sizeX, r.sizeZ);
    }

    /** The 3-D branch of `add`: x outermost, then z, then y innermost,
        with the x-z edge values cached while the y lattice cell stays the
        same. */
    method AddFull(buffer: array<real>, r: Region, freq: real)
      requires Valid() && freq != 0.0 && r.sizeY != 1
      requires r.sizeX >= 0 && r.sizeY >= 0 && r.sizeZ >= 0 && r.sizeY * r.sizeX * r.sizeZ <= buffer.Length
      modifies buffer
      ensures Filled(buffer[..], old(buffer[..]), AddedOver(p[..], xo, yo, zo, r), 1.0 / freq, r, r.sizeY * r.sizeX * r.sizeZ)
    {
      var inv := 1.0 / freq;
      var n := 0;
      ghost var before := buffer[..];
      ghost var ps, ox, oy, oz := p[..], xo, yo, zo;
      ghost var f := AddedOver(ps, ox, oy, oz, r);
      for i := 0 to r.sizeX
        invariant n == Level.Index(r.sizeY, r.sizeZ, 0, i, 0)
        invariant Filled(buffer[..], before, f, inv, r, n)
      {
        var xx := At(r.x, i, r.scaleX, xo);
        var X, fx := Cell(xx), Frac(xx);
        for k := 0 to r.sizeZ
          invariant n == Level.Index(r.sizeY, r.sizeZ, 0, i, k)
          invariant Filled(buffer[..], before, f, inv, r, n)
        {
          var zz := At(r.z, k, r.scaleZ, zo);
          var Z, fz := Cell(zz), Frac(zz);
          var lastY := -1;
          var edges := (0.0, 0.0, 0.0, 0.0);
          for j := 0 to r.sizeY
            invariant n == Level.Index(r.sizeY, r.sizeZ, j, i, k)
            invariant j > 0 ==> lastY == Cell(At(r.y, j - 1, r.scaleY, yo))
                                && edges == Edges(p[..], X, lastY, Z, fx, Frac(At(r.y, CacheStart(r, yo, j - 1), r.scaleY, yo)), fz)
            invariant Filled(buffer[..], before, f, inv, r, n)
          {
            var yy := At(r.y, j, r.scaleY, yo);
            var Y, fy := Cell(yy), Frac(yy);
            if j == 0 || Y != lastY {
              lastY := Y;
              edges := Edges(p[..], X, Y, Z, fx, fy, fz);
            }
            var v := Fade(fy);
            var value := Mth.Lerp(Mth.Lerp(edges.0, edges.1, v), Mth.Lerp(edges.2, edges.3, v), Fade(fz));
            AddedCached(ps, ox, oy, oz, r, i, j, k, edges);
            assert value == f(i, j, k);
            Accumulate(buffer, before, f, inv, r, i, j, k, n, value);
            n := n + 1;
          }
          NextRow(r.sizeY, r.sizeZ, i, k);
        }
        NextLayer(r.sizeY, r.sizeZ, i);
      }
      LastLayer(r.sizeY, r.sizeX, r.sizeZ);
    }

    /** One write of `add`: the entry n of sample (i, j, k) gains value
        times inv, which extends the finished prefix of the buffer by one. */
    method Accumulate(buffer: array<real>, ghost before: seq<real>, ghost f: (int, int, int) -> real, inv: real,
                      r: Region, i: int, j: int, k: int, n: int, value: real)
      requires Level.InBounds(r.sizeY, r.sizeX, r.sizeZ, j, i, k) && n == Level.Index(r.sizeY, r.sizeZ, j, i, k)
      requires r.sizeY * r.sizeX * r.sizeZ <= buffer.Length && value == f(i, j, k)
      requires Filled(buffer[..], before, f, inv, r, n)
      modifies buffer
      ensures Filled(buffer[..], before, f, inv, r, n + 1)
    {
      FilledStep(buffer[..], before, f, inv, r, i, j, k, value * inv);
      buffer[n] := buffer[n] + value * inv;
    }

    /** One step of the constructor's shuffle: exchange entries i and k,
        then copy the new entry i to i + 256. */
    method ShuffleStep(i: int, k: int)
      requires p.Length == 512 && 0 <= i <= k < 256
      modifies p
      ensures p[..256] == Swap(old(p[..256]), i, k)
      ensures p[i + 256] == p[i]
      ensures forall j :: 0 <= j < 512 && j != i && j != k && j != i + 256 ==> p[j] == old(p[j])
    {
      var t := p[i];
      p[i] := p[k];
      p[k] := t;
      assert p[..256] == Swap(old(p[..256]), i, k);
      p[i + 256] := p[i];
      assert p[..256] == Swap(old(p[..256]), i, k);
    }
  }
}
