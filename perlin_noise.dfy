/**
 * The Java `PerlinNoise`: a stack of `ImprovedNoise` octaves. Octave o is
 * sampled at frequency s = 1/2^o and its value divided by s, so each octave
 * has half the frequency and twice the amplitude of the previous one. The
 * octave generators share one random source; the model takes their draws
 * as inputs.
 */
module PerlinNoise {
  import ImprovedNoise
  import Level

  /** The draws one octave's constructor consumes: three offset fractions
      and the 256 shuffle picks. */
  datatype Draw = Draw(dx: real, dy: real, dz: real, picks: seq<int>)

  predicate ValidDraw(d: Draw)
  {
    ImprovedNoise.ValidOffset(d.dx) && ImprovedNoise.ValidOffset(d.dy) && ImprovedNoise.ValidOffset(d.dz)
    && ImprovedNoise.ValidPicks(d.picks)
  }

  /** The octave generators as values: table o and offsets o of octave o.
      Every table holds hashes. */
  ghost predicate Octaves(ps: seq<seq<int>>, xs: seq<real>, ys: seq<real>, zs: seq<real>)
  {
    |xs| == |ps| && |ys| == |ps| && |zs| == |ps| && forall o :: 0 <= o < |ps| ==> ImprovedNoise.Hashes(ps[o])
  }

  /** What the constructor builds from the draws: octave o's offsets are
      its draws times 256 and its table is the shuffle of its picks. */
  ghost predicate BuiltFrom(ps: seq<seq<int>>, xs: seq<real>, ys: seq<real>, zs: seq<real>, draws: seq<Draw>)
  {
    |ps| == |draws| && |xs| == |draws| && |ys| == |draws| && |zs| == |draws|
    && forall o :: 0 <= o < |draws| ==>
         ValidDraw(draws[o]) && |ps[o]| == 512
         && xs[o] == draws[o].dx * 256.0 && ys[o] == draws[o].dy * 256.0 && zs[o] == draws[o].dz * 256.0
         && ps[o][..256] == ImprovedNoise.Shuffled(draws[o].picks, 256)
  }

  /** Building octave o from draw o extends what was built from the first
      o draws. */
  lemma BuiltFromStep(ps: seq<seq<int>>, xs: seq<real>, ys: seq<real>, zs: seq<real>, draws: seq<Draw>, o: nat,
                      p: seq<int>, x: real, y: real, z: real)
    requires o < |draws| && Octaves(ps, xs, ys, zs) && BuiltFrom(ps, xs, ys, zs, draws[..o])
    requires ValidDraw(draws[o]) && ImprovedNoise.Hashes(p) && |p| == 512 && p[..256] == ImprovedNoise.Shuffled(draws[o].picks, 256)
    requires x == draws[o].dx * 256.0 && y == draws[o].dy * 256.0 && z == draws[o].dz * 256.0
    ensures Octaves(ps + [p], xs + [x], ys + [y], zs + [z]) && BuiltFrom(ps + [p], xs + [x], ys + [y], zs + [z], draws[..o + 1])
  {
    assert draws[..o + 1] == draws[..o] + [draws[o]];
  }

  /** The frequency of octave o: 1, 1/2, 1/4, ... */
  function Scale(o: nat): (s: real)
    ensures 0.0 < s <= 1.0
  {
    if o == 0 then 1.0 else Scale(o - 1) / 2.0
  }

  /** The running frequency halves from one octave to the next. */
  lemma Halve(o: nat, s: real)
    requires s == Scale(o)
    ensures s / 2.0 == Scale(o + 1)
  {
  }

  /** The octave sum over the first n of the values v: value o divided by
      Scale(o), so octave o weighs 2^o. */
  function WeightedSum(v: seq<real>, n: nat): real
    requires n <= |v|
  {
    if n == 0 then 0.0 else WeightedSum(v, n - 1) + v[n - 1] / Scale(n - 1)
  }

  /** The largest magnitude the first n octaves can reach, over 2: the sum
      of 1/Scale(o) for o < n, which is 2^n - 1. */
  function Amplitude(n: nat): real
  {
    if n == 0 then 0.0 else Amplitude(n - 1) + 1.0 / Scale(n - 1)
  }

  lemma {:induction false} AmplitudeClosed(n: nat)
    ensures Amplitude(n) + 1.0 == 1.0 / Scale(n)
  {
    if n > 0 {
      AmplitudeClosed(n - 1);
      var s := Scale(n - 1);
      assert 1.0 / s + 1.0 / s == 1.0 / (s / 2.0);
    }
  }

  /** Dividing a value in [-2, 2] by a positive s keeps it within 2/s of 0. */
  lemma DivBound(v: real, s: real)
    requires 0.0 < s && -2.0 <= v <= 2.0
    ensures -2.0 * (1.0 / s) <= v / s <= 2.0 * (1.0 / s)
  {
    assert v / s == v * (1.0 / s);
    assert 2.0 / s == 2.0 * (1.0 / s);
    assert 0.0 < 1.0 / s;
  }

  /** Octave values within [-2, 2] sum to within 2 (2^n - 1) of zero. */
  lemma {:induction false} WeightedSumBound(v: seq<real>, n: nat)
    requires n <= |v| && forall o :: 0 <= o < |v| ==> -2.0 <= v[o] <= 2.0
    ensures -2.0 * Amplitude(n) <= WeightedSum(v, n) <= 2.0 * Amplitude(n)
  {
    if n > 0 {
      WeightedSumBound(v, n - 1);
      DivBound(v[n - 1], Scale(n - 1));
    }
  }

  /** The sum over one octave is that octave's value. */
  lemma WeightedSumOne(v: seq<real>)
    requires 1 <= |v|
    ensures WeightedSum(v, 1) == v[0]
  {
    assert Scale(0) == 1.0;
  }

  /** The running sum r of the first n octaves plus octave n's term t
      is the sum of the first n + 1. */
  lemma WeightedSumNext(v: seq<real>, n: nat, r: real, t: real)
    requires n < |v| && r == WeightedSum(v, n) && t == v[n] / Scale(n)
    ensures r + t == WeightedSum(v, n + 1)
  {
  }

  /** An entry e holding the sum of the first n octaves, to which `add`
      adds octave n's value c times the reciprocal of its frequency, holds
      the sum of the first n + 1. */
  lemma WeightedSumAdded(v: seq<real>, n: nat, e: real, e': real, c: real, scale: real)
    requires n < |v| && e == WeightedSum(v, n) && c == v[n] && scale == 1.0 / Scale(n) && e' == e + c * scale
    ensures e' == WeightedSum(v, n + 1)
  {
    assert c * scale == c / Scale(n);
  }

  /** Coordinate c at the frequency of octave o. */
  function Scaled(c: real, o: nat): real
  {
    c * Scale(o)
  }

  /** A product with the running frequency s is the scaled coordinate. */
  lemma ScaledIs(c: real, o: nat, s: real, sc: real)
    requires s == Scale(o) && sc == c * s
    ensures sc == Scaled(c, o)
  {
  }

  /** The noise of octave o at the point (a, b, c) moved by the octave's
      offsets: the first generator's for o = 0, else octave o - 1 of the
      generators after the first. */
  ghost function OctaveNoise(ps: seq<seq<int>>, xs: seq<real>, ys: seq<real>, zs: seq<real>, o: nat, a: real, b: real, c: real): (r: real)
    requires Octaves(ps, xs, ys, zs) && o < |ps|
    ensures -2.0 <= r <= 2.0
    decreases o
  {
    if o == 0 then ImprovedNoise.NoiseAt(ps[0], ImprovedNoise.Moved(a, xs[0]), ImprovedNoise.Moved(b, ys[0]), ImprovedNoise.Moved(c, zs[0]))
    else OctaveNoise(ps[1..], xs[1..], ys[1..], zs[1..], o - 1, a, b, c)
  }

  /** Octave o's noise is the noise of table o with offsets o. */
  lemma {:induction false} OctaveNoiseIs(ps: seq<seq<int>>, xs: seq<real>, ys: seq<real>, zs: seq<real>, o: nat, a: real, b: real, c: real)
    requires Octaves(ps, xs, ys, zs) && o < |ps|
    ensures OctaveNoise(ps, xs, ys, zs, o, a, b, c)
            == ImprovedNoise.NoiseAt(ps[o], ImprovedNoise.Moved(a, xs[o]), ImprovedNoise.Moved(b, ys[o]), ImprovedNoise.Moved(c, zs[o]))
  {
    if o > 0 {
      assert ps[1..][o - 1] == ps[o] && xs[1..][o - 1] == xs[o] && ys[1..][o - 1] == ys[o] && zs[1..][o - 1] == zs[o];
      OctaveNoiseIs(ps[1..], xs[1..], ys[1..], zs[1..], o - 1, a, b, c);
    }
  }

  /** The values the octaves of `getValue(x, y, z)` contribute: octave o's
      noise at the point scaled by Scale(o), before the division. */
  ghost function Values(ps: seq<seq<int>>, xs: seq<real>, ys: seq<real>, zs: seq<real>, x: real, y: real, z: real): (v: seq<real>)
    requires Octaves(ps, xs, ys, zs)
    ensures |v| == |ps| && forall o :: 0 <= o < |v| ==> -2.0 <= v[o] <= 2.0
  {
    seq(|ps|, o requires 0 <= o < |ps| => OctaveNoise(ps, xs, ys, zs, o, Scaled(x, o), Scaled(y, o), Scaled(z, o)))
  }

  /** An octave generator's `getValue(x, y, z)` is the noise of its table
      at the point moved by its offsets. */
  lemma GetValueIs(n: ImprovedNoise.ImprovedNoise, x: real, y: real, z: real)
    requires n.Valid()
    ensures n.GetValue3(x, y, z) == ImprovedNoise.NoiseAt(n.p[..], ImprovedNoise.Moved(x, n.xo), ImprovedNoise.Moved(y, n.yo), ImprovedNoise.Moved(z, n.zo))
  {
  }

  /** Octave o's `getValue` at the scaled point (a, b, c) gives its value. */
  lemma OctaveLink(n: ImprovedNoise.ImprovedNoise, ps: seq<seq<int>>, xs: seq<real>, ys: seq<real>, zs: seq<real>, o: nat,
                   x: real, y: real, z: real, a: real, b: real, c: real)
    requires Octaves(ps, xs, ys, zs) && o < |ps| && a == Scaled(x, o) && b == Scaled(y, o) && c == Scaled(z, o)
    requires n.Valid() && n.p[..] == ps[o] && n.xo == xs[o] && n.yo == ys[o] && n.zo == zs[o]
    ensures n.GetValue3(a, b, c) == Values(ps, xs, ys, zs, x, y, z)[o]
  {
    GetValueIs(n, a, b, c);
    OctaveNoiseIs(ps, xs, ys, zs, o, a, b, c);
  }

  /** n octaves together stay within 2 (2^n - 1) of zero. */
  lemma OctaveSumBound(ps: seq<seq<int>>, xs: seq<real>, ys: seq<real>, zs: seq<real>, n: nat, x: real, y: real, z: real)
    requires Octaves(ps, xs, ys, zs) && n <= |ps|
    ensures -2.0 * Amplitude(n) <= WeightedSum(Values(ps, xs, ys, zs, x, y, z), n) <= 2.0 * Amplitude(n)
    ensures -2.0 * (1.0 / Scale(n) - 1.0) <= WeightedSum(Values(ps, xs, ys, zs, x, y, z), n) <= 2.0 * (1.0 / Scale(n) - 1.0)
  {
    WeightedSumBound(Values(ps, xs, ys, zs, x, y, z), n);
    AmplitudeClosed(n);
  }

  /** With one octave the sum is that octave's noise at the point itself,
      moved by the octave's offsets. */
  lemma SingleOctave(ps: seq<seq<int>>, xs: seq<real>, ys: seq<real>, zs: seq<real>, x: real, y: real, z: real)
    requires Octaves(ps, xs, ys, zs) && 1 <= |ps|
    ensures WeightedSum(Values(ps, xs, ys, zs, x, y, z), 1)
            == ImprovedNoise.NoiseAt(ps[0], ImprovedNoise.Moved(x, xs[0]), ImprovedNoise.Moved(y, ys[0]), ImprovedNoise.Moved(z, zs[0]))
  {
    WeightedSumOne(Values(ps, xs, ys, zs, x, y, z));
    ScaledIs(x, 0, 1.0, x);
    ScaledIs(y, 0, 1.0, y);
    ScaledIs(z, 0, 1.0, z);
  }

  /** The region octave o samples: the same grid with every scale
      multiplied by Scale(o). */
  function OctaveRegion(r: ImprovedNoise.Region, o: nat): ImprovedNoise.Region
  {
    var s := Scale(o);
    r.(scaleX := r.scaleX * s, scaleY := r.scaleY * s, scaleZ := r.scaleZ * s)
  }

  /** The region `getRegion` hands octave o, built with the running
      frequency s, is OctaveRegion(r, o). */
  lemma OctaveRegionIs(r: ImprovedNoise.Region, o: nat, s: real, r': ImprovedNoise.Region)
    requires s == Scale(o)
    requires r' == ImprovedNoise.Region(r.x, r.y, r.z, r.sizeX, r.sizeY, r.sizeZ, r.scaleX * s, r.scaleY * s, r.scaleZ * s)
    ensures r' == OctaveRegion(r, o)
  {
  }

  /** Scaling a region keeps its sizes. */
  lemma OctaveRegionSize(r: ImprovedNoise.Region, o: nat, r': ImprovedNoise.Region)
    requires r' == OctaveRegion(r, o)
    ensures r'.sizeX == r.sizeX && r'.sizeY == r.sizeY && r'.sizeZ == r.sizeZ
    ensures r'.sizeY * r'.sizeX * r'.sizeZ == r.sizeY * r.sizeX * r.sizeZ
  {
  }

  /** What octave o's `add` accumulates over the region r' (the region
      scaled to its frequency) at sample (i, j, k): the first generator's
      for o = 0, else octave o - 1 of the generators after the first. */
  ghost function OctaveAdded(ps: seq<seq<int>>, xs: seq<real>, ys: seq<real>, zs: seq<real>, o: nat, r': ImprovedNoise.Region,
                             i: int, j: int, k: int): real
    requires Octaves(ps, xs, ys, zs) && o < |ps|
    decreases o
  {
    if o == 0 then ImprovedNoise.Added(ps[0], xs[0], ys[0], zs[0], r', i, j, k)
    else OctaveAdded(ps[1..], xs[1..], ys[1..], zs[1..], o - 1, r', i, j, k)
  }

  /** Octave o's contribution is what `add` computes with table o and
      offsets o. */
  lemma {:induction false} OctaveAddedIs(ps: seq<seq<int>>, xs: seq<real>, ys: seq<real>, zs: seq<real>, o: nat, r': ImprovedNoise.Region,
                                         i: int, j: int, k: int)
    requires Octaves(ps, xs, ys, zs) && o < |ps|
    ensures OctaveAdded(ps, xs, ys, zs, o, r', i, j, k) == ImprovedNoise.Added(ps[o], xs[o], ys[o], zs[o], r', i, j, k)
  {
    if o > 0 {
      OctaveAddedIs(ps[1..], xs[1..], ys[1..], zs[1..], o - 1, r', i, j, k);
      assert ps[1..][o - 1] == ps[o] && xs[1..][o - 1] == xs[o] && ys[1..][o - 1] == ys[o] && zs[1..][o - 1] == zs[o];
    }
  }

  /** The values the octaves of `getRegion` contribute to sample (i, j, k),
      before the division. */
  ghost function RegionValues(ps: seq<seq<int>>, xs: seq<real>, ys: seq<real>, zs: seq<real>, r: ImprovedNoise.Region, i: int, j: int, k: int): (v: seq<real>)
    requires Octaves(ps, xs, ys, zs)
    ensures |v| == |ps|
  {
    seq(|ps|, o requires 0 <= o < |ps| => OctaveAdded(ps, xs, ys, zs, o, OctaveRegion(r, o), i, j, k))
  }

  /** With a single row of y (the 2-D `getRegion`), neither the region's y
      nor its y scale matters. */
  lemma FlatRegionIgnoresY(ps: seq<seq<int>>, xs: seq<real>, ys: seq<real>, zs: seq<real>,
                           r: ImprovedNoise.Region, y: real, scaleY: real, i: int, k: int)
    requires Octaves(ps, xs, ys, zs) && r.sizeY == 1
    ensures RegionValues(ps, xs, ys, zs, r, i, 0, k) == RegionValues(ps, xs, ys, zs, r.(y := y, scaleY := scaleY), i, 0, k)
  {
    var a, b := RegionValues(ps, xs, ys, zs, r, i, 0, k), RegionValues(ps, xs, ys, zs, r.(y := y, scaleY := scaleY), i, 0, k);
    forall o | 0 <= o < |ps|
      ensures a[o] == b[o]
    {
      var r1, r2 := OctaveRegion(r, o), OctaveRegion(r.(y := y, scaleY := scaleY), o);
      ImprovedNoise.FlatIgnoresY(ps[o], xs[o], ys[o], zs[o], r1, r2, i, k);
      OctaveAddedIs(ps, xs, ys, zs, o, r1, i, 0, k);
      OctaveAddedIs(ps, xs, ys, zs, o, r2, i, 0, k);
    }
  }

  /** A buffer s holding, at every sample's entry, the weighted sum of the
      first n of its values v(i, j, k), and 0 at every entry after the
      region. */
  ghost predicate SummedBy(s: seq<real>, v: (int, int, int) -> seq<real>, n: nat, r: ImprovedNoise.Region)
  {
    r.sizeY * r.sizeX * r.sizeZ <= |s|
    && (forall i, j, k :: Level.InBounds(r.sizeY, r.sizeX, r.sizeZ, j, i, k) ==>
          n <= |v(i, j, k)| && s[ImprovedNoise.Slot(r, i, j, k)] == WeightedSum(v(i, j, k), n))
    && (forall m :: 0 <= r.sizeY * r.sizeX * r.sizeZ <= m < |s| ==> s[m] == 0.0)
  }

  /** Adding value o of every sample, times scale = 1 / Scale(o), to its
      entry (as `add` does over a region r' with r's sizes) turns the sums
      of the first o values into the sums of the first o + 1. */
  lemma SummedByStep(s: seq<real>, t: seq<real>, v: (int, int, int) -> seq<real>, f: (int, int, int) -> real, o: nat,
                     r: ImprovedNoise.Region, r': ImprovedNoise.Region, scale: real)
    requires SummedBy(s, v, o, r) && scale == 1.0 / Scale(o)
    requires r'.sizeX == r.sizeX && r'.sizeY == r.sizeY && r'.sizeZ == r.sizeZ
    requires forall i, j, k :: Level.InBounds(r.sizeY, r.sizeX, r.sizeZ, j, i, k) ==> o < |v(i, j, k)| && v(i, j, k)[o] == f(i, j, k)
    requires ImprovedNoise.Filled(t, s, f, scale, r', r'.sizeY * r'.sizeX * r'.sizeZ)
    ensures SummedBy(t, v, o + 1, r)
  {
    assert |t| == |s|;
    assert forall m :: 0 <= r.sizeY * r.sizeX * r.sizeZ <= m < |t| ==> t[m] == 0.0;
    forall i, j, k | Level.InBounds(r.sizeY, r.sizeX, r.sizeZ, j, i, k)
      ensures o + 1 <= |v(i, j, k)| && t[ImprovedNoise.Slot(r, i, j, k)] == WeightedSum(v(i, j, k), o + 1)
    {
      SummedByAt(s, t, v, f, o, r, r', scale, i, j, k);
    }
  }

  /** SummedByStep at the entry of sample (i, j, k). */
  lemma SummedByAt(s: seq<real>, t: seq<real>, v: (int, int, int) -> seq<real>, f: (int, int, int) -> real, o: nat,
                   r: ImprovedNoise.Region, r': ImprovedNoise.Region, scale: real, i: int, j: int, k: int)
    requires SummedBy(s, v, o, r) && scale == 1.0 / Scale(o)
    requires r'.sizeX == r.sizeX && r'.sizeY == r.sizeY && r'.sizeZ == r.sizeZ
    requires Level.InBounds(r.sizeY, r.sizeX, r.sizeZ, j, i, k) && o < |v(i, j, k)| && v(i, j, k)[o] == f(i, j, k)
    requires ImprovedNoise.Filled(t, s, f, scale, r', r'.sizeY * r'.sizeX * r'.sizeZ)
    ensures o + 1 <= |v(i, j, k)| && t[ImprovedNoise.Slot(r, i, j, k)] == WeightedSum(v(i, j, k), o + 1)
  {
    var n := ImprovedNoise.Slot(r, i, j, k);
    assert ImprovedNoise.Slot(r', i, j, k) == n;
    ImprovedNoise.FilledAt(t, s, f, scale, r', i, j, k, n);
    WeightedSumAdded(v(i, j, k), o, s[n], t[n], f(i, j, k), scale);
  }

  /** The octave values of every sample of the region r. */
  ghost function RegionValuesOver(ps: seq<seq<int>>, xs: seq<real>, ys: seq<real>, zs: seq<real>, r: ImprovedNoise.Region): (int, int, int) -> seq<real>
    requires Octaves(ps, xs, ys, zs)
  {
    (i: int, j: int, k: int) => RegionValues(ps, xs, ys, zs, r, i, j, k)
  }

  /** A buffer s holding the sums of the first n octaves: every sample's
      entry holds its octave sum, every entry after the region is 0. */
  ghost predicate Summed(s: seq<real>, ps: seq<seq<int>>, xs: seq<real>, ys: seq<real>, zs: seq<real>, n: nat, r: ImprovedNoise.Region)
    requires Octaves(ps, xs, ys, zs) && n <= |ps|
  {
    SummedBy(s, RegionValuesOver(ps, xs, ys, zs, r), n, r)
  }

  /** Octave o's value at every sample is what its `add` adds there. */
  lemma OctaveValuesAdded(ps: seq<seq<int>>, xs: seq<real>, ys: seq<real>, zs: seq<real>, o: nat, r: ImprovedNoise.Region,
                          r': ImprovedNoise.Region)
    requires Octaves(ps, xs, ys, zs) && o < |ps| && r' == OctaveRegion(r, o)
    ensures forall i, j, k :: o < |RegionValuesOver(ps, xs, ys, zs, r)(i, j, k)|
              && RegionValuesOver(ps, xs, ys, zs, r)(i, j, k)[o] == ImprovedNoise.AddedOver(ps[o], xs[o], ys[o], zs[o], r')(i, j, k)
  {
    forall i, j, k
      ensures o < |RegionValuesOver(ps, xs, ys, zs, r)(i, j, k)|
              && RegionValuesOver(ps, xs, ys, zs, r)(i, j, k)[o] == ImprovedNoise.AddedOver(ps[o], xs[o], ys[o], zs[o], r')(i, j, k)
    {
      OctaveAddedIs(ps, xs, ys, zs, o, r', i, j, k);
    }
  }

  /** Octave o's `add`, with its generator's table and offsets, its region
      r' and the reciprocal `scale` of its frequency, turns the sums of the
      first o octaves into the sums of the first o + 1. */
  lemma SummedStep(s: seq<real>, t: seq<real>, ps: seq<seq<int>>, xs: seq<real>, ys: seq<real>, zs: seq<real>, o: nat,
                   r: ImprovedNoise.Region, r': ImprovedNoise.Region, scale: real)
    requires Octaves(ps, xs, ys, zs) && o < |ps| && Summed(s, ps, xs, ys, zs, o, r)
    requires r' == OctaveRegion(r, o) && scale == 1.0 / Scale(o)
    requires ImprovedNoise.Filled(t, s, ImprovedNoise.AddedOver(ps[o], xs[o], ys[o], zs[o], r'), scale, r', r'.sizeY * r'.sizeX * r'.sizeZ)
    ensures Summed(t, ps, xs, ys, zs, o + 1, r)
  {
    OctaveRegionSize(r, o, r');
    OctaveValuesAdded(ps, xs, ys, zs, o, r, r');
    SummedByStep(s, t, RegionValuesOver(ps, xs, ys, zs, r), ImprovedNoise.AddedOver(ps[o], xs[o], ys[o], zs[o], r'), o, r, r', scale);
  }

  /** The octave generators ns hold the tables ps and the offsets xs, ys,
      zs. */
  ghost predicate Generators(ns: seq<ImprovedNoise.ImprovedNoise>, ps: seq<seq<int>>, xs: seq<real>, ys: seq<real>, zs: seq<real>)
    reads set o | 0 <= o < |ns| :: ns[o].p
  {
    |ns| == |ps| && Octaves(ps, xs, ys, zs)
    && forall o :: 0 <= o < |ns| ==>
         ns[o].Valid() && ns[o].p[..] == ps[o] && ns[o].xo == xs[o] && ns[o].yo == ys[o] && ns[o].zo == zs[o]
  }

  lemma GeneratorsStep(ns: seq<ImprovedNoise.ImprovedNoise>, ps: seq<seq<int>>, xs: seq<real>, ys: seq<real>, zs: seq<real>,
                       n: ImprovedNoise.ImprovedNoise)
    requires Generators(ns, ps, xs, ys, zs) && n.Valid()
    ensures Generators(ns + [n], ps + [n.p[..]], xs + [n.xo], ys + [n.yo], zs + [n.zo])
  {
  }

  /** The buffer length `getRegion` allocates, sizeX * sizeY * sizeZ, is
      the region's volume. */
  lemma VolumeOrder(sizeX: int, sizeY: int, sizeZ: int)
    ensures sizeX * sizeY * sizeZ == sizeY * sizeX * sizeZ
  {
  }

  /** A zeroed buffer that fits the region holds the sums of no octaves. */
  lemma SummedNone(s: seq<real>, ps: seq<seq<int>>, xs: seq<real>, ys: seq<real>, zs: seq<real>, r: ImprovedNoise.Region)
    requires Octaves(ps, xs, ys, zs) && r.sizeY * r.sizeX * r.sizeZ <= |s| && forall m :: 0 <= m < |s| ==> s[m] == 0.0
    ensures Summed(s, ps, xs, ys, zs, 0, r)
  {
  }

  /** A new buffer of n entries, each 0 as Java initialises them. */
  method Zeroed(n: nat) returns (a: array<real>)
    ensures fresh(a) && a.Length == n && forall m :: 0 <= m < n ==> a[m] == 0.0
  {
    a := new real[n](_ => 0.0);
  }

  /** Zeroes every entry of the buffer. */
  method Clear(a: array<real>)
    modifies a
    ensures forall m :: 0 <= m < a.Length ==> a[m] == 0.0
  {
    for m := 0 to a.Length
      invariant forall n :: 0 <= n < m ==> a[n] == 0.0
    {
      a[m] := 0.0;
    }
  }

  class PerlinNoise {
    const noiseLevels: seq<ImprovedNoise.ImprovedNoise>
    const levels: int
    /** The octaves' tables and offsets, which never change once built. */
    ghost const tables: seq<seq<int>>
    ghost const xos: seq<real>
    ghost const yos: seq<real>
    ghost const zos: seq<real>

    ghost predicate Valid()
      reads set o | 0 <= o < |noiseLevels| :: noiseLevels[o].p
    {
      levels == |noiseLevels| && Generators(noiseLevels, tables, xos, yos, zos)
    }

    /** The constructor builds exactly `levels` octave generators, octave o
        from the o-th group of draws. */
    constructor (levels: nat, draws: seq<Draw>)
      requires |draws| == levels && forall o :: 0 <= o < levels ==> ValidDraw(draws[o])
      ensures Valid() && this.levels == levels && BuiltFrom(tables, xos, yos, zos, draws)
    {
      var ns: seq<ImprovedNoise.ImprovedNoise> := [];
      ghost var ps: seq<seq<int>> := [];
      ghost var xs: seq<real>, ys: seq<real>, zs: seq<real> := [], [], [];
      for o := 0 to levels
        invariant Generators(ns, ps, xs, ys, zs) && BuiltFrom(ps, xs, ys, zs, draws[..o])
      {
        var d := draws[o];
        var n := new ImprovedNoise.ImprovedNoise(d.dx, d.dy, d.dz, d.picks);
        BuiltFromStep(ps, xs, ys, zs, draws, o, n.p[..], n.xo, n.yo, n.zo);
        GeneratorsStep(ns, ps, xs, ys, zs, n);
        ns := ns + [n];
        ps, xs, ys, zs := ps + [n.p[..]], xs + [n.xo], ys + [n.yo], zs + [n.zo];
      }
      assert draws[..levels] == draws;
      noiseLevels := ns;
      this.levels := levels;
      tables, xos, yos, zos := ps, xs, ys, zs;
    }

    /** `getValue(x, y, z)`: the octave sum at the point. */
    method GetValue3(x: real, y: real, z: real) returns (r: real)
      requires Valid()
      ensures r == WeightedSum(Values(tables, xos, yos, zos, x, y, z), levels)
    {
      r := 0.0;
      var s := 1.0;
      for o := 0 to levels
        invariant s == Scale(o) && r == WeightedSum(Values(tables, xos, yos, zos, x, y, z), o)
      {
        var t := OctaveTerm3(o, s, x, y, z);
        WeightedSumNext(Values(tables, xos, yos, zos, x, y, z), o, r, t);
        Halve(o, s);
        r := r + t;
        s := s / 2.0;
      }
    }

    /** Octave o's term of the sum: its `getValue(x * s, y * s, z * s)` at
        its frequency s, divided by s. */
    method OctaveTerm3(o: nat, s: real, x: real, y: real, z: real) returns (t: real)
      requires Valid() && o < levels && s == Scale(o)
      ensures t == Values(tables, xos, yos, zos, x, y, z)[o] / Scale(o)
    {
      var n := noiseLevels[o];
      assert n.p[..] == tables[o] && n.xo == xos[o] && n.yo == yos[o] && n.zo == zos[o];
      var sx, sy, sz := x * s, y * s, z * s;
      ScaledIs(x, o, s, sx);
      ScaledIs(y, o, s, sy);
      ScaledIs(z, o, s, sz);
      OctaveLink(n, tables, xos, yos, zos, o, x, y, z, sx, sy, sz);
      t := n.GetValue3(sx, sy, sz) / s;
    }

    /** `getValue(x, y)`: the octave sum in the plane z = 0, each octave in
        the plane z = 0 of its own axes. */
    method GetValue2(x: real, y: real) returns (r: real)
      requires Valid()
      ensures r == WeightedSum(Values(tables, xos, yos, zos, x, y, 0.0), levels)
    {
      r := 0.0;
      var s := 1.0;
      for o := 0 to levels
        invariant s == Scale(o) && r == WeightedSum(Values(tables, xos, yos, zos, x, y, 0.0), o)
      {
        var t := OctaveTerm2(o, s, x, y);
        WeightedSumNext(Values(tables, xos, yos, zos, x, y, 0.0), o, r, t);
        Halve(o, s);
        r := r + t;
        s := s / 2.0;
      }
    }

    /** Octave o's term of the sum: its `getValue(x * s, y * s)` at its
        frequency s, divided by s. */
    method OctaveTerm2(o: nat, s: real, x: real, y: real) returns (t: real)
      requires Valid() && o < levels && s == Scale(o)
      ensures t == Values(tables, xos, yos, zos, x, y, 0.0)[o] / Scale(o)
    {
      var n := noiseLevels[o];
      assert n.p[..] == tables[o] && n.xo == xos[o] && n.yo == yos[o] && n.zo == zos[o];
      var sx, sy := x * s, y * s;
      ScaledIs(x, o, s, sx);
      ScaledIs(y, o, s, sy);
      ScaledIs(0.0, o, s, 0.0);
      OctaveLink(n, tables, xos, yos, zos, o, x, y, 0.0, sx, sy, 0.0);
      t := n.GetValue2(sx, sy) / s;
    }

    /** `getRegion`: without a buffer, a new one of sizeX * sizeY * sizeZ
        entries; with one, that buffer with every entry zeroed. Then every
        octave's `add` accumulates into it, so every sample's entry holds
        its octave sum and the entries after the region stay 0. A buffer
        too short for the region makes the source throw; the model demands
        one that fits. */
    method GetRegion(buffer: array?<real>, x: real, y: real, z: real, sizeX: int, sizeY: int, sizeZ: int,
                     scaleX: real, scaleY: real, scaleZ: real) returns (out: array<real>)
      requires Valid() && sizeX >= 0 && sizeY >= 0 && sizeZ >= 0
      requires buffer != null ==> sizeY * sizeX * sizeZ <= buffer.Length
      modifies buffer
      ensures buffer == null ==> fresh(out) && out.Length == sizeX * sizeY * sizeZ
      ensures buffer != null ==> out == buffer
      ensures Summed(out[..], tables, xos, yos, zos, levels, ImprovedNoise.Region(x, y, z, sizeX, sizeY, sizeZ, scaleX, scaleY, scaleZ))
    {
      var r := ImprovedNoise.Region(x, y, z, sizeX, sizeY, sizeZ, scaleX, scaleY, scaleZ);
      VolumeOrder(sizeX, sizeY, sizeZ);
      if buffer == null {
        out := Zeroed(sizeX * sizeY * sizeZ);
      } else {
        out := buffer;
        Clear(out);
      }
      SummedNone(out[..], tables, xos, yos, zos, r);
      AddOctaves(out, r);
    }

    /** Every octave's `add` in turn, at the running frequency that starts
        at 1 and halves after each octave. */
    method AddOctaves(out: array<real>, r: ImprovedNoise.Region)
      requires Valid() && Summed(out[..], tables, xos, yos, zos, 0, r)
      requires r.sizeX >= 0 && r.sizeY >= 0 && r.sizeZ >= 0
      modifies out
      ensures Summed(out[..], tables, xos, yos, zos, levels, r)
    {
      var s := 1.0;
      for o := 0 to levels
        invariant s == Scale(o) && Summed(out[..], tables, xos, yos, zos, o, r)
      {
        OctaveAdd(out, r, o, s);
        Halve(o, s);
        s := s / 2.0;
      }
    }

    /** Octave o's `add` into the buffer, at the region scaled by its
        frequency s: the sums of the first o octaves become the sums of the
        first o + 1. */
    method OctaveAdd(out: array<real>, r: ImprovedNoise.Region, o: nat, s: real)
      requires Valid() && o < levels && s == Scale(o) && Summed(out[..], tables, xos, yos, zos, o, r)
      requires r.sizeX >= 0 && r.sizeY >= 0 && r.sizeZ >= 0
      modifies out
      ensures Summed(out[..], tables, xos, yos, zos, o + 1, r)
    {
      var n := noiseLevels[o];
      assert n.p[..] == tables[o] && n.xo == xos[o] && n.yo == yos[o] && n.zo == zos[o];
      var r' := ImprovedNoise.Region(r.x, r.y, r.z, r.sizeX, r.sizeY, r.sizeZ, r.scaleX * s, r.scaleY * s, r.scaleZ * s);
      OctaveRegionIs(r, o, s, r');
      ghost var before := out[..];
      n.Add(out, r', s);
      SummedStep(before, out[..], tables, xos, yos, zos, o, r, r', 1.0 / s);
    }

    /** The 2-D `getRegion`: the region at y = 10 with one row of y and y
        scale 1; the last scale argument is unused. */
    method GetRegion2(buffer: array?<real>, x: int, z: int, sizeX: int, sizeZ: int,
                      scaleX: real, scaleZ: real, unused: real) returns (out: array<real>)
      requires Valid() && sizeX >= 0 && sizeZ >= 0
      requires buffer != null ==> sizeX * sizeZ <= buffer.Length
      modifies buffer
      ensures buffer == null ==> fresh(out) && out.Length == sizeX * sizeZ
      ensures buffer != null ==> out == buffer
      ensures Summed(out[..], tables, xos, yos, zos, levels, ImprovedNoise.Region(x as real, 10.0, z as real, sizeX, 1, sizeZ, scaleX, 1.0, scaleZ))
    {
      out := GetRegion(buffer, x as real, 10.0, z as real, sizeX, 1, sizeZ, scaleX, 1.0, scaleZ);
    }
  }
}
