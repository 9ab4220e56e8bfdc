/**
 * The part of `prepareHeights` that the overworld and hell generators
 * share. `getHeights` fills a coarse density lattice: 5 x 5 samples across
 * the chunk and 17 up. Every cell's density comes from that lattice by
 * repeated addition of a step: eighths up, then quarters along x, then
 * quarters along z. Each cell then gets the tile its generator picks for
 * the density, the height and the column.
 */
module Terrain {
  import opened ChunkBlocks

  /** The lattice's 5 * 5 * 17 samples. */
  const LatticeSize: int := 425

  /** Lattice sample (i, j, k): i along x, j along z, k up. */
  function Sample(buf: seq<real>, i: int, j: int, k: int): real
    requires |buf| == LatticeSize && 0 <= i < 5 && 0 <= j < 5 && 0 <= k < 17
  {
    buf[(i * 5 + j) * 17 + k]
  }

  /** b advanced n times by the step s. */
  function Stepped(b: real, s: real, n: nat): real
  {
    if n == 0 then b else Stepped(b, s, n - 1) + s
  }

  /** Repeated addition of a step is linear interpolation. */
  lemma {:induction false} SteppedIsLinear(b: real, s: real, n: nat)
    ensures Stepped(b, s, n) == b + n as real * s
  {
    if n > 0 {
      SteppedIsLinear(b, s, n - 1);
    }
  }

  /** n steps of one n-th of the way from b0 to b1 reach b1, so the
      interpolation meets the next lattice sample at a cell's far side. */
  lemma SteppedReaches(b0: real, b1: real, n: nat, part: real)
    requires n > 0 && part * n as real == 1.0
    ensures Stepped(b0, (b1 - b0) * part, n) == b1
  {
    SteppedIsLinear(b0, (b1 - b0) * part, n);
    assert n as real * ((b1 - b0) * part) == (b1 - b0) * (part * n as real);
  }

  /** Lattice column (i, j) a eighths up lattice cell k. */
  function Rise(buf: seq<real>, i: int, j: int, k: int, a: nat): real
    requires |buf| == LatticeSize && 0 <= i < 5 && 0 <= j < 5 && 0 <= k < 16
  {
    Stepped(Sample(buf, i, j, k), (Sample(buf, i, j, k + 1) - Sample(buf, i, j, k)) * 0.125, a)
  }

  /** b quarters along x from lattice column (i, j). */
  function Across(buf: seq<real>, i: int, j: int, k: int, a: nat, b: nat): real
    requires |buf| == LatticeSize && 0 <= i < 4 && 0 <= j < 5 && 0 <= k < 16
  {
    Stepped(Rise(buf, i, j, k, a), (Rise(buf, i + 1, j, k, a) - Rise(buf, i, j, k, a)) * 0.25, b)
  }

  /** The density a eighths up, b quarters along x and c quarters along z
      in lattice cell (i, j, k). */
  function Density(buf: seq<real>, i: int, j: int, k: int, a: nat, b: nat, c: nat): real
    requires |buf| == LatticeSize && 0 <= i < 4 && 0 <= j < 4 && 0 <= k < 16
  {
    Stepped(Across(buf, i, j, k, a, b), (Across(buf, i, j + 1, k, a, b) - Across(buf, i, j, k, a, b)) * 0.25, c)
  }

  /** The density of the cell (x, z, y). */
  function DensityAt(buf: seq<real>, x: int, z: int, y: int): real
    requires |buf| == LatticeSize && InChunk(x, z, y)
  {
    Density(buf, x / 4, z / 4, y / 8, y % 8, x % 4, z % 4)
  }

  /** At a lattice point the density is the lattice sample. */
  lemma DensityAtLattice(buf: seq<real>, i: int, j: int, k: int)
    requires |buf| == LatticeSize && 0 <= i < 4 && 0 <= j < 4 && 0 <= k < 16
    ensures DensityAt(buf, i * 4, j * 4, k * 8) == Sample(buf, i, j, k)
  {
  }

  /** The tile `prepareHeights` writes in the cell (x, z, y); `tile` is the
      generator's choice from density, height and column x * 16 + z. */
  function Prepared(buf: seq<real>, tile: (real, int, int) -> int, x: int, z: int, y: int): int
    requires |buf| == LatticeSize && InChunk(x, z, y)
  {
    tile(DensityAt(buf, x, z, y), y, x * 16 + z)
  }

  /** The chunk a complete fill produces, whatever it started from. */
  function Prepare(buf: seq<real>, tile: (real, int, int) -> int): (s: seq<int>)
    requires |buf| == LatticeSize
    ensures |s| == Volume
    ensures forall x, z, y :: InChunk(x, z, y) ==> s[Index(x, z, y)] == Prepared(buf, tile, x, z, y)
  {
    var s := seq(Volume, i requires 0 <= i < Volume => IndexOnto(i); Prepared(buf, tile, i / 2048, i / 128 % 16, i % 128));
    forall x, z, y | InChunk(x, z, y)
      ensures s[Index(x, z, y)] == Prepared(buf, tile, x, z, y)
    {
      var i := Index(x, z, y);
      IndexOnto(i);
      IndexInjective(i / 2048, i / 128 % 16, i % 128, x, z, y);
    }
    s
  }

  /** The seed `getChunk` gives the generator: the chunk coordinates times
      two fixed odd constants, summed in 64-bit arithmetic. */
  function ChunkSeed(x: int, z: int): (s: int)
    ensures -0x8000_0000_0000_0000 <= s < 0x8000_0000_0000_0000
    ensures (s - (x * 341873128712 + z * 132897987541)) % 0x1_0000_0000_0000_0000 == 0
  {
    var v := (x * 341873128712 + z * 132897987541) % 0x1_0000_0000_0000_0000;
    if v >= 0x8000_0000_0000_0000 then v - 0x1_0000_0000_0000_0000 else v
  }

  /** The cells of box b hold their prepared tiles and every other cell
      holds its tile of s0. */
  ghost predicate Filled(s: seq<int>, s0: seq<int>, buf: seq<real>, tile: (real, int, int) -> int, b: Box)
  {
    |s| == Volume && |s0| == Volume && |buf| == LatticeSize
    && forall x, z, y :: InChunk(x, z, y) ==>
         s[Index(x, z, y)] == if InBox(b, x, z, y) then Prepared(buf, tile, x, z, y) else s0[Index(x, z, y)]
  }

  /** The cell (x, z, y), b quarters along x, c along z and a eighths up
      lattice cell (i, j, k), is prepared from that cell's density. */
  lemma PreparedIs(buf: seq<real>, tile: (real, int, int) -> int, i: int, j: int, k: int, a: int, b: int, c: int, x: int, z: int, y: int)
    requires |buf| == LatticeSize && 0 <= i < 4 && 0 <= j < 4 && 0 <= k < 16 && 0 <= a < 8 && 0 <= b < 4 && 0 <= c < 4
    requires x == i * 4 + b && z == j * 4 + c && y == k * 8 + a
    ensures InChunk(x, z, y) && Prepared(buf, tile, x, z, y) == tile(Density(buf, i, j, k, a, b, c), y, x * 16 + z)
  {
    assert x / 4 == i && x % 4 == b;
    assert z / 4 == j && z % 4 == c;
    assert y / 8 == k && y % 8 == a;
  }

  /** Preparing one more cell along z of a filled run extends it. */
  lemma FilledGrow(s2: seq<int>, s1: seq<int>, s0: seq<int>, buf: seq<real>, tile: (real, int, int) -> int,
                   x: int, z0: int, z: int, y: int, v: int)
    requires Filled(s1, s0, buf, tile, Box(x, x + 1, z0, z, y, y + 1)) && InChunk(x, z, y) && z0 <= z
    requires v == Prepared(buf, tile, x, z, y) && s2 == s1[Index(x, z, y) := v]
    ensures Filled(s2, s0, buf, tile, Box(x, x + 1, z0, z + 1, y, y + 1))
  {
    forall x', z', y' | InChunk(x', z', y')
      ensures s2[Index(x', z', y')] == if InBox(Box(x, x + 1, z0, z + 1, y, y + 1), x', z', y') then Prepared(buf, tile, x', z', y')
                                       else s0[Index(x', z', y')]
    {
      if !(x' == x && z' == z && y' == y) {
        if Index(x', z', y') == Index(x, z, y) {
          IndexInjective(x', z', y', x, z, y);
        }
      }
    }
  }

  /** Filling box b1, then box b2 next to it, fills their union b3. */
  lemma FilledJoin(s2: seq<int>, s1: seq<int>, s0: seq<int>, buf: seq<real>, tile: (real, int, int) -> int, b1: Box, b2: Box, b3: Box)
    requires Filled(s1, s0, buf, tile, b1) && Filled(s2, s1, buf, tile, b2)
    requires forall x, z, y :: InChunk(x, z, y) ==> (InBox(b3, x, z, y) <==> InBox(b1, x, z, y) || InBox(b2, x, z, y))
    ensures Filled(s2, s0, buf, tile, b3)
  {
  }

  /** An empty box leaves everything as it was. */
  lemma FilledNone(s: seq<int>, buf: seq<real>, tile: (real, int, int) -> int, b: Box)
    requires |s| == Volume && |buf| == LatticeSize && (b.x1 <= b.x0 || b.z1 <= b.z0 || b.y1 <= b.y0)
    ensures Filled(s, s, buf, tile, b)
  {
  }

  /** The loops of `prepareHeights`: every cell of the chunk gets the tile
      its generator picks for its interpolated density. */
  method Fill(blocks: array<int>, buf: seq<real>, tile: (real, int, int) -> int)
    requires blocks.Length == Volume && |buf| == LatticeSize
    modifies blocks
    ensures Filled(blocks[..], old(blocks[..]), buf, tile, Box(0, 16, 0, 16, 0, 128))
    ensures blocks[..] == Prepare(buf, tile)
  {
    ghost var s0 := blocks[..];
    FilledNone(s0, buf, tile, Box(0, 0, 0, 16, 0, 128));
    for i := 0 to 4
      invariant Filled(blocks[..], s0, buf, tile, Box(0, i * 4, 0, 16, 0, 128))
    {
      ghost var s1 := blocks[..];
      FillSlab(blocks, buf, tile, i);
      FilledJoin(blocks[..], s1, s0, buf, tile, Box(0, i * 4, 0, 16, 0, 128), Box(i * 4, i * 4 + 4, 0, 16, 0, 128),
                 Box(0, i * 4 + 4, 0, 16, 0, 128));
    }
    forall i | 0 <= i < Volume
      ensures blocks[i] == Prepare(buf, tile)[i]
    {
      IndexOnto(i);
    }
  }

  /** Lattice cells i along x, all j and k. */
  method FillSlab(blocks: array<int>, buf: seq<real>, tile: (real, int, int) -> int, i: int)
    requires blocks.Length == Volume && |buf| == LatticeSize && 0 <= i < 4
    modifies blocks
    ensures Filled(blocks[..], old(blocks[..]), buf, tile, Box(i * 4, i * 4 + 4, 0, 16, 0, 128))
  {
    ghost var s0 := blocks[..];
    FilledNone(s0, buf, tile, Box(i * 4, i * 4 + 4, 0, 0, 0, 128));
    for j := 0 to 4
      invariant Filled(blocks[..], s0, buf, tile, Box(i * 4, i * 4 + 4, 0, j * 4, 0, 128))
    {
      ghost var s1 := blocks[..];
      FillPillar(blocks, buf, tile, i, j);
      FilledJoin(blocks[..], s1, s0, buf, tile, Box(i * 4, i * 4 + 4, 0, j * 4, 0, 128), Box(i * 4, i * 4 + 4, j * 4, j * 4 + 4, 0, 128),
                 Box(i * 4, i * 4 + 4, 0, j * 4 + 4, 0, 128));
    }
  }

  /** Lattice cells (i, j), all k. */
  method FillPillar(blocks: array<int>, buf: seq<real>, tile: (real, int, int) -> int, i: int, j: int)
    requires blocks.Length == Volume && |buf| == LatticeSize && 0 <= i < 4 && 0 <= j < 4
    modifies blocks
    ensures Filled(blocks[..], old(blocks[..]), buf, tile, Box(i * 4, i * 4 + 4, j * 4, j * 4 + 4, 0, 128))
  {
    ghost var s0 := blocks[..];
    FilledNone(s0, buf, tile, Box(i * 4, i * 4 + 4, j * 4, j * 4 + 4, 0, 0));
    for k := 0 to 16
      invariant Filled(blocks[..], s0, buf, tile, Box(i * 4, i * 4 + 4, j * 4, j * 4 + 4, 0, k * 8))
    {
      ghost var s1 := blocks[..];
      FillCell(blocks, buf, tile, i, j, k);
      FilledJoin(blocks[..], s1, s0, buf, tile, Box(i * 4, i * 4 + 4, j * 4, j * 4 + 4, 0, k * 8),
                 Box(i * 4, i * 4 + 4, j * 4, j * 4 + 4, k * 8, k * 8 + 8), Box(i * 4, i * 4 + 4, j * 4, j * 4 + 4, 0, k * 8 + 8));
    }
  }

  /** Lattice cell (i, j, k): the four corner columns rise an eighth of
      their span per layer. */
  method FillCell(blocks: array<int>, buf: seq<real>, tile: (real, int, int) -> int, i: int, j: int, k: int)
    requires blocks.Length == Volume && |buf| == LatticeSize && 0 <= i < 4 && 0 <= j < 4 && 0 <= k < 16
    modifies blocks
    ensures Filled(blocks[..], old(blocks[..]), buf, tile, Box(i * 4, i * 4 + 4, j * 4, j * 4 + 4, k * 8, k * 8 + 8))
  {
    ghost var s0 := blocks[..];
    var d00, d01 := Sample(buf, i, j, k), Sample(buf, i, j + 1, k);
    var d10, d11 := Sample(buf, i + 1, j, k), Sample(buf, i + 1, j + 1, k);
    var r00 := (Sample(buf, i, j, k + 1) - d00) * 0.125;
    var r01 := (Sample(buf, i, j + 1, k + 1) - d01) * 0.125;
    var r10 := (Sample(buf, i + 1, j, k + 1) - d10) * 0.125;
    var r11 := (Sample(buf, i + 1, j + 1, k + 1) - d11) * 0.125;
    FilledNone(s0, buf, tile, Box(i * 4, i * 4 + 4, j * 4, j * 4 + 4, k * 8, k * 8));
    for a := 0 to 8
      invariant d00 == Rise(buf, i, j, k, a) && d01 == Rise(buf, i, j + 1, k, a)
      invariant d10 == Rise(buf, i + 1, j, k, a) && d11 == Rise(buf, i + 1, j + 1, k, a)
      invariant Filled(blocks[..], s0, buf, tile, Box(i * 4, i * 4 + 4, j * 4, j * 4 + 4, k * 8, k * 8 + a))
    {
      ghost var s1 := blocks[..];
      FillLayer(blocks, buf, tile, i, j, k, a, d00, d01, d10, d11);
      FilledJoin(blocks[..], s1, s0, buf, tile, Box(i * 4, i * 4 + 4, j * 4, j * 4 + 4, k * 8, k * 8 + a),
                 Box(i * 4, i * 4 + 4, j * 4, j * 4 + 4, k * 8 + a, k * 8 + a + 1), Box(i * 4, i * 4 + 4, j * 4, j * 4 + 4, k * 8, k * 8 + a + 1));
      d00, d01, d10, d11 := d00 + r00, d01 + r01, d10 + r10, d11 + r11;
    }
  }

  /** Layer a of lattice cell (i, j, k): the two x edges advance a quarter
      of their span per row. */
  method FillLayer(blocks: array<int>, buf: seq<real>, tile: (real, int, int) -> int, i: int, j: int, k: int, a: int,
                   d00: real, d01: real, d10: real, d11: real)
    requires blocks.Length == Volume && |buf| == LatticeSize && 0 <= i < 4 && 0 <= j < 4 && 0 <= k < 16 && 0 <= a < 8
    requires d00 == Rise(buf, i, j, k, a) && d01 == Rise(buf, i, j + 1, k, a)
    requires d10 == Rise(buf, i + 1, j, k, a) && d11 == Rise(buf, i + 1, j + 1, k, a)
    modifies blocks
    ensures Filled(blocks[..], old(blocks[..]), buf, tile, Box(i * 4, i * 4 + 4, j * 4, j * 4 + 4, k * 8 + a, k * 8 + a + 1))
  {
    ghost var s0 := blocks[..];
    var near, far := d00, d01;
    var nearStep, farStep := (d10 - d00) * 0.25, (d11 - d01) * 0.25;
    FilledNone(s0, buf, tile, Box(i * 4, i * 4, j * 4, j * 4 + 4, k * 8 + a, k * 8 + a + 1));
    for b := 0 to 4
      invariant near == Across(buf, i, j, k, a, b) && far == Across(buf, i, j + 1, k, a, b)
      invariant Filled(blocks[..], s0, buf, tile, Box(i * 4, i * 4 + b, j * 4, j * 4 + 4, k * 8 + a, k * 8 + a + 1))
    {
      ghost var s1 := blocks[..];
      FillRow(blocks, buf, tile, i, j, k, a, b, near, (far - near) * 0.25);
      FilledJoin(blocks[..], s1, s0, buf, tile, Box(i * 4, i * 4 + b, j * 4, j * 4 + 4, k * 8 + a, k * 8 + a + 1),
                 Box(i * 4 + b, i * 4 + b + 1, j * 4, j * 4 + 4, k * 8 + a, k * 8 + a + 1),
                 Box(i * 4, i * 4 + b + 1, j * 4, j * 4 + 4, k * 8 + a, k * 8 + a + 1));
      near, far := near + nearStep, far + farStep;
    }
  }

  /** Row b of layer a: four cells along z, a quarter of the span apart.
      The source packs x, z and y into the slot with shifts and `|`; the
      three fields occupy disjoint bits, so that is the slot `Index` gives,
      and each step along z adds 128. */
  method FillRow(blocks: array<int>, buf: seq<real>, tile: (real, int, int) -> int, i: int, j: int, k: int, a: int, b: int,
                 d: real, step: real)
    requires blocks.Length == Volume && |buf| == LatticeSize && 0 <= i < 4 && 0 <= j < 4 && 0 <= k < 16 && 0 <= a < 8 && 0 <= b < 4
    requires d == Across(buf, i, j, k, a, b) && step == (Across(buf, i, j + 1, k, a, b) - Across(buf, i, j, k, a, b)) * 0.25
    modifies blocks
    ensures Filled(blocks[..], old(blocks[..]), buf, tile, Box(i * 4 + b, i * 4 + b + 1, j * 4, j * 4 + 4, k * 8 + a, k * 8 + a + 1))
  {
    ghost var s0 := blocks[..];
    var x, y := i * 4 + b, k * 8 + a;
    var n := Index(x, j * 4, y);
    var v := d;
    FilledNone(s0, buf, tile, Box(x, x + 1, j * 4, j * 4, y, y + 1));
    for c := 0 to 4
      invariant n == Index(x, j * 4 + c, y) && v == Density(buf, i, j, k, a, b, c)
      invariant Filled(blocks[..], s0, buf, tile, Box(x, x + 1, j * 4, j * 4 + c, y, y + 1))
    {
      ghost var s1 := blocks[..];
      var z := j * 4 + c;
      var t := tile(v, y, x * 16 + z);
      PreparedIs(buf, tile, i, j, k, a, b, c, x, z, y);
      Put(blocks, n, x, z, y, t);
      assert blocks[..] == s1[Index(x, z, y) := t];
      FilledGrow(blocks[..], s1, s0, buf, tile, x, j * 4, z, y, t);
      n, v := n + 128, v + step;
    }
  }
}
