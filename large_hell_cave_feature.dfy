/**
 * The nether cave carver (`LargeHellCaveFeature`). `addFeature` starts,
 * one time in five, a few tunnels from points of the source chunk, each
 * point maybe with a thick room first; `addTunnel` walks a tunnel step by
 * step as the canyon carver does, with slower decaying spin, and each
 * step may cut an ellipsoid out of the target chunk. A segment whose box
 * has lava in its shell is not cut. Inside the ellipsoid hell rock, dirt
 * and grass become air and nothing else is written: the carver never
 * makes lava. As in the canyon carver, the cell a step cuts is the one
 * just above the height it tests.
 */
module LargeHellCaveFeature {
  import opened ChunkBlocks
  import opened Carving
  import Rng
  import Mth

  /** The tiles a nether cave cuts. */
  predicate Carvable(v: int)
  {
    v == HellRock || v == Dirt || v == Grass
  }

  /** How a cell may change under nether caves: not at all, or a hell
      rock, dirt or grass cell hollowed to air. */
  predicate CellChange(before: int, after: int)
  {
    after == before || (Carvable(before) && after == Air)
  }

  /** Two changes in a row are one change. */
  lemma CellChangeChains(a: int, b: int, c: int)
    requires CellChange(a, b) && CellChange(b, c)
    ensures CellChange(a, c)
  {
  }

  /** Chunk t is chunk s after nether caves: every cell changed as a cave
      may change it, and only at heights 1 to 120. */
  ghost predicate Hollowed(s: seq<int>, t: seq<int>)
  {
    |s| == Volume && |t| == Volume
    && forall x, z, y :: InChunk(x, z, y) ==>
         CellChange(s[Index(x, z, y)], t[Index(x, z, y)])
         && (t[Index(x, z, y)] != s[Index(x, z, y)] ==> Lowest <= y <= Highest)
  }

  /** Nether caves leave a chunk hollowed after nether caves. */
  lemma HollowedChains(s: seq<int>, t: seq<int>, u: seq<int>)
    requires Hollowed(s, t) && Hollowed(t, u)
    ensures Hollowed(s, u)
  {
    forall x, z, y | InChunk(x, z, y)
      ensures CellChange(s[Index(x, z, y)], u[Index(x, z, y)])
    {
      CellChangeChains(s[Index(x, z, y)], t[Index(x, z, y)], u[Index(x, z, y)]);
    }
  }

  /** No cell of a hollowed chunk holds lava or calm lava that did not
      hold it before. */
  lemma HollowedMakesNoLava(s: seq<int>, t: seq<int>, x: int, z: int, y: int)
    requires Hollowed(s, t) && InChunk(x, z, y)
    requires t[Index(x, z, y)] == Lava || t[Index(x, z, y)] == CalmLava
    ensures s[Index(x, z, y)] == t[Index(x, z, y)]
  {
  }

  /** Column (x, z) after the tests from height y down to y0: at each
      height inside the ellipsoid, cell y + 1 is hollowed if it is hell
      rock, dirt or grass (stated cell by cell by `HollowColumnChanges`). */
  function HollowColumn(e: Ellipsoid, chunkX: int, chunkZ: int, x: int, z: int, col: seq<int>, y: int, y0: int): (r: seq<int>)
    requires e.r > 0.0 && e.ry > 0.0 && |col| == 128 && 1 <= y0 && y < 127
    ensures |r| == 128
    decreases y - y0
  {
    if y < y0 then col
    else if Inside(e, chunkX, chunkZ, x, z, y) && Carvable(col[y + 1]) then
      HollowColumn(e, chunkX, chunkZ, x, z, col[y + 1 := Air], y - 1, y0)
    else HollowColumn(e, chunkX, chunkZ, x, z, col, y - 1, y0)
  }

  /** A column's cut hollows cells as a cave may, exactly the hell rock,
      dirt and grass cells just above the heights inside the ellipsoid,
      from height y0 up to the first cell it reads. */
  lemma {:induction false} HollowColumnChanges(e: Ellipsoid, chunkX: int, chunkZ: int, x: int, z: int, col: seq<int>, y: int, y0: int)
    requires e.r > 0.0 && e.ry > 0.0 && |col| == 128 && 1 <= y0 && y < 127
    ensures forall h :: 0 <= h < 128 ==>
              HollowColumn(e, chunkX, chunkZ, x, z, col, y, y0)[h]
              == if y0 < h <= y + 1 && Inside(e, chunkX, chunkZ, x, z, h - 1) && Carvable(col[h]) then Air else col[h]
    decreases y - y0
  {
    if y >= y0 {
      var col' := if Inside(e, chunkX, chunkZ, x, z, y) && Carvable(col[y + 1]) then col[y + 1 := Air] else col;
      HollowColumnChanges(e, chunkX, chunkZ, x, z, col', y - 1, y0);
      assert HollowColumn(e, chunkX, chunkZ, x, z, col, y, y0) == HollowColumn(e, chunkX, chunkZ, x, z, col', y - 1, y0);
    }
  }

  /** What a segment leaves in cell (x, z, y) of chunk s when its box b is
      cut: the cut of the column, for the columns of the box. */
  function Hollow(s: seq<int>, b: Box, e: Ellipsoid, chunkX: int, chunkZ: int, x: int, z: int, y: int): int
    requires |s| == Volume && InChunk(x, z, y) && e.r > 0.0 && e.ry > 0.0 && Lowest <= b.y0 && b.y1 <= Highest
  {
    if b.x0 <= x < b.x1 && b.z0 <= z < b.z1 then HollowColumn(e, chunkX, chunkZ, x, z, Column(s, x, z), b.y1 - 1, b.y0)[y]
    else s[Index(x, z, y)]
  }

  /** A segment's cut changes cells only as a cave may, inside its box. */
  lemma HollowCarves(s: seq<int>, t: seq<int>, b: Box, e: Ellipsoid, chunkX: int, chunkZ: int)
    requires |s| == Volume && |t| == Volume && e.r > 0.0 && e.ry > 0.0 && Lowest <= b.y0 && b.y1 <= Highest
    requires forall x, z, y :: InChunk(x, z, y) ==> t[Index(x, z, y)] == Hollow(s, b, e, chunkX, chunkZ, x, z, y)
    ensures Hollowed(s, t)
    ensures forall x, z, y :: InChunk(x, z, y) && t[Index(x, z, y)] != s[Index(x, z, y)] ==> Spans(b, x, z, y)
  {
    forall x, z, y | InChunk(x, z, y)
      ensures CellChange(s[Index(x, z, y)], t[Index(x, z, y)])
      ensures t[Index(x, z, y)] != s[Index(x, z, y)] ==> Spans(b, x, z, y)
    {
      if b.x0 <= x < b.x1 && b.z0 <= z < b.z1 {
        HollowColumnChanges(e, chunkX, chunkZ, x, z, Column(s, x, z), b.y1 - 1, b.y0);
      }
    }
  }

  class LargeHellCaveFeature {
    /** `LargeFeature`'s generator, reseeded for every source chunk. */
    const random: Rng.Random
    /** `LargeFeature.radius`: how many chunks away a tunnel may start. */
    const radius: int
    /** `Mth.sin` and `Mth.cos`. */
    const sin: real -> real
    const cos: real -> real

    constructor (random: Rng.Random, radius: int, sin: real -> real, cos: real -> real)
      ensures this.random == random && this.radius == radius && this.sin == sin && this.cos == cos
    {
      this.random, this.radius, this.sin, this.cos := random, radius, sin, cos;
    }

    /** The radius gives a positive budget, and the sine is not negative
        over the half turn that shapes a tunnel's swell. */
    ghost predicate Valid()
    {
      radius >= 2 && forall t :: 0.0 <= t < Pi ==> sin(t) >= 0.0
    }

    /** `addFeature`: a number of starting points of source chunk
        (sourceX, sourceZ), drawn as a draw below a draw below a draw below
        10, and none at all unless a draw below 5 is 0. From each point a
        room one time in four, which adds up to three more tunnels to the
        one every point gets. */
    method AddFeature(blocks: array<int>, sourceX: int, sourceZ: int, chunkX: int, chunkZ: int) returns (ghost origins: int)
      requires Valid() && blocks.Length == Volume
      modifies blocks, random`drawn
      ensures Hollowed(old(blocks[..]), blocks[..])
      ensures var raw, seed, k := random.raw, random.seed, old(random.drawn);
              origins == if Rng.IntAt(raw, seed, k + 3, 5) == 0
                         then Rng.IntAt(raw, seed, k + 2, Rng.IntAt(raw, seed, k + 1, Rng.IntAt(raw, seed, k, 10) + 1) + 1)
                         else 0
      ensures 0 <= origins < 10
      ensures origins == 0 ==> blocks[..] == old(blocks[..]) && random.drawn == old(random.drawn) + 4
    {
      var d := random.NextInt(10);
      d := random.NextInt(d + 1);
      var count := random.NextInt(d + 1);
      d := random.NextInt(5);
      if d != 0 {
        count := 0;
      }
      origins := count;
      ghost var s0 := blocks[..];
      var i := 0;
      while i < count
        invariant 0 <= i <= count || count == 0
        invariant Hollowed(s0, blocks[..])
        invariant count == 0 ==> blocks[..] == s0 && random.drawn == old(random.drawn) + 4
      {
        d := random.NextInt(16);
        var x := (sourceX * 16 + d) as real;
        d := random.NextInt(128);
        var y := d as real;
        d := random.NextInt(16);
        var z := (sourceZ * 16 + d) as real;
        var tunnels := 1;
        d := random.NextInt(4);
        if d == 0 {
          ghost var before := blocks[..];
          AddRoom(blocks, chunkX, chunkZ, x, y, z);
          HollowedChains(s0, before, blocks[..]);
          d := random.NextInt(4);
          tunnels := tunnels + d;
        }
        var j := 0;
        while j < tunnels
          invariant Hollowed(s0, blocks[..])
        {
          var f := random.NextFloat();
          var yaw := f * Pi * 2.0;
          f := random.NextFloat();
          var pitch := (f - 0.5) * 2.0 / 8.0;
          f := random.NextFloat();
          var g := random.NextFloat();
          var thickness := f * 2.0 + g;
          ghost var before := blocks[..];
          ghost var segments, branched := AddTunnel(blocks, chunkX, chunkZ, x, y, z, thickness * 2.0, yaw, pitch, 0, 0, 0.5);
          HollowedChains(s0, before, blocks[..]);
          j := j + 1;
        }
        i := i + 1;
      }
    }

    /** `addRoom`: a seed call, level and squat, between 1 and 7 thick. */
    method AddRoom(blocks: array<int>, chunkX: int, chunkZ: int, x: real, y: real, z: real)
      requires Valid() && blocks.Length == Volume
      modifies blocks, random`drawn
      ensures Hollowed(old(blocks[..]), blocks[..])
      ensures random.drawn == old(random.drawn) + 2
    {
      var f := random.NextFloat();
      ghost var segments, branched := AddTunnel(blocks, chunkX, chunkZ, x, y, z, 1.0 + f * 6.0, 0.0, 0.0, -1, -1, 0.5);
    }

    /** `addTunnel`: the tunnel walks from step `start` to its budget on a
        generator of its own seeded from this one. At its branch point a
        tunnel thicker than 1 that is not a seed call splits into two
        thinner ones at right angles and ends. Otherwise, a step in four
        is skipped except in a seed call; the tunnel ends once it is too
        far from the chunk to come back; and a step near the chunk cuts its
        segment. A seed call ends after the first segment it cuts. */
    method AddTunnel(blocks: array<int>, chunkX: int, chunkZ: int, x: real, y: real, z: real,
                     thickness: real, yaw: real, pitch: real, start: int, budget: int, yScale: real)
        returns (ghost segments: nat, ghost branched: bool)
      requires Valid() && blocks.Length == Volume
      requires thickness >= 0.0 && yScale > 0.0 && start >= -1 && (budget <= 0 || budget >= 2)
      modifies blocks, random`drawn
      ensures Hollowed(old(blocks[..]), blocks[..])
      ensures start == -1 ==> segments <= 1
      ensures branched ==> start != -1 && thickness > 1.0
      ensures random.drawn == old(random.drawn) + (if branched then 3 else 1)
      decreases if thickness > 1.0 then 1 else 0
    {
      var originX, originZ := (chunkX * 16 + 8) as real, (chunkZ * 16 + 8) as real;
      var yawSpin, pitchSpin := 0.0, 0.0;
      var seed := random.NextLong();
      var rnd := new Rng.Random(random.raw, seed);
      var steps, step, seeded, branchAt, steep := Plan(rnd, radius, budget, start);
      var px, py, pz, yaw, pitch := x, y, z, yaw, pitch;
      segments, branched := 0, false;
      ghost var s0 := blocks[..];
      while step < steps
        invariant Hollowed(s0, blocks[..]) && random.drawn == old(random.drawn) + 1
        invariant seeded ==> segments == 0
        invariant !branched && (seeded <==> start == -1) && step >= 0
        decreases steps - step
      {
        var angle := step as real * Pi / steps as real;
        HalfTurn(step, steps);
        var r := 1.5 + sin(angle) * thickness * 1.0;
        var ry := r * yScale;
        Swell(r, sin(angle), thickness, yScale);
        assert r > 0.0 && ry > 0.0;
        var cp, sp := cos(pitch), sin(pitch);
        px, py, pz := px + cos(yaw) * cp, py + sp, pz + sin(yaw) * cp;
        if steep {
          pitch := pitch * 0.92;
        } else {
          pitch := pitch * 0.7;
        }
        pitch := pitch + pitchSpin * 0.1;
        yaw := yaw + yawSpin * 0.1;
        pitchSpin, yawSpin := pitchSpin * 0.9, yawSpin * 0.75;
        var f1 := rnd.NextFloat();
        var f2 := rnd.NextFloat();
        var f3 := rnd.NextFloat();
        pitchSpin := pitchSpin + (f1 - f2) * f3 * 2.0;
        f1 := rnd.NextFloat();
        f2 := rnd.NextFloat();
        f3 := rnd.NextFloat();
        yawSpin := yawSpin + (f1 - f2) * f3 * 4.0;
        if !seeded && step == branchAt && thickness > 1.0 {
          ghost var before := blocks[..];
          var t := rnd.NextFloat();
          ghost var n1, b1 := AddTunnel(blocks, chunkX, chunkZ, px, py, pz, t * 0.5 + 0.5, yaw - Pi / 2.0, pitch / 3.0, step, steps, 1.0);
          HollowedChains(s0, before, blocks[..]);
          before := blocks[..];
          t := rnd.NextFloat();
          ghost var n2, b2 := AddTunnel(blocks, chunkX, chunkZ, px, py, pz, t * 0.5 + 0.5, yaw + Pi / 2.0, pitch / 3.0, step, steps, 1.0);
          HollowedChains(s0, before, blocks[..]);
          branched := true;
          return;
        }
        var go := seeded;
        if !go {
          var d := rnd.NextInt(4);
          go := d != 0;
        }
        if go {
          var dx, dz := px - originX, pz - originZ;
          var rest := (steps - step) as real;
          var reach := thickness + 2.0 + 16.0;
          if dx * dx + dz * dz - rest * rest > reach * reach {
            return;
          }
          if !(px < originX - 16.0 - r * 2.0) && !(pz < originZ - 16.0 - r * 2.0)
             && !(px > originX + 16.0 + r * 2.0) && !(pz > originZ + 16.0 + r * 2.0) {
            var box := Box(Mth.Floor(px - r) - chunkX * 16 - 1, Mth.Floor(px + r) - chunkX * 16 + 1,
                           Mth.Floor(pz - r) - chunkZ * 16 - 1, Mth.Floor(pz + r) - chunkZ * 16 + 1,
                           Mth.Floor(py - ry) - 1, Mth.Floor(py + ry) + 1);
            ghost var before := blocks[..];
            var cut := HollowSegment(blocks, box, Ellipsoid(px, py, pz, r, ry), chunkX, chunkZ);
            HollowedChains(s0, before, blocks[..]);
            if cut {
              segments := segments + 1;
              if seeded {
                break;
              }
            }
          }
        }
        step := step + 1;
      }
    }

    /** One segment: its box clamped into the chunk, its shell scanned
        for lava, and, when there is none, its ellipsoid hollowed. */
    static method HollowSegment(blocks: array<int>, box: Box, e: Ellipsoid, chunkX: int, chunkZ: int) returns (cut: bool)
      requires blocks.Length == Volume && e.r > 0.0 && e.ry > 0.0
      modifies blocks
      ensures cut <==> !Flooded(old(blocks[..]), Clamp(box), Lava, CalmLava)
      ensures !cut ==> blocks[..] == old(blocks[..])
      ensures cut ==> forall x, z, y :: InChunk(x, z, y) ==>
                        blocks[Index(x, z, y)] == Hollow(old(blocks[..]), Clamp(box), e, chunkX, chunkZ, x, z, y)
      ensures Hollowed(old(blocks[..]), blocks[..])
      ensures forall x, z, y :: InChunk(x, z, y) && blocks[Index(x, z, y)] != old(blocks[Index(x, z, y)]) ==> Spans(box, x, z, y)
    {
      var b := Clamp(box);
      var found := FindLiquid(blocks, b, Lava, CalmLava);
      cut := !found;
      if cut {
        HollowBox(blocks, b, e, chunkX, chunkZ);
        HollowCarves(old(blocks[..]), blocks[..], b, e, chunkX, chunkZ);
      }
    }

    /** The cut of a clamped box, column by column, x outer, z inner. */
    static method HollowBox(blocks: array<int>, b: Box, e: Ellipsoid, chunkX: int, chunkZ: int)
      requires blocks.Length == Volume && e.r > 0.0 && e.ry > 0.0
      requires 0 <= b.x0 && b.x1 <= 16 && 0 <= b.z0 && b.z1 <= 16 && Lowest <= b.y0 && b.y1 <= Highest
      modifies blocks
      ensures forall x, z, y :: InChunk(x, z, y) ==> blocks[Index(x, z, y)] == Hollow(old(blocks[..]), b, e, chunkX, chunkZ, x, z, y)
    {
      ghost var s0 := blocks[..];
      var x := b.x0;
      while x < b.x1
        invariant b.x0 <= x && (x <= b.x1 || x == b.x0)
        invariant forall x', z', y' :: InChunk(x', z', y') ==>
                    blocks[Index(x', z', y')] == if x' < x then Hollow(s0, b, e, chunkX, chunkZ, x', z', y') else s0[Index(x', z', y')]
      {
        var dx := Offset(x + chunkX * 16, e.x, e.r);
        var z := b.z0;
        while z < b.z1
          invariant b.z0 <= z && (z <= b.z1 || z == b.z0)
          invariant forall x', z', y' :: InChunk(x', z', y') ==>
                      blocks[Index(x', z', y')] == if x' < x || (x' == x && z' < z) then Hollow(s0, b, e, chunkX, chunkZ, x', z', y')
                                                   else s0[Index(x', z', y')]
        {
          var dz := Offset(z + chunkZ * 16, e.z, e.r);
          assert Column(blocks[..], x, z) == Column(s0, x, z);
          HollowColumnCells(blocks, b, e, chunkX, chunkZ, x, z, dx, dz);
          z := z + 1;
        }
        x := x + 1;
      }
    }

    /** The cut of column (x, z), its tests from the top of the box down;
        `dx` and `dz` are the column's offsets from the centre. */
    static method HollowColumnCells(blocks: array<int>, b: Box, e: Ellipsoid, chunkX: int, chunkZ: int, x: int, z: int, dx: real, dz: real)
      requires blocks.Length == Volume && e.r > 0.0 && e.ry > 0.0 && 0 <= x < 16 && 0 <= z < 16 && Lowest <= b.y0 && b.y1 <= Highest
      requires dx == Offset(x + chunkX * 16, e.x, e.r) && dz == Offset(z + chunkZ * 16, e.z, e.r)
      modifies blocks
      ensures forall x', z', y' :: InChunk(x', z', y') ==>
                blocks[Index(x', z', y')] == if x' == x && z' == z
                                             then HollowColumn(e, chunkX, chunkZ, x, z, Column(old(blocks[..]), x, z), b.y1 - 1, b.y0)[y']
                                             else old(blocks[Index(x', z', y')])
    {
      ghost var s0 := blocks[..];
      ghost var col := Column(s0, x, z);
      ghost var target := HollowColumn(e, chunkX, chunkZ, x, z, col, b.y1 - 1, b.y0);
      var n := (x * 16 + z) * 128 + b.y1;
      var y := b.y1 - 1;
      while y >= b.y0
        invariant y <= b.y1 - 1 && n == Index(x, z, y + 1) && |col| == 128
        invariant HollowColumn(e, chunkX, chunkZ, x, z, col, y, b.y0) == target
        invariant forall x', z', y' :: InChunk(x', z', y') ==>
                    blocks[Index(x', z', y')] == if x' == x && z' == z then col[y'] else s0[Index(x', z', y')]
      {
        var dy := Offset(y, e.y, e.ry);
        if dy > -0.7 && Norm(dx, dy, dz) < 1.0 {
          assert Inside(e, chunkX, chunkZ, x, z, y);
          var v := blocks[n];
          if v == HellRock || v == Dirt || v == Grass {
            Put(blocks, n, x, z, y + 1, Air);
            col := col[y + 1 := Air];
          }
        } else {
          assert !Inside(e, chunkX, chunkZ, x, z, y);
        }
        n := n - 1;
        y := y - 1;
      }
    }
  }
}
