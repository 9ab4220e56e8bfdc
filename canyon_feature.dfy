/**
 * The canyon carver (`CanyonFeature`). `addFeature` starts, one time in
 * fifteen, a tunnel from a point of the source chunk; `addTunnel` walks it
 * step by step, and each step may cut an ellipsoid out of the target
 * chunk. A segment whose box has water in its shell is not cut. Inside the
 * ellipsoid rock, dirt and grass become lava low down and air above, and
 * dirt under cut grass becomes grass. The cell a step cuts is the one just
 * above the height it tests, so the lava reaches height 10 and the cut
 * reaches the top of the segment's box.
 */
module CanyonFeature {
  import opened ChunkBlocks
  import opened Carving
  import Rng
  import Mth

  /** The tiles a canyon cuts. */
  predicate Carvable(v: int)
  {
    v == Rock || v == Dirt || v == Grass
  }

  /** What a cut cell at height h becomes: lava up to height 10, air
      above. */
  function CutTile(h: int): (t: int)
    ensures t == Lava <==> h <= 10
    ensures t == Air <==> h > 10
  {
    if h - 1 < 10 then Lava else Air
  }

  /** How a cell at height h may change under canyons: not at all, a
      rock, dirt or grass cell cut, or dirt turned to grass from height 10
      up. */
  predicate CellChange(before: int, after: int, h: int)
  {
    after == before || (Carvable(before) && after == CutTile(h)) || (before == Dirt && after == Grass && h >= 10)
  }

  /** Two changes in a row are one change. */
  lemma CellChangeChains(a: int, b: int, c: int, h: int)
    requires CellChange(a, b, h) && CellChange(b, c, h)
    ensures CellChange(a, c, h)
  {
  }

  /** Chunk t is chunk s after canyons: every cell changed as a canyon
      may change it, and only at heights 1 to 120. */
  ghost predicate Carved(s: seq<int>, t: seq<int>)
  {
    |s| == Volume && |t| == Volume
    && forall x, z, y :: InChunk(x, z, y) ==>
         CellChange(s[Index(x, z, y)], t[Index(x, z, y)], y)
         && (t[Index(x, z, y)] != s[Index(x, z, y)] ==> Lowest <= y <= Highest)
  }

  /** Canyons leave a chunk carved after canyons. */
  lemma CarvedChains(s: seq<int>, t: seq<int>, u: seq<int>)
    requires Carved(s, t) && Carved(t, u)
    ensures Carved(s, u)
  {
    forall x, z, y | InChunk(x, z, y)
      ensures CellChange(s[Index(x, z, y)], u[Index(x, z, y)], y)
    {
      CellChangeChains(s[Index(x, z, y)], t[Index(x, z, y)], u[Index(x, z, y)], y);
    }
  }

  /** The test at height y of a column under the ellipsoid: cell y + 1 is
      read; grass there marks the column; rock, dirt or grass there is cut,
      and once the column is marked, dirt at y under a cut above height 10
      becomes grass. */
  function CutStep(col: seq<int>, grass: bool, y: int): (r: (seq<int>, bool))
    requires |col| == 128 && 0 <= y < 127
    ensures |r.0| == 128
  {
    var v := col[y + 1];
    var grass' := grass || v == Grass;
    if !Carvable(v) then (col, grass')
    else if y < 10 then (col[y + 1 := Lava], grass')
    else if grass' && col[y] == Dirt then (col[y + 1 := Air][y := Grass], grass')
    else (col[y + 1 := Air], grass')
  }

  /** Column (x, z) after the tests from height y down to y0, the column
      marked by grass or not. What the cut does to each cell is stated by
      `CutColumnChanges`, and `CutColumnCells` writes it into the chunk. */
  function CutColumn(e: Ellipsoid, chunkX: int, chunkZ: int, x: int, z: int, col: seq<int>, grass: bool, y: int, y0: int): (r: seq<int>)
    requires e.r > 0.0 && e.ry > 0.0 && |col| == 128 && 1 <= y0 && y < 127
    ensures |r| == 128
    decreases y - y0
  {
    if y < y0 then col
    else if Inside(e, chunkX, chunkZ, x, z, y) then
      var step := CutStep(col, grass, y);
      CutColumn(e, chunkX, chunkZ, x, z, step.0, step.1, y - 1, y0)
    else CutColumn(e, chunkX, chunkZ, x, z, col, grass, y - 1, y0)
  }

  /** A column's cut changes every cell as a canyon may, and only from
      height y0 up to the first cell it reads. */
  lemma {:induction false} CutColumnChanges(e: Ellipsoid, chunkX: int, chunkZ: int, x: int, z: int, col: seq<int>, grass: bool, y: int, y0: int)
    requires e.r > 0.0 && e.ry > 0.0 && |col| == 128 && 1 <= y0 && y < 127
    ensures forall h :: 0 <= h < 128 ==>
              CellChange(col[h], CutColumn(e, chunkX, chunkZ, x, z, col, grass, y, y0)[h], h)
              && (CutColumn(e, chunkX, chunkZ, x, z, col, grass, y, y0)[h] != col[h] ==> y0 <= h <= y + 1)
    decreases y - y0
  {
    var r := CutColumn(e, chunkX, chunkZ, x, z, col, grass, y, y0);
    if y >= y0 {
      var step := if Inside(e, chunkX, chunkZ, x, z, y) then CutStep(col, grass, y) else (col, grass);
      CutColumnChanges(e, chunkX, chunkZ, x, z, step.0, step.1, y - 1, y0);
      assert r == CutColumn(e, chunkX, chunkZ, x, z, step.0, step.1, y - 1, y0);
      forall h | 0 <= h < 128
        ensures CellChange(col[h], r[h], h) && (r[h] != col[h] ==> y0 <= h <= y + 1)
      {
        assert CellChange(col[h], step.0[h], h) && (step.0[h] != col[h] ==> h == y || h == y + 1);
        CellChangeChains(col[h], step.0[h], r[h], h);
      }
    }
  }

  /** What a segment leaves in cell (x, z, y) of chunk s when its box b is
      cut: the cut of the column, for the columns of the box. */
  function Cut(s: seq<int>, b: Box, e: Ellipsoid, chunkX: int, chunkZ: int, x: int, z: int, y: int): int
    requires |s| == Volume && InChunk(x, z, y) && e.r > 0.0 && e.ry > 0.0 && Lowest <= b.y0 && b.y1 <= Highest
  {
    if b.x0 <= x < b.x1 && b.z0 <= z < b.z1 then CutColumn(e, chunkX, chunkZ, x, z, Column(s, x, z), false, b.y1 - 1, b.y0)[y]
    else s[Index(x, z, y)]
  }

  /** A segment's cut changes cells only as a canyon may, inside its box. */
  lemma CutCarves(s: seq<int>, t: seq<int>, b: Box, e: Ellipsoid, chunkX: int, chunkZ: int)
    requires |s| == Volume && |t| == Volume && e.r > 0.0 && e.ry > 0.0 && Lowest <= b.y0 && b.y1 <= Highest
    requires forall x, z, y :: InChunk(x, z, y) ==> t[Index(x, z, y)] == Cut(s, b, e, chunkX, chunkZ, x, z, y)
    ensures Carved(s, t)
    ensures forall x, z, y :: InChunk(x, z, y) && t[Index(x, z, y)] != s[Index(x, z, y)] ==> Spans(b, x, z, y)
  {
    forall x, z, y | InChunk(x, z, y)
      ensures CellChange(s[Index(x, z, y)], t[Index(x, z, y)], y)
      ensures t[Index(x, z, y)] != s[Index(x, z, y)] ==> Spans(b, x, z, y)
    {
      if b.x0 <= x < b.x1 && b.z0 <= z < b.z1 {
        CutColumnChanges(e, chunkX, chunkZ, x, z, Column(s, x, z), false, b.y1 - 1, b.y0);
      }
    }
  }

  class CanyonFeature {
    /** `LargeFeature`'s generator, reseeded for every source chunk. */
    const random: Rng.Random
    /** `LargeFeature.radius`: how many chunks away a tunnel may start. */
    const radius: int
    /** `Mth.sin` and `Mth.cos`. */
    const sin: real -> real
    const cos: real -> real

    constructor (random: Rng.Random, radius: int, sin: real -> real, cos: real -> real)
      ensures this.random == random && this.radius == radius && this.sin == sin && this.cos == cos
    {
      this.random, this.radius, this.sin, this.cos := random, radius, sin, cos;
    }

    /** The radius gives a positive budget, and the sine is not negative
        over the half turn that shapes a tunnel's swell. */
    ghost predicate Valid()
    {
      radius >= 2 && forall t :: 0.0 <= t < Pi ==> sin(t) >= 0.0
    }

    /** `addFeature`: one time in fifteen, a tunnel from a random point of
        source chunk (sourceX, sourceZ) into chunk (chunkX, chunkZ). */
    method AddFeature(blocks: array<int>, sourceX: int, sourceZ: int, chunkX: int, chunkZ: int)
      requires Valid() && blocks.Length == Volume
      modifies blocks, random`drawn
      ensures Carved(old(blocks[..]), blocks[..])
      ensures Rng.IntAt(random.raw, random.seed, old(random.drawn), 15) != 0 ==>
                blocks[..] == old(blocks[..]) && random.drawn == old(random.drawn) + 1
    {
      var d := random.NextInt(15);
      if d == 0 {
        d := random.NextInt(16);
        var x := (sourceX * 16 + d) as real;
        d := random.NextInt(120);
        d := random.NextInt(d + 8);
        var y := d as real;
        d := random.NextInt(16);
        var z := (sourceZ * 16 + d) as real;
        var f := random.NextFloat();
        var yaw := f * Pi * 2.0;
        f := random.NextFloat();
        var pitch := (f - 0.5) * 2.0 / 8.0;
        f := random.NextFloat();
        var g := random.NextFloat();
        var thickness := f * 2.0 + g + 1.0;
        ghost var segments, branched := AddTunnel(blocks, chunkX, chunkZ, x, y, z, thickness, yaw, pitch, 0, 0, 5.0);
      } else {
        assert blocks[..] == old(blocks[..]);
      }
    }

    /** `addTunnel`: the tunnel walks from step `start` to its budget on a
        generator of its own seeded from this one. At its branch point a
        tunnel thicker than 1 that is not a seed call splits into two
        thinner ones at right angles and ends. Otherwise, a step in four
        is skipped except in a seed call; the tunnel ends once it is too
        far from the chunk to come back; and a step near the chunk cuts its
        segment. A seed call ends after the first segment it cuts. */
    method AddTunnel(blocks: array<int>, chunkX: int, chunkZ: int, x: real, y: real, z: real,
                     thickness: real, yaw: real, pitch: real, start: int, budget: int, yScale: real)
        returns (ghost segments: nat, ghost branched: bool)
      requires Valid() && blocks.Length == Volume
      requires thickness >= 0.0 && yScale > 0.0 && start >= -1 && (budget <= 0 || budget >= 2)
      modifies blocks, random`drawn
      ensures Carved(old(blocks[..]), blocks[..])
      ensures start == -1 ==> segments <= 1
      ensures branched ==> start != -1 && thickness > 1.0
      ensures random.drawn == old(random.drawn) + (if branched then 3 else 1)
      decreases if thickness > 1.0 then 1 else 0
    {
      var originX, originZ := (chunkX * 16 + 8) as real, (chunkZ * 16 + 8) as real;
      var yawSpin, pitchSpin := 0.0, 0.0;
      var seed := random.NextLong();
      var rnd := new Rng.Random(random.raw, seed);
      var steps, step, seeded, branchAt, steep := Plan(rnd, radius, budget, start);
      var px, py, pz, yaw, pitch := x, y, z, yaw, pitch;
      segments, branched := 0, false;
      ghost var s0 := blocks[..];
      while step < steps
        invariant Carved(s0, blocks[..]) && random.drawn == old(random.drawn) + 1
        invariant seeded ==> segments == 0
        invariant !branched && (seeded <==> start == -1) && step >= 0
        decreases steps - step
      {
        var angle := step as real * Pi / steps as real;
        HalfTurn(step, steps);
        var r := 1.5 + sin(angle) * thickness * 1.0;
        var ry := r * yScale;
        Swell(r, sin(angle), thickness, yScale);
        assert r > 0.0 && ry > 0.0;
        var cp, sp := cos(pitch), sin(pitch);
        px, py, pz := px + cos(yaw) * cp, py + sp, pz + sin(yaw) * cp;
        if steep {
          pitch := pitch * 0.92;
        } else {
          pitch := pitch * 0.7;
        }
        pitch := pitch + pitchSpin * 0.1;
        yaw := yaw + yawSpin * 0.1;
        pitchSpin, yawSpin := pitchSpin * 0.5, yawSpin * 0.5;
        var f1 := rnd.NextFloat();
        var f2 := rnd.NextFloat();
        var f3 := rnd.NextFloat();
        pitchSpin := pitchSpin + (f1 - f2) * f3 * 2.0;
        f1 := rnd.NextFloat();
        f2 := rnd.NextFloat();
        f3 := rnd.NextFloat();
        yawSpin := yawSpin + (f1 - f2) * f3 * 4.0;
        if !seeded && step == branchAt && thickness > 1.0 {
          ghost var before := blocks[..];
          var t := rnd.NextFloat();
          ghost var n1, b1 := AddTunnel(blocks, chunkX, chunkZ, px, py, pz, t * 0.5 + 0.5, yaw - Pi / 2.0, pitch / 3.0, step, steps, 1.0);
          CarvedChains(s0, before, blocks[..]);
          before := blocks[..];
          t := rnd.NextFloat();
          ghost var n2, b2 := AddTunnel(blocks, chunkX, chunkZ, px, py, pz, t * 0.5 + 0.5, yaw + Pi / 2.0, pitch / 3.0, step, steps, 1.0);
          CarvedChains(s0, before, blocks[..]);
          branched := true;
          return;
        }
        var go := seeded;
        if !go {
          var d := rnd.NextInt(4);
          go := d != 0;
        }
        if go {
          var dx, dz := px - originX, pz - originZ;
          var rest := (steps - step) as real;
          var reach := thickness + 2.0 + 16.0;
          if dx * dx + dz * dz - rest * rest > reach * reach {
            return;
          }
          if !(px < originX - 16.0 - r * 2.0) && !(pz < originZ - 16.0 - r * 2.0)
             && !(px > originX + 16.0 + r * 2.0) && !(pz > originZ + 16.0 + r * 2.0) {
            var box := Box(Mth.Floor(px - r) - chunkX * 16 - 1, Mth.Floor(px + r) - chunkX * 16 + 1,
                           Mth.Floor(pz - r) - chunkZ * 16 - 1, Mth.Floor(pz + r) - chunkZ * 16 + 1,
                           Mth.Floor(py - ry) - 1, Mth.Floor(py + ry) + 1);
            ghost var before := blocks[..];
            var cut := CutSegment(blocks, box, Ellipsoid(px, py, pz, r, ry), chunkX, chunkZ);
            CarvedChains(s0, before, blocks[..]);
            if cut {
              segments := segments + 1;
              if seeded {
                break;
              }
            }
          }
        }
        step := step + 1;
      }
    }

    /** One segment: its box clamped into the chunk, its shell scanned
        for water, and, when there is none, its ellipsoid cut. */
    static method CutSegment(blocks: array<int>, box: Box, e: Ellipsoid, chunkX: int, chunkZ: int) returns (cut: bool)
      requires blocks.Length == Volume && e.r > 0.0 && e.ry > 0.0
      modifies blocks
      ensures cut <==> !Flooded(old(blocks[..]), Clamp(box), Water, CalmWater)
      ensures !cut ==> blocks[..] == old(blocks[..])
      ensures cut ==> forall x, z, y :: InChunk(x, z, y) ==>
                        blocks[Index(x, z, y)] == Cut(old(blocks[..]), Clamp(box), e, chunkX, chunkZ, x, z, y)
      ensures Carved(old(blocks[..]), blocks[..])
      ensures forall x, z, y :: InChunk(x, z, y) && blocks[Index(x, z, y)] != old(blocks[Index(x, z, y)]) ==> Spans(box, x, z, y)
    {
      var b := Clamp(box);
      var found := FindLiquid(blocks, b, Water, CalmWater);
      cut := !found;
      if cut {
        CutBox(blocks, b, e, chunkX, chunkZ);
        CutCarves(old(blocks[..]), blocks[..], b, e, chunkX, chunkZ);
      }
    }

    /** The cut of a clamped box, column by column, x outer, z inner. */
    static method CutBox(blocks: array<int>, b: Box, e: Ellipsoid, chunkX: int, chunkZ: int)
      requires blocks.Length == Volume && e.r > 0.0 && e.ry > 0.0
      requires 0 <= b.x0 && b.x1 <= 16 && 0 <= b.z0 && b.z1 <= 16 && Lowest <= b.y0 && b.y1 <= Highest
      modifies blocks
      ensures forall x, z, y :: InChunk(x, z, y) ==> blocks[Index(x, z, y)] == Cut(old(blocks[..]), b, e, chunkX, chunkZ, x, z, y)
    {
      ghost var s0 := blocks[..];
      var x := b.x0;
      while x < b.x1
        invariant b.x0 <= x && (x <= b.x1 || x == b.x0)
        invariant forall x', z', y' :: InChunk(x', z', y') ==>
                    blocks[Index(x', z', y')] == if x' < x then Cut(s0, b, e, chunkX, chunkZ, x', z', y') else s0[Index(x', z', y')]
      {
        var dx := Offset(x + chunkX * 16, e.x, e.r);
        var z := b.z0;
        while z < b.z1
          invariant b.z0 <= z && (z <= b.z1 || z == b.z0)
          invariant forall x', z', y' :: InChunk(x', z', y') ==>
                      blocks[Index(x', z', y')] == if x' < x || (x' == x && z' < z) then Cut(s0, b, e, chunkX, chunkZ, x', z', y')
                                                   else s0[Index(x', z', y')]
        {
          var dz := Offset(z + chunkZ * 16, e.z, e.r);
          assert Column(blocks[..], x, z) == Column(s0, x, z);
          CutColumnCells(blocks, b, e, chunkX, chunkZ, x, z, dx, dz);
          z := z + 1;
        }
        x := x + 1;
      }
    }

    /** The cut of column (x, z), its tests from the top of the box down;
        `dx` and `dz` are the column's offsets from the centre. */
    static method CutColumnCells(blocks: array<int>, b: Box, e: Ellipsoid, chunkX: int, chunkZ: int, x: int, z: int, dx: real, dz: real)
      requires blocks.Length == Volume && e.r > 0.0 && e.ry > 0.0 && 0 <= x < 16 && 0 <= z < 16 && Lowest <= b.y0 && b.y1 <= Highest
      requires dx == Offset(x + chunkX * 16, e.x, e.r) && dz == Offset(z + chunkZ * 16, e.z, e.r)
      modifies blocks
      ensures forall x', z', y' :: InChunk(x', z', y') ==>
                blocks[Index(x', z', y')] == if x' == x && z' == z
                                             then CutColumn(e, chunkX, chunkZ, x, z, Column(old(blocks[..]), x, z), false, b.y1 - 1, b.y0)[y']
                                             else old(blocks[Index(x', z', y')])
    {
      ghost var s0 := blocks[..];
      ghost var col := Column(s0, x, z);
      ghost var target := CutColumn(e, chunkX, chunkZ, x, z, col, false, b.y1 - 1, b.y0);
      var n := (x * 16 + z) * 128 + b.y1;
      var grass := false;
      var y := b.y1 - 1;
      while y >= b.y0
        invariant y <= b.y1 - 1 && n == Index(x, z, y + 1) && |col| == 128
        invariant CutColumn(e, chunkX, chunkZ, x, z, col, grass, y, b.y0) == target
        invariant forall x', z', y' :: InChunk(x', z', y') ==>
                    blocks[Index(x', z', y')] == if x' == x && z' == z then col[y'] else s0[Index(x', z', y')]
      {
        ghost var col0, grass0 := col, grass;
        var dy := Offset(y, e.y, e.ry);
        if dy > -0.7 && Norm(dx, dy, dz) < 1.0 {
          assert Inside(e, chunkX, chunkZ, x, z, y);
          var v := blocks[n];
          if v == Grass {
            grass := true;
          }
          if v == Rock || v == Dirt || v == Grass {
            if y < 10 {
              Put(blocks, n, x, z, y + 1, Lava);
              col := col[y + 1 := Lava];
            } else {
              Put(blocks, n, x, z, y + 1, Air);
              col := col[y + 1 := Air];
              if grass && blocks[n - 1] == Dirt {
                Put(blocks, n - 1, x, z, y, Grass);
                col := col[y := Grass];
              }
            }
          }
          assert CutStep(col0, grass0, y) == (col, grass);
        } else {
          assert !Inside(e, chunkX, chunkZ, x, z, y);
        }
        n := n - 1;
        y := y - 1;
      }
    }
  }
}
