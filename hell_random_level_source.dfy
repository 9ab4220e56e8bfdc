/**
 * The hell chunk generator (`HellRandomLevelSource`): `prepareHeights`
 * turns the interpolated density into hell rock, with still lava in the
 * empty cells below y = 32, and `buildSurfaces` walks every column from
 * the top down. That walk lays an unbreakable floor and ceiling, puts
 * topsoil and filler under each air gap, and floods empty topsoil below
 * y = 64 with lava. `getChunk` seeds the generator from the chunk
 * coordinates and runs both passes. The density lattice and the three
 * surface noise buffers are inputs.
 */
module HellRandomLevelSource {
  import opened ChunkBlocks
  import Terrain
  import Rng
  import Mth

  /** The lava sea's top: `var5` of `prepareHeights`. */
  const LavaLevel: int := 32
  /** The surface height `buildSurfaces` works around: its `var4`. */
  const SurfaceLevel: int := 64

  /** The tile `prepareHeights` picks: hell rock where the density is
      positive; otherwise still lava below y = 32 and air above. */
  function HellTile(density: real, y: int): (t: int)
    ensures t == HellRock <==> density > 0.0
    ensures t == CalmLava <==> density <= 0.0 && y < LavaLevel
    ensures t == Air <==> density <= 0.0 && y >= LavaLevel
  {
    var t := if y < LavaLevel then CalmLava else Air;
    if density > 0.0 then HellRock else t
  }

  /** The hell's choice for a cell, given its density, height and column. */
  function HellTiles(): (real, int, int) -> int
  {
    (d, y, column) => HellTile(d, y)
  }

  /** `prepareHeights`, given the lattice `getHeights` fills: every cell
      holds the tile its interpolated density picks. */
  method PrepareHeights(blocks: array<int>, heights: seq<real>)
    requires blocks.Length == Volume && |heights| == Terrain.LatticeSize
    modifies blocks
    ensures blocks[..] == Terrain.Prepare(heights, HellTiles())
    ensures forall x, z, y :: InChunk(x, z, y) ==> blocks[Index(x, z, y)] == HellTile(Terrain.DensityAt(heights, x, z, y), y)
  {
    Terrain.Fill(blocks, heights, HellTiles());
  }

  /** A column's running state in `buildSurfaces`: the soil counter
      (`var12`) and the current topsoil and filler tiles. */
  datatype Soil = Soil(run: int, top: int, filler: int)

  /** What a column's walk starts from: whether it lies in a sand or a
      gravel patch, and its soil depth. */
  datatype Patch = Patch(sandy: bool, gravelly: bool, depth: int)

  /** The state at the first hell rock under air, height y: the counter
      becomes the soil depth. A depth of at most zero gives no topsoil over
      hell rock. Near y = 64 the tiles return to hell rock, a gravel patch
      puts gravel on top, and a sand patch overrides both with hell sand.
      Otherwise the tiles stay as they were. Below y = 64 an empty topsoil
      becomes still lava. */
  function Topsoil(p: Patch, y: int, s: Soil): (r: Soil)
    ensures r.run == p.depth
    ensures p.depth <= 0 ==> r.filler == HellRock && r.top == (if y < SurfaceLevel then CalmLava else Air)
    ensures p.depth > 0 && SurfaceLevel - 4 <= y <= SurfaceLevel + 1 ==>
              r.filler == (if p.sandy then HellSand else HellRock)
              && r.top == (if p.sandy then HellSand else if p.gravelly then Gravel else HellRock)
    ensures p.depth > 0 && !(SurfaceLevel - 4 <= y <= SurfaceLevel + 1) ==>
              r.filler == s.filler && r.top == (if y < SurfaceLevel && s.top == Air then CalmLava else s.top)
  {
    var top, filler :=
      if p.depth <= 0 then Air else if SurfaceLevel - 4 <= y <= SurfaceLevel + 1 then (if p.sandy then HellSand else if p.gravelly then Gravel else HellRock)
      else s.top,
      if p.depth <= 0 then HellRock else if SurfaceLevel - 4 <= y <= SurfaceLevel + 1 then (if p.sandy then HellSand else HellRock)
      else s.filler;
    Soil(p.depth, if y < SurfaceLevel && top == Air then CalmLava else top, filler)
  }

  /** One cell of the walk at height y once neither bedrock draw applies:
      the state after it and the cell's new tile. */
  function Step(p: Patch, y: int, s: Soil, cell: int): (Soil, int)
  {
    if cell == Air then (s.(run := -1), Air)
    else if cell != HellRock then (s, cell)
    else if s.run == -1 then
      var s' := Topsoil(p, y, s);
      (s', if y >= SurfaceLevel - 1 then s'.top else s'.filler)
    else if s.run > 0 then (s.(run := s.run - 1), s.filler)
    else (s, HellRock)
  }

  /** Where a walk has got to: the column's state, the new tiles from the
      top down, and how many values it has drawn. */
  datatype Walked = Walked(soil: Soil, tiles: seq<int>, drawn: nat)

  /** One more cell, at height y, given its ceiling and floor draws: the
      ceiling band takes one draw, every other cell two. */
  function Next(p: Patch, y: int, w: Walked, cell: int, ceiling: int, floor: int): (r: Walked)
    ensures |r.tiles| == |w.tiles| + 1
  {
    if y >= 127 - ceiling then Walked(w.soil, w.tiles + [Unbreakable], w.drawn + 1)
    else if y <= 0 + floor then Walked(w.soil, w.tiles + [Unbreakable], w.drawn + 2)
    else
      var step := Step(p, y, w.soil, cell);
      Walked(step.0, w.tiles + [step.1], w.drawn + 2)
  }

  /** The walk over the top n cells of column `col`, whose draws start at
      position k of the stream of `seed`. */
  function Walk(p: Patch, col: seq<int>, raw: (int, nat) -> int, seed: int, k: nat, n: nat): (r: Walked)
    requires |col| == 128 && n <= 128
    ensures |r.tiles| == n
  {
    if n == 0 then Walked(Soil(-1, HellRock, HellRock), [], 0)
    else
      var w := Walk(p, col, raw, seed, k, n - 1);
      Next(p, 128 - n, w, col[128 - n], Rng.IntAt(raw, seed, k + w.drawn, 5), Rng.IntAt(raw, seed, k + w.drawn + 1, 5))
  }

  /** The tile the walk leaves in cell y of column `col`. */
  function Surfaced(p: Patch, col: seq<int>, raw: (int, nat) -> int, seed: int, k: nat, y: int): int
    requires |col| == 128 && 0 <= y < 128
  {
    Walk(p, col, raw, seed, k, 128).tiles[127 - y]
  }

  /** Walking further down never changes the tiles above. */
  lemma {:induction false} WalkKeepsTiles(p: Patch, col: seq<int>, raw: (int, nat) -> int, seed: int, k: nat, n: nat, m: nat)
    requires |col| == 128 && n <= m <= 128
    ensures Walk(p, col, raw, seed, k, m).tiles[..n] == Walk(p, col, raw, seed, k, n).tiles
    decreases m
  {
    if m > n {
      WalkKeepsTiles(p, col, raw, seed, k, n, m - 1);
      var w := Walk(p, col, raw, seed, k, m - 1).tiles;
      assert Walk(p, col, raw, seed, k, m).tiles[..n] == w[..n];
    }
  }

  /** Cell y's tile is the one the walk gives it on reaching it, after n
      cells. */
  lemma SurfacedIsLast(p: Patch, col: seq<int>, raw: (int, nat) -> int, seed: int, k: nat, y: int, n: int)
    requires |col| == 128 && 0 <= y < 128 && n == 128 - y
    ensures Surfaced(p, col, raw, seed, k, y) == Walk(p, col, raw, seed, k, n).tiles[127 - y]
  {
    WalkKeepsTiles(p, col, raw, seed, k, n, 128);
  }

  /** The n-th cell, at height y, extends the walk over the cells above
      it by one `Next`. */
  lemma WalkStep(p: Patch, col: seq<int>, raw: (int, nat) -> int, seed: int, k: nat, n: int, above: int, y: int, w: Walked, cell: int)
    requires |col| == 128 && 0 < n <= 128 && above == n - 1 && y == 128 - n
    requires w == Walk(p, col, raw, seed, k, above) && cell == col[y]
    ensures Walk(p, col, raw, seed, k, n) == Next(p, y, w, cell, Rng.IntAt(raw, seed, k + w.drawn, 5), Rng.IntAt(raw, seed, k + w.drawn + 1, 5))
  {
  }

  /** Between the bedrock bands neither draw applies and the cell takes
      one step of the column walk. */
  lemma Between(p: Patch, y: int, w: Walked, cell: int, ceiling: int, floor: int)
    requires 5 <= y < 123 && 0 <= ceiling < 5 && 0 <= floor < 5
    ensures Next(p, y, w, cell, ceiling, floor)
            == Walked(Step(p, y, w.soil, cell).0, w.tiles + [Step(p, y, w.soil, cell).1], w.drawn + 2)
  {
  }

  /** The ceiling draw is below 5, so the top cell always becomes
      unbreakable; so does the bottom cell, by the floor draw. */
  lemma FloorAndCeilingUnbreakable(p: Patch, col: seq<int>, raw: (int, nat) -> int, seed: int, k: nat)
    requires |col| == 128
    ensures Surfaced(p, col, raw, seed, k, 127) == Unbreakable
    ensures Surfaced(p, col, raw, seed, k, 0) == Unbreakable
  {
    SurfacedIsLast(p, col, raw, seed, k, 127, 1);
    WalkStep(p, col, raw, seed, k, 1, 0, 127, Walk(p, col, raw, seed, k, 0), col[127]);
    SurfacedIsLast(p, col, raw, seed, k, 0, 128);
    WalkStep(p, col, raw, seed, k, 128, 127, 0, Walk(p, col, raw, seed, k, 127), col[0]);
  }

  /** Between the two bedrock bands, an air cell stays air and resets the
      counter, and a cell that is neither air nor hell rock keeps its
      tile. */
  lemma AirAndOthersKept(p: Patch, col: seq<int>, raw: (int, nat) -> int, seed: int, k: nat, y: int)
    requires |col| == 128 && 5 <= y < 123
    ensures col[y] == Air ==> Surfaced(p, col, raw, seed, k, y) == Air && Walk(p, col, raw, seed, k, 128 - y).soil.run == -1
    ensures col[y] != Air && col[y] != HellRock ==> Surfaced(p, col, raw, seed, k, y) == col[y]
  {
    var n := 128 - y;
    SurfacedIsLast(p, col, raw, seed, k, y, n);
    WalkStep(p, col, raw, seed, k, n, n - 1, y, Walk(p, col, raw, seed, k, n - 1), col[y]);
    var w := Walk(p, col, raw, seed, k, n - 1);
    Between(p, y, w, col[y], Rng.IntAt(raw, seed, k + w.drawn, 5), Rng.IntAt(raw, seed, k + w.drawn + 1, 5));
  }

  /** Under the first hell rock after air, m more hell rock cells between
      the bedrock bands keep the tiles, and the counter drops by one for
      each. */
  lemma {:induction false} FillerRun(p: Patch, col: seq<int>, raw: (int, nat) -> int, seed: int, k: nat, n: nat, m: nat)
    requires |col| == 128 && 5 <= n && n + m <= 123
    requires Walk(p, col, raw, seed, k, n).soil.run >= m
    requires forall y :: 128 - n - m <= y < 128 - n ==> col[y] == HellRock
    ensures Walk(p, col, raw, seed, k, n + m).soil == Walk(p, col, raw, seed, k, n).soil.(run := Walk(p, col, raw, seed, k, n).soil.run - m)
  {
    var w0 := Walk(p, col, raw, seed, k, n).soil;
    if m > 0 {
      FillerRun(p, col, raw, seed, k, n, m - 1);
      var y := 128 - n - m;
      var w := Walk(p, col, raw, seed, k, n + (m - 1));
      assert w.soil == w0.(run := w0.run - (m - 1)) && col[y] == HellRock;
      WalkStep(p, col, raw, seed, k, n + m, n + (m - 1), y, w, col[y]);
      Between(p, y, w, col[y], Rng.IntAt(raw, seed, k + w.drawn, 5), Rng.IntAt(raw, seed, k + w.drawn + 1, 5));
      assert Walk(p, col, raw, seed, k, n + m).soil == w0.(run := w0.run - m);
    } else {
      assert Walk(p, col, raw, seed, k, n + m) == Walk(p, col, raw, seed, k, n);
      assert w0.(run := w0.run - m) == w0;
    }
  }

  /** ... and those m cells all become the filler. */
  lemma FillerTiles(p: Patch, col: seq<int>, raw: (int, nat) -> int, seed: int, k: nat, n: nat, m: nat)
    requires |col| == 128 && 5 <= n && n + m <= 123
    requires Walk(p, col, raw, seed, k, n).soil.run >= m
    requires forall y :: 128 - n - m <= y < 128 - n ==> col[y] == HellRock
    ensures forall y :: 128 - n - m <= y < 128 - n ==> Surfaced(p, col, raw, seed, k, y) == Walk(p, col, raw, seed, k, n).soil.filler
  {
    forall y | 128 - n - m <= y < 128 - n
      ensures Surfaced(p, col, raw, seed, k, y) == Walk(p, col, raw, seed, k, n).soil.filler
    {
      var i := 127 - y - n;
      FillerRun(p, col, raw, seed, k, n, i);
      FillerTile(p, col, raw, seed, k, n, i, y);
    }
  }

  /** The cell i rock cells under the first one takes the filler. */
  lemma FillerTile(p: Patch, col: seq<int>, raw: (int, nat) -> int, seed: int, k: nat, n: nat, i: nat, y: int)
    requires |col| == 128 && 5 <= n && n + i < 123 && y == 127 - n - i && col[y] == HellRock
    requires Walk(p, col, raw, seed, k, n + i).soil == Walk(p, col, raw, seed, k, n).soil.(run := Walk(p, col, raw, seed, k, n).soil.run - i)
    requires Walk(p, col, raw, seed, k, n).soil.run > i
    ensures Surfaced(p, col, raw, seed, k, y) == Walk(p, col, raw, seed, k, n).soil.filler
  {
    var w := Walk(p, col, raw, seed, k, n + i);
    var filler := Walk(p, col, raw, seed, k, n).soil.filler;
    assert w.soil.run > 0 && w.soil.filler == filler;
    assert Step(p, y, w.soil, col[y]).1 == filler;
    WalkStep(p, col, raw, seed, k, n + i + 1, n + i, y, w, col[y]);
    Between(p, y, w, col[y], Rng.IntAt(raw, seed, k + w.drawn, 5), Rng.IntAt(raw, seed, k + w.drawn + 1, 5));
    assert Walk(p, col, raw, seed, k, n + i + 1).tiles == w.tiles + [filler];
    SurfacedIsLast(p, col, raw, seed, k, y, n + i + 1);
  }

  /** Each cell draws once or twice, so a column walk draws between 128
      and 256 values. */
  lemma {:induction false} WalkDraws(p: Patch, col: seq<int>, raw: (int, nat) -> int, seed: int, k: nat, n: nat)
    requires |col| == 128 && n <= 128
    ensures n <= Walk(p, col, raw, seed, k, n).drawn <= 2 * n
  {
    if n > 0 {
      WalkDraws(p, col, raw, seed, k, n - 1);
    }
  }

  /** The column a patch was given: cell x + z * 16 of the noise buffers,
      three `nextDouble` draws from position k for the sand patch, the
      gravel patch and the depth. */
  function PatchAt(sand: seq<real>, gravel: seq<real>, depth: seq<real>, raw: (int, nat) -> int, seed: int, k: nat, x: int, z: int): Patch
    requires |sand| == 256 && |gravel| == 256 && |depth| == 256 && 0 <= x < 16 && 0 <= z < 16
  {
    var i := x + z * 16;
    Patch(sand[i] + Rng.DoubleAt(raw, seed, k) * 0.2 > 0.0, gravel[i] + Rng.DoubleAt(raw, seed, k + 1) * 0.2 > 0.0,
          Mth.Trunc(depth[i] / 3.0 + 3.0 + Rng.DoubleAt(raw, seed, k + 2) * 0.25))
  }

  /** The walk of column (x, z) of chunk s, its draws starting at k. */
  function ColumnWalk(s: seq<int>, sand: seq<real>, gravel: seq<real>, depth: seq<real>,
                      raw: (int, nat) -> int, seed: int, k: nat, x: int, z: int): (r: Walked)
    requires |s| == Volume && |sand| == 256 && |gravel| == 256 && |depth| == 256 && 0 <= x < 16 && 0 <= z < 16
    ensures |r.tiles| == 128
  {
    Walk(PatchAt(sand, gravel, depth, raw, seed, k, x, z), Column(s, x, z), raw, seed, k + 3, 128)
  }

  /** Where the draws of column (x, z) start when the surfacing of chunk s
      starts at k: each earlier column took three values and its walk's. */
  function ColumnStart(s: seq<int>, sand: seq<real>, gravel: seq<real>, depth: seq<real>,
                       raw: (int, nat) -> int, seed: int, k: nat, x: int, z: int): nat
    requires |s| == Volume && |sand| == 256 && |gravel| == 256 && |depth| == 256 && 0 <= x <= 16 && 0 <= z <= 16
    decreases x, z
  {
    if z > 0 then
      var c := ColumnStart(s, sand, gravel, depth, raw, seed, k, x, z - 1);
      if x < 16 then c + 3 + ColumnWalk(s, sand, gravel, depth, raw, seed, c, x, z - 1).drawn else c
    else if x > 0 then ColumnStart(s, sand, gravel, depth, raw, seed, k, x - 1, 16)
    else k
  }

  /** The tile `buildSurfaces` leaves in cell (x, z, y) of chunk s. */
  function Built(s: seq<int>, sand: seq<real>, gravel: seq<real>, depth: seq<real>,
                 raw: (int, nat) -> int, seed: int, k: nat, x: int, z: int, y: int): int
    requires |s| == Volume && |sand| == 256 && |gravel| == 256 && |depth| == 256 && InChunk(x, z, y)
  {
    ColumnWalk(s, sand, gravel, depth, raw, seed, ColumnStart(s, sand, gravel, depth, raw, seed, k, x, z), x, z).tiles[127 - y]
  }

  /** Every column `buildSurfaces` walks has bedrock at both ends. */
  lemma BuiltBedrock(s: seq<int>, sand: seq<real>, gravel: seq<real>, depth: seq<real>,
                     raw: (int, nat) -> int, seed: int, k: nat, x: int, z: int)
    requires |s| == Volume && |sand| == 256 && |gravel| == 256 && |depth| == 256 && 0 <= x < 16 && 0 <= z < 16
    ensures Built(s, sand, gravel, depth, raw, seed, k, x, z, 0) == Unbreakable
    ensures Built(s, sand, gravel, depth, raw, seed, k, x, z, 127) == Unbreakable
  {
    var c := ColumnStart(s, sand, gravel, depth, raw, seed, k, x, z);
    FloorAndCeilingUnbreakable(PatchAt(sand, gravel, depth, raw, seed, c, x, z), Column(s, x, z), raw, seed, c + 3);
  }

  class HellRandomLevelSource {
    const random: Rng.Random

    constructor (random: Rng.Random)
      ensures this.random == random
    {
      this.random := random;
    }

    /** `buildSurfaces`, given the sand, gravel and depth noise of the
        chunk: every column walked, x outer, z inner. */
    method BuildSurfaces(blocks: array<int>, sand: seq<real>, gravel: seq<real>, depth: seq<real>)
      requires blocks.Length == Volume && |sand| == 256 && |gravel| == 256 && |depth| == 256
      modifies blocks, random`drawn
      ensures random.drawn == ColumnStart(old(blocks[..]), sand, gravel, depth, random.raw, random.seed, old(random.drawn), 16, 0)
      ensures forall x, z, y :: InChunk(x, z, y) ==>
                blocks[Index(x, z, y)] == Built(old(blocks[..]), sand, gravel, depth, random.raw, random.seed, old(random.drawn), x, z, y)
    {
      ghost var s0 := blocks[..];
      ghost var raw, seed, k := random.raw, random.seed, random.drawn;
      for x := 0 to 16
        invariant random.seed == seed && random.drawn == ColumnStart(s0, sand, gravel, depth, raw, seed, k, x, 0)
        invariant forall x', z', y' :: InChunk(x', z', y') ==>
                    blocks[Index(x', z', y')] == if x' < x then Built(s0, sand, gravel, depth, raw, seed, k, x', z', y')
                                                 else s0[Index(x', z', y')]
      {
        for z := 0 to 16
          invariant random.seed == seed && random.drawn == ColumnStart(s0, sand, gravel, depth, raw, seed, k, x, z)
          invariant forall x', z', y' :: InChunk(x', z', y') ==>
                      blocks[Index(x', z', y')] == if x' < x || (x' == x && z' < z) then Built(s0, sand, gravel, depth, raw, seed, k, x', z', y')
                                                   else s0[Index(x', z', y')]
        {
          WalkColumn(blocks, sand, gravel, depth, x, z, s0);
        }
      }
    }

    /** The patch draws of column (x, z), then its walk. */
    method WalkColumn(blocks: array<int>, sand: seq<real>, gravel: seq<real>, depth: seq<real>, x: int, z: int, ghost s0: seq<int>)
      requires blocks.Length == Volume && |sand| == 256 && |gravel| == 256 && |depth| == 256
      requires 0 <= x < 16 && 0 <= z < 16 && |s0| == Volume
      requires forall y :: 0 <= y < 128 ==> blocks[Index(x, z, y)] == s0[Index(x, z, y)]
      modifies blocks, random`drawn
      ensures random.drawn == old(random.drawn) + 3 + ColumnWalk(s0, sand, gravel, depth, random.raw, random.seed, old(random.drawn), x, z).drawn
      ensures forall x', z', y' :: InChunk(x', z', y') ==>
                blocks[Index(x', z', y')] == if x' == x && z' == z
                                             then ColumnWalk(s0, sand, gravel, depth, random.raw, random.seed, old(random.drawn), x, z).tiles[127 - y']
                                             else old(blocks[Index(x', z', y')])
    {
      var i := x + z * 16;
      var d := random.NextDouble();
      var sandy := sand[i] + d * 0.2 > 0.0;
      d := random.NextDouble();
      var gravelly := gravel[i] + d * 0.2 > 0.0;
      d := random.NextDouble();
      var soil := Mth.Trunc(depth[i] / 3.0 + 3.0 + d * 0.25);
      var p := Patch(sandy, gravelly, soil);
      assert p == PatchAt(sand, gravel, depth, random.raw, random.seed, old(random.drawn), x, z);
      assert Column(blocks[..], x, z) == Column(s0, x, z);
      WalkCells(blocks, x, z, p);
    }

    /** The walk of column (x, z) from y = 127 down. */
    method WalkCells(blocks: array<int>, x: int, z: int, p: Patch)
      requires blocks.Length == Volume && 0 <= x < 16 && 0 <= z < 16
      modifies blocks, random`drawn
      ensures random.drawn == old(random.drawn) + Walk(p, Column(old(blocks[..]), x, z), random.raw, random.seed, old(random.drawn), 128).drawn
      ensures forall x', z', y' :: InChunk(x', z', y') ==>
                blocks[Index(x', z', y')] == if x' == x && z' == z
                                             then Walk(p, Column(old(blocks[..]), x, z), random.raw, random.seed, old(random.drawn), 128).tiles[127 - y']
                                             else old(blocks[Index(x', z', y')])
    {
      ghost var col := Column(blocks[..], x, z);
      ghost var s0 := blocks[..];
      ghost var raw, seed, k := random.raw, random.seed, random.drawn;
      var run, top, filler := -1, HellRock, HellRock;
      ghost var w := Walk(p, col, raw, seed, k, 0);
      ghost var m := 0;
      var y := 127;
      while y >= 0
        invariant -1 <= y <= 127 && m == 127 - y && random.seed == seed
        invariant w == Walk(p, col, raw, seed, k, m)
        invariant random.drawn == k + w.drawn && w.soil == Soil(run, top, filler)
        invariant forall x', z', y' :: InChunk(x', z', y') ==>
                    blocks[Index(x', z', y')] == if x' == x && z' == z && y' > y then w.tiles[127 - y'] else s0[Index(x', z', y')]
      {
        var n := Index(x, z, y);
        var cell := blocks[n];
        ghost var w' := Walk(p, col, raw, seed, k, m + 1);
        WalkStep(p, col, raw, seed, k, m + 1, m, y, w, cell);
        var tile;
        run, top, filler, tile := WalkCell(p, y, run, top, filler, cell, w, w', raw, seed, k);
        w, m := w', m + 1;
        Put(blocks, n, x, z, y, tile);
        y := y - 1;
      }
    }

    /** One cell of the walk at height y: the ceiling draw, then the floor
        draw, lay bedrock in their bands; any other cell takes a step. */
    method WalkCell(p: Patch, y: int, run: int, top: int, filler: int, cell: int,
                    ghost w: Walked, ghost w': Walked, ghost raw: (int, nat) -> int, ghost seed: int, ghost k: nat)
        returns (run': int, top': int, filler': int, tile: int)
      requires random.raw == raw && random.seed == seed && random.drawn == k + w.drawn && w.soil == Soil(run, top, filler)
      requires w' == Next(p, y, w, cell, Rng.IntAt(raw, seed, k + w.drawn, 5), Rng.IntAt(raw, seed, k + w.drawn + 1, 5))
      modifies random`drawn
      ensures random.drawn == k + w'.drawn && w'.soil == Soil(run', top', filler') && w'.tiles == w.tiles + [tile]
    {
      run', top', filler' := run, top, filler;
      var ceiling := random.NextInt(5);
      if y >= 127 - ceiling {
        tile := Unbreakable;
      } else {
        var floor := random.NextInt(5);
        if y <= 0 + floor {
          tile := Unbreakable;
        } else {
          run', top', filler', tile := StepCell(p, y, run, top, filler, cell);
        }
      }
    }

    /** One cell of the walk between the bedrock bands: air resets the
        counter; the first hell rock under air takes the topsoil from
        y = 63 up and the filler below; further hell rock takes the filler
        while the counter lasts. */
    static method StepCell(p: Patch, y: int, run: int, top: int, filler: int, cell: int)
        returns (run': int, top': int, filler': int, tile: int)
      ensures Step(p, y, Soil(run, top, filler), cell).0 == Soil(run', top', filler')
      ensures Step(p, y, Soil(run, top, filler), cell).1 == tile
    {
      run', top', filler', tile := run, top, filler, cell;
      if cell == Air {
        run' := -1;
      } else if cell == HellRock {
        if run == -1 {
          if p.depth <= 0 {
            top', filler' := Air, HellRock;
          } else if y >= SurfaceLevel - 4 && y <= SurfaceLevel + 1 {
            top', filler' := HellRock, HellRock;
            if p.gravelly {
              top' := Gravel;
            }
            if p.gravelly {
              filler' := HellRock;
            }
            if p.sandy {
              top' := HellSand;
            }
            if p.sandy {
              filler' := HellSand;
            }
          }
          if y < SurfaceLevel && top' == Air {
            top' := CalmLava;
          }
          run' := p.depth;
          if y >= SurfaceLevel - 1 {
            tile := top';
          } else {
            tile := filler';
          }
        } else if run > 0 {
          run' := run - 1;
          tile := filler;
        }
      }
    }

    /** `getChunk`'s generation: the generator is seeded from the chunk
        coordinates, a zeroed volume is prepared from the density lattice
        and then surfaced. The blocks returned are those before the cave
        pass (`caveFeature.apply`), which is not modelled here. */
    method GetChunk(chunkX: int, chunkZ: int, heights: seq<real>, sand: seq<real>, gravel: seq<real>, depth: seq<real>)
        returns (blocks: array<int>)
      requires |heights| == Terrain.LatticeSize && |sand| == 256 && |gravel| == 256 && |depth| == 256
      modifies random`seed, random`drawn
      ensures fresh(blocks) && blocks.Length == Volume && random.seed == Terrain.ChunkSeed(chunkX, chunkZ)
      ensures forall x, z, y :: InChunk(x, z, y) ==>
                blocks[Index(x, z, y)] == Built(Terrain.Prepare(heights, HellTiles()), sand, gravel, depth, random.raw, random.seed, 0, x, z, y)
      ensures forall x, z :: 0 <= x < 16 && 0 <= z < 16 ==> blocks[Index(x, z, 0)] == Unbreakable && blocks[Index(x, z, 127)] == Unbreakable
    {
      random.SetSeed(Terrain.ChunkSeed(chunkX, chunkZ));
      blocks := new int[Volume](_ => Air);
      PrepareHeights(blocks, heights);
      ghost var prepared := blocks[..];
      BuildSurfaces(blocks, sand, gravel, depth);
      forall x, z | 0 <= x < 16 && 0 <= z < 16
        ensures blocks[Index(x, z, 0)] == Unbreakable && blocks[Index(x, z, 127)] == Unbreakable
      {
        BuiltBedrock(prepared, sand, gravel, depth, random.raw, random.seed, 0, x, z);
      }
    }
  }
}
