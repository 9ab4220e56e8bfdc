/**
 * The overworld chunk generator (`RandomLevelSource`): `prepareHeights`
 * turns the interpolated density into rock, still water, ice and air, and
 * `buildSurfaces` walks every column from the top down. That walk lays the
 * unbreakable floor, puts topsoil and filler under each air gap, and floods
 * empty topsoil below sea level. `getChunk` seeds the generator from the
 * chunk coordinates and runs both passes. The density lattice, the biomes,
 * the temperatures and the three surface noise buffers are inputs.
 */
module RandomLevelSource {
  import opened ChunkBlocks
  import Terrain
  import Rng
  import Mth

  /** Sea level: `var7` of `prepareHeights`, `var5` of `buildSurfaces`. */
  const SeaLevel: int := 64

  /** A biome's `topMaterial` and `material`. */
  datatype Biome = Biome(top: int, filler: int)

  /** The tile `prepareHeights` picks: rock where the density is positive;
      otherwise still water below sea level, except ice in the layer just
      below it where the column is cold; air above. */
  function HeightsTile(density: real, y: int, temperature: real): (t: int)
    ensures t == Rock <==> density > 0.0
    ensures t == Air <==> density <= 0.0 && y >= SeaLevel
    ensures t == Ice <==> density <= 0.0 && y == SeaLevel - 1 && temperature < 0.5
    ensures t == CalmWater <==> density <= 0.0 && y < SeaLevel && !(y == SeaLevel - 1 && temperature < 0.5)
  {
    var t := if y < SeaLevel then (if temperature < 0.5 && y >= SeaLevel - 1 then Ice else CalmWater) else Air;
    if density > 0.0 then Rock else t
  }

  /** The temperature of column x * 16 + z. */
  function TemperatureAt(temps: seq<real>, column: int): real
  {
    if 0 <= column < |temps| then temps[column] else 0.0
  }

  /** The overworld's choice for a cell, given its density, height and
      column. */
  function OverworldTile(temps: seq<real>): (real, int, int) -> int
  {
    (d, y, column) => HeightsTile(d, y, TemperatureAt(temps, column))
  }

  /** `prepareHeights`, given the lattice `getHeights` fills and the
      biome source's temperatures: every cell holds the tile its
      interpolated density picks. */
  method PrepareHeights(blocks: array<int>, heights: seq<real>, temps: seq<real>)
    requires blocks.Length == Volume && |heights| == Terrain.LatticeSize && |temps| == 256
    modifies blocks
    ensures blocks[..] == Terrain.Prepare(heights, OverworldTile(temps))
    ensures forall x, z, y :: InChunk(x, z, y) ==>
              blocks[Index(x, z, y)] == HeightsTile(Terrain.DensityAt(heights, x, z, y), y, temps[x * 16 + z])
  {
    Terrain.Fill(blocks, heights, OverworldTile(temps));
  }

  /** A column's running state in `buildSurfaces`: the soil counter
      (`var14`) and the current topsoil and filler tiles. */
  datatype Soil = Soil(run: int, top: int, filler: int)

  /** What a column's walk starts from: its biome, whether it lies in a
      sand or a gravel patch, and its soil depth. */
  datatype Patch = Patch(biome: Biome, sandy: bool, gravelly: bool, depth: int)

  /** The state at the first rock under air, height y: the counter becomes
      the soil depth. A depth of at most zero gives no topsoil over plain
      rock. Near sea level the biome's tiles return, a gravel patch replaces
      them with no topsoil over gravel, and a sand patch overrides both
      with sand. Otherwise the tiles stay as they were. Below sea level an
      empty topsoil becomes still water. */
  function Topsoil(p: Patch, y: int, s: Soil): (r: Soil)
    ensures r.run == p.depth
    ensures p.depth <= 0 ==> r.filler == Rock && r.top == (if y < SeaLevel then CalmWater else Air)
    ensures p.depth > 0 && SeaLevel - 4 <= y <= SeaLevel + 1 && p.sandy ==> r.top == Sand && r.filler == Sand
    ensures p.depth > 0 && SeaLevel - 4 <= y <= SeaLevel + 1 && !p.sandy && p.gravelly ==>
              r.filler == Gravel && r.top == (if y < SeaLevel then CalmWater else Air)
    ensures p.depth > 0 && SeaLevel - 4 <= y <= SeaLevel + 1 && !p.sandy && !p.gravelly ==>
              r.filler == p.biome.filler && r.top == (if y < SeaLevel && p.biome.top == Air then CalmWater else p.biome.top)
    ensures p.depth > 0 && !(SeaLevel - 4 <= y <= SeaLevel + 1) ==>
              r.filler == s.filler && r.top == (if y < SeaLevel && s.top == Air then CalmWater else s.top)
  {
    var top, filler :=
      if p.depth <= 0 then Air else if SeaLevel - 4 <= y <= SeaLevel + 1 then (if p.sandy then Sand else if p.gravelly then Air else p.biome.top)
      else s.top,
      if p.depth <= 0 then Rock else if SeaLevel - 4 <= y <= SeaLevel + 1 then (if p.sandy then Sand else if p.gravelly then Gravel else p.biome.filler)
      else s.filler;
    Soil(p.depth, if y < SeaLevel && top == Air then CalmWater else top, filler)
  }

  /** One cell of the walk at height y, given the floor draw: the state
      after it and the cell's new tile. */
  function Step(p: Patch, y: int, s: Soil, cell: int, draw: int): (Soil, int)
  {
    if y <= draw then (s, Unbreakable)
    else if cell == Air then (s.(run := -1), Air)
    else if cell != Rock then (s, cell)
    else if s.run == -1 then
      var s' := Topsoil(p, y, s);
      (s', if y >= SeaLevel - 1 then s'.top else s'.filler)
    else if s.run > 0 then (s.(run := s.run - 1), s.filler)
    else (s, Rock)
  }

  /** The walk over the top n cells of column `col`, whose floor draws
      start at position k of the stream of `seed`: the state after them and
      their new tiles, top to bottom. */
  function Walk(p: Patch, col: seq<int>, raw: (int, nat) -> int, seed: int, k: nat, n: nat): (r: (Soil, seq<int>))
    requires |col| == 128 && n <= 128
    ensures |r.1| == n
  {
    if n == 0 then (Soil(-1, p.biome.top, p.biome.filler), [])
    else
      var w := Walk(p, col, raw, seed, k, n - 1);
      var step := Step(p, 128 - n, w.0, col[128 - n], Rng.IntAt(raw, seed, k + n - 1, 5));
      (step.0, w.1 + [step.1])
  }

  /** The state after the top n cells. */
  function SoilAfter(p: Patch, col: seq<int>, raw: (int, nat) -> int, seed: int, k: nat, n: nat): Soil
    requires |col| == 128 && n <= 128
  {
    Walk(p, col, raw, seed, k, n).0
  }

  /** The tile the walk leaves in cell y of column `col`. */
  function Surfaced(p: Patch, col: seq<int>, raw: (int, nat) -> int, seed: int, k: nat, y: int): int
    requires |col| == 128 && 0 <= y < 128
  {
    Walk(p, col, raw, seed, k, 128).1[127 - y]
  }

  /** Walking further down never changes the tiles above. */
  lemma {:induction false} WalkKeepsTiles(p: Patch, col: seq<int>, raw: (int, nat) -> int, seed: int, k: nat, n: nat, m: nat)
    requires |col| == 128 && n <= m <= 128
    ensures Walk(p, col, raw, seed, k, m).1[..n] == Walk(p, col, raw, seed, k, n).1
    decreases m
  {
    if m > n {
      WalkKeepsTiles(p, col, raw, seed, k, n, m - 1);
      var w := Walk(p, col, raw, seed, k, m - 1).1;
      assert Walk(p, col, raw, seed, k, m).1[..n] == w[..n];
    }
  }

  /** The walk's state after cell y and that cell's tile come from one
      step from the state before it. */
  lemma WalkedOne(p: Patch, col: seq<int>, raw: (int, nat) -> int, seed: int, k: nat, y: int, below: int)
    requires |col| == 128 && 0 <= y < 128 && below == y - 1
    ensures SoilAfter(p, col, raw, seed, k, 127 - below) == Step(p, y, SoilAfter(p, col, raw, seed, k, 127 - y), col[y], Rng.IntAt(raw, seed, k + 127 - y, 5)).0
    ensures Surfaced(p, col, raw, seed, k, y) == Step(p, y, SoilAfter(p, col, raw, seed, k, 127 - y), col[y], Rng.IntAt(raw, seed, k + 127 - y, 5)).1
  {
    WalkKeepsTiles(p, col, raw, seed, k, 128 - y, 128);
    assert Surfaced(p, col, raw, seed, k, y) == Walk(p, col, raw, seed, k, 128 - y).1[127 - y];
  }

  /** One more cell of the walk extends it by one step. */
  lemma WalkedDown(p: Patch, col: seq<int>, raw: (int, nat) -> int, seed: int, k: nat, y: int, below: int)
    requires |col| == 128 && 0 <= y < 128 && below == y - 1
    ensures Walk(p, col, raw, seed, k, 127 - below)
            == var w := Walk(p, col, raw, seed, k, 127 - y);
               var step := Step(p, y, w.0, col[y], Rng.IntAt(raw, seed, k + 127 - y, 5));
               (step.0, w.1 + [step.1])
  {
  }

  /** The floor draw is below 5, so the bottom cell always becomes
      unbreakable and no cell from y = 5 up does by the draw. */
  lemma FloorUnbreakable(p: Patch, col: seq<int>, raw: (int, nat) -> int, seed: int, k: nat)
    requires |col| == 128
    ensures Surfaced(p, col, raw, seed, k, 0) == Unbreakable
  {
    WalkedOne(p, col, raw, seed, k, 0, -1);
  }

  /** Above the floor draw, an air cell stays air and resets the counter,
      and a cell that is neither air nor rock keeps its tile. */
  lemma AirAndOthersKept(p: Patch, col: seq<int>, raw: (int, nat) -> int, seed: int, k: nat, y: int)
    requires |col| == 128 && 5 <= y < 128
    ensures col[y] == Air ==> Surfaced(p, col, raw, seed, k, y) == Air && SoilAfter(p, col, raw, seed, k, 128 - y).run == -1
    ensures col[y] != Air && col[y] != Rock ==> Surfaced(p, col, raw, seed, k, y) == col[y]
  {
    WalkedOne(p, col, raw, seed, k, y, y - 1);
  }

  /** Under the first rock after air, m more rock cells (all above the
      floor draws) become filler as long as the counter lasts, and the
      counter drops by one for each. */
  lemma {:induction false} FillerRun(p: Patch, col: seq<int>, raw: (int, nat) -> int, seed: int, k: nat, n: nat, m: nat)
    requires |col| == 128 && n + m <= 123
    requires SoilAfter(p, col, raw, seed, k, n).run >= m
    requires forall y :: 128 - n - m <= y < 128 - n ==> col[y] == Rock
    ensures SoilAfter(p, col, raw, seed, k, n + m) == SoilAfter(p, col, raw, seed, k, n).(run := SoilAfter(p, col, raw, seed, k, n).run - m)
    ensures forall y :: 128 - n - m <= y < 128 - n ==> Surfaced(p, col, raw, seed, k, y) == SoilAfter(p, col, raw, seed, k, n).filler
  {
    if m > 0 {
      FillerRun(p, col, raw, seed, k, n, m - 1);
      var y := 128 - n - m;
      var s := SoilAfter(p, col, raw, seed, k, n + m - 1);
      var draw := Rng.IntAt(raw, seed, k + n + m - 1, 5);
      assert s.run > 0 && col[y] == Rock && y > draw;
      assert Step(p, y, s, col[y], draw) == (s.(run := s.run - 1), s.filler);
      WalkedOne(p, col, raw, seed, k, y, y - 1);
    }
  }

  /** Once the counter has run out, rock stays rock until air resets it. */
  lemma RockAfterRun(p: Patch, col: seq<int>, raw: (int, nat) -> int, seed: int, k: nat, y: int)
    requires |col| == 128 && 5 <= y < 128 && col[y] == Rock
    requires SoilAfter(p, col, raw, seed, k, 127 - y).run == 0
    ensures Surfaced(p, col, raw, seed, k, y) == Rock && SoilAfter(p, col, raw, seed, k, 128 - y).run == 0
  {
    WalkedOne(p, col, raw, seed, k, y, y - 1);
  }

  /** The column a patch and its draws were given: cell x + z * 16 of the
      biome and noise buffers, three `nextDouble` draws from position k
      for the sand patch, the gravel patch and the depth. */
  function PatchAt(biomes: seq<Biome>, sand: seq<real>, gravel: seq<real>, depth: seq<real>,
                   raw: (int, nat) -> int, seed: int, k: nat, x: int, z: int): Patch
    requires |biomes| == 256 && |sand| == 256 && |gravel| == 256 && |depth| == 256 && 0 <= x < 16 && 0 <= z < 16
  {
    var i := x + z * 16;
    Patch(biomes[i], sand[i] + Rng.DoubleAt(raw, seed, k) * 0.2 > 0.0, gravel[i] + Rng.DoubleAt(raw, seed, k + 1) * 0.2 > 3.0,
          Mth.Trunc(depth[i] / 3.0 + 3.0 + Rng.DoubleAt(raw, seed, k + 2) * 0.25))
  }

  /** Draws one column takes: three for its patch, one per cell. */
  const ColumnDraws: int := 131

  /** Where the draws of column (x, z) start when the walk starts at k. */
  function ColumnStart(k: nat, x: int, z: int): nat
    requires 0 <= x < 16 && 0 <= z < 16
  {
    k + ColumnDraws * (x * 16 + z)
  }

  /** The tile `buildSurfaces` leaves in cell (x, z, y) of chunk s. */
  function Built(s: seq<int>, biomes: seq<Biome>, sand: seq<real>, gravel: seq<real>, depth: seq<real>,
                 raw: (int, nat) -> int, seed: int, k: nat, x: int, z: int, y: int): int
    requires |s| == Volume && |biomes| == 256 && |sand| == 256 && |gravel| == 256 && |depth| == 256 && InChunk(x, z, y)
  {
    var c := ColumnStart(k, x, z);
    Surfaced(PatchAt(biomes, sand, gravel, depth, raw, seed, c, x, z), Column(s, x, z), raw, seed, c + 3, y)
  }

  class RandomLevelSource {
    const random: Rng.Random

    constructor (random: Rng.Random)
      ensures this.random == random
    {
      this.random := random;
    }

    /** `buildSurfaces`, given the sand, gravel and depth noise of the
        chunk: every column walked, x outer, z inner. */
    method BuildSurfaces(blocks: array<int>, biomes: seq<Biome>, sand: seq<real>, gravel: seq<real>, depth: seq<real>)
      requires blocks.Length == Volume && |biomes| == 256 && |sand| == 256 && |gravel| == 256 && |depth| == 256
      modifies blocks, random`drawn
      ensures random.drawn == old(random.drawn) + ColumnDraws * 256
      ensures forall x, z, y :: InChunk(x, z, y) ==>
                blocks[Index(x, z, y)] == Built(old(blocks[..]), biomes, sand, gravel, depth, random.raw, random.seed, old(random.drawn), x, z, y)
    {
      ghost var s0 := blocks[..];
      ghost var k := random.drawn;
      for x := 0 to 16
        invariant random.drawn == k + ColumnDraws * (x * 16)
        invariant forall x', z', y' :: InChunk(x', z', y') ==>
                    blocks[Index(x', z', y')] == if x' < x then Built(s0, biomes, sand, gravel, depth, random.raw, random.seed, k, x', z', y')
                                                 else s0[Index(x', z', y')]
      {
        for z := 0 to 16
          invariant random.drawn == k + ColumnDraws * (x * 16 + z)
          invariant forall x', z', y' :: InChunk(x', z', y') ==>
                      blocks[Index(x', z', y')] == if x' < x || (x' == x && z' < z) then Built(s0, biomes, sand, gravel, depth, random.raw, random.seed, k, x', z', y')
                                                   else s0[Index(x', z', y')]
        {
          WalkColumn(blocks, biomes, sand, gravel, depth, x, z, s0, k);
        }
      }
    }

    /** The patch draws of column (x, z), then its walk. */
    method WalkColumn(blocks: array<int>, biomes: seq<Biome>, sand: seq<real>, gravel: seq<real>, depth: seq<real>,
                      x: int, z: int, ghost s0: seq<int>, ghost k: nat)
      requires blocks.Length == Volume && |biomes| == 256 && |sand| == 256 && |gravel| == 256 && |depth| == 256
      requires 0 <= x < 16 && 0 <= z < 16 && |s0| == Volume && random.drawn == ColumnStart(k, x, z)
      requires forall y :: 0 <= y < 128 ==> blocks[Index(x, z, y)] == s0[Index(x, z, y)]
      modifies blocks, random`drawn
      ensures random.drawn == old(random.drawn) + ColumnDraws
      ensures forall x', z', y' :: InChunk(x', z', y') ==>
                blocks[Index(x', z', y')] == if x' == x && z' == z then Built(s0, biomes, sand, gravel, depth, random.raw, random.seed, k, x', z', y')
                                             else old(blocks[Index(x', z', y')])
    {
      var i := x + z * 16;
      var d := random.NextDouble();
      var sandy := sand[i] + d * 0.2 > 0.0;
      d := random.NextDouble();
      var gravelly := gravel[i] + d * 0.2 > 3.0;
      d := random.NextDouble();
      var soil := Mth.Trunc(depth[i] / 3.0 + 3.0 + d * 0.25);
      var p := Patch(biomes[i], sandy, gravelly, soil);
      assert p == PatchAt(biomes, sand, gravel, depth, random.raw, random.seed, ColumnStart(k, x, z), x, z);
      assert Column(blocks[..], x, z) == Column(s0, x, z);
      WalkCells(blocks, x, z, p);
    }

    /** The walk of column (x, z) from y = 127 down, one floor draw per
        cell. */
    method WalkCells(blocks: array<int>, x: int, z: int, p: Patch)
      requires blocks.Length == Volume && 0 <= x < 16 && 0 <= z < 16
      modifies blocks, random`drawn
      ensures random.drawn == old(random.drawn) + 128
      ensures forall x', z', y' :: InChunk(x', z', y') ==>
                blocks[Index(x', z', y')] == if x' == x && z' == z
                                             then Surfaced(p, Column(old(blocks[..]), x, z), random.raw, random.seed, old(random.drawn), y')
                                             else old(blocks[Index(x', z', y')])
    {
      ghost var col := Column(blocks[..], x, z);
      ghost var s0 := blocks[..];
      ghost var raw, seed, k := random.raw, random.seed, random.drawn;
      var run, top, filler := -1, p.biome.top, p.biome.filler;
      ghost var tiles: seq<int> := [];
      var y := 127;
      while y >= 0
        invariant -1 <= y <= 127 && random.seed == seed && random.drawn == k + 127 - y
        invariant Walk(p, col, raw, seed, k, 127 - y) == (Soil(run, top, filler), tiles)
        invariant forall y' :: y < y' < 128 ==> blocks[Index(x, z, y')] == tiles[127 - y']
        invariant forall x', z', y' :: InChunk(x', z', y') && !(x' == x && z' == z && y' > y) ==> blocks[Index(x', z', y')] == s0[Index(x', z', y')]
      {
        var n := Index(x, z, y);
        assert blocks[n] == col[y];
        var draw := random.NextInt(5);
        assert draw == Rng.IntAt(raw, seed, k + 127 - y, 5);
        var tile;
        run, top, filler, tile := StepCell(p, y, run, top, filler, blocks[n], draw);
        tiles := tiles + [tile];
        WalkedDown(p, col, raw, seed, k, y, y - 1);
        assert Walk(p, col, raw, seed, k, 127 - (y - 1)) == (Soil(run, top, filler), tiles);
        Put(blocks, n, x, z, y, tile);
        y := y - 1;
      }
    }

    /** One cell of the walk: below the floor draw it becomes unbreakable;
        air resets the counter; the first rock under air takes the
        topsoil above sea level and the filler below; further rock takes
        the filler while the counter lasts. */
    static method StepCell(p: Patch, y: int, run: int, top: int, filler: int, cell: int, draw: int)
        returns (run': int, top': int, filler': int, tile: int)
      ensures Step(p, y, Soil(run, top, filler), cell, draw).0 == Soil(run', top', filler')
      ensures Step(p, y, Soil(run, top, filler), cell, draw).1 == tile
    {
      run', top', filler', tile := run, top, filler, cell;
      if y <= 0 + draw {
        tile := Unbreakable;
      } else if cell == Air {
        run' := -1;
      } else if cell == Rock {
        if run == -1 {
          if p.depth <= 0 {
            top', filler' := Air, Rock;
          } else if y >= SeaLevel - 4 && y <= SeaLevel + 1 {
            top', filler' := p.biome.top, p.biome.filler;
            if p.gravelly {
              top' := Air;
            }
            if p.gravelly {
              filler' := Gravel;
            }
            if p.sandy {
              top' := Sand;
            }
            if p.sandy {
              filler' := Sand;
            }
          }
          if y < SeaLevel && top' == Air {
            top' := CalmWater;
          }
          run' := p.depth;
          if y >= SeaLevel - 1 {
            tile := top';
          } else {
            tile := filler';
          }
        } else if run > 0 {
          run' := run - 1;
          tile := filler;
        }
      }
    }

    /** `getChunk`'s generation: the generator is seeded from the chunk
        coordinates, a zeroed volume is prepared from the density lattice
        and then surfaced. The blocks returned are those before the cave
        pass (`caveFeature.apply`), which is not modelled here. */
    method GetChunk(chunkX: int, chunkZ: int, heights: seq<real>, temps: seq<real>, biomes: seq<Biome>,
                    sand: seq<real>, gravel: seq<real>, depth: seq<real>) returns (blocks: array<int>)
      requires |heights| == Terrain.LatticeSize && |temps| == 256 && |biomes| == 256
      requires |sand| == 256 && |gravel| == 256 && |depth| == 256
      modifies random`seed, random`drawn
      ensures fresh(blocks) && blocks.Length == Volume
      ensures random.seed == Terrain.ChunkSeed(chunkX, chunkZ) && random.drawn == ColumnDraws * 256
      ensures forall x, z, y :: InChunk(x, z, y) ==>
                blocks[Index(x, z, y)] == Built(Terrain.Prepare(heights, OverworldTile(temps)),
                                                biomes, sand, gravel, depth, random.raw, random.seed, 0, x, z, y)
      ensures forall x, z :: 0 <= x < 16 && 0 <= z < 16 ==> blocks[Index(x, z, 0)] == Unbreakable
    {
      random.SetSeed(Terrain.ChunkSeed(chunkX, chunkZ));
      blocks := new int[Volume](_ => Air);
      PrepareHeights(blocks, heights, temps);
      ghost var prepared := blocks[..];
      BuildSurfaces(blocks, biomes, sand, gravel, depth);
      forall x, z | 0 <= x < 16 && 0 <= z < 16
        ensures blocks[Index(x, z, 0)] == Unbreakable
      {
        var c := ColumnStart(0, x, z);
        FloorUnbreakable(PatchAt(biomes, sand, gravel, depth, random.raw, random.seed, c, x, z), Column(prepared, x, z), random.raw, random.seed, c + 3);
      }
    }
  }
}
