/**
 * The C++ port's `Level`: a finite world of width x height x depth cells kept
 * in flat byte vectors (tile ids, sky light, block light) indexed
 * `(y * depth + z) * width + x`, plus a per-column height map holding one
 * above the highest light-blocking tile.
 *
 * `Tile::lightBlock` and `Tile::lightEmission` are static tables outside
 * this file; the model takes them as the level's constant parameters.
 */
module Level {
  import Mth

  // ---------------------------------------------------------------------
  // Flat indexing
  // ---------------------------------------------------------------------

  /** `isInBounds`. */
  predicate InBounds(w: int, h: int, d: int, x: int, y: int, z: int)
  {
    0 <= x < w && 0 <= y < h && 0 <= z < d
  }

  /** `getIndex`: x varies fastest, then z, then y. */
  function Index(w: int, d: int, x: int, y: int, z: int): int
  {
    (y * d + z) * w + x
  }

  /** The cell an index names: the inverse of `Index`. */
  function Coords(w: int, d: int, i: int): (int, int, int)
    requires w > 0 && d > 0
  {
    (i % w, (i / w) / d, (i / w) % d)
  }

  /** Every in-bounds cell has an index inside the flat vectors. */
  lemma IndexRange(w: int, h: int, d: int, x: int, y: int, z: int)
    requires InBounds(w, h, d, x, y, z)
    ensures 0 <= Index(w, d, x, y, z) < w * h * d
  {
    var c := y * d + z;
    assert 0 <= c by { MulNonneg(y, d); }
    assert c < h * d by {
      MulMono(y, h - 1, d);
      assert (h - 1) * d == h * d - d;
    }
    MulNonneg(c, w);
    MulMono(c, h * d - 1, w);
    assert (h * d - 1) * w == h * d * w - w;
    assert h * d * w == w * h * d;
  }

  /** `getIndex` is a bijection from the in-bounds cells onto
      [0, width * height * depth): `Coords` undoes it on cells, and it
      undoes `Coords` on indices. */
  lemma IndexBijective(w: int, h: int, d: int, x: int, y: int, z: int)
    requires InBounds(w, h, d, x, y, z)
    ensures Coords(w, d, Index(w, d, x, y, z)) == (x, y, z)
  {
    var c := y * d + z;
    Mth.DivUnique(c * w + x, w, c, x);
    Mth.DivUnique(c, d, y, z);
  }

  lemma CoordsInBounds(w: int, h: int, d: int, i: int)
    requires w > 0 && h > 0 && d > 0 && 0 <= i < w * h * d
    ensures var (x, y, z) := Coords(w, d, i);
      InBounds(w, h, d, x, y, z) && Index(w, d, x, y, z) == i
  {
    var q := i / w;
    assert w * h * d == (h * d) * w;
    QuotientBelow(i, w, h * d);
    QuotientBelow(q, d, h);
    var y, z := q / d, q % d;
    assert y * d + z == q;
  }

  lemma QuotientBelow(i: int, w: int, n: int)
    requires w > 0 && 0 <= i < n * w
    ensures 0 <= i / w < n
  {
    if i / w >= n {
      MulMono(n, i / w, w);
    }
  }

  /** Distinct in-bounds cells have distinct indices. */
  lemma IndexInjective(w: int, h: int, d: int, x: int, y: int, z: int, x': int, y': int, z': int)
    requires InBounds(w, h, d, x, y, z) && InBounds(w, h, d, x', y', z')
    ensures Index(w, d, x, y, z) == Index(w, d, x', y', z') <==> (x, y, z) == (x', y', z')
  {
    IndexBijective(w, h, d, x, y, z);
    IndexBijective(w, h, d, x', y', z');
  }

  /** Cell (x, z) of the height map: `z * width + x`. */
  function ColumnIndex(w: int, x: int, z: int): int
  {
    z * w + x
  }

  lemma ColumnIndexRange(w: int, d: int, x: int, z: int)
    requires 0 <= x < w && 0 <= z < d
    ensures 0 <= ColumnIndex(w, x, z) < w * d
  {
    MulNonneg(z, w);
    MulMono(z, d - 1, w);
    assert (d - 1) * w == w * d - w;
  }

  lemma ColumnIndexInjective(w: int, d: int, x: int, z: int, x': int, z': int)
    requires 0 <= x < w && 0 <= z < d && 0 <= x' < w && 0 <= z' < d
    ensures ColumnIndex(w, x, z) == ColumnIndex(w, x', z') <==> (x, z) == (x', z')
  {
    if ColumnIndex(w, x, z) == ColumnIndex(w, x', z') {
      Mth.DivUnique(ColumnIndex(w, x, z), w, z, x);
      Mth.DivUnique(ColumnIndex(w, x', z'), w, z', x');
    }
  }

  // ---------------------------------------------------------------------
  // The height map
  // ---------------------------------------------------------------------

  /** A tile that blocks light: an id in 1..255 whose `lightBlock` is non-zero. */
  predicate Blocker(lightBlock: seq<int>, t: int)
    requires |lightBlock| == 256
  {
    0 < t < 256 && lightBlock[t] != 0
  }

  /** The tile of an in-bounds cell in a flat tile vector. */
  function At(cells: seq<int>, w: int, h: int, d: int, x: int, y: int, z: int): int
    requires |cells| == w * h * d && InBounds(w, h, d, x, y, z)
  {
    IndexRange(w, h, d, x, y, z);
    cells[Index(w, d, x, y, z)]
  }

  /** A flat tile vector with one in-bounds cell overwritten. */
  function Written(cells: seq<int>, w: int, h: int, d: int, x: int, y: int, z: int, t: int): (r: seq<int>)
    requires |cells| == w * h * d && InBounds(w, h, d, x, y, z)
    ensures |r| == |cells| && At(r, w, h, d, x, y, z) == t
    ensures forall x', y', z' :: InBounds(w, h, d, x', y', z') && (x', y', z') != (x, y, z) ==>
              At(r, w, h, d, x', y', z') == At(cells, w, h, d, x', y', z')
  {
    IndexRange(w, h, d, x, y, z);
    var i := Index(w, d, x, y, z);
    var r := cells[i := t];
    forall x', y', z' | InBounds(w, h, d, x', y', z') && (x', y', z') != (x, y, z)
      ensures At(r, w, h, d, x', y', z') == At(cells, w, h, d, x', y', z')
    {
      IndexInjective(w, h, d, x, y, z, x', y', z');
      IndexRange(w, h, d, x', y', z');
      var j := Index(w, d, x', y', z');
      assert j != i && r[j] == cells[j];
    }
    r
  }

  /** One above the highest light blocker of column (x, z) among the cells
      floor <= y < top, or 0 when there is none there. */
  function HeightIn(cells: seq<int>, lightBlock: seq<int>, w: int, h: int, d: int,
                    x: int, z: int, top: int, floor: nat): (r: int)
    requires |cells| == w * h * d && |lightBlock| == 256
    requires 0 <= x < w && 0 <= z < d && top <= h
    ensures r == 0 || (floor < r <= top && Blocker(lightBlock, At(cells, w, h, d, x, r - 1, z)))
    ensures forall y :: floor <= y < top && r <= y ==> !Blocker(lightBlock, At(cells, w, h, d, x, y, z))
    decreases top
  {
    if top <= floor then 0
    else if Blocker(lightBlock, At(cells, w, h, d, x, top - 1, z)) then top
    else HeightIn(cells, lightBlock, w, h, d, x, z, top - 1, floor)
  }

  /** A column height depends on that column's cells alone. */
  lemma {:induction false} HeightInFrame(cells: seq<int>, lightBlock: seq<int>, w: int, h: int, d: int,
                                         x: int, z: int, top: int, floor: nat, i: int, v: int)
    requires |cells| == w * h * d && |lightBlock| == 256
    requires 0 <= x < w && 0 <= z < d && top <= h && 0 <= i < |cells|
    requires forall y :: 0 <= y < h ==> Index(w, d, x, y, z) != i
    ensures HeightIn(cells[i := v], lightBlock, w, h, d, x, z, top, floor)
         == HeightIn(cells, lightBlock, w, h, d, x, z, top, floor)
    decreases top
  {
    if top > floor {
      IndexRange(w, h, d, x, top - 1, z);
      var j := Index(w, d, x, top - 1, z);
      assert j != i && cells[i := v][j] == cells[j];
      HeightInFrame(cells, lightBlock, w, h, d, x, z, top - 1, floor, i, v);
    }
  }

  /** `setTile`'s height-map shortcut, for a tile id in 0..255 written at
      height y of a column whose recorded height was right: placing a
      blocker above the recorded height makes the height y + 1; removing
      the highest blocker lowers the height, so a rescan is needed; in
      every other case the recorded height stays right. */
  lemma SetTileHeight(cells: seq<int>, lightBlock: seq<int>, w: int, h: int, d: int,
                      x: int, y: int, z: int, t: int)
    requires |cells| == w * h * d && |lightBlock| == 256 && InBounds(w, h, d, x, y, z) && 0 <= t < 256
    ensures var oldH := HeightIn(cells, lightBlock, w, h, d, x, z, h, 0);
      var newH := HeightIn(Written(cells, w, h, d, x, y, z, t), lightBlock, w, h, d, x, z, h, 0);
      var placed, removed := Blocker(lightBlock, t), Blocker(lightBlock, At(cells, w, h, d, x, y, z));
      if placed && y + 1 > oldH then newH == y + 1
      else if removed && !placed && y + 1 == oldH then newH <= y
      else newH == oldH
  {
    var cells' := Written(cells, w, h, d, x, y, z, t);
    var oldH := HeightIn(cells, lightBlock, w, h, d, x, z, h, 0);
    var newH := HeightIn(cells', lightBlock, w, h, d, x, z, h, 0);
  }

  /** The rescan as written stops above y = 0, so a column whose only
      blocker sits at y = 0 rescans to 0, while `setTile` placing that
      blocker on an empty column records 0 + 1 = 1. */
  lemma RescanSkipsFloor(cells: seq<int>, lightBlock: seq<int>, w: int, h: int, d: int, x: int, z: int, t: int)
    requires |cells| == w * h * d && |lightBlock| == 256 && 0 <= x < w && 0 <= z < d && h > 0
    requires HeightIn(cells, lightBlock, w, h, d, x, z, h, 0) == 0 && Blocker(lightBlock, t)
    ensures var cells' := Written(cells, w, h, d, x, 0, z, t);
      HeightIn(cells', lightBlock, w, h, d, x, z, h, 0) == 1
      && HeightIn(cells', lightBlock, w, h, d, x, z, h, 1) == 0
  {
    SetTileHeight(cells, lightBlock, w, h, d, x, 0, z, t);
    var cells' := Written(cells, w, h, d, x, 0, z, t);
  }

  /** The recorded height of column (x, z) in a height-map vector. */
  function HeightAtIn(heights: seq<int>, w: int, d: int, x: int, z: int): int
    requires |heights| == w * d && 0 <= x < w && 0 <= z < d
  {
    ColumnIndexRange(w, d, x, z);
    heights[ColumnIndex(w, x, z)]
  }

  /** A height-map vector with column (x, z) set to v. */
  function WithColumn(heights: seq<int>, w: int, d: int, x: int, z: int, v: int): (r: seq<int>)
    requires |heights| == w * d && 0 <= x < w && 0 <= z < d
    ensures |r| == |heights| && HeightAtIn(r, w, d, x, z) == v
  {
    ColumnIndexRange(w, d, x, z);
    heights[ColumnIndex(w, x, z) := v]
  }

  /** Every column's recorded height is what a full rescan finds. */
  ghost predicate HeightsOkIn(cells: seq<int>, heights: seq<int>, lightBlock: seq<int>, w: int, h: int, d: int)
    requires |cells| == w * h * d && |heights| == w * d && |lightBlock| == 256
  {
    forall x, z :: 0 <= x < w && 0 <= z < d ==>
      HeightAtIn(heights, w, d, x, z) == HeightIn(cells, lightBlock, w, h, d, x, z, h, 0)
  }

  /** Writing one cell and recording the rescanned height of its column
      keeps every column's height right: the other columns neither lose a
      cell nor have their entry touched. */
  lemma ColumnRewritten(cells: seq<int>, heights: seq<int>, lightBlock: seq<int>, w: int, h: int, d: int,
                        x: int, y: int, z: int, t: int, v: int)
    requires |cells| == w * h * d && |heights| == w * d && |lightBlock| == 256 && InBounds(w, h, d, x, y, z)
    requires HeightsOkIn(cells, heights, lightBlock, w, h, d)
    requires v == HeightIn(Written(cells, w, h, d, x, y, z, t), lightBlock, w, h, d, x, z, h, 0)
    ensures HeightsOkIn(Written(cells, w, h, d, x, y, z, t), WithColumn(heights, w, d, x, z, v), lightBlock, w, h, d)
  {
    IndexRange(w, h, d, x, y, z);
    ColumnIndexRange(w, d, x, z);
    var cells', heights' := Written(cells, w, h, d, x, y, z, t), WithColumn(heights, w, d, x, z, v);
    var i := Index(w, d, x, y, z);
    assert cells' == cells[i := t];
    forall x', z' | 0 <= x' < w && 0 <= z' < d && (x', z') != (x, z)
      ensures HeightAtIn(heights', w, d, x', z') == HeightIn(cells', lightBlock, w, h, d, x', z', h, 0)
    {
      ColumnIndexInjective(w, d, x, z, x', z');
      ColumnIndexRange(w, d, x', z');
      forall y' | 0 <= y' < h
        ensures Index(w, d, x', y', z') != i
      {
        IndexInjective(w, h, d, x, y, z, x', y', z');
      }
      HeightInFrame(cells, lightBlock, w, h, d, x', z', h, 0, i, t);
    }
  }

  /** The entry `setTile` leaves for the changed cell's column: y + 1 when
      a light blocker lands above the recorded height, the rescanned
      height when the column's highest blocker gives way to a
      non-blocker, and the recorded height otherwise. */
  function NewColumnHeight(lightBlock: seq<int>, oldTile: int, tileId: int, y: int, oldHeight: int, rescan: int): int
    requires |lightBlock| == 256
  {
    if Blocker(lightBlock, tileId) && y + 1 > oldHeight then y + 1
    else if Blocker(lightBlock, oldTile) && !Blocker(lightBlock, tileId) && y + 1 == oldHeight then rescan
    else oldHeight
  }

  /** The height map `setTile` maintains stays right: if every column was
      right before the cell changed, every column is right after the
      changed column takes `NewColumnHeight`. */
  lemma {:induction false} HeightFollows(cells: seq<int>, heights: seq<int>, lightBlock: seq<int>, w: int, h: int, d: int,
                                          x: int, y: int, z: int, t: int)
    requires |cells| == w * h * d && |heights| == w * d && |lightBlock| == 256
    requires InBounds(w, h, d, x, y, z) && 0 <= t < 256
    requires HeightsOkIn(cells, heights, lightBlock, w, h, d)
    ensures var cells' := Written(cells, w, h, d, x, y, z, t);
      var v := NewColumnHeight(lightBlock, At(cells, w, h, d, x, y, z), t, y, HeightAtIn(heights, w, d, x, z),
                               HeightIn(cells', lightBlock, w, h, d, x, z, h, 0));
      HeightsOkIn(cells', WithColumn(heights, w, d, x, z, v), lightBlock, w, h, d)
  {
    var cells' := Written(cells, w, h, d, x, y, z, t);
    SetTileHeight(cells, lightBlock, w, h, d, x, y, z, t);
    var v := NewColumnHeight(lightBlock, At(cells, w, h, d, x, y, z), t, y, HeightAtIn(heights, w, d, x, z),
                             HeightIn(cells', lightBlock, w, h, d, x, z, h, 0));
    ColumnRewritten(cells, heights, lightBlock, w, h, d, x, y, z, t, v);
  }

  // ---------------------------------------------------------------------
  // Brightness
  // ---------------------------------------------------------------------

  /** `brightnessRamp`: the brightness of each light level 0..15. */
  const Ramp: seq<real> := [0.05, 0.0672, 0.0859, 0.1072, 0.1323, 0.1622, 0.1988, 0.2441,
                            0.3014, 0.3753, 0.4729, 0.6063, 0.7969, 0.95, 0.95, 1.0]

  /** More light is never dimmer. */
  lemma RampMonotone(i: int, j: int)
    requires 0 <= i <= j < 16
    ensures Ramp[i] <= Ramp[j]
  {
  }

  /** `getSkyDarken`, given the celestial value `1 - (cos(2 pi t) * 2 + 0.5)`
      (the cosine of the time of day is outside the model): clamp it to
      [0, 1] and truncate eleven times it. */
  function SkyDarken(celestial: real): (r: int)
    ensures 0 <= r <= 11
    ensures celestial <= 0.0 ==> r == 0
    ensures celestial >= 1.0 ==> r == 11
  {
    var c := if celestial < 0.0 then 0.0 else if celestial > 1.0 then 1.0 else celestial;
    Mth.Trunc(c * 11.0)
  }

  /** A darker sky never gives a smaller darkening. */
  lemma SkyDarkenMonotone(c0: real, c1: real)
    requires c0 <= c1
    ensures SkyDarken(c0) <= SkyDarken(c1)
  {
    var a := if c0 < 0.0 then 0.0 else if c0 > 1.0 then 1.0 else c0;
    var b := if c1 < 0.0 then 0.0 else if c1 > 1.0 then 1.0 else c1;
    assert a * 11.0 <= b * 11.0;
  }

  /** `getSkyBrightness`: the ramp entry 15 - darkening. */
  function SkyBrightness(celestial: real): (r: real)
    ensures Ramp[4] <= r <= Ramp[15]
  {
    RampMonotone(4, 15 - SkyDarken(celestial));
    RampMonotone(15 - SkyDarken(celestial), 15);
    Ramp[15 - SkyDarken(celestial)]
  }

  /** The light level `getBrightness` looks up: sky light less the
      darkening (not below 0), or block light, whichever is more. */
  function LightLevel(sky: int, block: int, darken: int): (l: int)
    requires 0 <= sky <= 15 && 0 <= block <= 15 && darken >= 0
    ensures 0 <= l <= 15
    ensures l >= block && l >= sky - darken
    ensures l == block || l == sky - darken
  {
    var adjusted := if sky - darken < 0 then 0 else sky - darken;
    if adjusted > block then adjusted else block
  }

  // ---------------------------------------------------------------------
  // The level
  // ---------------------------------------------------------------------

  class Level {
    const width: int
    const height: int
    const depth: int
    /** `Tile::lightBlock` and `Tile::lightEmission`. */
    const lightBlock: seq<int>
    const lightEmission: seq<int>
    /** `blocks`, `skyLight`, `blockLight`: one byte per cell. */
    const blocks: array<int>
    const skyLight: array<int>
    const blockLight: array<int>
    /** `heightMap`: one entry per column. */
    const heightMap: array<int>

    /** Positive dimensions, the static tables' shapes, vectors of the
        level's size and tile ids that fit a byte. */
    ghost predicate Valid()
      reads this, blocks
    {
      width > 0 && height > 0 && depth > 0
      && |lightBlock| == 256 && |lightEmission| == 256
      && (forall t :: 0 <= t < 256 ==> 0 <= lightBlock[t] < 256)
      && (forall t :: 0 <= t < 256 ==> 0 <= lightEmission[t] <= 15)
      && blocks.Length == width * height * depth
      && skyLight.Length == blocks.Length && blockLight.Length == blocks.Length
      && heightMap.Length == width * depth
      && skyLight != blockLight && skyLight != blocks && blockLight != blocks
      && heightMap != blocks && heightMap != skyLight && heightMap != blockLight
      && (forall i :: 0 <= i < blocks.Length ==> 0 <= blocks[i] < 256)
    }

    /** Light values stay within 0..15, as `setBrightness` stores them. */
    ghost predicate LightsOk()
      reads this, skyLight, blockLight
    {
      (forall i :: 0 <= i < skyLight.Length ==> 0 <= skyLight[i] <= 15)
      && (forall i :: 0 <= i < blockLight.Length ==> 0 <= blockLight[i] <= 15)
    }

    /** The recorded height of every column is one above its highest light
        blocker, or 0. */
    ghost predicate HeightsOk()
      requires Valid()
      reads this, blocks, heightMap
    {
      HeightsOkIn(blocks[..], heightMap[..], lightBlock, width, height, depth)
    }

    /** The height a full rescan of column (x, z) finds. */
    ghost function Height(x: int, z: int): int
      requires Valid() && 0 <= x < width && 0 <= z < depth
      reads this, blocks
    {
      HeightIn(blocks[..], lightBlock, width, height, depth, x, z, height, 0)
    }

    /** The constructor: every vector zero-filled. */
    constructor (width: int, height: int, depth: int, lightBlock: seq<int>, lightEmission: seq<int>)
      requires width > 0 && height > 0 && depth > 0
      requires |lightBlock| == 256 && |lightEmission| == 256
      requires forall t :: 0 <= t < 256 ==> 0 <= lightBlock[t] < 256
      requires forall t :: 0 <= t < 256 ==> 0 <= lightEmission[t] <= 15
      ensures Valid() && LightsOk() && HeightsOk()
      ensures this.width == width && this.height == height && this.depth == depth
      ensures this.lightBlock == lightBlock && this.lightEmission == lightEmission
      ensures fresh(blocks) && fresh(skyLight) && fresh(blockLight) && fresh(heightMap)
      ensures forall x, y, z :: GetTile(x, y, z) == 0 && GetBlockLight(x, y, z) == 0
      ensures forall x, y, z :: InBounds(width, height, depth, x, y, z) ==> GetSkyLight(x, y, z) == 0
    {
      this.width, this.height, this.depth := width, height, depth;
      this.lightBlock, this.lightEmission := lightBlock, lightEmission;
      MulNonneg(width, height);
      MulNonneg(width * height, depth);
      MulNonneg(width, depth);
      var n := width * height * depth;
      blocks := new int[n](_ => 0);
      skyLight := new int[n](_ => 0);
      blockLight := new int[n](_ => 0);
      heightMap := new int[width * depth](_ => 0);
      new;
      forall x, y, z | InBounds(width, height, depth, x, y, z)
        ensures At(blocks[..], width, height, depth, x, y, z) == 0
        ensures GetBlockLight(x, y, z) == 0 && GetSkyLight(x, y, z) == 0
      {
        IndexRange(width, height, depth, x, y, z);
      }
      forall x, z | 0 <= x < width && 0 <= z < depth
        ensures HeightAtIn(heightMap[..], width, depth, x, z) == Height(x, z)
      {
        ColumnIndexRange(width, depth, x, z);
        assert Height(x, z) == 0;
      }
    }

    /** `getTile`: 0 outside the level. */
    function GetTile(x: int, y: int, z: int): (t: int)
      requires Valid()
      reads this, blocks
      ensures 0 <= t < 256
      ensures !InBounds(width, height, depth, x, y, z) ==> t == 0
      ensures InBounds(width, height, depth, x, y, z) ==> t == At(blocks[..], width, height, depth, x, y, z)
    {
      if !InBounds(width, height, depth, x, y, z) then 0
      else
        IndexRange(width, height, depth, x, y, z);
        blocks[Index(width, depth, x, y, z)]
    }

    /** `getSkyLight`: 15 outside the level. */
    function GetSkyLight(x: int, y: int, z: int): (l: int)
      requires Valid()
      reads this, blocks, skyLight
      ensures LightsOk() ==> 0 <= l <= 15
      ensures !InBounds(width, height, depth, x, y, z) ==> l == 15
    {
      if !InBounds(width, height, depth, x, y, z) then 15
      else
        IndexRange(width, height, depth, x, y, z);
        skyLight[Index(width, depth, x, y, z)]
    }

    /** `getBlockLight`: 0 outside the level. */
    function GetBlockLight(x: int, y: int, z: int): (l: int)
      requires Valid()
      reads this, blocks, blockLight
      ensures LightsOk() ==> 0 <= l <= 15
      ensures !InBounds(width, height, depth, x, y, z) ==> l == 0
    {
      if !InBounds(width, height, depth, x, y, z) then 0
      else
        IndexRange(width, height, depth, x, y, z);
        blockLight[Index(width, depth, x, y, z)]
    }

    /** `getHeightAt`: 0 outside the level. */
    function GetHeightAt(x: int, z: int): (r: int)
      requires Valid()
      reads this, blocks, heightMap
      ensures !(0 <= x < width && 0 <= z < depth) ==> r == 0
      ensures 0 <= x < width && 0 <= z < depth ==> r == HeightAtIn(heightMap[..], width, depth, x, z)
    {
      if x < 0 || x >= width || z < 0 || z >= depth then 0
      else
        ColumnIndexRange(width, depth, x, z);
        heightMap[ColumnIndex(width, x, z)]
    }

    /** `getBrightness`: the ramp at the light level of the cell under the
        darkening of `getSkyDarken`. */
    function GetBrightness(x: int, y: int, z: int, celestial: real): (r: real)
      requires Valid() && LightsOk()
      reads this, blocks, skyLight, blockLight
      ensures r == Ramp[LightLevel(GetSkyLight(x, y, z), GetBlockLight(x, y, z), SkyDarken(celestial))]
      ensures !InBounds(width, height, depth, x, y, z) ==> r == SkyBrightness(celestial)
    {
      var sky := GetSkyLight(x, y, z);
      var block := GetBlockLight(x, y, z);
      var adjusted := sky - SkyDarken(celestial);
      var adjusted' := if adjusted < 0 then 0 else adjusted;
      Ramp[if adjusted' > block then adjusted' else block]
    }

    /** `getBrightnessForChunk`: the same lookup in full daylight. */
    function GetBrightnessForChunk(x: int, y: int, z: int): (r: real)
      requires Valid() && LightsOk()
      reads this, blocks, skyLight, blockLight
      ensures r == Ramp[LightLevel(GetSkyLight(x, y, z), GetBlockLight(x, y, z), 0)]
    {
      var sky := GetSkyLight(x, y, z);
      var block := GetBlockLight(x, y, z);
      Ramp[if sky > block then sky else block]
    }

    /** A darker sky never makes a cell brighter, and chunk meshes, built
        in full daylight, see each cell at least as bright as the level does. */
    lemma BrightnessDarkens(x: int, y: int, z: int, c0: real, c1: real)
      requires Valid() && LightsOk() && c0 <= c1
      ensures GetBrightness(x, y, z, c1) <= GetBrightness(x, y, z, c0) <= GetBrightnessForChunk(x, y, z)
    {
      SkyDarkenMonotone(c0, c1);
      var sky, block := GetSkyLight(x, y, z), GetBlockLight(x, y, z);
      RampMonotone(LightLevel(sky, block, SkyDarken(c1)), LightLevel(sky, block, SkyDarken(c0)));
      RampMonotone(LightLevel(sky, block, SkyDarken(c0)), LightLevel(sky, block, 0));
    }

    /** `setTile`: out of bounds, or when the cell already holds `tileId`,
        nothing changes and the result is false. Otherwise the cell takes
        the tile id's low byte and the column's height-map entry becomes
        `NewColumnHeight`, which keeps the height map right. Light updates
        and listener notifications are outside the model. */
    method SetTile(x: int, y: int, z: int, tileId: int) returns (changed: bool)
      requires Valid()
      modifies blocks, heightMap
      ensures Valid()
      ensures changed <==> InBounds(width, height, depth, x, y, z) && old(GetTile(x, y, z)) != tileId
      ensures !changed ==> blocks[..] == old(blocks[..]) && heightMap[..] == old(heightMap[..])
      ensures changed ==>
                blocks[..] == Written(old(blocks[..]), width, height, depth, x, y, z, tileId % 256)
                && heightMap[..] == WithColumn(old(heightMap[..]), width, depth, x, z,
                     NewColumnHeight(lightBlock, old(GetTile(x, y, z)), tileId, y, old(GetHeightAt(x, z)), Height(x, z)))
      ensures 0 <= tileId < 256 && old(HeightsOk()) ==> HeightsOk()
    {
      if !InBounds(width, height, depth, x, y, z) {
        return false;
      }
      IndexRange(width, height, depth, x, y, z);
      var index := Index(width, depth, x, y, z);
      var oldTile := blocks[index];
      if oldTile == tileId {
        return false;
      }
      ghost var cells, heights := blocks[..], heightMap[..];
      blocks[index] := tileId % 256;
      assert forall i :: 0 <= i < blocks.Length ==> 0 <= blocks[i] < 256;
      assert blocks[..] == Written(cells, width, height, depth, x, y, z, tileId % 256);
      ColumnIndexRange(width, depth, x, z);
      var column := ColumnIndex(width, x, z);
      var oldHeight := heightMap[column];
      var oldBlocksLight := 0 < oldTile < 256 && lightBlock[oldTile] != 0;
      var newBlocksLight := 0 < tileId < 256 && lightBlock[tileId] != 0;
      if newBlocksLight && y + 1 > oldHeight {
        heightMap[column] := y + 1;
      } else if oldBlocksLight && !newBlocksLight && y + 1 == oldHeight {
        UpdateHeightMap(x, z);
      }
      assert heightMap[..] == WithColumn(heights, width, depth, x, z,
        NewColumnHeight(lightBlock, oldTile, tileId, y, oldHeight, Height(x, z)));
      if 0 <= tileId < 256 && old(HeightsOk()) {
        assert oldTile == At(cells, width, height, depth, x, y, z);
        assert oldHeight == HeightAtIn(heights, width, depth, x, z);
        assert tileId % 256 == tileId;
        HeightFollows(cells, heights, lightBlock, width, height, depth, x, y, z, tileId);
        assert HeightsOkIn(blocks[..], heightMap[..], lightBlock, width, height, depth);
      }
      changed := true;
    }

    /** `updateHeightMap`, scanning the column from the top down to y = 0:
        the column's entry becomes its rescanned height, and no other entry
        changes. */
    method UpdateHeightMap(x: int, z: int)
      requires Valid()
      modifies heightMap
      ensures Valid()
      ensures 0 <= x < width && 0 <= z < depth ==>
                heightMap[..] == WithColumn(old(heightMap[..]), width, depth, x, z, Height(x, z))
      ensures !(0 <= x < width && 0 <= z < depth) ==> heightMap[..] == old(heightMap[..])
    {
      if x < 0 || x >= width || z < 0 || z >= depth {
        return;
      }
      var newHeight := 0;
      var y := height - 1;
      while y >= 0
        invariant -1 <= y < height
        invariant Height(x, z) == HeightIn(blocks[..], lightBlock, width, height, depth, x, z, y + 1, 0)
      {
        var tileId := GetTile(x, y, z);
        var blockValue := if 0 < tileId < 256 then lightBlock[tileId] else 0;
        if blockValue != 0 {
          newHeight := y + 1;
          break;
        }
        y := y - 1;
      }
      ColumnIndexRange(width, depth, x, z);
      heightMap[ColumnIndex(width, x, z)] := newHeight;
    }

    /** `updateHeightMap` as written: the scan stops above y = 0, so a
        blocker at y = 0 is never found. */
    method UpdateHeightMapAsWritten(x: int, z: int)
      requires Valid()
      modifies heightMap
      ensures 0 <= x < width && 0 <= z < depth ==>
                heightMap[..] == WithColumn(old(heightMap[..]), width, depth, x, z,
                  HeightIn(blocks[..], lightBlock, width, height, depth, x, z, height, 1))
      ensures !(0 <= x < width && 0 <= z < depth) ==> heightMap[..] == old(heightMap[..])
    {
      if x < 0 || x >= width || z < 0 || z >= depth {
        return;
      }
      var newHeight := 0;
      var y := height - 1;
      while y > 0
        invariant 0 <= y < height
        invariant HeightIn(blocks[..], lightBlock, width, height, depth, x, z, height, 1)
               == HeightIn(blocks[..], lightBlock, width, height, depth, x, z, y + 1, 1)
      {
        var tileId := GetTile(x, y, z);
        var blockValue := if 0 < tileId < 256 then lightBlock[tileId] else 0;
        if blockValue != 0 {
          newHeight := y + 1;
          break;
        }
        y := y - 1;
      }
      ColumnIndexRange(width, depth, x, z);
      heightMap[ColumnIndex(width, x, z)] := newHeight;
    }
  }

  lemma MulNonneg(a: int, b: int)
    requires a >= 0 && b >= 0
    ensures a * b >= 0
  {
  }

  lemma MulMono(a: int, b: int, c: int)
    requires a <= b && c >= 0
    ensures a * c <= b * c
  {
    MulNonneg(b - a, c);
    assert (b - a) * c == b * c - a * c;
  }
}
