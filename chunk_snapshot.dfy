/**
 * The C++ port's `ChunkSnapshot`: a copy of a 16 x 16 x 16 chunk of the
 * level plus a one-cell margin on every side (18 x 18 x 18 cells, local
 * coordinates -1..16), taken so that chunk meshes can be built without
 * reading the level.
 *
 * Block metadata (`Level::getData`) is not part of the level model, so the
 * snapshot's metadata array is left out.
 */
module ChunkSnapshot {
  import Level

  /** `uint8_t`, the type of every snapshot cell. */
  newtype UInt8 = x: int | 0 <= x < 256

  /** `SNAPSHOT_SIZE` and `VOLUME`. */
  const Size := 18
  const Volume := 5832

  /** Local coordinates -1..16 on every axis. */
  predicate InSnapshot(lx: int, ly: int, lz: int)
  {
    -1 <= lx <= 16 && -1 <= ly <= 16 && -1 <= lz <= 16
  }

  /** `getIndex`: shift each coordinate by one and lay the cube out with x
      fastest, then z, then y, as the level does. */
  function GetIndex(lx: int, ly: int, lz: int): int
  {
    ((ly + 1) * Size + (lz + 1)) * Size + (lx + 1)
  }

  /** `getIndex` is the level's indexing on an 18-cube, so it maps the
      snapshot's cells one to one onto [0, 5832). */
  lemma IndexInRange(lx: int, ly: int, lz: int)
    requires InSnapshot(lx, ly, lz)
    ensures 0 <= GetIndex(lx, ly, lz) < Volume
    ensures Level.Coords(Size, Size, GetIndex(lx, ly, lz)) == (lx + 1, ly + 1, lz + 1)
  {
    assert GetIndex(lx, ly, lz) == Level.Index(Size, Size, lx + 1, ly + 1, lz + 1);
    Level.IndexRange(Size, Size, Size, lx + 1, ly + 1, lz + 1);
    Level.IndexBijective(Size, Size, Size, lx + 1, ly + 1, lz + 1);
  }

  lemma IndexInjective(lx: int, ly: int, lz: int, lx': int, ly': int, lz': int)
    requires InSnapshot(lx, ly, lz) && InSnapshot(lx', ly', lz')
    ensures GetIndex(lx, ly, lz) == GetIndex(lx', ly', lz') <==> (lx, ly, lz) == (lx', ly', lz')
  {
    IndexInRange(lx, ly, lz);
    IndexInRange(lx', ly', lz');
  }

  class ChunkSnapshot {
    const blocks: array<UInt8>
    const skyLight: array<UInt8>
    const blockLight: array<UInt8>
    var baseX: int
    var baseY: int
    var baseZ: int

    ghost predicate Valid()
      reads this
    {
      blocks.Length == Volume && skyLight.Length == Volume && blockLight.Length == Volume
      && blocks != skyLight && blocks != blockLight && skyLight != blockLight
    }

    /** The constructor: no tiles, full sky light, no block light. */
    constructor ()
      ensures Valid() && baseX == 0 && baseY == 0 && baseZ == 0
      ensures forall lx, ly, lz :: GetTile(lx, ly, lz) == 0 && GetSkyLight(lx, ly, lz) == 15 && GetBlockLight(lx, ly, lz) == 0
    {
      baseX, baseY, baseZ := 0, 0, 0;
      blocks := new UInt8[Volume](_ => 0);
      skyLight := new UInt8[Volume](_ => 15);
      blockLight := new UInt8[Volume](_ => 0);
      new;
      forall lx, ly, lz | InSnapshot(lx, ly, lz)
        ensures GetTile(lx, ly, lz) == 0 && GetSkyLight(lx, ly, lz) == 15 && GetBlockLight(lx, ly, lz) == 0
      {
        IndexInRange(lx, ly, lz);
      }
    }

    /** `getTile`: air outside the snapshot. */
    function GetTile(lx: int, ly: int, lz: int): UInt8
      requires Valid()
      reads this, blocks
    {
      if !InSnapshot(lx, ly, lz) then 0
      else
        IndexInRange(lx, ly, lz);
        blocks[GetIndex(lx, ly, lz)]
    }

    /** `getSkyLight`: full sky light outside the snapshot. */
    function GetSkyLight(lx: int, ly: int, lz: int): UInt8
      requires Valid()
      reads this, skyLight
    {
      if !InSnapshot(lx, ly, lz) then 15
      else
        IndexInRange(lx, ly, lz);
        skyLight[GetIndex(lx, ly, lz)]
    }

    /** `getBlockLight`: no block light outside the snapshot. */
    function GetBlockLight(lx: int, ly: int, lz: int): UInt8
      requires Valid()
      reads this, blockLight
    {
      if !InSnapshot(lx, ly, lz) then 0
      else
        IndexInRange(lx, ly, lz);
        blockLight[GetIndex(lx, ly, lz)]
    }

    /** `isTransparent`: air is transparent, and any other tile is as its
        entry in `transparent` says (`Tile::tiles[id]` missing or marked
        transparent). */
    function IsTransparent(transparent: seq<bool>, lx: int, ly: int, lz: int): (r: bool)
      requires Valid() && |transparent| == 256
      reads this, blocks
      ensures GetTile(lx, ly, lz) == 0 ==> r
      ensures !InSnapshot(lx, ly, lz) ==> r
      ensures GetTile(lx, ly, lz) != 0 ==> r == transparent[GetTile(lx, ly, lz)]
    {
      var tileId := GetTile(lx, ly, lz);
      tileId == 0 || transparent[tileId]
    }

    /** Cell i of the snapshot, holding tile t, sky light sky and block
        light bl, agrees with the level at the world cell it stands for:
        the chunk corner plus its local coordinates. */
    ghost predicate Matches(level: Level.Level, cx: int, cy: int, cz: int, i: int, t: UInt8, sky: UInt8, bl: UInt8)
      requires level.Valid()
      reads level, level.blocks, level.skyLight, level.blockLight
    {
      var (sx, sy, sz) := Level.Coords(Size, Size, i);
      var wx, wy, wz := cx + sx - 1, cy + sy - 1, cz + sz - 1;
      t as int == level.GetTile(wx, wy, wz)
      && sky as int == level.GetSkyLight(wx, wy, wz)
      && bl as int == level.GetBlockLight(wx, wy, wz)
    }

    /** The first k cells of the snapshot agree with the level. */
    ghost predicate Captured(level: Level.Level, cx: int, cy: int, cz: int, k: int)
      requires Valid() && level.Valid() && k <= Volume
      reads this, blocks, skyLight, blockLight, level, level.blocks, level.skyLight, level.blockLight
    {
      forall i :: 0 <= i < k ==> Matches(level, cx, cy, cz, i, blocks[i], skyLight[i], blockLight[i])
    }

    /** `capture`: every cell of the snapshot takes the tile, sky light and
        block light of its world cell; a world cell outside the level is
        read as air with full sky light, which is what the level's getters
        give there. */
    method Capture(level: Level.Level, chunkX: int, chunkY: int, chunkZ: int)
      requires Valid() && level.Valid() && level.LightsOk()
      modifies this, blocks, skyLight, blockLight
      ensures Valid() && baseX == chunkX && baseY == chunkY && baseZ == chunkZ
      ensures forall lx, ly, lz :: InSnapshot(lx, ly, lz) ==>
                GetTile(lx, ly, lz) as int == level.GetTile(chunkX + lx, chunkY + ly, chunkZ + lz)
                && GetSkyLight(lx, ly, lz) as int == level.GetSkyLight(chunkX + lx, chunkY + ly, chunkZ + lz)
                && GetBlockLight(lx, ly, lz) as int == level.GetBlockLight(chunkX + lx, chunkY + ly, chunkZ + lz)
      ensures forall lx, ly, lz ::
                (InSnapshot(lx, ly, lz)
                 && !Level.InBounds(level.width, level.height, level.depth, chunkX + lx, chunkY + ly, chunkZ + lz)) ==>
                  GetTile(lx, ly, lz) == 0 && GetSkyLight(lx, ly, lz) == 15 && GetBlockLight(lx, ly, lz) == 0
    {
      baseX, baseY, baseZ := chunkX, chunkY, chunkZ;
      for ly := -1 to 17
        invariant Valid() && baseX == chunkX && baseY == chunkY && baseZ == chunkZ
        invariant Captured(level, chunkX, chunkY, chunkZ, (ly + 1) * 324)
      {
        for lz := -1 to 17
          invariant Valid() && baseX == chunkX && baseY == chunkY && baseZ == chunkZ
          invariant Captured(level, chunkX, chunkY, chunkZ, (ly + 1) * 324 + (lz + 1) * 18)
        {
          for lx := -1 to 17
            invariant Valid() && baseX == chunkX && baseY == chunkY && baseZ == chunkZ
            invariant Captured(level, chunkX, chunkY, chunkZ, (ly + 1) * 324 + (lz + 1) * 18 + lx + 1)
          {
            CaptureCell(level, lx, ly, lz);
          }
        }
      }
      forall lx, ly, lz | InSnapshot(lx, ly, lz)
        ensures GetTile(lx, ly, lz) as int == level.GetTile(chunkX + lx, chunkY + ly, chunkZ + lz)
        ensures GetSkyLight(lx, ly, lz) as int == level.GetSkyLight(chunkX + lx, chunkY + ly, chunkZ + lz)
        ensures GetBlockLight(lx, ly, lz) as int == level.GetBlockLight(chunkX + lx, chunkY + ly, chunkZ + lz)
      {
        IndexInRange(lx, ly, lz);
        var i := GetIndex(lx, ly, lz);
        assert Matches(level, chunkX, chunkY, chunkZ, i, blocks[i], skyLight[i], blockLight[i]);
      }
    }

    /** One step of `capture`: the cell at local (lx, ly, lz), the next
        one in index order, takes its world cell's values. */
    method CaptureCell(level: Level.Level, lx: int, ly: int, lz: int)
      requires Valid() && level.Valid() && level.LightsOk() && InSnapshot(lx, ly, lz)
      requires Captured(level, baseX, baseY, baseZ, GetIndex(lx, ly, lz))
      modifies blocks, skyLight, blockLight
      ensures Valid()
      ensures Captured(level, baseX, baseY, baseZ, GetIndex(lx, ly, lz) + 1)
    {
      var wx, wy, wz := baseX + lx, baseY + ly, baseZ + lz;
      IndexInRange(lx, ly, lz);
      var idx := GetIndex(lx, ly, lz);
      var t, sky, bl;
      if Level.InBounds(level.width, level.height, level.depth, wx, wy, wz) {
        t, sky, bl := level.GetTile(wx, wy, wz) as UInt8, level.GetSkyLight(wx, wy, wz) as UInt8,
                      level.GetBlockLight(wx, wy, wz) as UInt8;
      } else {
        t, sky, bl := 0, 15, 0;
      }
      assert Matches(level, baseX, baseY, baseZ, idx, t, sky, bl);
      blocks[idx] := t;
      skyLight[idx] := sky;
      blockLight[idx] := bl;
    }
  }
}
