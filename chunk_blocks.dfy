/**
 * The block volume the Java world generators fill: one tile id per cell of
 * a 16 x 128 x 16 chunk, stored column by column, x then z, with y running
 * fastest. Tile ids follow the numbering of `Tile.hpp`, which the Java
 * tiles share.
 */
module ChunkBlocks {
  const Air: int := 0
  const Rock: int := 1
  const Grass: int := 2
  const Dirt: int := 3
  const Unbreakable: int := 7
  const Water: int := 8
  const CalmWater: int := 9
  const Lava: int := 10
  const CalmLava: int := 11
  const Sand: int := 12
  const Gravel: int := 13
  const Ice: int := 79
  const HellRock: int := 87
  const HellSand: int := 88

  /** Cells per chunk: `new byte[32768]`. */
  const Volume: int := 32768

  predicate InChunk(x: int, z: int, y: int)
  {
    0 <= x < 16 && 0 <= z < 16 && 0 <= y < 128
  }

  /** `(x * 16 + z) * 128 + y`: each in-chunk cell has its own slot. */
  function Index(x: int, z: int, y: int): (i: int)
    ensures InChunk(x, z, y) ==> 0 <= i < Volume
  {
    (x * 16 + z) * 128 + y
  }

  /** A slot splits back into its column, x * 16 + z, and its height. */
  lemma IndexSplits(x: int, z: int, y: int)
    requires InChunk(x, z, y)
    ensures Index(x, z, y) / 128 == x * 16 + z && Index(x, z, y) % 128 == y
  {
  }

  /** Distinct cells have distinct slots. */
  lemma IndexInjective(x: int, z: int, y: int, x': int, z': int, y': int)
    requires InChunk(x, z, y) && InChunk(x', z', y')
    requires Index(x, z, y) == Index(x', z', y')
    ensures x == x' && z == z' && y == y'
  {
    var c, c' := x * 16 + z, x' * 16 + z';
    IndexSplits(x, z, y);
    IndexSplits(x', z', y');
    assert c == c' && y == y';
    assert c / 16 == x && c % 16 == z;
    assert c' / 16 == x' && c' % 16 == z';
  }

  /** Every slot of the volume is the slot of an in-chunk cell. */
  lemma IndexOnto(i: int)
    requires 0 <= i < Volume
    ensures InChunk(i / 2048, i / 128 % 16, i % 128) && Index(i / 2048, i / 128 % 16, i % 128) == i
  {
    var c := i / 128;
    assert c / 16 == i / 2048;
    assert c == c / 16 * 16 + c % 16;
  }

  /** The slots of the cells of one column, bottom to top. */
  function Column(s: seq<int>, x: int, z: int): (c: seq<int>)
    requires |s| == Volume && 0 <= x < 16 && 0 <= z < 16
    ensures |c| == 128 && forall y :: 0 <= y < 128 ==> c[y] == s[Index(x, z, y)]
  {
    s[Index(x, z, 0)..Index(x, z, 0) + 128]
  }

  /** The cells x0 <= x < x1, z0 <= z < z1, y0 <= y < y1. */
  datatype Box = Box(x0: int, x1: int, z0: int, z1: int, y0: int, y1: int)

  predicate InBox(b: Box, x: int, z: int, y: int)
  {
    b.x0 <= x < b.x1 && b.z0 <= z < b.z1 && b.y0 <= y < b.y1
  }

  /** Slot n of the cell (x, z, y) gets tile v; every other cell keeps its
      tile. */
  method Put(blocks: array<int>, n: int, ghost x: int, ghost z: int, ghost y: int, v: int)
    requires blocks.Length == Volume && InChunk(x, z, y) && n == Index(x, z, y)
    modifies blocks
    ensures blocks[..] == old(blocks[..])[n := v]
    ensures forall x', z', y' :: InChunk(x', z', y') ==>
              blocks[Index(x', z', y')] == if x' == x && z' == z && y' == y then v else old(blocks[Index(x', z', y')])
  {
    blocks[n] := v;
    forall x', z', y' | InChunk(x', z', y') && !(x' == x && z' == z && y' == y)
      ensures Index(x', z', y') != n
    {
      if Index(x', z', y') == n {
        IndexInjective(x', z', y', x, z, y);
      }
    }
  }
}
