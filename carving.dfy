/**
 * What the two worm carvers (`CanyonFeature` and `LargeHellCaveFeature`)
 * share: the start of `addTunnel`, which fixes a tunnel's step budget, its
 * first step and its branch point; the box a segment may touch, clamped
 * into the chunk; the scan of that box's shell for liquid, which vetoes a
 * segment; and the ellipsoid a segment carves.
 */
module Carving {
  import opened ChunkBlocks
  import Rng

  /** `(float) Math.PI`. */
  const Pi: real := 3.1415927

  /** The lowest and highest height a segment's box may reach. */
  const Lowest: int := 1
  const Highest: int := 120

  /** The budget a tunnel gets when it is given none: `radius * 16 - 16`
      less a draw below a quarter of that. */
  function Reach(radius: int): int
  {
    radius * 16 - 16
  }

  /** The start of `addTunnel`, on the tunnel's own generator: a budget
      of at most zero is replaced by `Reach(radius)` less a draw; a start
      of -1 marks a seed call (a room), which starts at the middle of the
      budget; then the branch point and whether the pitch decays slowly
      are drawn. */
  method Plan(rnd: Rng.Random, radius: int, budget: int, start: int)
      returns (steps: int, first: int, seeded: bool, branchAt: int, steep: bool)
    requires radius >= 2 && (budget <= 0 || budget >= 2)
    modifies rnd`drawn
    ensures steps == if budget <= 0 then Reach(radius) - Rng.IntAt(rnd.raw, rnd.seed, old(rnd.drawn), Reach(radius) / 4) else budget
    ensures steps >= 2
    ensures seeded <==> start == -1
    ensures first == if seeded then steps / 2 else start
    ensures var k := old(rnd.drawn) + (if budget <= 0 then 1 else 0);
            rnd.drawn == k + 2
            && branchAt == Rng.IntAt(rnd.raw, rnd.seed, k, steps / 2) + steps / 4
            && (steep <==> Rng.IntAt(rnd.raw, rnd.seed, k + 1, 6) == 0)
    ensures steps / 4 <= branchAt < steps / 4 + steps / 2
  {
    steps := budget;
    if steps <= 0 {
      var r := Reach(radius);
      var d := rnd.NextInt(r / 4);
      steps := r - d;
    }
    seeded := false;
    first := start;
    if first == -1 {
      first := steps / 2;
      seeded := true;
    }
    var d := rnd.NextInt(steps / 2);
    branchAt := d + steps / 4;
    d := rnd.NextInt(6);
    steep := d == 0;
  }

  /** The cells x0 <= x < x1, z0 <= z < z1 of a segment's box at heights
      y0 <= y <= y1. */
  predicate Spans(b: Box, x: int, z: int, y: int)
  {
    b.x0 <= x < b.x1 && b.z0 <= z < b.z1 && b.y0 <= y <= b.y1
  }

  /** The box a segment may touch: the box around the ellipsoid cut down
      to the chunk's columns and to heights 1 to 120. */
  function Clamp(raw: Box): (b: Box)
    ensures forall x, z, y :: Spans(b, x, z, y) <==> Spans(raw, x, z, y) && 0 <= x < 16 && 0 <= z < 16 && Lowest <= y <= Highest
    ensures 0 <= b.x0 && b.x1 <= 16 && 0 <= b.z0 && b.z1 <= 16 && Lowest <= b.y0 && b.y1 <= Highest
  {
    Box(if raw.x0 < 0 then 0 else raw.x0, if raw.x1 > 16 then 16 else raw.x1,
        if raw.z0 < 0 then 0 else raw.z0, if raw.z1 > 16 then 16 else raw.z1,
        if raw.y0 < Lowest then Lowest else raw.y0, if raw.y1 > Highest then Highest else raw.y1)
  }

  /** Whether column (x, z) lies on the rim of box b. */
  predicate Rim(b: Box, x: int, z: int)
  {
    x == b.x0 || x == b.x1 - 1 || z == b.z0 || z == b.z1 - 1
  }

  /** The cells the liquid scan reads: every height from y0 - 1 to y1 + 1
      of the rim columns, and only the layers y1 + 1 and y0 - 1 of the
      columns inside. */
  predicate Shell(b: Box, x: int, z: int, y: int)
  {
    InChunk(x, z, y) && b.x0 <= x < b.x1 && b.z0 <= z < b.z1 && b.y0 - 1 <= y <= b.y1 + 1
    && (Rim(b, x, z) || y == b.y1 + 1 || y == b.y0 - 1)
  }

  /** Whether a shell cell of chunk s holds liquid a or c. */
  ghost predicate Flooded(s: seq<int>, b: Box, a: int, c: int)
    requires |s| == Volume
  {
    exists x, z, y :: Shell(b, x, z, y) && (s[Index(x, z, y)] == a || s[Index(x, z, y)] == c)
  }

  /** The liquid scan: columns x-major, heights from y1 + 1 down, jumping
      over the inside of the columns inside; it stops at the first liquid
      cell. */
  method FindLiquid(blocks: array<int>, b: Box, a: int, c: int) returns (found: bool)
    requires blocks.Length == Volume && 0 <= b.x0 && b.x1 <= 16 && 0 <= b.z0 && b.z1 <= 16 && Lowest <= b.y0 && b.y1 <= Highest
    ensures found <==> Flooded(blocks[..], b, a, c)
  {
    found := false;
    var x := b.x0;
    while !found && x < b.x1
      invariant b.x0 <= x && (x <= b.x1 || x == b.x0)
      invariant found ==> Flooded(blocks[..], b, a, c)
      invariant !found ==> forall x', z', y' :: Shell(b, x', z', y') && x' < x ==>
                             blocks[Index(x', z', y')] != a && blocks[Index(x', z', y')] != c
      decreases b.x1 - x
    {
      var z := b.z0;
      while !found && z < b.z1
        invariant b.z0 <= z && (z <= b.z1 || z == b.z0)
        invariant found ==> Flooded(blocks[..], b, a, c)
        invariant !found ==> forall x', z', y' :: Shell(b, x', z', y') && (x' < x || (x' == x && z' < z)) ==>
                               blocks[Index(x', z', y')] != a && blocks[Index(x', z', y')] != c
        decreases b.z1 - z
      {
        var y := b.y1 + 1;
        while !found && y >= b.y0 - 1
          invariant b.y0 - 2 <= y <= b.y1 + 1 || y == b.y1 + 1
          invariant !Rim(b, x, z) ==> y == b.y1 + 1 || y <= b.y0 - 1
          invariant found ==> Flooded(blocks[..], b, a, c)
          invariant !found ==> forall x', z', y' :: Shell(b, x', z', y') && (x' < x || (x' == x && (z' < z || (z' == z && y' > y)))) ==>
                                 blocks[Index(x', z', y')] != a && blocks[Index(x', z', y')] != c
          decreases y - b.y0 + 2
        {
          if 0 <= y < 128 {
            var n := (x * 16 + z) * 128 + y;
            if blocks[n] == a || blocks[n] == c {
              assert Shell(b, x, z, y);
              found := true;
            }
            if y != b.y0 - 1 && x != b.x0 && x != b.x1 - 1 && z != b.z0 && z != b.z1 - 1 {
              y := b.y0;
            }
          }
          y := y - 1;
        }
        z := z + 1;
      }
      x := x + 1;
    }
  }

  /** Step `step` of `steps` sits on the half turn the sine swells a
      tunnel by. */
  lemma HalfTurn(step: int, steps: int)
    requires 0 <= step < steps
    ensures 0.0 <= step as real * Pi / steps as real < Pi
  {
    var a, b := step as real, steps as real;
    assert a * Pi < b * Pi;
    assert a * Pi / b < b * Pi / b;
  }

  /** Over the half turn the radii stay positive. */
  lemma Swell(r: real, s: real, thickness: real, yScale: real)
    requires s >= 0.0 && thickness >= 0.0 && yScale > 0.0 && r == 1.5 + s * thickness * 1.0
    ensures r > 0.0 && r * yScale > 0.0
  {
    assert s * thickness >= 0.0;
  }

  /** Where a segment cuts: the centre and the horizontal and vertical
      radii of its ellipsoid. */
  datatype Ellipsoid = Ellipsoid(x: real, y: real, z: real, r: real, ry: real)

  /** Cell p's offset from centre c, in radii r: from the cell's middle. */
  function Offset(p: int, c: real, r: real): real
    requires r > 0.0
  {
    (p as real + 0.5 - c) / r
  }

  /** Whether cell (x, z, y) of chunk (chunkX, chunkZ) is cut: inside the
      ellipsoid, but not in its bottom 30 percent. */
  predicate Inside(e: Ellipsoid, chunkX: int, chunkZ: int, x: int, z: int, y: int)
    requires e.r > 0.0 && e.ry > 0.0
  {
    var dx, dz, dy := Offset(x + chunkX * 16, e.x, e.r), Offset(z + chunkZ * 16, e.z, e.r), Offset(y, e.y, e.ry);
    dy > -0.7 && Norm(dx, dy, dz) < 1.0
  }

  /** The squared length of offset (dx, dy, dz). */
  function Norm(dx: real, dy: real, dz: real): real
  {
    dx * dx + dy * dy + dz * dz
  }
}
