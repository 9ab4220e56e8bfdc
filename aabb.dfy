/**
 * Axis-aligned bounding boxes of the C++ port: the value operations used
 * by collision (expand, grow, move, the intersection and containment
 * tests, the per-axis collision clipping) and the static pool of scratch
 * boxes handed out by `newTemp`. Coordinates are `real`; the source uses
 * doubles.
 */
module Aabb {
  /** A box from corner (x0, y0, z0) to corner (x1, y1, z1). */
  datatype Box = Box(x0: real, y0: real, z0: real, x1: real, y1: real, z1: real)

  function Max(a: real, b: real): real { if a >= b then a else b }
  function Min(a: real, b: real): real { if a <= b then a else b }

  /** `contains`: half-open on every axis. */
  predicate Contains(b: Box, x: real, y: real, z: real)
  {
    x >= b.x0 && x < b.x1 && y >= b.y0 && y < b.y1 && z >= b.z0 && z < b.z1
  }

  /** One box lies inside another (every face no further out). */
  predicate Inside(inner: Box, outer: Box)
  {
    outer.x0 <= inner.x0 && inner.x1 <= outer.x1
    && outer.y0 <= inner.y0 && inner.y1 <= outer.y1
    && outer.z0 <= inner.z0 && inner.z1 <= outer.z1
  }

  lemma InsideContains(inner: Box, outer: Box, x: real, y: real, z: real)
    requires Inside(inner, outer) && Contains(inner, x, y, z)
    ensures Contains(outer, x, y, z)
  {
  }

  /** `expand`: each axis grows on the side the motion points to. */
  function Expand(b: Box, dx: real, dy: real, dz: real): (r: Box)
    ensures Inside(b, r)
    ensures Inside(Move(b, dx, dy, dz), r)
    ensures r.x1 - r.x0 == (b.x1 - b.x0) + (if dx < 0.0 then -dx else dx)
    ensures r.y1 - r.y0 == (b.y1 - b.y0) + (if dy < 0.0 then -dy else dy)
    ensures r.z1 - r.z0 == (b.z1 - b.z0) + (if dz < 0.0 then -dz else dz)
  {
    Box(if dx < 0.0 then b.x0 + dx else b.x0,
        if dy < 0.0 then b.y0 + dy else b.y0,
        if dz < 0.0 then b.z0 + dz else b.z0,
        if dx > 0.0 then b.x1 + dx else b.x1,
        if dy > 0.0 then b.y1 + dy else b.y1,
        if dz > 0.0 then b.z1 + dz else b.z1)
  }

  /** `grow`: every face moves out by `amount`. */
  function Grow(b: Box, amount: real): (r: Box)
    ensures amount >= 0.0 ==> Inside(b, r)
    ensures amount <= 0.0 ==> Inside(r, b)
    ensures r.x1 - r.x0 == b.x1 - b.x0 + 2.0 * amount
    ensures r.y1 - r.y0 == b.y1 - b.y0 + 2.0 * amount
    ensures r.z1 - r.z0 == b.z1 - b.z0 + 2.0 * amount
    ensures (r.x0 + r.x1, r.y0 + r.y1, r.z0 + r.z1) == (b.x0 + b.x1, b.y0 + b.y1, b.z0 + b.z1)
  {
    Box(b.x0 - amount, b.y0 - amount, b.z0 - amount, b.x1 + amount, b.y1 + amount, b.z1 + amount)
  }

  /** `shrink(a)` is `grow(-a)`. */
  function Shrink(b: Box, amount: real): (r: Box)
    ensures amount >= 0.0 ==> Inside(r, b)
  {
    Grow(b, -amount)
  }

  /** Growing twice adds the amounts; shrinking undoes growing. */
  lemma GrowAdds(b: Box, u: real, v: real)
    ensures Grow(Grow(b, u), v) == Grow(b, u + v)
    ensures Shrink(Grow(b, u), u) == b
  {
  }

  /** `move`: both corners translate. */
  function Move(b: Box, dx: real, dy: real, dz: real): (r: Box)
    ensures r.x1 - r.x0 == b.x1 - b.x0 && r.y1 - r.y0 == b.y1 - b.y0 && r.z1 - r.z0 == b.z1 - b.z0
    ensures forall x, y, z {:trigger Contains(b, x, y, z)} ::
              Contains(b, x, y, z) <==> Contains(r, x + dx, y + dy, z + dz)
  {
    Box(b.x0 + dx, b.y0 + dy, b.z0 + dz, b.x1 + dx, b.y1 + dy, b.z1 + dz)
  }

  /** Moving back undoes a move. */
  lemma MoveInverse(b: Box, dx: real, dy: real, dz: real)
    ensures Move(Move(b, dx, dy, dz), -dx, -dy, -dz) == b
  {
  }

  /** `intersects`: the open boxes overlap; boxes that only touch do not. */
  predicate Intersects(b: Box, other: Box)
  {
    other.x1 > b.x0 && other.x0 < b.x1
    && other.y1 > b.y0 && other.y0 < b.y1
    && other.z1 > b.z0 && other.z0 < b.z1
  }

  /** `intersectsInclusive`: touching counts. */
  predicate IntersectsInclusive(b: Box, other: Box)
  {
    other.x1 >= b.x0 && other.x0 <= b.x1
    && other.y1 >= b.y0 && other.y0 <= b.y1
    && other.z1 >= b.z0 && other.z0 <= b.z1
  }

  /** A box with some extent along every axis. */
  predicate Proper(b: Box)
  {
    b.x0 < b.x1 && b.y0 < b.y1 && b.z0 < b.z1
  }

  /** The test is symmetric and implies the inclusive test. */
  lemma IntersectsSymmetric(a: Box, b: Box)
    ensures Intersects(a, b) <==> Intersects(b, a)
    ensures Intersects(a, b) ==> IntersectsInclusive(a, b)
  {
  }

  /** Two proper boxes intersect exactly when some point is contained in
      both. */
  lemma IntersectsMeansCommonPoint(a: Box, b: Box)
    requires Proper(a) && Proper(b)
    ensures Intersects(a, b) <==> exists x, y, z :: Contains(a, x, y, z) && Contains(b, x, y, z)
  {
    if Intersects(a, b) {
      var x, y, z := Max(a.x0, b.x0), Max(a.y0, b.y0), Max(a.z0, b.z0);
      assert Contains(a, x, y, z) && Contains(b, x, y, z);
    }
  }

  /** Moving both boxes alike does not change the test. */
  lemma IntersectsMoved(a: Box, b: Box, dx: real, dy: real, dz: real)
    ensures Intersects(Move(a, dx, dy, dz), Move(b, dx, dy, dz)) <==> Intersects(a, b)
  {
  }

  /** Boxes that share only a face do not intersect. */
  lemma TouchingDoNotIntersect(b: Box)
    ensures !Intersects(b, Move(b, b.x1 - b.x0, 0.0, 0.0))
    ensures IntersectsInclusive(b, Move(b, b.x1 - b.x0, 0.0, 0.0)) <==>
              (b.x0 <= b.x1 && b.y0 <= b.y1 && b.z0 <= b.z1)
  {
  }

  // ---------------------------------------------------------------------
  // Collision clipping
  // ---------------------------------------------------------------------

  /** The shared body of `clipXCollide`, `clipYCollide` and `clipZCollide`
      along one axis: this box spans [lo, hi], the moving one [olo, ohi]
      and wants to move by d. Motion towards this box is cut to the gap. */
  function Clip(lo: real, hi: real, olo: real, ohi: real, d: real): (r: real)
    ensures d >= 0.0 ==> 0.0 <= r <= d
    ensures d <= 0.0 ==> d <= r <= 0.0
    ensures d > 0.0 && ohi <= lo ==> ohi + r <= lo && (r == d || ohi + r == lo)
    ensures d < 0.0 && olo >= hi ==> olo + r >= hi && (r == d || olo + r == hi)
    ensures !(d > 0.0 && ohi <= lo) && !(d < 0.0 && olo >= hi) ==> r == d
  {
    var d1 := if d > 0.0 && ohi <= lo && lo - ohi < d then lo - ohi else d;
    if d1 < 0.0 && olo >= hi && hi - olo > d1 then hi - olo else d1
  }

  /** `clipXCollide`: how far `other` may move along x by `dx` before it
      runs into this box; without overlap in y and z, all of `dx`. */
  function ClipXCollide(b: Box, other: Box, dx: real): (r: real)
    ensures other.y1 <= b.y0 || other.y0 >= b.y1 || other.z1 <= b.z0 || other.z0 >= b.z1 ==> r == dx
    ensures dx >= 0.0 ==> 0.0 <= r <= dx
    ensures dx <= 0.0 ==> dx <= r <= 0.0
  {
    if other.y1 <= b.y0 || other.y0 >= b.y1 then dx
    else if other.z1 <= b.z0 || other.z0 >= b.z1 then dx
    else Clip(b.x0, b.x1, other.x0, other.x1, dx)
  }

  function ClipYCollide(b: Box, other: Box, dy: real): (r: real)
    ensures other.x1 <= b.x0 || other.x0 >= b.x1 || other.z1 <= b.z0 || other.z0 >= b.z1 ==> r == dy
    ensures dy >= 0.0 ==> 0.0 <= r <= dy
    ensures dy <= 0.0 ==> dy <= r <= 0.0
  {
    if other.x1 <= b.x0 || other.x0 >= b.x1 then dy
    else if other.z1 <= b.z0 || other.z0 >= b.z1 then dy
    else Clip(b.y0, b.y1, other.y0, other.y1, dy)
  }

  function ClipZCollide(b: Box, other: Box, dz: real): (r: real)
    ensures other.x1 <= b.x0 || other.x0 >= b.x1 || other.y1 <= b.y0 || other.y0 >= b.y1 ==> r == dz
    ensures dz >= 0.0 ==> 0.0 <= r <= dz
    ensures dz <= 0.0 ==> dz <= r <= 0.0
  {
    if other.x1 <= b.x0 || other.x0 >= b.x1 then dz
    else if other.y1 <= b.y0 || other.y0 >= b.y1 then dz
    else Clip(b.z0, b.z1, other.z0, other.z1, dz)
  }

  /** The point of clipping: a box that does not intersect this one still
      does not after moving by the clipped amount, and the clipped amount
      is either the whole motion or brings the boxes face to face. */
  lemma ClipXKeepsApart(b: Box, other: Box, dx: real)
    requires !Intersects(b, other)
    ensures var r := ClipXCollide(b, other, dx);
      !Intersects(b, Move(other, r, 0.0, 0.0))
      && (r == dx || other.x1 + r == b.x0 || other.x0 + r == b.x1)
  {
  }

  lemma ClipYKeepsApart(b: Box, other: Box, dy: real)
    requires !Intersects(b, other)
    ensures var r := ClipYCollide(b, other, dy);
      !Intersects(b, Move(other, 0.0, r, 0.0))
      && (r == dy || other.y1 + r == b.y0 || other.y0 + r == b.y1)
  {
  }

  lemma ClipZKeepsApart(b: Box, other: Box, dz: real)
    requires !Intersects(b, other)
    ensures var r := ClipZCollide(b, other, dz);
      !Intersects(b, Move(other, 0.0, 0.0, r))
      && (r == dz || other.z1 + r == b.z0 || other.z0 + r == b.z1)
  {
  }

  // ---------------------------------------------------------------------
  // The scratch pool
  // ---------------------------------------------------------------------

  const PoolSize := 1000

  /** The slot `newTemp` writes when the index is `i`. */
  function SlotAt(i: nat): nat
  {
    if i >= PoolSize then 0 else i
  }

  /** The pool index after `n` calls of `newTemp` starting from `i`. */
  function IndexAfter(i: nat, n: nat): nat
    decreases n
  {
    if n == 0 then i else IndexAfter(SlotAt(i) + 1, n - 1)
  }

  /** From a reset pool, call number `n` (counting from 0) writes slot
      `n % 1000`, so a box handed out stays valid for the next 999 calls
      and is overwritten by the 1000th. */
  lemma {:induction false} PoolWraps(n: nat)
    ensures SlotAt(IndexAfter(0, n)) == n % PoolSize
    ensures IndexAfter(0, n) == (if n == 0 then 0 else (n - 1) % PoolSize + 1)
  {
    if n > 0 {
      PoolWraps(n - 1);
      IndexAfterLast(0, n - 1);
      NextRemainder(n - 1);
    }
  }

  /** Counting one further either steps the remainder up or wraps it to 0. */
  lemma NextRemainder(m: nat)
    ensures (m + 1) % PoolSize == if m % PoolSize + 1 == PoolSize then 0 else m % PoolSize + 1
  {
    var q, r := m / PoolSize, m % PoolSize;
    assert m + 1 == q * PoolSize + (r + 1);
    if r + 1 == PoolSize {
      assert m + 1 == (q + 1) * PoolSize;
    }
  }

  lemma {:induction false} IndexAfterLast(i: nat, n: nat)
    ensures IndexAfter(i, n + 1) == SlotAt(IndexAfter(i, n)) + 1
    decreases n
  {
    if n > 0 {
      IndexAfterLast(SlotAt(i) + 1, n - 1);
    }
  }

  /** The static pool behind `newTemp`; a returned box is its index. */
  class Pool {
    const boxes: array<Box>
    var poolIndex: nat

    ghost predicate Valid()
      reads this
    {
      boxes.Length == PoolSize && poolIndex <= PoolSize
    }

    constructor ()
      ensures Valid() && fresh(boxes) && poolIndex == 0
      ensures forall k :: 0 <= k < PoolSize ==> boxes[k] == Box(0.0, 0.0, 0.0, 0.0, 0.0, 0.0)
    {
      boxes := new Box[PoolSize](_ => Box(0.0, 0.0, 0.0, 0.0, 0.0, 0.0));
      poolIndex := 0;
    }

    /** `newTemp`: wraps to slot 0 once every slot has been handed out,
        overwrites that slot and returns it. */
    method NewTemp(x0: real, y0: real, z0: real, x1: real, y1: real, z1: real) returns (k: nat)
      requires Valid()
      modifies this, boxes
      ensures Valid()
      ensures k == SlotAt(old(poolIndex)) && k < PoolSize
      ensures poolIndex == k + 1 == IndexAfter(old(poolIndex), 1)
      ensures boxes[..] == old(boxes[..])[k := Box(x0, y0, z0, x1, y1, z1)]
    {
      if poolIndex >= PoolSize {
        poolIndex := 0;
      }
      boxes[poolIndex] := Box(x0, y0, z0, x1, y1, z1);
      k := poolIndex;
      poolIndex := poolIndex + 1;
    }

    /** `resetPool`. */
    method ResetPool()
      requires Valid()
      modifies this
      ensures Valid() && poolIndex == 0 && boxes[..] == old(boxes[..])
    {
      poolIndex := 0;
    }
  }
}
