/**
 * The C++ port's `HitResult`: what a ray pick hit (nothing, a tile face or
 * an entity), and the two static helpers over block faces.
 */
module HitResults {
  import opened Wrappers

  /** What a pick hit (`NONE`, `TILE`, `ENTITY`). */
  datatype HitType = NoHit | Tile | Entity

  /** The six block faces, in the order of their enumerator values 0..5. */
  datatype Direction = Down | Up | North | South | West | East

  /** An integer direction vector (the source returns it as a `Vec3`). */
  datatype Vec = Vec(x: int, y: int, z: int)

  /** The exact hit location; only carried, never inspected. */
  datatype Location = Location(x: real, y: real, z: real)

  /** A pick result. Entities are referred to by an opaque id. */
  datatype HitResult = HitResult(
    kind: HitType, x: int, y: int, z: int, face: Direction,
    location: Location, entity: Option<nat>)
  {
    predicate IsTile() { kind == Tile }
    predicate IsEntity() { kind == Entity }
    predicate IsMiss() { kind == NoHit }
  }

  /** The default constructor: a miss facing up at the origin. */
  function Miss(): (h: HitResult)
    ensures h.IsMiss() && !h.IsTile() && !h.IsEntity()
    ensures h.x == 0 && h.y == 0 && h.z == 0 && h.face == Up && h.entity == None
  {
    HitResult(NoHit, 0, 0, 0, Up, Location(0.0, 0.0, 0.0), None)
  }

  /** The tile constructor: records the block and the face that was hit. */
  function TileHit(x: int, y: int, z: int, face: Direction, location: Location): (h: HitResult)
    ensures h.IsTile() && !h.IsMiss() && !h.IsEntity()
    ensures h.x == x && h.y == y && h.z == z && h.face == face && h.location == location
    ensures h.entity == None
  {
    HitResult(Tile, x, y, z, face, location, None)
  }

  /** The entity constructor: block coordinates are zero and the face is up. */
  function EntityHit(entity: nat): (h: HitResult)
    ensures h.IsEntity() && !h.IsMiss() && !h.IsTile()
    ensures h.entity == Some(entity) && h.x == 0 && h.y == 0 && h.z == 0 && h.face == Up
  {
    HitResult(Entity, 0, 0, 0, Up, Location(0.0, 0.0, 0.0), Some(entity))
  }

  /** `getDirectionVec`: the outward unit normal of a face. */
  function DirectionVec(d: Direction): Vec
  {
    match d
    case Down => Vec(0, -1, 0)
    case Up => Vec(0, 1, 0)
    case North => Vec(0, 0, -1)
    case South => Vec(0, 0, 1)
    case West => Vec(-1, 0, 0)
    case East => Vec(1, 0, 0)
  }

  /** `getOpposite`: the face on the other side of the block. */
  function Opposite(d: Direction): Direction
  {
    match d
    case Down => Up
    case Up => Down
    case North => South
    case South => North
    case West => East
    case East => West
  }

  function Neg(v: Vec): Vec { Vec(-v.x, -v.y, -v.z) }

  /** A vector with exactly one non-zero coordinate, which is 1 or -1. */
  predicate IsUnitAxis(v: Vec)
  {
    Abs(v.x) + Abs(v.y) + Abs(v.z) == 1
  }

  function Abs(n: int): nat { if n < 0 then -n else n }

  /** Taking the opposite twice gives the face back, and no face is its own opposite. */
  lemma OppositeInvolution(d: Direction)
    ensures Opposite(Opposite(d)) == d
    ensures Opposite(d) != d
  {
  }

  /** The opposite face has the negated normal. */
  lemma OppositeNegatesVector(d: Direction)
    ensures DirectionVec(Opposite(d)) == Neg(DirectionVec(d))
  {
    match d
    case Down =>
    case Up =>
    case North =>
    case South =>
    case West =>
    case East =>
  }

  /** Every normal is a unit vector along one axis. */
  lemma DirectionVecUnit(d: Direction)
    ensures IsUnitAxis(DirectionVec(d))
  {
    match d
    case Down =>
    case Up =>
    case North =>
    case South =>
    case West =>
    case East =>
  }

  /** Distinct faces have distinct normals, so a normal identifies its face. */
  lemma DirectionVecInjective(d: Direction, e: Direction)
    ensures DirectionVec(d) == DirectionVec(e) <==> d == e
  {
  }
}
