/**
 * A search node of the C++ port's path finder: fixed block coordinates
 * with a packed hash, and the mutable A* bookkeeping (heap position, the
 * costs g, h and f, the predecessor link and the closed flag). Costs are
 * `real`; the source uses floats.
 */
module PathNode {
  /** The 32-bit two's-complement pattern of an int, the value modulo
      2^32; a negative 32-bit value is the complement of the pattern of
      -1 - v. */
  function Bits(v: int): bv32
  {
    if 0 <= v < 0x1_0000_0000 then v as bv32
    else if -0x1_0000_0000 <= v < 0 then !((-1 - v) as bv32)
    else (v % 0x1_0000_0000) as bv32
  }

  /** `x | (y << 10) | (z << 20)` on 32-bit ints: x owns bits 0-9, y bits
      10-19 and z bits 20-31 only while each is small and non-negative;
      a negative coordinate sign-extends over the others' bits. */
  function Hash(x: int, y: int, z: int): bv32
  {
    Pack(Bits(x), Bits(y), Bits(z))
  }

  /** The packing itself, on bit patterns. */
  function Pack(a: bv32, b: bv32, c: bv32): bv32
  {
    a | (b << 10) | (c << 20)
  }

  /** The fields of a packed hash. */
  lemma PackFields(a: bv32, b: bv32, c: bv32)
    requires a < 1024 && b < 1024 && c < 4096
    ensures Pack(a, b, c) & 0x3FF == a
    ensures (Pack(a, b, c) >> 10) & 0x3FF == b
    ensures Pack(a, b, c) >> 20 == c
  {
  }

  /** Fields within 0 <= x, y < 1024 and 0 <= z < 4096 are told apart by
      the packed hash. */
  lemma PackInjective(a: bv32, b: bv32, c: bv32, a': bv32, b': bv32, c': bv32)
    requires a < 1024 && b < 1024 && c < 4096
    requires a' < 1024 && b' < 1024 && c' < 4096
    requires Pack(a, b, c) == Pack(a', b', c')
    ensures a == a' && b == b' && c == c'
  {
    PackFields(a, b, c);
    PackFields(a', b', c');
  }

  /** Outside that range different blocks share a hash: with x = -1 every
      bit is set whatever y and z are. */
  lemma NegativeXCollides()
    ensures Hash(-1, 1, 0) == Hash(-1, 2, 5) == 0xFFFF_FFFF
  {
    assert Bits(-1) == 0xFFFF_FFFF;
    assert Bits(0) == 0 && Bits(1) == 1 && Bits(2) == 2 && Bits(5) == 5;
  }

  /** The squared distance between two blocks. */
  function DistanceSquared(x: int, y: int, z: int, x': int, y': int, z': int): (d: real)
    ensures d >= 0.0
  {
    var dx, dy, dz := (x' - x) as real, (y' - y) as real, (z' - z) as real;
    dx * dx + dy * dy + dz * dz
  }

  /** The squared distance is symmetric and vanishes exactly between
      equal coordinates, so `distanceTo` (its square root) is symmetric
      and zero to itself. */
  lemma DistanceSymmetric(x: int, y: int, z: int, x': int, y': int, z': int)
    ensures DistanceSquared(x, y, z, x', y', z') == DistanceSquared(x', y', z', x, y, z)
    ensures DistanceSquared(x, y, z, x', y', z') == 0.0 <==> (x, y, z) == (x', y', z')
  {
    var dx, dy, dz := (x' - x) as real, (y' - y) as real, (z' - z) as real;
    assert (x - x') as real * (x - x') as real == dx * dx;
    assert (y - y') as real * (y - y') as real == dy * dy;
    assert (z - z') as real * (z - z') as real == dz * dz;
    if x != x' { SquarePositive(dx); }
    if y != y' { SquarePositive(dy); }
    if z != z' { SquarePositive(dz); }
  }

  lemma SquarePositive(d: real)
    requires d != 0.0
    ensures d * d > 0.0
  {
    if d < 0.0 {
      assert d * d == (-d) * (-d);
    }
  }

  class Node {
    const x: int
    const y: int
    const z: int
    const hash: bv32
    var heapIdx: int
    var g: real
    var h: real
    var f: real
    var cameFrom: Node?
    var closed: bool

    /** A new node is in no heap, has no costs, no predecessor and is open. */
    constructor (x: int, y: int, z: int)
      ensures this.x == x && this.y == y && this.z == z && hash == Hash(x, y, z)
      ensures heapIdx == -1 && g == 0.0 && h == 0.0 && f == 0.0
      ensures cameFrom == null && !closed
    {
      this.x, this.y, this.z := x, y, z;
      hash := Hash(x, y, z);
      heapIdx := -1;
      g, h, f := 0.0, 0.0, 0.0;
      cameFrom := null;
      closed := false;
    }

    /** `inOpenSet`. */
    predicate InOpenSet()
      reads this
    {
      heapIdx >= 0
    }

    /** `operator==`: nodes are equal when their hashes are. */
    predicate Equals(other: Node)
    {
      hash == other.hash
    }

    /** The squared `distanceTo`. */
    function DistanceSquaredTo(other: Node): real
    {
      DistanceSquared(x, y, z, other.x, other.y, other.z)
    }
  }
}
