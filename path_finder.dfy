/**
 * The C++ port's A* path finder: it walks a block grid from a start node
 * towards a goal, creating search nodes on demand, and rebuilds the found
 * path from the predecessor links.
 */
module PathFinder {
  import opened Wrappers
  import opened PathNode
  import opened BinaryHeap
  import opened Path
  import Mth

  /** `Tile::WATER`, `Tile::STILL_WATER`, `Tile::LAVA`, `Tile::STILL_LAVA`. */
  const Water := 8
  const StillWater := 9
  const Lava := 10
  const StillLava := 11

  /** The blocks the finder looks at: `level->getTile`, and per tile id
      whether `Tile::tiles` has an entry and whether that tile is solid. */
  datatype Level = Level(tileAt: (int, int, int) -> int, registered: int -> bool, solid: int -> bool)

  /** The box a mob occupies, in blocks (`size` in the source). */
  datatype Extent = Extent(x: int, y: int, z: int)

  /** A block position. */
  type Spot = (int, int, int)

  function SpotOf(n: Node): Spot
  {
    (n.x, n.y, n.z)
  }

  /** What one block means to a walker: 0 blocks, -1 is liquid, 1 lets it
      pass. Air, unknown ids and non-solid non-liquid tiles let it pass. */
  function Cell(level: Level, x: int, y: int, z: int): (r: int)
    ensures r == 0 || r == -1 || r == 1
    ensures r == 0 <==> level.tileAt(x, y, z) > 0 && level.registered(level.tileAt(x, y, z)) && level.solid(level.tileAt(x, y, z))
  {
    var id := level.tileAt(x, y, z);
    if id > 0 && level.registered(id) then
      if level.solid(id) then 0
      else if id == Water || id == StillWater || id == Lava || id == StillLava then -1
      else 1
    else 1
  }

  /** The scan of `isFree` along z at (x, y), from `z` up to `zEnd`: the
      first block that does not let a walker pass decides. */
  function ScanZ(level: Level, x: int, y: int, z: int, zEnd: int): int
    decreases zEnd - z
  {
    if z >= zEnd then 1
    else if Cell(level, x, y, z) != 1 then Cell(level, x, y, z)
    else ScanZ(level, x, y, z + 1, zEnd)
  }

  /** The scan along y of z rows at x. */
  function ScanY(level: Level, x: int, y: int, yEnd: int, z: int, zEnd: int): int
    decreases yEnd - y
  {
    if y >= yEnd then 1
    else
      var r := ScanZ(level, x, y, z, zEnd);
      if r != 1 then r else ScanY(level, x, y + 1, yEnd, z, zEnd)
  }

  /** The scan along x of y-z slices. */
  function ScanX(level: Level, x: int, xEnd: int, y: int, yEnd: int, z: int, zEnd: int): int
    decreases xEnd - x
  {
    if x >= xEnd then 1
    else
      var r := ScanY(level, x, y, yEnd, z, zEnd);
      if r != 1 then r else ScanX(level, x + 1, xEnd, y, yEnd, z, zEnd)
  }

  /** `isFree`: 0 when the box at (x, y, z) meets a solid block, -1 when it
      meets a liquid, 1 when it is free; the first such block in x, y, z
      scan order decides. */
  function Free(level: Level, x: int, y: int, z: int, size: Extent): int
  {
    ScanX(level, x, x + size.x, y, y + size.y, z, z + size.z)
  }

  /** Block (i, j, k) lies in the box [x, xEnd) x [y, yEnd) x [z, zEnd). */
  predicate InBox(i: int, j: int, k: int, x: int, xEnd: int, y: int, yEnd: int, z: int, zEnd: int)
  {
    x <= i < xEnd && y <= j < yEnd && z <= k < zEnd
  }

  lemma {:induction false} ScanZMeaning(level: Level, x: int, y: int, z: int, zEnd: int)
    ensures var r := ScanZ(level, x, y, z, zEnd);
      (r == 1 <==> forall k :: z <= k < zEnd ==> Cell(level, x, y, k) == 1)
      && (r != 1 ==> exists k :: z <= k < zEnd && Cell(level, x, y, k) == r)
    decreases zEnd - z
  {
    if z < zEnd && Cell(level, x, y, z) == 1 {
      ScanZMeaning(level, x, y, z + 1, zEnd);
      if ScanZ(level, x, y, z, zEnd) == 1 {
        forall k | z <= k < zEnd
          ensures Cell(level, x, y, k) == 1
        {
          if k > z {
            assert z + 1 <= k;
          }
        }
      }
    }
  }

  lemma {:induction false} ScanYMeaning(level: Level, x: int, y: int, yEnd: int, z: int, zEnd: int)
    ensures var r := ScanY(level, x, y, yEnd, z, zEnd);
      (r == 1 <==> forall j, k :: y <= j < yEnd && z <= k < zEnd ==> Cell(level, x, j, k) == 1)
      && (r != 1 ==> exists j, k :: y <= j < yEnd && z <= k < zEnd && Cell(level, x, j, k) == r)
    decreases yEnd - y
  {
    if y < yEnd {
      ScanZMeaning(level, x, y, z, zEnd);
      ScanYMeaning(level, x, y + 1, yEnd, z, zEnd);
      var r := ScanY(level, x, y, yEnd, z, zEnd);
      if ScanZ(level, x, y, z, zEnd) == 1 {
        if r == 1 {
          forall j, k | y <= j < yEnd && z <= k < zEnd
            ensures Cell(level, x, j, k) == 1
          {
            if j > y {
              assert y + 1 <= j;
            }
          }
        } else {
          var j, k :| y + 1 <= j < yEnd && z <= k < zEnd && Cell(level, x, j, k) == r;
          assert y <= j;
        }
      } else {
        var k :| z <= k < zEnd && Cell(level, x, y, k) == r;
        assert y <= y < yEnd && Cell(level, x, y, k) != 1;
      }
    }
  }

  /** What `isFree` answers: 1 exactly when every block of the box lets a
      walker pass; otherwise some block of the box is solid (0) or liquid
      (-1), and no other answer is possible. */
  lemma {:induction false} FreeMeaning(level: Level, x: int, xEnd: int, y: int, yEnd: int, z: int, zEnd: int)
    ensures var r := ScanX(level, x, xEnd, y, yEnd, z, zEnd);
      (r == 1 <==> forall i, j, k :: InBox(i, j, k, x, xEnd, y, yEnd, z, zEnd) ==> Cell(level, i, j, k) == 1)
      && (r != 1 ==> (r == 0 || r == -1) && exists i, j, k :: InBox(i, j, k, x, xEnd, y, yEnd, z, zEnd) && Cell(level, i, j, k) == r)
    decreases xEnd - x
  {
    if x < xEnd {
      ScanYMeaning(level, x, y, yEnd, z, zEnd);
      FreeMeaning(level, x + 1, xEnd, y, yEnd, z, zEnd);
      var r := ScanX(level, x, xEnd, y, yEnd, z, zEnd);
      if ScanY(level, x, y, yEnd, z, zEnd) == 1 {
        if r == 1 {
          forall i, j, k | InBox(i, j, k, x, xEnd, y, yEnd, z, zEnd)
            ensures Cell(level, i, j, k) == 1
          {
            if i > x {
              assert InBox(i, j, k, x + 1, xEnd, y, yEnd, z, zEnd);
            }
          }
        } else {
          var i, j, k :| InBox(i, j, k, x + 1, xEnd, y, yEnd, z, zEnd) && Cell(level, i, j, k) == r;
          assert InBox(i, j, k, x, xEnd, y, yEnd, z, zEnd);
        }
      } else {
        var j, k :| y <= j < yEnd && z <= k < zEnd && Cell(level, x, j, k) == r;
        assert InBox(x, j, k, x, xEnd, y, yEnd, z, zEnd) && Cell(level, x, j, k) != 1;
      }
    }
  }

  /** The four directions `getNeighbors` tries, in order: +z, -x, +x, -z. */
  const Directions: seq<(int, int)> := [(0, 1), (-1, 0), (1, 0), (0, -1)]

  /** Where `getNode` starts before falling: the block itself if the box
      fits there, else `stepUp` higher if it fits there. */
  function Foothold(level: Level, x: int, y: int, z: int, size: Extent, stepUp: int): Option<int>
  {
    if Free(level, x, y, z, size) > 0 then Some(y)
    else if Free(level, x, y + stepUp, z, size) > 0 then Some(y + stepUp)
    else None
  }

  /** The fall loop of `getNode` from height y with `fallCount` blocks
      fallen: it goes down while the box fits one block lower and gives up
      when that makes four blocks. */
  function Land(level: Level, x: int, y: int, z: int, size: Extent, fallCount: int): Option<int>
    decreases y
  {
    if y > 0 && Free(level, x, y - 1, z, size) > 0 then
      if fallCount + 1 >= 4 then None else Land(level, x, y - 1, z, size, fallCount + 1)
    else Some(y)
  }

  /** The height of the node `getNode` returns, or None for null. When the
      fall ends at or below 0 the node stays where it started. */
  function NodeHeight(level: Level, x: int, y: int, z: int, size: Extent, stepUp: int): Option<int>
  {
    match Foothold(level, x, y, z, size, stepUp)
    case None => None
    case Some(s) =>
      match Land(level, x, s, z, size, 0)
      case None => None
      case Some(e) => Some(if e > 0 then e else s)
  }

  /** The box fits at each of the `n` heights below y. */
  predicate ClearBelow(level: Level, x: int, y: int, z: int, size: Extent, n: nat)
    decreases n
  {
    n == 0 || (Free(level, x, y - 1, z, size) > 0 && ClearBelow(level, x, y - 1, z, size, n - 1))
  }

  lemma {:induction false} LandDrop(level: Level, x: int, y: int, z: int, size: Extent, fallCount: int)
    requires 0 <= fallCount < 4
    ensures Land(level, x, y, z, size, fallCount).Some? ==>
              y - (3 - fallCount) <= Land(level, x, y, z, size, fallCount).value <= y
    ensures Land(level, x, y, z, size, fallCount).None? <==>
              y >= 4 - fallCount && ClearBelow(level, x, y, z, size, 4 - fallCount)
    decreases y
  {
    if y > 0 && Free(level, x, y - 1, z, size) > 0 && fallCount + 1 < 4 {
      LandDrop(level, x, y - 1, z, size, fallCount + 1);
    }
  }

  /** `getNode` never returns a node more than three blocks below where it
      found a foothold, and it returns null exactly for a foothold at
      height 4 or more with the box fitting at each of the four heights
      below it (a fall of four or more). */
  lemma FallLimit(level: Level, x: int, y: int, z: int, size: Extent, stepUp: int)
    requires Foothold(level, x, y, z, size, stepUp).Some?
    ensures var s := Foothold(level, x, y, z, size, stepUp).value;
      (NodeHeight(level, x, y, z, size, stepUp).Some? ==>
         s - 3 <= NodeHeight(level, x, y, z, size, stepUp).value <= s)
      && (NodeHeight(level, x, y, z, size, stepUp).None? <==>
         s >= 4 && ClearBelow(level, x, s, z, size, 4))
  {
    LandDrop(level, x, Foothold(level, x, y, z, size, stepUp).value, z, size, 0);
  }

  /** The coordinates along a chain of nodes, end first. */
  function Spots(s: seq<Node>): (r: seq<Spot>)
    ensures |r| == |s| && forall i :: 0 <= i < |s| ==> r[i] == SpotOf(s[i])
  {
    if s == [] then [] else [SpotOf(s[0])] + Spots(s[1..])
  }

  function Reverse<T>(s: seq<T>): (r: seq<T>)
    ensures |r| == |s| && forall i :: 0 <= i < |s| ==> r[i] == s[|s| - 1 - i]
  {
    if s == [] then [] else Reverse(s[1..]) + [s[0]]
  }

  /** `chain` follows the `cameFrom` links from `end` until a node without
      one. */
  ghost predicate Linked(end: Node, chain: seq<Node>)
    reads chain
  {
    |chain| >= 1 && chain[0] == end && chain[|chain| - 1].cameFrom == null
    && forall i {:trigger chain[i].cameFrom} :: 0 <= i < |chain| - 1 ==> chain[i].cameFrom == chain[i + 1]
  }

  /** `copies` holds the positions of the first |copies| nodes of `chain`
      in reverse order. */
  predicate Mirrors(copies: seq<Node>, chain: seq<Node>)
  {
    |copies| <= |chain|
    && forall i :: 0 <= i < |copies| ==> SpotOf(copies[i]) == SpotOf(chain[|copies| - 1 - i])
  }

  lemma MirrorsStep(copies: seq<Node>, chain: seq<Node>, copy: Node)
    requires Mirrors(copies, chain) && |copies| < |chain| && SpotOf(copy) == SpotOf(chain[|copies|])
    ensures Mirrors([copy] + copies, chain)
  {
  }

  lemma MirrorsWhole(copies: seq<Node>, chain: seq<Node>)
    requires Mirrors(copies, chain) && |copies| == |chain|
    ensures Spots(copies) == Reverse(Spots(chain))
  {
    var mirrored, spots := Spots(copies), Spots(chain);
    var reversed := Reverse(spots);
    forall i | 0 <= i < |copies|
      ensures mirrored[i] == reversed[i]
    {
      var j := |chain| - 1 - i;
      assert reversed[i] == spots[j];
      assert spots[j] == SpotOf(chain[j]);
    }
  }

  /** The counting loop of `reconstructPath`: one plus the number of
      links from `end`. */
  method ChainLength(end: Node, ghost chain: seq<Node>) returns (length: int)
    requires Linked(end, chain)
    ensures length == |chain|
  {
    length := 1;
    var n := end;
    while n.cameFrom != null
      invariant 1 <= length <= |chain| && n == chain[length - 1]
      decreases |chain| - length
    {
      length := length + 1;
      n := n.cameFrom;
    }
  }

  /** `reconstructPath`: a path of fresh copies of the chain's nodes, from
      the node without a predecessor to `end`; its length is the number of
      links plus one. */
  method ReconstructPath(end: Node, ghost chain: seq<Node>) returns (p: Path)
    requires Linked(end, chain)
    ensures fresh(p) && p.pos == 0 && p.length == |chain| == |p.nodes|
    ensures Spots(p.nodes) == Reverse(Spots(chain))
  {
    var length := ChainLength(end, chain);
    var pathNodes: seq<Node> := [];
    var current: Node? := end;
    var idx := length - 1;
    while current != null
      invariant Linked(end, chain)
      invariant length == |chain| && -1 <= idx < length && |pathNodes| == length - 1 - idx
      invariant (current == null) == (idx == -1)
      invariant current != null ==> current == chain[length - 1 - idx]
      invariant Mirrors(pathNodes, chain)
      decreases idx
    {
      var link := current.cameFrom;
      var copy := new Node(current.x, current.y, current.z);
      MirrorsStep(pathNodes, chain, copy);
      pathNodes := [copy] + pathNodes;
      current := link;
      idx := idx - 1;
    }
    MirrorsWhole(pathNodes, chain);
    p := new Path(pathNodes);
  }

  /** The lookup of `getOrCreateNode` as written: the node map is keyed by
      the packed hash. */
  function HashLookup(byHash: map<bv32, Node>, x: int, y: int, z: int): (r: Option<Node>)
    ensures r.Some? <==> Hash(x, y, z) in byHash
    ensures r.Some? ==> r.value == byHash[Hash(x, y, z)]
  {
    if Hash(x, y, z) in byHash then Some(byHash[Hash(x, y, z)]) else None
  }

  /** With the hash as the key, once the node of block (-1, 1, 0) is
      stored, asking for block (-1, 2, 5) returns that node. */
  lemma HashLookupAliases(byHash: map<bv32, Node>, n: Node)
    requires SpotOf(n) == (-1, 1, 0)
    requires Hash(-1, 1, 0) in byHash && byHash[Hash(-1, 1, 0)] == n
    ensures HashLookup(byHash, -1, 2, 5) == Some(n)
    ensures SpotOf(n) != (-1, 2, 5)
  {
    NegativeXCollides();
  }

  /** `m1` keeps every entry of `m0`. */
  ghost predicate Extends(m0: map<Spot, Node>, m1: map<Spot, Node>)
  {
    m0.Keys <= m1.Keys && forall k :: k in m0 ==> m1[k] == m0[k]
  }

  lemma ExtendsTransitive(m0: map<Spot, Node>, m1: map<Spot, Node>, m2: map<Spot, Node>)
    requires Extends(m0, m1) && Extends(m1, m2)
    ensures Extends(m0, m2)
  {
  }

  /** A new node, as `getOrCreateNode` leaves it. */
  ghost predicate Pristine(n: Node)
    reads n
  {
    n.heapIdx == -1 && n.cameFrom == null && !n.closed
  }

  /** `m1` keeps every entry of `m0`, and each node it adds is new. */
  ghost predicate Grown(m0: map<Spot, Node>, m1: map<Spot, Node>)
    reads m1.Values
  {
    Extends(m0, m1) && forall k :: k in m1 && k !in m0 ==> Pristine(m1[k])
  }

  lemma GrownTransitive(m0: map<Spot, Node>, m1: map<Spot, Node>, m2: map<Spot, Node>)
    requires Grown(m0, m1) && Grown(m1, m2)
    ensures Grown(m0, m2)
  {
  }

  /** One candidate of `getNeighbors`, kept when it exists, is not closed
      and lies closer than `maxDist` to the goal. */
  function Keep(c: Node?, goal: Node, maxDist: real, distance: (Spot, Spot) -> real): (r: seq<Node>)
    reads c
    ensures |r| <= 1 && (r == [] || r == [c])
    ensures r == [c] <==> c != null && !c.closed && distance(SpotOf(c), SpotOf(goal)) < maxDist
  {
    if c != null && !c.closed && distance(SpotOf(c), SpotOf(goal)) < maxDist then [c] else []
  }

  /** The candidates `getNeighbors` keeps, in order. */
  function Admitted(cands: seq<Node?>, goal: Node, maxDist: real, distance: (Spot, Spot) -> real): (r: seq<Node>)
    reads set i | 0 <= i < |cands| && cands[i] != null :: cands[i]
    ensures |r| <= |cands|
    ensures forall n :: n in r ==> n in cands && !n.closed && distance(SpotOf(n), SpotOf(goal)) < maxDist
  {
    if cands == [] then []
    else Keep(cands[0], goal, maxDist, distance) + Admitted(cands[1..], goal, maxDist, distance)
  }

  /** `cand` is what `getNode` answered for column (x, z) when a walker
      would stand at `height` there: null for None, else a node at that
      block. */
  predicate Found(cand: Node?, height: Option<int>, x: int, z: int)
  {
    (cand == null <==> height.None?)
    && (cand != null ==> SpotOf(cand) == (x, height.value, z))
  }

  /** A non-null `cand` is the node the map holds for its block. */
  ghost predicate Stored(cand: Node?, nodes: map<Spot, Node>)
  {
    cand != null ==> SpotOf(cand) in nodes && nodes[SpotOf(cand)] == cand
  }

  /** The step-up `getNeighbors` allows above `current`. */
  function StepUp(level: Level, current: Node, size: Extent): int
  {
    if Free(level, current.x, current.y + 1, current.z, size) > 0 then 1 else 0
  }

  /** What `getNode` answers for direction `i` from `current`. */
  ghost predicate Probed(level: Level, current: Node, size: Extent, i: int, cand: Node?)
    requires 0 <= i < 4
  {
    var x, z := current.x + Directions[i].0, current.z + Directions[i].1;
    Found(cand, NodeHeight(level, x, current.y, z, size, StepUp(level, current, size)), x, z)
  }

  lemma AdmittedFour(cands: seq<Node?>, goal: Node, maxDist: real, distance: (Spot, Spot) -> real)
    requires |cands| == 4
    ensures Admitted(cands, goal, maxDist, distance)
            == Keep(cands[0], goal, maxDist, distance) + Keep(cands[1], goal, maxDist, distance)
               + Keep(cands[2], goal, maxDist, distance) + Keep(cands[3], goal, maxDist, distance)
  {
    var t1 := cands[1..];
    var t2 := t1[1..];
    var t3 := t2[1..];
    assert t3[1..] == [];
    assert Admitted(t3, goal, maxDist, distance) == Keep(cands[3], goal, maxDist, distance);
    assert Admitted(t2, goal, maxDist, distance)
        == Keep(cands[2], goal, maxDist, distance) + Admitted(t3, goal, maxDist, distance);
    assert Admitted(t1, goal, maxDist, distance)
        == Keep(cands[1], goal, maxDist, distance) + Admitted(t2, goal, maxDist, distance);
  }

  /** A node the search may reach: the start, or a node closer to the goal
      than `maxDist`. */
  predicate Near(n: Node, start: Node, goal: Node, maxDist: real, distance: (Spot, Spot) -> real)
  {
    n == start || distance(SpotOf(n), SpotOf(goal)) < maxDist
  }

  /** The open set holds map nodes that have not been popped. */
  ghost predicate OpenOk(open: BinaryHeap, m: map<Spot, Node>, rank: map<Node, nat>)
    reads open
  {
    forall n :: n in open.heap ==> n in m.Values && n !in rank
  }

  /** A map node with a heap index is in the open set. */
  ghost predicate IndexOk(open: BinaryHeap, m: map<Spot, Node>)
    reads open, m.Values
  {
    forall n :: n in m.Values && n.heapIdx >= 0 ==> n in open.heap
  }

  /** The closed nodes of the map are the ones ranked by when they were
      popped, each before `steps`. */
  ghost predicate RankOk(m: map<Spot, Node>, rank: map<Node, nat>, steps: nat)
    reads m.Values
  {
    (forall n :: n in m.Values ==> (n.closed <==> n in rank))
    && (forall n :: n in rank ==> n in m.Values && rank[n] < steps)
  }

  /** Every node the search has touched is near and only `start` lacks a
      predecessor; every predecessor was popped before its successor. */
  ghost predicate LinksOk(open: BinaryHeap, m: map<Spot, Node>, start: Node, goal: Node, maxDist: real,
                          distance: (Spot, Spot) -> real, rank: map<Node, nat>)
    reads open, m.Values
  {
    (forall n {:trigger n.cameFrom} :: n in m.Values && (n in rank || n in open.heap) ==>
       Near(n, start, goal, maxDist, distance) && (n.cameFrom == null ==> n == start))
    && (forall n {:trigger n.cameFrom} :: n in m.Values && n.cameFrom != null ==>
          n.cameFrom in rank && (n in rank ==> rank[n.cameFrom] < rank[n]))
  }

  /** The state `findPathInternal` keeps after `steps` pops: a valid open
      set and the four facts above. */
  ghost predicate Searching(open: BinaryHeap, m: map<Spot, Node>, start: Node, goal: Node, maxDist: real,
                            distance: (Spot, Spot) -> real, rank: map<Node, nat>, steps: nat)
    reads open, open.heap, m.Values
  {
    start in m.Values && open.Valid() && OpenOk(open, m, rank) && IndexOk(open, m) && RankOk(m, rank, steps)
    && LinksOk(open, m, start, goal, maxDist, distance, rank)
  }

  /** The arguments of `Searching`, bundled for the lemmas that carry the
      search state from one heap state to the next. */
  datatype Search = Search(open: BinaryHeap, m: map<Spot, Node>, start: Node, goal: Node, maxDist: real,
                           distance: (Spot, Spot) -> real, rank: map<Node, nat>, steps: nat)

  /** A write to a field the search state does not follow, such as a
      cost, keeps it. */
  twostate lemma SearchingKept(s: Search)
    requires old(Searching(s.open, s.m, s.start, s.goal, s.maxDist, s.distance, s.rank, s.steps))
    requires s.open.heap == old(s.open.heap) && s.open.Valid()
    requires forall n :: n in s.m.Values ==>
               n.closed == old(n.closed) && n.cameFrom == old(n.cameFrom) && n.heapIdx == old(n.heapIdx)
    ensures Searching(s.open, s.m, s.start, s.goal, s.maxDist, s.distance, s.rank, s.steps)
  {
    forall n | n in s.m.Values && (n in s.rank || n in s.open.heap)
      ensures Near(n, s.start, s.goal, s.maxDist, s.distance) && (n.cameFrom == null ==> n == s.start)
    {
      assert old(n.cameFrom) == n.cameFrom;
    }
    forall n | n in s.m.Values && n.cameFrom != null
      ensures n.cameFrom in s.rank && (n in s.rank ==> s.rank[n.cameFrom] < s.rank[n])
    {
      assert old(n.cameFrom) == n.cameFrom;
    }
  }

  /** Closing a popped node ranks it at `steps`; the three lemmas below
      keep the search state across that step. */
  twostate lemma ClosedRanks(s: Search, new current: Node)
    requires old(Searching(s.open, s.m, s.start, s.goal, s.maxDist, s.distance, s.rank, s.steps))
    requires current in s.m.Values && current !in s.rank && current !in s.open.heap
    requires Near(current, s.start, s.goal, s.maxDist, s.distance) && (current.cameFrom == null ==> current == s.start)
    requires s.open.heap == old(s.open.heap) && s.open.Valid() && current.closed
    requires forall n :: n in s.m.Values ==> n.cameFrom == old(n.cameFrom) && n.heapIdx == old(n.heapIdx)
    requires forall n :: n in s.m.Values && n != current ==> n.closed == old(n.closed)
    ensures RankOk(s.m, s.rank[current := s.steps], s.steps + 1)
  {
    var rank' := s.rank[current := s.steps];
    assert old(RankOk(s.m, s.rank, s.steps));
    forall n | n in s.m.Values
      ensures n.closed <==> n in rank'
    {
      if n != current {
        assert old(n.closed) == n.closed;
        assert n.closed <==> n in s.rank;
      }
    }
    forall n | n in rank'
      ensures n in s.m.Values && rank'[n] < s.steps + 1
    {
      if n != current {
        assert n in s.rank && rank'[n] == s.rank[n];
      }
    }
  }

  twostate lemma ClosedLinks(s: Search, new current: Node)
    requires old(Searching(s.open, s.m, s.start, s.goal, s.maxDist, s.distance, s.rank, s.steps))
    requires current in s.m.Values && current !in s.rank && current !in s.open.heap
    requires Near(current, s.start, s.goal, s.maxDist, s.distance) && (current.cameFrom == null ==> current == s.start)
    requires s.open.heap == old(s.open.heap) && s.open.Valid() && current.closed
    requires forall n :: n in s.m.Values ==> n.cameFrom == old(n.cameFrom) && n.heapIdx == old(n.heapIdx)
    requires forall n :: n in s.m.Values && n != current ==> n.closed == old(n.closed)
    ensures LinksOk(s.open, s.m, s.start, s.goal, s.maxDist, s.distance, s.rank[current := s.steps])
  {
    var rank' := s.rank[current := s.steps];
    forall n | n in s.m.Values && (n in rank' || n in s.open.heap)
      ensures Near(n, s.start, s.goal, s.maxDist, s.distance) && (n.cameFrom == null ==> n == s.start)
    {
      if n != current {
        assert old(n.cameFrom) == n.cameFrom && (n in s.rank || n in s.open.heap);
      }
    }
    forall n | n in s.m.Values && n.cameFrom != null
      ensures n.cameFrom in rank' && (n in rank' ==> rank'[n.cameFrom] < rank'[n])
    {
      var p := n.cameFrom;
      assert old(n.cameFrom) == p && p in s.rank && p != current && rank'[p] == s.rank[p] < s.steps;
      if n in rank' && n != current {
        assert n in s.rank && rank'[n] == s.rank[n];
      }
    }
  }

  twostate lemma ClosedOpen(s: Search, new current: Node)
    requires old(Searching(s.open, s.m, s.start, s.goal, s.maxDist, s.distance, s.rank, s.steps))
    requires current in s.m.Values && current !in s.rank && current !in s.open.heap
    requires Near(current, s.start, s.goal, s.maxDist, s.distance) && (current.cameFrom == null ==> current == s.start)
    requires s.open.heap == old(s.open.heap) && s.open.Valid() && current.closed
    requires forall n :: n in s.m.Values ==> n.cameFrom == old(n.cameFrom) && n.heapIdx == old(n.heapIdx)
    requires forall n :: n in s.m.Values && n != current ==> n.closed == old(n.closed)
    ensures OpenOk(s.open, s.m, s.rank[current := s.steps]) && IndexOk(s.open, s.m)
  {
  }

  /** The nodes `getNeighbors` adds leave the search state intact. */
  lemma SearchingGrown(open: BinaryHeap, m0: map<Spot, Node>, m1: map<Spot, Node>, start: Node, goal: Node,
                       maxDist: real, distance: (Spot, Spot) -> real, rank: map<Node, nat>, steps: nat)
    requires Searching(open, m0, start, goal, maxDist, distance, rank, steps) && Grown(m0, m1)
    ensures Searching(open, m1, start, goal, maxDist, distance, rank, steps)
  {
    forall n | n in m1.Values
      ensures n in m0.Values || (Pristine(n) && n !in open.heap && n !in rank)
    {
      var k :| k in m1 && m1[k] == n;
      if k in m0 {
        assert n in m0.Values;
      }
    }
    assert start in m1.Values by {
      var k :| k in m0 && m0[k] == start;
    }
    forall n | n in m1.Values && (n.closed || n in open.heap)
      ensures Near(n, start, goal, maxDist, distance) && (n.cameFrom == null ==> n == start)
    {
      assert n in m0.Values;
      assert LinksOk(open, m0, start, goal, maxDist, distance, rank);
      assert n.closed || n in open.heap;
      var c := n.cameFrom;
      assert Near(n, start, goal, maxDist, distance);
    }
    forall n | n in m1.Values && n.cameFrom != null
      ensures n.cameFrom in rank && (n in rank ==> rank[n.cameFrom] < rank[n])
    {
    }
  }

  /** The predecessor links from a node the search has touched end at
      `start`, through popped nodes only. */
  lemma {:induction false} ChainOf(open: BinaryHeap, m: map<Spot, Node>, start: Node, goal: Node, maxDist: real,
                                   distance: (Spot, Spot) -> real, rank: map<Node, nat>, steps: nat, n: Node)
      returns (chain: seq<Node>)
    requires Searching(open, m, start, goal, maxDist, distance, rank, steps)
    requires n in m.Values && (n.cameFrom == null ==> n == start)
    ensures Linked(n, chain) && chain[|chain| - 1] == start
    ensures forall i :: 1 <= i < |chain| ==> chain[i] in rank
    decreases if n in rank then rank[n] else steps
  {
    if n.cameFrom == null {
      chain := [n];
    } else {
      var p := n.cameFrom;
      assert p in rank && p in m.Values && p.closed;
      assert p.cameFrom == null ==> p == start;
      var rest := ChainOf(open, m, start, goal, maxDist, distance, rank, steps, p);
      chain := [n] + rest;
      forall i | 0 <= i < |chain| - 1
        ensures chain[i].cameFrom == chain[i + 1]
      {
        if i > 0 {
          assert chain[i] == rest[i - 1] && chain[i + 1] == rest[i];
        }
      }
    }
  }

  /** `c` is the `closest` of `findPathInternal`: the start or a popped
      node nearer the goal than the start, and no popped node is nearer. */
  ghost predicate Closest(c: Node, start: Node, goal: Node, distance: (Spot, Spot) -> real, rank: map<Node, nat>)
  {
    (c == start || (c in rank && distance(SpotOf(c), SpotOf(goal)) < distance(SpotOf(start), SpotOf(goal))))
    && forall n :: n in rank ==> distance(SpotOf(c), SpotOf(goal)) <= distance(SpotOf(n), SpotOf(goal))
  }

  /** Every node of a map that only gained new nodes is old or new. */
  twostate lemma FreshValues(m0: map<Spot, Node>, new m1: map<Spot, Node>)
    requires Extends(m0, m1) && forall k :: k in m1 && k !in m0 ==> fresh(m1[k])
    ensures forall n :: n in m1.Values ==> n in m0.Values || fresh(n)
  {
    forall n | n in m1.Values
      ensures n in m0.Values || fresh(n)
    {
      var k :| k in m1 && m1[k] == n;
      if k in m0 {
        assert m0[k] == n;
      }
    }
  }

  /** A chain whose head is near and whose other nodes were popped is near
      throughout. */
  lemma ChainNear(open: BinaryHeap, m: map<Spot, Node>, start: Node, goal: Node, maxDist: real,
                  distance: (Spot, Spot) -> real, rank: map<Node, nat>, steps: nat, chain: seq<Node>)
    requires Searching(open, m, start, goal, maxDist, distance, rank, steps)
    requires |chain| >= 1 && Near(chain[0], start, goal, maxDist, distance)
    requires forall i :: 1 <= i < |chain| ==> chain[i] in rank
    ensures forall i :: 0 <= i < |chain| ==> Near(chain[i], start, goal, maxDist, distance)
  {
    forall i | 1 <= i < |chain|
      ensures Near(chain[i], start, goal, maxDist, distance)
    {
      assert chain[i] in rank && chain[i] in m.Values;
      var c := chain[i].cameFrom;
    }
  }

  /** A step that touches none of the objects the search state reads keeps it. */
  twostate lemma SearchingUntouched(s: Search)
    requires old(Searching(s.open, s.m, s.start, s.goal, s.maxDist, s.distance, s.rank, s.steps))
    requires unchanged(s.open) && unchanged(s.open.heap) && unchanged(s.m.Values)
    ensures Searching(s.open, s.m, s.start, s.goal, s.maxDist, s.distance, s.rank, s.steps)
  {
  }

  /** The neighbors `getNeighbors` keeps are stored, unpopped and near. */
  lemma AdmittedOpen(m: map<Spot, Node>, cands: seq<Node?>, ns: seq<Node?>, goal: Node, maxDist: real,
                     distance: (Spot, Spot) -> real, rank: map<Node, nat>, steps: nat)
    requires RankOk(m, rank, steps) && forall i :: 0 <= i < |cands| ==> Stored(cands[i], m)
    requires ns == Admitted(cands, goal, maxDist, distance)
    ensures forall n: Node? :: n in ns ==>
              n != null && n in m.Values && n !in rank && distance(SpotOf(n), SpotOf(goal)) < maxDist
  {
    forall n | n in ns
      ensures n != null && n in m.Values && n !in rank
    {
      assert n in Admitted(cands, goal, maxDist, distance);
      var i :| 0 <= i < |cands| && cands[i] == n;
      assert Stored(cands[i], m);
    }
  }

  class PathFinder {
    const level: Level
    /** `distanceTo` between two blocks (a square root in the source). */
    const distance: (Spot, Spot) -> real
    const openSet: BinaryHeap
    /** The node map; keyed by block position (see `HashLookup`). */
    var nodes: map<Spot, Node>
    const neighbors: array<Node?>

    /** Every node sits under its own position. */
    ghost predicate Keyed()
      reads this
    {
      forall k :: k in nodes ==> SpotOf(nodes[k]) == k
    }

    function Dist(a: Node, b: Node): real
    {
      distance(SpotOf(a), SpotOf(b))
    }

    constructor (level: Level, distance: (Spot, Spot) -> real)
      ensures this.level == level && this.distance == distance
      ensures nodes == map[] && openSet.heap == [] && neighbors.Length == 32
      ensures fresh(openSet) && fresh(neighbors)
    {
      this.level := level;
      this.distance := distance;
      openSet := new BinaryHeap();
      nodes := map[];
      neighbors := new Node?[32](_ => null);
    }

    /** `isFree`. */
    method IsFree(x: int, y: int, z: int, size: Extent) returns (r: int)
      ensures r == Free(level, x, y, z, size)
    {
      var xx := x;
      while xx < x + size.x
        invariant Free(level, x, y, z, size) == ScanX(level, xx, x + size.x, y, y + size.y, z, z + size.z)
        decreases x + size.x - xx
      {
        var yy := y;
        while yy < y + size.y
          invariant ScanY(level, xx, y, y + size.y, z, z + size.z) == ScanY(level, xx, yy, y + size.y, z, z + size.z)
          decreases y + size.y - yy
        {
          var zz := z;
          while zz < z + size.z
            invariant ScanZ(level, xx, yy, z, z + size.z) == ScanZ(level, xx, yy, zz, z + size.z)
            decreases z + size.z - zz
          {
            var tileId := level.tileAt(xx, yy, zz);
            if tileId > 0 {
              if level.registered(tileId) {
                if level.solid(tileId) {
                  return 0;
                }
                if tileId == Water || tileId == StillWater || tileId == Lava || tileId == StillLava {
                  return -1;
                }
              }
            }
            zz := zz + 1;
          }
          yy := yy + 1;
        }
        xx := xx + 1;
      }
      return 1;
    }

    /** `getOrCreateNode`: the node stored for the position, or a new one
        stored under it. */
    method GetOrCreateNode(x: int, y: int, z: int) returns (n: Node)
      requires Keyed()
      modifies this`nodes
      ensures Keyed() && SpotOf(n) == (x, y, z)
      ensures nodes == old(nodes)[(x, y, z) := n] && Extends(old(nodes), nodes)
      ensures (x, y, z) in old(nodes) ==> n == old(nodes)[(x, y, z)]
      ensures (x, y, z) !in old(nodes) ==> fresh(n) && Pristine(n)
    {
      if (x, y, z) in nodes {
        return nodes[(x, y, z)];
      }
      n := new Node(x, y, z);
      nodes := nodes[(x, y, z) := n];
    }

    /** `getNode`: the node a walker reaches at column (x, z) from height
        y, or null. */
    method GetNode(x: int, y0: int, z: int, size: Extent, stepUp: int) returns (node: Node?)
      requires Keyed()
      modifies this`nodes
      ensures Keyed() && Grown(old(nodes), nodes)
      ensures forall k :: k in nodes && k !in old(nodes) ==> fresh(nodes[k])
      ensures Found(node, NodeHeight(level, x, y0, z, size, stepUp), x, z) && Stored(node, nodes)
    {
      node := null;
      var y := y0;
      var r := IsFree(x, y, z, size);
      if r > 0 {
        node := GetOrCreateNode(x, y, z);
      }
      if node == null {
        r := IsFree(x, y + stepUp, z, size);
        if r > 0 {
          node := GetOrCreateNode(x, y + stepUp, z);
          y := y + stepUp;
        }
      }
      if node != null {
        assert Foothold(level, x, y0, z, size, stepUp) == Some(y);
        var landed, bottom := Fall(x, y, z, size);
        if !landed {
          return null;
        }
        y := bottom;
        if y > 0 {
          node := GetOrCreateNode(x, y, z);
        }
      }
    }

    /** The fall loop of `getNode` from height y: where it stops, or false
        when it would fall four blocks. */
    method Fall(x: int, y0: int, z: int, size: Extent) returns (landed: bool, y: int)
      ensures landed <==> Land(level, x, y0, z, size, 0).Some?
      ensures landed ==> y == Land(level, x, y0, z, size, 0).value
    {
      y := y0;
      var fallCount := 0;
      while true
        invariant 0 <= fallCount < 4 && y == y0 - fallCount
        invariant Land(level, x, y0, z, size, 0) == Land(level, x, y, z, size, fallCount)
        decreases y
      {
        if y <= 0 {
          break;
        }
        var freeResult := IsFree(x, y - 1, z, size);
        if freeResult <= 0 {
          break;
        }
        fallCount := fallCount + 1;
        if fallCount >= 4 {
          return false, y;
        }
        y := y - 1;
      }
      return true, y;
    }

    /** `getNeighbors`: asks `getNode` for the four neighbouring columns,
        one block higher allowed when the box fits above `current`, and
        stores the admitted ones at the front of `neighbors`. */
    method GetNeighbors(current: Node, size: Extent, goal: Node, maxDist: real) returns (count: int, ghost cands: seq<Node?>)
      requires Keyed() && neighbors.Length == 32
      modifies this`nodes, neighbors
      ensures Keyed() && Grown(old(nodes), nodes)
      ensures forall k :: k in nodes && k !in old(nodes) ==> fresh(nodes[k])
      ensures |cands| == 4
      ensures forall i {:trigger Probed(level, current, size, i, cands[i])} ::
                0 <= i < 4 ==> Probed(level, current, size, i, cands[i])
      ensures forall i :: 0 <= i < 4 ==> Stored(cands[i], nodes)
      ensures 0 <= count <= 4 && neighbors[..count] == Admitted(cands, goal, maxDist, distance)
    {
      var n1, n2, n3, n4 := ProbeAll(current, size);
      cands := [n1, n2, n3, n4];
      count := AdmitAll(n1, n2, n3, n4, goal, maxDist);
    }

    /** The four `getNode` calls of `getNeighbors`, one block of step-up
        allowed when the box fits above `current`. */
    method ProbeAll(current: Node, size: Extent) returns (n1: Node?, n2: Node?, n3: Node?, n4: Node?)
      requires Keyed()
      modifies this`nodes
      ensures Keyed() && Grown(old(nodes), nodes)
      ensures forall k :: k in nodes && k !in old(nodes) ==> fresh(nodes[k])
      ensures forall i {:trigger Probed(level, current, size, i, [n1, n2, n3, n4][i])} ::
                0 <= i < 4 ==> Probed(level, current, size, i, [n1, n2, n3, n4][i])
      ensures Stored(n1, nodes) && Stored(n2, nodes) && Stored(n3, nodes) && Stored(n4, nodes)
    {
      var stepUp := 0;
      var above := IsFree(current.x, current.y + 1, current.z, size);
      if above > 0 {
        stepUp := 1;
      }
      ghost var m0 := nodes;
      n1 := Probe(current, size, stepUp, 0);
      ghost var m1 := nodes;
      n2 := Probe(current, size, stepUp, 1);
      ghost var m2 := nodes;
      n3 := Probe(current, size, stepUp, 2);
      ghost var m3 := nodes;
      n4 := Probe(current, size, stepUp, 3);
      GrownTransitive(m1, m2, m3);
      GrownTransitive(m1, m3, nodes);
      GrownTransitive(m2, m3, nodes);
      GrownTransitive(m0, m1, nodes);
      forall i | 0 <= i < 4
        ensures Probed(level, current, size, i, [n1, n2, n3, n4][i])
      {
      }
    }

    /** One of the four `getNode` calls of `getNeighbors`, in direction
        `i`. */
    method Probe(current: Node, size: Extent, stepUp: int, i: int) returns (cand: Node?)
      requires Keyed() && 0 <= i < 4 && stepUp == StepUp(level, current, size)
      modifies this`nodes
      ensures Keyed() && Grown(old(nodes), nodes)
      ensures forall k :: k in nodes && k !in old(nodes) ==> fresh(nodes[k])
      ensures Probed(level, current, size, i, cand) && Stored(cand, nodes)
    {
      cand := GetNode(current.x + Directions[i].0, current.y, current.z + Directions[i].1, size, stepUp);
    }

    /** The four admissions of `getNeighbors`, in order. */
    method AdmitAll(n1: Node?, n2: Node?, n3: Node?, n4: Node?, goal: Node, maxDist: real) returns (count: int)
      requires neighbors.Length == 32
      modifies neighbors
      ensures 0 <= count <= 4 && neighbors[..count] == Admitted([n1, n2, n3, n4], goal, maxDist, distance)
    {
      ghost var c1, c2, c3, c4 := Keep(n1, goal, maxDist, distance), Keep(n2, goal, maxDist, distance),
                                  Keep(n3, goal, maxDist, distance), Keep(n4, goal, maxDist, distance);
      count := Admit(n1, goal, maxDist, 0);
      assert neighbors[..count] == c1;
      count := Admit(n2, goal, maxDist, count);
      assert neighbors[..count] == c1 + c2;
      count := Admit(n3, goal, maxDist, count);
      assert neighbors[..count] == c1 + c2 + c3;
      count := Admit(n4, goal, maxDist, count);
      assert neighbors[..count] == c1 + c2 + c3 + c4;
      AdmittedFour([n1, n2, n3, n4], goal, maxDist, distance);
    }

    /** One `if (n && !n->closed && ...) neighbors[count++] = n;` of
        `getNeighbors`. */
    method Admit(n: Node?, goal: Node, maxDist: real, count: int) returns (count': int)
      requires 0 <= count < neighbors.Length
      modifies neighbors
      ensures count' == count + |Keep(n, goal, maxDist, distance)|
      ensures neighbors[..count'] == old(neighbors[..count]) + Keep(n, goal, maxDist, distance)
    {
      count' := count;
      if n != null && !n.closed && Dist(n, goal) < maxDist {
        neighbors[count] := n;
        count' := count + 1;
      }
    }

    /** The pop at the head of the loop of `findPathInternal`: a cheapest
        open node leaves the open set, which stays a search state. */
    method Next(start: Node, goal: Node, maxDist: real, ghost rank: map<Node, nat>, ghost steps: nat)
        returns (current: Node)
      requires Searching(openSet, nodes, start, goal, maxDist, distance, rank, steps) && openSet.heap != []
      modifies openSet, openSet.heap
      ensures Searching(openSet, nodes, start, goal, maxDist, distance, rank, steps)
      ensures current == old(openSet.Peek())
      ensures multiset(openSet.heap) + multiset{current} == multiset(old(openSet.heap))
      ensures current in nodes.Values && current !in rank && current !in openSet.heap
      ensures Near(current, start, goal, maxDist, distance) && (current.cameFrom == null ==> current == start)
    {
      ghost var h := openSet.heap;
      assert h[0] in h;
      assert old(h[0].cameFrom) == h[0].cameFrom;
      var r := openSet.Pop();
      current := r;
      assert current == h[0] && current !in openSet.heap;
      forall n | n in openSet.heap
        ensures n in h && n != current
      {
        assert n in multiset(openSet.heap);
        assert n in multiset(h);
      }
      forall n | n in nodes.Values && n.heapIdx >= 0
        ensures n in openSet.heap
      {
        assert old(n.heapIdx) == n.heapIdx || n in h;
        assert n in h && n != current;
        assert n in multiset(h);
      }
      forall n | n in nodes.Values
        ensures n.closed == old(n.closed) && n.cameFrom == old(n.cameFrom)
      {
      }
      forall n | n in nodes.Values && (n in rank || n in openSet.heap)
        ensures Near(n, start, goal, maxDist, distance) && (n.cameFrom == null ==> n == start)
      {
        assert old(n.cameFrom) == n.cameFrom;
      }
      forall n | n in nodes.Values && n.cameFrom != null
        ensures n.cameFrom in rank && (n in rank ==> rank[n.cameFrom] < rank[n])
      {
        assert old(n.cameFrom) == n.cameFrom;
      }
    }

    /** `current->closed = true`: the popped node becomes the latest
        ranked one. */
    method Close(current: Node, start: Node, goal: Node, maxDist: real, ghost rank: map<Node, nat>, ghost steps: nat)
      requires Searching(openSet, nodes, start, goal, maxDist, distance, rank, steps)
      requires current in nodes.Values && current !in rank && current !in openSet.heap
      requires Near(current, start, goal, maxDist, distance) && (current.cameFrom == null ==> current == start)
      modifies current`closed
      ensures current.closed
      ensures Searching(openSet, nodes, start, goal, maxDist, distance, rank[current := steps], steps + 1)
    {
      current.closed := true;
      forall n | n in nodes.Values
        ensures n.cameFrom == old(n.cameFrom) && n.heapIdx == old(n.heapIdx)
        ensures n != current ==> n.closed == old(n.closed)
      {
      }
      assert openSet.Valid();
      ClosedRanks(Search(openSet, nodes, start, goal, maxDist, distance, rank, steps), current);
      ClosedLinks(Search(openSet, nodes, start, goal, maxDist, distance, rank, steps), current);
      ClosedOpen(Search(openSet, nodes, start, goal, maxDist, distance, rank, steps), current);
    }

    /** One pass of the inner loop of `findPathInternal`: when `neighbor`
        is not yet open, or is reached more cheaply through `current`, it
        takes `current` as predecessor with the new costs and is added to
        the open set or re-ordered in it. */
    method Relax(current: Node, neighbor: Node, start: Node, goal: Node, maxDist: real,
                 ghost rank: map<Node, nat>, ghost steps: nat)
      requires Searching(openSet, nodes, start, goal, maxDist, distance, rank, steps)
      requires current in rank && neighbor in nodes.Values && neighbor !in rank
      requires Dist(neighbor, goal) < maxDist
      modifies neighbor, openSet, openSet.heap
      ensures Searching(openSet, nodes, start, goal, maxDist, distance, rank, steps)
      ensures var better := old(!neighbor.InOpenSet() || current.g + Dist(current, neighbor) < neighbor.g);
              if better then
                neighbor.cameFrom == current && neighbor.g == old(current.g) + Dist(current, neighbor)
                && neighbor.h == Dist(neighbor, goal) && neighbor.f == neighbor.g + neighbor.h
                && neighbor in openSet.heap
              else
                neighbor.cameFrom == old(neighbor.cameFrom) && neighbor.g == old(neighbor.g)
                && openSet.heap == old(openSet.heap)
    {
      var tentativeG := current.g + Dist(current, neighbor);
      if !neighbor.InOpenSet() || tentativeG < neighbor.g {
        Improve(current, neighbor, tentativeG, start, goal, maxDist, rank, steps);
      }
    }

    /** The better branch of the relaxation: the neighbor takes `current`
        as predecessor with cost g and is added to the open set, or
        re-ordered in it when it is already there. */
    method Improve(current: Node, neighbor: Node, g: real, start: Node, goal: Node, maxDist: real,
                   ghost rank: map<Node, nat>, ghost steps: nat)
      requires Searching(openSet, nodes, start, goal, maxDist, distance, rank, steps)
      requires current in rank && neighbor in nodes.Values && neighbor !in rank
      requires Dist(neighbor, goal) < maxDist
      modifies neighbor, openSet, openSet.heap
      ensures Searching(openSet, nodes, start, goal, maxDist, distance, rank, steps)
      ensures neighbor.cameFrom == current && neighbor.g == g && neighbor.h == Dist(neighbor, goal)
      ensures neighbor.f == neighbor.g + neighbor.h && neighbor in openSet.heap
    {
      Relink(current, neighbor, g, start, goal, maxDist, rank, steps);
      ghost var h := neighbor.h;
      if neighbor.InOpenSet() {
        Requeue(neighbor, neighbor.g + neighbor.h, start, goal, maxDist, rank, steps);
      } else {
        Enqueue(neighbor, start, goal, maxDist, rank, steps);
      }
      assert neighbor.cameFrom == current && neighbor.g == g && neighbor.h == h;
    }

    /** The new predecessor and costs `findPathInternal` gives a neighbor. */
    method Relink(current: Node, neighbor: Node, g: real, start: Node, goal: Node, maxDist: real,
                  ghost rank: map<Node, nat>, ghost steps: nat)
      requires Searching(openSet, nodes, start, goal, maxDist, distance, rank, steps)
      requires current in rank && neighbor in nodes.Values && neighbor !in rank
      requires Dist(neighbor, goal) < maxDist
      modifies neighbor`cameFrom, neighbor`g, neighbor`h
      ensures Searching(openSet, nodes, start, goal, maxDist, distance, rank, steps)
      ensures neighbor.cameFrom == current && neighbor.g == g && neighbor.h == Dist(neighbor, goal)
    {
      ghost var c := Costs(openSet.heap);
      neighbor.cameFrom := current;
      neighbor.g := g;
      neighbor.h := Dist(neighbor, goal);
      CostsAre(openSet.heap, c);
      forall n | n in nodes.Values
        ensures n.closed == old(n.closed) && n.heapIdx == old(n.heapIdx)
        ensures n != neighbor ==> n.cameFrom == old(n.cameFrom)
      {
      }
      forall n | n in nodes.Values && (n in rank || n in openSet.heap)
        ensures Near(n, start, goal, maxDist, distance) && (n.cameFrom == null ==> n == start)
      {
        if n != neighbor {
          assert old(n.cameFrom) == n.cameFrom;
        }
      }
      forall n | n in nodes.Values && n.cameFrom != null
        ensures n.cameFrom in rank && (n in rank ==> rank[n.cameFrom] < rank[n])
      {
        if n != neighbor {
          assert old(n.cameFrom) == n.cameFrom;
        }
      }
    }

    /** `changeCost` on a neighbor that is already open. */
    method Requeue(neighbor: Node, cost: real, start: Node, goal: Node, maxDist: real,
                   ghost rank: map<Node, nat>, ghost steps: nat)
      requires Searching(openSet, nodes, start, goal, maxDist, distance, rank, steps)
      requires neighbor in openSet.heap
      modifies openSet, openSet.heap`heapIdx, neighbor`f
      ensures Searching(openSet, nodes, start, goal, maxDist, distance, rank, steps)
      ensures neighbor.f == cost && neighbor in openSet.heap
    {
      ghost var h0 := openSet.heap;
      openSet.ChangeCost(neighbor, cost);
      assert neighbor in multiset(h0);
      forall n | n in openSet.heap
        ensures n in h0
      {
        assert n in multiset(openSet.heap);
      }
      forall n | n in nodes.Values
        ensures n.closed == old(n.closed) && n.cameFrom == old(n.cameFrom)
        ensures n.heapIdx >= 0 ==> n in openSet.heap
      {
        if n in h0 {
          assert n in multiset(h0);
        } else {
          assert old(n.heapIdx) == n.heapIdx;
        }
      }
      forall n | n in nodes.Values && (n in rank || n in openSet.heap)
        ensures Near(n, start, goal, maxDist, distance) && (n.cameFrom == null ==> n == start)
      {
        assert old(n.cameFrom) == n.cameFrom;
      }
      forall n | n in nodes.Values && n.cameFrom != null
        ensures n.cameFrom in rank && (n in rank ==> rank[n.cameFrom] < rank[n])
      {
        assert old(n.cameFrom) == n.cameFrom;
      }
    }

    /** A neighbor's total cost becomes its path cost plus its estimate,
        before it joins the open set. */
    method SetCost(neighbor: Node, start: Node, goal: Node, maxDist: real,
                   ghost rank: map<Node, nat>, ghost steps: nat)
      requires Searching(openSet, nodes, start, goal, maxDist, distance, rank, steps)
      requires neighbor in nodes.Values && neighbor !in rank && neighbor.heapIdx < 0
      requires Near(neighbor, start, goal, maxDist, distance) && neighbor.cameFrom != null
      modifies neighbor`f
      ensures Searching(openSet, nodes, start, goal, maxDist, distance, rank, steps)
      ensures neighbor.f == neighbor.g + neighbor.h && neighbor.heapIdx < 0
    {
      assert neighbor !in openSet.heap;
      neighbor.f := neighbor.g + neighbor.h;
      assert openSet.Valid();
      SearchingKept(Search(openSet, nodes, start, goal, maxDist, distance, rank, steps));
    }

    /** A neighbor that is not open yet gets its total cost and joins the
        open set. */
    method Enqueue(neighbor: Node, start: Node, goal: Node, maxDist: real,
                   ghost rank: map<Node, nat>, ghost steps: nat)
      requires Searching(openSet, nodes, start, goal, maxDist, distance, rank, steps)
      requires neighbor in nodes.Values && neighbor !in rank && neighbor.heapIdx < 0
      requires Near(neighbor, start, goal, maxDist, distance) && neighbor.cameFrom != null
      modifies openSet, openSet.heap`heapIdx, neighbor`heapIdx, neighbor`f
      ensures Searching(openSet, nodes, start, goal, maxDist, distance, rank, steps)
      ensures neighbor.f == old(neighbor.g + neighbor.h) && neighbor in openSet.heap
    {
      SetCost(neighbor, start, goal, maxDist, rank, steps);
      Push(neighbor, start, goal, maxDist, rank, steps);
    }

    /** `openSet.insert` of a neighbor that was not open. */
    method Push(neighbor: Node, start: Node, goal: Node, maxDist: real,
                ghost rank: map<Node, nat>, ghost steps: nat)
      requires Searching(openSet, nodes, start, goal, maxDist, distance, rank, steps)
      requires neighbor in nodes.Values && neighbor !in rank && neighbor.heapIdx < 0
      requires Near(neighbor, start, goal, maxDist, distance) && neighbor.cameFrom != null
      modifies openSet, openSet.heap`heapIdx, neighbor`heapIdx
      ensures Searching(openSet, nodes, start, goal, maxDist, distance, rank, steps)
      ensures neighbor in openSet.heap
    {
      ghost var h0 := openSet.heap;
      assert neighbor !in h0;
      var ok := openSet.Insert(neighbor);
      forall n | n in nodes.Values
        ensures n.closed == old(n.closed) && n.cameFrom == old(n.cameFrom)
        ensures n.heapIdx >= 0 ==> n in openSet.heap
      {
        if n !in h0 && n != neighbor {
          assert old(n.heapIdx) == n.heapIdx;
        }
      }
      forall n | n in nodes.Values && (n in rank || n in openSet.heap)
        ensures Near(n, start, goal, maxDist, distance) && (n.cameFrom == null ==> n == start)
      {
        assert old(n.cameFrom) == n.cameFrom;
      }
      forall n | n in nodes.Values && n.cameFrom != null
        ensures n.cameFrom in rank && (n in rank ==> rank[n.cameFrom] < rank[n])
      {
        assert old(n.cameFrom) == n.cameFrom;
      }
    }

    /** The start of `findPathInternal`: its costs, then an open set holding
        only it. */
    method Begin(start: Node, goal: Node, maxDist: real)
      requires start in nodes.Values && forall n :: n in nodes.Values ==> Pristine(n)
      modifies openSet, openSet.heap, start
      ensures Searching(openSet, nodes, start, goal, maxDist, distance, map[], 0)
      ensures openSet.heap == [start] && start.g == 0.0 && start.h == Dist(start, goal) && start.f == start.h
    {
      start.g := 0.0;
      start.h := Dist(start, goal);
      start.f := start.h;
      ghost var h0 := openSet.heap;
      openSet.Clear();
      assert start.heapIdx < 0;
      var ok := openSet.Insert(start);
      assert |openSet.heap| == |multiset(openSet.heap)| == 1;
      assert openSet.heap[0] in multiset(openSet.heap);
      assert openSet.heap == [start];
      forall n | n in nodes.Values
        ensures !n.closed && n.cameFrom == null
        ensures n.heapIdx >= 0 ==> n == start
      {
        assert old(n.closed) == n.closed && old(n.cameFrom) == n.cameFrom;
        if n != start && n !in h0 {
          assert old(n.heapIdx) == n.heapIdx;
        }
      }
    }

    /** What `findPathInternal` does with a popped node that is not the
        goal: it may become `closest`, it is closed, and its neighbors are
        relaxed. */
    method Expand(current: Node, closest: Node, start: Node, goal: Node, size: Extent, maxDist: real,
                  ghost rank: map<Node, nat>, ghost steps: nat)
        returns (closest': Node)
      requires Keyed() && neighbors.Length == 32
      requires Searching(openSet, nodes, start, goal, maxDist, distance, rank, steps)
      requires current in nodes.Values && current !in rank && current !in openSet.heap
      requires Near(current, start, goal, maxDist, distance) && (current.cameFrom == null ==> current == start)
      requires Closest(closest, start, goal, distance, rank)
      modifies this`nodes, neighbors, openSet, openSet.heap, nodes.Values
      ensures Keyed() && forall n :: n in nodes.Values ==> n in old(nodes.Values) || fresh(n)
      ensures Searching(openSet, nodes, start, goal, maxDist, distance, rank[current := steps], steps + 1)
      ensures Closest(closest', start, goal, distance, rank[current := steps])
    {
      closest' := closest;
      if Dist(current, goal) < Dist(closest, goal) {
        closest' := current;
      }
      Close(current, start, goal, maxDist, rank, steps);
      Spread(current, start, goal, size, maxDist, rank[current := steps], steps + 1);
    }

    /** `getNeighbors` for a closed node, then the relaxation of each
        neighbor found. */
    method Spread(current: Node, start: Node, goal: Node, size: Extent, maxDist: real,
                  ghost rank: map<Node, nat>, ghost steps: nat)
      requires Keyed() && neighbors.Length == 32
      requires Searching(openSet, nodes, start, goal, maxDist, distance, rank, steps) && current in rank
      modifies this`nodes, neighbors, openSet, openSet.heap, nodes.Values
      ensures Keyed() && forall n :: n in nodes.Values ==> n in old(nodes.Values) || fresh(n)
      ensures Searching(openSet, nodes, start, goal, maxDist, distance, rank, steps)
    {
      var count := Discover(current, start, goal, size, maxDist, rank, steps);
      RelaxAll(current, count, start, goal, maxDist, rank, steps);
    }

    /** `getNeighbors` during the search: the nodes it adds are new and
        leave the search state intact, and the ones it keeps may be relaxed. */
    method Discover(current: Node, start: Node, goal: Node, size: Extent, maxDist: real,
                    ghost rank: map<Node, nat>, ghost steps: nat)
        returns (count: int)
      requires Keyed() && neighbors.Length == 32
      requires Searching(openSet, nodes, start, goal, maxDist, distance, rank, steps)
      modifies this`nodes, neighbors
      ensures Keyed() && forall n :: n in nodes.Values ==> n in old(nodes.Values) || fresh(n)
      ensures Searching(openSet, nodes, start, goal, maxDist, distance, rank, steps)
      ensures 0 <= count <= neighbors.Length
      ensures forall n: Node? :: n in neighbors[..count] ==>
                n != null && n in nodes.Values && n !in rank && distance(SpotOf(n), SpotOf(goal)) < maxDist
    {
      ghost var m0 := nodes;
      ghost var cands: seq<Node?>;
      count, cands := GetNeighbors(current, size, goal, maxDist);
      FreshValues(m0, nodes);
      SearchingUntouched(Search(openSet, m0, start, goal, maxDist, distance, rank, steps));
      SearchingGrown(openSet, m0, nodes, start, goal, maxDist, distance, rank, steps);
      AdmittedOpen(nodes, cands, neighbors[..count], goal, maxDist, distance, rank, steps);
    }

    /** The loop of `findPathInternal` over the `count` neighbors found. */
    method RelaxAll(current: Node, count: int, start: Node, goal: Node, maxDist: real,
                    ghost rank: map<Node, nat>, ghost steps: nat)
      requires Searching(openSet, nodes, start, goal, maxDist, distance, rank, steps)
      requires current in rank && 0 <= count <= neighbors.Length
      requires forall n: Node? :: n in neighbors[..count] ==>
                 n != null && n in nodes.Values && n !in rank && distance(SpotOf(n), SpotOf(goal)) < maxDist
      modifies openSet, openSet.heap, nodes.Values
      ensures Searching(openSet, nodes, start, goal, maxDist, distance, rank, steps)
    {
      var i := 0;
      while i < count
        invariant 0 <= i <= count
        invariant Searching(openSet, nodes, start, goal, maxDist, distance, rank, steps)
      {
        assert neighbors[i] in neighbors[..count];
        Relax(current, neighbors[i], start, goal, maxDist, rank, steps);
        i := i + 1;
      }
    }

    /** `reconstructPath` from a node the search reached. */
    method Finish(end: Node, start: Node, goal: Node, maxDist: real, ghost rank: map<Node, nat>, ghost steps: nat)
        returns (p: Path, ghost chain: seq<Node>)
      requires Searching(openSet, nodes, start, goal, maxDist, distance, rank, steps)
      requires end in nodes.Values && Near(end, start, goal, maxDist, distance)
      requires end.cameFrom == null ==> end == start
      ensures fresh(p) && p.pos == 0 && |p.nodes| == |chain|
      ensures Linked(end, chain) && chain[|chain| - 1] == start && Spots(p.nodes) == Reverse(Spots(chain))
      ensures forall i :: 0 <= i < |chain| ==> Near(chain[i], start, goal, maxDist, distance)
    {
      chain := ChainOf(openSet, nodes, start, goal, maxDist, distance, rank, steps, end);
      ChainNear(openSet, nodes, start, goal, maxDist, distance, rank, steps, chain);
      p := ReconstructPath(end, chain);
    }


    /** `findPathInternal`: A* from `start` towards `goal`. The path leads
        from `start` to the goal once the goal is popped; otherwise, when
        the open set runs dry, to the popped node nearest the goal, or
        there is none when that is the start itself. `fuel` bounds the
        number of pops. */
    method FindPathInternal(start: Node, goal: Node, size: Extent, maxDist: real, fuel: nat)
        returns (p: Path?, ghost end: Node, ghost chain: seq<Node>, ghost explored: set<Node>)
      requires Keyed() && neighbors.Length == 32
      requires start in nodes.Values && forall n :: n in nodes.Values ==> Pristine(n)
      modifies this`nodes, neighbors, openSet, openSet.heap, nodes.Values
      ensures p == null ==> end == start
      ensures end == start && end != goal ==> p == null
      ensures p != null ==> fresh(p) && p.pos == 0 && |p.nodes| == |chain|
      ensures p != null ==> Linked(end, chain) && chain[|chain| - 1] == start
      ensures p != null ==> Spots(p.nodes) == Reverse(Spots(chain))
      ensures p != null ==> forall i :: 0 <= i < |chain| ==> Near(chain[i], start, goal, maxDist, distance)
      ensures end == goal || end == start || (end in explored && Dist(end, goal) < Dist(start, goal))
      ensures end != goal ==> forall n :: n in explored ==> Dist(end, goal) <= Dist(n, goal)
      ensures forall n :: n in explored ==> n.closed && n != goal
    {
      Begin(start, goal, maxDist);
      var found, last;
      ghost var rank, steps;
      found, last, rank, steps := Explore(start, goal, size, maxDist, fuel);
      end, explored := last, rank.Keys;
      if !found && last == start {
        return null, end, [], explored;
      }
      p, chain := Finish(last, start, goal, maxDist, rank, steps);
    }

    /** The loop of `findPathInternal`: pop the cheapest open node; stop
        with it when it is the goal, otherwise close it, keep it when it is
        the nearest to the goal so far, and relax its neighbors. Without
        the goal, `last` is the popped node nearest the goal, or `start`. */
    method Explore(start: Node, goal: Node, size: Extent, maxDist: real, fuel: nat)
        returns (found: bool, last: Node, ghost rank: map<Node, nat>, ghost steps: nat)
      requires Keyed() && neighbors.Length == 32
      requires Searching(openSet, nodes, start, goal, maxDist, distance, map[], 0)
      modifies this`nodes, neighbors, openSet, openSet.heap, nodes.Values
      ensures Searching(openSet, nodes, start, goal, maxDist, distance, rank, steps) && goal !in rank
      ensures last in nodes.Values && Near(last, start, goal, maxDist, distance) && (last.cameFrom == null ==> last == start)
      ensures found ==> last == goal
      ensures !found ==> Closest(last, start, goal, distance, rank)
    {
      last := start;
      rank, steps := map[], 0;
      var budget := fuel;
      while !openSet.IsEmpty() && budget > 0
        invariant Keyed() && forall n :: n in nodes.Values ==> n in old(nodes.Values) || fresh(n)
        invariant Searching(openSet, nodes, start, goal, maxDist, distance, rank, steps)
        invariant goal !in rank && Closest(last, start, goal, distance, rank)
        decreases budget
      {
        var current := Next(start, goal, maxDist, rank, steps);
        if current == goal {
          return true, current, rank, steps;
        }
        last := Expand(current, last, start, goal, size, maxDist, rank, steps);
        rank, steps := rank[current := steps], steps + 1;
        budget := budget - 1;
      }
      found := false;
      if last != start {
        assert last in rank && last in nodes.Values;
        ghost var c := last.cameFrom;
        assert Near(last, start, goal, maxDist, distance) && (last.cameFrom == null ==> last == start);
      }
    }


    /** `findPath` towards a point, for an entity whose box has its lower
        corner at (x0, y0, z0): a new node map and an empty open set, the
        start node at the block of that corner, the goal node at the block
        of the target moved back by half the box's width, and a search box
        one block wider and taller than the entity. */
    method FindPath(x0: real, y0: real, z0: real, width: real, height: real,
                    targetX: real, targetY: real, targetZ: real, maxDist: real, fuel: nat)
        returns (p: Path?, ghost start: Node, ghost goal: Node, ghost end: Node, ghost chain: seq<Node>,
                 ghost explored: set<Node>)
      requires neighbors.Length == 32
      modifies this`nodes, neighbors, openSet, openSet.heap
      ensures SpotOf(start) == (Mth.Floor(x0), Mth.Floor(y0), Mth.Floor(z0))
      ensures SpotOf(goal) == (Mth.Floor(targetX - width / 2.0), Mth.Floor(targetY), Mth.Floor(targetZ - width / 2.0))
      ensures p == null ==> end == start
      ensures end == start && end != goal ==> p == null
      ensures p != null ==> fresh(p) && p.pos == 0 && |p.nodes| == |chain|
      ensures p != null ==> Linked(end, chain) && chain[|chain| - 1] == start
      ensures p != null ==> Spots(p.nodes) == Reverse(Spots(chain))
      ensures p != null ==> forall i :: 0 <= i < |chain| ==> Near(chain[i], start, goal, maxDist, distance)
      ensures end == goal || end == start || (end in explored && Dist(end, goal) < Dist(start, goal))
      ensures end != goal ==> forall n :: n in explored ==> Dist(end, goal) <= Dist(n, goal)
    {
      openSet.Clear();
      nodes := map[];
      var s := GetOrCreateNode(Mth.Floor(x0), Mth.Floor(y0), Mth.Floor(z0));
      var g := GetOrCreateNode(Mth.Floor(targetX - width / 2.0), Mth.Floor(targetY), Mth.Floor(targetZ - width / 2.0));
      var size := Extent(Mth.Floor(width + 1.0), Mth.Floor(height + 1.0), Mth.Floor(width + 1.0));
      forall n | n in nodes.Values
        ensures Pristine(n)
      {
        var k :| k in nodes && nodes[k] == n;
        assert n == s || n == g;
      }
      start, goal := s, g;
      p, end, chain, explored := FindPathInternal(s, g, size, maxDist, fuel);
    }

    /** `findPath` towards a block: the point at the block's centre. The
        goal node then sits on the block's own level. */
    method FindPathToBlock(x0: real, y0: real, z0: real, width: real, height: real,
                           targetX: int, targetY: int, targetZ: int, maxDist: real, fuel: nat)
        returns (p: Path?, ghost start: Node, ghost goal: Node, ghost end: Node)
      requires neighbors.Length == 32
      modifies this`nodes, neighbors, openSet, openSet.heap
      ensures SpotOf(start) == (Mth.Floor(x0), Mth.Floor(y0), Mth.Floor(z0))
      ensures SpotOf(goal) == (Mth.Floor(targetX as real + 0.5 - width / 2.0), targetY,
                               Mth.Floor(targetZ as real + 0.5 - width / 2.0))
      ensures p == null ==> end == start
      ensures end == goal || end == start || Dist(end, goal) < Dist(start, goal)
    {
      ghost var chain, explored;
      assert Mth.Floor(targetY as real + 0.5) == targetY;
      p, start, goal, end, chain, explored :=
        FindPath(x0, y0, z0, width, height, targetX as real + 0.5, targetY as real + 0.5, targetZ as real + 0.5,
                 maxDist, fuel);
    }

  }
}
