/**
 * The C++ port's `LightingEngine`: a queue of pending light updates, each a
 * box of cells on one light layer, and the per-cell light arithmetic that
 * reads and writes the level's sky-light and block-light vectors.
 *
 * The engine's level is a `Level.Level` that is always present; the
 * worker threads, the breadth-first passes and `processUpdates` are
 * outside the model.
 */
module Lighting {
  import Mth
  import Level

  // ---------------------------------------------------------------------
  // Boxes of cells
  // ---------------------------------------------------------------------

  datatype LightLayer = Sky | Block

  /** An inclusive box of cells, corners (x0, y0, z0) and (x1, y1, z1). */
  datatype Box = Box(x0: int, y0: int, z0: int, x1: int, y1: int, z1: int)

  /** `LightUpdate`: a box waiting to be relit on one layer. */
  datatype LightUpdate = LightUpdate(layer: LightLayer, box: Box)

  /** Box `a` lies inside box `c`, corner by corner. */
  predicate Within(a: Box, c: Box)
  {
    c.x0 <= a.x0 && c.y0 <= a.y0 && c.z0 <= a.z0
    && a.x1 <= c.x1 && a.y1 <= c.y1 && a.z1 <= c.z1
  }

  /** Box `b` with every face pushed out by k cells. */
  function Grow(b: Box, k: int): Box
  {
    Box(b.x0 - k, b.y0 - k, b.z0 - k, b.x1 + k, b.y1 + k, b.z1 + k)
  }

  function Min(a: int, b: int): int { if a <= b then a else b }
  function Max(a: int, b: int): int { if a >= b then a else b }

  /** The bounding box of two boxes. */
  function Union(b: Box, n: Box): Box
  {
    Box(Min(b.x0, n.x0), Min(b.y0, n.y0), Min(b.z0, n.z0),
        Max(b.x1, n.x1), Max(b.y1, n.y1), Max(b.z1, n.z1))
  }

  /** `getVolume`: the number of cells of a box. */
  function Volume(b: Box): int
  {
    (b.x1 - b.x0 + 1) * (b.y1 - b.y0 + 1) * (b.z1 - b.z0 + 1)
  }

  /** The union is the least box holding both boxes. */
  lemma UnionLeast(b: Box, n: Box, c: Box)
    ensures Within(b, Union(b, n)) && Within(n, Union(b, n))
    ensures Within(b, c) && Within(n, c) <==> Within(Union(b, n), c)
  {
  }

  /** `expandToContain`: a box already inside `b` leaves it alone and
      counts as merged; a box within one cell of `b` whose union with `b`
      adds at most two cells grows `b` to that union; anything else is
      refused and `b` stays as it was. The result is the merge flag and
      the box left in the queue entry. */
  function ExpandToContain(b: Box, n: Box): (r: (bool, Box))
    ensures Within(n, b) ==> r == (true, b)
    ensures !r.0 ==> r.1 == b
    ensures r.0 ==> Within(b, r.1) && Within(n, r.1)
    ensures r.1 == b || r.1 == Union(b, n)
  {
    if Within(n, b) then (true, b)
    else if Within(n, Grow(b, 1)) then
      var u := Union(b, n);
      if Volume(u) - Volume(b) <= 2 then (true, u) else (false, b)
    else (false, b)
  }

  /** When `expandToContain` merges, the grown box stays within one cell
      of the old one and has at most two more cells; and it merges exactly
      when the box is contained already or fits those two limits. */
  lemma ExpandToContainLimits(b: Box, n: Box)
    ensures var r := ExpandToContain(b, n);
      (r.0 ==> Within(r.1, Grow(b, 1)) && Volume(r.1) <= Volume(b) + 2)
      && (r.0 <==> Within(n, b) || (Within(n, Grow(b, 1)) && Volume(Union(b, n)) <= Volume(b) + 2))
  {
  }

  // ---------------------------------------------------------------------
  // The update queue
  // ---------------------------------------------------------------------

  /** The queue is capped at a million entries, only the five newest are
      tried for a merge, and boxes of more than 32768 cells are dropped. */
  const MaxQueue := 1000000
  const MergeWindow := 5
  const MaxVolume := 32768

  /** Every corner of the box is a cell of a w x h x d level. */
  predicate InWorld(b: Box, w: int, h: int, d: int)
  {
    0 <= b.x0 < w && 0 <= b.x1 < w && 0 <= b.y0 < h && 0 <= b.y1 < h && 0 <= b.z0 < d && 0 <= b.z1 < d
  }

  predicate QueueInWorld(q: seq<LightUpdate>, w: int, h: int, d: int)
  {
    forall j :: 0 <= j < |q| ==> InWorld(q[j].box, w, h, d)
  }

  /** `queueUpdate`'s clamping: each coordinate to [0, size - 1]. */
  function ClampBox(b: Box, w: int, h: int, d: int): (r: Box)
    requires w > 0 && h > 0 && d > 0
    ensures InWorld(r, w, h, d)
    ensures InWorld(b, w, h, d) ==> r == b
  {
    Box(Mth.ClampInt(b.x0, 0, w - 1), Mth.ClampInt(b.y0, 0, h - 1), Mth.ClampInt(b.z0, 0, d - 1),
        Mth.ClampInt(b.x1, 0, w - 1), Mth.ClampInt(b.y1, 0, h - 1), Mth.ClampInt(b.z1, 0, d - 1))
  }

  /** The merge `queueUpdate` tries, from the i-th newest entry on: the
      queue with the first entry of the same layer that accepts the box
      grown to hold it, or None when none of the newest five does. */
  function TryMerge(q: seq<LightUpdate>, layer: LightLayer, n: Box, i: nat): Option<seq<LightUpdate>>
    decreases MergeWindow - i
  {
    if i >= Min(MergeWindow, |q|) then None
    else
      var idx := |q| - i - 1;
      var (merged, b) := ExpandToContain(q[idx].box, n);
      if q[idx].layer == layer && merged then Some(q[idx := LightUpdate(layer, b)])
      else TryMerge(q, layer, n, i + 1)
  }

  /** The queue after `queueUpdate` of an already clamped box. */
  function QueueAfter(q: seq<LightUpdate>, layer: LightLayer, n: Box): seq<LightUpdate>
  {
    if Volume(n) > MaxVolume then q
    else match TryMerge(q, layer, n, 0)
      case Some(q') => q'
      case None =>
        var q' := q + [LightUpdate(layer, n)];
        if |q'| > MaxQueue then q'[1..] else q'
  }

  datatype Option<T> = None | Some(value: T)

  /** A merge keeps the queue's length and layers and only grows one
      entry's box, to one that holds the new box. */
  lemma {:induction false} TryMergeGrows(q: seq<LightUpdate>, layer: LightLayer, n: Box, i: nat)
    requires TryMerge(q, layer, n, i).Some?
    ensures var q' := TryMerge(q, layer, n, i).value;
      |q'| == |q|
      && (forall j :: 0 <= j < |q| ==> q'[j].layer == q[j].layer && Within(q[j].box, q'[j].box))
      && (exists j :: 0 <= j < |q| && q'[j].layer == layer && Within(n, q'[j].box))
    decreases MergeWindow - i
  {
    var idx := |q| - i - 1;
    var (merged, b) := ExpandToContain(q[idx].box, n);
    if q[idx].layer == layer && merged {
      var q' := q[idx := LightUpdate(layer, b)];
      assert q'[idx].layer == layer && Within(n, q'[idx].box);
    } else {
      TryMergeGrows(q, layer, n, i + 1);
    }
  }

  /** A merge grows an entry to the union of two boxes of the level, so
      every queued box stays inside the level. */
  lemma {:induction false} TryMergeInWorld(q: seq<LightUpdate>, layer: LightLayer, n: Box, i: nat, w: int, h: int, d: int)
    requires TryMerge(q, layer, n, i).Some?
    requires QueueInWorld(q, w, h, d) && InWorld(n, w, h, d)
    ensures QueueInWorld(TryMerge(q, layer, n, i).value, w, h, d)
    decreases MergeWindow - i
  {
    var idx := |q| - i - 1;
    var (merged, b) := ExpandToContain(q[idx].box, n);
    if q[idx].layer == layer && merged {
      assert InWorld(q[idx].box, w, h, d);
      assert InWorld(b, w, h, d);
      var q' := q[idx := LightUpdate(layer, b)];
      forall j | 0 <= j < |q'|
        ensures InWorld(q'[j].box, w, h, d)
      {
        if j != idx {
          assert q'[j] == q[j];
        }
      }
    } else {
      TryMergeInWorld(q, layer, n, i + 1, w, h, d);
    }
  }

  /** After `queueUpdate` a box of at most 32768 cells is covered by a
      queued entry of its layer, and no queued box was lost or shrunk
      except the oldest entry when the cap is passed; a bigger box leaves
      the queue alone. The queue stays inside the level and under the cap. */
  lemma QueueAfterCovers(q: seq<LightUpdate>, layer: LightLayer, n: Box, w: int, h: int, d: int)
    ensures var q' := QueueAfter(q, layer, n);
      (Volume(n) > MaxVolume ==> q' == q)
      && (Volume(n) <= MaxVolume ==> exists j :: 0 <= j < |q'| && q'[j].layer == layer && Within(n, q'[j].box))
      && (|q| <= MaxQueue ==> |q'| <= MaxQueue)
      && (QueueInWorld(q, w, h, d) && InWorld(n, w, h, d) ==> QueueInWorld(q', w, h, d))
      && ((|q'| == |q| && forall j :: 0 <= j < |q| ==> q'[j].layer == q[j].layer && Within(q[j].box, q'[j].box))
          || q' == q + [LightUpdate(layer, n)]
          || q' == q[1..] + [LightUpdate(layer, n)])
  {
    var q' := QueueAfter(q, layer, n);
    if Volume(n) <= MaxVolume {
      var m := TryMerge(q, layer, n, 0);
      if m.Some? {
        TryMergeGrows(q, layer, n, 0);
        if QueueInWorld(q, w, h, d) && InWorld(n, w, h, d) {
          TryMergeInWorld(q, layer, n, 0, w, h, d);
        }
      } else {
        var last := |q'| - 1;
        assert q'[last] == LightUpdate(layer, n);
        if |q| + 1 > MaxQueue {
          assert (q + [LightUpdate(layer, n)])[1..] == q[1..] + [LightUpdate(layer, n)];
        }
      }
    }
  }

  // ---------------------------------------------------------------------
  // Light arithmetic
  // ---------------------------------------------------------------------

  /** How much light a tile takes away: its `lightBlock`, at least 1. */
  function Opacity(lightBlock: seq<int>, tileId: int): (r: int)
    requires |lightBlock| == 256 && forall t :: 0 <= t < 256 ==> 0 <= lightBlock[t] < 256
    ensures 1 <= r < 256
    ensures !Level.Blocker(lightBlock, tileId) ==> r == 1
    ensures Level.Blocker(lightBlock, tileId) ==> r == lightBlock[tileId]
  {
    var blockValue := if 0 < tileId < 256 then lightBlock[tileId] else 0;
    if blockValue == 0 then 1 else blockValue
  }

  /** The light `propagateBlockLightTo` offers a cell from a neighbour at
      `lightLevel`: nothing through an opaque tile or when the light would
      run out, else the neighbour's light less the opacity, or the tile's
      own emission when that is more. */
  function BlockCandidate(opacity: int, emission: int, lightLevel: int): (r: int)
    requires opacity >= 1 && emission >= 0
    ensures r >= 0
    ensures r == 0 || r == lightLevel - opacity || r == emission
    ensures r > 0 ==> lightLevel - opacity > 0 && opacity < 15 && r >= lightLevel - opacity && r >= emission
    ensures r <= Max(lightLevel - 1, emission) && (r > 0 ==> r <= Max(lightLevel - opacity, emission))
  {
    if lightLevel <= 0 || opacity >= 15 then 0
    else if lightLevel - opacity <= 0 then 0
    else Max(lightLevel - opacity, emission)
  }

  /** The same for `propagateSkyLightTo`: an open-sky cell gets full light. */
  function SkyCandidate(opacity: int, skyLit: bool, lightLevel: int): (r: int)
    requires opacity >= 1
    ensures r >= 0
    ensures r > 0 ==> lightLevel - opacity > 0 && opacity < 15
    ensures r > 0 ==> (if skyLit then r == 15 else r == lightLevel - opacity)
  {
    if lightLevel <= 0 || opacity >= 15 then 0
    else if lightLevel - opacity <= 0 then 0
    else if skyLit then 15
    else lightLevel - opacity
  }

  /** The six face neighbours of a cell, in the order `calculateLightAt`
      visits them. */
  function Neighbours(x: int, y: int, z: int): (r: seq<(int, int, int)>)
    ensures |r| == 6
  {
    [(x - 1, y, z), (x + 1, y, z), (x, y - 1, z), (x, y + 1, z), (x, y, z - 1), (x, y, z + 1)]
  }

  // ---------------------------------------------------------------------
  // The engine
  // ---------------------------------------------------------------------

  class LightingEngine {
    const level: Level.Level
    var updateQueue: seq<LightUpdate>

    /** The queue's standing invariant: every queued box lies in the level
        and there are at most a million of them. */
    ghost predicate QueueOk()
      reads this
    {
      QueueInWorld(updateQueue, level.width, level.height, level.depth) && |updateQueue| <= MaxQueue
    }

    constructor (level: Level.Level)
      ensures this.level == level && updateQueue == [] && QueueOk()
    {
      this.level := level;
      updateQueue := [];
    }

    /** `queueUpdate`: the box clamped to the level, then merged into one
        of the five newest entries of its layer or appended, the oldest
        entry dropped past the cap; a clamped box of more than 32768
        cells is not queued. */
    method QueueUpdate(layer: LightLayer, x0: int, y0: int, z0: int, x1: int, y1: int, z1: int)
      requires level.Valid()
      modifies this`updateQueue
      ensures updateQueue == QueueAfter(old(updateQueue), layer,
                ClampBox(Box(x0, y0, z0, x1, y1, z1), level.width, level.height, level.depth))
      ensures old(QueueOk()) ==> QueueOk()
    {
      var n := ClampBox(Box(x0, y0, z0, x1, y1, z1), level.width, level.height, level.depth);
      ghost var q := updateQueue;
      if Volume(n) > MaxVolume {
        return;
      }
      var checkCount := Min(MergeWindow, |updateQueue|);
      var i := 0;
      while i < checkCount
        invariant 0 <= i <= checkCount
        invariant TryMerge(updateQueue, layer, n, 0) == TryMerge(updateQueue, layer, n, i)
      {
        var idx := |updateQueue| - i - 1;
        if idx >= 0 && updateQueue[idx].layer == layer {
          var (merged, b) := ExpandToContain(updateQueue[idx].box, n);
          if merged {
            updateQueue := updateQueue[idx := LightUpdate(layer, b)];
            QueueAfterCovers(q, layer, n, level.width, level.height, level.depth);
            return;
          }
        }
        i := i + 1;
      }
      updateQueue := updateQueue + [LightUpdate(layer, n)];
      if |updateQueue| > MaxQueue {
        updateQueue := updateQueue[1..];
      }
      QueueAfterCovers(q, layer, n, level.width, level.height, level.depth);
    }

    /** `getBrightness`: outside the level, full sky light and no block
        light; inside, the level's stored value for the layer. */
    function GetBrightness(layer: LightLayer, x: int, y: int, z: int): (r: int)
      requires level.Valid()
      reads level, level.blocks, level.skyLight, level.blockLight
      ensures r == (if layer == Sky then level.GetSkyLight(x, y, z) else level.GetBlockLight(x, y, z))
      ensures !Level.InBounds(level.width, level.height, level.depth, x, y, z) ==> r == (if layer == Sky then 15 else 0)
      ensures level.LightsOk() ==> 0 <= r <= 15
    {
      if !Level.InBounds(level.width, level.height, level.depth, x, y, z) then
        if layer == Sky then 15 else 0
      else if layer == Sky then level.GetSkyLight(x, y, z)
      else level.GetBlockLight(x, y, z)
    }

    /** `isSkyLit`: never below the level, always above it, and otherwise
        at or above the column's recorded height. */
    function IsSkyLit(x: int, y: int, z: int): (lit: bool)
      requires level.Valid()
      reads level, level.blocks, level.heightMap
      ensures y < 0 ==> !lit
      ensures y >= level.height ==> lit
      ensures 0 <= y < level.height ==> (lit <==> y >= level.GetHeightAt(x, z))
    {
      if y < 0 then false
      else if y >= level.height then true
      else y >= level.GetHeightAt(x, z)
    }

    /** With a height map that is right, a cell of the level is sky-lit
        exactly when no light blocker sits at or above it in its column. */
    lemma SkyLitIsOpenSky(x: int, y: int, z: int)
      requires level.Valid() && level.HeightsOk()
      requires Level.InBounds(level.width, level.height, level.depth, x, y, z)
      ensures IsSkyLit(x, y, z) <==>
                forall y' :: y <= y' < level.height ==> !Level.Blocker(level.lightBlock, level.GetTile(x, y', z))
    {
      var r := level.Height(x, z);
      assert level.GetHeightAt(x, z) == r;
      if r != 0 {
        assert Level.Blocker(level.lightBlock, level.GetTile(x, r - 1, z));
      }
    }

    /** `getLightSource`: full light for a sky-lit cell on the sky layer,
        the tile's emission on the block layer. */
    function GetLightSource(layer: LightLayer, x: int, y: int, z: int): (s: int)
      requires level.Valid()
      reads level, level.blocks, level.heightMap
      ensures 0 <= s <= 15
      ensures layer == Sky ==> (s == 15 <==> IsSkyLit(x, y, z)) && (s == 0 <==> !IsSkyLit(x, y, z))
      ensures layer == Block ==> s == (if 0 < level.GetTile(x, y, z) then level.lightEmission[level.GetTile(x, y, z)] else 0)
    {
      if layer == Sky then
        if IsSkyLit(x, y, z) then 15 else 0
      else
        var tileId := level.GetTile(x, y, z);
        if 0 < tileId < 256 then level.lightEmission[tileId] else 0
    }

    /** The light of the k-th face neighbour on one layer. */
    function NeighbourBrightness(layer: LightLayer, x: int, y: int, z: int, k: int): int
      requires level.Valid() && 0 <= k < 6
      reads level, level.blocks, level.skyLight, level.blockLight
    {
      var (nx, ny, nz) := Neighbours(x, y, z)[k];
      GetBrightness(layer, nx, ny, nz)
    }

    /** The brightest of the six neighbours on one layer, or 0. */
    function MaxNeighbour(layer: LightLayer, x: int, y: int, z: int): (m: int)
      requires level.Valid()
      reads level, level.blocks, level.skyLight, level.blockLight
      ensures forall k :: 0 <= k < 6 ==> m >= NeighbourBrightness(layer, x, y, z, k)
      ensures m == 0 || exists k :: 0 <= k < 6 && m == NeighbourBrightness(layer, x, y, z, k)
    {
      var m0 := Max(0, NeighbourBrightness(layer, x, y, z, 0));
      var m1 := Max(m0, NeighbourBrightness(layer, x, y, z, 1));
      var m2 := Max(m1, NeighbourBrightness(layer, x, y, z, 2));
      var m3 := Max(m2, NeighbourBrightness(layer, x, y, z, 3));
      var m4 := Max(m3, NeighbourBrightness(layer, x, y, z, 4));
      Max(m4, NeighbourBrightness(layer, x, y, z, 5))
    }

    /** `calculateLightAt`: 0 outside the level and in an opaque tile that
        emits nothing; otherwise the cell's own source, or the brightest
        neighbour's light less the cell's opacity, whichever is more. */
    function CalculateLightAt(layer: LightLayer, x: int, y: int, z: int): (r: int)
      requires level.Valid() && level.LightsOk()
      reads level, level.blocks, level.skyLight, level.blockLight, level.heightMap
      ensures 0 <= r <= 15
      ensures !Level.InBounds(level.width, level.height, level.depth, x, y, z) ==> r == 0
      ensures var s, op := GetLightSource(layer, x, y, z), Opacity(level.lightBlock, level.GetTile(x, y, z));
        Level.InBounds(level.width, level.height, level.depth, x, y, z) ==>
          if op >= 15 && s == 0 then r == 0
          else r >= s && r >= MaxNeighbour(layer, x, y, z) - op
               && (r == s || r == MaxNeighbour(layer, x, y, z) - op)
    {
      if !Level.InBounds(level.width, level.height, level.depth, x, y, z) then 0
      else
        var tileId := level.GetTile(x, y, z);
        var source := GetLightSource(layer, x, y, z);
        var blockValue := Opacity(level.lightBlock, tileId);
        if blockValue >= 15 && source == 0 then 0
        else
          var newLight := Max(0, MaxNeighbour(layer, x, y, z) - blockValue);
          Max(newLight, source)
    }

    /** Light fades with distance: a computed light above the cell's own
        source is at most one less than its brightest neighbour. */
    lemma LightFades(layer: LightLayer, x: int, y: int, z: int)
      requires level.Valid() && level.LightsOk()
      ensures var r := CalculateLightAt(layer, x, y, z);
        r <= Max(GetLightSource(layer, x, y, z), MaxNeighbour(layer, x, y, z) - 1)
    {
    }

    /** `setBrightness`: outside the level nothing happens; inside, the
        layer's cell takes the value clamped to 0..15, the other layer is
        untouched, and listeners are notified exactly when the stored
        value changed (the result). */
    method SetBrightness(layer: LightLayer, x: int, y: int, z: int, value: int) returns (notified: bool)
      requires level.Valid()
      modifies level.skyLight, level.blockLight
      ensures level.Valid()
      ensures var w, h, d := level.width, level.height, level.depth;
        if !Level.InBounds(w, h, d, x, y, z) then
          level.skyLight[..] == old(level.skyLight[..]) && level.blockLight[..] == old(level.blockLight[..])
        else if layer == Sky then
          level.skyLight[..] == Level.Written(old(level.skyLight[..]), w, h, d, x, y, z, Mth.ClampInt(value, 0, 15))
          && level.blockLight[..] == old(level.blockLight[..])
        else
          level.blockLight[..] == Level.Written(old(level.blockLight[..]), w, h, d, x, y, z, Mth.ClampInt(value, 0, 15))
          && level.skyLight[..] == old(level.skyLight[..])
      ensures notified <==> Level.InBounds(level.width, level.height, level.depth, x, y, z)
                            && old(GetBrightness(layer, x, y, z)) != Mth.ClampInt(value, 0, 15)
      ensures old(level.LightsOk()) ==> level.LightsOk()
    {
      if !Level.InBounds(level.width, level.height, level.depth, x, y, z) {
        return false;
      }
      var v := Mth.ClampInt(value, 0, 15);
      Level.IndexRange(level.width, level.height, level.depth, x, y, z);
      var index := Level.Index(level.width, level.depth, x, y, z);
      var oldValue;
      if layer == Sky {
        oldValue := level.skyLight[index];
        level.skyLight[index] := v;
      } else {
        oldValue := level.blockLight[index];
        level.blockLight[index] := v;
      }
      notified := oldValue != v;
    }

    /** `propagateBlockLightTo`: a cell of the level takes the light its
        neighbour at `lightLevel` offers when that is more than it holds.
        Stored block light never goes down. */
    method PropagateBlockLightTo(x: int, y: int, z: int, lightLevel: int)
      requires level.Valid() && level.LightsOk()
      modifies level.skyLight, level.blockLight
      ensures level.Valid() && level.LightsOk() && level.skyLight[..] == old(level.skyLight[..])
      ensures var w, h, d := level.width, level.height, level.depth;
        var tileId := old(level.GetTile(x, y, z));
        var c := BlockCandidate(Opacity(level.lightBlock, tileId),
                                if 0 < tileId then level.lightEmission[tileId] else 0, lightLevel);
        level.blockLight[..] ==
          if Level.InBounds(w, h, d, x, y, z) && c > old(level.GetBlockLight(x, y, z))
          then Level.Written(old(level.blockLight[..]), w, h, d, x, y, z, Mth.ClampInt(c, 0, 15))
          else old(level.blockLight[..])
      ensures forall i :: 0 <= i < level.blockLight.Length ==> level.blockLight[i] >= old(level.blockLight[i])
    {
      if lightLevel <= 0 || !Level.InBounds(level.width, level.height, level.depth, x, y, z) {
        return;
      }
      var tileId := level.GetTile(x, y, z);
      var blockValue := Opacity(level.lightBlock, tileId);
      if blockValue >= 15 {
        return;
      }
      var newLight := lightLevel - blockValue;
      if newLight <= 0 {
        return;
      }
      var emission := if 0 < tileId < 256 then level.lightEmission[tileId] else 0;
      if emission > newLight {
        newLight := emission;
      }
      var currentLight := level.GetBlockLight(x, y, z);
      if newLight > currentLight {
        var notified := SetBrightness(Block, x, y, z, newLight);
      }
    }

    /** `propagateSkyLightTo`: the same on the sky layer, where an open-sky
        cell takes full light. Stored sky light never goes down. */
    method PropagateSkyLightTo(x: int, y: int, z: int, lightLevel: int)
      requires level.Valid() && level.LightsOk()
      modifies level.skyLight, level.blockLight
      ensures level.Valid() && level.LightsOk() && level.blockLight[..] == old(level.blockLight[..])
      ensures var w, h, d := level.width, level.height, level.depth;
        var c := SkyCandidate(Opacity(level.lightBlock, old(level.GetTile(x, y, z))), old(IsSkyLit(x, y, z)), lightLevel);
        level.skyLight[..] ==
          if Level.InBounds(w, h, d, x, y, z) && c > old(level.GetSkyLight(x, y, z))
          then Level.Written(old(level.skyLight[..]), w, h, d, x, y, z, Mth.ClampInt(c, 0, 15))
          else old(level.skyLight[..])
      ensures forall i :: 0 <= i < level.skyLight.Length ==> level.skyLight[i] >= old(level.skyLight[i])
    {
      if lightLevel <= 0 || !Level.InBounds(level.width, level.height, level.depth, x, y, z) {
        return;
      }
      var tileId := level.GetTile(x, y, z);
      var blockValue := Opacity(level.lightBlock, tileId);
      if blockValue >= 15 {
        return;
      }
      var newLight := lightLevel - blockValue;
      if newLight <= 0 {
        return;
      }
      if IsSkyLit(x, y, z) {
        newLight := 15;
      }
      var currentLight := level.GetSkyLight(x, y, z);
      if newLight > currentLight {
        var notified := SetBrightness(Sky, x, y, z, newLight);
      }
    }
  }
}
