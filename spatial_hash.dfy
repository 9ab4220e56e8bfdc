/**
 * The C++ port's spatial hash of entities: space is cut into 16-block
 * cubes, each entity is registered in every cell its box touches, and an
 * area query looks only at the cells the area touches.
 */
module SpatialHash {
  import opened Aabb

  const CellSize: real := 16.0

  datatype Cell = Cell(x: int, y: int, z: int)

  /** The cell index of a coordinate: `floor(v / 16)`. */
  function CellOf(v: real): int
  {
    (v / CellSize).Floor
  }

  /** The cells `getCellsForAABB` lists for a box: from the cell of the
      low corner to the cell of the high corner, both included. */
  predicate InCells(bb: Box, c: Cell)
  {
    CellOf(bb.x0) <= c.x <= CellOf(bb.x1)
    && CellOf(bb.y0) <= c.y <= CellOf(bb.y1)
    && CellOf(bb.z0) <= c.z <= CellOf(bb.z1)
  }

  /** Lexicographic order on cells, x first: the order the loops list them. */
  predicate Less(a: Cell, b: Cell)
  {
    a.x < b.x || (a.x == b.x && (a.y < b.y || (a.y == b.y && a.z < b.z)))
  }

  /** A larger coordinate never lies in a lower cell. */
  lemma {:induction false} CellOfMono(u: real, v: real)
    requires u <= v
    ensures CellOf(u) <= CellOf(v)
  {
    assert u / CellSize <= v / CellSize;
  }

  /** Two boxes that intersect share a cell, so an entity registered in the
      cells of its box is seen by every query whose area it intersects. */
  lemma IntersectingShareCell(a: Box, b: Box)
    requires Proper(a) && Proper(b) && Intersects(a, b)
    ensures exists c :: InCells(a, c) && InCells(b, c)
  {
    var x, y, z := Max(a.x0, b.x0), Max(a.y0, b.y0), Max(a.z0, b.z0);
    CellOfMono(a.x0, x); CellOfMono(b.x0, x); CellOfMono(x, a.x1); CellOfMono(x, b.x1);
    CellOfMono(a.y0, y); CellOfMono(b.y0, y); CellOfMono(y, a.y1); CellOfMono(y, b.y1);
    CellOfMono(a.z0, z); CellOfMono(b.z0, z); CellOfMono(z, a.z1); CellOfMono(z, b.z1);
    assert InCells(a, Cell(CellOf(x), CellOf(y), CellOf(z)));
  }

  /** `getCellsForAABB`: every cell of the box exactly once, in order. */
  method GetCellsForBox(bb: Box) returns (r: seq<Cell>)
    ensures forall c :: c in r <==> InCells(bb, c)
    ensures forall i, j :: 0 <= i < j < |r| ==> Less(r[i], r[j])
  {
    var minX, minY, minZ := CellOf(bb.x0), CellOf(bb.y0), CellOf(bb.z0);
    var maxX, maxY, maxZ := CellOf(bb.x1), CellOf(bb.y1), CellOf(bb.z1);
    r := [];
    var x := minX;
    while x <= maxX
      invariant minX <= x || maxX < minX
      invariant forall c :: c in r <==> InCells(bb, c) && c.x < x
      invariant forall i, j :: 0 <= i < j < |r| ==> Less(r[i], r[j])
      invariant forall i :: 0 <= i < |r| ==> r[i].x < x
    {
      var y := minY;
      while y <= maxY
        invariant minY <= y || maxY < minY
        invariant forall c :: c in r <==> InCells(bb, c) && (c.x < x || (c.x == x && c.y < y))
        invariant forall i, j :: 0 <= i < j < |r| ==> Less(r[i], r[j])
        invariant forall i :: 0 <= i < |r| ==> Less(r[i], Cell(x, y, minZ))
      {
        var z := minZ;
        while z <= maxZ
          invariant minZ <= z || maxZ < minZ
          invariant forall c :: c in r <==> InCells(bb, c) && (c.x < x || (c.x == x && (c.y < y || (c.y == y && c.z < z))))
          invariant forall i, j :: 0 <= i < j < |r| ==> Less(r[i], r[j])
          invariant forall i :: 0 <= i < |r| ==> Less(r[i], Cell(x, y, z))
        {
          r := r + [Cell(x, y, z)];
          z := z + 1;
        }
        y := y + 1;
      }
      x := x + 1;
    }
  }

  /** The entities of a cell; a missing cell has none. */
  function Members<E>(cells: map<Cell, set<E>>, c: Cell): set<E>
  {
    if c in cells then cells[c] else {}
  }

  /** What `removeFromCell` keeps true: no cell is stored empty. */
  predicate NoEmptyCells<E>(cells: map<Cell, set<E>>)
  {
    forall c :: c in cells ==> cells[c] != {}
  }

  /** An entity with its bounding box, which moves outside the hash. */
  class Entity {
    var bb: Box
    constructor (bb: Box)
      ensures this.bb == bb
    {
      this.bb := bb;
    }
  }

  class SpatialHash {
    var cells: map<Cell, set<Entity>>

    constructor ()
      ensures cells == map[]
    {
      cells := map[];
    }

    /** `insertIntoCell`. */
    method InsertIntoCell(key: Cell, e: Entity)
      modifies this
      ensures forall c :: Members(cells, c) == Members(old(cells), c) + (if c == key then {e} else {})
      ensures NoEmptyCells(old(cells)) ==> NoEmptyCells(cells)
    {
      cells := cells[key := Members(cells, key) + {e}];
    }

    /** `removeFromCell`: a cell left empty is erased. */
    method RemoveFromCell(key: Cell, e: Entity)
      modifies this
      ensures forall c :: Members(cells, c) == Members(old(cells), c) - (if c == key then {e} else {})
      ensures NoEmptyCells(old(cells)) ==> NoEmptyCells(cells)
      ensures key in cells ==> cells[key] != {}
    {
      if key in cells {
        var rest := cells[key] - {e};
        if rest == {} {
          cells := cells - {key};
        } else {
          cells := cells[key := rest];
        }
      }
    }

    /** `insert`: registers the entity in every cell of its box. */
    method Insert(e: Entity?)
      modifies this
      ensures e == null ==> cells == old(cells)
      ensures e != null ==> forall c :: Members(cells, c) == Members(old(cells), c) + (if InCells(e.bb, c) then {e} else {})
      ensures NoEmptyCells(old(cells)) ==> NoEmptyCells(cells)
    {
      if e == null {
        return;
      }
      var keys := GetCellsForBox(e.bb);
      var i := 0;
      while i < |keys|
        invariant 0 <= i <= |keys|
        invariant forall c :: Members(cells, c) == Members(old(cells), c) + (if c in keys[..i] then {e} else {})
        invariant NoEmptyCells(old(cells)) ==> NoEmptyCells(cells)
      {
        InsertIntoCell(keys[i], e);
        assert keys[..i + 1] == keys[..i] + [keys[i]];
        i := i + 1;
      }
      assert keys[..i] == keys;
    }

    /** `remove`: unregisters the entity from every cell of its current
        box; cells left empty disappear. */
    method Remove(e: Entity?)
      modifies this
      ensures e == null ==> cells == old(cells)
      ensures e != null ==> forall c :: Members(cells, c) == Members(old(cells), c) - (if InCells(e.bb, c) then {e} else {})
      ensures NoEmptyCells(old(cells)) ==> NoEmptyCells(cells)
    {
      if e == null {
        return;
      }
      var keys := GetCellsForBox(e.bb);
      var i := 0;
      while i < |keys|
        invariant 0 <= i <= |keys|
        invariant forall c :: Members(cells, c) == Members(old(cells), c) - (if c in keys[..i] then {e} else {})
        invariant NoEmptyCells(old(cells)) ==> NoEmptyCells(cells)
      {
        RemoveFromCell(keys[i], e);
        assert keys[..i + 1] == keys[..i] + [keys[i]];
        i := i + 1;
      }
      assert keys[..i] == keys;
    }

    /** The search loops of `update`: whether a cell is in a list. */
    static method ListHas(list: seq<Cell>, key: Cell) returns (found: bool)
      ensures found <==> key in list
    {
      found := false;
      var j := 0;
      while j < |list|
        invariant 0 <= j <= |list|
        invariant key !in list[..j]
      {
        if list[j] == key {
          return true;
        }
        j := j + 1;
      }
      assert list[..j] == list;
    }

    /** `update`: after the entity moved from `oldBB` to its current box,
        leaves the cells only the old box touched and joins the cells only
        the new box touches. */
    method Update(e: Entity?, oldBB: Box)
      modifies this
      ensures e == null ==> cells == old(cells)
      ensures e != null ==>
                forall c :: Members(cells, c) ==
                  (if InCells(oldBB, c) && !InCells(e.bb, c) then Members(old(cells), c) - {e}
                   else if InCells(e.bb, c) && !InCells(oldBB, c) then Members(old(cells), c) + {e}
                   else Members(old(cells), c))
      ensures e != null && (forall c :: e in Members(old(cells), c) <==> InCells(oldBB, c)) ==>
                forall c :: e in Members(cells, c) <==> InCells(e.bb, c)
      ensures NoEmptyCells(old(cells)) ==> NoEmptyCells(cells)
    {
      if e == null {
        return;
      }
      var oldCells := GetCellsForBox(oldBB);
      var newCells := GetCellsForBox(e.bb);
      if |oldCells| == 1 && |newCells| == 1 && oldCells[0] == newCells[0] {
        SingleCell(oldCells, oldBB);
        SingleCell(newCells, e.bb);
        return;
      }
      var i := 0;
      while i < |oldCells|
        invariant 0 <= i <= |oldCells|
        invariant forall c :: Members(cells, c) ==
                    Members(old(cells), c) - (if c in oldCells[..i] && c !in newCells then {e} else {})
        invariant NoEmptyCells(old(cells)) ==> NoEmptyCells(cells)
      {
        var stillIn := ListHas(newCells, oldCells[i]);
        if !stillIn {
          RemoveFromCell(oldCells[i], e);
        }
        assert oldCells[..i + 1] == oldCells[..i] + [oldCells[i]];
        i := i + 1;
      }
      assert oldCells[..i] == oldCells;
      ghost var mid := cells;
      i := 0;
      while i < |newCells|
        invariant 0 <= i <= |newCells|
        invariant forall c :: Members(cells, c) ==
                    Members(mid, c) + (if c in newCells[..i] && c !in oldCells then {e} else {})
        invariant NoEmptyCells(old(cells)) ==> NoEmptyCells(cells)
      {
        var wasIn := ListHas(oldCells, newCells[i]);
        if !wasIn {
          InsertIntoCell(newCells[i], e);
        }
        assert newCells[..i + 1] == newCells[..i] + [newCells[i]];
        i := i + 1;
      }
      assert newCells[..i] == newCells;
    }

    /** `query`: every registered entity of the area's cells whose box
        intersects the area, each once. */
    method Query(area: Box) returns (result: seq<Entity>)
      ensures forall i, j :: 0 <= i < j < |result| ==> result[i] != result[j]
      ensures forall e :: e in result <==>
                Intersects(e.bb, area) && exists c :: InCells(area, c) && e in Members(cells, c)
    {
      result := [];
      var seen: set<Entity> := {};
      var keys := GetCellsForBox(area);
      var i := 0;
      while i < |keys|
        invariant 0 <= i <= |keys|
        invariant forall a, b :: 0 <= a < b < |result| ==> result[a] != result[b]
        invariant forall e :: e in seen <==> exists c :: c in keys[..i] && e in Members(cells, c)
        invariant forall e :: e in result <==> e in seen && Intersects(e.bb, area)
      {
        var key := keys[i];
        if key in cells {
          var todo := cells[key];
          while todo != {}
            invariant todo <= cells[key]
            invariant forall a, b :: 0 <= a < b < |result| ==> result[a] != result[b]
            invariant forall e :: e in seen <==>
                        (exists c :: c in keys[..i] && e in Members(cells, c)) || e in cells[key] - todo
            invariant forall e :: e in result <==> e in seen && Intersects(e.bb, area)
            decreases todo
          {
            var e :| e in todo;
            todo := todo - {e};
            if e !in seen {
              seen := seen + {e};
              if Intersects(e.bb, area) {
                result := result + [e];
              }
            }
          }
        }
        assert keys[..i + 1] == keys[..i] + [key];
        assert forall e :: e in Members(cells, key) ==> key in keys[..i + 1] && e in Members(cells, key);
        forall e | exists c :: c in keys[..i + 1] && e in Members(cells, c)
          ensures e in seen
        {
          var c :| c in keys[..i + 1] && e in Members(cells, c);
          if c != key {
            assert c in keys[..i];
          }
        }
        forall e | e in seen
          ensures exists c :: c in keys[..i + 1] && e in Members(cells, c)
        {
          if e in Members(cells, key) {
            assert key in keys[..i + 1];
          } else {
            var c :| c in keys[..i] && e in Members(cells, c);
            assert c in keys[..i + 1];
          }
        }
        i := i + 1;
      }
      assert keys[..i] == keys;
    }

    /** `clear`. */
    method Clear()
      modifies this
      ensures forall c :: Members(cells, c) == {}
    {
      cells := map[];
    }
  }

  /** A list that `getCellsForAABB` returns with one cell names exactly
      the cells of its box. */
  lemma SingleCell(r: seq<Cell>, bb: Box)
    requires |r| == 1 && forall c :: c in r <==> InCells(bb, c)
    ensures forall c :: InCells(bb, c) <==> c == r[0]
  {
  }
}
