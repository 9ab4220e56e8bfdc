/**
 * A found path: the nodes from start to end and a cursor that a mob
 * advances as it walks.
 */
module Path {
  import opened PathNode

  class Path {
    const nodes: seq<Node>
    const length: int
    var pos: int

    constructor (pathNodes: seq<Node>)
      ensures nodes == pathNodes && length == |pathNodes| && pos == 0
    {
      nodes := pathNodes;
      length := |pathNodes|;
      pos := 0;
    }

    /** `isDone`: the cursor is past the last node. */
    predicate IsDone()
      reads this
    {
      pos >= |nodes|
    }

    /** `current`: the node under the cursor, null once the path is done. */
    function Current(): (n: Node?)
      reads this
      requires pos >= 0
      ensures n == null <==> IsDone()
      ensures n != null ==> n == nodes[pos]
    {
      if pos < |nodes| then nodes[pos] else null
    }

    /** `next`. */
    method Next()
      modifies this
      ensures pos == old(pos) + 1
    {
      pos := pos + 1;
    }

    /** `get`: null outside [0, size). */
    function Get(index: int): (n: Node?)
      ensures n == null <==> !(0 <= index < |nodes|)
      ensures n != null ==> n == nodes[index]
    {
      if 0 <= index < |nodes| then nodes[index] else null
    }
  }

  /** The cursor reads the path through `get`: once `next` has been
      called k times the mob stands on node k, and the path is done exactly
      when k has reached `length`. */
  lemma CurrentIsGet(p: Path)
    requires p.pos >= 0 && p.length == |p.nodes|
    ensures p.Current() == p.Get(p.pos)
    ensures p.IsDone() <==> p.pos >= p.length
  {
  }
}
