/**
 * The path finder's open set: a binary min-heap on the nodes' `f` cost,
 * stored in a vector, where every stored node records its own position
 * in `heapIdx` (-1 when it is in no heap).
 */
module BinaryHeap {
  import opened PathNode

  /** `(idx - 1) >> 1`. */
  function Parent(i: int): int
    requires i > 0
  {
    (i - 1) / 2
  }

  /** Every node knows its position, so no node is stored twice. */
  ghost predicate Indexed(h: seq<Node>)
    reads h
  {
    forall j :: 0 <= j < |h| ==> h[j].heapIdx == j
  }

  /** The costs of the stored nodes, position by position. */
  ghost function Costs(h: seq<Node>): (c: seq<real>)
    reads h
    ensures |c| == |h| && forall j :: 0 <= j < |h| ==> c[j] == h[j].f
  {
    if h == [] then [] else Costs(h[..|h| - 1]) + [h[|h| - 1].f]
  }

  /** Heap order on every edge except the one into position `k` (pass -1
      to ask for all edges). */
  ghost predicate OrderedExcept(c: seq<real>, k: int)
  {
    forall j :: 0 < j < |c| && j != k ==> c[Parent(j)] <= c[j]
  }

  /** Heap order on every edge except those out of position `k`. */
  ghost predicate OrderedBelowExcept(c: seq<real>, k: int)
  {
    forall j :: 0 < j < |c| && Parent(j) != k ==> c[Parent(j)] <= c[j]
  }

  /** The parent of `k` is no costlier than the children of `k`. */
  ghost predicate GrandparentOk(c: seq<real>, k: int)
    requires 0 <= k < |c|
  {
    k > 0 ==>
      (2 * k + 1 < |c| ==> c[Parent(k)] <= c[2 * k + 1])
      && (2 * k + 2 < |c| ==> c[Parent(k)] <= c[2 * k + 2])
  }

  /** The root of a heap is no costlier than any node. */
  lemma {:induction false} RootIsMin(c: seq<real>, j: int)
    requires OrderedExcept(c, -1) && 0 <= j < |c|
    ensures c[0] <= c[j]
    decreases j
  {
    if j > 0 {
      RootIsMin(c, Parent(j));
    }
  }

  /** What `upHeap(k)` needs: every position indexed, and heap order
      everywhere except above `k`, where the node may be too cheap. */
  ghost predicate FloatReady(h: seq<Node>, k: int)
    reads h
  {
    0 <= k < |h| && Indexed(h) && OrderedExcept(Costs(h), k) && GrandparentOk(Costs(h), k)
  }

  /** What `downHeap(k)` needs: every position indexed, and heap order
      everywhere except below `k`, where the node may be too costly. */
  ghost predicate SinkReady(h: seq<Node>, k: int)
    reads h
  {
    0 <= k < |h| && Indexed(h)
    && OrderedBelowExcept(Costs(h), k) && GrandparentOk(Costs(h), k)
    && (k > 0 ==> h[Parent(k)].f <= h[k].f)
  }

  /** While a node is being sifted, `c` lists the costs and every position
      but the hole `k` is indexed and holds some other node. */
  ghost predicate Holed(h: seq<Node>, c: seq<real>, k: int, node: Node)
    reads h
  {
    |h| == |c| &&
    forall j :: 0 <= j < |h| ==> h[j].f == c[j] && (j != k ==> h[j].heapIdx == j && h[j] != node)
  }

  /** `x->heapIdx = idx` after `heap[idx] = x`: the node from position `c`
      now sits in the hole at `idx`, and the hole moves to `c`. */
  method Shift(n: Node, ghost h: seq<Node>, idx: int, c: int, ghost node: Node, ghost fs: seq<real>)
    requires 0 <= idx < |h| && 0 <= c < |h| && idx != c && n == h[c]
    requires Holed(h, fs, idx, node)
    modifies n`heapIdx
    ensures Holed(h[idx := n], fs[idx := fs[c]], c, node)
  {
    n.heapIdx := idx;
  }

  /** `node->heapIdx = heap.size() - 1` in `insert`, after `push_back`:
      the new last node may be too cheap for its parent. */
  method Attach(node: Node, ghost h: seq<Node>, idx: int)
    requires idx == |h| && Indexed(h) && OrderedExcept(Costs(h), -1)
    requires node.heapIdx < 0
    modifies node`heapIdx
    ensures FloatReady(h + [node], idx)
  {
    ghost var c := Costs(h);
    assert node !in h;
    node.heapIdx := idx;
    CostsAre(h + [node], c + [node.f]);
    Appended(c, node.f);
  }

  /** `result->heapIdx = -1` for a node no longer stored in `h`: the
      stored nodes are untouched. */
  method Unlink(n: Node, ghost h: seq<Node>)
    requires n !in h
    modifies n`heapIdx
    ensures n.heapIdx == -1
    ensures Indexed(h) == old(Indexed(h)) && Costs(h) == old(Costs(h))
  {
    n.heapIdx := -1;
    CostsAre(h, old(Costs(h)));
  }

  /** In `downHeap`, the child the hole moves to: the left one unless the
      right one exists and is not costlier (a missing right child counts
      as infinitely costly). */
  function CheaperChild(h: seq<Node>, idx: int): (c: int)
    reads h
    requires 0 <= idx && 2 * idx + 1 < |h|
    ensures c == 2 * idx + 1 || (c == 2 * idx + 2 && c < |h|)
    ensures h[c].f <= h[2 * idx + 1].f
    ensures 2 * idx + 2 < |h| ==> h[c].f <= h[2 * idx + 2].f
  {
    if 2 * idx + 2 < |h| && !(h[2 * idx + 1].f < h[2 * idx + 2].f) then 2 * idx + 2 else 2 * idx + 1
  }

  /** The costs are fixed by the nodes' `f` fields, position by position. */
  lemma CostsAre(h: seq<Node>, c: seq<real>)
    requires |h| == |c| && forall j :: 0 <= j < |h| ==> h[j].f == c[j]
    ensures Costs(h) == c
  {
  }

  /** A node outside the hole of a shuffled heap was in the heap before. */
  lemma InHole(h: seq<Node>, idx: int, k: int, node: Node, h0: seq<Node>)
    requires 0 <= idx < |h| && 0 <= k < |h| && k != idx
    requires multiset(h[idx := node]) == multiset(h0)
    ensures h[k] in h0
  {
    assert h[idx := node][k] == h[k];
    assert h[k] in multiset(h[idx := node]);
  }

  class BinaryHeap {
    var heap: seq<Node>

    /** Every stored node knows its position and costs are heap-ordered. */
    ghost predicate Valid()
      reads this, heap
    {
      Indexed(heap) && OrderedExcept(Costs(heap), -1)
    }

    constructor ()
      ensures Valid() && heap == []
    {
      heap := [];
    }

    /** `upHeap(idx)`: moves the node at `idx` up past costlier parents. */
    method UpHeap(idx0: int)
      requires FloatReady(heap, idx0)
      modifies this, heap`heapIdx
      ensures Valid() && multiset(heap) == multiset(old(heap))
    {
      var idx := idx0;
      var node := heap[idx];
      var cost := node.f;
      ghost var h0 := heap;
      // the vector is held in `h` while the hole moves and stored back once
      var h := heap;
      ghost var fs := Costs(heap);

      while idx > 0
        invariant 0 <= idx <= idx0 && |h| == |h0| == |fs|
        invariant Holed(h, fs, idx, node)
        invariant OrderedExcept(fs, idx) && GrandparentOk(fs, idx) && cost <= fs[idx]
        invariant multiset(h[idx := node]) == multiset(h0)
      {
        var parent := (idx - 1) / 2;
        var parentNode := h[parent];
        if cost >= parentNode.f {
          break;
        }
        UpStep(fs, idx, parent);
        SwapHole(h, idx, parent, node);
        InHole(h, idx, parent, node, h0);
        Shift(parentNode, h, idx, parent, node, fs);
        h := h[idx := parentNode];
        fs := fs[idx := fs[parent]];
        idx := parent;
      }
      UpFinish(fs, idx, cost);
      heap := h[idx := node];
      node.heapIdx := idx;
      CostsAre(heap, fs[idx := cost]);
    }

    /** `downHeap(idx)`: moves the node at `idx` down past cheaper children. */
    method DownHeap(idx0: int)
      requires SinkReady(heap, idx0)
      modifies this, heap`heapIdx
      ensures Valid() && multiset(heap) == multiset(old(heap))
    {
      var idx := idx0;
      var node := heap[idx];
      var cost := node.f;
      var size := |heap|;
      ghost var h0 := heap;
      var h := heap;
      ghost var fs := Costs(heap);

      while true
        invariant idx0 <= idx < size && |h| == |h0| == |fs| == size
        invariant Holed(h, fs, idx, node)
        invariant OrderedBelowExcept(fs, idx) && GrandparentOk(fs, idx)
        invariant idx > 0 ==> fs[Parent(idx)] <= cost
        invariant multiset(h[idx := node]) == multiset(h0)
        decreases size - idx
      {
        var left := 1 + 2 * idx;
        if left >= size {
          break;
        }
        var child := CheaperChild(h, idx);
        var childNode := h[child];
        if childNode.f >= cost {
          break;
        }
        DownStep(fs, idx, child);
        SwapHole(h, idx, child, node);
        InHole(h, idx, child, node, h0);
        Shift(childNode, h, idx, child, node, fs);
        h := h[idx := childNode];
        fs := fs[idx := fs[child]];
        idx := child;
      }
      DownFinish(fs, idx, cost);
      heap := h[idx := node];
      node.heapIdx := idx;
      CostsAre(heap, fs[idx := cost]);
    }

    /** `insert`: refuses (the source throws) a node that is already in a
        heap; otherwise adds it. */
    method Insert(node: Node) returns (ok: bool)
      requires Valid()
      modifies this, heap`heapIdx, node`heapIdx
      ensures ok <==> old(node.heapIdx) < 0
      ensures !ok ==> heap == old(heap) && node.heapIdx == old(node.heapIdx)
      ensures ok ==> Valid() && multiset(heap) == multiset(old(heap)) + multiset{node}
      ensures ok ==> node in heap && forall n :: n in heap <==> n in old(heap) || n == node
    {
      if node.heapIdx >= 0 {
        return false;
      }
      ghost var h := heap;
      heap := heap + [node];
      Attach(node, h, |heap| - 1);
      UpHeap(|heap| - 1);
      assert node in multiset(heap);
      forall n
        ensures n in heap <==> n in h || n == node
      {
        assert (n in heap) == (n in multiset(heap));
        assert (n in h) == (n in multiset(h));
      }
      return true;
    }

    /** `clear`: every stored node leaves the heap. */
    method Clear()
      modifies this, heap`heapIdx
      ensures heap == []
      ensures forall n :: n in old(heap) ==> n.heapIdx == -1
    {
      var i := 0;
      while i < |heap|
        invariant 0 <= i <= |heap| && heap == old(heap)
        invariant forall j :: 0 <= j < i ==> heap[j].heapIdx == -1
      {
        heap[i].heapIdx := -1;
        i := i + 1;
      }
      heap := [];
    }

    /** `peek`: a cheapest node, or null when the heap is empty. */
    function Peek(): (n: Node?)
      reads this, heap
      requires Valid()
      ensures n == null <==> heap == []
      ensures n != null ==> n == heap[0] && forall m :: m in heap ==> n.f <= m.f
    {
      if heap == [] then null
      else
        assert forall m :: m in heap ==> heap[0].f <= m.f by {
          forall m | m in heap
            ensures heap[0].f <= m.f
          {
            var j :| 0 <= j < |heap| && heap[j] == m;
            RootIsMin(Costs(heap), j);
          }
        }
        heap[0]
    }

    /** `pop`: removes and returns a cheapest node, or null when empty. */
    method Pop() returns (r: Node?)
      requires Valid()
      modifies this, heap`heapIdx
      ensures old(heap) == [] ==> r == null && heap == []
      ensures old(heap) != [] ==>
                r == old(Peek()) && r.heapIdx == -1 && r !in heap
                && Valid() && multiset(heap) + multiset{r} == multiset(old(heap))
    {
      if heap == [] {
        return null;
      }
      r := heap[0];
      RemoveRoot();
      Unlink(r, heap);
    }

    /** The middle of `pop`: the last node overwrites the root, the vector
        shrinks by one and the new root sifts down. */
    method RemoveRoot()
      requires Valid() && heap != []
      modifies this, heap`heapIdx
      ensures Valid() && old(heap[0]) !in heap
      ensures multiset(heap) + multiset{old(heap[0])} == multiset(old(heap))
    {
      ghost var h0 := heap;
      var last := heap[|heap| - 1];
      heap := heap[0 := last];
      ToRoot(last, h0);
      heap := heap[..|heap| - 1];
      ghost var mid := heap;
      assert mid == h0[0 := last][..|h0| - 1];
      PopMultiset(h0, mid);
      assert h0[0] !in multiset(mid);
      if |heap| > 0 {
        DownHeap(0);
      }
      assert multiset(heap) == multiset(mid);
    }

    /** `changeCost`: sets the node's cost and restores heap order. */
    method ChangeCost(node: Node, newCost: real)
      requires Valid() && node in heap
      modifies this, heap`heapIdx, node`f
      ensures node.f == newCost
      ensures Valid() && multiset(heap) == multiset(old(heap))
    {
      ghost var c := Costs(heap);
      ghost var idx := node.heapIdx;
      assert 0 <= idx < |heap| && heap[idx] == node;
      var oldCost := node.f;
      node.f := newCost;
      CostsAre(heap, c[idx := newCost]);
      if newCost < oldCost {
        Lowered(c, idx, newCost);
        UpHeap(node.heapIdx);
      } else {
        Raised(c, idx, newCost);
        DownHeap(node.heapIdx);
      }
    }

    /** `isEmpty`. */
    function IsEmpty(): (b: bool)
      reads this
      ensures b <==> |heap| == 0
    {
      heap == []
    }

    /** `size`: the number of stored nodes. */
    function Size(): (n: int)
      reads this
      ensures n == |multiset(heap)|
    {
      |heap|
    }
  }

  /** `heap[0]->heapIdx = 0` in `pop`, after the last node was copied to
      the root: once the last position is dropped, every position is
      indexed, the old root is gone and every edge below the root is still
      ordered. */
  method ToRoot(last: Node, ghost h: seq<Node>)
    requires |h| >= 1 && last == h[|h| - 1]
    requires Indexed(h) && OrderedExcept(Costs(h), -1)
    modifies last`heapIdx
    ensures var t := h[0 := last][..|h| - 1];
      h[0] !in t && (if t == [] then Indexed(t) else SinkReady(t, 0))
  {
    ghost var c := Costs(h);
    last.heapIdx := 0;
    ghost var t := h[0 := last][..|h| - 1];
    if t != [] {
      forall j | 0 < j < |t|
        ensures t[j].heapIdx == j && t[j] != h[0] && t[j] != last
      {
        assert old(t[j].heapIdx) == j;
      }
      CostsAre(t, c[0 := c[|c| - 1]][..|c| - 1]);
      PopShape(c, Costs(t));
    }
  }

  /** One step of `upHeap`: the parent's cost moves down into the hole and
      the hole moves up to the parent. */
  lemma UpStep(c: seq<real>, idx: int, parent: int)
    requires 0 < idx < |c| && parent == Parent(idx)
    requires OrderedExcept(c, idx) && GrandparentOk(c, idx)
    ensures OrderedExcept(c[idx := c[parent]], parent)
    ensures GrandparentOk(c[idx := c[parent]], parent)
  {
    var c' := c[idx := c[parent]];
    if parent > 0 {
      var l, r := 2 * parent + 1, 2 * parent + 2;
      assert idx == l || idx == r;
      assert c[Parent(parent)] <= c[parent];
      if r < |c| {
        assert Parent(r) == parent && Parent(l) == parent;
      }
    }
    forall j | 0 < j < |c'| && j != parent
      ensures c'[Parent(j)] <= c'[j]
    {
      if j == idx {
      } else if Parent(j) == idx {
        assert 2 * idx + 1 == j || 2 * idx + 2 == j;
      }
    }
  }

  /** Swapping the hole with a neighbour position keeps the stored nodes
      (with the hole filled by `node`). */
  lemma SwapHole(h: seq<Node>, idx: int, other: int, node: Node)
    requires 0 <= idx < |h| && 0 <= other < |h|
    ensures multiset(h[idx := h[other]][other := node]) == multiset(h[idx := node])
  {
    if idx != other {
      var a := h[idx := node];
      var b := h[idx := h[other]][other := node];
      assert b == a[idx := a[other]][other := a[idx]];
    }
  }

  /** The hole settles where the node's cost fits below its parent. */
  lemma UpFinish(c: seq<real>, idx: int, cost: real)
    requires 0 <= idx < |c| && OrderedExcept(c, idx) && cost <= c[idx]
    requires idx > 0 ==> c[Parent(idx)] <= cost
    ensures OrderedExcept(c[idx := cost], -1)
  {
  }

  /** One step of `downHeap`: the cheaper child's cost moves up into the
      hole and the hole moves down to that child. */
  lemma DownStep(c: seq<real>, idx: int, child: int)
    requires 0 <= idx < child < |c| && (child == 2 * idx + 1 || child == 2 * idx + 2)
    requires OrderedBelowExcept(c, idx) && GrandparentOk(c, idx)
    requires 2 * idx + 1 < |c| ==> c[child] <= c[2 * idx + 1]
    requires 2 * idx + 2 < |c| ==> c[child] <= c[2 * idx + 2]
    ensures OrderedBelowExcept(c[idx := c[child]], child)
    ensures GrandparentOk(c[idx := c[child]], child)
    ensures Parent(child) == idx
  {
    var c' := c[idx := c[child]];
    forall j | 0 < j < |c'| && Parent(j) != child
      ensures c'[Parent(j)] <= c'[j]
    {
      if j == idx {
      } else if Parent(j) == idx {
        assert j == 2 * idx + 1 || j == 2 * idx + 2;
      }
    }
    var l, r := 2 * child + 1, 2 * child + 2;
    if l < |c| {
      assert Parent(l) == child;
    }
    if r < |c| {
      assert Parent(r) == child;
    }
  }

  /** The hole settles where no child is cheaper than the node. */
  lemma DownFinish(c: seq<real>, idx: int, cost: real)
    requires 0 <= idx < |c| && OrderedBelowExcept(c, idx)
    requires idx > 0 ==> c[Parent(idx)] <= cost
    requires 2 * idx + 1 < |c| ==> cost <= c[2 * idx + 1]
    requires 2 * idx + 2 < |c| ==> cost <= c[2 * idx + 2]
    ensures OrderedExcept(c[idx := cost], -1)
  {
    var c' := c[idx := cost];
    forall j | 0 < j < |c'|
      ensures c'[Parent(j)] <= c'[j]
    {
      if Parent(j) == idx {
        assert j == 2 * idx + 1 || j == 2 * idx + 2;
      }
    }
  }

  /** A node appended to a heap needs only the edge into it restored. */
  lemma Appended(c: seq<real>, v: real)
    requires OrderedExcept(c, -1)
    ensures OrderedExcept(c + [v], |c|) && GrandparentOk(c + [v], |c|)
  {
  }

  /** `pop` keeps every node but the root. */
  lemma PopMultiset(h: seq<Node>, h': seq<Node>)
    requires |h| >= 1 && h' == h[0 := h[|h| - 1]][..|h| - 1]
    ensures multiset(h') + multiset{h[0]} == multiset(h)
  {
    if |h| >= 2 {
      assert h == [h[0]] + h[1..|h| - 1] + [h[|h| - 1]];
      assert h' == [h[|h| - 1]] + h[1..|h| - 1];
    }
  }

  /** Moving the last cost to the root leaves every edge below the root
      ordered. */
  lemma PopShape(c: seq<real>, c': seq<real>)
    requires OrderedExcept(c, -1) && |c| >= 2 && c' == c[0 := c[|c| - 1]][..|c| - 1]
    ensures OrderedBelowExcept(c', 0) && GrandparentOk(c', 0)
  {
  }

  /** Lowering a cost leaves only the edge into it to restore. */
  lemma Lowered(c: seq<real>, idx: int, v: real)
    requires OrderedExcept(c, -1) && 0 <= idx < |c| && v < c[idx]
    ensures OrderedExcept(c[idx := v], idx) && GrandparentOk(c[idx := v], idx)
  {
    if idx > 0 {
      assert c[Parent(idx)] <= c[idx];
      var l, r := 2 * idx + 1, 2 * idx + 2;
      if l < |c| { assert Parent(l) == idx; }
      if r < |c| { assert Parent(r) == idx; }
    }
  }

  /** Raising a cost leaves only the edges out of it to restore. */
  lemma Raised(c: seq<real>, idx: int, v: real)
    requires OrderedExcept(c, -1) && 0 <= idx < |c| && v >= c[idx]
    ensures OrderedBelowExcept(c[idx := v], idx) && GrandparentOk(c[idx := v], idx)
    ensures idx > 0 ==> c[Parent(idx)] <= v
  {
    if idx > 0 {
      assert c[Parent(idx)] <= c[idx];
      var l, r := 2 * idx + 1, 2 * idx + 2;
      if l < |c| { assert Parent(l) == idx; }
      if r < |c| { assert Parent(r) == idx; }
    }
  }
}
