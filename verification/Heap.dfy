/** Queue entries as objects, and the binary heap that keeps them by `Queue.__lt__`. */
module Heap {
  import opened Kernel

  class QueueEntry {
    const id: nat
    const time: real
    const dt: real
    const priority: int
    var deleted: bool

    constructor (id: nat, time: real, dt: real, priority: int)
      ensures View() == Entry(id, time, dt, priority) && !deleted
    {
      this.id, this.time, this.dt, this.priority := id, time, dt, priority;
      deleted := false;
    }

    function View(): Entry {
      Entry(id, time, dt, priority)
    }

    method Cancel()
      modifies this
      ensures deleted
    {
      deleted := true;
    }
  }

  /** `a` may stand above `b`. */
  predicate Above(a: QueueEntry, b: QueueEntry) {
    !Less(b.View(), a.View())
  }

  lemma AboveOrder(a: QueueEntry, b: QueueEntry, c: QueueEntry)
    ensures Above(a, b) && Above(b, c) ==> Above(a, c)
    ensures Above(a, b) || Above(b, a)
    ensures Above(a, a)
  {
  }

  function Parent(i: nat): nat
    requires 0 < i
  {
    (i - 1) / 2
  }

  predicate IsHeap(h: seq<QueueEntry>) {
    forall i :: 0 < i < |h| ==> Above(h[Parent(i)], h[i])
  }

  lemma {:induction false} RootIsLeast(h: seq<QueueEntry>, i: nat)
    requires IsHeap(h) && i < |h|
    ensures Above(h[0], h[i])
  {
    AboveOrder(h[i], h[i], h[i]);
    if i == 0 {
    } else {
      RootIsLeast(h, Parent(i));
      AboveOrder(h[0], h[Parent(i)], h[i]);
    }
  }

  /** A heap but for the edges at `pos`, across which the order still holds. */
  predicate HeapExcept(h: seq<QueueEntry>, pos: nat)
    requires pos < |h|
  {
    && (forall i :: 0 < i < |h| && i != pos && Parent(i) != pos ==> Above(h[Parent(i)], h[i]))
    && (forall i :: 0 < i < |h| && Parent(i) == pos && 0 < pos ==> Above(h[Parent(pos)], h[i]))
  }

  /** ... and with everything in order below `pos`. */
  predicate OnlyTooHigh(h: seq<QueueEntry>, pos: nat)
    requires pos < |h|
  {
    HeapExcept(h, pos) && forall i :: 0 < i < |h| && Parent(i) == pos ==> Above(h[pos], h[i])
  }

  function Swap(h: seq<QueueEntry>, i: nat, j: nat): (r: seq<QueueEntry>)
    requires i < |h| && j < |h|
    ensures |r| == |h|
  {
    h[i := h[j]][j := h[i]]
  }

  lemma SwapPermutes(h: seq<QueueEntry>, i: nat, j: nat)
    requires i < |h| && j < |h|
    ensures multiset(Swap(h, i, j)) == multiset(h)
  {
  }

  lemma SwapWithParent(h: seq<QueueEntry>, pos: nat)
    requires 0 < pos < |h| && OnlyTooHigh(h, pos) && Less(h[pos].View(), h[Parent(pos)].View())
    ensures OnlyTooHigh(Swap(h, pos, Parent(pos)), Parent(pos))
  {
    hide Above;
    var r, up := Swap(h, pos, Parent(pos)), Parent(pos);
    MayRise(h[pos], h[up]);
    forall i | 0 < i < |h| && Parent(i) == up
      ensures Above(r[up], r[i])
    {
      AboveOrder(h[pos], h[up], h[i]);
    }
    forall i | 0 < i < |h| && Parent(i) == up && 0 < up
      ensures Above(r[Parent(up)], r[i])
    {
      AboveOrder(h[Parent(up)], h[up], h[i]);
    }
  }

  lemma MayRise(a: QueueEntry, b: QueueEntry)
    requires Less(a.View(), b.View())
    ensures Above(a, b)
  {
  }

  /** `_siftdown`: lets the entry at `pos` rise until its parent is no larger. */
  method Rise(heap: seq<QueueEntry>, start: nat) returns (h: seq<QueueEntry>)
    requires start < |heap| && OnlyTooHigh(heap, start)
    ensures IsHeap(h) && multiset(h) == multiset(heap)
  {
    hide Above, Less;
    h := heap;
    var pos := start;
    while 0 < pos && Less(h[pos].View(), h[Parent(pos)].View())
      invariant 0 <= pos < |h| && OnlyTooHigh(h, pos)
      invariant multiset(h) == multiset(heap)
    {
      SwapWithParent(h, pos);
      SwapPermutes(h, pos, Parent(pos));
      h := Swap(h, pos, Parent(pos));
      pos := Parent(pos);
    }
    if 0 < pos {
      StaysBelow(h[Parent(pos)], h[pos]);
    }
  }

  lemma StaysBelow(a: QueueEntry, b: QueueEntry)
    requires !Less(b.View(), a.View())
    ensures Above(a, b)
  {
  }

  lemma SwapWithChild(h: seq<QueueEntry>, pos: nat, child: nat)
    requires pos < |h| && HeapExcept(h, pos)
    requires 0 < child < |h| && Parent(child) == pos
    requires forall i :: 0 < i < |h| && Parent(i) == pos ==> Above(h[child], h[i])
    ensures HeapExcept(Swap(h, pos, child), child)
  {
    hide Above;
    var r := Swap(h, pos, child);
    forall i | 0 < i < |h| && Parent(i) == child
      ensures Above(r[Parent(child)], r[i])
    {
    }
    forall i | 0 < i < |h| && i != child && Parent(i) != child
      ensures Above(r[Parent(i)], r[i])
    {
    }
  }

  /** `_siftup`: sends the entry at the root to a leaf along the smaller children, then lets it rise. */
  method Sink(heap: seq<QueueEntry>) returns (h: seq<QueueEntry>)
    requires heap != [] && HeapExcept(heap, 0)
    ensures IsHeap(h) && multiset(h) == multiset(heap)
  {
    hide Above, Less;
    h := heap;
    var pos := 0;
    while 2 * pos + 1 < |h|
      invariant 0 <= pos < |h| && HeapExcept(h, pos)
      invariant multiset(h) == multiset(heap)
      decreases |h| - pos
    {
      var child := 2 * pos + 1;
      if child + 1 < |h| && !Less(h[child].View(), h[child+1].View()) {
        child := child + 1;
      }
      SmallerChild(h, pos, child);
      SwapWithChild(h, pos, child);
      SwapPermutes(h, pos, child);
      h := Swap(h, pos, child);
      pos := child;
    }
    h := Rise(h, pos);
  }

  lemma SmallerChild(h: seq<QueueEntry>, pos: nat, child: nat)
    requires 2 * pos + 1 < |h|
    requires child == if 2 * pos + 2 < |h| && !Less(h[2*pos+1].View(), h[2*pos+2].View()) then 2 * pos + 2 else 2 * pos + 1
    ensures Parent(child) == pos
    ensures forall i :: 0 < i < |h| && Parent(i) == pos ==> Above(h[child], h[i])
  {
  }

  method HeapPush(heap: seq<QueueEntry>, e: QueueEntry) returns (h: seq<QueueEntry>)
    requires IsHeap(heap)
    ensures IsHeap(h) && multiset(h) == multiset(heap) + multiset{e}
  {
    hide Above;
    h := Rise(heap + [e], |heap|);
  }

  /** Takes out the root, which nothing else in the heap is smaller than. */
  method HeapPop(heap: seq<QueueEntry>) returns (e: QueueEntry, h: seq<QueueEntry>)
    requires heap != [] && IsHeap(heap)
    ensures IsHeap(h) && multiset(heap) == multiset(h) + multiset{e}
    ensures e in heap && forall d :: d in heap ==> Above(e, d)
  {
    hide Above;
    e := heap[|heap|-1];
    h := heap[..|heap|-1];
    assert heap == h + [e];
    ghost var last := e;
    forall d | d in heap
      ensures Above(heap[0], d)
    {
      var i :| 0 <= i < |heap| && heap[i] == d;
      RootIsLeast(heap, i);
    }
    if h != [] {
      e := h[0];
      ReplaceRoot(h, last);
      h := Sink(h[0 := heap[|heap|-1]]);
    }
  }

  lemma ReplaceRoot(h: seq<QueueEntry>, e: QueueEntry)
    requires h != []
    ensures multiset(h[0 := e]) + multiset{h[0]} == multiset(h) + multiset{e}
  {
  }
}
