/**
 * Exact admission test for events that have not started and have no departure bounds:
 * serving them in order, each as soon as it has arrived and the machine is free, is the
 * earliest schedule, the only optimum, and feasible exactly when any schedule is.
 */
module Admission {
  import opened Wrappers
  import opened Cumulative
  import opened Records
  import opened CpModel
  import opened Meaning
  import opened Optimum
  import opened Fifo

  /** An uncancelled event in the queue, with positive duration, a set arrival and no departure bounds. */
  predicate Waiting(e: Record) {
    && Queued(e.state)
    && !e.canceled
    && 0 < e.duration
    && e.eta.time.Some?
    && (e.state == Arrived || (e.eta.low == e.eta.time && e.eta.high.Some?))
    && e.etd.low.None? && e.etd.high.None?
  }

  function Arrival(e: Record): int
    requires Waiting(e)
  {
    e.eta.time.value
  }

  ghost predicate WaitingBook(book: Book) {
    forall u :: u in book ==> book[u].uid == u && Waiting(book[u])
  }

  lemma WaitingBookIsValid(book: Book)
    requires WaitingBook(book)
    ensures BookValid(book) && QueueTimesSet(book)
  {
  }

  /** What the model lets a waiting event do inside a window that does not cut its arrival off. */
  lemma WaitingAdmits(e: Record, v: Values, w: Window)
    requires Waiting(e)
    requires w.low <= Arrival(e)
    ensures Admits(e, v, w) <==>
            && v.eta == Arrival(e) <= v.start && v.finish == v.start + e.duration <= v.etd <= w.high
            && (e.state == Arrived ==> v.etd == v.finish)
  {
  }

  /** The same bounds hold even if the window starts later. */
  lemma WaitingTimes(e: Record, v: Values, w: Window)
    requires Waiting(e) && Admits(e, v, w)
    ensures v.eta == Arrival(e) <= v.start && v.finish == v.start + e.duration <= v.etd <= w.high
  {
  }

  /******* Serving in order *******/

  ghost predicate WaitingLine(q: seq<Record>) {
    forall i :: 0 <= i < |q| ==> Waiting(q[i])
  }

  /** When the event at position `k` starts if everyone before it is served without a pause. */
  function StartAt(q: seq<Record>, k: nat): int
    requires WaitingLine(q) && k < |q|
  {
    if k == 0 then Arrival(q[0]) else Max(Arrival(q[k]), StartAt(q, k - 1) + q[k-1].duration)
  }

  function FinishAt(q: seq<Record>, k: nat): int
    requires WaitingLine(q) && k < |q|
  {
    StartAt(q, k) + q[k].duration
  }

  function Line(order: seq<nat>, book: Book): (q: seq<Record>)
    requires forall u :: u in order ==> u in book
    ensures |q| == |order|
  {
    seq(|order|, i requires 0 <= i < |order| => book[order[i]])
  }

  ghost predicate Queue(order: seq<nat>, book: Book) {
    WaitingBook(book) && BookValid(book) && SortedOrder(order, book)
  }

  lemma QueueLine(order: seq<nat>, book: Book)
    requires Queue(order, book)
    ensures forall u :: u in order <==> u in book
    ensures WaitingLine(Line(order, book))
    ensures QueueTimesSet(book)
  {
    hide GetVariables, Before;
    WaitingBookIsValid(book);
    assert forall u :: u in order <==> u in (set x | x in order);
  }

  ghost function Position(order: seq<nat>, u: nat): (i: nat)
    requires u in order
    ensures i < |order| && order[i] == u
  {
    var i :| 0 <= i < |order| && order[i] == u;
    i
  }

  lemma PositionOf(order: seq<nat>, book: Book, i: nat)
    requires Queue(order, book) && i < |order|
    ensures Position(order, order[i]) == i
  {
    hide GetVariables, Before;
  }

  /** The schedule that serves the queue in order. */
  ghost function Earliest(order: seq<nat>, book: Book): (a: Assignment)
    requires Queue(order, book)
    ensures a.Keys == book.Keys
  {
    QueueLine(order, book);
    var q := Line(order, book);
    map u | u in book ::
      Values(Arrival(book[u]), StartAt(q, Position(order, u)), FinishAt(q, Position(order, u)), FinishAt(q, Position(order, u)))
  }

  lemma EarliestAt(order: seq<nat>, book: Book, k: nat)
    requires Queue(order, book) && k < |order|
    ensures order[k] in book && Waiting(book[order[k]])
    ensures var q := (QueueLine(order, book); Line(order, book));
            Earliest(order, book)[order[k]] ==
            Values(Arrival(book[order[k]]), StartAt(q, k), FinishAt(q, k), FinishAt(q, k))
  {
    hide GetVariables, Before, Waiting;
    QueueLine(order, book);
    PositionOf(order, book, k);
  }

  /******* Pointwise earliest *******/

  lemma {:induction false} NoEarlierStart(order: seq<nat>, book: Book, w: Window, capacity: int, a: Assignment, k: nat)
    requires Queue(order, book) && Plan(book, w, capacity, a)
    requires k < |order|
    ensures WaitingLine(Line(order, book))
    ensures order[k] in a && StartAt(Line(order, book), k) <= a[order[k]].start
    ensures a[order[k]].finish == a[order[k]].start + book[order[k]].duration
  {
    hide GetVariables, Before, Plan, Admits;
    QueueLine(order, book);
    PlanBook(book, w, capacity, a);
    WaitingTimes(book[order[k]], a[order[k]], w) by { PlanAdmits(book, w, capacity, a, order[k]); }
    if k == 0 {
    } else {
      NoEarlierStart(order, book, w, capacity, a, k - 1);
      NeighboursCompare(order, book, k - 1);
      QueueServesInTurn(book, w, capacity, a, order[k-1], order[k]);
    }
  }

  lemma PlanAdmits(book: Book, w: Window, capacity: int, a: Assignment, u: nat)
    requires Plan(book, w, capacity, a) && u in book
    ensures u in a && Admits(book[u], a[u], w)
  {
  }

  /** No plan starts, finishes or releases any event before the in-order schedule does. */
  lemma EarliestIsPointwiseEarliest(order: seq<nat>, book: Book, w: Window, capacity: int, a: Assignment, u: nat)
    requires Queue(order, book) && Plan(book, w, capacity, a) && u in book
    ensures var e := Earliest(order, book);
            u in a && a[u].eta == e[u].eta && e[u].start <= a[u].start && e[u].finish <= a[u].finish && e[u].etd <= a[u].etd
  {
    hide GetVariables, Before, Plan, Admits;
    QueueLine(order, book);
    NoEarlierStart(order, book, w, capacity, a, Position(order, u));
    PlanAdmits(book, w, capacity, a, u);
    WaitingTimes(book[u], a[u], w);
  }

  /******* When it is a plan *******/

  lemma {:induction false} StartsIncrease(q: seq<Record>, i: nat, k: nat)
    requires WaitingLine(q) && i < k < |q|
    ensures FinishAt(q, i) <= StartAt(q, k)
  {
    if i == k - 1 {
    } else {
      StartsIncrease(q, i, k - 1);
    }
  }

  /** The last event is finished by the end of the window. */
  ghost predicate FitsHorizon(order: seq<nat>, book: Book, high: int)
    requires Queue(order, book)
  {
    QueueLine(order, book);
    order == [] || FinishAt(Line(order, book), |order| - 1) <= high
  }

  /** Whenever an event has to wait on arrival, those then waiting fit in the input buffer. */
  ghost predicate FitsBuffer(order: seq<nat>, book: Book, capacity: int)
    requires Queue(order, book)
  {
    var e := Earliest(order, book);
    forall u :: u in book && e[u].eta < e[u].start ==> |WaitingAt(book, e, e[u].eta)| <= capacity
  }

  ghost predicate ArrivalsInside(book: Book, w: Window) {
    forall u :: u in book && Waiting(book[u]) ==> w.low <= Arrival(book[u])
  }

  lemma BufferWithin(order: seq<nat>, book: Book, capacity: nat)
    requires Queue(order, book)
    ensures FitsBuffer(order, book, capacity) <==> Within(WaitSpans(book, Earliest(order, book)), capacity)
  {
    hide GetVariables, Before, Earliest;
    var e := Earliest(order, book);
    var spans := WaitSpans(book, e);
    assert spans.Keys == book.Keys;
    WithinIffAtStarts(spans, capacity);
    forall t
      ensures WaitingAt(book, e, t) == At(spans, t)
    {
    }
    assert forall u :: u in spans ==> spans[u].start == e[u].eta && spans[u].end == e[u].start;
    assert forall u :: u in book ==> WaitingAt(book, e, e[u].eta) == At(spans, spans[u].start);
  }

  lemma EarliestOrdered(order: seq<nat>, book: Book, u: nat, v: nat)
    requires Queue(order, book) && u in book && v in book && Before(book[u], book[v])
    ensures Ordered(Earliest(order, book), u, v)
    ensures Earliest(order, book)[u].finish <= Earliest(order, book)[v].start
  {
    hide GetVariables;
    QueueLine(order, book);
    var q, i, j := Line(order, book), Position(order, u), Position(order, v);
    assert i < j;
    StartsIncrease(q, i, j);
  }

  /** First come, first served; the shorter first of two that come together, then the older. */
  predicate ComesFirst(a: Record, b: Record) {
    && a.eta.time.Some? && b.eta.time.Some?
    && (|| a.eta.time.value < b.eta.time.value
        || (a.eta.time.value == b.eta.time.value &&
            (a.duration < b.duration || (a.duration == b.duration && a.uid < b.uid))))
  }

  /** Of two waiting events exactly the one that comes first is finished before the other starts. */
  lemma ServedFirstIff(order: seq<nat>, book: Book, u: nat, v: nat)
    requires Queue(order, book) && u in book && v in book && u != v
    ensures Earliest(order, book)[u].finish <= Earliest(order, book)[v].start <==> ComesFirst(book[u], book[v])
  {
    hide GetVariables, Earliest, Before, SortedOrder;
    QueuedOrder(book[u], book[v]);
    QueuedOrder(book[v], book[u]);
    if ComesFirst(book[u], book[v]) {
      EarliestOrdered(order, book, u, v);
    } else {
      EarliestOrdered(order, book, v, u);
      PositiveService(order, book, u);
      PositiveService(order, book, v);
    }
  }

  lemma QueuedOrder(a: Record, b: Record)
    requires Waiting(a) && Waiting(b)
    ensures Before(a, b) <==> ComesFirst(a, b)
  {
    OrderByFields(a, b);
  }

  lemma PositiveService(order: seq<nat>, book: Book, u: nat)
    requires Queue(order, book) && u in book
    ensures Earliest(order, book)[u].start < Earliest(order, book)[u].finish
  {
    hide GetVariables, Before, SortedOrder, StartAt;
    QueueLine(order, book);
    EarliestAt(order, book, Position(order, u));
  }

  lemma EarliestProcessing(order: seq<nat>, book: Book)
    requires Queue(order, book)
    ensures Within(ProcessSpans(Earliest(order, book)), 1)
  {
    hide GetVariables, Earliest, Before, ProcessSpans;
    var e := Earliest(order, book);
    var spans := ProcessSpans(e);
    UnitCapacityIffDisjoint(spans);
    ProcessSpansOf(e);
    forall u, v | u in spans && v in spans && u != v
      ensures Disjoint(spans[u], spans[v])
    {
      OrderIsStrictTotal(book[u], book[v], book[v]);
      if Before(book[u], book[v]) {
        EarliestOrdered(order, book, u, v);
      } else {
        EarliestOrdered(order, book, v, u);
      }
    }
  }

  lemma ProcessSpansOf(a: Assignment)
    ensures ProcessSpans(a).Keys == a.Keys
    ensures forall u :: u in a ==> ProcessSpans(a)[u] == Span(a[u].start, a[u].finish)
  {
  }

  lemma EarliestOutput(order: seq<nat>, book: Book, capacity: nat)
    requires Queue(order, book)
    ensures Within(OutputSpans(Earliest(order, book)), capacity)
  {
    hide GetVariables, Before;
    var spans := OutputSpans(Earliest(order, book));
    forall t
      ensures |At(spans, t)| <= capacity
    {
      assert At(spans, t) == {};
    }
  }

  /** If the last event is finished by `high`, every event starts on or after its arrival and ends by then. */
  lemma EndsBy(q: seq<Record>, k: nat, high: int)
    requires WaitingLine(q) && k < |q| && FinishAt(q, |q| - 1) <= high
    ensures Arrival(q[k]) <= StartAt(q, k) && FinishAt(q, k) <= high
  {
    if k < |q| - 1 {
      StartsIncrease(q, k, |q| - 1);
    }
  }

  lemma EarliestBounds(order: seq<nat>, book: Book, high: int, u: nat)
    requires Queue(order, book) && FitsHorizon(order, book, high) && u in book
    ensures Waiting(book[u])
    ensures var v := Earliest(order, book)[u];
            v.eta == Arrival(book[u]) <= v.start && v.finish == v.start + book[u].duration == v.etd <= high
  {
    hide GetVariables, Before, Waiting, Earliest, SortedOrder, StartAt;
    QueueLine(order, book);
    var q, k := Line(order, book), Position(order, u);
    EarliestAt(order, book, k);
    EndsBy(q, k, high);
  }

  lemma EarliestAdmitted(order: seq<nat>, book: Book, w: Window, u: nat)
    requires Queue(order, book) && ArrivalsInside(book, w) && u in book && FitsHorizon(order, book, w.high)
    ensures Admits(book[u], Earliest(order, book)[u], w)
  {
    hide GetVariables, Before, Admits, Earliest, Queue, FitsHorizon, Waiting;
    EarliestBounds(order, book, w.high, u);
    WaitingAdmits(book[u], Earliest(order, book)[u], w);
  }

  /** The in-order schedule is a plan exactly when it ends in time and never overfills the input buffer. */
  lemma EarliestPlanIff(order: seq<nat>, book: Book, w: Window, capacity: nat)
    requires Queue(order, book) && ArrivalsInside(book, w)
    ensures Plan(book, w, capacity, Earliest(order, book)) <==>
            FitsHorizon(order, book, w.high) && FitsBuffer(order, book, capacity)
  {
    hide GetVariables, Before, Admits, Earliest, FitsBuffer, Within, Waiting;
    QueueLine(order, book);
    var e := Earliest(order, book);
    BufferWithin(order, book, capacity);
    if Plan(book, w, capacity, e) && order != [] {
      LastInTime(order, book, w, capacity);
    }
    if FitsHorizon(order, book, w.high) && FitsBuffer(order, book, capacity) {
      forall u | u in book
        ensures Admits(book[u], e[u], w)
      {
        EarliestAdmitted(order, book, w, u);
      }
      forall u, v | BothQueued(book, u, v) && Before(book[u], book[v])
        ensures Ordered(e, u, v)
      {
        EarliestOrdered(order, book, u, v);
      }
      EarliestProcessing(order, book);
      EarliestOutput(order, book, capacity);
    }
  }

  lemma LastInTime(order: seq<nat>, book: Book, w: Window, capacity: nat)
    requires Queue(order, book) && order != []
    requires Plan(book, w, capacity, Earliest(order, book))
    ensures FitsHorizon(order, book, w.high)
  {
    hide GetVariables, Before, Admits, Plan;
    QueueLine(order, book);
    var u := order[|order|-1];
    PositionOf(order, book, |order| - 1);
    PlanAdmits(book, w, capacity, Earliest(order, book), u);
    WaitingTimes(book[u], Earliest(order, book)[u], w);
  }

  /******* The admission test *******/

  lemma AnyPlanMakesEarliestOne(order: seq<nat>, book: Book, w: Window, capacity: nat, a: Assignment)
    requires Queue(order, book) && ArrivalsInside(book, w) && Plan(book, w, capacity, a)
    ensures Plan(book, w, capacity, Earliest(order, book))
  {
    hide GetVariables, Before, Admits, Earliest, Plan, FitsBuffer, FitsHorizon;
    QueueLine(order, book);
    var e := Earliest(order, book);
    PlanWaits(book, w, capacity, a);
    forall u | u in WaitSpans(book, e)
      ensures u in WaitSpans(book, a) && Narrower(WaitSpans(book, e)[u], WaitSpans(book, a)[u])
    {
      EarliestIsPointwiseEarliest(order, book, w, capacity, a, u);
    }
    NarrowingKeepsWithin(WaitSpans(book, a), WaitSpans(book, e), capacity);
    BufferWithin(order, book, capacity);
    if order != [] {
      NoEarlierStart(order, book, w, capacity, a, |order| - 1);
      LastOfPlanInTime(order, book, w, capacity, a);
    } else {
      assert FitsHorizon(order, book, w.high) by { EmptyFits(order, book, w.high); }
    }
    EarliestPlanIff(order, book, w, capacity);
  }

  lemma EmptyFits(order: seq<nat>, book: Book, high: int)
    requires Queue(order, book) && order == []
    ensures FitsHorizon(order, book, high)
  {
  }

  lemma LastOfPlanInTime(order: seq<nat>, book: Book, w: Window, capacity: nat, a: Assignment)
    requires Queue(order, book) && order != [] && Plan(book, w, capacity, a)
    ensures FitsHorizon(order, book, w.high)
  {
    hide GetVariables, Before, Admits, Plan;
    QueueLine(order, book);
    var u := order[|order|-1];
    NoEarlierStart(order, book, w, capacity, a, |order| - 1);
    PlanAdmits(book, w, capacity, a, u);
    WaitingTimes(book[u], a[u], w);
  }

  lemma PlanWaits(book: Book, w: Window, capacity: int, a: Assignment)
    requires Plan(book, w, capacity, a)
    ensures Within(WaitSpans(book, a), capacity) && a.Keys == book.Keys
  {
  }

  /** A schedule exists exactly when the in-order schedule ends in time and never overfills the buffer. */
  lemma AdmissionTest(order: seq<nat>, book: Book, w: Window, capacity: nat)
    requires Queue(order, book) && ArrivalsInside(book, w)
    ensures (exists a :: Plan(book, w, capacity, a)) <==>
            FitsHorizon(order, book, w.high) && FitsBuffer(order, book, capacity)
  {
    hide GetVariables, Before, Admits, Earliest, Plan, FitsBuffer, FitsHorizon, Queue;
    EarliestPlanIff(order, book, w, capacity);
    if a :| Plan(book, w, capacity, a) {
      AnyPlanMakesEarliestOne(order, book, w, capacity, a);
    }
  }

  /** ... and then it is the one and only cheapest plan. */
  lemma EarliestIsUniqueOptimum(order: seq<nat>, book: Book, w: Window, capacity: nat, a: Assignment)
    requires Queue(order, book) && ArrivalsInside(book, w)
    ensures OptimalPlan(book, w, capacity, a) <==>
            a == Earliest(order, book) && Plan(book, w, capacity, Earliest(order, book))
  {
    hide GetVariables, Before, Admits, Earliest, Plan, Queue, Cost;
    var e := Earliest(order, book);
    if Plan(book, w, capacity, a) {
      AnyPlanMakesEarliestOne(order, book, w, capacity, a);
      PlanBook(book, w, capacity, a);
      EarliestCostsLeast(order, book, w, capacity, a);
      if OptimalPlan(book, w, capacity, a) {
        forall u | u in a
          ensures a[u] == e[u]
        {
          EqualDepartureEqualTimes(order, book, w, capacity, a, u);
        }
        assert a == e;
      }
      if a == e {
        forall b | Plan(book, w, capacity, b)
          ensures Cost(e.Keys, e) <= Cost(b.Keys, b)
        {
          PlanBook(book, w, capacity, b);
          EarliestCostsLeast(order, book, w, capacity, b);
        }
      }
    }
  }

  lemma EarliestCostsLeast(order: seq<nat>, book: Book, w: Window, capacity: nat, a: Assignment)
    requires Queue(order, book) && Plan(book, w, capacity, a) && a.Keys == book.Keys
    ensures Cost(book.Keys, Earliest(order, book)) <= Cost(book.Keys, a)
    ensures (exists u :: u in book && Earliest(order, book)[u].etd < a[u].etd) ==>
            Cost(book.Keys, Earliest(order, book)) < Cost(book.Keys, a)
  {
    hide GetVariables, Before, Admits, Earliest, Plan, Queue, Cost;
    forall u | u in book
      ensures Earliest(order, book)[u].etd <= a[u].etd
    {
      EarliestIsPointwiseEarliest(order, book, w, capacity, a, u);
    }
    CostMonotone(book.Keys, a, Earliest(order, book));
  }

  lemma EqualDepartureEqualTimes(order: seq<nat>, book: Book, w: Window, capacity: nat, a: Assignment, u: nat)
    requires Queue(order, book) && Plan(book, w, capacity, a) && u in book && u in a
    requires a[u].etd <= Earliest(order, book)[u].etd
    ensures a[u] == Earliest(order, book)[u]
  {
    hide GetVariables, Before, Admits, Plan;
    QueueLine(order, book);
    EarliestIsPointwiseEarliest(order, book, w, capacity, a, u);
    PlanAdmits(book, w, capacity, a, u);
    WaitingTimes(book[u], a[u], w);
  }
}
