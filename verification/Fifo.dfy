/** The event order, and first-in-first-out service of the events that have not started. */
module Fifo {
  import opened Wrappers
  import opened Cumulative
  import opened Records
  import opened CpModel
  import opened Meaning
  import opened Optimum

  /******* The order *******/

  /** The time that orders an event in its state is set, not merely bounded. */
  predicate TimeSet(e: Record) {
    match e.state
    case Started => e.start.Some?
    case Finished => e.finish.Some?
    case Departed => false
    case Canceled => false
    case _ => e.eta.time.Some?
  }

  /** On events with their times set the order is strict and total. */
  lemma OrderIsStrictTotal(a: Record, b: Record, c: Record)
    requires TimeSet(a) && TimeSet(b) && TimeSet(c)
    ensures !Before(a, a)
    ensures a.uid != b.uid ==> (Before(a, b) <==> !Before(b, a))
    ensures Before(a, b) && Before(b, c) ==> Before(a, c)
  {
  }

  /** Events that went further come first, the queue last. */
  function Stage(e: Record): int {
    match e.state
    case Canceled => 0
    case Departed => 1
    case Finished => 2
    case Started => 3
    case _ => 4
  }

  /** The time that matters at an event's stage. */
  function StageTime(e: Record): int
    requires TimeSet(e)
  {
    match e.state
    case Started => e.start.value
    case Finished => e.finish.value
    case _ => e.eta.time.value
  }

  /** The order, field by field: by stage, then by the stage's time, then by duration, then by uid. */
  lemma OrderByFields(a: Record, b: Record)
    requires TimeSet(a) && TimeSet(b)
    ensures Before(a, b) <==>
            || Stage(a) < Stage(b)
            || (Stage(a) == Stage(b) &&
                (|| StageTime(a) < StageTime(b)
                 || (StageTime(a) == StageTime(b) &&
                     (a.duration < b.duration || (a.duration == b.duration && a.uid < b.uid)))))
  {
  }

  /** Between stages nothing else matters; two events that are gone at the same stage compare by arrival alone. */
  lemma OrderByStage(a: Record, b: Record)
    requires Comparable(a) && Comparable(b)
    ensures Stage(a) != Stage(b) ==> (Before(a, b) <==> Stage(a) < Stage(b))
    ensures Stage(a) == Stage(b) < 2 && a.eta.time.Some? && b.eta.time.Some? ==>
              (Before(a, b) <==> a.eta.time.value < b.eta.time.value)
  {
  }

  /**
   * Two queued events compare in neither direction exactly when only one of them has its time set
   * and the other's lower bound is that same time.
   */
  lemma ComparableIff(a: Record, b: Record)
    requires Queued(a.state) && Queued(b.state) && Comparable(a) && Comparable(b) && a.uid != b.uid
    ensures Before(a, b) || Before(b, a) <==>
            !(a.eta.time != b.eta.time && EtxValue(a.eta) == EtxValue(b.eta))
  {
  }

  /** `a` comes first by duration and uid. */
  predicate Shorter(a: Record, b: Record) {
    a.duration < b.duration || (a.duration == b.duration && a.uid < b.uid)
  }

  /**
   * `x` and `y` have no arrival time, so the shorter `x` comes first; but `z`, which has one, comes after
   * the bound of `y` and before that of `x`.
   */
  predicate Trap(x: Record, y: Record, z: Record)
    requires EtxDefined(x.eta) && EtxDefined(y.eta)
  {
    && x.eta.time.None? && y.eta.time.None? && z.eta.time.Some?
    && y.eta.low.value < z.eta.time.value < x.eta.low.value
    && Shorter(x, y)
  }

  /** The order of queued events runs in a circle exactly when one event with a set time stands in such a trap. */
  lemma OrderCyclesIff(a: Record, b: Record, c: Record)
    requires Queued(a.state) && Queued(b.state) && Queued(c.state)
    requires Comparable(a) && Comparable(b) && Comparable(c)
    ensures Before(a, b) && Before(b, c) && Before(c, a) <==> Trap(a, b, c) || Trap(b, c, a) || Trap(c, a, b)
  {
  }

  /** Such events exist, with times as the constructor accepts them. */
  lemma OrderCanCycle()
    ensures exists a: Record, b: Record, c: Record ::
              && a.state == New && b.state == New && c.state == New
              && Acceptable(a.eta, a.etd) && Acceptable(b.eta, b.etd) && Acceptable(c.eta, c.etd)
              && Before(a, b) && Before(b, c) && Before(c, a)
  {
    var free := Etx(None, None, None);
    var a := Record(1, 1, New, Etx(None, Some(5), Some(5)), free, None, None, None, None, false);
    var b := Record(2, 2, New, Etx(None, Some(3), Some(3)), free, None, None, None, None, false);
    var c := Record(3, 1, New, Etx(Some(4), Some(4), Some(4)), free, None, None, None, None, false);
    assert Trap(a, b, c);
    OrderCyclesIff(a, b, c);
  }

  /** Two unset arrivals are ordered by duration, so a shorter event that comes later shuts both out. */
  lemma UnsetArrivalsShutOut(a: Record, b: Record, w: Window, capacity: int, s: Assignment)
    requires a.state == New && b.state == New && a.uid != b.uid
    requires a.eta.time.None? && a.eta.low.Some? && a.eta.high.Some?
    requires b.eta.time.None? && b.eta.low.Some? && b.eta.high.Some?
    requires Shorter(a, b) && b.eta.low.value < a.eta.low.value
    ensures !Plan(Pair(a, b), w, capacity, s)
  {
    hide GetVariables, Within, WaitSpans, ProcessSpans, OutputSpans, Admits, Plan;
    var book := Pair(a, b);
    if Plan(book, w, capacity, s) {
      assert BothQueued(book, a.uid, b.uid) && Before(book[a.uid], book[b.uid]);
      PlanOrders(book, w, capacity, s, a.uid, b.uid);
      AdmittedTimes(book[a.uid], s[a.uid], w);
      AdmittedTimes(book[b.uid], s[b.uid], w);
    }
  }

  /** A new event with an arrival window, no arrival time, and free to leave. */
  predicate Windowed(e: Record) {
    && e.state == New && 0 < e.duration
    && e.eta.time.None? && e.eta.low.Some? && e.eta.high.Some?
    && e.etd.low.None? && e.etd.high.None?
  }

  lemma WindowedAdmits(e: Record, v: Values, w: Window)
    requires Windowed(e) && w.low <= e.eta.low.value
    requires v.eta == e.eta.low.value <= v.start && v.finish == v.start + e.duration == v.etd <= w.high
    ensures Admits(e, v, w)
  {
  }

  ghost function Pair(a: Record, b: Record): Book {
    map[a.uid := a, b.uid := b]
  }

  /**
   * Two events without arrival times are ordered by duration. They can be planned together exactly when
   * that is also the order in which they may arrive; otherwise no window and no capacity helps.
   */
  lemma UnsetArrivalsPlanIff(a: Record, b: Record)
    requires Windowed(a) && Windowed(b) && a.uid != b.uid && Shorter(a, b)
    ensures (exists w, capacity, s :: Plan(Pair(a, b), w, capacity, s)) <==> a.eta.low.value <= b.eta.low.value
  {
    hide GetVariables, Within, WaitSpans, ProcessSpans, OutputSpans, Admits, Plan;
    if w, capacity, s :| Plan(Pair(a, b), w, capacity, s) {
      if b.eta.low.value < a.eta.low.value {
        UnsetArrivalsShutOut(a, b, w, capacity, s);
      }
    }
    if a.eta.low.value <= b.eta.low.value {
      OneAfterTheOther(a, b);
    }
  }

  lemma PlanOrders(book: Book, w: Window, capacity: int, s: Assignment, u: nat, v: nat)
    requires Plan(book, w, capacity, s) && BothQueued(book, u, v) && Before(book[u], book[v])
    ensures Ordered(s, u, v) && Admits(book[u], s[u], w) && Admits(book[v], s[v], w)
  {
    hide GetVariables, Within, WaitSpans, ProcessSpans, OutputSpans, Admits;
  }

  lemma OneAfterTheOther(a: Record, b: Record)
    requires Windowed(a) && Windowed(b) && a.uid != b.uid && Shorter(a, b)
    requires a.eta.low.value <= b.eta.low.value
    ensures exists w, capacity, s :: Plan(Pair(a, b), w, capacity, s)
  {
    hide GetVariables, Within, Admits, WaitSpans, ProcessSpans, OutputSpans, Comparable;
    var first := a.eta.low.value + a.duration;
    var start := Max(b.eta.low.value, first);
    var w, book := Window(a.eta.low.value, start + b.duration), Pair(a, b);
    var s: Assignment := map[
      a.uid := Values(a.eta.low.value, a.eta.low.value, first, first),
      b.uid := Values(b.eta.low.value, start, start + b.duration, start + b.duration)];
    WindowedReadable(a);
    WindowedReadable(b);
    WindowedAdmits(a, s[a.uid], w);
    WindowedAdmits(b, s[b.uid], w);
    PairFits(book, s, a.uid, b.uid);
    assert Plan(book, w, 2, s);
  }

  lemma PairFits(book: Book, s: Assignment, u: nat, v: nat)
    requires book.Keys == s.Keys == {u, v} && u != v && s[u].finish <= s[v].start
    ensures Within(WaitSpans(book, s), 2) && Within(ProcessSpans(s), 1) && Within(OutputSpans(s), 2)
  {
    hide Within, Waits;
    AtMostTwo(WaitSpans(book, s), u, v);
    AtMostTwo(OutputSpans(s), u, v);
    UnitCapacityIffDisjoint(ProcessSpans(s));
  }

  lemma WindowedReadable(e: Record)
    requires Windowed(e)
    ensures GetVariables(e).Ok? && Comparable(e)
  {
  }

  lemma AtMostTwo(spans: map<nat, Span>, u: nat, v: nat)
    requires spans.Keys <= {u, v}
    ensures Within(spans, 2)
  {
    forall t
      ensures |At(spans, t)| <= 2
    {
      SubsetSize(At(spans, t), {u, v});
    }
  }

  /******* Service in turn *******/

  /** Processing takes the full, positive duration. */
  predicate FullService(e: Record) {
    0 < e.duration && !(e.canceled && e.state == Arrived)
  }

  /** Of two queued events the later one cannot start before the earlier one is finished. */
  lemma QueueServesInTurn(book: Book, w: Window, capacity: int, a: Assignment, u: nat, v: nat)
    requires Plan(book, w, capacity, a)
    requires BothQueued(book, u, v) && Before(book[u], book[v]) && u != v
    requires FullService(book[u]) && FullService(book[v])
    ensures a[u].finish == a[u].start + book[u].duration
    ensures a[u].finish <= a[v].start
  {
    hide GetVariables, Admits, Within, WaitSpans, OutputSpans, Before;
    AdmittedTimes(book[u], a[u], w);
    AdmittedTimes(book[v], a[v], w);
    UnitCapacityIffDisjoint(ProcessSpans(a));
    assert Disjoint(ProcessSpans(a)[u], ProcessSpans(a)[v]);
    assert Ordered(a, u, v);
  }

  function TotalDuration(order: seq<nat>, book: Book): int
    requires forall u :: u in order ==> u in book
  {
    if order == [] then 0 else TotalDuration(order[..|order|-1], book) + book[order[|order|-1]].duration
  }

  /**
   * From position `i` of the sorted order on, the queue is served one after the other: the event at
   * position `k` cannot finish before the start at `i` plus all durations from `i` to `k`.
   */
  lemma {:induction false} QueueTakesAllDurations(book: Book, order: seq<nat>, w: Window, capacity: int, a: Assignment,
                                                  i: nat, k: nat)
    requires Plan(book, w, capacity, a) && SortedOrder(order, book) && QueueTimesSet(book)
    requires i <= k < |order|
    requires forall u :: u in order ==> u in book
    requires Queued(book[order[i]].state)
    requires forall j :: i <= j <= k ==> FullService(book[order[j]])
    ensures a[order[i]].start + TotalDuration(order[i..k+1], book) <= a[order[k]].finish
  {
    hide GetVariables, Plan, Before, FullService, TotalDuration, SortedOrder, QueueTimesSet;
    PlanBook(book, w, capacity, a);
    TotalNext(order, book, i, k);
    QueueIsSuffix(order, book, i, k);
    FinishAfterDuration(book, w, capacity, a, order[k]);
    if i == k {
    } else {
      QueueTakesAllDurations(book, order, w, capacity, a, i, k - 1);
      QueueIsSuffix(order, book, i, k - 1);
      NeighboursCompare(order, book, k - 1);
      SortedOnceOnly(order, book, k - 1, k);
      QueueServesInTurn(book, w, capacity, a, order[k-1], order[k]);
    }
  }

  lemma TotalNext(order: seq<nat>, book: Book, i: nat, k: nat)
    requires i <= k < |order| && forall u :: u in order ==> u in book
    ensures TotalDuration(order[i..k+1], book) == TotalDuration(order[i..k], book) + book[order[k]].duration
    ensures TotalDuration(order[i..i], book) == 0
  {
    var part := order[i..k+1];
    assert part == order[i..k] + [order[k]];
    assert part[..|part|-1] == order[i..k];
  }

  lemma SortedOnceOnly(order: seq<nat>, book: Book, i: nat, j: nat)
    requires BookValid(book) && SortedOrder(order, book) && i < j < |order|
    ensures order[i] != order[j]
  {
  }

  lemma PlanBook(book: Book, w: Window, capacity: int, a: Assignment)
    requires Plan(book, w, capacity, a)
    ensures BookValid(book) && a.Keys == book.Keys
  {
  }

  lemma FinishAfterDuration(book: Book, w: Window, capacity: int, a: Assignment, u: nat)
    requires Plan(book, w, capacity, a) && u in book
    requires Queued(book[u].state) && FullService(book[u])
    ensures u in a && a[u].finish == a[u].start + book[u].duration
  {
    hide GetVariables, Admits, Within, WaitSpans, ProcessSpans, OutputSpans;
    AdmittedTimes(book[u], a[u], w);
  }

  lemma NeighboursCompare(order: seq<nat>, book: Book, k: nat)
    requires BookValid(book) && SortedOrder(order, book) && QueueTimesSet(book)
    requires k + 1 < |order|
    requires BothQueued(book, order[k], order[k+1])
    ensures Before(book[order[k]], book[order[k+1]])
  {
    hide GetVariables;
  }
}
