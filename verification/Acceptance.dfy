/** What `save` accepts while nothing has started, and what it does to the plans already made. */
module Acceptance {
  import opened Wrappers
  import opened Records
  import opened CpModel
  import opened Meaning
  import opened Admission
  import opened Insertion
  import opened History
  import opened Makespan
  import opened Planning

  ghost predicate AllWaiting(s: seq<Record>) {
    forall e :: e in s ==> Waiting(e)
  }

  /******* The planning call of a waiting queue *******/

  lemma {:induction false} FilterNone(s: seq<Record>, p: Record -> bool)
    requires forall e :: e in s ==> !p(e)
    ensures Filter(s, p) == []
  {
    if s == [] {
    } else {
      FilterNone(s[..|s|-1], p);
    }
  }

  lemma NothingToPrune(events: seq<Record>)
    requires AllWaiting(events)
    ensures Live(events) == events && Retained(events) == [] && Remaining(events) == events
  {
    var from, to := SpanStart(Live(events)), SpanEnd(Live(events));
    FilterAll(events, IsLive);
    FilterNone(events, e => !IsLive(e) && Reaches(e, from, to));
    FilterAll(events, e => IsLive(e) || Reaches(e, from, to));
  }

  lemma WaitingReadable(e: Record)
    requires Waiting(e)
    ensures GetVariables(e).Ok? && GetVariables(e).value.makespan == Range(Some(Arrival(e)), None)
  {
  }

  predicate Joins(s: World, c: Record) {
    Waiting(c) && forall e :: e in s.events ==> e.uid != c.uid
  }

  /** The window starts no later than any arrival and ends a horizon after the latest, or later still. */
  lemma WaitingWindow(cfg: Config, s: World, c: Record)
    requires AllWaiting(s.events) && Waiting(c)
    ensures Considered(s, [c]) == s.events + [c]
    ensures Readable(Considered(s, [c]))
    ensures var w := PlanningWindow(cfg, s, [c]);
            && s.maxHorizon <= w.high
            && (forall e :: e in s.events + [c] && Waiting(e) ==>
                  w.low <= Arrival(e) && Arrival(e) + cfg.horizon <= w.high)
            && (w.high == s.maxHorizon || exists e :: e in s.events + [c] && Waiting(e) && w.high == Arrival(e) + cfg.horizon)
  {
    hide GetVariables, Waiting;
    NothingToPrune(s.events);
    var all := s.events + [c];
    assert Considered(s, [c]) == all;
    forall i | 0 <= i < |all|
      ensures Waiting(all[i]) && GetVariables(all[i]).Ok?
      ensures GetVariables(all[i]).value.makespan == Range(Some(Arrival(all[i])), None)
    {
      assert all[i] in all;
      WaitingReadable(all[i]);
    }
    ArrivalWindow(cfg, s.maxHorizon, all);
  }

  lemma ArrivalWindow(cfg: Config, maxHorizon: int, all: seq<Record>)
    requires all != [] && AllWaiting(all) && Readable(all)
    requires forall i :: 0 <= i < |all| ==> Waiting(all[i]) && Ranges(all)[i] == Range(Some(Arrival(all[i])), None)
    ensures var w := WindowOf(Ranges(all), cfg.horizon, maxHorizon);
            && maxHorizon <= w.high
            && (forall e :: e in all && Waiting(e) ==> w.low <= Arrival(e) && Arrival(e) + cfg.horizon <= w.high)
            && (w.high == maxHorizon || exists e :: e in all && Waiting(e) && w.high == Arrival(e) + cfg.horizon)
  {
    hide GetVariables, Waiting, Ranges;
    var ranges := Ranges(all);
    var lows := Lows(ranges);
    NoHighs(ranges);
    assert ranges[0].low.Some?;
    assert lows != [] by { assert ranges[0].low.value in lows; }
    forall e | e in all && Waiting(e)
      ensures Arrival(e) in lows
    {
      var i :| 0 <= i < |all| && all[i] == e;
      assert ranges[i].low.Some?;
    }
    var i :| 0 <= i < |ranges| && ranges[i].low == Some(MaxOf(lows));
    assert all[i] in all && Arrival(all[i]) == MaxOf(lows);
  }

  lemma {:induction false} NoHighs(ranges: seq<Range>)
    requires forall i :: 0 <= i < |ranges| ==> ranges[i].high.None?
    ensures Highs(ranges) == []
  {
    if ranges == [] {
    } else {
      NoHighs(ranges[..|ranges|-1]);
    }
  }

  lemma WaitingQueue(s: seq<Record>, order: seq<nat>)
    requires AllWaiting(s) && UidsUnique(s)
    ensures WaitingBook(BookOf(s)) && BookValid(BookOf(s))
  {
    hide Waiting, GetVariables;
    BookMembers(s);
    forall u | u in BookOf(s)
      ensures BookOf(s)[u].uid == u && Waiting(BookOf(s)[u])
    {
      assert BookOf(s)[u] in s;
    }
    WaitingBookIsValid(BookOf(s));
  }

  lemma WaitingIsSorted(s: seq<Record>, order: seq<nat>)
    requires AllWaiting(s) && UidsUnique(s) && BookValid(BookOf(s)) && Arranged(order, BookOf(s))
    ensures Queue(order, BookOf(s))
  {
    hide GetVariables, Waiting, BookOf, Arranged, SortedOrder, Comparable;
    WaitingQueue(s, order);
    WaitingBookIsValid(BookOf(s));
    ArrangedIsSorted(order, BookOf(s));
  }

  /******* The admission test of save *******/

  /**
   * `save` finds a solution exactly when serving everyone in order, each as soon as possible, ends by
   * the end of the window and never has more events waiting than the input buffer holds.
   */
  lemma SaveAcceptsIff(cfg: Config, s: World, c: Record, order: seq<nat>)
    requires AllWaiting(s.events) && Waiting(c) && UidsUnique(s.events + [c])
    requires Queue(order, BookOf(s.events + [c]))
    ensures Considered(s, [c]) == s.events + [c] && Readable(Considered(s, [c]))
    ensures var book, w := BookOf(s.events + [c]), PlanningWindow(cfg, s, [c]);
            (exists a :: Feasible(Compile(book, order, w, cfg.capacity), a)) <==>
            FitsHorizon(order, book, w.high) && FitsBuffer(order, book, cfg.capacity)
  {
    hide GetVariables, Waiting, Considered, PlanningWindow, Feasible, Compile, Plan, FitsHorizon, FitsBuffer,
         QueueTimesSet, Readable, SortedOrder;
    WaitingWindow(cfg, s, c);
    var book, w := BookOf(s.events + [c]), PlanningWindow(cfg, s, [c]);
    ArrivalsIn(s.events + [c], w);
    WaitingBookIsValid(book);
    AdmissionTest(order, book, w, cfg.capacity);
    if r :| Feasible(Compile(book, order, w, cfg.capacity), r) {
      ShiftInverse(r, w.low);
      FeasibleIsPlan(book, order, w, cfg.capacity, ShiftAll(r, w.low));
    }
    if a :| Plan(book, w, cfg.capacity, a) {
      PlanIsFeasible(book, order, w, cfg.capacity, a);
    }
  }

  lemma ArrivalsIn(s: seq<Record>, w: Window)
    requires UidsUnique(s)
    requires forall e :: e in s && Waiting(e) ==> w.low <= Arrival(e)
    ensures ArrivalsInside(BookOf(s), w)
  {
    hide Waiting;
    BookMembers(s);
  }

  /** What an accepting call stores is the in-order schedule. */
  lemma SavedPlanIsEarliest(cfg: Config, s: World, c: Record, order: seq<nat>, r: Assignment)
    requires AllWaiting(s.events) && Waiting(c) && UidsUnique(s.events + [c])
    requires Queue(order, BookOf(s.events + [c]))
    requires Readable(Considered(s, [c]))
    requires Optimal(Compile(BookOf(s.events + [c]), order, PlanningWindow(cfg, s, [c]), cfg.capacity), r)
    ensures ShiftAll(r, PlanningWindow(cfg, s, [c]).low) == Earliest(order, BookOf(s.events + [c]))
  {
    hide GetVariables, Waiting, Considered, PlanningWindow, Optimal, Compile, Plan, QueueTimesSet, Readable,
         SortedOrder, OptimalPlan, Earliest, ShiftAll;
    WaitingWindow(cfg, s, c);
    var book, w := BookOf(s.events + [c]), PlanningWindow(cfg, s, [c]);
    ArrivalsIn(s.events + [c], w);
    WaitingBookIsValid(book);
    ShiftInverse(r, w.low);
    OptimalIsOptimalPlan(book, order, w, cfg.capacity, ShiftAll(r, w.low));
    EarliestIsUniqueOptimum(order, book, w, cfg.capacity, ShiftAll(r, w.low));
  }

  /******* The plans already made *******/

  /** The stored times are the in-order schedule of the listed events. */
  ghost predicate Current(s: World, order: seq<nat>)
    requires Queue(order, BookOf(s.events))
  {
    forall i :: 0 <= i < |s.events| ==> PlannedAt(s.events[i], order, BookOf(s.events))
  }

  ghost predicate PlannedAt(e: Record, order: seq<nat>, book: Book)
    requires Queue(order, book)
  {
    && e.uid in book
    && e.start == Some(Earliest(order, book)[e.uid].start)
    && e.finish == Some(Earliest(order, book)[e.uid].finish)
  }

  lemma WriteBackKeepsWaiting(e: Record, v: Values)
    requires Waiting(e) && v.eta == Arrival(e)
    ensures var f := WriteBack(e, v);
            && Waiting(f) && SameJob(e, f)
            && f.start == Some(v.start) && f.finish == Some(v.finish)
  {
  }

  /** The same queue as far as order, arrivals and durations go. */
  ghost predicate SameJobs(book: Book, other: Book) {
    && book.Keys == other.Keys
    && forall u :: u in book ==> SameJob(book[u], other[u])
  }

  predicate SameJob(e: Record, f: Record) {
    f.uid == e.uid && Queued(e.state) && Queued(f.state) && f.duration == e.duration && f.eta.time == e.eta.time
  }

  lemma SameJobsSameQueue(order: seq<nat>, book: Book, other: Book)
    requires Queue(order, book) && SameJobs(book, other) && WaitingBook(other)
    ensures Queue(order, other)
  {
    hide GetVariables;
    WaitingBookIsValid(other);
    QueueLine(order, book);
  }

  lemma {:induction false} SameJobsSameStart(order: seq<nat>, book: Book, other: Book, k: nat)
    requires Queue(order, book) && Queue(order, other) && SameJobs(book, other) && k < |order|
    ensures var q, r := (QueueLine(order, book); Line(order, book)), (QueueLine(order, other); Line(order, other));
            StartAt(q, k) == StartAt(r, k)
  {
    hide GetVariables, Before, SortedOrder;
    QueueLine(order, book);
    QueueLine(order, other);
    assert order[k] in book;
    if k == 0 {
    } else {
      assert order[k-1] in book;
      SameJobsSameStart(order, book, other, k - 1);
    }
  }

  lemma SameJobsSameEarliest(order: seq<nat>, book: Book, other: Book, u: nat)
    requires Queue(order, book) && Queue(order, other) && SameJobs(book, other) && u in book
    ensures Earliest(order, book)[u] == Earliest(order, other)[u]
  {
    hide GetVariables, Before, SortedOrder, Waiting, Earliest;
    QueueLine(order, book);
    var k := Position(order, u);
    EarliestAt(order, book, k);
    EarliestAt(order, other, k);
    SameJobsSameStart(order, book, other, k);
  }

  /**
   * Saving one more event: the stored times stay the in-order schedule, no listed event is planned
   * earlier than before, and every event ahead of the newcomer keeps its times.
   */
  lemma SaveKeepsPlans(cfg: Config, s: World, order: seq<nat>, c: Record, newOrder: seq<nat>, answer: Option<Assignment>)
    requires AllWaiting(s.events) && Joins(s, c) && UidsUnique(s.events + [c])
    requires UidsUnique(s.events) && Queue(order, BookOf(s.events)) && Current(s, order)
    requires Queue(newOrder, BookOf(s.events + [c]))
    requires Sound(cfg, s, [c], newOrder, answer) && answer.Some?
    ensures var t := AfterCall(cfg, s, [c], true, answer);
            && |t.events| == |s.events| + 1
            && AllWaiting(t.events) && UidsUnique(t.events)
            && Queue(newOrder, BookOf(t.events)) && Current(t, newOrder)
            && forall i :: 0 <= i < |s.events| ==> Undisturbed(s.events[i], t.events[i], c)
  {
    hide GetVariables, Waiting, Considered, PlanningWindow, Optimal, Compile, Plan, QueueTimesSet, Readable,
         SortedOrder, OptimalPlan, Earliest, ShiftAll, Queue, WriteBack, Sound, BookOf, AfterCall, Undisturbed, PlannedAt;
    var all := s.events + [c];
    var book := BookOf(all);
    WaitingWindow(cfg, s, c);
    var t := AfterCall(cfg, s, [c], true, answer);
    SavedEvents(cfg, s, c, newOrder, answer);
    SavedQueue(all, t.events, newOrder);
    forall i | 0 <= i < |s.events|
      ensures Undisturbed(s.events[i], t.events[i], c)
    {
      assert s.events[i] == all[i];
      StaysUndisturbed(s, order, c, newOrder, t.events[i], i);
    }
  }

  lemma StaysUndisturbed(s: World, order: seq<nat>, c: Record, newOrder: seq<nat>, after: Record, i: nat)
    requires AllWaiting(s.events) && Joins(s, c) && UidsUnique(s.events) && i < |s.events|
    requires Queue(order, BookOf(s.events)) && Current(s, order)
    requires Queue(newOrder, BookOf(s.events + [c])) && SavedAs(s.events[i], after, newOrder, BookOf(s.events + [c]))
    ensures Undisturbed(s.events[i], after, c)
  {
    hide GetVariables, Waiting, SortedOrder, Earliest, Queue, BookOf, Ahead;
    GrownBook(s.events, c);
    PlannedListed(s, order, i);
    OneMoreEvent(order, BookOf(s.events), newOrder, BookOf(s.events + [c]), c, s.events[i].uid);
  }

  /** The same event, not planned earlier, and planned as before if it is ahead of the newcomer. */
  predicate Undisturbed(before: Record, after: Record, c: Record) {
    && after.uid == before.uid && before.start.Some? && after.start.Some?
    && before.start.value <= after.start.value
    && (Ahead(before, c) ==> after.start == before.start && after.finish == before.finish)
  }

  ghost predicate SavedAs(e: Record, f: Record, order: seq<nat>, book: Book)
    requires Queue(order, book)
  {
    && Waiting(f) && SameJob(e, f) && PlannedAt(f, order, book)
  }

  lemma SavedEvents(cfg: Config, s: World, c: Record, order: seq<nat>, answer: Option<Assignment>)
    requires AllWaiting(s.events) && Joins(s, c) && UidsUnique(s.events + [c])
    requires Queue(order, BookOf(s.events + [c]))
    requires Sound(cfg, s, [c], order, answer) && answer.Some?
    ensures var t := AfterCall(cfg, s, [c], true, answer);
            && |t.events| == |s.events| + 1 && UidsUnique(t.events)
            && forall i :: 0 <= i < |t.events| ==> SavedAs((s.events + [c])[i], t.events[i], order, BookOf(s.events + [c]))
  {
    hide GetVariables, Waiting, PlanningWindow, Optimal, Compile, Plan, QueueTimesSet, Readable,
         SortedOrder, OptimalPlan, Earliest, ShiftAll, Queue, WriteBack, AfterCall, AppliedAll, SavedAs;
    WaitingWindow(cfg, s, c);
    SavedPlanIsEarliest(cfg, s, c, order, answer.value);
    SavedForm(cfg, s, c, answer);
    EarliestApplied(s.events + [c], order);
  }

  /** Each event is finished before the next one, in the order of arrival, is started. */
  predicate ServedInTurn(events: seq<Record>) {
    forall i, j :: 0 <= i < |events| && 0 <= j < |events| && ComesFirst(events[i], events[j]) ==>
      events[i].finish.Some? && events[j].start.Some? && events[i].finish.value <= events[j].start.value
  }

  lemma PlannedInTurn(events: seq<Record>, order: seq<nat>, book: Book)
    requires Queue(order, book)
    requires forall i :: 0 <= i < |events| ==> PlannedAt(events[i], order, book) && SameJob(book[events[i].uid], events[i])
    ensures ServedInTurn(events)
  {
    hide GetVariables, Waiting, SortedOrder, Earliest, Queue;
    forall i, j | 0 <= i < |events| && 0 <= j < |events| && ComesFirst(events[i], events[j])
      ensures events[i].finish.Some? && events[j].start.Some? && events[i].finish.value <= events[j].start.value
    {
      ServedFirstIff(order, book, events[i].uid, events[j].uid);
    }
  }

  /** What an accepting save stores serves everyone in turn. */
  lemma SavedInTurn(cfg: Config, s: World, c: Record, order: seq<nat>, answer: Option<Assignment>)
    requires AllWaiting(s.events) && Joins(s, c) && UidsUnique(s.events + [c])
    requires Queue(order, BookOf(s.events + [c]))
    requires Sound(cfg, s, [c], order, answer) && answer.Some?
    ensures ServedInTurn(AfterCall(cfg, s, [c], true, answer).events)
  {
    hide GetVariables, Waiting, SortedOrder, Earliest, Queue, BookOf, AfterCall, SameJob, PlannedAt, ServedInTurn,
         Considered, Readable, BookValid, Arranged, PlanningWindow, Optimal, Compile;
    var all := s.events + [c];
    SavedEvents(cfg, s, c, order, answer);
    BookMembers(all);
    var t := AfterCall(cfg, s, [c], true, answer);
    forall i | 0 <= i < |t.events|
      ensures PlannedAt(t.events[i], order, BookOf(all))
      ensures t.events[i].uid in BookOf(all) && SameJob(BookOf(all)[t.events[i].uid], t.events[i])
    {
      assert all[i] in all && SavedAs(all[i], t.events[i], order, BookOf(all));
      SameJobUid(all[i], t.events[i]);
    }
    PlannedInTurn(t.events, order, BookOf(all));
  }

  lemma SameJobUid(e: Record, f: Record)
    requires SameJob(e, f)
    ensures f.uid == e.uid
  {
  }

  lemma SavedForm(cfg: Config, s: World, c: Record, answer: Option<Assignment>)
    requires AllWaiting(s.events) && Waiting(c) && Readable(Considered(s, [c])) && answer.Some?
    ensures AfterCall(cfg, s, [c], true, answer).events ==
            AppliedAll(s.events + [c], ShiftAll(answer.value, PlanningWindow(cfg, s, [c]).low))
  {
    hide GetVariables, Waiting, PlanningWindow, Readable, ShiftAll, Applied;
    NothingToPrune(s.events);
  }

  lemma EarliestApplied(all: seq<Record>, order: seq<nat>)
    requires UidsUnique(all) && Queue(order, BookOf(all))
    ensures var events := AppliedAll(all, Earliest(order, BookOf(all)));
            UidsUnique(events) && forall i :: 0 <= i < |events| ==> SavedAs(all[i], events[i], order, BookOf(all))
  {
    hide GetVariables, Waiting, SortedOrder, Earliest, Queue, WriteBack, BookOf;
    var a := Earliest(order, BookOf(all));
    var events := AppliedAll(all, a);
    BookMembers(all);
    forall i | 0 <= i < |events|
      ensures events[i] == WriteBack(all[i], a[all[i].uid]) && SavedAs(all[i], events[i], order, BookOf(all))
    {
      assert all[i] in all;
      EarliestArrival(order, BookOf(all), all[i].uid);
      WriteBackKeepsWaiting(all[i], a[all[i].uid]);
    }
  }

  lemma EarliestArrival(order: seq<nat>, book: Book, u: nat)
    requires Queue(order, book) && u in book
    ensures Waiting(book[u]) && Earliest(order, book)[u].eta == Arrival(book[u])
  {
    hide GetVariables, Waiting, SortedOrder;
  }

  lemma SavedQueue(all: seq<Record>, events: seq<Record>, order: seq<nat>)
    requires UidsUnique(all) && UidsUnique(events) && Queue(order, BookOf(all)) && |events| == |all|
    requires forall i :: 0 <= i < |events| ==> SavedAs(all[i], events[i], order, BookOf(all))
    ensures AllWaiting(events)
    ensures Queue(order, BookOf(events)) && forall i :: 0 <= i < |events| ==> PlannedAt(events[i], order, BookOf(events))
  {
    hide GetVariables, Waiting, SortedOrder, Earliest, Queue, PlannedAt;
    BookMembers(all);
    BookMembers(events);
    SavedJobs(all, events, order);
    WaitingQueue(events, order);
    SameJobsSameQueue(order, BookOf(all), BookOf(events));
    forall i | 0 <= i < |events|
      ensures PlannedAt(events[i], order, BookOf(events))
    {
      SamePlannedAt(events[i], order, BookOf(all), BookOf(events));
    }
  }

  lemma SamePlannedAt(e: Record, order: seq<nat>, book: Book, other: Book)
    requires Queue(order, book) && Queue(order, other) && SameJobs(book, other) && PlannedAt(e, order, book)
    ensures PlannedAt(e, order, other)
  {
    hide GetVariables, Waiting, SortedOrder, Earliest, Queue;
    SameJobsSameEarliest(order, book, other, e.uid);
  }

  lemma SavedJobs(all: seq<Record>, events: seq<Record>, order: seq<nat>)
    requires UidsUnique(all) && UidsUnique(events) && Queue(order, BookOf(all)) && |events| == |all|
    requires forall i :: 0 <= i < |events| ==> SavedAs(all[i], events[i], order, BookOf(all))
    ensures SameJobs(BookOf(all), BookOf(events))
  {
    hide GetVariables, Waiting, SortedOrder, Earliest, Queue, PlannedAt, UidsUnique, BookOf, SameJob;
    BookMembers(all);
    BookMembers(events);
    forall i | 0 <= i < |all|
      ensures events[i].uid == all[i].uid && SameJob(all[i], events[i])
    {
      SameJobUid(all[i], events[i]);
    }
    SameUidsSameKeys(all, events);
    forall u | u in BookOf(all)
      ensures SameJob(BookOf(all)[u], BookOf(events)[u])
    {
      var i :| 0 <= i < |all| && all[i] == BookOf(all)[u];
      assert events[i] in events;
    }
  }

  lemma SameUidsSameKeys(all: seq<Record>, events: seq<Record>)
    requires UidsUnique(all) && UidsUnique(events) && |events| == |all|
    requires forall i :: 0 <= i < |all| ==> events[i].uid == all[i].uid
    ensures BookOf(all).Keys == BookOf(events).Keys
  {
    hide UidsUnique, BookOf;
    BookMembers(all);
    BookMembers(events);
    forall u | u in BookOf(all)
      ensures u in BookOf(events)
    {
      var i :| 0 <= i < |all| && all[i] == BookOf(all)[u];
      assert events[i] in events;
    }
    forall u | u in BookOf(events)
      ensures u in BookOf(all)
    {
      var i :| 0 <= i < |events| && events[i] == BookOf(events)[u];
      assert all[i] in all;
    }
  }

  lemma GrownBook(s: seq<Record>, c: Record)
    requires UidsUnique(s) && forall e :: e in s ==> e.uid != c.uid
    ensures c.uid !in BookOf(s) && BookOf(s + [c]) == BookOf(s)[c.uid := c]
  {
    BookMembers(s);
    assert (s + [c])[..|s|] == s;
  }

  lemma PlannedListed(s: World, order: seq<nat>, i: nat)
    requires UidsUnique(s.events) && Queue(order, BookOf(s.events)) && Current(s, order) && i < |s.events|
    ensures s.events[i].uid in BookOf(s.events) && BookOf(s.events)[s.events[i].uid] == s.events[i]
    ensures PlannedAt(s.events[i], order, BookOf(s.events))
  {
    hide GetVariables, Waiting, SortedOrder, Earliest, Queue, PlannedAt;
    BookMembers(s.events);
    assert s.events[i] in s.events;
  }
}
