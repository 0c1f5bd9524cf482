/** As long as everything happens on time, the stored plan stays feasible and validation cannot fail. */
module OnTime {
  import opened Wrappers
  import opened Cumulative
  import opened Records
  import opened CpModel
  import opened Meaning
  import opened Optimum

  /******* Events of an on-time run *******/

  predicate Plain(e: Record) {
    && !e.canceled && 0 < e.duration
    && e.etd.low.None? && e.etd.high.None?
    && e.eta.time.Some?
    && (e.state == New ==> e.eta.low == e.eta.time && e.eta.high.Some?)
  }

  /** An event that may be planned for the first time. */
  predicate Candidate(e: Record) {
    && Plain(e)
    && (e.state == New || e.state == Arrived || e.state == Started || e.state == Finished)
    && (e.state == Started || e.state == Finished ==> e.start.Some?)
    && (e.state == Finished ==> e.finish.Some?)
  }

  /** An event with a stored plan. */
  predicate Settled(e: Record) {
    && Plain(e)
    && (Candidate(e) || e.state == Departed)
    && e.start.Some? && e.finish.Some?
    && (e.state == Departed ==> e.etd.time == e.finish)
  }

  predicate Schedulable(e: Record) {
    Candidate(e) || Settled(e)
  }

  function Stored(e: Record): Values
    requires Settled(e)
  {
    Values(e.eta.time.value, e.start.value, e.finish.value, e.finish.value)
  }

  /** The event's stored times are in order, complete, and end by `high`. */
  predicate InTime(e: Record, high: int)
    requires Settled(e)
  {
    && (Waits(e) ==> e.eta.time.value <= e.start.value && e.finish.value == e.start.value + e.duration)
    && e.start.value <= e.finish.value <= high
  }

  ghost predicate AllInTime(book: Book, high: int) {
    forall u :: u in book ==> book[u].uid == u && Settled(book[u]) && InTime(book[u], high)
  }

  ghost function StoredPlan(book: Book): (a: Assignment)
    requires forall u :: u in book ==> Settled(book[u])
    ensures a.Keys == book.Keys
  {
    map u | u in book :: Stored(book[u])
  }

  predicate KeepsOrder(book: Book, a: Assignment, u: nat, v: nat) {
    BothQueued(book, u, v) && u in a && v in a && Ahead(book[u], book[v]) ==> Ordered(a, u, v)
  }

  /** The stored times, each event leaving when it is finished, respect order and resources. */
  ghost predicate OnTimeBook(book: Book, high: int, capacity: int) {
    && AllInTime(book, high)
    && (forall u, v :: KeepsOrder(book, StoredPlan(book), u, v))
    && Within(WaitSpans(book, StoredPlan(book)), capacity)
    && Within(ProcessSpans(StoredPlan(book)), 1)
  }

  /******* Stored times and plans *******/

  /** The event's known minimum. */
  function FirstTime(e: Record): int
    requires Settled(e)
  {
    if Waits(e) then e.eta.time.value else e.start.value
  }

  lemma SettledAdmits(e: Record, high: int, w: Window)
    requires Settled(e) && InTime(e, high)
    requires high <= w.high && w.low <= FirstTime(e)
    ensures Admits(e, Stored(e), w)
  {
    hide Admits, Stored, InTime, FirstTime, Settled;
    if Queued(e.state) {
      SettledQueuedAdmits(e, high, w);
    } else {
      SettledServedAdmits(e, high, w);
    }
  }

  lemma SettledQueuedAdmits(e: Record, high: int, w: Window)
    requires Settled(e) && InTime(e, high) && Queued(e.state)
    requires high <= w.high && w.low <= FirstTime(e)
    ensures Admits(e, Stored(e), w)
  {
  }

  lemma SettledServedAdmits(e: Record, high: int, w: Window)
    requires Settled(e) && InTime(e, high) && !Queued(e.state)
    requires high <= w.high && w.low <= FirstTime(e)
    ensures Admits(e, Stored(e), w)
  {
  }

  lemma SettledIsReadable(e: Record)
    requires Schedulable(e)
    ensures GetVariables(e).Ok? && Comparable(e)
    ensures Queued(e.state) ==> e.eta.time.Some?
  {
  }

  lemma NoOutput(book: Book, capacity: nat)
    requires forall u :: u in book ==> Settled(book[u])
    ensures Within(OutputSpans(StoredPlan(book)), capacity)
  {
    var spans := OutputSpans(StoredPlan(book));
    forall t
      ensures |At(spans, t)| <= capacity
    {
      assert At(spans, t) == {};
    }
  }

  /** The stored times are a plan for every window that contains them. */
  lemma OnTimeIsPlan(book: Book, high: int, capacity: nat, w: Window)
    requires OnTimeBook(book, high, capacity)
    requires high <= w.high && forall u :: u in book ==> w.low <= FirstTime(book[u])
    ensures Plan(book, w, capacity, StoredPlan(book)) && QueueTimesSet(book)
  {
    hide GetVariables, Admits, Before, Comparable, Waits, Within, Settled, InTime, Stored;
    forall u | u in book
      ensures GetVariables(book[u]).Ok? && Comparable(book[u]) && Admits(book[u], StoredPlan(book)[u], w)
      ensures Queued(book[u].state) ==> book[u].eta.time.Some?
    {
      SettledIsReadable(book[u]);
      SettledAdmits(book[u], high, w);
    }
    NoOutput(book, capacity);
    forall u, v | BothQueued(book, u, v) && Before(book[u], book[v])
      ensures Ordered(StoredPlan(book), u, v)
    {
      assert KeepsOrder(book, StoredPlan(book), u, v);
    }
  }

  /** A departed event's times are fixed, so only its history bounds them. */
  predicate GoneBy(e: Record, high: int) {
    e.state == Departed && e.finish.Some? ==> e.finish.value <= high
  }

  ghost predicate AllSchedulable(book: Book, high: int) {
    forall u :: u in book ==> Schedulable(book[u]) && GoneBy(book[u], high)
  }

  /** Writing a solution back settles the event at the solution's times. */
  lemma WriteBackSettles(e: Record, v: Values, w: Window)
    requires Schedulable(e) && Admits(e, v, w) && GoneBy(e, w.high)
    ensures var f := WriteBack(e, v);
            && f.uid == e.uid && f.state == e.state && f.duration == e.duration && f.eta.time == e.eta.time
            && Settled(f) && InTime(f, w.high)
            && Stored(f).start == v.start && Stored(f).finish == v.finish
            && (Waits(e) ==> Stored(f).eta == v.eta)
  {
  }

  ghost predicate WrittenBack(book: Book, a: Assignment, planned: Book) {
    planned.Keys == book.Keys == a.Keys && forall u :: u in book ==> planned[u] == WriteBack(book[u], a[u])
  }

  /** Queued events compare by uid, duration and arrival time alone. */
  lemma SameKeysSameOrder(a: Record, b: Record, c: Record, d: Record)
    requires Queued(a.state) && Queued(b.state) && Queued(c.state) && Queued(d.state)
    requires a.uid == c.uid && a.duration == c.duration && a.eta.time == c.eta.time && a.eta.time.Some?
    requires b.uid == d.uid && b.duration == d.duration && b.eta.time == d.eta.time && b.eta.time.Some?
    ensures Ahead(a, b) <==> Ahead(c, d)
  {
  }

  /** After a successful call the stored times are on time in the window of that call. */
  lemma PlanIsOnTime(book: Book, w: Window, capacity: int, a: Assignment, planned: Book)
    requires Plan(book, w, capacity, a) && WrittenBack(book, a, planned)
    requires AllSchedulable(book, w.high)
    ensures OnTimeBook(planned, w.high, capacity)
  {
    hide GetVariables, Admits, Before, Comparable, Within, Settled, Schedulable, InTime, Stored, WriteBack, Ahead;
    forall u | u in book
      ensures planned[u].uid == u && planned[u].state == book[u].state
      ensures Settled(planned[u]) && InTime(planned[u], w.high)
      ensures Stored(planned[u]).start == a[u].start && Stored(planned[u]).finish == a[u].finish
      ensures Waits(book[u]) ==> Stored(planned[u]).eta == a[u].eta
    {
      WriteBackSettles(book[u], a[u], w);
    }
    assert WaitSpans(planned, StoredPlan(planned)) == WaitSpans(book, a);
    assert ProcessSpans(StoredPlan(planned)) == ProcessSpans(a);
    forall u, v
      ensures KeepsOrder(planned, StoredPlan(planned), u, v)
    {
      PlannedInOrder(book, w, capacity, a, planned, u, v);
    }
  }

  lemma PlannedInOrder(book: Book, w: Window, capacity: int, a: Assignment, planned: Book, u: nat, v: nat)
    requires Plan(book, w, capacity, a) && WrittenBack(book, a, planned)
    requires AllSchedulable(book, w.high)
    requires forall x :: x in planned ==> Settled(planned[x])
    ensures KeepsOrder(planned, StoredPlan(planned), u, v)
  {
    hide GetVariables, Admits, Before, Comparable, Within, Settled, Schedulable, InTime, Stored, WriteBack, Ahead,
         WaitSpans, ProcessSpans, OutputSpans;
    if BothQueued(planned, u, v) && Ahead(planned[u], planned[v]) {
      SettledIsReadable(book[u]);
      SettledIsReadable(book[v]);
      WriteBackSettles(book[u], a[u], w);
      WriteBackSettles(book[v], a[v], w);
      SameKeysSameOrder(book[u], book[v], planned[u], planned[v]);
      AheadInPlan(book, w, capacity, a, u, v);
    }
  }

  lemma AheadInPlan(book: Book, w: Window, capacity: int, a: Assignment, u: nat, v: nat)
    requires Plan(book, w, capacity, a) && BothQueued(book, u, v) && Ahead(book[u], book[v])
    ensures Ordered(a, u, v)
  {
    hide GetVariables, Admits, Comparable, Within;
  }

  /******* Fewer events, more time *******/

  lemma FewerEventsOnTime(book: Book, high: int, capacity: int, rest: Book, later: int)
    requires OnTimeBook(book, high, capacity) && high <= later
    requires rest.Keys <= book.Keys && forall u :: u in rest ==> rest[u] == book[u]
    ensures OnTimeBook(rest, later, capacity)
  {
    hide Ahead, Settled, Waits, Within, Stored;
    assert StoredPlan(rest) == Restrict(StoredPlan(book), rest.Keys);
    RestrictNarrows(book, StoredPlan(book), rest);
    NarrowingKeepsWithin(WaitSpans(book, StoredPlan(book)), WaitSpans(rest, StoredPlan(rest)), capacity);
    NarrowingKeepsWithin(ProcessSpans(StoredPlan(book)), ProcessSpans(StoredPlan(rest)), 1);
    forall u, v
      ensures KeepsOrder(rest, StoredPlan(rest), u, v)
    {
      assert KeepsOrder(book, StoredPlan(book), u, v);
    }
  }

  /******* On-time steps of one event *******/

  /** The next life-cycle step, taken exactly at the planned time. */
  function Advance(e: Record): Record
    requires Settled(e)
  {
    match e.state
    case New => Arrive(e, e.eta.time.value)
    case Arrived => Start(e, e.start.value)
    case Started => Finish(e, e.finish.value)
    case Finished => Depart(e, e.finish.value)
    case _ => e
  }

  lemma AdvanceKeepsTimes(e: Record, f: Record, high: int)
    requires Settled(e) && InTime(e, high)
    requires f == Advance(e) || (e.state == New && f == Start(e, e.start.value))
    ensures f.uid == e.uid && f.duration == e.duration && f.eta.time == e.eta.time
    ensures Settled(f) && InTime(f, high) && Stored(f) == Stored(e)
    ensures Waits(f) ==> Waits(e)
    ensures Queued(f.state) ==> Queued(e.state)
  {
  }

  lemma AdvanceOnTime(book: Book, high: int, capacity: int, u: nat, f: Record)
    requires OnTimeBook(book, high, capacity) && u in book
    requires f == Advance(book[u]) || (book[u].state == New && f == Start(book[u], book[u].start.value))
    ensures OnTimeBook(book[u := f], high, capacity)
  {
    hide Ahead, Settled, Waits, Within, Stored, Advance, Start, InTime;
    var next := book[u := f];
    AdvanceKeepsTimes(book[u], f, high);
    assert StoredPlan(next) == StoredPlan(book);
    NarrowingKeepsWithin(WaitSpans(book, StoredPlan(book)), WaitSpans(next, StoredPlan(next)), capacity);
    forall x, y
      ensures KeepsOrder(next, StoredPlan(next), x, y)
    {
      if BothQueued(next, x, y) {
        SettledIsReadable(book[x]);
        SettledIsReadable(book[y]);
        SameKeysSameOrder(book[x], book[y], next[x], next[y]);
        assert KeepsOrder(book, StoredPlan(book), x, y);
      }
    }
  }
}
