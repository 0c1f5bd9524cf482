/** What plans guarantee, which changes keep a plan, and what the cheapest plans look like. */
module Optimum {
  import opened Wrappers
  import opened Cumulative
  import opened Records
  import opened CpModel
  import opened Meaning

  /******* What every solution guarantees *******/

  lemma AdmittedTimes(e: Record, v: Values, w: Window)
    requires Admits(e, v, w)
    ensures Waits(e) ==> v.eta <= v.start
    ensures v.start <= v.finish <= v.etd
    ensures e.state == Arrived ==> v.finish == v.etd
    ensures e.state == New || e.state == Scheduled ==>
              && (e.eta.low.Some? && e.eta.high.Some? ==> v.eta == e.eta.low.value)
              && (e.eta.high.Some? ==> e.eta.low.value <= v.start)
              && (e.etd.low.Some? ==> v.finish <= e.etd.low.value <= v.etd)
              && (e.etd.high.Some? ==> v.etd == e.etd.low.value)
    ensures !e.canceled || !(e.state == Arrived || e.state == Started) ==>
              (e.state != Finished && e.state != Departed ==> v.finish == v.start + e.duration)
  {
  }

  /** The past cannot be replanned, and departure bounds hold in every state that still has to leave. */
  lemma RecordedTimesAreFixed(e: Record, v: Values, w: Window)
    requires Admits(e, v, w)
    ensures e.state == Arrived || e.state == Started ==> e.eta.time == Some(v.eta)
    ensures e.state == Started || e.state == Finished || e.state == Departed ==> e.start == Some(v.start)
    ensures e.state == Started ==> v.finish == v.start + e.duration
    ensures e.state == Finished || e.state == Departed ==> e.finish == Some(v.finish)
    ensures e.state == Departed ==> e.etd.time == Some(v.etd)
    ensures e.state == Arrived ==> 0 <= v.finish - v.start <= e.duration
    ensures e.state != Departed && e.etd.low.Some? ==> e.etd.low.value <= v.etd
    ensures e.state != Departed ==> v.etd <= if e.etd.high.Some? then e.etd.low.value else w.high
    ensures e.state != Canceled
  {
  }

  /** The events in the input buffer at `t`. */
  function WaitingAt(book: Book, a: Assignment, t: int): set<nat> {
    set u | u in book && u in a && Waits(book[u]) && a[u].eta <= t < a[u].start
  }

  /** The events in the output buffer at `t`. */
  function StoredAt(a: Assignment, t: int): set<nat> {
    set u | u in a && a[u].finish <= t < a[u].etd
  }

  /**
   * Every solution of the compiled model, read in absolute time: each event's times are in order,
   * no two processing intervals of positive length overlap, and no instant overfills either buffer.
   */
  lemma SolutionMeaning(book: Book, order: seq<nat>, w: Window, capacity: int, a: Assignment)
    requires BookValid(book) && SortedOrder(order, book)
    requires Feasible(Compile(book, order, w, capacity), ShiftAll(a, -w.low))
    ensures a.Keys == book.Keys
    ensures forall u :: u in book ==>
              && (Waits(book[u]) ==> a[u].eta <= a[u].start)
              && a[u].start <= a[u].finish <= a[u].etd
    ensures forall u, v :: u in book && v in book && u != v &&
                           a[u].start < a[u].finish && a[v].start < a[v].finish ==>
              a[u].finish <= a[v].start || a[v].finish <= a[u].start
    ensures forall t :: |WaitingAt(book, a, t)| <= capacity
    ensures forall t :: |StoredAt(a, t)| <= capacity
  {
    hide Compile, Feasible, SortedOrder, Waits, Plan;
    FeasibleIsPlan(book, order, w, capacity, a);
    PlanKeys(book, w, capacity, a);
    PlanTimes(book, w, capacity, a);
    PlanResources(book, w, capacity, a);
  }

  lemma PlanTimes(book: Book, w: Window, capacity: int, a: Assignment)
    requires Plan(book, w, capacity, a)
    ensures forall u :: u in book ==>
              && u in a && (Waits(book[u]) ==> a[u].eta <= a[u].start)
              && a[u].start <= a[u].finish <= a[u].etd
  {
    hide GetVariables, Waits, Admits, Before, Ordered, Comparable, Within;
    forall u | u in book
      ensures Waits(book[u]) ==> a[u].eta <= a[u].start
      ensures a[u].start <= a[u].finish <= a[u].etd
    {
      AdmittedTimes(book[u], a[u], w);
    }
  }

  lemma PlanResources(book: Book, w: Window, capacity: int, a: Assignment)
    requires Plan(book, w, capacity, a)
    ensures forall u, v :: u in a && v in a && u != v && a[u].start < a[u].finish && a[v].start < a[v].finish ==>
              a[u].finish <= a[v].start || a[v].finish <= a[u].start
    ensures forall t :: |WaitingAt(book, a, t)| <= capacity && |StoredAt(a, t)| <= capacity
  {
    hide GetVariables, Waits, Admits, Before, Ordered, Comparable;
    UnitCapacityIffDisjoint(ProcessSpans(a));
    forall u, v | u in a && v in a && u != v && a[u].start < a[u].finish && a[v].start < a[v].finish
      ensures a[u].finish <= a[v].start || a[v].finish <= a[u].start
    {
      assert Disjoint(ProcessSpans(a)[u], ProcessSpans(a)[v]);
    }
    forall t
      ensures |WaitingAt(book, a, t)| <= capacity && |StoredAt(a, t)| <= capacity
    {
      assert WaitingAt(book, a, t) == At(WaitSpans(book, a), t);
      assert StoredAt(a, t) == At(OutputSpans(a), t);
    }
  }

  /** Only the presence of an upper bound matters, on arrival and on departure: its value never reaches the model. */
  lemma UpperBoundValueIgnored(e: Record, v: Values, w: Window, high: int)
    ensures e.eta.high.Some? ==> (Admits(e, v, w) <==> Admits(e.(eta := e.eta.(high := Some(high))), v, w))
    ensures e.etd.high.Some? ==> (Admits(e, v, w) <==> Admits(e.(etd := e.etd.(high := Some(high))), v, w))
  {
    if e.eta.high.Some? {
      assert GetVariables(e) == GetVariables(e.(eta := e.eta.(high := Some(high))));
    }
    if e.etd.high.Some? {
      assert GetVariables(e) == GetVariables(e.(etd := e.etd.(high := Some(high))));
    }
  }

  /******* Changes that keep a plan *******/

  predicate Contains(outer: Window, inner: Window) {
    outer.low <= inner.low && inner.high <= outer.high
  }

  lemma WiderDomain(r: Range, v: int, w: Window, wider: Window)
    requires In(v - w.low, DomainOf(r, w)) && Contains(wider, w)
    ensures In(v - wider.low, DomainOf(r, wider))
  {
  }

  lemma WiderSize(i: Interval, v: int, w: Window, wider: Window)
    requires i.duration.None? ==> i.optional
    requires SizeIn(v, SizeDomain(i, w)) && Contains(wider, w)
    ensures SizeIn(v, SizeDomain(i, wider))
  {
  }

  lemma OpenSizesAreOptional(e: Record)
    requires GetVariables(e).Ok?
    ensures var vars := GetVariables(e).value;
            && (vars.input.Some? && vars.input.value.duration.None? ==> vars.input.value.optional)
            && (vars.process.duration.None? ==> vars.process.optional)
            && (vars.output.duration.None? ==> vars.output.optional)
  {
  }

  lemma WiderWindowAdmits(e: Record, v: Values, w: Window, wider: Window)
    requires Admits(e, v, w) && Contains(wider, w)
    ensures Admits(e, v, wider)
  {
    hide GetVariables, DomainOf, SizeDomain, In, SizeIn, Contains;
    OpenSizesAreOptional(e);
    var vars := GetVariables(e).value;
    if vars.eta.Some? {
      WiderDomain(vars.eta.value, v.eta, w, wider);
    }
    WiderDomain(vars.start, v.start, w, wider);
    WiderDomain(vars.finish, v.finish, w, wider);
    WiderDomain(vars.etd, v.etd, w, wider);
    if vars.input.Some? {
      WiderSize(vars.input.value, v.start - v.eta, w, wider);
    }
    WiderSize(vars.process, v.finish - v.start, w, wider);
    WiderSize(vars.output, v.etd - v.finish, w, wider);
  }

  function Restrict(a: Assignment, keys: set<nat>): Assignment {
    map u | u in a && u in keys :: a[u]
  }

  /** A plan stays one when events are dropped and the window grows on either side. */
  lemma SmallerProblemKeepsPlan(book: Book, w: Window, capacity: int, a: Assignment, rest: Book, wider: Window)
    requires Plan(book, w, capacity, a)
    requires rest.Keys <= book.Keys && forall u :: u in rest ==> rest[u] == book[u]
    requires Contains(wider, w)
    ensures Plan(rest, wider, capacity, Restrict(a, rest.Keys))
  {
    hide GetVariables, Admits, Before, Ordered, Comparable, Waits, Within, Contains;
    var b := Restrict(a, rest.Keys);
    forall u | u in rest
      ensures Admits(rest[u], b[u], wider)
    {
      WiderWindowAdmits(book[u], a[u], w, wider);
    }
    forall u, v | BothQueued(rest, u, v) && Before(rest[u], rest[v])
      ensures Ordered(b, u, v)
    {
      assert Ordered(a, u, v);
      RestrictKeepsOrder(a, rest.Keys, u, v);
    }
    RestrictNarrows(book, a, rest);
    NarrowingKeepsWithin(WaitSpans(book, a), WaitSpans(rest, b), capacity);
    NarrowingKeepsWithin(ProcessSpans(a), ProcessSpans(b), 1);
    NarrowingKeepsWithin(OutputSpans(a), OutputSpans(b), capacity);
  }

  lemma RestrictKeepsOrder(a: Assignment, keys: set<nat>, u: nat, v: nat)
    requires Ordered(a, u, v) && u in keys && v in keys
    ensures Ordered(Restrict(a, keys), u, v)
  {
  }

  ghost predicate NarrowerAll(narrow: map<nat, Span>, spans: map<nat, Span>) {
    narrow.Keys <= spans.Keys && forall u :: u in narrow ==> Narrower(narrow[u], spans[u])
  }

  lemma RestrictNarrows(book: Book, a: Assignment, rest: Book)
    requires a.Keys == book.Keys
    requires rest.Keys <= book.Keys && forall u :: u in rest ==> rest[u] == book[u]
    ensures NarrowerAll(WaitSpans(rest, Restrict(a, rest.Keys)), WaitSpans(book, a))
    ensures NarrowerAll(ProcessSpans(Restrict(a, rest.Keys)), ProcessSpans(a))
    ensures NarrowerAll(OutputSpans(Restrict(a, rest.Keys)), OutputSpans(a))
  {
    hide Waits;
  }

  predicate Precedes(order: seq<nat>, u: nat, v: nat) {
    exists i, j :: 0 <= i < j < |order| && order[i] == u && order[j] == v
  }

  /** Neighbours in the new queue that compare in neither direction keep the order they had. */
  ghost predicate Follows(newOrder: seq<nat>, rest: Book, order: seq<nat>) {
    forall k :: Linked(newOrder, rest, k) ==>
      Ahead(rest[newOrder[k]], rest[newOrder[k+1]]) || Precedes(order, newOrder[k], newOrder[k+1])
  }

  /** So it is when all queued arrivals are set, since then any two queued events compare. */
  lemma SetTimesFollow(newOrder: seq<nat>, rest: Book, order: seq<nat>)
    requires BookValid(rest) && SortedOrder(newOrder, rest) && QueueTimesSet(rest)
    ensures Follows(newOrder, rest, order)
  {
    hide GetVariables;
    forall k | Linked(newOrder, rest, k)
      ensures Ahead(rest[newOrder[k]], rest[newOrder[k+1]])
    {
      assert newOrder[k] != newOrder[k+1];
      assert !Before(rest[newOrder[k+1]], rest[newOrder[k]]);
    }
  }

  /** And so it is, whatever the times, when sorting left the events in the order they had. */
  lemma SameOrderFollows(newOrder: seq<nat>, rest: Book, order: seq<nat>)
    requires forall i, j :: 0 <= i < j < |newOrder| ==> Precedes(order, newOrder[i], newOrder[j])
    ensures Follows(newOrder, rest, order)
  {
    hide Ahead, Precedes;
  }

  lemma FollowingChain(book: Book, order: seq<nat>, a: Assignment, rest: Book, newOrder: seq<nat>)
    requires BookValid(book) && SortedOrder(order, book) && ChainHolds(order, book, a)
    requires rest.Keys <= book.Keys && forall u :: u in rest ==> rest[u] == book[u]
    requires Follows(newOrder, rest, order)
    ensures ChainHolds(newOrder, rest, Restrict(a, rest.Keys))
  {
    hide GetVariables, Before, SortedOrder, Ordered;
    forall p | p in Chain(newOrder, rest)
      ensures Ordered(Restrict(a, rest.Keys), p.0, p.1)
    {
      var k :| 0 <= k < |newOrder| - 1 && Linked(newOrder, rest, k) && p == (newOrder[k], newOrder[k+1]);
      if Ahead(rest[p.0], rest[p.1]) {
        ChainForcesAllPairs(order, book, a);
      } else {
        var i, j :| 0 <= i < j < |order| && order[i] == p.0 && order[j] == p.1;
        ChainReaches(order, book, a, i, j);
      }
      RestrictKeepsOrder(a, rest.Keys, p.0, p.1);
    }
  }

  /**
   * Monotonicity of the compiled model: after dropping events, re-forming the chain and enlarging the
   * makespan, the remaining part of any solution still solves the model, at the same absolute times.
   */
  lemma CompiledModelMonotone(book: Book, order: seq<nat>, w: Window, capacity: int, a: Assignment,
                              rest: Book, newOrder: seq<nat>, wider: Window)
    requires BookValid(book) && SortedOrder(order, book)
    requires Feasible(Compile(book, order, w, capacity), ShiftAll(a, -w.low))
    requires rest.Keys <= book.Keys && forall u :: u in rest ==> rest[u] == book[u]
    requires Follows(newOrder, rest, order)
    requires Contains(wider, w)
    ensures BookValid(rest)
    ensures Feasible(Compile(rest, newOrder, wider, capacity), ShiftAll(Restrict(a, rest.Keys), -wider.low))
  {
    hide Compile, Feasible, SortedOrder, Plan, Contains, Follows, ChainHolds;
    assert BookValid(rest) by { hide GetVariables, Comparable; }
    FeasibleIsPlan(book, order, w, capacity, a);
    FeasibleChain(book, order, w, capacity, a);
    FollowingChain(book, order, a, rest, newOrder);
    SmallerProblemKeepsPlan(book, w, capacity, a, rest, wider);
    ChainedPlanIsFeasible(rest, newOrder, wider, capacity, Restrict(a, rest.Keys));
  }

  /******* Departure times of the optimum *******/

  function Max(a: int, b: int): int {
    if a < b then b else a
  }

  /** The earliest departure the bounds of an event allow. */
  function EtdFloor(e: Record, w: Window): int
    requires GetVariables(e).Ok?
  {
    var low := GetVariables(e).value.etd.low;
    if low.Some? then low.value else w.low
  }

  /** Every event leaves as soon as it is finished and allowed to. */
  ghost function Trim(book: Book, w: Window, a: Assignment): (r: Assignment)
    requires BookValid(book) && a.Keys == book.Keys
    ensures r.Keys == a.Keys
  {
    map u | u in a :: a[u].(etd := Max(a[u].finish, EtdFloor(book[u], w)))
  }

  lemma TrimAdmits(e: Record, v: Values, w: Window)
    requires Admits(e, v, w)
    ensures Max(v.finish, EtdFloor(e, w)) <= v.etd
    ensures Admits(e, v.(etd := Max(v.finish, EtdFloor(e, w))), w)
  {
  }

  lemma TrimKeepsFit(book: Book, w: Window, capacity: int, a: Assignment)
    requires Fits(book, w, capacity, a)
    ensures Fits(book, w, capacity, Trim(book, w, a))
    ensures forall u :: u in a ==> Trim(book, w, a)[u].etd <= a[u].etd
  {
    hide GetVariables, Admits, Comparable, Waits, Within, EtdFloor, Max;
    var b := Trim(book, w, a);
    forall u | u in book
      ensures Admits(book[u], b[u], w) && b[u].etd <= a[u].etd
    {
      TrimAdmits(book[u], a[u], w);
    }
    assert WaitSpans(book, b) == WaitSpans(book, a);
    assert ProcessSpans(b) == ProcessSpans(a);
    NarrowingKeepsWithin(OutputSpans(a), OutputSpans(b), capacity);
  }

  lemma TrimKeepsPlan(book: Book, w: Window, capacity: int, a: Assignment)
    requires Plan(book, w, capacity, a)
    ensures Plan(book, w, capacity, Trim(book, w, a))
    ensures forall u :: u in a ==> Trim(book, w, a)[u].etd <= a[u].etd
  {
    hide GetVariables, Admits, Before, Comparable, Waits, Within, EtdFloor, Max, Fits, Plan;
    PlanIff(book, w, capacity, a);
    PlanKeys(book, w, capacity, a);
    PlanBookValid(book, w, capacity, a);
    TrimKeepsFit(book, w, capacity, a);
    PlanIff(book, w, capacity, Trim(book, w, a));
  }

  lemma {:induction false} CostMonotone(keys: set<nat>, a: Assignment, b: Assignment)
    requires keys <= a.Keys && keys <= b.Keys
    requires forall u :: u in keys ==> b[u].etd <= a[u].etd
    ensures Cost(keys, b) <= Cost(keys, a)
    ensures (exists u :: u in keys && b[u].etd < a[u].etd) ==> Cost(keys, b) < Cost(keys, a)
  {
    if keys == {} {
    } else {
      var u :| u in keys && ((exists v :: v in keys && b[v].etd < a[v].etd) ==> b[u].etd < a[u].etd);
      CostSplits(keys, a, u);
      CostSplits(keys, b, u);
      CostMonotone(keys - {u}, a, b);
    }
  }

  /** In every cheapest plan each event departs at the later of its finish and its lower departure bound. */
  lemma OptimalDeparture(book: Book, w: Window, capacity: int, a: Assignment, u: nat)
    requires OptimalPlan(book, w, capacity, a) && u in book
    ensures a[u].etd == Max(a[u].finish, EtdFloor(book[u], w))
  {
    hide GetVariables, Admits, Before, Comparable, Waits, Within, EtdFloor, Max, Ordered, Cost;
    var b := Trim(book, w, a);
    TrimKeepsPlan(book, w, capacity, a);
    CostMonotone(a.Keys, a, b);
  }

  lemma TrimKeepsChain(book: Book, order: seq<nat>, w: Window, a: Assignment)
    requires BookValid(book) && a.Keys == book.Keys && ChainHolds(order, book, a)
    ensures ChainHolds(order, book, Trim(book, w, a))
  {
    hide GetVariables, Chain, Max, EtdFloor, BookValid;
    assert forall u, v :: Ordered(a, u, v) ==> Ordered(Trim(book, w, a), u, v);
  }

  lemma ChainedDeparture(book: Book, order: seq<nat>, w: Window, capacity: int, a: Assignment, u: nat)
    requires CheapestChained(book, order, w, capacity, a) && u in book
    ensures BookValid(book) && u in a && a[u].etd == Max(a[u].finish, EtdFloor(book[u], w))
  {
    hide Fits, Max, EtdFloor, GetVariables, ChainHolds, Cost, BookValid;
    FitsKeys(book, order, w, capacity, a);
    var b := Trim(book, w, a);
    TrimKeepsFit(book, w, capacity, a);
    TrimKeepsChain(book, order, w, a);
    CostMonotone(a.Keys, a, b);
  }

  lemma PlanBookValid(book: Book, w: Window, capacity: int, a: Assignment)
    requires Plan(book, w, capacity, a)
    ensures BookValid(book)
  {
  }

  /**
   * The same for what the solver returns, whatever the states and whatever order the model was built for:
   * in any optimum of the compiled model every event departs at the later of its finish and that bound.
   */
  lemma SolverDeparture(book: Book, order: seq<nat>, w: Window, capacity: int, r: Assignment, u: nat)
    requires BookValid(book)
    requires Optimal(Compile(book, order, w, capacity), r)
    requires u in book
    ensures u in r && r[u].etd + w.low == Max(r[u].finish + w.low, EtdFloor(book[u], w))
  {
    hide Compile, Optimal, CheapestChained, Max, EtdFloor, GetVariables, BookValid;
    ShiftInverse(r, w.low);
    OptimalIff(book, order, w, capacity, ShiftAll(r, w.low));
    ChainedDeparture(book, order, w, capacity, ShiftAll(r, w.low), u);
  }
}
