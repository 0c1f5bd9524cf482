/** The compiled model says exactly what `Plan` says: shifted bounds, and adjacent pairs for all pairs. */
module Meaning {
  import opened Arithmetic
  import opened Wrappers
  import opened Cumulative
  import opened Records
  import opened CpModel

  /******* Shifting the window *******/

  function ShiftSpans(spans: map<nat, Span>, d: int): map<nat, Span> {
    map u | u in spans :: Span(spans[u].start + d, spans[u].end + d)
  }

  lemma ShiftKeepsWithin(spans: map<nat, Span>, d: int, capacity: int)
    ensures Within(ShiftSpans(spans, d), capacity) <==> Within(spans, capacity)
  {
    var shifted := ShiftSpans(spans, d);
    if Within(spans, capacity) {
      forall t
        ensures |At(shifted, t)| <= capacity
      {
        assert At(shifted, t) == At(spans, t - d);
      }
    }
    if Within(shifted, capacity) {
      forall t
        ensures |At(spans, t)| <= capacity
      {
        assert At(spans, t) == At(shifted, t + d);
      }
    }
  }

  lemma ShiftInverse(a: Assignment, d: int)
    ensures ShiftAll(ShiftAll(a, d), -d) == a
  {
  }

  /******* Order constraints *******/

  /** Whatever follows a queued event in the order is queued too. */
  lemma QueueIsSuffix(order: seq<nat>, book: Book, i: nat, j: nat)
    requires BookValid(book) && SortedOrder(order, book)
    requires i <= j < |order|
    requires order[i] in book && Queued(book[order[i]].state)
    ensures order[j] in book && Queued(book[order[j]].state)
  {
    assert order[j] in (set u | u in order);
  }

  ghost predicate ChainHolds(order: seq<nat>, book: Book, a: Assignment) {
    forall p :: p in Chain(order, book) ==> Ordered(a, p.0, p.1)
  }

  lemma {:induction false} ChainReaches(order: seq<nat>, book: Book, a: Assignment, i: nat, j: nat)
    requires BookValid(book) && SortedOrder(order, book)
    requires i < j < |order|
    requires BothQueued(book, order[i], order[j])
    requires ChainHolds(order, book, a)
    ensures Ordered(a, order[i], order[j])
  {
    QueueIsSuffix(order, book, i, j - 1);
    assert Linked(order, book, j - 1);
    assert (order[j-1], order[j-1+1]) in Chain(order, book);
    if i == j - 1 {
    } else {
      ChainReaches(order, book, a, i, j - 1);
    }
  }

  /** The adjacent constraints force the order of arrivals and starts on every pair of queued events. */
  lemma ChainForcesAllPairs(order: seq<nat>, book: Book, a: Assignment)
    requires BookValid(book) && SortedOrder(order, book)
    requires ChainHolds(order, book, a)
    ensures forall u, v :: BothQueued(book, u, v) && Before(book[u], book[v]) ==> Ordered(a, u, v)
  {
    forall u, v | BothQueued(book, u, v) && Before(book[u], book[v])
      ensures Ordered(a, u, v)
    {
      assert u in (set x | x in order) && v in (set x | x in order);
      var i, j :| 0 <= i < |order| && 0 <= j < |order| && order[i] == u && order[j] == v;
      assert i < j;
      ChainReaches(order, book, a, i, j);
    }
  }

  /** With arrival times set, two different queued events are always comparable. */
  ghost predicate QueueTimesSet(book: Book) {
    forall u :: u in book && Queued(book[u].state) ==> book[u].eta.time.Some?
  }

  /** Then events can be sorted, whatever their states. */
  lemma SetTimesAreSortable(book: Book)
    requires BookValid(book) && QueueTimesSet(book)
    ensures Sortable(book)
  {
    hide GetVariables, Before, Ahead;
    forall u, v, x | u in book && v in book && x in book && !Ahead(book[v], book[u]) && !Ahead(book[x], book[v])
      ensures !Ahead(book[x], book[u])
    {
      NotAheadTransitive(book[u], book[v], book[x]);
    }
  }

  lemma NotAheadTransitive(a: Record, b: Record, c: Record)
    requires Comparable(a) && Comparable(b) && Comparable(c)
    requires forall e :: e in [a, b, c] && Queued(e.state) ==> e.eta.time.Some?
    requires !Ahead(b, a) && !Ahead(c, b)
    ensures !Ahead(c, a)
  {
    assert a in [a, b, c] && b in [a, b, c] && c in [a, b, c];
  }

  lemma ArrangedIsSorted(order: seq<nat>, book: Book)
    requires BookValid(book) && Arranged(order, book) && QueueTimesSet(book)
    ensures SortedOrder(order, book)
  {
    hide GetVariables, Before, Sortable, QueueTimesSet;
    SetTimesAreSortable(book);
  }

  lemma AllPairsGiveChain(order: seq<nat>, book: Book, a: Assignment)
    requires BookValid(book) && SortedOrder(order, book) && QueueTimesSet(book)
    requires forall u, v :: BothQueued(book, u, v) && Before(book[u], book[v]) ==> Ordered(a, u, v)
    ensures ChainHolds(order, book, a)
  {
    forall p | p in Chain(order, book)
      ensures Ordered(a, p.0, p.1)
    {
      var i :| 0 <= i < |order| - 1 && Linked(order, book, i) && p == (order[i], order[i+1]);
      assert Before(book[p.0], book[p.1]);
    }
  }

  /******* The refinement *******/

  lemma InputModelled(e: Record, w: Window)
    requires GetVariables(e).Ok?
    ensures CompileEvent(GetVariables(e).value, w).iqt.Some? <==> Waits(e)
  {
  }

  lemma SpansCorrespond(book: Book, order: seq<nat>, w: Window, capacity: int, a: Assignment)
    requires BookValid(book) && a.Keys == book.Keys
    ensures InputSpans(Compile(book, order, w, capacity), ShiftAll(a, -w.low)) == ShiftSpans(WaitSpans(book, a), -w.low)
    ensures ProcessSpans(ShiftAll(a, -w.low)) == ShiftSpans(ProcessSpans(a), -w.low)
    ensures OutputSpans(ShiftAll(a, -w.low)) == ShiftSpans(OutputSpans(a), -w.low)
  {
    hide GetVariables, CompileEvent, Waits, Chain, Comparable;
    forall u | u in book
      ensures CompileEvent(GetVariables(book[u]).value, w).iqt.Some? <==> Waits(book[u])
    {
      InputModelled(book[u], w);
    }
  }

  ghost predicate Resources(inputs: map<nat, Span>, a: Assignment, capacity: int) {
    Within(inputs, capacity) && Within(ProcessSpans(a), 1) && Within(OutputSpans(a), capacity)
  }

  lemma ResourcesShift(book: Book, order: seq<nat>, w: Window, capacity: int, a: Assignment)
    requires BookValid(book) && a.Keys == book.Keys
    ensures Resources(InputSpans(Compile(book, order, w, capacity), ShiftAll(a, -w.low)),
                      ShiftAll(a, -w.low), capacity) <==>
            Resources(WaitSpans(book, a), a, capacity)
  {
    hide GetVariables, CompileEvent, Waits, Chain, Comparable, InputSpans, WaitSpans, ProcessSpans, OutputSpans,
         Within, Compile, ShiftAll, ShiftSpans;
    SpansCorrespond(book, order, w, capacity, a);
    ShiftKeepsWithin(WaitSpans(book, a), -w.low, capacity);
    ShiftKeepsWithin(ProcessSpans(a), -w.low, 1);
    ShiftKeepsWithin(OutputSpans(a), -w.low, capacity);
  }

  /** A plan but for the order of the queue. */
  ghost predicate Fits(book: Book, w: Window, capacity: int, a: Assignment) {
    && BookValid(book)
    && a.Keys == book.Keys
    && (forall u :: u in book ==> Admits(book[u], a[u], w))
    && Within(WaitSpans(book, a), capacity)
    && Within(ProcessSpans(a), 1)
    && Within(OutputSpans(a), capacity)
  }

  /**
   * What the compiled model says, whatever order it was built for: each event within its own bounds, the
   * three resources, and the chain.
   */
  lemma FeasibleIff(book: Book, order: seq<nat>, w: Window, capacity: int, a: Assignment)
    requires BookValid(book)
    ensures Feasible(Compile(book, order, w, capacity), ShiftAll(a, -w.low)) <==>
            Fits(book, w, capacity, a) && ChainHolds(order, book, a)
  {
    hide GetVariables, CompileEvent, EventFeasible, Waits, Chain, Comparable, InputSpans, WaitSpans, ProcessSpans,
         OutputSpans, Within, Shift, Ordered, Before;
    if a.Keys == book.Keys {
      var m, r := Compile(book, order, w, capacity), ShiftAll(a, -w.low);
      ResourcesShift(book, order, w, capacity, a);
      ChainShifts(order, book, a, -w.low);
      assert forall u :: u in book ==> (EventFeasible(m.events[u], r[u]) <==> Admits(book[u], a[u], w));
    }
  }

  lemma PlanIff(book: Book, w: Window, capacity: int, a: Assignment)
    ensures Plan(book, w, capacity, a) <==>
            Fits(book, w, capacity, a) &&
            forall u, v :: BothQueued(book, u, v) && Before(book[u], book[v]) ==> Ordered(a, u, v)
  {
    hide GetVariables, Admits, Before, Ordered, Within, Comparable;
  }

  /** Every solution of the compiled model is a plan. */
  lemma FeasibleIsPlan(book: Book, order: seq<nat>, w: Window, capacity: int, a: Assignment)
    requires BookValid(book) && SortedOrder(order, book)
    requires Feasible(Compile(book, order, w, capacity), ShiftAll(a, -w.low))
    ensures Plan(book, w, capacity, a)
  {
    hide Compile, Feasible, Plan, Fits, SortedOrder, ChainHolds, Before, GetVariables, Ordered, Comparable;
    FeasibleIff(book, order, w, capacity, a);
    ChainForcesAllPairs(order, book, a);
    PlanIff(book, w, capacity, a);
  }

  lemma ChainedPlanIsFeasible(book: Book, order: seq<nat>, w: Window, capacity: int, a: Assignment)
    requires BookValid(book) && Plan(book, w, capacity, a) && ChainHolds(order, book, a)
    ensures Feasible(Compile(book, order, w, capacity), ShiftAll(a, -w.low))
  {
    hide Compile, Feasible, Plan, Fits, ChainHolds, Before, GetVariables, Ordered, Comparable;
    PlanIff(book, w, capacity, a);
    FeasibleIff(book, order, w, capacity, a);
  }

  lemma FeasibleChain(book: Book, order: seq<nat>, w: Window, capacity: int, a: Assignment)
    requires BookValid(book) && Feasible(Compile(book, order, w, capacity), ShiftAll(a, -w.low))
    ensures ChainHolds(order, book, a)
  {
    hide Compile, Feasible, Fits, ChainHolds, GetVariables, Comparable;
    FeasibleIff(book, order, w, capacity, a);
  }

  /** Every plan solves the compiled model, provided the order is total on the queued events. */
  lemma PlanIsFeasible(book: Book, order: seq<nat>, w: Window, capacity: int, a: Assignment)
    requires BookValid(book) && SortedOrder(order, book) && QueueTimesSet(book)
    requires Plan(book, w, capacity, a)
    ensures Feasible(Compile(book, order, w, capacity), ShiftAll(a, -w.low))
  {
    hide GetVariables, Admits, Chain, Comparable, Before, Ordered, Within, SortedOrder, QueueTimesSet, Compile, Feasible;
    AllPairsGiveChain(order, book, a);
    ChainedPlanIsFeasible(book, order, w, capacity, a);
  }

  lemma ChainShifts(order: seq<nat>, book: Book, a: Assignment, d: int)
    ensures ChainHolds(order, book, ShiftAll(a, d)) <==> ChainHolds(order, book, a)
  {
    assert forall u, v :: Ordered(ShiftAll(a, d), u, v) <==> Ordered(a, u, v);
  }

  /******* The objective *******/

  lemma {:induction false} CostSplits(keys: set<nat>, a: Assignment, u: nat)
    requires keys <= a.Keys && u in keys
    ensures Cost(keys, a) == a[u].etd + Cost(keys - {u}, a)
  {
    var v :| v in keys && Cost(keys, a) == a[v].etd + Cost(keys - {v}, a);
    if v != u {
      CostSplits(keys - {v}, a, u);
      CostSplits(keys - {u}, a, v);
      assert keys - {v} - {u} == keys - {u} - {v};
    }
  }

  lemma {:induction false} CostShifts(keys: set<nat>, a: Assignment, d: int)
    requires keys <= a.Keys
    ensures Cost(keys, ShiftAll(a, d)) == Cost(keys, a) + |keys| * d
  {
    if keys == {} {
    } else {
      var u :| u in keys;
      CostSplits(keys, a, u);
      CostSplits(keys, ShiftAll(a, d), u);
      CostShifts(keys - {u}, a, d);
      Distribute(|keys - {u}|, d);
    }
  }

  lemma PlanKeys(book: Book, w: Window, capacity: int, a: Assignment)
    requires Plan(book, w, capacity, a)
    ensures a.Keys == book.Keys
  {
  }

  lemma ShiftKeepsComparison(a: Assignment, b: Assignment, d: int)
    requires a.Keys == b.Keys
    ensures Cost(ShiftAll(a, d).Keys, ShiftAll(a, d)) <= Cost(ShiftAll(b, d).Keys, ShiftAll(b, d)) <==>
            Cost(a.Keys, a) <= Cost(b.Keys, b)
  {
    hide Cost, ShiftAll;
    CostShifts(a.Keys, a, d);
    CostShifts(b.Keys, b, d);
  }

  ghost predicate FitsChained(book: Book, order: seq<nat>, w: Window, capacity: int, a: Assignment) {
    Fits(book, w, capacity, a) && ChainHolds(order, book, a)
  }

  lemma FitsKeys(book: Book, order: seq<nat>, w: Window, capacity: int, a: Assignment)
    requires FitsChained(book, order, w, capacity, a)
    ensures a.Keys == book.Keys && BookValid(book)
  {
  }

  /** Nothing that fits and keeps to the same chain is cheaper. */
  ghost predicate CheapestChained(book: Book, order: seq<nat>, w: Window, capacity: int, a: Assignment) {
    && FitsChained(book, order, w, capacity, a)
    && forall b :: FitsChained(book, order, w, capacity, b) ==> Cost(a.Keys, a) <= Cost(b.Keys, b)
  }

  /** Whatever order the model was built for, its optima are the cheapest of what fits and keeps its chain. */
  lemma OptimalIff(book: Book, order: seq<nat>, w: Window, capacity: int, a: Assignment)
    requires BookValid(book)
    ensures Optimal(Compile(book, order, w, capacity), ShiftAll(a, -w.low)) <==>
            CheapestChained(book, order, w, capacity, a)
  {
    hide Compile, Feasible, FitsChained, Cost, ShiftAll, GetVariables, Comparable;
    var m, r := Compile(book, order, w, capacity), ShiftAll(a, -w.low);
    ChainedIff(book, order, w, capacity, a);
    if Optimal(m, r) {
      forall b | FitsChained(book, order, w, capacity, b)
        ensures Cost(a.Keys, a) <= Cost(b.Keys, b)
      {
        ChainedIff(book, order, w, capacity, b);
        SameKeys(book, order, w, capacity, a, b);
        ShiftKeepsComparison(a, b, -w.low);
      }
    }
    if CheapestChained(book, order, w, capacity, a) {
      forall s | Feasible(m, s)
        ensures Cost(r.Keys, r) <= Cost(s.Keys, s)
      {
        var b := ShiftAll(s, w.low);
        ShiftInverse(s, w.low);
        ChainedIff(book, order, w, capacity, b);
        SameKeys(book, order, w, capacity, a, b);
        ShiftKeepsComparison(a, b, -w.low);
      }
    }
  }

  lemma ChainedIff(book: Book, order: seq<nat>, w: Window, capacity: int, a: Assignment)
    requires BookValid(book)
    ensures Feasible(Compile(book, order, w, capacity), ShiftAll(a, -w.low)) <==> FitsChained(book, order, w, capacity, a)
  {
    hide Compile, Feasible, Fits, ChainHolds, GetVariables, Comparable, ShiftAll;
    FeasibleIff(book, order, w, capacity, a);
  }

  lemma SameKeys(book: Book, order: seq<nat>, w: Window, capacity: int, a: Assignment, b: Assignment)
    requires FitsChained(book, order, w, capacity, a) && FitsChained(book, order, w, capacity, b)
    ensures a.Keys == b.Keys
  {
  }

  /** With arrival times set every plan has the chain, so the optima are simply the cheapest plans. */
  lemma OptimalIsOptimalPlan(book: Book, order: seq<nat>, w: Window, capacity: int, a: Assignment)
    requires BookValid(book) && SortedOrder(order, book) && QueueTimesSet(book)
    ensures Optimal(Compile(book, order, w, capacity), ShiftAll(a, -w.low)) <==> OptimalPlan(book, w, capacity, a)
  {
    hide Compile, Feasible, Optimal, Plan, Cost, SortedOrder, QueueTimesSet, ShiftAll, FitsChained, GetVariables, Comparable;
    OptimalIff(book, order, w, capacity, a);
    forall b
      ensures FitsChained(book, order, w, capacity, b) <==> Plan(book, w, capacity, b)
    {
      ChainedIsPlan(book, order, w, capacity, b);
    }
  }

  lemma ChainedIsPlan(book: Book, order: seq<nat>, w: Window, capacity: int, a: Assignment)
    requires BookValid(book) && SortedOrder(order, book) && QueueTimesSet(book)
    ensures FitsChained(book, order, w, capacity, a) <==> Plan(book, w, capacity, a)
  {
    hide Plan, Fits, SortedOrder, QueueTimesSet, ChainHolds, Before, GetVariables, Ordered, Comparable;
    PlanIff(book, w, capacity, a);
    if ChainHolds(order, book, a) {
      ChainForcesAllPairs(order, book, a);
    }
    if Plan(book, w, capacity, a) {
      AllPairsGiveChain(order, book, a);
    }
  }
}
