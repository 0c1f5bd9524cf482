/** What planning reads off an event, field by field: when it can be read, which times it may take, and its makespan. */
module Reading {
  import opened Wrappers
  import opened Cumulative
  import opened Records
  import opened CpModel
  import opened Meaning
  import opened Optimum
  import opened Makespan
  import opened Planning
  import opened Horizon

  /******* When an event can be read *******/

  /** An upper bound needs a lower one beside it. */
  predicate Bounded(x: Etx) {
    x.high.Some? ==> x.low.Some?
  }

  predicate CanBeRead(e: Record) {
    match e.state
    case New => Bounded(e.eta) && Bounded(e.etd)
    case Scheduled => Bounded(e.eta) && Bounded(e.etd)
    case Arrived => e.eta.time.Some? && Bounded(e.etd)
    case Started => e.eta.time.Some? && e.start.Some? && Bounded(e.etd)
    case Finished => e.start.Some? && e.finish.Some? && Bounded(e.etd)
    case Departed => e.start.Some? && e.finish.Some? && e.etd.time.Some?
    case Canceled => false
  }

  /** Reading fails for want of a time, or because the event is cancelled for good. */
  lemma ReadableIff(e: Record)
    ensures GetVariables(e).Ok? <==> CanBeRead(e)
    ensures GetVariables(e) == Err(NotImplemented) <==> e.state == Canceled
  {
  }

  /** So a cancelled event that history still holds makes every planning call raise. */
  lemma CanceledRaises(world: World, candidates: seq<Record>, e: Record)
    requires e in Considered(world, candidates) && e.state == Canceled
    ensures !Readable(Considered(world, candidates))
  {
    hide GetVariables, Considered;
    ReadableIff(e);
  }

  /******* Which times it may take *******/

  /** The upper bound that takes effect: the lower one, if there is an upper one at all. */
  function Ceiling(x: Etx): Option<int> {
    if x.high.Some? then x.low else None
  }

  /** Between two bounds, or the edges of the window where one is missing. */
  predicate Between(t: int, low: Option<int>, high: Option<int>, w: Window) {
    (if low.Some? then low.value else w.low) <= t <= (if high.Some? then high.value else w.high)
  }

  /** A wait that is not negative and no longer than the window. */
  predicate Waited(from: int, to: int, w: Window) {
    0 <= to - from <= w.high - w.low
  }

  /** Processing takes the duration; one that was cancelled may be cut short. */
  predicate Processed(e: Record, v: Values, canBeCut: bool) {
    if canBeCut then 0 <= v.finish - v.start <= e.duration
    else 0 <= v.finish - v.start == e.duration
  }

  /** The times an event may take in its state. */
  predicate MayTake(e: Record, v: Values, w: Window)
    requires CanBeRead(e)
  {
    match e.state
    case New => QueuedMayTake(e, v, w)
    case Scheduled => QueuedMayTake(e, v, w)
    case Arrived =>
      var arrival := e.eta.time;
      && Some(v.eta) == arrival
      && Between(v.start, arrival, Ceiling(e.etd), w) && Between(v.finish, arrival, Ceiling(e.etd), w)
      && Between(v.etd, if e.etd.low.Some? then e.etd.low else arrival, Ceiling(e.etd), w)
      && Waited(v.eta, v.start, w) && Processed(e, v, e.canceled) && v.etd == v.finish
    case Started =>
      && Some(v.eta) == e.eta.time && Some(v.start) == e.start && v.eta <= v.start
      && Processed(e, v, false)
      && Between(v.etd, if e.etd.low.Some? then e.etd.low else e.start, Ceiling(e.etd), w)
      && Waited(v.finish, v.etd, w)
    case Finished =>
      && Some(v.start) == e.start && Some(v.finish) == e.finish && v.start <= v.finish
      && Between(v.etd, if e.etd.low.Some? then e.etd.low else e.finish, Ceiling(e.etd), w)
      && Waited(v.finish, v.etd, w)
    case Departed =>
      Some(v.start) == e.start && Some(v.finish) == e.finish && Some(v.etd) == e.etd.time && v.start <= v.finish <= v.etd
  }

  predicate QueuedMayTake(e: Record, v: Values, w: Window) {
    && Between(v.eta, e.eta.low, Ceiling(e.eta), w)
    && Between(v.start, Ceiling(e.eta), e.etd.low, w) && Between(v.finish, Ceiling(e.eta), e.etd.low, w)
    && Between(v.etd, e.etd.low, Ceiling(e.etd), w)
    && Waited(v.eta, v.start, w) && Processed(e, v, false) && Waited(v.finish, v.etd, w)
  }

  lemma DomainIff(r: Range, t: int, w: Window)
    ensures In(t - w.low, DomainOf(r, w)) <==> Between(t, r.low, r.high, w)
  {
  }

  /** A compiled event, in absolute time. */
  predicate CompiledAllows(vars: Variables, v: Values, w: Window) {
    && (vars.eta.Some? ==> Between(v.eta, vars.eta.value.low, vars.eta.value.high, w))
    && Between(v.start, vars.start.low, vars.start.high, w)
    && Between(v.finish, vars.finish.low, vars.finish.high, w)
    && Between(v.etd, vars.etd.low, vars.etd.high, w)
    && (vars.input.Some? ==> SizeIn(v.start - v.eta, SizeDomain(vars.input.value, w)))
    && SizeIn(v.finish - v.start, SizeDomain(vars.process, w))
    && SizeIn(v.etd - v.finish, SizeDomain(vars.output, w))
  }

  lemma CompiledIff(e: Record, v: Values, w: Window)
    requires GetVariables(e).Ok?
    ensures Admits(e, v, w) <==> CompiledAllows(GetVariables(e).value, v, w)
  {
    hide GetVariables, In, DomainOf, SizeIn, SizeDomain, Between;
    var vars := GetVariables(e).value;
    if vars.eta.Some? {
      DomainIff(vars.eta.value, v.eta, w);
    }
    DomainIff(vars.start, v.start, w);
    DomainIff(vars.finish, v.finish, w);
    DomainIff(vars.etd, v.etd, w);
  }

  lemma SizesIff(vars: Variables, v: Values, w: Window)
    ensures vars.input.Some? ==>
              (SizeIn(v.start - v.eta, SizeDomain(vars.input.value, w)) <==> Sized(vars.input.value, v.start - v.eta, w))
    ensures SizeIn(v.finish - v.start, SizeDomain(vars.process, w)) <==> Sized(vars.process, v.finish - v.start, w)
    ensures SizeIn(v.etd - v.finish, SizeDomain(vars.output, w)) <==> Sized(vars.output, v.etd - v.finish, w)
  {
  }

  predicate Sized(i: Interval, size: int, w: Window) {
    var most := if i.duration.Some? then i.duration.value else w.high - w.low;
    0 <= size <= most && (size == most || i.optional)
  }

  /** In every state the compiled variables allow exactly these times. */
  lemma AdmitsIff(e: Record, v: Values, w: Window)
    requires CanBeRead(e)
    ensures Admits(e, v, w) <==> MayTake(e, v, w)
  {
    hide Admits, MayTake;
    if e.state == New || e.state == Scheduled {
      QueuedAdmitsIff(e, v, w);
    } else if e.state == Arrived || e.state == Started {
      PresentAdmitsIff(e, v, w);
    } else {
      ServedAdmitsIff(e, v, w);
    }
  }

  lemma QueuedAdmitsIff(e: Record, v: Values, w: Window)
    requires CanBeRead(e) && (e.state == New || e.state == Scheduled)
    ensures Admits(e, v, w) <==> MayTake(e, v, w)
  {
    hide Admits, Between, SizeIn, SizeDomain;
    ReadableIff(e);
    CompiledIff(e, v, w);
    SizesIff(GetVariables(e).value, v, w);
  }

  lemma PresentAdmitsIff(e: Record, v: Values, w: Window)
    requires CanBeRead(e) && (e.state == Arrived || e.state == Started)
    ensures Admits(e, v, w) <==> MayTake(e, v, w)
  {
    hide Admits, SizeIn, SizeDomain;
    ReadableIff(e);
    CompiledIff(e, v, w);
    SizesIff(GetVariables(e).value, v, w);
  }

  lemma ServedAdmitsIff(e: Record, v: Values, w: Window)
    requires CanBeRead(e) && (e.state == Finished || e.state == Departed)
    ensures Admits(e, v, w) <==> MayTake(e, v, w)
  {
    hide Admits, SizeIn, SizeDomain;
    ReadableIff(e);
    CompiledIff(e, v, w);
    SizesIff(GetVariables(e).value, v, w);
  }

  /** What an event says about the planning window. */
  lemma MakespanOf(e: Record)
    requires CanBeRead(e)
    ensures GetVariables(e).Ok?
    ensures var span := GetVariables(e).value.makespan;
            && span.low == (match e.state
                            case New => e.eta.low
                            case Scheduled => e.eta.low
                            case Arrived => e.eta.time
                            case Started => e.eta.time
                            case _ => e.start)
            && span.high == if e.state == Departed then e.etd.time else Ceiling(e.etd)
  {
  }

  /******* Events with an arrival and a departure window *******/

  predicate BothBounded(e: Record) {
    && (e.state == New || e.state == Scheduled)
    && e.eta.low.Some? && e.eta.high.Some? && e.etd.low.Some? && e.etd.high.Some?
  }

  /** Such an event arrives and leaves at its lower bounds and is served in between, up to the last moment. */
  lemma BothBoundedAdmits(e: Record, v: Values, w: Window)
    requires BothBounded(e)
    requires w.low <= e.eta.low.value && e.etd.low.value <= w.high && 0 <= e.duration
    ensures Admits(e, v, w) <==>
            v.eta == e.eta.low.value <= v.start && v.finish == v.start + e.duration <= e.etd.low.value == v.etd
  {
    hide Admits;
    QueuedAdmitsIff(e, v, w);
  }

  function Alone(e: Record): Book {
    map[e.uid := e]
  }

  /** Alone it can be planned exactly when the time between its bounds is enough. */
  lemma AlonePlanIff(e: Record, w: Window, capacity: int)
    requires BothBounded(e) && 0 < e.duration && 0 < capacity
    requires w.low <= e.eta.low.value && e.etd.low.value <= w.high
    ensures (exists a :: Fits(Alone(e), w, capacity, a)) <==> e.eta.low.value + e.duration <= e.etd.low.value
  {
    hide Admits, GetVariables, Within;
    var arrival, finish := e.eta.low.value, e.eta.low.value + e.duration;
    ReadableIff(e);
    if a :| Fits(Alone(e), w, capacity, a) {
      BothBoundedAdmits(e, a[e.uid], w);
    }
    if finish <= e.etd.low.value {
      var a: Assignment := map[e.uid := Values(arrival, arrival, finish, e.etd.low.value)];
      BothBoundedAdmits(e, a[e.uid], w);
      AloneWithin(WaitSpans(Alone(e), a), e.uid, capacity);
      AloneWithin(ProcessSpans(a), e.uid, 1);
      AloneWithin(OutputSpans(a), e.uid, capacity);
      assert Fits(Alone(e), w, capacity, a);
    }
  }

  lemma AloneWithin(spans: map<nat, Span>, u: nat, capacity: int)
    requires spans.Keys <= {u} && 1 <= capacity
    ensures Within(spans, capacity)
  {
    forall t
      ensures |Cumulative.At(spans, t)| <= capacity
    {
      SubsetSize(Cumulative.At(spans, t), {u});
    }
  }

  /** And so it is with the planning call of an empty scheduler, whatever its horizon. */
  lemma FirstCallIff(cfg: Config, maxHorizon: int, e: Record)
    requires BothBounded(e) && 0 < e.duration && 0 < cfg.capacity
    ensures Considered(World([], maxHorizon), [e]) == [e] && Readable([e])
    ensures BookOf([e]) == Alone(e) && BookValid(Alone(e))
    ensures (exists r :: Feasible(Compile(Alone(e), [e.uid], PlanningWindow(cfg, World([], maxHorizon), [e]), cfg.capacity), r)) <==>
            e.eta.low.value + e.duration <= e.etd.low.value
  {
    hide GetVariables, Feasible, Compile, Fits, Comparable, WindowOf, Ranges;
    OnlyOne(maxHorizon, e);
    ReadableIff(e);
    assert BookValid(Alone(e)) by { AloneValid(e); }
    var w := PlanningWindow(cfg, World([], maxHorizon), [e]);
    FirstWindow(cfg, maxHorizon, e);
    AlonePlanIff(e, w, cfg.capacity);
    forall a
      ensures ChainHolds([e.uid], Alone(e), a)
    {
    }
    if r :| Feasible(Compile(Alone(e), [e.uid], w, cfg.capacity), r) {
      ShiftInverse(r, w.low);
      FeasibleIff(Alone(e), [e.uid], w, cfg.capacity, ShiftAll(r, w.low));
    }
    if a :| Fits(Alone(e), w, cfg.capacity, a) {
      FeasibleIff(Alone(e), [e.uid], w, cfg.capacity, a);
    }
  }

  lemma OnlyOne(maxHorizon: int, e: Record)
    ensures Considered(World([], maxHorizon), [e]) == [e]
    ensures BookOf([e]) == Alone(e)
  {
    assert [e][..0] == [];
  }

  lemma AloneValid(e: Record)
    requires BothBounded(e)
    ensures BookValid(Alone(e))
  {
  }

  lemma FirstWindow(cfg: Config, maxHorizon: int, e: Record)
    requires BothBounded(e)
    ensures Considered(World([], maxHorizon), [e]) == [e] && Readable([e])
    ensures var w := PlanningWindow(cfg, World([], maxHorizon), [e]);
            w.low <= e.eta.low.value && e.etd.low.value <= w.high
  {
    hide GetVariables, WindowOf;
    OnlyOne(maxHorizon, e);
    MakespanOf(e);
    MakespanCovers(Ranges([e]), cfg.horizon, maxHorizon);
    assert Ranges([e])[0] == GetVariables(e).value.makespan;
  }

  /******* What a solution leaves in an event *******/

  /** What no planning call touches. */
  predicate KeepsRest(b: Record, a: Record) {
    && a.uid == b.uid && a.duration == b.duration && a.state == b.state && a.canceled == b.canceled
    && a.eta.low == b.eta.low && a.eta.high == b.eta.high && a.etd.low == b.etd.low && a.etd.high == b.etd.high
    && a.activityStart == b.activityStart && a.activityFinish == b.activityFinish
  }

  /** The event before and after an optimum was stored. */
  predicate TookTimes(b: Record, a: Record) {
    && KeepsRest(b, a)
    && match b.state
       case New =>
         && a.eta.time.Some? && a.start.Some? && a.finish.Some? && a.etd.time.Some?
         && (b.eta.low.Some? && b.eta.high.Some? ==> a.eta.time == b.eta.low)
         && a.eta.time.value <= a.start.value && a.finish.value == a.start.value + b.duration
         && (b.etd.low.Some? ==> a.finish.value <= b.etd.low.value && a.etd.time == b.etd.low)
         && (b.etd.low.None? ==> a.etd.time == a.finish)
       case Scheduled =>
         && a.start.Some? && a.finish.Some? && a.finish.value == a.start.value + b.duration
         && (b.eta.low.Some? && b.eta.high.Some? ==> b.eta.low.value <= a.start.value)
         && (b.etd.low.Some? ==> a.finish.value <= b.etd.low.value)
         && a.eta == b.eta && a.etd == b.etd
       case Arrived =>
         && b.eta.time.Some? && a.start.Some? && a.finish.Some? && b.eta.time.value <= a.start.value
         && (!b.canceled ==> a.finish.value == a.start.value + b.duration)
         && a.eta == b.eta && a.etd == b.etd
       case Started =>
         && b.start.Some? && a.finish == Some(b.start.value + b.duration)
         && a.start == b.start && a.eta == b.eta && a.etd == b.etd
       case _ => a == b
  }

  /** The window reaches back to the event's lower arrival bound. */
  predicate Reached(e: Record, w: Window) {
    (e.state == New || e.state == Scheduled) && e.eta.low.Some? ==> w.low <= e.eta.low.value
  }

  lemma AdmittedCanBeRead(e: Record, v: Values, w: Window)
    requires Admits(e, v, w)
    ensures CanBeRead(e)
  {
    ReadableIff(e);
  }

  lemma TakesAdmitted(e: Record, v: Values, w: Window)
    requires Admits(e, v, w) && v.etd == Max(v.finish, EtdFloor(e, w)) && Reached(e, w)
    ensures TookTimes(e, WriteBack(e, v))
  {
    hide Admits, EtdFloor, GetVariables;
    AdmittedCanBeRead(e, v, w);
    AdmitsIff(e, v, w);
    FloorOf(e, w);
  }

  /** The earliest departure the bounds of a queued event allow. */
  lemma FloorOf(e: Record, w: Window)
    requires CanBeRead(e)
    ensures GetVariables(e).Ok?
    ensures e.state == New || e.state == Scheduled ==>
              EtdFloor(e, w) == if e.etd.low.Some? then e.etd.low.value else w.low
  {
  }

  /** Whatever the states: this is what any optimum of the compiled model leaves in the events. */
  lemma SolutionIsTaken(book: Book, order: seq<nat>, w: Window, capacity: int, r: Assignment, u: nat)
    requires BookValid(book) && u in book && Reached(book[u], w)
    requires Optimal(Compile(book, order, w, capacity), r)
    ensures u in r && TookTimes(book[u], WriteBack(book[u], Shift(r[u], w.low)))
  {
    hide GetVariables, Admits, Compile, Optimal, Max, EtdFloor, TookTimes, WriteBack, BookValid, Reached;
    SolverDeparture(book, order, w, capacity, r, u);
    SolutionAdmits(book, order, w, capacity, r, u);
    TakesAdmitted(book[u], Shift(r[u], w.low), w);
  }

  lemma SolutionAdmits(book: Book, order: seq<nat>, w: Window, capacity: int, r: Assignment, u: nat)
    requires BookValid(book) && u in book
    requires Optimal(Compile(book, order, w, capacity), r)
    ensures u in r && Admits(book[u], Shift(r[u], w.low), w)
  {
    hide GetVariables, EventFeasible, CompileEvent, Comparable, Chain, Within, Cost;
  }

  /** The window of a planning call reaches back to every arrival bound it considers. */
  lemma CallReaches(cfg: Config, world: World, candidates: seq<Record>, e: Record)
    requires Readable(Considered(world, candidates)) && e in Considered(world, candidates)
    ensures Reached(e, PlanningWindow(cfg, world, candidates))
  {
    hide GetVariables, Considered, WindowOf;
    var all := Considered(world, candidates);
    var i :| 0 <= i < |all| && all[i] == e;
    MakespanCovers(Ranges(all), cfg.horizon, world.maxHorizon);
    assert Ranges(all)[i] == GetVariables(e).value.makespan;
    ReadableIff(e);
    MakespanOf(e);
  }
}
