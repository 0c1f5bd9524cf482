/**
 * The integer model that `build_model` hands to the solver, what its feasible and optimal
 * assignments are, and the same constraints read in absolute time (`Plan`).
 */
module CpModel {
  import opened Wrappers
  import opened Cumulative
  import opened Records

  /** The bounds of one integer variable. */
  datatype Domain = Domain(low: int, high: int)

  /** An event's variables; a finished event has no arrival and no input interval. */
  datatype EventModel = EventModel(
    eta: Option<Domain>,
    start: Domain,
    finish: Domain,
    etd: Domain,
    iqt: Option<Domain>,
    duration: Domain,
    oqt: Domain)

  /** `chain` holds the pairs of events that the order constraints link. */
  datatype Model = Model(
    events: map<nat, EventModel>,
    chain: set<(nat, nat)>,
    inputCapacity: int,
    outputCapacity: int)

  type Assignment = map<nat, Values>

  /** The window `(sim_min, max_horizon)`. */
  datatype Window = Window(low: int, high: int)

  /******* What the solver has to satisfy *******/

  predicate In(v: int, d: Domain) {
    d.low <= v <= d.high
  }

  /** A size variable within its bounds, on an interval that does not run backwards. */
  predicate SizeIn(v: int, d: Domain) {
    In(v, d) && 0 <= v
  }

  predicate EventFeasible(m: EventModel, v: Values) {
    && (m.eta.Some? ==> In(v.eta, m.eta.value))
    && In(v.start, m.start)
    && In(v.finish, m.finish)
    && In(v.etd, m.etd)
    && (m.iqt.Some? ==> SizeIn(v.start - v.eta, m.iqt.value))
    && SizeIn(v.finish - v.start, m.duration)
    && SizeIn(v.etd - v.finish, m.oqt)
  }

  function InputSpans(m: Model, a: Assignment): map<nat, Span> {
    map u | u in m.events && u in a && m.events[u].iqt.Some? :: Span(a[u].eta, a[u].start)
  }

  function ProcessSpans(a: Assignment): map<nat, Span> {
    map u | u in a :: Span(a[u].start, a[u].finish)
  }

  function OutputSpans(a: Assignment): map<nat, Span> {
    map u | u in a :: Span(a[u].finish, a[u].etd)
  }

  predicate Ordered(a: Assignment, u: nat, v: nat) {
    u in a && v in a && a[u].eta <= a[v].eta && a[u].start <= a[v].start
  }

  ghost predicate Feasible(m: Model, a: Assignment) {
    && a.Keys == m.events.Keys
    && (forall u :: u in a ==> EventFeasible(m.events[u], a[u]))
    && (forall p :: p in m.chain ==> Ordered(a, p.0, p.1))
    && Within(InputSpans(m, a), m.inputCapacity)
    && Within(ProcessSpans(a), 1)
    && Within(OutputSpans(a), m.outputCapacity)
  }

  /** The sum of the departure times of the events `keys`. */
  ghost function Cost(keys: set<nat>, a: Assignment): int
    requires keys <= a.Keys
  {
    if keys == {} then 0 else
    var u :| u in keys;
    a[u].etd + Cost(keys - {u}, a)
  }

  ghost predicate Optimal(m: Model, a: Assignment) {
    && Feasible(m, a)
    && forall b :: Feasible(m, b) ==> Cost(a.Keys, a) <= Cost(b.Keys, b)
  }

  /******* Building it *******/

  /** Bounds are shifted by the window's start; missing ones become the edges of the window. */
  function DomainOf(r: Range, w: Window): Domain {
    Domain(if r.low.None? then 0 else r.low.value - w.low,
           if r.high.None? then w.high - w.low else r.high.value - w.low)
  }

  function SizeDomain(i: Interval, w: Window): Domain {
    var duration := if i.duration.None? then w.high - w.low else i.duration.value;
    Domain(if i.optional then 0 else duration, duration)
  }

  function CompileEvent(vars: Variables, w: Window): EventModel {
    EventModel(
      if vars.eta.Some? then Some(DomainOf(vars.eta.value, w)) else None,
      DomainOf(vars.start, w),
      DomainOf(vars.finish, w),
      DomainOf(vars.etd, w),
      if vars.input.Some? then Some(SizeDomain(vars.input.value, w)) else None,
      SizeDomain(vars.process, w),
      SizeDomain(vars.output, w))
  }

  /** The events of one planning problem, by uid. */
  type Book = map<nat, Record>

  ghost predicate BookValid(book: Book) {
    forall u :: u in book ==> book[u].uid == u && Comparable(book[u]) && GetVariables(book[u]).Ok?
  }

  /** A possible result of sorting the events: no later one comes before an earlier one. */
  ghost predicate SortedOrder(order: seq<nat>, book: Book)
    requires BookValid(book)
  {
    && (set u | u in order) == book.Keys
    && (forall i, j :: 0 <= i < j < |order| ==> order[i] != order[j])
    && (forall i, j :: 0 <= i < j < |order| ==> !Before(book[order[j]], book[order[i]]))
  }

  /** Not coming after is transitive, so that sorting has a meaning. */
  ghost predicate Sortable(book: Book) {
    forall u, v, x | u in book && v in book && x in book ::
      !Ahead(book[v], book[u]) && !Ahead(book[x], book[v]) ==> !Ahead(book[x], book[u])
  }

  /** What `sorted` promises: every event once, and sorted if the events can be. */
  ghost predicate Arranged(order: seq<nat>, book: Book)
    requires BookValid(book)
  {
    && (set u | u in order) == book.Keys
    && (forall i, j :: 0 <= i < j < |order| ==> order[i] != order[j])
    && (Sortable(book) ==> SortedOrder(order, book))
  }

  predicate BothQueued(book: Book, u: nat, v: nat) {
    u in book && v in book && Queued(book[u].state) && Queued(book[v].state)
  }

  /** The adjacent pairs that `build_model` links: those of two events that have not started. */
  ghost function Chain(order: seq<nat>, book: Book): set<(nat, nat)> {
    set i {:trigger Linked(order, book, i)} |
      0 <= i < |order| - 1 && Linked(order, book, i) :: (order[i], order[i+1])
  }

  predicate Linked(order: seq<nat>, book: Book, i: int) {
    0 <= i < |order| - 1 && BothQueued(book, order[i], order[i+1])
  }

  ghost function Compile(book: Book, order: seq<nat>, w: Window, capacity: int): Model
    requires BookValid(book)
  {
    Model(map u | u in book :: CompileEvent(GetVariables(book[u]).value, w),
          Chain(order, book), capacity, capacity)
  }

  /******* The same constraints in absolute time *******/

  function Shift(v: Values, d: int): Values {
    Values(v.eta + d, v.start + d, v.finish + d, v.etd + d)
  }

  function ShiftAll(a: Assignment, d: int): (r: Assignment)
    ensures r.Keys == a.Keys
  {
    map u | u in a :: Shift(a[u], d)
  }

  /** The event's own constraints, for absolute times. */
  predicate Admits(e: Record, v: Values, w: Window) {
    GetVariables(e).Ok? && EventFeasible(CompileEvent(GetVariables(e).value, w), Shift(v, -w.low))
  }

  /** The events whose wait before processing is modelled. */
  predicate Waits(e: Record) {
    Queued(e.state) || e.state == Started
  }

  function WaitSpans(book: Book, a: Assignment): map<nat, Span> {
    map u | u in book && u in a && Waits(book[u]) :: Span(a[u].eta, a[u].start)
  }

  /** Every event in bounds, the queue in order for all pairs, and the three resources respected. */
  ghost predicate Plan(book: Book, w: Window, capacity: int, a: Assignment) {
    && BookValid(book)
    && a.Keys == book.Keys
    && (forall u :: u in book ==> Admits(book[u], a[u], w))
    && (forall u, v :: BothQueued(book, u, v) && Before(book[u], book[v]) ==> Ordered(a, u, v))
    && Within(WaitSpans(book, a), capacity)
    && Within(ProcessSpans(a), 1)
    && Within(OutputSpans(a), capacity)
  }

  ghost predicate OptimalPlan(book: Book, w: Window, capacity: int, a: Assignment) {
    && Plan(book, w, capacity, a)
    && forall b :: Plan(book, w, capacity, b) ==> Cost(a.Keys, a) <= Cost(b.Keys, b)
  }
}
