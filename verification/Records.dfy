/**
 * The values an event carries, its order, and the planning variables read from it.
 * Times are integers and the resolution is 1, so converting a time is the identity.
 */
module Records {
  import opened Wrappers

  datatype State = New | Scheduled | Arrived | Started | Finished | Departed | Canceled

  /** The number `auto()` gives to each member of the enumeration. */
  function Rank(s: State): int {
    match s
    case New => 1
    case Scheduled => 2
    case Arrived => 3
    case Started => 4
    case Finished => 5
    case Departed => 6
    case Canceled => 7
  }

  predicate Queued(s: State) {
    s == New || s == Scheduled || s == Arrived
  }

  /** An arrival or departure time with its hard bounds. */
  datatype Etx = Etx(time: Option<int>, low: Option<int>, high: Option<int>)

  /** `ETX.validate` with zero margins: each missing end of the range is the time itself. */
  predicate Coherent(x: Etx) {
    var low, high := if x.low.Some? then x.low else x.time, if x.high.Some? then x.high else x.time;
    low.Some? && high.Some? ==> low.value <= high.value
  }

  /** What `ETX` and `Event` accept: coherent times, and an arrival bounded on both sides. */
  predicate Acceptable(eta: Etx, etd: Etx) {
    Coherent(eta) && Coherent(etd) && eta.low.Some? && eta.high.Some?
  }

  datatype Record = Record(
    uid: nat,
    duration: int,
    state: State,
    eta: Etx,
    etd: Etx,
    start: Option<int>,
    finish: Option<int>,
    activityStart: Option<int>,
    activityFinish: Option<int>,
    canceled: bool)

  /******* Order *******/

  predicate EtxDefined(x: Etx) {
    x.time.Some? || x.low.Some?
  }

  function EtxValue(x: Etx): int
    requires EtxDefined(x)
  {
    if x.time.Some? then x.time.value else x.low.value
  }

  /** The times by which the order compares an event in its state are present. */
  predicate Comparable(e: Record) {
    match e.state
    case Started => e.start.Some?
    case Finished => e.finish.Some?
    case _ => EtxDefined(e.eta)
  }

  /** Tuple comparison: the first unequal position decides. */
  predicate LexLess(a: (int, int, nat), b: (int, int, nat)) {
    a.0 < b.0 || (a.0 == b.0 && (a.1 < b.1 || (a.1 == b.1 && a.2 < b.2)))
  }

  /** `Event.__lt__`. Two arrival times are equal when their `time` is, two absent times included. */
  predicate Before(a: Record, b: Record)
    requires Comparable(a) && Comparable(b)
  {
    if Queued(a.state) && Queued(b.state) then
      if a.eta.time != b.eta.time then
        EtxValue(a.eta) < EtxValue(b.eta)
      else
        a.duration < b.duration || (a.duration == b.duration && a.uid < b.uid)
    else if a.state == b.state then
      if a.state == Started then
        LexLess((a.start.value, a.duration, a.uid), (b.start.value, b.duration, b.uid))
      else if a.state == Finished then
        LexLess((a.finish.value, a.duration, a.uid), (b.finish.value, b.duration, b.uid))
      else
        EtxValue(a.eta) < EtxValue(b.eta)
    else
      Rank(b.state) < Rank(a.state)
  }

  predicate Ahead(a: Record, b: Record) {
    Comparable(a) && Comparable(b) && Before(a, b)
  }

  /******* Planning variables *******/

  datatype Range = Range(low: Option<int>, high: Option<int>)

  /** `duration == None` stands for the whole horizon; an optional interval may be shorter. */
  datatype Interval = Interval(duration: Option<int>, optional: bool)

  datatype Failure = TypeError | NotImplemented

  datatype Variables = Variables(
    eta: Option<Range>,
    start: Range,
    finish: Range,
    etd: Range,
    makespan: Range,
    input: Option<Interval>,
    process: Interval,
    output: Interval)

  /** `eta_constraints` and `etd_constraints`: the upper bound is computed from the lower one. */
  function Bounds(x: Etx): Result<Range, Failure> {
    if x.high.None? then Ok(Range(x.low, None))
    else if x.low.None? then Err(TypeError)
    else Ok(Range(x.low, x.low))
  }

  function Fixed(t: int): Range {
    Range(Some(t), Some(t))
  }

  function OrElse(o: Option<int>, t: int): Option<int> {
    if o.Some? then o else Some(t)
  }

  /** `Event.get_variables`. */
  function GetVariables(e: Record): Result<Variables, Failure> {
    match e.state
    case New => QueuedVariables(e)
    case Scheduled => QueuedVariables(e)
    case Arrived =>
      var bounds := Bounds(e.etd);
      if e.eta.time.None? || bounds.Err? then Err(TypeError) else
      var eta, high := e.eta.time.value, bounds.value.high;
      Ok(Variables(
        eta := Some(Fixed(eta)),
        start := Range(Some(eta), high),
        finish := Range(Some(eta), high),
        etd := Range(OrElse(bounds.value.low, eta), high),
        makespan := Range(Some(eta), high),
        input := Some(Interval(None, true)),
        process := Interval(Some(e.duration), e.canceled),
        output := Interval(Some(0), true)))
    case Started =>
      var bounds := Bounds(e.etd);
      if e.eta.time.None? || e.start.None? || bounds.Err? then Err(TypeError) else
      var eta, start, high := e.eta.time.value, e.start.value, bounds.value.high;
      Ok(Variables(
        eta := Some(Fixed(eta)),
        start := Fixed(start),
        finish := Fixed(start + e.duration),
        etd := Range(OrElse(bounds.value.low, start), high),
        makespan := Range(Some(eta), high),
        input := Some(Interval(Some(start - eta), false)),
        process := Interval(Some(e.duration), e.canceled),
        output := Interval(None, true)))
    case Finished =>
      var bounds := Bounds(e.etd);
      if e.start.None? || e.finish.None? || bounds.Err? then Err(TypeError) else
      var start, finish, high := e.start.value, e.finish.value, bounds.value.high;
      Ok(Variables(
        eta := None,
        start := Fixed(start),
        finish := Fixed(finish),
        etd := Range(OrElse(bounds.value.low, finish), high),
        makespan := Range(Some(start), high),
        input := None,
        process := Interval(Some(finish - start), false),
        output := Interval(None, true)))
    case Departed =>
      if e.start.None? || e.finish.None? || e.etd.time.None? then Err(TypeError) else
      var start, finish, etd := e.start.value, e.finish.value, e.etd.time.value;
      Ok(Variables(
        eta := None,
        start := Fixed(start),
        finish := Fixed(finish),
        etd := Fixed(etd),
        makespan := Range(Some(start), Some(etd)),
        input := None,
        process := Interval(Some(finish - start), false),
        output := Interval(Some(etd - finish), false)))
    case Canceled => Err(NotImplemented)
  }

  function QueuedVariables(e: Record): Result<Variables, Failure> {
    var eta, etd := Bounds(e.eta), Bounds(e.etd);
    if eta.Err? || etd.Err? then Err(TypeError) else
    Ok(Variables(
      eta := Some(eta.value),
      start := Range(eta.value.high, etd.value.low),
      finish := Range(eta.value.high, etd.value.low),
      etd := etd.value,
      makespan := Range(eta.value.low, etd.value.high),
      input := Some(Interval(None, true)),
      process := Interval(Some(e.duration), false),
      output := Interval(None, true)))
  }

  /******* Plans *******/

  /** One event's part of an assignment; `eta` means nothing once the event has finished. */
  datatype Values = Values(eta: int, start: int, finish: int, etd: int)

  /** What `optimize_model` stores in an event, by its state. */
  function WriteBack(e: Record, v: Values): Record {
    match e.state
    case New =>
      e.(eta := e.eta.(time := Some(v.eta)), start := Some(v.start), finish := Some(v.finish),
         etd := e.etd.(time := Some(v.etd)))
    case Scheduled => e.(start := Some(v.start), finish := Some(v.finish))
    case Arrived => e.(start := Some(v.start), finish := Some(v.finish))
    case Started => e.(finish := Some(v.finish))
    case _ => e
  }

  /******* Life cycle *******/

  function Arrive(e: Record, time: int): Record {
    e.(state := Arrived, eta := e.eta.(time := Some(time)), activityStart := Some(time))
  }

  function Start(e: Record, time: int): Record {
    e.(state := Started, start := Some(time))
  }

  function Finish(e: Record, time: int): Record {
    e.(state := Finished, finish := Some(time))
  }

  function Depart(e: Record, time: int): Record {
    e.(state := Departed, etd := e.etd.(time := Some(time)), activityFinish := Some(time))
  }

  function Cancel(e: Record): Record {
    e.(canceled := true,
       state := if e.state == New || e.state == Scheduled || e.state == Departed then Canceled else e.state)
  }
}
