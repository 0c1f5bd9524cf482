/** The scheduler's state and one planning call, on values. */
module Planning {
  import opened Wrappers
  import opened Records
  import opened CpModel
  import opened History
  import opened Makespan

  datatype Config = Config(horizon: int, capacity: nat)

  /** `_events` and `max_horizon`. */
  datatype World = World(events: seq<Record>, maxHorizon: int)

  /** Events are the same when their uids are; the same event may be listed twice. */
  ghost predicate UidsUnique(s: seq<Record>) {
    forall e, f :: e in s && f in s && e.uid == f.uid ==> e == f
  }

  /** The dictionary filled from the yielded events. */
  function BookOf(s: seq<Record>): Book {
    if s == [] then map[] else BookOf(s[..|s|-1])[s[|s|-1].uid := s[|s|-1]]
  }

  lemma {:induction false} BookMembers(s: seq<Record>)
    requires UidsUnique(s)
    ensures forall e :: e in s ==> e.uid in BookOf(s) && BookOf(s)[e.uid] == e
    ensures forall u :: u in BookOf(s) ==> BookOf(s)[u] in s && BookOf(s)[u].uid == u
  {
    if s == [] {
    } else {
      var init, last := s[..|s|-1], s[|s|-1];
      assert forall e :: e in s <==> e in init || e == last;
      BookMembers(init);
    }
  }

  ghost predicate Readable(s: seq<Record>) {
    forall i :: 0 <= i < |s| ==> GetVariables(s[i]).Ok?
  }

  function Ranges(s: seq<Record>): (r: seq<Range>)
    requires forall i :: 0 <= i < |s| ==> GetVariables(s[i]).Ok?
    ensures |r| == |s|
  {
    seq(|s|, i requires 0 <= i < |s| => GetVariables(s[i]).value.makespan)
  }

  /** What one planning call looks at. */
  function Considered(world: World, candidates: seq<Record>): seq<Record> {
    Yielded(world.events, candidates)
  }

  function PlanningWindow(cfg: Config, world: World, candidates: seq<Record>): Window
    requires Readable(Considered(world, candidates))
  {
    WindowOf(Ranges(Considered(world, candidates)), cfg.horizon, world.maxHorizon)
  }

  function Applied(e: Record, a: Assignment): Record {
    if e.uid in a then WriteBack(e, a[e.uid]) else e
  }

  function AppliedAll(s: seq<Record>, a: Assignment): (r: seq<Record>)
    ensures |r| == |s|
  {
    seq(|s|, i requires 0 <= i < |s| => Applied(s[i], a))
  }

  /**
   * A planning call: history is pruned, the horizon grows, and a solution (relative to the window's
   * start) is written back. A failed call, `answer == None`, writes no times. The candidates join the
   * list if they are to be kept and the call succeeded.
   */
  function AfterCall(cfg: Config, world: World, candidates: seq<Record>, keep: bool, answer: Option<Assignment>): World
    requires Readable(Considered(world, candidates))
  {
    var w := PlanningWindow(cfg, world, candidates);
    var rest := Remaining(world.events);
    if answer.None? then World(rest, w.high)
    else
      var a := ShiftAll(answer.value, w.low);
      World(AppliedAll(rest, a) + if keep then AppliedAll(candidates, a) else [], w.high)
  }

  /** The solver reports only solutions of the model it was given. */
  ghost predicate Sound(cfg: Config, world: World, candidates: seq<Record>, order: seq<nat>, answer: Option<Assignment>) {
    var book := BookOf(Considered(world, candidates));
    && Readable(Considered(world, candidates))
    && BookValid(book) && Arranged(order, book)
    && (answer.Some? ==>
          Optimal(Compile(book, order, PlanningWindow(cfg, world, candidates), cfg.capacity), answer.value))
  }

  /** No planning call, failed or not, shortens the horizon. */
  lemma HorizonGrows(cfg: Config, world: World, candidates: seq<Record>, keep: bool, answer: Option<Assignment>)
    requires Readable(Considered(world, candidates))
    ensures world.maxHorizon <= AfterCall(cfg, world, candidates, keep, answer).maxHorizon
  {
    hide GetVariables, Ranges, Considered, ShiftAll, AppliedAll;
    MakespanCovers(Ranges(Considered(world, candidates)), cfg.horizon, world.maxHorizon);
  }
}
