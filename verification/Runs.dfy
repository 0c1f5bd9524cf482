/** Runs of the scheduler: planning calls with any outcome, mixed with on-time life-cycle steps. */
module Runs {
  import opened Wrappers
  import opened Cumulative
  import opened Records
  import opened CpModel
  import opened Meaning
  import opened History
  import opened Makespan
  import opened Planning
  import opened OnTime

  /**
   * `Call` is save (one candidate, kept on success), can_schedule (not kept) or validate (no candidate);
   * `answer` is what the solver said. `Step` is the event's next life-cycle step at the planned time;
   * `StartNow` starts a new event at its planned start without an arrival.
   */
  datatype Action =
    | Call(candidates: seq<Record>, keep: bool, order: seq<nat>, answer: Option<Assignment>)
    | Step(uid: nat)
    | StartNow(uid: nat)

  ghost predicate Enabled(cfg: Config, s: World, action: Action) {
    match action
    case Call(candidates, keep, order, answer) =>
      && (forall e :: e in candidates ==> Candidate(e) || e in s.events)
      && UidsUnique(s.events + candidates)
      && Sound(cfg, s, candidates, order, answer)
    case Step(uid) => forall e :: e in s.events && e.uid == uid ==> Settled(e)
    case StartNow(uid) => forall e :: e in s.events && e.uid == uid ==> Settled(e) && e.state == New
  }

  ghost function Next(cfg: Config, s: World, action: Action): World
    requires Enabled(cfg, s, action)
  {
    match action
    case Call(candidates, keep, _, answer) => AfterCall(cfg, s, candidates, keep, answer)
    case Step(uid) =>
      s.(events := seq(|s.events|, i requires 0 <= i < |s.events| =>
        if s.events[i].uid == uid then assert s.events[i] in s.events; Advance(s.events[i]) else s.events[i]))
    case StartNow(uid) =>
      s.(events := seq(|s.events|, i requires 0 <= i < |s.events| =>
        if s.events[i].uid == uid then assert s.events[i] in s.events; Start(s.events[i], s.events[i].start.value)
        else s.events[i]))
  }

  ghost predicate Run(cfg: Config, s: World, actions: seq<Action>, t: World)
    decreases |actions|
  {
    if actions == [] then s == t
    else Enabled(cfg, s, actions[0]) && Run(cfg, Next(cfg, s, actions[0]), actions[1..], t)
  }

  /** The invariant: the stored times are on time within the longest horizon so far. */
  ghost predicate OnTimeWorld(cfg: Config, s: World) {
    UidsUnique(s.events) && OnTimeBook(BookOf(s.events), s.maxHorizon, cfg.capacity)
  }

  /******* Members of the books *******/

  lemma SubBook(s: seq<Record>, book: Book)
    requires forall e :: e in s ==> e.uid in book && book[e.uid] == e
    ensures UidsUnique(s)
    ensures BookOf(s).Keys <= book.Keys && forall u :: u in BookOf(s) ==> BookOf(s)[u] == book[u]
  {
    BookMembers(s);
  }

  lemma SettledMembers(cfg: Config, s: World)
    requires OnTimeWorld(cfg, s)
    ensures forall e :: e in s.events ==> Settled(e) && InTime(e, s.maxHorizon)
  {
    hide Settled, InTime, Within;
    BookMembers(s.events);
  }

  lemma ConsideredMembers(s: World, candidates: seq<Record>)
    ensures forall e :: e in Considered(s, candidates) ==> e in s.events || e in candidates
    ensures forall e :: e in candidates ==> e in Considered(s, candidates)
    ensures forall e :: e in Remaining(s.events) ==> e in s.events && e in Considered(s, candidates)
  {
  }

  /******* Each action keeps the invariant *******/

  lemma FailedCallOnTime(cfg: Config, s: World, candidates: seq<Record>, keep: bool)
    requires OnTimeWorld(cfg, s) && Readable(Considered(s, candidates))
    ensures OnTimeWorld(cfg, AfterCall(cfg, s, candidates, keep, None))
  {
    hide GetVariables, OnTimeBook, Considered;
    HorizonGrows(cfg, s, candidates, keep, None);
    ConsideredMembers(s, candidates);
    var t := AfterCall(cfg, s, candidates, keep, None);
    BookMembers(s.events);
    SubBook(t.events, BookOf(s.events));
    FewerEventsOnTime(BookOf(s.events), s.maxHorizon, cfg.capacity, BookOf(t.events), t.maxHorizon);
  }

  /** The events a call looks at can be scheduled, and none of them ends beyond the window. */
  lemma CallBook(cfg: Config, s: World, candidates: seq<Record>)
    requires OnTimeWorld(cfg, s) && Readable(Considered(s, candidates))
    requires forall e :: e in candidates ==> Candidate(e) || e in s.events
    requires UidsUnique(s.events + candidates)
    ensures var book, w := BookOf(Considered(s, candidates)), PlanningWindow(cfg, s, candidates);
            UidsUnique(Considered(s, candidates)) && AllSchedulable(book, w.high)
  {
    hide GetVariables, OnTimeWorld, Considered, Settled, Candidate;
    ConsideredMembers(s, candidates);
    SettledMembers(cfg, s);
    HorizonGrows(cfg, s, candidates, false, None);
    var all := Considered(s, candidates);
    assert forall e :: e in all ==> e in s.events + candidates;
    BookMembers(all);
    forall e | e in all
      ensures Schedulable(e) && GoneBy(e, PlanningWindow(cfg, s, candidates).high)
    {
      if e !in s.events {
        CandidateHasNotLeft(e);
      }
    }
  }

  lemma CandidateHasNotLeft(e: Record)
    requires Candidate(e)
    ensures e.state != Departed
  {
  }

  ghost function PlannedBook(book: Book, a: Assignment): (planned: Book)
    requires book.Keys == a.Keys
    ensures WrittenBack(book, a, planned)
  {
    map u | u in book :: WriteBack(book[u], a[u])
  }

  lemma PlannedMembers(all: seq<Record>, a: Assignment, part: seq<Record>)
    requires UidsUnique(all) && a.Keys == BookOf(all).Keys
    requires forall e :: e in part ==> e in all
    ensures var planned := PlannedBook(BookOf(all), a);
            forall e :: e in AppliedAll(part, a) ==> e.uid in planned && planned[e.uid] == e
  {
    hide WriteBack, UidsUnique, BookOf;
    BookMembers(all);
    var planned := PlannedBook(BookOf(all), a);
    forall e | e in AppliedAll(part, a)
      ensures e.uid in planned && planned[e.uid] == e
    {
      var i :| 0 <= i < |part| && e == Applied(part[i], a);
      assert part[i] in part;
      WriteBackKeepsUid(part[i], a[part[i].uid]);
    }
  }

  lemma WriteBackKeepsUid(e: Record, v: Values)
    ensures WriteBack(e, v).uid == e.uid
  {
  }

  lemma SchedulableIsSorted(order: seq<nat>, book: Book, high: int)
    requires BookValid(book) && Arranged(order, book) && AllSchedulable(book, high)
    ensures SortedOrder(order, book)
  {
    hide GetVariables, Comparable, Settled, Candidate, Arranged, SortedOrder;
    forall u | u in book
      ensures Queued(book[u].state) ==> book[u].eta.time.Some?
    {
      SettledIsReadable(book[u]);
    }
    ArrangedIsSorted(order, book);
  }

  lemma SuccessfulCallOnTime(cfg: Config, s: World, candidates: seq<Record>, keep: bool, order: seq<nat>,
                             answer: Option<Assignment>)
    requires OnTimeWorld(cfg, s) && Enabled(cfg, s, Call(candidates, keep, order, answer)) && answer.Some?
    ensures OnTimeWorld(cfg, AfterCall(cfg, s, candidates, keep, answer))
  {
    hide GetVariables, OnTimeBook, Considered, Settled, Candidate, Plan, Compile, Feasible,
         SortedOrder, Arranged, Remaining, AppliedAll, ShiftAll;
    var book, w := BookOf(Considered(s, candidates)), PlanningWindow(cfg, s, candidates);
    var a := ShiftAll(answer.value, w.low);
    CallBook(cfg, s, candidates);
    SchedulableIsSorted(order, book, w.high);
    ShiftInverse(answer.value, w.low);
    FeasibleIsPlan(book, order, w, cfg.capacity, a);
    PlanKeys(book, w, cfg.capacity, a);
    var planned := PlannedBook(book, a);
    PlanIsOnTime(book, w, cfg.capacity, a, planned);
    ConsideredMembers(s, candidates);
    var rest := Remaining(s.events);
    PlannedMembers(Considered(s, candidates), a, rest);
    PlannedMembers(Considered(s, candidates), a, candidates);
    var t := AfterCall(cfg, s, candidates, keep, answer);
    SubBook(t.events, planned);
    FewerEventsOnTime(planned, w.high, cfg.capacity, BookOf(t.events), w.high);
  }

  /** Changing every listing of one event changes its entry in the book. */
  lemma UpdatedBook(s: seq<Record>, t: seq<Record>, uid: nat, e: Record, f: Record)
    requires UidsUnique(s) && |t| == |s|
    requires e in s && e.uid == uid && f.uid == uid
    requires forall i :: 0 <= i < |s| ==> t[i] == if s[i].uid == uid then f else s[i]
    ensures UidsUnique(t)
    ensures uid in BookOf(s) && BookOf(s)[uid] == e
    ensures BookOf(t).Keys <= BookOf(s)[uid := f].Keys && forall u :: u in BookOf(t) ==> BookOf(t)[u] == BookOf(s)[uid := f][u]
  {
    BookMembers(s);
    forall x | x in t
      ensures x.uid in BookOf(s)[uid := f] && BookOf(s)[uid := f][x.uid] == x
    {
      var i :| 0 <= i < |t| && t[i] == x;
      assert s[i] in s;
    }
    SubBook(t, BookOf(s)[uid := f]);
  }

  lemma StepOnTime(cfg: Config, s: World, action: Action)
    requires OnTimeWorld(cfg, s) && Enabled(cfg, s, action) && !action.Call?
    ensures OnTimeWorld(cfg, Next(cfg, s, action))
  {
    hide OnTimeBook, Settled, Advance, Start;
    var uid, t := action.uid, Next(cfg, s, action);
    if e :| e in s.events && e.uid == uid {
      assert forall d :: d in s.events && d.uid == uid ==> d == e;
      var f := if action.Step? then Advance(e) else Start(e, (StartKnown(e); e.start.value));
      SettledMembers(cfg, s);
      AdvanceKeepsTimes(e, f, s.maxHorizon);
      UpdatedBook(s.events, t.events, uid, e, f);
      AdvanceOnTime(BookOf(s.events), s.maxHorizon, cfg.capacity, uid, f);
      FewerEventsOnTime(BookOf(s.events)[uid := f], s.maxHorizon, cfg.capacity, BookOf(t.events), s.maxHorizon);
    } else {
      assert t.events == s.events;
    }
  }

  lemma StartKnown(e: Record)
    requires Settled(e)
    ensures e.start.Some?
  {
  }

  lemma ActionOnTime(cfg: Config, s: World, action: Action)
    requires OnTimeWorld(cfg, s) && Enabled(cfg, s, action)
    ensures OnTimeWorld(cfg, Next(cfg, s, action))
  {
    hide OnTimeWorld, Considered, Settled, Candidate, GetVariables, AfterCall;
    match action
    case Call(candidates, keep, order, answer) =>
      if answer.None? {
        FailedCallOnTime(cfg, s, candidates, keep);
      } else {
        SuccessfulCallOnTime(cfg, s, candidates, keep, order, answer);
      }
    case Step(uid) => StepOnTime(cfg, s, action);
    case StartNow(uid) => StepOnTime(cfg, s, action);
  }

  /******* Whole runs *******/

  lemma {:induction false} RunOnTime(cfg: Config, s: World, actions: seq<Action>, t: World)
    requires OnTimeWorld(cfg, s) && Run(cfg, s, actions, t)
    ensures OnTimeWorld(cfg, t)
    decreases |actions|
  {
    hide OnTimeWorld, Enabled, Next;
    if actions == [] {
    } else {
      ActionOnTime(cfg, s, actions[0]);
      RunOnTime(cfg, Next(cfg, s, actions[0]), actions[1..], t);
    }
  }

  /******* Anything that may happen *******/

  /**
   * `Asked` is a planning call that could read its events, whatever the candidates are and whatever came
   * of it; `Disturbed` is everything else: a call that raised while reading, having pruned as much as it
   * had, and any change of events: late steps, cancellations, new bounds.
   */
  datatype Happening =
    | Asked(candidates: seq<Record>, keep: bool, answer: Option<Assignment>)
    | Disturbed(events: seq<Record>)

  ghost predicate CanHappen(s: World, h: Happening) {
    h.Asked? ==> Readable(Considered(s, h.candidates))
  }

  ghost function AfterHappening(cfg: Config, s: World, h: Happening): World
    requires CanHappen(s, h)
  {
    match h
    case Asked(candidates, keep, answer) => AfterCall(cfg, s, candidates, keep, answer)
    case Disturbed(events) => s.(events := events)
  }

  ghost predicate Course(cfg: Config, s: World, course: seq<Happening>, t: World)
    decreases |course|
  {
    if course == [] then s == t
    else CanHappen(s, course[0]) && Course(cfg, AfterHappening(cfg, s, course[0]), course[1..], t)
  }

  /** The horizon never shrinks, whatever happens and whatever fails. */
  lemma {:induction false} HorizonNeverShrinks(cfg: Config, s: World, course: seq<Happening>, t: World)
    requires Course(cfg, s, course, t)
    ensures s.maxHorizon <= t.maxHorizon
    decreases |course|
  {
    hide AfterCall, Considered, GetVariables;
    if course == [] {
    } else {
      if course[0].Asked? {
        HorizonGrows(cfg, s, course[0].candidates, course[0].keep, course[0].answer);
      }
      HorizonNeverShrinks(cfg, AfterHappening(cfg, s, course[0]), course[1..], t);
    }
  }

  function Happens(next: World, action: Action): Happening {
    if action.Call? then Asked(action.candidates, action.keep, action.answer) else Disturbed(next.events)
  }

  lemma {:induction false} RunIsCourse(cfg: Config, s: World, actions: seq<Action>, t: World)
    requires Run(cfg, s, actions, t)
    ensures exists course :: Course(cfg, s, course, t)
    decreases |actions|
  {
    hide AfterCall, Considered, GetVariables, Advance, Start, Settled;
    if actions == [] {
      assert Course(cfg, s, [], t);
    } else {
      var next := Next(cfg, s, actions[0]);
      var h := Happens(next, actions[0]);
      RunIsCourse(cfg, next, actions[1..], t);
      var rest :| Course(cfg, next, rest, t);
      assert CanHappen(s, h) && AfterHappening(cfg, s, h) == next;
      assert ([h] + rest)[1..] == rest;
      assert Course(cfg, s, [h] + rest, t);
    }
  }

  lemma FirstTimeIsMakespan(e: Record)
    requires Settled(e)
    ensures GetVariables(e).Ok? && GetVariables(e).value.makespan.low == Some(FirstTime(e))
  {
  }

  /** Calls on an on-time scheduler never fail for want of a time. */
  lemma OnTimeIsReadable(cfg: Config, s: World, candidates: seq<Record>)
    requires OnTimeWorld(cfg, s)
    requires forall e :: e in candidates ==> Candidate(e) || e in s.events
    requires UidsUnique(s.events + candidates)
    ensures Readable(Considered(s, candidates)) && BookValid(BookOf(Considered(s, candidates)))
  {
    hide GetVariables, OnTimeWorld, Considered, Settled, Candidate, Comparable;
    var all := Considered(s, candidates);
    ConsideredMembers(s, candidates);
    SettledMembers(cfg, s);
    assert forall e :: e in all ==> e in s.events + candidates;
    BookMembers(all);
    forall e | e in all
      ensures GetVariables(e).Ok? && Comparable(e)
    {
      SettledIsReadable(e);
    }
  }

  ghost predicate InsideWindow(book: Book, w: Window) {
    forall u :: u in book ==> Settled(book[u]) && w.low <= FirstTime(book[u])
  }

  lemma ValidateBook(cfg: Config, s: World)
    requires OnTimeWorld(cfg, s) && Readable(Considered(s, []))
    ensures OnTimeBook(BookOf(Considered(s, [])), s.maxHorizon, cfg.capacity)
    ensures InsideWindow(BookOf(Considered(s, [])), PlanningWindow(cfg, s, []))
    ensures s.maxHorizon <= PlanningWindow(cfg, s, []).high
  {
    hide GetVariables, OnTimeBook, Considered, Settled, FirstTime, WindowOf, Ranges, InTime, InsideWindow;
    var all := Considered(s, []);
    ConsideredMembers(s, []);
    BookMembers(s.events);
    SubBook(all, BookOf(s.events));
    SettledMembers(cfg, s);
    FewerEventsOnTime(BookOf(s.events), s.maxHorizon, cfg.capacity, BookOf(all), s.maxHorizon);
    StartsInside(all, cfg.horizon, s.maxHorizon);
  }

  lemma StartsInside(all: seq<Record>, horizon: int, maxHorizon: int)
    requires Readable(all) && UidsUnique(all) && forall e :: e in all ==> Settled(e)
    ensures InsideWindow(BookOf(all), WindowOf(Ranges(all), horizon, maxHorizon))
    ensures maxHorizon <= WindowOf(Ranges(all), horizon, maxHorizon).high
  {
    hide GetVariables, Settled, FirstTime, WindowOf, BookOf;
    var book, w := BookOf(all), WindowOf(Ranges(all), horizon, maxHorizon);
    BookMembers(all);
    MakespanCovers(Ranges(all), horizon, maxHorizon);
    forall u | u in book
      ensures Settled(book[u]) && w.low <= FirstTime(book[u])
    {
      var i :| 0 <= i < |all| && all[i] == book[u];
      FirstTimeIsMakespan(all[i]);
      assert Ranges(all)[i].low.Some?;
    }
  }

  /** On time, the times stored in the events solve the model that validate builds from them. */
  lemma StoredTimesSolve(cfg: Config, s: World, order: seq<nat>)
    requires OnTimeWorld(cfg, s)
    requires Readable(Considered(s, [])) && BookValid(BookOf(Considered(s, [])))
    requires SortedOrder(order, BookOf(Considered(s, [])))
    ensures var book, w := BookOf(Considered(s, [])), PlanningWindow(cfg, s, []);
            && (forall u :: u in book ==> Settled(book[u]))
            && Feasible(Compile(book, order, w, cfg.capacity), ShiftAll(StoredPlan(book), -w.low))
  {
    hide GetVariables, OnTimeWorld, OnTimeBook, Considered, Settled, FirstTime, Plan, Feasible, Compile, SortedOrder,
         BookValid, Readable, PlanningWindow;
    var book, w := BookOf(Considered(s, [])), PlanningWindow(cfg, s, []);
    ValidateBook(cfg, s);
    OnTimeIsPlan(book, s.maxHorizon, cfg.capacity, w);
    PlanIsFeasible(book, order, w, cfg.capacity, StoredPlan(book));
  }

  /** The model that validate builds can be built, and has a solution however the events are sorted. */
  ghost predicate ValidateSucceeds(cfg: Config, s: World) {
    && Readable(Considered(s, []))
    && BookValid(BookOf(Considered(s, [])))
    && forall order :: SortedOrder(order, BookOf(Considered(s, []))) ==>
         exists a :: Feasible(Compile(BookOf(Considered(s, [])), order, PlanningWindow(cfg, s, []), cfg.capacity), a)
  }

  /**
   * On-time runs stay schedulable: after any run from the empty scheduler the model built by validate
   * has a solution, so a solver that finds one whenever there is one makes validate succeed.
   */
  lemma OnTimeRunsStaySchedulable(cfg: Config, actions: seq<Action>, t: World)
    requires Run(cfg, World([], cfg.horizon), actions, t)
    ensures ValidateSucceeds(cfg, t)
    ensures cfg.horizon <= t.maxHorizon
  {
    hide Run, Sound, Considered, Feasible, Compile, SortedOrder, OnTimeWorld, Readable, BookValid;
    EmptyOnTime(cfg);
    RunOnTime(cfg, World([], cfg.horizon), actions, t);
    RunIsCourse(cfg, World([], cfg.horizon), actions, t);
    var course :| Course(cfg, World([], cfg.horizon), course, t);
    HorizonNeverShrinks(cfg, World([], cfg.horizon), course, t);
    assert t.events + [] == t.events;
    assert UidsUnique(t.events) by { OnTimeUnique(cfg, t); }
    OnTimeIsReadable(cfg, t, []);
    forall order | SortedOrder(order, BookOf(Considered(t, [])))
      ensures exists a :: Feasible(Compile(BookOf(Considered(t, [])), order, PlanningWindow(cfg, t, []), cfg.capacity), a)
    {
      StoredTimesSolve(cfg, t, order);
    }
  }

  lemma OnTimeUnique(cfg: Config, s: World)
    requires OnTimeWorld(cfg, s)
    ensures UidsUnique(s.events)
  {
  }

  lemma EmptyOnTime(cfg: Config)
    ensures OnTimeWorld(cfg, World([], cfg.horizon))
  {
    assert BookOf([]) == map[];
    assert forall t :: At(map[], t) == {};
    assert WaitSpans(map[], StoredPlan(map[])) == map[];
    assert ProcessSpans(StoredPlan(map[])) == map[];
  }
}
