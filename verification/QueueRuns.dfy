/** Runs of a queue before anything has started: saves, accepted or refused, and arrivals on time. */
module QueueRuns {
  import opened Wrappers
  import opened Records
  import opened CpModel
  import opened Admission
  import opened Planning
  import opened Acceptance

  datatype Action = Save(c: Record, order: seq<nat>, answer: Option<Assignment>) | ArriveOnTime(uid: nat)

  ghost predicate Enabled(cfg: Config, s: World, action: Action) {
    match action
    case Save(c, order, answer) => Joins(s, c) && Sound(cfg, s, [c], order, answer)
    case ArriveOnTime(uid) => forall e :: e in s.events && e.uid == uid ==> e.state == New && e.eta.time.Some?
  }

  function Arrived(e: Record, uid: nat): Record {
    if e.uid == uid && e.eta.time.Some? then Arrive(e, e.eta.time.value) else e
  }

  ghost function Next(cfg: Config, s: World, action: Action): World
    requires Enabled(cfg, s, action)
  {
    match action
    case Save(c, _, answer) => AfterCall(cfg, s, [c], true, answer)
    case ArriveOnTime(uid) =>
      s.(events := seq(|s.events|, i requires 0 <= i < |s.events| => Arrived(s.events[i], uid)))
  }

  ghost predicate Run(cfg: Config, s: World, actions: seq<Action>, t: World)
    decreases |actions|
  {
    if actions == [] then s == t
    else Enabled(cfg, s, actions[0]) && Run(cfg, Next(cfg, s, actions[0]), actions[1..], t)
  }

  /** The stored times are those of serving the listed events in order, each as soon as possible. */
  ghost predicate PlannedWorld(s: World) {
    && AllWaiting(s.events) && UidsUnique(s.events)
    && exists order :: Queue(order, BookOf(s.events)) && Current(s, order)
  }

  /** The listed events stay listed, and none of them is planned earlier. */
  predicate NeverEarlier(s: World, t: World) {
    && |s.events| <= |t.events|
    && forall i :: 0 <= i < |s.events| ==>
         && t.events[i].uid == s.events[i].uid
         && s.events[i].start.Some? && t.events[i].start.Some?
         && s.events[i].start.value <= t.events[i].start.value
  }

  lemma AllPlanned(s: World)
    requires PlannedWorld(s)
    ensures NeverEarlier(s, s)
  {
    hide Queue, Waiting;
    var order :| Queue(order, BookOf(s.events)) && Current(s, order);
    forall i | 0 <= i < |s.events|
      ensures s.events[i].start.Some?
    {
      assert PlannedAt(s.events[i], order, BookOf(s.events));
    }
  }

  lemma JoinsUnique(s: World, c: Record)
    requires UidsUnique(s.events) && Joins(s, c)
    ensures UidsUnique(s.events + [c])
  {
    hide Waiting;
  }

  lemma AcceptedSave(cfg: Config, s: World, c: Record, order: seq<nat>, answer: Option<Assignment>)
    requires PlannedWorld(s) && Enabled(cfg, s, Save(c, order, answer)) && answer.Some?
    ensures var t := AfterCall(cfg, s, [c], true, answer); PlannedWorld(t) && NeverEarlier(s, t)
  {
    hide GetVariables, Waiting, Considered, PlanningWindow, Optimal, Compile, Readable, SortedOrder, Arranged, Queue, AfterCall,
         Current, BookValid, BookOf;
    var before :| Queue(before, BookOf(s.events)) && Current(s, before);
    JoinsUnique(s, c);
    assert AllWaiting(s.events + [c]);
    WaitingWindow(cfg, s, c);
    WaitingIsSorted(s.events + [c], order);
    SaveKeepsPlans(cfg, s, before, c, order, answer);
    var t := AfterCall(cfg, s, [c], true, answer);
    forall i | 0 <= i < |s.events|
      ensures t.events[i].uid == s.events[i].uid && s.events[i].start.Some? && t.events[i].start.Some?
      ensures s.events[i].start.value <= t.events[i].start.value
    {
      assert Undisturbed(s.events[i], t.events[i], c);
    }
  }

  lemma RefusedSave(cfg: Config, s: World, c: Record)
    requires PlannedWorld(s) && Joins(s, c) && Readable(Considered(s, [c]))
    ensures AfterCall(cfg, s, [c], true, None).events == s.events
    ensures PlannedWorld(AfterCall(cfg, s, [c], true, None))
  {
    hide GetVariables, Waiting, Considered, PlanningWindow, Readable, Queue, PlannedAt, BookOf;
    NothingToPrune(s.events);
    var order :| Queue(order, BookOf(s.events)) && Current(s, order);
    assert Current(AfterCall(cfg, s, [c], true, None), order);
  }

  lemma ArrivedKeepsJob(e: Record, uid: nat)
    requires Waiting(e) && (e.uid == uid ==> e.state == New)
    ensures var f := Arrived(e, uid); Waiting(f) && SameJob(e, f) && f.start == e.start && f.finish == e.finish
  {
  }

  lemma OnTimeArrival(cfg: Config, s: World, uid: nat)
    requires PlannedWorld(s) && Enabled(cfg, s, ArriveOnTime(uid))
    ensures var t := Next(cfg, s, ArriveOnTime(uid)); PlannedWorld(t) && NeverEarlier(s, t)
  {
    hide GetVariables, Waiting, Queue, Arrived, SameJob, Current, BookOf;
    var t := Next(cfg, s, ArriveOnTime(uid));
    AllPlanned(s);
    forall i | 0 <= i < |s.events|
      ensures SamePlan(s.events[i], t.events[i])
    {
      assert s.events[i] in s.events;
      ArrivedKeepsJob(s.events[i], uid);
      SameJobUid(s.events[i], t.events[i]);
    }
    var order :| Queue(order, BookOf(s.events)) && Current(s, order);
    ArrivalsKeepPlan(s, t, order);
  }

  /** Still waiting for the same job, with the same planned times. */
  predicate SamePlan(e: Record, f: Record) {
    Waiting(f) && SameJob(e, f) && f.uid == e.uid && f.start == e.start && f.finish == e.finish
  }

  lemma ArrivalsKeepPlan(s: World, t: World, order: seq<nat>)
    requires AllWaiting(s.events) && UidsUnique(s.events) && Queue(order, BookOf(s.events)) && Current(s, order)
    requires |t.events| == |s.events|
    requires forall i :: 0 <= i < |s.events| ==> SamePlan(s.events[i], t.events[i])
    requires forall i, j :: 0 <= i < |s.events| && 0 <= j < |s.events| && s.events[i] == s.events[j] ==> t.events[i] == t.events[j]
    ensures PlannedWorld(t)
  {
    hide GetVariables, Waiting, Queue, SameJob, BookOf, PlannedAt;
    forall e, f | e in t.events && f in t.events && e.uid == f.uid
      ensures e == f
    {
      var i :| 0 <= i < |t.events| && t.events[i] == e;
      var j :| 0 <= j < |t.events| && t.events[j] == f;
      assert s.events[i] in s.events && s.events[j] in s.events;
    }
    forall i | 0 <= i < |t.events|
      ensures SavedAs(s.events[i], t.events[i], order, BookOf(s.events))
    {
      PlannedListed(s, order, i);
      SameTimesPlanned(s.events[i], t.events[i], order, BookOf(s.events));
    }
    SavedQueue(s.events, t.events, order);
    assert Current(t, order);
  }

  lemma SameTimesPlanned(e: Record, f: Record, order: seq<nat>, book: Book)
    requires Queue(order, book) && PlannedAt(e, order, book)
    requires f.uid == e.uid && f.start == e.start && f.finish == e.finish
    ensures PlannedAt(f, order, book)
  {
    hide Queue, Earliest;
  }

  lemma ActionKeepsPlans(cfg: Config, s: World, action: Action)
    requires PlannedWorld(s) && Enabled(cfg, s, action)
    ensures PlannedWorld(Next(cfg, s, action)) && NeverEarlier(s, Next(cfg, s, action))
  {
    hide PlannedWorld, AfterCall, Considered, Readable, BookValid, Arranged, Joins;
    match action
    case Save(c, order, answer) =>
      if answer.Some? {
        AcceptedSave(cfg, s, c, order, answer);
      } else {
        RefusedSave(cfg, s, c);
        AllPlanned(s);
      }
    case ArriveOnTime(uid) => OnTimeArrival(cfg, s, uid);
  }

  lemma NeverEarlierTransitive(s: World, m: World, t: World)
    requires NeverEarlier(s, m) && NeverEarlier(m, t)
    ensures NeverEarlier(s, t)
  {
  }

  /**
   * Over any run of saves and arrivals the stored times are those of serving in order, and no event that
   * was listed at any point is ever planned earlier again.
   */
  lemma {:induction false} RunKeepsPlans(cfg: Config, s: World, actions: seq<Action>, t: World)
    requires PlannedWorld(s) && Run(cfg, s, actions, t)
    ensures PlannedWorld(t) && NeverEarlier(s, t)
    decreases |actions|
  {
    hide PlannedWorld, Enabled, Next, NeverEarlier;
    if actions == [] {
      AllPlanned(s);
    } else {
      var next := Next(cfg, s, actions[0]);
      ActionKeepsPlans(cfg, s, actions[0]);
      RunKeepsPlans(cfg, next, actions[1..], t);
      NeverEarlierTransitive(s, next, t);
    }
  }

  /** And everyone is served in turn: by arrival, then duration, then uid. */
  lemma PlannedWorldInTurn(s: World)
    requires PlannedWorld(s)
    ensures ServedInTurn(s.events)
  {
    hide GetVariables, Waiting, Queue, BookOf, PlannedAt, ServedInTurn;
    var order :| Queue(order, BookOf(s.events)) && Current(s, order);
    forall i | 0 <= i < |s.events|
      ensures PlannedAt(s.events[i], order, BookOf(s.events))
      ensures s.events[i].uid in BookOf(s.events) && SameJob(BookOf(s.events)[s.events[i].uid], s.events[i])
    {
      PlannedListed(s, order, i);
      WaitingIsQueued(s.events[i]);
    }
    PlannedInTurn(s.events, order, BookOf(s.events));
  }

  lemma WaitingIsQueued(e: Record)
    requires Waiting(e)
    ensures Queued(e.state)
  {
  }

  /** The empty scheduler is planned, so all this holds of every run from it. */
  lemma EmptyIsPlanned(maxHorizon: int)
    ensures PlannedWorld(World([], maxHorizon))
  {
    assert BookOf([]) == map[];
    var none: seq<nat> := [];
    assert Queue(none, BookOf([]));
    assert Current(World([], maxHorizon), none);
  }
}
