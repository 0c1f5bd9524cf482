/** The scheduler and an event used together, from the first probe to the departure. */
module Lifetime {
  import opened Wrappers
  import opened Records
  import opened History
  import opened Planning
  import opened OnTime
  import opened Runs
  import opened Events
  import opened Sorting
  import opened Solvers
  import opened CallSteps
  import opened BufferScheduler

  const FREE := Etx(None, None, None)

  function NextState(s: State): State {
    match s
    case New => Arrived
    case Arrived => Started
    case Started => Finished
    case _ => Departed
  }

  /** The event takes its next step at the planned time. */
  method TakeStep(s: Scheduler, e: Event)
    requires s.Valid() && OnTimeWorld(s.Cfg(), s.World())
    requires e in s.events && IsLive(e.View())
    modifies e
    ensures s.Valid() && OnTimeWorld(s.Cfg(), s.World())
    ensures e.state == NextState(old(e.state)) && e.uid == old(e.uid)
    ensures Settled(old(e.View())) && e.View() == Advance(old(e.View()))
  {
    hide OnTimeWorld, DistinctUids, InTime;
    ghost var before := s.World();
    ghost var i :| 0 <= i < |s.events| && s.events[i] == e;
    ListedOnce(Views(s.events), s.events, i);
    AdvancedOnTime(s.Cfg(), before, before, i);
    assert before.events[i] == e.View();
    if e.state == New {
      e.Arrive(e.eta.time.value);
    } else if e.state == Arrived {
      e.Start(e.scheduleStart.value);
    } else if e.state == Started {
      e.Finish(e.scheduleFinish.value);
    } else {
      e.Depart(e.scheduleFinish.value);
    }
    AdvancedOnTime(s.Cfg(), before, s.World(), i);
    assert s.World().events == before.events[i := Advance(before.events[i])];
  }

  lemma MayValidate(s: Scheduler)
    requires s.Valid() && OnTimeWorld(s.Cfg(), s.World())
    ensures s.Ready([])
  {
    hide OnTimeWorld, DistinctUids, Comparable;
    OnTimeIsComparable(s.Cfg(), s.World());
    assert Views(s.events) + Views([]) == Views(s.events);
  }

  /** ... and the scheduler is asked whether it is still valid. It is, and the event stays listed while it is live. */
  method StepAndValidate(s: Scheduler, e: Event, solver: Solver) returns (outcome: Outcome)
    requires s.Valid() && OnTimeWorld(s.Cfg(), s.World())
    requires e in s.events && IsLive(e.View())
    requires SoundSolver(solver) && CompleteSolver(solver)
    modifies s, s.events
    ensures s.Valid() && OnTimeWorld(s.Cfg(), s.World())
    ensures outcome.Planned?
    ensures e.state == NextState(old(e.state))
    ensures e.state != Departed ==> e in s.events
    ensures e.uid == old(e.uid)
    ensures forall d :: d in s.events ==> d in old(s.events)
  {
    hide OnTimeWorld, DistinctUids, AllComparable, SoundSolver, CompleteSolver, Advance, Settled, Called, Sound, AfterCall,
         Considered, Readable, Remaining;
    TakeStep(s, e);
    MayValidate(s);
    assert forall i :: 0 <= i < |s.events| ==> s.events[i] in old(s.events);
    ghost var order, answer;
    outcome, order, answer := s.Validate(solver);
  }

  lemma MayJoin(s: Scheduler, e: Event)
    requires s.Valid() && OnTimeWorld(s.Cfg(), s.World())
    requires Candidate(e.View()) && forall d :: d in s.events ==> d.uid != e.uid
    ensures s.Ready([e])
  {
    hide OnTimeWorld, DistinctUids, Comparable, Candidate;
    assert Views([e]) == [e.View()];
    NewcomerMayJoin(s.Cfg(), s.World(), e.View());
  }

  /** A new event is created, probed, and saved if possible. */
  method Admit(s: Scheduler, duration: int, time: int, solver: Solver) returns (e: Event, accepted: bool)
    requires s.Valid() && OnTimeWorld(s.Cfg(), s.World()) && 0 < duration && SoundSolver(solver)
    modifies s, s.events
    ensures s.Valid() && OnTimeWorld(s.Cfg(), s.World())
    ensures fresh(e) && e.uid == old(s.counter) && e.state == New
    ensures accepted ==> e in s.events
    ensures forall d :: d in s.events ==> d in old(s.events) || d == e
  {
    hide OnTimeWorld, DistinctUids, AllComparable, SoundSolver, CompleteSolver, Candidate, Called, Sound, AfterCall,
         Considered, Served, Readable, Remaining;
    ghost var order, answer;
    var created := s.Create(duration, Etx(Some(time), Some(time), Some(time)), FREE);
    e := created.value;
    NewIsCandidate(e.View());
    MayJoin(s, e);
    var outcome;
    outcome, order, answer := s.CanSchedule(e, solver);
    MayJoin(s, e);
    assert forall i :: 0 <= i < |s.events| ==> s.events[i] in old(s.events);
    outcome, order, answer := s.Save(e, solver);
    accepted := outcome.Planned?;
  }

  /**
   * One event's whole life on an on-time scheduler with other events in any state: it is created, probed,
   * saved if possible, and taken through all its steps. Every validation on the way succeeds.
   */
  method ServeInFull(s: Scheduler, duration: int, time: int, solver: Solver)
    returns (e: Event, accepted: bool, validations: seq<Outcome>)
    requires s.Valid() && OnTimeWorld(s.Cfg(), s.World()) && 0 < duration
    requires SoundSolver(solver) && CompleteSolver(solver)
    modifies s, s.events
    ensures s.Valid() && OnTimeWorld(s.Cfg(), s.World())
    ensures fresh(e) && e.uid == old(s.counter)
    ensures accepted ==> |validations| == 5 && e.state == Departed
    ensures !accepted ==> |validations| == 0 && e.state == New
    ensures forall i :: 0 <= i < |validations| ==> validations[i].Planned?
  {
    hide OnTimeWorld, DistinctUids, AllComparable, SoundSolver, CompleteSolver, Called, Sound, AfterCall, Considered,
         Readable, Remaining;
    e, accepted := Admit(s, duration, time, solver);
    validations := [];
    if accepted {
      MayValidate(s);
      assert forall i :: 0 <= i < |s.events| ==> s.events[i] in old(s.events) || s.events[i] == e;
      ghost var order, answer;
      var outcome;
      outcome, order, answer := s.Validate(solver);
      validations := [outcome];
      for i := 0 to 4
        invariant s.Valid() && OnTimeWorld(s.Cfg(), s.World())
        invariant |validations| == 1 + i && forall k :: 0 <= k < |validations| ==> validations[k].Planned?
        invariant e.state == [New, Arrived, Started, Finished, Departed][i]
        invariant i < 4 ==> e in s.events
        invariant e.uid == old(s.counter)
        invariant forall d :: d in s.events ==> d in old(s.events) || d == e
      {
        assert forall k :: 0 <= k < |s.events| ==> s.events[k] in old(s.events) || s.events[k] == e;
        outcome := StepAndValidate(s, e, solver);
        validations := validations + [outcome];
      }
    }
  }

  lemma NewIsCandidate(e: Record)
    requires e.state == New && !e.canceled && 0 < e.duration && e.etd == FREE
    requires e.eta.time.Some? && e.eta.low == e.eta.time && e.eta.high.Some?
    ensures Candidate(e)
  {
  }
}
