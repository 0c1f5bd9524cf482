/**
 * The event-driven coroutine, interleaved with everybody else at its await points: the loop waits for
 * its lock, inside `main`, or for the event; `run` and `stop` may be called at any of these.
 */
module EventLoop {
  /** Where the loop is suspended. */
  datatype Point = NotCalled | AtLock | InMain | Waiting | Ended

  datatype Owner = Nobody | TheLoop | SomeoneElse

  /**
   * `event` and `stopped` are the event flag and the stop future. The counters tell the history: calls
   * of run, calls of run before the last main began, mains, wake-ups that cleared the event, timeouts
   * (of the wait or of main), and mains that began after a stop.
   */
  datatype State = State(
    at: Point,
    event: bool,
    stopped: bool,
    lock: Owner,
    periodic: bool,
    runs: nat,
    served: nat,
    mains: nat,
    wakes: nat,
    timeouts: nat,
    late: nat)

  datatype Step =
    | RunCalled | StopCalled                       // by anyone
    | LockTaken | LockFreed                        // by code other than the loop
    | LoopCalled | LockGranted                     // the loop goes on
    | MainReturns | MainRaises | MainTimesOut
    | Woken | TimedOut | Cancelled

  /** After `_start`: event cleared, lock free, stop future open. */
  const STARTED := State(NotCalled, false, false, Nobody, true, 0, 0, 0, 0, 0, 0)

  predicate Possible(s: State, step: Step, timed: bool) {
    match step
    case RunCalled => true
    case StopCalled => true
    case LockTaken => s.lock == Nobody
    case LockFreed => s.lock == SomeoneElse
    case LoopCalled => s.at == NotCalled
    case LockGranted => s.at == AtLock && s.lock == Nobody
    case MainReturns => s.at == InMain
    case MainRaises => s.at == InMain
    case MainTimesOut => s.at == InMain
    case Woken => s.at == Waiting && s.event
    case TimedOut => s.at == Waiting && timed
    case Cancelled => s.at == AtLock || s.at == InMain || s.at == Waiting
  }

  /** `stop`: resolves the stop future and sets the event. */
  function Stop(s: State): State {
    s.(stopped := true, event := true)
  }

  /** Leaves the loop by break or by its condition; the loop stops itself. */
  function Leave(s: State): State {
    Stop(s).(at := Ended, lock := if s.lock == TheLoop then Nobody else s.lock)
  }

  function BeginMain(s: State): State {
    s.(at := InMain, lock := TheLoop, served := s.runs, mains := s.mains + 1, late := s.late + if s.stopped then 1 else 0)
  }

  /** From the loop's condition to its next await. */
  function Around(s: State): State {
    if s.stopped then Leave(s)
    else if s.lock == Nobody then BeginMain(s)
    else s.(at := AtLock)
  }

  function Freed(s: State): State {
    s.(lock := Nobody)
  }

  function Do(s: State, step: Step): State {
    match step
    case RunCalled => s.(event := true, runs := s.runs + 1)
    case StopCalled => Stop(s)
    case LockTaken => s.(lock := SomeoneElse)
    case LockFreed => s.(lock := Nobody)
    case LoopCalled => Around(s.(periodic := true))
    case LockGranted => BeginMain(s)
    case MainReturns => Freed(s).(at := Waiting)
    case MainRaises => Leave(s)
    case MainTimesOut => Around(Freed(s).(periodic := true, timeouts := s.timeouts + 1))
    case Woken => Around(s.(event := false, periodic := false, wakes := s.wakes + 1))
    case TimedOut => Around(s.(periodic := true, timeouts := s.timeouts + 1))
    case Cancelled => Leave(s)
  }

  ghost predicate Run(s: State, steps: seq<Step>, timed: bool, t: State)
    decreases |steps|
  {
    if steps == [] then s == t
    else Possible(s, steps[0], timed) && Run(Do(s, steps[0]), steps[1..], timed, t)
  }

  /******* The coroutine object *******/

  class EventCoroutine {
    var event: bool
    var stopFuture: bool
    var lock: Owner
    var at: Point
    var periodic: bool
    ghost var runs: nat
    ghost var served: nat
    ghost var mains: nat
    ghost var wakes: nat
    ghost var timeouts: nat
    ghost var late: nat

    ghost function View(): State
      reads this
    {
      State(at, event, stopFuture, lock, periodic, runs, served, mains, wakes, timeouts, late)
    }

    constructor ()
      ensures View() == STARTED
    {
      event, stopFuture, lock, at, periodic := false, false, Nobody, NotCalled, true;
      runs, served, mains, wakes, timeouts, late := 0, 0, 0, 0, 0, 0;
    }

    method Run()
      modifies this
      ensures View() == Do(old(View()), RunCalled)
      ensures event && stopFuture == old(stopFuture) && lock == old(lock) && at == old(at) && periodic == old(periodic)
    {
      event := true;
      runs := runs + 1;
    }

    method Stop()
      modifies this
      ensures View() == Do(old(View()), StopCalled)
      ensures stopFuture && event && lock == old(lock) && at == old(at) && periodic == old(periodic)
    {
      if !stopFuture {
        stopFuture := true;
      }
      event := true;
    }

    /** The loop's condition, then the lock, then main. */
    method GoRound()
      requires lock != TheLoop
      modifies this
      ensures View() == Around(old(View()))
    {
      if stopFuture {
        Break();
      } else if lock == Nobody {
        Enter();
      } else {
        at := AtLock;
      }
    }

    method Enter()
      modifies this
      ensures View() == BeginMain(old(View()))
    {
      lock, at := TheLoop, InMain;
      served, mains, late := runs, mains + 1, late + if stopFuture then 1 else 0;
    }

    method Break()
      modifies this
      ensures View() == Leave(old(View()))
    {
      if lock == TheLoop {
        lock := Nobody;
      }
      at := Ended;
      Stop();
    }

    /** `loop`, up to its first await. */
    method Loop()
      requires at == NotCalled && lock != TheLoop
      modifies this
      ensures View() == Do(old(View()), LoopCalled)
    {
      periodic := true;
      GoRound();
    }

    /** The loop resumes from its await with this outcome and runs to the next one. */
    method Resume(outcome: Step, timed: bool)
      requires Placed(View()) && Possible(View(), outcome, timed)
      requires outcome in {LockGranted, MainReturns, MainRaises, MainTimesOut, Woken, TimedOut, Cancelled}
      modifies this
      ensures View() == Do(old(View()), outcome)
    {
      if outcome == LockGranted {
        Enter();
        return;
      }
      if at == InMain {
        lock := Nobody;
      }
      if outcome == MainReturns {
        at := Waiting;
      } else if outcome == TimedOut || outcome == MainTimesOut {
        periodic := true;
        timeouts := timeouts + 1;
        GoRound();
      } else if outcome == Woken {
        event := false;
        periodic := false;
        wakes := wakes + 1;
        GoRound();
      } else {
        Break();
      }
    }
  }

  /******* Invariant *******/

  /** A run that no main has served yet is remembered by the event, or by a loop on its way to main. */
  predicate Remembered(s: State) {
    s.served < s.runs ==> s.event || s.at == AtLock
  }

  /** Each wake-up used up a run of its own; mains come from the start, wake-ups and timeouts only. */
  predicate Accounted(s: State) {
    && s.served <= s.runs
    && (!s.stopped ==> s.wakes + (if s.event then 1 else 0) <= s.runs)
    && (s.at != Ended ==> s.wakes <= s.runs)
    && s.mains + (if s.at == AtLock then 1 else 0) <=
         (if s.at == NotCalled then 0 else 1) + (if s.wakes <= s.runs then s.wakes else s.runs) + s.timeouts
  }

  predicate Placed(s: State) {
    && (s.at == InMain <==> s.lock == TheLoop)
    && (s.at == Ended ==> s.stopped)
    && s.late <= 1 && (0 < s.late ==> s.stopped)
    && (s.at == NotCalled || s.at == AtLock ==> s.late == 0)
  }

  predicate Invariant(s: State) {
    Remembered(s) && Accounted(s) && Placed(s)
  }

  lemma StepKeepsInvariant(s: State, step: Step, timed: bool)
    requires Invariant(s) && Possible(s, step, timed)
    ensures Invariant(Do(s, step))
  {
    StepPlaced(s, step, timed);
    StepRemembered(s, step, timed);
    StepAccounted(s, step, timed);
    hide Do, Possible, Remembered, Accounted, Placed;
  }

  lemma StepPlaced(s: State, step: Step, timed: bool)
    requires Placed(s) && Possible(s, step, timed)
    ensures Placed(Do(s, step))
  {
  }

  lemma StepRemembered(s: State, step: Step, timed: bool)
    requires Remembered(s) && Placed(s) && Possible(s, step, timed)
    ensures Remembered(Do(s, step))
  {
  }

  lemma StepAccounted(s: State, step: Step, timed: bool)
    requires Accounted(s) && Placed(s) && Possible(s, step, timed)
    ensures Accounted(Do(s, step))
  {
  }

  lemma {:induction false} RunKeepsInvariant(s: State, steps: seq<Step>, timed: bool, t: State)
    requires Invariant(s) && Run(s, steps, timed, t)
    ensures Invariant(t)
    decreases |steps|
  {
    hide Invariant, Do, Possible;
    if steps == [] {
    } else {
      StepKeepsInvariant(s, steps[0], timed);
      RunKeepsInvariant(Do(s, steps[0]), steps[1..], timed, t);
    }
  }

  /******* No lost wake-up *******/

  lemma {:induction false} OnlyMainsServe(s: State, steps: seq<Step>, timed: bool, t: State)
    requires Run(s, steps, timed, t)
    ensures s.mains <= t.mains && s.runs <= t.runs
    ensures t.mains == s.mains ==> t.served == s.served
    decreases |steps|
  {
    if steps == [] {
    } else {
      OneServes(s, steps[0]);
      OnlyMainsServe(Do(s, steps[0]), steps[1..], timed, t);
    }
  }

  lemma OneServes(s: State, step: Step)
    ensures var t := Do(s, step);
            && s.mains <= t.mains && s.runs <= t.runs
            && (t.mains == s.mains ==> t.served == s.served)
  {
  }

  /**
   * No wake-up is lost: if some run has not been served by a main at `s`, then by the time the loop
   * waits with the event cleared another main has begun. Until then the wait is ready to end.
   */
  lemma NoLostWakeUp(first: seq<Step>, s: State, steps: seq<Step>, timed: bool, t: State)
    requires Run(STARTED, first, timed, s) && Run(s, steps, timed, t)
    requires s.served < s.runs && t.at == Waiting
    ensures !t.event ==> s.mains < t.mains && t.served == t.runs
    ensures t.served < t.runs ==> Possible(t, Woken, timed)
  {
    hide Run;
    RunKeepsInvariant(STARTED, first, timed, s);
    RunKeepsInvariant(s, steps, timed, t);
    OnlyMainsServe(s, steps, timed, t);
  }

  /** Runs coalesce and none is answered twice: at most one main per run, besides the first and the timeouts. */
  lemma MainsAreCaused(steps: seq<Step>, timed: bool, t: State)
    requires Run(STARTED, steps, timed, t)
    ensures t.mains <= 1 + t.runs + t.timeouts
  {
    hide Run;
    RunKeepsInvariant(STARTED, steps, timed, t);
  }

  lemma {:induction false} TimeoutsCounted(s: State, steps: seq<Step>, t: State)
    requires Run(s, steps, false, t) && MainTimesOut !in steps
    ensures t.timeouts == s.timeouts
    decreases |steps|
  {
    if steps == [] {
    } else {
      assert steps[0] in steps;
      TimeoutsCounted(Do(s, steps[0]), steps[1..], t);
    }
  }

  /** Without an interval there is at most one main per run besides the first, unless a main itself times out. */
  lemma MainsWithoutInterval(steps: seq<Step>, t: State)
    requires Run(STARTED, steps, false, t) && MainTimesOut !in steps
    ensures t.mains <= 1 + t.runs
  {
    hide Run;
    TimeoutsCounted(STARTED, steps, t);
    MainsAreCaused(steps, false, t);
  }

  /******* Mains and stop *******/

  lemma {:induction false} StoppedStays(s: State, steps: seq<Step>, timed: bool, t: State)
    requires Invariant(s) && Run(s, steps, timed, t) && s.stopped && s.at != AtLock
    ensures t.stopped && t.at != AtLock && t.mains == s.mains && t.late == s.late
    decreases |steps|
  {
    hide Invariant, Do, Possible;
    if steps == [] {
    } else {
      StepKeepsInvariant(s, steps[0], timed);
      StoppedStep(s, steps[0], timed);
      StoppedStays(Do(s, steps[0]), steps[1..], timed, t);
    }
  }

  lemma StoppedStep(s: State, step: Step, timed: bool)
    requires Invariant(s) && Possible(s, step, timed) && s.stopped && s.at != AtLock
    ensures var t := Do(s, step); t.stopped && t.at != AtLock && t.mains == s.mains && t.late == s.late
  {
    hide Remembered, Accounted;
  }

  /**
   * After stop no main begins, unless stop came while the loop was waiting for its lock; then at most
   * one more does.
   */
  lemma {:induction false} MainsAfterStop(s: State, steps: seq<Step>, timed: bool, t: State)
    requires Invariant(s) && Run(s, steps, timed, t) && s.stopped
    ensures s.at != AtLock ==> t.mains == s.mains
    ensures t.mains <= s.mains + 1
    decreases |steps|
  {
    hide Invariant, Possible;
    if s.at != AtLock {
      StoppedStays(s, steps, timed, t);
    } else if steps != [] {
      StepKeepsInvariant(s, steps[0], timed);
      MainsAfterStop(Do(s, steps[0]), steps[1..], timed, t);
      MainsAtLock(s, steps[0]);
    }
  }

  lemma MainsAtLock(s: State, step: Step)
    requires s.at == AtLock && s.stopped
    ensures Do(s, step).stopped
    ensures Do(s, step).at == AtLock ==> Do(s, step).mains == s.mains
    ensures Do(s, step).mains <= s.mains + 1
  {
  }

  /** A stopped coroutine can still begin a main exactly when it is waiting for its lock. */
  lemma LateMainIff(s: State, timed: bool)
    requires Invariant(s) && s.stopped
    ensures (exists steps, t :: Run(s, steps, timed, t) && s.mains < t.mains) <==> s.at == AtLock
  {
    if steps, t :| Run(s, steps, timed, t) && s.mains < t.mains {
      MainsAfterStop(s, steps, timed, t);
    }
    if s.at == AtLock {
      if s.lock == Nobody {
        OneStep(s, LockGranted, timed);
      } else {
        var freed := Do(s, LockFreed);
        OneStep(freed, LockGranted, timed);
        var steps := [LockFreed, LockGranted];
        assert steps[1..] == [LockGranted];
        assert Run(s, steps, timed, Do(freed, LockGranted));
      }
    }
  }

  lemma OneStep(s: State, step: Step, timed: bool)
    requires Possible(s, step, timed)
    ensures Run(s, [step], timed, Do(s, step))
  {
    assert [step][1..] == [];
  }

  /** Where the loop stands when nobody else has taken its lock: it never had to wait for it. */
  predicate Alone(s: State) {
    s.lock != SomeoneElse && s.at != AtLock && s.late == 0 && Placed(s)
  }

  lemma StepAlone(s: State, step: Step, timed: bool)
    requires Alone(s) && Possible(s, step, timed) && step != LockTaken
    ensures Alone(Do(s, step))
  {
  }

  lemma {:induction false} RunAlone(s: State, steps: seq<Step>, timed: bool, t: State)
    requires Alone(s) && Run(s, steps, timed, t) && LockTaken !in steps
    ensures Alone(t)
    decreases |steps|
  {
    hide Alone, Do, Possible;
    if steps == [] {
    } else {
      assert steps[0] in steps;
      StepAlone(s, steps[0], timed);
      RunAlone(Do(s, steps[0]), steps[1..], timed, t);
    }
  }

  /** As long as only the loop takes its lock, no main ever begins after stop. */
  lemma NoMainAfterStop(steps: seq<Step>, timed: bool, t: State)
    requires Run(STARTED, steps, timed, t) && LockTaken !in steps
    ensures t.late == 0
  {
    hide Run;
    RunAlone(STARTED, steps, timed, t);
  }

  /** With someone else taking it one can: the lock is held as the loop comes round, and stop is called. */
  lemma LateMainHappens()
    ensures exists steps, t :: Run(STARTED, steps, false, t) && t.late == 1
  {
    var a := Do(STARTED, LockTaken);
    var b := Do(a, LoopCalled);
    var c := Do(b, StopCalled);
    var d := Do(c, LockFreed);
    var e := Do(d, LockGranted);
    OneStep(d, LockGranted, false);
    Prepend(c, LockFreed, [LockGranted], e);
    Prepend(b, StopCalled, [LockFreed, LockGranted], e);
    Prepend(a, LoopCalled, [StopCalled, LockFreed, LockGranted], e);
    Prepend(STARTED, LockTaken, [LoopCalled, StopCalled, LockFreed, LockGranted], e);
    assert e.late == 1;
  }

  lemma Prepend(s: State, step: Step, steps: seq<Step>, t: State)
    requires Possible(s, step, false) && Run(Do(s, step), steps, false, t)
    ensures Run(s, [step] + steps, false, t)
  {
    assert ([step] + steps)[1..] == steps;
  }

  /******* The end of the loop *******/

  /** A stop leaves the event set, so that nothing waits for it. */
  predicate StopSignalled(s: State) {
    s.stopped ==> s.event
  }

  lemma {:induction false} RunSignals(s: State, steps: seq<Step>, timed: bool, t: State)
    requires Run(s, steps, timed, t) && StopSignalled(s)
    ensures StopSignalled(t)
    ensures s.stopped || StopCalled in steps ==> t.stopped
    decreases |steps|
  {
    hide Possible;
    if steps == [] {
    } else {
      RunSignals(Do(s, steps[0]), steps[1..], timed, t);
      assert StopCalled in steps ==> steps[0] == StopCalled || StopCalled in steps[1..];
    }
  }

  /** Stopping ends a loop that waits: it can wake up at once, and then it is over. */
  lemma StopEndsWaiting(steps: seq<Step>, timed: bool, t: State)
    requires Run(STARTED, steps, timed, t) && StopCalled in steps && t.at == Waiting
    ensures Possible(t, Woken, timed) && Do(t, Woken).at == Ended
  {
    hide Run;
    RunSignals(STARTED, steps, timed, t);
  }

  /** The loop is over once main has raised or the task was cancelled, and stays so. */
  lemma {:induction false} EndedStays(s: State, steps: seq<Step>, timed: bool, t: State)
    requires Run(s, steps, timed, t) && s.at == Ended
    ensures t.at == Ended
    decreases |steps|
  {
    if steps == [] {
    } else {
      EndedStays(Do(s, steps[0]), steps[1..], timed, t);
    }
  }

  /** What ends the loop of its own, besides a stop. */
  predicate Breaks(steps: seq<Step>) {
    MainRaises in steps || Cancelled in steps
  }

  lemma {:induction false} BreaksEnd(s: State, steps: seq<Step>, timed: bool, t: State)
    requires Run(s, steps, timed, t) && Breaks(steps)
    ensures t.at == Ended
    decreases |steps|
  {
    hide Possible;
    if steps[0] == MainRaises || steps[0] == Cancelled {
      EndedStays(Do(s, steps[0]), steps[1..], timed, t);
    } else {
      BreaksEnd(Do(s, steps[0]), steps[1..], timed, t);
    }
  }

  /** Nothing else does: until a stop the loop is at its lock, in main, or waiting. */
  predicate GoingOn(s: State) {
    !s.stopped && s.at != Ended
  }

  lemma {:induction false} OnlyBreaksEnd(s: State, steps: seq<Step>, timed: bool, t: State)
    requires Run(s, steps, timed, t) && GoingOn(s) && !Breaks(steps) && StopCalled !in steps
    ensures GoingOn(t)
    decreases |steps|
  {
    if steps == [] {
    } else {
      assert steps[0] in steps;
      OnlyBreaksEnd(Do(s, steps[0]), steps[1..], timed, t);
    }
  }

  /**
   * Without a stop the loop ends exactly when main raises or the task is cancelled; a stop lets it finish
   * what it is doing and ends it at its next turn.
   */
  lemma LoopEndsIff(steps: seq<Step>, timed: bool, t: State)
    requires Run(STARTED, steps, timed, t)
    ensures Breaks(steps) ==> t.at == Ended
    ensures StopCalled !in steps && t.at == Ended ==> Breaks(steps)
    ensures t.at == Ended ==> t.stopped && t.event
  {
    hide Run;
    RunKeepsInvariant(STARTED, steps, timed, t);
    RunSignals(STARTED, steps, timed, t);
    if Breaks(steps) {
      BreaksEnd(STARTED, steps, timed, t);
    } else if StopCalled !in steps {
      OnlyBreaksEnd(STARTED, steps, timed, t);
    }
  }

  /******* What main is told *******/

  predicate Turns(step: Step) {
    step == LoopCalled || step == MainTimesOut || step == TimedOut || step == Woken
  }

  /** The last step that sent the loop around. */
  function LastTurn(steps: seq<Step>): Step {
    if steps == [] then LoopCalled
    else if Turns(steps[|steps|-1]) then steps[|steps|-1]
    else LastTurn(steps[..|steps|-1])
  }

  lemma {:induction false} RunEnds(s: State, steps: seq<Step>, timed: bool, t: State) returns (m: State)
    requires Run(s, steps, timed, t) && steps != []
    ensures Run(s, steps[..|steps|-1], timed, m)
    ensures Possible(m, steps[|steps|-1], timed) && t == Do(m, steps[|steps|-1])
    decreases |steps|
  {
    if |steps| == 1 {
      m := s;
      assert steps[1..] == [];
    } else {
      m := RunEnds(Do(s, steps[0]), steps[1..], timed, t);
      assert steps[1..][..|steps|-2] == steps[..|steps|-1][1..];
    }
  }

  /** Main is told that it is periodic unless it was a wake-up that sent the loop around. */
  lemma {:induction false} PeriodicIff(steps: seq<Step>, timed: bool, t: State)
    requires Run(STARTED, steps, timed, t)
    ensures t.at != Ended ==> (t.periodic <==> LastTurn(steps) != Woken)
    decreases |steps|
  {
    if steps == [] {
    } else {
      var m := RunEnds(STARTED, steps, timed, t);
      PeriodicIff(steps[..|steps|-1], timed, m);
    }
  }
}
