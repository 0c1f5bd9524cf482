/**
 * The coroutine manager and the life cycle of its coroutines, interleaved at their await points:
 * setups, starts, loops, and the shutdown that the first ended coroutine sets off.
 */
module Manager {
  /** How a setup or start task stands. */
  datatype Task = Absent | Running | Succeeded | Raised | RaisedSystemError | TaskCancelled

  /** `Coroutine.__call__` as a task: before its loop, in it, in the stop after a cancel, or over. */
  datatype Call = NotCreated | AwaitingStart | InLoop | InStop | Over

  /** `looped` and `stops` record whether the loop was ever begun and how often `__call__` called stop. */
  datatype Coro = Coro(start: Task, call: Call, cancelSent: bool, looped: bool, stops: nat)

  /** `main`: before its first wait returned, given up there, in its second wait, cancelling, returned. */
  datatype Phase = SettingUp | GivenUp | Serving | ShuttingDown | Returned

  /** There may be one setup more than coroutines, the parent's. */
  datatype State = State(phase: Phase, setups: seq<Task>, coros: seq<Coro>, stopFuture: bool)

  datatype Step =
    | SetupEnds(i: nat, result: Task)
    | SetupsReturn                       // main goes on after waiting for the setups
    | StartEnds(i: nat, result: Task)
    | CallResumes(i: nat)                // the awaited start has ended
    | CallCancelled(i: nat)              // the cancel is delivered before the loop began
    | LoopEnds(i: nat)                   // by returning or raising, a cancel it handled itself included
    | LoopCancelled(i: nat)              // the cancel comes out of the loop
    | StopEnds(i: nat)
    | StopRequested                      // at any time, during the setups too
    | FirstReturns                       // main goes on after waiting for the first to end
    | MainReturns

  predicate Finished(t: Task) {
    t != Absent && t != Running
  }

  const FRESH := Coro(Absent, NotCreated, false, false, 0)

  function Initial(n: nat, parent: bool): State {
    State(SettingUp, seq(if parent then n + 1 else n, _ => Running), seq(n, _ => FRESH), false)
  }

  predicate AllFinished(tasks: seq<Task>) {
    forall i :: 0 <= i < |tasks| ==> Finished(tasks[i])
  }

  predicate HasRaised(t: Task) {
    t == Raised || t == RaisedSystemError
  }

  predicate SomeRaised(tasks: seq<Task>) {
    exists i :: 0 <= i < |tasks| && HasRaised(tasks[i])
  }

  predicate SomeOver(coros: seq<Coro>) {
    exists i :: 0 <= i < |coros| && coros[i].call == Over
  }

  predicate Possible(s: State, step: Step) {
    match step
    case SetupEnds(i, result) => i < |s.setups| && s.setups[i] == Running && Finished(result)
    case SetupsReturn => s.phase == SettingUp && s.setups != [] && (AllFinished(s.setups) || SomeRaised(s.setups))
    case StartEnds(i, result) => i < |s.coros| && s.coros[i].start == Running && Finished(result)
    case CallResumes(i) => i < |s.coros| && s.coros[i].call == AwaitingStart && Finished(s.coros[i].start)
    case CallCancelled(i) => i < |s.coros| && s.coros[i].call == AwaitingStart && s.coros[i].cancelSent
    case LoopEnds(i) => i < |s.coros| && s.coros[i].call == InLoop
    case LoopCancelled(i) => i < |s.coros| && s.coros[i].call == InLoop && s.coros[i].cancelSent
    case StopEnds(i) => i < |s.coros| && s.coros[i].call == InStop
    case StopRequested => true
    case FirstReturns => s.phase == Serving && (SomeOver(s.coros) || s.stopFuture)
    case MainReturns => s.phase == ShuttingDown
  }

  function Begun(c: Coro): Coro {
    c.(start := Running, call := AwaitingStart)
  }

  /** While a setup is pending nothing is started; otherwise starts and calls are created. */
  function AfterSetups(s: State): State {
    if AllFinished(s.setups) then
      s.(phase := Serving, coros := seq(|s.coros|, i requires 0 <= i < |s.coros| => Begun(s.coros[i])))
    else
      s.(phase := GivenUp)
  }

  function SendCancel(c: Coro): Coro {
    if c.call == Over then c else c.(cancelSent := true)
  }

  /** The stop future is resolved, and every call that is not over is sent a cancel. */
  function AfterFirst(s: State): State {
    s.(phase := ShuttingDown, stopFuture := true,
       coros := seq(|s.coros|, i requires 0 <= i < |s.coros| => SendCancel(s.coros[i])))
  }

  /** What a step of its own does to one coroutine. */
  function Move(c: Coro, step: Step): Coro {
    match step
    case StartEnds(_, result) => c.(start := result)
    case CallResumes(_) =>
      if c.start == Succeeded then c.(call := InLoop, looped := true) else c.(call := Over)
    case LoopCancelled(_) => c.(call := InStop, stops := c.stops + 1)
    case _ => c.(call := Over)
  }

  function Do(s: State, step: Step): State
    requires Possible(s, step)
  {
    match step
    case SetupEnds(i, result) => s.(setups := s.setups[i := result])
    case SetupsReturn => AfterSetups(s)
    case StopRequested => s.(stopFuture := true)
    case FirstReturns => AfterFirst(s)
    case MainReturns => s.(phase := Returned)
    case StartEnds(i, _) => s.(coros := s.coros[i := Move(s.coros[i], step)])
    case CallResumes(i) => s.(coros := s.coros[i := Move(s.coros[i], step)])
    case CallCancelled(i) => s.(coros := s.coros[i := Move(s.coros[i], step)])
    case LoopEnds(i) => s.(coros := s.coros[i := Move(s.coros[i], step)])
    case LoopCancelled(i) => s.(coros := s.coros[i := Move(s.coros[i], step)])
    case StopEnds(i) => s.(coros := s.coros[i := Move(s.coros[i], step)])
  }

  ghost predicate Run(s: State, steps: seq<Step>, t: State)
    decreases |steps|
  {
    if steps == [] then s == t
    else Possible(s, steps[0]) && Run(Do(s, steps[0]), steps[1..], t)
  }

  /******* The manager object *******/

  class Manager {
    var phase: Phase
    var setups: seq<Task>
    var coros: array<Coro>
    var stopFuture: bool

    function View(): State
      reads this, coros
    {
      State(phase, setups, coros[..], stopFuture)
    }

    constructor (n: nat, parent: bool)
      ensures View() == Initial(n, parent) && fresh(coros)
    {
      phase, stopFuture := SettingUp, false;
      setups := seq(if parent then n + 1 else n, _ => Running);
      coros := new Coro[n](_ => FRESH);
    }

    /** `stop`: resolves the stop future once. */
    method Stop()
      modifies this`stopFuture
      ensures stopFuture
    {
      if !stopFuture {
        stopFuture := true;
      }
    }

    /** `main` after its first wait: gives up while a setup is pending, else creates starts and calls. */
    method OnSetups()
      requires Possible(View(), SetupsReturn)
      modifies this`phase, coros
      ensures View() == Do(old(View()), SetupsReturn)
    {
      var pending := false;
      for i := 0 to |setups|
        invariant pending <==> exists k :: 0 <= k < i && !Finished(setups[k])
      {
        if !Finished(setups[i]) {
          pending := true;
        }
      }
      if pending {
        phase := GivenUp;
        return;
      }
      for i := 0 to coros.Length
        invariant forall k :: 0 <= k < i ==> coros[k] == old(coros[k]).(start := Running)
        invariant forall k :: i <= k < coros.Length ==> coros[k] == old(coros[k])
      {
        coros[i] := coros[i].(start := Running);
      }
      for i := 0 to coros.Length
        invariant forall k :: 0 <= k < i ==> coros[k] == Begun(old(coros[k]))
        invariant forall k :: i <= k < coros.Length ==> coros[k] == old(coros[k]).(start := Running)
      {
        coros[i] := coros[i].(call := AwaitingStart);
      }
      phase := Serving;
      assert AllFinished(setups);
    }

    /** `main` after its second wait: stops, then sends a cancel to every call that is not over. */
    method OnFirst()
      requires Possible(View(), FirstReturns)
      modifies this`phase, this`stopFuture, coros
      ensures View() == Do(old(View()), FirstReturns)
    {
      Stop();
      for i := 0 to coros.Length
        invariant stopFuture
        invariant forall k :: 0 <= k < i ==> coros[k] == SendCancel(old(coros[k]))
        invariant forall k :: i <= k < coros.Length ==> coros[k] == old(coros[k])
      {
        if coros[i].call != Over {
          coros[i] := coros[i].(cancelSent := true);
        }
      }
      phase := ShuttingDown;
      assert coros[..] == AfterFirst(old(View())).coros;
    }
  }

  /******* Invariant *******/

  predicate Before(p: Phase) {
    p == SettingUp || p == GivenUp
  }

  predicate After(p: Phase) {
    p == ShuttingDown || p == Returned
  }

  /** One coroutine's part: no step of its life cycle comes before the one it depends on. */
  predicate InTurn(c: Coro, p: Phase) {
    && (Before(p) ==> c == FRESH)
    && (!Before(p) ==> c.start != Absent && c.call != NotCreated)
    && (c.looped ==> c.start == Succeeded)
    && (c.call == Over && !c.cancelSent ==> Finished(c.start))
    && (c.call == InLoop || c.call == InStop ==> c.looped)
    && (c.call == AwaitingStart ==> !c.looped)
    && (After(p) ==> c.call == Over || c.cancelSent)
    && (c.stops == 0 || (c.stops == 1 && c.looped && c.cancelSent && (c.call == InStop || c.call == Over)))
  }

  ghost predicate Invariant(s: State) {
    && (forall i :: 0 <= i < |s.coros| ==> InTurn(s.coros[i], s.phase))
    && (!Before(s.phase) ==> AllFinished(s.setups))
    && (After(s.phase) ==> s.stopFuture)
  }

  lemma InitialInvariant(n: nat, parent: bool)
    ensures Invariant(Initial(n, parent))
  {
  }

  lemma MoveKeepsTurn(s: State, step: Step, i: nat)
    requires Possible(s, step) && i < |s.coros| && InTurn(s.coros[i], s.phase)
    requires step.StartEnds? || step.CallResumes? || step.CallCancelled? || step.LoopEnds? || step.LoopCancelled? || step.StopEnds?
    requires step.i == i
    ensures InTurn(Move(s.coros[i], step), s.phase)
  {
  }

  lemma StepKeepsInvariant(s: State, step: Step)
    requires Invariant(s) && Possible(s, step)
    ensures Invariant(Do(s, step))
  {
    hide Move, InTurn;
    match step
    case SetupsReturn => SetupsKeepInvariant(s);
    case FirstReturns => FirstKeepsInvariant(s);
    case MainReturns => LaterKeepsInvariant(s, step);
    case SetupEnds(_, _) =>
    case StopRequested =>
    case StartEnds(i, _) => MoveKeepsTurn(s, step, i);
    case CallResumes(i) => MoveKeepsTurn(s, step, i);
    case CallCancelled(i) => MoveKeepsTurn(s, step, i);
    case LoopEnds(i) => MoveKeepsTurn(s, step, i);
    case LoopCancelled(i) => MoveKeepsTurn(s, step, i);
    case StopEnds(i) => MoveKeepsTurn(s, step, i);
  }

  lemma SetupsKeepInvariant(s: State)
    requires Invariant(s) && s.phase == SettingUp
    ensures Invariant(AfterSetups(s))
  {
    forall i | 0 <= i < |s.coros|
      ensures InTurn(s.coros[i], GivenUp) && InTurn(Begun(s.coros[i]), Serving)
    {
      assert InTurn(s.coros[i], s.phase);
    }
  }

  lemma FirstKeepsInvariant(s: State)
    requires Invariant(s) && s.phase == Serving
    ensures Invariant(AfterFirst(s))
  {
    forall i | 0 <= i < |s.coros|
      ensures InTurn(SendCancel(s.coros[i]), ShuttingDown)
    {
      assert InTurn(s.coros[i], s.phase);
    }
  }

  lemma LaterKeepsInvariant(s: State, step: Step)
    requires Invariant(s) && step == MainReturns && Possible(s, step)
    ensures Invariant(Do(s, step))
  {
  }

  lemma {:induction false} RunKeepsInvariant(s: State, steps: seq<Step>, t: State)
    requires Invariant(s) && Run(s, steps, t)
    ensures Invariant(t)
    decreases |steps|
  {
    hide Invariant, Do, Possible;
    if steps == [] {
    } else {
      StepKeepsInvariant(s, steps[0]);
      RunKeepsInvariant(Do(s, steps[0]), steps[1..], t);
    }
  }

  /******* The protocol *******/

  /**
   * Over every interleaving of `n` coroutines: a start task exists only after all setups have ended;
   * a loop was begun only if its own start succeeded, and no call ends before its start has unless it is
   * cancelled; once main shuts down every call is over or was sent a cancel; and `__call__` itself calls
   * stop at most once, after a cancel came out of its loop.
   */
  lemma LifeCycle(n: nat, parent: bool, steps: seq<Step>, t: State, i: nat)
    requires Run(Initial(n, parent), steps, t) && i < |t.coros|
    ensures t.coros[i].start != Absent ==> AllFinished(t.setups)
    ensures t.coros[i].looped ==> t.coros[i].start == Succeeded
    ensures t.coros[i].call == Over && !t.coros[i].cancelSent ==> Finished(t.coros[i].start)
    ensures After(t.phase) ==> t.coros[i].call == Over || t.coros[i].cancelSent
    ensures t.coros[i].stops <= 1
    ensures t.coros[i].stops == 1 ==> t.coros[i].looped && t.coros[i].cancelSent
  {
    hide Run;
    InitialInvariant(n, parent);
    RunKeepsInvariant(Initial(n, parent), steps, t);
    assert InTurn(t.coros[i], t.phase);
  }

  /******* Shutting down *******/

  /** Main shuts down only when a coroutine is over or a stop was asked for, and cancels only then. */
  ghost predicate ShutDownCaused(s: State, asked: bool) {
    && (After(s.phase) ==> asked || SomeOver(s.coros))
    && (s.stopFuture ==> asked || After(s.phase))
    && (forall i :: 0 <= i < |s.coros| && s.coros[i].cancelSent ==> After(s.phase))
  }

  lemma OverStays(s: State, step: Step)
    requires Possible(s, step) && SomeOver(s.coros) && Invariant(s)
    ensures SomeOver(Do(s, step).coros)
  {
    var i :| 0 <= i < |s.coros| && s.coros[i].call == Over;
    assert InTurn(s.coros[i], s.phase);
    assert Do(s, step).coros[i].call == Over;
  }

  lemma StepCaused(s: State, step: Step, asked: bool)
    requires Possible(s, step) && ShutDownCaused(s, asked) && Invariant(s)
    ensures ShutDownCaused(Do(s, step), asked || step == StopRequested)
  {
    hide Invariant, InTurn;
    if SomeOver(s.coros) {
      OverStays(s, step);
    }
  }

  lemma {:induction false} RunCaused(s: State, steps: seq<Step>, t: State, asked: bool)
    requires Run(s, steps, t) && ShutDownCaused(s, asked) && Invariant(s)
    ensures ShutDownCaused(t, asked || StopRequested in steps)
    decreases |steps|
  {
    hide Invariant, Do, Possible, ShutDownCaused;
    if steps == [] {
    } else {
      StepCaused(s, steps[0], asked);
      StepKeepsInvariant(s, steps[0]);
      assert StopRequested in steps <==> steps[0] == StopRequested || StopRequested in steps[1..];
      RunCaused(Do(s, steps[0]), steps[1..], t, asked || steps[0] == StopRequested);
    }
  }

  /** A coroutine is sent a cancel only after one was over or a stop was asked for. */
  lemma CancelsAreCaused(n: nat, parent: bool, steps: seq<Step>, t: State, i: nat)
    requires Run(Initial(n, parent), steps, t) && i < |t.coros| && t.coros[i].cancelSent
    ensures SomeOver(t.coros) || StopRequested in steps
  {
    hide Run;
    InitialInvariant(n, parent);
    RunCaused(Initial(n, parent), steps, t, false);
  }

  /** Main stands where its wait for the first to end can return, or has cancelled every call that is not over. */
  ghost predicate Ending(s: State) {
    && !Before(s.phase)
    && (s.phase == Serving ==> Possible(s, FirstReturns))
    && (After(s.phase) ==> forall i :: 0 <= i < |s.coros| ==> s.coros[i].call == Over || s.coros[i].cancelSent)
  }

  lemma {:induction false} OverStaysOver(s: State, steps: seq<Step>, t: State)
    requires Run(s, steps, t) && SomeOver(s.coros) && Invariant(s)
    ensures SomeOver(t.coros) && Invariant(t)
    decreases |steps|
  {
    hide Invariant, Do, Possible, SomeOver;
    if steps == [] {
    } else {
      OverStays(s, steps[0]);
      StepKeepsInvariant(s, steps[0]);
      OverStaysOver(Do(s, steps[0]), steps[1..], t);
    }
  }

  /**
   * The first end cancels the rest: however the run goes on once a coroutine is over, main either can go
   * on to shut down at any time or has done so, and then every other call is over or was sent a cancel.
   */
  lemma FirstEndCancelsRest(n: nat, parent: bool, first: seq<Step>, s: State, steps: seq<Step>, t: State)
    requires Run(Initial(n, parent), first, s) && SomeOver(s.coros)
    requires Run(s, steps, t)
    ensures Ending(t)
  {
    hide Run;
    InitialInvariant(n, parent);
    RunKeepsInvariant(Initial(n, parent), first, s);
    OverStaysOver(s, steps, t);
    var i :| 0 <= i < |t.coros| && t.coros[i].call == Over;
    assert InTurn(t.coros[i], t.phase);
    assert forall j :: 0 <= j < |t.coros| ==> InTurn(t.coros[j], t.phase);
  }

  lemma {:induction false} StopIsKept(s: State, steps: seq<Step>, t: State)
    requires Run(s, steps, t)
    ensures s.stopFuture || StopRequested in steps ==> t.stopFuture
    decreases |steps|
  {
    hide Possible;
    if steps == [] {
    } else {
      StopIsKept(Do(s, steps[0]), steps[1..], t);
      assert StopRequested in steps ==> steps[0] == StopRequested || StopRequested in steps[1..];
    }
  }

  /** A stop that was asked for, at any time, lets main shut down as soon as it serves. */
  lemma StopEndsMain(n: nat, parent: bool, steps: seq<Step>, t: State)
    requires Run(Initial(n, parent), steps, t) && StopRequested in steps
    ensures t.phase == Serving ==> Possible(t, FirstReturns)
  {
    hide Run;
    StopIsKept(Initial(n, parent), steps, t);
  }

  /******* Each call's own end *******/

  lemma {:induction false} CallIsOver(s: State, steps: seq<Step>, t: State, i: nat)
    requires Run(s, steps, t) && Invariant(s) && i < |s.coros| && s.coros[i].call == Over
    ensures i < |t.coros| && t.coros[i].call == Over && t.coros[i].stops == s.coros[i].stops
    ensures t.coros[i].looped == s.coros[i].looped
    decreases |steps|
  {
    hide Invariant, Do, Possible;
    if steps == [] {
    } else {
      StepAfterEnd(s, steps[0], i);
      StepKeepsInvariant(s, steps[0]);
      CallIsOver(Do(s, steps[0]), steps[1..], t, i);
    }
  }

  lemma StepAfterEnd(s: State, step: Step, i: nat)
    requires Possible(s, step) && Invariant(s) && i < |s.coros| && s.coros[i].call == Over
    ensures var t := Do(s, step);
            && |t.coros| == |s.coros| && t.coros[i].call == Over
            && t.coros[i].stops == s.coros[i].stops && t.coros[i].looped == s.coros[i].looped
  {
    assert InTurn(s.coros[i], s.phase);
  }

  /** A call ends when its loop does, when a cancel reaches it before its loop, and when its stop is done. */
  predicate Ends(step: Step, i: nat) {
    step == LoopEnds(i) || step == CallCancelled(i) || step == StopEnds(i)
  }

  lemma {:induction false} EndsAreFinal(s: State, steps: seq<Step>, t: State, i: nat, k: nat)
    requires Run(s, steps, t) && Invariant(s) && k < |steps| && Ends(steps[k], i)
    ensures i < |t.coros| && t.coros[i].call == Over
    decreases |steps|
  {
    hide Invariant;
    StepKeepsInvariant(s, steps[0]);
    if k == 0 {
      CallIsOver(Do(s, steps[0]), steps[1..], t, i);
    } else {
      EndsAreFinal(Do(s, steps[0]), steps[1..], t, i, k - 1);
    }
  }

  lemma StopsCount(s: State, step: Step, i: nat)
    requires Possible(s, step) && i < |s.coros|
    ensures |Do(s, step).coros| == |s.coros|
    ensures Do(s, step).coros[i].stops == s.coros[i].stops + if step == LoopCancelled(i) then 1 else 0
    ensures Do(s, step).coros[i].looped <==> s.coros[i].looped || (step == CallResumes(i) && s.coros[i].start == Succeeded)
  {
  }

  lemma {:induction false} StopsCounted(s: State, steps: seq<Step>, t: State, i: nat)
    requires Run(s, steps, t) && i < |s.coros|
    ensures i < |t.coros| && s.coros[i].stops <= t.coros[i].stops
    ensures t.coros[i].stops > s.coros[i].stops <==> LoopCancelled(i) in steps
    decreases |steps|
  {
    hide Do, Possible;
    if steps == [] {
    } else {
      StopsCount(s, steps[0], i);
      StopsCounted(Do(s, steps[0]), steps[1..], t, i);
      assert LoopCancelled(i) in steps <==> steps[0] == LoopCancelled(i) || LoopCancelled(i) in steps[1..];
    }
  }

  /** `__call__` invokes stop, and then once, exactly when a cancel comes out of its loop. */
  lemma StopsIffCancelled(n: nat, parent: bool, steps: seq<Step>, t: State, i: nat)
    requires Run(Initial(n, parent), steps, t) && i < n
    ensures i < |t.coros| && (t.coros[i].stops == 1 <==> LoopCancelled(i) in steps)
    ensures LoopCancelled(i) !in steps ==> t.coros[i].stops == 0
  {
    hide Run;
    StopsCounted(Initial(n, parent), steps, t, i);
    LifeCycle(n, parent, steps, t, i);
  }

  /******* Setups that raise *******/

  /** What a setup that raised leaves: main gave up with a raised and a pending setup. */
  ghost predicate GaveUp(s: State) {
    s.phase == GivenUp ==> SomeRaised(s.setups) && 2 <= |s.setups|
  }

  lemma StepGaveUp(s: State, step: Step)
    requires GaveUp(s) && Possible(s, step)
    ensures GaveUp(Do(s, step)) && |Do(s, step).setups| == |s.setups|
  {
    match step
    case SetupsReturn =>
      if !AllFinished(s.setups) {
        var i :| 0 <= i < |s.setups| && HasRaised(s.setups[i]);
        var j :| 0 <= j < |s.setups| && !Finished(s.setups[j]);
        assert i != j;
      }
    case SetupEnds(i, result) =>
      if SomeRaised(s.setups) {
        var k :| 0 <= k < |s.setups| && HasRaised(s.setups[k]);
        assert HasRaised(s.setups[i := result][k]);
      }
    case _ =>
  }

  lemma {:induction false} RunGaveUp(s: State, steps: seq<Step>, t: State)
    requires GaveUp(s) && Run(s, steps, t)
    ensures GaveUp(t) && |t.setups| == |s.setups|
    decreases |steps|
  {
    hide GaveUp, Do, Possible;
    if steps == [] {
    } else {
      StepGaveUp(s, steps[0]);
      RunGaveUp(Do(s, steps[0]), steps[1..], t);
    }
  }

  /**
   * Over every run the setups decide once and for all: main gives up only if one raised, and then nothing
   * is ever started; it goes on only if all have ended, raised or not, and then everything is started.
   */
  lemma SetupsDecide(n: nat, parent: bool, steps: seq<Step>, t: State, i: nat)
    requires Run(Initial(n, parent), steps, t) && i < |t.coros|
    ensures t.phase == GivenUp ==> SomeRaised(t.setups) && t.coros[i] == FRESH
    ensures !Before(t.phase) ==> AllFinished(t.setups) && t.coros[i].start != Absent && t.coros[i].call != NotCreated
  {
    hide Run;
    InitialInvariant(n, parent);
    RunKeepsInvariant(Initial(n, parent), steps, t);
    RunGaveUp(Initial(n, parent), steps, t);
    assert InTurn(t.coros[i], t.phase);
  }

  /** A raised setup can keep the coroutines from starting exactly when there is another setup beside it. */
  lemma GivesUpIffTwoSetups(n: nat, parent: bool)
    ensures (exists steps, t :: Run(Initial(n, parent), steps, t) && t.phase == GivenUp) <==>
            2 <= if parent then n + 1 else n
  {
    var a := Initial(n, parent);
    if steps, t :| Run(a, steps, t) && t.phase == GivenUp {
      RunGaveUp(a, steps, t);
    }
    if 2 <= |a.setups| {
      var b := Do(a, SetupEnds(0, Raised));
      assert HasRaised(b.setups[0]) && !Finished(b.setups[1]);
      var c := Do(b, SetupsReturn);
      Prepend(b, SetupsReturn, [], c);
      Prepend(a, SetupEnds(0, Raised), [SetupsReturn], c);
    }
  }

  /** The first `k` setups have raised, nothing else has happened. */
  function Raising(n: nat, parent: bool, k: nat): State {
    Initial(n, parent).(setups := seq(if parent then n + 1 else n, i => if i < k then Raised else Running))
  }

  lemma {:induction false} AllCanRaise(n: nat, parent: bool, k: nat, steps: seq<Step>, t: State)
    requires k <= |Initial(n, parent).setups| && Run(Raising(n, parent, k), steps, t)
    ensures exists longer :: Run(Initial(n, parent), longer, t)
    decreases k
  {
    if k == 0 {
      assert Raising(n, parent, 0).setups == Initial(n, parent).setups;
    } else {
      var before := Raising(n, parent, k - 1);
      assert Do(before, SetupEnds(k - 1, Raised)).setups == Raising(n, parent, k).setups;
      Prepend(before, SetupEnds(k - 1, Raised), steps, t);
      AllCanRaise(n, parent, k - 1, [SetupEnds(k - 1, Raised)] + steps, t);
    }
  }

  ghost predicate AllBegun(coros: seq<Coro>) {
    forall i :: 0 <= i < |coros| ==> coros[i].start == Running && coros[i].call == AwaitingStart
  }

  /** However many setups there are, all of them may raise and every coroutine is started all the same. */
  lemma StartsAfterRaisedSetups(n: nat, parent: bool)
    requires 0 < n
    ensures exists steps, t :: Run(Initial(n, parent), steps, t) && |t.coros| == n && AllBegun(t.coros) &&
              t.setups != [] && forall i :: 0 <= i < |t.setups| ==> HasRaised(t.setups[i])
  {
    var count := if parent then n + 1 else n;
    var b := Raising(n, parent, count);
    assert b.setups[0] == Raised && AllFinished(b.setups);
    var c := Do(b, SetupsReturn);
    Prepend(b, SetupsReturn, [], c);
    AllCanRaise(n, parent, count, [SetupsReturn], c);
    assert AllBegun(c.coros);
    assert forall i :: 0 <= i < |c.setups| ==> HasRaised(c.setups[i]);
  }

  /** And then the loop of such a coroutine can begin. */
  lemma FailedSetupStillLoops()
    ensures exists steps, t :: Run(Initial(1, false), steps, t) && |t.setups| == |t.coros| == 1 &&
              HasRaised(t.setups[0]) && t.coros[0].looped
  {
    var a := Initial(1, false);
    var b := Do(a, SetupEnds(0, Raised));
    assert b.setups[0] == Raised;
    var c := Do(b, SetupsReturn);
    var d := Do(c, StartEnds(0, Succeeded));
    var e := Do(d, CallResumes(0));
    Prepend(d, CallResumes(0), [], e);
    Prepend(c, StartEnds(0, Succeeded), [CallResumes(0)], e);
    Prepend(b, SetupsReturn, [StartEnds(0, Succeeded), CallResumes(0)], e);
    Prepend(a, SetupEnds(0, Raised), [SetupsReturn, StartEnds(0, Succeeded), CallResumes(0)], e);
    assert HasRaised(e.setups[0]) && e.coros[0].looped;
  }

  lemma Prepend(s: State, step: Step, steps: seq<Step>, t: State)
    requires Possible(s, step) && Run(Do(s, step), steps, t)
    ensures Run(s, [step] + steps, t)
  {
    assert ([step] + steps)[1..] == steps;
  }
}
