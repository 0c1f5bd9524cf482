/**
 * The simulation loop in terms of what callbacks ask for and what is executed: cancellation, the order of
 * service, delays, the clock, and stopping.
 */
module KernelLaws {
  import opened Wrappers
  import opened Kernel
  import opened KernelRuns
  import opened KernelBound

  /******* What operations do *******/

  lemma {:induction false} ScheduledCount(s: State, ops: seq<Op>)
    ensures |PerformAll(s, ops).scheduled| == |s.scheduled| + Scheduled(ops)
  {
    if ops == [] {
    } else {
      ScheduledCount(s, ops[..|ops|-1]);
    }
  }

  /** An entry is due a delay after the time at which it was asked for, with that delay and priority. */
  lemma {:induction false} ScheduledFromNow(s: State, ops: seq<Op>, i: nat)
    requires i < |ops| && ops[i].Schedule?
    ensures var t, id := PerformAll(s, ops), |s.scheduled| + Scheduled(ops[..i]);
            && id < |t.scheduled| && id in t.queued
            && t.scheduled[id] == Entry(id, s.time + ops[i].dt, ops[i].dt, ops[i].priority)
  {
    var init := ops[..|ops|-1];
    ScheduledCount(s, init);
    ScheduledCount(s, ops);
    OperationsGrow(s, init);
    if i == |ops| - 1 {
    } else {
      assert init[..i] == ops[..i];
      ScheduledFromNow(s, init, i);
    }
  }

  /** Some operation cancels entry `a`, which was scheduled before it. */
  ghost predicate Issues(s: State, ops: seq<Op>, a: nat) {
    exists i :: 0 <= i < |ops| && ops[i] == Cancel(a) && a < |s.scheduled| + Scheduled(ops[..i])
  }

  lemma {:induction false} IssuesIff(s: State, ops: seq<Op>, a: nat)
    ensures a in PerformAll(s, ops).deleted <==> a in s.deleted || Issues(s, ops, a)
  {
    if ops == [] {
    } else {
      var init := ops[..|ops|-1];
      ScheduledCount(s, init);
      IssuesIff(s, init, a);
      if i :| 0 <= i < |init| && init[i] == Cancel(a) && a < |s.scheduled| + Scheduled(init[..i]) {
        assert ops[..i] == init[..i] && ops[i] == Cancel(a);
      }
      if i :| 0 <= i < |ops| && ops[i] == Cancel(a) && a < |s.scheduled| + Scheduled(ops[..i]) {
        if i < |init| {
          assert init[..i] == ops[..i] && init[i] == Cancel(a);
        }
      }
      if a in PerformAll(s, ops).deleted && a !in PerformAll(s, init).deleted {
        assert ops[|init|] == Cancel(a) && ops[..|init|] == init;
      }
    }
  }

  /******* Parts of a run *******/

  lemma {:induction false} RunSplits(s: State, limit: Option<real>, turns: seq<Turn>, t: State, j: nat, m: State)
    requires Run(s, limit, turns, t) && j <= |turns| && Run(s, limit, turns[..j], m)
    ensures Run(m, limit, turns[j..], t)
    decreases |turns|
  {
    hide Next, Pass;
    if j == 0 {
      assert turns[0..] == turns;
    } else {
      assert turns[..j][0] == turns[0] && turns[..j][1..] == turns[1..][..j-1] && turns[1..][j-1..] == turns[j..];
      RunSplits(Pass(s, limit, turns[0].id, turns[0].reaction), limit, turns[1..], t, j - 1, m);
    }
  }

  lemma {:induction false} ExecutedStays(s: State, limit: Option<real>, turns: seq<Turn>, t: State, a: nat)
    requires Run(s, limit, turns, t) && a in s.executed
    ensures a in t.executed
    decreases |turns|
  {
    hide Next, Pass;
    if turns == [] {
    } else {
      PassKeeps(s, limit, turns[0].id, turns[0].reaction);
      ExecutedStays(Pass(s, limit, turns[0].id, turns[0].reaction), limit, turns[1..], t, a);
    }
  }

  /** The state in which the callbacks of an executed entry have done their work. */
  lemma ExecutedTurn(s: State, limit: Option<real>, turns: seq<Turn>, t: State)
    requires Consistent(s) && Run(s, limit, turns, t) && turns != [] && turns[0].id in t.executed
    ensures var id, ops := turns[0].id, turns[0].reaction.ops;
            && id !in s.deleted && !Past(s.scheduled[id].time, limit) && id !in s.executed
            && Pass(s, limit, id, turns[0].reaction) ==
               PerformAll(Started(s, id), ops).(ended := turns[0].reaction.stop)
  {
    hide Accounted, PerformAll, Less;
    var id := turns[0].id;
    var next := Pass(s, limit, id, turns[0].reaction);
    if id in s.deleted {
      CancelledNeverRuns(next, limit, turns[1..], t, id);
    }
  }

  /******* Cancelling *******/

  /** Turn `j`, which was executed, cancels `a` while `a` is scheduled and not yet executed. */
  ghost predicate CancelledAt(s: State, limit: Option<real>, turns: seq<Turn>, t: State, a: nat, j: nat, m: State) {
    && j < |turns| && Run(s, limit, turns[..j], m)
    && turns[j].id in t.executed
    && a != turns[j].id && a !in m.executed
    && Issues(m, turns[j].reaction.ops, a)
  }

  ghost predicate CancelledIn(s: State, limit: Option<real>, turns: seq<Turn>, t: State, a: nat) {
    exists j, m :: CancelledAt(s, limit, turns, t, a, j, m)
  }

  /** What an executed callback cancels in time is never executed. */
  lemma CancelPreventsExecution(s: State, limit: Option<real>, turns: seq<Turn>, t: State, a: nat)
    requires Consistent(s) && Run(s, limit, turns, t) && CancelledIn(s, limit, turns, t, a)
    ensures a !in t.executed
  {
    hide Accounted, Run, Partition, Next, Issues;
    var j: nat, m :| CancelledAt(s, limit, turns, t, a, j, m);
    RunSplits(s, limit, turns, t, j, m);
    RunConsistent(s, limit, turns[..j], m);
    CancelByFirstTurn(m, limit, turns[j..], t, a);
  }

  lemma CancelByFirstTurn(s: State, limit: Option<real>, turns: seq<Turn>, t: State, a: nat)
    requires Consistent(s) && Run(s, limit, turns, t) && turns != [] && turns[0].id in t.executed
    requires a != turns[0].id && a !in s.executed && Issues(s, turns[0].reaction.ops, a)
    ensures a !in t.executed
  {
    hide Consistent, PerformAll, Issues;
    var id, ops := turns[0].id, turns[0].reaction.ops;
    ExecutedTurn(s, limit, turns, t);
    var begun := Started(s, id);
    StartedIssues(s, begun, ops, a);
    IssuesIff(begun, ops, a);
    ScheduledCount(begun, ops);
    OperationsGrow(begun, ops);
    IssuedIsScheduled(begun, ops, a);
    CancelledNeverRuns(Pass(s, limit, id, turns[0].reaction), limit, turns[1..], t, a);
  }

  lemma StartedIssues(s: State, begun: State, ops: seq<Op>, a: nat)
    requires begun.scheduled == s.scheduled
    ensures Issues(begun, ops, a) <==> Issues(s, ops, a)
  {
  }

  lemma IssuedIsScheduled(s: State, ops: seq<Op>, a: nat)
    requires Issues(s, ops, a)
    ensures a < |s.scheduled| + Scheduled(ops)
  {
    var i :| 0 <= i < |ops| && ops[i] == Cancel(a) && a < |s.scheduled| + Scheduled(ops[..i]);
    ScheduledGrows(ops, i);
  }

  lemma {:induction false} ScheduledGrows(ops: seq<Op>, i: nat)
    requires i <= |ops|
    ensures Scheduled(ops[..i]) <= Scheduled(ops)
  {
    if i == |ops| {
      assert ops[..i] == ops;
    } else {
      assert ops[..|ops|-1][..i] == ops[..i];
      ScheduledGrows(ops[..|ops|-1], i);
    }
  }

  /** And only what was cancelled ends up cancelled. */
  lemma {:induction false} OnlyCancelled(s: State, limit: Option<real>, turns: seq<Turn>, t: State, a: nat)
    requires Consistent(s) && Run(s, limit, turns, t)
    requires a in t.deleted && a !in s.deleted && a !in t.executed
    ensures CancelledIn(s, limit, turns, t, a)
    decreases |turns|
  {
    hide Consistent, Issues, Next;
    assert turns != [];
    var id, reaction := turns[0].id, turns[0].reaction;
    var next := Pass(s, limit, id, reaction);
    if a in next.deleted {
      DeletedByPass(s, limit, turns, t, a);
      assert Run(s, limit, turns[..0], s);
      assert CancelledAt(s, limit, turns, t, a, 0, s);
    } else {
      PassConsistent(s, limit, id, reaction);
      OnlyCancelled(next, limit, turns[1..], t, a);
      var j: nat, m :| CancelledAt(next, limit, turns[1..], t, a, j, m);
      assert turns[..j+1][0] == turns[0] && turns[..j+1][1..] == turns[1..][..j];
      assert CancelledAt(s, limit, turns, t, a, j + 1, m);
    }
  }

  lemma DeletedByPass(s: State, limit: Option<real>, turns: seq<Turn>, t: State, a: nat)
    requires Consistent(s) && Run(s, limit, turns, t) && turns != []
    requires a !in s.deleted && a in Pass(s, limit, turns[0].id, turns[0].reaction).deleted && a !in t.executed
    ensures turns[0].id in t.executed && a != turns[0].id && a !in s.executed && Issues(s, turns[0].reaction.ops, a)
  {
    hide Consistent, PerformAll, Issues;
    var id, reaction := turns[0].id, turns[0].reaction;
    var next := Pass(s, limit, id, reaction);
    PassKeeps(s, limit, id, reaction);
    assert id !in s.deleted && !Past(s.scheduled[id].time, limit);
    ExecutedStays(next, limit, turns[1..], t, id);
    if a in s.executed {
      ExecutedStays(s, limit, turns, t, a);
    }
    StartedIssues(s, Started(s, id), reaction.ops, a);
    IssuesIff(Started(s, id), reaction.ops, a);
  }

  /******* The whole run *******/

  /** An entry that may run: at or before the limit, if there is one. */
  predicate Due(e: Entry, limit: Option<real>) {
    limit.None? || e.time <= limit.value
  }

  /**
   * Executed, and exactly once, is what was due and was not cancelled before its turn: neither before the
   * loop nor by an executed callback.
   */
  ghost predicate ExecutedAsAsked(s: State, limit: Option<real>, turns: seq<Turn>, t: State) {
    && (forall i, j :: 0 <= i < j < |t.executed| ==> t.executed[i] != t.executed[j])
    && forall a: nat :: a < |t.scheduled| ==>
         (a in t.executed <==> Due(t.scheduled[a], limit) && !Withdrawn(s, limit, turns, t, a))
  }

  ghost predicate Withdrawn(s: State, limit: Option<real>, turns: seq<Turn>, t: State, a: nat) {
    (a in s.deleted && a !in s.executed) || CancelledIn(s, limit, turns, t, a)
  }

  lemma RunsAsAsked(s: State, limit: Option<real>, turns: seq<Turn>, t: State)
    requires Consistent(s) && CutAt(s, limit) && !s.ended
    requires Run(s, limit, turns, t) && KeepsGoing(turns)
    requires t.ended || t.queued == {}
    ensures ExecutedAsAsked(s, limit, turns, t)
  {
    hide Consistent, CutAt, Run, CancelledIn;
    NotBeyond(s, limit);
    CompleteWhenDone(s, limit, turns, t);
    forall a: nat | a < |t.scheduled|
      ensures a in t.executed <==> Due(t.scheduled[a], limit) && !Withdrawn(s, limit, turns, t, a)
    {
      if Withdrawn(s, limit, turns, t, a) {
        WithdrawnNeverRuns(s, limit, turns, t, a);
      } else if a !in t.executed && Due(t.scheduled[a], limit) {
        assert a in t.deleted;
        NotExecutedWasWithdrawn(s, limit, turns, t, a);
      }
    }
  }

  lemma NotBeyond(s: State, limit: Option<real>)
    requires CutAt(s, limit) && !s.ended
    ensures s.beyond == {}
  {
  }

  lemma WithdrawnNeverRuns(s: State, limit: Option<real>, turns: seq<Turn>, t: State, a: nat)
    requires Consistent(s) && Run(s, limit, turns, t) && Withdrawn(s, limit, turns, t, a) && a < |t.scheduled|
    ensures a !in t.executed
  {
    hide Accounted, Run, CancelledIn, Next;
    if CancelledIn(s, limit, turns, t, a) {
      CancelPreventsExecution(s, limit, turns, t, a);
    } else if a < |s.scheduled| {
      CancelledNeverRuns(s, limit, turns, t, a);
    } else {
      DeletedLater(s, limit, turns, t, a);
    }
  }

  lemma {:induction false} DeletedLater(s: State, limit: Option<real>, turns: seq<Turn>, t: State, a: nat)
    requires Consistent(s) && Run(s, limit, turns, t) && a in s.deleted && a !in s.executed
    ensures a !in t.executed
    decreases |turns|
  {
    hide Consistent, Next, Pass;
    if turns == [] {
    } else {
      PassConsistent(s, limit, turns[0].id, turns[0].reaction);
      PassKeeps(s, limit, turns[0].id, turns[0].reaction);
      DeletedLater(Pass(s, limit, turns[0].id, turns[0].reaction), limit, turns[1..], t, a);
    }
  }

  lemma NotExecutedWasWithdrawn(s: State, limit: Option<real>, turns: seq<Turn>, t: State, a: nat)
    requires Consistent(s) && Run(s, limit, turns, t) && a in t.deleted && a !in t.executed
    ensures Withdrawn(s, limit, turns, t, a)
  {
    hide Consistent, Run, CancelledIn;
    if a in s.deleted {
      if a in s.executed {
        ExecutedStays(s, limit, turns, t, a);
      }
    } else {
      OnlyCancelled(s, limit, turns, t, a);
    }
  }

  /**
   * Completeness at the cutoff, from the setup on: an entry is executed exactly if it is due by the limit
   * and neither the setup nor an executed callback cancelled it before its turn.
   */
  lemma CompleteByOperations(start: real, ops: seq<Op>, limit: Option<real>, turns: seq<Turn>, t: State, a: nat)
    requires Run(Setup(start, ops), limit, turns, t) && KeepsGoing(turns)
    requires t.ended || t.queued == {}
    requires a < |t.scheduled|
    ensures a in t.executed <==>
            && (limit.None? || t.scheduled[a].time <= limit.value)
            && !Issues(Initial(start), ops, a)
            && !CancelledIn(Setup(start, ops), limit, turns, t, a)
  {
    hide Consistent, Run, Issues, CancelledIn, PerformAll;
    SetupConsistent(start, ops);
    SetupNotEnded(start, ops);
    OperationsGrow(Initial(start), ops);
    IssuesIff(Initial(start), ops, a);
    RunsAsAsked(Setup(start, ops), limit, turns, t);
  }

  /******* Order, clock and stop *******/

  /** Of two entries queued together the one that is due earlier, then more urgent, then longer asked for, goes first. */
  lemma EarlierGoesFirst(s: State, limit: Option<real>, turns: seq<Turn>, t: State, a: nat, b: nat)
    requires Run(s, limit, turns, t)
    requires a in s.queued && b in s.queued && a < |s.scheduled| && b < |s.scheduled|
    requires var x, y := s.scheduled[a], s.scheduled[b];
             || x.time < y.time
             || (x.time == y.time && x.priority < y.priority)
             || (x.time == y.time && x.priority == y.priority && y.dt < x.dt)
    requires b !in t.queued
    ensures a !in t.queued
  {
    hide Run;
    SmallerGoesFirst(s, limit, turns, t, a, b);
  }

  /** The clock stands at the time of the last executed entry: skipped ones and the one beyond the limit leave it alone. */
  lemma {:induction false} ClockIsLastExecuted(s: State, limit: Option<real>, turns: seq<Turn>, t: State)
    requires Consistent(s) && Run(s, limit, turns, t)
    ensures |s.executed| <= |t.executed|
    ensures |t.executed| == |s.executed| ==> t.time == s.time
    ensures |t.executed| > |s.executed| ==>
              var last := t.executed[|t.executed|-1]; last < |t.scheduled| && t.time == t.scheduled[last].time
    decreases |turns|
  {
    hide Consistent, PerformAll;
    if turns == [] {
    } else {
      var id, reaction := turns[0].id, turns[0].reaction;
      var next := Pass(s, limit, id, reaction);
      PassConsistent(s, limit, id, reaction);
      OperationsGrow(Started(s, id), reaction.ops);
      ClockIsLastExecuted(next, limit, turns[1..], t);
      EntriesStay(next, limit, turns[1..], t);
      LastStays(next, limit, turns[1..], t);
    }
  }

  lemma {:induction false} EntriesStay(s: State, limit: Option<real>, turns: seq<Turn>, t: State)
    requires Run(s, limit, turns, t)
    ensures |s.scheduled| <= |t.scheduled| && forall i :: 0 <= i < |s.scheduled| ==> t.scheduled[i] == s.scheduled[i]
    decreases |turns|
  {
    hide Next, Pass;
    if turns == [] {
    } else {
      PassKeeps(s, limit, turns[0].id, turns[0].reaction);
      EntriesStay(Pass(s, limit, turns[0].id, turns[0].reaction), limit, turns[1..], t);
    }
  }

  lemma {:induction false} LastStays(s: State, limit: Option<real>, turns: seq<Turn>, t: State)
    requires Run(s, limit, turns, t)
    ensures s.executed <= t.executed
    decreases |turns|
  {
    hide PerformAll;
    if turns == [] {
    } else {
      OperationsGrow(Started(s, turns[0].id), turns[0].reaction.ops);
      LastStays(Pass(s, limit, turns[0].id, turns[0].reaction), limit, turns[1..], t);
    }
  }

  /** A callback that stops the simulation is the last to be executed. */
  lemma StopIsLast(s: State, limit: Option<real>, turns: seq<Turn>, t: State, j: nat, m: State)
    requires Consistent(s) && Run(s, limit, turns, t)
    requires j < |turns| && Run(s, limit, turns[..j], m) && turns[j].id in t.executed && turns[j].reaction.stop
    ensures j == |turns| - 1 && t.ended
  {
    hide Accounted, Partition, Next;
    RunSplits(s, limit, turns, t, j, m);
    RunConsistent(s, limit, turns[..j], m);
    ExecutedTurn(m, limit, turns[j..], t);
    assert turns[j..][1..] == [];
  }
}
