/** Whole runs of the simulation loop: the clock, the order, the cutoff, and the end. */
module KernelRuns {
  import opened Wrappers
  import opened Kernel

  /** One pass: the entry popped, and how its callback reacts if it is run. */
  datatype Turn = Turn(id: nat, reaction: Reaction)

  ghost predicate Run(s: State, limit: Option<real>, turns: seq<Turn>, t: State)
    decreases |turns|
  {
    if turns == [] then s == t
    else !s.ended && Next(s, turns[0].id) && Run(Pass(s, limit, turns[0].id, turns[0].reaction), limit, turns[1..], t)
  }

  /** The state after setup and agents have scheduled and cancelled as they like. */
  function Setup(start: real, ops: seq<Op>): State {
    PerformAll(Initial(start), ops)
  }

  lemma SetupConsistent(start: real, ops: seq<Op>)
    ensures Consistent(Setup(start, ops))
    ensures Setup(start, ops).executed == [] && Setup(start, ops).beyond == {} && Setup(start, ops).time == start
  {
    var s := Initial(start);
    assert s.scheduled == [] && s.queued == {} && s.executed == [] && s.skipped == [] && s.beyond == {};
    assert Partition(s) && Accounted(s);
    PerformAllConsistent(s, ops);
  }

  lemma {:induction false} RunConsistent(s: State, limit: Option<real>, turns: seq<Turn>, t: State)
    requires Consistent(s) && Run(s, limit, turns, t)
    ensures Consistent(t)
    decreases |turns|
  {
    hide Consistent, Next, Pass;
    if turns == [] {
    } else {
      PassConsistent(s, limit, turns[0].id, turns[0].reaction);
      RunConsistent(Pass(s, limit, turns[0].id, turns[0].reaction), limit, turns[1..], t);
    }
  }

  /******* What operations leave alone *******/

  /** `t` only adds entries to what `s` has scheduled, queued and deleted. */
  ghost predicate Grows(s: State, t: State) {
    && |s.scheduled| <= |t.scheduled|
    && (forall i :: 0 <= i < |s.scheduled| ==> t.scheduled[i] == s.scheduled[i])
    && s.queued <= t.queued && s.deleted <= t.deleted
    && (forall id :: id in t.queued && id !in s.queued ==> |s.scheduled| <= id < |t.scheduled|)
    && t.executed == s.executed && t.skipped == s.skipped && t.beyond == s.beyond && t.time == s.time
  }

  lemma {:induction false} OperationsGrow(s: State, ops: seq<Op>)
    ensures Grows(s, PerformAll(s, ops))
  {
    if ops == [] {
    } else {
      OperationsGrow(s, ops[..|ops|-1]);
    }
  }

  /** What one pass leaves alone. */
  lemma PassKeeps(s: State, limit: Option<real>, id: nat, reaction: Reaction)
    requires Next(s, id)
    ensures var t := Pass(s, limit, id, reaction);
            && |s.scheduled| <= |t.scheduled|
            && (forall i :: 0 <= i < |s.scheduled| ==> t.scheduled[i] == s.scheduled[i])
            && (forall j :: j < |s.scheduled| ==> (j in t.queued <==> j in s.queued && j != id))
            && s.deleted <= t.deleted
            && (forall j :: j in t.executed <==> j in s.executed || (j == id && id !in s.deleted && !Past(s.scheduled[id].time, limit)))
  {
    hide Less;
    var run := s.(queued := s.queued - {id}, time := s.scheduled[id].time, executed := s.executed + [id]);
    OperationsGrow(run, reaction.ops);
  }

  /******* Order *******/

  /** Of two entries queued together the smaller is popped first. */
  lemma {:induction false} SmallerGoesFirst(s: State, limit: Option<real>, turns: seq<Turn>, t: State, a: nat, b: nat)
    requires Run(s, limit, turns, t)
    requires a in s.queued && b in s.queued && a < |s.scheduled| && b < |s.scheduled|
    requires Less(s.scheduled[a], s.scheduled[b])
    requires b !in t.queued
    ensures a !in t.queued
    decreases |turns|
  {
    hide Less, Pass;
    if turns == [] {
    } else {
      var next := Pass(s, limit, turns[0].id, turns[0].reaction);
      PassKeeps(s, limit, turns[0].id, turns[0].reaction);
      assert turns[0].id != b;
      if turns[0].id == a {
        NeverRequeued(next, limit, turns[1..], t, a);
      } else {
        SmallerGoesFirst(next, limit, turns[1..], t, a, b);
      }
    }
  }

  lemma {:induction false} NeverRequeued(s: State, limit: Option<real>, turns: seq<Turn>, t: State, a: nat)
    requires Run(s, limit, turns, t) && a < |s.scheduled| && a !in s.queued
    ensures a !in t.queued
    decreases |turns|
  {
    hide Next, Pass;
    if turns == [] {
    } else {
      PassKeeps(s, limit, turns[0].id, turns[0].reaction);
      NeverRequeued(Pass(s, limit, turns[0].id, turns[0].reaction), limit, turns[1..], t, a);
    }
  }

  /** An entry cancelled before it is popped never runs. */
  lemma {:induction false} CancelledNeverRuns(s: State, limit: Option<real>, turns: seq<Turn>, t: State, a: nat)
    requires Run(s, limit, turns, t) && a < |s.scheduled| && a in s.deleted && a !in s.executed
    ensures a !in t.executed
    decreases |turns|
  {
    hide Next, Pass;
    if turns == [] {
    } else {
      PassKeeps(s, limit, turns[0].id, turns[0].reaction);
      CancelledNeverRuns(Pass(s, limit, turns[0].id, turns[0].reaction), limit, turns[1..], t, a);
    }
  }

  /******* The clock *******/

  predicate NoNegativeDelay(ops: seq<Op>) {
    forall i :: 0 <= i < |ops| && ops[i].Schedule? ==> 0.0 <= ops[i].dt
  }

  predicate ForwardTurns(turns: seq<Turn>) {
    forall i :: 0 <= i < |turns| ==> NoNegativeDelay(turns[i].reaction.ops)
  }

  /** Nothing queued lies in the past, and what was executed was executed in time order. */
  ghost predicate Timely(s: State) {
    && (forall id :: id in s.queued && id < |s.scheduled| ==> s.time <= s.scheduled[id].time)
    && (forall id :: id in s.executed ==> id < |s.scheduled| && s.scheduled[id].time <= s.time)
    && (forall i, j :: 0 <= i < j < |s.executed| && s.executed[i] < |s.scheduled| && s.executed[j] < |s.scheduled| ==>
          s.scheduled[s.executed[i]].time <= s.scheduled[s.executed[j]].time)
  }

  lemma {:induction false} OperationsTimely(s: State, ops: seq<Op>)
    requires Timely(s) && NoNegativeDelay(ops)
    ensures Timely(PerformAll(s, ops))
  {
    if ops == [] {
    } else {
      OperationsTimely(s, ops[..|ops|-1]);
      OperationsGrow(s, ops[..|ops|-1]);
      OneTimely(PerformAll(s, ops[..|ops|-1]), ops[|ops|-1]);
    }
  }

  lemma OneTimely(s: State, op: Op)
    requires Timely(s) && (op.Schedule? ==> 0.0 <= op.dt)
    ensures Timely(Perform(s, op))
  {
  }

  /** The state in which the callback of `id` starts. */
  function Started(s: State, id: nat): State
    requires Next(s, id)
  {
    s.(queued := s.queued - {id}, time := s.scheduled[id].time, executed := s.executed + [id])
  }

  lemma StartedTimely(s: State, id: nat)
    requires Timely(s) && Next(s, id)
    ensures Timely(Started(s, id)) && s.time <= Started(s, id).time
  {
    var run := Started(s, id);
    forall j | j in run.queued && j < |s.scheduled|
      ensures run.time <= s.scheduled[j].time
    {
      assert !Less(s.scheduled[j], s.scheduled[id]);
    }
  }

  lemma PassTimely(s: State, limit: Option<real>, id: nat, reaction: Reaction)
    requires Timely(s) && Next(s, id) && NoNegativeDelay(reaction.ops)
    ensures Timely(Pass(s, limit, id, reaction)) && s.time <= Pass(s, limit, id, reaction).time
  {
    hide PerformAll, NoNegativeDelay, Timely, Less;
    StartedTimely(s, id);
    OperationsTimely(Started(s, id), reaction.ops);
    OperationsGrow(Started(s, id), reaction.ops);
    var popped := s.(queued := s.queued - {id});
    FewerTimely(s, popped.(skipped := s.skipped + [id]));
    FewerTimely(s, popped.(beyond := s.beyond + {id}, events := s.events - 1, ended := true));
    var t := PerformAll(Started(s, id), reaction.ops);
    FewerTimely(t, t.(ended := reaction.stop));
  }

  lemma FewerTimely(s: State, t: State)
    requires Timely(s) && t.queued <= s.queued
    requires t.scheduled == s.scheduled && t.executed == s.executed && t.time == s.time
    ensures Timely(t)
  {
  }

  /** With no negative delays the clock never goes back and events run in the order of their times. */
  lemma {:induction false} ClockNeverGoesBack(s: State, limit: Option<real>, turns: seq<Turn>, t: State)
    requires Timely(s) && Run(s, limit, turns, t) && ForwardTurns(turns)
    ensures Timely(t) && s.time <= t.time
    decreases |turns|
  {
    hide Timely, Next, Pass, NoNegativeDelay;
    if turns == [] {
    } else {
      PassTimely(s, limit, turns[0].id, turns[0].reaction);
      assert forall i :: 0 <= i < |turns[1..]| ==> turns[1..][i] == turns[i+1];
      ClockNeverGoesBack(Pass(s, limit, turns[0].id, turns[0].reaction), limit, turns[1..], t);
    }
  }

  /******* The cutoff *******/

  predicate KeepsGoing(turns: seq<Turn>) {
    forall i :: 0 <= i < |turns| ==> !turns[i].reaction.stop
  }

  /** Only events within the limit ran, and once one beyond it came up, only such are left. */
  ghost predicate CutAt(s: State, limit: Option<real>) {
    && (forall id :: id in s.executed && id < |s.scheduled| ==> !Past(s.scheduled[id].time, limit))
    && (forall id :: id in s.beyond && id < |s.scheduled| ==> Past(s.scheduled[id].time, limit))
    && (s.beyond != {} ==> s.ended && forall id :: id in s.queued && id < |s.scheduled| ==> Past(s.scheduled[id].time, limit))
  }

  lemma PassCuts(s: State, limit: Option<real>, id: nat, reaction: Reaction)
    requires Consistent(s) && CutAt(s, limit) && !s.ended && Next(s, id)
    ensures CutAt(Pass(s, limit, id, reaction), limit)
    ensures !reaction.stop && Pass(s, limit, id, reaction).ended ==> Pass(s, limit, id, reaction).beyond != {}
  {
    hide PerformAll, Accounted;
    var run := s.(queued := s.queued - {id}, time := s.scheduled[id].time, executed := s.executed + [id]);
    OperationsGrow(run, reaction.ops);
    if id !in s.deleted && Past(s.scheduled[id].time, limit) {
      assert id in Pass(s, limit, id, reaction).beyond;
      forall j | j in s.queued && j < |s.scheduled|
        ensures Past(s.scheduled[j].time, limit)
      {
        assert !Less(s.scheduled[j], s.scheduled[id]);
      }
    }
  }

  lemma {:induction false} RunCuts(s: State, limit: Option<real>, turns: seq<Turn>, t: State)
    requires Consistent(s) && CutAt(s, limit) && Run(s, limit, turns, t) && KeepsGoing(turns)
    requires s.ended ==> s.beyond != {}
    ensures CutAt(t, limit) && (t.ended ==> t.beyond != {})
    decreases |turns|
  {
    hide Consistent, CutAt, Next, Pass;
    if turns == [] {
    } else {
      PassCuts(s, limit, turns[0].id, turns[0].reaction);
      PassConsistent(s, limit, turns[0].id, turns[0].reaction);
      assert forall i :: 0 <= i < |turns[1..]| ==> turns[1..][i] == turns[i+1];
      RunCuts(Pass(s, limit, turns[0].id, turns[0].reaction), limit, turns[1..], t);
    }
  }

  lemma {:induction false} SetupNotEnded(start: real, ops: seq<Op>)
    ensures !Setup(start, ops).ended
  {
    if ops == [] {
    } else {
      SetupNotEnded(start, ops[..|ops|-1]);
    }
  }

  /** An event was executed, and exactly once, if and only if it was due and not cancelled before its pop. */
  ghost predicate Complete(t: State, limit: Option<real>) {
    && NoRepeats(t.executed)
    && (forall id :: 0 <= id < |t.scheduled| ==>
          (id in t.executed <==> !Past(t.scheduled[id].time, limit) && id !in t.skipped))
    && (forall id :: id in t.skipped ==> id in t.deleted)
  }

  lemma CompleteWhenDone(s: State, limit: Option<real>, turns: seq<Turn>, t: State)
    requires Consistent(s) && CutAt(s, limit) && (s.ended ==> s.beyond != {})
    requires Run(s, limit, turns, t) && KeepsGoing(turns)
    requires t.ended || t.queued == {}
    ensures Complete(t, limit)
  {
    hide Run, Past, Accounted;
    RunConsistent(s, limit, turns, t);
    RunCuts(s, limit, turns, t);
  }

  /**
   * When the loop is over and nobody stopped it, an event ever scheduled was executed, and exactly once,
   * if and only if it was due by the limit and not cancelled before it was popped.
   */
  lemma CompleteAtCutoff(start: real, ops: seq<Op>, limit: Option<real>, turns: seq<Turn>, t: State)
    requires Run(Setup(start, ops), limit, turns, t) && KeepsGoing(turns)
    requires t.ended || t.queued == {}
    ensures Complete(t, limit)
    ensures Reported(t) == |t.executed| + |t.skipped|
  {
    hide Run, Setup, Past, Accounted;
    SetupConsistent(start, ops);
    SetupNotEnded(start, ops);
    RunConsistent(Setup(start, ops), limit, turns, t);
    CompleteWhenDone(Setup(start, ops), limit, turns, t);
    ReportedIsProcessed(t);
  }

  lemma {:induction false} RunGrows(s: State, limit: Option<real>, turns: seq<Turn>, m: State, id: nat, reaction: Reaction)
    requires Run(s, limit, turns, m) && !m.ended && Next(m, id)
    ensures Run(s, limit, turns + [Turn(id, reaction)], Pass(m, limit, id, reaction))
    decreases |turns|
  {
    hide Next, Pass;
    var more := turns + [Turn(id, reaction)];
    if turns == [] {
      assert more[1..] == [];
    } else {
      assert more[1..] == turns[1..] + [Turn(id, reaction)];
      RunGrows(Pass(s, limit, turns[0].id, turns[0].reaction), limit, turns[1..], m, id, reaction);
    }
  }
}
