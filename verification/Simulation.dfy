/** The simulation object: its queue, clock and event count, and the loop that runs it. */
module Simulation {
  import opened Wrappers
  import opened Kernel
  import opened KernelRuns
  import opened KernelBound
  import opened KernelLaws
  import opened Heap

  /** How callbacks react: to the entry that is run, given everything executed before. */
  type Behaviour = (nat, seq<nat>) -> Reaction

  function Views(s: seq<QueueEntry>): (r: seq<Entry>)
    ensures |r| == |s|
  {
    seq(|s|, i requires 0 <= i < |s| => s[i].View())
  }

  function Ids(s: seq<QueueEntry>): set<nat> {
    set e | e in s :: e.id
  }

  function Flags(s: seq<QueueEntry>): (r: seq<bool>)
    reads s
    ensures |r| == |s|
  {
    seq(|s|, i requires 0 <= i < |s| reads s => s[i].deleted)
  }

  /** The positions of the set flags: entry number `i` is the `i`-th ever scheduled. */
  function Raised(flags: seq<bool>): set<nat> {
    set i: nat | i < |flags| && flags[i]
  }

  lemma RaisedNext(flags: seq<bool>, i: nat)
    ensures Raised(flags + [false]) == Raised(flags)
    ensures i < |flags| ==> Raised(flags[i := true]) == Raised(flags) + {i}
  {
  }

  /** No entry is in the queue twice. */
  ghost predicate Once(s: seq<QueueEntry>) {
    forall e :: e in s ==> multiset(s)[e] == 1
  }

  lemma PushedMembers(queue: seq<QueueEntry>, e: QueueEntry, pushed: seq<QueueEntry>)
    requires Once(queue) && e !in queue && multiset(pushed) == multiset(queue) + multiset{e}
    ensures Once(pushed) && (forall d :: d in pushed <==> d in queue || d == e)
    ensures Ids(pushed) == Ids(queue) + {e.id}
  {
    forall d
      ensures d in pushed <==> d in queue || d == e
    {
      assert d in pushed <==> d in multiset(pushed);
      assert d in queue <==> d in multiset(queue);
    }
  }

  lemma PoppedMembers(queue: seq<QueueEntry>, e: QueueEntry, rest: seq<QueueEntry>)
    requires Once(queue) && multiset(queue) == multiset(rest) + multiset{e}
    requires forall d :: d in queue && d.id == e.id ==> d == e
    ensures Once(rest) && (forall d :: d in rest <==> d in queue && d != e)
    ensures Ids(rest) == Ids(queue) - {e.id}
  {
    forall d
      ensures d in rest <==> d in queue && d != e
    {
      assert d in rest <==> d in multiset(rest);
      assert d in queue <==> d in multiset(queue);
    }
  }

  lemma ViewsNext(s: seq<QueueEntry>, e: QueueEntry)
    ensures Views(s + [e]) == Views(s) + [e.View()]
  {
  }

  class Simulator {
    var queue: seq<QueueEntry>
    var time: real
    var events: int
    const limit: Option<real>
    /** What `schedule` has returned so far: the entries a callback may cancel. */
    var handles: seq<QueueEntry>
    /** The entries run so far, which is all a callback's behaviour can depend on. */
    var executed: seq<nat>
    ghost var skipped: seq<nat>
    ghost var beyond: set<nat>
    var ended: bool

    constructor (start: real, limit: Option<real>)
      ensures Valid() && View() == Initial(start) && this.limit == limit
    {
      queue, time, events, handles, executed := [], start, 0, [], [];
      this.limit := limit;
      skipped, beyond, ended := [], {}, false;
      new;
      assert Views([]) == [];
    }

    ghost function View(): State
      reads this, handles
    {
      State(Views(handles), Ids(queue), Raised(Flags(handles)), executed, skipped, beyond, time, events, ended)
    }

    ghost predicate Valid()
      reads this, handles
    {
      && (forall i :: 0 <= i < |handles| ==> handles[i].id == i)
      && (forall e :: e in queue ==> e in handles)
      && Once(queue)
      && IsHeap(queue)
      && Consistent(View())
    }

    /** Pushes a new entry `dt` after now. */
    method Schedule(dt: real, priority: int) returns (e: QueueEntry)
      requires Valid()
      modifies this
      ensures Valid() && View() == Perform(old(View()), Op.Schedule(dt, priority))
      ensures e in queue && handles == old(handles) + [e] && fresh(e)
      ensures e.time == time + dt && e.dt == dt && e.priority == priority && !e.deleted
      ensures time == old(time) && events == old(events) + 1 && executed == old(executed)
    {
      hide IsHeap, Consistent, Once, Ids, Raised, Views;
      events := events + 1;
      e := new QueueEntry(|handles|, time + dt, dt, priority);
      var pushed := HeapPush(queue, e);
      PerformConsistent(old(View()), Op.Schedule(dt, priority));
      PushedMembers(queue, e, pushed);
      ViewsNext(handles, e);
      RaisedNext(Flags(handles), 0);
      assert Flags(handles + [e]) == Flags(handles) + [false];
      queue, handles := pushed, handles + [e];
    }

    /** One operation of a callback. */
    method PerformOp(op: Op)
      requires Valid()
      modifies this, handles
      ensures Valid() && View() == Perform(old(View()), op)
      ensures forall e :: e in old(handles) ==> e in handles
      ensures forall e :: e in handles ==> e in old(handles) || fresh(e)
      ensures executed == old(executed) && time == old(time)
      ensures op.Cancel? ==> handles == old(handles) && (op.id < |handles| ==> handles[op.id].deleted)
      ensures forall i :: 0 <= i < |old(handles)| && op != Cancel(i) ==> old(handles)[i].deleted == old(handles[i].deleted)
    {
      hide IsHeap, Consistent, Once;
      if op.Schedule? {
        var e := Schedule(op.dt, op.priority);
      } else if op.id < |handles| {
        handles[op.id].Cancel();
        PerformConsistent(old(View()), op);
        RaisedNext(old(Flags(handles)), op.id);
        assert Flags(handles) == old(Flags(handles))[op.id := true];
      }
    }

    /** Everything a callback does, in order. */
    method Callback(ops: seq<Op>)
      requires Valid()
      modifies this, handles
      ensures Valid() && View() == PerformAll(old(View()), ops)
      ensures forall e :: e in handles ==> e in old(handles) || fresh(e)
      ensures executed == old(executed)
    {
      hide IsHeap, Consistent, Once, Raised, Ids, Views;
      assert ops[..0] == [];
      for i := 0 to |ops|
        invariant Valid() && View() == PerformAll(old(View()), ops[..i])
        invariant forall e :: e in handles ==> e in old(handles) || fresh(e)
        invariant executed == old(executed)
      {
        assert ops[..i+1][..i] == ops[..i];
        assert forall k :: 0 <= k < |handles| ==> handles[k] in old(handles) || fresh(handles[k]);
        PerformOp(ops[i]);
      }
      assert ops[..|ops|] == ops;
    }

    /** Takes the least entry out of the queue. */
    method Pop() returns (e: QueueEntry)
      requires Valid() && queue != []
      modifies this`queue
      ensures e in handles && Next(old(View()), e.id) && View() == old(View()).(queued := old(View()).queued - {e.id})
      ensures handles[e.id] == e
      ensures (forall d :: d in queue ==> d in handles) && Once(queue) && IsHeap(queue)
    {
      hide Consistent;
      ghost var before := queue;
      var rest;
      e, rest := HeapPop(queue);
      PoppedMembers(queue, e, rest);
      PoppedIsNext(handles, before, e, View());
      queue := rest;
    }

    /** One pass through the loop: the popped entry is skipped, ends the loop, or is run. */
    method Iterate(behaviour: Behaviour) returns (ghost id: nat)
      requires Valid() && queue != [] && !ended
      modifies this, handles
      ensures Valid() && Next(old(View()), id)
      ensures View() == Pass(old(View()), limit, id, behaviour(id, old(executed)))
      ensures forall e :: e in handles ==> e in old(handles) || fresh(e)
    {
      hide IsHeap, Consistent, Once, Raised, Ids, Next, Pass, PerformAll;
      ghost var before := View();
      var e := Pop();
      id := e.id;
      var reaction := behaviour(e.id, executed);
      PassConsistent(before, limit, id, reaction);
      PassCases(before, limit, id, reaction);
      DeletedFlag(before, handles, e);
      assert before.scheduled[id] == e.View();
      if e.deleted {
        skipped := skipped + [id];
      } else if Past(e.time, limit) {
        events := events - 1;
        beyond, ended := beyond + {id}, true;
      } else {
        time := e.time;
        executed := executed + [e.id];
        Callback(reaction.ops);
        ended := reaction.stop;
      }
    }

    /**
     * The loop: runs until the queue is empty, the limit is passed or a callback stops it, and reports
     * how many events it processed. It is asked that these callbacks let it end, whatever the reason.
     */
    method Call(behaviour: Behaviour, ghost bound: nat) returns (ghost turns: seq<Turn>, ghost final: State)
      requires Valid() && !ended
      requires EndsWithin(behaviour, View(), limit, bound)
      modifies this, handles
      ensures Run(old(View()), limit, turns, final) && Driven(behaviour, old(View()), limit, turns)
      ensures final.ended || final.queued == {}
      ensures View() == final.(events := Reported(final))
      ensures events == |executed| + |skipped|
      ensures NeverStops(behaviour) && old(CutAt(View(), limit)) ==> Complete(View(), limit)
      ensures forall a :: CancelledIn(old(View()), limit, turns, final, a) ==> a !in executed
      ensures forall a: nat :: a < |old(handles)| && old(handles[a].deleted) && a !in old(executed) ==> a !in executed
      ensures NeverStops(behaviour) && old(CutAt(View(), limit)) ==> ExecutedAsAsked(old(View()), limit, turns, final)
    {
      hide IsHeap, Consistent, Once, Raised, Ids, Views, Next, Pass, CutAt, Complete, Run, Driven, EndsWithin, CancelledIn,
           ExecutedAsAsked;
      turns := [];
      ghost var first, flags := View(), Flags(handles);
      NoTurns(behaviour, first, limit);
      while queue != [] && !ended
        invariant Valid() && Run(first, limit, turns, View()) && Driven(behaviour, first, limit, turns)
        invariant |turns| <= bound
        invariant forall e :: e in handles ==> e in old(handles) || fresh(e)
        decreases bound - |turns|
      {
        assert forall k :: 0 <= k < |handles| ==> handles[k] in old(handles) || fresh(handles[k]);
        ghost var before := View();
        var id := Iterate(behaviour);
        ghost var reaction := behaviour(id, before.executed);
        RunGrows(first, limit, turns, before, id, reaction);
        DrivenGrows(behaviour, first, limit, turns, before, id);
        turns := turns + [Turn(id, reaction)];
        BoundHolds(behaviour, first, limit, bound, turns);
      }
      final := View();
      IdsOf(queue, handles);
      ReportedIsProcessed(final);
      if NeverStops(behaviour) && CutAt(first, limit) {
        DrivenKeepsGoing(behaviour, first, limit, turns);
        CompleteWhenDone(first, limit, turns, final);
        CountIgnored(final, limit);
        RunsAsAsked(first, limit, turns, final);
      }
      CancelledStay(first, flags, limit, turns, final);
      events := events - |queue|;
    }
  }

  /******* Runs driven by callbacks *******/

  /** Each turn is the reaction of the callbacks to the popped entry and to what was executed before. */
  ghost predicate Driven(behaviour: Behaviour, s: State, limit: Option<real>, turns: seq<Turn>)
    decreases |turns|
  {
    turns == [] ||
    (!s.ended && Next(s, turns[0].id) && turns[0].reaction == behaviour(turns[0].id, s.executed) &&
     Driven(behaviour, Pass(s, limit, turns[0].id, turns[0].reaction), limit, turns[1..]))
  }

  /** The loop ends: it cannot make more passes than this. */
  ghost predicate EndsWithin(behaviour: Behaviour, s: State, limit: Option<real>, bound: nat) {
    forall turns :: Driven(behaviour, s, limit, turns) ==> |turns| <= bound
  }

  lemma NoTurns(behaviour: Behaviour, s: State, limit: Option<real>)
    ensures Driven(behaviour, s, limit, []) && Run(s, limit, [], s)
  {
  }

  lemma BoundHolds(behaviour: Behaviour, s: State, limit: Option<real>, bound: nat, turns: seq<Turn>)
    requires EndsWithin(behaviour, s, limit, bound) && Driven(behaviour, s, limit, turns)
    ensures |turns| <= bound
  {
  }

  lemma {:induction false} DrivenGrows(behaviour: Behaviour, s: State, limit: Option<real>, turns: seq<Turn>, m: State, id: nat)
    requires Driven(behaviour, s, limit, turns) && Run(s, limit, turns, m) && !m.ended && Next(m, id)
    ensures Driven(behaviour, s, limit, turns + [Turn(id, behaviour(id, m.executed))])
    decreases |turns|
  {
    hide Next, Pass;
    var more := turns + [Turn(id, behaviour(id, m.executed))];
    if turns == [] {
      assert more[1..] == [];
    } else {
      assert more[1..] == turns[1..] + [Turn(id, behaviour(id, m.executed))];
      DrivenGrows(behaviour, Pass(s, limit, turns[0].id, turns[0].reaction), limit, turns[1..], m, id);
    }
  }

  lemma {:induction false} DrivenKeepsGoing(behaviour: Behaviour, s: State, limit: Option<real>, turns: seq<Turn>)
    requires Driven(behaviour, s, limit, turns) && NeverStops(behaviour)
    ensures KeepsGoing(turns)
    decreases |turns|
  {
    hide Next, Pass;
    if turns == [] {
    } else {
      DrivenKeepsGoing(behaviour, Pass(s, limit, turns[0].id, turns[0].reaction), limit, turns[1..]);
      assert forall i :: 0 < i < |turns| ==> turns[i] == turns[1..][i-1];
    }
  }

  ghost predicate PacedBehaviour(p: Pace, behaviour: Behaviour) {
    forall id, history :: Paced(p, behaviour(id, history).ops)
  }

  ghost predicate NeverStops(behaviour: Behaviour) {
    forall id, history :: !behaviour(id, history).stop
  }

  lemma {:induction false} DrivenIsRun(behaviour: Behaviour, p: Pace, s: State, limit: Option<real>, turns: seq<Turn>)
    requires Driven(behaviour, s, limit, turns) && PacedBehaviour(p, behaviour)
    ensures PacedTurns(p, turns) && exists t :: Run(s, limit, turns, t)
    decreases |turns|
  {
    hide Next, Pass, Paced;
    if turns == [] {
      assert Run(s, limit, turns, s);
    } else {
      var next := Pass(s, limit, turns[0].id, turns[0].reaction);
      DrivenIsRun(behaviour, p, next, limit, turns[1..]);
      var t :| Run(next, limit, turns[1..], t);
      assert Run(s, limit, turns, t);
      assert forall i :: 0 < i < |turns| ==> turns[i] == turns[1..][i-1];
    }
  }

  /** With a finite limit and callbacks that schedule few events, and not too soon, the loop ends. */
  lemma PacedLoopEnds(behaviour: Behaviour, p: Pace, s: State)
    requires p.delta > 0.0 && PacedBehaviour(p, behaviour) && Consistent(s)
    ensures Listed(s)
    ensures EndsWithin(behaviour, s, Some(p.limit), |s.queued| + p.k * Potential(p, s))
  {
    hide Consistent, Potential, Driven, PacedBehaviour;
    ConsistentIsListed(s);
    forall turns | Driven(behaviour, s, Some(p.limit), turns)
      ensures |turns| <= |s.queued| + p.k * Potential(p, s)
    {
      DrivenIsRun(behaviour, p, s, Some(p.limit), turns);
      var t :| Run(s, Some(p.limit), turns, t);
      PassesBounded(p, s, turns, t);
    }
  }

  /** What was cancelled before the loop or is cancelled by it in time does not run. */
  lemma CancelledStay(s: State, flags: seq<bool>, limit: Option<real>, turns: seq<Turn>, t: State)
    requires Consistent(s) && Run(s, limit, turns, t) && s.deleted == Raised(flags)
    ensures forall a :: CancelledIn(s, limit, turns, t, a) ==> a !in t.executed
    ensures forall a: nat :: a < |flags| && flags[a] && a !in s.executed ==> a !in t.executed
  {
    hide Consistent, Run, CancelledIn;
    forall a | CancelledIn(s, limit, turns, t, a)
      ensures a !in t.executed
    {
      CancelPreventsExecution(s, limit, turns, t, a);
    }
    forall a: nat | a < |flags| && flags[a] && a !in s.executed
      ensures a !in t.executed
    {
      DeletedLater(s, limit, turns, t, a);
    }
  }

  lemma CountIgnored(s: State, limit: Option<real>)
    requires Complete(s, limit)
    ensures Complete(s.(events := Reported(s)), limit)
  {
  }

  /** The queue holds as many entries as numbers. */
  lemma {:induction false} IdsOf(queue: seq<QueueEntry>, handles: seq<QueueEntry>)
    requires forall i :: 0 <= i < |handles| ==> handles[i].id == i
    requires (forall e :: e in queue ==> e in handles) && Once(queue)
    ensures |Ids(queue)| == |queue|
  {
    if queue == [] {
    } else {
      var init, last := queue[..|queue|-1], queue[|queue|-1];
      assert queue == init + [last];
      OnceShrinks(init, last);
      IdsOf(init, handles);
      assert Ids(queue) == Ids(init) + {last.id};
      assert last.id !in Ids(init) by {
        if e :| e in init && e.id == last.id {
          SameEntry(handles, e, last);
        }
      }
    }
  }

  lemma SameEntry(handles: seq<QueueEntry>, a: QueueEntry, b: QueueEntry)
    requires forall i :: 0 <= i < |handles| ==> handles[i].id == i
    requires a in handles && b in handles && a.id == b.id
    ensures a == b
  {
  }

  lemma OnceShrinks(init: seq<QueueEntry>, last: QueueEntry)
    requires Once(init + [last])
    ensures Once(init) && last !in init
  {
    assert multiset(init + [last]) == multiset(init) + multiset{last};
    assert last in init + [last];
    forall e | e in init
      ensures multiset(init)[e] == 1 && e != last
    {
      assert e in init + [last];
      assert e in multiset(init);
    }
  }

  lemma DeletedFlag(s: State, handles: seq<QueueEntry>, e: QueueEntry)
    requires e.id < |handles| && handles[e.id] == e
    requires s.deleted == Raised(Flags(handles))
    ensures e.id in s.deleted <==> e.deleted
  {
  }

  /** The three ways a pass can go, and that the state in which a callback begins is consistent. */
  lemma PassCases(s: State, limit: Option<real>, id: nat, reaction: Reaction)
    requires Consistent(s) && Next(s, id)
    ensures id < |s.scheduled|
    ensures var popped, time := s.(queued := s.queued - {id}), s.scheduled[id].time;
            var begun := popped.(time := time, executed := s.executed + [id]);
            && Consistent(begun)
            && Pass(s, limit, id, reaction) ==
                 if id in s.deleted then popped.(skipped := s.skipped + [id])
                 else if Past(time, limit) then popped.(beyond := s.beyond + {id}, events := s.events - 1, ended := true)
                 else PerformAll(begun, reaction.ops).(ended := reaction.stop)
  {
    hide Consistent, Next, PerformAll;
    NextIsScheduled(s, id);
    PoppedConsistent(s, id);
    ClockKeepsConsistent(s.(queued := s.queued - {id}, executed := s.executed + [id]), s.scheduled[id].time, false);
  }

  lemma PoppedIsNext(handles: seq<QueueEntry>, queue: seq<QueueEntry>, e: QueueEntry, s: State)
    requires forall i :: 0 <= i < |handles| ==> handles[i].id == i
    requires forall d :: d in queue ==> d in handles
    requires e in queue && forall d :: d in queue ==> Above(e, d)
    requires s.scheduled == Views(handles) && s.queued == Ids(queue)
    ensures Next(s, e.id)
  {
    hide Less;
    forall j | j in s.queued && j < |s.scheduled|
      ensures !Less(s.scheduled[j], s.scheduled[e.id])
    {
      var d :| d in queue && d.id == j;
      assert Above(e, d) && handles[j] == d;
    }
  }
}
