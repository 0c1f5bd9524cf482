/** The simulation loop on values: what one pass does, and what holds over every run. */
module Kernel {
  import opened Wrappers

  /** A queue entry, numbered in the order of scheduling. */
  datatype Entry = Entry(id: nat, time: real, dt: real, priority: int)

  /** `Queue.__lt__`: by time, then priority, then the longer delay first. */
  predicate Less(a: Entry, b: Entry) {
    a.time < b.time || (a.time == b.time && (a.priority < b.priority || (a.priority == b.priority && b.dt < a.dt)))
  }

  predicate Same(a: Entry, b: Entry) {
    a.time == b.time && a.priority == b.priority && a.dt == b.dt
  }

  /** Entries that differ in time, priority or delay are strictly and totally ordered. */
  lemma QueueOrder(a: Entry, b: Entry, c: Entry)
    ensures !Less(a, a)
    ensures !Same(a, b) ==> (Less(a, b) <==> !Less(b, a))
    ensures Same(a, b) ==> !Less(a, b)
    ensures Less(a, b) && Less(b, c) ==> Less(a, c)
    ensures !Less(b, a) && !Less(c, b) ==> !Less(c, a)
  {
  }

  /** What a callback may do: schedule, and cancel any entry it has got hold of. */
  datatype Op = Schedule(dt: real, priority: int) | Cancel(id: nat)

  /** A callback's operations, and whether it then raises StopSimulation. */
  datatype Reaction = Reaction(ops: seq<Op>, stop: bool)

  /**
   * `scheduled` lists every entry ever pushed; the sets and sequences speak of their numbers.
   * `executed` and `skipped` record what popped entries came to, `beyond` the one that hit the limit.
   */
  datatype State = State(
    scheduled: seq<Entry>,
    queued: set<nat>,
    deleted: set<nat>,
    executed: seq<nat>,
    skipped: seq<nat>,
    beyond: set<nat>,
    time: real,
    events: int,
    ended: bool)

  function Initial(start: real): State {
    State([], {}, {}, [], [], {}, start, 0, false)
  }

  /******* Steps *******/

  function Perform(s: State, op: Op): State {
    match op
    case Schedule(dt, priority) =>
      s.(scheduled := s.scheduled + [Entry(|s.scheduled|, s.time + dt, dt, priority)],
         queued := s.queued + {|s.scheduled|},
         events := s.events + 1)
    case Cancel(id) => if id < |s.scheduled| then s.(deleted := s.deleted + {id}) else s
  }

  function PerformAll(s: State, ops: seq<Op>): State {
    if ops == [] then s else Perform(PerformAll(s, ops[..|ops|-1]), ops[|ops|-1])
  }

  /** `id` is queued and nothing queued is smaller. */
  predicate Next(s: State, id: nat) {
    && id in s.queued && id < |s.scheduled|
    && forall j :: j in s.queued && j < |s.scheduled| ==> !Less(s.scheduled[j], s.scheduled[id])
  }

  predicate Past(t: real, limit: Option<real>) {
    limit.Some? && limit.value < t
  }

  /** One pass through the loop: `id` was popped, and its callback, if run, reacted. */
  function Pass(s: State, limit: Option<real>, id: nat, reaction: Reaction): State
    requires Next(s, id)
  {
    var e := s.scheduled[id];
    var popped := s.(queued := s.queued - {id});
    if id in s.deleted then
      popped.(skipped := s.skipped + [id])
    else if Past(e.time, limit) then
      popped.(beyond := s.beyond + {id}, events := s.events - 1, ended := true)
    else
      PerformAll(popped.(time := e.time, executed := s.executed + [id]), reaction.ops).(ended := reaction.stop)
  }

  /** The number of events reported after the loop. */
  function Reported(s: State): int {
    s.events - |s.queued|
  }

  /******* Invariant: every entry is in one place *******/

  predicate NoRepeats(s: seq<nat>) {
    forall i, j :: 0 <= i < j < |s| ==> s[i] != s[j]
  }

  ghost predicate Partition(s: State) {
    && (forall i :: 0 <= i < |s.scheduled| ==> s.scheduled[i].id == i)
    && NoRepeats(s.executed) && NoRepeats(s.skipped)
    && (forall id: nat :: id in s.queued || id in s.executed || id in s.skipped || id in s.beyond <==> id < |s.scheduled|)
    && (forall id :: id in s.queued ==> id !in s.executed && id !in s.skipped && id !in s.beyond)
    && (forall id :: id in s.executed ==> id !in s.skipped && id !in s.beyond)
    && (forall id :: id in s.skipped ==> id !in s.beyond && id in s.deleted)
  }

  /** `scheduled = executed + skipped + queued`, and the running count follows it. */
  ghost predicate Accounted(s: State) {
    && |s.scheduled| == |s.executed| + |s.skipped| + |s.queued| + |s.beyond|
    && s.events == |s.scheduled| - |s.beyond|
  }

  ghost predicate Consistent(s: State) {
    Partition(s) && Accounted(s)
  }

  lemma PerformConsistent(s: State, op: Op)
    requires Consistent(s)
    ensures Consistent(Perform(s, op))
    ensures Perform(s, op).executed == s.executed && Perform(s, op).skipped == s.skipped && Perform(s, op).time == s.time
    ensures Perform(s, op).beyond == s.beyond
  {
    if op.Schedule? {
      assert |s.scheduled| !in s.queued;
    }
  }

  lemma {:induction false} PerformAllConsistent(s: State, ops: seq<Op>)
    requires Consistent(s)
    ensures Consistent(PerformAll(s, ops))
    ensures var t := PerformAll(s, ops);
            t.executed == s.executed && t.skipped == s.skipped && t.time == s.time && t.beyond == s.beyond
  {
    hide Consistent;
    if ops == [] {
    } else {
      PerformAllConsistent(s, ops[..|ops|-1]);
      PerformConsistent(PerformAll(s, ops[..|ops|-1]), ops[|ops|-1]);
    }
  }

  lemma PoppedConsistent(s: State, id: nat)
    requires Consistent(s) && Next(s, id)
    ensures Consistent(s.(queued := s.queued - {id}, executed := s.executed + [id]))
    ensures id in s.deleted ==> Consistent(s.(queued := s.queued - {id}, skipped := s.skipped + [id]))
    ensures Consistent(s.(queued := s.queued - {id}, beyond := s.beyond + {id}, events := s.events - 1))
  {
    hide Less;
    assert |s.queued - {id}| == |s.queued| - 1;
    assert id !in s.beyond;
    PoppedPlace(s, id);
  }

  lemma PoppedPlace(s: State, id: nat)
    requires Partition(s) && Next(s, id)
    ensures Partition(s.(queued := s.queued - {id}, executed := s.executed + [id]))
    ensures id in s.deleted ==> Partition(s.(queued := s.queued - {id}, skipped := s.skipped + [id]))
    ensures Partition(s.(queued := s.queued - {id}, beyond := s.beyond + {id}, events := s.events - 1))
  {
    hide Less;
  }

  lemma ClockKeepsConsistent(s: State, t: real, ended: bool)
    requires Consistent(s)
    ensures Consistent(s.(time := t)) && Consistent(s.(ended := ended))
  {
  }

  lemma PassConsistent(s: State, limit: Option<real>, id: nat, reaction: Reaction)
    requires Consistent(s) && Next(s, id)
    ensures Consistent(Pass(s, limit, id, reaction))
  {
    hide Consistent, Next;
    PoppedConsistent(s, id);
    var e := (NextIsScheduled(s, id); s.scheduled[id]);
    if id in s.deleted {
    } else if Past(e.time, limit) {
      ClockKeepsConsistent(s.(queued := s.queued - {id}, beyond := s.beyond + {id}, events := s.events - 1), s.time, true);
    } else {
      var run := s.(queued := s.queued - {id}, executed := s.executed + [id]);
      ClockKeepsConsistent(run, e.time, false);
      PerformAllConsistent(run.(time := e.time), reaction.ops);
      ClockKeepsConsistent(PerformAll(run.(time := e.time), reaction.ops), e.time, reaction.stop);
    }
  }

  lemma NextIsScheduled(s: State, id: nat)
    requires Next(s, id)
    ensures id < |s.scheduled|
  {
  }

  /** What is reported at the end is what was executed or skipped, however the loop ended. */
  lemma ReportedIsProcessed(s: State)
    requires Consistent(s)
    ensures Reported(s) == |s.executed| + |s.skipped|
  {
  }
}
