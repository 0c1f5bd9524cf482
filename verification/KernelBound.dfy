/** The loop ends: how many events can run when callbacks schedule few events, and not too soon. */
module KernelBound {
  import opened Arithmetic
  import opened Wrappers
  import opened Kernel
  import opened KernelRuns

  /** A finite limit, at most `k` new events per callback, each at least `delta` later. */
  datatype Pace = Pace(limit: real, delta: real, k: nat)

  function Scheduled(ops: seq<Op>): nat {
    if ops == [] then 0 else Scheduled(ops[..|ops|-1]) + if ops[|ops|-1].Schedule? then 1 else 0
  }

  predicate Paced(p: Pace, ops: seq<Op>) {
    Scheduled(ops) <= p.k && forall i :: 0 <= i < |ops| && ops[i].Schedule? ==> p.delta <= ops[i].dt
  }

  predicate PacedTurns(p: Pace, turns: seq<Turn>) {
    forall i :: 0 <= i < |turns| ==> Paced(p, turns[i].reaction.ops)
  }

  /** The most events one event can lead to, itself included, over `n` further generations. */
  function Descendants(k: nat, n: nat): (r: nat)
    ensures 1 <= r
  {
    if n == 0 then 1 else 1 + k * Descendants(k, n - 1)
  }

  lemma {:induction false} DescendantsMonotone(k: nat, m: nat, n: nat)
    requires m <= n
    ensures Descendants(k, m) <= Descendants(k, n)
  {
    if n == 0 {
    } else {
      if m > 0 {
        DescendantsMonotone(k, m - 1, n - 1);
        ProductMonotone(k, Descendants(k, m - 1), Descendants(k, n - 1));
      }
    }
  }

  /** How many generations still fit between `time` and the limit. */
  function Generations(p: Pace, time: real): (n: nat)
    requires p.delta > 0.0 && time <= p.limit
  {
    QuotientSign(p.limit - time, p.delta);
    ((p.limit - time) / p.delta).Floor
  }

  /** The most executions an entry can lead to. */
  function Weight(p: Pace, time: real): nat
    requires p.delta > 0.0
  {
    if p.limit < time then 0 else Descendants(p.k, Generations(p, time))
  }

  /** Weight left for each event a callback at `time` schedules. */
  function ChildWeight(p: Pace, time: real): nat
    requires p.delta > 0.0 && time <= p.limit
  {
    if Generations(p, time) == 0 then 0 else Descendants(p.k, Generations(p, time) - 1)
  }

  lemma ChildIsLighter(p: Pace, time: real, dt: real)
    requires p.delta > 0.0 && time <= p.limit && p.delta <= dt
    ensures Weight(p, time + dt) <= ChildWeight(p, time)
    ensures 1 + p.k * ChildWeight(p, time) <= Weight(p, time)
  {
    if time + dt <= p.limit {
      QuotientSign(p.limit - (time + dt), p.delta);
      QuotientSteps(p.limit - (time + dt), p.limit - time, p.delta);
      DescendantsMonotone(p.k, Generations(p, time + dt), Generations(p, time) - 1);
    }
  }

  /******* The potential of a state *******/

  ghost function Total(p: Pace, scheduled: seq<Entry>, ids: set<nat>): nat
    requires p.delta > 0.0 && forall id :: id in ids ==> id < |scheduled|
  {
    if ids == {} then 0 else
    var id :| id in ids;
    Weight(p, scheduled[id].time) + Total(p, scheduled, ids - {id})
  }

  lemma {:induction false} TotalSplits(p: Pace, scheduled: seq<Entry>, ids: set<nat>, id: nat)
    requires p.delta > 0.0 && (forall i :: i in ids ==> i < |scheduled|) && id in ids
    ensures Total(p, scheduled, ids) == Weight(p, scheduled[id].time) + Total(p, scheduled, ids - {id})
  {
    hide Weight;
    var first :| first in ids &&
      Total(p, scheduled, ids) == Weight(p, scheduled[first].time) + Total(p, scheduled, ids - {first});
    if first != id {
      TotalSplits(p, scheduled, ids - {first}, id);
      TotalSplits(p, scheduled, ids - {id}, first);
      assert ids - {first} - {id} == ids - {id} - {first};
    }
  }

  lemma {:induction false} TotalIgnoresLater(p: Pace, scheduled: seq<Entry>, longer: seq<Entry>, ids: set<nat>)
    requires p.delta > 0.0 && forall i :: i in ids ==> i < |scheduled|
    requires |scheduled| <= |longer| && forall i :: 0 <= i < |scheduled| ==> longer[i] == scheduled[i]
    ensures Total(p, longer, ids) == Total(p, scheduled, ids)
  {
    hide Weight;
    if ids == {} {
    } else {
      var id :| id in ids;
      TotalSplits(p, scheduled, ids, id);
      TotalSplits(p, longer, ids, id);
      TotalIgnoresLater(p, scheduled, longer, ids - {id});
    }
  }

  ghost predicate Listed(s: State) {
    forall id :: id in s.queued ==> id < |s.scheduled|
  }

  ghost function Potential(p: Pace, s: State): nat
    requires p.delta > 0.0 && Listed(s)
  {
    Total(p, s.scheduled, s.queued)
  }

  /** Each event a callback schedules adds at most the child weight. */
  lemma {:induction false} OperationsAdd(p: Pace, s: State, ops: seq<Op>)
    requires p.delta > 0.0 && Listed(s) && s.time <= p.limit
    requires forall i :: 0 <= i < |ops| && ops[i].Schedule? ==> p.delta <= ops[i].dt
    ensures var t := PerformAll(s, ops);
            && Listed(t) && t.time == s.time
            && Potential(p, t) <= Potential(p, s) + Scheduled(ops) * ChildWeight(p, s.time)
            && |t.queued| <= |s.queued| + Scheduled(ops)
  {
    hide Weight, ChildWeight;
    if ops == [] {
    } else {
      var before, op := PerformAll(s, ops[..|ops|-1]), ops[|ops|-1];
      OperationsAdd(p, s, ops[..|ops|-1]);
      if op.Schedule? {
        OneMoreAdds(p, before, op);
        Distribute(Scheduled(ops[..|ops|-1]), ChildWeight(p, s.time));
      }
    }
  }

  lemma OneMoreAdds(p: Pace, s: State, op: Op)
    requires p.delta > 0.0 && Listed(s) && s.time <= p.limit
    requires op.Schedule? && p.delta <= op.dt
    ensures var t := Perform(s, op);
            && Listed(t) && t.time == s.time
            && Potential(p, t) <= Potential(p, s) + ChildWeight(p, s.time)
            && |t.queued| == |s.queued| + 1
  {
    hide Weight, ChildWeight, Total;
    var t, id := Perform(s, op), |s.scheduled|;
    TotalSplits(p, t.scheduled, t.queued, id);
    assert t.queued - {id} == s.queued;
    TotalIgnoresLater(p, s.scheduled, t.scheduled, s.queued);
    ChildIsLighter(p, s.time, op.dt);
  }

  /** What the measure says of one pass: an execution lowers the potential, a skip the queue alone. */
  lemma PassLowers(p: Pace, s: State, id: nat, reaction: Reaction)
    requires p.delta > 0.0 && Consistent(s) && Next(s, id) && Paced(p, reaction.ops)
    ensures var t := Pass(s, Some(p.limit), id, reaction);
            && Listed(s) && Listed(t)
            && (t.executed == s.executed || |t.executed| == |s.executed| + 1)
            && |t.executed| - |s.executed| + Potential(p, t) <= Potential(p, s)
            && |t.queued| <= |s.queued| - 1 + p.k * (|t.executed| - |s.executed|)
  {
    hide Weight, ChildWeight, Total, Less, PerformAll, Scheduled;
    assert Listed(s);
    TotalSplits(p, s.scheduled, s.queued, id);
    assert |s.queued - {id}| == |s.queued| - 1;
    var e := s.scheduled[id];
    if id !in s.deleted && !Past(e.time, Some(p.limit)) {
      var run := Started(s, id);
      OperationsAdd(p, run, reaction.ops);
      OperationsGrow(run, reaction.ops);
      ChildIsLighter(p, e.time, p.delta);
      ProductMonotone(ChildWeight(p, e.time), Scheduled(reaction.ops), p.k);
    }
  }

  /** No run executes more events than the initial potential allows. */
  lemma {:induction false} ExecutionsBounded(p: Pace, s: State, turns: seq<Turn>, t: State)
    requires p.delta > 0.0 && Consistent(s) && Run(s, Some(p.limit), turns, t) && PacedTurns(p, turns)
    ensures Listed(s) && Listed(t)
    ensures |t.executed| - |s.executed| + Potential(p, t) <= Potential(p, s)
    decreases |turns|
  {
    hide Next, Pass, Paced, Potential, Partition, Accounted;
    ConsistentIsListed(s);
    if turns == [] {
    } else {
      var next := Pass(s, Some(p.limit), turns[0].id, turns[0].reaction);
      PassLowers(p, s, turns[0].id, turns[0].reaction);
      PassConsistent(s, Some(p.limit), turns[0].id, turns[0].reaction);
      assert forall i :: 0 <= i < |turns[1..]| ==> turns[1..][i] == turns[i+1];
      ExecutionsBounded(p, next, turns[1..], t);
    }
  }

  lemma ConsistentIsListed(s: State)
    requires Consistent(s)
    ensures Listed(s)
  {
  }

  /** No run makes more passes than the initial queue and potential allow, so the loop ends. */
  lemma {:induction false} PassesBounded(p: Pace, s: State, turns: seq<Turn>, t: State)
    requires p.delta > 0.0 && Consistent(s) && Run(s, Some(p.limit), turns, t) && PacedTurns(p, turns)
    ensures Listed(s) && |turns| <= |s.queued| + p.k * Potential(p, s)
    decreases |turns|
  {
    hide Next, Pass, Paced, Potential, Partition, Accounted;
    ConsistentIsListed(s);
    if turns == [] {
    } else {
      var next := Pass(s, Some(p.limit), turns[0].id, turns[0].reaction);
      PassLowers(p, s, turns[0].id, turns[0].reaction);
      PassConsistent(s, Some(p.limit), turns[0].id, turns[0].reaction);
      assert forall i :: 0 <= i < |turns[1..]| ==> turns[1..][i] == turns[i+1];
      PassesBounded(p, next, turns[1..], t);
      var ran := |next.executed| - |s.executed|;
      ProductMonotone(p.k, ran + Potential(p, next), Potential(p, s));
      assert p.k * (ran + Potential(p, next)) == p.k * ran + p.k * Potential(p, next);
    }
  }
}
