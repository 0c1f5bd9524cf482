/** The scheduler object, which lists, plans and forgets events. */
module BufferScheduler {
  import opened Wrappers
  import opened Records
  import opened CpModel
  import opened History
  import opened Makespan
  import opened Planning
  import opened OnTime
  import opened Runs
  import opened Acceptance
  import opened Events
  import opened Reading
  import opened Sorting
  import opened Solvers
  import opened CallSteps

  /** How a planning call ends: solved, refused, or with an exception from reading an event. */
  datatype Outcome = Planned | CanNotSchedule | Raised(failure: Failure)

  /** What pruning leaves in the list is among what was yielded. */
  lemma StillYielded(olds: seq<Event>, now: seq<Event>, live: seq<Event>, kept: seq<Event>)
    requires DistinctUids(Views(olds)) && Views(now) == Remaining(Views(olds))
    requires Views(live) == Live(Views(olds)) && Views(kept) == Retained(Views(olds))
    requires (forall e :: e in now ==> e in olds) && (forall e :: e in live + kept ==> e in olds)
    ensures forall e :: e in now ==> e in live + kept
  {
    hide Remaining, Live, Retained, DistinctUids;
    assert Views(live + kept) == Views(live) + Views(kept);
    RemainingIsYielded(Views(olds));
    AllAmong(olds, now, live + kept);
  }

  /** Events with different uids are different objects, and the dictionary has a key for each. */
  lemma AllInBook(s: seq<Event>)
    requires DistinctUids(Views(s))
    ensures forall i, j :: 0 <= i < j < |s| ==> s[i] != s[j]
    ensures forall i :: 0 <= i < |s| ==> s[i].uid in BookOf(Views(s))
  {
    hide BookOf;
    UniqueWhenDistinct(Views(s));
    BookMembers(Views(s));
    forall i, j | 0 <= i < j < |s|
      ensures s[i] != s[j]
    {
      assert Views(s)[i].uid != Views(s)[j].uid;
    }
    forall i | 0 <= i < |s|
      ensures s[i].uid in BookOf(Views(s))
    {
      assert Views(s)[i] in Views(s);
    }
  }

  /** Pruning drops no live event. */
  lemma LiveStay(olds: seq<Event>, now: seq<Event>)
    requires DistinctUids(Views(olds)) && forall d :: d in now ==> d in olds
    requires forall r :: r in Views(olds) && IsLive(r) ==> r in Views(now)
    ensures forall e :: e in olds && IsLive(e.View()) ==> e in now
  {
    hide IsLive, DistinctUids;
    forall e | e in olds && IsLive(e.View())
      ensures e in now
    {
      var i :| 0 <= i < |olds| && olds[i] == e;
      assert Views(olds)[i] in Views(olds);
      var j :| 0 <= j < |now| && Views(now)[j] == e.View();
      SameObject(olds, e, now[j]);
    }
  }

  lemma AllLiveStay(olds: seq<Event>, now: seq<Event>)
    requires DistinctUids(Views(olds)) && Views(now) == Remaining(Views(olds))
    requires forall d :: d in now ==> d in olds
    ensures forall e :: e in olds && IsLive(e.View()) ==> e in now
  {
    hide IsLive, Reaches, SpanStart, SpanEnd, DistinctUids;
    LiveStay(olds, now);
  }

  lemma KeptOnFailure(olds: seq<Event>, now: seq<Event>, newcomers: seq<Record>, failure: Failure)
    requires DistinctUids(Views(olds)) && Stopped(Views(olds), newcomers, Views(now), failure)
    requires forall d :: d in now ==> d in olds
    ensures forall e :: e in olds && IsLive(e.View()) ==> e in now
    ensures !Readable(Yielded(Views(olds), newcomers))
  {
    hide IsLive, DistinctUids, Stopped, Yielded, Readable;
    StoppedKeeps(Views(olds), newcomers, Views(now), failure);
    StoppedMeansUnreadable(Views(olds), newcomers, Views(now), failure);
    LiveStay(olds, now);
  }

  class Scheduler {
    var events: seq<Event>
    var counter: nat
    const horizon: int
    var maxHorizon: int
    const bufferInput: nat
    /** Stored, but never read by the model. */
    const bufferOutput: nat

    constructor (horizon: int, bufferInput: nat, bufferOutput: nat)
      ensures World() == Planning.World([], horizon) && Cfg() == Config(horizon, bufferInput)
      ensures counter == 1 && events == []
    {
      this.horizon, this.bufferInput, this.bufferOutput := horizon, bufferInput, bufferOutput;
      events, counter, maxHorizon := [], 1, horizon;
    }

    function Cfg(): Config {
      Config(horizon, bufferInput)
    }

    function World(): World
      reads this, events
    {
      Planning.World(Views(events), maxHorizon)
    }

    /** Every listed event carries a uid handed out before, and no uid twice. */
    ghost predicate Valid()
      reads this, events
    {
      DistinctUids(Views(events)) && forall e :: e in events ==> e.uid < counter
    }

    /** A new event with the next uid, or nothing (a ValueError) when its times are not acceptable. */
    method Create(duration: int, eta: Etx, etd: Etx) returns (created: Option<Event>)
      requires Valid()
      modifies this`counter
      ensures Valid() && events == old(events) && World() == old(World())
      ensures created.Some? <==>
                && eta.low.Some? && eta.high.Some? && eta.low.value <= eta.high.value
                && (etd.low.Some? && etd.high.Some? ==> etd.low.value <= etd.high.value)
                && (etd.low.Some? && etd.high.None? && etd.time.Some? ==> etd.low.value <= etd.time.value)
                && (etd.low.None? && etd.high.Some? && etd.time.Some? ==> etd.time.value <= etd.high.value)
      ensures created.None? ==> counter == old(counter)
      ensures created.Some? ==>
                var e := created.value;
                && fresh(e) && e.uid == old(counter) && counter == old(counter) + 1
                && (forall d :: d in events ==> d.uid < e.uid)
                && e.View() == Record(e.uid, duration, if etd.low.Some? && etd.high.Some? then Scheduled else New,
                                      eta, etd, None, None, None, None, false)
    {
      if !Acceptable(eta, etd) {
        return None;
      }
      var e := new Event(duration, eta, etd);
      e.uid := counter;
      counter := counter + 1;
      assert Views(events) == old(Views(events));
      created := Some(e);
    }

    /** `list.remove`: drops the first listed event with this uid. */
    method Remove(uid: nat)
      requires DistinctUids(Views(events)) && exists i :: 0 <= i < |events| && events[i].uid == uid
      modifies this`events
      ensures Views(events) == Filter(old(Views(events)), Other(uid))
      ensures forall e :: e in events ==> e in old(events)
    {
      hide Filter, Other, DistinctUids;
      ghost var j :| 0 <= j < |events| && events[j].uid == uid;
      var i := 0;
      while events[i].uid != uid
        invariant 0 <= i <= j
        decreases j - i
      {
        i := i + 1;
      }
      WithoutIsFilter(Views(events), i);
      ViewsWithout(events, i);
      events := Without(events, i);
    }

    /** Splits the list into the live events and the others, and finds the live events' span. */
    method Survey() returns (live: seq<Event>, delete: seq<Event>, from: Option<int>, to: Option<int>)
      ensures Views(live) == Live(Views(events))
      ensures Views(delete) == Filter(Views(events), Gone())
      ensures from == SpanStart(Live(Views(events))) && to == SpanEnd(Live(Views(events)))
      ensures (forall e :: e in live ==> e in events) && (forall e :: e in delete ==> e in events)
    {
      hide EarliestKnown, LatestKnown, SpanStart, SpanEnd, Filter, EarlierStart, LaterEnd;
      live, delete, from, to := [], [], None, None;
      NothingSurveyed(Gone());
      for i := 0 to |events|
        invariant Views(live) == Live(Views(events)[..i])
        invariant Views(delete) == Filter(Views(events)[..i], Gone())
        invariant from == SpanStart(Views(live)) && to == SpanEnd(Views(live))
        invariant (forall e :: e in live ==> e in events) && (forall e :: e in delete ==> e in events)
      {
        var e := events[i];
        FilterNext(Views(events), i, IsLive);
        FilterNext(Views(events), i, Gone());
        if e.state == Departed || e.state == Canceled {
          ViewsNext(delete, e);
          delete := delete + [e];
        } else {
          SpanNext(Views(live), e.View());
          ViewsNext(live, e);
          from, to := EarlierStart(Views(live), from, e.View()), LaterEnd(Views(live), to, e.View());
          live := live + [e];
        }
      }
      assert Views(events)[..|events|] == Views(events);
    }

    /** Decides on the departed and cancelled events one by one, dropping those out of reach. */
    method Prune(delete: seq<Event>, from: Option<int>, to: Option<int>) returns (kept: seq<Event>)
      requires DistinctUids(Views(events))
      requires Views(delete) == Filter(Views(events), Gone())
      modifies this`events
      ensures Views(events) == Filter(old(Views(events)), StillListed(from, to, {}))
      ensures Views(kept) == Filter(old(Views(delete)), Reaching(from, to))
      ensures forall e :: e in events ==> e in old(events)
      ensures forall e :: e in kept ==> e in delete
    {
      hide Filter, Reaches, IsLive, StillListed, Reaching, Gone, Other, UidSet, DistinctUids, ListedAt, KeptAt;
      ghost var before, gone := Views(events), Views(delete);
      NoneDecided(before, from, to, gone);
      kept := [];
      for k := 0 to |delete|
        invariant Views(delete) == gone
        invariant Views(events) == ListedAt(before, from, to, gone, k)
        invariant Views(kept) == KeptAt(from, to, gone, k)
        invariant forall e :: e in events ==> e in old(events)
        invariant forall e :: e in kept ==> e in delete
      {
        var e := delete[k];
        DecideNext(before, from, to, gone, k);
        if Reaches(e.View(), from, to) {
          ViewsNext(kept, e);
          kept := kept + [e];
        } else {
          Remove(e.uid);
        }
      }
      AllDecided(before, from, to, gone);
    }

    /**
     * The generator, consumed to the end: live events in list order, then the history that still
     * reaches into their span, then the new events. The rest of the history is dropped from the list.
     */
    method GetEvents(newcomers: seq<Event>) returns (yielded: seq<Event>)
      requires DistinctUids(Views(events))
      modifies this`events
      ensures Views(events) == Remaining(old(Views(events)))
      ensures Views(yielded) == Yielded(old(Views(events)), Views(newcomers))
      ensures forall e :: e in events ==> e in old(events) && e in yielded
      ensures forall e :: e in newcomers ==> e in yielded
      ensures forall e :: e in old(events) && IsLive(old(e.View())) ==> e in events
      ensures forall e :: e in yielded ==> e in old(events) || e in newcomers
    {
      hide Filter, SpanStart, SpanEnd, Reaches, IsLive, Gone, Reaching, StillListed, DistinctUids, Live, Retained, Remaining,
           Views;
      ghost var olds, before, views := events, Views(events), Views(newcomers);
      var live, delete, from, to := Survey();
      RetainedOfGone(before, Views(delete));
      NonePending(before);
      var kept := Prune(delete, from, to);
      assert Views(olds) == before && Views(newcomers) == views;
      StillYielded(olds, events, live, kept);
      AllLiveStay(olds, events);
      yielded := live + kept + newcomers;
      ViewsJoin(live, kept);
      ViewsJoin(live + kept, newcomers);
    }

    /** Reads one more event: its variables, and what it says about the edges of the window. */
    method Gather(e: Event, found: Found, ghost seen: seq<Record>) returns (r: Result<Found, Failure>)
      requires Gathered(seen, found)
      ensures r.Ok? ==> Gathered(seen + [e.View()], r.value)
      ensures r.Err? ==> GetVariables(e.View()) == Err(r.error)
    {
      hide GetVariables, Gathered;
      var data := GetVariables(e.View());
      if data.Err? {
        return Err(data.error);
      }
      GatherNext(seen, e.View(), found, data.value);
      var span, more := data.value.makespan, found.(vars := found.vars + [data.value]);
      if span.low.None? {
        more := more.(noneMin := true);
        assert found.lows + [] == found.lows;
      } else {
        more := more.(lows := more.lows + [span.low.value]);
      }
      if span.high.None? {
        more := more.(noneMax := true);
        assert found.highs + [] == found.highs;
      } else {
        more := more.(highs := more.highs + [span.high.value]);
      }
      r := Ok(more);
    }

    /** Reads more events, one by one, up to the first that cannot be read. */
    method GatherAll(more: seq<Event>, start: Found, ghost seen: seq<Record>) returns (r: Result<Found, Failure>)
      requires Gathered(seen, start)
      ensures r.Ok? ==> Gathered(seen + Views(more), r.value)
      ensures r.Err? ==> Fails(Views(more), r.error)
    {
      hide GetVariables, Gathered;
      var found := start;
      assert seen + Views(more)[..0] == seen;
      for i := 0 to |more|
        invariant Gathered(seen + Views(more)[..i], found)
      {
        var next := Gather(more[i], found, seen + Views(more)[..i]);
        if next.Err? {
          GatheredPart(seen, Views(more)[..i], found);
          return Err(next.error);
        }
        found := next.value;
        assert seen + Views(more)[..i+1] == seen + Views(more)[..i] + [more[i].View()];
      }
      assert Views(more)[..|more|] == Views(more);
      r := Ok(found);
    }

    /**
     * Decides on the departed and cancelled events one by one, as the generator does: the kept ones are
     * read before the next is decided on.
     */
    method GatherHistory(delete: seq<Event>, from: Option<int>, to: Option<int>, start: Found, ghost live: seq<Record>)
      returns (r: Result<Found, Failure>, kept: seq<Event>, ghost k: nat)
      requires DistinctUids(Views(events)) && Views(delete) == Filter(Views(events), Gone())
      requires Gathered(live, start)
      modifies this`events
      ensures k <= |delete| && Views(events) == ListedAt(old(Views(events)), from, to, Views(delete), k)
      ensures Views(kept) == KeptAt(from, to, Views(delete), k)
      ensures r.Ok? ==> k == |delete| && Gathered(live + Views(kept), r.value)
      ensures r.Err? ==> && k < |delete| && Readable(Views(kept)) && Reaches(Views(delete)[k], from, to)
                         && GetVariables(Views(delete)[k]) == Err(r.error)
      ensures forall e :: e in events ==> e in old(events)
      ensures forall e :: e in kept ==> e in delete
    {
      hide Filter, Reaches, IsLive, Gone, Other, DistinctUids, ListedAt, KeptAt, GetVariables, Gathered, Readable;
      ghost var before, gone := Views(events), Views(delete);
      NoneDecided(before, from, to, gone);
      var found := start;
      kept, k := [], 0;
      assert live + Views(kept) == live;
      for i := 0 to |delete|
        invariant k == i && Views(delete) == gone
        invariant Views(events) == ListedAt(before, from, to, gone, k)
        invariant Views(kept) == KeptAt(from, to, gone, k)
        invariant Gathered(live + Views(kept), found)
        invariant forall e :: e in events ==> e in old(events)
        invariant forall e :: e in kept ==> e in delete
      {
        var e := delete[i];
        DecideNext(before, from, to, gone, i);
        if Reaches(e.View(), from, to) {
          var next := Gather(e, found, live + Views(kept));
          if next.Err? {
            GatheredPart(live, Views(kept), found);
            return Err(next.error), kept, k;
          }
          found := next.value;
          ViewsNext(kept, e);
          assert live + (Views(kept) + [e.View()]) == live + Views(kept) + [e.View()];
          kept := kept + [e];
        } else {
          Remove(e.uid);
        }
        k := k + 1;
      }
      r := Ok(found);
    }

    /** Reads everything that is considered, in the generator's order, pruning the history on the way. */
    method ReadAll(newcomers: seq<Event>) returns (r: Result<Found, Failure>, yielded: seq<Event>)
      requires DistinctUids(Views(events))
      modifies this`events
      ensures r.Err? ==> Stopped(old(Views(events)), Views(newcomers), Views(events), r.error)
      ensures r.Ok? ==> && Views(events) == Remaining(old(Views(events)))
                        && Views(yielded) == Yielded(old(Views(events)), Views(newcomers))
                        && Gathered(Views(yielded), r.value)
                        && (forall e :: e in events || e in newcomers ==> e in yielded)
      ensures forall e :: e in events ==> e in old(events)
      ensures forall e :: e in yielded ==> e in old(events) || e in newcomers
    {
      hide Filter, SpanStart, SpanEnd, Reaches, IsLive, Gone, Reaching, StillListed, DistinctUids, Live, Retained, Remaining,
           GetVariables, Gathered, ListedAt, KeptAt, Readable, Stopped, UidSet, Fails, Views;
      ghost var olds, before, views := events, Views(events), Views(newcomers);
      yielded := [];
      var live, delete, from, to := Survey();
      NothingGathered();
      assert [] + Views(live) == Views(live);
      r := GatherAll(live, Found([], [], [], false, false), []);
      if r.Err? {
        StopsAtLive(before, views, r.error);
        return;
      }
      GatheredPart([], Views(live), r.value);
      var kept; ghost var k;
      r, kept, k := GatherHistory(delete, from, to, r.value, Views(live));
      assert Views(olds) == before && Views(newcomers) == views;
      if r.Err? {
        StopsInHistory(before, views, k, Views(events), r.error);
        return;
      }
      HistoryDecided(before, from, to, Views(delete), k);
      ReadableParts(Views(live), Views(kept), r.value);
      r := GatherAll(newcomers, r.value, Views(live) + Views(kept));
      if r.Err? {
        StopsAtNewcomers(before, views, Views(events), r.error);
        return;
      }
      StillYielded(olds, events, live, kept);
      yielded := live + kept + newcomers;
      ViewsJoin(live, kept);
      ViewsJoin(live + kept, newcomers);
    }

    /**
     * The planning variables of everything that is considered, and the window they span. Reading an
     * event that lacks a time, or a cancelled one, raises; the history is then pruned as far as reading
     * had come.
     */
    method GetEventVariables(newcomers: seq<Event>)
      returns (r: Result<Window, Failure>, yielded: seq<Event>, vars: seq<Variables>)
      requires DistinctUids(Views(events))
      modifies this`events, this`maxHorizon
      ensures r.Ok? <==> Readable(Considered(old(World()), Views(newcomers)))
      ensures r.Err? ==> maxHorizon == old(maxHorizon) &&
                         Stopped(old(Views(events)), Views(newcomers), Views(events), r.error)
      ensures r.Ok? ==> Views(yielded) == Considered(old(World()), Views(newcomers)) && VariablesOf(Views(yielded), vars)
      ensures r.Ok? ==> r.value == PlanningWindow(Cfg(), old(World()), Views(newcomers)) && maxHorizon == r.value.high
      ensures r.Ok? ==> Views(events) == Remaining(old(Views(events)))
      ensures r.Ok? ==> (forall e :: e in events || e in newcomers ==> e in yielded)
      ensures forall e :: e in events ==> e in old(events)
      ensures forall e :: e in old(events) && IsLive(old(e.View())) ==> e in events
      ensures forall e :: e in yielded ==> e in old(events) || e in newcomers
    {
      hide IsLive, DistinctUids, Remaining, GetVariables, Gathered, Readable, Stopped, Simulated, Yielded, VariablesOf;
      ghost var olds, before, views := events, Views(events), Views(newcomers);
      var found;
      found, yielded := ReadAll(newcomers);
      assert Views(olds) == before && Views(newcomers) == views;
      vars := [];
      if found.Err? {
        KeptOnFailure(olds, events, views, found.error);
        return Err(found.error), yielded, vars;
      }
      AllLiveStay(olds, events);
      vars := found.value.vars;
      GatheredMeans(Views(yielded), found.value);
      var w := Span(found.value, Views(yielded));
      maxHorizon := if maxHorizon < w.high then w.high else maxHorizon;
      r := Ok(w.(high := maxHorizon));
    }

    /** The window of the collected edges. */
    method Span(found: Found, ghost seen: seq<Record>) returns (w: Window)
      requires Gathered(seen, found)
      ensures w == Simulated(Ranges(seen), horizon)
    {
      hide Lows, Highs, OpenBelow, OpenAbove, MinOf, MaxOf, GetVariables, Ranges;
      var lows, highs := found.lows, found.highs;
      if highs == [] && lows == [] {
        return Window(0, horizon);
      }
      if highs == [] {
        return Window(MinOf(lows), MaxOf(lows) + horizon);
      }
      if lows == [] {
        return Window(MinOf(highs) - horizon, MaxOf(highs));
      }
      var low, high := MinOf(lows), MaxOf(highs);
      var diff := high - low;
      if diff < horizon {
        if found.noneMin && found.noneMax {
          diff := HalfToEven(horizon - diff);
          high := high + diff;
          low := low - diff;
        } else if found.noneMin {
          low := high - horizon;
        } else if found.noneMax {
          high := low + horizon;
        }
      }
      w := Window(low, high);
    }

    /** The model of the yielded events: their variables, the sorted queue's chain, and the capacities. */
    method BuildModel(yielded: seq<Event>, vars: seq<Variables>, w: Window) returns (m: Model, ghost order: seq<nat>)
      requires DistinctUids(Views(yielded)) && VariablesOf(Views(yielded), vars) && AllComparable(Views(yielded))
      ensures BookValid(BookOf(Views(yielded))) && Arranged(order, BookOf(Views(yielded)))
      ensures m == Compile(BookOf(Views(yielded)), order, w, bufferInput)
      ensures m.events.Keys == BookOf(Views(yielded)).Keys
      ensures m.inputCapacity == m.outputCapacity == bufferInput
    {
      hide GetVariables, BookOf, Arranged, CompileEvent, Comparable, Ahead, Chain, Consistent, InOrder;
      ghost var views := Views(yielded);
      ghost var book := BookOf(views);
      var built: map<nat, EventModel> := map[];
      for i := 0 to |yielded|
        invariant Views(yielded) == views
        invariant BuiltUpTo(views, vars, w, i, built)
      {
        BuiltNext(views, vars, w, i, built);
        built := built[yielded[i].uid := CompileEvent(vars[i], w)];
      }
      AllBuilt(views, vars, w, built);

      var sorted := Sort(Views(yielded));
      order := Uids(sorted);
      SortedUids(views, sorted);
      var chain: set<(nat, nat)> := {};
      var previous: Option<Record> := None;
      for i := 0 to |sorted|
        invariant previous == if i == 0 then None else Some(sorted[i-1])
        invariant chain == ChainUpTo(order, book, i)
      {
        var e := sorted[i];
        ChainNext(order, book, i);
        assert book[order[i]] == e;
        if previous.Some? && Queued(previous.value.state) && Queued(e.state) {
          chain := chain + {(previous.value.uid, e.uid)};
        }
        previous := Some(e);
      }
      ChainComplete(order, book);
      m := Model(built, chain, bufferInput, bufferInput);
    }

    /**
     * Stores the solver's times in every event of the model. The solution is relative to `offset`;
     * without one, nothing is stored.
     */
    method OptimizeModel(yielded: seq<Event>, answer: Option<Assignment>, offset: int) returns (solved: bool)
      requires DistinctUids(Views(yielded))
      requires answer.Some? ==> answer.value.Keys == BookOf(Views(yielded)).Keys
      modifies yielded
      ensures solved == answer.Some?
      ensures !solved ==> forall e :: e in yielded ==> e.View() == old(e.View())
      ensures solved ==> forall e :: e in yielded ==> e.View() == Applied(old(e.View()), ShiftAll(answer.value, offset))
      ensures forall e :: e in yielded ==> e.uid == old(e.uid) && e.state == old(e.state)
    {
      hide WriteBack, BookOf, DistinctUids;
      if answer.None? {
        return false;
      }
      AllInBook(yielded);
      ghost var times := ShiftAll(answer.value, offset);
      for i := 0 to |yielded|
        invariant forall k :: 0 <= k < i ==> yielded[k].View() == Applied(old(yielded[k].View()), times)
        invariant forall k :: i <= k < |yielded| ==> yielded[k].View() == old(yielded[k].View())
        invariant forall k :: 0 <= k < |yielded| ==> yielded[k].uid == old(yielded[k].uid) && yielded[k].state == old(yielded[k].state)
      {
        var e := yielded[i];
        assert e.uid in answer.value;
        e.Plan(Shift(answer.value[e.uid], offset));
      }
      solved := true;
    }

    /** The listed events and the newcomers are all different, and all can be compared. */
    ghost predicate Ready(newcomers: seq<Event>)
      reads this, events, newcomers
    {
      DistinctUids(Views(events) + Views(newcomers)) && AllComparable(Views(events) + Views(newcomers))
    }

    /** The first half of a planning call: the window and the model. */
    method Prepare(newcomers: seq<Event>)
      returns (r: Result<Window, Failure>, m: Model, yielded: seq<Event>, ghost order: seq<nat>)
      requires Ready(newcomers)
      modifies this`events, this`maxHorizon
      ensures r.Ok? <==> Readable(Considered(old(World()), Views(newcomers)))
      ensures r.Err? ==> maxHorizon == old(maxHorizon) &&
                         Stopped(old(Views(events)), Views(newcomers), Views(events), r.error)
      ensures r.Ok? ==> Views(events) == Remaining(old(Views(events)))
      ensures r.Ok? ==> Views(yielded) == Considered(old(World()), Views(newcomers)) && DistinctUids(Views(yielded))
      ensures r.Ok? ==> (forall e :: e in events || e in newcomers ==> e in yielded)
      ensures forall e :: e in events ==> e in old(events)
      ensures forall e :: e in old(events) && IsLive(old(e.View())) ==> e in events
      ensures forall e :: e in yielded ==> e in old(events) || e in newcomers
      ensures r.Ok? ==> Modelled(Cfg(), old(World()), Views(newcomers), order, r.value, m) && maxHorizon == r.value.high
    {
      hide GetVariables, BookOf, Arranged, Compile, Considered, AllComparable, DistinctUids, VariablesOf, Remaining,
           PlanningWindow, BookValid, Readable, Yielded, IsLive, Stopped;
      m, order := Model(map[], {}, 0, 0), [];
      ConsideredReady(Views(events), Views(newcomers));
      ConsideredIsYielded(World(), Views(newcomers));
      var vars;
      r, yielded, vars := GetEventVariables(newcomers);
      if r.Ok? {
        m, order := BuildModel(yielded, vars, r.value);
      }
    }

    /** Builds the model, asks the solver, and stores its times if it found an optimum. */
    method SolveModel(newcomers: seq<Event>, solver: Solver)
      returns (outcome: Outcome, ghost order: seq<nat>, ghost answer: Option<Assignment>)
      requires Ready(newcomers) && SoundSolver(solver)
      modifies this`events, this`maxHorizon, events, newcomers
      ensures forall e :: e in events ==> e in old(events)
      ensures forall e :: e in old(events) && IsLive(old(e.View())) ==> e in events
      ensures forall e :: e in old(events) || e in newcomers ==> e.uid == old(e.uid) && e.state == old(e.state)
      ensures DistinctUids(Views(events))
      ensures outcome.Raised? ==> maxHorizon == old(maxHorizon) &&
                                  Stopped(old(Views(events)), old(Views(newcomers)), Views(events), outcome.failure)
      ensures outcome.Raised? <==> !Readable(old(Considered(World(), Views(newcomers))))
      ensures !outcome.Raised? ==>
                Called(Cfg(), old(World()), old(Views(newcomers)), order, answer, World(), Views(newcomers))
      ensures !outcome.Raised? ==> AnswerOf(solver, Cfg(), old(World()), old(Views(newcomers)), order, answer)
      ensures !outcome.Raised? ==> outcome == if answer.Some? then Planned else CanNotSchedule
      ensures outcome.Planned? ==> forall e :: (e in old(events) && e in events) || e in newcomers ==> TookTimes(old(e.View()), e.View())
      ensures !outcome.Planned? ==> forall e :: e in old(events) || e in newcomers ==> e.View() == old(e.View())
    {
      hide GetVariables, BookOf, Arranged, Compile, Considered, AllComparable, DistinctUids, Remaining, Applied,
           Optimal, SoundSolver, PlanningWindow, BookValid, Readable, ShiftAll, IsLive, Stopped, TookTimes;
      order, answer := [], None;
      ghost var world, views := World(), Views(newcomers);
      ReadyParts(world.events, views);
      var r, m, yielded, sorted := Prepare(newcomers);
      if r.Err? {
        StoppedKeeps(world.events, views, Views(events), r.error);
        return Raised(r.error), order, answer;
      }
      order := sorted;
      var found := solver(m);
      answer := found;
      SolverAnswer(solver, Cfg(), world, views, order, r.value, m);
      assert forall i :: 0 <= i < |yielded| ==> yielded[i] in old(events) || yielded[i] in newcomers;
      ghost var considered := Views(yielded);
      UniqueWhenDistinct(considered);
      var solved := OptimizeModel(yielded, found, r.value.low);
      if solved {
        forall e | e in events || e in newcomers
          ensures TookTimes(old(e.View()), e.View())
        {
          var i :| 0 <= i < |yielded| && yielded[i] == e;
          assert considered[i] == old(e.View());
          CallIsTaken(Cfg(), world, views, order, answer.value, considered[i]);
        }
      }
      outcome := if solved then Planned else CanNotSchedule;
      CalledWhenStored(Cfg(), world, views, order, answer, World(), Views(newcomers), r.value);
      AfterCallDistinct(Cfg(), world, views, false, answer);
    }

    /**
     * Plans the event together with the listed ones and, if that works, lists it. While nothing has
     * started it works exactly when serving in order fits; on time it leaves an on-time scheduler.
     */
    method Save(e: Event, solver: Solver)
      returns (outcome: Outcome, ghost order: seq<nat>, ghost answer: Option<Assignment>)
      requires Ready([e]) && SoundSolver(solver)
      modifies this`events, this`maxHorizon, events, e
      ensures outcome.Raised? <==> !Readable(old(Considered(World(), [e.View()])))
      ensures !outcome.Raised? ==>
                && Sound(Cfg(), old(World()), [old(e.View())], order, answer)
                && World() == AfterCall(Cfg(), old(World()), [old(e.View())], true, answer)
      ensures !outcome.Raised? ==> (outcome.Planned? <==> answer.Some?)
      ensures outcome.Raised? ==> maxHorizon == old(maxHorizon) &&
                                  Stopped(old(Views(events)), [old(e.View())], Views(events), outcome.failure)
      ensures forall d :: d in events ==> d in old(events) || d == e
      ensures forall d :: d in old(events) && IsLive(old(d.View())) ==> d in events
      ensures outcome.Planned? ==> e in events
      ensures forall d :: d in old(events) || d == e ==> d.uid == old(d.uid) && d.state == old(d.state)
      ensures outcome.Planned? ==> forall d :: (d in old(events) && d in events) || d == e ==> TookTimes(old(d.View()), d.View())
      ensures !outcome.Planned? ==> forall d :: d in old(events) || d == e ==> d.View() == old(d.View())
      ensures AllWaiting(old(Views(events) + [e.View()])) && outcome.Planned? ==> ServedInTurn(Views(events))
      ensures old(Valid()) && e.uid < counter ==> Valid()
      ensures old(OnTimeWorld(Cfg(), World())) && Candidate(old(e.View())) ==>
                !outcome.Raised? && OnTimeWorld(Cfg(), World())
      ensures CompleteSolver(solver) && AllWaiting(old(Views(events) + [e.View()])) && !outcome.Raised? ==>
                (outcome.Planned? <==> Served(Cfg(), old(World()), old(e.View()), order))
    {
      hide GetVariables, Considered, AllComparable, DistinctUids, Remaining, Applied, AllWaiting, OnTimeWorld, Candidate,
           Optimal, SoundSolver, CompleteSolver, PlanningWindow, Readable, ShiftAll, AfterCall, Sound, AnswerOf, Served, IsLive, Stopped, TookTimes, ServedInTurn;
      ghost var world, view := World(), e.View();
      assert Views([e]) == [view];
      outcome, order, answer := SolveModel([e], solver);
      SaveOnTime(Cfg(), world, view, order, answer);
      SaveAccepts(solver, Cfg(), world, view, order, answer);
      SaveInTurn(Cfg(), world, view, order, answer);
      assert Views([e]) == [e.View()];
      if outcome.Planned? {
        ViewsNext(events, e);
        KeptAfterCall(Cfg(), world, [view], answer, World(), [e.View()]);
        AfterCallDistinct(Cfg(), world, [view], true, answer);
        events := events + [e];
      } else if outcome.CanNotSchedule? {
        RefusedAfterCall(Cfg(), world, [view]);
      }
    }

    /** Plans the event with the listed ones without listing it; their times are stored all the same. */
    method CanSchedule(e: Event, solver: Solver)
      returns (outcome: Outcome, ghost order: seq<nat>, ghost answer: Option<Assignment>)
      requires Ready([e]) && SoundSolver(solver)
      modifies this`events, this`maxHorizon, events, e
      ensures outcome.Raised? <==> !Readable(old(Considered(World(), [e.View()])))
      ensures !outcome.Raised? ==>
                Called(Cfg(), old(World()), [old(e.View())], order, answer, World(), [e.View()])
      ensures outcome.Raised? ==> maxHorizon == old(maxHorizon) &&
                                  Stopped(old(Views(events)), [old(e.View())], Views(events), outcome.failure)
      ensures forall d :: d in events ==> d in old(events)
      ensures forall d :: d in old(events) && IsLive(old(d.View())) ==> d in events
      ensures forall d :: d in old(events) || d == e ==> d.uid == old(d.uid) && d.state == old(d.state)
      ensures outcome.Planned? ==> forall d :: (d in old(events) && d in events) || d == e ==> TookTimes(old(d.View()), d.View())
      ensures !outcome.Planned? ==> forall d :: d in old(events) || d == e ==> d.View() == old(d.View())
      ensures old(Valid()) ==> Valid()
      ensures old(OnTimeWorld(Cfg(), World())) && Candidate(old(e.View())) ==>
                !outcome.Raised? && OnTimeWorld(Cfg(), World()) && Candidate(e.View())
    {
      hide GetVariables, Considered, AllComparable, DistinctUids, Remaining, Applied, OnTimeWorld, Candidate,
           Optimal, SoundSolver, PlanningWindow, Readable, ShiftAll, AfterCall, Sound, AnswerOf, Called, IsLive, Stopped, TookTimes;
      ghost var world, view := World(), e.View();
      assert Views([e]) == [view];
      outcome, order, answer := SolveModel([e], solver);
      assert Views([e]) == [e.View()];
      if !outcome.Raised? {
        CalledMeans(Cfg(), world, [view], order, answer, World(), [e.View()]);
      }
      ProbeOnTime(Cfg(), world, view, order, answer);
      if old(OnTimeWorld(Cfg(), World())) && Candidate(view) {
        ProbedIsCandidate(Cfg(), world, view, order, answer, World(), [e.View()]);
      }
    }

    /** Whether the listed events can be planned as they stand. On time, with a solver worth the name, they can. */
    method Validate(solver: Solver)
      returns (outcome: Outcome, ghost order: seq<nat>, ghost answer: Option<Assignment>)
      requires Ready([]) && SoundSolver(solver)
      modifies this`events, this`maxHorizon, events
      ensures outcome.Raised? <==> !Readable(old(Considered(World(), [])))
      ensures !outcome.Raised? ==> Called(Cfg(), old(World()), [], order, answer, World(), [])
      ensures outcome.Raised? ==> maxHorizon == old(maxHorizon) &&
                                  Stopped(old(Views(events)), [], Views(events), outcome.failure)
      ensures forall d :: d in events ==> d in old(events)
      ensures forall d :: d in old(events) && IsLive(old(d.View())) ==> d in events
      ensures forall d :: d in old(events) ==> d.uid == old(d.uid) && d.state == old(d.state)
      ensures outcome.Planned? ==> forall d :: d in old(events) && d in events ==> TookTimes(old(d.View()), d.View())
      ensures !outcome.Planned? ==> forall d :: d in old(events) ==> d.View() == old(d.View())
      ensures old(Valid()) ==> Valid()
      ensures old(OnTimeWorld(Cfg(), World())) ==> !outcome.Raised? && OnTimeWorld(Cfg(), World())
      ensures old(OnTimeWorld(Cfg(), World())) && CompleteSolver(solver) ==> outcome.Planned?
    {
      hide GetVariables, Considered, AllComparable, DistinctUids, Remaining, Applied, OnTimeWorld,
           Optimal, SoundSolver, CompleteSolver, PlanningWindow, Readable, ShiftAll, AfterCall, Sound, AnswerOf, IsLive, Stopped, TookTimes;
      ghost var world := World();
      assert Views([]) == [];
      outcome, order, answer := SolveModel([], solver);
      ValidateOnTime(Cfg(), world, order, answer);
      ValidateFinds(solver, Cfg(), world, order, answer);
    }
  }

  /** An event's next step, taken at its planned time, leaves an on-time scheduler on time. */
  twostate lemma OnTimeStep(s: Scheduler, e: Event)
    requires old(OnTimeWorld(s.Cfg(), s.World())) && e in s.events && old(Settled(e.View()))
    requires e.View() == Advance(old(e.View()))
    requires s.events == old(s.events) && s.maxHorizon == old(s.maxHorizon) && DistinctUids(old(Views(s.events)))
    requires forall d :: d in s.events && d != e ==> d.View() == old(d.View())
    ensures OnTimeWorld(s.Cfg(), s.World())
  {
    hide OnTimeWorld, Settled, Advance, DistinctUids;
    var before := old(s.World());
    var j :| 0 <= j < |s.events| && s.events[j] == e;
    AdvancedOnTime(s.Cfg(), before, s.World(), j);
    ListedOnce(old(Views(s.events)), old(s.events), j);
    assert s.World().events == before.events[j := Advance(before.events[j])];
  }

  lemma ListedOnce(views: seq<Record>, events: seq<Event>, j: nat)
    requires DistinctUids(views) && |views| == |events| && j < |events|
    requires forall i, k :: 0 <= i < |events| && 0 <= k < |events| && events[i] == events[k] ==> views[i] == views[k]
    ensures forall i :: 0 <= i < |events| && i != j ==> events[i] != events[j]
  {
  }
}
