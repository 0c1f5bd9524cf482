/** What the planning window does to the events that are planned in it. */
module Horizon {
  import opened Wrappers
  import opened Cumulative
  import opened Records
  import opened CpModel
  import opened Meaning
  import opened Optimum
  import opened History
  import opened Makespan
  import opened Planning

  /******* Events outside the window *******/

  /** An event leaves after its known minimum and before its known maximum. */
  lemma LeavesWithinMakespan(e: Record, v: Values, w: Window)
    requires Admits(e, v, w)
    ensures var span := GetVariables(e).value.makespan;
            && (span.low.Some? ==> span.low.value <= v.etd)
            && v.etd <= if span.high.Some? then span.high.value else w.high
  {
  }

  /** A planning call whose window ends before a known minimum has no solution, whatever the capacities. */
  lemma SolvableMeansInside(cfg: Config, world: World, candidates: seq<Record>, order: seq<nat>, r: Assignment)
    requires Readable(Considered(world, candidates)) && UidsUnique(Considered(world, candidates))
    requires BookValid(BookOf(Considered(world, candidates)))
    requires Feasible(Compile(BookOf(Considered(world, candidates)), order, PlanningWindow(cfg, world, candidates),
                              cfg.capacity), r)
    ensures MinimaInside(Ranges(Considered(world, candidates)), PlanningWindow(cfg, world, candidates))
  {
    hide GetVariables, Considered, CompileEvent, EventFeasible, Chain, Within, BookOf, Comparable, WindowOf, Shift;
    var all, w := Considered(world, candidates), PlanningWindow(cfg, world, candidates);
    BookMembers(all);
    MakespanCovers(Ranges(all), cfg.horizon, world.maxHorizon);
    forall i | 0 <= i < |all| && Ranges(all)[i].low.Some?
      ensures Ranges(all)[i].low.value <= w.high
    {
      assert all[i] in all;
      var v := Shift(r[all[i].uid], w.low);
      ShiftedBack(r[all[i].uid], w.low);
      LeavesWithinMakespan(all[i], v, w);
      assert Ranges(all)[i] == GetVariables(all[i]).value.makespan;
    }
  }

  lemma ShiftedBack(v: Values, d: int)
    ensures Shift(Shift(v, d), -d) == v
  {
  }

  /******* One that ends too early *******/

  const FREE := Etx(None, None, None)

  function At(t: int): Etx {
    Etx(Some(t), Some(t), Some(t))
  }

  /** Ten steps of work, arriving at 0 and leaving at 50. */
  const EARLY := Record(1, 10, Scheduled, At(0), At(50), None, None, None, None, false)

  /** The same work, arriving at 100 and free to leave. */
  const LATE := Record(2, 10, New, At(100), FREE, None, None, None, None, false)

  const SETUP := Config(30, 1)

  const EARLY_TIMES := Values(0, 0, 10, 50)

  /** The empty scheduler saves the early event: this is the solver's optimum. */
  const SAVED: Assignment := map[1 := EARLY_TIMES]

  lemma EarlyAlone()
    ensures Considered(World([], 30), [EARLY]) == [EARLY] && Readable([EARLY])
    ensures PlanningWindow(SETUP, World([], 30), [EARLY]) == Window(0, 50)
    ensures BookOf([EARLY]) == map[1 := EARLY] && BookValid(BookOf([EARLY]))
    ensures SortedOrder([1], BookOf([EARLY]))
  {
    assert Ranges([EARLY]) == [Range(Some(0), Some(50))];
    assert [EARLY][..0] == [];
    assert Ranges([EARLY])[..0] == [];
    assert 1 in [1];
    OneRange();
  }

  function Known(t: Option<int>): seq<int> {
    if t.Some? then [t.value] else []
  }

  lemma EdgesOf(a: Range, b: Range)
    ensures Lows([a]) == Known(a.low) && Highs([a]) == Known(a.high)
    ensures Lows([a, b]) == Known(a.low) + Known(b.low) && Highs([a, b]) == Known(a.high) + Known(b.high)
  {
    assert [a][..0] == [] && [a, b][..1] == [a];
    assert Lows([]) == [] && Highs([]) == [];
    assert Lows([a]) == Known(a.low) && Highs([a]) == Known(a.high);
  }

  lemma ExtremesOf(x: int, y: int)
    requires x <= y
    ensures MinOf([x]) == MaxOf([x]) == x && MinOf([x, y]) == x && MaxOf([x, y]) == y
  {
    assert [x, y][..1] == [x];
  }

  lemma OneRange()
    ensures WindowOf([Range(Some(0), Some(50))], 30, 30) == Window(0, 50)
  {
    hide Lows, Highs, MinOf, MaxOf, OpenBelow, OpenAbove;
    EdgesOf(Range(Some(0), Some(50)), Range(None, None));
    ExtremesOf(0, 0);
    ExtremesOf(50, 50);
  }

  lemma EarlyIsSaved()
    ensures Sound(SETUP, World([], 30), [EARLY], [1], Some(SAVED))
    ensures AfterCall(SETUP, World([], 30), [EARLY], true, Some(SAVED)) ==
            World([WriteBack(EARLY, EARLY_TIMES)], 50)
  {
    hide Considered, PlanningWindow, Readable, BookOf, SortedOrder, BookValid, Feasible, Compile, Cost;
    EarlyAlone();
    EarlyOptimal();
    assert Considered(World([], 30), [EARLY]) == [EARLY];
    assert ShiftAll(SAVED, 0) == SAVED;
    assert AppliedAll([], SAVED) == [] && AppliedAll([EARLY], SAVED) == [WriteBack(EARLY, EARLY_TIMES)];
  }

  ghost predicate SavedWithin(m: Model) {
    Within(InputSpans(m, SAVED), 1) && Within(ProcessSpans(SAVED), 1) && Within(OutputSpans(SAVED), 1)
  }

  lemma SavedFits(m: Model)
    requires m.events.Keys == {1}
    ensures SavedWithin(m)
  {
    hide Within;
    OneFits(InputSpans(m, SAVED), 1);
    OneFits(ProcessSpans(SAVED), 1);
    OneFits(OutputSpans(SAVED), 1);
  }

  lemma OneFits(spans: map<nat, Span>, u: nat)
    requires spans.Keys <= {u}
    ensures Within(spans, 1)
  {
    forall t
      ensures |Cumulative.At(spans, t)| <= 1
    {
      SubsetSize(Cumulative.At(spans, t), {u});
    }
  }

  /** The event's departure is fixed, so every solution costs the same. */
  lemma EarlyOptimal()
    requires BookValid(map[1 := EARLY])
    ensures Optimal(Compile(map[1 := EARLY], [1], Window(0, 50), 1), SAVED)
  {
    hide Within, InputSpans, ProcessSpans, OutputSpans, Cost;
    var m := Compile(map[1 := EARLY], [1], Window(0, 50), 1);
    SavedFits(m);
    assert EventFeasible(m.events[1], SAVED[1]);
    assert Feasible(m, SAVED);
    forall b | Feasible(m, b)
      ensures Cost(SAVED.Keys, SAVED) <= Cost(b.Keys, b)
    {
      assert EventFeasible(m.events[1], b[1]);
      CostMonotone(SAVED.Keys, b, SAVED);
      assert b.Keys == SAVED.Keys;
    }
  }

  /** The scheduler after that save. */
  function Before(): World {
    World([WriteBack(EARLY, EARLY_TIMES)], 50)
  }

  function Both(): Book {
    map[1 := WriteBack(EARLY, EARLY_TIMES), 2 := LATE]
  }

  /** A live event is considered before a newcomer. */
  lemma NoHistory(listed: Record, maxHorizon: int, joining: Record)
    requires IsLive(listed)
    ensures Considered(World([listed], maxHorizon), [joining]) == [listed, joining]
  {
    hide SpanStart, SpanEnd, Reaches;
    assert [listed][..0] == [];
    assert Live([listed]) == [listed] && Retained([listed]) == [];
  }

  lemma PairInBook(a: Record, b: Record)
    requires a.uid != b.uid
    ensures BookOf([a, b]) == map[a.uid := a, b.uid := b]
  {
    assert [a, b][..1] == [a] && [a][..0] == [];
    assert BookOf([a]) == map[a.uid := a];
  }

  lemma PairRanges(a: Record, b: Record)
    requires GetVariables(a).Ok? && GetVariables(b).Ok?
    ensures Readable([a, b])
    ensures Ranges([a, b]) == [GetVariables(a).value.makespan, GetVariables(b).value.makespan]
  {
    hide GetVariables;
  }

  lemma LateBesideEarly()
    ensures Considered(Before(), [LATE]) == [WriteBack(EARLY, EARLY_TIMES), LATE]
    ensures Readable(Considered(Before(), [LATE]))
    ensures PlanningWindow(SETUP, Before(), [LATE]) == Window(0, 50)
  {
    hide Considered, Ranges, WindowOf, Readable;
    NoHistory(WriteBack(EARLY, EARLY_TIMES), 50, LATE);
    PairRanges(WriteBack(EARLY, EARLY_TIMES), LATE);
    TwoRanges();
  }

  lemma TwoRanges()
    ensures WindowOf([Range(Some(0), Some(50)), Range(Some(100), None)], 30, 50) == Window(0, 50)
  {
    hide Lows, Highs, MinOf, MaxOf, OpenBelow, OpenAbove;
    EdgesOf(Range(Some(0), Some(50)), Range(Some(100), None));
    ExtremesOf(0, 100);
    ExtremesOf(50, 50);
  }

  lemma BothInBook()
    ensures BookOf([WriteBack(EARLY, EARLY_TIMES), LATE]) == Both() && BookValid(Both())
  {
    hide BookOf;
    PairInBook(WriteBack(EARLY, EARLY_TIMES), LATE);
  }

  const ROOM: Assignment := map[1 := EARLY_TIMES, 2 := Values(100, 100, 110, 110)]

  lemma RoomAdmits()
    ensures Admits(WriteBack(EARLY, EARLY_TIMES), EARLY_TIMES, Window(0, 110))
    ensures Admits(LATE, Values(100, 100, 110, 110), Window(0, 110))
  {
  }

  lemma OneAfterTheOther(spans: map<nat, Span>)
    requires spans.Keys <= {1, 2}
    requires 1 in spans && 2 in spans ==> spans[1].end <= spans[2].start
    ensures Within(spans, 1)
  {
    UnitCapacityIffDisjoint(spans);
  }

  /** In a window that reaches further there is room for both. */
  lemma RoomForBoth()
    ensures Plan(Both(), Window(0, 110), 1, ROOM)
  {
    hide Within, GetVariables, Admits, BookValid, Comparable;
    BothInBook();
    RoomAdmits();
    OneAfterTheOther(WaitSpans(Both(), ROOM));
    OneAfterTheOther(ProcessSpans(ROOM));
    OneAfterTheOther(OutputSpans(ROOM));
  }

  /**
   * So a planned departure can shut an event out: the scheduler that has saved an event leaving at 50
   * refuses one arriving at 100, although the two never meet and a window of more than a horizon would
   * hold them both.
   */
  lemma WindowMayEndTooEarly()
    ensures Acceptable(EARLY.eta, EARLY.etd) && Acceptable(LATE.eta, LATE.etd)
    ensures Sound(SETUP, World([], 30), [EARLY], [1], Some(SAVED))
    ensures Before() == AfterCall(SETUP, World([], 30), [EARLY], true, Some(SAVED))
    ensures Readable(Considered(Before(), [LATE])) && BookValid(BookOf(Considered(Before(), [LATE])))
    ensures forall order, r :: !Feasible(Compile(BookOf(Considered(Before(), [LATE])), order,
                                                 PlanningWindow(SETUP, Before(), [LATE]), 1), r)
    ensures Plan(BookOf(Considered(Before(), [LATE])), Window(0, 110), 1, ROOM)
  {
    hide Considered, PlanningWindow, Readable, BookOf, SortedOrder, BookValid, Feasible, Compile, Plan, Sound, AfterCall,
         Ranges;
    EarlyIsSaved();
    LateBesideEarly();
    BothInBook();
    RoomForBoth();
    var all := Considered(Before(), [LATE]);
    assert UidsUnique(all);
    forall order, r
      ensures !Feasible(Compile(BookOf(all), order, PlanningWindow(SETUP, Before(), [LATE]), 1), r)
    {
      if Feasible(Compile(BookOf(all), order, PlanningWindow(SETUP, Before(), [LATE]), 1), r) {
        SolvableMeansInside(SETUP, Before(), [LATE], order, r);
        LateOutside(all);
      }
    }
  }

  lemma LateOutside(all: seq<Record>)
    requires all == [WriteBack(EARLY, EARLY_TIMES), LATE] && Readable(all)
    ensures !MinimaInside(Ranges(all), Window(0, 50))
  {
    assert Ranges(all)[1] == Range(Some(100), None);
  }

  /******* One that is a step short *******/

  /** An event whose arrival bounds were withdrawn, leaving at 129. */
  const UNBOUND := Record(3, 10, New, Etx(Some(110), None, None), At(129), None, None, None, None, false)

  /** Beside an event free to leave it opens the window on both sides: it is 29 steps long, not 30. */
  lemma WindowMayBeShort()
    ensures Considered(World([LATE], 30), [UNBOUND]) == [LATE, UNBOUND]
    ensures Readable([LATE, UNBOUND])
    ensures PlanningWindow(SETUP, World([LATE], 30), [UNBOUND]) == Window(100, 129)
    ensures 129 - 100 < SETUP.horizon
  {
    hide Considered, Ranges, WindowOf, Readable;
    NoHistory(LATE, 30, UNBOUND);
    PairRanges(LATE, UNBOUND);
    OpenRanges();
  }

  lemma OpenRanges()
    ensures WindowOf([Range(Some(100), None), Range(None, Some(129))], 30, 30) == Window(100, 129)
  {
    hide Lows, Highs, MinOf, MaxOf;
    var ranges := [Range(Some(100), None), Range(None, Some(129))];
    EdgesOf(ranges[0], ranges[1]);
    ExtremesOf(100, 100);
    ExtremesOf(129, 129);
    assert ranges[0].high.None? && ranges[1].low.None?;
  }
}
