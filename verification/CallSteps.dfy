/** The steps of a planning call on values, each beside the loop or method of the scheduler it belongs to. */
module CallSteps {
  import opened Wrappers
  import opened Records
  import opened CpModel
  import opened Meaning
  import opened History
  import opened Makespan
  import opened Planning
  import opened OnTime
  import opened Runs
  import opened Admission
  import opened Acceptance
  import opened Reading
  import opened Sorting
  import opened Solvers

  /******* One step of the survey *******/

  lemma FilterNext(s: seq<Record>, i: nat, p: Record -> bool)
    requires i < |s|
    ensures Filter(s[..i+1], p) == if p(s[i]) then Filter(s[..i], p) + [s[i]] else Filter(s[..i], p)
  {
    assert s[..i+1][..i] == s[..i];
  }

  function EarlierStart(live: seq<Record>, from: Option<int>, e: Record): Option<int> {
    var earliest := EarliestKnown(e);
    if live == [] || earliest.None? then earliest
    else if from.None? || from.value <= earliest.value then from
    else earliest
  }

  function LaterEnd(live: seq<Record>, to: Option<int>, e: Record): Option<int> {
    var latest := LatestKnown(e);
    if live == [] || latest.None? then latest
    else if to.None? || latest.value <= to.value then to
    else latest
  }

  lemma SpanNext(live: seq<Record>, e: Record)
    ensures SpanStart(live + [e]) == EarlierStart(live, SpanStart(live), e)
    ensures SpanEnd(live + [e]) == LaterEnd(live, SpanEnd(live), e)
  {
    hide EarliestKnown, LatestKnown;
    assert (live + [e])[..|live|] == live;
  }

  /******* Deciding on the history *******/

  function Gone(): Record -> bool {
    (e: Record) => !IsLive(e)
  }

  function Reaching(from: Option<int>, to: Option<int>): Record -> bool {
    (e: Record) => Reaches(e, from, to)
  }

  lemma DecideOnGone(events: seq<Record>, from: Option<int>, to: Option<int>, pending: set<nat>, gone: seq<Record>, k: nat)
    requires DistinctUids(events) && gone == Filter(events, Gone()) && k < |gone| && gone[k].uid in pending
    ensures Reaching(from, to)(gone[k]) == Reaches(gone[k], from, to)
    ensures var listed := Filter(events, StillListed(from, to, pending));
            && DistinctUids(listed)
            && (exists i :: 0 <= i < |listed| && listed[i].uid == gone[k].uid)
            && Filter(events, StillListed(from, to, pending - {gone[k].uid})) ==
               if Reaches(gone[k], from, to) then listed else Filter(listed, Other(gone[k].uid))
  {
    hide Reaches;
    assert gone[k] in gone;
    DecideOn(events, from, to, pending, gone[k]);
    StillThere(events, StillListed(from, to, pending), gone[k], Filter(events, StillListed(from, to, pending)));
    FilterKeepsDistinct(events, StillListed(from, to, pending));
  }

  function UidSet(s: seq<Record>): set<nat> {
    set e | e in s :: e.uid
  }

  lemma AllPending(events: seq<Record>, from: Option<int>, to: Option<int>, gone: seq<Record>)
    requires gone == Filter(events, Gone())
    ensures Filter(events, StillListed(from, to, UidSet(gone))) == events
  {
    FilterAll(events, StillListed(from, to, UidSet(gone)));
  }

  lemma NonePending(events: seq<Record>)
    ensures var from, to := SpanStart(Live(events)), SpanEnd(Live(events));
            Filter(events, StillListed(from, to, {})) == Remaining(events)
  {
    var from, to := SpanStart(Live(events)), SpanEnd(Live(events));
    FilterSame(events, StillListed(from, to, {}), (e: Record) => IsLive(e) || Reaches(e, from, to));
  }

  lemma RetainedOfGone(events: seq<Record>, gone: seq<Record>)
    requires gone == Filter(events, Gone())
    ensures var from, to := SpanStart(Live(events)), SpanEnd(Live(events));
            Filter(gone, Reaching(from, to)) == Retained(events)
  {
    var from, to := SpanStart(Live(events)), SpanEnd(Live(events));
    FilterBoth(events, Gone(), Reaching(from, to), (e: Record) => !IsLive(e) && Reaches(e, from, to));
  }

  lemma PendingNext(gone: seq<Record>, k: nat)
    requires DistinctUids(gone) && k < |gone|
    ensures gone[k].uid in UidSet(gone[k..])
    ensures UidSet(gone[k+1..]) == UidSet(gone[k..]) - {gone[k].uid}
  {
    assert gone[k..] == [gone[k]] + gone[k+1..];
  }

  lemma EmptyUidSet(gone: seq<Record>)
    ensures UidSet(gone[|gone|..]) == {}
  {
  }

  /** What is listed once the first `k` of the others have been decided on. */
  function ListedAt(events: seq<Record>, from: Option<int>, to: Option<int>, gone: seq<Record>, k: nat): seq<Record>
    requires k <= |gone|
  {
    Filter(events, StillListed(from, to, UidSet(gone[k..])))
  }

  /** And which of them have been kept. */
  function KeptAt(from: Option<int>, to: Option<int>, gone: seq<Record>, k: nat): seq<Record>
    requires k <= |gone|
  {
    Filter(gone[..k], Reaching(from, to))
  }

  lemma NoneDecided(events: seq<Record>, from: Option<int>, to: Option<int>, gone: seq<Record>)
    requires gone == Filter(events, Gone())
    ensures ListedAt(events, from, to, gone, 0) == events && KeptAt(from, to, gone, 0) == []
  {
    hide Filter, Gone, Reaching;
    assert gone[0..] == gone;
    AllPending(events, from, to, gone);
    NothingFiltered(Reaching(from, to));
  }

  lemma AllDecided(events: seq<Record>, from: Option<int>, to: Option<int>, gone: seq<Record>)
    ensures ListedAt(events, from, to, gone, |gone|) == Filter(events, StillListed(from, to, {}))
    ensures KeptAt(from, to, gone, |gone|) == Filter(gone, Reaching(from, to))
  {
    EmptyUidSet(gone);
    assert gone[..|gone|] == gone;
  }

  lemma DecideNext(events: seq<Record>, from: Option<int>, to: Option<int>, gone: seq<Record>, k: nat)
    requires DistinctUids(events) && gone == Filter(events, Gone()) && k < |gone|
    ensures var listed := ListedAt(events, from, to, gone, k);
            && DistinctUids(listed)
            && (exists i :: 0 <= i < |listed| && listed[i].uid == gone[k].uid)
            && ListedAt(events, from, to, gone, k + 1) ==
               if Reaches(gone[k], from, to) then listed else Filter(listed, Other(gone[k].uid))
    ensures KeptAt(from, to, gone, k + 1) ==
            KeptAt(from, to, gone, k) + if Reaches(gone[k], from, to) then [gone[k]] else []
  {
    hide Filter, Reaches, IsLive, StillListed, Gone, Other, UidSet, DistinctUids;
    FilterKeepsDistinct(events, Gone());
    PendingNext(gone, k);
    DecideOnGone(events, from, to, UidSet(gone[k..]), gone, k);
    FilterNext(gone, k, Reaching(from, to));
  }

  lemma HistoryDecided(events: seq<Record>, from: Option<int>, to: Option<int>, gone: seq<Record>, k: nat)
    requires gone == Filter(events, Gone()) && k == |gone|
    requires from == SpanStart(Live(events)) && to == SpanEnd(Live(events))
    ensures ListedAt(events, from, to, gone, k) == Remaining(events)
    ensures KeptAt(from, to, gone, k) == Retained(events)
  {
    hide Filter, Reaches, SpanStart, SpanEnd, Live, ListedAt, KeptAt, StillListed, Reaching, Gone, Remaining, Retained;
    AllDecided(events, from, to, gone);
    RetainedOfGone(events, gone);
    NonePending(events);
  }

  lemma StillThere(events: seq<Record>, keep: Record -> bool, e: Record, listed: seq<Record>)
    requires e in events && keep(e) && listed == Filter(events, keep)
    ensures exists i :: 0 <= i < |listed| && listed[i].uid == e.uid
  {
    var i :| 0 <= i < |listed| && listed[i] == e;
  }

  /******* Collecting the edges of the window *******/

  ghost predicate Edges(ranges: seq<Range>, lows: seq<int>, highs: seq<int>, noneMin: bool, noneMax: bool) {
    lows == Lows(ranges) && highs == Highs(ranges) && noneMin == OpenBelow(ranges) && noneMax == OpenAbove(ranges)
  }

  lemma NoEdges()
    ensures Edges([], [], [], false, false)
  {
  }

  lemma NextEdges(ranges: seq<Range>, r: Range, lows: seq<int>, highs: seq<int>, noneMin: bool, noneMax: bool)
    requires Edges(ranges, lows, highs, noneMin, noneMax)
    ensures Edges(ranges + [r],
                  lows + if r.low.Some? then [r.low.value] else [], highs + if r.high.Some? then [r.high.value] else [],
                  noneMin || r.low.None?, noneMax || r.high.None?)
  {
    var more := ranges + [r];
    assert more[..|ranges|] == ranges;
    assert forall i :: 0 <= i < |ranges| ==> more[i] == ranges[i];
    assert more[|ranges|] == r;
    if noneMin {
      var i :| 0 <= i < |ranges| && ranges[i].low.None?;
      assert more[i].low.None?;
    }
    if noneMax {
      var i :| 0 <= i < |ranges| && ranges[i].high.None?;
      assert more[i].high.None?;
    }
  }

  ghost predicate VariablesOf(s: seq<Record>, vars: seq<Variables>) {
    |vars| == |s| && forall i :: 0 <= i < |s| ==> GetVariables(s[i]) == Ok(vars[i])
  }

  /** What reading has gathered so far: the variables, and the known edges of the window. */
  datatype Found = Found(vars: seq<Variables>, lows: seq<int>, highs: seq<int>, noneMin: bool, noneMax: bool)

  ghost predicate Gathered(s: seq<Record>, f: Found) {
    Readable(s) && VariablesOf(s, f.vars) && Edges(Ranges(s), f.lows, f.highs, f.noneMin, f.noneMax)
  }

  lemma NothingGathered()
    ensures Gathered([], Found([], [], [], false, false))
  {
    NoEdges();
  }

  lemma GatherNext(s: seq<Record>, e: Record, f: Found, vars: Variables)
    requires Gathered(s, f) && GetVariables(e) == Ok(vars)
    ensures var span := vars.makespan;
            Gathered(s + [e],
                     Found(f.vars + [vars],
                           f.lows + if span.low.Some? then [span.low.value] else [],
                           f.highs + if span.high.Some? then [span.high.value] else [],
                           f.noneMin || span.low.None?, f.noneMax || span.high.None?))
  {
    hide GetVariables, Edges;
    NextEdges(Ranges(s), vars.makespan, f.lows, f.highs, f.noneMin, f.noneMax);
    assert Ranges(s + [e]) == Ranges(s) + [vars.makespan];
  }

  lemma GatheredPart(s: seq<Record>, t: seq<Record>, f: Found)
    requires Gathered(s + t, f)
    ensures Readable(s) && Readable(t)
  {
    hide GetVariables, Edges;
    assert forall i :: 0 <= i < |s| ==> s[i] == (s + t)[i];
    assert forall i :: 0 <= i < |t| ==> t[i] == (s + t)[|s| + i];
  }

  lemma ReadableParts(s: seq<Record>, t: seq<Record>, f: Found)
    requires Gathered(s + t, f)
    ensures Readable(s + t)
  {
  }

  lemma GatheredMeans(s: seq<Record>, f: Found)
    requires Gathered(s, f)
    ensures Readable(s) && VariablesOf(s, f.vars)
  {
  }

  /** Reading `s` one by one raises this failure. */
  ghost predicate Fails(s: seq<Record>, failure: Failure) {
    exists i :: 0 <= i < |s| && Readable(s[..i]) && GetVariables(s[i]) == Err(failure)
  }

  /**
   * Where reading stops with a failure, and what it leaves listed: history is pruned as far as the lazy
   * generator had come. `k` of the events that are not live had been decided on.
   */
  ghost predicate StopsAfter(events: seq<Record>, newcomers: seq<Record>, k: nat, left: seq<Record>, failure: Failure) {
    var from, to, gone := SpanStart(Live(events)), SpanEnd(Live(events)), Filter(events, Gone());
    && k <= |gone| && left == ListedAt(events, from, to, gone, k)
    && if k == 0 && !Readable(Live(events)) then Fails(Live(events), failure)
       else if k < |gone| then
         && Readable(Live(events)) && Readable(KeptAt(from, to, gone, k))
         && Reaches(gone[k], from, to) && GetVariables(gone[k]) == Err(failure)
       else Readable(Live(events) + Retained(events)) && Fails(newcomers, failure)
  }

  ghost predicate Stopped(events: seq<Record>, newcomers: seq<Record>, left: seq<Record>, failure: Failure) {
    exists k :: StopsAfter(events, newcomers, k, left, failure)
  }

  lemma StopsInHistory(events: seq<Record>, newcomers: seq<Record>, k: nat, left: seq<Record>, failure: Failure)
    requires var from, to, gone := SpanStart(Live(events)), SpanEnd(Live(events)), Filter(events, Gone());
             && k < |gone| && left == ListedAt(events, from, to, gone, k)
             && Readable(Live(events)) && Readable(KeptAt(from, to, gone, k))
             && Reaches(gone[k], from, to) && GetVariables(gone[k]) == Err(failure)
    ensures Stopped(events, newcomers, left, failure)
  {
    hide GetVariables, SpanStart, SpanEnd, Live, KeptAt, ListedAt, Filter, Readable, Reaches, Gone;
    assert StopsAfter(events, newcomers, k, left, failure);
  }

  lemma StopsAtNewcomers(events: seq<Record>, newcomers: seq<Record>, left: seq<Record>, failure: Failure)
    requires left == Remaining(events)
    requires Readable(Live(events) + Retained(events)) && Fails(newcomers, failure)
    ensures Stopped(events, newcomers, left, failure)
  {
    hide GetVariables, SpanStart, SpanEnd, Live, KeptAt, Filter, Reaches, Gone, Retained, Remaining, StillListed, Fails;
    var from, to, gone := SpanStart(Live(events)), SpanEnd(Live(events)), Filter(events, Gone());
    AllDecided(events, from, to, gone);
    NonePending(events);
    var all := Live(events) + Retained(events);
    assert forall i :: 0 <= i < |Live(events)| ==> Live(events)[i] == all[i];
    assert StopsAfter(events, newcomers, |gone|, left, failure);
  }

  lemma StopsAtLive(events: seq<Record>, newcomers: seq<Record>, failure: Failure)
    requires Fails(Live(events), failure)
    ensures Stopped(events, newcomers, events, failure)
  {
    hide GetVariables, SpanStart, SpanEnd, Live, KeptAt, ListedAt, Filter;
    NoneDecided(events, SpanStart(Live(events)), SpanEnd(Live(events)), Filter(events, Gone()));
    assert StopsAfter(events, newcomers, 0, events, failure);
  }

  lemma StoppedMeansUnreadable(events: seq<Record>, newcomers: seq<Record>, left: seq<Record>, failure: Failure)
    requires Stopped(events, newcomers, left, failure)
    ensures !Readable(Yielded(events, newcomers))
  {
    hide GetVariables, Reaches, SpanStart, SpanEnd, ListedAt, KeptAt;
    var k: nat :| StopsAfter(events, newcomers, k, left, failure);
    var gone, all := Filter(events, Gone()), Yielded(events, newcomers);
    if k == 0 && !Readable(Live(events)) {
      var i :| 0 <= i < |Live(events)| && GetVariables(Live(events)[i]).Err?;
      assert all[i] == Live(events)[i];
    } else if k < |gone| {
      assert gone[k] in gone && gone[k] in Retained(events) && gone[k] in all;
    } else {
      var i :| 0 <= i < |newcomers| && GetVariables(newcomers[i]) == Err(failure);
      assert all[|Live(events)| + |Retained(events)| + i] == newcomers[i];
    }
  }

  lemma StoppedKeeps(events: seq<Record>, newcomers: seq<Record>, left: seq<Record>, failure: Failure)
    requires Stopped(events, newcomers, left, failure) && DistinctUids(events)
    ensures DistinctUids(left) && forall e :: e in events && IsLive(e) ==> e in left
  {
    hide GetVariables, Reaches, SpanStart, SpanEnd, KeptAt, IsLive, DistinctUids;
    var k: nat :| StopsAfter(events, newcomers, k, left, failure);
    var from, to, gone := SpanStart(Live(events)), SpanEnd(Live(events)), Filter(events, Gone());
    FilterKeepsDistinct(events, StillListed(from, to, UidSet(gone[k..])));
  }

  /******* Building the model step by step *******/

  ghost predicate BuiltUpTo(s: seq<Record>, vars: seq<Variables>, w: Window, i: nat, built: map<nat, EventModel>)
    requires |vars| == |s| && i <= |s|
  {
    && (forall k :: 0 <= k < i ==> s[k].uid in built && built[s[k].uid] == CompileEvent(vars[k], w))
    && (forall u :: u in built ==> exists k :: 0 <= k < i && s[k].uid == u)
  }

  lemma BuiltNext(s: seq<Record>, vars: seq<Variables>, w: Window, i: nat, built: map<nat, EventModel>)
    requires DistinctUids(s) && |vars| == |s| && i < |s| && BuiltUpTo(s, vars, w, i, built)
    ensures BuiltUpTo(s, vars, w, i + 1, built[s[i].uid := CompileEvent(vars[i], w)])
  {
    hide CompileEvent;
    var more := built[s[i].uid := CompileEvent(vars[i], w)];
    forall u | u in more
      ensures exists k :: 0 <= k < i + 1 && s[k].uid == u
    {
      if u in built {
        var k :| 0 <= k < i && s[k].uid == u;
        assert s[k].uid == u;
      } else {
        assert s[i].uid == u;
      }
    }
  }

  lemma AllBuilt(s: seq<Record>, vars: seq<Variables>, w: Window, built: map<nat, EventModel>)
    requires DistinctUids(s) && VariablesOf(s, vars) && BuiltUpTo(s, vars, w, |s|, built)
    ensures Readable(s)
    ensures forall u :: u in BookOf(s) ==> GetVariables(BookOf(s)[u]).Ok?
    ensures built == map u | u in BookOf(s) :: CompileEvent(GetVariables(BookOf(s)[u]).value, w)
  {
    hide CompileEvent, GetVariables, BookOf;
    UniqueWhenDistinct(s);
    BookMembers(s);
    forall u | u in BookOf(s)
      ensures u in built && GetVariables(BookOf(s)[u]).Ok? &&
              built[u] == CompileEvent(GetVariables(BookOf(s)[u]).value, w)
    {
      var k :| 0 <= k < |s| && s[k] == BookOf(s)[u];
    }
    forall u | u in built
      ensures u in BookOf(s)
    {
      var k :| 0 <= k < |s| && s[k].uid == u;
      assert s[k] in s;
    }
  }

  ghost function ChainUpTo(order: seq<nat>, book: Book, i: nat): set<(nat, nat)>
    requires i <= |order|
  {
    set k {:trigger Linked(order, book, k)} | 0 <= k < i - 1 && Linked(order, book, k) :: (order[k], order[k+1])
  }

  lemma ChainNext(order: seq<nat>, book: Book, i: nat)
    requires i < |order|
    ensures ChainUpTo(order, book, i + 1) ==
            ChainUpTo(order, book, i) +
            if i > 0 && BothQueued(book, order[i-1], order[i]) then {(order[i-1], order[i])} else {}
  {
    if i > 0 && BothQueued(book, order[i-1], order[i]) {
      assert Linked(order, book, i - 1);
    }
  }

  lemma ChainComplete(order: seq<nat>, book: Book)
    ensures ChainUpTo(order, book, |order|) == Chain(order, book)
  {
  }

  lemma RemainingIsYielded(events: seq<Record>)
    ensures forall e :: e in Remaining(events) ==> e in Live(events) + Retained(events)
  {
  }

  lemma ConsideredReady(events: seq<Record>, candidates: seq<Record>)
    requires DistinctUids(events + candidates) && AllComparable(events + candidates)
    ensures DistinctUids(events)
    ensures DistinctUids(Yielded(events, candidates)) && AllComparable(Yielded(events, candidates))
  {
    hide Comparable, Reaches, SpanStart, SpanEnd;
    var all := events + candidates;
    assert forall i :: 0 <= i < |events| ==> events[i] == all[i];
    assert DistinctUids(events);
    var from, to := SpanStart(Live(events)), SpanEnd(Live(events));
    FilterKeepsDistinct(events, IsLive);
    FilterKeepsDistinct(events, e => !IsLive(e) && Reaches(e, from, to));
    PartsApart(Live(events), Retained(events), events);
    DistinctParts(events, candidates);
    JoinDistinct(Live(events), Retained(events));
    JoinDistinct(Live(events) + Retained(events), candidates);
    forall i | 0 <= i < |Yielded(events, candidates)|
      ensures Comparable(Yielded(events, candidates)[i])
    {
      assert Yielded(events, candidates)[i] in all;
    }
  }

  lemma ReadyParts(events: seq<Record>, candidates: seq<Record>)
    requires DistinctUids(events + candidates)
    ensures DistinctUids(events) && DistinctUids(Remaining(events))
  {
    hide Reaches, SpanStart, SpanEnd;
    assert forall i :: 0 <= i < |events| ==> events[i] == (events + candidates)[i];
    assert DistinctUids(events);
    var from, to := SpanStart(Live(events)), SpanEnd(Live(events));
    FilterKeepsDistinct(events, e => IsLive(e) || Reaches(e, from, to));
  }

  lemma PartsApart(a: seq<Record>, b: seq<Record>, events: seq<Record>)
    requires DistinctUids(events)
    requires forall e :: e in a ==> e in events && IsLive(e)
    requires forall e :: e in b ==> e in events && !IsLive(e)
    ensures forall e, f :: e in a && f in b ==> e.uid != f.uid
  {
    UniqueWhenDistinct(events);
  }

  lemma DistinctParts(a: seq<Record>, b: seq<Record>)
    requires DistinctUids(a + b)
    ensures DistinctUids(b)
    ensures forall e, f :: e in a && f in b ==> e.uid != f.uid
  {
    forall e, f | e in a && f in b
      ensures e.uid != f.uid
    {
      var i :| 0 <= i < |a| && a[i] == e;
      var j :| 0 <= j < |b| && b[j] == f;
      assert (a + b)[i] == e && (a + b)[|a| + j] == f;
    }
    assert forall j :: 0 <= j < |b| ==> b[j] == (a + b)[|a| + j];
  }

  lemma JoinDistinct(a: seq<Record>, b: seq<Record>)
    requires DistinctUids(a) && DistinctUids(b)
    requires forall e, f :: e in a && f in b ==> e.uid != f.uid
    ensures DistinctUids(a + b)
  {
  }

  /******* One planning call *******/

  lemma ConsideredIsYielded(world: World, candidates: seq<Record>)
    ensures Considered(world, candidates) == Yielded(world.events, candidates)
  {
  }

  /** `w` and `m` are the window and the model of this planning call. */
  ghost predicate Modelled(cfg: Config, world: World, candidates: seq<Record>, order: seq<nat>, w: Window, m: Model) {
    var book := BookOf(Considered(world, candidates));
    && Readable(Considered(world, candidates))
    && BookValid(book) && Arranged(order, book)
    && w == PlanningWindow(cfg, world, candidates)
    && m == Compile(book, order, w, cfg.capacity)
  }

  /** What a planning call did: the state and the newcomers it leaves, given the solver's answer. */
  ghost predicate Called(cfg: Config, before: World, candidates: seq<Record>, order: seq<nat>, answer: Option<Assignment>,
                         after: World, planned: seq<Record>) {
    && Sound(cfg, before, candidates, order, answer)
    && after == AfterCall(cfg, before, candidates, false, answer)
    && planned == if answer.None? then candidates
                  else AppliedAll(candidates, ShiftAll(answer.value, PlanningWindow(cfg, before, candidates).low))
  }

  /** The answer is the solver's on the model of this call. */
  ghost predicate AnswerOf(solver: Solver, cfg: Config, world: World, candidates: seq<Record>, order: seq<nat>,
                           answer: Option<Assignment>) {
    exists w, m :: Modelled(cfg, world, candidates, order, w, m) && answer == solver(m)
  }

  lemma CalledMeans(cfg: Config, before: World, candidates: seq<Record>, order: seq<nat>, answer: Option<Assignment>,
                    after: World, planned: seq<Record>)
    requires Called(cfg, before, candidates, order, answer, after, planned)
    ensures Sound(cfg, before, candidates, order, answer)
    ensures after == AfterCall(cfg, before, candidates, false, answer)
  {
  }

  lemma SolverAnswer(solver: Solver, cfg: Config, world: World, candidates: seq<Record>, order: seq<nat>, w: Window, m: Model)
    requires SoundSolver(solver) && Modelled(cfg, world, candidates, order, w, m)
    ensures Sound(cfg, world, candidates, order, solver(m))
    ensures AnswerOf(solver, cfg, world, candidates, order, solver(m))
    ensures solver(m).Some? ==> solver(m).value.Keys == BookOf(Considered(world, candidates)).Keys
  {
    hide GetVariables, BookOf, Arranged, Considered, PlanningWindow, BookValid, Readable;
    assert solver(m).Some? ==> Optimal(m, solver(m).value);
  }

  /** Serving the queue with the candidate in order, each as soon as possible, fits window and buffer. */
  ghost predicate Served(cfg: Config, world: World, c: Record, order: seq<nat>) {
    var book := BookOf(world.events + [c]);
    && Readable(Considered(world, [c]))
    && Queue(order, book)
    && FitsHorizon(order, book, PlanningWindow(cfg, world, [c]).high)
    && FitsBuffer(order, book, cfg.capacity)
  }

  lemma SaveAccepts(solver: Solver, cfg: Config, world: World, c: Record, order: seq<nat>, answer: Option<Assignment>)
    requires DistinctUids(world.events + [c])
    ensures SoundSolver(solver) && CompleteSolver(solver) && AllWaiting(world.events + [c]) &&
            Sound(cfg, world, [c], order, answer) && AnswerOf(solver, cfg, world, [c], order, answer) ==>
            (answer.Some? <==> Served(cfg, world, c, order))
  {
    hide GetVariables, Waiting, Compile, Optimal, Feasible, SortedOrder, BookValid, FitsHorizon, FitsBuffer, PlanningWindow,
         Considered, BookOf, CompleteSolver;
    if SoundSolver(solver) && CompleteSolver(solver) && AllWaiting(world.events + [c]) &&
       Sound(cfg, world, [c], order, answer) && AnswerOf(solver, cfg, world, [c], order, answer)
    {
      var all := world.events + [c];
      UniqueWhenDistinct(all);
      assert c in all;
      assert AllWaiting(world.events) && Waiting(c);
      WaitingQueue(all, order);
      WaitingWindow(cfg, world, c);
      WaitingIsSorted(all, order);
      SaveAcceptsIff(cfg, world, c, order);
      var w, m :| Modelled(cfg, world, [c], order, w, m) && answer == solver(m);
      CompleteAnswer(solver, m);
    }
  }

  lemma SaveInTurn(cfg: Config, world: World, c: Record, order: seq<nat>, answer: Option<Assignment>)
    requires DistinctUids(world.events + [c])
    ensures AllWaiting(world.events + [c]) && Sound(cfg, world, [c], order, answer) && answer.Some? ==>
            ServedInTurn(AfterCall(cfg, world, [c], true, answer).events)
  {
    hide GetVariables, Waiting, Compile, Optimal, Arranged, BookValid, PlanningWindow, Considered, BookOf, AfterCall, Readable,
         ServedInTurn;
    if AllWaiting(world.events + [c]) && Sound(cfg, world, [c], order, answer) && answer.Some? {
      var all := world.events + [c];
      UniqueWhenDistinct(all);
      DistinctParts(world.events, [c]);
      assert c in [c] && c in all;
      WaitingWindow(cfg, world, c);
      WaitingIsSorted(all, order);
      SavedInTurn(cfg, world, c, order, answer);
    }
  }

  lemma SaveOnTime(cfg: Config, world: World, c: Record, order: seq<nat>, answer: Option<Assignment>)
    requires DistinctUids(world.events + [c])
    ensures OnTimeWorld(cfg, world) && Candidate(c) ==>
              Readable(Considered(world, [c])) &&
              (Sound(cfg, world, [c], order, answer) ==> OnTimeWorld(cfg, AfterCall(cfg, world, [c], true, answer)))
  {
    hide GetVariables, OnTimeWorld, Candidate, Considered, AfterCall, Sound, Readable, BookValid;
    if OnTimeWorld(cfg, world) && Candidate(c) {
      UniqueWhenDistinct(world.events + [c]);
      OnTimeIsReadable(cfg, world, [c]);
      if Sound(cfg, world, [c], order, answer) {
        ActionOnTime(cfg, world, Call([c], true, order, answer));
      }
    }
  }

  lemma ProbeOnTime(cfg: Config, world: World, c: Record, order: seq<nat>, answer: Option<Assignment>)
    requires DistinctUids(world.events + [c])
    ensures OnTimeWorld(cfg, world) && Candidate(c) ==>
              Readable(Considered(world, [c])) &&
              (Sound(cfg, world, [c], order, answer) ==> OnTimeWorld(cfg, AfterCall(cfg, world, [c], false, answer)))
  {
    hide GetVariables, OnTimeWorld, Candidate, Considered, AfterCall, Sound, Readable, BookValid;
    if OnTimeWorld(cfg, world) && Candidate(c) {
      UniqueWhenDistinct(world.events + [c]);
      OnTimeIsReadable(cfg, world, [c]);
      if Sound(cfg, world, [c], order, answer) {
        ActionOnTime(cfg, world, Call([c], false, order, answer));
      }
    }
  }

  /** A candidate that was probed may still be saved: it only has its planned times now. */
  lemma ProbedIsCandidate(cfg: Config, world: World, c: Record, order: seq<nat>, answer: Option<Assignment>,
                          after: World, planned: seq<Record>)
    requires DistinctUids(world.events + [c]) && OnTimeWorld(cfg, world) && Candidate(c)
    requires Called(cfg, world, [c], order, answer, after, planned)
    ensures |planned| == 1 && Candidate(planned[0])
  {
    hide GetVariables, OnTimeWorld, Candidate, Considered, AfterCall, Readable, BookValid, Compile, Feasible, SortedOrder,
         Arranged, AllSchedulable, PlanningWindow, BookOf, ShiftAll;
    if answer.Some? {
      var book, w := BookOf(Considered(world, [c])), PlanningWindow(cfg, world, [c]);
      var a := ShiftAll(answer.value, w.low);
      UniqueWhenDistinct(world.events + [c]);
      assert c in [c];
      CallBook(cfg, world, [c]);
      SchedulableIsSorted(order, book, w.high);
      ShiftInverse(answer.value, w.low);
      FeasibleIsPlan(book, order, w, cfg.capacity, a);
      ConsideredMembers(world, [c]);
      BookMembers(Considered(world, [c]));
      CandidateTakesTimes(book, w, cfg.capacity, a, c);
      assert planned[0] == Applied([c][0], a);
    }
  }

  lemma CandidateTakesTimes(book: Book, w: Window, capacity: int, a: Assignment, c: Record)
    requires Plan(book, w, capacity, a) && c.uid in book && book[c.uid] == c
    requires Candidate(c) && AllSchedulable(book, w.high)
    ensures c.uid in a && Candidate(WriteBack(c, a[c.uid]))
  {
    hide GetVariables, Admits, WriteBack, Plain, InTime;
    assert Admits(book[c.uid], a[c.uid], w);
    WriteBackSettles(c, a[c.uid], w);
  }

  lemma ValidateOnTime(cfg: Config, world: World, order: seq<nat>, answer: Option<Assignment>)
    ensures OnTimeWorld(cfg, world) ==>
              Readable(Considered(world, [])) &&
              (Sound(cfg, world, [], order, answer) ==> OnTimeWorld(cfg, AfterCall(cfg, world, [], false, answer)))
  {
    hide GetVariables, OnTimeWorld, Considered, AfterCall, Sound, Readable, BookValid;
    if OnTimeWorld(cfg, world) {
      OnTimeUnique(cfg, world);
      assert world.events + [] == world.events;
      OnTimeIsReadable(cfg, world, []);
      if Sound(cfg, world, [], order, answer) {
        ActionOnTime(cfg, world, Call([], false, order, answer));
      }
    }
  }

  lemma ValidateFinds(solver: Solver, cfg: Config, world: World, order: seq<nat>, answer: Option<Assignment>)
    ensures (OnTimeWorld(cfg, world) && SoundSolver(solver) && CompleteSolver(solver) &&
             Sound(cfg, world, [], order, answer) && AnswerOf(solver, cfg, world, [], order, answer)) ==>
            answer.Some?
  {
    hide GetVariables, OnTimeWorld, Considered, Readable, BookValid, SortedOrder, Arranged, AllSchedulable, Compile, Feasible, Optimal, BookOf,
         PlanningWindow, CompleteSolver, SoundSolver;
    if OnTimeWorld(cfg, world) && SoundSolver(solver) && CompleteSolver(solver) &&
       Sound(cfg, world, [], order, answer) && AnswerOf(solver, cfg, world, [], order, answer)
    {
      CallBook(cfg, world, []) by { OnTimeUnique(cfg, world); assert world.events + [] == world.events; }
      SchedulableIsSorted(order, BookOf(Considered(world, [])), PlanningWindow(cfg, world, []).high);
      StoredTimesSolve(cfg, world, order);
      var w, m :| Modelled(cfg, world, [], order, w, m) && answer == solver(m);
      CompleteAnswer(solver, m);
    }
  }

  /** A planning call never lists an event twice. */
  lemma AfterCallDistinct(cfg: Config, before: World, candidates: seq<Record>, keep: bool, answer: Option<Assignment>)
    requires Readable(Considered(before, candidates)) && DistinctUids(before.events + candidates)
    ensures DistinctUids(AfterCall(cfg, before, candidates, keep, answer).events)
  {
    hide GetVariables, Considered, PlanningWindow, Readable, ShiftAll, Reaches;
    var rest := Remaining(before.events);
    assert forall i :: 0 <= i < |before.events| ==> before.events[i] == (before.events + candidates)[i];
    assert DistinctUids(before.events);
    var from, to := SpanStart(Live(before.events)), SpanEnd(Live(before.events));
    FilterKeepsDistinct(before.events, e => IsLive(e) || Reaches(e, from, to));
    DistinctParts(before.events, candidates);
    JoinDistinct(rest, candidates);
    if answer.Some? {
      var a := ShiftAll(answer.value, PlanningWindow(cfg, before, candidates).low);
      AppliedKeepsDistinct(rest, a);
      AppliedKeepsDistinct(rest + candidates, a);
      assert AppliedAll(rest + candidates, a) == AppliedAll(rest, a) + AppliedAll(candidates, a);
      assert AppliedAll(rest, a) + [] == AppliedAll(rest, a);
    }
  }

  lemma AppliedKeepsDistinct(s: seq<Record>, a: Assignment)
    requires DistinctUids(s)
    ensures DistinctUids(AppliedAll(s, a))
  {
    hide WriteBack;
    forall i | 0 <= i < |s|
      ensures AppliedAll(s, a)[i].uid == s[i].uid
    {
      if s[i].uid in a {
        WriteBackKeepsUid(s[i], a[s[i].uid]);
      }
    }
  }

  /** On time, every listed event can be compared with every other. */
  lemma OnTimeIsComparable(cfg: Config, world: World)
    requires OnTimeWorld(cfg, world)
    ensures AllComparable(world.events)
  {
    hide OnTimeWorld, Settled, Comparable;
    SettledMembers(cfg, world);
    forall i | 0 <= i < |world.events|
      ensures Comparable(world.events[i])
    {
      assert world.events[i] in world.events;
      SettledIsReadable(world.events[i]);
    }
  }

  lemma AdvanceKeepsUid(e: Record)
    requires Settled(e)
    ensures Advance(e).uid == e.uid
  {
  }

  /** One listed event takes its next step at its planned time. */
  lemma AdvancedOnTime(cfg: Config, before: World, after: World, i: nat)
    requires OnTimeWorld(cfg, before) && DistinctUids(before.events) && i < |before.events|
    ensures Settled(before.events[i])
    ensures after == before.(events := before.events[i := Advance(before.events[i])]) ==>
              OnTimeWorld(cfg, after) && DistinctUids(after.events)
  {
    hide OnTimeWorld, Settled, Advance;
    SettledMembers(cfg, before);
    assert before.events[i] in before.events;
    var uid := before.events[i].uid;
    assert forall k :: 0 <= k < |before.events| && before.events[k].uid == uid ==> k == i;
    AdvanceKeepsUid(before.events[i]);
    var next := Next(cfg, before, Step(uid));
    ActionOnTime(cfg, before, Step(uid));
    assert next.events == before.events[i := Advance(before.events[i])];
  }

  /** A new event with the uid just handed out, arriving at a set time and free to leave, may join. */
  lemma NewcomerMayJoin(cfg: Config, world: World, c: Record)
    requires OnTimeWorld(cfg, world) && DistinctUids(world.events) && Candidate(c)
    requires forall e :: e in world.events ==> e.uid != c.uid
    ensures DistinctUids(world.events + [c]) && AllComparable(world.events + [c])
  {
    hide OnTimeWorld, Candidate, Comparable;
    OnTimeIsComparable(cfg, world);
    SettledIsReadable(c);
  }

  /** Every event of a solved call takes its times over. */
  lemma CallIsTaken(cfg: Config, world: World, candidates: seq<Record>, order: seq<nat>, answer: Assignment, e: Record)
    requires Sound(cfg, world, candidates, order, Some(answer)) && UidsUnique(Considered(world, candidates))
    requires e in Considered(world, candidates)
    ensures TookTimes(e, Applied(e, ShiftAll(answer, PlanningWindow(cfg, world, candidates).low)))
  {
    hide GetVariables, Considered, PlanningWindow, Compile, Optimal, BookOf, Arranged, BookValid, TookTimes, WriteBack,
         Readable, Reached;
    var book, w := BookOf(Considered(world, candidates)), PlanningWindow(cfg, world, candidates);
    BookMembers(Considered(world, candidates));
    CallReaches(cfg, world, candidates, e);
    SolutionIsTaken(book, order, w, cfg.capacity, answer, e.uid);
  }

  lemma RefusedAfterCall(cfg: Config, before: World, candidates: seq<Record>)
    requires Readable(Considered(before, candidates))
    ensures AfterCall(cfg, before, candidates, true, None) == AfterCall(cfg, before, candidates, false, None)
  {
    hide GetVariables, Considered, PlanningWindow, Readable, Remaining;
  }

  lemma KeptAfterCall(cfg: Config, before: World, candidates: seq<Record>, answer: Option<Assignment>, after: World,
                      planned: seq<Record>)
    requires Readable(Considered(before, candidates)) && answer.Some?
    requires after == AfterCall(cfg, before, candidates, false, answer)
    requires planned == AppliedAll(candidates, ShiftAll(answer.value, PlanningWindow(cfg, before, candidates).low))
    ensures World(after.events + planned, after.maxHorizon) == AfterCall(cfg, before, candidates, true, answer)
  {
    hide GetVariables, Considered, PlanningWindow, Readable, Remaining, AppliedAll, ShiftAll;
    var a := ShiftAll(answer.value, PlanningWindow(cfg, before, candidates).low);
    assert AppliedAll(Remaining(before.events), a) + [] == AppliedAll(Remaining(before.events), a);
  }

  lemma CalledWhenStored(cfg: Config, before: World, candidates: seq<Record>, order: seq<nat>, answer: Option<Assignment>,
                         after: World, planned: seq<Record>, w: Window)
    requires Sound(cfg, before, candidates, order, answer) && w == PlanningWindow(cfg, before, candidates)
    requires after.maxHorizon == w.high
    requires answer.None? ==> after.events == Remaining(before.events) && planned == candidates
    requires answer.Some? ==>
               && after.events == AppliedAll(Remaining(before.events), ShiftAll(answer.value, w.low))
               && planned == AppliedAll(candidates, ShiftAll(answer.value, w.low))
    ensures Called(cfg, before, candidates, order, answer, after, planned)
  {
    hide GetVariables, BookOf, Arranged, Considered, PlanningWindow, BookValid, Readable, Remaining, AppliedAll, ShiftAll;
  }

  lemma NothingFiltered(p: Record -> bool)
    ensures Filter([], p) == []
  {
  }

  lemma NothingSurveyed(gone: Record -> bool)
    ensures Live([]) == [] && Filter([], gone) == [] && SpanStart([]) == None && SpanEnd([]) == None
  {
  }
}
