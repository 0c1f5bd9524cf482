/** Which finished events `get_events` keeps as history, and in which order it yields the events. */
module History {
  import opened Wrappers
  import opened Records

  predicate IsLive(e: Record) {
    e.state != Departed && e.state != Canceled
  }

  /******* Known times of an event *******/

  /** `Event.__iter__` tests each time for truth, so a time of 0 is skipped like a missing one. */
  predicate Known(t: Option<int>) {
    t.Some? && t.value != 0
  }

  function Least(a: Option<int>, b: Option<int>): Option<int> {
    if !Known(b) then a else if a.None? || b.value < a.value then b else a
  }

  function Greatest(a: Option<int>, b: Option<int>): Option<int> {
    if !Known(b) then a else if a.None? || a.value < b.value then b else a
  }

  /** `min(event)`, or nothing when the event has no known time. */
  function EarliestKnown(e: Record): Option<int> {
    Least(Least(Least(Least(None, e.activityStart), e.start), e.finish), e.activityFinish)
  }

  /** `max(event)`, or nothing when the event has no known time. */
  function LatestKnown(e: Record): Option<int> {
    Greatest(Greatest(Greatest(Greatest(None, e.activityStart), e.start), e.finish), e.activityFinish)
  }

  predicate KnownTime(e: Record, t: int) {
    t != 0 && (e.activityStart == Some(t) || e.start == Some(t) || e.finish == Some(t) || e.activityFinish == Some(t))
  }

  lemma KnownTimesBounded(e: Record, t: int)
    requires KnownTime(e, t)
    ensures EarliestKnown(e).Some? && EarliestKnown(e).value <= t
    ensures LatestKnown(e).Some? && t <= LatestKnown(e).value
  {
  }

  /******* The span of the live events *******/

  function Filter(s: seq<Record>, keep: Record -> bool): (r: seq<Record>)
    ensures forall e :: e in r <==> e in s && keep(e)
    ensures |r| <= |s|
  {
    if s == [] then []
    else if keep(s[|s|-1]) then Filter(s[..|s|-1], keep) + [s[|s|-1]]
    else Filter(s[..|s|-1], keep)
  }

  function Live(events: seq<Record>): seq<Record> {
    Filter(events, IsLive)
  }

  /** The least known time of the live events; nothing if there are none or one of them has none. */
  function SpanStart(live: seq<Record>): (r: Option<int>)
    ensures r.Some? <==> live != [] && forall e :: e in live ==> EarliestKnown(e).Some?
    ensures r.Some? ==> forall e :: e in live ==> r.value <= EarliestKnown(e).value
  {
    if live == [] then None
    else
      var last := EarliestKnown(live[|live|-1]);
      if |live| == 1 || last.None? then last
      else
        var rest := SpanStart(live[..|live|-1]);
        assert forall e :: e in live <==> e in live[..|live|-1] || e == live[|live|-1];
        if rest.None? then None else Some(if last.value < rest.value then last.value else rest.value)
  }

  function SpanEnd(live: seq<Record>): (r: Option<int>)
    ensures r.Some? <==> live != [] && forall e :: e in live ==> LatestKnown(e).Some?
    ensures r.Some? ==> forall e :: e in live ==> LatestKnown(e).value <= r.value
  {
    if live == [] then None
    else
      var last := LatestKnown(live[|live|-1]);
      if |live| == 1 || last.None? then last
      else
        var rest := SpanEnd(live[..|live|-1]);
        assert forall e :: e in live <==> e in live[..|live|-1] || e == live[|live|-1];
        if rest.None? then None else Some(if rest.value < last.value then last.value else rest.value)
  }

  /** A departed or cancelled event is kept while its activity reaches into the span of the live ones. */
  predicate Reaches(e: Record, from: Option<int>, to: Option<int>) {
    && from.Some? && e.activityFinish.Some? && from.value < e.activityFinish.value
    && to.Some? && e.activityStart.Some? && e.activityStart.value < to.value
  }

  function Retained(events: seq<Record>): seq<Record> {
    var from, to := SpanStart(Live(events)), SpanEnd(Live(events));
    Filter(events, e => !IsLive(e) && Reaches(e, from, to))
  }

  /** What is left in the list once the generator is exhausted. */
  function Remaining(events: seq<Record>): seq<Record> {
    var from, to := SpanStart(Live(events)), SpanEnd(Live(events));
    Filter(events, e => IsLive(e) || Reaches(e, from, to))
  }

  /** What the generator yields: the live events, the retained history, the new events. */
  function Yielded(events: seq<Record>, newcomers: seq<Record>): seq<Record> {
    Live(events) + Retained(events) + newcomers
  }

  /******* Properties of pruning *******/

  lemma {:induction false} FilterTwice(s: seq<Record>, p: Record -> bool, q: Record -> bool)
    requires forall e :: q(e) ==> p(e)
    ensures Filter(Filter(s, p), q) == Filter(s, q)
  {
    if s == [] {
    } else {
      var init, last := s[..|s|-1], s[|s|-1];
      FilterTwice(init, p, q);
      if p(last) {
        assert Filter(s, p)[..|Filter(s, p)|-1] == Filter(init, p);
      }
    }
  }

  lemma {:induction false} FilterSame(s: seq<Record>, p: Record -> bool, q: Record -> bool)
    requires forall e :: e in s ==> p(e) == q(e)
    ensures Filter(s, p) == Filter(s, q)
  {
    if s == [] {
    } else {
      FilterSame(s[..|s|-1], p, q);
    }
  }

  lemma {:induction false} FilterAll(s: seq<Record>, p: Record -> bool)
    requires forall e :: e in s ==> p(e)
    ensures Filter(s, p) == s
  {
    if s == [] {
    } else {
      FilterAll(s[..|s|-1], p);
    }
  }

  lemma PruningKeepsLive(events: seq<Record>)
    ensures Live(Remaining(events)) == Live(events)
  {
    var from, to := SpanStart(Live(events)), SpanEnd(Live(events));
    FilterTwice(events, e => IsLive(e) || Reaches(e, from, to), IsLive);
  }

  /** Asking twice changes nothing: neither the list nor what is yielded. */
  lemma PruningIsIdempotent(events: seq<Record>, newcomers: seq<Record>)
    ensures Remaining(Remaining(events)) == Remaining(events)
    ensures Yielded(Remaining(events), newcomers) == Yielded(events, newcomers)
  {
    PruningKeepsLive(events);
    var from, to := SpanStart(Live(events)), SpanEnd(Live(events));
    var keep := (e: Record) => IsLive(e) || Reaches(e, from, to);
    FilterTwice(events, keep, keep);
    FilterTwice(events, keep, e => !IsLive(e) && Reaches(e, from, to));
  }

  /**
   * A removed event whose activity span is known lies wholly before or wholly after every known time
   * of every live event, provided each live event has a known time.
   */
  lemma RemovedLiesOutside(events: seq<Record>, gone: Record)
    requires gone in events && gone !in Remaining(events)
    requires gone.activityStart.Some? && gone.activityFinish.Some?
    requires forall e :: e in events && IsLive(e) ==> EarliestKnown(e).Some?
    ensures (forall e, t :: e in events && IsLive(e) && KnownTime(e, t) ==> gone.activityFinish.value <= t) ||
            (forall e, t :: e in events && IsLive(e) && KnownTime(e, t) ==> t <= gone.activityStart.value)
  {
    var live := Live(events);
    forall e, t | e in events && IsLive(e) && KnownTime(e, t)
      ensures e in live && EarliestKnown(e).value <= t <= LatestKnown(e).value
    {
      KnownTimesBounded(e, t);
    }
    forall e | e in live
      ensures EarliestKnown(e).Some? && LatestKnown(e).Some?
    {
    }
  }

  /** One live event without a known time is enough to drop the whole history, overlapping or not. */
  lemma UnknownTimeDropsHistory(events: seq<Record>, blank: Record)
    requires blank in events && IsLive(blank) && EarliestKnown(blank).None?
    ensures Retained(events) == [] && Remaining(events) == Live(events)
  {
    assert blank in Live(events);
    var from, to := SpanStart(Live(events)), SpanEnd(Live(events));
    FilterSame(events, e => IsLive(e) || Reaches(e, from, to), IsLive);
    if Retained(events) != [] {
      SomeMember(Retained(events));
    }
  }

  lemma SomeMember(s: seq<Record>)
    requires s != []
    ensures exists e :: e in s
  {
    assert s[0] in s;
  }

  lemma KnownTimesAttained(e: Record)
    ensures EarliestKnown(e).Some? ==> KnownTime(e, EarliestKnown(e).value)
    ensures LatestKnown(e).Some? ==> KnownTime(e, LatestKnown(e).value)
  {
  }

  /** Some live event has this time, which may be 0. */
  ghost predicate LiveTime(events: seq<Record>, t: int) {
    exists e :: e in events && e.state != Departed && e.state != Canceled &&
      (e.activityStart == Some(t) || e.start == Some(t) || e.finish == Some(t) || e.activityFinish == Some(t))
  }

  /** The activity from `s` to `f` reaches into the span of all times of the live events. */
  ghost predicate Overlaps(events: seq<Record>, s: int, f: int) {
    (exists t :: LiveTime(events, t) && t < f) && (exists t :: LiveTime(events, t) && s < t)
  }

  /** The activity reaches past 0, but only up to the other times. */
  ghost predicate OnlyPastZero(events: seq<Record>, s: int, f: int) {
    0 < f && (exists t :: LiveTime(events, t) && s < t) && forall t :: LiveTime(events, t) && t != 0 ==> f <= t
  }

  /** The activity begins before 0, but not before the other times. */
  ghost predicate OnlyBeforeZero(events: seq<Record>, s: int, f: int) {
    s < 0 && (exists t :: LiveTime(events, t) && t < f) && forall t :: LiveTime(events, t) && t != 0 ==> t <= s
  }

  /**
   * A time of 0 counts as unknown. If each live event has some other time, then history over `s..f` is
   * dropped although it overlaps the live events exactly when one of them has the time 0 and that is the only
   * time the activity reaches.
   */
  lemma ZeroDropsOverlapIff(events: seq<Record>, gone: Record, s: int, f: int)
    requires gone in events && !IsLive(gone) && gone.activityStart == Some(s) && gone.activityFinish == Some(f)
    requires forall e :: e in events && IsLive(e) ==> EarliestKnown(e).Some?
    ensures gone !in Remaining(events) && Overlaps(events, s, f) <==>
            LiveTime(events, 0) && (OnlyPastZero(events, s, f) || OnlyBeforeZero(events, s, f))
  {
    hide EarliestKnown, LatestKnown, Remaining, Overlaps, LiveTime, OnlyPastZero, OnlyBeforeZero;
    if gone !in Remaining(events) && Overlaps(events, s, f) {
      DroppedMeansZero(events, gone, s, f);
    }
    if LiveTime(events, 0) && (OnlyPastZero(events, s, f) || OnlyBeforeZero(events, s, f)) {
      ZeroMeansDropped(events, gone, s, f);
    }
  }

  lemma DroppedMeansZero(events: seq<Record>, gone: Record, s: int, f: int)
    requires gone in events && gone.activityStart == Some(s) && gone.activityFinish == Some(f)
    requires forall e :: e in events && IsLive(e) ==> EarliestKnown(e).Some?
    requires gone !in Remaining(events) && Overlaps(events, s, f)
    ensures LiveTime(events, 0) && (OnlyPastZero(events, s, f) || OnlyBeforeZero(events, s, f))
  {
    hide EarliestKnown, LatestKnown, Remaining;
    RemovedLiesOutside(events, gone);
    forall t | LiveTime(events, t) && t != 0
      ensures exists e :: e in events && IsLive(e) && KnownTime(e, t)
    {
      var e :| e in events && IsLive(e) &&
        (e.activityStart == Some(t) || e.start == Some(t) || e.finish == Some(t) || e.activityFinish == Some(t));
      assert KnownTime(e, t);
    }
    hide LiveTime, KnownTime;
    var early :| LiveTime(events, early) && early < f;
    var late :| LiveTime(events, late) && s < late;
    assert early == 0 || late == 0;
  }

  lemma ZeroMeansDropped(events: seq<Record>, gone: Record, s: int, f: int)
    requires gone in events && !IsLive(gone) && gone.activityStart == Some(s) && gone.activityFinish == Some(f)
    requires forall e :: e in events && IsLive(e) ==> EarliestKnown(e).Some?
    requires LiveTime(events, 0)
    requires OnlyPastZero(events, s, f) || OnlyBeforeZero(events, s, f)
    ensures gone !in Remaining(events) && Overlaps(events, s, f)
  {
    hide EarliestKnown, LatestKnown, SpanStart, SpanEnd, LiveTime;
    var live := Live(events);
    assert Overlaps(events, s, f);
    if gone in Remaining(events) {
      SpanAttained(live);
      KnownIsLive(events, SpanStart(live).value);
      KnownIsLive(events, SpanEnd(live).value);
    }
  }

  /** The ends of the span are known times of live events. */
  lemma {:induction false} SpanAttained(live: seq<Record>)
    ensures SpanStart(live).Some? ==> exists e :: e in live && KnownTime(e, SpanStart(live).value)
    ensures SpanEnd(live).Some? ==> exists e :: e in live && KnownTime(e, SpanEnd(live).value)
  {
    hide EarliestKnown, LatestKnown, KnownTime;
    if live == [] {
    } else {
      var last := live[|live|-1];
      assert last in live;
      KnownTimesAttained(last);
      SpanAttained(live[..|live|-1]);
    }
  }

  lemma KnownIsLive(events: seq<Record>, t: int)
    ensures (exists e :: e in Live(events) && KnownTime(e, t)) ==> LiveTime(events, t) && t != 0
  {
  }

  /**
   * What is kept of the history: with a live event, and each having a time other than 0, a departed or
   * cancelled event stays exactly while its activity ends after one of these times and begins before one.
   */
  lemma RetainedIff(events: seq<Record>, gone: Record, s: int, f: int)
    requires gone in events && (gone.state == Departed || gone.state == Canceled)
    requires gone.activityStart == Some(s) && gone.activityFinish == Some(f)
    requires exists e :: e in events && e.state != Departed && e.state != Canceled
    requires forall e :: e in events && e.state != Departed && e.state != Canceled ==> EarliestKnown(e).Some?
    ensures gone in Remaining(events) <==>
            && (exists t :: LiveTime(events, t) && t != 0 && t < f)
            && (exists t :: LiveTime(events, t) && t != 0 && s < t)
  {
    hide EarliestKnown, LatestKnown, SpanStart, SpanEnd;
    var live := Live(events);
    forall e | e in live
      ensures LatestKnown(e).Some?
    {
      BothKnown(e);
    }
    SomeLive(events);
    SpanAttained(live);
    KnownIsLive(events, SpanStart(live).value);
    KnownIsLive(events, SpanEnd(live).value);
    forall t | LiveTime(events, t) && t != 0
      ensures SpanStart(live).value <= t <= SpanEnd(live).value
    {
      LiveTimeInSpan(events, t);
    }
  }

  lemma BothKnown(e: Record)
    ensures EarliestKnown(e).Some? <==> LatestKnown(e).Some?
  {
  }

  lemma SomeLive(events: seq<Record>)
    requires exists e :: e in events && e.state != Departed && e.state != Canceled
    ensures Live(events) != []
  {
    var e :| e in events && e.state != Departed && e.state != Canceled;
    assert e in Live(events);
  }

  lemma LiveTimeInSpan(events: seq<Record>, t: int)
    requires LiveTime(events, t) && t != 0
    requires SpanStart(Live(events)).Some? && SpanEnd(Live(events)).Some?
    ensures SpanStart(Live(events)).value <= t <= SpanEnd(Live(events)).value
  {
    hide EarliestKnown, LatestKnown;
    var e :| e in events && IsLive(e) && KnownTime(e, t);
    KnownTimesBounded(e, t);
    assert e in Live(events);
  }

  /** Live events always stay and are always yielded; history without a known activity never is. */
  lemma LiveIsKept(events: seq<Record>, newcomers: seq<Record>, e: Record)
    requires e in events
    ensures e.state != Departed && e.state != Canceled ==> e in Remaining(events) && e in Yielded(events, newcomers)
    ensures (e.state == Departed || e.state == Canceled) && (e.activityStart.None? || e.activityFinish.None?) ==>
              e !in Remaining(events) && e !in Live(events) + Retained(events)
  {
    hide SpanStart, SpanEnd;
  }

  /** An event that is cancelled before it arrived is forgotten: it is neither listed nor planned any more. */
  lemma CanceledIsForgotten(events: seq<Record>, e: Record)
    requires (e.state == New || e.state == Scheduled) && e.activityStart.None? && Cancel(e) in events
    ensures Cancel(e) !in Remaining(events) && Cancel(e) !in Live(events) + Retained(events)
  {
    LiveIsKept(events, [], Cancel(e));
  }

  /******* In which order *******/

  /** `a` takes events of `b` without changing their order. */
  ghost predicate Sublist(a: seq<Record>, b: seq<Record>) {
    && (forall i :: 0 <= i < |a| ==> a[i] in b)
    && forall i, j :: 0 <= i < j < |a| ==> exists p, q :: 0 <= p < q < |b| && b[p] == a[i] && b[q] == a[j]
  }

  lemma {:induction false} FilterIsSublist(s: seq<Record>, p: Record -> bool)
    ensures Sublist(Filter(s, p), s)
  {
    if s == [] {
    } else {
      var init, r := s[..|s|-1], Filter(s, p);
      FilterIsSublist(init, p);
      var rest := Filter(init, p);
      forall i, j | 0 <= i < j < |r|
        ensures exists k, l :: 0 <= k < l < |s| && s[k] == r[i] && s[l] == r[j]
      {
        if j < |rest| {
          var k, l :| 0 <= k < l < |init| && init[k] == rest[i] && init[l] == rest[j];
          assert s[k] == r[i] && s[l] == r[j];
        } else {
          assert rest[i] in init;
          var k :| 0 <= k < |init| && init[k] == rest[i];
          assert s[k] == r[i] && s[|init|] == r[j];
        }
      }
    }
  }

  /** First the live events, then history, each in list order, then the newcomers; what stays listed stays in order. */
  lemma YieldedInOrder(events: seq<Record>, newcomers: seq<Record>)
    ensures Sublist(Remaining(events), events)
    ensures exists live, kept ::
              && Yielded(events, newcomers) == live + kept + newcomers
              && Sublist(live, events) && Sublist(kept, events)
              && (forall e :: e in live ==> e.state != Departed && e.state != Canceled)
              && (forall e :: e in kept ==> e.state == Departed || e.state == Canceled)
  {
    hide SpanStart, SpanEnd, Reaches;
    var from, to := SpanStart(Live(events)), SpanEnd(Live(events));
    FilterIsSublist(events, IsLive);
    FilterIsSublist(events, e => !IsLive(e) && Reaches(e, from, to));
    FilterIsSublist(events, e => IsLive(e) || Reaches(e, from, to));
    assert Yielded(events, newcomers) == Live(events) + Retained(events) + newcomers;
    assert Sublist(Live(events), events) && Sublist(Retained(events), events);
  }

  /**
   * It happens to events that are exactly on time: one served over 0..5 has departed, and is forgotten
   * although another, which arrived at 0, is planned over 5..6.
   */
  lemma TimeZeroDropsOverlap()
    ensures exists g: Record, e: Record ::
              var gone := Depart(Finish(Start(Arrive(g, 0), 0), 5), 5);
              var waiting := Arrive(e, 0);
              && g.state == New && Acceptable(g.eta, g.etd) && g.start == Some(0) && g.finish == Some(5)
              && e.state == New && Acceptable(e.eta, e.etd) && e.start == Some(5) && e.finish == Some(6)
              && gone !in Remaining([gone, waiting]) && Overlaps([gone, waiting], 0, 5)
  {
    hide Remaining, Overlaps;
    var zero, free := Etx(Some(0), Some(0), Some(0)), Etx(None, None, None);
    var g := Record(1, 5, New, zero, free, Some(0), Some(5), None, None, false);
    var e := Record(2, 1, New, zero, free, Some(5), Some(6), None, None, false);
    var gone := Depart(Finish(Start(Arrive(g, 0), 0), 5), 5);
    var waiting := Arrive(e, 0);
    ServedBesideWaiting(gone, waiting);
  }

  lemma ServedBesideWaiting(gone: Record, waiting: Record)
    requires gone.state == Departed && gone.activityStart == Some(0) && gone.activityFinish == Some(5)
    requires waiting.state == Arrived && waiting.activityStart == Some(0) && waiting.activityFinish == None
    requires waiting.start == Some(5) && waiting.finish == Some(6)
    ensures gone !in Remaining([gone, waiting]) && Overlaps([gone, waiting], 0, 5)
  {
    hide Remaining, Overlaps;
    var events := [gone, waiting];
    assert gone in events && waiting in events && IsLive(waiting);
    assert EarliestKnown(waiting) == Some(5);
    assert LiveTime(events, 0) && LiveTime(events, 6);
    ZeroDropsOverlapIff(events, gone, 0, 5);
  }

  /******* Pruning one event at a time *******/

  predicate DistinctUids(s: seq<Record>) {
    forall i, j :: 0 <= i < j < |s| ==> s[i].uid != s[j].uid
  }

  function Without<T>(s: seq<T>, i: nat): (r: seq<T>)
    requires i < |s|
    ensures |r| == |s| - 1
  {
    s[..i] + s[i+1..]
  }

  function Other(uid: nat): Record -> bool {
    (e: Record) => e.uid != uid
  }

  lemma {:induction false} WithoutIsFilter(s: seq<Record>, i: nat)
    requires i < |s| && DistinctUids(s)
    ensures Without(s, i) == Filter(s, Other(s[i].uid))
  {
    hide DistinctUids, Filter;
    var init, last, keep := s[..|s|-1], s[|s|-1], Other(s[i].uid);
    DistinctFrom(s, i);
    FilterEnd(s, keep);
    if i == |s| - 1 {
      FilterAll(init, keep);
      assert Without(s, i) == init;
    } else {
      WithoutIsFilter(init, i);
      assert Without(s, i) == Without(init, i) + [last];
    }
  }

  lemma FilterEnd(s: seq<Record>, keep: Record -> bool)
    requires s != []
    ensures var init, last := s[..|s|-1], s[|s|-1];
            Filter(s, keep) == if keep(last) then Filter(init, keep) + [last] else Filter(init, keep)
  {
  }

  lemma DistinctFrom(s: seq<Record>, i: nat)
    requires i < |s| && DistinctUids(s)
    ensures DistinctUids(s[..|s|-1])
    ensures i < |s| - 1 ==> s[|s|-1].uid != s[i].uid
    ensures i == |s| - 1 ==> forall e :: e in s[..i] ==> e.uid != s[i].uid
  {
  }

  /** What is still listed while the events `pending` have not been decided on. */
  function StillListed(from: Option<int>, to: Option<int>, pending: set<nat>): Record -> bool {
    (e: Record) => IsLive(e) || Reaches(e, from, to) || e.uid in pending
  }

  lemma {:induction false} FilterBoth(s: seq<Record>, p: Record -> bool, q: Record -> bool, r: Record -> bool)
    requires forall e :: e in s ==> (r(e) <==> p(e) && q(e))
    ensures Filter(Filter(s, p), q) == Filter(s, r)
  {
    if s == [] {
    } else {
      var init, last := s[..|s|-1], s[|s|-1];
      FilterBoth(init, p, q, r);
      if p(last) {
        assert Filter(s, p)[..|Filter(s, p)|-1] == Filter(init, p);
      }
    }
  }

  lemma DecideOn(events: seq<Record>, from: Option<int>, to: Option<int>, pending: set<nat>, e: Record)
    requires DistinctUids(events) && e in events && !IsLive(e) && e.uid in pending
    ensures var listed := Filter(events, StillListed(from, to, pending));
            Filter(events, StillListed(from, to, pending - {e.uid})) ==
            if Reaches(e, from, to) then listed else Filter(listed, Other(e.uid))
  {
    if Reaches(e, from, to) {
      FilterSame(events, StillListed(from, to, pending), StillListed(from, to, pending - {e.uid}));
    } else {
      FilterBoth(events, StillListed(from, to, pending), Other(e.uid), StillListed(from, to, pending - {e.uid}));
    }
  }

  lemma {:induction false} FilterKeepsDistinct(s: seq<Record>, p: Record -> bool)
    requires DistinctUids(s)
    ensures DistinctUids(Filter(s, p))
  {
    if s == [] {
    } else {
      var init, last := s[..|s|-1], s[|s|-1];
      FilterKeepsDistinct(init, p);
      var rest := Filter(init, p);
      forall i | 0 <= i < |rest|
        ensures rest[i].uid != last.uid
      {
        assert rest[i] in init;
      }
    }
  }
}
