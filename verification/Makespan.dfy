/** The planning window that `get_event_variables` derives from the events' own earliest and latest times. */
module Makespan {
  import opened Wrappers
  import opened Records
  import opened CpModel

  /** The lower ends that are known, in order. */
  function Lows(ranges: seq<Range>): (r: seq<int>)
    ensures forall i :: 0 <= i < |ranges| && ranges[i].low.Some? ==> ranges[i].low.value in r
    ensures forall x :: x in r ==> exists i :: 0 <= i < |ranges| && ranges[i].low == Some(x)
  {
    if ranges == [] then []
    else
      var last := ranges[|ranges|-1];
      Lows(ranges[..|ranges|-1]) + if last.low.Some? then [last.low.value] else []
  }

  function Highs(ranges: seq<Range>): (r: seq<int>)
    ensures forall i :: 0 <= i < |ranges| && ranges[i].high.Some? ==> ranges[i].high.value in r
  {
    if ranges == [] then []
    else
      var last := ranges[|ranges|-1];
      Highs(ranges[..|ranges|-1]) + if last.high.Some? then [last.high.value] else []
  }

  predicate OpenBelow(ranges: seq<Range>) {
    exists i :: 0 <= i < |ranges| && ranges[i].low.None?
  }

  predicate OpenAbove(ranges: seq<Range>) {
    exists i :: 0 <= i < |ranges| && ranges[i].high.None?
  }

  function MinOf(s: seq<int>): (m: int)
    requires s != []
    ensures m in s && forall x :: x in s ==> m <= x
  {
    var last := s[|s|-1];
    if |s| == 1 then last
    else
      var rest := MinOf(s[..|s|-1]);
      assert forall x :: x in s <==> x in s[..|s|-1] || x == last;
      if last < rest then last else rest
  }

  function MaxOf(s: seq<int>): (m: int)
    requires s != []
    ensures m in s && forall x :: x in s ==> x <= m
  {
    var last := s[|s|-1];
    if |s| == 1 then last
    else
      var rest := MaxOf(s[..|s|-1]);
      assert forall x :: x in s <==> x in s[..|s|-1] || x == last;
      if rest < last then last else rest
  }

  /** `round(n / 2)`: a half goes to the even neighbour. */
  function HalfToEven(n: int): int {
    if n % 2 == 0 || n / 2 % 2 == 0 then n / 2 else n / 2 + 1
  }

  /** `(sim_min, sim_max)`, before the right edge is extended to the longest horizon so far. */
  function Simulated(ranges: seq<Range>, horizon: int): Window {
    var lows, highs := Lows(ranges), Highs(ranges);
    if highs == [] && lows == [] then Window(0, horizon)
    else if highs == [] then Window(MinOf(lows), MaxOf(lows) + horizon)
    else if lows == [] then Window(MinOf(highs) - horizon, MaxOf(highs))
    else
      var low, high := MinOf(lows), MaxOf(highs);
      var diff := high - low;
      if diff < horizon && OpenBelow(ranges) && OpenAbove(ranges) then
        Window(low - HalfToEven(horizon - diff), high + HalfToEven(horizon - diff))
      else if diff < horizon && OpenBelow(ranges) then Window(high - horizon, high)
      else if diff < horizon && OpenAbove(ranges) then Window(low, low + horizon)
      else Window(low, high)
  }

  /** The window that is returned; its right edge is also the new `max_horizon`. */
  function WindowOf(ranges: seq<Range>, horizon: int, maxHorizon: int): Window {
    var w := Simulated(ranges, horizon);
    w.(high := if maxHorizon < w.high then w.high else maxHorizon)
  }

  function Least(a: int, b: int): int {
    if a <= b then a else b
  }

  function Largest(a: int, b: int): int {
    if a <= b then b else a
  }

  /**
   * The window is no larger than it has to be. A side that no event leaves open ends at the known times;
   * a side left open ends a horizon from the other, or at the known times if they reach further; with both
   * sides open and times known on both they move out alike. To the right, an earlier window may reach further.
   */
  lemma WindowIsTight(ranges: seq<Range>, horizon: int, maxHorizon: int)
    requires ranges != []
    ensures var w, lows, highs := WindowOf(ranges, horizon, maxHorizon), Lows(ranges), Highs(ranges);
            && (!OpenBelow(ranges) ==> lows != [] && w.low == MinOf(lows))
            && (!OpenAbove(ranges) ==> highs != [] && w.high == Largest(maxHorizon, MaxOf(highs)))
            && (OpenAbove(ranges) && !OpenBelow(ranges) ==>
                  w.high == Largest(maxHorizon, if highs == [] then MaxOf(lows) + horizon
                                                else Largest(MaxOf(highs), MinOf(lows) + horizon)))
            && (OpenBelow(ranges) && !OpenAbove(ranges) ==>
                  w.low == if lows == [] then MinOf(highs) - horizon else Least(MinOf(lows), MaxOf(highs) - horizon))
            && (OpenBelow(ranges) && OpenAbove(ranges) && lows == [] && highs == [] ==>
                  w.low == 0 && w.high == Largest(maxHorizon, horizon))
            && (OpenBelow(ranges) && OpenAbove(ranges) && lows != [] && highs == [] ==>
                  w.low == MinOf(lows) && w.high == Largest(maxHorizon, MaxOf(lows) + horizon))
            && (OpenBelow(ranges) && OpenAbove(ranges) && lows == [] && highs != [] ==>
                  w.low == MinOf(highs) - horizon && w.high == Largest(maxHorizon, MaxOf(highs)))
            && (OpenBelow(ranges) && OpenAbove(ranges) && lows != [] && highs != [] ==>
                  var gap := horizon - (MaxOf(highs) - MinOf(lows));
                  var out := if gap <= 0 then 0 else HalfToEven(gap);
                  w.low == MinOf(lows) - out && w.high == Largest(maxHorizon, MaxOf(highs) + out))
  {
    hide MinOf, MaxOf, HalfToEven, Lows, Highs, OpenBelow, OpenAbove;
    ClosedSides(ranges);
  }

  lemma ClosedSides(ranges: seq<Range>)
    requires ranges != []
    ensures !OpenBelow(ranges) ==> Lows(ranges) != []
    ensures !OpenAbove(ranges) ==> Highs(ranges) != []
  {
    hide Lows, Highs;
    if !OpenBelow(ranges) {
      assert ranges[0].low.Some?;
      assert ranges[0].low.value in Lows(ranges);
    }
    if !OpenAbove(ranges) {
      assert ranges[0].high.Some?;
      assert ranges[0].high.value in Highs(ranges);
    }
  }

  /**
   * The window reaches back to every known minimum and on to every known maximum, never shrinks on the
   * right, and is a horizon long as soon as one event is unbounded: at worst one step short.
   */
  lemma MakespanCovers(ranges: seq<Range>, horizon: int, maxHorizon: int)
    ensures var w := WindowOf(ranges, horizon, maxHorizon);
            && maxHorizon <= w.high
            && (forall i :: 0 <= i < |ranges| && ranges[i].low.Some? ==> w.low <= ranges[i].low.value)
            && (forall i :: 0 <= i < |ranges| && ranges[i].high.Some? ==> ranges[i].high.value <= w.high)
            && (OpenBelow(ranges) || OpenAbove(ranges) ==> horizon - 1 <= w.high - w.low)
            && (OpenBelow(ranges) != OpenAbove(ranges) ==> horizon <= w.high - w.low)
  {
    hide OpenAbove, OpenBelow, Lows, Highs, MinOf, MaxOf, WindowOf, HalfToEven;
    if ranges != [] {
      WindowIsTight(ranges, horizon, maxHorizon);
      MinBeforeMax(Lows(ranges));
      MinBeforeMax(Highs(ranges));
      if Lows(ranges) != [] && Highs(ranges) != [] {
        TwiceHalf(horizon - (MaxOf(Highs(ranges)) - MinOf(Lows(ranges))));
      }
      KnownInside(ranges, WindowOf(ranges, horizon, maxHorizon));
    } else {
      assert maxHorizon <= WindowOf(ranges, horizon, maxHorizon).high by { EarlierWindow(ranges, horizon, maxHorizon); }
      NothingOpen(ranges);
    }
  }

  lemma EarlierWindow(ranges: seq<Range>, horizon: int, maxHorizon: int)
    ensures maxHorizon <= WindowOf(ranges, horizon, maxHorizon).high
  {
    hide Simulated;
  }

  lemma NothingOpen(ranges: seq<Range>)
    requires ranges == []
    ensures !OpenBelow(ranges) && !OpenAbove(ranges)
  {
  }

  lemma MinBeforeMax(s: seq<int>)
    ensures s != [] ==> MinOf(s) <= MaxOf(s)
  {
    hide MinOf, MaxOf;
  }

  lemma KnownInside(ranges: seq<Range>, w: Window)
    requires Lows(ranges) != [] ==> w.low <= MinOf(Lows(ranges))
    requires Highs(ranges) != [] ==> MaxOf(Highs(ranges)) <= w.high
    ensures forall i :: 0 <= i < |ranges| && ranges[i].low.Some? ==> w.low <= ranges[i].low.value
    ensures forall i :: 0 <= i < |ranges| && ranges[i].high.Some? ==> ranges[i].high.value <= w.high
  {
    hide Lows, Highs, MinOf, MaxOf;
    forall i | 0 <= i < |ranges| && ranges[i].low.Some?
      ensures w.low <= ranges[i].low.value
    {
      assert ranges[i].low.value in Lows(ranges);
    }
    forall i | 0 <= i < |ranges| && ranges[i].high.Some?
      ensures ranges[i].high.value <= w.high
    {
      assert ranges[i].high.value in Highs(ranges);
    }
  }

  /** The known maxima are the events' own. */
  lemma {:induction false} HighsAreKnown(ranges: seq<Range>, x: int)
    ensures x in Highs(ranges) <==> exists i :: 0 <= i < |ranges| && ranges[i].high == Some(x)
  {
    if ranges == [] {
    } else {
      var init := ranges[..|ranges|-1];
      HighsAreKnown(init, x);
      if x in Highs(init) {
        var i :| 0 <= i < |init| && init[i].high == Some(x);
        assert ranges[i].high == Some(x);
      }
    }
  }

  ghost predicate MinimaInside(ranges: seq<Range>, w: Window) {
    forall i :: 0 <= i < |ranges| && ranges[i].low.Some? ==> ranges[i].low.value <= w.high
  }

  /**
   * Every known minimum lies inside exactly when the latest of them, if there is one, is not past an
   * earlier window, or not past where the known maxima put the end of this one: at the latest maximum,
   * moved on by half the gap to a horizon if both sides are open, or to a horizon after the earliest
   * minimum if only the right side is.
   */
  lemma MinimaInsideIff(ranges: seq<Range>, horizon: int, maxHorizon: int)
    ensures var lows, highs := Lows(ranges), Highs(ranges);
            MinimaInside(ranges, WindowOf(ranges, horizon, maxHorizon)) <==>
            || lows == []
            || MaxOf(lows) <= maxHorizon
            || (highs == [] && 0 <= horizon)
            || (highs != [] &&
                var gap := horizon - (MaxOf(highs) - MinOf(lows));
                MaxOf(lows) <= if gap <= 0 || !OpenAbove(ranges) then MaxOf(highs)
                               else if OpenBelow(ranges) then MaxOf(highs) + HalfToEven(gap)
                               else MinOf(lows) + horizon)
  {
    hide HalfToEven, OpenAbove, OpenBelow, Lows, Highs, MinOf, MaxOf, MinimaInside;
    var w, lows := WindowOf(ranges, horizon, maxHorizon), Lows(ranges);
    LatestDecides(ranges, w);
  }

  lemma LatestDecides(ranges: seq<Range>, w: Window)
    ensures MinimaInside(ranges, w) <==> Lows(ranges) == [] || MaxOf(Lows(ranges)) <= w.high
  {
    var lows := Lows(ranges);
    if lows != [] && MinimaInside(ranges, w) {
      var i :| 0 <= i < |ranges| && ranges[i].low == Some(MaxOf(lows));
      assert MaxOf(lows) <= w.high;
    }
    if lows == [] || MaxOf(lows) <= w.high {
      forall i | 0 <= i < |ranges| && ranges[i].low.Some?
        ensures ranges[i].low.value <= w.high
      {
        assert ranges[i].low.value in lows;
      }
    }
  }

  /**
   * With an unbounded event the window is shorter than a horizon exactly when both sides are open, the
   * gap to a horizon leaves 1 when divided by 4 (its half rounds down on both sides), and no earlier
   * window reaches further.
   */
  lemma ShortWindowIff(ranges: seq<Range>, horizon: int, maxHorizon: int)
    requires OpenBelow(ranges) || OpenAbove(ranges)
    ensures var w, lows, highs := WindowOf(ranges, horizon, maxHorizon), Lows(ranges), Highs(ranges);
            w.high - w.low < horizon <==>
            && OpenBelow(ranges) && OpenAbove(ranges) && lows != [] && highs != []
            && var gap := horizon - (MaxOf(highs) - MinOf(lows));
               0 < gap && gap % 4 == 1 && maxHorizon <= MaxOf(highs) + HalfToEven(gap)
  {
    hide OpenAbove, OpenBelow, Lows, Highs, MinOf, MaxOf, WindowOf, HalfToEven;
    assert ranges != [] by { OpenMeansSome(ranges); }
    WindowIsTight(ranges, horizon, maxHorizon);
    MakespanCovers(ranges, horizon, maxHorizon);
    ClosedSides(ranges);
    if Lows(ranges) != [] && Highs(ranges) != [] {
      TwiceHalf(horizon - (MaxOf(Highs(ranges)) - MinOf(Lows(ranges))));
    }
    if OpenBelow(ranges) && OpenAbove(ranges) && (Lows(ranges) == [] || Highs(ranges) == []) {
      OneSidedIsLong(ranges, horizon, maxHorizon);
    }
  }

  lemma OpenMeansSome(ranges: seq<Range>)
    requires OpenBelow(ranges) || OpenAbove(ranges)
    ensures ranges != []
  {
  }

  lemma OneSidedIsLong(ranges: seq<Range>, horizon: int, maxHorizon: int)
    requires Lows(ranges) == [] || Highs(ranges) == []
    ensures var w := WindowOf(ranges, horizon, maxHorizon); horizon <= w.high - w.low
  {
    hide OpenAbove, OpenBelow, Lows, Highs, MinOf, MaxOf;
  }

  /** Half of an odd number goes to the even side. */
  lemma TwiceHalf(n: int)
    ensures 2 * HalfToEven(n) == if n % 2 == 0 then n else if n % 4 == 1 then n - 1 else n + 1
  {
  }
}
