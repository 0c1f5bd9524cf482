/**
 * Conversion between times and steps at any positive resolution, with Python's `round`:
 * to the nearest integer, and from exactly halfway to the even one.
 */
module TimeGrid {
  import Makespan

  /** `round(x)`. */
  function Round(x: real): int {
    var floor := x.Floor;
    var rest := x - floor as real;
    if rest < 0.5 || (rest == 0.5 && floor % 2 == 0) then floor else floor + 1
  }

  /** `convert_resolution`: a time in seconds as a number of steps. */
  function ToSteps(seconds: real, resolution: real): int
    requires resolution > 0.0
  {
    Round(seconds / resolution)
  }

  /** `convert_seconds`: a number of steps in seconds. */
  function ToSeconds(steps: int, resolution: real): real {
    steps as real * resolution
  }

  /******* Rounding *******/

  /** `x` lies exactly between two integers. */
  predicate Halfway(x: real) {
    x - x.Floor as real == 0.5
  }

  /** Rounding is the nearest integer, and among two equally near ones the even one. */
  lemma RoundIsNearest(x: real, n: int)
    ensures n == Round(x) <==>
            && -0.5 <= x - n as real <= 0.5
            && (Halfway(x) ==> n % 2 == 0)
  {
  }

  /** The half that splits the gap of the planning window is rounded in the same way. */
  lemma HalfIsRounded(n: int)
    ensures Makespan.HalfToEven(n) == Round(n as real / 2.0)
  {
    RoundIsNearest(n as real / 2.0, Makespan.HalfToEven(n));
  }

  lemma RoundMonotone(x: real, y: real)
    requires x <= y
    ensures Round(x) <= Round(y)
  {
  }

  lemma FloorShift(x: real, k: int)
    ensures (x + k as real).Floor == x.Floor + k
  {
  }

  /** Adding whole steps commutes with rounding, unless `x` is halfway and an odd number changes parity. */
  lemma RoundShift(x: real, k: int)
    ensures Round(x + k as real) == Round(x) + k <==> !Halfway(x) || k % 2 == 0
    ensures -1 <= Round(x + k as real) - (Round(x) + k) <= 1
  {
    FloorShift(x, k);
  }

  /******* The grid *******/

  lemma DivideMonotone(x: real, y: real, resolution: real)
    requires x <= y && resolution > 0.0
    ensures x / resolution <= y / resolution
  {
  }

  lemma TimesDivide(k: real, resolution: real)
    requires resolution > 0.0
    ensures k * resolution / resolution == k
  {
  }

  /** Later times never get smaller step numbers. */
  lemma StepsMonotone(x: real, y: real, resolution: real)
    requires x <= y && resolution > 0.0
    ensures ToSteps(x, resolution) <= ToSteps(y, resolution)
  {
    DivideMonotone(x, y, resolution);
    RoundMonotone(x / resolution, y / resolution);
  }

  /** The step is within half a step of the time. */
  lemma StepsNearby(seconds: real, resolution: real)
    requires resolution > 0.0
    ensures -0.5 <= seconds / resolution - ToSteps(seconds, resolution) as real <= 0.5
  {
    RoundIsNearest(seconds / resolution, ToSteps(seconds, resolution));
  }

  /** What was stored on the grid is read back as the same step. */
  lemma StepsOfSeconds(steps: int, resolution: real)
    requires resolution > 0.0
    ensures ToSteps(ToSeconds(steps, resolution), resolution) == steps
  {
    TimesDivide(steps as real, resolution);
    assert ToSeconds(steps, resolution) / resolution == steps as real;
    assert (steps as real).Floor == steps;
  }

  /******* Plans stored as points in time *******/

  /** A plan step stored at `now` as a point in time, and read again at `later`. */
  function Stored(steps: int, resolution: real, now: real): real {
    now + ToSeconds(steps, resolution)
  }

  function Read(stored: real, resolution: real, later: real): int
    requires resolution > 0.0
  {
    ToSteps(stored - later, resolution)
  }

  lemma SplitQuotient(steps: int, resolution: real, elapsed: real)
    requires resolution > 0.0
    ensures (steps as real * resolution - elapsed) / resolution == steps as real + -(elapsed / resolution)
  {
    TimesDivide(steps as real, resolution);
    DivideDifference(steps as real * resolution, elapsed, resolution);
  }

  lemma DivideDifference(x: real, y: real, r: real)
    requires r > 0.0
    ensures (x - y) / r == x / r - y / r
  {
    var p, q := x / r, y / r;
    assert p * r == x && q * r == y;
    assert (p - q) * r == x - y;
    TimesDivide(p - q, r);
  }

  lemma ReadShifted(steps: int, resolution: real, now: real, later: real)
    requires resolution > 0.0
    ensures Read(Stored(steps, resolution, now), resolution, later) ==
            Round(-((later - now) / resolution) + steps as real)
  {
    var elapsed := later - now;
    assert Stored(steps, resolution, now) - later == steps as real * resolution - elapsed;
    SplitQuotient(steps, resolution, elapsed);
  }

  lemma HalfwayNegation(x: real)
    ensures Halfway(-x) <==> Halfway(x)
  {
    if Halfway(x) {
      assert (-x).Floor == -x.Floor - 1;
    }
    if Halfway(-x) {
      assert x.Floor == -(-x).Floor - 1;
    }
  }

  /**
   * Two plan times stored at one `now` and read at a later one keep their distance exactly when the
   * elapsed time is not halfway between steps, or the distance is even; it never changes by more than one.
   */
  lemma GapsSurvive(first: int, second: int, resolution: real, now: real, later: real)
    requires resolution > 0.0
    ensures var gap := Read(Stored(second, resolution, now), resolution, later) -
                       Read(Stored(first, resolution, now), resolution, later);
            && (gap == second - first <==> !Halfway((later - now) / resolution) || (second - first) % 2 == 0)
            && -1 <= gap - (second - first) <= 1
  {
    var elapsed := (later - now) / resolution;
    ReadShifted(first, resolution, now, later);
    ReadShifted(second, resolution, now, later);
    HalfwayNegation(elapsed);
    ShiftedGap(-elapsed, first, second);
  }

  lemma ShiftedGap(x: real, first: int, second: int)
    ensures var gap := Round(x + second as real) - Round(x + first as real);
            && (gap == second - first <==> !Halfway(x) || (second - first) % 2 == 0)
            && -1 <= gap - (second - first) <= 1
  {
    FloorShift(x, first);
    FloorShift(x, second);
  }
}
