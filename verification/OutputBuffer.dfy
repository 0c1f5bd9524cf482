/** The model limits the output buffer by the size of the input buffer. */
module OutputBuffer {
  import opened Wrappers
  import opened Cumulative
  import opened Records
  import opened CpModel
  import opened Optimum

  /** Event `u` of `n` was processed over `u..u+1` and may not leave before `n + 1`. */
  function Held(n: nat, u: nat): Record {
    var eta, etd := Etx(Some(0), Some(0), Some(0)), Etx(None, Some(n + 1), None);
    Record(u, 1, Finished, eta, etd, Some(u), Some(u + 1), Some(0), None, false)
  }

  function HeldBook(n: nat): Book {
    map u: nat | u < n :: Held(n, u)
  }

  function HeldTimes(n: nat): (a: Assignment)
    ensures a.Keys == HeldBook(n).Keys
  {
    map u: nat | u < n :: HeldUntil(n, u)
  }

  function HeldUntil(n: nat, u: nat): Values {
    Values(0, u, u + 1, n + 1)
  }

  lemma {:induction false} FirstNumbers(s: set<nat>, n: nat)
    requires forall u: nat :: u in s <==> u < n
    ensures |s| == n
  {
    if n == 0 {
    } else {
      FirstNumbers(s - {n - 1}, n - 1);
    }
  }

  lemma HeldIsPlan(n: nat)
    ensures Plan(HeldBook(n), Window(0, n + 1), n, HeldTimes(n))
  {
    hide Within;
    var a := HeldTimes(n);
    FirstNumbers(a.Keys, n);
    AtMostAll(WaitSpans(HeldBook(n), a), a.Keys, n);
    AtMostAll(OutputSpans(a), a.Keys, n);
    UnitCapacityIffDisjoint(ProcessSpans(a));
  }

  lemma AtMostAll(spans: map<nat, Span>, keys: set<nat>, n: nat)
    requires spans.Keys <= keys && |keys| == n
    ensures Within(spans, n)
  {
    forall t
      ensures |At(spans, t)| <= n
    {
      SubsetSize(At(spans, t), keys);
    }
  }

  /** Nobody may leave earlier, so there is no cheaper plan. */
  lemma HeldIsOptimal(n: nat, capacity: int)
    requires n <= capacity
    ensures OptimalPlan(HeldBook(n), Window(0, n + 1), capacity, HeldTimes(n))
  {
    hide GetVariables, Admits, Cost;
    var book, w, a := HeldBook(n), Window(0, n + 1), HeldTimes(n);
    HeldIsPlan(n);
    forall b | Plan(book, w, capacity, b)
      ensures Cost(a.Keys, a) <= Cost(b.Keys, b)
    {
      forall u | u in a
        ensures a[u].etd <= b[u].etd
      {
        RecordedTimesAreFixed(book[u], b[u], w);
      }
      CostMonotone(a.Keys, b, a);
    }
  }

  /**
   * Every optimal plan keeps to the output buffer's own size exactly when that is at least the size of
   * the input buffer.
   */
  lemma OutputBufferKeptIff(bufferInput: nat, bufferOutput: nat)
    ensures (forall book, w, a, t :: OptimalPlan(book, w, bufferInput, a) ==> |StoredAt(a, t)| <= bufferOutput) <==>
            bufferInput <= bufferOutput
  {
    hide GetVariables, Admits, Cost, BookValid;
    if bufferInput <= bufferOutput {
      forall book, w, a, t | OptimalPlan(book, w, bufferInput, a)
        ensures |StoredAt(a, t)| <= bufferOutput
      {
        PlanResources(book, w, bufferInput, a);
      }
    } else {
      var n := bufferInput;
      HeldIsOptimal(n, n);
      FirstNumbers(StoredAt(HeldTimes(n), n), n);
      assert |StoredAt(HeldTimes(n), n)| > bufferOutput;
    }
  }
}
