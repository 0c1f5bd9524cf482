/** `AddCumulative` with all demands 1: at no instant do more intervals cover it than the capacity allows. */
module Cumulative {
  datatype Span = Span(start: int, end: int)

  predicate Covers(s: Span, t: int) {
    s.start <= t < s.end
  }

  /** The keys of the intervals that cover instant `t`. */
  function At(spans: map<nat, Span>, t: int): set<nat> {
    set u | u in spans && Covers(spans[u], t)
  }

  ghost predicate Within(spans: map<nat, Span>, capacity: int) {
    forall t :: |At(spans, t)| <= capacity
  }

  /** `a` covers only instants that `b` covers. */
  predicate Narrower(a: Span, b: Span) {
    a.end <= a.start || (b.start <= a.start && a.end <= b.end)
  }

  predicate Disjoint(a: Span, b: Span) {
    a.end <= b.start || b.end <= a.start
  }

  lemma {:induction false} SubsetSize<T>(a: set<T>, b: set<T>)
    requires a <= b
    ensures |a| <= |b|
  {
    if a == {} {
    } else {
      var x :| x in a;
      SubsetSize(a - {x}, b - {x});
    }
  }

  /** Dropping intervals and shrinking others keeps the constraint. */
  lemma NarrowingKeepsWithin(spans: map<nat, Span>, narrow: map<nat, Span>, capacity: int)
    requires Within(spans, capacity)
    requires narrow.Keys <= spans.Keys
    requires forall u :: u in narrow ==> Narrower(narrow[u], spans[u])
    ensures Within(narrow, capacity)
  {
    forall t
      ensures |At(narrow, t)| <= capacity
    {
      SubsetSize(At(narrow, t), At(spans, t));
    }
  }

  lemma {:induction false} LatestStart(spans: map<nat, Span>, s: set<nat>) returns (latest: nat)
    requires s != {} && s <= spans.Keys
    ensures latest in s
    ensures forall u :: u in s ==> spans[u].start <= spans[latest].start
  {
    latest :| latest in s;
    if s != {latest} {
      var other := LatestStart(spans, s - {latest});
      if spans[latest].start < spans[other].start {
        latest := other;
      }
    }
  }

  /** It is enough to look at the instants where an interval of positive length starts. */
  lemma WithinIffAtStarts(spans: map<nat, Span>, capacity: nat)
    ensures Within(spans, capacity) <==>
            forall u :: u in spans && spans[u].start < spans[u].end ==> |At(spans, spans[u].start)| <= capacity
  {
    if forall u :: u in spans && spans[u].start < spans[u].end ==> |At(spans, spans[u].start)| <= capacity {
      forall t
        ensures |At(spans, t)| <= capacity
      {
        if At(spans, t) != {} {
          var u := LatestStart(spans, At(spans, t));
          SubsetSize(At(spans, t), At(spans, spans[u].start));
        }
      }
    }
  }

  lemma {:induction false} TwoMembers(s: set<nat>)
    requires |s| > 1
    ensures exists u, v :: u in s && v in s && u != v
  {
    var u :| u in s;
    assert |s - {u}| == |s| - 1;
    var v :| v in s - {u};
  }

  /** On a unary resource the constraint says that intervals of positive length are pairwise disjoint. */
  lemma UnitCapacityIffDisjoint(spans: map<nat, Span>)
    ensures Within(spans, 1) <==>
            forall u, v :: u in spans && v in spans && u != v &&
                           spans[u].start < spans[u].end && spans[v].start < spans[v].end ==>
                           Disjoint(spans[u], spans[v])
  {
    if Within(spans, 1) {
      forall u, v | u in spans && v in spans && u != v &&
                    spans[u].start < spans[u].end && spans[v].start < spans[v].end
        ensures Disjoint(spans[u], spans[v])
      {
        if !Disjoint(spans[u], spans[v]) {
          var t := if spans[u].start <= spans[v].start then spans[v].start else spans[u].start;
          SubsetSize({u, v}, At(spans, t));
        }
      }
    } else {
      var t :| |At(spans, t)| > 1;
      TwoMembers(At(spans, t));
    }
  }
}
