/** `sorted`, by the event order, and the order of uids it gives. */
module Sorting {
  import opened Wrappers
  import opened Records
  import opened CpModel
  import opened History
  import opened Planning

  predicate AllComparable(s: seq<Record>) {
    forall i :: 0 <= i < |s| ==> Comparable(s[i])
  }

  predicate InOrder(s: seq<Record>) {
    forall i, j :: 0 <= i < j < |s| ==> !Ahead(s[j], s[i])
  }

  /** Not coming after is transitive on these events. */
  ghost predicate Consistent(s: seq<Record>) {
    forall a, b, c :: a in s && b in s && c in s && !Ahead(b, a) && !Ahead(c, b) ==> !Ahead(c, a)
  }

  lemma AheadIsAsymmetric(a: Record, b: Record)
    requires Ahead(a, b)
    ensures !Ahead(b, a)
  {
  }

  /** The place of `e` among the sorted ones of the events `all`: behind everything it does not precede. */
  method Place(s: seq<Record>, e: Record, ghost all: seq<Record>) returns (p: nat)
    requires e in all && forall d :: d in s ==> d in all
    ensures p <= |s|
    ensures Consistent(all) && InOrder(s) ==> forall i :: 0 <= i < p ==> !Ahead(e, s[i])
    ensures forall i :: p <= i < |s| ==> !Ahead(s[i], e)
  {
    hide Ahead;
    p := |s|;
    while 0 < p && Ahead(e, s[p-1])
      invariant p <= |s|
      invariant forall i :: p <= i < |s| ==> !Ahead(s[i], e)
    {
      AheadIsAsymmetric(e, s[p-1]);
      p := p - 1;
    }
    if Consistent(all) && InOrder(s) {
      forall i | 0 <= i < p
        ensures !Ahead(e, s[i])
      {
        if i < p - 1 {
          assert s[i] in all && s[p-1] in all && !Ahead(s[p-1], s[i]);
        }
      }
    }
  }

  function InsertAt(r: seq<Record>, p: nat, e: Record): seq<Record>
    requires p <= |r|
  {
    r[..p] + [e] + r[p..]
  }

  lemma InsertKeepsOrder(r: seq<Record>, p: nat, e: Record)
    requires InOrder(r) && p <= |r|
    requires forall i :: 0 <= i < p ==> !Ahead(e, r[i])
    requires forall i :: p <= i < |r| ==> !Ahead(r[i], e)
    ensures InOrder(InsertAt(r, p, e))
  {
    hide Ahead;
  }

  lemma InsertKeepsDistinct(r: seq<Record>, p: nat, e: Record)
    requires DistinctUids(r) && p <= |r| && forall d :: d in r ==> d.uid != e.uid
    ensures DistinctUids(InsertAt(r, p, e))
    ensures forall d :: d in InsertAt(r, p, e) <==> d in r || d == e
  {
    var t := InsertAt(r, p, e);
    assert t[p] == e;
    forall d | d in r
      ensures d in t
    {
      var i :| 0 <= i < |r| && r[i] == d;
      assert t[if i < p then i else i + 1] == d;
    }
  }

  /** The two lists hold the same events. */
  ghost predicate SameMembers(r: seq<Record>, s: seq<Record>) {
    forall e :: e in r <==> e in s
  }

  /** `sorted`: the same events, and none ahead of an earlier one if the order allows it. */
  method Sort(s: seq<Record>) returns (r: seq<Record>)
    requires DistinctUids(s)
    ensures SameMembers(r, s) && DistinctUids(r)
    ensures Consistent(s) ==> InOrder(r)
  {
    hide Ahead, InsertAt, Consistent;
    r := [];
    for i := 0 to |s|
      invariant SameMembers(r, s[..i]) && DistinctUids(r)
      invariant Consistent(s) ==> InOrder(r)
    {
      assert forall d :: d in r ==> d in s;
      var p := Place(r, s[i], s);
      assert forall d :: d in s[..i] ==> d.uid != s[i].uid;
      InsertKeepsDistinct(r, p, s[i]);
      if Consistent(s) {
        InsertKeepsOrder(r, p, s[i]);
      }
      assert forall d :: d in s[..i+1] <==> d in s[..i] || d == s[i];
      r := InsertAt(r, p, s[i]);
    }
    assert s[..|s|] == s;
  }

  function Uids(s: seq<Record>): (r: seq<nat>)
    ensures |r| == |s|
  {
    seq(|s|, i requires 0 <= i < |s| => s[i].uid)
  }

  lemma UniqueWhenDistinct(s: seq<Record>)
    requires DistinctUids(s)
    ensures UidsUnique(s)
  {
  }

  /** Sorting the events arranges the dictionary's keys. */
  lemma SortedUids(s: seq<Record>, r: seq<Record>)
    requires DistinctUids(s) && DistinctUids(r) && SameMembers(r, s)
    requires AllComparable(s) && Readable(s) && (Consistent(s) ==> InOrder(r))
    ensures BookValid(BookOf(s)) && Arranged(Uids(r), BookOf(s))
    ensures forall i :: 0 <= i < |r| ==> r[i].uid in BookOf(s) && BookOf(s)[r[i].uid] == r[i]
  {
    hide Before, GetVariables, Comparable, BookOf, InOrder, Consistent, Sortable, SortedOrder, Ahead;
    UniqueWhenDistinct(s);
    BookMembers(s);
    SortedBook(s);
    forall u
      ensures u in Uids(r) <==> u in BookOf(s)
    {
      if u in BookOf(s) {
        var i :| 0 <= i < |r| && r[i] == BookOf(s)[u];
        assert Uids(r)[i] == u;
      }
      if u in Uids(r) {
        var i :| 0 <= i < |r| && r[i].uid == u;
        assert r[i] in r;
      }
    }
    forall i | 0 <= i < |r|
      ensures r[i].uid in BookOf(s) && BookOf(s)[r[i].uid] == r[i]
    {
      assert r[i] in r;
    }
    if Sortable(BookOf(s)) {
      SortableIsConsistent(s);
      UidsInOrder(s, r);
    }
  }

  lemma SortableIsConsistent(s: seq<Record>)
    requires UidsUnique(s) && Sortable(BookOf(s))
    ensures Consistent(s)
  {
    hide Ahead, BookOf;
    BookMembers(s);
    forall a, b, c | a in s && b in s && c in s && !Ahead(b, a) && !Ahead(c, b)
      ensures !Ahead(c, a)
    {
      var book := BookOf(s);
      assert book[a.uid] == a && book[b.uid] == b && book[c.uid] == c;
    }
  }

  lemma UidsInOrder(s: seq<Record>, r: seq<Record>)
    requires BookValid(BookOf(s)) && InOrder(r) && DistinctUids(r)
    requires forall u :: u in Uids(r) <==> u in BookOf(s)
    requires forall i :: 0 <= i < |r| ==> r[i].uid in BookOf(s) && BookOf(s)[r[i].uid] == r[i]
    ensures SortedOrder(Uids(r), BookOf(s))
  {
    hide Before, GetVariables, Comparable, BookOf;
    forall i, j | 0 <= i < j < |r|
      ensures !Before(BookOf(s)[r[j].uid], BookOf(s)[r[i].uid])
    {
      assert !Ahead(r[j], r[i]);
    }
  }

  lemma SortedBook(s: seq<Record>)
    requires DistinctUids(s) && AllComparable(s) && Readable(s)
    ensures BookValid(BookOf(s))
  {
    hide Before, GetVariables, Comparable, BookOf;
    UniqueWhenDistinct(s);
    BookMembers(s);
    forall u | u in BookOf(s)
      ensures BookOf(s)[u].uid == u && Comparable(BookOf(s)[u]) && GetVariables(BookOf(s)[u]).Ok?
    {
      assert BookOf(s)[u] in s;
    }
  }
}
