/** Accepting one more event delays nobody ahead of it and moves nobody forward. */
module Insertion {
  import opened Records
  import opened CpModel
  import opened Fifo
  import opened Admission

  /** The events of a queue can be sorted in one way only. */
  lemma {:induction false} SortedOnce(s: seq<nat>, t: seq<nat>, book: Book)
    requires WaitingBook(book) && BookValid(book)
    requires Sorted(s, book) && Sorted(t, book)
    requires forall u :: u in s <==> u in t
    ensures s == t
  {
    hide GetVariables, Before, Waiting;
    assert t != [] ==> t[0] in s;
    if s == [] {
    } else {
      assert s[0] in t;
      assert t != [] && t[0] in s;
      HeadsAgree(s, t, book);
      TailMembers(s, book);
      TailMembers(t, book);
      SortedOnce(s[1..], t[1..], book);
      assert s == [s[0]] + s[1..] && t == [t[0]] + t[1..];
    }
  }

  ghost predicate Sorted(s: seq<nat>, book: Book)
    requires BookValid(book)
  {
    && (forall i :: 0 <= i < |s| ==> s[i] in book)
    && (forall i, j :: 0 <= i < j < |s| ==> s[i] != s[j])
    && (forall i, j :: 0 <= i < j < |s| ==> !Before(book[s[j]], book[s[i]]))
  }

  lemma TailMembers(s: seq<nat>, book: Book)
    requires BookValid(book) && Sorted(s, book) && s != []
    ensures Sorted(s[1..], book)
    ensures forall u :: u in s[1..] <==> u in s && u != s[0]
  {
    hide GetVariables, Before;
    forall u | u in s && u != s[0]
      ensures u in s[1..]
    {
      var i :| 0 <= i < |s| && s[i] == u;
      assert s[1..][i-1] == u;
    }
  }

  lemma HeadsAgree(s: seq<nat>, t: seq<nat>, book: Book)
    requires WaitingBook(book) && BookValid(book)
    requires Sorted(s, book) && Sorted(t, book)
    requires s != [] && t != [] && s[0] in t && t[0] in s
    ensures s[0] == t[0]
  {
    hide GetVariables, Before;
    if s[0] != t[0] {
      var i :| 0 <= i < |s| && s[i] == t[0];
      var j :| 0 <= j < |t| && t[j] == s[0];
      assert !Before(book[s[i]], book[s[0]]) && !Before(book[t[j]], book[t[0]]);
      WaitingTimeSet(book[s[0]]);
      WaitingTimeSet(book[t[0]]);
      OrderIsStrictTotal(book[s[0]], book[t[0]], book[t[0]]);
    }
  }

  lemma WaitingTimeSet(e: Record)
    requires Waiting(e)
    ensures TimeSet(e)
  {
  }

  /** Where the newcomer stands, and that the others keep their order around it. */
  lemma OrderAround(order: seq<nat>, book: Book, newOrder: seq<nat>, newBook: Book, e: Record) returns (i: nat)
    requires Queue(order, book) && Queue(newOrder, newBook)
    requires e.uid !in book && newBook == book[e.uid := e]
    ensures i < |newOrder| && newOrder[i] == e.uid
    ensures order == newOrder[..i] + newOrder[i+1..]
  {
    hide GetVariables, Before, Waiting, SortedOrder, Sorted;
    QueueLine(order, book);
    QueueLine(newOrder, newBook);
    QueueSorted(order, book);
    QueueSorted(newOrder, newBook);
    assert e.uid in newOrder;
    i := Position(newOrder, e.uid);
    var rest := newOrder[..i] + newOrder[i+1..];
    NoRepeats(newOrder, newBook);
    RestSorted(newOrder, newBook, book, i, e);
    forall u
      ensures u in rest <==> u in book
    {
      RestMembers(newOrder, i, u);
    }
    SortedOnce(order, rest, book);
  }

  lemma QueueSorted(order: seq<nat>, book: Book)
    requires Queue(order, book)
    ensures Sorted(order, book)
  {
    hide GetVariables, Before, Waiting;
    QueueLine(order, book);
  }

  lemma NoRepeats(s: seq<nat>, book: Book)
    requires BookValid(book) && Sorted(s, book)
    ensures forall i, j :: 0 <= i < j < |s| ==> s[i] != s[j]
  {
  }

  lemma RestSorted(s: seq<nat>, newBook: Book, book: Book, i: nat, e: Record)
    requires BookValid(book) && BookValid(newBook) && Sorted(s, newBook)
    requires e.uid !in book && newBook == book[e.uid := e]
    requires i < |s| && s[i] == e.uid
    ensures Sorted(s[..i] + s[i+1..], book)
  {
    hide GetVariables, Before;
    var rest := s[..i] + s[i+1..];
    forall j | 0 <= j < |rest|
      ensures rest[j] == s[if j < i then j else j + 1] && rest[j] in book && book[rest[j]] == newBook[rest[j]]
    {
      assert s[i] != s[if j < i then j else j + 1];
    }
  }

  lemma RestMembers(s: seq<nat>, i: nat, u: nat)
    requires i < |s| && forall j, k :: 0 <= j < k < |s| ==> s[j] != s[k]
    ensures u in s[..i] + s[i+1..] <==> u in s && u != s[i]
  {
    if u in s && u != s[i] {
      var j :| 0 <= j < |s| && s[j] == u;
      if j < i {
        assert s[..i][j] == u;
      } else {
        assert s[i+1..][j-i-1] == u;
      }
    }
  }

  lemma {:induction false} SamePrefixSameStart(q: seq<Record>, r: seq<Record>, k: nat)
    requires WaitingLine(q) && WaitingLine(r) && k < |q| && k < |r|
    requires q[..k+1] == r[..k+1]
    ensures StartAt(q, k) == StartAt(r, k)
  {
    assert q[k] == q[..k+1][k] && r[k] == r[..k+1][k];
    if k == 0 {
    } else {
      assert q[..k] == q[..k+1][..k] && r[..k] == r[..k+1][..k];
      assert q[k-1] == q[..k+1][k-1] && r[k-1] == r[..k+1][k-1];
      SamePrefixSameStart(q, r, k - 1);
    }
  }

  lemma {:induction false} LaterStarts(q: seq<Record>, e: Record, i: nat, k: nat)
    requires WaitingLine(q) && Waiting(e) && i <= k < |q|
    ensures WaitingLine(q[..i] + [e] + q[i..])
    ensures StartAt(q, k) <= StartAt(q[..i] + [e] + q[i..], k + 1)
  {
    var r := q[..i] + [e] + q[i..];
    assert r[k+1] == q[k];
    if i < k {
      LaterStarts(q, e, i, k - 1);
      assert r[k] == q[k-1];
    } else if i > 0 {
      assert r[..i] == q[..i];
      SamePrefixSameStart(q, r, i - 1);
      assert r[i-1] == q[i-1];
    }
  }

  lemma LineAround(order: seq<nat>, book: Book, newOrder: seq<nat>, newBook: Book, e: Record, i: nat)
    requires Queue(order, book) && Queue(newOrder, newBook)
    requires e.uid !in book && newBook == book[e.uid := e]
    requires i < |newOrder| && newOrder[i] == e.uid && order == newOrder[..i] + newOrder[i+1..]
    ensures var q := (QueueLine(order, book); Line(order, book));
            (QueueLine(newOrder, newBook); Line(newOrder, newBook)) == q[..i] + [e] + q[i..]
  {
    hide GetVariables, Before, Waiting, SortedOrder;
    QueueLine(order, book);
    QueueLine(newOrder, newBook);
    var q, r := Line(order, book), Line(newOrder, newBook);
    forall k | 0 <= k < |r|
      ensures r[k] == (q[..i] + [e] + q[i..])[k]
    {
      assert k < i ==> order[k] == newOrder[k];
      assert k > i ==> order[k-1] == newOrder[k];
      if k != i {
        assert newOrder[k] in book;
      }
    }
  }

  /**
   * With one more event in the queue, every event ahead of the newcomer keeps its start and no event
   * starts earlier than before.
   */
  lemma OneMoreEvent(order: seq<nat>, book: Book, newOrder: seq<nat>, newBook: Book, e: Record, u: nat)
    requires Queue(order, book) && Queue(newOrder, newBook)
    requires e.uid !in book && newBook == book[e.uid := e]
    requires u in book
    ensures Earliest(order, book)[u].start <= Earliest(newOrder, newBook)[u].start
    ensures Ahead(book[u], e) ==> Earliest(newOrder, newBook)[u] == Earliest(order, book)[u]
  {
    hide GetVariables, Before, Waiting, SortedOrder, Earliest, Queue, Sorted, StartAt, WaitingLine, WaitingBook;
    QueueLine(order, book);
    QueueLine(newOrder, newBook);
    var i := OrderAround(order, book, newOrder, newBook, e);
    LineAround(order, book, newOrder, newBook, e, i);
    var k := Position(order, u);
    var j := if k < i then k else k + 1;
    assert newOrder[j] == u;
    EarliestAt(order, book, k);
    EarliestAt(newOrder, newBook, j);
    EarliestAt(newOrder, newBook, i);
    LineStarts(Line(order, book), e, i, k);
    if i < k + 1 {
      LaterIsNotBefore(newOrder, newBook, i, k + 1);
    }
  }

  lemma LineStarts(q: seq<Record>, e: Record, i: nat, k: nat)
    requires WaitingLine(q) && Waiting(e) && i <= |q| && k < |q|
    ensures var r := q[..i] + [e] + q[i..];
            && WaitingLine(r)
            && (k < i ==> r[k] == q[k] && StartAt(r, k) == StartAt(q, k))
            && (i <= k ==> StartAt(q, k) <= StartAt(r, k + 1))
  {
    hide Waiting;
    var r := q[..i] + [e] + q[i..];
    if k < i {
      assert q[..k+1] == r[..k+1];
      SamePrefixSameStart(q, r, k);
    } else {
      LaterStarts(q, e, i, k);
    }
  }

  lemma LaterIsNotBefore(order: seq<nat>, book: Book, i: nat, k: nat)
    requires Queue(order, book) && i < k < |order|
    ensures order[i] in book && order[k] in book && !Before(book[order[k]], book[order[i]])
  {
    hide GetVariables, Before, Waiting;
    QueueLine(order, book);
  }
}
