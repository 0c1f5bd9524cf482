/** The event object: its life-cycle transitions and the storing of a plan, each on its own fields. */
module Events {
  import opened Wrappers
  import opened Records
  import opened History

  class Event {
    var uid: nat
    const duration: int
    var state: State
    var eta: Etx
    var etd: Etx
    var scheduleStart: Option<int>
    var scheduleFinish: Option<int>
    var activityStart: Option<int>
    var activityFinish: Option<int>
    var canceled: bool

    /** The event's fields as one value. */
    function View(): Record
      reads this
    {
      Record(uid, duration, state, eta, etd, scheduleStart, scheduleFinish, activityStart, activityFinish, canceled)
    }

    /** Departure bounds on both sides make a new event a scheduled one. */
    constructor (duration: int, eta: Etx, etd: Etx)
      requires Acceptable(eta, etd)
      ensures View() == Record(0, duration, if etd.low.Some? && etd.high.Some? then Scheduled else New,
                               eta, etd, None, None, None, None, false)
    {
      this.uid, this.duration, this.eta, this.etd := 0, duration, eta, etd;
      state := if etd.low.Some? && etd.high.Some? then Scheduled else New;
      scheduleStart, scheduleFinish, activityStart, activityFinish := None, None, None, None;
      canceled := false;
    }

    method Arrive(time: int)
      modifies this
      ensures View() == Records.Arrive(old(View()), time)
      ensures state == Arrived && activityStart == Some(time) && eta == Etx(Some(time), old(eta.low), old(eta.high))
      ensures etd == old(etd) && scheduleStart == old(scheduleStart) && scheduleFinish == old(scheduleFinish)
      ensures activityFinish == old(activityFinish) && uid == old(uid) && canceled == old(canceled)
    {
      state := Arrived;
      eta := eta.(time := Some(time));
      activityStart := Some(time);
    }

    method Start(time: int)
      modifies this
      ensures View() == Records.Start(old(View()), time)
      ensures state == Started && scheduleStart == Some(time)
      ensures eta == old(eta) && etd == old(etd) && scheduleFinish == old(scheduleFinish) && activityStart == old(activityStart)
      ensures activityFinish == old(activityFinish) && uid == old(uid) && canceled == old(canceled)
    {
      state := Started;
      scheduleStart := Some(time);
    }

    method Finish(time: int)
      modifies this
      ensures View() == Records.Finish(old(View()), time)
      ensures state == Finished && scheduleFinish == Some(time)
      ensures eta == old(eta) && etd == old(etd) && scheduleStart == old(scheduleStart) && activityStart == old(activityStart)
      ensures activityFinish == old(activityFinish) && uid == old(uid) && canceled == old(canceled)
    {
      state := Finished;
      scheduleFinish := Some(time);
    }

    method Depart(time: int)
      modifies this
      ensures View() == Records.Depart(old(View()), time)
      ensures state == Departed && activityFinish == Some(time) && etd == Etx(Some(time), old(etd.low), old(etd.high))
      ensures eta == old(eta) && scheduleStart == old(scheduleStart) && scheduleFinish == old(scheduleFinish)
      ensures activityStart == old(activityStart) && uid == old(uid) && canceled == old(canceled)
    {
      state := Departed;
      etd := etd.(time := Some(time));
      activityFinish := Some(time);
    }

    method Cancel()
      modifies this
      ensures View() == Records.Cancel(old(View()))
      ensures canceled
      ensures state == if old(state) in {New, Scheduled, Departed} then Canceled else old(state)
      ensures eta == old(eta) && etd == old(etd) && scheduleStart == old(scheduleStart) && scheduleFinish == old(scheduleFinish)
      ensures activityStart == old(activityStart) && activityFinish == old(activityFinish) && uid == old(uid)
    {
      if state == New || state == Scheduled || state == Departed {
        state := Canceled;
      }
      canceled := true;
    }

    /** The solver's values, stored by state. */
    method Plan(v: Values)
      modifies this
      ensures View() == WriteBack(old(View()), v)
      ensures uid == old(uid) && state == old(state)
    {
      if state == New {
        eta := eta.(time := Some(v.eta));
        scheduleStart, scheduleFinish := Some(v.start), Some(v.finish);
        etd := etd.(time := Some(v.etd));
      } else if state == Scheduled || state == Arrived {
        scheduleStart, scheduleFinish := Some(v.start), Some(v.finish);
      } else if state == Started {
        scheduleFinish := Some(v.finish);
      }
    }
  }

  function Views(s: seq<Event>): (r: seq<Record>)
    reads s
    ensures |r| == |s|
  {
    seq(|s|, i requires 0 <= i < |s| reads s => s[i].View())
  }

  lemma ViewsNext(s: seq<Event>, e: Event)
    ensures Views(s + [e]) == Views(s) + [e.View()]
  {
  }

  lemma ViewsJoin(s: seq<Event>, t: seq<Event>)
    ensures Views(s + t) == Views(s) + Views(t)
  {
  }

  lemma ViewsWithout(s: seq<Event>, i: nat)
    requires i < |s|
    ensures Views(Without(s, i)) == Without(Views(s), i)
  {
  }

  /** Among events with different uids, the value tells the object. */
  lemma AllAmong(all: seq<Event>, some: seq<Event>, others: seq<Event>)
    requires DistinctUids(Views(all))
    requires (forall e :: e in some ==> e in all) && (forall e :: e in others ==> e in all)
    requires forall r :: r in Views(some) ==> r in Views(others)
    ensures forall e :: e in some ==> e in others
  {
    forall e | e in some
      ensures e in others
    {
      var i :| 0 <= i < |some| && some[i] == e;
      assert Views(some)[i] in Views(some);
      var j :| 0 <= j < |others| && Views(others)[j] == e.View();
      SameObject(all, e, others[j]);
    }
  }

  lemma SameObject(all: seq<Event>, x: Event, y: Event)
    requires DistinctUids(Views(all)) && x in all && y in all && x.uid == y.uid
    ensures x == y
  {
    var i :| 0 <= i < |all| && all[i] == x;
    var j :| 0 <= j < |all| && all[j] == y;
    assert Views(all)[i].uid == Views(all)[j].uid;
  }
}
