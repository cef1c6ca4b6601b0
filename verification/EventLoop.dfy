/**
 The event loop: sorted timer list, pending list and watch table, updated in place.
 `getNow` and `select` are parameters; a callback is the event returned as fired, and what
 callbacks do to the loop are further calls of the methods here (see TimerQueue for whole runs).
 */
module EventLoop {
  import opened Common
  import opened TimeVals
  import opened EventList
  import opened TimerQueue

  const MAX_FD_EVENTS := 8

  /** `view` lists the members of a timer list with their deadlines. */
  ghost predicate Shows(view: seq<Timer<RilEvent>>, s: seq<RilEvent>)
    reads s`timeout
  {
    && |view| == |s|
    && forall i :: 0 <= i < |s| ==>
         view[i].ev == s[i] && s[i].timeout.Normal() && view[i].due == s[i].timeout.Usec()
  }

  lemma {:induction false} InsertShows(view: seq<Timer<RilEvent>>, s: seq<RilEvent>, t: Timer<RilEvent>)
    requires Shows(view, s)
    requires t.ev.timeout.Normal() && t.due == t.ev.timeout.Usec()
    ensures var k := InsertPos(view, t.due); Shows(Insert(view, t), s[..k] + [t.ev] + s[k..])
  {
    hide Sorted;
    var k := InsertPos(view, t.due);
    var r := s[..k] + [t.ev] + s[k..];
    assert forall i :: 0 <= i < |r| ==> r[i] == if i < k then s[i] else if i == k then t.ev else s[i - 1];
  }

  /** A call of `ril_timer_add` from inside a callback. */
  datatype Arming = Arming(ev: RilEvent, delay: TimeVal, now: TimeVal) {
    predicate Normal() {
      delay.Normal() && now.Normal()
    }
  }

  ghost function InsertAll(q: seq<Timer<RilEvent>>, armings: seq<Arming>): seq<Timer<RilEvent>> {
    if |armings| == 0 then q
    else
      var a := armings[|armings| - 1];
      Insert(InsertAll(q, armings[..|armings| - 1]), Timer(a.ev, a.now.Usec() + a.delay.Usec()))
  }

  ghost predicate Distinguished(armings: seq<Arming>) {
    forall i, j :: 0 <= i < j < |armings| ==> armings[i].ev != armings[j].ev
  }

  ghost function Events(armings: seq<Arming>): (r: set<RilEvent>)
    ensures forall i :: 0 <= i < |armings| ==> armings[i].ev in r
    ensures forall e :: e in r ==> exists i :: 0 <= i < |armings| && armings[i].ev == e
  {
    set i | 0 <= i < |armings| :: armings[i].ev
  }

  /** What the first n callbacks arm. */
  ghost function Flat(plan: nat -> seq<Arming>, n: nat): seq<Arming> {
    if n == 0 then [] else Flat(plan, n - 1) + plan(n - 1)
  }

  ghost function Planned(plan: nat -> seq<Arming>, n: nat): (r: set<RilEvent>)
    ensures forall i, j :: 0 <= i < n && 0 <= j < |plan(i)| ==> plan(i)[j].ev in r
  {
    if n == 0 then {} else Planned(plan, n - 1) + Events(plan(n - 1))
  }

  lemma {:induction false} InsertMore(q: seq<Timer<RilEvent>>, a: seq<Arming>, b: seq<Arming>)
    ensures InsertAll(q, a + b) == InsertAll(InsertAll(q, a), b)
    decreases |b|
  {
    hide Insert;
    if |b| == 0 {
      assert a + b == a;
    } else {
      var n := |b| - 1;
      assert (a + b)[..|a + b| - 1] == a + b[..n] && (a + b)[|a + b| - 1] == b[n];
      InsertMore(q, a, b[..n]);
    }
  }

  lemma FlatMore(q: seq<Timer<RilEvent>>, plan: nat -> seq<Arming>, n: nat)
    ensures InsertAll(q, Flat(plan, n + 1)) == InsertAll(InsertAll(q, Flat(plan, n)), plan(n))
  {
    InsertMore(q, Flat(plan, n), plan(n));
  }

  class Loop {
    const timerList: RilEvent
    const pendingList: RilEvent
    ghost var timers: seq<RilEvent>
    ghost var pending: seq<RilEvent>
    ghost var queue: seq<Timer<RilEvent>>  // `timers` with their deadlines

    ghost predicate Valid()
      reads this, timerList, pendingList, timers, pending
    {
      && Apart(timerList, timers, pendingList, pending)
      && Shows(queue, timers)
      && Sorted(queue)
    }

    /** `ril_event_init`, lists part. */
    constructor ()
      ensures Valid() && |timers| == |pending| == 0
      ensures fresh(timerList) && fresh(pendingList)
    {
      timerList := new RilEvent.Sentinel();
      pendingList := new RilEvent.Sentinel();
      timers, pending, queue := [], [], [];
    }

    /** The search of `ril_timer_add` for the first timer that is not due earlier. */
    method FindPlace(timeout: TimeVal) returns (list: RilEvent, ghost k: nat)
      requires Valid() && timeout.Normal()
      ensures k == InsertPos(queue, timeout.Usec())
      ensures k <= |timers| && list == Node(timerList, timers, k)
    {
      RingFirst(timerList, timers);
      list, k := timerList.next, 0;
      while list != timerList && TimerLess(list.timeout, timeout)
        invariant k <= |timers| && list == Node(timerList, timers, k)
        invariant list == timerList <==> k == |timers|
        invariant forall i :: 0 <= i < k ==> queue[i].due < timeout.Usec()
        decreases |timers| - k
      {
        RingNext(timerList, timers, k);
        list, k := list.next, k + 1;
      }
    }

    /** `addToList` on the timer list, at the place found for the new timer. */
    method LinkTimer(ev: RilEvent, list: RilEvent, ghost k: nat)
      requires Valid()
      requires ev != timerList && ev != pendingList && ev !in timers && ev !in pending && ev.timeout.Normal()
      requires k == InsertPos(queue, ev.timeout.Usec()) && list == Node(timerList, timers, k)
      modifies this`timers, this`queue, ev`next, ev`prev, timerList`next, timerList`prev, timers`next, timers`prev
      ensures Valid()
      ensures queue == Insert(old(queue), Timer(ev, ev.timeout.Usec()))
      ensures forall e :: e in timers ==> e in old(timers) || e == ev
    {
      hide Ring, InsertPos;
      ghost var t := Timer(ev, ev.timeout.Usec());
      InsertShows(queue, timers, t);
      timers := Link(ev, list, timerList, timers, k, pendingList, pending);
      queue := Insert(queue, t);
    }

    /** `ril_timer_add`: without a delay it does nothing. */
    method TimerAdd(ev: RilEvent, tv: Option<TimeVal>, now: TimeVal)
      requires Valid()
      requires now.Normal() && (tv.Some? ==> tv.value.Normal())
      requires ev != timerList && ev != pendingList && ev !in timers && ev !in pending
      modifies this`timers, this`queue, ev, timerList`next, timerList`prev, timers`next, timers`prev
      ensures Valid()
      ensures tv.None? ==> timers == old(timers) && queue == old(queue) && unchanged(ev)
      ensures tv.Some? ==>
                && queue == Insert(old(queue), Timer(ev, now.Usec() + tv.value.Usec()))
                && ev.fd == -1 && ev.index == old(ev.index) && ev.persist == old(ev.persist)
      ensures forall e :: e in timers ==> e in old(timers) || e == ev
    {
      hide Ring, Sorted, Insert;
      if tv.Some? {
        ev.fd := -1;
        ev.timeout := TimeVals.TimerAdd(now, tv.value);
        ghost var k;
        var list;
        list, k := FindPlace(ev.timeout);
        LinkTimer(ev, list, k);
      }
    }

    /** `removeFromList` on the first timer. */
    method UnlinkFirstTimer() returns (tev: RilEvent)
      requires Valid() && |timers| > 0
      modifies this`timers, this`queue, timerList`next, timerList`prev, timers`next, timers`prev
      ensures Valid()
      ensures tev == old(timers)[0] && timers == old(timers)[1..] && queue == old(queue)[1..]
    {
      RingFirst(timerList, timers);
      tev := timerList.next;
      timers := Unlink(tev, timerList, timers, pendingList, pending);
      queue := queue[1..];
    }

    /** `addToList` on the pending list. */
    method AddPending(ev: RilEvent)
      requires Valid()
      requires ev != timerList && ev != pendingList && ev !in timers && ev !in pending
      modifies this`pending, ev`next, ev`prev, pendingList`next, pendingList`prev, pending`next, pending`prev
      ensures Valid()
      ensures pending == old(pending) + [ev]
    {
      pending := Link(ev, pendingList, pendingList, pending, |pending|, timerList, timers);
      assert pending == old(pending) + [ev];
    }

    /** One iteration of `processTimeouts`: the first timer becomes the last pending event. */
    method MoveFirst()
      requires Valid() && |timers| > 0
      modifies this`timers, this`pending, this`queue
      modifies timerList`next, timerList`prev, timers`next, timers`prev
      modifies pendingList`next, pendingList`prev, pending`next, pending`prev
      ensures Valid()
      ensures timers == old(timers)[1..] && queue == old(queue)[1..]
      ensures pending == old(pending) + [old(timers)[0]]
    {
      var tev := UnlinkFirstTimer();
      AddPending(tev);
    }

    /**
     `processTimeouts`: exactly the timers due strictly before `now` move to the end of the pending
     list, keeping their order; the scan stops at the first timer that is not expired.
     */
    method ProcessTimeouts(now: TimeVal) returns (ghost k: nat)
      requires Valid() && now.Normal()
      modifies this`timers, this`pending, this`queue
      modifies timerList`next, timerList`prev, timers`next, timers`prev
      modifies pendingList`next, pendingList`prev, pending`next, pending`prev
      ensures Valid()
      ensures k == ExpiredCount(old(queue), now.Usec())
      ensures forall i :: 0 <= i < |old(queue)| ==> (i < k <==> old(queue)[i].due < now.Usec())
      ensures queue == old(queue)[k..] && timers == old(timers)[k..]
      ensures pending == old(pending) + old(timers)[..k]
    {
      hide Ring, Sorted, ExpiredCount, InsertPos;
      ghost var timers0, pending0, queue0 := timers, pending, queue;
      k := 0;
      RingFirst(timerList, timers);
      var tev := timerList.next;
      while tev != timerList && TimerLess(tev.timeout, now)
        invariant Valid()
        invariant k <= |timers0| && timers == timers0[k..] && queue == queue0[k..]
        invariant pending == pending0 + timers0[..k]
        invariant forall i :: 0 <= i < k ==> queue0[i].due < now.Usec()
        invariant tev == Node(timerList, timers, 0) && (tev == timerList <==> |timers| == 0)
        invariant forall e :: e in timers ==> e in timers0
        invariant forall e :: e in pending ==> e in pending0 || e in timers0
        decreases |timers|
      {
        assert queue0[k] == queue[0] && queue[0].due == tev.timeout.Usec();
        MoveFirst();
        RingFirst(timerList, timers);
        tev := timerList.next;
        k := k + 1;
      }
      assert k < |queue0| ==> queue0[k] == queue[0];
      ExpiredExact(queue0, now.Usec());
    }

    /** One iteration of `firePending`: the first pending event is unlinked and its callback runs. */
    method FireFirst() returns (ev: RilEvent)
      requires Valid() && |pending| > 0
      modifies this`pending, pendingList`next, pendingList`prev, pending`next, pending`prev
      ensures Valid()
      ensures ev == old(pending)[0] && pending == old(pending)[1..]
      ensures ev.next == null && ev.prev == null
    {
      RingFirst(pendingList, pending);
      ev := pendingList.next;
      pending := Unlink(ev, pendingList, pending, timerList, timers);
    }

    /** The event is linked nowhere. */
    ghost predicate Unlinked(ev: RilEvent)
      reads this`timers, this`pending
    {
      ev != timerList && ev != pendingList && ev !in timers && ev !in pending
    }

    /** What a callback does to the lists: it arms timers. */
    method ArmAll(armings: seq<Arming>)
      requires Valid() && Distinguished(armings)
      requires forall i :: 0 <= i < |armings| ==> armings[i].Normal() && Unlinked(armings[i].ev)
      modifies this`timers, this`queue, Events(armings), timerList`next, timerList`prev, timers`next, timers`prev
      ensures Valid() && queue == InsertAll(old(queue), armings)
      ensures forall e :: e in timers ==> e in old(timers) || e in Events(armings)
    {
      hide Ring, Sorted, Insert, Shows, Loop.Valid;
      for i := 0 to |armings|
        invariant Valid() && queue == InsertAll(old(queue), armings[..i])
        invariant forall e :: e in timers ==> e in old(timers) || e in Events(armings)
        invariant forall j :: i <= j < |armings| ==> Unlinked(armings[j].ev)
      {
        TimerAdd(armings[i].ev, Some(armings[i].delay), armings[i].now);
        assert armings[..i + 1][..i] == armings[..i];
      }
      assert armings[..|armings|] == armings;
    }

    method FirstPending() returns (ev: RilEvent)
      requires Valid()
      ensures ev == Node(pendingList, pending, 0) && (ev == pendingList <==> |pending| == 0)
    {
      RingFirst(pendingList, pending);
      ev := pendingList.next;
    }

    /** One iteration, with what the callback arms. */
    method FireAndArm(armings: seq<Arming>) returns (ev: RilEvent)
      requires Valid() && |pending| > 0 && Distinguished(armings)
      requires forall i :: 0 <= i < |armings| ==> armings[i].Normal() && Free(armings[i].ev, timers, pending[1..])
      modifies this`pending, pendingList`next, pendingList`prev, pending`next, pending`prev
      modifies this`timers, this`queue, timerList`next, timerList`prev, timers`next, timers`prev, Events(armings)
      ensures Valid() && ev == old(pending)[0] && pending == old(pending)[1..] &&
          queue == InsertAll(old(queue), armings)
      ensures forall e :: e in timers ==> e in old(timers) || e in Events(armings)
    {
      hide Loop.Valid;
      ev := FireFirst();
      ArmAll(armings);
    }

    /**
     From the k-th callback on, the events armed are linked nowhere at that time and armed only once: `ts` are
     the timers, `ps` the events that were pending at first.
     */
    ghost predicate Armable(plan: nat -> seq<Arming>, k: nat, ps: seq<RilEvent>, ts: seq<RilEvent>) {
      && (forall i :: k <= i < |ps| ==> Distinguished(plan(i)))
      && (forall i, j :: k <= i < |ps| && 0 <= j < |plan(i)| ==>
            plan(i)[j].Normal() && Free(plan(i)[j].ev, ts, ps[i + 1..]))
      && (forall i, j, m, l :: k <= i < m < |ps| && 0 <= j < |plan(i)| && 0 <= l < |plan(m)| ==>
            plan(i)[j].ev != plan(m)[l].ev)
    }

    lemma ArmableNext(plan: nat -> seq<Arming>, k: nat, ps: seq<RilEvent>, ts: seq<RilEvent>, after: seq<RilEvent>)
      requires Armable(plan, k, ps, ts) && k < |ps|
      requires forall e :: e in after ==> e in ts || e in Events(plan(k))
      ensures Armable(plan, k + 1, ps, after)
    {
    }

    ghost predicate Linked(ts: seq<RilEvent>, before: seq<RilEvent>, armed: set<RilEvent>) {
      forall e :: e in ts ==> e in before || e in armed
    }

    ghost predicate Free(ev: RilEvent, ts: seq<RilEvent>, ps: seq<RilEvent>) {
      ev != timerList && ev != pendingList && ev !in ts && ev !in ps
    }

    /** The iteration that fires the n-th of the events that were pending at first. */
    method FireNth(plan: nat -> seq<Arming>, n: nat, ghost ps: seq<RilEvent>) returns (ev: RilEvent)
      requires Valid() && n < |ps| && pending == ps[n..] && Armable(plan, n, ps, timers)
      modifies this`pending, pendingList`next, pendingList`prev, pending`next, pending`prev
      modifies this`timers, this`queue, timerList`next, timerList`prev, timers`next, timers`prev, Planned(plan, |ps|)
      ensures Valid() && ev == ps[n] && pending == ps[n + 1..] && Armable(plan, n + 1, ps, timers)
      ensures queue == InsertAll(old(queue), plan(n))
      ensures Linked(timers, old(timers), Planned(plan, |ps|))
    {
      hide Loop.Valid, InsertAll, Armable;
      ghost var before := timers;
      assert pending[1..] == ps[n + 1..] && pending[0] == ps[n];
      ArmableNow(plan, n, ps, timers);
      ev := FireAndArm(plan(n));
      ArmableNext(plan, n, ps, before, timers);
    }

    /**
     `firePending`: fires every pending event once, in list order, and leaves the list empty, whatever timers
     the callbacks arm while it walks; `plan` says which ones the callback of each event arms.
     */
    method FirePending(plan: nat -> seq<Arming>) returns (fired: seq<RilEvent>)
      requires Valid() && Armable(plan, 0, pending, timers)
      modifies this`pending, pendingList`next, pendingList`prev, pending`next, pending`prev
      modifies this`timers, this`queue, timerList`next, timerList`prev, timers`next, timers`prev,
          Planned(plan, |pending|)
      ensures Valid() && |pending| == 0
      ensures fired == old(pending) && queue == InsertAll(old(queue), Flat(plan, |old(pending)|))
    {
      ghost var pending0, queue0, timers0 := pending, queue, timers;
      assert InsertAll(queue0, Flat(plan, 0)) == queue0;
      hide Loop.Valid, Insert, InsertAll, Armable, Flat, Planned;
      fired := [];
      var ev := FirstPending();
      while ev != pendingList
        invariant Valid()
        invariant |fired| <= |pending0| && fired == pending0[..|fired|] && pending == pending0[|fired|..]
        invariant ev == Node(pendingList, pending, 0) && (ev == pendingList <==> |pending| == 0)
        invariant queue == InsertAll(queue0, Flat(plan, |fired|))
        invariant Linked(timers, timers0, Planned(plan, |pending0|))
        invariant Armable(plan, |fired|, pending0, timers)
        decreases |pending|
      {
        FlatMore(queue0, plan, |fired|);
        ev := FireNth(plan, |fired|, pending0);
        fired := fired + [ev];
        ev := FirstPending();
      }
    }

    lemma ArmableNow(plan: nat -> seq<Arming>, k: nat, ps: seq<RilEvent>, ts: seq<RilEvent>)
      requires Armable(plan, k, ps, ts) && k < |ps|
      ensures Distinguished(plan(k)) && Events(plan(k)) <= Planned(plan, |ps|)
      ensures forall j :: 0 <= j < |plan(k)| ==> plan(k)[j].Normal() && Free(plan(k)[j].ev, ts, ps[k + 1..])
    {
      forall e | e in Events(plan(k)) ensures e in Planned(plan, |ps|) {
        var j :| 0 <= j < |plan(k)| && plan(k)[j].ev == e;
      }
    }

    /**
     `calcNextTimeout`: None stands for -1. The wait is the shortest over all timers of what is left
     until the deadline, which is nothing for a timer already due.
     */
    method CalcNextTimeout(now: TimeVal) returns (tv: Option<TimeVal>)
      requires Valid() && now.Normal()
      ensures tv.None? <==> |timers| == 0
      ensures tv.Some? ==> tv.value.Normal()
      ensures tv.Some? ==> forall i :: 0 <= i < |queue| ==> tv.value.Usec() <= Left(queue[i], now)
      ensures tv.Some? ==> exists i :: 0 <= i < |queue| && tv.value.Usec() == Left(queue[i], now)
    {
      RingFirst(timerList, timers);
      var tev := timerList.next;
      if tev == timerList {
        return None;
      }
      tv := Some(if TimerLess(now, tev.timeout) then TimerSub(tev.timeout, now) else TimeVal(0, 0));
      assert tv.value.Usec() == Left(queue[0], now);
    }
  }

  ghost function Left(t: Timer<RilEvent>, now: TimeVal): int {
    if t.due > now.Usec() then t.due - now.Usec() else 0
  }
}
