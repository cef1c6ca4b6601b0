/**
 The watch table of the event loop: eight slots, the descriptor set handed to `select` and the
 bound `nfds`, and the pass that queues the events whose descriptors are ready.
 */
module WatchTable {
  import opened TimeVals
  import opened EventList
  import opened EventLoop
  import TimerQueue
  import opened Common

  class Table {
    const slots: array<RilEvent?>
    var nfds: int
    var readFds: set<int>
    ghost var slotOf: map<int, int>  // the slot of each watched descriptor

    /** What the slots say about the events in them, and the descriptor index about the slots. */
    ghost predicate Indexed()
      reads this, slots, slots[..]`fd, slots[..]`index
    {
      && slots.Length == MAX_FD_EVENTS
      && (forall i :: 0 <= i < slots.Length && slots[i] != null ==>
            slots[i].index == i && slots[i].fd in slotOf && slotOf[slots[i].fd] == i)
      && (forall f :: f in slotOf ==>
            && f >= 0 && 0 <= slotOf[f] < slots.Length
            && slots[slotOf[f]] != null && slots[slotOf[f]].fd == f)
      && readFds == slotOf.Keys
    }

    /** `readFds` is the set of watched descriptors and `nfds` one more than the largest of them. */
    ghost predicate Valid()
      reads this, slots, slots[..]`fd, slots[..]`index
    {
      Indexed() && Bounded(readFds, nfds)
    }

    ghost predicate Watched(ev: RilEvent)
      reads slots
    {
      ev in slots[..]
    }

    constructor ()
      ensures Valid() && readFds == {} && nfds == 0 && fresh(slots)
      ensures forall i :: 0 <= i < slots.Length ==> slots[i] == null
    {
      slots := new RilEvent?[MAX_FD_EVENTS](_ => null);
      nfds, readFds, slotOf := 0, {}, map[];
    }

    /** The descriptor set is exact, and every watched event sits in the slot its index names. */
    lemma Exact()
      requires Valid()
      ensures forall f :: f in readFds <==> exists i :: 0 <= i < slots.Length && slots[i] != null && slots[i].fd == f
      ensures forall ev: RilEvent :: Watched(ev) <==> 0 <= ev.index < slots.Length && slots[ev.index] == ev
      ensures forall i, j :: 0 <= i < j < slots.Length && slots[i] != null && slots[j] != null ==>
          slots[i].fd != slots[j].fd
    {
      forall f | f in readFds ensures exists i :: 0 <= i < slots.Length && slots[i] != null && slots[i].fd == f {
        assert slots[slotOf[f]].fd == f;
      }
    }

    /**
     `ril_event_add`: the lowest free slot takes the event; a full table ignores it. The table stays exact if
     and only if the descriptor is not watched already; otherwise two slots share it.
     */
    method Add(ev: RilEvent) returns (slot: int)
      requires Valid() && ev.fd >= 0
      modifies this, slots, ev`index
      ensures slot == -1 <==> null !in old(slots[..])
      ensures slot == -1 ==>
                Valid() && slots[..] == old(slots[..]) && readFds == old(readFds) && nfds == old(nfds) && unchanged(ev)
      ensures slot != -1 ==>
                && 0 <= slot < slots.Length && old(slots[slot]) == null && null !in old(slots[..slot])
                && slots[..] == old(slots[..])[slot := ev] && ev.index == slot
                && readFds == old(readFds) + {ev.fd} && (Valid() <==> ev.fd !in old(readFds))
      ensures slot != -1 && ev.fd in old(readFds) ==>
                exists j :: 0 <= j < slots.Length && j != slot && slots[j] != null && slots[j].fd == ev.fd
    {
      slot := -1;
      var i := 0;
      while i < MAX_FD_EVENTS
        invariant 0 <= i <= MAX_FD_EVENTS && slot == -1
        invariant null !in slots[..i]
      {
        if slots[i] == null {
          slot := i;
          Occupy(ev, i);
          return;
        }
        i := i + 1;
      }
      assert slots[..] == slots[..i];
    }

    method Occupy(ev: RilEvent, i: int)
      requires Valid() && 0 <= i < slots.Length && slots[i] == null && ev.fd >= 0
      modifies this, slots, ev`index
      ensures slots[..] == old(slots[..])[i := ev] && ev.index == i && readFds == old(readFds) + {ev.fd}
      ensures Valid() <==> ev.fd !in old(readFds)
      ensures ev.fd in old(readFds) ==>
                exists j :: 0 <= j < slots.Length && j != i && slots[j] != null && slots[j].fd == ev.fd
    {
      ghost var taken := ev.fd in readFds;
      ghost var j := if taken then slotOf[ev.fd] else i;
      assert taken ==> j != i && slots[j].fd == ev.fd;
      assert !taken ==> forall k :: 0 <= k < slots.Length ==> slots[k] != ev;
      slots[i] := ev;
      ev.index := i;
      readFds := readFds + {ev.fd};
      slotOf := slotOf[ev.fd := i];
      assert !taken ==> Indexed();
      assert taken ==> slots[j] != null && slots[j].fd == ev.fd && slots[i].fd == ev.fd && !Indexed();
      if ev.fd >= nfds {
        nfds := ev.fd + 1;
      }
      hide Indexed;
    }

    /** The scan of `removeWatch` for the largest watched descriptor, 0 when there is none. */
    method LargestFd() returns (n: int)
      requires slots.Length == MAX_FD_EVENTS
      ensures n >= 0
      ensures Indexed() ==> (forall f :: f in readFds ==> f <= n) && if readFds == {} then n == 0 else n in readFds
    {
      n := 0;
      var i := 0;
      while i < MAX_FD_EVENTS
        invariant 0 <= i <= MAX_FD_EVENTS && n >= 0
        invariant forall j :: 0 <= j < i && slots[j] != null ==> slots[j].fd <= n
        invariant n == 0 || exists j :: 0 <= j < i && slots[j] != null && slots[j].fd == n
      {
        var rev := slots[i];
        if rev != null && rev.fd > n {
          n := rev.fd;
        }
        i := i + 1;
      }
      if Indexed() && readFds != {} {
        ghost var f := Member(readFds);
        assert slots[slotOf[f]].fd == f <= n;
      }
    }

    /** Whether taking the descriptor of the event off, and the slot i, leaves the others as they are. */
    ghost predicate Matches(ev: RilEvent, i: int)
      requires 0 <= i < slots.Length
      reads this, slots, slots[..]`fd, ev`fd
    {
      if slots[i] == null then ev.fd !in readFds else slots[i].fd == ev.fd
    }

    /** `removeWatch`: the table stays exact if and only if the slot holds that descriptor, or neither is in use. */
    method RemoveWatch(ev: RilEvent, i: int)
      requires Valid() && 0 <= i < slots.Length
      modifies this, slots, ev`index
      ensures Valid() <==> old(Matches(ev, i))
      ensures slots[..] == old(slots[..])[i := null] && ev.index == -1
      ensures readFds == old(readFds) - {ev.fd}
    {
      ghost var matches := Matches(ev, i);
      hide Indexed, Matches;
      Unslot(ev, i);
      if ev.fd + 1 == nfds {
        var n := LargestFd();
        nfds := n + 1;
      }
      assert matches ==> Bounded(readFds, nfds);
    }

    /** The first half of it. */
    method Unslot(ev: RilEvent, i: int)
      requires Valid() && 0 <= i < slots.Length
      modifies this`readFds, this`slotOf, slots, ev`index
      ensures Indexed() <==> old(Matches(ev, i))
      ensures slots[..] == old(slots[..])[i := null] && ev.index == -1
      ensures readFds == old(readFds) - {ev.fd}
    {
      ghost var matches, x := Matches(ev, i), slots[i];
      ghost var k := if ev.fd in slotOf then slotOf[ev.fd] else i;
      assert matches ==> forall j :: 0 <= j < slots.Length && j != i && slots[j] != null ==> slots[j].fd != ev.fd;
      assert x == null ==> (matches <==> ev.fd !in readFds) && readFds == slotOf.Keys;
      assert !matches && x == null ==> 0 <= k < slots.Length && k != i && slots[k] != null && slots[k].fd == ev.fd;
      slots[i] := null;
      ev.index := -1;
      readFds := readFds - {ev.fd};
      slotOf := slotOf - {ev.fd};
      if matches {
        assert Indexed();
      } else if x != null {
        assert x.fd in slotOf && slotOf[x.fd] == i && slots[i] == null;
        assert !Indexed();
      } else {
        assert slots[k] != null && slots[k].fd == ev.fd && ev.fd !in slotOf;
        assert !Indexed();
      }
    }

    /**
     `ril_event_del`: an event whose index is out of range is left alone, which is so for every event of the
     table that is not watched any more; any other takes its slot with it.
     */
    method Del(ev: RilEvent)
      requires Valid()
      modifies this, slots, ev`index
      ensures old(0 <= ev.index < MAX_FD_EVENTS) ==>
                && slots[..] == old(slots[..])[old(ev.index) := null] && ev.index == -1
                && readFds == old(readFds) - {ev.fd} && (Valid() <==> old(Matches(ev, ev.index)))
      ensures old(Watched(ev)) ==> old(0 <= ev.index < MAX_FD_EVENTS && Matches(ev, ev.index))
      ensures !old(0 <= ev.index < MAX_FD_EVENTS) ==>
                Valid() && slots[..] == old(slots[..]) && readFds == old(readFds) && nfds == old(nfds) && unchanged(ev)
    {
      if ev.index < 0 || ev.index >= MAX_FD_EVENTS {
        return;
      }
      RemoveWatch(ev, ev.index);
    }
  }

  /** One more than the largest of them. */
  ghost predicate Bounded(fds: set<int>, nfds: int) {
    && (forall f :: f in fds ==> f < nfds)
    && (if fds == {} then 0 <= nfds <= 1 else nfds - 1 in fds)
  }

  /** A slot of the table as `processReadReadies` finds it. */
  datatype Slot = Free | Used(ev: RilEvent, fd: int, persist: bool) {
    predicate ReadyIn(rfds: set<int>) {
      Used? && fd in rfds
    }
  }

  ghost predicate Snapshot(snap: seq<Slot>, slots: seq<RilEvent?>)
    reads slots`fd, slots`persist
  {
    && |snap| == |slots|
    && forall j :: 0 <= j < |slots| ==>
         snap[j] == if slots[j] == null then Free else Used(slots[j], slots[j].fd, slots[j].persist)
  }

  ghost function Events(snap: seq<Slot>): (r: set<RilEvent>)
    ensures forall j :: 0 <= j < |snap| && snap[j].Used? ==> snap[j].ev in r
  {
    set j | 0 <= j < |snap| && snap[j].Used? :: snap[j].ev
  }

  /** The events queued from a prefix of the slots: the ready ones, at most n. */
  ghost function Ready(snap: seq<Slot>, rfds: set<int>, n: int): (r: seq<RilEvent>) {
    if |snap| == 0 then [] else
      var last := |snap| - 1;
      var r := Ready(snap[..last], rfds, n);
      if snap[last].ReadyIn(rfds) && |r| < n then r + [snap[last].ev] else r
  }

  /** Whether slot j is one of those queued. */
  ghost predicate Taken(snap: seq<Slot>, rfds: set<int>, n: int, j: nat)
    requires j < |snap|
  {
    snap[j].ReadyIn(rfds) && |Ready(snap[..j], rfds, n)| < n
  }

  ghost predicate DistinctFds(snap: seq<Slot>) {
    forall a, b :: 0 <= a < b < |snap| && snap[a].Used? && snap[b].Used? ==> snap[a].fd != snap[b].fd
  }

  /** The descriptors of the queued events: as many as events, all ready, all from these slots. */
  ghost function UsedFds(snap: seq<Slot>, rfds: set<int>, n: int): (used: set<int>)
    requires DistinctFds(snap)
    ensures used <= rfds && |used| == |Ready(snap, rfds, n)|
    ensures forall f :: f in used ==> exists j :: 0 <= j < |snap| && snap[j].Used? && snap[j].fd == f
  {
    if |snap| == 0 then {} else
      var last := |snap| - 1;
      var used := UsedFds(snap[..last], rfds, n);
      if snap[last].ReadyIn(rfds) && |Ready(snap[..last], rfds, n)| < n then used + {snap[last].fd} else used
  }

  /** With the count that `select` returns every ready slot is taken: no ready event is passed over. */
  lemma AllReadyTaken(snap: seq<Slot>, rfds: set<int>, n: int, j: nat)
    requires j < |snap| && DistinctFds(snap)
    requires n >= |rfds|
    ensures Taken(snap, rfds, n, j) <==> snap[j].ReadyIn(rfds)
  {
    if snap[j].ReadyIn(rfds) {
      var used := UsedFds(snap[..j], rfds, n);
      assert snap[j].fd !in used;
      SubsetSize(used, rfds - {snap[j].fd});
    }
  }

  /** Once n events are queued the scan stops, and nothing more would be queued. */
  lemma {:induction false} ReadyStops(snap: seq<Slot>, rfds: set<int>, n: int, i: nat)
    requires i <= |snap| && (i < |snap| ==> |Ready(snap[..i], rfds, n)| >= n)
    ensures Ready(snap, rfds, n) == Ready(snap[..i], rfds, n)
    ensures forall j :: i <= j < |snap| ==> !Taken(snap, rfds, n, j)
    decreases |snap|
  {
    if i < |snap| {
      var init := snap[..|snap| - 1];
      assert init[..i] == snap[..i];
      ReadyStops(init, rfds, n, i);
      forall j | i <= j < |snap| ensures !Taken(snap, rfds, n, j) {
        if j < |init| { assert init[..j] == snap[..j] && !Taken(init, rfds, n, j); }
      }
    } else {
      assert snap[..i] == snap;
    }
  }

  lemma Member<T>(a: set<T>) returns (x: T)
    requires a != {}
    ensures x in a
  {
    x :| x in a;
  }

  /** The events of a table may be pending, but are neither timers nor sentinels. */
  ghost predicate Separate(loop: Loop, slots: seq<RilEvent?>)
    reads loop
  {
    forall i :: 0 <= i < |slots| && slots[i] != null ==>
      slots[i] != loop.timerList && slots[i] != loop.pendingList && slots[i] !in loop.timers
  }

  /** One ready slot of `processReadReadies`. */
  method QueueReady(loop: Loop, table: Table, rev: RilEvent, i: int)
    requires loop.Valid() && table.Valid() && 0 <= i < table.slots.Length && table.slots[i] == rev
    requires rev != loop.timerList && rev != loop.pendingList && rev !in loop.timers && rev !in loop.pending
    modifies loop`pending, rev`next, rev`prev, rev`index
    modifies loop.pendingList`next, loop.pendingList`prev, loop.pending`next, loop.pending`prev
    modifies table, table.slots
    ensures loop.Valid() && table.Valid()
    ensures loop.pending == old(loop.pending) + [rev]
    ensures table.slots[..] == old(table.slots[..])[i := if rev.persist then rev else null]
  {
    hide Ring;
    loop.AddPending(rev);
    if !rev.persist {
      table.RemoveWatch(rev, i);
    }
  }

  /** Slots that are queued and not persistent become free; all others stay as they were. */
  ghost predicate Swept(table: Table, snap: seq<Slot>, rfds: set<int>, n: int, i: nat)
    requires i <= |snap|
    reads table.slots
  {
    && |snap| == table.slots.Length
    && forall j :: 0 <= j < |snap| ==>
         table.slots[j] == if snap[j].Free? ||
             (j < i && Taken(snap, rfds, n, j) && !snap[j].persist) then null else snap[j].ev
  }

  /** What holds of loop and table once the first i slots are scanned. */
  ghost predicate Scanned(loop: Loop, table: Table, snap: seq<Slot>, pending0: seq<RilEvent>, rfds: set<int>, n: int,
      i: nat)
    requires i <= |snap|
    reads loop`pending, table.slots, Events(snap)`fd, Events(snap)`persist
  {
    && loop.pending == pending0 + Ready(snap[..i], rfds, n)
    && Swept(table, snap, rfds, n, i)
    && (forall j :: 0 <= j < |snap| && snap[j].Used? ==>
        snap[j].ev.fd == snap[j].fd && snap[j].ev.persist == snap[j].persist)
    && (forall j :: i <= j < |snap| && snap[j].ReadyIn(rfds) ==> snap[j].ev !in loop.pending)
    && (forall e :: e in loop.pending ==> e in pending0 || e in Events(snap))
  }

  ghost predicate DistinctEvents(snap: seq<Slot>) {
    forall a, b :: 0 <= a < b < |snap| && snap[a].Used? && snap[b].Used? ==> snap[a].ev != snap[b].ev
  }

  /** One iteration of `processReadReadies`. */
  method ScanSlot(loop: Loop, table: Table, rfds: set<int>, i: int, ghost n: int, ghost snap: seq<Slot>,
      ghost pending0: seq<RilEvent>)
    returns (queued: bool)
    requires loop.Valid() && table.Valid() && 0 <= i < |snap|
    requires Scanned(loop, table, snap, pending0, rfds, n, i) && DistinctEvents(snap)
    requires |Ready(snap[..i], rfds, n)| < n
    requires forall j :: 0 <= j < |snap| && snap[j].Used? ==>
               snap[j].ev != loop.timerList && snap[j].ev != loop.pendingList && snap[j].ev !in loop.timers
    modifies loop`pending, loop.pendingList`next, loop.pendingList`prev, loop.pending`next, loop.pending`prev
    modifies table, table.slots, Events(snap)`index, Events(snap)`next, Events(snap)`prev
    ensures loop.Valid() && table.Valid()
    ensures Scanned(loop, table, snap, pending0, rfds, n, i + 1)
    ensures |Ready(snap[..i + 1], rfds, n)| == |Ready(snap[..i], rfds, n)| + if queued then 1 else 0
  {
    hide Table.Valid, Table.Indexed, Loop.Valid;
    var rev := table.slots[i];
    assert snap[..i + 1][..i] == snap[..i];
    queued := rev != null && rev.fd in rfds;
    if queued {
      QueueReady(loop, table, rev, i);
    }
  }

  /**
   `processReadReadies`: the ready events, at most n of them, join the pending list in slot order;
   those that are not persistent give up their slot, and all other slots stay as they were.
   */
  method ProcessReadReadies(loop: Loop, table: Table, rfds: set<int>, n: int, ghost snap: seq<Slot>)
    requires loop.Valid() && table.Valid() && Separate(loop, table.slots[..])
    requires Snapshot(snap, table.slots[..])
    requires forall i :: 0 <= i < |snap| && snap[i].ReadyIn(rfds) ==> snap[i].ev !in loop.pending
    modifies loop`pending, loop.pendingList`next, loop.pendingList`prev, loop.pending`next, loop.pending`prev
    modifies table, table.slots, Events(snap)`index, Events(snap)`next, Events(snap)`prev
    ensures loop.Valid() && table.Valid()
    ensures loop.pending == old(loop.pending) + Ready(snap, rfds, n)
    ensures forall e :: e in loop.pending ==> e in old(loop.pending) || e in Events(snap)
    ensures Swept(table, snap, rfds, n, |snap|)
  {
    ghost var pending0 := loop.pending;
    assert |snap| == MAX_FD_EVENTS && Scanned(loop, table, snap, pending0, rfds, n, 0) && DistinctEvents(snap);
    hide Table.Valid, Table.Indexed, Loop.Valid, Swept, DistinctEvents;
    var left := n;
    var i := 0;
    while i < MAX_FD_EVENTS && left > 0
      invariant 0 <= i <= MAX_FD_EVENTS
      invariant loop.Valid() && table.Valid()
      invariant Scanned(loop, table, snap, pending0, rfds, n, i)
      invariant left == n - |Ready(snap[..i], rfds, n)|
    {
      var queued := ScanSlot(loop, table, rfds, i, n, snap, pending0);
      if queued {
        left := left - 1;
      }
      i := i + 1;
    }
    ReadyStops(snap, rfds, n, i);
    SweptStops(table, snap, rfds, n, i);
  }

  lemma SweptStops(table: Table, snap: seq<Slot>, rfds: set<int>, n: int, i: nat)
    requires i <= |snap| && Swept(table, snap, rfds, n, i)
    requires forall j :: i <= j < |snap| ==> !Taken(snap, rfds, n, j)
    ensures Swept(table, snap, rfds, n, |snap|)
  {
  }

  /** What a pass fires: the expired timers in order of deadline, then the ready events in slot order. */
  ghost function Fires(loop: Loop, now: TimeVal, snap: seq<Slot>, rfds: set<int>, n: int): seq<RilEvent>
    requires |loop.timers| == |loop.queue|
    reads loop
  {
    loop.timers[..TimerQueue.ExpiredCount(loop.queue, now.Usec())] + Ready(snap, rfds, n)
  }

  /** The first half of a pass: what is expired or ready becomes pending. */
  method Gather(loop: Loop, table: Table, now: TimeVal, rfds: set<int>, n: int, ghost snap: seq<Slot>)
    returns (ghost k: nat)
    requires loop.Valid() && table.Valid() && Separate(loop, table.slots[..]) && |loop.pending| == 0
    requires Snapshot(snap, table.slots[..]) && now.Normal() && |loop.timers| == |loop.queue|
    modifies loop`timers, loop`pending, loop`queue
    modifies loop.timerList`next, loop.timerList`prev, loop.timers`next, loop.timers`prev
    modifies loop.pendingList`next, loop.pendingList`prev
    modifies table, table.slots, Events(snap)`index, Events(snap)`next, Events(snap)`prev
    ensures loop.Valid() && table.Valid() && Swept(table, snap, rfds, n, |snap|)
    ensures k == TimerQueue.ExpiredCount(old(loop.queue), now.Usec()) && k <= |old(loop.timers)| == |old(loop.queue)|
    ensures forall i :: 0 <= i < |old(loop.queue)| ==> (i < k <==> old(loop.queue)[i].due < now.Usec())
    ensures loop.pending == old(Fires(loop, now, snap, rfds, n))
    ensures forall e :: e in loop.pending ==> e in old(loop.timers) || e in Events(snap)
    ensures loop.timers == old(loop.timers)[k..] && loop.queue == old(loop.queue)[k..]
  {
    hide Table.Valid, Table.Indexed, Ring, TimerQueue.Sorted, TimerQueue.ExpiredCount;
    ghost var timers0 := loop.timers;
    assert forall j :: 0 <= j < |snap| && snap[j].Used? ==> snap[j].ev == table.slots[..][j];
    k := loop.ProcessTimeouts(now);
    assert loop.pending == timers0[..k];
    ProcessReadReadies(loop, table, rfds, n, snap);
  }

  /**
   One pass of `ril_event_loop` after `select` returned: the callbacks that run are those of exactly
   the expired timers, in order of deadline, and then those of the ready events, in slot order; `plan` says
   which timers each of them arms, and those join the timers that were not expired.
   */
  method LoopPass(loop: Loop, table: Table, now: TimeVal, rfds: set<int>, n: int, plan: nat -> seq<Arming>,
      ghost snap: seq<Slot>)
    returns (fired: seq<RilEvent>, ghost k: nat)
    requires loop.Valid() && table.Valid() && Separate(loop, table.slots[..]) && |loop.pending| == 0
    requires Snapshot(snap, table.slots[..]) && now.Normal() && |loop.timers| == |loop.queue|
    requires loop.Armable(plan, 0, Fires(loop, now, snap, rfds, n),
                          loop.timers[TimerQueue.ExpiredCount(loop.queue, now.Usec())..])
    modifies loop`timers, loop`pending, loop`queue
    modifies loop.timerList`next, loop.timerList`prev, loop.timers`next, loop.timers`prev
    modifies loop.pendingList`next, loop.pendingList`prev
    modifies table, table.slots, Events(snap)`index, Events(snap)`next, Events(snap)`prev
    modifies Planned(plan, |Fires(loop, now, snap, rfds, n)|)
    ensures loop.Valid() && |loop.pending| == 0
    ensures k <= |old(loop.timers)| == |old(loop.queue)|
    ensures forall i :: 0 <= i < |old(loop.queue)| ==> (i < k <==> old(loop.queue)[i].due < now.Usec())
    ensures fired == old(loop.timers)[..k] + Ready(snap, rfds, n)
    ensures loop.queue == InsertAll(old(loop.queue)[k..], Flat(plan, |fired|))
    ensures Swept(table, snap, rfds, n, |snap|)
    ensures (forall e :: e in Planned(plan, |fired|) ==> !table.Watched(e)) ==> table.Valid()
  {
    hide Table.Valid, Loop.Valid, TimerQueue.ExpiredCount, Loop.Armable, InsertAll, Flat, Swept;
    k := Gather(loop, table, now, rfds, n, snap);
    fired := loop.FirePending(plan);
  }
}
