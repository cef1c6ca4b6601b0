/**
 The wake lock that libril takes for an unsolicited response and releases from a timer one second
 later: a later response cancels the timer of the previous one by setting its parameter.
 Responses and timer callbacks are taken as atomic steps.
 */
module WakeLock {
  import opened Common

  /**
   A call of RIL_onUnsolicitedResponse: whether its kind takes the lock, whether its data marshals, and
   the responses that a change of radio state makes it send before it sets its timer.
   */
  datatype Response = Response(wake: bool, ok: bool, nested: seq<Response>)

  /** A scheduled UserCallbackInfo: a release of the lock, cancelled or not, or a callback of the vendor's own. */
  datatype Timer = Timer(id: nat, release: bool, cancelled: bool)

  datatype State = State(
    held: bool,
    timers: seq<Timer>,    // scheduled and not yet fired
    last: Option<nat>,     // s_last_wake_timeout_info
    next: nat,             // a fresh name for the next timer
    latest: Option<nat>)   // the timer set by the latest response that took the lock

  datatype Op =
    | Unsolicited(r: Response)
    | TimedCallback                // RIL_requestTimedCallback
    | Fire(id: nat)                // userTimerCallback

  ghost predicate Initial(s: State) {
    !s.held && |s.timers| == 0 && s.last.None? && s.latest.None?
  }

  /** Sets the parameter of one timer, which makes its callback do nothing. */
  function CancelTimer(ts: seq<Timer>, id: nat): (r: seq<Timer>)
    ensures |r| == |ts|
    ensures forall i :: 0 <= i < |ts| ==> r[i] == if ts[i].id == id then ts[i].(cancelled := true) else ts[i]
  {
    seq(|ts|, i requires 0 <= i < |ts| => if ts[i].id == id then ts[i].(cancelled := true) else ts[i])
  }

  /** Cancels the previous release and schedules a new one. */
  function Schedule(s: State): State {
    var ts := if s.last.Some? then CancelTimer(s.timers, s.last.value) else s.timers;
    s.(timers := ts + [Timer(s.next, true, false)], last := Some(s.next), next := s.next + 1, latest := Some(s.next))
  }

  function Respond(s: State, r: Response): State
    decreases r, 1
  {
    var s1 := if r.wake then s.(held := true) else s;
    if !r.ok then (if r.wake then s1.(held := false) else s1)
    else
      var s2 := RespondAll(s1, r.nested);
      if r.wake then Schedule(s2) else s2
  }

  function RespondAll(s: State, rs: seq<Response>): State
    decreases rs, 0
  {
    if |rs| == 0 then s else Respond(RespondAll(s, rs[..|rs| - 1]), rs[|rs| - 1])
  }

  function Find(ts: seq<Timer>, id: nat): (k: nat)
    ensures k <= |ts|
    ensures k < |ts| ==> ts[k].id == id
    ensures forall i :: 0 <= i < k ==> ts[i].id != id
  {
    FindFirst(ts, (x: Timer) => x.id == id)
  }

  function StepFire(s: State, id: nat): State {
    var k := Find(s.timers, id);
    if k == |s.timers| then s
    else s.(held := s.held && !(s.timers[k].release && !s.timers[k].cancelled),
            timers := Without(s.timers, k),
            last := if s.last == Some(id) then None else s.last)
  }

  function Step(s: State, op: Op): State {
    match op
    case Unsolicited(r) => Respond(s, r)
    case TimedCallback => s.(timers := s.timers + [Timer(s.next, false, false)], next := s.next + 1)
    case Fire(id) => StepFire(s, id)
  }

  function Run(s: State, ops: seq<Op>): State
    decreases |ops|
  {
    if |ops| == 0 then s else Run(Step(s, ops[0]), ops[1..])
  }

  // ----- a held lock has its timer

  /** Timers have their own names, and only the one `last` names will release the lock. */
  ghost predicate Tidy(ts: seq<Timer>, last: Option<nat>, next: nat) {
    && (forall i, j :: 0 <= i < j < |ts| ==> ts[i].id != ts[j].id)
    && (forall i :: 0 <= i < |ts| ==> ts[i].id < next)
    && (forall i :: 0 <= i < |ts| ==> (ts[i].release && !ts[i].cancelled <==> last == Some(ts[i].id)))
  }

  /** `last` names the one scheduled release that is not cancelled, if there is one. */
  ghost predicate Tracked(s: State) {
    && Tidy(s.timers, s.last, s.next)
    && (s.last.Some? ==> Find(s.timers, s.last.value) < |s.timers| && s.latest == s.last)
  }

  ghost predicate Guarded(s: State) {
    s.held ==> s.last.Some?
  }

  lemma {:induction false} ScheduleTracked(s: State)
    requires Tracked(s)
    ensures Tracked(Schedule(s))
  {
    var t := Schedule(s);
    assert t.timers[|s.timers|].id == s.next;
    assert Find(t.timers, s.next) <= |s.timers|;
  }

  lemma {:induction false} RespondTracked(s: State, r: Response)
    requires Tracked(s)
    ensures Tracked(Respond(s, r))
    ensures Guarded(s) || r.wake ==> Guarded(Respond(s, r))
    decreases r, 1
  {
    var s1 := if r.wake then s.(held := true) else s;
    RespondAllTracked(s1, r.nested);
    ScheduleTracked(RespondAll(s1, r.nested));
  }

  lemma {:induction false} RespondAllTracked(s: State, rs: seq<Response>)
    requires Tracked(s)
    ensures Tracked(RespondAll(s, rs))
    ensures Guarded(s) ==> Guarded(RespondAll(s, rs))
    decreases rs, 0
  {
    if |rs| > 0 {
      RespondAllTracked(s, rs[..|rs| - 1]);
      RespondTracked(RespondAll(s, rs[..|rs| - 1]), rs[|rs| - 1]);
    }
  }

  lemma {:induction false} FireTracked(s: State, id: nat)
    requires Tracked(s)
    ensures Tracked(StepFire(s, id)) && (Guarded(s) ==> Guarded(StepFire(s, id)))
  {
    var k, t := Find(s.timers, id), StepFire(s, id);
    if k < |s.timers| {
      TidyWithout(s.timers, s.last, s.next, k);
      hide Find, Without, Tidy;
      if t.last.Some? {
        FindWithout(s.timers, s.last.value, k);
      }
    }
  }

  lemma {:induction false} TidyWithout(ts: seq<Timer>, last: Option<nat>, next: nat, k: nat)
    requires Tidy(ts, last, next) && k < |ts|
    ensures Tidy(Without(ts, k), if last == Some(ts[k].id) then None else last, next)
  {
    var r := Without(ts, k);
    assert forall i :: 0 <= i < |r| ==> r[i] == ts[if i < k then i else i + 1];
  }

  lemma {:induction false} FindWithout(ts: seq<Timer>, id: nat, k: nat)
    requires k < |ts| && Find(ts, id) < |ts| && ts[k].id != id
    ensures Find(Without(ts, k), id) < |ts| - 1
  {
    var m := Find(ts, id);
    assert Without(ts, k)[if m < k then m else m - 1] == ts[m];
  }

  lemma {:induction false} TimedTracked(s: State)
    requires Tracked(s)
    ensures Tracked(Step(s, TimedCallback))
  {
    var t := Step(s, TimedCallback);
    if s.last.Some? {
      var m := Find(s.timers, s.last.value);
      assert t.timers[m] == s.timers[m];
    }
  }

  lemma {:induction false} StepTracked(s: State, op: Op)
    requires Tracked(s) && Guarded(s)
    ensures Tracked(Step(s, op)) && Guarded(Step(s, op))
  {
    match op
    case Unsolicited(r) => RespondTracked(s, r);
    case TimedCallback => TimedTracked(s);
    case Fire(id) => FireTracked(s, id);
  }

  lemma {:induction false} RunTracked(s: State, ops: seq<Op>)
    requires Tracked(s) && Guarded(s)
    ensures Tracked(Run(s, ops)) && Guarded(Run(s, ops))
    decreases |ops|
  {
    if |ops| > 0 {
      StepTracked(s, ops[0]);
      hide Tracked, Guarded, Step;
      RunTracked(Step(s, ops[0]), ops[1..]);
    }
  }

  /** In every run, a held lock has exactly one scheduled release that is not cancelled: the one `last` names. */
  lemma {:induction false} HeldLockHasItsTimer(s0: State, ops: seq<Op>)
    requires Initial(s0)
    ensures var s := Run(s0, ops);
            && (s.held ==> s.last.Some?)
            && (s.last.Some? ==> exists k :: 0 <= k < |s.timers| && s.timers[k] == Timer(s.last.value, true, false))
            && (forall i :: 0 <= i < |s.timers| && s.timers[i].release && !s.timers[i].cancelled ==>
                s.last == Some(s.timers[i].id))
            && (forall i, j :: 0 <= i < j < |s.timers| ==> s.timers[i].id != s.timers[j].id)
  {
    RunTracked(s0, ops);
    TrackedTimer(Run(s0, ops));
  }

  lemma {:induction false} TrackedTimer(s: State)
    requires Tracked(s)
    ensures s.last.Some? ==> exists k :: 0 <= k < |s.timers| && s.timers[k] == Timer(s.last.value, true, false)
  {
    if s.last.Some? {
      var k := Find(s.timers, s.last.value);
      assert s.timers[k] == Timer(s.last.value, true, false);
    }
  }

  // ----- what releases it

  /** The responses that take the lock, in the order they are entered: whether each of them marshals. */
  ghost function Wakes(r: Response): seq<bool>
    decreases r, 1
  {
    (if r.wake then [r.ok] else []) + (if r.ok then WakesAll(r.nested) else [])
  }

  ghost function WakesAll(rs: seq<Response>): seq<bool>
    decreases rs, 0
  {
    if |rs| == 0 then [] else WakesAll(rs[..|rs| - 1]) + Wakes(rs[|rs| - 1])
  }

  /** After these the lock is held as before, or as the last of them left it. */
  ghost predicate HeldAfter(before: bool, wakes: seq<bool>) {
    if |wakes| == 0 then before else wakes[|wakes| - 1]
  }

  lemma {:induction false} RespondHeld(s: State, r: Response)
    ensures Respond(s, r).held == HeldAfter(s.held, Wakes(r))
    decreases r, 1
  {
    RespondAllHeld(if r.wake then s.(held := true) else s, r.nested);
  }

  lemma {:induction false} RespondAllHeld(s: State, rs: seq<Response>)
    ensures RespondAll(s, rs).held == HeldAfter(s.held, WakesAll(rs))
    decreases rs, 0
  {
    if |rs| > 0 {
      RespondAllHeld(s, rs[..|rs| - 1]);
      RespondHeld(RespondAll(s, rs[..|rs| - 1]), rs[|rs| - 1]);
    }
  }

  /** How many of them marshal. */
  ghost function Trues(wakes: seq<bool>): nat {
    if |wakes| == 0 then 0 else Trues(wakes[..|wakes| - 1]) + if wakes[|wakes| - 1] then 1 else 0
  }

  lemma {:induction false} TruesConcat(a: seq<bool>, b: seq<bool>)
    ensures Trues(a + b) == Trues(a) + Trues(b)
    decreases |b|
  {
    if |b| == 0 {
      assert a + b == a;
    } else {
      assert (a + b)[..|a + b| - 1] == a + b[..|b| - 1];
      TruesConcat(a, b[..|b| - 1]);
    }
  }

  /** Scheduled callbacks stay scheduled in their order, and none is changed except that it may be cancelled. */
  ghost predicate Extends(before: seq<Timer>, after: seq<Timer>, n: nat) {
    && |after| == |before| + n
    && (forall i :: 0 <= i < |before| ==> after[i] == before[i] || after[i] == before[i].(cancelled := true))
    && (forall i :: |before| <= i < |after| ==> after[i].release)
  }

  lemma {:induction false} ExtendsTwice(a: seq<Timer>, b: seq<Timer>, c: seq<Timer>, m: nat, n: nat)
    requires Extends(a, b, m) && Extends(b, c, n)
    ensures Extends(a, c, m + n)
  {
  }

  /** A response schedules one release for each lock-taking response in it that marshals, and nothing else. */
  lemma {:induction false} RespondSchedules(s: State, r: Response)
    ensures Extends(s.timers, Respond(s, r).timers, Trues(Wakes(r)))
    decreases r, 1
  {
    if r.ok {
      var s1 := if r.wake then s.(held := true) else s;
      RespondAllSchedules(s1, r.nested);
      var s2, n := RespondAll(s1, r.nested), Trues(WakesAll(r.nested));
      TruesConcat(if r.wake then [true] else [], WakesAll(r.nested));
      assert Trues([true]) == 1 by { assert [true][..0] == []; }
      if r.wake {
        assert Extends(s2.timers, Schedule(s2).timers, 1);
        ExtendsTwice(s.timers, s2.timers, Schedule(s2).timers, n, 1);
      }
    } else {
      assert Trues([false]) == 0 by { assert [false][..0] == []; }
      if r.wake { assert Wakes(r) == [false]; }
    }
  }

  lemma {:induction false} RespondAllSchedules(s: State, rs: seq<Response>)
    ensures Extends(s.timers, RespondAll(s, rs).timers, Trues(WakesAll(rs)))
    decreases rs, 0
  {
    if |rs| > 0 {
      var n := |rs| - 1;
      RespondAllSchedules(s, rs[..n]);
      var t := RespondAll(s, rs[..n]);
      RespondSchedules(t, rs[n]);
      TruesConcat(WakesAll(rs[..n]), Wakes(rs[n]));
      ExtendsTwice(s.timers, t.timers, Respond(t, rs[n]).timers, Trues(WakesAll(rs[..n])), Trues(Wakes(rs[n])));
    }
  }

  /**
   In every run, a step releases the held lock if and only if it fires the timer that the latest
   lock-taking response set, or is a response, with those it sends from inside, of which the last one
   that takes the lock fails to marshal. So as long as responses marshal only that timer releases the
   lock, and a response that does not marshal releases it even when an earlier one still needs it.
   */
  lemma {:induction false} ReleasedExactly(s0: State, ops: seq<Op>, op: Op)
    requires Initial(s0) && Run(s0, ops).held
    ensures var s := Run(s0, ops);
            && s.latest.Some?
            && (!Step(s, op).held <==>
                  || op == Fire(s.latest.value)
                  || (op.Unsolicited? && |Wakes(op.r)| > 0 && !Wakes(op.r)[|Wakes(op.r)| - 1]))
  {
    var s := Run(s0, ops);
    RunTracked(s0, ops);
    if op.Unsolicited? { RespondHeld(s, op.r); }
    if op.Fire? {
      var k := Find(s.timers, op.id);
      assert k < |s.timers| ==> (s.timers[k].release && !s.timers[k].cancelled <==> s.last == Some(s.timers[k].id));
    }
  }

  /** A run in which an earlier response loses the lock: its timer is still scheduled when the lock is released. */
  lemma {:induction false} FailedResponseReleases(s: State)
    requires Initial(s)
    ensures var t := Step(Step(s, Unsolicited(Response(true, true, []))), Unsolicited(Response(true, false, [])));
            !t.held && t.last == Some(s.next) && t.timers == [Timer(s.next, true, false)]
  {
    var t := Step(s, Unsolicited(Response(true, true, [])));
    assert t.timers == [Timer(s.next, true, false)];
  }

  // ----- the code

  /** A scheduled callback; cancelling one is a write to its parameter. */
  class UserCallbackInfo {
    const release: bool
    var cancelled: bool
    ghost const id: nat

    constructor (release: bool, ghost id: nat)
      ensures this.release == release && !cancelled && this.id == id
    {
      this.release, cancelled, this.id := release, false, id;
    }
  }

  ghost function Shown(info: UserCallbackInfo): Timer
    reads info`cancelled
  {
    Timer(info.id, info.release, info.cancelled)
  }

  ghost predicate Shows(infos: seq<UserCallbackInfo>, timers: seq<Timer>)
    reads infos`cancelled
  {
    |timers| == |infos| && forall i :: 0 <= i < |infos| ==> timers[i] == Shown(infos[i])
  }

  ghost function NameOf(info: UserCallbackInfo?): Option<nat> {
    if info == null then None else Some(info.id)
  }

  lemma {:induction false} ShowsWithout(infos: seq<UserCallbackInfo>, timers: seq<Timer>, k: nat)
    requires Shows(infos, timers) && k < |infos|
    ensures Shows(Without(infos, k), Without(timers, k))
  {
  }

  lemma {:induction false} ShowsMore(infos: seq<UserCallbackInfo>, timers: seq<Timer>, info: UserCallbackInfo)
    requires Shows(infos, timers)
    ensures Shows(infos + [info], timers + [Shown(info)])
  {
  }

  /** Names are distinct, so there is one object of a name. */
  lemma {:induction false} OneOfName(infos: seq<UserCallbackInfo>, s: State, info: UserCallbackInfo)
    requires Shows(infos, s.timers) && Tracked(s) && info in infos
    ensures var k := Find(s.timers, info.id); k < |infos| && infos[k] == info && info !in Without(infos, k)
  {
    var m :| 0 <= m < |infos| && infos[m] == info;
    assert s.timers[m].id == info.id;
    var k := Find(s.timers, info.id);
    assert k == m;
    var rest := Without(infos, k);
    forall i | 0 <= i < |rest| ensures rest[i] != info {
      var j := if i < k then i else i + 1;
      assert rest[i] == infos[j] && s.timers[j].id != s.timers[k].id;
    }
  }

  /** The fields of libril show this state. */
  ghost predicate Represents(s: State, held: bool, last: UserCallbackInfo?, infos: seq<UserCallbackInfo>)
    reads infos`cancelled
  {
    && s.held == held && s.last == NameOf(last) && (last != null ==> last in infos)
    && Shows(infos, s.timers) && Tracked(s)
  }

  lemma {:induction false} Agrees(s: State, held: bool, last: UserCallbackInfo?, infos: seq<UserCallbackInfo>)
    requires Represents(s, held, last, infos)
    ensures s.held == held && s.last == NameOf(last)
  {
  }

  /** The object leaves the sequence, and all others stay in their order. */
  ghost predicate Removed(before: seq<UserCallbackInfo>, info: UserCallbackInfo, after: seq<UserCallbackInfo>) {
    exists k :: 0 <= k < |before| && before[k] == info && after == Without(before, k)
  }

  /** The timers with the previous release cancelled, and only that. */
  ghost function PreviousCancelled(s: State): (r: seq<Timer>)
    ensures |r| == |s.timers|
    ensures forall i :: 0 <= i < |r| ==>
              r[i] == if s.last == Some(s.timers[i].id) then s.timers[i].(cancelled := true) else s.timers[i]
  {
    if s.last.Some? then CancelTimer(s.timers, s.last.value) else s.timers
  }

  /** What a firing does to the objects. */
  lemma {:induction false} FireShown(s: State, held: bool, last: UserCallbackInfo?, infos: seq<UserCallbackInfo>,
      info: UserCallbackInfo)
    requires Represents(s, held, last, infos) && info in infos
    ensures var k := Find(s.timers, info.id);
            && k < |infos| && info !in Without(infos, k) && Removed(infos, info, Without(infos, k))
            && (info.release && !info.cancelled <==> last == info)
            && Represents(StepFire(s, info.id), held &&
                last != info, if last == info then null else last, Without(infos, k))
  {
    var k := Find(s.timers, info.id);
    FireTracked(s, info.id);
    OneOfName(infos, s, info);
    ShowsWithout(infos, s.timers, k);
    if last != null {
      OneOfName(infos, s, last);
      if last != info { StaysIn(infos, k, last); }
    }
  }

  class Lock {
    var held: bool
    var last: UserCallbackInfo?
    ghost var scheduled: seq<UserCallbackInfo>   // in the event loop, not yet fired
    ghost var st: State

    ghost predicate Valid()
      reads this, scheduled`cancelled
    {
      Represents(st, held, last, scheduled)
    }

    constructor ()
      ensures Valid() && Initial(st)
    {
      held, last, scheduled, st := false, null, [], State(false, [], None, 0, None);
    }

    /**
     `RIL_onUnsolicitedResponse` for a known response code, after RIL_register. The lock is left as the
     last lock-taking response entered leaves it, and if it is held it has its live timer.
     */
    method OnUnsolicitedResponse(r: Response)
      requires Valid()
      modifies this, scheduled`cancelled
      ensures Valid() && st == Respond(old(st), r)
      ensures held == HeldAfter(old(held), Wakes(r)) && (r.wake || Guarded(old(st)) ==> Guarded(st))
      ensures Extends(old(st).timers, st.timers, Trues(Wakes(r)))
      ensures forall i :: 0 <= i < |scheduled| ==> scheduled[i] in old(scheduled) || fresh(scheduled[i])
    {
      RespondHeld(st, r);
      RespondTracked(st, r);
      RespondSchedules(st, r);
      hide Respond, Wakes, Guarded, HeldAfter, Extends, Trues;
      Agrees(st, held, last, scheduled);
      hide Represents;
      Deliver(r);
      Agrees(st, held, last, scheduled);
    }

    method Deliver(r: Response)
      requires Valid()
      modifies this, scheduled`cancelled
      ensures Valid() && st == Respond(old(st), r)
      ensures forall i :: 0 <= i < |scheduled| ==> scheduled[i] in old(scheduled) || fresh(scheduled[i])
      decreases r, 1
    {
      hide Represents, Schedule;
      var shouldScheduleTimeout := false;
      if r.wake {
        TakeOrRelease(true);
        shouldScheduleTimeout := true;
      }
      if r.ok {
        SendNested(r.nested);
        if shouldScheduleTimeout {
          ScheduleRelease();
        }
      } else if shouldScheduleTimeout {
        TakeOrRelease(false);
      }
    }

    /** What a change of radio state sends from inside a response. */
    method SendNested(rs: seq<Response>)
      requires Valid()
      modifies this, scheduled`cancelled
      ensures Valid() && st == RespondAll(old(st), rs)
      ensures forall i :: 0 <= i < |scheduled| ==> scheduled[i] in old(scheduled) || fresh(scheduled[i])
      decreases rs, 0
    {
      hide Represents, Respond, Wakes, Guarded, HeldAfter, Extends, Trues;
      for k := 0 to |rs|
        invariant Valid() && st == RespondAll(old(st), rs[..k])
        invariant forall i :: 0 <= i < |scheduled| ==> scheduled[i] in old(scheduled) || fresh(scheduled[i])
      {
        Deliver(rs[k]);
        assert rs[..k + 1][..k] == rs[..k];
      }
      assert rs[..|rs|] == rs;
    }

    method TakeOrRelease(take: bool)
      requires Valid()
      modifies this`held, this`st
      ensures Valid() && st == old(st).(held := take)
    {
      held, st := take, st.(held := take);
    }

    /** The last part of a response: the previous release is cancelled and a new one scheduled. */
    method ScheduleRelease()
      requires Valid()
      modifies this, scheduled`cancelled
      ensures Valid() && st == Schedule(old(st))
      ensures last != null && fresh(last) && last.release && !last.cancelled && scheduled == old(scheduled) + [last]
      ensures Shows(old(scheduled), PreviousCancelled(old(st)))
      ensures forall i :: 0 <= i < |scheduled| ==> scheduled[i] in old(scheduled) || fresh(scheduled[i])
    {
      ScheduleTracked(st);
      assert st.held == held && st.last == NameOf(last);
      hide Tracked, Shows;
      ghost var timers := PreviousCancelled(st);
      CancelPrevious();
      var info := InternalRequestTimedCallback(true, st.next);
      ShowsMore(old(scheduled), timers, info);
      last := info;
      st := Schedule(st);
    }

    method CancelPrevious()
      requires Valid()
      modifies scheduled`cancelled
      ensures Shows(scheduled, PreviousCancelled(st))
    {
      hide Tracked;
      if last != null {
        Cancel(last);
      }
    }

    /** Writing to the one object of a name is cancelling by that name. */
    method Cancel(info: UserCallbackInfo)
      requires Shows(scheduled, st.timers) && Tracked(st) && info in scheduled
      modifies info`cancelled
      ensures Shows(scheduled, CancelTimer(st.timers, info.id))
    {
      forall i | 0 <= i < |scheduled| ensures scheduled[i].id == info.id <==> scheduled[i] == info {
        OneOfName(scheduled, st, info);
        OneOfName(scheduled, st, scheduled[i]);
      }
      hide Tracked;
      info.cancelled := true;
    }

    /** `internalRequestTimedCallback`: schedules a callback under a name of its own. */
    method InternalRequestTimedCallback(release: bool, ghost name: nat) returns (info: UserCallbackInfo)
      modifies this`scheduled
      ensures fresh(info) && scheduled == old(scheduled) + [info] && Shown(info) == Timer(name, release, false)
    {
      info := new UserCallbackInfo(release, name);
      scheduled := scheduled + [info];
    }

    /** `RIL_requestTimedCallback`. */
    method RequestTimedCallback()
      requires Valid()
      modifies this
      ensures Valid() && st == Step(old(st), TimedCallback) && held == old(held) && last == old(last)
      ensures |scheduled| == |old(scheduled)| + 1 && scheduled[..|old(scheduled)|] == old(scheduled)
      ensures var info := scheduled[|scheduled| - 1]; fresh(info) && !info.release && !info.cancelled
    {
      TimedTracked(st);
      hide Tracked, Shows;
      var info := InternalRequestTimedCallback(false, st.next);
      ShowsMore(old(scheduled), st.timers, info);
      st := Step(st, TimedCallback);
    }

    /**
     `userTimerCallback` with `wakeTimeoutCallback`, run when the event loop fires a scheduled timer. A held
     lock that has its timer is released exactly if this is that timer.
     */
    method UserTimerCallback(info: UserCallbackInfo)
      requires Valid() && info in scheduled
      modifies this
      ensures Valid() && st == Step(old(st), Fire(info.id)) && info !in scheduled
      ensures old(held) && old(last) != null ==> (!held <==> info == old(last))
      ensures last == (if old(last) == info then null else old(last)) && (!old(held) ==> !held)
      ensures Removed(old(scheduled), info, scheduled)
    {
      ghost var k := Find(st.timers, info.id);
      ghost var t := Step(st, Fire(info.id));
      FireShown(st, held, last, scheduled, info);
      hide Represents, Find, Step, StepFire, Without;
      if info.release && !info.cancelled {
        held := false;
      }
      if last == info {
        last := null;
      }
      scheduled, st := Without(scheduled, k), t;
    }
  }
}
