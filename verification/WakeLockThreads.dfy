/**
 The wake lock of libril with its two threads: the one that delivers responses and the event loop that fires
 timers. They share the lock, `s_last_wake_timeout_info` and the cancellation parameters without a lock of their
 own, so every read and every write is a step here. WakeLock takes each side as one step.
 */
module WakeLockThreads {
  import opened Common

  /** Where the event loop is in `userTimerCallback`. */
  datatype LoopPc =
    | Idle
    | Called(id: nat, release: bool)      // the parameter is read: the callback will release the lock, or not
    | Returned(id: nat)                   // the callback is over
    | Tested(id: nat, same: bool)         // the field was compared with this timer

  /** Where the other thread is in a response that takes the lock and marshals, or fails to. */
  datatype ResponsePc =
    | Quiet
    | Grabbed
    | Cancelled                           // the timer that the field named is cancelled
    | Armed(id: nat)                      // the new timer is scheduled, the field does not name it yet

  datatype State = State(
    held: bool,
    timers: map<nat, bool>,               // the scheduled releases, and whether each is cancelled
    last: Option<nat>,                    // s_last_wake_timeout_info
    next: nat,
    loop: LoopPc,
    response: ResponsePc)

  datatype Op = Grab | Fail | CancelPrevious | Arm | Name | Fire(id: nat) | Act | Test | Clear

  ghost predicate Initial(s: State) {
    !s.held && |s.timers| == 0 && s.last.None? && s.loop.Idle? && s.response.Quiet?
  }

  /** A step of either thread; one that does not stand there does nothing. */
  function Step(s: State, op: Op): State {
    match op
    case Grab => if s.response.Quiet? then s.(held := true, response := Grabbed) else s
    case Fail => if s.response.Grabbed? then s.(held := false, response := Quiet) else s
    case CancelPrevious =>
      if !s.response.Grabbed? then s
      else
        var t := s.(response := Cancelled);
        if s.last.Some? && s.last.value in s.timers then t.(timers := s.timers[s.last.value := true]) else t
    case Arm =>
      if s.response.Cancelled? then s.(timers := s.timers[s.next := false], next := s.next + 1,
          response := Armed(s.next))
      else s
    case Name => if s.response.Armed? then s.(last := Some(s.response.id), response := Quiet) else s
    case Fire(id) =>
      if s.loop.Idle? && id in s.timers then s.(timers := s.timers - {id}, loop := Called(id, !s.timers[id])) else s
    case Act =>
      if s.loop.Called? then s.(held := s.held && !s.loop.release, loop := Returned(s.loop.id)) else s
    case Test => if s.loop.Returned? then s.(loop := Tested(s.loop.id, s.last == Some(s.loop.id))) else s
    case Clear => if s.loop.Tested? then s.(last := if s.loop.same then None else s.last, loop := Idle) else s
  }

  function Run(s: State, ops: seq<Op>): State
    decreases |ops|
  {
    if |ops| == 0 then s else Run(Step(s, ops[0]), ops[1..])
  }

  // ----- a held lock is released

  /** The timer will release the lock when it fires. */
  predicate Live(s: State, id: nat) {
    id in s.timers && !s.timers[id]
  }

  /** Somebody is bound to release the lock: a live timer, a firing one, or the response that will arm one or fail. */
  ghost predicate Bound(s: State) {
    || (exists id: nat :: Live(s, id))
    || (s.loop.Called? && s.loop.release)
    || s.response.Grabbed? || s.response.Cancelled?
  }

  /** Names are given out in order, and a timer that is firing is not scheduled. */
  ghost predicate Wf(s: State) {
    && (forall id: nat :: id in s.timers ==> id < s.next)
    && (s.last.Some? ==> s.last.value < s.next)
    && (!s.loop.Idle? ==> s.loop.id < s.next && s.loop.id !in s.timers)
    && (s.response.Armed? ==> s.response.id < s.next)
    && (s.held ==> Bound(s))
  }

  lemma {:induction false} StepWf(s: State, op: Op)
    requires Wf(s)
    ensures Wf(Step(s, op))
  {
    var t := Step(s, op);
    if op.Arm? && s.response.Cancelled? {
      assert Live(t, s.next);
    } else if t.held && !t.response.Grabbed? && !t.response.Cancelled? && !(t.loop.Called? && t.loop.release) {
      assert s.held && Bound(s);
      if id: nat :| Live(s, id) {
        assert Live(t, id);
      }
    }
  }

  lemma {:induction false} RunWf(s: State, ops: seq<Op>)
    requires Wf(s)
    ensures Wf(Run(s, ops))
    decreases |ops|
  {
    hide Wf, Step;
    if |ops| > 0 {
      StepWf(s, ops[0]);
      RunWf(Step(s, ops[0]), ops[1..]);
    }
  }

  /**
   However the threads interleave, a held lock is never forgotten: between responses there is a scheduled
   release that is not cancelled, or one that is just running.
   */
  lemma {:induction false} HeldLockIsReleased(s0: State, ops: seq<Op>)
    requires Initial(s0)
    ensures var s := Run(s0, ops);
            s.held && s.response.Quiet? ==> (exists id: nat :: Live(s, id)) || (s.loop.Called? && s.loop.release)
  {
    RunWf(s0, ops);
  }

  // ----- the field names the live timer, unless a clear straddles a response

  /** Every live timer is the one the field names, or is about to be. */
  ghost predicate Named(s: State) {
    forall id: nat :: Live(s, id) ==> s.last == Some(id) || s.response == Armed(id)
  }

  /** While a response has cancelled, nothing is live. */
  ghost predicate Orderly(s: State) {
    && Named(s)
    && (s.response.Cancelled? ==> forall id: nat :: !Live(s, id))
    && (s.response.Armed? ==> forall id: nat :: Live(s, id) ==> id == s.response.id)
  }

  /** The field is cleared for the timer it named when it was tested, although it names a live one now. */
  ghost predicate Straddles(s: State, op: Op) {
    op.Clear? && s.loop.Tested? && s.loop.same && s.last.Some? && Live(s, s.last.value)
  }

  lemma {:induction false} StepOrderly(s: State, op: Op)
    requires Wf(s) && Orderly(s) && !Straddles(s, op)
    ensures Orderly(Step(s, op))
  {
    var t := Step(s, op);
    forall id: nat | Live(t, id)
      ensures t.last == Some(id) || t.response == Armed(id)
      ensures !t.response.Cancelled? && (t.response.Armed? ==> id == t.response.id)
    {
      assert Live(s, id) || id == s.next;
    }
  }

  ghost predicate StraddleFree(s: State, ops: seq<Op>)
    decreases |ops|
  {
    |ops| > 0 ==> !Straddles(s, ops[0]) && StraddleFree(Step(s, ops[0]), ops[1..])
  }

  lemma {:induction false} RunOrderly(s: State, ops: seq<Op>)
    requires Wf(s) && Orderly(s) && StraddleFree(s, ops)
    ensures Wf(Run(s, ops)) && Orderly(Run(s, ops))
    decreases |ops|
  {
    hide Wf, Orderly, Step, Straddles;
    if |ops| > 0 {
      StepWf(s, ops[0]);
      StepOrderly(s, ops[0]);
      RunOrderly(Step(s, ops[0]), ops[1..]);
    }
  }

  /** Between responses of a run in which no clear straddles one, at most one timer is live, and the field names it. */
  lemma {:induction false} FieldNamesLiveTimer(s0: State, ops: seq<Op>)
    requires Initial(s0) && StraddleFree(s0, ops)
    ensures var s := Run(s0, ops);
            s.response.Quiet? ==> forall id: nat :: Live(s, id) ==> s.last == Some(id)
  {
    RunOrderly(s0, ops);
  }

  /**
   The condition is exact: a step from an orderly state leaves a live timer that the field does not name and no
   response is about to name if and only if it straddles.
   */
  lemma {:induction false} NameLostIff(s: State, op: Op)
    requires Wf(s) && Orderly(s)
    ensures !Named(Step(s, op)) <==> Straddles(s, op) && !s.response.Armed?
  {
    if Straddles(s, op) {
      var t, id := Step(s, op), s.last.value;
      assert Live(t, id) <==> Live(s, id);
    } else {
      StepOrderly(s, op);
    }
  }

  /** A whole response that takes the lock, with no step of the event loop in between. */
  function Respond(s: State): State {
    Step(Step(Step(Step(s, Grab), CancelPrevious), Arm), Name)
  }

  lemma {:induction false} RespondEffect(s: State)
    requires s.response.Quiet?
    ensures var t := Respond(s);
            && t.held && t.last == Some(s.next) && t.next == s.next + 1 && t.response.Quiet? && t.loop == s.loop
            && Live(t, s.next)
            && (forall id: nat :: id != s.next ==> (Live(t, id) <==> Live(s, id) && s.last != Some(id)))
            && t.timers.Keys == s.timers.Keys + {s.next}
  {
  }

  /**
   A run that does it. The first timer fires, and is found in the field; before the field is cleared the next
   response names its own timer there. That timer is then live without its name: a third response does not
   cancel it, and when it fires it releases the lock although the third response's own timer is still live.
   */
  lemma {:induction false} StraddleExample(s0: State)
    requires Initial(s0)
    ensures var n, a := s0.next, Respond(s0);
            var b := Respond(Step(Step(Step(a, Fire(n)), Act), Test));
            var c := Step(b, Clear);
            var d := Respond(c);
            var e := Step(Step(d, Fire(n + 1)), Act);
            && Straddles(b, Clear) && !Named(c) && Live(c, n + 1) && c.last.None?
            && !e.held && e.last == Some(n + 2) && Live(e, n + 2)
  {
    var n, a := s0.next, Respond(s0);
    RespondEffect(s0);
    hide Respond, Step, Straddles, Named, Live;
    NameLost(a, n);
    ReleasedEarly(Step(Respond(Step(Step(Step(a, Fire(n)), Act), Test)), Clear), n + 1);
  }

  lemma {:induction false} NameLost(a: State, n: nat)
    requires a.loop.Idle? && a.response.Quiet? && a.last == Some(n) && Live(a, n) && a.next == n + 1
    ensures var b := Respond(Step(Step(Step(a, Fire(n)), Act), Test));
            var c := Step(b, Clear);
            && Straddles(b, Clear) && !Named(c) && Live(c, n + 1) && c.last.None?
            && c.loop.Idle? && c.response.Quiet? && c.next == n + 2
  {
    hide Respond;
    var f := Step(Step(Step(a, Fire(n)), Act), Test);
    assert f.loop == Tested(n, true) && f.response.Quiet? && f.next == n + 1;
    RespondEffect(f);
    assert Live(Step(Respond(f), Clear), n + 1);
  }

  lemma {:induction false} ReleasedEarly(c: State, n: nat)
    requires c.loop.Idle? && c.response.Quiet? && c.last.None? && Live(c, n) && c.next == n + 1
    ensures var e := Step(Step(Respond(c), Fire(n)), Act); !e.held && e.last == Some(n + 1) && Live(e, n + 1)
  {
    hide Respond;
    RespondEffect(c);
    var g := Step(Respond(c), Fire(n));
    assert g.loop == Called(n, true) && Live(g, n + 1);
  }

  // ----- a timer that releases the next response's lock

  /** A timer that has begun to release the lock is still the one named, or a later one is live or about to be. */
  ghost predicate Overtaken(s: State) {
    s.loop.Called? && s.loop.release ==>
      match s.response
      case Cancelled => true
      case Armed(id) => id == s.loop.id || Live(s, id)
      case _ => s.last == Some(s.loop.id) || (s.last.Some? && Live(s, s.last.value))
  }

  lemma {:induction false} StepOvertaken(s: State, op: Op)
    requires Wf(s) && Orderly(s) && Overtaken(s)
    ensures Overtaken(Step(s, op))
  {
    if op.Fire? && s.loop.Idle? && op.id in s.timers && !s.timers[op.id] {
      assert Live(s, op.id);
    }
  }

  lemma {:induction false} RunOvertaken(s: State, ops: seq<Op>)
    requires Wf(s) && Orderly(s) && Overtaken(s) && StraddleFree(s, ops)
    ensures Overtaken(Run(s, ops))
    decreases |ops|
  {
    if |ops| > 0 {
      StepWf(s, ops[0]);
      StepOrderly(s, ops[0]);
      StepOvertaken(s, ops[0]);
      hide Wf, Orderly, Overtaken, Step, Straddles;
      RunOvertaken(Step(s, ops[0]), ops[1..]);
    }
  }

  /**
   Between responses, a timer that has read its parameter releases the lock although a later release is live if
   and only if the field names another timer by then.
   */
  lemma {:induction false} ReleasedEarlyIff(s0: State, ops: seq<Op>)
    requires Initial(s0) && StraddleFree(s0, ops)
    ensures var s := Run(s0, ops);
            s.response.Quiet? && s.loop.Called? && s.loop.release ==>
              ((exists id: nat :: Live(Step(s, Act), id)) <==> s.last != Some(s.loop.id))
  {
    var s := Run(s0, ops);
    RunWf(s0, ops);
    RunOrderly(s0, ops);
    RunOvertaken(s0, ops);
    if s.response.Quiet? && s.loop.Called? && s.loop.release {
      assert forall id: nat :: Live(Step(s, Act), id) <==> Live(s, id);
    }
  }

  /** A run that does it, without any straddling. */
  lemma {:induction false} LateCancelExample(s0: State)
    requires Initial(s0)
    ensures var n := s0.next;
            var t := Step(Respond(Step(Respond(s0), Fire(n))), Act);
            !t.held && t.last == Some(n + 1) && Live(t, n + 1)
  {
    var n := s0.next;
    RespondEffect(s0);
    var a := Respond(s0);
    hide Respond;
    var f := Step(a, Fire(n));
    assert f.loop == Called(n, true) && f.next == n + 1;
    RespondEffect(f);
  }
}
