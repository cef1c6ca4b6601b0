/**
 Samsung-RIL as a state machine: requests from libril, the dispatch loop, messages of the modem and
 changes of the radio state, each atomic under RIL_LOCK. The theorems hold of every run.
 */
module Scheduler {
  import opened Common
  import opened FmtNumbers
  import opened RequestQueue
  import opened GenericResponse
  import Store = RequestStore

  const RADIO_UNAVAILABLE := 1
  const RADIO_SIM_NOT_READY := 2
  const RADIO_SIM_READY := 4

  /** The order of `ril_radio_state_check`: UNAVAILABLE, OFF, ON, the two NV and the three SIM states. */
  const RADIO_STATES := [1, 0, 10, 8, 9, 2, 3, 4]

  const E_SUCCESS := 0
  const E_RADIO_NOT_AVAILABLE := 1
  const E_GENERIC_FAILURE := 2
  const E_REQUEST_NOT_SUPPORTED := 6
  const E_NOT_ALLOWED_BEFORE_REG := 9

  /** The kinds with a handler. */
  const SUPPORTED: set<int> :=
    {1, 2, 3, 4, 5, 6, 7, 9, 10, 11, 12, 13, 14, 18, 19, 20, 21, 22, 23, 24, 25, 26, 27, 28, 37, 38, 39, 40, 41, 42,
     43, 45, 46, 47, 48, 49, 50, 51, 53, 56, 57, 59, 61, 63, 64, 73, 74}

  /**
   The handlers of LAST_CALL_FAIL_CAUSE, LAST_DATA_CALL_FAIL_CAUSE and SCREEN_STATE send nothing: they never return
   HANDLED.
   */
  const AWAITING: set<int> := SUPPORTED - {18, 56, 61}

  /** The kinds whose handler goes on only when the SIM is ready. */
  const NEEDS_SIM: set<int> := {6, 7, 11, 27, 28, 37, 41, 42, 43, 63}

  /**
   RADIO_POWER, DTMF_STOP, SET_MUTE, OEM_HOOK_RAW, DELETE_SMS_ON_SIM, SET_PREFERRED_NETWORK_TYPE: no test of the
   radio.
   */
  const NEEDS_NOTHING: set<int> := {23, 50, 53, 59, 64, 73}

  /** Whether the handler of a kind gets past its test of the radio state. */
  predicate RadioReady(radio: int, kind: int) {
    kind in NEEDS_NOTHING || Rank(radio) >= Rank(if kind in NEEDS_SIM then RADIO_SIM_READY else RADIO_SIM_NOT_READY)
  }

  /**
   Otherwise it puts the request off. GET_CURRENT_CALLS and DATA_CALL_LIST answer that there are none;
   SETUP_DATA_CALL fails.
   */
  function NotReady(kind: int): Result {
    if kind in {9, 57} then RCompleted(E_SUCCESS) else if kind == 27 then
        RCompleted(E_NOT_ALLOWED_BEFORE_REG) else RUnhandled
  }

  function Rank(radio: int): (k: nat)
    ensures k <= |RADIO_STATES| && (k < |RADIO_STATES| ==> RADIO_STATES[k] == radio)
    ensures forall i :: 0 <= i < k ==> RADIO_STATES[i] != radio
  {
    FindFirst(RADIO_STATES, (x: int) => x == radio)
  }

  /** What a handler returns; completing its own request is part of RCompleted. No handler returns PENDING. */
  datatype Result = RHandled | RUnhandled | RCompleted(error: int) | RFailed

  /**
   One call of a handler, as far as the outside decides it: a way out before the handler looks for
   requests in flight, if it takes one, and what it comes to when it gets past that test.
   */
  datatype Attempt = Attempt(early: Option<Result>, late: Result)

  datatype State = State(
    radio: int,
    q: Queue,
    expects: seq<Expect>,
    nextExpect: nat,
    taken: seq<nat>,               // the expectations that a generic response has taken off the list
    store: seq<Store.Entry>)

  datatype Op =
    | OnRequest(kind: int, token: int)
    | OnCancel(token: int)
    | ResetUnhandled                                  // the first loop of a scheduler pass
    | Dispatch(a: Attempt)                            // one iteration of its second loop
    | Number(token: int)                              // ipc_fmt_request_seq in a handler
    | DrawNumber                                      // ipc_fmt_seq on its own
    | Answer(aseq: int, error: int)                   // a message completes the request with its number
    | CompleteInFlight(kind: int, error: int)         // a message completes the HANDLED request of a kind
    | Want(aseq: int, command: int, wish: Wish)       // an expectation is registered
    | Generic(aseq: int, command: int, ok: bool, again: seq<(int, Wish)>, finish: Option<int>)
    | Radio(state: int)
    | Data(op: Store.Op)
    | Destroy                                         // the FMT client gives up

  ghost predicate Initial(s: State) {
    && s.radio == RADIO_UNAVAILABLE
    && |s.q.arrivals| == |s.q.requests| == |s.q.upstream| == |s.q.done| == |s.q.dropped| == 0
    && s.q.fmt == Some(Fmt([], 0, 0))
    && |s.expects| == s.nextExpect == |s.taken| == |s.store| == 0
  }

  /** The handler's own logic: early exit, tests of the radio and for requests in flight, the rest. */
  function Handle(radio: int, q: seq<Request>, kind: int, a: Attempt): Result {
    if a.early.Some? && !a.early.value.RHandled? then a.early.value
    else if !RadioReady(radio, kind) then NotReady(kind)
    else if Busy(q, kind) then RUnhandled
    else if a.late.RHandled? && kind !in AWAITING then RCompleted(E_SUCCESS)
    else a.late
  }

  /** `ril_request_dispatch` on the request at position k, and the unregistering when it fails. */
  function DispatchAt(radio: int, q: Queue, k: nat, a: Attempt): Queue
    requires k < |q.requests|
  {
    var r := q.requests[k];
    if r.kind !in SUPPORTED then Complete(q, r.token, E_REQUEST_NOT_SUPPORTED)
    else Applied(q, k, Handle(radio, q.requests, r.kind, a))
  }

  /** What becomes of a request whose handler returned. */
  function Applied(q: Queue, k: nat, result: Result): Queue
    requires k < |q.requests|
  {
    match result
    case RHandled => SetStatus(q, k, Handled)
    case RUnhandled => SetStatus(q, k, Unhandled)
    case RCompleted(error) => Complete(q, q.requests[k].token, error)
    case RFailed => Drop(q, k)
  }

  /** UNHANDLED requests get another chance. */
  function Reset(q: seq<Request>): (r: seq<Request>)
    ensures |r| == |q|
    ensures forall i :: 0 <= i < |q| ==> r[i] == if q[i].status == Unhandled then q[i].(status := Pending) else q[i]
  {
    seq(|q|, i requires 0 <= i < |q| => if q[i].status == Unhandled then q[i].(status := Pending) else q[i])
  }

  function TokenOf(q: Queue, aseq: int): int {
    if q.fmt.Some? then RequestToken(q.fmt.value, aseq) else NO_TOKEN
  }

  function FindInFlight(q: seq<Request>, kind: int): nat {
    FindFirst(q, (x: Request) => x.kind == kind && x.status == Handled)
  }

  /** The loop of `ril_radio_state_update`: the oldest request is completed and unregistered until none is left. */
  function Drain(q: Queue): Queue
    decreases |q.requests|
  {
    if |q.requests| == 0 then q
    else if q.requests[0].token == NO_TOKEN then Drain(Drop(q, 0))
    else Drain(Finish(q, 0, E_RADIO_NOT_AVAILABLE))
  }

  function Dropped(q: Queue, token: int): Queue {
    var k := FindRequest(q.requests, token);
    if k == |q.requests| then q else Drop(q, k)
  }

  function StepOnRequest(q: Queue, kind: int, token: int): Queue {
    Enqueue(Dropped(q, token), kind, token)
  }

  function StepRadio(s: State, state: int): State {
    if s.radio == state then s
    else if state == RADIO_UNAVAILABLE then
      var d := Drain(s.q);
      State(state, d.(fmt := if d.fmt.Some? then Some(Fmt([], 0, 0)) else None), [], s.nextExpect, s.taken, [])
    else s.(radio := state)
  }

  function Additions(aseq: int, again: seq<(int, Wish)>, next: nat): (r: seq<Expect>)
    ensures |r| == |again|
    ensures forall i :: 0 <= i < |r| ==> r[i] == Expect(next + i, aseq, again[i].0, again[i].1)
  {
    seq(|again|, i requires 0 <= i < |again| => Expect(next + i, aseq, again[i].0, again[i].1))
  }

  /** `ipc_gen_phone_res`: the callback may register expectations and complete the request of this number. */
  function StepGeneric(s: State, aseq: int, command: int, ok: bool, again: seq<(int, Wish)>,
      finish: Option<int>): State {
    var added := Additions(aseq, again, s.nextExpect);
    var k := FindAseq(s.expects, aseq);
    var t := s.(expects := AfterResponse(s.expects, aseq, command, added), nextExpect := s.nextExpect + |again|,
                taken := if k == |s.expects| then s.taken else s.taken + [s.expects[k].serial]);
    match GenericResponse.Respond(s.expects, aseq, command, ok)
    case Called => if finish.Some? then t.(q := Complete(s.q, TokenOf(s.q, aseq), finish.value)) else t
    case Completed(good) => t.(q := Complete(s.q, TokenOf(s.q, aseq), if good then E_SUCCESS else E_GENERIC_FAILURE))
    case _ => t
  }

  function StepQueue(radio: int, q: Queue, op: Op): Queue {
    match op
    case OnRequest(kind, token) => StepOnRequest(q, kind, token)
    case OnCancel(token) => Dropped(q, token)
    case ResetUnhandled => if radio == RADIO_UNAVAILABLE then q else q.(requests := Reset(q.requests))
    case Dispatch(a) =>
      var k := FindStatus(q.requests, Pending);
      if radio == RADIO_UNAVAILABLE || k == |q.requests| then q else DispatchAt(radio, q, k, a)
    case Number(token) => if q.fmt.None? then q else q.(fmt := Some(RequestSeq(q.fmt.value, token).0))
    case DrawNumber => if q.fmt.None? then q else q.(fmt := Some(Draw(q.fmt.value)))
    case Answer(aseq, error) => Complete(q, TokenOf(q, aseq), error)
    case CompleteInFlight(kind, error) =>
      var k := FindInFlight(q.requests, kind);
      if k == |q.requests| then q else Complete(q, q.requests[k].token, error)
    case Destroy => q.(fmt := None)
    case _ => q
  }

  function Step(s: State, op: Op): State {
    match op
    case Want(aseq, command, wish) =>
      s.(expects := s.expects + [Expect(s.nextExpect, aseq, command, wish)], nextExpect := s.nextExpect + 1)
    case Generic(aseq, command, ok, again, finish) => StepGeneric(s, aseq, command, ok, again, finish)
    case Radio(state) => StepRadio(s, state)
    case Data(o) => s.(store := Store.Step(s.store, o))
    case Destroy => s.(q := StepQueue(s.radio, s.q, op), expects := [])
    case _ => s.(q := StepQueue(s.radio, s.q, op))
  }

  function Run(s: State, ops: seq<Op>): State
    decreases |ops|
  {
    if |ops| == 0 then s else Run(Step(s, ops[0]), ops[1..])
  }

  // ----- the invariant

  ghost predicate Good(q: Queue) {
    Accounted(q) && Authentic(q) && Mirrored(q) && SingleFlight(q.requests)
  }

  lemma {:induction false} DropGood(q: Queue, k: nat)
    requires Good(q) && k < |q.requests|
    ensures Good(Drop(q, k))
  {
    DropAccounted(q, k);
    UnregisterAuthentic(q, k);
    UnregisterMirrored(q, k);
    WithoutSingleFlight(q.requests, k);
    hide Accounted, UniqueTokens, SameEntries, WellNumbered, SingleFlight;
  }

  lemma {:induction false} FinishGood(q: Queue, k: nat, error: int)
    requires Good(q) && k < |q.requests|
    ensures Good(Finish(q, k, error))
  {
    FinishAccounted(q, k, error);
    UnregisterAuthentic(q, k);
    UnregisterMirrored(q, k);
    WithoutSingleFlight(q.requests, k);
    hide Accounted, UniqueTokens, SameEntries, WellNumbered, SingleFlight;
  }

  /** Completing is safe for a token that is live or NULL; any other would be reported without a request. */
  lemma {:induction false} CompleteGood(q: Queue, token: int, error: int)
    requires Good(q)
    requires token == NO_TOKEN || FindRequest(q.requests, token) < |q.requests|
    ensures Good(Complete(q, token, error))
  {
    if token != NO_TOKEN {
      FinishGood(q, FindRequest(q.requests, token), error);
    }
    hide Good, Finish;
  }

  /** A token that a sequence number stands for is live, or there is none. */
  lemma {:induction false} TokenIsLive(q: Queue, aseq: int)
    requires Mirrored(q)
    ensures var token := TokenOf(q, aseq);
            token == NO_TOKEN || FindRequest(q.requests, token) < |q.requests|
  {
    if q.fmt.Some? {
      var f := q.fmt.value.requests;
      var k := FindSeq(f, aseq);
      if k < |f| {
        assert q.requests[k].token == f[k].token;
      }
    }
  }

  lemma {:induction false} EnqueueGood(q: Queue, kind: int, token: int)
    requires Good(q) && FindRequest(q.requests, token) == |q.requests|
    ensures Good(Enqueue(q, kind, token))
  {
    EnqueueAccounted(q, kind, token);
    EnqueueAuthentic(q, kind, token);
    EnqueueMirrored(q, kind, token);
    hide Accounted, Authentic, UniqueTokens, SameEntries, WellNumbered, Tests;
  }

  lemma {:induction false} OnRequestGood(q: Queue, kind: int, token: int)
    requires Good(q)
    ensures Good(StepOnRequest(q, kind, token))
  {
    var k := FindRequest(q.requests, token);
    if k < |q.requests| {
      DropGood(q, k);
      var t := Drop(q, k);
      assert forall i :: 0 <= i < |t.requests| ==> t.requests[i].token != token;
      EnqueueGood(t, kind, token);
    } else {
      EnqueueGood(q, kind, token);
    }
    hide Good;
  }

  lemma {:induction false} SetStatusGood(q: Queue, k: nat, status: Status)
    requires Good(q) && k < |q.requests|
    requires status == Handled ==> !Busy(q.requests, q.requests[k].kind)
    ensures Good(SetStatus(q, k, status))
  {
    SetStatusAccounted(q, k, status);
    SetStatusMirrored(q, k, status);
    SetStatusSingleFlight(q, k, status);
    hide Accounted, Mirrored, SingleFlight;
  }

  lemma {:induction false} DispatchGood(radio: int, q: Queue, k: nat, a: Attempt)
    requires Good(q) && k < |q.requests|
    ensures Good(DispatchAt(radio, q, k, a))
  {
    var r := q.requests[k];
    assert FindRequest(q.requests, r.token) <= k;
    if r.kind !in SUPPORTED {
      CompleteGood(q, r.token, E_REQUEST_NOT_SUPPORTED);
    } else {
      match Handle(radio, q.requests, r.kind, a)
      case RHandled => SetStatusGood(q, k, Handled);
      case RUnhandled => SetStatusGood(q, k, Unhandled);
      case RCompleted(error) => CompleteGood(q, r.token, error);
      case RFailed => DropGood(q, k);
    }
    hide Good, Complete, SetStatus, Drop;
  }

  lemma {:induction false} ResetGood(q: Queue)
    requires Good(q)
    ensures Good(q.(requests := Reset(q.requests)))
  {
    var r := Reset(q.requests);
    assert forall i :: 0 <= i < |r| ==>
        && r[i].serial == q.requests[i].serial && r[i].kind == q.requests[i].kind
        && r[i].token == q.requests[i].token && (r[i].status == Handled <==> q.requests[i].status == Handled);
    assert Serials(r) == Serials(q.requests);
    hide Serials, Members, UpTo, NoDup, Tests, WellNumbered;
  }

  lemma {:induction false} NumberGood(q: Queue, token: int)
    requires Good(q) && q.fmt.Some?
    ensures Good(q.(fmt := Some(RequestSeq(q.fmt.value, token).0)))
  {
    RequestSeqKeeps(q.fmt.value, token);
    hide Accounted, SingleFlight, WellNumbered, UniqueTokens;
  }

  lemma {:induction false} DrainGood(q: Queue)
    requires Good(q)
    ensures Good(Drain(q)) && |Drain(q).requests| == 0
    decreases |q.requests|
  {
    if |q.requests| > 0 {
      if q.requests[0].token == NO_TOKEN {
        DropGood(q, 0);
        DrainGood(Drop(q, 0));
      } else {
        FinishGood(q, 0, E_RADIO_NOT_AVAILABLE);
        DrainGood(Finish(q, 0, E_RADIO_NOT_AVAILABLE));
      }
    }
    hide Good;
  }

  lemma {:induction false} DrawGood(q: Queue)
    requires Good(q) && q.fmt.Some?
    ensures Good(q.(fmt := Some(Draw(q.fmt.value))))
  {
    DrawKeeps(q.fmt.value);
    hide Accounted, SingleFlight, WellNumbered, UniqueTokens;
  }

  lemma {:induction false} DestroyGood(q: Queue)
    requires Good(q)
    ensures Good(q.(fmt := None))
  {
    hide Serials, Members, UpTo, NoDup, SingleFlight;
  }

  lemma {:induction false} StepQueueGood(radio: int, q: Queue, op: Op)
    requires Good(q)
    ensures Good(StepQueue(radio, q, op))
  {
    hide DispatchAt, Complete, StepOnRequest, Drop, Mirrored, Accounted, Authentic, SingleFlight;
    assert Mirrored(q);
    hide Good;
    match op
    case OnRequest(kind, token) => OnRequestGood(q, kind, token);
    case OnCancel(token) =>
      var k := FindRequest(q.requests, token);
      if k < |q.requests| { DropGood(q, k); }
    case ResetUnhandled => ResetGood(q);
    case Dispatch(a) =>
      var k := FindStatus(q.requests, Pending);
      if k < |q.requests| { DispatchGood(radio, q, k, a); }
    case Number(token) => if q.fmt.Some? { NumberGood(q, token); }
    case DrawNumber => if q.fmt.Some? { DrawGood(q); }
    case Destroy => DestroyGood(q);
    case Answer(aseq, error) => TokenIsLive(q, aseq); CompleteGood(q, TokenOf(q, aseq), error);
    case CompleteInFlight(kind, error) =>
      var k := FindInFlight(q.requests, kind);
      if k < |q.requests| {
        assert FindRequest(q.requests, q.requests[k].token) <= k;
        CompleteGood(q, q.requests[k].token, error);
      }
    case _ =>
  }

  /** Whether a response completes the request of its number, and how, by the expectation it meets. */
  ghost function Completes(e: Expect, command: int, ok: bool, finish: Option<int>): Option<int> {
    if e.command != command then None
    else match e.wish
      case Callback => finish
      case CompleteAlways => Some(if ok then E_SUCCESS else E_GENERIC_FAILURE)
      case CompleteOnFailure => if ok then None else Some(E_GENERIC_FAILURE)
  }

  /** What a generic response does to the queue: nothing, or the completion its expectation asks for. */
  lemma {:induction false} GenericQueue(s: State, aseq: int, command: int, ok: bool, again: seq<(int, Wish)>,
      finish: Option<int>)
    ensures var k := FindAseq(s.expects, aseq);
            var error := if k == |s.expects| then None else Completes(s.expects[k], command, ok, finish);
            StepGeneric(s, aseq, command, ok, again, finish).q
              == if error.None? then s.q else Complete(s.q, TokenOf(s.q, aseq), error.value)
  {
    hide AfterResponse, TokenOf, Complete, Additions, FindAseq;
  }

  lemma {:induction false} GenericGood(s: State, aseq: int, command: int, ok: bool, again: seq<(int, Wish)>,
      finish: Option<int>)
    requires Good(s.q)
    ensures Good(StepGeneric(s, aseq, command, ok, again, finish).q)
  {
    GenericQueue(s, aseq, command, ok, again, finish);
    TokenIsLive(s.q, aseq);
    hide StepGeneric, Complete, Good, TokenOf, FindAseq;
    var k := FindAseq(s.expects, aseq);
    if k < |s.expects| && Completes(s.expects[k], command, ok, finish).Some? {
      CompleteGood(s.q, TokenOf(s.q, aseq), Completes(s.expects[k], command, ok, finish).value);
    }
  }

  lemma {:induction false} RadioGood(s: State, state: int)
    requires Good(s.q)
    ensures Good(StepRadio(s, state).q)
  {
    DrainGood(s.q);
    FlushGood(Drain(s.q));
    hide Good, Drain;
  }

  lemma {:induction false} StepGood(s: State, op: Op)
    requires Good(s.q)
    ensures Good(Step(s, op).q)
  {
    StepQueueGood(s.radio, s.q, op);
    if op.Generic? { GenericGood(s, op.aseq, op.command, op.ok, op.again, op.finish); }
    if op.Radio? { RadioGood(s, op.state); }
    hide Good, StepQueue, StepGeneric, StepRadio;
  }

  lemma {:induction false} FlushGood(q: Queue)
    requires Good(q) && |q.requests| == 0
    ensures Good(q.(fmt := if q.fmt.Some? then Some(Fmt([], 0, 0)) else None))
  {
    hide Serials, Members, UpTo, NoDup, Increasing, SingleFlight;
  }

  lemma {:induction false} RunGood(s: State, ops: seq<Op>)
    requires Good(s.q)
    ensures Good(Run(s, ops).q)
    decreases |ops|
  {
    if |ops| > 0 {
      StepGood(s, ops[0]);
      hide Good, Step;
      RunGood(Step(s, ops[0]), ops[1..]);
    }
  }

  lemma {:induction false} InitialGood(s: State)
    requires Initial(s)
    ensures Good(s.q)
  {
    assert Serials(s.q.requests) == {} && Members(s.q.done) == {} && Members(s.q.dropped) == {} && UpTo(0) == {};
  }

  // ----- what follows for every run

  /**
   While the FMT client exists its list equals the queue entry by entry, all tokens distinct, so the
   token that a sequence number stands for is that of a live request, or NULL.
   */
  lemma {:induction false} MirrorHolds(s0: State, ops: seq<Op>, aseq: int)
    requires Initial(s0)
    ensures var q := Run(s0, ops).q;
            && (forall i, j :: 0 <= i < j < |q.requests| ==> q.requests[i].token != q.requests[j].token)
            && (q.fmt.Some? ==>
                  && |q.fmt.value.requests| == |q.requests|
                  && forall i :: 0 <= i < |q.requests| ==>
                       && q.fmt.value.requests[i].kind == q.requests[i].kind
                       && q.fmt.value.requests[i].token == q.requests[i].token)
            && (TokenOf(q, aseq) == NO_TOKEN ||
                exists i :: 0 <= i < |q.requests| && q.requests[i].token == TokenOf(q, aseq))
  {
    InitialGood(s0);
    RunGood(s0, ops);
    TokenIsLive(Run(s0, ops).q, aseq);
    hide Run, WellNumbered, SingleFlight, Accounted, TokenOf, Authentic;
  }

  /**
   Every request that arrived is in exactly one place: still queued, reported to libril, or dropped
   (cancelled, replaced under its token, or failed). Every report is for a request that arrived, with
   its own token, and no request is reported twice.
   */
  lemma {:induction false} ReportedAtMostOnce(s0: State, ops: seq<Op>)
    requires Initial(s0)
    ensures var q := Run(s0, ops).q;
            && |q.upstream| == |q.done|
            && (forall i :: 0 <= i < |q.done| ==>
                q.done[i] < |q.arrivals| && q.upstream[i].token == q.arrivals[q.done[i]].token)
            && (forall i, j :: 0 <= i < j < |q.done| ==> q.done[i] != q.done[j])
            && Accounted(q)
  {
    InitialGood(s0);
    RunGood(s0, ops);
    AuthenticReports(Run(s0, ops).q);
    hide Run, Serials, Members, UpTo, Mirrored, SingleFlight;
  }

  lemma {:induction false} AuthenticReports(q: Queue)
    requires Good(q)
    ensures |q.upstream| == |q.done|
    ensures forall i :: 0 <= i < |q.done| ==>
        q.done[i] < |q.arrivals| && q.upstream[i].token == q.arrivals[q.done[i]].token
    ensures forall i, j :: 0 <= i < j < |q.done| ==> q.done[i] != q.done[j]
  {
    hide Serials, Members, UpTo, Mirrored, SingleFlight;
  }

  ghost predicate AtMostOneInFlight(q: seq<Request>, kinds: set<int>) {
    forall i, j :: 0 <= i < j < |q| ==>
        !(q[i].status == Handled && q[j].status == Handled && q[i].kind in kinds && q[j].kind in kinds)
  }

  /** At most one request of each kind that tests for itself is in flight, and of the three DTMF kinds jointly. */
  lemma {:induction false} OneInFlight(s0: State, ops: seq<Op>, kind: int)
    requires Initial(s0) && kind in Tests(kind)
    ensures AtMostOneInFlight(Run(s0, ops).q.requests, Tests(kind))
  {
    InitialGood(s0);
    RunGood(s0, ops);
    OneInFlightOf(Run(s0, ops).q.requests, kind);
  }

  lemma {:induction false} OneInFlightOf(q: seq<Request>, kind: int)
    requires SingleFlight(q) && kind in Tests(kind)
    ensures AtMostOneInFlight(q, Tests(kind))
  {
    assert forall a, b :: a in Tests(kind) && b in Tests(kind) ==> a in Tests(b) && b in Tests(a);
    hide Tests;
  }

  lemma {:induction false} Unfold(s: State, op: Op, ops: seq<Op>)
    ensures Run(s, [op] + ops) == Run(Step(s, op), ops)
  {
    assert ([op] + ops)[1..] == ops;
  }

  /** The handler waits for the modem and does not look for other requests of its kind. */
  ghost predicate Untested(kind: int) {
    kind in AWAITING && kind !in Tests(kind)
  }

  /** For any other kind that can be in flight at all, two requests can be at once, with the SIM ready. */
  lemma {:induction false} TwoInFlight(s0: State, kind: int)
    requires Initial(s0) && Untested(kind)
    ensures exists ops :: !AtMostOneInFlight(Run(s0, ops).q.requests, {kind})
  {
    var go, ready := Dispatch(Attempt(None, RHandled)), Radio(RADIO_SIM_READY);
    var s1 := Step(s0, ready);
    assert s1 == s0.(radio := RADIO_SIM_READY);
    hide Step, Untested, Run;
    FirstGone(s1, kind);
    var s3 := Step(Step(s1, OnRequest(kind, 1)), go);
    SecondGone(s3, kind);
    var s5 := Step(Step(s3, OnRequest(kind, 2)), go);
    Unfold(s0, ready, [OnRequest(kind, 1)] + ([go] + ([OnRequest(kind, 2)] + ([go] + []))));
    Unfold(s1, OnRequest(kind, 1), [go] + ([OnRequest(kind, 2)] + ([go] + [])));
    Unfold(Step(s1, OnRequest(kind, 1)), go, [OnRequest(kind, 2)] + ([go] + []));
    Unfold(s3, OnRequest(kind, 2), [go] + []);
    Unfold(Step(s3, OnRequest(kind, 2)), go, []);
    RunNone(s5);
    assert !AtMostOneInFlight(s5.q.requests, {kind}) by {
      assert s5.q.requests[0].status == Handled && s5.q.requests[1].status == Handled;
    }
  }

  lemma {:induction false} RunNone(s: State)
    ensures Run(s, []) == s
  {
  }

  lemma {:induction false} AtSimReady(q: seq<Request>, kind: int)
    requires kind in AWAITING && !Busy(q, kind)
    ensures kind in SUPPORTED && Handle(RADIO_SIM_READY, q, kind, Attempt(None, RHandled)) == RHandled
  {
    assert RADIO_STATES[7] == RADIO_SIM_READY;
    assert forall i :: 0 <= i < 7 ==> RADIO_STATES[i] != RADIO_SIM_READY;
    assert Rank(RADIO_SIM_READY) == 7;
    assert RADIO_STATES[5] == RADIO_SIM_NOT_READY;
    assert Rank(RADIO_SIM_NOT_READY) <= 5;
  }

  lemma {:induction false} FirstDispatched(s: State, kind: int)
    requires s.radio == RADIO_SIM_READY && Untested(kind)
    requires |s.q.requests| == 1 && s.q.requests[0].kind == kind && s.q.requests[0].status == Pending
    ensures var t := Step(s, Dispatch(Attempt(None, RHandled)));
            t == s.(q := s.q.(requests := [s.q.requests[0].(status := Handled)]))
  {
    hide Tests, SUPPORTED, AWAITING, Handle, Complete;
    AtSimReady(s.q.requests, kind);
    assert FindStatus(s.q.requests, Pending) == 0;
  }

  lemma {:induction false} SecondDispatched(s: State, kind: int)
    requires s.radio == RADIO_SIM_READY && Untested(kind)
    requires |s.q.requests| == 2 && s.q.requests[0].kind == s.q.requests[1].kind == kind
    requires s.q.requests[0].status == Handled && s.q.requests[1].status == Pending
    ensures var t := Step(s, Dispatch(Attempt(None, RHandled)));
            t == s.(q := s.q.(requests := [s.q.requests[0], s.q.requests[1].(status := Handled)]))
  {
    hide Tests, SUPPORTED, AWAITING, Handle, Complete;
    AtSimReady(s.q.requests, kind);
    assert FindStatus(s.q.requests, Pending) == 1;
  }

  /** Only kinds whose handler sends something are in flight. */
  ghost predicate Sending(q: seq<Request>) {
    forall i :: 0 <= i < |q| && q[i].status == Handled ==> q[i].kind in AWAITING
  }

  lemma {:induction false} CompleteSending(q: Queue, token: int, error: int)
    requires Sending(q.requests)
    ensures Sending(Complete(q, token, error).requests)
  {
  }

  lemma {:induction false} DrainSending(q: Queue)
    ensures |Drain(q).requests| == 0
    decreases |q.requests|
  {
    if |q.requests| > 0 {
      DrainSending(if q.requests[0].token == NO_TOKEN then Drop(q, 0) else Finish(q, 0, E_RADIO_NOT_AVAILABLE));
    }
  }

  lemma {:induction false} HandledAwaits(radio: int, q: seq<Request>, kind: int, a: Attempt)
    requires Handle(radio, q, kind, a).RHandled?
    ensures kind in AWAITING
  {
    hide Busy, RadioReady, SUPPORTED, AWAITING;
  }

  lemma {:induction false} DispatchSending(radio: int, q: Queue, k: nat, a: Attempt)
    requires Sending(q.requests) && k < |q.requests|
    ensures Sending(DispatchAt(radio, q, k, a).requests)
  {
    var r := q.requests[k];
    var result := Handle(radio, q.requests, r.kind, a);
    hide Handle, SUPPORTED, AWAITING, Complete, UnregisterEntry;
    if result.RHandled? { HandledAwaits(radio, q.requests, r.kind, a); }
    CompleteSending(q, r.token, E_REQUEST_NOT_SUPPORTED);
    if result.RCompleted? { CompleteSending(q, r.token, result.error); }
  }

  lemma {:induction false} StepQueueSending(radio: int, q: Queue, op: Op)
    requires Sending(q.requests)
    ensures Sending(StepQueue(radio, q, op).requests)
  {
    hide DispatchAt, UnregisterEntry, SUPPORTED, AWAITING, Complete;
    match op
    case Dispatch(a) =>
      var k := FindStatus(q.requests, Pending);
      if k < |q.requests| { DispatchSending(radio, q, k, a); }
    case Answer(aseq, error) => CompleteSending(q, TokenOf(q, aseq), error);
    case CompleteInFlight(kind, error) =>
      var k := FindInFlight(q.requests, kind);
      if k < |q.requests| { CompleteSending(q, q.requests[k].token, error); }
    case _ =>
  }

  lemma {:induction false} StepSending(s: State, op: Op)
    requires Sending(s.q.requests)
    ensures Sending(Step(s, op).q.requests)
  {
    StepQueueSending(s.radio, s.q, op);
    if op.Generic? {
      var token := TokenOf(s.q, op.aseq);
      if op.finish.Some? { CompleteSending(s.q, token, op.finish.value); }
      CompleteSending(s.q, token, E_SUCCESS);
      CompleteSending(s.q, token, E_GENERIC_FAILURE);
    }
    DrainSending(s.q);
    hide StepQueue, Complete, TokenOf, Drain, AfterResponse;
  }

  lemma {:induction false} RunSending(s: State, ops: seq<Op>)
    requires Sending(s.q.requests)
    ensures Sending(Run(s, ops).q.requests)
    decreases |ops|
  {
    if |ops| > 0 {
      StepSending(s, ops[0]);
      hide Sending, Step;
      RunSending(Step(s, ops[0]), ops[1..]);
    }
  }

  /**
   Single flight holds of a kind in every run if and only if its handler tests for that very kind, or never
   waits for the modem. It fails for CHANGE_SIM_PIN2, whose handler tests for CHANGE_SIM_PIN, and for
   SEND_SMS_EXPECT_MORE, as it does for all kinds that wait and are not tested for at all.
   */
  lemma {:induction false} SingleFlightIff(s0: State, kind: int)
    requires Initial(s0)
    ensures (forall ops :: AtMostOneInFlight(Run(s0, ops).q.requests, {kind})) <==>
        kind in Tests(kind) || kind !in AWAITING
  {
    if kind in Tests(kind) {
      forall ops ensures AtMostOneInFlight(Run(s0, ops).q.requests, {kind}) {
        OneInFlight(s0, ops, kind);
      }
    } else if kind !in AWAITING {
      forall ops ensures AtMostOneInFlight(Run(s0, ops).q.requests, {kind}) {
        RunSending(s0, ops);
      }
    } else {
      TwoInFlight(s0, kind);
    }
    hide Run;
  }

  // ----- the fall to UNAVAILABLE

  /** One report for each request with a token, in queue order. */
  function Reports(q: seq<Request>): seq<Completion> {
    if |q| == 0 then []
    else (if q[0].token == NO_TOKEN then [] else [Completion(q[0].token, E_RADIO_NOT_AVAILABLE)]) + Reports(q[1..])
  }

  lemma {:induction false} DrainReports(q: Queue)
    ensures |Drain(q).requests| == 0
    ensures Drain(q).upstream == q.upstream + Reports(q.requests)
    ensures Drain(q).fmt.Some? <==> q.fmt.Some?
    decreases |q.requests|
  {
    hide UnregisterEntry;
    if |q.requests| > 0 {
      assert Without(q.requests, 0) == q.requests[1..];
      DrainReports(if q.requests[0].token == NO_TOKEN then Drop(q, 0) else Finish(q, 0, E_RADIO_NOT_AVAILABLE));
    }
  }

  /**
   Every queued request that has a token was completed, once, in queue order, with RADIO_NOT_AVAILABLE; queue,
   request data, FMT list and expectations are empty and the counter is 0.
   */
  ghost predicate Drained(s: State, t: State) {
    && t.q.upstream == s.q.upstream + Reports(s.q.requests)
    && |t.q.requests| == |t.store| == |t.expects| == 0
    && (t.q.fmt.Some? <==> s.q.fmt.Some?)
    && (t.q.fmt.Some? ==> |t.q.fmt.value.requests| == 0 && t.q.fmt.value.seqno == 0)
  }

  /** Becoming unavailable drains everything. */
  lemma {:induction false} UnavailableDrains(s: State)
    requires s.radio != RADIO_UNAVAILABLE
    ensures Drained(s, Step(s, Radio(RADIO_UNAVAILABLE)))
  {
    DrainReports(s.q);
  }

  /** What the other changes of the radio state do. */
  lemma {:induction false} RadioCases(s: State, state: int)
    ensures var t := Step(s, Radio(state));
            && (s.radio == state ==> t == s)
            && (s.radio != state && state != RADIO_UNAVAILABLE ==> t == s.(radio := state))
            && (s.radio != state && state == RADIO_UNAVAILABLE ==>
                  var d := Drain(s.q);
                  && t.q == d.(fmt := if d.fmt.Some? then Some(Fmt([], 0, 0)) else None)
                  && t.radio == state && |t.expects| == |t.store| == 0 && t.nextExpect == s.nextExpect)
  {
    hide Drain;
  }

  // ----- expectations over runs

  ghost predicate Listed(s: State) {
    DistinctSerials(s.expects) && Below(s.expects, s.nextExpect)
  }

  lemma {:induction false} AdditionsDistinct(s: State, aseq: int, again: seq<(int, Wish)>)
    requires Listed(s)
    ensures DistinctSerials(s.expects + Additions(aseq, again, s.nextExpect))
  {
  }

  /** What a generic response does to the list, from any state with distinct expectations. */
  lemma {:induction false} GenericStep(s: State, aseq: int, command: int, ok: bool, again: seq<(int, Wish)>,
      finish: Option<int>)
    requires Listed(s)
    ensures var k := FindAseq(s.expects, aseq);
            StepGeneric(s, aseq, command, ok, again, finish).expects
              == if k == |s.expects| then s.expects
                 else Without(s.expects, k) + if s.expects[k].command == command && s.expects[k].wish.Callback?
                                              then Additions(aseq, again, s.nextExpect) else []
  {
    AdditionsDistinct(s, aseq, again);
    if FindAseq(s.expects, aseq) < |s.expects| {
      ConsumesExactlyOldest(s.expects, aseq, command, Additions(aseq, again, s.nextExpect));
    }
    hide Complete, TokenOf, Without, FindAseq, Additions;
  }

  ghost predicate Below(q: seq<Expect>, bound: nat) {
    forall i :: 0 <= i < |q| ==> q[i].serial < bound
  }

  lemma {:induction false} WithoutDistinct(q: seq<Expect>, added: seq<Expect>, k: nat, bound: nat)
    requires DistinctSerials(q + added) && Below(q + added, bound) && k < |q|
    ensures DistinctSerials(Without(q, k) + added) && Below(Without(q, k) + added, bound)
  {
    var a, r := q + added, Without(q, k) + added;
    assert forall i :: 0 <= i < |r| ==> r[i] == a[if i < k then i else i + 1];
  }

  lemma {:induction false} GenericRegistered(s: State, aseq: int, command: int, ok: bool, again: seq<(int, Wish)>,
      finish: Option<int>)
    requires Listed(s)
    ensures Listed(StepGeneric(s, aseq, command, ok, again, finish))
  {
    GenericStep(s, aseq, command, ok, again, finish);
    AdditionsDistinct(s, aseq, again);
    var k, bound := FindAseq(s.expects, aseq), s.nextExpect + |again|;
    assert StepGeneric(s, aseq, command, ok, again, finish).nextExpect == bound;
    assert s.expects + [] == s.expects;
    if k < |s.expects| {
      WithoutDistinct(s.expects, Additions(aseq, again, s.nextExpect), k, bound);
      WithoutDistinct(s.expects, [], k, bound);
    }
    hide StepGeneric, DistinctSerials, Without, FindAseq;
  }

  lemma {:induction false} StepRegistered(s: State, op: Op)
    requires Listed(s)
    ensures Listed(Step(s, op))
  {
    if op.Generic? { GenericRegistered(s, op.aseq, op.command, op.ok, op.again, op.finish); }
    hide StepQueue, StepGeneric, Drain;
  }

  lemma {:induction false} RunRegistered(s: State, ops: seq<Op>)
    requires Listed(s)
    ensures Listed(Run(s, ops))
    decreases |ops|
  {
    if |ops| > 0 {
      StepRegistered(s, ops[0]);
      hide Listed, Step;
      RunRegistered(Step(s, ops[0]), ops[1..]);
    }
  }

  /** In every run a generic response takes exactly the oldest expectation of its number off the list. */
  lemma {:induction false} GenericConsumesOldest(s0: State, ops: seq<Op>, aseq: int, command: int, ok: bool,
      again: seq<(int, Wish)>, finish: Option<int>)
    requires Initial(s0)
    ensures var s := Run(s0, ops);
            var k := FindAseq(s.expects, aseq);
            Step(s, Generic(aseq, command, ok, again, finish)).expects
              == if k == |s.expects| then s.expects
                 else Without(s.expects, k) + if s.expects[k].command == command && s.expects[k].wish.Callback?
                                              then Additions(aseq, again, s.nextExpect) else []
  {
    RunRegistered(s0, ops);
    GenericStep(Run(s0, ops), aseq, command, ok, again, finish);
    hide StepGeneric, Run, Listed;
  }

  /** What was taken was taken once and is not listed any more. */
  ghost predicate Consumed(taken: seq<nat>, q: seq<Expect>, next: nat) {
    && (forall i, j :: 0 <= i < j < |taken| ==> taken[i] != taken[j])
    && (forall i :: 0 <= i < |taken| ==> taken[i] < next)
    && (forall i, j :: 0 <= i < |taken| && 0 <= j < |q| ==> taken[i] != q[j].serial)
  }

  lemma {:induction false} TakeOne(taken: seq<nat>, q: seq<Expect>, next: nat, k: nat, added: seq<Expect>)
    requires Consumed(taken, q, next) && DistinctSerials(q) && Below(q, next) && k < |q|
    requires forall i :: 0 <= i < |added| ==> added[i].serial >= next
    ensures Consumed(taken + [q[k].serial], Without(q, k) + added, next + |added|)
  {
    var t, r := taken + [q[k].serial], Without(q, k);
    forall i, j | 0 <= i < |t| && 0 <= j < |r| ensures t[i] != r[j].serial {
      assert r[j] == q[if j < k then j else j + 1];
    }
  }

  lemma {:induction false} ConsumedLater(taken: seq<nat>, q: seq<Expect>, next: nat, later: nat)
    requires Consumed(taken, q, next) && next <= later
    ensures Consumed(taken, q, later)
  {
  }

  lemma {:induction false} GenericConsumed(s: State, aseq: int, command: int, ok: bool, again: seq<(int, Wish)>,
      finish: Option<int>)
    requires Listed(s) && Consumed(s.taken, s.expects, s.nextExpect)
    ensures var t := StepGeneric(s, aseq, command, ok, again, finish); Consumed(t.taken, t.expects, t.nextExpect)
  {
    var k, t := FindAseq(s.expects, aseq), StepGeneric(s, aseq, command, ok, again, finish);
    GenericStep(s, aseq, command, ok, again, finish);
    assert t.nextExpect == s.nextExpect + |again|;
    assert t.taken == if k == |s.expects| then s.taken else s.taken + [s.expects[k].serial];
    hide StepGeneric, DistinctSerials, Without, FindAseq, Below;
    if k < |s.expects| {
      var added := if s.expects[k].command == command && s.expects[k].wish.Callback?
                   then Additions(aseq, again, s.nextExpect) else [];
      TakeOne(s.taken, s.expects, s.nextExpect, k, added);
      assert t.expects == Without(s.expects, k) + added;
      hide Additions;
      ConsumedLater(t.taken, t.expects, s.nextExpect + |added|, t.nextExpect);
    } else {
      ConsumedLater(s.taken, s.expects, s.nextExpect, t.nextExpect);
    }
  }

  lemma {:induction false} StepConsumed(s: State, op: Op)
    requires Listed(s) && Consumed(s.taken, s.expects, s.nextExpect)
    ensures var t := Step(s, op); Consumed(t.taken, t.expects, t.nextExpect)
  {
    if op.Generic? { GenericConsumed(s, op.aseq, op.command, op.ok, op.again, op.finish); }
    hide StepQueue, StepGeneric, Drain;
  }

  lemma {:induction false} RunConsumed(s: State, ops: seq<Op>)
    requires Listed(s) && Consumed(s.taken, s.expects, s.nextExpect)
    ensures var t := Run(s, ops); Listed(t) && Consumed(t.taken, t.expects, t.nextExpect)
    decreases |ops|
  {
    if |ops| > 0 {
      StepRegistered(s, ops[0]);
      StepConsumed(s, ops[0]);
      hide Listed, Step, Consumed;
      RunConsumed(Step(s, ops[0]), ops[1..]);
    }
  }

  /** A response takes the oldest expectation of its number and reports what that asks for. */
  ghost predicate Reported(s: State, t: State, aseq: int, command: int, ok: bool, finish: Option<int>) {
    var k, token := FindAseq(s.expects, aseq), TokenOf(s.q, aseq);
    var error := if k == |s.expects| then None else Completes(s.expects[k], command, ok, finish);
    && t.taken == (if k == |s.expects| then s.taken else s.taken + [s.expects[k].serial])
    && t.q.upstream
       == s.q.upstream + if error.None? || token == NO_TOKEN then [] else [Completion(token, error.value)]
  }

  lemma {:induction false} GenericReports(s: State, aseq: int, command: int, ok: bool, again: seq<(int, Wish)>,
      finish: Option<int>)
    ensures Reported(s, StepGeneric(s, aseq, command, ok, again, finish), aseq, command, ok, finish)
  {
    hide AfterResponse, TokenOf, Complete, Additions, FindAseq;
    var k, token := FindAseq(s.expects, aseq), TokenOf(s.q, aseq);
    if k < |s.expects| {
      var error := Completes(s.expects[k], command, ok, finish);
      if error.Some? { CompleteReports(s.q, token, error.value); }
    }
  }

  /**
   In every run each expectation is taken by one generic response at most, and none that was taken is
   listed again. A response takes the oldest of its number, if there is one, and then reports exactly one
   completion, or none, as that expectation asks: always, only on failure, or as its callback decides. The
   request completed is the live one that the number stands for. So an expectation completes at most once.
   */
  lemma {:induction false} TakenOnce(s0: State, ops: seq<Op>, aseq: int, command: int, ok: bool,
      again: seq<(int, Wish)>, finish: Option<int>)
    requires Initial(s0)
    ensures var s := Run(s0, ops);
            && (forall i, j :: 0 <= i < j < |s.taken| ==> s.taken[i] != s.taken[j])
            && (forall i, j :: 0 <= i < |s.taken| && 0 <= j < |s.expects| ==> s.taken[i] != s.expects[j].serial)
            && Reported(s, Step(s, Generic(aseq, command, ok, again, finish)), aseq, command, ok, finish)
            && (TokenOf(s.q, aseq) == NO_TOKEN || FindRequest(s.q.requests, TokenOf(s.q, aseq)) < |s.q.requests|)
  {
    var s := Run(s0, ops);
    RunConsumed(s0, ops);
    InitialGood(s0);
    RunGood(s0, ops);
    TokenIsLive(s.q, aseq);
    GenericReports(s, aseq, command, ok, again, finish);
    hide Run, Listed, TokenOf, Good, Reported, StepGeneric;
  }

  lemma {:induction false} CompleteReports(q: Queue, token: int, error: int)
    ensures Complete(q, token, error).upstream
         == q.upstream + if token == NO_TOKEN then [] else [Completion(token, error)]
  {
  }

  // ----- a number for two requests

  lemma {:induction false} DrawMany(s: State, n: nat)
    requires s.q.fmt.Some? && WellNumbered(s.q.fmt.value)
    ensures var f := s.q.fmt.value;
            Run(s, seq(n, _ => DrawNumber)) ==
                s.(q := s.q.(fmt := Some(f.(seqno := Nth(f.draws + n), draws := f.draws + n))))
    decreases n
  {
    var f := s.q.fmt.value;
    if n > 0 {
      DrawKeeps(f);
      var t := Step(s, DrawNumber);
      assert seq(n, _ => DrawNumber) == [DrawNumber] + seq(n - 1, _ => DrawNumber);
      Unfold(s, DrawNumber, seq(n - 1, _ => DrawNumber));
      assert t.q.fmt == Some(Draw(f));
      hide Step, WellNumbered, Nth;
      DrawMany(t, n - 1);
    }
  }

  /** A request arrives, is dispatched and asks for its number. */
  function Taken(kind: int, token: int): seq<Op> {
    [OnRequest(kind, token), Dispatch(Attempt(None, RHandled)), Number(token)]
  }

  /**
   A run that gives two requests in flight one number: 253 numbers are drawn between theirs. The answer to
   the second request then completes the first.
   */
  lemma {:induction false} SharedNumber(s0: State, kind: int, error: int)
    requires Initial(s0) && Untested(kind)
    ensures var s := Run(s0, [Radio(RADIO_SIM_READY)] + Taken(kind, 1) + seq(253, _ => DrawNumber) + Taken(kind, 2));
            && s.q.requests == [Request(0, kind, 1, Handled), Request(1, kind, 2, Handled)]
            && s.q.fmt == Some(Fmt([FmtRequest(kind, 1, 1, 1), FmtRequest(kind, 2, 1, 255)], 1, 255))
            && Shadowed(s.q.fmt.value, 1)
            && Step(s, Answer(1, error)).q.upstream == s.q.upstream + [Completion(1, error)]
  {
    var r := Step(s0, Radio(RADIO_SIM_READY));
    assert r == s0.(radio := RADIO_SIM_READY);
    hide Step, Run, Taken, Untested, Shadowed, WellNumbered;
    FirstTaken(r, kind);
    var a := Run(r, Taken(kind, 1));
    DrawnBetween(a, kind);
    var b := Run(a, seq(253, _ => DrawNumber));
    assert Alone(b, kind);
    SecondTaken(b, kind);
    AnsweredFirst(Run(b, Taken(kind, 2)), kind, error);
    RunParts(s0, kind);
  }

  lemma {:induction false} DrawnBetween(s: State, kind: int)
    requires s.q.fmt == Some(Fmt([FmtRequest(kind, 1, 1, 1)], 1, 1))
    ensures Run(s, seq(253, _ => DrawNumber))
         == s.(q := s.q.(fmt := Some(Fmt([FmtRequest(kind, 1, 1, 1)], 254, 254))))
  {
    DrawMany(s, 253);
    assert Nth(254) == 254;
    hide Run;
  }

  lemma {:induction false} RunParts(s: State, kind: int)
    ensures var draws := seq(253, _ => DrawNumber);
            Run(s, [Radio(RADIO_SIM_READY)] + Taken(kind, 1) + draws + Taken(kind, 2))
              == Run(Run(Run(Step(s, Radio(RADIO_SIM_READY)), Taken(kind, 1)), draws), Taken(kind, 2))
  {
    var draws, r := seq(253, _ => DrawNumber), Step(s, Radio(RADIO_SIM_READY));
    hide Step, Run, Taken;
    Unfold(s, Radio(RADIO_SIM_READY), Taken(kind, 1) + draws + Taken(kind, 2));
    assert [Radio(RADIO_SIM_READY)] + Taken(kind, 1) + draws + Taken(kind, 2)
        == [Radio(RADIO_SIM_READY)] + (Taken(kind, 1) + draws + Taken(kind, 2));
    RunConcat(r, Taken(kind, 1) + draws, Taken(kind, 2));
    RunConcat(r, Taken(kind, 1), draws);
  }

  lemma {:induction false} RunTaken(s: State, kind: int, token: int)
    ensures Run(s, Taken(kind, token))
         == Step(Step(Step(s, OnRequest(kind, token)), Dispatch(Attempt(None, RHandled))), Number(token))
  {
    hide Step;
    var go := Dispatch(Attempt(None, RHandled));
    assert Taken(kind, token) == [OnRequest(kind, token)] + ([go] + ([Number(token)] + []));
    Unfold(s, OnRequest(kind, token), [go] + ([Number(token)] + []));
    var a := Step(s, OnRequest(kind, token));
    Unfold(a, go, [Number(token)] + []);
    Unfold(Step(a, go), Number(token), []);
  }

  lemma {:induction false} Arrived(s: State, kind: int, token: int)
    requires FindRequest(s.q.requests, token) == |s.q.requests|
    ensures Step(s, OnRequest(kind, token)) == s.(q := Enqueue(s.q, kind, token))
  {
  }

  lemma {:induction false} NumberAsked(s: State, token: int)
    requires s.q.fmt.Some?
    ensures Step(s, Number(token)) == s.(q := s.q.(fmt := Some(RequestSeq(s.q.fmt.value, token).0)))
  {
  }

  ghost predicate Alone(s: State, kind: int) {
    && s.radio == RADIO_SIM_READY && s.q.requests == [Request(0, kind, 1, Handled)] && |s.q.arrivals| == 1
    && s.q.fmt.Some?
  }

  lemma {:induction false} FirstGone(s: State, kind: int)
    requires s.radio == RADIO_SIM_READY && Untested(kind)
    requires |s.q.requests| == |s.q.arrivals| == 0 && s.q.fmt == Some(Fmt([], 0, 0))
    ensures var t := Step(Step(s, OnRequest(kind, 1)), Dispatch(Attempt(None, RHandled)));
            Alone(t, kind) && t.q.fmt == Some(FmtNumbers.Registered(Fmt([], 0, 0), kind, 1))
  {
    assert FindRequest(s.q.requests, 1) == |s.q.requests|;
    Arrived(s, kind, 1);
    var a := Step(s, OnRequest(kind, 1));
    assert a.q.requests == [Request(0, kind, 1, Pending)];
    hide Untested, Step;
    FirstDispatched(a, kind);
  }

  lemma {:induction false} FirstTaken(s: State, kind: int)
    requires s.radio == RADIO_SIM_READY && Untested(kind)
    requires |s.q.requests| == |s.q.arrivals| == 0 && s.q.fmt == Some(Fmt([], 0, 0))
    ensures var t := Run(s, Taken(kind, 1)); Alone(t, kind) && t.q.fmt == Some(Fmt([FmtRequest(kind, 1, 1, 1)], 1, 1))
  {
    hide Untested, Step, Run, Taken, RequestSeq, FmtNumbers.Registered;
    FirstGone(s, kind);
    NumberAsked(Step(Step(s, OnRequest(kind, 1)), Dispatch(Attempt(None, RHandled))), 1);
    NumberNew([], kind, 1, 0, 0);
    assert [] + [FmtRequest(kind, 1, 1, 1)] == [FmtRequest(kind, 1, 1, 1)];
    RunTaken(s, kind, 1);
  }

  lemma {:induction false} SecondGone(s: State, kind: int)
    requires Alone(s, kind) && Untested(kind)
    ensures var t := Step(Step(s, OnRequest(kind, 2)), Dispatch(Attempt(None, RHandled)));
            && t.q.requests == [Request(0, kind, 1, Handled), Request(1, kind, 2, Handled)]
            && t.q.fmt == Some(FmtNumbers.Registered(s.q.fmt.value, kind, 2))
  {
    assert FindRequest(s.q.requests, 2) == |s.q.requests|;
    Arrived(s, kind, 2);
    var a := Step(s, OnRequest(kind, 2));
    assert a.q.requests == [Request(0, kind, 1, Handled), Request(1, kind, 2, Pending)];
    hide Untested, Step;
    SecondDispatched(a, kind);
  }

  lemma {:induction false} SecondTaken(s: State, kind: int)
    requires Alone(s, kind) && Untested(kind) && s.q.fmt == Some(Fmt([FmtRequest(kind, 1, 1, 1)], 254, 254))
    ensures var t := Run(s, Taken(kind, 2));
            && t.q.requests == [Request(0, kind, 1, Handled), Request(1, kind, 2, Handled)]
            && t.q.fmt == Some(Fmt([FmtRequest(kind, 1, 1, 1), FmtRequest(kind, 2, 1, 255)], 1, 255))
  {
    hide Untested, Step, Run, Taken, RequestSeq, FmtNumbers.Registered, Alone;
    var one := [FmtRequest(kind, 1, 1, 1)];
    SecondGone(s, kind);
    NumberAsked(Step(Step(s, OnRequest(kind, 2)), Dispatch(Attempt(None, RHandled))), 2);
    NumberNew(one, kind, 2, 254, 254);
    assert one + [FmtRequest(kind, 2, 1, 255)] == [FmtRequest(kind, 1, 1, 1), FmtRequest(kind, 2, 1, 255)];
    RunTaken(s, kind, 2);
  }

  lemma {:induction false} AnsweredFirst(s: State, kind: int, error: int)
    requires s.q.fmt == Some(Fmt([FmtRequest(kind, 1, 1, 1), FmtRequest(kind, 2, 1, 255)], 1, 255))
    ensures Shadowed(s.q.fmt.value, 1)
    ensures Step(s, Answer(1, error)).q.upstream == s.q.upstream + [Completion(1, error)]
  {
    var f := s.q.fmt.value;
    assert f.requests[0].seqno == 1;
    assert FindSeq(f.requests, 1) == 0;
    CompleteReports(s.q, 1, error);
    hide Complete;
  }

  lemma {:induction false} RunConcat(s: State, a: seq<Op>, b: seq<Op>)
    ensures Run(s, a + b) == Run(Run(s, a), b)
    decreases |a|
  {
    hide Step;
    if |a| == 0 {
      assert a + b == b;
    } else {
      assert (a + b)[1..] == a[1..] + b;
      RunConcat(Step(s, a[0]), a[1..], b);
    }
  }
}
