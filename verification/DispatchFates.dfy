/**
 What becomes of a request that is dispatched: by its kind, the state of the radio, the requests in flight and
 its handler. Each outcome is stated on everything that shows: queue, reports and drops. What runs keep of
 arrivals, expectations and request data follows.
 */
module DispatchFates {
  import opened Common
  import opened FmtNumbers
  import opened RequestQueue
  import opened GenericResponse
  import Store = RequestStore
  import opened Scheduler

  datatype Fate = InFlight | PutOff | Answered(error: int) | Refused

  ghost function FateOf(r: Result): Fate {
    match r
    case RHandled => InFlight
    case RUnhandled => PutOff
    case RCompleted(error) => Answered(error)
    case RFailed => Refused
  }

  /**
   A kind without a handler is refused with an error. A handler that takes an early way out decides itself.
   One that finds the radio not ready puts its request off, but for three kinds, which are answered at once;
   so does one that finds a request in flight that it tests for. Otherwise the request is sent, if its kind
   sends anything, or the handler fails.
   */
  ghost function Due(radio: int, kind: int, busy: bool, a: Attempt): Fate {
    if kind !in SUPPORTED then Answered(E_REQUEST_NOT_SUPPORTED)
    else if a.early.Some? && !a.early.value.RHandled? then FateOf(a.early.value)
    else if !RadioReady(radio, kind) then
      if kind == 27 then Answered(E_NOT_ALLOWED_BEFORE_REG)
      else if kind == 9 || kind == 57 then Answered(E_SUCCESS) else PutOff
    else if busy then PutOff
    else if a.late.RHandled? && kind !in AWAITING then Answered(E_SUCCESS)
    else FateOf(a.late)
  }

  /** The order of the radio states: OFF, ON, SIM_NOT_READY, SIM_LOCKED, SIM_READY. */
  lemma Ranks()
    ensures Rank(0) == 1 && Rank(10) == 2 && Rank(2) == 5 && Rank(3) == 6 && Rank(4) == 7
  {
    var r := RADIO_STATES;
    assert r[0] == 1 && r[1] == 0 && r[2] == 10 && r[3] == 8 && r[4] == 9 && r[5] == 2 && r[6] == 3 && r[7] == 4;
  }

  lemma NeedsDiffer(kind: int)
    ensures !(kind in NEEDS_SIM && kind in NEEDS_NOTHING)
  {
  }

  /** Which of these states the handlers wait for. */
  lemma RadioTable(kind: int)
    ensures RadioReady(4, kind)
    ensures RadioReady(2, kind) <==> kind !in NEEDS_SIM
    ensures RadioReady(3, kind) <==> kind !in NEEDS_SIM
    ensures RadioReady(0, kind) <==> kind in NEEDS_NOTHING
    ensures RadioReady(10, kind) <==> kind in NEEDS_NOTHING
  {
    hide NEEDS_SIM, NEEDS_NOTHING;
    NeedsDiffer(kind);
    Ranks();
    hide Rank;
  }

  /** The request at position k is still there, with this status, and nothing else has changed. */
  ghost predicate Becomes(q: Queue, t: Queue, k: nat, status: Status)
    requires k < |q.requests|
  {
    && |t.requests| == |q.requests| && t.requests[k] == q.requests[k].(status := status)
    && (forall i :: 0 <= i < |q.requests| && i != k ==> t.requests[i] == q.requests[i])
    && t.upstream == q.upstream && t.done == q.done && t.dropped == q.dropped && t.arrivals == q.arrivals
    && t.fmt == q.fmt
  }

  /** The request at position k is gone, and libril has been told this of it, or nothing. */
  ghost predicate Leaves(q: Queue, t: Queue, k: nat, error: Option<int>)
    requires k < |q.requests|
  {
    var r := q.requests[k];
    && t.requests == q.requests[..k] + q.requests[k + 1..] && t.arrivals == q.arrivals
    && (if error.Some?
        then t.upstream == q.upstream + [Completion(r.token, error.value)] && t.done == q.done + [r.serial]
             && t.dropped == q.dropped
        else t.upstream == q.upstream && t.done == q.done && t.dropped == q.dropped + [r.serial])
  }

  ghost predicate Meets(q: Queue, t: Queue, k: nat, f: Fate)
    requires k < |q.requests|
  {
    match f
    case InFlight => Becomes(q, t, k, Handled)
    case PutOff => Becomes(q, t, k, Unhandled)
    case Answered(error) => Leaves(q, t, k, Some(error))
    case Refused => Leaves(q, t, k, None)
  }

  lemma {:induction false} HandleFate(radio: int, q: seq<Request>, kind: int, a: Attempt)
    requires kind in SUPPORTED
    ensures FateOf(Handle(radio, q, kind, a)) == Due(radio, kind, Busy(q, kind), a)
  {
    hide SUPPORTED, AWAITING, RadioReady, Busy;
  }

  lemma {:induction false} AppliedFate(q: Queue, k: nat, result: Result)
    requires UniqueTokens(q.requests) && k < |q.requests| && q.requests[k].token != NO_TOKEN
    ensures Meets(q, Applied(q, k, result), k, FateOf(result))
  {
    assert FindRequest(q.requests, q.requests[k].token) == k;
    hide UnregisterEntry, FindRequest, UniqueTokens;
  }

  /** A request meets the fate that is due, whatever its handler does. */
  lemma {:induction false} DispatchFate(radio: int, q: Queue, k: nat, a: Attempt)
    requires UniqueTokens(q.requests) && k < |q.requests| && q.requests[k].token != NO_TOKEN
    ensures var r := q.requests[k];
            Meets(q, DispatchAt(radio, q, k, a), k, Due(radio, r.kind, Busy(q.requests, r.kind), a))
  {
    hide SUPPORTED, AWAITING, RadioReady, Busy, Handle, Applied, Meets, UniqueTokens, Complete;
    var kind := q.requests[k].kind;
    if kind in SUPPORTED {
      HandleFate(radio, q.requests, kind, a);
      AppliedFate(q, k, Handle(radio, q.requests, kind, a));
    } else {
      AppliedFate(q, k, RCompleted(E_REQUEST_NOT_SUPPORTED));
      UnsupportedDue(radio, q, k, a);
    }
  }

  lemma {:induction false} UnsupportedDue(radio: int, q: Queue, k: nat, a: Attempt)
    requires k < |q.requests| && q.requests[k].kind !in SUPPORTED
    ensures DispatchAt(radio, q, k, a) == Applied(q, k, RCompleted(E_REQUEST_NOT_SUPPORTED))
    ensures Due(radio, q.requests[k].kind, Busy(q.requests, q.requests[k].kind), a)
            == FateOf(RCompleted(E_REQUEST_NOT_SUPPORTED))
  {
    hide SUPPORTED, Busy, Complete;
  }

  /**
   One that finds a request in flight that its handler tests for stays where it is in the queue and is put
   off: nothing is reported, nothing dropped, and the next pass tries it again.
   */
  lemma {:induction false} BusyIsPutOff(s: State, a: Attempt, i: nat)
    requires Good(s.q) && s.radio != RADIO_UNAVAILABLE && i < |s.q.requests|
    requires var k := FindStatus(s.q.requests, Pending);
             && k < |s.q.requests| && s.q.requests[k].token != NO_TOKEN && s.q.requests[k].kind in SUPPORTED
             && RadioReady(s.radio, s.q.requests[k].kind)
             && s.q.requests[i].status == Handled && s.q.requests[i].kind in Tests(s.q.requests[k].kind)
    requires a.early.None? || a.early.value.RHandled?
    ensures var k, t := FindStatus(s.q.requests, Pending), Step(s, Dispatch(a));
            && t == s.(q := t.q) && Becomes(s.q, t.q, k, Unhandled)
            && var u := Step(t, ResetUnhandled); k < |u.q.requests| && u.q.requests[k] == s.q.requests[k]
  {
    hide SUPPORTED, AWAITING, RadioReady, Tests, DispatchAt, UniqueTokens, Accounted, Authentic, SingleFlight,
      SameEntries, WellNumbered;
    var k := FindStatus(s.q.requests, Pending);
    assert Busy(s.q.requests, s.q.requests[k].kind);
    assert UniqueTokens(s.q.requests);
    hide Good, Busy, Mirrored;
    DispatchFate(s.radio, s.q, k, a);
    assert Step(s, Dispatch(a)) == s.(q := DispatchAt(s.radio, s.q, k, a));
  }

  // ----- other steps of the queue

  /** Completing: the request of the token leaves with that error; one not queued is reported all the same. */
  ghost predicate Completed(q: Queue, t: Queue, token: int, error: int) {
    var k := FindRequest(q.requests, token);
    if token == NO_TOKEN then t == q
    else if k < |q.requests| then Leaves(q, t, k, Some(error))
    else t.requests == q.requests && t.upstream == q.upstream + [Completion(token, error)] && t.dropped == q.dropped
  }

  lemma {:induction false} CompleteFate(q: Queue, token: int, error: int)
    ensures Completed(q, Complete(q, token, error), token, error)
  {
    hide UnregisterEntry, FindRequest;
  }

  /** Dropping: the request of the token leaves without a report. */
  ghost predicate Forgotten(q: Queue, t: Queue, token: int) {
    var k := FindRequest(q.requests, token);
    && (if k < |q.requests| then Leaves(q, t, k, None) else t == q)
    && forall i :: 0 <= i < |t.requests| ==> t.requests[i].token != token
  }

  lemma {:induction false} DropFate(q: Queue, token: int)
    requires UniqueTokens(q.requests)
    ensures Forgotten(q, Dropped(q, token), token)
  {
    hide UnregisterEntry;
  }

  /** Arriving: after any request with its token is dropped, the new one is the last, and PENDING. */
  ghost predicate Joined(q: Queue, t: Queue, kind: int, token: int) {
    var k := FindRequest(q.requests, token);
    && t.requests == (if k < |q.requests| then q.requests[..k] + q.requests[k + 1..] else q.requests)
                     + [Request(|q.arrivals|, kind, token, Pending)]
    && t.arrivals == q.arrivals + [Arrival(kind, token)] && t.upstream == q.upstream && t.done == q.done
    && t.dropped == q.dropped + if k < |q.requests| then [q.requests[k].serial] else []
  }

  lemma {:induction false} ArrivalFate(q: Queue, kind: int, token: int)
    ensures Joined(q, StepOnRequest(q, kind, token), kind, token)
  {
    hide UnregisterEntry, FindRequest;
  }

  /** An answer completes the first request that its number was given to, and nothing if there is none. */
  lemma {:induction false} AnswerFate(radio: int, q: Queue, aseq: int, error: int)
    requires Good(q) && forall i :: 0 <= i < |q.requests| ==> q.requests[i].token != NO_TOKEN
    ensures var t := StepQueue(radio, q, Answer(aseq, error));
            if q.fmt.Some? && FindSeq(q.fmt.value.requests, aseq) < |q.requests|
            then Leaves(q, t, FindSeq(q.fmt.value.requests, aseq), Some(error)) else t == q
  {
    hide UnregisterEntry, WellNumbered, Accounted, Authentic, SingleFlight;
    if q.fmt.Some? && FindSeq(q.fmt.value.requests, aseq) < |q.requests| {
      var k := FindSeq(q.fmt.value.requests, aseq);
      assert FindRequest(q.requests, q.requests[k].token) == k;
    }
  }

  /** A message for a kind completes the first request of it that is in flight, and nothing if there is none. */
  lemma {:induction false} InFlightFate(radio: int, q: Queue, kind: int, error: int)
    requires Good(q) && forall i :: 0 <= i < |q.requests| ==> q.requests[i].token != NO_TOKEN
    ensures var t, k := StepQueue(radio, q, CompleteInFlight(kind, error)), FindInFlight(q.requests, kind);
            if k < |q.requests|
            then q.requests[k].kind == kind && q.requests[k].status == Handled && Leaves(q, t, k, Some(error))
            else t == q && forall i :: 0 <= i < |q.requests| && q.requests[i].kind == kind ==>
                              q.requests[i].status != Handled
  {
    hide UnregisterEntry, WellNumbered, Accounted, Authentic, SingleFlight, SameEntries;
    var k := FindInFlight(q.requests, kind);
    if k < |q.requests| { assert FindRequest(q.requests, q.requests[k].token) == k; }
  }

  /** The requests that a run hands over, in order. */
  ghost function Arrivals(ops: seq<Op>): seq<Arrival> {
    if |ops| == 0 then []
    else (if ops[0].OnRequest? then [Arrival(ops[0].kind, ops[0].token)] else []) + Arrivals(ops[1..])
  }

  lemma {:induction false} CompleteArrivals(q: Queue, token: int, error: int)
    ensures Complete(q, token, error).arrivals == q.arrivals
  {
  }

  lemma {:induction false} DrainArrivals(q: Queue)
    ensures Drain(q).arrivals == q.arrivals
    decreases |q.requests|
  {
    if |q.requests| > 0 {
      DrainArrivals(if q.requests[0].token == NO_TOKEN then Drop(q, 0) else Finish(q, 0, E_RADIO_NOT_AVAILABLE));
    }
  }

  lemma {:induction false} DispatchArrivals(radio: int, q: Queue, k: nat, a: Attempt)
    requires k < |q.requests|
    ensures DispatchAt(radio, q, k, a).arrivals == q.arrivals
  {
    hide Handle, SUPPORTED, Complete;
    var r := Handle(radio, q.requests, q.requests[k].kind, a);
    CompleteArrivals(q, q.requests[k].token, E_REQUEST_NOT_SUPPORTED);
    if r.RCompleted? { CompleteArrivals(q, q.requests[k].token, r.error); }
  }

  lemma {:induction false} StepQueueArrivals(radio: int, q: Queue, op: Op)
    ensures StepQueue(radio, q, op).arrivals == q.arrivals + Arrivals([op])
  {
    hide Complete, DispatchAt, UnregisterEntry, FindRequest, StepOnRequest;
    assert [op][1..] == [];
    match op
    case OnRequest(kind, token) => ArrivalFate(q, kind, token);
    case Dispatch(a) =>
      var k := FindStatus(q.requests, Pending);
      if k < |q.requests| { DispatchArrivals(radio, q, k, a); }
    case Answer(aseq, error) => CompleteArrivals(q, TokenOf(q, aseq), error);
    case CompleteInFlight(kind, error) =>
      var k := FindInFlight(q.requests, kind);
      if k < |q.requests| { CompleteArrivals(q, q.requests[k].token, error); }
    case _ =>
  }

  lemma {:induction false} StepArrivals(s: State, op: Op)
    ensures Step(s, op).q.arrivals == s.q.arrivals + Arrivals([op])
  {
    hide StepQueue, Complete, Drain, TokenOf, AfterResponse;
    StepQueueArrivals(s.radio, s.q, op);
    if op.Generic? {
      GenericQueue(s, op.aseq, op.command, op.ok, op.again, op.finish);
      var k := FindAseq(s.expects, op.aseq);
      if k < |s.expects| {
        var error := Scheduler.Completes(s.expects[k], op.command, op.ok, op.finish);
        if error.Some? { CompleteArrivals(s.q, TokenOf(s.q, op.aseq), error.value); }
      }
      hide StepGeneric;
    }
    DrainArrivals(s.q);
  }

  /** In every run the requests accounted for are exactly those that were handed over, in that order. */
  lemma {:induction false} ArrivalsAsHanded(s: State, ops: seq<Op>)
    ensures Run(s, ops).q.arrivals == s.q.arrivals + Arrivals(ops)
    decreases |ops|
  {
    if |ops| > 0 {
      StepArrivals(s, ops[0]);
      assert Arrivals([ops[0]]) + Arrivals(ops[1..]) == Arrivals(ops) by { assert [ops[0]][1..] == []; }
      hide Step, Arrivals;
      ArrivalsAsHanded(Step(s, ops[0]), ops[1..]);
    }
  }

  /** In every run a registration lists one expectation more, last, under an identity never listed or taken before. */
  lemma {:induction false} NewExpectation(s0: State, ops: seq<Op>, aseq: int, command: int, wish: Wish)
    requires Initial(s0)
    ensures var s := Run(s0, ops);
            var t, e := Step(s, Want(aseq, command, wish)), Expect(s.nextExpect, aseq, command, wish);
            && t.expects == s.expects + [e] && t.q == s.q && t.taken == s.taken
            && (forall i :: 0 <= i < |s.expects| ==> s.expects[i].serial != e.serial)
            && e.serial !in s.taken
  {
    RunConsumed(s0, ops);
    hide Run;
  }

  // ----- the other parts of the state

  /** What a run does to the request data: what is asked for, and a flush at each fall of the radio. */
  ghost function StoreOps(s: State, ops: seq<Op>): seq<Store.Op>
    decreases |ops|
  {
    if |ops| == 0 then []
    else
      var op := ops[0];
      (if op.Data? then [op.op]
       else if op.Radio? && op.state == RADIO_UNAVAILABLE && s.radio != RADIO_UNAVAILABLE then [Store.DoFlush]
       else []) + StoreOps(Step(s, op), ops[1..])
  }

  lemma {:induction false} StepStore(s: State, op: Op)
    ensures Step(s, op).store ==
              if op.Data? then Store.Step(s.store, op.op)
              else if op.Radio? && op.state == RADIO_UNAVAILABLE && s.radio != RADIO_UNAVAILABLE then []
              else s.store
  {
    hide StepQueue, Complete, Drain, TokenOf, AfterResponse;
  }

  /** In every run the request data are what these operations on an empty store leave. */
  lemma {:induction false} StoreAsAsked(s: State, ops: seq<Op>)
    ensures Run(s, ops).store == Store.Run(s.store, StoreOps(s, ops))
    decreases |ops|
  {
    if |ops| > 0 {
      StepStore(s, ops[0]);
      var rest := StoreOps(Step(s, ops[0]), ops[1..]);
      assert forall o :: ([o] + rest)[1..] == rest;
      assert [] + rest == rest;
      hide Step, Store.Step;
      StoreAsAsked(Step(s, ops[0]), ops[1..]);
    }
  }

  /** So in every run of the daemon the handler of GET_SIM_STATUS finds nothing left at its second get. */
  lemma {:induction false} NothingLeft(s0: State, ops: seq<Op>)
    requires Initial(s0) && Store.OnlyUniq(StoreOps(s0, ops), Store.GET_SIM_STATUS)
    ensures var store := Run(s0, ops).store;
            && |Store.Fifo(store, Store.GET_SIM_STATUS)| <= 1
            && Store.Get(Store.Get(store, Store.GET_SIM_STATUS).0, Store.GET_SIM_STATUS).1 == None
  {
    StoreAsAsked(s0, ops);
    assert s0.store == [];
    Store.AtMostOne([], StoreOps(s0, ops), Store.GET_SIM_STATUS);
    Store.SecondGetFindsNothing(StoreOps(s0, ops));
    hide Run, Store.Run, Store.Get, StoreOps;
  }

  lemma {:induction false} NoClientAgain(s: State, ops: seq<Op>)
    requires s.q.fmt.None?
    ensures Run(s, ops).q.fmt.None?
    decreases |ops|
  {
    if |ops| > 0 {
      StepNoClient(s, ops[0]);
      hide Step;
      NoClientAgain(Step(s, ops[0]), ops[1..]);
    }
  }

  lemma {:induction false} CompleteNoClient(q: Queue, token: int, error: int)
    ensures Complete(q, token, error).fmt.None? <==> q.fmt.None?
  {
  }

  lemma {:induction false} StepNoClient(s: State, op: Op)
    requires s.q.fmt.None?
    ensures Step(s, op).q.fmt.None?
  {
    hide Complete, Drain, Handle, AfterResponse;
    DrainReports(s.q);
    forall token, error ensures Complete(s.q, token, error).fmt.None? {
      CompleteNoClient(s.q, token, error);
    }
  }

  /**
   When the FMT client gives up, expectations are forgotten, and in every continuation no number stands for a
   request: no answer completes one any more.
   */
  lemma {:induction false} DestroyIsFinal(s: State, ops: seq<Op>, aseq: int, error: int)
    ensures var t := Step(s, Destroy); |t.expects| == 0 && t.q == s.q.(fmt := None)
    ensures var t := Run(Step(s, Destroy), ops);
            t.q.fmt.None? && TokenOf(t.q, aseq) == NO_TOKEN && Step(t, Answer(aseq, error)) == t
  {
    NoClientAgain(Step(s, Destroy), ops);
    hide Run;
  }
}
