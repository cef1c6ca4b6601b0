/**
 The request queue of Samsung-RIL together with the FMT client's mirror of it, as values: the
 elementary changes that every step of the daemon is made of, and what each of them keeps.
 */
module RequestQueue {
  import opened Common
  import opened FmtNumbers

  datatype Status = Pending | Handled | Unhandled

  /** `serial` stands for the address of the request; requests are numbered in the order they arrive. */
  datatype Request = Request(serial: nat, kind: int, token: int, status: Status)

  /** What libril handed over. */
  datatype Arrival = Arrival(kind: int, token: int)

  /** A call of OnRequestComplete. */
  datatype Completion = Completion(token: int, error: int)

  datatype Queue = Queue(
    arrivals: seq<Arrival>,         // requests that ever arrived; a serial is a place here
    requests: seq<Request>,         // ril_data->requests
    fmt: Option<Fmt>,               // the FMT client's data, None once the client is destroyed
    upstream: seq<Completion>,      // completions reported to libril
    done: seq<nat>,                 // the requests they were for
    dropped: seq<nat>)              // requests unregistered without a completion

  function FindRequest(q: seq<Request>, token: int): (k: nat)
    ensures k <= |q| && (k < |q| ==> q[k].token == token)
    ensures forall i :: 0 <= i < k ==> q[i].token != token
  {
    FindFirst(q, (x: Request) => x.token == token)
  }

  function FindStatus(q: seq<Request>, status: Status): (k: nat)
    ensures k <= |q| && (k < |q| ==> q[k].status == status)
    ensures forall i :: 0 <= i < k ==> q[i].status != status
  {
    FindFirst(q, (x: Request) => x.status == status)
  }

  /** `ril_request_unregister`: from the clients by kind and token, from the queue by address. */
  function Unregister(q: Queue, k: nat): Queue
    requires k < |q.requests|
  {
    var r := q.requests[k];
    q.(requests := Without(q.requests, k),
       fmt := if q.fmt.Some? then Some(UnregisterEntry(q.fmt.value, r.kind, r.token)) else None)
  }

  /** Unregistering without telling libril. */
  function Drop(q: Queue, k: nat): Queue
    requires k < |q.requests|
  {
    Unregister(q, k).(dropped := q.dropped + [q.requests[k].serial])
  }

  /** Unregistering and telling libril. */
  function Finish(q: Queue, k: nat, error: int): Queue
    requires k < |q.requests|
  {
    Unregister(q, k).(upstream := q.upstream + [Completion(q.requests[k].token, error)],
                      done := q.done + [q.requests[k].serial])
  }

  /** `ril_request_complete`: libril is told even when the token is not in the queue, unless it is NULL. */
  function Complete(q: Queue, token: int, error: int): Queue {
    if token == NO_TOKEN then q else
      var k := FindRequest(q.requests, token);
      if k == |q.requests| then q.(upstream := q.upstream + [Completion(token, error)])
      else Finish(q, k, error)
  }

  /** `ril_request_register`. */
  function Enqueue(q: Queue, kind: int, token: int): Queue {
    q.(arrivals := q.arrivals + [Arrival(kind, token)],
       requests := q.requests + [Request(|q.arrivals|, kind, token, Pending)],
       fmt := if q.fmt.Some? then Some(FmtNumbers.Registered(q.fmt.value, kind, token)) else None)
  }

  function SetStatus(q: Queue, k: nat, status: Status): Queue
    requires k < |q.requests|
  {
    q.(requests := q.requests[k := q.requests[k].(status := status)])
  }

  // ----- accounting: every request that arrived is in exactly one place

  ghost function Serials(q: seq<Request>): set<nat> {
    set i | 0 <= i < |q| :: q[i].serial
  }

  ghost function Members(q: seq<nat>): set<nat> {
    set i | 0 <= i < |q| :: q[i]
  }

  ghost function UpTo(n: nat): (r: set<nat>)
    ensures forall x: nat :: x in r <==> x < n
  {
    if n == 0 then {} else UpTo(n - 1) + {n - 1}
  }

  ghost predicate NoDup(q: seq<nat>) {
    forall i, j :: 0 <= i < j < |q| ==> q[i] != q[j]
  }

  ghost predicate Increasing(q: seq<Request>) {
    forall i, j :: 0 <= i < j < |q| ==> q[i].serial < q[j].serial
  }

  /**
   Queued, completed and dropped requests are apart, none is there twice, together they are all that
   ever arrived, and there is one report to libril for each completed one; the queue is in arrival order.
   */
  ghost predicate Accounted(q: Queue) {
    && Increasing(q.requests) && NoDup(q.done) && NoDup(q.dropped)
    && Serials(q.requests) !! Members(q.done) !! Members(q.dropped)
    && Serials(q.requests) + Members(q.done) + Members(q.dropped) == UpTo(|q.arrivals|)
    && |q.upstream| == |q.done|
  }

  /** Queued requests are what arrived under their serials, and each report carries the token of its request. */
  ghost predicate Authentic(q: Queue) {
    && (forall i :: 0 <= i < |q.requests| ==>
          q.requests[i].serial < |q.arrivals| &&
              q.arrivals[q.requests[i].serial] == Arrival(q.requests[i].kind, q.requests[i].token))
    && |q.upstream| == |q.done|
    && (forall i :: 0 <= i < |q.done| ==>
          q.done[i] < |q.arrivals| && q.upstream[i].token == q.arrivals[q.done[i]].token)
  }

  lemma {:induction false} UnregisterAuthentic(q: Queue, k: nat)
    requires Authentic(q) && k < |q.requests|
    ensures Authentic(Unregister(q, k))
    ensures q.requests[k].serial < |q.arrivals| && q.arrivals[q.requests[k].serial].token == q.requests[k].token
  {
    hide UnregisterEntry;
  }

  lemma {:induction false} EnqueueAuthentic(q: Queue, kind: int, token: int)
    requires Authentic(q)
    ensures Authentic(Enqueue(q, kind, token))
  {
  }

  lemma {:induction false} SerialsWithout(q: seq<Request>, k: nat)
    requires Increasing(q) && k < |q|
    ensures Increasing(Without(q, k)) && Serials(Without(q, k)) == Serials(q) - {q[k].serial} &&
        q[k].serial in Serials(q)
  {
    var r := Without(q, k);
    forall x | x in Serials(q) - {q[k].serial} ensures x in Serials(r) {
      var i :| 0 <= i < |q| && q[i].serial == x;
      assert r[if i < k then i else i - 1] == q[i];
    }
  }

  lemma {:induction false} MembersAppend(q: seq<nat>, x: nat)
    ensures Members(q + [x]) == Members(q) + {x}
    ensures NoDup(q) && x !in Members(q) ==> NoDup(q + [x])
  {
    var r := q + [x];
    assert forall i :: 0 <= i < |q| ==> r[i] == q[i] && q[i] in Members(q);
    assert r[|q|] == x;
  }

  lemma {:induction false} DropAccounted(q: Queue, k: nat)
    requires Accounted(q) && k < |q.requests|
    ensures Accounted(Drop(q, k))
  {
    SerialsWithout(q.requests, k);
    MembersAppend(q.dropped, q.requests[k].serial);
    hide Serials, Members, UpTo, NoDup, Increasing, UnregisterEntry;
  }

  lemma {:induction false} FinishAccounted(q: Queue, k: nat, error: int)
    requires Accounted(q) && k < |q.requests|
    ensures Accounted(Finish(q, k, error))
  {
    SerialsWithout(q.requests, k);
    MembersAppend(q.done, q.requests[k].serial);
    hide Serials, Members, UpTo, NoDup, Increasing, UnregisterEntry;
  }

  lemma {:induction false} EnqueueAccounted(q: Queue, kind: int, token: int)
    requires Accounted(q)
    ensures Accounted(Enqueue(q, kind, token))
  {
    var t := Enqueue(q, kind, token);
    assert forall i :: 0 <= i < |q.requests| ==> q.requests[i].serial in UpTo(|q.arrivals|) by {
      assert forall i :: 0 <= i < |q.requests| ==> q.requests[i].serial in Serials(q.requests);
    }
    assert Serials(t.requests) == Serials(q.requests) + {|q.arrivals|} by {
      assert forall i :: 0 <= i < |q.requests| ==> t.requests[i] == q.requests[i];
      assert t.requests[|q.requests|].serial == |q.arrivals|;
    }
    assert UpTo(|t.arrivals|) == UpTo(|q.arrivals|) + {|q.arrivals|};
    assert |q.arrivals| !in UpTo(|q.arrivals|) && Members(t.done) == Members(q.done) &&
        Members(t.dropped) == Members(q.dropped);
    assert Increasing(t.requests);
    hide Serials, Members, UpTo, NoDup, Increasing;
  }

  lemma {:induction false} SetStatusAccounted(q: Queue, k: nat, status: Status)
    requires Accounted(q) && k < |q.requests|
    ensures Accounted(SetStatus(q, k, status))
  {
    var t := SetStatus(q, k, status);
    assert forall i :: 0 <= i < |q.requests| ==> t.requests[i].serial == q.requests[i].serial;
    assert Serials(t.requests) == Serials(q.requests);
    assert Increasing(t.requests);
    hide Serials, Members, UpTo, NoDup, Increasing;
  }

  // ----- the mirror

  ghost predicate UniqueTokens(q: seq<Request>) {
    forall i, j :: 0 <= i < j < |q| ==> q[i].token != q[j].token
  }

  /** The FMT client's list is the queue, entry by entry. */
  ghost predicate SameEntries(q: seq<Request>, f: seq<FmtRequest>) {
    |f| == |q| && forall i :: 0 <= i < |q| ==> f[i].kind == q[i].kind && f[i].token == q[i].token
  }

  ghost predicate Mirrored(q: Queue) {
    && UniqueTokens(q.requests)
    && (q.fmt.Some? ==> SameEntries(q.requests, q.fmt.value.requests) && WellNumbered(q.fmt.value))
  }

  lemma {:induction false} UnregisterMirrored(q: Queue, k: nat)
    requires Mirrored(q) && k < |q.requests|
    ensures Mirrored(Unregister(q, k))
  {
    if q.fmt.Some? {
      var f, r := q.fmt.value, q.requests[k];
      assert FindEntry(f.requests, r.kind, r.token) == k by {
        assert f.requests[k].kind == r.kind && f.requests[k].token == r.token;
        assert forall i :: 0 <= i < k ==> f.requests[i].token != r.token;
      }
      WithoutNumbered(f, k);
    }
    hide WellNumbered, FindEntry;
  }

  lemma {:induction false} EnqueueMirrored(q: Queue, kind: int, token: int)
    requires Mirrored(q) && FindRequest(q.requests, token) == |q.requests|
    ensures Mirrored(Enqueue(q, kind, token))
  {
    if q.fmt.Some? {
      var f := q.fmt.value;
      assert forall i :: 0 <= i < |f.requests| ==> f.requests[i].token != token;
      RegisterNumbered(f, kind, token);
    }
    hide WellNumbered;
  }

  lemma {:induction false} SetStatusMirrored(q: Queue, k: nat, status: Status)
    requires Mirrored(q) && k < |q.requests|
    ensures Mirrored(SetStatus(q, k, status))
  {
    hide WellNumbered;
  }

  // ----- single flight

  /** The kinds whose HANDLED requests make the handler of a kind put its own off. */
  function Tests(kind: int): set<int> {
    if kind in {24, 49, 50} then {24, 49, 50}            // DTMF, DTMF_START, DTMF_STOP
    else if kind == 7 then {6}                           // CHANGE_SIM_PIN2 looks for CHANGE_SIM_PIN
    else if kind == 26 then {25}                         // SEND_SMS_EXPECT_MORE shares the handler of SEND_SMS
    else if kind in SELF_TESTED then {kind}
    else {}
  }

  /**
   GET_SIM_STATUS, ENTER_SIM_PIN, _PUK, _PIN2, _PUK2, CHANGE_SIM_PIN, GET_IMSI, VOICE_ and
   DATA_REGISTRATION_STATE, OPERATOR, RADIO_POWER, SEND_SMS, SETUP_DATA_CALL, SIM_IO, GET_IMEI, GET_IMEISV,
   DEACTIVATE_DATA_CALL, SET_FACILITY_LOCK, QUERY_AVAILABLE_NETWORKS, BASEBAND_VERSION, OEM_HOOK_RAW.
   */
  const SELF_TESTED: set<int> := {1, 2, 3, 4, 5, 6, 11, 20, 21, 22, 23, 25, 27, 28, 38, 39, 41, 43, 48, 51, 59}

  predicate Busy(q: seq<Request>, kind: int) {
    exists i :: 0 <= i < |q| && q[i].status == Handled && q[i].kind in Tests(kind)
  }

  /** Kinds that each test for the other are never both in flight. */
  ghost predicate SingleFlight(q: seq<Request>) {
    forall i, j :: 0 <= i < j < |q| && q[i].status == Handled && q[j].status == Handled ==>
      !(q[i].kind in Tests(q[j].kind) && q[j].kind in Tests(q[i].kind))
  }

  lemma {:induction false} WithoutSingleFlight(q: seq<Request>, k: nat)
    requires SingleFlight(q) && k < |q|
    ensures SingleFlight(Without(q, k))
  {
    hide Tests;
  }

  lemma {:induction false} SetStatusSingleFlight(q: Queue, k: nat, status: Status)
    requires SingleFlight(q.requests) && k < |q.requests|
    requires status == Handled ==> !Busy(q.requests, q.requests[k].kind)
    ensures SingleFlight(SetStatus(q, k, status).requests)
  {
    var t, r := q.requests, SetStatus(q, k, status).requests;
    assert forall i :: 0 <= i < |t| ==> r[i].kind == t[i].kind && (i != k ==> r[i].status == t[i].status);
    hide Tests;
  }
}
