/**
 The queue of Samsung-RIL as the code updates it, and the loops over it: a scheduler pass and the fall
 of the radio to UNAVAILABLE. A pass that starts its search for a PENDING request from the head every
 time is proved to be a single sweep over the queue.
 */
module DispatchLoop {
  import opened Common
  import opened FmtNumbers
  import opened RequestQueue
  import opened Scheduler
  import opened ListHead
  import opened DispatchFates
  import opened DispatchSweep

  // ----- the code

  class Ril {
    var radio: int
    const requests: List<Request>
    var fmt: FmtClient?                 // null once the client is destroyed
    var next: nat                       // stands for the address of the next request
    ghost var q: Queue

    ghost function Repr(): set<object>
      reads this`fmt, requests`nodes, (if fmt == null then {} else {fmt.list})`nodes
    {
      {this, requests} + (set n | n in requests.nodes) +
      if fmt == null then {} else {fmt, fmt.list} + (set n | n in fmt.list.nodes)
    }

    /** The two linked lists show the queue and the client's mirror of it. */
    ghost predicate Valid()
      reads this`fmt, this`next, this`q, requests, requests.nodes
      reads fmt, if fmt == null then {} else {fmt.list}, if fmt == null then [] else fmt.list.nodes
    {
      && requests.Valid() && requests.contents == q.requests && next == |q.arrivals|
      && (fmt == null <==> q.fmt.None?) && (fmt != null ==> fmt.Valid() && fmt.View() == q.fmt.value)
    }

    /** The node stands at position k of the queue, null past its end. */
    ghost predicate Points(node: Node?<Request>, k: nat)
      reads this`q, requests`nodes, requests.nodes`data
    {
      && |requests.nodes| == |q.requests| && k <= |q.requests| && node == At(requests.nodes, k)
      && (node == null <==> k == |q.requests|) && (node != null ==> node.data == q.requests[k])
    }

    constructor ()
      ensures Valid() && Good(q) && |q.arrivals| == 0 && radio == RADIO_UNAVAILABLE && fmt != null
    {
      radio, next := RADIO_UNAVAILABLE, 0;
      requests := new List<Request>();
      fmt := new FmtClient();
      q := Queue([], [], Some(Fmt([], 0, 0)), [], [], []);
      new;
      assert Serials([]) == {} && Members([]) == {} && UpTo(0) == {};
    }

    /** `ril_request_find_token`. */
    method Find(token: int) returns (node: Node?<Request>, ghost k: nat)
      requires Valid()
      ensures Points(node, k) && k == FindRequest(q.requests, token) && (node == null <==> k == |q.requests|)
    {
      node, k := requests.Find((r: Request) => r.token == token);
    }

    /** `ril_request_find_status`. */
    method FindWith(status: Status) returns (node: Node?<Request>, ghost k: nat)
      requires Valid()
      ensures Points(node, k) && k == FindStatus(q.requests, status) && (node == null <==> k == |q.requests|)
    {
      node, k := requests.Find((r: Request) => r.status == status);
    }

    /**
     `ril_request_unregister` on a listed request: from the clients by kind and token, from the queue by
     address. `t` is the queue without it, with what is told to libril.
     */
    method Unlist(node: Node<Request>, ghost k: nat, ghost t: Queue)
      requires Valid() && Points(node, k)
      requires SameLists(Unregister(q, k), t)
      modifies Repr()
      ensures Valid() && q == t && Repr() <= old(Repr())
      ensures radio == old(radio) && fmt == old(fmt)
    {
      hide List.Valid, WellNumbered, UnregisterEntry;
      var r := node.data;
      if fmt != null {
        fmt.Unregister(r.kind, r.token);
      }
      requests.Unlink(node, k);
      q := t;
    }

    /**
     `ril_request_complete`: a queued request is unlisted from both lists and reported, so that its token
     is not found again; with a NULL token nothing is reported.
     */
    method RequestComplete(token: int, error: int)
      requires Valid()
      modifies Repr()
      ensures Valid() && q == Complete(old(q), token, error) && Repr() <= old(Repr())
      ensures radio == old(radio) && fmt == old(fmt)
      ensures Completed(old(q), q, token, error)
      ensures Good(old(q)) && token != NO_TOKEN ==> FindRequest(q.requests, token) == |q.requests|
      ensures token == NO_TOKEN ==> unchanged(requests) && unchanged(requests.nodes)
    {
      ghost var t := Complete(q, token, error);
      CompletedLists(q, token, error);
      CompleteFate(q, token, error);
      if Good(q) && token != NO_TOKEN { CompletedIsGone(q, token, error); }
      assert |q.requests| == |requests.contents|;
      hide List.Valid, FmtClient.Valid, Complete, Completed, Unregister, SameLists, Good, FindRequest, Points;
      if token == NO_TOKEN {
        return;
      }
      var node; ghost var k;
      node, k := Find(token);
      if node == null {
        q := t;
      } else {
        Unlist(node, k, t);
      }
    }

    /** A queued request with the token, if there is one, is dropped. */
    method DropToken(token: int)
      requires Valid()
      modifies Repr()
      ensures Valid() && q == Dropped(old(q), token) && Repr() <= old(Repr())
      ensures radio == old(radio) && fmt == old(fmt)
    {
      hide List.Valid, WellNumbered, UnregisterEntry, FindRequest;
      var node; ghost var k;
      node, k := Find(token);
      if node != null {
        Unlist(node, k, Drop(q, k));
      }
    }

    /**
     `ril_on_request`: a queued request with the same token is dropped, then the new one is appended to both lists.
     */
    method OnRequest(kind: int, token: int)
      requires Valid() && Good(q)
      modifies Repr()
      ensures Valid() && Good(q) && q == StepOnRequest(old(q), kind, token) && Joined(old(q), q, kind, token)
      ensures radio == old(radio) && fmt == old(fmt)
    {
      OnRequestGood(q, kind, token);
      GoneBefore(q, token);
      ArrivalFate(q, kind, token);
      hide List.Valid, WellNumbered, Good, FindRequest, Dropped, Joined;
      DropToken(token);
      Enlist(kind, token);
    }

    /** `ril_request_register`, for a token that neither list holds. */
    method Enlist(kind: int, token: int)
      requires Valid() && (q.fmt.Some? ==> FindToken(q.fmt.value.requests, token) == |q.fmt.value.requests|)
      modifies Repr()
      ensures Valid() && q == Enqueue(old(q), kind, token) && radio == old(radio) && fmt == old(fmt)
      ensures forall i :: 0 <= i < |requests.nodes| ==>
          requests.nodes[i] in old(requests.nodes) || fresh(requests.nodes[i])
      ensures fmt != null ==> forall i :: 0 <= i < |fmt.list.nodes| ==>
                fmt.list.nodes[i] in old(fmt.list.nodes) || fresh(fmt.list.nodes[i])
    {
      hide List.Valid, FmtClient.Valid, FindToken;
      requests.Append(Request(next, kind, token, Pending));
      if fmt != null {
        fmt.Register(kind, token);
      }
      next, q := next + 1, Enqueue(q, kind, token);
    }

    /** `ril_on_cancel`. */
    method OnCancel(token: int)
      requires Valid() && Good(q)
      modifies Repr()
      ensures Valid() && Good(q) && q == StepQueue(radio, old(q), Scheduler.OnCancel(token))
      ensures Forgotten(old(q), q, token)
      ensures radio == old(radio) && Repr() <= old(Repr())
    {
      StepQueueGood(radio, q, Scheduler.OnCancel(token));
      DropFate(q, token);
      hide List.Valid, WellNumbered, UnregisterEntry, Good, Dropped, Forgotten;
      DropToken(token);
    }

    /** The status of a listed request is written. */
    method WriteStatus(node: Node<Request>, ghost k: nat, status: Status)
      requires Valid() && Points(node, k)
      modifies Repr()
      ensures Valid() && q == SetStatus(old(q), k, status) && Repr() == old(Repr())
      ensures radio == old(radio) && fmt == old(fmt)
    {
      hide List.Valid, FmtClient.Valid;
      requests.Update(node, k, node.data.(status := status));
      q := SetStatus(q, k, status);
    }

    /**
     `ril_request_dispatch` with what follows when it returns an error. A handler is given the request only
     once: afterwards it is in flight, put off, or gone, and it is in flight only if its test found none.
     */
    method RequestDispatch(node: Node<Request>, ghost k: nat, a: Attempt)
      requires Valid() && Good(q) && Points(node, k)
      modifies Repr()
      ensures Valid() && Good(q) && q == DispatchAt(radio, old(q), k, a) && Repr() <= old(Repr())
      ensures radio == old(radio) && fmt == old(fmt)
      ensures var r := old(q).requests[k];
              r.token != NO_TOKEN ==> Meets(old(q), q, k, Due(radio, r.kind, Busy(old(q).requests, r.kind), a))
    {
      DispatchGood(radio, q, k, a);
      if q.requests[k].token != NO_TOKEN { DispatchFate(radio, q, k, a); }
      hide *;
      GiveToHandler(node, k, a);
    }

    method GiveToHandler(node: Node<Request>, ghost k: nat, a: Attempt)
      requires Valid() && Points(node, k)
      modifies Repr()
      ensures Valid() && q == DispatchAt(radio, old(q), k, a) && Repr() <= old(Repr())
      ensures radio == old(radio) && fmt == old(fmt)
    {
      assert node.data == q.requests[k];
      hide Valid, Repr, Points, Good, Complete, Applied, SUPPORTED, Handle, Completed;
      if node.data.kind !in SUPPORTED {
        RequestComplete(node.data.token, E_REQUEST_NOT_SUPPORTED);
      } else {
        var result := Ask(node.data.kind, a);
        Apply(node, k, result);
      }
    }

    /** What becomes of the request when its handler has returned. */
    method Apply(node: Node<Request>, ghost k: nat, result: Result)
      requires Valid() && Points(node, k)
      modifies Repr()
      ensures Valid() && q == Applied(old(q), k, result) && Repr() <= old(Repr())
      ensures radio == old(radio) && fmt == old(fmt)
    {
      assert node.data == q.requests[k] && SameLists(Unregister(q, k), Drop(q, k));
      hide Valid, Repr, Points, Complete, SetStatus, Unregister, SameLists, Drop;
      match result {
        case RHandled => WriteStatus(node, k, Handled);
        case RUnhandled => WriteStatus(node, k, Unhandled);
        case RCompleted(error) => RequestComplete(node.data.token, error);
        case RFailed => Unlist(node, k, Drop(q, k));
      }
    }

    /** The handler, with its walk over the queue for requests in flight: what it comes to is what is due. */
    method Ask(kind: int, a: Attempt) returns (result: Result)
      requires Valid()
      ensures result == Handle(radio, q.requests, kind, a)
      ensures kind in SUPPORTED ==> FateOf(result) == Due(radio, kind, Busy(q.requests, kind), a)
    {
      if kind in SUPPORTED { HandleFate(radio, q.requests, kind, a); }
      hide Due, SUPPORTED, AWAITING;
      if a.early.Some? && !a.early.value.RHandled? {
        return a.early.value;
      }
      if !RadioReady(radio, kind) {
        return NotReady(kind);
      }
      var tests := Tests(kind);
      var node; ghost var k;
      node, k := requests.Find((r: Request) => r.status == Handled && r.kind in tests);
      assert node != null <==> Busy(q.requests, kind);
      if node != null {
        return RUnhandled;
      }
      result := if a.late.RHandled? && kind !in AWAITING then RCompleted(E_SUCCESS) else a.late;
    }

    /** The first loop of a pass: UNHANDLED requests get another chance. */
    method RetryUnhandled()
      requires Valid()
      modifies Repr()
      ensures Valid() && q == old(q).(requests := Reset(old(q).requests)) && Repr() <= old(Repr())
      ensures radio == old(radio) && fmt == old(fmt)
    {
      hide Valid, Repr, Points;
      ghost var q0 := q;
      var node; ghost var k;
      node, k := FindWith(Unhandled);
      while node != null
        invariant Valid() && radio == old(radio) && fmt == old(fmt) && Repr() <= old(Repr())
        invariant Points(node, k) && k == FindStatus(q.requests, Unhandled) && (node == null <==> k == |q.requests|)
        invariant q == q0.(requests := q.requests) && Retried(q0.requests, q.requests, k)
        decreases |q0.requests| - k
      {
        WriteStatus(node, k, Pending);
        ghost var m := k;
        node, k := FindWith(Unhandled);
        assert k > m;
      }
    }

    /** One iteration of the second loop, on the PENDING request found first. */
    method DispatchFirst(node: Node<Request>, ghost k: nat, attempts: Attempts, n: nat) returns (serial: nat)
      requires Valid() && Good(q) && NonNull(q.requests) && Points(node, k) && k == FindStatus(q.requests, Pending)
      modifies Repr()
      ensures Valid() && Good(q) && NonNull(q.requests) && radio == old(radio) && fmt == old(fmt) &&
          Repr() <= old(Repr())
      ensures Sweep(radio, q, 0, n + 1, attempts) == Sweep(radio, old(q), 0, n, attempts)
      ensures PendingSerials(old(q).requests) == [serial] + PendingSerials(q.requests)
    {
      SweepRestarts(radio, q, n, attempts);
      PendingAfter(radio, q, attempts(n));
      DispatchKept(radio, q, k, attempts(n));
      hide List.Valid, FmtClient.Valid, DispatchAt, Good, Kept, NonNull, Sweep, PendingSerials;
      serial := node.data.serial;
      RequestDispatch(node, k, attempts(n));
    }

    /** The second loop of a pass. */
    method DispatchPending(attempts: Attempts) returns (dispatched: seq<nat>)
      requires Valid() && Good(q) && NonNull(q.requests)
      modifies Repr()
      ensures Valid() && Good(q) && radio == old(radio) && fmt == old(fmt) && Repr() <= old(Repr())
      ensures q == Sweep(radio, old(q), 0, 0, attempts)
      ensures dispatched == PendingSerials(old(q).requests)
    {
      hide Valid, Repr, Points, Good, NonNull, Sweep, PendingSerials, FindStatus;
      dispatched := [];
      var node; ghost var k;
      node, k := FindWith(Pending);
      while node != null
        invariant Valid() && Good(q) && NonNull(q.requests)
        invariant radio == old(radio) && fmt == old(fmt) && Repr() <= old(Repr())
        invariant Points(node, k) && k == FindStatus(q.requests, Pending) && (node == null <==> k == |q.requests|)
        invariant Sweep(radio, q, 0, |dispatched|, attempts) == Sweep(radio, old(q), 0, 0, attempts)
        invariant PendingSerials(old(q).requests) == dispatched + PendingSerials(q.requests)
        decreases |PendingSerials(q.requests)|
      {
        var serial := DispatchFirst(node, k, attempts, |dispatched|);
        dispatched := dispatched + [serial];
        node, k := FindWith(Pending);
      }
      SweepDone(radio, q, |dispatched|, attempts);
    }

    /**
     One pass of `ril_request_loop`. Every PENDING or UNHANDLED request is dispatched exactly once, in
     arrival order; the outcome is that of one sweep, none is PENDING at the end, and those that were
     HANDLED are untouched. Each one dispatched meets the fate that is due. With the radio unavailable nothing
     happens.
     */
    method Pass(attempts: Attempts) returns (dispatched: seq<nat>)
      requires Valid() && Good(q) && NonNull(q.requests)
      modifies Repr()
      ensures Valid() && Good(q) && radio == old(radio)
      ensures radio == RADIO_UNAVAILABLE ==> q == old(q) && |dispatched| == 0
      ensures radio != RADIO_UNAVAILABLE ==>
                && q == Sweep(radio, old(q).(requests := Reset(old(q).requests)), 0, 0, attempts)
                && dispatched == PendingSerials(Reset(old(q).requests))
                && NonePending(q.requests, |q.requests|)
                && Kept(old(q).requests, q.requests)
                && AllFates(radio, old(q).(requests := Reset(old(q).requests)), q, 0, attempts)
    {
      hide Valid, Repr, Good, Kept, NonNull, Sweep, PendingSerials, AllFates, Grown;
      dispatched := [];
      if radio == RADIO_UNAVAILABLE {
        return;
      }
      ghost var before := q.requests;
      ResetGood(q);
      ResetKept(before);
      RetryUnhandled();
      ghost var q0 := q;
      SweepEffect(radio, q0, 0, attempts);
      SweepFates(radio, q0, 0, attempts);
      dispatched := DispatchPending(attempts);
      KeptTransitive(before, q0.requests, q.requests);
    }

    /** The loop of `ril_radio_state_update` on the change to UNAVAILABLE, over `ril_request_find`. */
    method CompleteAll()
      requires Valid() && Good(q)
      modifies Repr()
      ensures Valid() && Good(q) && q == Drain(old(q)) && |q.requests| == 0
      ensures q.upstream == old(q).upstream + Reports(old(q).requests) && radio == old(radio)
      ensures fmt == old(fmt) && Repr() <= old(Repr())
    {
      DrainGood(q);
      DrainReports(q);
      hide FmtClient.Valid, Good, Reports, Complete, Unregister;
      var node := requests.head;
      while node != null
        invariant Valid() && node == requests.head && radio == old(radio) && fmt == old(fmt) && Repr() <= old(Repr())
        invariant Drain(q) == Drain(old(q))
        decreases |q.requests|
      {
        assert Points(node, 0);
        DrainsOne(q);
        CompleteFirst(node);
        node := requests.head;
      }
    }

    /** `ipc_fmt_flush` on a client whose requests are all gone, for its list and counter. */
    method FlushFmt()
      requires Valid() && Good(q) && |q.requests| == 0
      modifies Repr()
      ensures Valid() && Good(q) && q == old(q).(fmt := if old(q).fmt.Some? then Some(Fmt([], 0, 0)) else None)
      ensures radio == old(radio) && fmt == old(fmt)
    {
      FlushGood(q);
      hide List.Valid, Good;
      if fmt != null {
        fmt.Flush();
        q := q.(fmt := Some(Fmt([], 0, 0)));
      }
    }

    /** One iteration: the oldest request is completed and, if that did not unlist it, unregistered. */
    method CompleteFirst(node: Node<Request>)
      requires Valid() && Points(node, 0)
      modifies Repr()
      ensures Valid() && q == DrainOne(old(q)) && Repr() <= old(Repr()) && radio == old(radio) && fmt == old(fmt)
    {
      hide List.Valid, FmtClient.Valid, Unregister;
      var token := node.data.token;
      assert FindRequest(q.requests, token) == 0;
      RequestComplete(token, E_RADIO_NOT_AVAILABLE);
      if token == NO_TOKEN {
        Unlist(node, 0, Drop(q, 0));
      }
    }
  }

  /** The first k requests have had their other chance. */
  ghost predicate Retried(before: seq<Request>, after: seq<Request>, k: nat) {
    && |after| == |before|
    && forall i :: 0 <= i < |after| ==>
         after[i] == if i < k && before[i].status == Unhandled then before[i].(status := Pending) else before[i]
  }

  /** One step of draining the queue. */
  ghost function DrainOne(q: Queue): Queue
    requires |q.requests| > 0
  {
    if q.requests[0].token == NO_TOKEN then Drop(q, 0) else Finish(q, 0, E_RADIO_NOT_AVAILABLE)
  }

  lemma {:induction false} DrainsOne(q: Queue)
    requires |q.requests| > 0
    ensures Drain(q) == Drain(DrainOne(q)) && |DrainOne(q).requests| == |q.requests| - 1
  {
  }

  /** What libril was told, and what was dropped, does not show in the lists. */
  ghost predicate SameLists(q: Queue, t: Queue) {
    t == q.(upstream := t.upstream, done := t.done, dropped := t.dropped)
  }

  lemma {:induction false} CompletedLists(q: Queue, token: int, error: int)
    ensures var t, k := Complete(q, token, error), FindRequest(q.requests, token);
            && (token == NO_TOKEN ==> t == q)
            && (token != NO_TOKEN ==>
                  if k < |q.requests| then SameLists(Unregister(q, k), t) else t == q.(upstream := t.upstream))
  {
  }

  /** After a completion the token is not queued. */
  lemma {:induction false} CompletedIsGone(q: Queue, token: int, error: int)
    requires Good(q) && token != NO_TOKEN
    ensures var t := Complete(q, token, error).requests; FindRequest(t, token) == |t|
  {
  }

  /** Once a token is off the queue it is off the client's list too. */
  lemma {:induction false} GoneBefore(q: Queue, token: int)
    requires Good(q)
    ensures var t := Dropped(q, token); t.fmt.Some? ==> FindToken(t.fmt.value.requests, token) == |t.fmt.value.requests|
  {
    var k := FindRequest(q.requests, token);
    if k < |q.requests| { DropGood(q, k); }
    assert Mirrored(Dropped(q, token));
  }

  lemma {:induction false} SweepDone(radio: int, q: Queue, n: nat, attempts: Attempts)
    requires FindStatus(q.requests, Pending) == |q.requests|
    ensures Sweep(radio, q, 0, n, attempts) == q && |PendingSerials(q.requests)| == 0
  {
    SweepSkips(radio, q, 0, n, attempts, |q.requests|);
    NonePendingIffEmpty(q.requests);
  }

  lemma {:induction false} ResetKept(q: seq<Request>)
    ensures Kept(q, Reset(q)) && (NonNull(q) ==> NonNull(Reset(q)))
  {
    var r := Reset(q);
    forall x | x in q && x.status == Handled ensures x in r {
      var i :| 0 <= i < |q| && q[i] == x;
      assert r[i] == x;
    }
    forall y | y in r ensures exists x :: x in q && x.(status := y.status) == y {
      var i :| 0 <= i < |r| && r[i] == y;
      assert q[i] in q && q[i].(status := y.status) == y;
    }
  }
}
