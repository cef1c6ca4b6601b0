/**
 What the data-call requests and the messages of the modem come to, seen on the connections and on what libril
 is told; and their code over the linked list of connections.
 */
module DataCalls {
  import opened Common
  import opened ListHead
  import opened DataConnections

  // ----- outcomes

  /** The request that a connection works for is queued and of this kind. */
  ghost predicate Asks(s: State, c: Connection, kind: DataKind) {
    c.token in s.live && s.live[c.token] == kind
  }

  ghost predicate Idle(s: State, c: Connection) {
    c.token !in s.live
  }

  /** libril is told this of the token, which is queued no more; without a result nothing is told. */
  ghost predicate Tells(s: State, t: State, token: int, success: Option<bool>) {
    if success.Some?
    then t.reports == s.reports + [Report(token, success.value, true)] && t.live == s.live - {token}
    else t.reports == s.reports && t.live == s.live
  }

  /** The connection at position k goes, or is replaced, and all others stay in their order. */
  ghost predicate Goes(s: State, t: State, k: nat)
    requires k < |s.conns|
  {
    t.conns == s.conns[..k] + s.conns[k + 1..]
  }

  /** A set-up that is sent leaves a new connection under the lowest free id; otherwise it fails at once. */
  ghost predicate SetupDone(s: State, t: State, count: nat, token: int, cid: nat, done: bool) {
    if done
    then
      && 1 <= cid <= count && !Taken(s.conns, cid) && (forall c :: 1 <= c < cid ==> Taken(s.conns, c))
      && t.conns == s.conns + [Connection(s.next, cid, false, token)] && Tells(s, t, token, None)
    else t.conns == s.conns && Tells(s, t, token, Some(false))
  }

  lemma {:induction false} SetupOutcome(s: State, count: nat, token: int, iface: bool, sent: bool)
    requires Inv(s, count) && token in s.live
    ensures SetupDone(s, Step(s, count, SetupCall(token, iface, sent)), count, token, LowestFree(s.conns, 1, count),
                      iface && sent && |s.conns| < count)
  {
    NoRoomIffFull(s.conns, count);
  }

  /** A deactivation that is sent is noted in its connection; if it cannot be, the connection goes and it fails. */
  ghost predicate DeactivateDone(s: State, t: State, token: int, cid: nat, sent: bool) {
    var k := FindCid(s.conns, cid);
    if k < |s.conns| && sent
    then t.conns == s.conns[k := s.conns[k].(token := token)] && Tells(s, t, token, None)
    else
      && (if k < |s.conns| then Goes(s, t, k) && !Taken(t.conns, cid) else t.conns == s.conns)
      && Tells(s, t, token, Some(false))
  }

  lemma {:induction false} DeactivateOutcome(s: State, count: nat, token: int, cid: nat, sent: bool)
    requires Inv(s, count) && token in s.live
    ensures DeactivateDone(s, Step(s, count, DeactivateCall(token, cid, sent)), token, cid, sent)
  {
    var k := FindCid(s.conns, cid);
    if k < |s.conns| { Found(s, count, k); }
    hide LowestFree;
  }

  /** A good answer to a context command changes nothing; a bad one, or one for no connection, fails the request. */
  ghost predicate ContextDone(s: State, t: State, token: int, ok: bool) {
    var k := FindToken(s.conns, token);
    if k < |s.conns| && ok then t == s
    else
      && (if k < |s.conns| then Goes(s, t, k) && !Taken(t.conns, s.conns[k].cid) else t.conns == s.conns)
      && Tells(s, t, token, Some(false))
  }

  lemma {:induction false} ContextOutcome(s: State, count: nat, token: int, ok: bool)
    requires Inv(s, count) && token in s.live
    ensures ContextDone(s, Step(s, count, ContextAnswer(token, ok)), token, ok)
  {
    var k := FindToken(s.conns, token);
    if k < |s.conns| { Found(s, count, k); }
    hide LowestFree;
  }

  /** A connection is found by its address, and once it is gone its id is free. */
  lemma {:induction false} Found(s: State, count: nat, k: nat)
    requires Inv(s, count) && k < |s.conns|
    ensures FindSerial(s.conns, s.conns[k].serial) == k && FindCid(s.conns, s.conns[k].cid) == k
    ensures !Taken(Without(s.conns, k), s.conns[k].cid)
  {
    var m, n := FindSerial(s.conns, s.conns[k].serial), FindCid(s.conns, s.conns[k].cid);
    assert m <= k && n <= k;
    assert forall i :: 0 <= i < |s.conns| - 1 ==> Without(s.conns, k)[i].cid != s.conns[k].cid;
  }

  /** Whether the call status message ends the connection. */
  ghost predicate Ending(s: State, c: Connection, status: Status, works: bool, sent: bool) {
    match status
    case Enabled =>
      if c.enabled then Asks(s, c, Deactivate) || (Idle(s, c) && !sent) else !works || (Idle(s, c) && !sent)
    case Disabled => c.enabled || Asks(s, c, Setup) || (Idle(s, c) && !sent)
    case Other => Idle(s, c) && !sent
  }

  /** What libril is told of the request of the connection, if anything. */
  ghost function Told(s: State, c: Connection, status: Status, works: bool): Option<bool> {
    if status.Enabled? && c.enabled && Asks(s, c, Deactivate) then Some(false)
    else if status.Enabled? && !c.enabled && !works && !Idle(s, c) then Some(false)
    else if status.Enabled? && !c.enabled && works && Asks(s, c, Setup) then Some(true)
    else if status.Disabled? && c.enabled && !works && !Idle(s, c) then Some(false)
    else if status.Disabled? && c.enabled && works && Asks(s, c, Deactivate) then Some(true)
    else if status.Disabled? && !c.enabled && Asks(s, c, Setup) then Some(true)
    else None
  }

  /**
   The message for a listed context id. The connection goes, or comes up, without its token if that was a
   set-up that is now done, or stays as it is; all others stay. Its request is told of at most once.
   */
  ghost predicate StatusDone(s: State, t: State, k: nat, status: Status, works: bool, sent: bool)
    requires k < |s.conns|
  {
    var c := s.conns[k];
    && (if Ending(s, c, status, works, sent) then Goes(s, t, k) && !Taken(t.conns, c.cid)
        else if status.Enabled? && !c.enabled
        then t.conns == s.conns[k := Connection(c.serial, c.cid, true, if Asks(s, c, Setup) then NO_TOKEN else c.token)]
        else t.conns == s.conns)
    && Tells(s, t, c.token, Told(s, c, status, works)) && t.next == s.next
  }

  lemma {:induction false} EnabledOutcome(s: State, k: nat, token: int, works: bool, sent: bool)
    requires k < |s.conns| && FindCid(s.conns, s.conns[k].cid) == k && FindSerial(s.conns, s.conns[k].serial) == k
    requires !Taken(Without(s.conns, k), s.conns[k].cid) && NO_TOKEN !in s.live
    ensures StatusDone(s, StepCallStatus(s, s.conns[k].cid, Enabled, token, works, sent), k, Enabled, works, sent)
  {
    hide FindCid, FindSerial, Taken;
  }

  lemma {:induction false} DisabledOutcome(s: State, k: nat, token: int, works: bool, sent: bool)
    requires k < |s.conns| && FindCid(s.conns, s.conns[k].cid) == k && FindSerial(s.conns, s.conns[k].serial) == k
    requires !Taken(Without(s.conns, k), s.conns[k].cid) && NO_TOKEN !in s.live
    ensures StatusDone(s, StepCallStatus(s, s.conns[k].cid, Disabled, token, works, sent), k, Disabled, works, sent)
  {
    hide FindCid, FindSerial, Taken;
  }

  lemma {:induction false} OtherOutcome(s: State, k: nat, token: int, works: bool, sent: bool)
    requires k < |s.conns| && FindCid(s.conns, s.conns[k].cid) == k && FindSerial(s.conns, s.conns[k].serial) == k
    requires !Taken(Without(s.conns, k), s.conns[k].cid) && NO_TOKEN !in s.live
    ensures StatusDone(s, StepCallStatus(s, s.conns[k].cid, Other, token, works, sent), k, Other, works, sent)
  {
    hide FindCid, FindSerial, Taken;
  }

  lemma {:induction false} StatusOutcome(s: State, count: nat, cid: nat, status: Status, token: int, works: bool,
      sent: bool)
    requires Inv(s, count) && FindCid(s.conns, cid) < |s.conns|
    ensures StatusDone(s, Step(s, count, CallStatus(cid, status, token, works, sent)), FindCid(s.conns, cid), status,
                       works, sent)
  {
    var k, number := FindCid(s.conns, cid), if token in s.live then token else NO_TOKEN;
    Found(s, count, k);
    hide Allotted, FindSerial, StepCallStatus, StatusDone, Taken;
    match status
    case Enabled => EnabledOutcome(s, k, number, works, sent);
    case Disabled => DisabledOutcome(s, k, number, works, sent);
    case Other => OtherOutcome(s, k, number, works, sent);
  }

  /** The message for an id that is not listed fails the request it answers, and changes no connection. */
  ghost predicate Stray(s: State, t: State, token: int) {
    t.conns == s.conns && Tells(s, t, token, if token in s.live then Some(false) else None)
  }

  lemma {:induction false} StrayStatus(s: State, count: nat, cid: nat, status: Status, token: int, works: bool,
      sent: bool)
    requires Inv(s, count) && FindCid(s.conns, cid) == |s.conns|
    ensures Stray(s, Step(s, count, CallStatus(cid, status, token, works, sent)), token)
  {
  }

  /**
   Success means what it says. For a deactivation the context id is free again. For a set-up the connection
   is up and waits for nothing, but for one case: the modem disabled it first, and then it is gone.
   */
  lemma {:induction false} SuccessMeans(s: State, count: nat, op: Op, token: int)
    requires Inv(s, count) && Step(s, count, op).reports == s.reports + [Report(token, true, true)]
    ensures var t := Step(s, count, op);
            && op.CallStatus? && token in s.live && token !in t.live
            && var k := FindCid(s.conns, op.cid);
               && k < |s.conns| && s.conns[k].token == token
               && (s.live[token] == Deactivate ==> !Taken(t.conns, op.cid))
               && (s.live[token] == Setup ==>
                     if op.status.Enabled? then k < |t.conns| &&
                         t.conns[k] == Connection(s.conns[k].serial, op.cid, true, NO_TOKEN)
                     else op.status.Disabled? && !s.conns[k].enabled && !Taken(t.conns, op.cid))
  {
    hide Allotted, FindSerial, LowestFree, StepCallStatus;
    var t := Step(s, count, op);
    assert t.reports[|s.reports|].success;
    if op.CallStatus? {
      if FindCid(s.conns, op.cid) < |s.conns| {
        StatusOutcome(s, count, op.cid, op.status, op.token, op.works, op.sent);
      } else {
        StrayStatus(s, count, op.cid, op.status, op.token, op.works, op.sent);
      }
    }
  }

  // ----- a call from set-up to the end

  /** From a request for a call to the connection that is up. */
  ghost function Raised(s: State, count: nat, token: int, sent: bool): State {
    var cid := LowestFree(s.conns, 1, count);
    var a := Step(Step(s, count, Arrive(token, Setup)), count, SetupCall(token, true, true));
    Step(Step(a, count, ContextAnswer(token, true)), count, CallStatus(cid, Enabled, token, true, sent))
  }

  lemma {:induction false} SetsUp(s: State, count: nat, token: int)
    requires Inv(s, count) && |s.conns| < count && token != NO_TOKEN && token !in s.live
    ensures var cid, n := LowestFree(s.conns, 1, count), |s.conns|;
            var b := Step(Step(s, count, Arrive(token, Setup)), count, SetupCall(token, true, true));
            && Inv(b, count) && !Taken(s.conns, cid)
            && b.conns == s.conns + [Connection(s.next, cid, false, token)] && FindCid(b.conns, cid) == n
            && b.live == s.live[token := Setup] && b.reports == s.reports
            && Step(b, count, ContextAnswer(token, true)) == b
  {
    var cid, n := LowestFree(s.conns, 1, count), |s.conns|;
    var a := Step(s, count, Arrive(token, Setup));
    var b := Step(a, count, SetupCall(token, true, true));
    StepInv(s, count, Arrive(token, Setup));
    StepInv(a, count, SetupCall(token, true, true));
    SetupOutcome(a, count, token, true, true);
    assert a.conns == s.conns && b.conns[n] == Connection(s.next, cid, false, token);
    hide Step, Allotted, LowestFree;
    Found(b, count, n);
    ContextOutcome(b, count, token, true);
    assert FindToken(b.conns, token) <= n;
  }

  /** A set-up that nothing disturbs brings up one connection more, under a free id, and is reported once. */
  lemma {:induction false} ComesUp(s: State, count: nat, token: int, sent: bool)
    requires Inv(s, count) && |s.conns| < count && token != NO_TOKEN && token !in s.live
    ensures var t, cid := Raised(s, count, token, sent), LowestFree(s.conns, 1, count);
            && Inv(t, count) && !Taken(s.conns, cid)
            && t.conns == s.conns + [Connection(s.next, cid, true, NO_TOKEN)]
            && t.live == s.live && t.reports == s.reports + [Report(token, true, true)]
  {
    hide Step, Inv, LowestFree, Taken, FindCid;
    SetsUp(s, count, token);
    var cid := LowestFree(s.conns, 1, count);
    var b := Step(Step(s, count, Arrive(token, Setup)), count, SetupCall(token, true, true));
    StatusOutcome(b, count, cid, Enabled, token, true, sent);
    StepInv(b, count, CallStatus(cid, Enabled, token, true, sent));
    var t := Step(b, count, CallStatus(cid, Enabled, token, true, sent));
    assert t.conns == s.conns + [Connection(s.next, cid, true, NO_TOKEN)];
    assert t.live == s.live;
  }

  /** From a request to end the call with this id to its end. */
  ghost function Lowered(s: State, count: nat, token: int, cid: nat, sent: bool): State {
    var a := Step(Step(s, count, Arrive(token, Deactivate)), count, DeactivateCall(token, cid, true));
    Step(a, count, CallStatus(cid, Disabled, token, true, sent))
  }

  /** A deactivation that nothing disturbs takes down exactly that connection, and is reported once. */
  lemma {:induction false} GoesDown(s: State, count: nat, token: int, k: nat, sent: bool)
    requires Inv(s, count) && k < |s.conns| && s.conns[k].enabled && token != NO_TOKEN && token !in s.live
    ensures var t := Lowered(s, count, token, s.conns[k].cid, sent);
            && Goes(s, t, k) && t.live == s.live && t.reports == s.reports + [Report(token, true, true)]
  {
    var cid := s.conns[k].cid;
    var a := Step(s, count, Arrive(token, Deactivate));
    StepInv(s, count, Arrive(token, Deactivate));
    Found(a, count, k);
    assert a.conns == s.conns && a.live == s.live[token := Deactivate];
    DeactivateOutcome(a, count, token, cid, true);
    StepInv(a, count, DeactivateCall(token, cid, true));
    var b := Step(a, count, DeactivateCall(token, cid, true));
    hide Step, Allotted;
    Found(b, count, k);
    StatusOutcome(b, count, cid, Disabled, token, true, sent);
    var t := Step(b, count, CallStatus(cid, Disabled, token, true, sent));
    assert t.live == s.live;
  }

  /** Up and down again: the connections, and so the free ids, are what they were; both requests succeeded. */
  lemma {:induction false} UpAndDown(s: State, count: nat, up: int, down: int, sent: bool)
    requires Inv(s, count) && |s.conns| < count
    requires up != NO_TOKEN && up !in s.live && down != NO_TOKEN && down !in s.live
    ensures var cid := LowestFree(s.conns, 1, count);
            var t := Lowered(Raised(s, count, up, sent), count, down, cid, sent);
            && t.conns == s.conns && t.live == s.live
            && t.reports == s.reports + [Report(up, true, true), Report(down, true, true)]
  {
    hide Inv, Raised, Lowered, LowestFree, Taken;
    ComesUp(s, count, up, sent);
    var m := Raised(s, count, up, sent);
    GoesDown(m, count, down, |s.conns|, sent);
    assert m.conns[..|s.conns|] + m.conns[|s.conns| + 1..] == s.conns;
  }

  // ----- the code

  /** The functions of data.c over the linked list of connections and the queued data-call requests. */
  class Calls {
    const conns: Connections
    const count: nat                      // how many context ids the modem has
    var live: map<int, DataKind>          // the queued data-call requests
    ghost var st: State

    ghost predicate Shows()
      reads this, conns, conns.list, conns.list.nodes
    {
      conns.Valid(count) && st.conns == conns.Conns() && st.next == conns.next && st.live == live
    }

    ghost predicate Valid()
      reads this, conns, conns.list, conns.list.nodes
    {
      Shows() && Inv(st, count)
    }

    constructor (count: nat)
      ensures Valid() && Initial(st)
    {
      this.count := count;
      conns := new Connections(count);
      live := map[];
      st := State([], 0, map[], []);
    }

    lemma Agrees()
      requires Shows()
      ensures st.live == live
    {
    }

    /** `ril_request_complete` on a data-call request. */
    method RequestComplete(token: int, success: bool)
      requires Shows()
      modifies this`live, this`st
      ensures Shows() && st == Complete(old(st), token, success)
    {
      st := Complete(st, token, success);
      if token != NO_TOKEN {
        live := live - {token};
      }
    }

    /** `ril_data_connection_stop`. */
    method StopConnection(serial: nat)
      requires Shows()
      modifies this`st, conns.list, conns.list.nodes
      ensures Shows() && st == Stop(old(st), serial)
      ensures forall i :: 0 <= i < |conns.list.nodes| ==> conns.list.nodes[i] in old(conns.list.nodes)
    {
      hide List.Valid;
      conns.StopConnection(serial, count);
      st := Stop(st, serial);
    }

    method WriteConnection(node: Node<Connection>, ghost k: nat, c: Connection)
      requires Shows() && conns.Points(node, k) && c.cid == node.data.cid && c.serial == node.data.serial
      modifies this`st, conns.list`contents, node`data
      ensures Shows() && k < |old(st).conns| && st == Put(old(st), k, c)
    {
      hide List.Valid;
      conns.Write(node, k, c, count);
      st := Put(st, k, c);
    }

    /** `ril_request_setup_data_call`; `iface` is whether the modem names an interface, `sent` whether sending works. */
    method SetupDataCall(token: int, iface: bool, sent: bool) returns (handled: bool)
      requires Valid() && token in live
      modifies this, conns, conns.list, conns.list.nodes
      ensures Valid() && st == Step(old(st), count, SetupCall(token, iface, sent))
      ensures handled <==> iface && sent && |old(st).conns| < count
      ensures SetupDone(old(st), st, count, token, LowestFree(old(st).conns, 1, count), handled)
    {
      SetupOutcome(st, count, token, iface, sent);
      StepInv(st, count, SetupCall(token, iface, sent));
      NoRoomIffFull(st.conns, count);
      hide Inv, SetupDone;
      handled := TakeUpSetup(token, iface, sent);
    }

    method TakeUpSetup(token: int, iface: bool, sent: bool) returns (handled: bool)
      requires Shows()
      modifies this, conns, conns.list, conns.list.nodes
      ensures Shows() && st == StepSetup(old(st), count, token, iface, sent)
      ensures handled <==> iface && sent && LowestFree(old(st).conns, 1, count) <= count
    {
      hide List.Valid, Allotted, LowestFree;
      ghost var s := st;
      assert forall i :: 0 <= i < |s.conns| ==> s.conns[i].serial < s.next;
      var cid := conns.StartConnection(count, iface);
      st := st.(conns := conns.Conns(), next := conns.next);
      if cid.None? {
        RequestComplete(token, false);
        return false;
      }
      FitNew(cid.value, token, sent, s.conns, s.next);
      handled := sent;
    }

    /** The new connection, the last one, gets its token, and goes again if sending fails. */
    method FitNew(cid: nat, token: int, sent: bool, ghost q: seq<Connection>, ghost serial: nat)
      requires Shows() && !Taken(q, cid) && st.conns == q + [Connection(serial, cid, false, NO_TOKEN)]
      requires forall i :: 0 <= i < |q| ==> q[i].serial < serial
      modifies this`live, this`st, conns.list, conns.list.nodes
      ensures Shows()
      ensures var c := Connection(serial, cid, false, token);
              st == if sent then old(st).(conns := q + [c]) else Complete(old(st).(conns := q), token, false)
    {
      hide List.Valid, LowestFree, Allotted;
      NewestFound(q, st.conns[|q|]);
      hide FindCid, FindSerial;
      var node; ghost var k;
      node, k := conns.Find(cid);
      var c := node.data.(token := token);
      LastStopped(st.(conns := q), st.(conns := q + [c]), c);
      WriteConnection(node, k, c);
      assert st.conns == q + [c];
      if !sent {
        StopConnection(c.serial);
        RequestComplete(token, false);
      }
    }

    /** `ril_request_deactivate_data_call`, on a context id that was given. */
    method DeactivateDataCall(token: int, cid: nat, sent: bool) returns (handled: bool)
      requires Valid() && token in live
      modifies this`live, this`st, conns.list, conns.list.nodes
      ensures Valid() && st == Step(old(st), count, DeactivateCall(token, cid, sent))
      ensures handled <==> sent && Taken(old(st).conns, cid)
      ensures DeactivateDone(old(st), st, token, cid, sent)
    {
      hide Shows, DeactivateDone, StepDeactivate, FindCid;
      assert st.live == live by { Agrees(); }
      DeactivateOutcome(st, count, token, cid, sent);
      StepInv(st, count, DeactivateCall(token, cid, sent));
      hide Inv;
      handled := TakeUpDeactivate(token, cid, sent);
    }

    method TakeUpDeactivate(token: int, cid: nat, sent: bool) returns (handled: bool)
      requires Shows()
      modifies this`live, this`st, conns.list, conns.list.nodes
      ensures Shows() && st == StepDeactivate(old(st), token, cid, sent)
      ensures handled <==> sent && Taken(old(st).conns, cid)
    {
      assert Allotted(st.conns, count);
      hide List.Valid, Allotted, FindSerial;
      ghost var s := st;
      var node; ghost var k;
      node, k := conns.Find(cid);
      handled := node != null && sent;
      if node != null {
        var c := node.data.(token := token);
        RewrittenStopped(s, k, c, count);
        WriteConnection(node, k, c);
        if !sent {
          StopConnection(c.serial);
        }
      }
      if !handled {
        RequestComplete(token, false);
      }
    }

    /**
     `ipc_gprs_define_pdp_context_callback` and `ipc_gprs_pdp_context_callback`; `token` is what the number stands
     for.
     */
    method ContextCallback(token: int, ok: bool)
      requires Valid() && (token == NO_TOKEN || token in live)
      modifies this`live, this`st, conns.list, conns.list.nodes
      ensures Valid() && st == StepContext(old(st), token, ok)
      ensures token != NO_TOKEN ==> ContextDone(old(st), st, token, ok)
      ensures token == NO_TOKEN ==> st.reports == old(st).reports && st.live == old(st).live
    {
      assert NO_TOKEN !in st.live;
      assert Step(st, count, ContextAnswer(token, ok)) == StepContext(st, token, ok);
      StepInv(st, count, ContextAnswer(token, ok));
      if token in live { ContextOutcome(st, count, token, ok); }
      hide Inv, ContextDone;
      var node; ghost var k;
      node, k := conns.FindByToken(token);
      if node == null {
        RequestComplete(token, false);
      } else if !ok {
        StopConnection(node.data.serial);
        RequestComplete(token, false);
      }
    }

    /** `ipc_gprs_call_status`, with the SIM ready. */
    method CallStatus(cid: nat, status: Status, token: int, works: bool, sent: bool)
      requires Valid() && (token == NO_TOKEN || token in live)
      modifies this`live, this`st, conns.list, conns.list.nodes
      ensures Valid() && st == StepCallStatus(old(st), cid, status, token, works, sent)
      ensures var k := FindCid(old(st).conns, cid);
              if k < |old(st).conns| then StatusDone(old(st), st, k, status, works, sent)
              else Stray(old(st), st, token)
    {
      assert NO_TOKEN !in st.live;
      assert Step(st, count, DataConnections.CallStatus(cid, status, token, works, sent))
          == StepCallStatus(st, cid, status, token, works, sent);
      StepInv(st, count, DataConnections.CallStatus(cid, status, token, works, sent));
      if FindCid(st.conns, cid) < |st.conns| {
        StatusOutcome(st, count, cid, status, token, works, sent);
      } else {
        StrayStatus(st, count, cid, status, token, works, sent);
      }
      hide Inv, StatusDone, Stray, StepCallStatus;
      Digest(cid, status, token, works, sent);
    }

    method Digest(cid: nat, status: Status, token: int, works: bool, sent: bool)
      requires Shows()
      modifies this`live, this`st, conns.list, conns.list.nodes
      ensures Shows() && st == StepCallStatus(old(st), cid, status, token, works, sent)
    {
      var node; ghost var k;
      node, k := conns.Find(cid);
      hide Shows, FindCid, FindSerial;
      assert conns.Points(node, k) && |st.conns| == |conns.list.contents| && st.live == live by { Counts(); }
      if node == null {
        RequestComplete(token, false);
        return;
      }
      var c := node.data;
      var request := if c.token != NO_TOKEN && c.token in live then Some(live[c.token]) else None;
      DigestListed(node, k, status, request, works, sent);
    }

    lemma Counts()
      requires Shows()
      ensures |st.conns| == |conns.list.contents| && st.live == live
    {
    }

    /** The rest of it, for a connection that is listed and the request that it works for. */
    method DigestListed(node: Node<Connection>, ghost k: nat, status: Status, request: Option<DataKind>, works: bool,
        sent: bool)
      requires Shows() && conns.Points(node, k) && k == FindCid(st.conns, node.data.cid) < |st.conns|
      requires request == RequestOf(st, node.data)
      modifies this`live, this`st, conns.list, conns.list.nodes
      ensures Shows() && forall token :: st == StepCallStatus(old(st), old(node.data.cid), status, token, works, sent)
    {
      var c := node.data;
      assert st.conns[k] == c && Allotted(st.conns, count);
      RewrittenStopped(st, k, c.(enabled := true), count);
      StoppedTwice(st, c.serial, count);
      hide Shows, Allotted, FindCid, FindSerial;
      var failed, left := false, request;
      match status {
        case Enabled => failed := OnEnabled(node, k, request, works);
        case Disabled => failed, left := OnDisabled(c, request, works);
        case Other =>
      }
      EndDigest(c, failed, left, sent);
    }

    /** The end of it, with the error exit. */
    method EndDigest(c: Connection, failed: bool, request: Option<DataKind>, sent: bool)
      requires Shows()
      modifies this`live, this`st, conns.list, conns.list.nodes
      ensures Shows()
      ensures st == if !failed && (request.Some? || sent) then old(st)
                    else if request.Some? then Complete(Stop(old(st), c.serial), c.token, false)
                    else Stop(old(st), c.serial)
    {
      hide Shows;
      if failed || (request.None? && !sent) {
        StopConnection(c.serial);
        if request.Some? {
          RequestComplete(c.token, false);
        }
      }
    }

    /** The branch for a connection that the modem says is enabled; whether it goes to the error exit. */
    method OnEnabled(node: Node<Connection>, ghost k: nat, request: Option<DataKind>, works: bool)
      returns (failed: bool)
      requires Shows() && conns.Points(node, k)
      modifies this`live, this`st, conns.list, conns.list.nodes
      ensures Shows()
      ensures var c := old(node.data);
              && (failed <==> if c.enabled then request == Some(Deactivate) else !works)
              && k < |old(st).conns|
              && st == if failed || c.enabled then old(st)
                       else if request == Some(Setup)
                       then Complete(Put(old(st), k, c.(enabled := true, token := NO_TOKEN)), c.token, true)
                       else Put(old(st), k, c.(enabled := true))
      ensures conns.list.nodes == old(conns.list.nodes)
    {
      hide List.Valid, Allotted;
      var c := node.data;
      failed := if c.enabled then request == Some(Deactivate) else !works;
      if !failed && !c.enabled {
        if request == Some(Setup) {
          WriteConnection(node, k, c.(enabled := true, token := NO_TOKEN));
          RequestComplete(c.token, true);
        } else {
          WriteConnection(node, k, c.(enabled := true));
        }
      }
    }

    /** The branch for one that it says is not; what is left of the request is not completed again. */
    method OnDisabled(c: Connection, request: Option<DataKind>, works: bool)
      returns (failed: bool, left: Option<DataKind>)
      requires Shows()
      modifies this`live, this`st, conns.list, conns.list.nodes
      ensures Shows()
      ensures failed <==> if c.enabled then !works else request == Some(Setup)
      ensures left == if failed && !c.enabled then None else request
      ensures st == if c.enabled
                    then
                      if !works then old(st)
                      else if request == Some(Deactivate) then Complete(Stop(old(st), c.serial), c.token, true)
                      else Stop(old(st), c.serial)
                    else if request == Some(Setup) then Complete(old(st), c.token, true)
                    else old(st)
      ensures forall i :: 0 <= i < |conns.list.nodes| ==> conns.list.nodes[i] in old(conns.list.nodes)
    {
      hide List.Valid, Allotted;
      failed, left := false, request;
      if c.enabled {
        if !works {
          failed := true;
        } else {
          StopConnection(c.serial);
          if request == Some(Deactivate) {
            RequestComplete(c.token, true);
          }
        }
      } else if request == Some(Setup) {
        RequestComplete(c.token, true);
        left, failed := None, true;
      }
    }
  }

  lemma {:induction false} NewestFound(q: seq<Connection>, c: Connection)
    requires !Taken(q, c.cid)
    ensures FindCid(q + [c], c.cid) == |q|
  {
    assert (q + [c])[|q|] == c;
  }

  lemma {:induction false} LastStopped(s: State, t: State, c: Connection)
    requires t.conns == s.conns + [c] && forall i :: 0 <= i < |s.conns| ==> s.conns[i].serial != c.serial
    ensures Stop(t, c.serial).conns == s.conns
  {
    assert t.conns[|s.conns|] == c;
    assert FindSerial(t.conns, c.serial) == |s.conns|;
  }

  /** What is written into a connection makes no difference once it is gone. */
  lemma {:induction false} RewrittenStopped(s: State, k: nat, c: Connection, count: nat)
    requires Allotted(s.conns, count) && k < |s.conns| && c.serial == s.conns[k].serial
    ensures Stop(Put(s, k, c), c.serial) == Stop(s, c.serial)
  {
    var t := Put(s, k, c);
    var m, n := FindSerial(s.conns, c.serial), FindSerial(t.conns, c.serial);
    assert t.conns[k] == c;
    assert m == k && n == k;
  }

  /** Stopping a connection again changes nothing. */
  lemma {:induction false} StoppedTwice(s: State, serial: nat, count: nat)
    requires Allotted(s.conns, count)
    ensures Stop(Stop(s, serial), serial) == Stop(s, serial)
  {
    var k, t := FindSerial(s.conns, serial), Stop(s, serial);
    if k < |s.conns| {
      assert forall i :: 0 <= i < |t.conns| ==> t.conns[i].serial != serial;
      assert FindSerial(t.conns, serial) == |t.conns|;
    }
  }
}
