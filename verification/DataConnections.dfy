/**
 The data connections of Samsung-RIL: the allocation of PDP context ids and the message of the modem
 that enables, disables and removes connections.
 */
module DataConnections {
  import opened Common
  import opened ListHead

  const NO_TOKEN := 0

  /** `serial` stands for the address of the connection. */
  datatype Connection = Connection(serial: nat, cid: nat, enabled: bool, token: int)

  // ----- allocation

  function FindCid(q: seq<Connection>, cid: nat): (k: nat)
    ensures k <= |q| && (k < |q| ==> q[k].cid == cid)
    ensures forall i :: 0 <= i < k ==> q[i].cid != cid
  {
    FindFirst(q, (x: Connection) => x.cid == cid)
  }

  predicate Taken(q: seq<Connection>, cid: nat) {
    FindCid(q, cid) < |q|
  }

  /** The lowest context id from `cid` on that is not taken, `count` + 1 when there is none. */
  function LowestFree(q: seq<Connection>, cid: nat, count: nat): (r: nat)
    requires 1 <= cid <= count + 1
    ensures cid <= r <= count + 1
    ensures forall c :: cid <= c < r ==> Taken(q, c)
    ensures r <= count ==> !Taken(q, r)
    decreases count + 1 - cid
  {
    if cid == count + 1 || !Taken(q, cid) then cid else LowestFree(q, cid + 1, count)
  }

  /** Context ids are distinct and within range; connections have their own addresses. */
  ghost predicate Allotted(q: seq<Connection>, count: nat) {
    && (forall i :: 0 <= i < |q| ==> 1 <= q[i].cid <= count)
    && (forall i, j :: 0 <= i < j < |q| ==> q[i].cid != q[j].cid && q[i].serial != q[j].serial)
  }

  ghost function Cids(q: seq<Connection>): set<nat> {
    set i | 0 <= i < |q| :: q[i].cid
  }

  ghost function Range(count: nat): (r: set<nat>)
    ensures |r| == count && forall c: nat :: c in r <==> 1 <= c <= count
  {
    if count == 0 then {} else Range(count - 1) + {count}
  }

  lemma {:induction false} CidsSplit(q: seq<Connection>)
    requires |q| > 0
    ensures Cids(q) == Cids(q[..|q| - 1]) + {q[|q| - 1].cid}
  {
    var init := q[..|q| - 1];
    forall c | c in Cids(q) ensures c in Cids(init) + {q[|q| - 1].cid} {
      var i :| 0 <= i < |q| && q[i].cid == c;
      assert i < |init| ==> init[i].cid == c;
    }
    forall c | c in Cids(init) ensures c in Cids(q) {
      var i :| 0 <= i < |init| && init[i].cid == c;
      assert q[i].cid == c;
    }
  }

  /** As many ids as connections: no two share one. */
  lemma {:induction false} CidsSize(q: seq<Connection>, count: nat)
    requires Allotted(q, count)
    ensures |Cids(q)| == |q| && Cids(q) <= Range(count)
  {
    if |q| > 0 {
      var init, last := q[..|q| - 1], q[|q| - 1];
      assert forall i :: 0 <= i < |init| ==> init[i] == q[i];
      CidsSize(init, count);
      CidsSplit(q);
      assert last.cid !in Cids(init);
      hide Cids;
    }
  }

  /** There is room exactly when fewer connections are open than there are context ids. */
  lemma {:induction false} NoRoomIffFull(q: seq<Connection>, count: nat)
    requires Allotted(q, count)
    ensures |q| <= count
    ensures LowestFree(q, 1, count) == count + 1 <==> |q| == count
  {
    var r := LowestFree(q, 1, count);
    CidsSize(q, count);
    SubsetSize(Cids(q), Range(count));
    if r == count + 1 {
      forall c | c in Range(count) ensures c in Cids(q) {
        assert Taken(q, c) && q[FindCid(q, c)].cid == c;
      }
      assert Cids(q) == Range(count);
    } else {
      assert r in Range(count);
      assert r !in Cids(q);
    }
  }

  /** `ril_data_connection_start`, where the interface of the chosen id may be missing. */
  function Start(q: seq<Connection>, count: nat, iface: bool, serial: nat): (seq<Connection>, Option<nat>) {
    var cid := LowestFree(q, 1, count);
    if cid > count || !iface then (q, None)
    else (q + [Connection(serial, cid, false, NO_TOKEN)], Some(cid))
  }

  lemma {:induction false} StartAllots(q: seq<Connection>, count: nat, iface: bool, serial: nat)
    requires Allotted(q, count) && forall i :: 0 <= i < |q| ==> q[i].serial < serial
    ensures Allotted(Start(q, count, iface, serial).0, count)
  {
    var cid := LowestFree(q, 1, count);
    assert cid <= count ==> forall i :: 0 <= i < |q| ==> q[i].cid != cid;
  }

  lemma {:induction false} WithoutAllotted(q: seq<Connection>, k: nat, count: nat)
    requires Allotted(q, count) && k < |q|
    ensures Allotted(Without(q, k), count)
  {
  }

  lemma {:induction false} FreedCid(q: seq<Connection>, k: nat, count: nat)
    requires Allotted(q, count) && k < |q|
    ensures !Taken(Without(q, k), q[k].cid)
  {
    assert forall i :: 0 <= i < |q| - 1 ==> Without(q, k)[i].cid != q[k].cid;
  }

  // ----- the steps that use connections

  datatype DataKind = Setup | Deactivate

  /** A completion, and whether the request was still queued when it was made. */
  datatype Report = Report(token: int, success: bool, queued: bool)

  datatype State = State(
    conns: seq<Connection>,
    next: nat,                     // the address of the next connection
    live: map<int, DataKind>,      // the queued data-call requests
    reports: seq<Report>)

  datatype Status = Enabled | Disabled | Other

  datatype Op =
    | Arrive(token: int, kind: DataKind)
    | Cancel(token: int)
    | SetupCall(token: int, iface: bool, sent: bool)         // ril_request_setup_data_call
    | DeactivateCall(token: int, cid: nat, sent: bool)       // ril_request_deactivate_data_call
    // the PDP context callbacks; NULL when the number is not known
    | ContextAnswer(token: int, ok: bool)
    | CallStatus(cid: nat, status: Status, token: int, works: bool, sent: bool)

  /** `ril_request_complete`, as far as data calls go. */
  function Complete(s: State, token: int, success: bool): State {
    if token == NO_TOKEN then s
    else s.(live := s.live - {token}, reports := s.reports + [Report(token, success, token in s.live)])
  }

  function FindSerial(q: seq<Connection>, serial: nat): (k: nat)
    ensures k <= |q| && (k < |q| ==> q[k].serial == serial)
    ensures forall i :: 0 <= i < k ==> q[i].serial != serial
  {
    FindFirst(q, (x: Connection) => x.serial == serial)
  }

  function FindToken(q: seq<Connection>, token: int): (k: nat)
    ensures k <= |q| && (k < |q| ==> q[k].token == token)
    ensures forall i :: 0 <= i < k ==> q[i].token != token
  {
    FindFirst(q, (x: Connection) => x.token == token)
  }

  /** `ril_data_connection_stop`: by address; a connection already stopped is not found again. */
  function Stop(s: State, serial: nat): (t: State)
    ensures t.live == s.live
  {
    var k := FindSerial(s.conns, serial);
    if k == |s.conns| then s else s.(conns := Without(s.conns, k))
  }

  function Put(s: State, k: nat, c: Connection): (t: State)
    requires k < |s.conns|
    ensures t.live == s.live
  {
    s.(conns := s.conns[k := c])
  }

  function StepSetup(s: State, count: nat, token: int, iface: bool, sent: bool): State {
    var cid := Start(s.conns, count, iface, s.next).1;
    if cid.None? then Complete(s, token, false)
    else if sent then s.(conns := s.conns + [Connection(s.next, cid.value, false, token)], next := s.next + 1)
    else Complete(s.(next := s.next + 1), token, false)
  }

  function StepDeactivate(s: State, token: int, cid: nat, sent: bool): State {
    var k := FindCid(s.conns, cid);
    if k == |s.conns| then Complete(s, token, false)
    else if sent then Put(s, k, s.conns[k].(token := token))
    else Complete(Stop(s, s.conns[k].serial), token, false)
  }

  function StepContext(s: State, token: int, ok: bool): State {
    var k := FindToken(s.conns, token);
    if k == |s.conns| then Complete(s, token, false)
    else if ok then s
    else Complete(Stop(s, s.conns[k].serial), token, false)
  }

  /** The request of a connection, if it is still queued. */
  function RequestOf(s: State, c: Connection): Option<DataKind> {
    if c.token != NO_TOKEN && c.token in s.live then Some(s.live[c.token]) else None
  }

  /** The `error` exit of `ipc_gprs_call_status`. */
  function Fail(s: State, c: Connection): State {
    var t := Stop(s, c.serial);
    if RequestOf(s, c).Some? then Complete(t, c.token, false) else t
  }

  /** `ipc_gprs_call_status`; `works` is whether the interface can be configured, `token` what its number stands for. */
  function StepCallStatus(s: State, cid: nat, status: Status, token: int, works: bool, sent: bool): State {
    var k := FindCid(s.conns, cid);
    if k == |s.conns| then Complete(s, token, false)
    else
      var c := s.conns[k];
      var r := RequestOf(s, c);
      // Without a request to answer, the list of contexts is asked for; that may fail too.
      match status
      case Enabled =>
        if c.enabled then
          if r == Some(Deactivate) then Fail(s, c) else if r.None? && !sent then Stop(s, c.serial) else s
        else if !works then Fail(s, c)
        else if r == Some(Setup) then Complete(Put(s, k, c.(enabled := true, token := NO_TOKEN)), c.token, true)
        else if r.None? && !sent then Stop(s, c.serial)
        else Put(s, k, c.(enabled := true))
      case Disabled =>
        if c.enabled then
          if !works then Fail(s, c)
          else if r == Some(Deactivate) then Complete(Stop(s, c.serial), c.token, true)
          else Stop(s, c.serial)
        else if r == Some(Setup) then Stop(Complete(s, c.token, true), c.serial)
        else if r.None? && !sent then Stop(s, c.serial)
        else s
      case Other =>
        if r.None? && !sent then Stop(s, c.serial) else s
  }

  function Step(s: State, count: nat, op: Op): State {
    match op
    case Arrive(token, kind) => if token == NO_TOKEN then s else s.(live := s.live[token := kind])
    case Cancel(token) => s.(live := s.live - {token})
    case SetupCall(token, iface, sent) => if token in s.live then StepSetup(s, count, token, iface, sent) else s
    case DeactivateCall(token, cid, sent) => if token in s.live then StepDeactivate(s, token, cid, sent) else s
    // A number stands for the token of a queued request, or for none.
    case ContextAnswer(token, ok) => StepContext(s, if token in s.live then token else NO_TOKEN, ok)
    case CallStatus(cid, status, token, works, sent) =>
      StepCallStatus(s, cid, status, if token in s.live then token else NO_TOKEN, works, sent)
  }

  function Run(s: State, count: nat, ops: seq<Op>): State
    decreases |ops|
  {
    if |ops| == 0 then s else Run(Step(s, count, ops[0]), count, ops[1..])
  }

  ghost predicate Initial(s: State) {
    |s.conns| == s.next == |s.reports| == 0 && |s.live| == 0
  }

  ghost predicate Inv(s: State, count: nat) {
    && Allotted(s.conns, count)
    && (forall i :: 0 <= i < |s.conns| ==> s.conns[i].serial < s.next)
    && NO_TOKEN !in s.live
    && (forall i :: 0 <= i < |s.conns| && s.conns[i].token == NO_TOKEN ==> s.conns[i].enabled)
    && (forall i :: 0 <= i < |s.reports| ==> s.reports[i].queued)
  }

  lemma {:induction false} StopInv(s: State, serial: nat, count: nat)
    requires Inv(s, count)
    ensures Inv(Stop(s, serial), count)
  {
    var k := FindSerial(s.conns, serial);
    if k < |s.conns| { WithoutAllotted(s.conns, k, count); }
  }

  lemma {:induction false} CompleteInv(s: State, token: int, success: bool, count: nat)
    requires Inv(s, count) && (token == NO_TOKEN || token in s.live)
    ensures Inv(Complete(s, token, success), count)
  {
    hide Allotted;
  }

  lemma {:induction false} PutInv(s: State, k: nat, c: Connection, count: nat)
    requires Inv(s, count) && k < |s.conns| && c.cid == s.conns[k].cid && c.serial == s.conns[k].serial
    requires c.token == NO_TOKEN ==> c.enabled
    ensures Inv(Put(s, k, c), count)
  {
    assert forall i :: 0 <= i < |s.conns| ==>
        Put(s, k, c).conns[i].cid == s.conns[i].cid && Put(s, k, c).conns[i].serial == s.conns[i].serial;
  }

  lemma {:induction false} AddInv(s: State, count: nat, cid: nat, token: int)
    requires Inv(s, count) && token in s.live && 1 <= cid <= count && !Taken(s.conns, cid)
    ensures Inv(s.(conns := s.conns + [Connection(s.next, cid, false, token)], next := s.next + 1), count)
  {
    assert forall i :: 0 <= i < |s.conns| ==> s.conns[i].cid != cid;
  }

  lemma {:induction false} SetupInv(s: State, count: nat, token: int, iface: bool, sent: bool)
    requires Inv(s, count) && token in s.live
    ensures Inv(StepSetup(s, count, token, iface, sent), count)
  {
    var cid, t := LowestFree(s.conns, 1, count), s.(next := s.next + 1);
    assert Inv(t, count);
    hide Inv, Complete;
    CompleteInv(s, token, false, count);
    CompleteInv(t, token, false, count);
    if cid <= count { AddInv(s, count, cid, token); }
  }

  lemma {:induction false} FailInv(s: State, c: Connection, count: nat)
    requires Inv(s, count)
    ensures Inv(Fail(s, c), count)
  {
    StopInv(s, c.serial, count);
    var t := Stop(s, c.serial);
    assert t.live == s.live;
    if RequestOf(s, c).Some? { CompleteInv(t, c.token, false, count); }
    hide Inv, Stop, Complete;
  }

  lemma {:induction false} CallStatusInv(s: State, cid: nat, status: Status, token: int, works: bool, sent: bool,
      count: nat)
    requires Inv(s, count) && (token == NO_TOKEN || token in s.live)
    ensures Inv(StepCallStatus(s, cid, status, token, works, sent), count)
  {
    hide Inv, Stop, Complete, Fail, Put;
    CompleteInv(s, token, false, count);
    var k := FindCid(s.conns, cid);
    if k < |s.conns| {
      var c := s.conns[k];
      FailInv(s, c, count);
      StopInv(s, c.serial, count);
      PutInv(s, k, c.(enabled := true), count);
      PutInv(s, k, c.(enabled := true, token := NO_TOKEN), count);
      if RequestOf(s, c).Some? {
        CompleteInv(Put(s, k, c.(enabled := true, token := NO_TOKEN)), c.token, true, count);
        CompleteInv(Stop(s, c.serial), c.token, true, count);
        CompleteInv(s, c.token, true, count);
        StopInv(Complete(s, c.token, true), c.serial, count);
      }
    }
  }

  lemma {:induction false} StepInv(s: State, count: nat, op: Op)
    requires Inv(s, count)
    ensures Inv(Step(s, count, op), count)
  {
    hide Stop, Complete, Put, StepSetup, StepCallStatus, Allotted;
    match op
    case Arrive(token, kind) =>
    case Cancel(token) =>
    case SetupCall(token, iface, sent) => if token in s.live { SetupInv(s, count, token, iface, sent); }
    case DeactivateCall(token, cid, sent) =>
      if token in s.live {
        var k := FindCid(s.conns, cid);
        CompleteInv(s, token, false, count);
        if k < |s.conns| {
          PutInv(s, k, s.conns[k].(token := token), count);
          StopInv(s, s.conns[k].serial, count);
          CompleteInv(Stop(s, s.conns[k].serial), token, false, count);
        }
      }
    case ContextAnswer(token, ok) =>
      var t := if token in s.live then token else NO_TOKEN;
      var k := FindToken(s.conns, t);
      CompleteInv(s, t, false, count);
      if k < |s.conns| {
        StopInv(s, s.conns[k].serial, count);
        CompleteInv(Stop(s, s.conns[k].serial), t, false, count);
      }
    case CallStatus(cid, status, token, works, sent) =>
      CallStatusInv(s, cid, status, if token in s.live then token else NO_TOKEN, works, sent, count);
  }

  lemma {:induction false} RunInv(s: State, count: nat, ops: seq<Op>)
    requires Inv(s, count)
    ensures Inv(Run(s, count, ops), count)
    decreases |ops|
  {
    if |ops| > 0 {
      StepInv(s, count, ops[0]);
      hide Inv, Step;
      RunInv(Step(s, count, ops[0]), count, ops[1..]);
    }
  }

  /**
   In every run context ids are distinct and within 1..count, there are never more connections than ids,
   a new connection finds no room exactly when all ids are in use, a connection without a token is up, and
   each data call is completed only while it is queued, so never twice.
   */
  lemma {:induction false} ContextIdsStayDistinct(s0: State, count: nat, ops: seq<Op>)
    requires Initial(s0)
    ensures var s := Run(s0, count, ops);
            && (forall i :: 0 <= i < |s.conns| ==> 1 <= s.conns[i].cid <= count)
            && (forall i, j :: 0 <= i < j < |s.conns| ==> s.conns[i].cid != s.conns[j].cid)
            && |s.conns| <= count
            && (forall serial :: Start(s.conns, count, true, serial).1.None? <==> |s.conns| == count)
            && (forall i :: 0 <= i < |s.conns| && s.conns[i].token == NO_TOKEN ==> s.conns[i].enabled)
            && (forall i :: 0 <= i < |s.reports| ==> s.reports[i].queued)
  {
    RunInv(s0, count, ops);
    NoRoomIffFull(Run(s0, count, ops).conns, count);
    hide Run, LowestFree;
  }

  /**
   The answer for a request that was cancelled stands for no token, and NULL is also the token of every
   connection whose set-up is complete, and of no other. So it removes a connection that is up, the first of
   those, if and only if it is a failure and there is one; and it never reports anything.
   */
  lemma {:induction false} AnswerAfterCancel(s: State, count: nat, token: int, ok: bool)
    requires Inv(s, count) && token !in s.live
    ensures var t, k := Step(s, count, ContextAnswer(token, ok)), FindToken(s.conns, NO_TOKEN);
            && t.conns == (if !ok && k < |s.conns| then Without(s.conns, k) else s.conns)
            && (k < |s.conns| ==> s.conns[k].enabled) && t.reports == s.reports
  {
    var k := FindToken(s.conns, NO_TOKEN);
    if k < |s.conns| {
      var m := FindSerial(s.conns, s.conns[k].serial);
      assert m <= k;
      assert m == k;
    }
  }

  /**
   A run in which it does: one call is set up and enabled, a second one is set up and cancelled, the
   modem refuses the second context, and the first connection is gone while the second stays.
   */
  lemma {:induction false} AnswerAfterCancelExample(s: State, count: nat)
    requires Initial(s) && count >= 2
    ensures var a := Step(Step(Step(s, count, Arrive(1, Setup)), count, SetupCall(1, true, true)), count,
                          CallStatus(1, Enabled, 1, true, true));
            var b := Step(Step(Step(a, count, Arrive(2, Setup)), count, SetupCall(2, true, true)), count, Cancel(2));
            && a.conns == [Connection(0, 1, true, NO_TOKEN)] && a.reports == [Report(1, true, true)]
            && b.conns == [Connection(0, 1, true, NO_TOKEN), Connection(1, 2, false, 2)]
            && Step(b, count, ContextAnswer(2, false)).conns == [Connection(1, 2, false, 2)]
  {
    var s2 := Step(Step(s, count, Arrive(1, Setup)), count, SetupCall(1, true, true));
    LowestOf([], count);
    assert s2.conns == [Connection(0, 1, false, 1)] && s2.next == 1 && 1 in s2.live && s2.live[1] == Setup;
    var a := Step(s2, count, CallStatus(1, Enabled, 1, true, true));
    assert FindCid(s2.conns, 1) == 0;
    assert a.conns == [Connection(0, 1, true, NO_TOKEN)] && a.live == s2.live - {1};
    SecondCall(a, count);
  }

  /** The second half of it. */
  lemma {:induction false} SecondCall(a: State, count: nat)
    requires a.conns == [Connection(0, 1, true, NO_TOKEN)] && a.next == 1 && count >= 2
    ensures var b := Step(Step(Step(a, count, Arrive(2, Setup)), count, SetupCall(2, true, true)), count, Cancel(2));
            && b.conns == [Connection(0, 1, true, NO_TOKEN), Connection(1, 2, false, 2)]
            && Step(b, count, ContextAnswer(2, false)).conns == [Connection(1, 2, false, 2)]
  {
    LowestOf(a.conns, count);
    var b := Step(Step(Step(a, count, Arrive(2, Setup)), count, SetupCall(2, true, true)), count, Cancel(2));
    assert b.conns == [Connection(0, 1, true, NO_TOKEN), Connection(1, 2, false, 2)];
    assert FindToken(b.conns, NO_TOKEN) == 0 && FindSerial(b.conns, 0) == 0;
    assert Without(b.conns, 0) == [Connection(1, 2, false, 2)];
  }

  lemma {:induction false} LowestOf(q: seq<Connection>, count: nat)
    requires count >= 2 && |q| <= 1 && (|q| == 1 ==> q[0].cid == 1)
    ensures LowestFree(q, 1, count) == |q| + 1
  {
    assert !Taken(q, 2);
    assert Taken(q, 1) <==> |q| == 1;
  }

  // ----- the code

  class Connections {
    const list: List<Connection>
    var next: nat                // stands for the address of the next allocation

    ghost predicate Valid(count: nat)
      reads this, list, list.nodes
    {
      list.Valid() && Numbered(list.contents, next, count)
    }

    ghost function Conns(): seq<Connection>
      reads list
    {
      list.contents
    }

    constructor (ghost count: nat)
      ensures Valid(count) && |Conns()| == 0 && next == 0 && fresh(list) && |list.nodes| == 0
    {
      list := new List<Connection>();
      next := 0;
    }

    /** `ril_data_connection_find_cid`. */
    method Find(cid: nat) returns (node: Node?<Connection>, ghost k: nat)
      requires list.Valid()
      ensures k == FindCid(Conns(), cid) && Points(node, k)
    {
      node, k := list.Find((c: Connection) => c.cid == cid);
    }

    /** `ril_data_connection_find_token`. */
    method FindByToken(token: int) returns (node: Node?<Connection>, ghost k: nat)
      requires list.Valid()
      ensures k == FindToken(Conns(), token) && Points(node, k)
    {
      node, k := list.Find((c: Connection) => c.token == token);
    }

    /** The node stands at position k, null past the end. */
    ghost predicate Points(node: Node?<Connection>, k: nat)
      reads list, list.nodes
    {
      && k <= |list.contents| == |list.nodes| && node == At(list.nodes, k)
      && (node == null <==> k == |list.contents|) && (node != null ==> node.data == list.contents[k])
    }

    /** Fields of a listed connection are written. */
    method Write(node: Node<Connection>, ghost k: nat, c: Connection, ghost count: nat)
      requires Valid(count) && Points(node, k) && c.cid == node.data.cid && c.serial == node.data.serial
      modifies list`contents, node`data
      ensures Valid(count) && Conns() == old(Conns())[k := c]
    {
      list.Update(node, k, c);
      assert forall i :: 0 <= i < |Conns()| ==>
          Conns()[i].cid == old(Conns())[i].cid && Conns()[i].serial == old(Conns())[i].serial;
    }

    /** The search of `ril_data_connection_start` for the lowest free context id. */
    method LowestId(count: nat) returns (cid: nat)
      requires list.Valid()
      ensures cid == LowestFree(Conns(), 1, count)
    {
      hide List.Valid;
      cid := 1;
      while cid <= count
        invariant 1 <= cid <= count + 1
        invariant LowestFree(Conns(), 1, count) == LowestFree(Conns(), cid, count)
      {
        var node; ghost var k;
        node, k := Find(cid);
        if node == null {
          return;
        }
        cid := cid + 1;
      }
    }

    /**
     `ril_data_connection_start`: the lowest free context id, none when all are in use or its interface is missing.
     */
    method StartConnection(count: nat, iface: bool) returns (cid: Option<nat>)
      requires Valid(count)
      modifies this, list, list.nodes
      ensures Valid(count)
      ensures (Conns(), cid) == Start(old(Conns()), count, iface, old(next))
      ensures cid.Some? ==> !Taken(old(Conns()), cid.value) && forall c :: 1 <= c < cid.value ==> Taken(old(Conns()), c)
      ensures iface ==> (cid.None? <==> |old(Conns())| == count)
      ensures next == (if cid.Some? then old(next) + 1 else old(next))
      ensures forall i :: 0 <= i < |list.nodes| ==> list.nodes[i] in old(list.nodes) || fresh(list.nodes[i])
    {
      ghost var q := Conns();
      StartAllots(q, count, iface, next);
      NoRoomIffFull(q, count);
      hide List.Valid, Allotted;
      var id := LowestId(count);
      if id > count || !iface {
        return None;
      }
      list.Append(Connection(next, id, false, NO_TOKEN));
      cid, next := Some(id), next + 1;
    }

    /** `ril_data_connection_stop`: the connection of that identity goes and its context id is free again. */
    method StopConnection(serial: nat, ghost count: nat)
      requires Valid(count)
      modifies list, list.nodes
      ensures Valid(count)
      ensures var q, k := old(Conns()), FindSerial(old(Conns()), serial);
              if k == |q| then Conns() == q else Conns() == Without(q, k) && !Taken(Conns(), q[k].cid)
      ensures forall i :: 0 <= i < |list.nodes| ==> list.nodes[i] in old(list.nodes)
    {
      ghost var q, k := Conns(), FindSerial(Conns(), serial);
      if k < |q| {
        WithoutAllotted(q, k, count);
        FreedCid(q, k, count);
      }
      assert forall i :: 0 <= i < |q| ==> q[i].serial < next;
      hide List.Valid, Allotted, FindCid;
      list.Remove((c: Connection) => c.serial == serial);
    }
  }

  ghost predicate Numbered(q: seq<Connection>, next: nat, count: nat) {
    Allotted(q, count) && forall i :: 0 <= i < |q| ==> q[i].serial < next
  }
}
