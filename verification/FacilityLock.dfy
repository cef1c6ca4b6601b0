/**
 SET_FACILITY_LOCK of Samsung-RIL. A fixed-dialling lock first unlocks PIN2, with the lock data kept in
 the request-data store, and sends the lock from the callback. The last answer is stored as well, until
 the modem has told the number of tries left. Other PIN requests use the same store and the same
 lock-information message; here they appear as the steps they take on the store. A number stands for its
 token (FmtNumbers.RecentRoundTrip).
 */
module FacilityLock {
  import opened Common
  import opened GenericResponse
  import Store = RequestStore

  const ENTER_SIM_PIN := 2
  const ENTER_SIM_PIN2 := 4
  const CHANGE_SIM_PIN := 6
  const CHANGE_SIM_PIN2 := 7
  const SET_FACILITY_LOCK := 43

  /** The order in which `ipc_sec_lock_infomation` looks for a stored result. */
  const KINDS := [ENTER_SIM_PIN, CHANGE_SIM_PIN, ENTER_SIM_PIN2, CHANGE_SIM_PIN2, SET_FACILITY_LOCK]

  const FD := 0x04
  const PASSWORD_SIZE := 39
  const RES_SIZE := 5          // group, index, type and a two-byte code

  /** `ril2ipc_sec_facility_type`; the names are those of section 7.4 of 3GPP TS 27.007. */
  function FacilityType(name: string): int {
    if name == "SC" then 0x03 else if name == "FD" then FD else if name == "PN" then 0x05
    else if name == "PU" then 0x06 else if name == "PP" then 0x07 else if name == "PC" then 0x08 else 0
  }

  /** Each facility has a code of its own. */
  lemma FacilitiesDiffer(a: string, b: string)
    requires FacilityType(a) != 0
    ensures FacilityType(a) == FacilityType(b) ==> a == b
    ensures FacilityType(a) == FD <==> a == "FD"
  {
  }

  /** `ipc_sec_phone_lock_request_set_setup`: the password is cut to its field, or padded. */
  function LockData(facility: int, active: bool, password: Store.Bytes): Store.Bytes {
    var n := if |password| > PASSWORD_SIZE then PASSWORD_SIZE else |password|;
    [facility, if active then 1 else 0, n] + password[..n] + seq(PASSWORD_SIZE - n, i => 0)
  }

  /** The facility, the switch and a password that fits its field can be read back; a longer one is cut. */
  lemma {:induction false} LockDataShows(facility: int, active: bool, password: Store.Bytes)
    ensures var d := LockData(facility, active, password);
            && |d| == 3 + PASSWORD_SIZE && d[0] == facility && (d[1] == 1 <==> active)
            && 0 <= d[2] <= PASSWORD_SIZE && d[2] <= |password| && d[3..3 + d[2]] == password[..d[2]]
            && (if |password| <= PASSWORD_SIZE then d[3..3 + d[2]] == password else d[2] == PASSWORD_SIZE)
            && forall i :: 3 + d[2] <= i < |d| ==> d[i] == 0
  {
    var d := LockData(facility, active, password);
    assert d[3..3 + d[2]] == password[..d[2]];
    if |password| <= PASSWORD_SIZE { assert password[..d[2]] == password; }
  }

  /** `ipc_gen_phone_res_check`: the top bit of the code. */
  predicate Ok(res: Store.Bytes) {
    |res| >= RES_SIZE && res[4] / 128 % 2 == 1
  }

  /** Seen on bytes: the code, sent low byte first, is at least 0x8000. */
  lemma OkIsTopBit(res: Store.Bytes)
    requires forall i :: 0 <= i < |res| ==> 0 <= res[i] < 256
    ensures Ok(res) <==> |res| >= RES_SIZE && res[3] + 256 * res[4] >= 0x8000
  {
  }

  datatype Error = Success | PasswordIncorrect | GenericFailure | NotAvailable

  /** How a request is completed from a stored result and the number of tries left. */
  function Verdict(res: Store.Bytes, retries: int): (Error, int)
    requires |res| >= RES_SIZE
  {
    if Ok(res) then (Success, retries)
    else if res[3] == 0x10 then (PasswordIncorrect, retries)
    else if res[3] == 0x0c then (PasswordIncorrect, 0)
    else (GenericFailure, retries)
  }

  datatype Cmd = PinStatus | PhoneLock | LockInfo

  function CommandOf(cmd: Cmd): int {
    match cmd
    case PinStatus => 0x0501
    case PhoneLock => 0x0502
    case LockInfo => 0x0508
  }

  datatype Request = Request(token: nat, lock: Store.Bytes)

  ghost predicate Fixed(lock: Store.Bytes) {
    |lock| > 0 && lock[0] == FD
  }

  datatype Event =
    | Sent(cmd: Cmd, req: Request, data: Store.Bytes)
    | Answered(of: nat, res: Store.Bytes)                  // a generic response to the command at a place
    | Done(req: Request, error: Error, retries: int)
    | Reset

  datatype State = State(
    next: nat,
    live: Option<Request>,           // the HANDLED lock request
    store: seq<Store.Entry>,
    expects: seq<Expect>,
    nextExpect: nat,
    out: set<nat>,                   // the commands the modem may still answer, by their place in the log
    log: seq<Event>)

  datatype Op =
    | DoLock(facility: string, active: bool, password: Store.Bytes)
    | Answer(p: nat, res: Store.Bytes)                      // generic response to an open command
    | Info(p: nat, retries: int)                            // lock information in answer to an open command
    | OtherResult(kind: int, res: Store.Bytes)              // another PIN request stores its result
    | OtherInfo                                             // lock information for another PIN request
    | Unavailable
    | Cancel

  ghost predicate Initial(s: State) {
    s.live.None? && |s.store| == |s.expects| == |s.log| == 0 && s.out == {}
  }

  function Send(s: State, cmd: Cmd, req: Request, data: Store.Bytes): State {
    s.(out := s.out + {|s.log|}, log := s.log + [Sent(cmd, req, data)])
  }

  function Await(s: State, cmd: Cmd, token: nat): State {
    s.(expects := s.expects + [Expect(s.nextExpect, token, CommandOf(cmd), Callback)], nextExpect := s.nextExpect + 1)
  }

  /** `ril_request_set_facility_lock` on a new request that it takes up. */
  function HandleLock(s: State, lock: Store.Bytes): State
    requires |lock| > 0
  {
    var r := Request(s.next, lock);
    var t := s.(next := s.next + 1, live := Some(r));
    if lock[0] == FD
    then Send(Await(t.(store := Store.SetUniq(s.store, SET_FACILITY_LOCK, lock)), PinStatus, r.token), PinStatus, r, [])
    else Send(Await(t, PhoneLock, r.token), PhoneLock, r, lock)
  }

  /** `ipc_sec_callback`; the request is looked up first, and nothing happens when it is gone. */
  function Resume(s: State, token: nat, res: Store.Bytes): State
    requires |res| >= RES_SIZE
  {
    if s.live.None? || s.live.value.token != token then s
    else
      var (rest, lock) := Store.Get(s.store, SET_FACILITY_LOCK);
      if lock.Some? && |lock.value| > 0 && Ok(res)
      then Send(Await(s.(store := rest), PhoneLock, token), PhoneLock, s.live.value, lock.value)
      else Send(s.(store := Store.SetUniq(rest, SET_FACILITY_LOCK, res[..RES_SIZE])), LockInfo, s.live.value, [])
  }

  function Finish(s: State, error: Error, retries: int): State
    requires s.live.Some?
  {
    s.(live := None, log := s.log + [Done(s.live.value, error, retries)])
  }

  function StepUnavailable(s: State): State {
    var t := if s.live.Some? then Finish(s, NotAvailable, 0) else s;
    t.(store := [], expects := [], out := {}, log := t.log + [Reset])
  }

  /** `ipc_gen_phone_res`; an error return makes the client loop give up, which ends in UNAVAILABLE. */
  function Generic(s: State, token: nat, command: int, res: Store.Bytes): State {
    if |res| < RES_SIZE then StepUnavailable(s)
    else
      var k := FindAseq(s.expects, token);
      match Respond(s.expects, token, command, Ok(res))
      case Ignored => s
      case Mismatch => StepUnavailable(s)
      case _ => Resume(s.(expects := Without(s.expects, k)), token, res)
  }

  predicate Open(s: State, p: nat) {
    p in s.out && p < |s.log| && s.log[p].Sent?
  }

  function StepAnswer(s: State, p: nat, res: Store.Bytes): State
    requires Open(s, p)
  {
    var e := s.log[p];
    Generic(s.(out := s.out - {p}, log := s.log + [Answered(p, res)]), e.req.token, CommandOf(e.cmd), res)
  }

  /** The first kind, from place i of the order, under which a whole result is stored. */
  function Pick(store: seq<Store.Entry>, i: nat): (k: nat)
    requires i <= |KINDS|
    ensures i <= k <= |KINDS|
    ensures k < |KINDS| ==> Store.SizeGet(store, KINDS[k]) >= RES_SIZE
    ensures forall j :: i <= j < k ==> Store.SizeGet(store, KINDS[j]) < RES_SIZE
    decreases |KINDS| - i
  {
    if i == |KINDS| || Store.SizeGet(store, KINDS[i]) >= RES_SIZE then i else Pick(store, i + 1)
  }

  /** The loop of `ipc_sec_lock_infomation`: what it takes out of the store. */
  function TakeResult(store: seq<Store.Entry>): (r: (seq<Store.Entry>, Option<Store.Bytes>))
    ensures if r.1.Some? then |r.1.value| >= RES_SIZE else r.0 == store
  {
    var k := Pick(store, 0);
    if k == |KINDS| then (store, None) else Store.Get(store, KINDS[k])
  }

  function StepInfo(s: State, p: nat, retries: int): State
    requires Open(s, p)
  {
    var t := s.(out := s.out - {p});
    var (rest, res) := TakeResult(s.store);
    if res.None? then t
    else if s.live.Some? && s.live.value.token == s.log[p].req.token
    then var (error, count) := Verdict(res.value, retries); Finish(t.(store := rest), error, count)
    else t.(store := rest)
  }

  function Step(s: State, op: Op): State {
    match op
    case DoLock(facility, active, password) =>
      // An unknown facility is completed at once; a request that finds one in flight is put off.
      if FacilityType(facility) == 0 || s.live.Some? then s
      else HandleLock(s, LockData(FacilityType(facility), active, password))
    case Answer(p, res) => if Open(s, p) && !s.log[p].cmd.LockInfo? then StepAnswer(s, p, res) else s
    case Info(p, retries) => if Open(s, p) && s.log[p].cmd.LockInfo? then StepInfo(s, p, retries) else s
    case OtherResult(kind, res) =>
      if kind in KINDS[..4] then s.(store := Store.SetUniq(s.store, kind, res)) else s
    case OtherInfo => s.(store := TakeResult(s.store).0)
    case Unavailable => StepUnavailable(s)
    case Cancel => s.(live := None)
  }

  function Run(s: State, ops: seq<Op>): State
    decreases |ops|
  {
    if |ops| == 0 then s else Run(Step(s, ops[0]), ops[1..])
  }

  // ----- what the log may show

  /** At b the modem gave a good answer to a command of a request. */
  ghost predicate OkAt(log: seq<Event>, b: nat, cmd: Cmd, req: Request) {
    b < |log| && log[b].Answered? && log[b].of < b && Ok(log[b].res) && IsSent(log[log[b].of], cmd, req)
  }

  ghost predicate IsSent(e: Event, cmd: Cmd, req: Request) {
    e.Sent? && e.cmd == cmd && e.req == req
  }

  ghost predicate OkBefore(log: seq<Event>, n: nat, cmd: Cmd, req: Request) {
    exists b: nat :: b < n && OkAt(log, b, cmd, req)
  }

  /** A lock is sent as it was asked for, and a fixed-dialling one only after a good answer to its PIN2. */
  ghost predicate GoodLock(log: seq<Event>, j: nat) {
    j < |log| && log[j].Sent? && log[j].cmd.PhoneLock? ==>
      log[j].data == log[j].req.lock && (Fixed(log[j].data) ==> OkBefore(log, j, PinStatus, log[j].req))
  }

  /** Success is reported only after good answers to the lock and, for a fixed-dialling one, to its PIN2. */
  ghost predicate GoodSuccess(log: seq<Event>, j: nat) {
    j < |log| && log[j].Done? && log[j].error.Success? ==>
      OkBefore(log, j, PhoneLock, log[j].req) && (Fixed(log[j].req.lock) ==> OkBefore(log, j, PinStatus, log[j].req))
  }

  ghost predicate DoneOnce(log: seq<Event>) {
    forall i, j :: 0 <= i < j < |log| && log[i].Done? && log[j].Done? ==> log[i].req.token != log[j].req.token
  }

  ghost predicate Good(log: seq<Event>) {
    && (forall j: nat {:trigger GoodLock(log, j)} :: GoodLock(log, j))
    && (forall j: nat {:trigger GoodSuccess(log, j)} :: GoodSuccess(log, j))
    && DoneOnce(log)
  }

  lemma {:induction false} OkStays(log: seq<Event>, e: Event, n: nat, cmd: Cmd, req: Request)
    requires n <= |log|
    ensures OkBefore(log, n, cmd, req) <==> OkBefore(log + [e], n, cmd, req)
    ensures n == |log| ==>
              (OkBefore(log + [e], n + 1, cmd, req) <==> OkBefore(log, n, cmd, req) || OkAt(log + [e], n, cmd, req))
  {
    var l := log + [e];
    if n == |log| && OkBefore(l, n + 1, cmd, req) {
      var b: nat :| b < n + 1 && OkAt(l, b, cmd, req);
      assert b < n ==> OkBefore(l, n, cmd, req);
    }
    if OkBefore(log, n, cmd, req) {
      var b: nat :| b < n && OkAt(log, b, cmd, req);
      assert OkAt(l, b, cmd, req);
    }
    if OkBefore(l, n, cmd, req) {
      var b: nat :| b < n && OkAt(l, b, cmd, req);
      assert l[b] == log[b] && l[log[b].of] == log[log[b].of];
      assert OkAt(log, b, cmd, req);
    }
  }

  /** What is at the end alone decides whether a longer log is good. */
  lemma {:induction false} LongerGood(log: seq<Event>, e: Event)
    requires Good(log) && GoodLock(log + [e], |log|) && GoodSuccess(log + [e], |log|)
    requires e.Done? ==> forall i :: 0 <= i < |log| && log[i].Done? ==> log[i].req.token != e.req.token
    ensures Good(log + [e])
  {
    var l := log + [e];
    forall j: nat ensures GoodLock(l, j) && GoodSuccess(l, j) {
      if j < |log| {
        assert GoodLock(log, j) && GoodSuccess(log, j);
        assert l[j] == log[j];
        if l[j].Sent? || l[j].Done? {
          OkStays(log, e, j, PinStatus, l[j].req);
          OkStays(log, e, j, PhoneLock, l[j].req);
        }
      }
    }
    hide OkBefore;
  }

  // ----- the state behind the log

  ghost predicate OpenFor(s: State, p: nat, token: nat) {
    Open(s, p) && s.log[p].req.token == token
  }

  ghost predicate Quiet(s: State, token: nat) {
    forall p: nat {:trigger OpenFor(s, p, token)} :: !OpenFor(s, p, token)
  }

  /** Each request has one open command at most. */
  ghost predicate Wf(s: State) {
    && (forall p: nat :: p in s.out ==> Open(s, p))
    && (forall p: nat, token: nat {:trigger OpenFor(s, p, token)} :: OpenFor(s, p, token) ==>
          token < s.next && (s.live.Some? && s.live.value.token == token ==> s.log[p].req == s.live.value))
    && (forall p: nat, q: nat, token: nat {:trigger OpenFor(s, p, token), OpenFor(s, q, token)} ::
          OpenFor(s, p, token) && OpenFor(s, q, token) ==> p == q)
    && Fresh(s.log, s.next, s.live) && Older(s.expects, s.next)
  }

  ghost predicate Older(expects: seq<Expect>, next: nat) {
    forall k :: 0 <= k < |expects| ==> expects[k].aseq < next
  }

  /** Tokens in the log were given out, and the request in flight is not done. */
  ghost predicate Fresh(log: seq<Event>, next: nat, live: Option<Request>) {
    && (forall j :: 0 <= j < |log| && (log[j].Sent? || log[j].Done?) ==> log[j].req.token < next)
    && (live.Some? ==> live.value.token < next)
    && (live.Some? ==> forall j :: 0 <= j < |log| && log[j].Done? ==> log[j].req.token != live.value.token)
  }

  ghost function Stored(s: State): seq<Store.Bytes> {
    Store.Fifo(s.store, SET_FACILITY_LOCK)
  }

  /** No open command of the request is another than this one. */
  ghost predicate Only(s: State, req: Request, cmd: Cmd) {
    forall p: nat {:trigger OpenFor(s, p, req.token)} :: OpenFor(s, p, req.token) ==> s.log[p].cmd == cmd
  }

  /** The only expectation of the token is the callback for this command. */
  ghost predicate Expected(q: seq<Expect>, token: nat, cmd: Cmd) {
    var k := FindAseq(q, token);
    && k < |q| && q[k].command == CommandOf(cmd) && q[k].wish == Callback
    && forall j :: 0 <= j < |q| && j != k ==> q[j].aseq != token
  }

  /** The request has this command open and will be called back for its answer. */
  ghost predicate Awaits(s: State, req: Request, cmd: Cmd) {
    && Only(s, req, cmd) && !Quiet(s, req.token)
    && (!cmd.LockInfo? ==> Expected(s.expects, req.token, cmd))
  }

  ghost predicate PinDone(s: State, req: Request) {
    Fixed(req.lock) ==> OkBefore(s.log, |s.log|, PinStatus, req)
  }

  ghost predicate LockDone(s: State, req: Request) {
    OkBefore(s.log, |s.log|, PhoneLock, req)
  }

  /** The lock, and the PIN2 before it where there is one, were answered well. */
  ghost predicate Accepted(s: State, req: Request) {
    PinDone(s, req) && LockDone(s, req)
  }

  /** PIN2 is being unlocked: the lock is stored. */
  ghost predicate PinStage(s: State, req: Request) {
    Awaits(s, req, PinStatus) && Stored(s) == [req.lock] && IsLock(req.lock) && Fixed(req.lock) && !LockDone(s, req)
  }

  /** The lock was sent: nothing is stored. */
  ghost predicate LockStage(s: State, req: Request) {
    Awaits(s, req, PhoneLock) && |Stored(s)| == 0 && PinDone(s, req) && !LockDone(s, req)
  }

  /** The result is stored: it is good exactly if all answers were. */
  ghost predicate InfoStage(s: State, req: Request) {
    && Awaits(s, req, LockInfo) && |Stored(s)| == 1 && |Stored(s)[0]| == RES_SIZE
    && (Ok(Stored(s)[0]) <==> Accepted(s, req))
  }

  /** Another lock information took the result: the request waits for a completion that may not come. */
  ghost predicate LostStage(s: State, req: Request) {
    Only(s, req, LockInfo) && |Stored(s)| == 0
  }

  /** Lock data and a result cannot be taken for each other: their sizes differ. */
  ghost predicate IsLock(data: Store.Bytes) {
    |data| == 3 + PASSWORD_SIZE
  }

  ghost predicate StageOf(s: State, req: Request) {
    PinStage(s, req) || LockStage(s, req) || InfoStage(s, req) || LostStage(s, req)
  }

  ghost predicate Staged(s: State) {
    if s.live.None? then |Stored(s)| == 0 else StageOf(s, s.live.value)
  }

  ghost predicate Inv(s: State) {
    Wf(s) && Good(s.log) && Staged(s)
  }

  lemma {:induction false} NoneYet(s: State, cmd: Cmd, lock: Store.Bytes)
    requires Fresh(s.log, s.next, s.live)
    ensures !OkBefore(s.log, |s.log|, cmd, Request(s.next, lock))
  {
  }

  lemma {:induction false} ExpectedNew(q: seq<Expect>, e: Expect, token: nat, cmd: Cmd)
    requires e.aseq == token && e.command == CommandOf(cmd) && e.wish == Callback
    requires forall k :: 0 <= k < |q| ==> q[k].aseq != token
    ensures Expected(q + [e], token, cmd)
  {
    assert (q + [e])[|q|] == e;
    assert FindAseq(q + [e], token) == |q|;
  }

  lemma {:induction false} ExpectedStill(q: seq<Expect>, k: nat, token: nat, cmd: Cmd)
    requires Expected(q, token, cmd) && k < |q| && q[k].aseq != token
    ensures Expected(Without(q, k), token, cmd)
  {
    var m, r := FindAseq(q, token), Without(q, k);
    var n := if m < k then m else m - 1;
    assert r[n] == q[m];
    assert FindAseq(r, token) == n;
  }

  lemma {:induction false} ExpectedGone(q: seq<Expect>, token: nat, cmd: Cmd)
    requires Expected(q, token, cmd)
    ensures var r := Without(q, FindAseq(q, token)); forall k :: 0 <= k < |r| ==> r[k].aseq != token
  {
  }

  // ----- sending

  /** Sending the only open command of the request in flight. */
  lemma {:induction false} SendKeeps(s: State, cmd: Cmd, data: Store.Bytes)
    requires Wf(s) && Good(s.log) && s.live.Some? && Quiet(s, s.live.value.token)
    requires cmd.PhoneLock? ==> data == s.live.value.lock && PinDone(s, s.live.value)
    requires !cmd.LockInfo? ==> Expected(s.expects, s.live.value.token, cmd)
    ensures var r, t := s.live.value, Send(s, cmd, s.live.value, data);
            && Wf(t) && Good(t.log) && Awaits(t, r, cmd)
            && (PinDone(s, r) <==> PinDone(t, r)) && (LockDone(s, r) <==> LockDone(t, r))
  {
    var r, n, t := s.live.value, |s.log|, Send(s, cmd, s.live.value, data);
    var e := Sent(cmd, r, data);
    assert t.log[n] == e;
    OkStays(s.log, e, n, PinStatus, r);
    OkStays(s.log, e, n, PhoneLock, r);
    hide OkBefore;
    LongerGood(s.log, e);
    hide Good, GoodLock, GoodSuccess;
    SendWf(s, cmd, data);
  }

  lemma {:induction false} SendWf(s: State, cmd: Cmd, data: Store.Bytes)
    requires Wf(s) && s.live.Some? && Quiet(s, s.live.value.token)
    ensures var t := Send(s, cmd, s.live.value, data);
            Wf(t) && Only(t, s.live.value, cmd) && !Quiet(t, s.live.value.token)
  {
    var r, n, t := s.live.value, |s.log|, Send(s, cmd, s.live.value, data);
    assert OpenFor(t, n, r.token);
    forall p: nat, token: nat | OpenFor(t, p, token)
      ensures if p == n then token == r.token else OpenFor(s, p, token) && token != r.token
    {
      if p != n {
        assert t.log[p] == s.log[p];
        assert !OpenFor(s, p, r.token);
      }
    }
  }

  lemma {:induction false} AwaitKeeps(s: State, cmd: Cmd, token: nat)
    requires Wf(s) && token < s.next && Quiet(s, token)
    requires forall k :: 0 <= k < |s.expects| ==> s.expects[k].aseq != token
    ensures var t := Await(s, cmd, token); Wf(t) && Quiet(t, token) && Expected(t.expects, token, cmd)
  {
    var t := Await(s, cmd, token);
    ExpectedNew(s.expects, t.expects[|s.expects|], token, cmd);
    SameOpen(s, t);
  }

  /** Open commands do not depend on store, expectations or the request in flight. */
  lemma {:induction false} SameOpen(s: State, t: State)
    requires s.out == t.out && s.log == t.log
    ensures forall p: nat, token: nat {:trigger OpenFor(s, p, token)} {:trigger OpenFor(t, p, token)} ::
              OpenFor(s, p, token) <==> OpenFor(t, p, token)
    ensures forall token: nat :: Quiet(s, token) <==> Quiet(t, token)
  {
    forall p: nat, token: nat ensures OpenFor(s, p, token) <==> OpenFor(t, p, token) {
    }
    forall token: nat ensures Quiet(s, token) <==> Quiet(t, token) {
      assert forall p: nat :: OpenFor(s, p, token) <==> OpenFor(t, p, token);
    }
  }

  lemma {:induction false} SameWf(s: State, t: State)
    requires Wf(s) && t == s.(store := t.store, expects := t.expects, nextExpect := t.nextExpect)
    requires Older(t.expects, t.next)
    ensures Wf(t) && forall token: nat :: Quiet(s, token) <==> Quiet(t, token)
  {
    SameOpen(s, t);
    hide Quiet;
  }

  /** A new request, before anything is registered or sent for it. */
  function Begun(s: State, lock: Store.Bytes): State {
    s.(next := s.next + 1, live := Some(Request(s.next, lock)))
  }

  lemma {:induction false} BegunWf(s: State, lock: Store.Bytes)
    requires Wf(s) && s.live.None?
    ensures var t := Begun(s, lock); Wf(t) && Quiet(t, s.next) && !LockDone(t, Request(s.next, lock))
    ensures forall k :: 0 <= k < |s.expects| ==> s.expects[k].aseq != s.next
  {
    NoneYet(s, PhoneLock, lock);
    SameOpen(s, Begun(s, lock));
    hide OkBefore;
  }

  lemma {:induction false} LockKeeps(s: State, lock: Store.Bytes)
    requires Inv(s) && s.live.None? && IsLock(lock)
    ensures var t := HandleLock(s, lock);
            Inv(t) && t.live.Some? && if lock[0] == FD then PinStage(t, t.live.value) else LockStage(t, t.live.value)
  {
    var r, t := Request(s.next, lock), Begun(s, lock);
    BegunWf(s, lock);
    assert Older(t.expects, t.next) && |Stored(s)| == 0;
    hide Wf, Quiet, Good, OkBefore, Store.SetUniq, Expected, Awaits, Older;
    if lock[0] == FD {
      var u := t.(store := Store.SetUniq(s.store, SET_FACILITY_LOCK, lock));
      Store.SetUniqReplaces(s.store, SET_FACILITY_LOCK, lock, SET_FACILITY_LOCK);
      SameWf(t, u);
      AwaitKeeps(u, PinStatus, r.token);
      SendKeeps(Await(u, PinStatus, r.token), PinStatus, []);
    } else {
      AwaitKeeps(t, PhoneLock, r.token);
      SendKeeps(Await(t, PhoneLock, r.token), PhoneLock, lock);
    }
  }

  // ----- the answers

  lemma {:induction false} UnavailableKeeps(s: State)
    requires Wf(s) && Good(s.log)
    ensures Inv(StepUnavailable(s))
  {
    var t := if s.live.Some? then Finish(s, NotAvailable, 0) else s;
    if s.live.Some? { LongerGood(s.log, Done(s.live.value, NotAvailable, 0)); }
    LongerGood(t.log, Reset);
    hide Good, GoodLock, GoodSuccess;
  }

  /** The answer enters the log, and the command is no longer open. */
  function Received(s: State, p: nat, res: Store.Bytes): State {
    s.(out := s.out - {p}, log := s.log + [Answered(p, res)])
  }

  lemma {:induction false} ReceivedWf(s: State, p: nat, res: Store.Bytes)
    requires Wf(s) && Good(s.log) && Open(s, p)
    ensures var t := Received(s, p, res);
            && Wf(t) && Good(t.log) && Quiet(t, s.log[p].req.token)
            && (forall q: nat, token: nat {:trigger OpenFor(t, q, token)} :: OpenFor(t, q, token) ==>
                  OpenFor(s, q, token) && t.log[q] == s.log[q])
            && (forall q: nat, token: nat {:trigger OpenFor(s, q, token)} :: OpenFor(s, q, token) ==>
                  token == s.log[p].req.token || OpenFor(t, q, token))
  {
    var t, token := Received(s, p, res), s.log[p].req.token;
    LongerGood(s.log, Answered(p, res));
    hide Good;
    assert OpenFor(s, p, token);
    forall q: nat, k: nat | OpenFor(t, q, k) ensures OpenFor(s, q, k) && k != token && t.log[q] == s.log[q] {
      assert t.log[q] == s.log[q];
      assert OpenFor(s, q, k);
    }
    forall q: nat, k: nat | OpenFor(s, q, k) && k != token ensures OpenFor(t, q, k) {
      assert q != p && t.log[q] == s.log[q];
    }
  }

  lemma {:induction false} ReceivedOks(s: State, p: nat, res: Store.Bytes, req: Request)
    requires Open(s, p)
    ensures var t := Received(s, p, res);
            && (LockDone(t, req) <==> LockDone(s, req) || (Ok(res) && IsSent(s.log[p], PhoneLock, req)))
            && (PinDone(t, req) <==> PinDone(s, req) || (Ok(res) && IsSent(s.log[p], PinStatus, req)))
  {
    var t, n := Received(s, p, res), |s.log|;
    OkStays(s.log, Answered(p, res), n, PinStatus, req);
    OkStays(s.log, Answered(p, res), n, PhoneLock, req);
    assert t.log[n] == Answered(p, res) && t.log[p] == s.log[p];
    hide OkBefore;
  }

  /** An answer for a request that is not in flight changes nothing that matters. */
  lemma {:induction false} OtherAnswer(s: State, p: nat, res: Store.Bytes)
    requires Inv(s) && Open(s, p) && (s.live.Some? ==> s.live.value.token != s.log[p].req.token)
    ensures Inv(Received(s, p, res))
  {
    var t := Received(s, p, res);
    ReceivedWf(s, p, res);
    if s.live.Some? {
      var r := s.live.value;
      ReceivedOks(s, p, res, r);
      hide Good, OkBefore, Wf, Ok, Expected;
      assert Quiet(s, r.token) <==> Quiet(t, r.token) by {
        if q: nat :| OpenFor(s, q, r.token) { assert OpenFor(t, q, r.token); }
        if q: nat :| OpenFor(t, q, r.token) { assert OpenFor(s, q, r.token); }
      }
      hide PinDone, LockDone;
    }
  }

  /** An expectation of another token can go. */
  lemma {:induction false} DropExpect(s: State, k: nat)
    requires Inv(s) && k < |s.expects| && (s.live.Some? ==> s.live.value.token != s.expects[k].aseq)
    ensures Inv(s.(expects := Without(s.expects, k)))
  {
    var t := s.(expects := Without(s.expects, k));
    SameOpen(s, t);
    if s.live.Some? {
      var r := s.live.value;
      if Expected(s.expects, r.token, PinStatus) { ExpectedStill(s.expects, k, r.token, PinStatus); }
      if Expected(s.expects, r.token, PhoneLock) { ExpectedStill(s.expects, k, r.token, PhoneLock); }
    }
    hide Good, OkBefore, Expected, Quiet;
  }

  /** The stage in which an answer to the command arrives, with the answer in the log. */
  ghost predicate Awaited(s: State, cmd: Cmd, res: Store.Bytes)
    requires s.live.Some?
  {
    var r := s.live.value;
    if cmd.PinStatus?
    then Stored(s) == [r.lock] && |r.lock| > 0 && Fixed(r.lock) && (Ok(res) ==> PinDone(s, r)) && !LockDone(s, r)
    else cmd.PhoneLock? && |Stored(s)| == 0 && PinDone(s, r) && (Ok(res) <==> LockDone(s, r))
  }

  /** What the callback does with the answer to the only open command of the request in flight. */
  ghost predicate CalledBack(s: State, cmd: Cmd, token: nat, res: Store.Bytes) {
    && Wf(s) && Good(s.log) && s.live.Some? && s.live.value.token == token && Quiet(s, token)
    && (forall k :: 0 <= k < |s.expects| ==> s.expects[k].aseq != token)
    && Awaited(s, cmd, res)
  }

  /** After a good answer to PIN2 the stored lock is sent. */
  lemma {:induction false} ResumeSends(s: State, res: Store.Bytes)
    requires s.live.Some? && CalledBack(s, PinStatus, s.live.value.token, res) && Ok(res)
    ensures var r, t := s.live.value, Resume(s, s.live.value.token, res); Inv(t) && t.live == s.live && LockStage(t, r)
  {
    var r := s.live.value;
    var (rest, lock) := Store.Get(s.store, SET_FACILITY_LOCK);
    Store.GetPops(s.store, SET_FACILITY_LOCK, SET_FACILITY_LOCK);
    var v := s.(store := rest);
    assert Older(s.expects, s.next);
    hide Good, OkBefore, Store.SetUniq, Store.Get, Wf, Quiet, Expected, Awaits, Older;
    SameWf(s, v);
    AwaitKeeps(v, PhoneLock, r.token);
    var w := Await(v, PhoneLock, r.token);
    SendKeeps(w, PhoneLock, lock.value);
    var t := Send(w, PhoneLock, r, lock.value);
    assert t == Resume(s, r.token, res);
    hide Resume, Awaited, CalledBack, Fixed;
    assert LockStage(t, r);
  }

  /** Any other answer is stored, and lock information is asked for. */
  lemma {:induction false} ResumeStores(s: State, cmd: Cmd, res: Store.Bytes)
    requires s.live.Some? && CalledBack(s, cmd, s.live.value.token, res) && |res| >= RES_SIZE
    requires cmd.PinStatus? ==> !Ok(res)
    ensures var r, t := s.live.value, Resume(s, s.live.value.token, res); Inv(t) && t.live == s.live && InfoStage(t, r)
  {
    var r, own := s.live.value, res[..RES_SIZE];
    var (rest, lock) := Store.Get(s.store, SET_FACILITY_LOCK);
    Store.GetPops(s.store, SET_FACILITY_LOCK, SET_FACILITY_LOCK);
    var u := s.(store := Store.SetUniq(rest, SET_FACILITY_LOCK, own));
    Store.SetUniqReplaces(rest, SET_FACILITY_LOCK, own, SET_FACILITY_LOCK);
    assert Older(s.expects, s.next) && (Ok(own) <==> Ok(res));
    hide Good, OkBefore, Store.SetUniq, Store.Get, Wf, Quiet, Expected, Awaits, Older, Ok;
    SameWf(s, u);
    SendKeeps(u, LockInfo, []);
    var t := Send(u, LockInfo, r, []);
    assert t == Resume(s, r.token, res);
    hide Resume;
    assert InfoStage(t, r);
  }

  /** The callback runs on the answer, without its expectation. */
  function Resumed(s: State, p: nat, res: Store.Bytes): State
    requires Open(s, p) && FindAseq(s.expects, s.log[p].req.token) < |s.expects|
  {
    Received(s, p, res).(expects := Without(s.expects, FindAseq(s.expects, s.log[p].req.token)))
  }

  lemma {:induction false} AnswerResumes(s: State, p: nat, res: Store.Bytes)
    requires Open(s, p) && |res| >= RES_SIZE && Expected(s.expects, s.log[p].req.token, s.log[p].cmd)
    ensures StepAnswer(s, p, res) == Resume(Resumed(s, p, res), s.log[p].req.token, res)
  {
  }

  lemma {:induction false} ResumedWf(s: State, p: nat, res: Store.Bytes)
    requires Wf(s) && Good(s.log) && Open(s, p) && Expected(s.expects, s.log[p].req.token, s.log[p].cmd)
    ensures var u, token := Resumed(s, p, res), s.log[p].req.token;
            && Wf(u) && Good(u.log) && Quiet(u, token)
            && forall k :: 0 <= k < |u.expects| ==> u.expects[k].aseq != token
  {
    ReceivedWf(s, p, res);
    ExpectedGone(s.expects, s.log[p].req.token, s.log[p].cmd);
    assert Older(Resumed(s, p, res).expects, s.next);
    hide Wf, Good, Quiet, Older;
    SameWf(Received(s, p, res), Resumed(s, p, res));
  }

  /** The answer to the open command of the request in flight. */
  lemma {:induction false} OwnAnswer(s: State, p: nat, res: Store.Bytes)
    requires Inv(s) && Open(s, p) && !s.log[p].cmd.LockInfo? && |res| >= RES_SIZE
    requires s.live.Some? && s.live.value.token == s.log[p].req.token
    ensures Inv(StepAnswer(s, p, res))
  {
    var e, r := s.log[p], s.live.value;
    assert OpenFor(s, p, r.token);
    assert e.req == r && Awaits(s, r, e.cmd);
    ResumedWf(s, p, res);
    AnswerResumes(s, p, res);
    ReceivedOks(s, p, res, r);
    hide Good, OkBefore, Wf, Quiet, Ok, StepAnswer, Resume;
    assert Awaited(Resumed(s, p, res), e.cmd, res);
    hide Awaited, PinDone, LockDone, Inv, LockStage, InfoStage;
    if e.cmd.PinStatus? && Ok(res) {
      ResumeSends(Resumed(s, p, res), res);
    } else {
      ResumeStores(Resumed(s, p, res), e.cmd, res);
    }
  }

  lemma {:induction false} AnswerKeeps(s: State, p: nat, res: Store.Bytes)
    requires Inv(s) && Open(s, p) && !s.log[p].cmd.LockInfo?
    ensures Inv(StepAnswer(s, p, res))
  {
    var e, t := s.log[p], Received(s, p, res);
    ReceivedWf(s, p, res);
    UnavailableKeeps(t);
    if s.live.Some? && s.live.value.token == e.req.token {
      if |res| >= RES_SIZE { OwnAnswer(s, p, res); }
    } else {
      OtherAnswer(s, p, res);
      var k := FindAseq(t.expects, e.req.token);
      if k < |t.expects| { DropExpect(t, k); }
    }
    hide Inv, StepUnavailable;
  }

  // ----- lock information

  /** The store of the lock request holds what a lock information would take, and that is the lock itself. */
  ghost predicate TakesLock(s: State) {
    Pick(s.store, 0) == 4 && |Stored(s)| > 0 && IsLock(Stored(s)[0])
  }

  /** Taking the result, or something of another kind, does not put the exchange out of order. */
  lemma {:induction false} TakeKeeps(s: State)
    requires Inv(s) && !TakesLock(s)
    ensures Inv(s.(store := TakeResult(s.store).0))
  {
    hide Good, OkBefore, Expected, Fresh;
    var k, t := Pick(s.store, 0), s.(store := TakeResult(s.store).0);
    if k < |KINDS| { Store.GetPops(s.store, KINDS[k], SET_FACILITY_LOCK); }
    SameOpen(s, t);
    assert Wf(t);
    hide Wf, Quiet;
    assert k != 4 ==> Stored(t) == Stored(s);
  }

  lemma {:induction false} CloseKeeps(s: State, p: nat)
    requires Inv(s) && Open(s, p) && (s.live.Some? ==> s.live.value.token != s.log[p].req.token)
    ensures Inv(s.(out := s.out - {p}))
  {
    var t := s.(out := s.out - {p});
    forall q: nat, token: nat | OpenFor(t, q, token) ensures OpenFor(s, q, token) {
    }
    if s.live.Some? {
      assert forall q: nat :: OpenFor(s, q, s.live.value.token) ==> OpenFor(t, q, s.live.value.token);
    }
    hide Good, OkBefore, Expected;
  }

  /**
   What is reported for a stored result: success exactly for a good one, a wrong password exactly for two codes, a
   general failure for all others; and the modem's number of tries left, but none for one of the two codes.
   */
  ghost predicate ReportsResult(e: Event, req: Request, res: Store.Bytes, retries: int)
    requires |res| >= RES_SIZE
  {
    && e.Done? && e.req == req
    && (e.error == Success <==> Ok(res))
    && (e.error == PasswordIncorrect <==> !Ok(res) && res[3] in {0x10, 0x0c})
    && (e.error == GenericFailure <==> !Ok(res) && res[3] !in {0x10, 0x0c})
    && e.retries == if !Ok(res) && res[3] == 0x0c then 0 else retries
  }

  /** The request is completed, and the report is the one new entry of the log. */
  ghost predicate Completes(s: State, t: State, req: Request, res: Store.Bytes, retries: int)
    requires |res| >= RES_SIZE
  {
    && t.live.None? && |t.log| == |s.log| + 1 && t.log[..|s.log|] == s.log
    && ReportsResult(t.log[|s.log|], req, res, retries)
  }

  /** The request's own result, when it is the first found, is what is reported, once, and nothing stays stored. */
  lemma {:induction false} OwnResultReported(s: State, p: nat, retries: int)
    requires Inv(s) && Open(s, p) && s.log[p].cmd.LockInfo? && Pick(s.store, 0) == 4
    requires s.live.Some? && s.live.value.token == s.log[p].req.token
    ensures |Stored(s)| == 1 && |Stored(s)[0]| == RES_SIZE && s.live == Some(s.log[p].req)
    ensures var t := Step(s, Info(p, retries));
            |Stored(t)| == 0 && t.out == s.out - {p} && Completes(s, t, s.log[p].req, Stored(s)[0], retries)
  {
    var r := s.log[p].req;
    assert OpenFor(s, p, r.token);
    Store.GetPops(s.store, SET_FACILITY_LOCK, SET_FACILITY_LOCK);
    hide Good, OkBefore, Wf, Expected, Quiet;
  }

  /** Whatever result is the first found is reported in that way; the request stays in flight if there is none. */
  lemma {:induction false} FirstResultReported(s: State, p: nat, retries: int)
    requires Inv(s) && Open(s, p) && s.log[p].cmd.LockInfo?
    requires s.live.Some? && s.live.value.token == s.log[p].req.token
    ensures var t, k := Step(s, Info(p, retries)), Pick(s.store, 0);
            if k == |KINDS| then t == s.(out := s.out - {p})
            else
              && |Store.Fifo(s.store, KINDS[k])| > 0 && |Store.Fifo(s.store, KINDS[k])[0]| >= RES_SIZE
              && Completes(s, t, s.log[p].req, Store.Fifo(s.store, KINDS[k])[0], retries)
  {
    hide Inv, Ok, InfoStage, LostStage;
    var k := Pick(s.store, 0);
    OwnInfo(s, p, retries);
    if k < |KINDS| { Store.GetPops(s.store, KINDS[k], KINDS[k]); }
  }

  /** What the report is made from, and the state after it. */
  lemma {:induction false} OwnInfo(s: State, p: nat, retries: int)
    requires Inv(s) && Open(s, p) && s.log[p].cmd.LockInfo? && s.live.Some? && s.live.value.token == s.log[p].req.token
    ensures var k, t := Pick(s.store, 0), StepInfo(s, p, retries);
            && (InfoStage(s, s.live.value) || LostStage(s, s.live.value)) && s.live.value == s.log[p].req
            && (|Stored(s)| > 0 ==> k < |KINDS|)
            && (k == |KINDS| ==> t == s.(out := s.out - {p}))
            && (k < |KINDS| ==>
                  var first := TakeResult(s.store).1.value;
                  && t == Finish(s.(out := s.out - {p}, store := TakeResult(s.store).0),
                                 Verdict(first, retries).0, Verdict(first, retries).1)
                  && (if k == 4 then |Stored(s)| > 0 && Stored(t) == Stored(s)[1..] else Stored(t) == Stored(s)))
  {
    hide Good, OkBefore, Expected, Quiet, Fresh, Verdict;
    var k := Pick(s.store, 0);
    assert OpenFor(s, p, s.live.value.token);
    Store.GetPops(s.store, SET_FACILITY_LOCK, SET_FACILITY_LOCK);
    if k < |KINDS| {
      Store.GetPops(s.store, KINDS[k], KINDS[k]);
      Store.GetPops(s.store, KINDS[k], SET_FACILITY_LOCK);
    }
  }

  /** The log after the report is good exactly if the report is right. */
  lemma {:induction false} ReportGood(s: State, p: nat, res: Store.Bytes, retries: int)
    requires Wf(s) && Good(s.log) && Open(s, p) && s.live == Some(s.log[p].req) && |res| >= RES_SIZE
    ensures var (error, count) := Verdict(res, retries);
            Good(s.log + [Done(s.live.value, error, count)]) <==>
              (Ok(res) ==> Accepted(s, s.live.value))
  {
    var (error, count) := Verdict(res, retries);
    var r, n := s.live.value, |s.log|;
    var e := Done(r, error, count);
    var l := s.log + [e];
    OkStays(s.log, e, n, PhoneLock, r);
    OkStays(s.log, e, n, PinStatus, r);
    hide OkBefore;
    assert l[n] == e;
    if GoodSuccess(l, n) { LongerGood(s.log, e); }
  }

  /** The state after a report, with nothing left in the store. */
  lemma {:induction false} ReportedInv(s: State, p: nat, store: seq<Store.Entry>, e: Event)
    requires Wf(s) && Open(s, p) && s.live == Some(s.log[p].req) && e.Done? && e.req == s.log[p].req
    requires Good(s.log + [e]) && |Store.Fifo(store, SET_FACILITY_LOCK)| == 0
    ensures Inv(s.(live := None, store := store, out := s.out - {p}, log := s.log + [e]))
  {
    var t := s.(live := None, store := store, out := s.out - {p}, log := s.log + [e]);
    hide Good;
    assert OpenFor(s, p, e.req.token);
    forall q: nat, token: nat | OpenFor(t, q, token)
      ensures OpenFor(s, q, token) && token != e.req.token && t.log[q] == s.log[q]
    {
      assert t.log[q] == s.log[q];
      assert OpenFor(s, q, token);
    }
  }

  /** A lock information for the request in flight. */
  lemma {:induction false} OwnInfoKeeps(s: State, p: nat, retries: int)
    requires Inv(s) && Open(s, p) && s.log[p].cmd.LockInfo? && Undisturbed(s, Info(p, retries))
    requires s.live.Some? && s.live.value.token == s.log[p].req.token
    ensures Inv(StepInfo(s, p, retries))
  {
    var k, t := Pick(s.store, 0), StepInfo(s, p, retries);
    OwnInfo(s, p, retries);
    if k == |KINDS| {
      forall q: nat, token: nat | OpenFor(t, q, token) ensures OpenFor(s, q, token) {
      }
      hide Good, OkBefore, Expected;
    } else {
      var first := TakeResult(s.store).1.value;
      var (error, count) := Verdict(first, retries);
      ReportGood(s, p, first, retries);
      if k == 4 { Store.GetPops(s.store, SET_FACILITY_LOCK, SET_FACILITY_LOCK); }
      hide Good, OkBefore, Wf, Expected, Quiet;
      ReportedInv(s, p, t.store, Done(s.live.value, error, count));
    }
  }

  /** A lock information for a request that is gone is one for another request. */
  lemma {:induction false} InfoKeeps(s: State, p: nat, retries: int)
    requires Inv(s) && Open(s, p) && s.log[p].cmd.LockInfo? && Undisturbed(s, Info(p, retries))
    ensures Inv(StepInfo(s, p, retries))
  {
    if s.live.Some? && s.live.value.token == s.log[p].req.token {
      OwnInfoKeeps(s, p, retries);
    } else {
      CloseKeeps(s, p);
      assert !TakesLock(s);
      hide Inv;
      TakeKeeps(s.(out := s.out - {p}));
    }
  }

  // ----- what goes out and what is reported

  /** After the callback: the lock follows a good PIN2, and for any other answer the result is stored. */
  ghost predicate GoesOn(s: State, t: State, cmd: Cmd, res: Store.Bytes)
    requires s.live.Some? && |res| >= RES_SIZE
  {
    var r := s.live.value;
    && t.live == s.live
    && if cmd.PinStatus? && Ok(res)
       then t.log == s.log + [Sent(PhoneLock, r, r.lock)] && |Stored(t)| == 0
       else t.log == s.log + [Sent(LockInfo, r, [])] && Stored(t) == [res[..RES_SIZE]]
  }

  lemma {:induction false} ResumeGoesOn(s: State, cmd: Cmd, res: Store.Bytes)
    requires |res| >= RES_SIZE && s.live.Some? && CalledBack(s, cmd, s.live.value.token, res)
    ensures GoesOn(s, Resume(s, s.live.value.token, res), cmd, res)
  {
    hide Good, OkBefore, Wf, Quiet, Ok, Store.SetUniq;
    var (rest, lock) := Store.Get(s.store, SET_FACILITY_LOCK);
    Store.GetPops(s.store, SET_FACILITY_LOCK, SET_FACILITY_LOCK);
    Store.SetUniqReplaces(rest, SET_FACILITY_LOCK, res[..RES_SIZE], SET_FACILITY_LOCK);
    hide Store.Get;
  }

  /** The answer to the open command of the request in flight. */
  lemma {:induction false} AnswerGoesOn(s: State, p: nat, res: Store.Bytes)
    requires Inv(s) && Open(s, p) && !s.log[p].cmd.LockInfo? && |res| >= RES_SIZE
    requires s.live.Some? && s.live.value.token == s.log[p].req.token
    ensures GoesOn(Received(s, p, res), Step(s, Answer(p, res)), s.log[p].cmd, res)
  {
    var e, r := s.log[p], s.live.value;
    assert OpenFor(s, p, r.token);
    assert e.req == r && Awaits(s, r, e.cmd);
    ResumedWf(s, p, res);
    AnswerResumes(s, p, res);
    ReceivedOks(s, p, res, r);
    assert Step(s, Answer(p, res)) == StepAnswer(s, p, res);
    hide Good, OkBefore, Wf, Quiet, Ok, StepAnswer, Resume, Step;
    assert Awaited(Resumed(s, p, res), e.cmd, res);
    hide Awaited, PinDone, LockDone, Inv;
    ResumeGoesOn(Resumed(s, p, res), e.cmd, res);
  }

  /** A response that is too short ends in UNAVAILABLE: the request in flight fails, and nothing is left. */
  lemma {:induction false} ShortAnswer(s: State, p: nat, res: Store.Bytes)
    requires Open(s, p) && !s.log[p].cmd.LockInfo? && |res| < RES_SIZE
    ensures var t := Step(s, Answer(p, res));
            && t.live.None? && |t.store| == |t.expects| == 0 && t.out == {}
            && t.log == s.log + [Answered(p, res)]
                        + (if s.live.Some? then [Done(s.live.value, NotAvailable, 0)] else []) + [Reset]
  {
  }

  /** An answer that ends the exchange is what the next lock information reports, if it finds no other result. */
  lemma {:induction false} AnswerIsReported(s: State, p: nat, res: Store.Bytes, retries: int)
    requires Inv(s) && Open(s, p) && !s.log[p].cmd.LockInfo? && |res| >= RES_SIZE
    requires s.live.Some? && s.live.value.token == s.log[p].req.token && !(s.log[p].cmd.PinStatus? && Ok(res))
    requires Pick(Step(s, Answer(p, res)).store, 0) == 4
    ensures var t := Step(s, Answer(p, res));
            && t.log == s.log + [Answered(p, res), Sent(LockInfo, s.live.value, [])]
            && Completes(t, Step(t, Info(|s.log| + 1, retries)), s.live.value, res, retries)
  {
    var t, n := Step(s, Answer(p, res)), |s.log| + 1;
    StepKeeps(s, Answer(p, res));
    AnswerGoesOn(s, p, res);
    assert Received(s, p, res).log == s.log + [Answered(p, res)];
    assert t.log[n] == Sent(LockInfo, s.live.value, []);
    assert n in t.out by { AnswerOpens(s, p, res); }
    hide Inv, Step, Pick;
    OwnResultReported(t, n, retries);
  }

  lemma {:induction false} AnswerOpens(s: State, p: nat, res: Store.Bytes)
    requires Inv(s) && Open(s, p) && !s.log[p].cmd.LockInfo? && |res| >= RES_SIZE
    requires s.live.Some? && s.live.value.token == s.log[p].req.token
    ensures |s.log| + 1 in Step(s, Answer(p, res)).out
  {
    assert OpenFor(s, p, s.live.value.token);
    assert Awaits(s, s.live.value, s.log[p].cmd);
    AnswerResumes(s, p, res);
    hide Good, OkBefore, Wf, Quiet, Ok, StepAnswer, Store.Get, Store.SetUniq;
  }

  // ----- whole runs

  /**
   What keeps the exchange from being disturbed. A lock information for the lock request finds its own
   result first, or, if that is lost, a good one of another request only after good answers of its own; one
   for any other request does not take the lock itself; and no lock request is cancelled while something is
   stored for it.
   */
  ghost predicate Undisturbed(s: State, op: Op) {
    match op
    case Info(p, _) =>
      Open(s, p) && s.log[p].cmd.LockInfo? ==>
        if s.live.None? || s.live.value.token != s.log[p].req.token then !TakesLock(s)
        else if |Stored(s)| > 0 then Pick(s.store, 0) >= 4
        else TakeResult(s.store).1.Some? && Ok(TakeResult(s.store).1.value) ==> Accepted(s, s.live.value)
    case OtherInfo => !TakesLock(s)
    case Cancel => |Stored(s)| == 0
    case _ => true
  }

  ghost predicate UndisturbedRun(s: State, ops: seq<Op>)
    decreases |ops|
  {
    |ops| > 0 ==> Undisturbed(s, ops[0]) && UndisturbedRun(Step(s, ops[0]), ops[1..])
  }

  lemma {:induction false} StoreKeeps(s: State, store: seq<Store.Entry>)
    requires Inv(s) && Store.Fifo(store, SET_FACILITY_LOCK) == Stored(s)
    ensures Inv(s.(store := store))
  {
    var t := s.(store := store);
    SameOpen(s, t);
    hide Good, OkBefore, Expected, Quiet;
    assert Stored(t) == Stored(s);
  }

  lemma {:induction false} CancelKeeps(s: State)
    requires Inv(s) && |Stored(s)| == 0
    ensures Inv(s.(live := None))
  {
    var t := s.(live := None);
    SameOpen(s, t);
    hide Good, OkBefore, Expected, Quiet;
  }

  lemma {:induction false} StepKeeps(s: State, op: Op)
    requires Inv(s) && Undisturbed(s, op)
    ensures Inv(Step(s, op))
  {
    assert Wf(s) && Good(s.log);
    hide Inv, Wf, Good, HandleLock, StepAnswer, StepInfo, StepUnavailable;
    match op
    case DoLock(facility, active, password) =>
      LockDataShows(FacilityType(facility), active, password);
      if FacilityType(facility) != 0 && s.live.None? {
        LockKeeps(s, LockData(FacilityType(facility), active, password));
      }
    case Answer(p, res) => if Open(s, p) && !s.log[p].cmd.LockInfo? { AnswerKeeps(s, p, res); }
    case Info(p, retries) => if Open(s, p) && s.log[p].cmd.LockInfo? { InfoKeeps(s, p, retries); }
    case OtherResult(kind, res) =>
      if kind in KINDS[..4] {
        Store.SetUniqReplaces(s.store, kind, res, SET_FACILITY_LOCK);
        StoreKeeps(s, Store.SetUniq(s.store, kind, res));
      }
    case OtherInfo => TakeKeeps(s);
    case Unavailable => UnavailableKeeps(s);
    case Cancel => CancelKeeps(s);
  }

  lemma {:induction false} RunKeeps(s: State, ops: seq<Op>)
    requires Inv(s) && UndisturbedRun(s, ops)
    ensures Inv(Run(s, ops))
    decreases |ops|
  {
    hide Inv, Step, Undisturbed;
    if |ops| > 0 {
      StepKeeps(s, ops[0]);
      RunKeeps(Step(s, ops[0]), ops[1..]);
    }
  }

  /**
   In every undisturbed run each lock is sent as it was asked for, a fixed-dialling lock only after its
   PIN2 was accepted, each request is completed at most once, and success is reported only if the lock
   and the PIN2 before it were accepted.
   */
  lemma {:induction false} LockSafety(s: State, ops: seq<Op>)
    requires Initial(s) && UndisturbedRun(s, ops)
    ensures Good(Run(s, ops).log)
  {
    InitialInv(s);
    RunKeeps(s, ops);
  }

  lemma {:induction false} InitialInv(s: State)
    requires Initial(s)
    ensures Inv(s)
  {
  }
}
