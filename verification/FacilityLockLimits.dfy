/**
 When the exchange of FacilityLock is undisturbed, and what exactly disturbs it: for each kind of step the
 condition is equivalent to the safety of everything that can follow.
 */
module FacilityLockLimits {
  import opened Common
  import opened GenericResponse
  import Store = RequestStore
  import opened FacilityLock

  // ----- alone

  predicate Alone(op: Op) {
    !op.OtherResult? && !op.OtherInfo? && !op.Cancel?
  }

  ghost predicate NoOthers(store: seq<Store.Entry>) {
    forall k :: 0 <= k < 4 ==> |Store.Fifo(store, KINDS[k])| == 0
  }

  /** Only the request in flight waits for lock information. */
  ghost predicate Mine(s: State) {
    forall p: nat {:trigger Open(s, p)} :: Open(s, p) && s.log[p].cmd.LockInfo? ==> s.live == Some(s.log[p].req)
  }

  lemma {:induction false} NoneEarlier(store: seq<Store.Entry>)
    requires NoOthers(store)
    ensures Pick(store, 0) >= 4
    ensures |Store.Fifo(store, SET_FACILITY_LOCK)| == 0 ==> Pick(store, 0) == |KINDS|
  {
    var k := Pick(store, 0);
    if k < |KINDS| { Store.GetPops(store, KINDS[k], KINDS[k]); }
  }

  lemma {:induction false} GetAlone(store: seq<Store.Entry>)
    requires NoOthers(store)
    ensures NoOthers(Store.Get(store, SET_FACILITY_LOCK).0)
  {
    forall k | 0 <= k < 4 ensures |Store.Fifo(Store.Get(store, SET_FACILITY_LOCK).0, KINDS[k])| == 0 {
      Store.GetPops(store, SET_FACILITY_LOCK, KINDS[k]);
    }
  }

  lemma {:induction false} SetAlone(store: seq<Store.Entry>, data: Store.Bytes)
    requires NoOthers(store)
    ensures NoOthers(Store.SetUniq(store, SET_FACILITY_LOCK, data))
  {
    forall k | 0 <= k < 4 ensures |Store.Fifo(Store.SetUniq(store, SET_FACILITY_LOCK, data), KINDS[k])| == 0 {
      Store.SetUniqReplaces(store, SET_FACILITY_LOCK, data, KINDS[k]);
    }
  }

  lemma {:induction false} AnswerAlone(s: State, p: nat, res: Store.Bytes)
    requires NoOthers(s.store) && Open(s, p)
    ensures NoOthers(StepAnswer(s, p, res).store)
  {
    var rest := Store.Get(s.store, SET_FACILITY_LOCK).0;
    GetAlone(s.store);
    if |res| >= RES_SIZE { SetAlone(rest, res[..RES_SIZE]); }
    assert NoOthers([]);
    hide NoOthers, Store.SetUniq, Store.Get, FindAseq;
  }

  lemma {:induction false} InfoAlone(s: State, p: nat, retries: int)
    requires NoOthers(s.store) && Open(s, p)
    ensures NoOthers(StepInfo(s, p, retries).store)
  {
    NoneEarlier(s.store);
    GetAlone(s.store);
    hide NoOthers, Store.Get, Verdict;
  }

  lemma {:induction false} StepAlone(s: State, op: Op)
    requires NoOthers(s.store) && Alone(op)
    ensures NoOthers(Step(s, op).store)
  {
    assert NoOthers([]);
    hide NoOthers, Store.SetUniq, StepAnswer, StepInfo, LockData;
    match op
    case DoLock(facility, active, password) => SetAlone(s.store, LockData(FacilityType(facility), active, password));
    case Answer(p, res) => if Open(s, p) { AnswerAlone(s, p, res); }
    case Info(p, retries) => if Open(s, p) { InfoAlone(s, p, retries); }
    case _ =>
  }

  lemma {:induction false} FewerMine(s: State, t: State)
    requires Mine(s) && t.live == s.live && t.out <= s.out && |s.log| <= |t.log| && t.log[..|s.log|] == s.log
    requires forall q: nat :: q in s.out ==> q < |s.log|
    ensures Mine(t)
  {
    forall q: nat | Open(t, q) && t.log[q].cmd.LockInfo? ensures t.live == Some(t.log[q].req) {
      assert q in s.out && t.log[q] == t.log[..|s.log|][q];
      assert Open(s, q);
    }
  }

  lemma {:induction false} SendMine(s: State, cmd: Cmd, data: Store.Bytes)
    requires Mine(s) && s.live.Some? && forall q: nat :: q in s.out ==> q < |s.log|
    ensures Mine(Send(s, cmd, s.live.value, data))
  {
    var t := Send(s, cmd, s.live.value, data);
    forall q: nat | Open(t, q) && t.log[q].cmd.LockInfo? ensures t.live == Some(t.log[q].req) {
      if q < |s.log| {
        assert t.log[q] == s.log[q];
        assert Open(s, q);
      }
    }
  }

  lemma {:induction false} ResumeMine(s: State, token: nat, res: Store.Bytes)
    requires Mine(s) && |res| >= RES_SIZE && forall q: nat :: q in s.out ==> q < |s.log|
    ensures Mine(Resume(s, token, res))
  {
    hide Store.SetUniq, Store.Get, Mine, Ok;
    if s.live.Some? {
      var (rest, lock) := Store.Get(s.store, SET_FACILITY_LOCK);
      var v := Await(s.(store := rest), PhoneLock, token);
      var w := s.(store := Store.SetUniq(rest, SET_FACILITY_LOCK, res[..RES_SIZE]));
      FewerMine(s, v);
      FewerMine(s, w);
      if lock.Some? { SendMine(v, PhoneLock, lock.value); }
      SendMine(w, LockInfo, []);
    }
  }

  lemma {:induction false} AnswerMine(s: State, p: nat, res: Store.Bytes)
    requires Mine(s) && Open(s, p) && forall q: nat :: q in s.out ==> q < |s.log|
    ensures Mine(StepAnswer(s, p, res))
  {
    var t, token := Received(s, p, res), s.log[p].req.token;
    hide Resume, Mine, Ok;
    FewerMine(s, t);
    var k := FindAseq(t.expects, token);
    if k < |t.expects| && |res| >= RES_SIZE {
      FewerMine(s, t.(expects := Without(t.expects, k)));
      ResumeMine(t.(expects := Without(t.expects, k)), token, res);
    }
    NoneMine(StepUnavailable(t));
  }

  lemma {:induction false} NoneMine(s: State)
    requires s.out == {}
    ensures Mine(s)
  {
  }

  lemma {:induction false} InfoMine(s: State, p: nat, retries: int)
    requires Wf(s) && Mine(s) && Open(s, p) && s.log[p].cmd.LockInfo?
    ensures Mine(StepInfo(s, p, retries))
  {
    var t := StepInfo(s, p, retries);
    assert OpenFor(s, p, s.log[p].req.token);
    hide Verdict, TakeResult;
    forall q: nat | Open(t, q) && t.log[q].cmd.LockInfo? ensures t.live == Some(t.log[q].req) {
      assert t.log[q] == s.log[q] && Open(s, q);
      assert OpenFor(s, q, s.log[q].req.token);
    }
  }

  /** A step makes the request in flight wait, or takes away what waits with it. */
  lemma {:induction false} StepMine(s: State, op: Op)
    requires Wf(s) && Mine(s) && Alone(op)
    ensures Mine(Step(s, op))
  {
    assert forall q: nat :: q in s.out ==> Open(s, q);
    hide StepAnswer, StepInfo, Store.SetUniq, LockData;
    match op
    case DoLock(_, _, _) =>
      var t := Step(s, op);
      forall q: nat | Open(t, q) && t.log[q].cmd.LockInfo? ensures t.live == Some(t.log[q].req) {
        assert q < |s.log| ==> t.log[q] == s.log[q] && Open(s, q);
      }
    case Answer(p, res) => if Open(s, p) { AnswerMine(s, p, res); }
    case Info(p, retries) => if Open(s, p) && s.log[p].cmd.LockInfo? { InfoMine(s, p, retries); }
    case Unavailable => NoneMine(Step(s, op));
    case _ =>
  }

  lemma {:induction false} AloneUndisturbed(s: State, ops: seq<Op>)
    requires Inv(s) && NoOthers(s.store) && Mine(s) && forall i :: 0 <= i < |ops| ==> Alone(ops[i])
    ensures UndisturbedRun(s, ops)
    decreases |ops|
  {
    if |ops| > 0 {
      NoneEarlier(s.store);
      assert Undisturbed(s, ops[0]);
      StepMine(s, ops[0]);
      hide NoOthers, Step, Mine, Inv, Undisturbed;
      StepKeeps(s, ops[0]);
      StepAlone(s, ops[0]);
      AloneUndisturbed(Step(s, ops[0]), ops[1..]);
    }
  }

  /** With no other PIN request and no cancellation nothing disturbs the exchange. */
  lemma {:induction false} AloneSafety(s: State, ops: seq<Op>)
    requires Initial(s) && forall i :: 0 <= i < |ops| ==> Alone(ops[i])
    ensures Good(Run(s, ops).log)
  {
    assert NoOthers(s.store) && Mine(s);
    InitialInv(s);
    AloneUndisturbed(s, ops);
    LockSafety(s, ops);
  }

  // ----- what goes wrong otherwise

  /** Whatever happens next, the log stays good as long as nothing disturbs the exchange. */
  ghost predicate SafeAfter(s: State) {
    forall ops :: UndisturbedRun(s, ops) ==> Good(Run(s, ops).log)
  }

  lemma {:induction false} InvIsSafe(s: State)
    requires Inv(s)
    ensures SafeAfter(s)
  {
    forall ops | UndisturbedRun(s, ops) ensures Good(Run(s, ops).log) {
      RunKeeps(s, ops);
      assert Inv(Run(s, ops));
    }
  }

  lemma {:induction false} UnsafeRun(s: State, ops: seq<Op>)
    requires UndisturbedRun(s, ops) && !Good(Run(s, ops).log)
    ensures !SafeAfter(s)
  {
  }

  lemma {:induction false} RunTwo(s: State, a: Op, b: Op)
    requires Undisturbed(s, a) && Undisturbed(Step(s, a), b)
    ensures Run(s, [a, b]) == Step(Step(s, a), b) && UndisturbedRun(s, [a, b])
  {
    hide Step, Undisturbed;
    assert [a, b][1..] == [b];
    assert Run(Step(s, a), [b]) == Run(Step(Step(s, a), b), []);
    assert UndisturbedRun(Step(s, a), [b]);
  }

  /** What is left in the store by a request no longer in flight is sent as the lock of the next request. */
  lemma {:induction false} StaleLockSent(s: State)
    requires s.live.None? && Older(s.expects, s.next) && |Stored(s)| > 0
    requires |Stored(s)[0]| == RES_SIZE || Fixed(Stored(s)[0])
    ensures !SafeAfter(s)
  {
    var n, lock, stale, res := |s.log|, LockData(FacilityType("SC"), true, []), Stored(s)[0], [5, 2, 2, 0, 0x80];
    var ops := [DoLock("SC", true, []), Answer(n, res)];
    LockDataShows(FacilityType("SC"), true, []);
    assert stale != lock && |stale| > 0;
    hide Good;
    var h := HandleLock(s, lock);
    var r := Request(s.next, lock);
    assert h == Step(s, ops[0]);
    assert h.log == s.log + [Sent(PhoneLock, r, lock)] && h.log[n] == Sent(PhoneLock, r, lock) && Open(h, n);
    hide LockData;
    RunTwo(s, ops[0], ops[1]);
    ExpectedNew(s.expects, Expect(s.nextExpect, s.next, CommandOf(PhoneLock), Callback), s.next, PhoneLock);
    LateAnswer(h, r, n, res, stale);
    assert Step(h, ops[1]) == StepAnswer(h, n, res);
    assert UndisturbedRun(s, ops) && !Good(Run(s, ops).log);
  }

  lemma {:induction false} LateAnswer(s: State, r: Request, n: nat, res: Store.Bytes, stale: Store.Bytes)
    requires Open(s, n) && IsSent(s.log[n], PhoneLock, r) && s.live == Some(r) && Ok(res)
    requires Expected(s.expects, r.token, PhoneLock)
    requires |Stored(s)| > 0 && Stored(s)[0] == stale && |stale| > 0 && stale != r.lock
    ensures !Good(StepAnswer(s, n, res).log)
  {
    Store.GetPops(s.store, SET_FACILITY_LOCK, SET_FACILITY_LOCK);
    var l := s.log + [Answered(n, res)];
    var m := l + [Sent(PhoneLock, r, stale)];
    assert StepAnswer(s, n, res).log == m;
    assert m[|l|] == Sent(PhoneLock, r, stale);
    assert !GoodLock(m, |l|);
  }

  /** Cancelling the lock request is safe if and only if nothing is stored for it. */
  lemma {:induction false} CancelSafeIff(s: State)
    requires Inv(s) && s.live.Some?
    ensures SafeAfter(Step(s, Cancel)) <==> |Stored(s)| == 0
  {
    var t := Step(s, Cancel);
    if |Stored(s)| == 0 {
      CancelKeeps(s);
      InvIsSafe(t);
    } else {
      assert Stored(t) == Stored(s);
      StaleLockSent(t);
    }
    hide SafeAfter, Inv;
  }

  /**
   The lock information takes the first result it finds for that of the lock. The report is right if and
   only if that is not a good result, or the lock was accepted; as long as the result of the lock itself is
   stored, that is whether it is good.
   */
  lemma {:induction false} ReportRightIff(s: State, p: nat, retries: int)
    requires Inv(s) && Open(s, p) && s.log[p].cmd.LockInfo?
    requires s.live.Some? && s.live.value.token == s.log[p].req.token
    ensures var first := TakeResult(s.store).1;
            Good(Step(s, Info(p, retries)).log) <==> (first.Some? && Ok(first.value) ==> Accepted(s, s.live.value))
    ensures |Stored(s)| > 0 ==> (Accepted(s, s.live.value) <==> Ok(Stored(s)[0]))
  {
    OwnInfo(s, p, retries);
    if Pick(s.store, 0) < |KINDS| {
      ReportGood(s, p, TakeResult(s.store).1.value, retries);
    }
    hide Good, OkBefore, Wf, Accepted;
  }

  /**
   It is safe if and only if the first result found is its own, because otherwise its own stays behind; or,
   when its own is lost, if and only if it finds none, one that is not good, or the lock was accepted.
   */
  lemma {:induction false} InfoSafeIff(s: State, p: nat, retries: int)
    requires Inv(s) && Open(s, p) && s.log[p].cmd.LockInfo?
    requires s.live.Some? && s.live.value.token == s.log[p].req.token
    ensures var first := TakeResult(s.store).1;
            SafeAfter(Step(s, Info(p, retries))) <==>
              if |Stored(s)| > 0 then Pick(s.store, 0) == 4
              else first.Some? && Ok(first.value) ==> Accepted(s, s.live.value)
  {
    var t := Step(s, Info(p, retries));
    OwnInfo(s, p, retries);
    if Undisturbed(s, Info(p, retries)) {
      InfoKeeps(s, p, retries);
      InvIsSafe(t);
    } else if |Stored(s)| > 0 {
      StaleLockSent(t);
    } else {
      ReportRightIff(s, p, retries);
      NowBad(t);
    }
    hide SafeAfter, Inv, Accepted, Good;
  }

  lemma {:induction false} NowBad(s: State)
    requires !Good(s.log)
    ensures !SafeAfter(s)
  {
    assert UndisturbedRun(s, []) && Run(s, []) == s;
  }

  /** Results of other kinds are left alone, and the lock's own is the first found again. */
  lemma {:induction false} PickOwn(before: seq<Store.Entry>, after: seq<Store.Entry>)
    requires Pick(before, 0) >= 4
    requires forall k :: 0 <= k < 4 ==> Store.Fifo(after, KINDS[k]) == Store.Fifo(before, KINDS[k])
    requires var own := Store.Fifo(after, SET_FACILITY_LOCK); |own| > 0 && |own[0]| >= RES_SIZE
    ensures Pick(after, 0) == 4
  {
    var k := Pick(after, 0);
    Store.GetPops(after, SET_FACILITY_LOCK, SET_FACILITY_LOCK);
    if k < 4 {
      Store.GetPops(after, KINDS[k], KINDS[k]);
      Store.GetPops(before, KINDS[k], KINDS[k]);
    }
  }

  lemma {:induction false} OwnStored(store: seq<Store.Entry>, own: Store.Bytes)
    requires Pick(store, 0) >= 4 && |own| == RES_SIZE && |Store.Fifo(store, SET_FACILITY_LOCK)| == 0
    ensures Store.Get(store, SET_FACILITY_LOCK) == (store, None)
    ensures var after := Store.SetUniq(store, SET_FACILITY_LOCK, own);
            Store.Fifo(after, SET_FACILITY_LOCK) == [own] && Pick(after, 0) == 4
  {
    var after := Store.SetUniq(store, SET_FACILITY_LOCK, own);
    Store.GetPops(store, SET_FACILITY_LOCK, SET_FACILITY_LOCK);
    Store.SetUniqReplaces(store, SET_FACILITY_LOCK, own, SET_FACILITY_LOCK);
    forall k | 0 <= k < 4 ensures Store.Fifo(after, KINDS[k]) == Store.Fifo(store, KINDS[k]) {
      Store.SetUniqReplaces(store, SET_FACILITY_LOCK, own, KINDS[k]);
    }
    PickOwn(store, after);
  }

  /** With the lock itself gone from the store, a good answer to PIN2 is taken for the last one. */
  lemma {:induction false} AnswerWithoutLock(s: State, p: nat, res: Store.Bytes)
    requires Wf(s) && Good(s.log) && s.live.Some? && OpenFor(s, p, s.live.value.token) &&
        Awaits(s, s.live.value, PinStatus)
    requires |Stored(s)| == 0 && Pick(s.store, 0) >= 4 && Ok(res) && !LockDone(s, s.live.value)
    ensures var t, n := StepAnswer(s, p, res), |s.log| + 1;
            && Wf(t) && Good(t.log) && Open(t, n) && t.log[n] == Sent(LockInfo, s.live.value, []) && t.live == s.live
            && Stored(t) == [res[..RES_SIZE]] && Pick(t.store, 0) == 4 && !LockDone(t, s.live.value)
  {
    hide Good, OkBefore, Quiet, Pick, Store.SetUniq, StepAnswer;
    var r, u := s.live.value, Resumed(s, p, res);
    assert s.log[p].req == r && s.log[p].cmd == PinStatus;
    assert Older(s.expects, s.next);
    hide Wf;
    ResumedWf(s, p, res);
    AnswerResumes(s, p, res);
    ReceivedOks(s, p, res, r);
    assert Older(u.expects, u.next);
    var w := u.(store := Store.SetUniq(s.store, SET_FACILITY_LOCK, res[..RES_SIZE]));
    OwnStored(s.store, res[..RES_SIZE]);
    assert Resume(u, r.token, res) == Send(w, LockInfo, r, []);
    hide Resume, Store.SetUniq, Store.Get, Pick, Expected, Only, Older;
    SameWf(u, w);
    SendKeeps(w, LockInfo, []);
  }

  /** Success from the stored result, though no lock was accepted. */
  lemma {:induction false} ReportsFirst(s: State, p: nat, res: Store.Bytes)
    requires Wf(s) && Good(s.log) && Open(s, p) && s.log[p].cmd.LockInfo? && s.live == Some(s.log[p].req)
    requires Pick(s.store, 0) == 4 && Stored(s) == [res] && Ok(res) && !LockDone(s, s.live.value)
    ensures Undisturbed(s, Info(p, 0)) && !Good(Step(s, Info(p, 0)).log)
  {
    Store.GetPops(s.store, SET_FACILITY_LOCK, SET_FACILITY_LOCK);
    ReportGood(s, p, res, 0);
    hide Good, OkBefore, Wf;
  }

  lemma {:induction false} AnswerStep(s: State, p: nat, res: Store.Bytes)
    requires s.live.Some? && OpenFor(s, p, s.live.value.token) && Only(s, s.live.value, PinStatus)
    ensures Step(s, Answer(p, res)) == StepAnswer(s, p, res)
  {
  }

  /** Then success is reported for a lock that was never sent. */
  lemma {:induction false} LockNeverSent(s: State, p: nat, res: Store.Bytes)
    requires Wf(s) && Good(s.log) && s.live.Some? && OpenFor(s, p, s.live.value.token)
    requires Awaits(s, s.live.value, PinStatus) && Ok(res) && |res| == RES_SIZE
    requires |Stored(s)| == 0 && Pick(s.store, 0) >= 4 && !LockDone(s, s.live.value)
    ensures var a, b := Answer(p, res), Info(|s.log| + 1, 0);
            Undisturbed(Step(s, a), b) && !Good(Step(Step(s, a), b).log)
  {
    hide Good, OkBefore, Wf, Quiet, Pick, Step, StepAnswer, LockDone, Expected, Undisturbed;
    assert Open(s, p) && Only(s, s.live.value, PinStatus);
    hide *;
    AnswerStep(s, p, res);
    assert res[..RES_SIZE] == res;
    AnswerWithoutLock(s, p, res);
    ReportsFirst(StepAnswer(s, p, res), |s.log| + 1, res);
  }

  /** A lock information for another request is safe if and only if it does not take the lock itself. */
  lemma {:induction false} OtherInfoSafeIff(s: State)
    requires Inv(s)
    ensures SafeAfter(Step(s, OtherInfo)) <==> !TakesLock(s)
  {
    var t := Step(s, OtherInfo);
    if TakesLock(s) {
      OtherInfoUnsafe(s);
    } else {
      TakeKeeps(s);
      InvIsSafe(t);
    }
    hide SafeAfter, Inv, TakesLock;
  }

  lemma {:induction false} OtherInfoUnsafe(s: State)
    requires Inv(s) && TakesLock(s)
    ensures !SafeAfter(Step(s, OtherInfo))
  {
    hide Inv, Wf, Good, OkBefore, SafeAfter, Expected, Only, TakesLock, Run, UndisturbedRun, TakeResult, Pick;
    TakesLockStage(s);
    var t, r := Step(s, OtherInfo), s.live.value;
    LockTaken(s);
    hide Step, Undisturbed, LockDone;
    var p: nat :| OpenFor(s, p, r.token);
    var res := [5, 1, 2, 0, 0x80];
    var a, b := Answer(p, res), Info(|t.log| + 1, 0);
    LockNeverSent(t, p, res);
    RunTwo(t, a, b);
    UnsafeRun(t, [a, b]);
  }

  /** The same holds of a lock information for a lock request that is gone. */
  lemma {:induction false} GoneInfoSafeIff(s: State, p: nat, retries: int)
    requires Inv(s) && Open(s, p) && s.log[p].cmd.LockInfo?
    requires s.live.None? || s.live.value.token != s.log[p].req.token
    ensures SafeAfter(Step(s, Info(p, retries))) <==> !TakesLock(s)
  {
    var t := s.(out := s.out - {p});
    CloseKeeps(s, p);
    assert Step(s, Info(p, retries)) == Step(t, OtherInfo) && (TakesLock(t) <==> TakesLock(s));
    hide Inv, SafeAfter, TakesLock, Step;
    OtherInfoSafeIff(t);
  }

  lemma {:induction false} TakesLockStage(s: State)
    requires Inv(s) && TakesLock(s)
    ensures s.live.Some? && PinStage(s, s.live.value) && Good(s.log)
  {
    hide Wf, Good, OkBefore, Awaits, Only;
  }

  lemma {:induction false} SameLog(s: State, t: State, req: Request)
    requires s.log == t.log
    ensures LockDone(s, req) <==> LockDone(t, req)
  {
  }

  lemma {:induction false} LockTaken(s: State)
    requires Inv(s) && s.live.Some? && PinStage(s, s.live.value) && TakesLock(s)
    ensures var t, r := Step(s, OtherInfo), s.live.value;
            && t == s.(store := t.store) && |Stored(t)| == 0 && Pick(t.store, 0) >= 4
            && Wf(t) && Awaits(t, r, PinStatus) && !LockDone(t, r)
            && forall p: nat :: OpenFor(s, p, r.token) ==> OpenFor(t, p, r.token)
  {
    hide Good, OkBefore, Expected, Quiet, Pick, TakeResult, LockDone;
    var t, r := Step(s, OtherInfo), s.live.value;
    assert Wf(s) && Awaits(s, r, PinStatus) && |Stored(s)| == 1 && !LockDone(s, r) && Pick(s.store, 0) == 4;
    assert t == s.(store := TakeResult(s.store).0) && Older(t.expects, t.next);
    hide Inv, PinStage, TakesLock, Step, Wf, Older;
    StoreTaken(s.store);
    SameOpen(s, t);
    SameWf(s, t);
    assert LockDone(t, r) <==> LockDone(s, r) by { SameLog(s, t, r); }
  }

  lemma {:induction false} StoreTaken(store: seq<Store.Entry>)
    requires Pick(store, 0) == 4
    ensures var rest := TakeResult(store).0;
            && |Store.Fifo(store, SET_FACILITY_LOCK)| > 0 && Pick(rest, 0) >= 4
            && Store.Fifo(rest, SET_FACILITY_LOCK) == Store.Fifo(store, SET_FACILITY_LOCK)[1..]
  {
    var rest := TakeResult(store).0;
    var k := Pick(rest, 0);
    Store.GetPops(store, SET_FACILITY_LOCK, SET_FACILITY_LOCK);
    if k < 4 {
      Store.GetPops(store, SET_FACILITY_LOCK, KINDS[k]);
      Store.GetPops(store, KINDS[k], KINDS[k]);
      Store.GetPops(rest, KINDS[k], KINDS[k]);
    }
  }

  /** A run in which that happens: the lock data goes to another request's lock information, and success is reported. */
  lemma {:induction false} OtherInfoExample(s: State, good: Store.Bytes)
    requires Initial(s) && Ok(good) && |good| == RES_SIZE
    ensures var t := Step(Step(s, DoLock("FD", true, [])), OtherInfo);
            !Good(Step(Step(t, Answer(0, good)), Info(2, 0)).log)
  {
    var a := Step(s, DoLock("FD", true, []));
    InitialInv(s);
    StepKeeps(s, DoLock("FD", true, []));
    LockBegun(s);
    hide Inv, Good, OkBefore, Wf, Expected;
    assert PinStage(a, a.live.value);
    LockTaken(a);
    hide Step;
    LockNeverSent(Step(a, OtherInfo), 0, good);
  }

  /** The state after the first step. */
  lemma {:induction false} LockBegun(s: State)
    requires Initial(s)
    ensures var a := Step(s, DoLock("FD", true, []));
            && |a.log| == 1 && a.live.Some? && a.live.value.token == s.next && OpenFor(a, 0, s.next)
            && a.log[0].cmd == PinStatus && |Stored(a)| > 0 && TakesLock(a) && NoOthers(a.store)
  {
    var lock, a := LockData(FD, true, []), Step(s, DoLock("FD", true, []));
    hide Store.SetUniq, Pick;
    LockDataShows(FD, true, []);
    assert a.store == Store.SetUniq(s.store, SET_FACILITY_LOCK, lock) &&
        a.log == [Sent(PinStatus, Request(s.next, lock), [])];
    assert NoOthers(s.store);
    hide Step, LockData;
    LockStored(s.store, lock);
  }

  /** Stored alone, the lock data is what a lock information takes. */
  lemma {:induction false} LockStored(store: seq<Store.Entry>, lock: Store.Bytes)
    requires NoOthers(store) && IsLock(lock)
    ensures var t := Store.SetUniq(store, SET_FACILITY_LOCK, lock);
            Store.Fifo(t, SET_FACILITY_LOCK) == [lock] && NoOthers(t) && Pick(t, 0) == 4
  {
    hide Store.SetUniq;
    var t := Store.SetUniq(store, SET_FACILITY_LOCK, lock);
    Store.SetUniqReplaces(store, SET_FACILITY_LOCK, lock, SET_FACILITY_LOCK);
    SetAlone(store, lock);
    NoneEarlier(t);
    Store.GetPops(t, SET_FACILITY_LOCK, SET_FACILITY_LOCK);
  }

  /** A refused PIN2 is reported as success when ENTER_SIM_PIN has a good result stored. */
  lemma {:induction false} OtherResultExample(s: State, wrong: Store.Bytes, good: Store.Bytes)
    requires Initial(s) && |wrong| == RES_SIZE && !Ok(wrong) && Ok(good)
    ensures var t := Step(Step(Step(s, DoLock("FD", true, [])), Answer(0, wrong)), OtherResult(ENTER_SIM_PIN, good));
            !Good(Step(t, Info(2, 0)).log)
  {
    var a := Step(s, DoLock("FD", true, []));
    var b := Step(a, Answer(0, wrong));
    InitialInv(s);
    StepKeeps(s, DoLock("FD", true, []));
    LockBegun(s);
    WrongPin(a, wrong);
    StepKeeps(a, Answer(0, wrong));
    assert OpenFor(b, 2, b.live.value.token) && InfoStage(b, b.live.value);
    hide Inv, Good, Step, OkBefore;
    OtherResultFirst(b, 2, good);
  }

  /** A refused answer to the first command is stored, and lock information asked for. */
  lemma {:induction false} WrongPin(s: State, wrong: Store.Bytes)
    requires Inv(s) && s.live.Some? && OpenFor(s, 0, s.live.value.token) && |s.log| == 1 && !s.log[0].cmd.LockInfo?
    requires |wrong| == RES_SIZE && !Ok(wrong)
    ensures var t := Step(s, Answer(0, wrong));
            && t.live == s.live && Open(t, 2) && t.log[2] == Sent(LockInfo, s.live.value, []) && Stored(t) == [wrong]
  {
    var r := s.live.value;
    assert Awaits(s, r, s.log[0].cmd);
    AnswerResumes(s, 0, wrong);
    hide Good, OkBefore, Wf, Quiet, StepAnswer;
    var (rest, lock) := Store.Get(s.store, SET_FACILITY_LOCK);
    assert wrong[..RES_SIZE] == wrong;
    Store.SetUniqReplaces(rest, SET_FACILITY_LOCK, wrong, SET_FACILITY_LOCK);
  }

  /** A good result of ENTER_SIM_PIN is the first found, and reported for a lock that was not accepted. */
  lemma {:induction false} OtherResultFirst(s: State, p: nat, good: Store.Bytes)
    requires Inv(s) && Open(s, p) && s.log[p].cmd.LockInfo? && s.live == Some(s.log[p].req) && Ok(good)
    requires !Accepted(s, s.live.value)
    ensures !Good(Step(Step(s, OtherResult(ENTER_SIM_PIN, good)), Info(p, 0)).log)
  {
    var t := Step(s, OtherResult(ENTER_SIM_PIN, good));
    assert KINDS[..4][0] == ENTER_SIM_PIN;
    assert t == s.(store := Store.SetUniq(s.store, ENTER_SIM_PIN, good)) &&
        Accepted(t, s.live.value) == Accepted(s, s.live.value);
    hide Inv, Good, OkBefore, StepInfo, Store.SetUniq, Accepted;
    StepKeeps(s, OtherResult(ENTER_SIM_PIN, good));
    hide Step;
    Store.SetUniqReplaces(s.store, ENTER_SIM_PIN, good, ENTER_SIM_PIN);
    Store.GetPops(t.store, ENTER_SIM_PIN, ENTER_SIM_PIN);
    assert Pick(t.store, 0) == 0;
    ReportRightIff(t, p, 0);
  }

  /** A refused lock reported as success: another lock information took its result, and another's good one is found. */
  lemma {:induction false} LostResultExample(s: State, refused: Store.Bytes, good: Store.Bytes)
    requires Initial(s) && |refused| == RES_SIZE && !Ok(refused) && Ok(good)
    ensures var t := Step(Step(Step(s, DoLock("SC", true, [])), Answer(0, refused)), OtherInfo);
            && Inv(t) && |Stored(t)| == 0
            && !Good(Step(Step(t, OtherResult(ENTER_SIM_PIN, good)), Info(2, 0)).log)
  {
    var a := Step(s, DoLock("SC", true, []));
    var b := Step(a, Answer(0, refused));
    var t := Step(b, OtherInfo);
    InitialInv(s);
    StepKeeps(s, DoLock("SC", true, []));
    PlainBegun(s);
    StepAlone(a, Answer(0, refused));
    WrongPin(a, refused);
    hide Inv, Good, OkBefore;
    StepKeeps(a, Answer(0, refused));
    ResultTaken(b, refused);
    hide Step;
    OtherResultFirst(t, 2, good);
  }

  lemma {:induction false} PlainBegun(s: State)
    requires Initial(s)
    ensures var a := Step(s, DoLock("SC", true, []));
            && |a.log| == 1 && a.live.Some? && a.live.value.token == s.next && OpenFor(a, 0, s.next)
            && a.log[0].cmd == PhoneLock && NoOthers(a.store)
  {
    var lock, a := LockData(0x03, true, []), Step(s, DoLock("SC", true, []));
    LockDataShows(0x03, true, []);
    assert a.log == [Sent(PhoneLock, Request(s.next, lock), lock)] && a.store == s.store;
    assert NoOthers(s.store);
  }

  /** A lock information for another request takes the stored result. */
  lemma {:induction false} ResultTaken(s: State, refused: Store.Bytes)
    requires Inv(s) && s.live.Some? && Open(s, 2) && s.log[2] == Sent(LockInfo, s.live.value, [])
    requires Stored(s) == [refused] && |refused| == RES_SIZE && !Ok(refused) && NoOthers(s.store)
    ensures var t := Step(s, OtherInfo);
            && Inv(t) && |Stored(t)| == 0 && t == s.(store := t.store) && !Accepted(t, s.live.value)
  {
    var t := Step(s, OtherInfo);
    assert OpenFor(s, 2, s.live.value.token);
    assert InfoStage(s, s.live.value);
    NoneEarlier(s.store);
    Store.GetPops(s.store, SET_FACILITY_LOCK, SET_FACILITY_LOCK);
    assert Pick(s.store, 0) == 4;
    StoreTaken(s.store);
    assert Accepted(t, s.live.value) == Accepted(s, s.live.value);
    hide Good, OkBefore, Wf, Awaits, Expected;
    TakeKeeps(s);
  }
}
