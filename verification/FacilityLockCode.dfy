/**
 The functions of sim.c behind FacilityLock as they update the request-data store and the list of
 expectations, with what each of them means for the exchange.
 */
module FacilityLockCode {
  import opened Common
  import opened GenericResponse
  import opened ListHead
  import Store = RequestStore
  import opened FacilityLock

  // ----- the code

  /** The functions of sim.c over the request-data store and the list of expectations; the wire is ghost. */
  class Sim {
    var next: nat
    var live: Option<Request>
    const store: Store.Store
    const expects: Expectations
    ghost var st: State

    ghost predicate Valid()
      reads this, store.list, store.list.nodes, expects, expects.list, expects.list.nodes
    {
      && store.Valid() && expects.Valid() && st.store == store.Entries()
      && st.expects == expects.Expects() && st.nextExpect == expects.next
      && st.next == next && st.live == live
    }

    constructor ()
      ensures Valid() && Initial(st) && Inv(st)
    {
      next, live := 0, None;
      store := new Store.Store();
      expects := new Expectations();
      st := State(0, None, [], [], 0, {}, []);
      new;
      InitialInv(st);
    }

    lemma Agrees()
      requires Valid()
      ensures st.live == live
    {
    }

    method SendCommand(cmd: Cmd, req: Request, data: Store.Bytes)
      requires Valid()
      modifies this`st
      ensures Valid() && st == Send(old(st), cmd, req, data)
    {
      st := Send(st, cmd, req, data);
    }

    /** `ipc_gen_phone_res_expect_callback`. */
    method ExpectCallback(token: nat, cmd: Cmd)
      requires Valid()
      modifies this`st, expects, expects.list, expects.list.nodes
      ensures Valid() && st == Await(old(st), cmd, token)
      ensures forall i :: 0 <= i < |expects.list.nodes| ==>
                expects.list.nodes[i] in old(expects.list.nodes) || fresh(expects.list.nodes[i])
    {
      hide List.Valid, Named;
      expects.Register(token, CommandOf(cmd), Callback);
      st := Await(st, cmd, token);
    }

    method Take() returns (data: Option<Store.Bytes>)
      requires Valid()
      modifies this`st, store.list, store.list.nodes
      ensures Valid() && (st.store, data) == Store.Get(old(st).store, SET_FACILITY_LOCK) &&
          st == old(st).(store := st.store)
      ensures forall i :: 0 <= i < |store.list.nodes| ==> store.list.nodes[i] in old(store.list.nodes)
    {
      hide List.Valid, Named, Store.Get;
      data := store.DataGet(SET_FACILITY_LOCK);
      st := st.(store := store.Entries());
    }

    method Keep(data: Store.Bytes)
      requires Valid()
      modifies this`st, store.list, store.list.nodes
      ensures Valid() && st == old(st).(store := Store.SetUniq(old(st).store, SET_FACILITY_LOCK, data))
      ensures forall i :: 0 <= i < |store.list.nodes| ==>
          store.list.nodes[i] in old(store.list.nodes) || fresh(store.list.nodes[i])
    {
      hide List.Valid, Named, Store.SetUniq;
      var rc := store.DataSetUniq(SET_FACILITY_LOCK, data);
      st := st.(store := store.Entries());
    }

    /**
     `ril_request_set_facility_lock`: for fixed dialling only the PIN2 command goes out, and the lock is
     stored; any other lock is sent at once.
     */
    method SetFacilityLock(facility: string, active: bool, password: Store.Bytes) returns (handled: bool)
      requires Valid() && Inv(st)
      modifies this, store.list, store.list.nodes, expects, expects.list, expects.list.nodes
      ensures Valid() && Inv(st) && st == Step(old(st), DoLock(facility, active, password))
      ensures handled <==> FacilityType(facility) != 0 && old(live).None?
      ensures handled ==>
                && live.Some? && live.value.token == old(next) && AsksFor(live.value.lock, facility, active, password)
                && (if facility == "FD" then PinStage(st, live.value) else LockStage(st, live.value))
                && st.log == old(st).log + [FirstCommand(live.value)]
      ensures !handled ==> st == old(st)
    {
      ghost var op := DoLock(facility, active, password);
      StepKeeps(st, op);
      var kind := FacilityType(facility);
      if kind == 0 || live.Some? {
        return false;
      }
      var lock := LockData(kind, active, password);
      LockDataShows(kind, active, password);
      FacilitiesDiffer(facility, facility);
      LockKeeps(st, lock);
      assert HandleLock(st, lock) == Step(st, op);
      hide LockData, PinStage, LockStage, Inv;
      assert AsksFor(lock, facility, active, password);
      HandleSends(st, lock);
      hide Valid, Step, HandleLock, AsksFor, FacilityType;
      TakeUp(lock);
      assert st.live == live by { Agrees(); }
      handled := true;
    }

    method BeginRequest(lock: Store.Bytes) returns (req: Request)
      requires Valid()
      modifies this`next, this`live, this`st
      ensures Valid() && st == Begun(old(st), lock) && req == Request(old(st).next, lock)
    {
      req := Request(next, lock);
      next, live, st := next + 1, Some(req), Begun(st, lock);
    }

    method TakeUp(lock: Store.Bytes)
      requires Valid() && |lock| > 0
      modifies this, store.list, store.list.nodes, expects, expects.list, expects.list.nodes
      ensures Valid() && st == HandleLock(old(st), lock)
    {
      hide Store.SetUniq, Valid;
      var req := BeginRequest(lock);
      if lock[0] == FD {
        Keep(lock);
        ExpectCallback(req.token, PinStatus);
        SendCommand(PinStatus, req, []);
      } else {
        ExpectCallback(req.token, PhoneLock);
        SendCommand(PhoneLock, req, lock);
      }
    }

    /**
     `ipc_sec_callback` for a lock request. On the answer to the only open command of the request in flight
     it goes on to the next stage: the lock is sent only after a good answer to PIN2, otherwise the answer is
     stored. An answer for any other request changes nothing.
     */
    method SecCallback(token: nat, res: Store.Bytes)
      requires Valid() && |res| >= RES_SIZE
      modifies this, store.list, store.list.nodes, expects, expects.list, expects.list.nodes
      ensures Valid() && st == Resume(old(st), token, res) && live == old(live)
      ensures live.None? || live.value.token != token ==> st == old(st)
      ensures CalledBack(old(st), PinStatus, token, res) ==>
                Inv(st) && if Ok(res) then LockStage(st, live.value) else InfoStage(st, live.value)
      ensures CalledBack(old(st), PhoneLock, token, res) ==> Inv(st) && InfoStage(st, live.value)
      ensures forall cmd :: CalledBack(old(st), cmd, token, res) ==> GoesOn(old(st), st, cmd, res)
    {
      forall cmd | CalledBack(st, cmd, token, res) ensures GoesOn(st, Resume(st, token, res), cmd, res) {
        ResumeGoesOn(st, cmd, res);
      }
      if CalledBack(st, PinStatus, token, res) {
        if Ok(res) { ResumeSends(st, res); } else { ResumeStores(st, PinStatus, res); }
      }
      if CalledBack(st, PhoneLock, token, res) { ResumeStores(st, PhoneLock, res); }
      assert st.live == live;
      hide Valid, Inv, CalledBack, LockStage, InfoStage, Resume, Ok, GoesOn;
      GoOn(token, res);
    }

    method GoOn(token: nat, res: Store.Bytes)
      requires Valid() && |res| >= RES_SIZE
      modifies this, store.list, store.list.nodes, expects, expects.list, expects.list.nodes
      ensures Valid() && st == Resume(old(st), token, res) && live == old(live)
      ensures forall i :: 0 <= i < |expects.list.nodes| ==>
                expects.list.nodes[i] in old(expects.list.nodes) || fresh(expects.list.nodes[i])
    {
      if live.None? || live.value.token != token {
        return;
      }
      hide List.Valid, Named, Store.Get, Store.SetUniq, Ok;
      var lock := Take();
      if lock.Some? && |lock.value| > 0 && Ok(res) {
        ExpectCallback(token, PhoneLock);
        SendCommand(PhoneLock, live.value, lock.value);
      } else {
        Keep(res[..RES_SIZE]);
        SendCommand(LockInfo, live.value, []);
      }
    }

    /**
     `ipc_gen_phone_res` for the answer to the open command at p. All expectations of lock requests are
     callbacks; the one of the number is taken off the list after its callback has run. A response that is too
     short, or to another command than was expected, makes the client give up.
     */
    method PhoneRes(ghost p: nat, token: nat, cmd: Cmd, res: Store.Bytes)
      requires Valid() && Inv(st) && Open(st, p) && !cmd.LockInfo?
      requires st.log[p].cmd == cmd && st.log[p].req.token == token
      modifies this, store.list, store.list.nodes, expects, expects.list, expects.list.nodes
      ensures Valid() && Inv(st) && st == Step(old(st), Answer(p, res))
      ensures |res| < RES_SIZE ==> live.None? && |st.expects| == |st.store| == 0
      ensures |res| >= RES_SIZE && old(live).Some? && old(live).value.token == token ==>
                GoesOn(Received(old(st), p, res), st, cmd, res)
    {
      StepKeeps(st, Answer(p, res));
      if |res| < RES_SIZE { ShortAnswer(st, p, res); }
      else if live.Some? && live.value.token == token { AnswerGoesOn(st, p, res); }
      hide GoesOn;
      assert Step(st, Answer(p, res)) == Generic(Received(st, p, res), token, CommandOf(cmd), res);
      hide Inv, Step, Generic;
      st := Received(st, p, res);
      Respond(token, cmd, res);
    }

    method Respond(token: nat, cmd: Cmd, res: Store.Bytes)
      requires Valid()
      modifies this, store.list, store.list.nodes, expects, expects.list, expects.list.nodes
      ensures Valid() && st == Generic(old(st), token, CommandOf(cmd), res)
    {
      hide Resume, List.Valid, Named, Store.Get, Store.SetUniq, Ok;
      if |res| < RES_SIZE {
        GiveUp();
        return;
      }
      var node; ghost var k;
      node, k := expects.Find(token);
      if node == null {
        return;
      }
      var e := node.data;
      if e.command != CommandOf(cmd) {
        GiveUp();
      } else {
        CallAndTake(k, e, token, res);
      }
    }

    /** `ipc_gen_phone_res_expect_unregister` on the expectation at position k. */
    method TakeExpect(ghost k: nat, e: Expect)
      requires Valid() && k < |st.expects| && st.expects[k] == e
      modifies this`st, expects.list, expects.list.nodes
      ensures Valid() && st == old(st).(expects := Without(old(st).expects, k))
    {
      hide List.Valid, Store.Get;
      SerialFound(st.expects, k);
      hide FindSerial, FindFirst, DistinctSerials;
      expects.Remove(e.serial);
      st := st.(expects := expects.Expects());
    }

    /** The callback runs with its expectation still listed, which is then taken off by address. */
    method CallAndTake(ghost k: nat, e: Expect, token: nat, res: Store.Bytes)
      requires Valid() && k < |st.expects| && st.expects[k] == e && |res| >= RES_SIZE
      modifies this, store.list, store.list.nodes, expects, expects.list, expects.list.nodes
      ensures Valid() && st == Resume(old(st).(expects := Without(old(st).expects, k)), token, res)
    {
      ResumeCommutes(st, k, token, res);
      hide Valid, Resume, Without, Ok;
      GoOn(token, res);
      TakeExpect(k, e);
    }

    /** The client gives up, and the radio falls to UNAVAILABLE. */
    method GiveUp()
      requires Valid()
      modifies this, store.list, store.list.nodes, expects.list, expects.list.nodes
      ensures Valid() && st == StepUnavailable(old(st))
    {
      hide List.Valid;
      live := None;
      store.DataFlush();
      expects.Flush();
      st := StepUnavailable(st);
    }

    /** The loop of `ipc_sec_lock_infomation` over the kinds: it takes the entry that the order prefers. */
    method TakeStored() returns (found: Option<Store.Bytes>)
      requires Valid()
      modifies this`st, store.list, store.list.nodes
      ensures Valid() && (st.store, found) == TakeResult(old(st).store) && st == old(st).(store := st.store)
    {
      hide List.Valid, Named, Store.Get, Store.SizeGet;
      for i := 0 to |KINDS|
        invariant Valid() && st == old(st) && store.list.nodes == old(store.list.nodes)
        invariant Pick(st.store, 0) == Pick(st.store, i)
      {
        var size := store.DataSizeGet(KINDS[i]);
        if size >= RES_SIZE {
          found := store.DataGet(KINDS[i]);
          st := st.(store := store.Entries());
          return;
        }
      }
      found := None;
    }

    /**
     `ipc_sec_lock_infomation`, in answer to the open command at p. Undisturbed, it keeps the exchange safe;
     if the request's own result is the first it finds, that is what it reports, with the number of tries left.
     */
    method LockInformation(ghost p: nat, token: nat, retries: int)
      requires Valid() && Inv(st) && Open(st, p) && st.log[p].cmd.LockInfo? && st.log[p].req.token == token
      modifies this, store.list, store.list.nodes
      ensures Valid() && st == Step(old(st), Info(p, retries))
      ensures Undisturbed(old(st), Info(p, retries)) ==> Inv(st)
      ensures Pick(old(st).store, 0) == 4 && old(live).Some? && old(live).value.token == token ==>
                && live.None? && |Stored(old(st))| == 1 && |Stored(old(st))[0]| == RES_SIZE
                && Completes(old(st), st, old(st).log[p].req, Stored(old(st))[0], retries)
    {
      if Undisturbed(st, Info(p, retries)) { StepKeeps(st, Info(p, retries)); }
      if Pick(st.store, 0) == 4 && live.Some? && live.value.token == token { OwnResultReported(st, p, retries); }
      assert st.live == live && StepInfo(st, p, retries) == Step(st, Info(p, retries));
      hide Valid, Inv, Undisturbed, Pick, Stored, Ok, StepInfo, Step, Completes;
      Report(p, token, retries);
    }

    method Report(ghost p: nat, token: nat, retries: int)
      requires Valid() && Open(st, p) && st.log[p].req.token == token
      modifies this, store.list, store.list.nodes
      ensures Valid() && st == StepInfo(old(st), p, retries) && live == st.live
    {
      hide List.Valid, Named, TakeResult, Ok;
      var found := TakeStored();
      st := st.(out := st.out - {p});
      if found.None? {
        return;
      }
      var (error, count) := Verdict(found.value, retries);
      if live.Some? && live.value.token == token {
        st := Finish(st, error, count);
        live := None;
      }
    }
  }

  /** The lock data says what the caller asked for. */
  ghost predicate AsksFor(lock: Store.Bytes, facility: string, active: bool, password: Store.Bytes) {
    && IsLock(lock) && lock[0] == FacilityType(facility) && (lock[1] == 1 <==> active)
    && 0 <= lock[2] <= PASSWORD_SIZE
    && (|password| <= PASSWORD_SIZE ==> lock[3..3 + lock[2]] == password)
  }

  /** What goes out when a lock request is taken up. */
  ghost function FirstCommand(req: Request): Event {
    if Fixed(req.lock) then Sent(PinStatus, req, []) else Sent(PhoneLock, req, req.lock)
  }

  lemma {:induction false} HandleSends(s: State, lock: Store.Bytes)
    requires |lock| > 0
    ensures var t := HandleLock(s, lock);
            t.live == Some(Request(s.next, lock)) && t.log == s.log + [FirstCommand(t.live.value)]
  {
    hide Store.SetUniq;
  }

  /** Taking an expectation off before the callback or after it comes to the same. */
  lemma {:induction false} ResumeCommutes(s: State, k: nat, token: nat, res: Store.Bytes)
    requires k < |s.expects| && |res| >= RES_SIZE
    ensures var t, u := s.(expects := Without(s.expects, k)), Resume(s, token, res);
            && k < |u.expects| && u.expects[k] == s.expects[k]
            && Resume(t, token, res) == u.(expects := Without(u.expects, k))
  {
    var e := Expect(s.nextExpect, token, CommandOf(PhoneLock), Callback);
    assert Without(s.expects + [e], k) == Without(s.expects, k) + [e];
    hide Store.Get, Store.SetUniq, Ok;
  }
}
