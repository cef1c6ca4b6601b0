/**
 The DTMF handlers of call.c and their callback as they update the request-data store and the list of
 expectations.
 */
module DtmfCode {
  import opened Common
  import opened GenericResponse
  import opened ListHead
  import Store = RequestStore
  import opened Dtmf
  import opened DtmfTones

  // ----- the code

  /** The handlers of call.c over the request-data store and the list of expectations; the wire is ghost. */
  class Tones {
    var next: nat
    var inFlight: Option<nat>
    const store: Store.Store
    const expects: Expectations
    ghost var st: State

    ghost predicate Valid()
      reads this, store.list, store.list.nodes, expects, expects.list, expects.list.nodes
    {
      && store.Valid() && expects.Valid() && st.store == store.Entries()
      && st.expects == expects.Expects() && st.nextExpect == expects.next
      && st.next == next && st.inFlight == inFlight
    }

    constructor ()
      ensures Valid() && Initial(st) && Inv(st)
    {
      next, inFlight := 0, None;
      store := new Store.Store();
      expects := new Expectations();
      st := State(0, None, [], [], 0, {}, [], -1, None);
    }

    /** `ril_request_data_size_get` and `ril_request_data_get` one after the other, as all handlers do. */
    method Take(kind: int) returns (data: Option<Store.Bytes>)
      requires Valid()
      modifies this`st, store.list, store.list.nodes
      ensures Valid() && (st.store, data) == Store.Get(old(st).store, kind) && st == old(st).(store := st.store)
      ensures forall i :: 0 <= i < |store.list.nodes| ==> store.list.nodes[i] in old(store.list.nodes)
    {
      hide List.Valid, Named, Store.Get;
      data := store.DataGet(kind);
      st := st.(store := store.Entries());
    }

    method Keep(kind: int, data: Store.Bytes)
      requires Valid()
      modifies this`st, store.list, store.list.nodes
      ensures Valid() && st == old(st).(store := Store.Set(old(st).store, kind, data))
      ensures forall i :: 0 <= i < |store.list.nodes| ==>
          store.list.nodes[i] in old(store.list.nodes) || fresh(store.list.nodes[i])
    {
      hide List.Valid, Named, Store.Set;
      var rc := store.DataSet(kind, data);
      st := st.(store := store.Entries());
    }

    /** An expectation is registered and a command sent. */
    method SendCommand(cmd: Cmd, token: nat, wish: Wish)
      requires Valid()
      modifies this`st, expects, expects.list, expects.list.nodes
      ensures Valid() && st == Send(old(st), cmd, token, wish)
      ensures forall i :: 0 <= i < |expects.list.nodes| ==>
                expects.list.nodes[i] in old(expects.list.nodes) || fresh(expects.list.nodes[i])
    {
      hide List.Valid, Named;
      expects.Register(token, CommandOf(cmd), wish);
      st := Send(st, cmd, token, wish);
    }

    /** A handler takes its request up. */
    method BeginRequest() returns (token: nat)
      requires Valid()
      modifies this`next, this`inFlight, this`st
      ensures Valid() && st == Begin(old(st)) && token == old(st).next
    {
      token := next;
      inFlight, next, st := Some(token), next + 1, Begin(st);
    }

    /** `ril_request_dtmf_start`: a tone is started only if none sounds; otherwise that one is stopped first. */
    method DtmfStart(data: Store.Bytes) returns (handled: bool)
      requires Valid() && Inv(st)
      modifies this, store.list, store.list.nodes, expects, expects.list, expects.list.nodes
      ensures Valid() && Inv(st) && st == Step(old(st), DoStart(data))
      ensures handled <==> |data| > 0 && old(inFlight).None?
      ensures handled && Sounding(old(st)) ==> st.log == old(st).log + [Sent(StopTone, old(next))]
      ensures if handled then StartTaken(old(st), st, data) else st == old(st)
    {
      StepKeeps(st, DoStart(data));
      if |data| == 0 || inFlight.Some? {
        return false;
      }
      if Sounding(st) { SoundingIsStopped(st, data); }
      StartOutcome(st, data);
      assert HandleStart(st, data) == Step(st, DoStart(data)) && st.next == next;
      hide Valid, Inv, Sounding, Step, HandleStart, StartTaken;
      TakeUpStart(data);
      handled := true;
    }

    method TakeUpStart(data: Store.Bytes)
      requires Valid()
      modifies this, store.list, store.list.nodes, expects, expects.list, expects.list.nodes
      ensures Valid() && st == HandleStart(old(st), data)
    {
      hide Valid, Store.Get, Store.Set;
      var token := BeginRequest();
      var prior := Take(DTMF_START);
      Keep(DTMF_START, data);
      if prior.Some? && |prior.value| > 0 {
        SendCommand(StopTone, token, Callback);
      } else {
        SendCommand(StartTone(Tone(data)), token, CompleteAlways);
      }
    }

    /** `ril_request_dtmf`: a burst is played only if no tone sounds; otherwise that one is stopped first. */
    method DtmfBurst(data: Store.Bytes) returns (handled: bool)
      requires Valid() && Inv(st)
      modifies this, store.list, store.list.nodes, expects, expects.list, expects.list.nodes
      ensures Valid() && Inv(st) && st == Step(old(st), DoBurst(data))
      ensures handled <==> |data| > 0 && old(inFlight).None?
      ensures handled && Sounding(old(st)) ==> st.log == old(st).log + [Sent(StopTone, old(next))]
      ensures if handled then BurstTaken(old(st), st, data) else st == old(st)
    {
      StepKeeps(st, DoBurst(data));
      if |data| == 0 || inFlight.Some? {
        return false;
      }
      if Sounding(st) { SoundingIsStopped(st, data); }
      BurstOutcome(st, data);
      assert HandleBurst(st, data) == Step(st, DoBurst(data)) && st.next == next;
      hide Valid, Inv, Sounding, Step, HandleBurst, BurstTaken;
      TakeUpBurst(data);
      handled := true;
    }

    method TakeUpBurst(data: Store.Bytes)
      requires Valid()
      modifies this, store.list, store.list.nodes, expects, expects.list, expects.list.nodes
      ensures Valid() && st == HandleBurst(old(st), data)
    {
      hide Valid, Store.Get, Store.Set;
      var token := BeginRequest();
      var prior := Take(DTMF_START);
      if prior.Some? && |prior.value| > 0 {
        Keep(DTMF, data);
        SendCommand(StopTone, token, Callback);
      } else {
        SendCommand(BurstTone(Tone(data)), token, CompleteOnFailure);
      }
    }

    /** `ril_request_dtmf_stop`: no tone is stored any more, and the request waits for the answer to its stop. */
    method DtmfStop() returns (handled: bool)
      requires Valid() && Inv(st)
      modifies this, store.list, store.list.nodes, expects, expects.list, expects.list.nodes
      ensures Valid() && Inv(st) && st == Step(old(st), DoStop)
      ensures handled <==> old(inFlight).None?
      ensures handled ==> Stored(st) == 0 && Stopping(st)
      ensures if handled then StopTaken(old(st), st) else st == old(st)
    {
      StepKeeps(st, DoStop);
      if inFlight.Some? {
        return false;
      }
      ghost var t := HandleStop(st);
      StopKeeps(st);
      StopOutcome(st);
      Taken(st.store, DTMF_START);
      assert t == Step(st, DoStop) && Stored(t) == 0;
      hide Valid, Inv, Sounding, Step, Store.Get, Stopping, Stored, StopTaken;
      var token := BeginRequest();
      var prior := Take(DTMF_START);
      SendCommand(StopTone, token, CompleteAlways);
      assert st == t;
      handled := true;
    }

    /**
     `ipc_call_cont_dtmf_callback`: after a good answer the stored tone is started and stays stored, and a
     stored burst is played; after a bad one the request fails and the tone stays stored.
     */
    method ContDtmfCallback(token: nat, ok: bool)
      requires Valid()
      modifies this, store.list, store.list.nodes, expects, expects.list, expects.list.nodes
      ensures Valid() && st == if ok then PlayBurst(Restart(old(st), token), token) else Finish(old(st), token)
      ensures Solid(old(st).store) ==> Stored(st) == Stored(old(st))
      ensures Solid(old(st).store) && ok ==> PlaysStored(old(st), st, token)
      ensures !ok ==> Ends(st, old(st), token, true)
      ensures forall i :: 0 <= i < |expects.list.nodes| ==>
                expects.list.nodes[i] in old(expects.list.nodes) || fresh(expects.list.nodes[i])
    {
      if Solid(st.store) {
        CallbackKeepsTone(st, token);
        CallbackOutcome(st, token);
      }
      hide Valid, PlaysStored, PlayBurst, Restart, Stored, Solid;
      if ok {
        RestartTone(token);
        PlayStoredBurst(token);
      } else {
        FinishRequest(token);
      }
    }

    /** The first half of it. */
    method RestartTone(token: nat)
      requires Valid()
      modifies this, store.list, store.list.nodes, expects, expects.list, expects.list.nodes
      ensures Valid() && st == Restart(old(st), token)
      ensures forall i :: 0 <= i < |store.list.nodes| ==>
          store.list.nodes[i] in old(store.list.nodes) || fresh(store.list.nodes[i])
      ensures forall i :: 0 <= i < |expects.list.nodes| ==>
                expects.list.nodes[i] in old(expects.list.nodes) || fresh(expects.list.nodes[i])
    {
      hide Valid, Store.Get, Store.Set;
      var tone := Take(DTMF_START);
      if tone.Some? && |tone.value| > 0 {
        Keep(DTMF_START, tone.value);
        SendCommand(StartTone(Tone(tone.value)), token, CompleteAlways);
      }
    }

    /** The second half. */
    method PlayStoredBurst(token: nat)
      requires Valid()
      modifies this`st, store.list, store.list.nodes, expects, expects.list, expects.list.nodes
      ensures Valid() && st == PlayBurst(old(st), token)
      ensures forall i :: 0 <= i < |expects.list.nodes| ==>
                expects.list.nodes[i] in old(expects.list.nodes) || fresh(expects.list.nodes[i])
    {
      hide Valid, Store.Get, Store.Set;
      var tone := Take(DTMF);
      if tone.Some? && |tone.value| > 0 {
        SendCommand(BurstTone(Tone(tone.value)), token, CompleteOnFailure);
      }
    }

    /**
     `ipc_gen_phone_res` for the answer to the open command at p: the oldest expectation of the number says
     what happens, and it is taken off the list after its callback has run. A response to another command than
     was expected makes the client give up.
     */
    method PhoneRes(ghost p: nat, token: nat, cmd: Cmd, ok: bool)
      requires Valid() && Inv(st) && Open(st, p) && st.log[p] == Sent(cmd, token)
      modifies this, store.list, store.list.nodes, expects, expects.list, expects.list.nodes
      ensures Valid() && Inv(st) && st == Step(old(st), Answer(p, ok))
      ensures Follows(old(st), st, p, ok)
    {
      AnswerOutcome(st, p, ok);
      hide Follows;
      StepKeeps(st, Answer(p, ok));
      assert Step(st, Answer(p, ok)) == Generic(Received(st, p), token, CommandOf(cmd), ok);
      hide Inv, Step, Generic;
      st := Received(st, p);
      Respond(token, cmd, ok);
    }

    method Respond(token: nat, cmd: Cmd, ok: bool)
      requires Valid()
      modifies this, store.list, store.list.nodes, expects, expects.list, expects.list.nodes
      ensures Valid() && st == Generic(old(st), token, CommandOf(cmd), ok)
    {
      hide PlayBurst, Restart, List.Valid, Named, Store.Get, Store.Set;
      var node; ghost var k;
      node, k := expects.Find(token);
      if node == null {
        return;
      }
      var e := node.data;
      if e.command != CommandOf(cmd) {
        GiveUp();
      } else if e.wish == Callback {
        CallAndTake(k, e, token, ok);
      } else {
        if e.wish == CompleteAlways || !ok {
          FinishRequest(token);
        }
        TakeExpect(k, e);
      }
    }

    /** The request of the token is completed. */
    method FinishRequest(token: nat)
      requires Valid()
      modifies this`inFlight, this`st
      ensures Valid() && st == Finish(old(st), token)
    {
      if inFlight == Some(token) {
        inFlight := None;
      }
      st := Finish(st, token);
    }

    /** `ipc_gen_phone_res_expect_unregister` on the expectation at position k. */
    method TakeExpect(ghost k: nat, e: Expect)
      requires Valid() && k < |st.expects| && st.expects[k] == e
      modifies this`st, expects.list, expects.list.nodes
      ensures Valid() && st == old(st).(expects := Without(old(st).expects, k))
    {
      SerialFound(st.expects, k);
      hide List.Valid, Store.Get;
      expects.Remove(e.serial);
      st := st.(expects := expects.Expects());
    }

    /** The callback runs with its expectation still listed, which is then taken off by address. */
    method CallAndTake(ghost k: nat, e: Expect, token: nat, ok: bool)
      requires Valid() && k < |st.expects| && st.expects[k] == e
      modifies this, store.list, store.list.nodes, expects, expects.list, expects.list.nodes
      ensures Valid()
      ensures var t := old(st).(expects := Without(old(st).expects, k));
              st == if ok then PlayBurst(Restart(t, token), token) else Finish(t, token)
    {
      CallbackCommutes(st, k, token);
      hide Valid, PlayBurst, Restart, Stored, Solid, Without;
      ContDtmfCallback(token, ok);
      TakeExpect(k, e);
    }

    /** The client gives up, and the radio falls to UNAVAILABLE. */
    method GiveUp()
      requires Valid()
      modifies this, store.list, store.list.nodes, expects.list, expects.list.nodes
      ensures Valid() && st == StepUnavailable(old(st))
    {
      hide List.Valid;
      inFlight := None;
      store.DataFlush();
      expects.Flush();
      st := StepUnavailable(st);
    }
  }

  /** Taking an expectation off before the callback or after it comes to the same. */
  lemma {:induction false} CallbackCommutes(s: State, k: nat, token: nat)
    requires k < |s.expects|
    ensures var t, u := s.(expects := Without(s.expects, k)), PlayBurst(Restart(s, token), token);
            && k < |u.expects| && u.expects[k] == s.expects[k]
            && PlayBurst(Restart(t, token), token) == u.(expects := Without(u.expects, k))
  {
    var t := s.(expects := Without(s.expects, k));
    hide Store.Get, Store.Set;
    var (rest, tone) := Store.Get(s.store, DTMF_START);
    if tone.Some? {
      SendCommutes(s.(store := Restart(s, token).store), k, StartTone(Tone(tone.value)), token, CompleteAlways);
    }
    assert Restart(t, token) == Restart(s, token).(expects := Without(Restart(s, token).expects, k));
    var v := Restart(s, token);
    var (_, burst) := Store.Get(v.store, DTMF);
    if burst.Some? {
      SendCommutes(v.(store := PlayBurst(v, token).store), k, BurstTone(Tone(burst.value)), token, CompleteOnFailure);
    }
  }

  lemma {:induction false} SendCommutes(s: State, k: nat, cmd: Cmd, token: nat, wish: Wish)
    requires k < |s.expects|
    ensures var t, u := s.(expects := Without(s.expects, k)), Send(s, cmd, token, wish);
            && u.expects[k] == s.expects[k] && Send(t, cmd, token, wish) == u.(expects := Without(u.expects, k))
  {
    var e := Expect(s.nextExpect, token, CommandOf(cmd), wish);
    assert Without(s.expects + [e], k) == Without(s.expects, k) + [e];
  }

  /** With nothing in flight, a tone that sounds is the one stored, and so it is stopped. */
  lemma {:induction false} SoundingIsStopped(s: State, data: Store.Bytes)
    requires Inv(s) && s.inFlight.None? && Sounding(s)
    ensures HandleStart(s, data).log == s.log + [Sent(StopTone, s.next)]
    ensures HandleBurst(s, data).log == s.log + [Sent(StopTone, s.next)]
  {
    Taken(s.store, DTMF_START);
  }

  lemma {:induction false} CallbackKeepsTone(s: State, token: nat)
    requires Solid(s.store)
    ensures Stored(PlayBurst(Restart(s, token), token)) == Stored(s) && Stored(Finish(s, token)) == Stored(s)
  {
    var (rest, tone) := Store.Get(s.store, DTMF_START);
    hide Solid;
    Taken(s.store, DTMF_START);
    if tone.Some? { Kept(rest, DTMF_START, tone.value); }
    BurstAfter(Restart(s, token), token);
  }
}
