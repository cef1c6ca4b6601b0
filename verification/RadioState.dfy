/**
 The radio state of Samsung-RIL over everything that depends on it: the request queue with the FMT client's
 list, the request-data store and the expectations, each on its own linked list.
 */
module RadioState {
  import opened Common
  import opened ListHead
  import opened FmtNumbers
  import opened RequestQueue
  import opened GenericResponse
  import opened Scheduler
  import opened DispatchLoop
  import Store = RequestStore

  /** The store and the expectations with their nodes. */
  ghost function Others(store: Store.Store, expects: Expectations): set<object>
    reads store.list`nodes, expects.list`nodes
  {
    {store.list, expects, expects.list} + (set n | n in store.list.nodes) + (set n | n in expects.list.nodes)
  }

  /** The lists show the state of the scheduler. */
  ghost predicate Shows(ril: Ril, store: Store.Store, expects: Expectations, s: Scheduler.State)
    reads ril`q, ril`radio, store.list, expects, expects.list
  {
    && s.radio == ril.radio && s.q == ril.q && s.store == store.Entries()
    && s.expects == expects.Expects() && s.nextExpect == expects.next
  }

  /** The change to UNAVAILABLE: the draining loop, then the flushing loops. */
  method GoDown(ril: Ril, store: Store.Store, expects: Expectations)
    requires ril.Valid() && Good(ril.q) && store.Valid() && expects.Valid() && ril.Repr() !! Others(store, expects)
    modifies ril.Repr(), store.list, store.list.nodes, expects.list, expects.list.nodes
    ensures ril.Valid() && Good(ril.q) && store.Valid() && expects.Valid()
    ensures var d := Drain(old(ril.q)); ril.q == d.(fmt := if d.fmt.Some? then Some(Fmt([], 0, 0)) else None)
    ensures |store.Entries()| == |expects.Expects()| == 0 && expects.next == old(expects.next)
    ensures ril.radio == old(ril.radio)
  {
    hide Good, Drain, Ril.Valid, Ril.Repr, Store.Store.Valid, Expectations.Valid, Reports;
    ril.CompleteAll();
    store.DataFlush();
    expects.Flush();
    ril.FlushFmt();
  }

  /**
   `ril_radio_state_update`. On the change to UNAVAILABLE the draining loop and the flushing loops leave every
   list empty and the counter 0, after one report for each request with a token, in queue order.
   */
  method RadioStateUpdate(ril: Ril, store: Store.Store, expects: Expectations, state: int, ghost s: Scheduler.State)
    requires ril.Valid() && Good(ril.q) && store.Valid() && expects.Valid() && ril.Repr() !! Others(store, expects)
    requires Shows(ril, store, expects, s)
    modifies ril.Repr(), store.list, store.list.nodes, expects.list, expects.list.nodes
    ensures ril.Valid() && Good(ril.q) && store.Valid() && expects.Valid()
    ensures Shows(ril, store, expects, Step(s, Radio(state)))
    ensures state == RADIO_UNAVAILABLE && s.radio != state ==> Drained(s, Step(s, Radio(state)))
  {
    hide Step, Good, Drain, Drained, Ril.Valid, Store.Store.Valid, Expectations.Valid;
    RadioCases(s, state);
    if s.radio != state && state == RADIO_UNAVAILABLE { UnavailableDrains(s); }
    if ril.radio == state {
      return;
    }
    SetState(ril, state);
    hide Ril.Repr;
    if state == RADIO_UNAVAILABLE {
      GoDown(ril, store, expects);
    }
  }

  method SetState(ril: Ril, state: int)
    requires ril.Valid()
    modifies ril`radio
    ensures ril.Valid() && ril.radio == state && ril.Repr() == old(ril.Repr())
  {
    ril.radio := state;
  }
}
