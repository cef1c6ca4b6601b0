/**
 Tones: the three DTMF requests of Samsung-RIL and the commands they put on the wire. A tone that is
 sounding is remembered in the request-data store, so that the next request stops it first and goes on
 from the callback. At most one DTMF request is in flight (Scheduler.OneInFlight), and its number
 stands for its token (FmtNumbers.RecentRoundTrip); commands and answers are named by the token here.
 */
module Dtmf {
  import opened Common
  import opened GenericResponse
  import Store = RequestStore

  const DTMF := 24
  const DTMF_START := 49

  const CONT_DTMF := 0x0208
  const BURST_DTMF := 0x0207

  datatype Cmd = StartTone(tone: int) | StopTone | BurstTone(tone: int)

  /** The tone is the first character of the data. */
  function Tone(data: Store.Bytes): int {
    if |data| == 0 then 0 else data[0]
  }

  function CommandOf(c: Cmd): int {
    if c.BurstTone? then BURST_DTMF else CONT_DTMF
  }

  /** What happens on the wire: a command, the modem's answer to the command at a place, a restart of the modem. */
  datatype Event = Sent(cmd: Cmd, token: nat) | Ack(of: nat) | Reset

  datatype State = State(
    next: nat,                      // the token of the next request
    inFlight: Option<nat>,          // the HANDLED DTMF request
    store: seq<Store.Entry>,
    expects: seq<Expect>,
    nextExpect: nat,
    out: set<nat>,                  // the commands the modem may still answer, by their place in the log
    log: seq<Event>,
    lastStart: int,                 // the latest start of a tone since the latest restart, -1 for none
    released: Option<nat>)          // an answer, since then, to a stop sent since then

  datatype Op =
    | DoStart(data: Store.Bytes) | DoBurst(data: Store.Bytes) | DoStop   // the handlers, on a new request
    | Answer(p: nat, ok: bool)                               // generic response to the open command at a place
    | BurstDone(p: nat)                                      // the modem's own message that a burst is over
    | Unavailable                                            // the radio falls to UNAVAILABLE
    | Cancel                                                 // libril cancels the request in flight

  ghost predicate Initial(s: State) {
    && s.inFlight.None? && |s.store| == |s.expects| == |s.log| == 0 && s.out == {}
    && s.lastStart == -1 && s.released.None?
  }

  /** Registers an expectation and sends a command. */
  function Send(s: State, cmd: Cmd, token: nat, wish: Wish): State {
    var n := |s.log|;
    s.(expects := s.expects + [Expect(s.nextExpect, token, CommandOf(cmd), wish)], nextExpect := s.nextExpect + 1,
       out := s.out + {n}, log := s.log + [Sent(cmd, token)],
       lastStart := if cmd.StartTone? then n else s.lastStart,
       released := if cmd.StartTone? then None else s.released)
  }

  /** A handler makes its request the one in flight. */
  function Begin(s: State): State {
    s.(inFlight := Some(s.next), next := s.next + 1)
  }

  function HandleStart(s: State, data: Store.Bytes): State {
    var (rest, prior) := Store.Get(s.store, DTMF_START);
    var t := Begin(s).(store := Store.Set(rest, DTMF_START, data));
    if prior.Some? && |prior.value| > 0 then Send(t, StopTone, s.next, Callback)
    else Send(t, StartTone(Tone(data)), s.next, CompleteAlways)
  }

  function HandleBurst(s: State, data: Store.Bytes): State {
    var (rest, prior) := Store.Get(s.store, DTMF_START);
    if prior.Some? && |prior.value| > 0
    then Send(Begin(s).(store := Store.Set(rest, DTMF, data)), StopTone, s.next, Callback)
    else Send(Begin(s).(store := rest), BurstTone(Tone(data)), s.next, CompleteOnFailure)
  }

  function HandleStop(s: State): State {
    Send(Begin(s).(store := Store.Get(s.store, DTMF_START).0), StopTone, s.next, CompleteAlways)
  }

  function Finish(s: State, token: nat): State {
    if s.inFlight == Some(token) then s.(inFlight := None) else s
  }

  /** `ipc_call_cont_dtmf_callback` after a good answer, first half: the stored tone is started. */
  function Restart(s: State, token: nat): State {
    var (rest, tone) := Store.Get(s.store, DTMF_START);
    if tone.Some? && |tone.value| > 0
    then Send(s.(store := Store.Set(rest, DTMF_START, tone.value)), StartTone(Tone(tone.value)), token,
        CompleteAlways)
    else s.(store := rest)
  }

  /** Second half: a stored burst is played. */
  function PlayBurst(s: State, token: nat): State {
    var (rest, tone) := Store.Get(s.store, DTMF);
    var t := s.(store := rest);
    if tone.Some? && |tone.value| > 0 then Send(t, BurstTone(Tone(tone.value)), token, CompleteOnFailure) else t
  }

  function StepUnavailable(s: State): State {
    s.(inFlight := None, store := [], expects := [], out := {}, log := s.log + [Reset], lastStart := -1,
        released := None)
  }

  /** The modem's answer enters the log; if it is to a stop sent after the latest start, the tone is over. */
  function Acknowledge(s: State, p: nat): State
    requires p < |s.log|
  {
    var e := s.log[p];
    var over := e.Sent? && e.cmd.StopTone? && s.lastStart >= 0 && p > s.lastStart && s.released.None?;
    s.(log := s.log + [Ack(p)], released := if over then Some(|s.log|) else s.released)
  }

  /** `ipc_gen_phone_res`; an error return makes the client loop give up, which ends in UNAVAILABLE. */
  function Generic(s: State, token: nat, command: int, ok: bool): State {
    var k := FindAseq(s.expects, token);
    match Respond(s.expects, token, command, ok)
    case Ignored => s
    case Mismatch => StepUnavailable(s)
    case Called =>
      // The expectation is taken off at the end, by address; what the callback registers stays.
      var t := s.(expects := Without(s.expects, k));
      if ok then PlayBurst(Restart(t, token), token) else Finish(t, token)
    case Completed(_) => Finish(s.(expects := Without(s.expects, k)), token)
    case Nothing => s.(expects := Without(s.expects, k))
  }

  predicate Open(s: State, p: nat) {
    p in s.out && p < |s.log| && s.log[p].Sent?
  }

  /** The answer to a burst only says that it was accepted; the burst stays open until it is over. */
  function Received(s: State, p: nat): State
    requires Open(s, p)
  {
    var t := Acknowledge(s, p);
    if s.log[p].cmd.BurstTone? then t else t.(out := s.out - {p})
  }

  function StepAnswer(s: State, p: nat, ok: bool): State
    requires Open(s, p)
  {
    Generic(Received(s, p), s.log[p].token, CommandOf(s.log[p].cmd), ok)
  }

  function Step(s: State, op: Op): State {
    match op
    // A request without a tone is completed at once; one that finds a DTMF request in flight is put off.
    case DoStart(data) => if |data| == 0 || s.inFlight.Some? then s else HandleStart(s, data)
    case DoBurst(data) => if |data| == 0 || s.inFlight.Some? then s else HandleBurst(s, data)
    case DoStop => if s.inFlight.Some? then s else HandleStop(s)
    case Answer(p, ok) => if Open(s, p) then StepAnswer(s, p, ok) else s
    case BurstDone(p) =>
      if Open(s, p) && s.log[p].cmd.BurstTone? then Finish(s.(out := s.out - {p}), s.log[p].token) else s
    case Unavailable => StepUnavailable(s)
    case Cancel => s.(inFlight := None)
  }

  function Run(s: State, ops: seq<Op>): State
    decreases |ops|
  {
    if |ops| == 0 then s else Run(Step(s, ops[0]), ops[1..])
  }

  // ----- the log

  ghost predicate StartAt(log: seq<Event>, i: nat) {
    i < |log| && log[i].Sent? && log[i].cmd.StartTone?
  }

  /** Strictly between i and j, the modem answered a stop that was itself sent after i. */
  ghost predicate StoppedBetween(log: seq<Event>, i: nat, j: nat) {
    exists b :: i < b < j && b < |log| && log[b].Ack? && i < log[b].of < b && log[log[b].of].Sent? &&
        log[log[b].of].cmd.StopTone?
  }

  ghost predicate ResetBetween(log: seq<Event>, i: nat, j: nat) {
    exists r :: i < r < j && r < |log| && log[r].Reset?
  }

  /** Two starts are separated by an answered stop, unless the modem restarted in between. */
  ghost predicate Separated(log: seq<Event>) {
    forall i, j :: 0 <= i < j < |log| && StartAt(log, i) && StartAt(log, j) ==>
        StoppedBetween(log, i, j) || ResetBetween(log, i, j)
  }

  /** A tone was started and no answer to a later stop has come. */
  predicate Sounding(s: State) {
    s.lastStart >= 0 && s.released.None?
  }

  /** `lastStart` and `released` say what they are meant to. */
  ghost predicate Noted(s: State) {
    && -1 <= s.lastStart < |s.log|
    && (s.lastStart >= 0 ==> StartAt(s.log, s.lastStart))
    && (forall k {:trigger StartAt(s.log, k)} :: s.lastStart < k < |s.log| && StartAt(s.log, k) ==>
        ResetBetween(s.log, k, |s.log|))
    && (s.lastStart >= 0 ==> !ResetBetween(s.log, s.lastStart, |s.log|))
    && (s.lastStart >= 0 ==> (s.released.Some? <==> StoppedBetween(s.log, s.lastStart, |s.log|)))
  }

  lemma {:induction false} LongerLog(log: seq<Event>, e: Event, i: nat, j: nat)
    requires j <= |log|
    ensures StoppedBetween(log, i, j) ==> StoppedBetween(log + [e], i, j) && StoppedBetween(log + [e], i, j + 1)
    ensures ResetBetween(log, i, j) ==> ResetBetween(log + [e], i, j) && ResetBetween(log + [e], i, j + 1)
    ensures StartAt(log + [e], i) && i < |log| ==> StartAt(log, i)
    ensures i < |log| && StartAt(log, i) ==> StartAt(log + [e], i)
  {
    var l := log + [e];
    if StoppedBetween(log, i, j) {
      var b :| i < b < j && b < |log| && log[b].Ack? && i < log[b].of < b && log[log[b].of].Sent? &&
          log[log[b].of].cmd.StopTone?;
      assert l[b] == log[b] && l[log[b].of] == log[log[b].of];
    }
    if ResetBetween(log, i, j) {
      var r :| i < r < j && r < |log| && log[r].Reset?;
      assert l[r] == log[r];
    }
  }

  /** An event that starts no tone keeps the log separated. */
  lemma {:induction false} OtherEventSeparated(log: seq<Event>, e: Event)
    requires Separated(log) && !(e.Sent? && e.cmd.StartTone?)
    ensures Separated(log + [e])
  {
    var l := log + [e];
    forall i, j | 0 <= i < j < |l| && StartAt(l, i) && StartAt(l, j)
      ensures StoppedBetween(l, i, j) || ResetBetween(l, i, j)
    {
      LongerLog(log, e, i, j);
      LongerLog(log, e, j, j);
    }
  }

  /** A start keeps the log separated when no tone is sounding. */
  lemma {:induction false} StartSeparated(s: State, e: Event)
    requires Separated(s.log) && Noted(s) && !Sounding(s) && e.Sent? && e.cmd.StartTone?
    ensures Separated(s.log + [e])
  {
    var l, n := s.log + [e], |s.log|;
    forall i, j | 0 <= i < j < |l| && StartAt(l, i) && StartAt(l, j)
      ensures StoppedBetween(l, i, j) || ResetBetween(l, i, j)
    {
      LongerLog(s.log, e, i, j - 1);
      if j < n {
        LongerLog(s.log, e, i, j);
        LongerLog(s.log, e, j, j);
      } else {
        EarlierStart(s, i);
        LongerLog(s.log, e, i, n);
      }
    }
  }

  /** With no tone sounding, every earlier start is behind an answered stop or a restart. */
  lemma {:induction false} EarlierStart(s: State, i: nat)
    requires Separated(s.log) && Noted(s) && !Sounding(s) && i < |s.log| && StartAt(s.log, i)
    ensures StoppedBetween(s.log, i, |s.log|) || ResetBetween(s.log, i, |s.log|)
  {
    if i < s.lastStart {
      assert StoppedBetween(s.log, i, s.lastStart) || ResetBetween(s.log, i, s.lastStart);
    }
  }

  // ----- the state behind the log

  /** Nothing empty is stored: `ril_request_data_set` refuses it. */
  ghost predicate Solid(store: seq<Store.Entry>) {
    forall i :: 0 <= i < |store| ==> |store[i].data| > 0
  }

  /** Taking the oldest entry of a kind, and storing one, seen on the queue of stored tones. */
  lemma {:induction false} Taken(store: seq<Store.Entry>, kind: int)
    requires Solid(store)
    ensures var (rest, prior) := Store.Get(store, kind);
            && Solid(rest) && (prior.Some? ==> |prior.value| > 0)
            && |Store.Fifo(rest, DTMF_START)|
               == |Store.Fifo(store, DTMF_START)| - (if kind == DTMF_START && prior.Some? then 1 else 0)
            && (kind == DTMF_START && prior.None? ==> |Store.Fifo(store, DTMF_START)| == 0)
  {
    Store.GetPops(store, kind, DTMF_START);
  }

  lemma {:induction false} Kept(store: seq<Store.Entry>, kind: int, data: Store.Bytes)
    requires Solid(store) && |data| > 0
    ensures var t := Store.Set(store, kind, data);
            && Solid(t)
            && |Store.Fifo(t, DTMF_START)| == |Store.Fifo(store, DTMF_START)| + if kind == DTMF_START then 1 else 0
  {
    Store.SetAppends(store, kind, data, DTMF_START);
  }

  ghost predicate OpenFor(s: State, p: nat, token: nat) {
    Open(s, p) && s.log[p].token == token
  }

  /** Open commands and expectations belong to requests already made, and one tone at most is stored. */
  ghost predicate Wf(s: State) {
    && (forall p: nat :: p in s.out ==> Open(s, p) && s.log[p].token < s.next)
    && (forall i :: 0 <= i < |s.expects| ==> s.expects[i].aseq < s.next)
    && (s.inFlight.Some? ==> s.inFlight.value < s.next)
    && |Store.Fifo(s.store, DTMF_START)| <= 1
    && Solid(s.store)
  }

  /** The one open command of the token is a stop sent after the latest start. */
  ghost predicate StopOpen(s: State, p: nat, token: nat) {
    && OpenFor(s, p, token) && s.log[p].cmd.StopTone? && p > s.lastStart
    && forall q: nat {:trigger OpenFor(s, q, token)} :: OpenFor(s, q, token) ==> q == p
  }

  /** The one expectation of the token is for a continuous tone. */
  ghost predicate OnlyExpect(q: seq<Expect>, k: nat, token: nat) {
    && k < |q| && q[k].aseq == token && q[k].command == CONT_DTMF && q[k].wish != CompleteOnFailure
    && forall j :: 0 <= j < |q| && j != k ==> q[j].aseq != token
  }

  /** No callback is waited for. */
  ghost predicate Calm(s: State) {
    forall k :: 0 <= k < |s.expects| ==> s.expects[k].wish != Callback
  }

  /** The request in flight waits for the answer to a stop, and no other request for a callback. */
  ghost predicate Stopping(s: State) {
    && s.inFlight.Some?
    && (exists p: nat :: StopOpen(s, p, s.inFlight.value))
    && (exists k: nat :: OnlyExpect(s.expects, k, s.inFlight.value))
    && (forall k :: 0 <= k < |s.expects| && s.expects[k].wish == Callback ==> s.expects[k].aseq == s.inFlight.value)
  }

  ghost function Stored(s: State): nat {
    |Store.Fifo(s.store, DTMF_START)|
  }

  /** Nothing depends on the request in flight: no callback is waited for, and a sounding tone is stored. */
  ghost predicate SafeCancel(s: State) {
    Calm(s) && (Sounding(s) ==> Stored(s) == 1)
  }

  ghost predicate Inv(s: State) {
    Wf(s) && Noted(s) && Separated(s.log) && (SafeCancel(s) || Stopping(s))
  }

  // ----- sending

  lemma {:induction false} SendNoted(s: State, cmd: Cmd, token: nat, wish: Wish)
    requires Noted(s) && Separated(s.log) && (cmd.StartTone? ==> !Sounding(s))
    ensures var t := Send(s, cmd, token, wish); Noted(t) && Separated(t.log)
  {
    var e, t := Sent(cmd, token), Send(s, cmd, token, wish);
    if cmd.StartTone? { StartSeparated(s, e); } else { OtherEventSeparated(s.log, e); }
    EventNoted(s, e);
    hide Separated;
  }

  /** Only a restart, or the answer to a stop, can come between. */
  lemma {:induction false} NothingNew(log: seq<Event>, e: Event, i: nat)
    requires i < |log| && !e.Reset?
    ensures ResetBetween(log + [e], i, |log| + 1) ==> ResetBetween(log, i, |log|)
    ensures StoppedBetween(log + [e], i, |log| + 1) ==>
              StoppedBetween(log, i, |log|) ||
                  (e.Ack? && i < e.of < |log| && log[e.of].Sent? && log[e.of].cmd.StopTone?)
  {
    var l := log + [e];
    if StoppedBetween(l, i, |l|) {
      var b :| i < b < |l| && l[b].Ack? && i < l[b].of < b && l[l[b].of].Sent? && l[l[b].of].cmd.StopTone?;
      assert l[l[b].of] == log[l[b].of];
      assert b < |log| ==> l[b] == log[b];
    }
    if ResetBetween(l, i, |l|) {
      var r :| i < r < |l| && l[r].Reset?;
      assert l[r] == log[r];
    }
  }

  lemma {:induction false} EventNoted(s: State, e: Event)
    requires Noted(s) && e.Sent?
    ensures !e.cmd.StartTone? ==> Noted(s.(log := s.log + [e]))
    ensures e.cmd.StartTone? ==> Noted(s.(log := s.log + [e], lastStart := |s.log|, released := None))
  {
    var l, n := s.log + [e], |s.log|;
    assert !ResetBetween(l, n, n + 1) && !StoppedBetween(l, n, n + 1);
    forall k: nat | k < n && StartAt(l, k)
      ensures StartAt(s.log, k) && (ResetBetween(s.log, k, n) ==> ResetBetween(l, k, n + 1))
    {
      LongerLog(s.log, e, k, n);
    }
    if s.lastStart >= 0 {
      LongerLog(s.log, e, s.lastStart, n);
      NothingNew(s.log, e, s.lastStart);
    }
  }

  /** The first command of a request just begun, from a calm state: a stop. */
  lemma {:induction false} SendStop(s: State, t: State, wish: Wish)
    requires Wf(s) && Wf(t) && Noted(t) && Calm(t) && wish != CompleteOnFailure
    requires t.out == s.out && t.log == s.log && t.expects == s.expects && t.inFlight == Some(s.next) &&
        t.next == s.next + 1
    ensures var u := Send(t, StopTone, s.next, wish); Wf(u) && Stopping(u)
  {
    var u, n, token := Send(t, StopTone, s.next, wish), |s.log|, s.next;
    hide Noted;
    assert -1 <= t.lastStart < n by { assert Noted(t); NotedRange(t); }
    assert forall p: nat :: p in s.out ==> u.log[p] == s.log[p];
    assert u.log[n] == Sent(StopTone, token);
    assert StopOpen(u, n, token);
    assert OnlyExpect(u.expects, |s.expects|, token);
  }

  lemma {:induction false} NotedRange(s: State)
    requires Noted(s)
    ensures -1 <= s.lastStart < |s.log|
  {
  }

  /** Any other command under any token in use. */
  lemma {:induction false} SendOther(s: State, cmd: Cmd, token: nat, wish: Wish)
    requires Wf(s) && Calm(s) && token < s.next && wish != Callback
    ensures var t := Send(s, cmd, token, wish); Wf(t) && Calm(t)
  {
    var t := Send(s, cmd, token, wish);
    assert forall p: nat :: p in s.out ==> t.log[p] == s.log[p];
  }

  // ----- the handlers

  /** A request is begun with no other in flight, so from a calm state, and with another store. */
  lemma {:induction false} BeginCalm(s: State, store: seq<Store.Entry>)
    requires Inv(s) && s.inFlight.None? && Solid(store) && |Store.Fifo(store, DTMF_START)| <= 1
    ensures var t := Begin(s).(store := store); Wf(t) && Noted(t) && Calm(t)
  {
    var t := Begin(s).(store := store);
    assert forall p: nat :: p in s.out ==> Open(s, p) && Open(t, p);
    hide Separated, Solid;
  }

  lemma {:induction false} StartKeeps(s: State, data: Store.Bytes)
    requires Inv(s) && |data| > 0 && s.inFlight.None?
    ensures Inv(HandleStart(s, data))
  {
    var (rest, prior) := Store.Get(s.store, DTMF_START);
    hide Solid;
    Taken(s.store, DTMF_START);
    Kept(rest, DTMF_START, data);
    var t := Begin(s).(store := Store.Set(rest, DTMF_START, data));
    BeginCalm(s, t.store);
    assert Wf(s) && Stored(t) == 1;
    hide Wf, Noted, Separated, Calm, Stopping;
    if prior.Some? && |prior.value| > 0 {
      SendStop(s, t, Callback);
      SendNoted(t, StopTone, s.next, Callback);
    } else {
      SendOther(t, StartTone(Tone(data)), s.next, CompleteAlways);
      SendNoted(t, StartTone(Tone(data)), s.next, CompleteAlways);
    }
  }

  lemma {:induction false} BurstKeeps(s: State, data: Store.Bytes)
    requires Inv(s) && |data| > 0 && s.inFlight.None?
    ensures Inv(HandleBurst(s, data))
  {
    var (rest, prior) := Store.Get(s.store, DTMF_START);
    hide Solid;
    Taken(s.store, DTMF_START);
    Kept(rest, DTMF, data);
    if prior.Some? && |prior.value| > 0 {
      var t := Begin(s).(store := Store.Set(rest, DTMF, data));
      BeginCalm(s, t.store);
      assert Wf(s);
      hide Wf, Noted, Separated, Calm, Stopping;
      SendStop(s, t, Callback);
      SendNoted(t, StopTone, s.next, Callback);
    } else {
      var t := Begin(s).(store := rest);
      BeginCalm(s, t.store);
      assert Wf(s);
      hide Wf, Noted, Separated, Calm, Stopping;
      SendOther(t, BurstTone(Tone(data)), s.next, CompleteOnFailure);
      SendNoted(t, BurstTone(Tone(data)), s.next, CompleteOnFailure);
    }
  }

  lemma {:induction false} StopKeeps(s: State)
    requires Inv(s) && s.inFlight.None?
    ensures Inv(HandleStop(s)) && Stopping(HandleStop(s))
  {
    hide Solid;
    Taken(s.store, DTMF_START);
    var t := Begin(s).(store := Store.Get(s.store, DTMF_START).0);
    BeginCalm(s, t.store);
    assert Wf(s);
    hide Wf, Noted, Separated, Calm, Stopping;
    SendStop(s, t, CompleteAlways);
    SendNoted(t, StopTone, s.next, CompleteAlways);
  }

  // ----- the answers

  lemma {:induction false} UnavailableKeeps(s: State)
    requires Separated(s.log)
    ensures Inv(StepUnavailable(s))
  {
    var t := StepUnavailable(s);
    OtherEventSeparated(s.log, Reset);
    forall k: nat | k < |t.log| && StartAt(t.log, k) ensures ResetBetween(t.log, k, |t.log|) {
      assert t.log[|s.log|].Reset?;
    }
    hide Separated;
  }

  /** The answer is in the log; the tone is over if the command was the open stop. */
  lemma {:induction false} AckNoted(s: State, p: nat)
    requires Noted(s) && Separated(s.log) && p < |s.log|
    ensures var t := Acknowledge(s, p); Noted(t) && Separated(t.log)
  {
    var t := Acknowledge(s, p);
    OtherEventSeparated(s.log, Ack(p));
    var n := |s.log|;
    forall k: nat | k < n && StartAt(t.log, k)
      ensures StartAt(s.log, k) && (ResetBetween(s.log, k, n) ==> ResetBetween(t.log, k, n + 1))
    {
      LongerLog(s.log, Ack(p), k, n);
    }
    if s.lastStart >= 0 {
      LongerLog(s.log, Ack(p), s.lastStart, n);
      NothingNew(s.log, Ack(p), s.lastStart);
      if t.released != s.released {
        assert t.log[n] == Ack(p) && t.log[p] == s.log[p];
      }
    }
    hide Separated;
  }

  /** Fewer open commands and a longer log. */
  ghost predicate Later(s: State, t: State) {
    && t.out <= s.out && |s.log| <= |t.log| && t.log[..|s.log|] == s.log
    && t == s.(out := t.out, log := t.log, released := t.released)
  }

  lemma {:induction false} LaterWf(s: State, t: State)
    requires Wf(s) && Later(s, t)
    ensures Wf(t) && (Calm(s) ==> Calm(t))
    ensures forall p: nat, token: nat {:trigger OpenFor(t, p, token)} ::
              OpenFor(t, p, token) <==> OpenFor(s, p, token) && p in t.out
    ensures forall p: nat :: p in t.out ==> p < |s.log| && t.log[p] == s.log[p]
  {
    forall p: nat | p in t.out ensures p < |s.log| && t.log[p] == s.log[p] && Open(s, p) && Open(t, p) {
      assert t.log[p] == t.log[..|s.log|][p];
    }
    hide Solid;
  }

  lemma {:induction false} LaterStopping(s: State, t: State)
    requires Wf(s) && Later(s, t) && Stopping(s)
    requires forall p: nat {:trigger OpenFor(s, p, s.inFlight.value)} :: OpenFor(s, p, s.inFlight.value) ==> p in t.out
    ensures Stopping(t)
  {
    LaterWf(s, t);
    hide Wf;
    var token := s.inFlight.value;
    var p: nat :| StopOpen(s, p, token);
    assert StopOpen(t, p, token);
  }

  lemma {:induction false} NotedOut(s: State, out: set<nat>)
    requires Noted(s)
    ensures Noted(s.(out := out))
  {
  }

  lemma {:induction false} DropWf(s: State, k: nat)
    requires Wf(s) && k < |s.expects|
    ensures Wf(s.(expects := Without(s.expects, k)))
  {
    var t := s.(expects := Without(s.expects, k));
    assert forall p: nat :: p in s.out ==> Open(s, p) && Open(t, p);
    hide Solid;
  }

  lemma {:induction false} DropCalm(s: State, k: nat)
    requires Wf(s) && SafeCancel(s) && k < |s.expects|
    ensures var t := s.(expects := Without(s.expects, k)); Wf(t) && SafeCancel(t)
  {
    DropWf(s, k);
    hide Wf;
  }

  lemma {:induction false} DropStopping(s: State, k: nat)
    requires Wf(s) && Stopping(s) && k < |s.expects| && s.expects[k].aseq != s.inFlight.value
    ensures var t := s.(expects := Without(s.expects, k)); Wf(t) && Stopping(t)
  {
    DropWf(s, k);
    var t, token := s.(expects := Without(s.expects, k)), s.inFlight.value;
    hide Wf;
    assert forall p: nat {:trigger OpenFor(t, p, token)} :: OpenFor(s, p, token) <==> OpenFor(t, p, token);
    var e: nat :| OnlyExpect(s.expects, e, token);
    var m := if e < k then e else e - 1;
    assert t.expects[m] == s.expects[e];
    assert OnlyExpect(t.expects, m, token);
    var p: nat :| StopOpen(s, p, token);
    assert StopOpen(t, p, token);
  }

  lemma {:induction false} FinishKeeps(s: State, token: nat)
    requires Wf(s) && Noted(s) && Separated(s.log) && SafeCancel(s)
    ensures Inv(Finish(s, token))
  {
    var t := Finish(s, token);
    assert forall p: nat :: p in s.out ==> Open(s, p) && Open(t, p);
    hide Separated, Solid;
  }

  /** A response for a request that is not waiting for a stop: no callback runs, and no tone is forgotten. */
  lemma {:induction false} GenericElsewhere(s: State, token: nat, command: int, ok: bool)
    requires Wf(s) && Noted(s) && Separated(s.log)
    requires SafeCancel(s) || (Stopping(s) && token != s.inFlight.value)
    ensures Inv(Generic(s, token, command, ok))
  {
    var k := FindAseq(s.expects, token);
    UnavailableKeeps(s);
    if k < |s.expects| {
      assert s.expects[k].wish != Callback;
      var t := s.(expects := Without(s.expects, k));
      assert Noted(t);
      if SafeCancel(s) {
        DropCalm(s, k);
        hide Wf, Separated, Noted, Calm, Stopping;
        FinishKeeps(t, token);
      } else {
        DropStopping(s, k);
      }
    }
    hide StepUnavailable, Stopping, Calm;
  }

  /** An answer for any other request than one in flight that waits for a stop. */
  lemma {:induction false} AnswerElsewhere(s: State, p: nat, ok: bool)
    requires Inv(s) && Open(s, p) && (Stopping(s) ==> s.log[p].token != s.inFlight.value)
    ensures Inv(StepAnswer(s, p, ok))
  {
    var e, t := s.log[p], Received(s, p);
    AckNoted(s, p);
    NotedOut(Acknowledge(s, p), t.out);
    hide Noted, Separated, Stopping, Calm, Wf;
    assert Later(s, t);
    LaterWf(s, t);
    if Stopping(s) {
      LaterStopping(s, t);
    } else {
      assert SafeCancel(t);
    }
    GenericElsewhere(t, e.token, CommandOf(e.cmd), ok);
  }

  /** What the callback does from a calm state in which no tone sounds. */
  lemma {:induction false} CallbackKeeps(s: State, token: nat)
    requires Wf(s) && Noted(s) && Separated(s.log) && Calm(s) && !Sounding(s) && token < s.next
    ensures Inv(PlayBurst(Restart(s, token), token))
  {
    var (rest, tone) := Store.Get(s.store, DTMF_START);
    hide Solid;
    Taken(s.store, DTMF_START);
    StoreOnly(s, rest);
    if tone.Some? && |tone.value| > 0 {
      Kept(rest, DTMF_START, tone.value);
      var v := s.(store := Store.Set(rest, DTMF_START, tone.value));
      StoreOnly(s, v.store);
      assert Stored(v) == 1;
      hide Wf, Noted, Separated, Calm;
      SendOther(v, StartTone(Tone(tone.value)), token, CompleteAlways);
      SendNoted(v, StartTone(Tone(tone.value)), token, CompleteAlways);
      BurstPlayed(Restart(s, token), token);
    } else {
      hide Wf, Noted, Separated, Calm;
      BurstPlayed(Restart(s, token), token);
    }
  }

  /** Another store changes nothing else. */
  lemma {:induction false} StoreOnly(s: State, store: seq<Store.Entry>)
    requires Wf(s) && Noted(s) && Solid(store) && |Store.Fifo(store, DTMF_START)| <= 1
    ensures var t := s.(store := store); Wf(t) && Noted(t) && (Calm(s) ==> Calm(t))
  {
    var t := s.(store := store);
    assert forall p: nat :: p in s.out ==> Open(s, p) && Open(t, p);
    hide Solid;
  }

  lemma {:induction false} BurstPlayed(s: State, token: nat)
    requires Wf(s) && Noted(s) && Separated(s.log) && SafeCancel(s) && token < s.next
    ensures Inv(PlayBurst(s, token))
  {
    var (rest, tone) := Store.Get(s.store, DTMF);
    hide Solid;
    Taken(s.store, DTMF);
    StoreOnly(s, rest);
    var t := s.(store := rest);
    assert Stored(t) == Stored(s);
    hide Noted, Separated, Calm, Wf;
    if tone.Some? {
      SendOther(t, BurstTone(Tone(tone.value)), token, CompleteOnFailure);
      SendNoted(t, BurstTone(Tone(tone.value)), token, CompleteOnFailure);
    }
  }

  lemma {:induction false} BurstAfter(s: State, token: nat)
    requires Solid(s.store)
    ensures var t := PlayBurst(s, token);
            && (t.log == s.log || exists tone :: t.log == s.log + [Sent(BurstTone(tone), token)])
            && Stored(t) == Stored(s) && Solid(t.store)
  {
    hide Solid;
    Taken(s.store, DTMF);
  }

  /** The response to the stop itself: the callback runs, or the request is completed. */
  lemma {:induction false} StopResponded(s: State, k: nat, ok: bool)
    requires s.inFlight.Some? && OnlyExpect(s.expects, k, s.inFlight.value) && s.inFlight.value < s.next
    requires Noted(s) && Separated(s.log) && !Sounding(s)
    requires var t := s.(expects := Without(s.expects, k)); Wf(t) && Calm(t)
    ensures Inv(Generic(s, s.inFlight.value, CONT_DTMF, ok))
  {
    var token, t := s.inFlight.value, s.(expects := Without(s.expects, k));
    assert FindAseq(s.expects, token) == k;
    assert Noted(t);
    hide Wf, Calm, Stopping, Noted, Separated, PlayBurst, Restart;
    CallbackKeeps(t, token);
    FinishKeeps(t, token);
  }

  /** The answer to the stop that the request in flight waits for: the tone is over. */
  lemma {:induction false} StopAnswered(s: State, p: nat, ok: bool)
    requires Inv(s) && Stopping(s) && OpenFor(s, p, s.inFlight.value)
    ensures Inv(StepAnswer(s, p, ok))
  {
    var token, t := s.inFlight.value, Received(s, p);
    AckNoted(s, p);
    NotedOut(Acknowledge(s, p), t.out);
    var c: nat :| StopOpen(s, c, token);
    var k: nat :| OnlyExpect(s.expects, k, token);
    assert c == p && s.log[p].cmd == StopTone && !Sounding(t);
    hide Noted, Separated;
    assert Later(s, t);
    LaterWf(s, t);
    var u := t.(expects := Without(t.expects, k));
    assert Calm(u);
    DropWf(t, k);
    hide Wf, Calm, Generic, StopOpen, Later;
    StopResponded(t, k, ok);
  }

  // ----- whole runs

  lemma {:induction false} BurstDoneKeeps(s: State, p: nat)
    requires Inv(s) && Open(s, p) && s.log[p].cmd.BurstTone?
    ensures Inv(Finish(s.(out := s.out - {p}), s.log[p].token))
  {
    var token, t := s.log[p].token, s.(out := s.out - {p});
    assert Later(s, t);
    LaterWf(s, t);
    NotedOut(s, t.out);
    hide Wf, Noted, Separated;
    if Stopping(s) {
      assert OpenFor(s, p, token);
      LaterStopping(s, t);
    } else {
      hide Calm;
      FinishKeeps(t, token);
    }
  }

  /** Cancelling is safe while nothing depends on the request in flight. */
  lemma {:induction false} CancelKeeps(s: State)
    requires Inv(s) && SafeCancel(s)
    ensures Inv(s.(inFlight := None))
  {
    var t := s.(inFlight := None);
    assert forall p: nat :: p in s.out ==> Open(s, p) && Open(t, p);
    hide Solid, Separated;
  }

  lemma {:induction false} StepKeeps(s: State, op: Op)
    requires Inv(s) && (op.Cancel? ==> SafeCancel(s))
    ensures Inv(Step(s, op))
  {
    assert Separated(s.log);
    hide Inv, Stopping, HandleStart, HandleBurst, HandleStop, StepAnswer, StepUnavailable, Finish, Separated;
    match op
    case DoStart(data) => if |data| > 0 && s.inFlight.None? { StartKeeps(s, data); }
    case DoBurst(data) => if |data| > 0 && s.inFlight.None? { BurstKeeps(s, data); }
    case DoStop => if s.inFlight.None? { StopKeeps(s); }
    case Answer(p, ok) =>
      if Open(s, p) {
        if Stopping(s) && s.inFlight == Some(s.log[p].token) {
          StopAnswered(s, p, ok);
        } else {
          AnswerElsewhere(s, p, ok);
        }
      }
    case BurstDone(p) => if Open(s, p) && s.log[p].cmd.BurstTone? { BurstDoneKeeps(s, p); }
    case Unavailable => UnavailableKeeps(s);
    case Cancel => CancelKeeps(s);
  }

  /** Every cancellation in the run happens while nothing depends on the request in flight. */
  ghost predicate SafeCancels(s: State, ops: seq<Op>)
    decreases |ops|
  {
    |ops| > 0 ==> (ops[0].Cancel? ==> SafeCancel(s)) && SafeCancels(Step(s, ops[0]), ops[1..])
  }

  lemma {:induction false} RunKeeps(s: State, ops: seq<Op>)
    requires Inv(s) && SafeCancels(s, ops)
    ensures Inv(Run(s, ops))
    decreases |ops|
  {
    hide Inv, Step, SafeCancel;
    if |ops| > 0 {
      StepKeeps(s, ops[0]);
      RunKeeps(Step(s, ops[0]), ops[1..]);
    }
  }

  /**
   In every run in which requests are cancelled only when nothing depends on them, two starts of a
   continuous tone are separated by a stop that was sent after the first and answered before the second,
   or the modem was restarted in between.
   */
  lemma {:induction false} StartsAreSeparated(s: State, ops: seq<Op>)
    requires Initial(s) && SafeCancels(s, ops)
    ensures Separated(Run(s, ops).log)
  {
    InitialInv(s);
    RunKeeps(s, ops);
  }

  lemma {:induction false} InitialInv(s: State)
    requires Initial(s)
    ensures Inv(s)
  {
  }

  lemma {:induction false} WithoutCancellation(s: State, ops: seq<Op>)
    requires forall i :: 0 <= i < |ops| ==> !ops[i].Cancel?
    ensures SafeCancels(s, ops)
    decreases |ops|
  {
    hide Step;
    if |ops| > 0 { WithoutCancellation(Step(s, ops[0]), ops[1..]); }
  }
}
