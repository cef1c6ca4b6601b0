/**
 What the DTMF requests put on the wire and keep in the store, and that no burst is lost: over whole runs the
 bursts asked for are those played and those still stored.
 */
module DtmfTones {
  import opened Common
  import opened GenericResponse
  import Store = RequestStore
  import opened Dtmf

  ghost function Starts(store: seq<Store.Entry>): seq<Store.Bytes> {
    Store.Fifo(store, DTMF_START)
  }

  ghost function Bursts(store: seq<Store.Entry>): seq<Store.Bytes> {
    Store.Fifo(store, DTMF)
  }

  // ----- the handlers

  /** The request is begun with one command and one expectation under its token. */
  ghost predicate Begins(s: State, t: State, cmd: Cmd, wish: Wish) {
    && t.inFlight == Some(s.next) && t.next == s.next + 1
    && t.log == s.log + [Sent(cmd, s.next)] && t.out == s.out + {|s.log|}
    && t.expects == s.expects + [Expect(s.nextExpect, s.next, CommandOf(cmd), wish)]
  }

  /** A tone is started at once if none is stored; otherwise that one is stopped first. The new one is stored. */
  ghost predicate StartTaken(s: State, t: State, data: Store.Bytes) {
    var q := Starts(s.store);
    && (if |q| > 0 then Begins(s, t, StopTone, Callback) else Begins(s, t, StartTone(Tone(data)), CompleteAlways))
    && Starts(t.store) == (if |q| > 0 then q[1..] else []) + [data] && Bursts(t.store) == Bursts(s.store)
    && Solid(t.store)
  }

  lemma {:induction false} StartOutcome(s: State, data: Store.Bytes)
    requires Solid(s.store) && |data| > 0 && s.inFlight.None?
    ensures StartTaken(s, Step(s, DoStart(data)), data)
  {
    var (rest, prior) := Store.Get(s.store, DTMF_START);
    Fetched(s.store, DTMF_START);
    Store.SetAppends(rest, DTMF_START, data, DTMF_START);
    Store.SetAppends(rest, DTMF_START, data, DTMF);
    Kept(rest, DTMF_START, data);
    hide Store.Get, Store.Set, Solid;
  }

  /** A burst is played at once if no tone is stored; otherwise it is stored, and the tone is stopped and forgotten. */
  ghost predicate BurstTaken(s: State, t: State, data: Store.Bytes) {
    var q := Starts(s.store);
    && (if |q| > 0 then Begins(s, t, StopTone, Callback) else Begins(s, t, BurstTone(Tone(data)), CompleteOnFailure))
    && Starts(t.store) == (if |q| > 0 then q[1..] else [])
    && Bursts(t.store) == Bursts(s.store) + (if |q| > 0 then [data] else []) && Solid(t.store)
  }

  lemma {:induction false} BurstOutcome(s: State, data: Store.Bytes)
    requires Solid(s.store) && |data| > 0 && s.inFlight.None?
    ensures BurstTaken(s, Step(s, DoBurst(data)), data)
  {
    var (rest, prior) := Store.Get(s.store, DTMF_START);
    Fetched(s.store, DTMF_START);
    Store.SetAppends(rest, DTMF, data, DTMF_START);
    Store.SetAppends(rest, DTMF, data, DTMF);
    Kept(rest, DTMF, data);
    hide Store.Get, Store.Set, Solid;
  }

  /** A stop is sent, and the tone is forgotten. */
  ghost predicate StopTaken(s: State, t: State) {
    var q := Starts(s.store);
    && Begins(s, t, StopTone, CompleteAlways)
    && Starts(t.store) == (if |q| > 0 then q[1..] else []) && Bursts(t.store) == Bursts(s.store)
    && Solid(t.store)
  }

  lemma {:induction false} StopOutcome(s: State)
    requires Solid(s.store) && s.inFlight.None?
    ensures StopTaken(s, Step(s, DoStop))
  {
    Fetched(s.store, DTMF_START);
    hide Store.Get, Solid;
  }

  /** What the handlers take out of the store. */
  lemma {:induction false} Fetched(store: seq<Store.Entry>, kind: int)
    requires Solid(store) && kind in {DTMF, DTMF_START}
    ensures var (rest, data) := Store.Get(store, kind);
            var q := Store.Fifo(store, kind);
            && Solid(rest) && (data.Some? <==> |q| > 0)
            && (data.Some? ==> data.value == q[0] && |q[0]| > 0 && Store.Fifo(rest, kind) == q[1..])
            && (data.None? ==> rest == store)
            && (kind == DTMF ==> Starts(rest) == Starts(store))
            && (kind == DTMF_START ==> Bursts(rest) == Bursts(store))
  {
    Store.GetPops(store, kind, DTMF);
    Store.GetPops(store, kind, DTMF_START);
  }

  // ----- the callback

  /**
   The stored tone is started and stays stored, then the oldest stored burst is played and goes; each is awaited
   under the number of the request, and each is sent exactly if it is stored.
   */
  ghost predicate PlaysStored(s: State, t: State, token: nat) {
    var tones, bursts := Starts(s.store), Bursts(s.store);
    && t.inFlight == s.inFlight && Solid(t.store)
    && t.log == s.log + (if |tones| > 0 then [Sent(StartTone(Tone(tones[0])), token)] else [])
                + (if |bursts| > 0 then [Sent(BurstTone(Tone(bursts[0])), token)] else [])
    && Starts(t.store) == (if |tones| > 0 then tones[1..] + [tones[0]] else [])
    && Bursts(t.store) == (if |bursts| > 0 then bursts[1..] else [])
    && Awaited(s, t, token, |tones| > 0, |bursts| > 0)
  }

  /** The expectations of the commands sent. */
  ghost predicate Awaited(s: State, t: State, token: nat, start: bool, burst: bool) {
    var n := if start then s.nextExpect + 1 else s.nextExpect;
    t.expects == s.expects + (if start then [Expect(s.nextExpect, token, CONT_DTMF, CompleteAlways)] else [])
                 + (if burst then [Expect(n, token, BURST_DTMF, CompleteOnFailure)] else [])
  }

  /** The first half: the stored tone is started and stays stored. */
  lemma {:induction false} RestartOutcome(s: State, token: nat)
    requires Solid(s.store)
    ensures var t, q := Restart(s, token), Starts(s.store);
            && t.inFlight == s.inFlight && Solid(t.store) && Bursts(t.store) == Bursts(s.store)
            && t.log == s.log + (if |q| > 0 then [Sent(StartTone(Tone(q[0])), token)] else [])
            && Starts(t.store) == (if |q| > 0 then q[1..] + [q[0]] else [])
            && t.nextExpect == (if |q| > 0 then s.nextExpect + 1 else s.nextExpect)
            && t.expects == s.expects + if |q| > 0 then [Expect(s.nextExpect, token, CONT_DTMF, CompleteAlways)] else []
  {
    var (rest, tone) := Store.Get(s.store, DTMF_START);
    hide Solid;
    Fetched(s.store, DTMF_START);
    if tone.Some? {
      Store.SetAppends(rest, DTMF_START, tone.value, DTMF_START);
      Store.SetAppends(rest, DTMF_START, tone.value, DTMF);
      Kept(rest, DTMF_START, tone.value);
    }
    hide Store.Get, Store.Set;
  }

  lemma {:induction false} PlayOutcome(s: State, token: nat)
    requires Solid(s.store)
    ensures var t, q := PlayBurst(s, token), Bursts(s.store);
            && t.inFlight == s.inFlight && Solid(t.store) && Starts(t.store) == Starts(s.store)
            && t.log == s.log + (if |q| > 0 then [Sent(BurstTone(Tone(q[0])), token)] else [])
            && Bursts(t.store) == (if |q| > 0 then q[1..] else [])
            && t.expects == s.expects
                            + if |q| > 0 then [Expect(s.nextExpect, token, BURST_DTMF, CompleteOnFailure)] else []
  {
    hide Solid;
    Fetched(s.store, DTMF);
    hide Store.Get;
  }

  lemma {:induction false} CallbackOutcome(s: State, token: nat)
    requires Solid(s.store)
    ensures PlaysStored(s, PlayBurst(Restart(s, token), token), token)
  {
    hide Solid, Restart, PlayBurst, Starts, Bursts;
    RestartOutcome(s, token);
    PlayOutcome(Restart(s, token), token);
  }

  /** The answer to the command at p is noted; a burst stays open until it is over. */
  ghost predicate Noticed(s: State, t: State, p: nat, burst: bool) {
    && t.log == s.log + [Ack(p)] && t.out == (if burst then s.out else s.out - {p})
    && t.store == s.store && t.next == s.next && t.inFlight == s.inFlight && t.nextExpect == s.nextExpect
  }

  /** The same, with nothing sent, and the request of the token in flight no more if it is over. */
  ghost predicate Ends(t: State, u: State, token: nat, over: bool) {
    t == u.(inFlight := if over && u.inFlight == Some(token) then None else u.inFlight)
  }

  /**
   What an answer leads to, by the oldest expectation of its number. A callback plays what is stored after a good
   answer and fails its request after a bad one; other expectations end their request always or after a bad
   answer; the response to another command than was expected ends in UNAVAILABLE; without one nothing follows.
   */
  ghost predicate Follows(s: State, t: State, p: nat, ok: bool)
    requires Open(s, p)
  {
    && Noticed(s, Received(s, p), p, s.log[p].cmd.BurstTone?) && Received(s, p).expects == s.expects
    && Responds(Received(s, p), t, s.log[p].token, CommandOf(s.log[p].cmd), ok)
  }

  ghost predicate Responds(u: State, t: State, token: nat, command: int, ok: bool) {
    var k := FindAseq(u.expects, token);
    if k == |u.expects| then t == u
    else if u.expects[k].command != command
    then t.log == u.log + [Reset] && t.inFlight.None? && |t.store| == |t.expects| == 0 && t.out == {}
    else
      var v := u.(expects := Without(u.expects, k));
      match u.expects[k].wish
      case Callback => if ok then PlaysStored(v, t, token) else Ends(t, v, token, true)
      case CompleteAlways => Ends(t, v, token, true)
      case CompleteOnFailure => Ends(t, v, token, !ok)
  }

  lemma {:induction false} GenericOutcome(u: State, token: nat, command: int, ok: bool)
    requires Solid(u.store)
    ensures Responds(u, Generic(u, token, command, ok), token, command, ok)
  {
    hide PlaysStored, PlayBurst, Restart, Solid, Without;
    var k := FindAseq(u.expects, token);
    if k < |u.expects| { CallbackOutcome(u.(expects := Without(u.expects, k)), token); }
  }

  lemma {:induction false} AnswerOutcome(s: State, p: nat, ok: bool)
    requires Solid(s.store) && Open(s, p)
    ensures Follows(s, Step(s, Answer(p, ok)), p, ok)
  {
    GenericOutcome(Received(s, p), s.log[p].token, CommandOf(s.log[p].cmd), ok);
    hide Responds, Generic;
  }

  /** When the modem says that a burst is over, its request is in flight no more. */
  lemma BurstOver(s: State, p: nat)
    requires Open(s, p) && s.log[p].cmd.BurstTone?
    ensures Ends(Step(s, BurstDone(p)), s.(out := s.out - {p}), s.log[p].token, true)
  {
  }

  // ----- no burst is lost

  ghost function AllTones(q: seq<Store.Bytes>): multiset<int> {
    if |q| == 0 then multiset{} else AllTones(q[..|q| - 1]) + multiset{Tone(q[|q| - 1])}
  }

  lemma {:induction false} FirstTone(q: seq<Store.Bytes>)
    requires |q| > 0
    ensures AllTones(q) == multiset{Tone(q[0])} + AllTones(q[1..])
  {
    if |q| > 1 {
      FirstTone(q[..|q| - 1]);
      assert q[1..][..|q| - 2] == q[..|q| - 1][1..];
    }
  }

  /** The bursts played since the latest restart of the modem. */
  ghost function Played(log: seq<Event>): multiset<int> {
    if |log| == 0 then multiset{}
    else
      var e := log[|log| - 1];
      if e.Reset? then multiset{}
      else if e.Sent? && e.cmd.BurstTone? then Played(log[..|log| - 1]) + multiset{e.cmd.tone}
      else Played(log[..|log| - 1])
  }

  lemma {:induction false} PlayedMore(log: seq<Event>, e: Event)
    ensures Played(log + [e]) == if e.Reset? then multiset{}
                                 else Played(log) + if e.Sent? &&
                                     e.cmd.BurstTone? then multiset{e.cmd.tone} else multiset{}
  {
    assert (log + [e])[..|log|] == log;
  }

  /** Played or still stored. */
  ghost function Known(s: State): multiset<int> {
    Played(s.log) + AllTones(Bursts(s.store))
  }

  /** The step ends in UNAVAILABLE. */
  ghost predicate Restarts(s: State, op: Op) {
    EndsInReset(Step(s, op).log) && |Step(s, op).log| > |s.log|
  }

  /** The bursts that the run takes up after the latest restart, on top of those before. */
  ghost function Asked(s: State, ops: seq<Op>, before: multiset<int>): multiset<int>
    decreases |ops|
  {
    if |ops| == 0 then before
    else
      var op := ops[0];
      var now := if Restarts(s, op) then multiset{} else before + TakenUp(s, op);
      Asked(Step(s, op), ops[1..], now)
  }

  lemma {:induction false} CallbackKnown(s: State, t: State, token: nat)
    requires PlaysStored(s, t, token)
    ensures Known(t) == Known(s)
  {
    var tones, bursts := Starts(s.store), Bursts(s.store);
    hide Solid, Awaited;
    var l := s.log + if |tones| > 0 then [Sent(StartTone(Tone(tones[0])), token)] else [];
    if |tones| > 0 { PlayedMore(s.log, Sent(StartTone(Tone(tones[0])), token)); }
    assert Played(l) == Played(s.log) by { if |tones| == 0 { assert l == s.log; } }
    if |bursts| > 0 {
      PlayedMore(l, Sent(BurstTone(Tone(bursts[0])), token));
      FirstTone(bursts);
      assert t.log == l + [Sent(BurstTone(Tone(bursts[0])), token)];
    } else {
      assert t.log == l;
    }
    hide Played, AllTones;
  }

  ghost predicate EndsInReset(log: seq<Event>) {
    |log| > 0 && log[|log| - 1].Reset?
  }

  lemma {:induction false} UnavailableKnown(s: State)
    ensures var t := StepUnavailable(s); Known(t) == multiset{} && EndsInReset(t.log) && Solid(t.store)
  {
    PlayedMore(s.log, Reset);
    assert |Bursts([])| == 0;
  }

  lemma {:induction false} CallbackEnds(s: State, t: State, token: nat)
    requires PlaysStored(s, t, token) && !EndsInReset(s.log)
    ensures !EndsInReset(t.log)
  {
    hide Solid, Awaited, Bursts, Starts;
  }

  lemma {:induction false} GenericKnown(s: State, token: nat, command: int, ok: bool)
    requires Solid(s.store) && !EndsInReset(s.log)
    ensures var t := Generic(s, token, command, ok);
            Solid(t.store) && if EndsInReset(t.log) then Known(t) == multiset{} else Known(t) == Known(s)
  {
    hide PlayBurst, Restart, Solid, Played, AllTones, Bursts, StepUnavailable, FindAseq, Without, EndsInReset;
    var k := FindAseq(s.expects, token);
    UnavailableKnown(s);
    if k < |s.expects| {
      var u := s.(expects := Without(s.expects, k));
      CallbackOutcome(u, token);
      var t := PlayBurst(Restart(u, token), token);
      CallbackKnown(u, t, token);
      CallbackEnds(u, t, token);
      assert Solid(t.store);
      hide PlaysStored;
    }
  }

  lemma {:induction false} AnswerKnown(s: State, p: nat, ok: bool)
    requires Solid(s.store) && Open(s, p)
    ensures var t := StepAnswer(s, p, ok);
            && Solid(t.store) && |t.log| > |s.log|
            && if EndsInReset(t.log) then Known(t) == multiset{} else Known(t) == Known(s)
  {
    var t := Received(s, p);
    PlayedMore(s.log, Ack(p));
    assert t.log == s.log + [Ack(p)];
    hide Played, AllTones;
    GenericKnown(t, s.log[p].token, CommandOf(s.log[p].cmd), ok);
    AnswerLonger(s, p, ok);
  }

  lemma {:induction false} AnswerLonger(s: State, p: nat, ok: bool)
    requires Open(s, p)
    ensures |StepAnswer(s, p, ok).log| > |s.log|
  {
    hide Store.Get, Store.Set;
  }

  /** A command goes out, and bursts may be stored. */
  lemma {:induction false} SentKnown(s: State, t: State, cmd: Cmd, token: nat, stored: seq<Store.Bytes>)
    requires t.log == s.log + [Sent(cmd, token)] && Bursts(t.store) == Bursts(s.store) + stored && |stored| <= 1
    ensures !EndsInReset(t.log)
    ensures Known(t) == Known(s) + (if cmd.BurstTone? then multiset{cmd.tone} else multiset{})
                        + if |stored| > 0 then multiset{Tone(stored[0])} else multiset{}
  {
    PlayedMore(s.log, Sent(cmd, token));
    var q := Bursts(s.store) + stored;
    if |stored| > 0 {
      assert q[..|q| - 1] == Bursts(s.store) && q[|q| - 1] == stored[0];
    } else {
      assert q == Bursts(s.store);
    }
    hide Played;
  }

  /** What one step does to the bursts that are known: `added` is taken up, unless the modem restarts. */
  ghost predicate Keeps(s: State, t: State, added: multiset<int>) {
    Solid(t.store) && if EndsInReset(t.log) &&
        |t.log| > |s.log| then Known(t) == multiset{} else Known(t) == Known(s) + added
  }

  ghost function TakenUp(s: State, op: Op): multiset<int> {
    if op.DoBurst? && |op.data| > 0 && s.inFlight.None? then multiset{op.data[0]} else multiset{}
  }

  lemma {:induction false} StartKnown(s: State, data: Store.Bytes)
    requires Solid(s.store) && |data| > 0 && s.inFlight.None?
    ensures Keeps(s, Step(s, DoStart(data)), multiset{})
  {
    var t := Step(s, DoStart(data));
    StartOutcome(s, data);
    hide Step, Solid, Bursts, Starts, Played, AllTones;
    SentKnown(s, t, t.log[|s.log|].cmd, s.next, []);
  }

  lemma {:induction false} BurstKnown(s: State, data: Store.Bytes)
    requires Solid(s.store) && |data| > 0 && s.inFlight.None?
    ensures Keeps(s, Step(s, DoBurst(data)), multiset{data[0]})
  {
    var t := Step(s, DoBurst(data));
    BurstOutcome(s, data);
    hide Step, Solid, Bursts, Starts, Played, AllTones;
    SentKnown(s, t, t.log[|s.log|].cmd, s.next, if |Starts(s.store)| > 0 then [data] else []);
  }

  lemma {:induction false} StopKnown(s: State)
    requires Solid(s.store) && s.inFlight.None?
    ensures Keeps(s, Step(s, DoStop), multiset{})
  {
    var t := Step(s, DoStop);
    StopOutcome(s);
    hide Step, Solid, Bursts, Starts, Played, AllTones;
    SentKnown(s, t, StopTone, s.next, []);
  }

  lemma {:induction false} StepKnown(s: State, op: Op)
    requires Solid(s.store)
    ensures Keeps(s, Step(s, op), TakenUp(s, op))
  {
    hide HandleStart, HandleBurst, HandleStop, StepAnswer, Played, AllTones, Solid, Bursts;
    match op
    case DoStart(data) => if |data| > 0 && s.inFlight.None? { StartKnown(s, data); }
    case DoBurst(data) => if |data| > 0 && s.inFlight.None? { BurstKnown(s, data); }
    case DoStop => if s.inFlight.None? { StopKnown(s); }
    case Answer(p, ok) => if Open(s, p) { AnswerKnown(s, p, ok); }
    case BurstDone(p) =>
    case Unavailable => UnavailableKnown(s);
    case Cancel =>
  }

  /**
   No burst is lost, changed or played twice: after every run, whatever is answered and cancelled, the bursts
   played and those still stored are together exactly those taken up, counted since the latest restart.
   */
  lemma {:induction false} BurstsConserved(s: State, ops: seq<Op>)
    requires Solid(s.store)
    ensures Solid(Run(s, ops).store) && Known(Run(s, ops)) == Asked(s, ops, Known(s))
    decreases |ops|
  {
    if |ops| > 0 {
      StepKnown(s, ops[0]);
      hide Step, Known, Solid;
      BurstsConserved(Step(s, ops[0]), ops[1..]);
    }
  }
}
