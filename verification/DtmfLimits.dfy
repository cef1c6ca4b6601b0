/**
 What a cancellation breaks in Dtmf when something depends on the request in flight: the condition under
 which tones stay separated is exact.
 */
module DtmfLimits {
  import opened Common
  import opened GenericResponse
  import Store = RequestStore
  import opened Dtmf

  // ----- what a cancellation breaks otherwise

  /** Whatever happens next, starts stay separated as long as cancellations are safe. */
  ghost predicate SafeAfter(s: State) {
    forall ops :: SafeCancels(s, ops) ==> Separated(Run(s, ops).log)
  }

  lemma {:induction false} UnsafeRun(s: State, ops: seq<Op>)
    requires forall i :: 0 <= i < |ops| ==> !ops[i].Cancel?
    requires !Separated(Run(s, ops).log)
    ensures !SafeAfter(s)
  {
    WithoutCancellation(s, ops);
  }

  lemma {:induction false} RunMore(s: State, op: Op, ops: seq<Op>)
    ensures Run(s, [op] + ops) == Run(Step(s, op), ops)
  {
    assert ([op] + ops)[1..] == ops;
  }

  /** Two starts with nothing between them but answers to what was sent before the first. */
  lemma {:induction false} NotSeparated(log: seq<Event>, i: nat, j: nat)
    requires i < j < |log| && StartAt(log, i) && StartAt(log, j)
    requires forall b :: i < b < j ==> !log[b].Reset? && (log[b].Ack? ==> log[b].of <= i)
    ensures !Separated(log)
  {
    assert !StoppedBetween(log, i, j) && !ResetBetween(log, i, j);
  }

  /** A tone that sounds and is not stored: the next start does not stop it. */
  lemma {:induction false} LostTone(s: State, data: Store.Bytes)
    requires Noted(s) && s.inFlight.None? && Sounding(s) && Stored(s) == 0 && Solid(s.store) && |data| > 0
    ensures !Separated(Step(s, DoStart(data)).log)
  {
    var t, i, n, e := HandleStart(s, data), s.lastStart, |s.log|, Sent(StartTone(Tone(data)), s.next);
    Taken(s.store, DTMF_START);
    assert t.log == s.log + [e];
    assert StartAt(t.log, i) && StartAt(t.log, n);
    assert forall k :: 0 <= k < n ==> t.log[k] == s.log[k];
    assert !StoppedBetween(t.log, i, n) && !ResetBetween(t.log, i, n);
  }

  /** A callback waits for the answer to an open stop. */
  ghost predicate Waits(s: State, p: nat, token: nat) {
    OpenFor(s, p, token) && s.log[p].cmd.StopTone? && CalledBack(s.expects, token)
  }

  /** The oldest expectation of the token is a callback. */
  ghost predicate CalledBack(q: seq<Expect>, token: nat) {
    var k := FindAseq(q, token);
    k < |q| && q[k].command == CONT_DTMF && q[k].wish == Callback
  }

  lemma {:induction false} CalledBackMore(q: seq<Expect>, token: nat, more: seq<Expect>)
    requires CalledBack(q, token)
    ensures CalledBack(q + more, token)
  {
    var k := FindAseq(q, token);
    assert (q + more)[k] == q[k];
    assert FindAseq(q + more, token) == k;
  }

  lemma {:induction false} CalledBackNew(q: seq<Expect>, e: Expect)
    requires e.aseq >= 0 && e.command == CONT_DTMF && e.wish == Callback
    requires forall i :: 0 <= i < |q| ==> q[i].aseq != e.aseq
    ensures CalledBack(q + [e], e.aseq)
  {
    assert (q + [e])[|q|] == e;
    assert FindAseq(q + [e], e.aseq) == |q|;
  }

  lemma {:induction false} CalledBackWithout(q: seq<Expect>, token: nat, k: nat)
    requires CalledBack(q, token) && k < |q| && q[k].aseq != token
    ensures CalledBack(Without(q, k), token)
  {
    var m, r := FindAseq(q, token), Without(q, k);
    var n := if m < k then m else m - 1;
    assert r[n] == q[m];
    assert FindAseq(r, token) == n;
  }

  /** Its answer starts the stored tone, and perhaps a burst; other callbacks go on waiting. */
  lemma {:induction false} AnswerStarts(s: State, p: nat, token: nat, q: nat, other: nat)
    requires Waits(s, p, token) && Stored(s) == 1 && Solid(s.store)
    requires q != p ==> Waits(s, q, other) && other != token
    ensures var t, n := Step(s, Answer(p, true)), |s.log|;
            && n + 2 <= |t.log| <= n + 3 && t.log[..n] == s.log && t.log[n] == Ack(p) &&
                StartAt(t.log, n + 1)
            && (|t.log| == n + 3 ==> t.log[n + 2].Sent? && t.log[n + 2].cmd.BurstTone?)
            && Stored(t) == 1 && Solid(t.store) && (q != p ==> Waits(t, q, other))
  {
    var k := FindAseq(s.expects, token);
    var u := Received(s, p).(expects := Without(s.expects, k));
    assert Step(s, Answer(p, true)) == PlayBurst(Restart(u, token), token);
    var v := Restart(u, token);
    hide Solid;
    RestartSends(u, token);
    BurstAfter(v, token);
    if q != p {
      CalledBackWithout(s.expects, other, k);
      hide CalledBack;
      GoesOnWaiting(u, token, other);
    }
  }

  lemma {:induction false} GoesOnWaiting(s: State, token: nat, other: nat)
    requires CalledBack(s.expects, other)
    ensures var t := PlayBurst(Restart(s, token), token); CalledBack(t.expects, other) && s.out <= t.out
  {
    var v := Restart(s, token);
    hide CalledBack;
    CalledBackMore(s.expects, other, [Expect(s.nextExpect, token, CONT_DTMF, CompleteAlways)]);
    CalledBackMore(v.expects, other, [Expect(v.nextExpect, token, BURST_DTMF, CompleteOnFailure)]);
  }

  lemma {:induction false} RestartSends(s: State, token: nat)
    requires Stored(s) == 1 && Solid(s.store)
    ensures var t := Restart(s, token);
            && |t.log| == |s.log| + 1 && t.log[..|s.log|] == s.log && StartAt(t.log, |s.log|) && Stored(t) == 1 &&
                Solid(t.store)
  {
    var (rest, tone) := Store.Get(s.store, DTMF_START);
    hide Solid;
    Taken(s.store, DTMF_START);
    Kept(rest, DTMF_START, tone.value);
  }

  /** After cancelling a request that waits for a callback, with no tone stored: a start, then the callback's. */
  lemma {:induction false} StaleCallback(s: State, p: nat, token: nat)
    requires Wf(s) && s.inFlight.None? && Waits(s, p, token) && Stored(s) == 0
    ensures !Separated(Step(Step(s, DoStart([0])), Answer(p, true)).log)
  {
    hide Step, HandleStart, Waits, Separated, Stored, Solid, Wf;
    var h, n := HandleStart(s, [0]), |s.log|;
    StartedPlain(s, p, token);
    AnswerStarts(h, p, token, p, token);
    var t := Step(h, Answer(p, true));
    assert t.log[n] == t.log[..n + 1][n] && t.log[n + 1] == Ack(p);
    assert p < n;
    NotSeparated(t.log, n, n + 2);
  }

  lemma {:induction false} StartedPlain(s: State, p: nat, token: nat)
    requires Wf(s) && s.inFlight.None? && Waits(s, p, token) && Stored(s) == 0
    ensures var h := HandleStart(s, [0]);
            && h == Step(s, DoStart([0])) && h.log == s.log + [Sent(StartTone(0), s.next)]
            && Stored(h) == 1 && Solid(h.store) && Waits(h, p, token) && p < |s.log|
  {
    var (rest, prior) := Store.Get(s.store, DTMF_START);
    hide Solid;
    Taken(s.store, DTMF_START);
    Kept(rest, DTMF_START, [0]);
    CalledBackMore(s.expects, token, [Expect(s.nextExpect, s.next, CONT_DTMF, CompleteAlways)]);
    hide CalledBack;
  }

  /** And with one stored: another stop, then both callbacks start a tone. */
  lemma {:induction false} TwoCallbacks(s: State, p: nat, token: nat)
    requires Wf(s) && s.inFlight.None? && Waits(s, p, token) && Stored(s) == 1
    ensures !Separated(Step(Step(Step(s, DoStart([0])), Answer(p, true)), Answer(|s.log|, true)).log)
  {
    hide Step, HandleStart, Waits, Separated, Stored, Solid, Wf;
    var h, n := HandleStart(s, [0]), |s.log|;
    StoppedFirst(s, p, token);
    AnswerStarts(h, p, token, n, s.next);
    var t := Step(h, Answer(p, true));
    AnswerStarts(t, n, s.next, n, s.next);
    var u, m := Step(t, Answer(n, true)), |t.log|;
    assert forall b :: 0 <= b < n + 1 ==> t.log[b] == t.log[..n + 1][b];
    assert forall b :: 0 <= b < m ==> u.log[b] == u.log[..m][b];
    assert StartAt(u.log, n + 2) && u.log[m] == Ack(n) && StartAt(u.log, m + 1);
    NotSeparated(u.log, n + 2, m + 1);
  }

  lemma {:induction false} StoppedFirst(s: State, p: nat, token: nat)
    requires Wf(s) && s.inFlight.None? && Waits(s, p, token) && Stored(s) == 1
    ensures var h := HandleStart(s, [0]);
            && h == Step(s, DoStart([0])) && h.log == s.log + [Sent(StopTone, s.next)] && Stored(h) == 1 &&
                Solid(h.store)
            && Waits(h, p, token) && Waits(h, |s.log|, s.next) && p < |s.log| && s.next != token
  {
    var (rest, prior) := Store.Get(s.store, DTMF_START);
    var e := Expect(s.nextExpect, s.next, CONT_DTMF, Callback);
    Taken(s.store, DTMF_START);
    Kept(rest, DTMF_START, [0]);
    CalledBackMore(s.expects, token, [e]);
    CalledBackNew(s.expects, e);
    hide Solid, CalledBack;
  }

  /**
   Cancelling the request in flight is safe if and only if nothing depends on it: no callback is waited
   for, and a sounding tone is stored.
   */
  lemma {:induction false} CancelSafeIff(s: State)
    requires Inv(s)
    ensures SafeAfter(Step(s, Cancel)) <==> SafeCancel(s)
  {
    var t := Step(s, Cancel);
    if SafeCancel(s) {
      CancelKeeps(s);
      forall ops | SafeCancels(t, ops) ensures Separated(Run(t, ops).log) {
        RunKeeps(t, ops);
        assert Inv(Run(t, ops));
      }
    } else {
      CancelUnsafe(s);
    }
    hide SafeAfter, Inv, SafeCancel;
  }

  lemma {:induction false} CancelUnsafe(s: State)
    requires Inv(s) && !SafeCancel(s)
    ensures !SafeAfter(s.(inFlight := None))
  {
    var t, a := s.(inFlight := None), DoStart([0]);
    assert forall p: nat :: p in s.out ==> Open(s, p) && Open(t, p);
    assert Wf(t) && Noted(t);
    if Sounding(s) && Stored(s) == 0 {
      LostTone(t, [0]);
      hide Step, Separated;
      RunMore(t, a, []);
      UnsafeRun(t, [a]);
    } else {
      assert !Calm(s);
      var token := s.inFlight.value;
      var p: nat :| StopOpen(s, p, token);
      var k: nat :| OnlyExpect(s.expects, k, token);
      assert FindAseq(s.expects, token) == k;
      assert Waits(t, p, token);
      var b, c := Answer(p, true), Answer(|s.log|, true);
      if Stored(s) == 0 {
        StaleCallback(t, p, token);
        hide Step, Separated;
        RunMore(t, a, [b]);
        RunMore(Step(t, a), b, []);
        UnsafeRun(t, [a] + ([b] + []));
      } else {
        TwoCallbacks(t, p, token);
        hide Step, Separated;
        RunMore(t, a, [b] + ([c] + []));
        RunMore(Step(t, a), b, [c] + []);
        RunMore(Step(Step(t, a), b), c, []);
        UnsafeRun(t, [a] + ([b] + ([c] + [])));
      }
    }
  }

  /** The shortest such run: a tone is started, its stop is sent and cancelled, another tone is started. */
  lemma {:induction false} CancelExample(s: State)
    requires Initial(s)
    ensures var t := Step(Step(Step(s, DoStart([0])), Answer(0, true)), DoStop);
            Inv(t) && !SafeCancel(t) && !Separated(Step(Step(t, Cancel), DoStart([1])).log)
  {
    InitialInv(s);
    var a := Step(s, DoStart([0]));
    assert |s.store| == 0 ==> Store.FindKind(s.store, DTMF_START) == 0;
    assert a.out == {0} && a.log == [Sent(StartTone(0), s.next)] && a.lastStart == 0 && a.released.None?;
    assert a.expects == [Expect(s.nextExpect, s.next, CONT_DTMF, CompleteAlways)] && a.inFlight == Some(s.next);
    StepKeeps(s, DoStart([0]));
    hide Inv, SafeCancel, Step;
    AfterStart(s, a);
  }

  lemma {:induction false} AfterStart(s: State, a: State)
    requires a.out == {0} && a.log == [Sent(StartTone(0), s.next)] && a.lastStart == 0 && a.released.None?
    requires a.expects == [Expect(s.nextExpect, s.next, CONT_DTMF, CompleteAlways)] && a.inFlight == Some(s.next) &&
        Inv(a)
    ensures var t := Step(Step(a, Answer(0, true)), DoStop);
            Inv(t) && !SafeCancel(t) && !Separated(Step(Step(t, Cancel), DoStart([1])).log)
  {
    var b := Step(a, Answer(0, true));
    StepKeeps(a, Answer(0, true));
    assert Wf(b);
    hide Inv, Stopping, Noted, Separated, Calm, Wf;
    assert FindAseq(a.expects, s.next) == 0;
    assert b.inFlight.None? && b.lastStart == 0 && b.released.None?;
    AfterStop(b);
  }

  /** A stop is sent for a tone that sounds, and cancelled. */
  lemma {:induction false} AfterStop(b: State)
    requires Inv(b) && Wf(b) && b.inFlight.None? && Sounding(b)
    ensures var t := Step(b, DoStop);
            Inv(t) && !SafeCancel(t) && !Separated(Step(Step(t, Cancel), DoStart([1])).log)
  {
    hide Inv, Stopping, Noted, Separated, Calm;
    StopKeeps(b);
    Taken(b.store, DTMF_START);
    var t := HandleStop(b);
    assert Sounding(t) && Stored(t) == 0 && Solid(t.store) && t == Step(b, DoStop);
    hide HandleStop, Solid;
    CancelledNoted(t);
    LostTone(t.(inFlight := None), [1]);
  }

  lemma {:induction false} CancelledNoted(s: State)
    requires Inv(s)
    ensures Noted(s.(inFlight := None))
  {
  }
}
