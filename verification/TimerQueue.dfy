/**
 The timers of the event loop as values: a queue sorted by deadline, the sweep that moves the
 expired ones to the pending queue, and every run of adds, sweeps, callbacks and clock ticks.
 */
module TimerQueue {

  /** An armed timer: which event it is, and the microsecond it is due. */
  datatype Timer<E> = Timer(ev: E, due: int)

  ghost predicate Sorted<E>(q: seq<Timer<E>>) {
    forall i, j :: 0 <= i < j < |q| ==> q[i].due <= q[j].due
  }

  /** Where a timer due at `due` goes: in front of every timer that is not due earlier. */
  function InsertPos<E>(q: seq<Timer<E>>, due: int): (k: nat)
    ensures k <= |q|
    ensures forall i :: 0 <= i < k ==> q[i].due < due
    ensures k < |q| ==> q[k].due >= due
  {
    if q == [] || q[0].due >= due then 0 else
      var k := InsertPos(q[1..], due);
      assert forall i :: 1 <= i < 1 + k ==> q[i] == q[1..][i - 1];
      1 + k
  }

  function Insert<E>(q: seq<Timer<E>>, t: Timer<E>): (r: seq<Timer<E>>)
    ensures Sorted(q) ==> Sorted(r)
  {
    var k := InsertPos(q, t.due);
    q[..k] + [t] + q[k..]
  }

  /** How many timers at the front are due strictly before `now`. */
  function ExpiredCount<E>(q: seq<Timer<E>>, now: int): (k: nat)
    ensures k <= |q|
    ensures forall i :: 0 <= i < k ==> q[i].due < now
    ensures k < |q| ==> q[k].due >= now
  {
    InsertPos(q, now)
  }

  /** In a sorted queue the expired prefix is exactly the set of expired timers. */
  lemma {:induction false} ExpiredExact<E>(q: seq<Timer<E>>, now: int)
    requires Sorted(q)
    ensures forall i :: 0 <= i < |q| ==> (i < ExpiredCount(q, now) <==> q[i].due < now)
  {
    var k := ExpiredCount(q, now);
    forall i | k <= i < |q| ensures q[i].due >= now {
      assert q[k].due <= q[i].due;
    }
  }

  // ----- runs

  /** A call of ril_timer_add: when it was made and with which delay. */
  datatype Armed = Armed(at: int, delay: int)

  /**
   A run so far. A timer is named by the position of its ril_timer_add call in `armed`, so adding
   the same event again is a new name. `swept` is the clock reading of the latest sweep, `firedAt[i]`
   the one at which the callback of `fired[i]` ran.
   */
  datatype State = State(clock: int, swept: int, armed: seq<Armed>,
                         timers: seq<Timer<nat>>, pending: seq<Timer<nat>>,
                         fired: seq<Timer<nat>>, firedAt: seq<int>)

  datatype Op =
    | Tick(d: nat)      // the monotone clock advances
    | Arm(delay: int)   // ril_timer_add, from any thread or from inside a callback
    | Sweep             // processTimeouts
    | Fire              // one iteration of firePending

  /** A freshly initialised event loop, at any clock reading. */
  ghost predicate Initial(s: State) {
    |s.armed| == |s.timers| == |s.pending| == |s.fired| == |s.firedAt| == 0 && s.swept == s.clock
  }

  function Step(s: State, op: Op): State {
    match op
    case Tick(d) => s.(clock := s.clock + d)
    case Arm(delay) =>
      s.(armed := s.armed + [Armed(s.clock, delay)],
         timers := Insert(s.timers, Timer(|s.armed|, s.clock + delay)))
    case Sweep =>
      var k := ExpiredCount(s.timers, s.clock);
      s.(swept := s.clock, pending := s.pending + s.timers[..k], timers := s.timers[k..])
    case Fire =>
      if s.pending == [] then s
      else s.(pending := s.pending[1..], fired := s.fired + [s.pending[0]], firedAt := s.firedAt + [s.clock])
  }

  function Run(s: State, ops: seq<Op>): State
    decreases |ops|
  {
    if ops == [] then s else Run(Step(s, ops[0]), ops[1..])
  }

  /** Every timer ever armed, in the order fired, about to fire, still waiting. */
  ghost function Line(s: State): seq<Timer<nat>> {
    s.fired + s.pending + s.timers
  }

  /** Each armed timer stands exactly once in `q`, with the deadline it was armed with. */
  ghost predicate Accounts(q: seq<Timer<nat>>, armed: seq<Armed>) {
    && |q| == |armed|
    && (forall i :: 0 <= i < |q| ==> q[i].ev < |armed| && q[i].due == armed[q[i].ev].at + armed[q[i].ev].delay)
    && (forall i, j :: 0 <= i < j < |q| ==> q[i].ev != q[j].ev)
  }

  ghost predicate Inv(s: State) {
    && Sorted(s.timers)
    && Accounts(Line(s), s.armed)
    && s.swept <= s.clock
    && (forall i :: 0 <= i < |s.pending| ==> s.pending[i].due < s.swept)
    && |s.firedAt| == |s.fired|
    && (forall i :: 0 <= i < |s.fired| ==> s.fired[i].due < s.firedAt[i] <= s.clock)
  }

  /** Sweeping and firing move timers along the line without changing it. */
  lemma {:induction false} SweepKeepsLine(s: State)
    ensures Line(Step(s, Sweep)) == Line(s)
  {
    var k := ExpiredCount(s.timers, s.clock);
    assert s.timers == s.timers[..k] + s.timers[k..];
  }

  lemma {:induction false} FireKeepsLine(s: State)
    ensures Line(Step(s, Fire)) == Line(s)
  {
    if s.pending != [] {
      assert s.pending == [s.pending[0]] + s.pending[1..];
    }
  }

  /** Where in the line a newly armed timer goes. */
  ghost function ArmPos(s: State, delay: int): (k: nat)
    ensures k <= |Line(s)|
  {
    |s.fired| + |s.pending| + InsertPos(s.timers, s.clock + delay)
  }

  lemma {:induction false} ArmLine(s: State, delay: int)
    ensures var k := ArmPos(s, delay);
            Line(Step(s, Arm(delay))) == Line(s)[..k] + [Timer(|s.armed|, s.clock + delay)] + Line(s)[k..]
  {
    hide InsertPos;
    SpliceTail(s.fired + s.pending, s.timers, InsertPos(s.timers, s.clock + delay), Timer(|s.armed|, s.clock + delay));
  }

  lemma {:induction false} SpliceTail<T>(front: seq<T>, back: seq<T>, p: nat, x: T)
    requires p <= |back|
    ensures var k := |front| + p;
            (front + back)[..k] + [x] + (front + back)[k..] == front + (back[..p] + [x] + back[p..])
  {
    var k := |front| + p;
    assert (front + back)[..k] == front + back[..p];
    assert (front + back)[k..] == back[p..];
  }

  lemma {:induction false} AccountsInsert(q: seq<Timer<nat>>, armed: seq<Armed>, k: nat, a: Armed)
    requires Accounts(q, armed) && k <= |q|
    ensures Accounts(q[..k] + [Timer(|armed|, a.at + a.delay)] + q[k..], armed + [a])
  {
    var r := q[..k] + [Timer(|armed|, a.at + a.delay)] + q[k..];
    assert forall i :: 0 <= i < |r| ==>
        r[i] == if i < k then q[i] else if i == k then Timer(|armed|, a.at + a.delay) else q[i - 1];
  }

  lemma {:induction false} ArmKeepsInv(s: State, delay: int)
    requires Inv(s)
    ensures Inv(Step(s, Arm(delay)))
  {
    hide Sorted, Line, Accounts;
    ArmLine(s, delay);
    AccountsInsert(Line(s), s.armed, ArmPos(s, delay), Armed(s.clock, delay));
  }

  lemma {:induction false} SweepKeepsInv(s: State)
    requires Inv(s)
    ensures Inv(Step(s, Sweep))
  {
    SweepKeepsLine(s);
  }

  lemma {:induction false} FireKeepsInv(s: State)
    requires Inv(s)
    ensures Inv(Step(s, Fire))
  {
    FireKeepsLine(s);
  }

  lemma {:induction false} StepKeepsInv(s: State, op: Op)
    requires Inv(s)
    ensures Inv(Step(s, op))
  {
    match op
    case Tick(d) => assert Line(Step(s, Tick(d))) == Line(s);
    case Arm(delay) => ArmKeepsInv(s, delay);
    case Sweep => SweepKeepsInv(s);
    case Fire => FireKeepsInv(s);
  }

  lemma {:induction false} InitialInv(s: State)
    requires Initial(s)
    ensures Inv(s) && Ordered(s)
  {
    assert |Line(s)| == 0;
  }

  lemma {:induction false} RunKeepsInv(s: State, ops: seq<Op>)
    requires Inv(s)
    ensures Inv(Run(s, ops))
    decreases |ops|
  {
    if ops != [] {
      StepKeepsInv(s, ops[0]);
      RunKeepsInv(Step(s, ops[0]), ops[1..]);
    }
  }

  /** What the run asks for: the clock reading at each call, and the delay it was made with. */
  ghost function Asked(clock: int, ops: seq<Op>): seq<Armed>
    decreases |ops|
  {
    if ops == [] then []
    else match ops[0]
      case Tick(d) => Asked(clock + d, ops[1..])
      case Arm(delay) => [Armed(clock, delay)] + Asked(clock, ops[1..])
      case _ => Asked(clock, ops[1..])
  }

  lemma {:induction false} ArmedAsAsked(s: State, ops: seq<Op>)
    ensures Run(s, ops).armed == s.armed + Asked(s.clock, ops)
    decreases |ops|
  {
    if ops != [] {
      ArmedAsAsked(Step(s, ops[0]), ops[1..]);
    }
  }

  /**
   In every run: a timer fires at most once, and only strictly after the time it was armed plus its
   delay; every armed timer that has not fired is still in exactly one of the two queues.
   */
  lemma {:induction false} FiresOnceAndLate(s0: State, ops: seq<Op>)
    requires Initial(s0)
    ensures var s := Run(s0, ops);
            && |s.firedAt| == |s.fired|
            && (forall i :: 0 <= i < |s.fired| ==>
                  && s.fired[i].ev < |s.armed|
                  && var a := s.armed[s.fired[i].ev]; s.firedAt[i] > a.at + a.delay)
            && (forall i, j :: 0 <= i < j < |s.fired| ==> s.fired[i].ev != s.fired[j].ev)
            && |s.fired| + |s.pending| + |s.timers| == |s.armed|
            && s.armed == Asked(s0.clock, ops)
            && Accounts(Line(s), s.armed)
  {
    ArmedAsAsked(s0, ops);
    InitialInv(s0);
    RunKeepsInv(s0, ops);
    FiredOnceAndLate(Run(s0, ops));
  }

  lemma {:induction false} FireAll(s: State)
    ensures var t := Run(s, seq(|s.pending|, _ => Fire));
            t == s.(pending := [], fired := s.fired + s.pending, firedAt := s.firedAt + seq(|s.pending|, _ => s.clock))
    decreases |s.pending|
  {
    var n := |s.pending|;
    if n == 0 {
      assert s.fired + s.pending == s.fired && s.firedAt + seq(n, _ => s.clock) == s.firedAt;
    } else {
      var t := Step(s, Fire);
      assert seq(n, _ => Fire)[1..] == seq(n - 1, _ => Fire);
      FireAll(t);
      assert s.fired + s.pending == t.fired + t.pending;
      assert s.firedAt + seq(n, _ => s.clock) == t.firedAt + seq(n - 1, _ => s.clock);
    }
  }

  /**
   The pass that begins with a sweep fires, after those pending before, every timer that has expired at the
   sweep and no other, and keeps the line of timers.
   */
  lemma {:induction false} ExpiredFire(s: State)
    requires Inv(s)
    ensures var t, n := Run(s, [Sweep] + seq(|Step(s, Sweep).pending|, _ => Fire)), |s.fired| + |s.pending|;
            && |t.pending| == 0 && t.fired + t.timers == Line(s) && n <= |t.fired|
            && (forall i :: n <= i < |t.fired| ==> t.fired[i].due < s.clock)
            && (forall i :: 0 <= i < |t.timers| ==> t.timers[i].due >= s.clock)
  {
    var u := Step(s, Sweep);
    var fires := seq(|u.pending|, _ => Fire);
    assert ([Sweep] + fires)[1..] == fires;
    FireAll(u);
    ExpiredExact(s.timers, s.clock);
    SweepKeepsLine(s);
    assert Run(s, [Sweep] + fires) == Run(u, fires);
    hide Run, Accounts, Sorted;
  }

  lemma {:induction false} FiredOnceAndLate(s: State)
    requires Inv(s)
    ensures forall i :: 0 <= i < |s.fired| ==>
              && s.fired[i].ev < |s.armed|
              && var a := s.armed[s.fired[i].ev]; s.firedAt[i] > a.at + a.delay
    ensures forall i, j :: 0 <= i < j < |s.fired| ==> s.fired[i].ev != s.fired[j].ev
  {
    assert forall i :: 0 <= i < |s.fired| ==> Line(s)[i] == s.fired[i];
  }

  // ----- order over whole runs

  ghost predicate DelaysFrom(ops: seq<Op>, least: int) {
    forall i :: 0 <= i < |ops| && ops[i].Arm? ==> ops[i].delay >= least
  }

  /** Timers fired in order of deadline, and none still waiting is due before one that has fired. */
  ghost predicate InOrder(s: State) {
    && (forall i, j :: 0 <= i < j < |s.fired| ==> s.fired[i].due <= s.fired[j].due)
    && (forall i, j :: 0 <= i < |s.fired| && 0 <= j < |s.timers| ==> s.fired[i].due <= s.timers[j].due)
  }

  ghost predicate Ordered(s: State) {
    && Sorted(Line(s))
    && (forall i :: 0 <= i < |s.fired| ==> s.fired[i].due < s.swept)
    && (forall i :: 0 <= i < |s.timers| ==> s.timers[i].due >= s.swept - 1)
  }

  lemma {:induction false} SortedInsert<E>(q: seq<Timer<E>>, k: nat, t: Timer<E>)
    requires k <= |q| && Sorted(q)
    requires forall i :: 0 <= i < k ==> q[i].due <= t.due
    requires forall i :: k <= i < |q| ==> q[i].due >= t.due
    ensures Sorted(q[..k] + [t] + q[k..])
  {
  }

  lemma {:induction false} ArmKeepsOrder(s: State, delay: int)
    requires Inv(s) && Ordered(s) && delay >= -1
    ensures Ordered(Step(s, Arm(delay)))
  {
    assert Sorted(Line(Step(s, Arm(delay)))) by {
      ArmLine(s, delay);
      ArmNeighbours(s, delay);
      SortedInsert(Line(s), ArmPos(s, delay), Timer(|s.armed|, s.clock + delay));
    }
    hide Sorted, Line, Accounts;
  }

  /** The deadlines on either side of the place a new timer takes. */
  lemma {:induction false} ArmNeighbours(s: State, delay: int)
    requires Inv(s) && Ordered(s) && delay >= -1
    ensures forall i :: 0 <= i < ArmPos(s, delay) ==> Line(s)[i].due <= s.clock + delay
    ensures forall i :: ArmPos(s, delay) <= i < |Line(s)| ==> Line(s)[i].due >= s.clock + delay
  {
    var q, k, b := Line(s), ArmPos(s, delay), |s.fired| + |s.pending|;
    forall i | 0 <= i < k ensures q[i].due <= s.clock + delay {
      if i < |s.fired| { assert q[i] == s.fired[i]; }
      else if i < b { assert q[i] == s.pending[i - |s.fired|]; }
      else { assert q[i] == s.timers[i - b]; }
    }
    forall i | k <= i < |q| ensures q[i].due >= s.clock + delay {
      assert q[k] == s.timers[k - b] && q[k].due <= q[i].due;
    }
  }

  lemma {:induction false} StepKeepsOrder(s: State, op: Op)
    requires Inv(s) && Ordered(s)
    requires op.Arm? ==> op.delay >= -1
    ensures Ordered(Step(s, op))
  {
    match op
    case Tick(_) =>
    case Arm(delay) =>
      ArmKeepsOrder(s, delay);
    case Sweep =>
      SweepKeepsLine(s);
      ExpiredExact(s.timers, s.clock);
    case Fire =>
      FireKeepsLine(s);
  }

  lemma {:induction false} RunKeepsOrder(s: State, ops: seq<Op>)
    requires Inv(s) && Ordered(s)
    requires DelaysFrom(ops, -1)
    ensures Ordered(Run(s, ops))
    decreases |ops|
  {
    if ops != [] {
      StepKeepsInv(s, ops[0]);
      StepKeepsOrder(s, ops[0]);
      RunKeepsOrder(Step(s, ops[0]), ops[1..]);
    }
  }

  lemma {:induction false} OrderedFirings(s: State)
    requires Ordered(s)
    ensures InOrder(s)
  {
    assert forall i :: 0 <= i < |s.fired| ==> Line(s)[i] == s.fired[i];
  }

  /**
   Over a whole run, not only within one sweep, timers fire in order of deadline if no delay is below -1
   microsecond.
   */
  lemma {:induction false} FiresInDeadlineOrder(s0: State, ops: seq<Op>)
    requires Initial(s0)
    requires DelaysFrom(ops, -1)
    ensures InOrder(Run(s0, ops))
  {
    InitialInv(s0);
    RunKeepsOrder(s0, ops);
    OrderedFirings(Run(s0, ops));
  }

  /** Any delay below that breaks the order: the timer armed second is due before the one already fired. */
  lemma {:induction false} NegativeDelayBreaksOrder(s0: State, delay: int)
    requires Initial(s0) && delay < -1
    ensures !InOrder(Run(s0, [Arm(0), Tick(1), Sweep, Fire] + [Arm(delay), Tick(1), Sweep, Fire]))
  {
    hide Run, Step;
    var first, second := [Arm(0), Tick(1), Sweep, Fire], [Arm(delay), Tick(1), Sweep, Fire];
    ArmAndFire(s0, 0);
    var s1 := Run(s0, first);
    assert s1.clock == s0.clock + 1 && s1.fired == [Timer(0, s0.clock)] && |s1.armed| == 1;
    ArmAndFire(s1, delay);
    RunConcat(s0, first, second);
    var s2 := Run(s1, second);
    assert s2.fired[0].due == s0.clock && s2.fired[1].due == s0.clock + 1 + delay;
  }

  lemma {:induction false} RunConcat(s: State, a: seq<Op>, b: seq<Op>)
    ensures Run(s, a + b) == Run(Run(s, a), b)
    decreases |a|
  {
    if |a| == 0 {
      assert a + b == b;
    } else {
      assert (a + b)[1..] == a[1..] + b;
      RunConcat(Step(s, a[0]), a[1..], b);
    }
  }

  /** The bound is exact: all runs with delays from `least` on fire in order if and only if it is at least -1. */
  lemma {:induction false} OrderIffDelays(s0: State, least: int)
    requires Initial(s0)
    ensures (forall ops :: DelaysFrom(ops, least) ==> InOrder(Run(s0, ops))) <==> least >= -1
  {
    if least >= -1 {
      forall ops | DelaysFrom(ops, least) ensures InOrder(Run(s0, ops)) {
        FiresInDeadlineOrder(s0, ops);
      }
    } else {
      NegativeDelayBreaksOrder(s0, least);
      assert DelaysFrom([Arm(0), Tick(1), Sweep, Fire] + [Arm(least), Tick(1), Sweep, Fire], least);
    }
  }

  lemma {:induction false} ArmAndFire(s: State, delay: int)
    requires s.timers == [] && s.pending == []
    ensures var d := if delay < 0 then 1 else delay + 1;
            Run(s, [Arm(delay), Tick(d), Sweep, Fire])
              == State(s.clock + d, s.clock + d, s.armed + [Armed(s.clock, delay)], [], [],
                       s.fired + [Timer(|s.armed|, s.clock + delay)], s.firedAt + [s.clock + d])
  {
    var d := if delay < 0 then 1 else delay + 1;
    var t1 := Step(s, Arm(delay));
    assert t1.timers == [Timer(|s.armed|, s.clock + delay)];
    var t2 := Step(t1, Tick(d));
    var t3 := Step(t2, Sweep);
    assert [Arm(delay), Tick(d), Sweep, Fire][1..] == [Tick(d), Sweep, Fire];
    assert [Tick(d), Sweep, Fire][1..] == [Sweep, Fire];
    assert [Sweep, Fire][1..] == [Fire];
    assert Run(t3, [Fire]) == Run(Step(t3, Fire), []);
    assert Run(s, [Arm(delay), Tick(d), Sweep, Fire]) == Run(t1, [Tick(d), Sweep, Fire]) == Run(t2, [Sweep, Fire]) ==
        Run(t3, [Fire]);
  }

  // ----- timers with equal deadlines

  /** Of two timers with one deadline the one armed later stands first. */
  ghost predicate TiesReversed(q: seq<Timer<nat>>) {
    forall i, j :: 0 <= i < j < |q| && q[i].due == q[j].due ==> q[i].ev > q[j].ev
  }

  lemma {:induction false} TiesInsert(q: seq<Timer<nat>>, k: nat, t: Timer<nat>)
    requires k <= |q| && TiesReversed(q) && forall i :: 0 <= i < |q| ==> q[i].ev < t.ev
    requires forall i :: 0 <= i < k ==> q[i].due < t.due
    ensures TiesReversed(q[..k] + [t] + q[k..])
  {
    var r := q[..k] + [t] + q[k..];
    assert forall i :: 0 <= i < |r| ==> r[i] == if i < k then q[i] else if i == k then t else q[i - 1];
  }

  /** A delay that is not negative puts the new timer behind all that were swept, and behind earlier deadlines. */
  lemma {:induction false} ArmBehind(s: State, delay: nat)
    requires Inv(s) && Ordered(s)
    ensures forall i :: 0 <= i < ArmPos(s, delay) ==> Line(s)[i].due < s.clock + delay
  {
    var q, k, b := Line(s), ArmPos(s, delay), |s.fired| + |s.pending|;
    forall i | 0 <= i < k ensures q[i].due < s.clock + delay {
      if i < |s.fired| { assert q[i] == s.fired[i]; }
      else if i < b { assert q[i] == s.pending[i - |s.fired|]; }
      else { assert q[i] == s.timers[i - b]; }
    }
  }

  lemma {:induction false} StepKeepsTies(s: State, op: Op)
    requires Inv(s) && Ordered(s) && TiesReversed(Line(s)) && (op.Arm? ==> op.delay >= 0)
    ensures TiesReversed(Line(Step(s, op)))
  {
    match op
    case Tick(d) => assert Line(Step(s, op)) == Line(s);
    case Arm(delay) =>
      ArmBehind(s, delay);
      ArmLine(s, delay);
      hide Line, Sorted;
      TiesInsert(Line(s), ArmPos(s, delay), Timer(|s.armed|, s.clock + delay));
    case Sweep => SweepKeepsLine(s);
    case Fire => FireKeepsLine(s);
  }

  lemma {:induction false} RunKeepsTies(s: State, ops: seq<Op>)
    requires Inv(s) && Ordered(s) && TiesReversed(Line(s)) && DelaysFrom(ops, 0)
    ensures TiesReversed(Line(Run(s, ops)))
    decreases |ops|
  {
    hide Inv, Ordered, TiesReversed, Line, Step;
    if |ops| > 0 {
      StepKeepsInv(s, ops[0]);
      StepKeepsOrder(s, ops[0]);
      StepKeepsTies(s, ops[0]);
      RunKeepsTies(Step(s, ops[0]), ops[1..]);
    }
  }

  /**
   With no negative delay, timers with one deadline fire in the reverse of the order they were armed in, in every
   run.
   */
  lemma {:induction false} TiesFireInReverse(s0: State, ops: seq<Op>)
    requires Initial(s0) && DelaysFrom(ops, 0)
    ensures TiesReversed(Run(s0, ops).fired)
  {
    var s := Run(s0, ops);
    InitialInv(s0);
    assert |Line(s0)| == 0;
    RunKeepsTies(s0, ops);
    assert forall i :: 0 <= i < |s.fired| ==> Line(s)[i] == s.fired[i];
  }

  /** A delay of -1 can fire a later timer after one already swept with the same deadline. */
  lemma {:induction false} TieInOrder(s0: State)
    requires Initial(s0)
    ensures !TiesReversed(Run(s0, [Arm(0), Tick(1), Sweep] + [Arm(-1), Sweep] + [Fire, Fire]).fired)
  {
    hide Step, Run;
    var a := Step(s0, Arm(0));
    var b := Step(a, Tick(1));
    var s1 := Step(b, Sweep);
    var d := Step(s1, Arm(-1));
    var s2 := Step(d, Sweep);
    SweptAlone(s0, a, b, s1);
    SweptBehind(s1, s0.clock, d, s2);
    var s3 := Step(Step(s2, Fire), Fire);
    RunTwo(s0, Arm(0), Tick(1));
    RunOne(b, Sweep);
    RunConcat(s0, [Arm(0), Tick(1)], [Sweep]);
    assert [Arm(0), Tick(1)] + [Sweep] == [Arm(0), Tick(1), Sweep];
    RunTwo(s1, Arm(-1), Sweep);
    RunTwo(s2, Fire, Fire);
    RunConcat(s0, [Arm(0), Tick(1), Sweep], [Arm(-1), Sweep]);
    RunConcat(s0, [Arm(0), Tick(1), Sweep] + [Arm(-1), Sweep], [Fire, Fire]);
    assert s3.fired[0] == Timer(0, s0.clock) && s3.fired[1] == Timer(1, s0.clock);
  }

  lemma {:induction false} SweptAlone(s: State, a: State, b: State, t: State)
    requires Initial(s) && a == Step(s, Arm(0)) && b == Step(a, Tick(1)) && t == Step(b, Sweep)
    ensures t.pending == [Timer(0, s.clock)] && |t.timers| == |t.fired| == 0 && t.clock == s.clock + 1 && |t.armed| == 1
  {
    hide Sorted;
    assert InsertPos(s.timers, s.clock) == 0;
    assert a.timers == [Timer(0, s.clock)];
    assert ExpiredCount(b.timers, b.clock) == 1;
    assert b.timers[..1] == [Timer(0, s.clock)];
  }

  lemma {:induction false} SweptBehind(s: State, c: int, a: State, t: State)
    requires s.pending == [Timer(0, c)] && |s.timers| == |s.fired| == 0 && s.clock == c + 1 && |s.armed| == 1
    requires a == Step(s, Arm(-1)) && t == Step(a, Sweep)
    ensures Step(Step(t, Fire), Fire).fired == [Timer(0, c), Timer(1, c)]
  {
    hide Sorted;
    assert InsertPos(s.timers, c) == 0;
    assert a.timers == [Timer(1, c)];
    assert ExpiredCount(a.timers, a.clock) == 1;
    assert a.timers[..1] == [Timer(1, c)];
    assert t.pending == [Timer(0, c), Timer(1, c)];
    FireBoth(t, Timer(0, c), Timer(1, c));
  }

  lemma {:induction false} FireBoth(s: State, x: Timer<nat>, y: Timer<nat>)
    requires s.pending == [x, y] && |s.fired| == 0
    ensures Step(Step(s, Fire), Fire).fired == [x, y]
  {
    var a := Step(s, Fire);
    assert a.pending == [y] && a.fired == [x];
    assert [x] + [y] == [x, y];
  }

  lemma {:induction false} RunOne(s: State, a: Op)
    ensures Run(s, [a]) == Step(s, a)
  {
    hide Step;
    assert Run(s, [a]) == Run(Step(s, a), []);
  }

  lemma {:induction false} RunTwo(s: State, a: Op, b: Op)
    ensures Run(s, [a, b]) == Step(Step(s, a), b)
  {
    hide Step;
    assert [a, b][1..] == [b];
    RunOne(Step(s, a), b);
  }

  /**
   The bound is exact: all runs with delays from `least` on reverse equal deadlines if and only if it is at least
   0.
   */
  lemma {:induction false} TiesIffDelays(s0: State, least: int)
    requires Initial(s0)
    ensures (forall ops :: DelaysFrom(ops, least) ==> TiesReversed(Run(s0, ops).fired)) <==> least >= 0
  {
    if least >= 0 {
      forall ops | DelaysFrom(ops, least) ensures TiesReversed(Run(s0, ops).fired) {
        TiesFireInReverse(s0, ops);
      }
    } else {
      TieInOrder(s0);
      assert DelaysFrom([Arm(0), Tick(1), Sweep] + [Arm(-1), Sweep] + [Fire, Fire], least);
    }
    hide Run;
  }
}
