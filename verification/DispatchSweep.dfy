/**
 A pass over the queue as values: searching for a PENDING request from the head every time is a single sweep,
 and what becomes of every request in it.
 */
module DispatchSweep {
  import opened Common
  import opened FmtNumbers
  import opened RequestQueue
  import opened Scheduler
  import opened DispatchFates

  /** What the handlers come to, by the number of dispatches before it in the pass. */
  type Attempts = nat -> Attempt

  ghost predicate NonNull(q: seq<Request>) {
    forall i :: 0 <= i < |q| ==> q[i].token != NO_TOKEN
  }

  ghost predicate NonePending(q: seq<Request>, n: nat)
    requires n <= |q|
  {
    forall i :: 0 <= i < n ==> q[i].status != Pending
  }

  /** One sweep from position i on: every PENDING request is dispatched where it is met. */
  function Sweep(radio: int, q: Queue, i: nat, n: nat, attempts: Attempts): Queue
    requires i <= |q.requests|
    decreases |q.requests| - i
  {
    if i == |q.requests| then q
    else if q.requests[i].status != Pending then Sweep(radio, q, i + 1, n, attempts)
    else
      var t := DispatchAt(radio, q, i, attempts(n));
      if |t.requests| == |q.requests| then Sweep(radio, t, i + 1, n + 1, attempts)
      else if i <= |t.requests| < |q.requests| then Sweep(radio, t, i, n + 1, attempts)
      else t
  }

  /** The requests a sweep dispatches, in order. */
  function PendingSerials(q: seq<Request>): seq<nat> {
    if |q| == 0 then []
    else (if q[0].status == Pending then [q[0].serial] else []) + PendingSerials(q[1..])
  }

  /** What a dispatch does to the queue: a new status for the request, or the request is gone. */
  lemma {:induction false} DispatchShape(radio: int, q: Queue, k: nat, a: Attempt)
    requires UniqueTokens(q.requests) && NonNull(q.requests) && k < |q.requests|
    ensures var r := DispatchAt(radio, q, k, a).requests;
            || r == q.requests[k := q.requests[k].(status := Handled)]
            || r == q.requests[k := q.requests[k].(status := Unhandled)]
            || r == Without(q.requests, k)
    ensures DispatchAt(radio, q, k, a).arrivals == q.arrivals
  {
    assert FindRequest(q.requests, q.requests[k].token) == k;
    hide Busy, UnregisterEntry;
  }

  lemma {:induction false} SweepSkips(radio: int, q: Queue, i: nat, n: nat, attempts: Attempts, k: nat)
    requires i <= k <= |q.requests| && forall j :: i <= j < k ==> q.requests[j].status != Pending
    ensures Sweep(radio, q, i, n, attempts) == Sweep(radio, q, k, n, attempts)
    decreases k - i
  {
    if i < k { SweepSkips(radio, q, i + 1, n, attempts, k); }
  }

  /** Dispatching the first PENDING request and searching again from the head is the same sweep. */
  lemma {:induction false} SweepRestarts(radio: int, q: Queue, n: nat, attempts: Attempts)
    requires UniqueTokens(q.requests) && NonNull(q.requests)
    requires FindStatus(q.requests, Pending) < |q.requests|
    ensures Sweep(radio, q, 0, n, attempts) ==
        Sweep(radio, DispatchAt(radio, q, FindStatus(q.requests, Pending), attempts(n)), 0, n + 1, attempts)
  {
    var k := FindStatus(q.requests, Pending);
    var t := DispatchAt(radio, q, k, attempts(n));
    DispatchShape(radio, q, k, attempts(n));
    SweepSkips(radio, q, 0, n, attempts, k);
    var m := if |t.requests| == |q.requests| then k + 1 else k;
    assert forall j :: 0 <= j < m ==> t.requests[j].status != Pending;
    SweepSkips(radio, t, 0, n + 1, attempts, m);
    hide DispatchAt;
  }

  lemma {:induction false} PendingSkip(q: seq<Request>, k: nat)
    requires k <= |q| && forall j :: 0 <= j < k ==> q[j].status != Pending
    ensures PendingSerials(q) == PendingSerials(q[k..])
    decreases k
  {
    if k > 0 {
      PendingSkip(q[1..], k - 1);
      assert q[1..][k - 1..] == q[k..];
    } else {
      assert q[0..] == q;
    }
  }

  /** The dispatched request leaves the list of those still to dispatch, and no other does. */
  lemma {:induction false} PendingAfter(radio: int, q: Queue, a: Attempt)
    requires UniqueTokens(q.requests) && NonNull(q.requests)
    requires FindStatus(q.requests, Pending) < |q.requests|
    ensures var k := FindStatus(q.requests, Pending);
            PendingSerials(q.requests) == [q.requests[k].serial] + PendingSerials(DispatchAt(radio, q, k, a).requests)
  {
    var k := FindStatus(q.requests, Pending);
    var t := DispatchAt(radio, q, k, a).requests;
    DispatchShape(radio, q, k, a);
    hide DispatchAt;
    PendingSkip(q.requests, k);
    assert q.requests[k..][1..] == q.requests[k + 1..];
    if |t| == |q.requests| {
      PendingSkip(t, k + 1);
      assert t[k + 1..] == q.requests[k + 1..];
    } else {
      PendingSkip(t, k);
      assert t[k..] == q.requests[k + 1..];
    }
  }

  /** The PENDING requests are listed in queue order. */
  lemma {:induction false} PendingOrder(q: seq<Request>, i: nat)
    requires Increasing(q) && i < |PendingSerials(q)|
    ensures exists j :: 0 <= j < |q| && q[j].serial == PendingSerials(q)[i]
    ensures i > 0 ==> PendingSerials(q)[0] < PendingSerials(q)[i]
  {
    var rest := q[1..];
    var m := if q[0].status == Pending then 1 else 0;
    if i >= m {
      PendingOrder(rest, i - m);
      var j :| 0 <= j < |rest| && rest[j].serial == PendingSerials(rest)[i - m];
      assert q[j + 1].serial == PendingSerials(q)[i];
    }
  }

  lemma {:induction false} PendingLater(q: seq<Request>, k: nat, i: nat)
    requires Increasing(q) && k < |q| && 0 < i < |PendingSerials(q)| && PendingSerials(q)[0] == q[k].serial
    ensures q[k].serial < PendingSerials(q)[i]
  {
    PendingOrder(q, i);
  }

  lemma {:induction false} NonePendingIffEmpty(q: seq<Request>)
    ensures |PendingSerials(q)| == 0 <==> FindStatus(q, Pending) == |q|
  {
    if |q| > 0 { NonePendingIffEmpty(q[1..]); }
  }

  // ----- what a pass guarantees

  /** No request appears, and those HANDLED before are all still there, unchanged. */
  ghost predicate Kept(before: seq<Request>, after: seq<Request>) {
    && (forall x :: x in before && x.status == Handled ==> x in after)
    && (forall y :: y in after ==> exists x :: x in before && x.(status := y.status) == y)
  }

  lemma {:induction false} DispatchKept(radio: int, q: Queue, k: nat, a: Attempt)
    requires UniqueTokens(q.requests) && NonNull(q.requests) && k < |q.requests| && q.requests[k].status == Pending
    ensures var r := DispatchAt(radio, q, k, a).requests; Kept(q.requests, r) && NonNull(r)
  {
    var b, r := q.requests, DispatchAt(radio, q, k, a).requests;
    DispatchShape(radio, q, k, a);
    hide DispatchAt;
    if |r| == |b| {
      UpdateKept(b, k, r[k].status);
    } else {
      WithoutKept(b, k);
    }
  }

  lemma {:induction false} UpdateKept(b: seq<Request>, k: nat, status: Status)
    requires k < |b| && b[k].status == Pending
    ensures Kept(b, b[k := b[k].(status := status)])
  {
    var r := b[k := b[k].(status := status)];
    forall x | x in b && x.status == Handled ensures x in r {
      var i :| 0 <= i < |b| && b[i] == x;
      assert r[i] == x;
    }
    forall y | y in r ensures exists x :: x in b && x.(status := y.status) == y {
      var i :| 0 <= i < |r| && r[i] == y;
      assert b[i] in b && b[i].(status := y.status) == y;
    }
  }

  lemma {:induction false} WithoutKept(b: seq<Request>, k: nat)
    requires k < |b| && b[k].status == Pending
    ensures Kept(b, Without(b, k))
  {
    var r := Without(b, k);
    forall x | x in b && x.status == Handled ensures x in r {
      var i :| 0 <= i < |b| && b[i] == x;
      assert r[if i < k then i else i - 1] == x;
    }
    forall y | y in r ensures exists x :: x in b && x.(status := y.status) == y {
      var i :| 0 <= i < |r| && r[i] == y;
      assert y in b && y.(status := y.status) == y;
    }
  }

  lemma {:induction false} KeptTransitive(a: seq<Request>, b: seq<Request>, c: seq<Request>)
    requires Kept(a, b) && Kept(b, c)
    ensures Kept(a, c)
  {
    forall y | y in c ensures exists x :: x in a && x.(status := y.status) == y {
      var m :| m in b && m.(status := y.status) == y;
      var x :| x in a && x.(status := m.status) == m;
      assert x.(status := y.status) == y;
    }
  }

  /**
   A sweep leaves no PENDING request, keeps the HANDLED ones as they are, adds none, and keeps the
   invariant of the scheduler, arrival order of the queue included.
   */
  lemma {:induction false} SweepEffect(radio: int, q: Queue, n: nat, attempts: Attempts)
    requires Good(q) && NonNull(q.requests)
    ensures var r := Sweep(radio, q, 0, n, attempts);
            && Good(r) && r.arrivals == q.arrivals
            && NonePending(r.requests, |r.requests|)
            && Kept(q.requests, r.requests)
    decreases |PendingSerials(q.requests)|
  {
    var k := FindStatus(q.requests, Pending);
    if k == |q.requests| {
      SweepSkips(radio, q, 0, n, attempts, k);
    } else {
      var t := DispatchAt(radio, q, k, attempts(n));
      SweepRestarts(radio, q, n, attempts);
      PendingAfter(radio, q, attempts(n));
      DispatchShape(radio, q, k, attempts(n));
      DispatchKept(radio, q, k, attempts(n));
      DispatchGood(radio, q, k, attempts(n));
      hide DispatchAt, Good, Kept, NonNull, UniqueTokens;
      SweepEffect(radio, t, n + 1, attempts);
      KeptTransitive(q.requests, t.requests, Sweep(radio, q, 0, n, attempts).requests);
    }
  }

  /** The second loop of a pass after n rounds in which every handler call comes to the same. */
  ghost function Rounds(radio: int, q: Queue, a: Attempt, n: nat): Queue
    decreases n
  {
    var k := FindStatus(q.requests, Pending);
    if n == 0 || k == |q.requests| then q else Rounds(radio, DispatchAt(radio, q, k, a), a, n - 1)
  }

  /**
   A NULL token would make a pass spin: completing the request leaves it PENDING, so that after any number
   of rounds the queue is as it was and the search finds the request again.
   */
  lemma {:induction false} NullTokenSpins(radio: int, q: Queue, error: int, n: nat)
    requires var k := FindStatus(q.requests, Pending);
             k < |q.requests| && q.requests[k].token == NO_TOKEN && q.requests[k].kind in SUPPORTED
    ensures Rounds(radio, q, Attempt(Some(RCompleted(error)), RHandled), n) == q
    decreases n
  {
    if n > 0 { NullTokenSpins(radio, q, error, n - 1); }
  }

  // ----- what becomes of each request

  /** A HANDLED request that was in flight before the pass, or was dispatched in it before y, keeps y waiting. */
  ghost predicate BusyAt(before: seq<Request>, after: seq<Request>, y: Request) {
    exists x :: x in after && x.status == Handled && x.kind in Tests(y.kind) && (x in before || x.serial < y.serial)
  }

  /** Where the request is found after the pass, and what libril has been told of it. */
  ghost predicate Ended(q: Queue, r: Queue, y: Request, f: Fate) {
    match f
    case InFlight => y.(status := Handled) in r.requests
    case PutOff => y.(status := Unhandled) in r.requests
    case Answered(error) =>
      exists j :: |q.done| <= j < |r.done| && j < |r.upstream| &&
                  r.done[j] == y.serial && r.upstream[j] == Completion(y.token, error)
    case Refused => exists j :: |q.dropped| <= j < |r.dropped| && r.dropped[j] == y.serial
  }

  /** Requests that are not PENDING stay as they are, none appears, and reports and drops are only added. */
  ghost predicate Grown(q: Queue, r: Queue) {
    && (forall x :: x in q.requests && x.status != Pending ==> x in r.requests)
    && (forall y :: y in r.requests ==> exists x :: x in q.requests && x.(status := y.status) == y)
    && q.done <= r.done && q.upstream <= r.upstream && q.dropped <= r.dropped
  }

  /** The i-th request that the sweep dispatches meets the fate that is due. */
  ghost predicate FateAt(radio: int, q: Queue, r: Queue, n: nat, attempts: Attempts, i: nat, y: Request) {
    i < |PendingSerials(q.requests)| && y in q.requests && y.serial == PendingSerials(q.requests)[i] ==>
      Ended(q, r, y, Due(radio, y.kind, BusyAt(q.requests, r.requests, y), attempts(n + i)))
  }

  ghost predicate AllFates(radio: int, q: Queue, r: Queue, n: nat, attempts: Attempts) {
    forall i: nat, y: Request :: FateAt(radio, q, r, n, attempts, i, y)
  }

  lemma {:induction false} GrownTransitive(a: Queue, b: Queue, c: Queue)
    requires Grown(a, b) && Grown(b, c)
    ensures Grown(a, c)
  {
    forall y | y in c.requests ensures exists x :: x in a.requests && x.(status := y.status) == y {
      var m :| m in b.requests && m.(status := y.status) == y;
      var x :| x in a.requests && x.(status := m.status) == m;
      assert x.(status := y.status) == y;
    }
  }

  /** Of the request that was PENDING the status changes, or it is gone; the others are the same. */
  lemma {:induction false} OneChanges(q: Queue, t: Queue, k: nat, f: Fate)
    requires k < |q.requests| && Meets(q, t, k, f)
    ensures forall x :: x in q.requests && x != q.requests[k] ==> x in t.requests
    ensures forall x :: x in t.requests ==>
              x in q.requests || ((f.InFlight? || f.PutOff?) && x == q.requests[k].(status := x.status))
  {
    var b, r := q.requests, t.requests;
    forall x | x in b && x != b[k] ensures x in r {
      var i :| 0 <= i < |b| && b[i] == x;
      assert r[if i < k || |r| == |b| then i else i - 1] == x;
    }
    forall x | x in r ensures x in b || ((f.InFlight? || f.PutOff?) && x == b[k].(status := x.status)) {
      var i :| 0 <= i < |r| && r[i] == x;
      if |r| == |b| {
        assert i != k ==> b[i] == x;
      } else {
        assert b[if i < k then i else i + 1] == x;
      }
    }
  }

  lemma {:induction false} MeetsGrown(q: Queue, t: Queue, k: nat, f: Fate)
    requires k < |q.requests| && Meets(q, t, k, f) && q.requests[k].status == Pending
    ensures Grown(q, t)
  {
    OneChanges(q, t, k, f);
    assert q.done <= t.done && q.upstream <= t.upstream && q.dropped <= t.dropped;
    hide Meets;
    forall y | y in t.requests ensures exists x :: x in q.requests && x.(status := y.status) == y {
      assert y in q.requests || q.requests[k].(status := y.status) == y;
    }
  }

  /** What the first dispatch does can still be seen at the end. */
  lemma {:induction false} FirstEnded(q: Queue, t: Queue, r: Queue, k: nat, f: Fate)
    requires k < |q.requests| && Meets(q, t, k, f) && |q.upstream| == |q.done| && Grown(t, r)
    ensures Ended(q, r, q.requests[k], f)
  {
    var y := q.requests[k];
    match f
    case InFlight => assert t.requests[k] in t.requests;
    case PutOff => assert t.requests[k] in t.requests;
    case Answered(error) =>
      assert t.done[|q.done|] == y.serial && t.upstream[|q.done|] == Completion(y.token, error);
      assert r.done[|q.done|] == y.serial && r.upstream[|q.done|] == Completion(y.token, error);
    case Refused => assert t.dropped[|q.dropped|] == y.serial && r.dropped[|q.dropped|] == y.serial;
  }

  lemma {:induction false} LaterEnded(q: Queue, t: Queue, r: Queue, y: Request, f: Fate)
    requires Grown(q, t) && Ended(t, r, y, f)
    ensures Ended(q, r, y, f)
  {
    match f
    case Answered(error) =>
      var j :| |t.done| <= j < |r.done| && j < |r.upstream| && r.done[j] == y.serial &&
               r.upstream[j] == Completion(y.token, error);
      assert |q.done| <= j;
    case Refused =>
      var j :| |t.dropped| <= j < |r.dropped| && r.dropped[j] == y.serial;
      assert |q.dropped| <= j;
    case _ =>
  }

  /** Requests that arrived before the first PENDING one are as they were. */
  lemma {:induction false} EarlierKept(q: Queue, r: Queue, k: nat, x: Request)
    requires Increasing(q.requests) && Increasing(r.requests) && Grown(q, r)
    requires k < |q.requests| && forall j :: 0 <= j < k ==> q.requests[j].status != Pending
    requires x in r.requests && x.serial < q.requests[k].serial
    ensures x in q.requests
  {
    var z :| z in q.requests && z.(status := x.status) == x;
    var j :| 0 <= j < |q.requests| && q.requests[j] == z;
    assert j < k;
    SameSerial(r.requests, x, z);
  }

  /** What keeps the first PENDING request waiting is still seen at the end. */
  lemma {:induction false} BusyFirst(q: Queue, r: Queue, k: nat)
    requires Increasing(q.requests) && Increasing(r.requests) && Grown(q, r)
    requires k < |q.requests| && forall j :: 0 <= j < k ==> q.requests[j].status != Pending
    ensures Busy(q.requests, q.requests[k].kind) <==> BusyAt(q.requests, r.requests, q.requests[k])
  {
    hide Tests, Increasing;
    var y := q.requests[k];
    if BusyAt(q.requests, r.requests, y) {
      var x :| x in r.requests && x.status == Handled && x.kind in Tests(y.kind) &&
               (x in q.requests || x.serial < y.serial);
      if x !in q.requests { EarlierKept(q, r, k, x); }
      hide Grown;
      var i :| 0 <= i < |q.requests| && q.requests[i] == x;
      assert q.requests[i].status == Handled;
    }
    if Busy(q.requests, y.kind) {
      var i :| 0 <= i < |q.requests| && q.requests[i].status == Handled && q.requests[i].kind in Tests(y.kind);
      assert q.requests[i] in r.requests;
    }
  }

  lemma {:induction false} SameSerial(q: seq<Request>, x: Request, y: Request)
    requires Increasing(q) && x in q && y in q && x.serial == y.serial
    ensures x == y
  {
    var i :| 0 <= i < |q| && q[i] == x;
    var j :| 0 <= j < |q| && q[j] == y;
    assert i == j;
  }

  /** For one dispatched later it makes no difference whether the first has been dispatched already. */
  lemma {:induction false} BusyLater(q: Queue, t: Queue, r: Queue, k: nat, f: Fate, y: Request)
    requires k < |q.requests| && Meets(q, t, k, f) && Grown(q, t) && q.requests[k].serial < y.serial
    ensures BusyAt(t.requests, r.requests, y) <==> BusyAt(q.requests, r.requests, y)
  {
    OneChanges(q, t, k, f);
    hide Tests, Meets;
    if BusyAt(t.requests, r.requests, y) {
      var x :| x in r.requests && x.status == Handled && x.kind in Tests(y.kind) &&
               (x in t.requests || x.serial < y.serial);
      assert x in q.requests || x.serial < y.serial;
    }
    if BusyAt(q.requests, r.requests, y) {
      var x :| x in r.requests && x.status == Handled && x.kind in Tests(y.kind) &&
               (x in q.requests || x.serial < y.serial);
      assert x in t.requests || x.serial < y.serial;
    }
  }

  /** The fates of one sweep, from those of the sweep after its first dispatch. */
  lemma {:induction false} FatesStep(radio: int, q: Queue, t: Queue, r: Queue, k: nat, n: nat, attempts: Attempts)
    requires Good(q) && Good(r) && Grown(q, t) && Grown(t, r) && AllFates(radio, t, r, n + 1, attempts)
    requires k == FindStatus(q.requests, Pending) < |q.requests|
    requires var y := q.requests[k];
             && Meets(q, t, k, Due(radio, y.kind, Busy(q.requests, y.kind), attempts(n)))
             && PendingSerials(q.requests) == [y.serial] + PendingSerials(t.requests)
    ensures AllFates(radio, q, r, n, attempts)
  {
    hide Due, Tests, Meets, Busy;
    var y0 := q.requests[k];
    GrownTransitive(q, t, r);
    forall i: nat, y: Request ensures FateAt(radio, q, r, n, attempts, i, y) {
      if i < |PendingSerials(q.requests)| && y in q.requests && y.serial == PendingSerials(q.requests)[i] {
        if i == 0 {
          FirstFate(radio, q, t, r, k, attempts(n), y);
        } else {
          LaterFate(radio, q, t, r, k, n, attempts, i, y);
        }
      }
    }
  }

  lemma {:induction false} FirstFate(radio: int, q: Queue, t: Queue, r: Queue, k: nat, a: Attempt, y: Request)
    requires Good(q) && Good(r) && Grown(t, r) && Grown(q, r)
    requires k == FindStatus(q.requests, Pending) < |q.requests| && y in q.requests && y.serial == q.requests[k].serial
    requires Meets(q, t, k, Due(radio, q.requests[k].kind, Busy(q.requests, q.requests[k].kind), a))
    ensures Ended(q, r, y, Due(radio, y.kind, BusyAt(q.requests, r.requests, y), a))
  {
    assert Increasing(q.requests) && Increasing(r.requests) && |q.upstream| == |q.done|;
    hide Good, Due, Meets, Tests, Busy, BusyAt, Ended, Grown;
    SameSerial(q.requests, y, q.requests[k]);
    BusyFirst(q, r, k);
    FirstEnded(q, t, r, k, Due(radio, y.kind, Busy(q.requests, y.kind), a));
  }

  lemma {:induction false} LaterFate(radio: int, q: Queue, t: Queue, r: Queue, k: nat, n: nat, attempts: Attempts,
      i: nat, y: Request)
    requires Good(q) && Grown(q, t) && AllFates(radio, t, r, n + 1, attempts)
    requires k == FindStatus(q.requests, Pending) < |q.requests|
    requires Meets(q, t, k, Due(radio, q.requests[k].kind, Busy(q.requests, q.requests[k].kind), attempts(n)))
    requires PendingSerials(q.requests) == [q.requests[k].serial] + PendingSerials(t.requests)
    requires 0 < i < |PendingSerials(q.requests)| && y in q.requests && y.serial == PendingSerials(q.requests)[i]
    ensures Ended(q, r, y, Due(radio, y.kind, BusyAt(q.requests, r.requests, y), attempts(n + i)))
  {
    hide Due, Meets, Tests, Busy, BusyAt, Ended, Grown, PendingSerials, AllFates, Mirrored, SingleFlight, Authentic,
      Serials, Members, UpTo;
    var y0 := q.requests[k];
    var f := Due(radio, y0.kind, Busy(q.requests, y0.kind), attempts(n));
    assert Increasing(q.requests);
    hide Good, Increasing;
    PendingLater(q.requests, k, i);
    OneChanges(q, t, k, f);
    assert y in t.requests;
    BusyLater(q, t, r, k, f, y);
    FateOfRest(radio, t, r, n + 1, attempts, i - 1, y);
    assert n + 1 + (i - 1) == n + i;
    LaterEnded(q, t, r, y, Due(radio, y.kind, BusyAt(t.requests, r.requests, y), attempts(n + i)));
  }

  lemma {:induction false} FateOfRest(radio: int, q: Queue, r: Queue, n: nat, attempts: Attempts, i: nat, y: Request)
    requires AllFates(radio, q, r, n, attempts)
    requires i < |PendingSerials(q.requests)| && y in q.requests && y.serial == PendingSerials(q.requests)[i]
    ensures Ended(q, r, y, Due(radio, y.kind, BusyAt(q.requests, r.requests, y), attempts(n + i)))
  {
    hide Due, Ended, BusyAt;
    assert FateAt(radio, q, r, n, attempts, i, y);
  }

  lemma {:induction false} SweepFates(radio: int, q: Queue, n: nat, attempts: Attempts)
    requires Good(q) && NonNull(q.requests)
    ensures var r := Sweep(radio, q, 0, n, attempts); Grown(q, r) && Good(r) && AllFates(radio, q, r, n, attempts)
    decreases |PendingSerials(q.requests)|
  {
    var k := FindStatus(q.requests, Pending);
    NonePendingIffEmpty(q.requests);
    if k == |q.requests| {
      SweepSkips(radio, q, 0, n, attempts, k);
    } else {
      var t := DispatchAt(radio, q, k, attempts(n));
      var y := q.requests[k];
      assert UniqueTokens(q.requests);
      SweepRestarts(radio, q, n, attempts);
      PendingAfter(radio, q, attempts(n));
      DispatchKept(radio, q, k, attempts(n));
      DispatchGood(radio, q, k, attempts(n));
      DispatchFate(radio, q, k, attempts(n));
      hide DispatchAt, Good, NonNull, UniqueTokens, Kept, Due, Busy, Meets, AllFates, Grown, PendingSerials;
      MeetsGrown(q, t, k, Due(radio, y.kind, Busy(q.requests, y.kind), attempts(n)));
      SweepFates(radio, t, n + 1, attempts);
      var r := Sweep(radio, t, 0, n + 1, attempts);
      FatesStep(radio, q, t, r, k, n, attempts);
      GrownTransitive(q, t, r);
    }
  }

  /**
   A request that finds one in flight that its handler tests for, and that was in flight before the pass, is
   still in the queue after it, put off.
   */
  lemma {:induction false} PutOffStays(radio: int, q: Queue, r: Queue, attempts: Attempts, i: nat, y: Request,
      x: Request)
    requires AllFates(radio, q, r, 0, attempts) && Grown(q, r)
    requires i < |PendingSerials(q.requests)| && y in q.requests && y.serial == PendingSerials(q.requests)[i]
    requires x in q.requests && x.status == Handled && x.kind in Tests(y.kind)
    requires y.kind in SUPPORTED && RadioReady(radio, y.kind)
    requires attempts(i).early.None? || attempts(i).early.value.RHandled?
    ensures y.(status := Unhandled) in r.requests
  {
    hide Tests, SUPPORTED, AWAITING, RadioReady, PendingSerials;
    FateOfRest(radio, q, r, 0, attempts, i, y);
    assert BusyAt(q.requests, r.requests, y);
  }
}
