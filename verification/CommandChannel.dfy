/**
 Requests and responses of libril: the list of pending requests, the command connection and the two
 moments of RIL_onRequestComplete, which first takes a request off the list under its lock and then
 writes the response without one. Runs interleave these steps with closing and accepting connections.
 */
module CommandChannel {
  import opened Common

  /** A request as libril keeps it; `id` stands for its address, `epoch` for the connection it was read on. */
  datatype Request = Request(id: nat, token: int, epoch: nat, local: bool, cancelled: bool) {
    predicate Answerable() {
      !local && !cancelled
    }
  }

  datatype State = State(
    issued: seq<Request>,        // every request ever made, in order; a request's id is its place here
    connections: nat,            // connections accepted so far
    fd: Option<nat>,             // s_fdCommand: the connection it denotes, None for -1
    closing: bool,               // the connection is closed but its requests are not yet cancelled
    pending: seq<Request>,       // s_pendingRequests, newest first
    inFlight: seq<Request>,      // off the list, response about to be written
    sent: seq<Request>,          // the responses on the wire, by the request each answers
    sentOn: seq<nat>)            // and the connection each was written on

  datatype Op =
    | Accept                     // listenCallback
    | Read(token: int)           // processCommandBuffer
    | IssueLocal                 // issueLocalRequest
    | CloseFd                    // processCommandsCallback: close, s_fdCommand = -1
    | CancelAll                  // onCommandsSocketClosed
    | Dequeue(id: nat)           // RIL_onRequestComplete up to the test of `cancelled`
    | Write(id: nat)             // RIL_onRequestComplete from there: sendResponse

  ghost predicate Initial(s: State) {
    |s.issued| == |s.pending| == |s.inFlight| == |s.sent| == |s.sentOn| == 0 && s.connections == 0 && s.fd.None? &&
        !s.closing
  }

  /** The position of a request, the length when it is not there. */
  function Find(q: seq<Request>, id: nat): (k: nat)
    ensures k <= |q|
    ensures k < |q| ==> q[k].id == id
    ensures forall i :: 0 <= i < k ==> q[i].id != id
  {
    FindFirst(q, (x: Request) => x.id == id)
  }

  function Cancelled(q: seq<Request>): (r: seq<Request>)
    ensures |r| == |q|
    ensures forall i :: 0 <= i < |q| ==> r[i] == q[i].(cancelled := true)
  {
    seq(|q|, i requires 0 <= i < |q| => q[i].(cancelled := true))
  }

  /** `checkAndDequeueRequestInfo`, and the tests that decide whether there will be a response. */
  function StepDequeue(s: State, id: nat): State {
    var k := Find(s.pending, id);
    if k == |s.pending| then s
    else s.(pending := Without(s.pending, k),
            inFlight := if s.pending[k].Answerable() then s.inFlight + [s.pending[k]] else s.inFlight)
  }

  /** `sendResponse`: with no connection the response is dropped. */
  function StepWrite(s: State, id: nat): State {
    var k := Find(s.inFlight, id);
    if k == |s.inFlight| then s
    else s.(inFlight := Without(s.inFlight, k),
            sent := if s.fd.Some? then s.sent + [s.inFlight[k]] else s.sent,
            sentOn := if s.fd.Some? then s.sentOn + [s.fd.value] else s.sentOn)
  }

  /** A new request joins the front of the list. */
  function StepIssue(s: State, r: Request): State {
    s.(issued := s.issued + [r], pending := [r] + s.pending)
  }

  function Step(s: State, op: Op): State {
    match op
    case Accept =>
      // The listening event is armed again only after a close, by the thread that closed.
      if s.fd.Some? || s.closing then s else s.(connections := s.connections + 1, fd := Some(s.connections))
    case Read(token) =>
      if s.fd.None? then s else StepIssue(s, Request(|s.issued|, token, s.fd.value, false, false))
    case IssueLocal => StepIssue(s, Request(|s.issued|, 0xffffffff, s.connections, true, false))
    case CloseFd => if s.fd.None? then s else s.(fd := None, closing := true)
    case CancelAll => if s.closing then s.(pending := Cancelled(s.pending), closing := false) else s
    case Dequeue(id) => StepDequeue(s, id)
    case Write(id) => StepWrite(s, id)
  }

  function Run(s: State, ops: seq<Op>): State
    decreases |ops|
  {
    if |ops| == 0 then s else Run(Step(s, ops[0]), ops[1..])
  }

  // ----- identity: who is where

  ghost function Ids(q: seq<Request>): set<nat> {
    set i | 0 <= i < |q| :: q[i].id
  }

  ghost predicate NoDup(q: seq<Request>) {
    forall i, j :: 0 <= i < j < |q| ==> q[i].id != q[j].id
  }

  lemma {:induction false} WithoutIds(q: seq<Request>, k: nat)
    requires NoDup(q) && k < |q|
    ensures NoDup(Without(q, k)) && Ids(Without(q, k)) == Ids(q) - {q[k].id} && q[k].id in Ids(q)
  {
    var r := Without(q, k);
    forall id | id in Ids(q) - {q[k].id} ensures id in Ids(r) {
      var i :| 0 <= i < |q| && q[i].id == id;
      assert r[if i < k then i else i - 1] == q[i];
    }
  }

  lemma {:induction false} AppendIds(q: seq<Request>, r: Request)
    ensures Ids(q + [r]) == Ids(q) + {r.id}
    ensures NoDup(q) && r.id !in Ids(q) ==> NoDup(q + [r])
  {
    var a := q + [r];
    assert forall i :: 0 <= i < |q| ==> q[i].id in Ids(q) && a[i] == q[i];
    assert a[|q|] == r;
  }

  lemma {:induction false} PrependIds(q: seq<Request>, r: Request)
    ensures Ids([r] + q) == Ids(q) + {r.id}
    ensures NoDup(q) && r.id !in Ids(q) ==> NoDup([r] + q)
  {
    var b := [r] + q;
    assert forall i :: 0 <= i < |q| ==> q[i].id in Ids(q) && b[i + 1] == q[i];
    assert b[0] == r;
  }

  lemma {:induction false} CancelledIds(q: seq<Request>)
    ensures Ids(Cancelled(q)) == Ids(q) && (NoDup(q) ==> NoDup(Cancelled(q)))
  {
    assert forall i :: 0 <= i < |q| ==> Cancelled(q)[i].id == q[i].id;
  }

  /** The requests of a queue are those issued under their ids, except that they may have been cancelled since. */
  ghost predicate Genuine(issued: seq<Request>, q: seq<Request>) {
    forall i :: 0 <= i < |q| ==> q[i].id < |issued| && q[i].(cancelled := false) == issued[q[i].id]
  }

  ghost predicate AllAnswerable(q: seq<Request>) {
    forall i :: 0 <= i < |q| ==> q[i].Answerable()
  }

  lemma {:induction false} GenuineIds(issued: seq<Request>, q: seq<Request>)
    requires Genuine(issued, q)
    ensures forall id :: id in Ids(q) ==> id < |issued|
  {
  }

  lemma {:induction false} Moved(issued: seq<Request>, q: seq<Request>, k: nat, d: seq<Request>)
    requires Genuine(issued, q) && Genuine(issued, d) && k < |q|
    ensures Genuine(issued, Without(q, k)) && Genuine(issued, d + [q[k]])
    ensures AllAnswerable(q) ==> AllAnswerable(Without(q, k))
    ensures AllAnswerable(d) && q[k].Answerable() ==> AllAnswerable(d + [q[k]])
  {
  }

  /**
   Every request is where it is only once, and in only one place; only answerable ones leave the list for an
   answer.
   */
  ghost predicate Placed(s: State) {
    && (forall i :: 0 <= i < |s.issued| ==> s.issued[i].id == i && !s.issued[i].cancelled)
    && Genuine(s.issued, s.pending) && Genuine(s.issued, s.inFlight) && Genuine(s.issued, s.sent)
    && AllAnswerable(s.inFlight) && AllAnswerable(s.sent)
    && NoDup(s.pending) && NoDup(s.inFlight) && NoDup(s.sent)
    && Ids(s.pending) !! Ids(s.inFlight) !! Ids(s.sent)
    && |s.sentOn| == |s.sent|
  }

  lemma {:induction false} IssueKeepsPlaced(s: State, r: Request)
    requires Placed(s) && r.id == |s.issued| && !r.cancelled
    ensures Placed(StepIssue(s, r))
  {
    PrependIds(s.pending, r);
    GenuineIds(s.issued, s.pending);
    GenuineIds(s.issued, s.inFlight);
    GenuineIds(s.issued, s.sent);
    hide Ids, NoDup, AllAnswerable;
  }

  lemma {:induction false} DequeueKeepsPlaced(s: State, id: nat)
    requires Placed(s)
    ensures Placed(StepDequeue(s, id))
  {
    var k := Find(s.pending, id);
    if k < |s.pending| {
      WithoutIds(s.pending, k);
      AppendIds(s.inFlight, s.pending[k]);
      Moved(s.issued, s.pending, k, s.inFlight);
    }
    hide Ids, NoDup, Genuine, AllAnswerable, Without;
  }

  lemma {:induction false} WriteKeepsPlaced(s: State, id: nat)
    requires Placed(s)
    ensures Placed(StepWrite(s, id))
  {
    var k := Find(s.inFlight, id);
    if k < |s.inFlight| {
      WithoutIds(s.inFlight, k);
      AppendIds(s.sent, s.inFlight[k]);
      Moved(s.issued, s.inFlight, k, s.sent);
    }
    hide Ids, NoDup, Genuine, AllAnswerable, Without;
  }

  lemma {:induction false} StepKeepsPlaced(s: State, op: Op)
    requires Placed(s)
    ensures Placed(Step(s, op))
  {
    match op
    case Accept =>
    case Read(token) =>
      if s.fd.Some? { IssueKeepsPlaced(s, Request(|s.issued|, token, s.fd.value, false, false)); }
    case IssueLocal => IssueKeepsPlaced(s, Request(|s.issued|, 0xffffffff, s.connections, true, false));
    case CloseFd =>
    case CancelAll => CancelledIds(s.pending);
    case Dequeue(id) => DequeueKeepsPlaced(s, id);
    case Write(id) => WriteKeepsPlaced(s, id);
  }

  // ----- connections

  /** A request that could still be answered from the list was read on the connection that is open or just closing. */
  ghost predicate Epochs(s: State) {
    && (s.fd.Some? ==> s.fd.value + 1 == s.connections && !s.closing)
    && (forall i :: 0 <= i < |s.pending| && s.pending[i].Answerable() ==>
          (s.fd.Some? || s.closing) && s.pending[i].epoch + 1 == s.connections)
    && (forall i :: 0 <= i < |s.inFlight| ==> s.inFlight[i].epoch < s.connections)
    && |s.sentOn| == |s.sent|
    && (forall i :: 0 <= i < |s.sent| ==> s.sent[i].epoch <= s.sentOn[i] < s.connections)
  }

  ghost predicate Inv(s: State) {
    Placed(s) && Epochs(s)
  }

  lemma {:induction false} StepKeepsEpochs(s: State, op: Op)
    requires Epochs(s)
    ensures Epochs(Step(s, op))
  {
  }

  lemma {:induction false} StepKeepsInv(s: State, op: Op)
    requires Inv(s)
    ensures Inv(Step(s, op))
  {
    StepKeepsPlaced(s, op);
    StepKeepsEpochs(s, op);
    hide Step, Placed, Epochs;
  }

  lemma {:induction false} RunKeepsInv(s: State, ops: seq<Op>)
    requires Inv(s)
    ensures Inv(Run(s, ops))
    decreases |ops|
  {
    hide Inv, Step;
    if |ops| > 0 {
      StepKeepsInv(s, ops[0]);
      RunKeepsInv(Step(s, ops[0]), ops[1..]);
    }
  }

  // ----- what was read

  /** The j-th step of the run read the request: its token, on its connection, after as many others as its id says. */
  ghost predicate ReadAt(s0: State, ops: seq<Op>, j: nat, r: Request) {
    && j < |ops| && ops[j] == Read(r.token)
    && var b := Run(s0, ops[..j]); b.fd == Some(r.epoch) && |b.issued| == r.id
  }

  /** Every request that is not local was read. */
  ghost predicate AllRead(s0: State, ops: seq<Op>) {
    var s := Run(s0, ops);
    forall i :: 0 <= i < |s.issued| && !s.issued[i].local ==> exists j: nat :: ReadAt(s0, ops, j, s.issued[i])
  }

  lemma {:induction false} RunLast(s: State, ops: seq<Op>, op: Op)
    ensures Run(s, ops + [op]) == Step(Run(s, ops), op)
    decreases |ops|
  {
    hide Step;
    if |ops| == 0 {
      assert ops + [op] == [op] && [op][1..] == [];
    } else {
      assert (ops + [op])[1..] == ops[1..] + [op];
      RunLast(Step(s, ops[0]), ops[1..], op);
    }
  }

  /** Requests are only ever added, at most one by each step. */
  lemma {:induction false} StepIssues(s: State, op: Op)
    requires forall i :: 0 <= i < |s.issued| ==> s.issued[i].id == i
    ensures var t := Step(s, op);
            if op.Read? && s.fd.Some?
            then t.issued == s.issued + [Request(|s.issued|, op.token, s.fd.value, false, false)]
            else if op.IssueLocal?
            then |t.issued| == |s.issued| + 1 && t.issued[..|s.issued|] == s.issued && t.issued[|s.issued|].local
            else t.issued == s.issued
  {
  }

  lemma {:induction false} ReadAtMore(s0: State, ops: seq<Op>, op: Op, j: nat, r: Request)
    requires ReadAt(s0, ops, j, r)
    ensures ReadAt(s0, ops + [op], j, r)
  {
    assert (ops + [op])[..j] == ops[..j];
  }

  lemma {:induction false} ReadsFound(s0: State, ops: seq<Op>)
    requires Inv(s0) && |s0.issued| == 0
    ensures AllRead(s0, ops)
    decreases |ops|
  {
    if |ops| > 0 {
      var n := |ops| - 1;
      var init, op := ops[..n], ops[n];
      assert ops == init + [op];
      ReadsFound(s0, init);
      RunLast(s0, init, op);
      RunKeepsInv(s0, init);
      var b, t := Run(s0, init), Run(s0, ops);
      StepIssues(b, op);
      hide Inv, Run, Step;
      forall i | 0 <= i < |t.issued| && !t.issued[i].local ensures exists j: nat :: ReadAt(s0, ops, j, t.issued[i]) {
        if i < |b.issued| {
          assert t.issued[i] == b.issued[i];
          var j: nat :| ReadAt(s0, init, j, b.issued[i]);
          ReadAtMore(s0, init, op, j, b.issued[i]);
        } else {
          assert ReadAt(s0, ops, n, t.issued[i]);
        }
      }
    }
  }

  /** The tokens handed over by the Read steps of a run that found a connection open, in order. */
  ghost function TokensRead(s: State, ops: seq<Op>): seq<int>
    decreases |ops|
  {
    if |ops| == 0 then []
    else (if ops[0].Read? && s.fd.Some? then [ops[0].token] else []) + TokensRead(Step(s, ops[0]), ops[1..])
  }

  /** The tokens of the requests that came from the socket. */
  ghost function Tokens(q: seq<Request>): seq<int> {
    if |q| == 0 then []
    else Tokens(q[..|q| - 1]) + if q[|q| - 1].local then [] else [q[|q| - 1].token]
  }

  /** In every run the requests that came from the socket have exactly the tokens that were read, in that order. */
  lemma {:induction false} TokensAsRead(s: State, ops: seq<Op>)
    requires Inv(s)
    ensures Tokens(Run(s, ops).issued) == Tokens(s.issued) + TokensRead(s, ops)
    decreases |ops|
  {
    if |ops| > 0 {
      var t := Step(s, ops[0]);
      StepKeepsInv(s, ops[0]);
      StepIssues(s, ops[0]);
      assert |t.issued| > |s.issued| ==> t.issued[..|t.issued| - 1] == s.issued;
      hide Inv, Step;
      TokensAsRead(t, ops[1..]);
    }
  }

  /**
   In every run, every response on the wire answers a request that some step read from the connection it is
   credited to, never a local one, and carries the token that this step handed over. No request is answered
   twice, however often and however late it is completed, so no two responses go back to the same step; and
   none is written on an earlier connection than its request was read on.
   */
  lemma {:induction false} AnswersOnce(s0: State, ops: seq<Op>)
    requires Initial(s0)
    ensures var s := Run(s0, ops);
            && |s.sentOn| == |s.sent|
            && (forall i :: 0 <= i < |s.sent| ==>
                  && s.sent[i].epoch <= s.sentOn[i]
                  && exists j: nat :: ReadAt(s0, ops, j, s.sent[i]))
            && (forall i, j :: 0 <= i < j < |s.sent| ==> s.sent[i].id != s.sent[j].id)
  {
    RunKeepsInv(s0, ops);
    var s := Run(s0, ops);
    PlacedAnswers(s);
    ReadsFound(s0, ops);
    hide Run, ReadAt, Genuine;
    forall i | 0 <= i < |s.sent| ensures exists j: nat :: ReadAt(s0, ops, j, s.sent[i]) {
      assert s.sent[i] == s.issued[s.sent[i].id];
    }
  }

  lemma {:induction false} PlacedAnswers(s: State)
    requires Placed(s)
    ensures forall i :: 0 <= i < |s.sent| ==>
              s.sent[i].id < |s.issued| && s.sent[i] == s.issued[s.sent[i].id] && !s.sent[i].local
  {
    forall i | 0 <= i < |s.sent| ensures s.sent[i].id < |s.issued| && s.sent[i] == s.issued[s.sent[i].id] {
      assert s.sent[i].Answerable() && s.sent[i].(cancelled := false) == s.sent[i];
    }
  }

  /** What an uninterrupted RIL_onRequestComplete does: nothing for a token that is not on the list. */
  function Complete(s: State, id: nat): State {
    Step(Step(s, Dequeue(id)), Write(id))
  }

  lemma {:induction false} CompleteKeepsInv(s: State, id: nat)
    requires Inv(s)
    ensures Inv(Complete(s, id)) && NoDup(s.pending)
  {
    StepKeepsInv(s, Dequeue(id));
    StepKeepsInv(Step(s, Dequeue(id)), Write(id));
  }

  lemma {:induction false} CompleteListed(s: State, k: nat)
    requires NoDup(s.pending) && k < |s.pending| && |s.inFlight| == 0
    ensures var r := s.pending[k];
            var write := r.Answerable() && s.fd.Some?;
            Complete(s, r.id) == s.(pending := Without(s.pending, k),
                                    sent := if write then s.sent + [r] else s.sent,
                                    sentOn := if write then s.sentOn + [s.fd.value] else s.sentOn)
  {
    var r := s.pending[k];
    assert Find(s.pending, r.id) == k;
    var t := Step(s, Dequeue(r.id));
    if r.Answerable() {
      assert t.inFlight == [r];
      assert Find(t.inFlight, r.id) == 0;
      assert Without(t.inFlight, 0) == s.inFlight;
    } else {
      assert Find(t.inFlight, r.id) == |t.inFlight|;
    }
  }

  lemma {:induction false} CompleteUnlisted(s: State, id: nat)
    requires id !in Ids(s.pending) && |s.inFlight| == 0
    ensures Complete(s, id) == s
  {
    assert Find(s.pending, id) == |s.pending|;
    assert Find(s.inFlight, id) == |s.inFlight|;
  }

  // ----- cancelled and local requests

  ghost predicate Silent(s: State, id: nat) {
    && id < |s.issued|
    && (forall i :: 0 <= i < |s.pending| && s.pending[i].id == id ==> !s.pending[i].Answerable())
    && (forall i :: 0 <= i < |s.inFlight| ==> s.inFlight[i].id != id)
    && (forall i :: 0 <= i < |s.sent| ==> s.sent[i].id != id)
  }

  lemma {:induction false} StepKeepsSilent(s: State, op: Op, id: nat)
    requires Silent(s, id)
    ensures Silent(Step(s, op), id)
  {
  }

  lemma {:induction false} SilentForever(s: State, ops: seq<Op>, id: nat)
    requires Inv(s) && Silent(s, id)
    ensures Silent(Run(s, ops), id)
    decreases |ops|
  {
    if |ops| > 0 {
      StepKeepsSilent(s, ops[0], id);
      StepKeepsInv(s, ops[0]);
      hide Inv, Step, Silent;
      SilentForever(Step(s, ops[0]), ops[1..], id);
    }
  }

  /** A request that is cancelled or local while on the list is never answered, whatever happens later. */
  lemma {:induction false} CancelledNeverAnswered(s: State, k: nat, ops: seq<Op>)
    requires Inv(s) && k < |s.pending| && !s.pending[k].Answerable()
    ensures forall i :: 0 <= i < |Run(s, ops).sent| ==> Run(s, ops).sent[i].id != s.pending[k].id
  {
    assert s.pending[k].id in Ids(s.pending);
    assert Silent(s, s.pending[k].id);
    SilentForever(s, ops, s.pending[k].id);
  }

  // ----- no answer crosses a reconnect, exactly when nothing is in flight

  ghost predicate Clean(s: State) {
    |s.sentOn| == |s.sent| && forall i :: 0 <= i < |s.sent| ==> s.sent[i].epoch == s.sentOn[i]
  }

  ghost predicate Current(s: State) {
    forall i :: 0 <= i < |s.inFlight| ==> s.inFlight[i].epoch + 1 == s.connections
  }

  /** In this run a connection is only ever accepted while no response is in flight. */
  ghost predicate Quiet(s: State, ops: seq<Op>)
    decreases |ops|
  {
    |ops| == 0 || ((ops[0].Accept? ==> |s.inFlight| == 0) && Quiet(Step(s, ops[0]), ops[1..]))
  }

  lemma {:induction false} StepKeepsClean(s: State, op: Op)
    requires Epochs(s) && Clean(s) && Current(s)
    requires op.Accept? ==> |s.inFlight| == 0
    ensures Clean(Step(s, op)) && Current(Step(s, op))
  {
  }

  lemma {:induction false} QuietRunsAreClean(s: State, ops: seq<Op>)
    requires Inv(s) && Clean(s) && Current(s) && Quiet(s, ops)
    ensures Clean(Run(s, ops)) && Current(Run(s, ops))
    decreases |ops|
  {
    if |ops| > 0 {
      StepKeepsClean(s, ops[0]);
      StepKeepsInv(s, ops[0]);
      hide Inv, Step, Clean, Current;
      QuietRunsAreClean(Step(s, ops[0]), ops[1..]);
    }
  }

  /** Every response answers a request read on that same connection, in every run that reconnects quietly. */
  lemma {:induction false} NoAnswerCrossesReconnect(s0: State, ops: seq<Op>)
    requires Initial(s0) && Quiet(s0, ops)
    ensures Clean(Run(s0, ops))
  {
    QuietRunsAreClean(s0, ops);
  }

  ghost predicate WithoutAccept(ops: seq<Op>) {
    forall i :: 0 <= i < |ops| ==> !ops[i].Accept?
  }

  lemma {:induction false} WithoutAcceptIsQuiet(s: State, ops: seq<Op>)
    requires WithoutAccept(ops)
    ensures Quiet(s, ops)
    decreases |ops|
  {
    if |ops| > 0 { WithoutAcceptIsQuiet(Step(s, ops[0]), ops[1..]); }
  }

  /**
   The condition is exact: accepting a connection can lead to an answer crossing over to it, before
   the next accept, if and only if some response is in flight at that moment.
   */
  lemma {:induction false} CrossingIffInFlight(s: State)
    requires Inv(s) && Clean(s) && Current(s) && s.fd.None? && !s.closing
    ensures (exists ops :: WithoutAccept(ops) && !Clean(Run(Step(s, Accept), ops))) <==> |s.inFlight| > 0
  {
    var t := Step(s, Accept);
    StepKeepsInv(s, Accept);
    if |s.inFlight| > 0 {
      var ops := [Write(s.inFlight[0].id)];
      var u := Step(t, ops[0]);
      assert u.sent[|s.sent|].epoch != u.sentOn[|s.sent|];
      assert Run(t, ops) == Run(u, ops[1..]) == u;
      assert WithoutAccept(ops) && !Clean(Run(t, ops));
    } else {
      forall ops | WithoutAccept(ops) ensures Clean(Run(t, ops)) {
        WithoutAcceptIsQuiet(t, ops);
        QuietRunsAreClean(t, ops);
      }
    }
  }

  /** And such a run exists: read, complete up to the write, reconnect, write. */
  lemma {:induction false} CrossingExample(s0: State)
    requires Initial(s0)
    ensures exists ops :: !Clean(Run(s0, ops))
  {
    var s3 := Step(Step(Step(s0, Accept), Read(7)), Dequeue(0));
    assert |s3.inFlight| == 1 && s3.inFlight[0].epoch == 0 && s3.inFlight[0].id == 0;
    var s6 := Step(Step(Step(s3, CloseFd), CancelAll), Accept);
    var s7 := Step(s6, Write(0));
    assert |s7.sent| == 1 && s7.sent[0].epoch == 0 && s7.sentOn[0] == 1;
    var tail := [CloseFd, CancelAll, Accept, Write(0)];
    var ops := [Accept, Read(7), Dequeue(0)] + tail;
    Unfold(s0, ops); Unfold(Step(s0, Accept), ops[1..]); Unfold(Step(Step(s0, Accept), Read(7)), ops[2..]);
    Unfold(s3, ops[3..]); Unfold(Step(s3, CloseFd), ops[4..]); Unfold(Step(Step(s3, CloseFd), CancelAll), ops[5..]);
    Unfold(s6, ops[6..]);
    assert Run(s0, ops) == s7;
  }

  lemma {:induction false} Unfold(s: State, ops: seq<Op>)
    requires |ops| > 0
    ensures Run(s, ops) == Run(Step(s, ops[0]), ops[1..])
  {
  }
}
