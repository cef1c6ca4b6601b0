/**
 The FMT client's list of requests and the 8-bit sequence numbers that stand for their tokens on the
 wire. A number is drawn the first time a request needs one; 0xff means that none was drawn yet.
 */
module FmtNumbers {
  import opened Common
  import opened ListHead

  const NO_SEQ := 0xff
  const NO_TOKEN := 0
  const CYCLE := 254

  /** `drawn` counts the draws since the last flush up to the one that numbered this request, 0 for none. */
  datatype FmtRequest = FmtRequest(kind: int, token: int, seqno: int, drawn: nat)

  datatype Fmt = Fmt(requests: seq<FmtRequest>, seqno: int, draws: nat)

  /** The k-th number after a flush. */
  function Nth(k: nat): int {
    if k == 0 then 0 else (k - 1) % CYCLE + 1
  }

  /** `ipc_fmt_seq` on its unsigned char counter. */
  function NextSeq(seqno: int): int {
    var n := (seqno + 1) % 256;
    if n % 0xff == 0 then 1 else n
  }

  lemma NextIsNth(k: nat)
    ensures NextSeq(Nth(k)) == Nth(k + 1)
    ensures 1 <= Nth(k + 1) <= CYCLE && Nth(k + 1) != NO_SEQ
  {
    if k > 0 {
      var m := (k - 1) % CYCLE;
      assert k % CYCLE == if m == CYCLE - 1 then 0 else m + 1;
    }
  }

  /** Two draws give the same number exactly when they are a whole number of cycles apart. */
  lemma SameNumber(j: nat, k: nat)
    requires 0 < j <= k
    ensures Nth(j) == Nth(k) <==> (k - j) % CYCLE == 0
  {
    var a, b := (j - 1) / CYCLE, (k - 1) / CYCLE;
    assert j - 1 == a * CYCLE + (j - 1) % CYCLE && k - 1 == b * CYCLE + (k - 1) % CYCLE;
    if Nth(j) == Nth(k) {
      assert k - j == (b - a) * CYCLE;
    }
  }

  function FindToken(q: seq<FmtRequest>, token: int): (k: nat)
    ensures k <= |q| && (k < |q| ==> q[k].token == token)
    ensures forall i :: 0 <= i < k ==> q[i].token != token
  {
    FindFirst(q, (x: FmtRequest) => x.token == token)
  }

  function FindSeq(q: seq<FmtRequest>, seqno: int): (k: nat)
    ensures k <= |q| && (k < |q| ==> q[k].seqno == seqno)
    ensures forall i :: 0 <= i < k ==> q[i].seqno != seqno
  {
    FindFirst(q, (x: FmtRequest) => x.seqno == seqno)
  }

  /** `ipc_fmt_request_register`. */
  function Registered(f: Fmt, kind: int, token: int): Fmt {
    f.(requests := f.requests + [FmtRequest(kind, token, NO_SEQ, 0)])
  }

  /** `ipc_fmt_seq`: draws the next number. */
  function Draw(f: Fmt): Fmt {
    f.(seqno := NextSeq(f.seqno), draws := f.draws + 1)
  }

  /** `ipc_fmt_request_seq`. */
  function RequestSeq(f: Fmt, token: int): (Fmt, int) {
    var k := FindToken(f.requests, token);
    if k == |f.requests| then (f, NO_SEQ)
    else if f.requests[k].seqno != NO_SEQ then (f, f.requests[k].seqno)
    else
      var g := Draw(f);
      (g.(requests := g.requests[k := g.requests[k].(seqno := g.seqno, drawn := g.draws)]), g.seqno)
  }

  /** `ipc_fmt_request_token`. */
  function RequestToken(f: Fmt, seqno: int): int {
    var k := FindSeq(f.requests, seqno);
    if k == |f.requests| then NO_TOKEN else f.requests[k].token
  }

  /** Where the FMT client finds the entry that `ipc_fmt_request_unregister` removes. */
  function FindEntry(q: seq<FmtRequest>, kind: int, token: int): (k: nat)
    ensures k <= |q| && (k < |q| ==> q[k].kind == kind && q[k].token == token)
    ensures forall i :: 0 <= i < k ==> !(q[i].kind == kind && q[i].token == token)
  {
    FindFirst(q, (x: FmtRequest) => x.kind == kind && x.token == token)
  }

  function UnregisterEntry(f: Fmt, kind: int, token: int): Fmt {
    var k := FindEntry(f.requests, kind, token);
    if k == |f.requests| then f else f.(requests := Without(f.requests, k))
  }

  ghost predicate DistinctTokens(q: seq<FmtRequest>) {
    forall i, j :: 0 <= i < j < |q| ==> q[i].token != q[j].token
  }

  ghost predicate Numbered(q: seq<FmtRequest>, draws: nat) {
    && (forall i :: 0 <= i < |q| ==>
        q[i].drawn <= draws && q[i].seqno == if q[i].drawn == 0 then NO_SEQ else Nth(q[i].drawn))
    && (forall i, j :: 0 <= i < j < |q| && q[i].drawn > 0 ==> q[i].drawn != q[j].drawn)
  }

  /** The counter is where its draws have taken it, and every request carries the number of its own draw. */
  ghost predicate WellNumbered(f: Fmt) {
    f.seqno == Nth(f.draws) && Numbered(f.requests, f.draws) && DistinctTokens(f.requests)
  }

  lemma {:induction false} RequestSeqKeeps(f: Fmt, token: int)
    requires WellNumbered(f)
    ensures WellNumbered(RequestSeq(f, token).0)
  {
    NextIsNth(f.draws);
  }

  lemma {:induction false} DrawKeeps(f: Fmt)
    requires WellNumbered(f)
    ensures WellNumbered(Draw(f)) && Draw(f).seqno == Nth(f.draws + 1)
  {
    NextIsNth(f.draws);
  }

  lemma {:induction false} WithoutNumbered(f: Fmt, k: nat)
    requires WellNumbered(f) && k < |f.requests|
    ensures WellNumbered(f.(requests := Without(f.requests, k)))
  {
    hide Nth;
  }

  lemma {:induction false} RegisterNumbered(f: Fmt, kind: int, token: int)
    requires WellNumbered(f) && forall i :: 0 <= i < |f.requests| ==> f.requests[i].token != token
    ensures WellNumbered(Registered(f, kind, token))
  {
    hide Nth;
  }

  /** Writing the number into a request does not change where it is found. */
  lemma {:induction false} FoundAgain(q: seq<FmtRequest>, token: int, seqno: int, drawn: nat)
    requires FindToken(q, token) < |q|
    ensures var k := FindToken(q, token); FindToken(q[k := q[k].(seqno := seqno, drawn := drawn)], token) == k
  {
    var k := FindToken(q, token);
    var r := q[k := q[k].(seqno := seqno, drawn := drawn)];
    var m := FindToken(r, token);
    assert r[k].token == token;
    assert m <= k;
  }

  /** Asking again gives the same number and draws none; every number given is from 1 to 254. */
  lemma {:induction false} AskingAgainDrawsNothing(f: Fmt, token: int)
    requires WellNumbered(f) && FindToken(f.requests, token) < |f.requests|
    ensures var (g, n) := RequestSeq(f, token);
            RequestSeq(g, token) == (g, n) && 1 <= n <= CYCLE
  {
    var (g, n) := RequestSeq(f, token);
    var k := FindToken(f.requests, token);
    NextIsNth(f.draws);
    FoundAgain(f.requests, token, g.seqno, g.draws);
    var d := f.requests[k].drawn;
    if d > 0 { NextIsNth(d - 1); }
  }

  /** A request just registered gets the next number. */
  lemma {:induction false} NumberNew(q: seq<FmtRequest>, kind: int, token: int, seqno: int, draws: nat)
    requires forall i :: 0 <= i < |q| ==> q[i].token != token
    ensures RequestSeq(Registered(Fmt(q, seqno, draws), kind, token), token).0
         == Fmt(q + [FmtRequest(kind, token, NextSeq(seqno), draws + 1)], NextSeq(seqno), draws + 1)
  {
    var f := Registered(Fmt(q, seqno, draws), kind, token);
    var k := FindToken(f.requests, token);
    assert f.requests[|q|].token == token;
    assert forall i :: 0 <= i < |q| ==> f.requests[i] == q[i];
    assert k == |q|;
    var r := FmtRequest(kind, token, NextSeq(seqno), draws + 1);
    assert f.requests[|q| := r] == q + [r];
  }

  /** A live request's number is clashed by another that stands before it in the list. */
  ghost predicate Shadowed(f: Fmt, k: nat)
    requires k < |f.requests|
  {
    exists i :: 0 <= i < k && f.requests[i].drawn > 0 && (f.requests[k].drawn - f.requests[i].drawn) % CYCLE == 0
  }

  /** Number to token is the inverse of token to number exactly for the requests that are not shadowed. */
  lemma {:induction false} TokenRoundTrip(f: Fmt, k: nat)
    requires WellNumbered(f) && k < |f.requests| && f.requests[k].drawn > 0
    ensures RequestToken(f, f.requests[k].seqno) == f.requests[k].token <==> !Shadowed(f, k)
  {
    var q, n := f.requests, f.requests[k].seqno;
    NextIsNth(q[k].drawn - 1);
    var m := FindSeq(q, n);
    if m < k {
      SameNumberEither(q[m].drawn, q[k].drawn);
      assert Shadowed(f, k);
      assert q[m].token != q[k].token;
    } else {
      forall i | 0 <= i < k && q[i].drawn > 0 ensures (q[k].drawn - q[i].drawn) % CYCLE != 0 {
        SameNumberEither(q[i].drawn, q[k].drawn);
        assert q[i].seqno != n;
      }
    }
  }

  lemma SameNumberEither(j: nat, k: nat)
    requires j > 0 && k > 0
    ensures Nth(j) == Nth(k) <==> (k - j) % CYCLE == 0
  {
    if j <= k { SameNumber(j, k); } else {
      SameNumber(k, j);
      var d := j - k;
      assert (-d) % CYCLE == 0 <==> d % CYCLE == 0;
    }
  }

  /** Every live number was drawn within the last 254 draws. */
  ghost predicate Recent(f: Fmt) {
    forall i :: 0 <= i < |f.requests| && f.requests[i].drawn > 0 ==> f.requests[i].drawn + CYCLE > f.draws
  }

  lemma {:induction false} RecentDistinct(f: Fmt, i: nat, j: nat)
    requires WellNumbered(f) && Recent(f) && i < |f.requests| && j < |f.requests| && i != j
    requires f.requests[i].drawn > 0 && f.requests[j].drawn > 0
    ensures f.requests[i].seqno != f.requests[j].seqno
  {
    SameNumberEither(f.requests[i].drawn, f.requests[j].drawn);
  }

  /** Then live numbers are distinct, and token to number to token is the identity for every live request. */
  lemma {:induction false} RecentRoundTrip(f: Fmt)
    requires WellNumbered(f) && Recent(f)
    ensures forall i, j :: 0 <= i < j < |f.requests| && f.requests[i].drawn > 0 && f.requests[j].drawn > 0 ==>
              f.requests[i].seqno != f.requests[j].seqno
    ensures forall k :: 0 <= k < |f.requests| && f.requests[k].drawn > 0 ==>
              RequestToken(f, f.requests[k].seqno) == f.requests[k].token
  {
    var q := f.requests;
    assert forall k :: 0 <= k < |q| ==> q[k].seqno == if q[k].drawn == 0 then NO_SEQ else Nth(q[k].drawn);
    hide WellNumbered, Recent, Nth;
    forall i, j | 0 <= i < j < |q| && q[i].drawn > 0 && q[j].drawn > 0 ensures q[i].seqno != q[j].seqno {
      RecentDistinct(f, i, j);
    }
    forall k | 0 <= k < |q| && q[k].drawn > 0 ensures RequestToken(f, q[k].seqno) == q[k].token {
      NextIsNth(q[k].drawn - 1);
      var m := FindSeq(q, q[k].seqno);
      assert m <= k;
    }
  }

  /** After a flush the k-th number drawn is ((k - 1) mod 254) + 1: the first clash is exactly 254 draws later. */
  lemma FirstClash(k: nat)
    requires k > 0
    ensures Nth(k + CYCLE) == Nth(k)
    ensures forall j :: k < j < k + CYCLE ==> Nth(j) != Nth(k)
  {
    SameNumber(k, k + CYCLE);
    forall j | k < j < k + CYCLE ensures Nth(j) != Nth(k) {
      SameNumber(k, j);
    }
  }

  // ----- the code

  class FmtClient {
    const list: List<FmtRequest>
    var seqno: int
    var draws: nat               // how many numbers were drawn; kept for the specification

    ghost function View(): Fmt
      reads this, list
    {
      Fmt(list.contents, seqno, draws)
    }

    ghost predicate Valid()
      reads this, list, list.nodes
    {
      list.Valid() && WellNumbered(View())
    }

    constructor ()
      ensures Valid() && View() == Fmt([], 0, 0) && fresh(list) && |list.nodes| == 0
    {
      list := new List<FmtRequest>();
      seqno, draws := 0, 0;
    }

    /** `ipc_fmt_seq`: the next number, from 1 to 254. */
    method Seq() returns (n: int)
      requires Valid()
      modifies this`seqno, this`draws
      ensures Valid() && View() == Draw(old(View())) && n == seqno == Nth(draws) && 1 <= n <= CYCLE
    {
      DrawKeeps(View());
      NextIsNth(draws);
      hide List.Valid, Numbered, DistinctTokens, Nth;
      seqno := (seqno + 1) % 256;
      draws := draws + 1;
      if seqno % 0xff == 0 {
        seqno := 1;
      }
      n := seqno;
    }

    /** `ipc_fmt_request_find_token`. */
    method FindByToken(token: int) returns (node: Node?<FmtRequest>, ghost k: nat)
      requires list.Valid()
      ensures k == FindToken(list.contents, token) && node == At(list.nodes, k)
      ensures (node == null <==> k == |list.contents|) && |list.nodes| == |list.contents|
      ensures node != null ==> node.data == list.contents[k]
    {
      node, k := list.Find((r: FmtRequest) => r.token == token);
    }

    /** `ipc_fmt_request_seq`: a number is drawn and written into the request the first time only. */
    method NumberOf(token: int) returns (n: int)
      requires Valid()
      modifies this, list, list.nodes
      ensures Valid() && (View(), n) == RequestSeq(old(View()), token) && list.nodes == old(list.nodes)
      ensures FindToken(old(list.contents), token) < |old(list.contents)| ==>
          1 <= n <= CYCLE && RequestSeq(View(), token) == (View(), n)
    {
      ghost var f := View();
      RequestSeqKeeps(f, token);
      if FindToken(f.requests, token) < |f.requests| { AskingAgainDrawsNothing(f, token); }
      var node; ghost var k;
      node, k := FindByToken(token);
      hide List.Valid, Numbered, DistinctTokens, Nth;
      if node == null {
        return NO_SEQ;
      }
      if node.data.seqno == NO_SEQ {
        n := Seq();
        list.Update(node, k, node.data.(seqno := n, drawn := draws));
      } else {
        n := node.data.seqno;
      }
    }

    /** `ipc_fmt_request_token`. */
    method TokenOf(n: int) returns (token: int)
      requires Valid()
      ensures token == RequestToken(View(), n)
    {
      var node; ghost var k;
      node, k := list.Find((r: FmtRequest) => r.seqno == n);
      assert k == FindSeq(list.contents, n);
      token := if node == null then NO_TOKEN else node.data.token;
    }

    /** `ipc_fmt_request_register`, for a token that is not listed. */
    method Register(kind: int, token: int)
      requires Valid() && FindToken(list.contents, token) == |list.contents|
      modifies list, list.nodes
      ensures Valid() && View() == Registered(old(View()), kind, token)
      ensures forall i :: 0 <= i < |list.nodes| ==> list.nodes[i] in old(list.nodes) || fresh(list.nodes[i])
    {
      RegisterNumbered(View(), kind, token);
      hide List.Valid, WellNumbered;
      list.Append(FmtRequest(kind, token, NO_SEQ, 0));
    }

    /** `ipc_fmt_request_unregister`: by kind and token. */
    method Unregister(kind: int, token: int)
      requires Valid()
      modifies list, list.nodes
      ensures Valid() && View() == UnregisterEntry(old(View()), kind, token)
      ensures forall i :: 0 <= i < |list.nodes| ==> list.nodes[i] in old(list.nodes)
    {
      ghost var k := FindEntry(list.contents, kind, token);
      if k < |list.contents| { WithoutNumbered(View(), k); }
      hide List.Valid, WellNumbered;
      list.Remove((r: FmtRequest) => r.kind == kind && r.token == token);
    }

    /** `ipc_fmt_flush`: unlinks every request and starts numbering again at 1. */
    method Flush()
      requires Valid()
      modifies this, list, list.nodes
      ensures Valid() && View() == Fmt([], 0, 0) && |list.nodes| == 0
      ensures RequestSeq(Registered(View(), 0, 1), 1).1 == 1
    {
      list.Flush();
      seqno, draws := 0, 0;
    }
  }
}
