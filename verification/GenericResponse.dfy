/**
 Generic responses of the modem and the list of expectations registered for them: what is to happen
 when the response with a given sequence number arrives.
 */
module GenericResponse {
  import opened Common
  import opened ListHead

  /** What a registration asks for: run a callback, or complete the request, always or only on failure. */
  datatype Wish = Callback | CompleteAlways | CompleteOnFailure

  /** `serial` stands for the address of the expectation. */
  datatype Expect = Expect(serial: nat, aseq: int, command: int, wish: Wish)

  /** What `ipc_gen_phone_res` does with a response: the return code is -1 only for a mismatch or a failing callback. */
  datatype Outcome = Ignored | Mismatch | Called | Completed(ok: bool) | Nothing

  function FindAseq(q: seq<Expect>, aseq: int): (k: nat)
    ensures k <= |q| && (k < |q| ==> q[k].aseq == aseq)
    ensures forall i :: 0 <= i < k ==> q[i].aseq != aseq
  {
    FindFirst(q, (x: Expect) => x.aseq == aseq)
  }

  function FindSerial(q: seq<Expect>, serial: nat): (k: nat)
    ensures k <= |q| && (k < |q| ==> q[k].serial == serial)
    ensures forall i :: 0 <= i < k ==> q[i].serial != serial
  {
    FindFirst(q, (x: Expect) => x.serial == serial)
  }

  /** `ipc_gen_phone_res_expect_unregister`: by address, not by number. */
  function Unregister(q: seq<Expect>, serial: nat): seq<Expect> {
    var k := FindSerial(q, serial);
    if k == |q| then q else Without(q, k)
  }

  function Decide(e: Expect, command: int, ok: bool): Outcome {
    if e.command != command then Mismatch
    else match e.wish
      case Callback => Called
      case CompleteAlways => Completed(ok)
      case CompleteOnFailure => if ok then Nothing else Completed(false)
  }

  function Respond(q: seq<Expect>, aseq: int, command: int, ok: bool): Outcome {
    var k := FindAseq(q, aseq);
    if k == |q| then Ignored else Decide(q[k], command, ok)
  }

  /**
   The list after `ipc_gen_phone_res`, where `added` is what the callback registered while it ran: the
   expectation found at the start is unregistered at the end.
   */
  function AfterResponse(q: seq<Expect>, aseq: int, command: int, added: seq<Expect>): seq<Expect> {
    var k := FindAseq(q, aseq);
    if k == |q| then q
    else Unregister(q + if Decide(q[k], command, true).Called? then added else [], q[k].serial)
  }

  ghost predicate DistinctSerials(q: seq<Expect>) {
    forall i, j :: 0 <= i < j < |q| ==> q[i].serial != q[j].serial
  }

  lemma {:induction false} SerialFound(q: seq<Expect>, k: nat)
    requires DistinctSerials(q) && k < |q|
    ensures FindSerial(q, q[k].serial) == k
  {
    var m := FindSerial(q, q[k].serial);
    assert m <= k;
  }

  /**
   A response consumes exactly the oldest expectation with its number. All others stay, in their order,
   and so does everything the callback registered, even under the same number and for the same command.
   */
  lemma {:induction false} ConsumesExactlyOldest(q: seq<Expect>, aseq: int, command: int, added: seq<Expect>)
    requires DistinctSerials(q + added) && FindAseq(q, aseq) < |q|
    ensures var k := FindAseq(q, aseq);
            AfterResponse(q, aseq, command, added)
              == Without(q, k) + if q[k].command == command && q[k].wish.Callback? then added else []
  {
    var k := FindAseq(q, aseq);
    var extra := if q[k].command == command && q[k].wish.Callback? then added else [];
    var all := q + extra;
    assert forall i :: 0 <= i < |all| ==> all[i] == (q + added)[i];
    assert DistinctSerials(all);
    SerialFound(all, k);
    assert Without(all, k) == Without(q, k) + extra;
    hide DistinctSerials;
  }

  /** A second response with the same number meets the next oldest expectation, or none. */
  lemma {:induction false} SecondResponse(q: seq<Expect>, aseq: int, command: int)
    requires DistinctSerials(q) && FindAseq(q, aseq) < |q|
    ensures var k, r := FindAseq(q, aseq), AfterResponse(q, aseq, command, []);
            FindAseq(r, aseq) == k + FindAseq(q[k + 1..], aseq)
  {
    hide DistinctSerials, AfterResponse;
    var k := FindAseq(q, aseq);
    assert q + [] == q;
    ConsumesExactlyOldest(q, aseq, command, []);
    var r := Without(q, k);
    assert AfterResponse(q, aseq, command, []) == r + [] == r;
    assert forall i :: 0 <= i < k ==> q[i].aseq != aseq;
    hide FindAseq;
    assert r[k..] == q[k + 1..];
    SkipFront(r, aseq, k);
  }

  lemma {:induction false} SkipFront(q: seq<Expect>, aseq: int, k: nat)
    requires k <= |q| && forall i :: 0 <= i < k ==> q[i].aseq != aseq
    ensures FindAseq(q, aseq) == k + FindAseq(q[k..], aseq)
    decreases k
  {
    if k > 0 {
      SkipFront(q[1..], aseq, k - 1);
      assert q[1..][k - 1..] == q[k..];
    } else {
      assert q[0..] == q;
    }
  }

  // ----- the code

  class Expectations {
    const list: List<Expect>
    var next: nat                // stands for the address of the next allocation

    ghost predicate Valid()
      reads this, list, list.nodes
    {
      list.Valid() && Named(list.contents, next)
    }

    ghost function Expects(): seq<Expect>
      reads list
    {
      list.contents
    }

    constructor ()
      ensures Valid() && |Expects()| == 0 && next == 0 && fresh(list) && |list.nodes| == 0
    {
      list := new List<Expect>();
      next := 0;
    }

    /** `ipc_gen_phone_res_expect_register`: appended, with an identity that no listed expectation has. */
    method Register(aseq: int, command: int, wish: Wish)
      requires Valid()
      modifies this, list, list.nodes
      ensures Valid() && next == old(next) + 1
      ensures Expects() == old(Expects()) + [Expect(old(next), aseq, command, wish)]
      ensures forall i :: 0 <= i < |list.nodes| ==> list.nodes[i] in old(list.nodes) || fresh(list.nodes[i])
    {
      NamedMore(Expects(), next, Expect(next, aseq, command, wish));
      hide List.Valid, Named;
      list.Append(Expect(next, aseq, command, wish));
      next := next + 1;
    }

    /** `ipc_gen_phone_res_expect_find_aseq`. */
    method Find(aseq: int) returns (node: Node?<Expect>, ghost k: nat)
      requires Valid()
      ensures k == FindAseq(Expects(), aseq)
      ensures (node == null <==> k == |Expects()|) && (node != null ==> node.data == Expects()[k])
    {
      node, k := list.Find((e: Expect) => e.aseq == aseq);
    }

    /** `ipc_gen_phone_res_expect_unregister`. */
    method Remove(serial: nat)
      requires Valid()
      modifies list, list.nodes
      ensures Valid() && Expects() == Unregister(old(Expects()), serial)
      ensures forall i :: 0 <= i < |list.nodes| ==> list.nodes[i] in old(list.nodes)
    {
      ghost var k := FindSerial(Expects(), serial);
      if k < |Expects()| { NamedWithout(Expects(), next, k); }
      hide List.Valid, Named;
      list.Remove((e: Expect) => e.serial == serial);
    }

    /** `ipc_gen_phone_res_expect_flush`. */
    method Flush()
      requires Valid()
      modifies list, list.nodes
      ensures Valid() && |Expects()| == 0 && |list.nodes| == 0
    {
      list.Flush();
    }

    /** What a callback registers while it runs. */
    method RegisterAll(aseq: int, again: seq<(int, Wish)>, ghost added: seq<Expect>)
      requires Valid() && |added| == |again|
      requires forall i :: 0 <= i < |again| ==> added[i] == Expect(next + i, aseq, again[i].0, again[i].1)
      modifies this, list, list.nodes
      ensures Valid() && Expects() == old(Expects()) + added
      ensures forall i :: 0 <= i < |list.nodes| ==> list.nodes[i] in old(list.nodes) || fresh(list.nodes[i])
    {
      hide List.Valid, Named;
      for i := 0 to |again|
        invariant Valid() && next == old(next) + i
        invariant Expects() == old(Expects()) + added[..i]
        invariant forall j :: 0 <= j < |list.nodes| ==> list.nodes[j] in old(list.nodes) || fresh(list.nodes[j])
      {
        Register(aseq, again[i].0, again[i].1);
        assert added[..i + 1] == added[..i] + [added[i]];
      }
      assert added[..|again|] == added;
    }

    /**
     `ipc_gen_phone_res`; `again` are the registrations that the callback makes when it runs. Exactly the
     oldest expectation of the number goes, and everything the callback registered stays. The request is
     to be completed exactly when the outcome says so.
     */
    method PhoneRes(aseq: int, command: int, ok: bool, again: seq<(int, Wish)>)
      returns (outcome: Outcome, ghost added: seq<Expect>)
      requires Valid()
      modifies this, list, list.nodes
      ensures Valid()
      ensures outcome == Respond(old(Expects()), aseq, command, ok)
      ensures var q, k := old(Expects()), FindAseq(old(Expects()), aseq);
              && (outcome.Ignored? <==> k == |q|)
              && (outcome.Mismatch? <==> k < |q| && q[k].command != command)
              && (outcome.Called? <==> k < |q| && q[k].command == command && q[k].wish.Callback?)
              && (outcome == Completed(true) <==> k < |q| && q[k].command == command && q[k].wish.CompleteAlways? && ok)
              && (outcome == Completed(false) <==>
                    k < |q| && q[k].command == command && !q[k].wish.Callback? && !ok)
      ensures |added| == |again|
      ensures forall i :: 0 <= i < |again| ==>
                added[i] == Expect(old(next) + i, aseq, again[i].0, again[i].1)
      ensures var q, k := old(Expects()), FindAseq(old(Expects()), aseq);
              Expects() == if k == |q| then q else Without(q, k) + if outcome.Called? then added else []
    {
      ghost var q, next0 := Expects(), next;
      added := seq(|again|, i requires 0 <= i < |again| => Expect(next0 + i, aseq, again[i].0, again[i].1));
      Distinguished(q, added, next0);
      hide List.Valid, Named;
      var node; ghost var k;
      node, k := Find(aseq);
      if node == null {
        return Ignored, added;
      }
      ConsumesExactlyOldest(q, aseq, command, added);
      var found := node.data;
      outcome := Decide(found, command, ok);
      if outcome == Called {
        RegisterAll(aseq, again, added);
      }
      assert outcome != Called ==> q == q + [];
      Remove(found.serial);
    }
  }

  /** Identities are distinct and were given out. */
  ghost predicate Named(q: seq<Expect>, next: nat) {
    DistinctSerials(q) && forall i :: 0 <= i < |q| ==> q[i].serial < next
  }

  lemma {:induction false} NamedMore(q: seq<Expect>, next: nat, e: Expect)
    requires Named(q, next) && e.serial == next
    ensures Named(q + [e], next + 1)
  {
  }

  lemma {:induction false} NamedWithout(q: seq<Expect>, next: nat, k: nat)
    requires Named(q, next) && k < |q|
    ensures Named(Without(q, k), next)
  {
  }

  lemma {:induction false} Distinguished(q: seq<Expect>, added: seq<Expect>, next: nat)
    requires Named(q, next) && forall i :: 0 <= i < |added| ==> added[i].serial == next + i
    ensures DistinctSerials(q + added)
  {
  }
}
