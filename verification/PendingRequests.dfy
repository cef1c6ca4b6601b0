/**
 The linked list of pending requests in libril, updated in place. Every method is proved to be the
 step of CommandChannel it stands for; `st` is the state of that module which the list shows.
 */
module PendingRequests {
  import opened Common
  import opened CommandChannel

  class RequestInfo {
    const token: int
    const local: bool
    var cancelled: bool
    var pNext: RequestInfo?
    ghost const id: nat
    ghost const epoch: nat

    constructor (token: int, local: bool, pNext: RequestInfo?, ghost id: nat, ghost epoch: nat)
      ensures this.token == token && this.local == local && this.pNext == pNext && !cancelled
      ensures this.id == id && this.epoch == epoch
    {
      this.token, this.local, this.pNext, cancelled := token, local, pNext, false;
      this.id, this.epoch := id, epoch;
    }
  }

  ghost function Shown(n: RequestInfo): Request
    reads n`cancelled
  {
    Request(n.id, n.token, n.epoch, n.local, n.cancelled)
  }

  /** The node at position k, null past the end. */
  ghost function At(nodes: seq<RequestInfo>, k: nat): RequestInfo? {
    if k < |nodes| then nodes[k] else null
  }

  ghost predicate Linked(nodes: seq<RequestInfo>, k: nat)
    requires k < |nodes|
    reads nodes`pNext
  {
    nodes[k].pNext == At(nodes, k + 1)
  }

  ghost predicate Shows(nodes: seq<RequestInfo>, pending: seq<Request>)
    reads nodes`cancelled
  {
    |pending| == |nodes| && forall i :: 0 <= i < |nodes| ==> pending[i] == Shown(nodes[i])
  }

  lemma {:induction false} ShowsCons(n: RequestInfo, nodes: seq<RequestInfo>, r: Request, pending: seq<Request>)
    requires Shows(nodes, pending) && r == Shown(n)
    ensures Shows([n] + nodes, [r] + pending)
  {
  }

  lemma {:induction false} ShowsWithout(nodes: seq<RequestInfo>, pending: seq<Request>, k: nat)
    requires Shows(nodes, pending) && k < |nodes|
    ensures Shows(nodes[..k] + nodes[k + 1..], pending[..k] + pending[k + 1..])
  {
    var n := nodes[..k] + nodes[k + 1..];
    var p := pending[..k] + pending[k + 1..];
    assert |n| == |p|;
    forall i | 0 <= i < |n| ensures p[i] == Shown(n[i]) {
      var j := if i < k then i else i + 1;
      assert n[i] == nodes[j] && p[i] == pending[j];
    }
  }

  /** The first k nodes show their requests cancelled, the others as they were. */
  ghost predicate Marked(nodes: seq<RequestInfo>, pending: seq<Request>, k: nat)
    requires |nodes| == |pending|
    reads nodes`cancelled
  {
    forall i :: 0 <= i < |nodes| ==> Shown(nodes[i]) == if i < k then pending[i].(cancelled := true) else pending[i]
  }

  lemma {:induction false} MarkedNone(nodes: seq<RequestInfo>, pending: seq<Request>)
    requires Shows(nodes, pending)
    ensures |nodes| == |pending| && Marked(nodes, pending, 0)
  {
  }

  lemma {:induction false} MarkedAll(nodes: seq<RequestInfo>, pending: seq<Request>)
    requires |nodes| == |pending| && Marked(nodes, pending, |nodes|)
    ensures Shows(nodes, Cancelled(pending)) && forall i :: 0 <= i < |nodes| ==> nodes[i].cancelled
  {
  }

  class Channel {
    var pendingRequests: RequestInfo?
    var fdCommand: Option<nat>  // the connection that the descriptor denotes, None for -1
    var accepted: nat           // how many connections there have been
    ghost var nodes: seq<RequestInfo>
    ghost var st: State

    ghost predicate Chain()
      reads this`pendingRequests, this`nodes, nodes`pNext
    {
      && pendingRequests == At(nodes, 0)
      && (forall i, j :: 0 <= i < j < |nodes| ==> nodes[i] != nodes[j])
      && (forall k {:trigger Linked(nodes, k)} :: 0 <= k < |nodes| ==> Linked(nodes, k))
    }

    ghost predicate Valid()
      reads this, nodes
    {
      && Chain() && Inv(st) && st.fd == fdCommand && st.connections == accepted
      && Shows(nodes, st.pending)
    }

    constructor ()
      ensures Valid() && Initial(st)
    {
      pendingRequests, fdCommand, accepted, nodes := null, None, 0, [];
      st := State([], 0, None, false, [], [], [], []);
    }

    /** `listenCallback`, the accepting part. */
    method Accept()
      requires Valid() && fdCommand.None? && !st.closing
      modifies this
      ensures Valid() && st == Step(old(st), CommandChannel.Accept)
      ensures fdCommand == Some(old(accepted)) && accepted == old(accepted) + 1 && nodes == old(nodes)
    {
      StepKeepsInv(st, CommandChannel.Accept);
      hide Inv;
      st := Step(st, CommandChannel.Accept);
      fdCommand, accepted := Some(accepted), accepted + 1;
    }

    /** The closing part of `processCommandsCallback`. */
    method CloseCommandSocket()
      requires Valid() && fdCommand.Some?
      modifies this
      ensures Valid() && st == Step(old(st), CloseFd)
      ensures fdCommand.None? && st.closing && accepted == old(accepted) && nodes == old(nodes)
    {
      StepKeepsInv(st, CloseFd);
      hide Inv;
      st := Step(st, CloseFd);
      fdCommand := None;
    }

    /** The common part of `processCommandBuffer` and `issueLocalRequest`: the new request becomes the head. */
    method Push(token: int, local: bool, ghost op: Op) returns (pRI: RequestInfo)
      requires Valid()
      requires if local then op == IssueLocal && token == 0xffffffff else op == Read(token) && fdCommand.Some?
      modifies this
      ensures Valid() && st == Step(old(st), op) && nodes == [pRI] + old(nodes)
      ensures pRI.token == token && pRI.local == local && !pRI.cancelled
      ensures fdCommand == old(fdCommand) && accepted == old(accepted)
    {
      StepKeepsInv(st, op);
      hide Inv;
      ghost var r := if local then Request(|st.issued|, token, st.connections, true, false)
                     else Request(|st.issued|, token, st.fd.value, false, false);
      st := Step(st, op);
      assert st.pending == [r] + old(st.pending) && st.fd == old(st.fd) && st.connections == old(st.connections);
      hide Step;
      pRI := new RequestInfo(token, local, pendingRequests, r.id, r.epoch);
      pendingRequests := pRI;
      nodes := [pRI] + nodes;
      ShowsCons(pRI, old(nodes), r, old(st.pending));
      hide Shows;
      forall k | 0 <= k < |nodes| ensures Linked(nodes, k) {
        if k > 0 { assert old(Linked(nodes, k - 1)); }
      }
    }

    /** `processCommandBuffer`, up to the dispatch of a valid request. */
    method ProcessCommandBuffer(token: int) returns (pRI: RequestInfo)
      requires Valid() && fdCommand.Some?
      modifies this
      ensures Valid() && st == Step(old(st), Read(token)) && nodes == [pRI] + old(nodes)
      ensures pRI.token == token && !pRI.local && !pRI.cancelled
      ensures fdCommand == old(fdCommand) && accepted == old(accepted)
    {
      pRI := Push(token, false, Read(token));
    }

    /** `issueLocalRequest`. */
    method IssueLocalRequest() returns (pRI: RequestInfo)
      requires Valid()
      modifies this
      ensures Valid() && st == Step(old(st), IssueLocal) && nodes == [pRI] + old(nodes)
      ensures pRI.token == 0xffffffff && pRI.local && !pRI.cancelled
      ensures fdCommand == old(fdCommand) && accepted == old(accepted)
    {
      pRI := Push(0xffffffff, true, IssueLocal);
    }

    method Mark(cur: RequestInfo, ghost k: nat)
      requires Chain() && k < |nodes| == |st.pending| && cur == nodes[k] && Marked(nodes, st.pending, k)
      modifies cur`cancelled
      ensures Marked(nodes, st.pending, k + 1)
    {
      cur.cancelled := true;
    }

    /** The loop of `onCommandsSocketClosed`. */
    method MarkAll()
      requires Chain() && |nodes| == |st.pending| && Marked(nodes, st.pending, 0)
      modifies nodes`cancelled
      ensures Marked(nodes, st.pending, |nodes|)
    {
      hide Marked;
      var cur := pendingRequests;
      ghost var k := 0;
      while cur != null
        invariant k <= |nodes| && cur == At(nodes, k) && Marked(nodes, st.pending, k)
        decreases |nodes| - k
      {
        assert Linked(nodes, k);
        Mark(cur, k);
        cur, k := cur.pNext, k + 1;
      }
    }

    /** `onCommandsSocketClosed`. */
    method OnCommandsSocketClosed()
      requires Valid() && st.closing
      modifies this`st, nodes`cancelled
      ensures Valid() && st == Step(old(st), CancelAll) && !st.closing && nodes == old(nodes)
      ensures forall i :: 0 <= i < |nodes| ==> nodes[i].cancelled
    {
      hide Inv, Cancelled, Shows, Marked;
      ghost var after := Step(st, CancelAll);
      StepKeepsInv(st, CancelAll);
      assert after == st.(pending := Cancelled(st.pending), closing := false);
      hide Step;
      MarkedNone(nodes, st.pending);
      MarkAll();
      MarkedAll(nodes, st.pending);
      st := after;
    }

    /**
     `checkAndDequeueRequestInfo`: `prev` is the node whose `p_next` the pointer to a pointer stands on,
     null when it stands on the head.
     */
    method CheckAndDequeue(pRI: RequestInfo?) returns (found: bool, ghost k: nat)
      requires Valid()
      modifies this`pendingRequests, this`nodes, nodes`pNext
      ensures found <==> pRI in old(nodes)
      ensures found ==> k < |old(nodes)| && old(nodes)[k] == pRI && nodes == old(nodes)[..k] + old(nodes)[k + 1..]
      ensures !found ==> nodes == old(nodes)
      ensures Chain()
    {
      hide Inv;
      found, k := false, 0;
      if pRI == null {
        return;
      }
      var prev: RequestInfo? := null;
      var cur := pendingRequests;
      while cur != null
        invariant Chain() && nodes == old(nodes)
        invariant k <= |nodes| && cur == At(nodes, k) && prev == if k == 0 then null else nodes[k - 1]
        invariant pRI !in nodes[..k]
        decreases |nodes| - k
      {
        assert Linked(nodes, k);
        if pRI == cur {
          found := true;
          Bypass(prev, cur, k);
          return;
        }
        prev, cur, k := cur, cur.pNext, k + 1;
      }
    }

    /** The assignment through the pointer to a pointer. */
    method Bypass(prev: RequestInfo?, cur: RequestInfo, ghost k: nat)
      requires Chain() && k < |nodes| && cur == nodes[k] && prev == if k == 0 then null else nodes[k - 1]
      modifies this`pendingRequests, this`nodes, nodes`pNext
      ensures Chain() && nodes == old(nodes)[..k] + old(nodes)[k + 1..]
    {
      assert Linked(nodes, k);
      if prev == null {
        pendingRequests := cur.pNext;
      } else {
        prev.pNext := cur.pNext;
      }
      nodes := nodes[..k] + nodes[k + 1..];
      forall i | 0 <= i < |nodes| ensures Linked(nodes, i) {
        if i < k - 1 { assert old(Linked(nodes, i)); }
        else if i >= k { assert old(Linked(nodes, i + 1)); }
      }
    }

    /**
     `RIL_onRequestComplete` without interruption. A token that is not on the list is ignored; `answer`
     is the response written on the open connection.
     */
    method OnRequestComplete(pRI: RequestInfo?) returns (answer: Option<RequestInfo>)
      requires Valid() && |st.inFlight| == 0
      requires pRI != null ==> forall i :: 0 <= i < |nodes| && nodes[i].id == pRI.id ==> nodes[i] == pRI
      modifies this, nodes`pNext
      ensures Valid() && |st.inFlight| == 0
      ensures pRI == null ==> st == old(st)
      ensures pRI != null ==> st == Complete(old(st), pRI.id)
      ensures answer.Some? <==> pRI != null && pRI in old(nodes) && !pRI.local && !old(pRI.cancelled) && fdCommand.Some?
      ensures answer.Some? ==> answer.value == pRI && st.sent == old(st.sent) + [old(Shown(pRI))]
      ensures answer.None? ==> st.sent == old(st.sent)
    {
      hide Inv, Step, Complete, NoDup;
      answer := None;
      ghost var st0, nodes0 := st, nodes;
      var found; ghost var k;
      found, k := CheckAndDequeue(pRI);
      if pRI == null {
        return;
      }
      CompleteKeepsInv(st0, pRI.id);
      if found {
        assert st0.pending[k] == Shown(pRI);
        CompleteListed(st0, k);
        ShowsWithout(nodes0, st0.pending, k);
        hide Shows;
        st := Complete(st, pRI.id);
        if !pRI.local && !pRI.cancelled && fdCommand.Some? {
          answer := Some(pRI);
        }
      } else {
        assert pRI.id !in Ids(st0.pending);
        CompleteUnlisted(st0, pRI.id);
      }
    }
  }
}
