/**
 The intrusive circular doubly linked lists of the event loop, with a sentinel node each.
 A list is described by the ghost sequence of its members; `Ring` says that the links of the
 sentinel and of the members spell exactly that sequence in both directions.
 */
module EventList {
  import opened TimeVals

  class RilEvent {
    var next: RilEvent?
    var prev: RilEvent?
    var fd: int
    var index: int
    var persist: bool
    var timeout: TimeVal

    /** `ril_event_set`. The callback and its parameter are the identity of the event. */
    constructor (fd: int, persist: bool)
      ensures next == null && prev == null && index == -1
      ensures this.fd == fd && this.persist == persist && timeout == TimeVal(0, 0)
    {
      next, prev, index := null, null, -1;
      this.fd, this.persist, timeout := fd, persist, TimeVal(0, 0);
    }

    /** `init_list`: an empty ring whose sentinel has no descriptor. */
    constructor Sentinel()
      ensures Ring(this, []) && fd == -1 && index == 0
    {
      next, prev, fd, index, persist, timeout := this, this, -1, 0, false, TimeVal(0, 0);
      new;
      assert Gap(this, [], 0);
    }
  }

  /** The member at position k, where one past the last member is the sentinel. */
  ghost function Node(head: RilEvent, s: seq<RilEvent>, k: int): RilEvent
    requires 0 <= k <= |s|
  {
    if k == |s| then head else s[k]
  }

  /** The links across the gap in front of position k. */
  ghost predicate Gap(head: RilEvent, s: seq<RilEvent>, k: int)
    requires 0 <= k <= |s|
    reads head`next, head`prev, s`next, s`prev
  {
    var a, b := if k == 0 then head else s[k - 1], Node(head, s, k);
    a.next == b && b.prev == a
  }

  ghost predicate Distinct(head: RilEvent, s: seq<RilEvent>) {
    head !in s && forall i, j :: 0 <= i < j < |s| ==> s[i] != s[j]
  }

  ghost predicate Ring(head: RilEvent, s: seq<RilEvent>)
    reads head`next, head`prev, s`next, s`prev
  {
    && Distinct(head, s)
    && forall k {:trigger Gap(head, s, k)} :: 0 <= k <= |s| ==> Gap(head, s, k)
  }

  /** What the loops read off a ring: its first node, or the sentinel when it is empty. */
  lemma RingFirst(head: RilEvent, s: seq<RilEvent>)
    requires Ring(head, s)
    ensures head.next == Node(head, s, 0)
    ensures head.next == head <==> |s| == 0
  {
    assert Gap(head, s, 0);
  }

  /** What the loops read off a member: the next one, or the sentinel after the last. */
  lemma RingNext(head: RilEvent, s: seq<RilEvent>, k: nat)
    requires Ring(head, s) && k < |s|
    ensures s[k].next == Node(head, s, k + 1) && s[k] != head
  {
    assert Gap(head, s, k + 1);
  }

  /** `addToList`: links `ev` in front of `list`. */
  method AddToList(ev: RilEvent, list: RilEvent, ghost head: RilEvent, ghost s: seq<RilEvent>, ghost k: nat)
    returns (ghost r: seq<RilEvent>)
    requires Ring(head, s) && k <= |s| && list == Node(head, s, k)
    requires ev != head && ev !in s
    modifies ev`next, ev`prev, head`next, head`prev, s`next, s`prev
    ensures r == s[..k] + [ev] + s[k..]
    ensures Ring(head, r)
  {
    r := s[..k] + [ev] + s[k..];
    assert Gap(head, s, k);
    ev.next := list;
    ev.prev := list.prev;
    ev.prev.next := ev;
    list.prev := ev;
    forall i | 0 <= i <= |r| ensures Gap(head, r, i) {
      if i < k {
        assert old(Gap(head, s, i));
      } else if i > k + 1 {
        assert old(Gap(head, s, i - 1));
      }
    }
  }

  /** `removeFromList`: unlinks `ev` and clears its own links. */
  method RemoveFromList(ev: RilEvent, ghost head: RilEvent, ghost s: seq<RilEvent>, ghost k: nat)
    returns (ghost r: seq<RilEvent>)
    requires Ring(head, s) && k < |s| && ev == s[k]
    modifies head`next, head`prev, s`next, s`prev
    ensures r == s[..k] + s[k + 1..]
    ensures Ring(head, r)
    ensures ev.next == null && ev.prev == null
  {
    r := s[..k] + s[k + 1..];
    assert Gap(head, s, k) && Gap(head, s, k + 1);
    ev.next.prev := ev.prev;
    ev.prev.next := ev.next;
    ev.next := null;
    ev.prev := null;
    forall i | 0 <= i <= |r| ensures Gap(head, r, i) {
      if i < k {
        assert old(Gap(head, s, i));
      } else if i > k {
        assert old(Gap(head, s, i + 1));
      }
    }
  }

  /** Two well-formed rings with no node in common. */
  ghost predicate Apart(head: RilEvent, s: seq<RilEvent>, head': RilEvent, s': seq<RilEvent>)
    reads head`next, head`prev, s`next, s`prev, head'`next, head'`prev, s'`next, s'`prev
  {
    && Ring(head, s) && Ring(head', s')
    && head != head' && head !in s' && head' !in s
    && (forall e :: e in s ==> e !in s')
  }

  /** `addToList` next to another ring, which it does not disturb. */
  method Link(ev: RilEvent, list: RilEvent, ghost head: RilEvent, ghost s: seq<RilEvent>, ghost k: nat,
              ghost head': RilEvent, ghost s': seq<RilEvent>)
    returns (ghost r: seq<RilEvent>)
    requires Apart(head, s, head', s')
    requires k <= |s| && list == Node(head, s, k)
    requires ev != head && ev !in s && ev != head' && ev !in s'
    modifies ev`next, ev`prev, head`next, head`prev, s`next, s`prev
    ensures r == s[..k] + [ev] + s[k..]
    ensures Apart(head, r, head', s')
  {
    r := AddToList(ev, list, head, s, k);
    assert forall i :: 0 <= i < |s'| ==> s'[i] !in s && s'[i] != ev;
    forall i | 0 <= i <= |s'| ensures Gap(head', s', i) {
      assert old(Gap(head', s', i));
    }
  }

  /** `removeFromList` next to another ring, which it does not disturb. */
  method Unlink(ev: RilEvent, ghost head: RilEvent, ghost s: seq<RilEvent>,
                ghost head': RilEvent, ghost s': seq<RilEvent>)
    returns (ghost r: seq<RilEvent>)
    requires Apart(head, s, head', s')
    requires |s| > 0 && ev == s[0]
    modifies head`next, head`prev, s`next, s`prev
    ensures r == s[1..]
    ensures Apart(head, r, head', s')
    ensures ev.next == null && ev.prev == null
  {
    r := RemoveFromList(ev, head, s, 0);
    assert forall i :: 0 <= i < |s'| ==> s'[i] !in s;
    forall i | 0 <= i <= |s'| ensures Gap(head', s', i) {
      assert old(Gap(head', s', i));
    }
  }
}
