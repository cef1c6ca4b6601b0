/**
 The doubly linked lists of Samsung-RIL: nodes with a data pointer, reached from a head pointer,
 linked by `list_head_alloc` and `list_head_free` and walked by the register, unregister, find and
 flush functions. All of these functions have the same loops; they are written here once, over any
 data, and the modules of the daemon keep their lists in this class. The object that a node points to
 is part of the node here, so a change of one of its fields is an update of the node.
 */
module ListHead {
  import opened Common

  class Node<T> {
    var prev: Node?<T>
    var next: Node?<T>
    var data: T

    /** `list_head_alloc`. */
    constructor (prev: Node?<T>, next: Node?<T>, data: T)
      modifies if prev == null then {} else {prev}, if next == null then {} else {next}
      ensures this.prev == prev && this.next == next && this.data == data
      ensures prev != null ==>
                prev.next == this && (prev != next ==> prev.prev == old(prev.prev)) && prev.data == old(prev.data)
      ensures next != null ==>
                next.prev == this && (prev != next ==> next.next == old(next.next)) && next.data == old(next.data)
    {
      this.data, this.prev, this.next := data, prev, next;
      new;
      if prev != null { prev.next := this; }
      if next != null { next.prev := this; }
    }
  }

  /** The node at position k, or null past either end. */
  ghost function At<T>(nodes: seq<Node<T>>, k: int): Node?<T> {
    if 0 <= k < |nodes| then nodes[k] else null
  }

  /** The links across the gap in front of position k. */
  ghost predicate Gap<T>(nodes: seq<Node<T>>, k: int)
    reads nodes`prev, nodes`next
  {
    && (At(nodes, k - 1) != null ==> At(nodes, k - 1).next == At(nodes, k))
    && (At(nodes, k) != null ==> At(nodes, k).prev == At(nodes, k - 1))
  }

  class List<T> {
    var head: Node?<T>
    ghost var nodes: seq<Node<T>>
    ghost var contents: seq<T>

    ghost predicate Linked()
      reads this`head, this`nodes, nodes`prev, nodes`next
    {
      && head == At(nodes, 0)
      && (forall i, j :: 0 <= i < j < |nodes| ==> nodes[i] != nodes[j])
      && (forall k {:trigger Gap(nodes, k)} :: 0 <= k <= |nodes| ==> Gap(nodes, k))
    }

    ghost predicate Valid()
      reads this, nodes
    {
      Linked() && |contents| == |nodes| && forall i :: 0 <= i < |nodes| ==> nodes[i].data == contents[i]
    }

    constructor ()
      ensures Valid() && |contents| == 0 && |nodes| == 0
    {
      head, nodes, contents := null, [], [];
    }

    /** The walk to the last node. */
    method Last() returns (end: Node?<T>)
      requires Linked()
      ensures end == At(nodes, |nodes| - 1)
    {
      end := head;
      ghost var k := 0;
      while end != null && end.next != null
        invariant |nodes| == 0 ==> end == null
        invariant |nodes| > 0 ==> k < |nodes| && end == nodes[k]
        decreases |nodes| - k
      {
        assert Gap(nodes, k + 1);
        end, k := end.next, k + 1;
      }
      assert |nodes| > 0 ==> Gap(nodes, k + 1);
    }

    /** The register functions: a new entry goes to the end. */
    method Append(data: T)
      requires Valid()
      modifies this, nodes
      ensures Valid()
      ensures contents == old(contents) + [data]
      ensures |nodes| > 0 && nodes[..|nodes| - 1] == old(nodes) && fresh(nodes[|nodes| - 1])
    {
      var end := Last();
      assert Gap(nodes, |nodes|);
      ghost var nodes0 := nodes;
      var list := new Node<T>(end, null, data);
      if head == null {
        head := list;
      }
      nodes, contents := nodes + [list], contents + [data];
      forall k | 0 <= k <= |nodes| ensures Gap(nodes, k) {
        if k < |nodes0| { assert old(Gap(nodes, k)); }
      }
    }

    /** `list_head_free` on the node at position k, after the head pointer was moved past it. */
    method Bypass(list: Node<T>, ghost k: nat)
      requires Linked() && k < |nodes| && list == nodes[k]
      modifies this`head, this`nodes, nodes`prev, nodes`next
      ensures Linked() && nodes == Without(old(nodes), k)
    {
      assert Gap(nodes, k) && Gap(nodes, k + 1);
      if list == head {
        head := list.next;
      }
      if list.next != null {
        list.next.prev := list.prev;
      }
      if list.prev != null {
        list.prev.next := list.next;
      }
      list.prev, list.next := null, null;
      nodes := nodes[..k] + nodes[k + 1..];
      forall i | 0 <= i <= |nodes| ensures Gap(nodes, i) {
        if i < k { assert old(Gap(nodes, i)); }
        else if i > k { assert old(Gap(nodes, i + 1)); }
      }
    }

    /** The same, seen on the entries. */
    method Unlink(list: Node<T>, ghost k: nat)
      requires Valid() && k < |nodes| && list == nodes[k]
      modifies this, nodes
      ensures Valid()
      ensures contents == Without(old(contents), k) && nodes == Without(old(nodes), k)
    {
      hide Linked;
      Bypass(list, k);
      contents := Without(contents, k);
    }

    /** The find functions: the first entry that satisfies the test, with its node. */
    method Find(p: T -> bool) returns (list: Node?<T>, ghost k: nat)
      requires Valid()
      ensures k == FindFirst(contents, p) && list == At(nodes, k)
      ensures (list == null <==> k == |contents|) && |nodes| == |contents| &&
          (list != null ==> list.data == contents[k])
    {
      list, k := head, 0;
      while list != null && !p(list.data)
        invariant k <= |nodes| && list == At(nodes, k)
        invariant forall i :: 0 <= i < k ==> !p(contents[i])
        decreases |nodes| - k
      {
        assert Gap(nodes, k + 1);
        list, k := list.next, k + 1;
      }
    }

    /** The unregister functions: unlink the first entry that satisfies the test, if any. */
    method Remove(p: T -> bool)
      requires Valid()
      modifies this, nodes
      ensures Valid()
      ensures var k := FindFirst(old(contents), p);
              if k == |old(contents)| then contents == old(contents) && nodes == old(nodes)
              else contents == Without(old(contents), k) && nodes == Without(old(nodes), k)
    {
      var list; ghost var k;
      list, k := Find(p);
      if list != null {
        Unlink(list, k);
      }
    }

    /** A field of the object that the node points to is written. */
    method Update(list: Node<T>, ghost k: nat, data: T)
      requires Valid() && k < |nodes| && list == nodes[k]
      modifies this`contents, list`data
      ensures Valid()
      ensures contents == old(contents)[k := data]
    {
      list.data := data;
      contents := contents[k := data];
    }

    /** The flush functions: unlink every node, keeping the next pointer aside. */
    method Flush()
      requires Valid()
      modifies this, nodes
      ensures Valid() && |contents| == 0 && |nodes| == 0
    {
      var list := head;
      while list != null
        invariant Valid() && list == head
        invariant forall i :: 0 <= i < |nodes| ==> nodes[i] in old(nodes)
        decreases |nodes|
      {
        assert Gap(nodes, 1);
        var next := list.next;
        Unlink(list, 0);
        list := next;
      }
    }
  }
}
