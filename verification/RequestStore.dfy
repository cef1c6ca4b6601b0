/**
 The request-data store of Samsung-RIL: one list of buffers tagged with a request kind, used as a
 separate first-in first-out queue for each kind.
 */
module RequestStore {
  import opened Common
  import opened ListHead

  type Bytes = seq<int>

  datatype Entry = Entry(kind: int, data: Bytes)

  const GET_SIM_STATUS := 1

  /** The queue of one kind: what the list holds for it, oldest first. */
  function Fifo(store: seq<Entry>, kind: int): seq<Bytes> {
    if |store| == 0 then []
    else if store[0].kind == kind then [store[0].data] + Fifo(store[1..], kind)
    else Fifo(store[1..], kind)
  }

  lemma {:induction false} FifoConcat(a: seq<Entry>, b: seq<Entry>, kind: int)
    ensures Fifo(a + b, kind) == Fifo(a, kind) + Fifo(b, kind)
  {
    if |a| == 0 {
      assert a + b == b;
    } else {
      assert (a + b)[1..] == a[1..] + b;
      FifoConcat(a[1..], b, kind);
    }
  }

  lemma {:induction false} FifoOne(e: Entry, kind: int)
    ensures Fifo([e], kind) == if e.kind == kind then [e.data] else []
  {
    assert Fifo([e][1..], kind) == [];
  }

  /** Where the first entry of a kind is, the length when there is none. */
  function FindKind(store: seq<Entry>, kind: int): (k: nat)
    ensures k <= |store|
    ensures k < |store| ==> store[k].kind == kind
    ensures forall i :: 0 <= i < k ==> store[i].kind != kind
  {
    FindFirst(store, (x: Entry) => x.kind == kind)
  }

  lemma {:induction false} FifoHead(store: seq<Entry>, kind: int)
    ensures var k := FindKind(store, kind);
            if k == |store| then |Fifo(store, kind)| == 0
            else |Fifo(store, kind)| > 0 && Fifo(store, kind)[0] == store[k].data
  {
    if |store| > 0 && store[0].kind != kind { FifoHead(store[1..], kind); }
  }

  /** Removing the first entry of a kind takes the head off its queue and leaves every other queue alone. */
  lemma {:induction false} FifoPop(store: seq<Entry>, kind: int, other: int)
    requires FindKind(store, kind) < |store|
    ensures |Fifo(store, kind)| > 0
    ensures var k := FindKind(store, kind);
            Fifo(Without(store, k), other) == if other == kind then Fifo(store, kind)[1..] else Fifo(store, other)
  {
    var k := FindKind(store, kind);
    if k == 0 {
      assert Without(store, 0) == store[1..];
    } else {
      FifoPop(store[1..], kind, other);
      var r := Without(store, k);
      assert r[0] == store[0] && r[1..] == Without(store[1..], k - 1);
    }
  }

  // ----- the operations as functions of the list

  /** `ril_request_data_set`: refuses missing or empty data. */
  function Set(store: seq<Entry>, kind: int, data: Bytes): seq<Entry> {
    if |data| == 0 then store else store + [Entry(kind, data)]
  }

  /** `ril_request_data_get`. */
  function Get(store: seq<Entry>, kind: int): (seq<Entry>, Option<Bytes>) {
    var k := FindKind(store, kind);
    if k == |store| then (store, None) else (Without(store, k), Some(store[k].data))
  }

  /** `ril_request_data_free`. */
  function Free(store: seq<Entry>, kind: int): seq<Entry>
    decreases |store|
  {
    var k := FindKind(store, kind);
    if k == |store| then store else Free(Without(store, k), kind)
  }

  /** `ril_request_data_set_uniq`. */
  function SetUniq(store: seq<Entry>, kind: int, data: Bytes): seq<Entry> {
    Set(Free(store, kind), kind, data)
  }

  /** `ril_request_data_size_get`. */
  function SizeGet(store: seq<Entry>, kind: int): nat {
    var k := FindKind(store, kind);
    if k == |store| then 0 else |store[k].data|
  }

  // ----- each of them as an operation on the queues

  lemma {:induction false} SetAppends(store: seq<Entry>, kind: int, data: Bytes, other: int)
    ensures Fifo(Set(store, kind, data), other)
         == if other == kind && |data| > 0 then Fifo(store, kind) + [data] else Fifo(store, other)
  {
    FifoConcat(store, [Entry(kind, data)], other);
    FifoOne(Entry(kind, data), other);
  }

  /** `get` pops the entry that `size_get` measured, and nothing of any other kind. */
  lemma {:induction false} GetPops(store: seq<Entry>, kind: int, other: int)
    ensures var q := Fifo(store, kind);
            && Get(store, kind).1 == (if |q| == 0 then None else Some(q[0]))
            && SizeGet(store, kind) == (if |q| == 0 then 0 else |q[0]|)
            && Fifo(Get(store, kind).0, other) == if other == kind && |q| > 0 then q[1..] else Fifo(store, other)
  {
    FifoHead(store, kind);
    if FindKind(store, kind) < |store| { FifoPop(store, kind, other); }
  }

  lemma {:induction false} FreeEmpties(store: seq<Entry>, kind: int, other: int)
    ensures Fifo(Free(store, kind), other) == if other == kind then [] else Fifo(store, other)
    decreases |store|
  {
    var k := FindKind(store, kind);
    FifoHead(store, kind);
    if k < |store| {
      FifoPop(store, kind, other);
      FreeEmpties(Without(store, k), kind, other);
    }
  }

  /** With valid data `set_uniq` leaves exactly one entry, without it none, and no other kind is touched. */
  lemma {:induction false} SetUniqReplaces(store: seq<Entry>, kind: int, data: Bytes, other: int)
    ensures Fifo(SetUniq(store, kind, data), other)
         == if other != kind then Fifo(store, other) else if |data| > 0 then [data] else []
  {
    FreeEmpties(store, kind, other);
    SetAppends(Free(store, kind), kind, data, other);
  }

  // ----- runs

  datatype Op = DoSet(kind: int, data: Bytes) | DoSetUniq(kind: int, data: Bytes) | DoGet(kind: int) |
      DoFree(kind: int) | DoFlush

  function Step(store: seq<Entry>, op: Op): seq<Entry> {
    match op
    case DoSet(kind, data) => Set(store, kind, data)
    case DoSetUniq(kind, data) => SetUniq(store, kind, data)
    case DoGet(kind) => Get(store, kind).0
    case DoFree(kind) => Free(store, kind)
    case DoFlush => []
  }

  function Run(store: seq<Entry>, ops: seq<Op>): seq<Entry>
    decreases |ops|
  {
    if |ops| == 0 then store else Run(Step(store, ops[0]), ops[1..])
  }

  /** This run stores data of the kind only through `set_uniq`. */
  ghost predicate OnlyUniq(ops: seq<Op>, kind: int) {
    forall i :: 0 <= i < |ops| && ops[i].DoSet? ==> ops[i].kind != kind
  }

  lemma {:induction false} AtMostOne(store: seq<Entry>, ops: seq<Op>, kind: int)
    requires |Fifo(store, kind)| <= 1 && OnlyUniq(ops, kind)
    ensures |Fifo(Run(store, ops), kind)| <= 1
    decreases |ops|
  {
    if |ops| > 0 {
      match ops[0] {
        case DoSet(k, data) => SetAppends(store, k, data, kind);
        case DoSetUniq(k, data) => SetUniqReplaces(store, k, data, kind);
        case DoGet(k) => GetPops(store, k, kind);
        case DoFree(k) => FreeEmpties(store, k, kind);
        case DoFlush =>
      }
      AtMostOne(Step(store, ops[0]), ops[1..], kind);
    }
  }

  /**
   SIM status is stored only through `set_uniq`, so in every run there is at most one stored status and
   the second `get` in the handler of RIL_REQUEST_GET_SIM_STATUS finds nothing left.
   */
  lemma {:induction false} SecondGetFindsNothing(ops: seq<Op>)
    requires OnlyUniq(ops, GET_SIM_STATUS)
    ensures Get(Get(Run([], ops), GET_SIM_STATUS).0, GET_SIM_STATUS).1 == None
  {
    var store := Run([], ops);
    AtMostOne([], ops, GET_SIM_STATUS);
    GetPops(store, GET_SIM_STATUS, GET_SIM_STATUS);
    GetPops(Get(store, GET_SIM_STATUS).0, GET_SIM_STATUS, GET_SIM_STATUS);
  }

  // ----- the code

  class Store {
    const list: List<Entry>

    ghost predicate Valid()
      reads list, list.nodes
    {
      list.Valid()
    }

    ghost function Entries(): seq<Entry>
      reads list
    {
      list.contents
    }

    constructor ()
      ensures Valid() && |Entries()| == 0 && fresh(list) && |list.nodes| == 0
    {
      list := new List<Entry>();
    }

    /** `ril_request_data_find_request`. */
    method FindRequest(kind: int) returns (node: Node?<Entry>, ghost k: nat)
      requires Valid()
      ensures k == FindKind(Entries(), kind) && node == At(list.nodes, k)
      ensures (node == null <==> k == |Entries()|) && |list.nodes| == |Entries()|
      ensures node != null ==> node.data == Entries()[k]
    {
      node, k := list.Find((e: Entry) => e.kind == kind);
    }

    /** `ril_request_data_set`: the entry joins the queue of its kind, if there is data. */
    method DataSet(kind: int, data: Bytes) returns (rc: int)
      requires Valid()
      modifies list, list.nodes
      ensures Valid() && Entries() == Set(old(Entries()), kind, data) && rc == if |data| == 0 then -1 else 0
      ensures Fifo(Entries(), kind) == Fifo(old(Entries()), kind) + if |data| == 0 then [] else [data]
      ensures forall i :: 0 <= i < |list.nodes| ==> list.nodes[i] in old(list.nodes) || fresh(list.nodes[i])
    {
      SetAppends(Entries(), kind, data, kind);
      if |data| == 0 {
        return -1;
      }
      list.Append(Entry(kind, data));
      rc := 0;
    }

    /** `ril_request_data_free`: searches and unlinks until nothing of the kind is found. */
    method DataFree(kind: int)
      requires Valid()
      modifies list, list.nodes
      ensures Valid() && Entries() == Free(old(Entries()), kind)
      ensures |Fifo(Entries(), kind)| == 0
      ensures forall i :: 0 <= i < |list.nodes| ==> list.nodes[i] in old(list.nodes)
    {
      FreeEmpties(Entries(), kind, kind);
      hide List.Valid, Fifo, FindKind;
      var node; ghost var k;
      node, k := FindRequest(kind);
      while node != null
        invariant Valid() && k == FindKind(Entries(), kind) && node == At(list.nodes, k)
        invariant (node == null <==> k == |Entries()|) && |list.nodes| == |Entries()|
        invariant Free(Entries(), kind) == Free(old(Entries()), kind)
        invariant forall i :: 0 <= i < |list.nodes| ==> list.nodes[i] in old(list.nodes)
        decreases |list.nodes|
      {
        list.Unlink(node, k);
        node, k := FindRequest(kind);
      }
    }

    /** `ril_request_data_set_uniq`: exactly the new entry of its kind is left. */
    method DataSetUniq(kind: int, data: Bytes) returns (rc: int)
      requires Valid()
      modifies list, list.nodes
      ensures Valid() && Entries() == SetUniq(old(Entries()), kind, data) && rc == if |data| == 0 then -1 else 0
      ensures Fifo(Entries(), kind) == if |data| == 0 then [] else [data]
      ensures forall i :: 0 <= i < |list.nodes| ==> list.nodes[i] in old(list.nodes) || fresh(list.nodes[i])
    {
      DataFree(kind);
      rc := DataSet(kind, data);
    }

    /** `ril_request_data_size_get`: the size of the oldest entry of the kind. */
    method DataSizeGet(kind: int) returns (size: nat)
      requires Valid()
      ensures var q := Fifo(Entries(), kind); size == if |q| == 0 then 0 else |q[0]|
      ensures size == SizeGet(Entries(), kind)
    {
      GetPops(Entries(), kind, kind);
      var node; ghost var k;
      node, k := FindRequest(kind);
      size := if node == null then 0 else |node.data.data|;
    }

    /** `ril_request_data_get`: the oldest entry of the kind is unlinked and its data handed over. */
    method DataGet(kind: int) returns (data: Option<Bytes>)
      requires Valid()
      modifies list, list.nodes
      ensures Valid() && (Entries(), data) == Get(old(Entries()), kind)
      ensures var q := Fifo(old(Entries()), kind);
              if |q| == 0 then data == None else data == Some(q[0]) && Fifo(Entries(), kind) == q[1..]
      ensures forall i :: 0 <= i < |list.nodes| ==> list.nodes[i] in old(list.nodes)
    {
      GetPops(Entries(), kind, kind);
      var node; ghost var k;
      node, k := FindRequest(kind);
      if node == null {
        return None;
      }
      data := Some(node.data.data);
      list.Unlink(node, k);
    }

    /** `ril_request_data_flush`. */
    method DataFlush()
      requires Valid()
      modifies list, list.nodes
      ensures Valid() && |Entries()| == 0 && |list.nodes| == 0
    {
      list.Flush();
    }

    /**
     The stored-status branch of `ril_request_get_sim_status`. `status` is what the request is completed
     with, None when the modem has to be asked instead.
     */
    method GetSimStatus(statusSize: nat) returns (status: Option<Bytes>)
      requires Valid() && |Fifo(Entries(), GET_SIM_STATUS)| <= 1
      modifies list, list.nodes
      ensures Valid() && |Fifo(Entries(), GET_SIM_STATUS)| == 0
      ensures forall kind :: kind != GET_SIM_STATUS ==> Fifo(Entries(), kind) == Fifo(old(Entries()), kind)
      ensures var q := Fifo(old(Entries()), GET_SIM_STATUS);
              status == if |q| > 0 && |q[0]| >= statusSize then Some(q[0]) else None
    {
      ghost var before := Entries();
      var size := DataSizeGet(GET_SIM_STATUS);
      status := DataGet(GET_SIM_STATUS);
      ghost var between := Entries();
      if status.Some? && size >= statusSize {
        var ignored := DataGet(GET_SIM_STATUS);
      } else {
        status := None;
      }
      ghost var after := Entries();
      forall kind ensures Fifo(after, kind) == if kind == GET_SIM_STATUS then [] else Fifo(before, kind) {
        GetPops(before, GET_SIM_STATUS, kind);
        GetPops(between, GET_SIM_STATUS, kind);
        GetPops(between, GET_SIM_STATUS, GET_SIM_STATUS);
      }
    }
  }
}
