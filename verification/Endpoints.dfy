/**
 Dynamic endpoints: the slot array, the stack's own table of live ids, and the id cursor
 that wraps from 65535 to the first dynamic id.
 */
module Endpoints {
  import opened Options
  import opened Devices

  // ---------------------------------------------------------------- the cursor

  /** The id `k` places after `start` in the cycle from `first` to 65535. */
  function Ahead(first: int, start: int, k: nat): int
    requires 0 <= first <= start <= 65535 && k < 65536 - first
  {
    if start + k <= 65535 then start + k else start + k - (65536 - first)
  }

  /** The next `k` ids in the cycle. */
  function Visited(first: int, start: int, k: nat): (s: set<int>)
    requires 0 <= first <= start <= 65535 && k < 65536 - first
    ensures |s| == k
    ensures forall id :: id in s <==> exists j :: 0 <= j < k && id == Ahead(first, start, j)
  {
    if k == 0 then {} else
    assert Ahead(first, start, k - 1) !in Visited(first, start, k - 1);
    Visited(first, start, k - 1) + {Ahead(first, start, k - 1)}
  }

  /** If the stack calls every one of `k` ids taken, there are at least `k` live ones. */
  lemma TakenAtMostLive(first: int, start: int, k: nat, live: set<int>)
    requires 0 <= first <= start <= 65535 && k < 65536 - first
    requires forall j :: 0 <= j < k ==> Ahead(first, start, j) in live
    ensures k <= |live|
  {
    var v := Visited(first, start, k);
    assert v <= live;
    SubsetSize(v, live);
  }

  lemma {:induction false} SubsetSize<T>(a: set<T>, b: set<T>)
    requires a <= b
    ensures |a| <= |b|
  {
    if |a| > 0 {
      var x :| x in a;
      SubsetSize(a - {x}, b - {x});
    }
  }

  // ---------------------------------------------------------------- the stack's answers

  datatype Reply = Ok | Exists | Other

  /** `rejects` are the ids the stack refuses in this call for reasons of its own; an id is
      tried at most once in a call. */
  function Answer(live: set<int>, rejects: set<int>, id: int): (r: Reply)
    ensures r == Ok <==> id !in live && id !in rejects
    ensures r == Exists <==> id in live && id !in rejects
  {
    if id in rejects then Other else if id in live then Exists else Ok
  }

  /** How many ids from the cursor on are answered Exists before the first other answer. */
  function Skips(first: int, start: int, live: set<int>, rejects: set<int>, k: nat): (n: nat)
    requires 0 <= first <= start <= 65535 && k < 65536 - first && |live| < 65536 - first
    requires forall j :: 0 <= j < k ==> Answer(live, rejects, Ahead(first, start, j)) == Exists
    ensures k <= n <= |live|
    ensures forall j :: 0 <= j < n ==> Answer(live, rejects, Ahead(first, start, j)) == Exists
    ensures Answer(live, rejects, Ahead(first, start, n)) != Exists
    decreases 65536 - first - k
  {
    assert forall j :: 0 <= j < k ==> Answer(live, rejects, Ahead(first, start, j)) == Exists;
    TakenAtMostLive(first, start, k, live);
    if Answer(live, rejects, Ahead(first, start, k)) != Exists then k
    else
      assert k + 1 < 65536 - first by {
        if k + 1 == 65536 - first {
          AllTaken(first, start, k, live);
        }
      }
      Skips(first, start, live, rejects, k + 1)
  }

  /** A whole cycle of live ids would be as many as the cycle is long. */
  lemma AllTaken(first: int, start: int, k: nat, live: set<int>)
    requires 0 <= first <= start <= 65535 && k + 1 == 65536 - first
    requires forall j :: 0 <= j <= k ==> Ahead(first, start, j) in live
    ensures |live| >= k + 1
  {
    var v := Visited(first, start, k);
    var last := Ahead(first, start, k);
    assert last !in v;
    assert v + {last} <= live;
    SubsetSize(v + {last}, live);
  }

  // ---------------------------------------------------------------- the tables as values

  /** Slots and the stack's ids index by index; `ids` is the endpoint id field of every device
      that was ever offered to the stack. */
  datatype Table<!D> = Table(slots: seq<Option<D>>, stack: seq<Option<int>>, ids: map<D, int>, cursor: int, first: int)

  function Live(stack: seq<Option<int>>): set<int> {
    set i | 0 <= i < |stack| && stack[i].Some? :: stack[i].value
  }

  /** First empty slot, or the number of slots. */
  function FirstFree<D>(slots: seq<Option<D>>): (i: nat)
    ensures i <= |slots|
    ensures i < |slots| ==> slots[i].None?
    ensures forall j :: 0 <= j < i ==> slots[j].Some?
  {
    if slots == [] || slots[0].None? then 0 else 1 + FirstFree(slots[1..])
  }

  /** First slot of a device, or the number of slots. */
  function SlotOf<D(==)>(slots: seq<Option<D>>, d: D): (i: nat)
    ensures i <= |slots|
    ensures i < |slots| ==> slots[i] == Some(d)
    ensures forall j :: 0 <= j < i ==> slots[j] != Some(d)
  {
    if slots == [] || slots[0] == Some(d) then 0 else 1 + SlotOf(slots[1..], d)
  }

  /** Live ids are distinct and dynamic, a slot is occupied exactly when the stack has an id
      for it, and its device carries that id. */
  ghost predicate Consistent<D>(t: Table<D>) {
    && 0 <= t.first <= t.cursor <= 65535 && t.first + |t.slots| <= 65536
    && |t.stack| == |t.slots|
    && (forall i :: 0 <= i < |t.slots| ==> (t.slots[i].Some? <==> t.stack[i].Some?))
    && (forall i :: 0 <= i < |t.slots| && t.slots[i].Some? ==>
          && t.slots[i].value in t.ids && t.stack[i] == Some(t.ids[t.slots[i].value])
          && t.first <= t.ids[t.slots[i].value] <= 65535)
    && (forall i, j :: 0 <= i < j < |t.slots| && t.slots[i].Some? && t.slots[j].Some? ==>
          t.slots[i] != t.slots[j] && t.stack[i] != t.stack[j])
  }

  /** Fewer ids are live than there are slots while one is free, so the cycle has a gap. */
  lemma {:induction false} LiveBound(stack: seq<Option<int>>, free: nat)
    requires free < |stack| && stack[free].None?
    ensures |Live(stack)| < |stack|
  {
    var ids := Live(stack);
    var n := |stack|;
    LiveAtMost(stack[..free]);
    LiveAtMost(stack[free + 1..]);
    var a, b := Live(stack[..free]), Live(stack[free + 1..]);
    forall x | x in ids ensures x in a + b {
      var i :| 0 <= i < n && stack[i].Some? && stack[i].value == x;
      assert i < free ==> stack[..free][i] == stack[i];
      assert i > free ==> stack[free + 1..][i - free - 1] == stack[i];
    }
    SubsetSize(ids, a + b);
  }

  lemma {:induction false} LiveAtMost(stack: seq<Option<int>>)
    ensures |Live(stack)| <= |stack|
  {
    if stack != [] {
      var m := |stack| - 1;
      var rest := stack[..m];
      LiveAtMost(rest);
      var last := if stack[m].Some? then {stack[m].value} else {};
      forall x | x in Live(stack) ensures x in Live(rest) + last {
        var i :| 0 <= i < |stack| && stack[i].Some? && stack[i].value == x;
        assert i < m ==> rest[i] == stack[i];
      }
      SubsetSize(Live(stack), Live(rest) + last);
    }
  }

  // ---------------------------------------------------------------- adding and removing

  /** Where the cursor ends when a device is offered to a free slot. */
  function Landing<D>(t: Table<D>, rejects: set<int>): (id: int)
    requires Consistent(t) && FirstFree(t.slots) < |t.slots|
    ensures t.first <= id <= 65535
    ensures Answer(Live(t.stack), rejects, id) != Exists
  {
    LiveBound(t.stack, FirstFree(t.slots));
    Ahead(t.first, t.cursor, Skips(t.first, t.cursor, Live(t.stack), rejects, 0))
  }

  /** AddDeviceEndpoint: the tables afterwards and the slot, or -1. */
  function Add<D>(t: Table<D>, d: D, rejects: set<int>): (Table<D>, int)
    requires Consistent(t)
  {
    var i: int := FirstFree(t.slots);
    if i == |t.slots| then (t, -1) else
    var id := Landing(t, rejects);
    var offered := t.(cursor := id, ids := t.ids[d := id]);
    if id in rejects then (offered, -1)
    else (offered.(slots := t.slots[i := Some(d)], stack := t.stack[i := Some(id)]), i)
  }

  /** RemoveDeviceEndpoint. */
  function Remove<D(==)>(t: Table<D>, d: D): (Table<D>, int)
    requires |t.stack| == |t.slots|
  {
    var i: int := SlotOf(t.slots, d);
    if i == |t.slots| then (t, -1)
    else (t.(slots := t.slots[i := None], stack := t.stack[i := None]), i)
  }

  predicate Present<D(==)>(t: Table<D>, d: D) {
    Some(d) in t.slots
  }

  /** Adding an absent device keeps the tables consistent; a failed add leaves slots and stack
      alone; a successful one takes the first free slot under the first id, in cyclic order
      from the cursor, that the stack does not call taken. */
  lemma AddKeepsConsistent<D>(t: Table<D>, d: D, rejects: set<int>)
    requires Consistent(t) && !Present(t, d)
    ensures var (u, i) := Add(t, d, rejects);
            && Consistent(u) && u.first == t.first && |u.slots| == |t.slots|
            && (i < 0 ==> u.slots == t.slots && u.stack == t.stack)
            && (i >= 0 ==> i == FirstFree(t.slots) && u.ids[d] == u.cursor && u.cursor !in Live(t.stack) + rejects
                           && u.slots == t.slots[i := Some(d)] && u.stack == t.stack[i := Some(u.cursor)])
  {
    var (u, i) := Add(t, d, rejects);
    if FirstFree(t.slots) < |t.slots| {
      var id := Landing(t, rejects);
      forall j | 0 <= j < |t.slots| && t.slots[j].Some? ensures t.slots[j].value != d && (i >= 0 ==> t.stack[j].value != id) {
        assert t.slots[j] in t.slots;
        assert t.stack[j].value in Live(t.stack);
      }
    }
  }

  lemma RemoveKeepsConsistent<D>(t: Table<D>, d: D)
    requires Consistent(t)
    ensures var (u, i) := Remove(t, d);
            && Consistent(u) && !Present(u, d)
            && (i >= 0 <==> Present(t, d))
            && (i >= 0 ==> u.slots == t.slots[i := None] && u.stack == t.stack[i := None])
            && u.first == t.first && |u.slots| == |t.slots|
  {
    var (u, i) := Remove(t, d);
    if Present(t, d) {
      var k :| 0 <= k < |t.slots| && t.slots[k] == Some(d);
      assert i == k;
    }
  }

  /** Devices come and go; a device is added only when it is absent. */
  datatype Op<D> = AddOp(device: D, rejects: set<int>) | RemoveOp(device: D)

  ghost function Apply<D>(t: Table<D>, op: Op<D>): (u: Table<D>)
    requires Consistent(t)
    ensures Consistent(u) && u.first == t.first && |u.slots| == |t.slots|
  {
    match op
    case AddOp(d, rejects) =>
      if Present(t, d) then t else
      AddKeepsConsistent(t, d, rejects);
      Add(t, d, rejects).0
    case RemoveOp(d) =>
      RemoveKeepsConsistent(t, d);
      Remove(t, d).0
  }

  ghost function ApplyAll<D>(t: Table<D>, ops: seq<Op<D>>): Table<D>
    requires Consistent(t)
    decreases |ops|
  {
    if ops == [] then t else ApplyAll(Apply(t, ops[0]), ops[1..])
  }

  lemma {:induction false} ApplyAllKeepsConsistent<D>(t: Table<D>, ops: seq<Op<D>>)
    requires Consistent(t)
    ensures var u := ApplyAll(t, ops);
            Consistent(u) && u.first == t.first && |u.slots| == |t.slots|
    decreases |ops|
  {
    if ops != [] {
      ApplyAllKeepsConsistent(Apply(t, ops[0]), ops[1..]);
    }
  }

  /** The tables before anything is published. */
  function Empty<D>(capacity: nat, first: int): Table<D> {
    Table(seq(capacity, _ => None), seq(capacity, _ => None), map[], first, first)
  }

  /** In every run of adds and removes, whatever the stack refuses: live ids are pairwise
      distinct and not below the first dynamic id, and the device in a slot carries the id
      the stack holds for that slot. */
  lemma RunsStayConsistent<D>(capacity: nat, first: int, ops: seq<Op<D>>, i: nat)
    requires 0 <= first && first + capacity <= 65536 && first <= 65535
    requires i < capacity
    ensures var start := Empty<D>(capacity, first);
            Consistent(start) &&
            var t := ApplyAll(start, ops);
            && |t.slots| == |t.stack| == capacity
            && (t.slots[i].Some? <==> t.stack[i].Some?)
            && (t.slots[i].Some? ==> t.slots[i].value in t.ids && t.stack[i] == Some(t.ids[t.slots[i].value])
                                     && first <= t.stack[i].value <= 65535)
            && forall j :: 0 <= j < capacity && j != i && t.stack[i].Some? && t.stack[j].Some? ==>
                 t.stack[i] != t.stack[j] && t.slots[i] != t.slots[j]
  {
    ApplyAllKeepsConsistent(Empty<D>(capacity, first), ops);
  }

  /** A removed id is free again at once, and since the cursor stays where it was, the next
      device can be given the very id that was removed. */
  lemma RemovedIdIsReused<D>(t: Table<D>, d: D, e: D)
    requires Consistent(t) && !Present(t, d) && d != e && !Present(t, e) && Add(t, d, {}).1 >= 0
    ensures var (u, i) := Add(t, d, {});
            var (v, _) := Remove(u, d);
            && Consistent(v)
            && Add(v, e, {}).1 >= 0 && Add(v, e, {}).0.ids[e] == u.ids[d]
  {
    var (u, i) := Add(t, d, {});
    AddKeepsConsistent(t, d, {});
    var (v, n) := Remove(u, d);
    RemoveKeepsConsistent(u, d);
    assert u.slots[i] == Some(d);
    assert v.slots == t.slots && v.stack == t.stack && v.cursor == u.cursor;
    assert Answer(Live(v.stack), {}, v.cursor) != Exists;
    assert Ahead(v.first, v.cursor, 0) == v.cursor;
    AddKeepsConsistent(v, e, {});
  }

  // ---------------------------------------------------------------- the tables as globals

  /** gDevices with the id cursor, and the stack's ids slot by slot. */
  class EndpointTable {
    const slots: array<Device?>
    var stack: seq<Option<int>>
    var cursor: int
    var first: int

    constructor (capacity: nat)
      ensures fresh(slots) && slots.Length == capacity && NothingLive()
    {
      slots := new Device?[capacity](_ => null);
      stack, cursor, first := seq(capacity, _ => None), 0, 0;
    }

    /** The stack has no dynamic endpoint. */
    predicate NothingLive()
      reads this
    {
      |stack| == slots.Length && forall i :: 0 <= i < |stack| ==> stack[i].None?
    }

    /** The fields are those of the value `t`. The slot index is a uint8_t, hence the bound. */
    ghost predicate Shows(t: Table<Device>)
      reads this, slots, t.ids.Keys
    {
      && |t.slots| == slots.Length <= 255
      && (forall i :: 0 <= i < slots.Length ==>
            t.slots[i] == (if slots[i] == null then None else Some(slots[i])))
      && stack == t.stack && cursor == t.cursor && first == t.first
      && (forall d :: d in t.ids ==> d.endpointId == t.ids[d])
    }

    /** Forgets every device and restarts the ids, as at the start of publishing. The stack's
        own table is not touched. */
    method Reset(first: int)
      requires NothingLive() && slots.Length <= 255 && 0 <= first <= 65535 && first + slots.Length <= 65536
      modifies this`cursor, this`first, slots
      ensures Shows(Empty(slots.Length, first))
    {
      forall i | 0 <= i < slots.Length {
        slots[i] := null;
      }
      this.first := first;
      cursor := first;
    }

    /** The stack's part: an id is recorded for the slot only when it accepts. */
    method SetDynamicEndpoint(index: nat, rejects: set<int>) returns (reply: Reply)
      requires index < |stack|
      modifies this`stack
      ensures reply == Answer(old(Live(stack)), rejects, cursor)
      ensures stack == if reply == Ok then old(stack)[index := Some(cursor)] else old(stack)
    {
      reply := Answer(Live(stack), rejects, cursor);
      if reply == Ok {
        stack := stack[index := Some(cursor)];
      }
    }

    /** Offers the device to the stack under one id after another until one is not taken. */
    method OfferIds(index: nat, dev: Device, rejects: set<int>) returns (ok: bool)
      requires 0 <= first <= cursor <= 65535 && index < |stack| && |Live(stack)| < 65536 - first
      modifies this`stack, this`cursor, dev`endpointId
      ensures first == old(first)
      ensures var id := Ahead(first, old(cursor), Skips(first, old(cursor), Live(old(stack)), rejects, 0));
              && cursor == dev.endpointId == id && ok == (id !in rejects)
              && stack == if ok then old(stack)[index := Some(id)] else old(stack)
    {
      ghost var start, live := cursor, Live(stack);
      ghost var n := Skips(first, start, live, rejects, 0);
      ghost var k := 0;
      while true
        invariant 0 <= k <= n && cursor == Ahead(first, start, k)
        invariant stack == old(stack)
        decreases n - k
      {
        dev.endpointId := cursor;
        var reply := SetDynamicEndpoint(index, rejects);
        assert k < n <==> reply == Exists;
        if reply == Ok {
          return true;
        }
        if reply != Exists {
          return false;
        }
        cursor := (cursor + 1) % 65536;
        if cursor < first {
          cursor := first;
        }
        k := k + 1;
      }
    }

    method AddDeviceEndpoint(dev: Device, rejects: set<int>, ghost t: Table<Device>) returns (index: int)
      requires Shows(t) && Consistent(t) && !Present(t, dev)
      modifies this`stack, this`cursor, slots, dev`endpointId
      ensures index == Add(t, dev, rejects).1 && Shows(Add(t, dev, rejects).0)
    {
      index := 0;
      while index < slots.Length
        invariant 0 <= index <= slots.Length
        invariant Shows(t) && forall j :: 0 <= j < index ==> slots[j] != null
      {
        if slots[index] == null {
          assert FirstFree(t.slots) == index;
          LiveBound(t.stack, index);
          slots[index] := dev;
          var ok := OfferIds(index, dev, rejects);
          if !ok {
            slots[index] := null;
            return -1;
          }
          return;
        }
        index := index + 1;
      }
      return -1;
    }

    method RemoveDeviceEndpoint(dev: Device, ghost t: Table<Device>) returns (index: int)
      requires Shows(t) && |t.stack| == |t.slots|
      modifies this`stack, slots
      ensures index == Remove(t, dev).1 && Shows(Remove(t, dev).0)
    {
      index := 0;
      while index < slots.Length
        invariant 0 <= index <= slots.Length
        invariant Shows(t) && forall j :: 0 <= j < index ==> slots[j] != dev
      {
        if slots[index] == dev {
          assert SlotOf(t.slots, dev) == index;
          stack := stack[index := None];
          slots[index] := null;
          return;
        }
        index := index + 1;
      }
      return -1;
    }

    /** Slot of a live endpoint id, or 0xFFFF. */
    method IndexFromEndpoint(endpoint: int) returns (index: nat)
      requires |stack| <= 255
      ensures index < |stack| ==> stack[index] == Some(endpoint)
      ensures index >= |stack| ==> index == 0xFFFF && Some(endpoint) !in stack
    {
      index := 0;
      while index < |stack|
        invariant index <= |stack|
        invariant forall j :: 0 <= j < index ==> stack[j] != Some(endpoint)
      {
        if stack[index] == Some(endpoint) {
          return;
        }
        index := index + 1;
      }
      index := 0xFFFF;
    }
  }
}
