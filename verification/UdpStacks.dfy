/** The 256-slot reorder buffer of a UDP source: `UdpStack` in UdpChannel.cpp. */
module UdpStacks {
  import opened Wrappers

  const SLOTS := 256

  type Payload = seq<bv8>

  /** A slot holds a packet, or a null pointer. */
  type Slots = s: seq<Option<Payload>> | |s| == SLOTS witness Empties(SLOTS)

  function Empties(n: nat): (s: seq<Option<Payload>>)
    ensures |s| == n && forall i :: 0 <= i < n ==> s[i].None?
  {
    if n == 0 then [] else [None] + Empties(n - 1)
  }

  /** The value of a `UdpStack`: its slots, and the 8-bit counter of the packets in them. */
  datatype Stack = Stack(slots: Slots, counter: nat)

  function EmptyStack(): Stack {
    Stack(Empties(SLOTS), 0)
  }

  /** `(i + 1) % 256` on a byte. */
  function Next(i: nat): (r: nat)
    requires i < SLOTS
    ensures r < SLOTS
  {
    if i + 1 == SLOTS then 0 else i + 1
  }

  /** `i--` on a byte. */
  function Previous(i: nat): (r: nat)
    requires i < SLOTS
    ensures r < SLOTS
  {
    if i == 0 then SLOTS - 1 else i - 1
  }

  lemma {:induction false} NextIsModulo(i: nat)
    requires i < SLOTS
    ensures Next(i) == (i + 1) % SLOTS && Previous(Next(i)) == i && Next(Previous(i)) == i
  {
  }

  function Occupied(slots: seq<Option<Payload>>): nat {
    if slots == [] then 0 else (if slots[0].Some? then 1 else 0) + Occupied(slots[1..])
  }

  lemma {:induction false} OccupiedUpdate(slots: seq<Option<Payload>>, i: nat, x: Option<Payload>)
    requires i < |slots|
    ensures Occupied(slots[i := x]) + (if slots[i].Some? then 1 else 0) == Occupied(slots) + (if x.Some? then 1 else 0)
  {
    if i == 0 {
      assert slots[i := x][1..] == slots[1..];
    } else {
      assert slots[i := x][1..] == slots[1..][i - 1 := x];
      OccupiedUpdate(slots[1..], i - 1, x);
    }
  }

  lemma {:induction false} OccupiedNone(slots: seq<Option<Payload>>)
    requires forall i :: 0 <= i < |slots| ==> slots[i].None?
    ensures Occupied(slots) == 0
  {
    if slots != [] {
      OccupiedNone(slots[1..]);
    }
  }

  lemma {:induction false} OccupiedSome(slots: seq<Option<Payload>>)
    requires Occupied(slots) > 0
    ensures exists i :: 0 <= i < |slots| && slots[i].Some?
  {
    if slots[0].None? {
      OccupiedSome(slots[1..]);
      var i :| 0 <= i < |slots[1..]| && slots[1..][i].Some?;
      assert slots[i + 1].Some?;
    }
  }

  lemma {:induction false} OccupiedBound(slots: seq<Option<Payload>>)
    ensures Occupied(slots) <= |slots|
  {
    if slots != [] {
      OccupiedBound(slots[1..]);
    }
  }

  /** The counter is the number of occupied slots, in 8 bits. */
  predicate Counted(s: Stack) {
    s.counter == if Occupied(s.slots) == SLOTS then 0 else Occupied(s.slots)
  }

  function Add(s: Stack, i: nat, data: Payload): (r: Stack)
    requires i < SLOTS && s.counter < SLOTS
    ensures r.counter < SLOTS
  {
    var counter := if s.slots[i].Some? then Previous(s.counter) else s.counter;
    Stack(s.slots[i := Some(data)], Next(counter))
  }

  function Remove(s: Stack, i: nat): (r: Stack)
    requires i < SLOTS && s.counter < SLOTS
    ensures r.counter < SLOTS
  {
    Stack(s.slots[i := None], if s.slots[i].Some? then Previous(s.counter) else s.counter)
  }

  /** A packet with content is in the slot. */
  predicate HasNext(s: Stack, i: nat)
    requires i < SLOTS
  {
    s.slots[i].Some? && s.slots[i].value != []
  }

  lemma {:induction false} AddCounted(s: Stack, i: nat, data: Payload)
    requires i < SLOTS && s.counter < SLOTS && Counted(s)
    ensures Counted(Add(s, i, data))
  {
    OccupiedUpdate(s.slots, i, Some(data));
    OccupiedBound(s.slots);
    OccupiedBound(s.slots[i := Some(data)]);
  }

  lemma {:induction false} RemoveCounted(s: Stack, i: nat)
    requires i < SLOTS && s.counter < SLOTS && Counted(s)
    ensures Counted(Remove(s, i))
  {
    OccupiedUpdate(s.slots, i, None);
    OccupiedBound(s.slots);
  }

  lemma {:induction false} EmptyCounted()
    ensures Counted(EmptyStack())
  {
    OccupiedNone(EmptyStack().slots);
  }

  /** Taking out what was put into an empty slot gives the stack back. */
  lemma {:induction false} AddThenRemove(s: Stack, i: nat, data: Payload)
    requires i < SLOTS && s.counter < SLOTS && s.slots[i].None?
    ensures Remove(Add(s, i, data), i) == s
  {
    assert s.slots[i := Some(data)][i := None] == s.slots;
  }

  class UdpStack {
    var slots: Slots
    var counter: nat
    /** The sender the stack is for; no two stacks of a channel have the same. */
    ghost const owner: string

    function View(): Stack
      reads this
    {
      Stack(slots, counter)
    }

    constructor (ghost owner: string)
      ensures View() == EmptyStack() && this.owner == owner
    {
      this.owner := owner;
      slots := Empties(SLOTS);
      counter := 0;
    }

    method AddPacket(i: nat, data: Payload)
      requires i < SLOTS && counter < SLOTS
      modifies this
      ensures View() == Add(old(View()), i, data)
    {
      if slots[i].Some? {
        counter := Previous(counter);
      }
      slots := slots[i := Some(data)];
      counter := Next(counter);
    }

    method RemovePacket(i: nat) returns (data: Option<Payload>)
      requires i < SLOTS && counter < SLOTS
      modifies this
      ensures View() == Remove(old(View()), i)
      ensures data == old(slots[i])
    {
      data := slots[i];
      if data.Some? {
        counter := Previous(counter);
      }
      slots := slots[i := None];
    }

    /** `reset` empties every slot. */
    method Reset()
      modifies this
      ensures View() == EmptyStack()
    {
      var i := 0;
      while i < SLOTS
        invariant 0 <= i <= SLOTS
        invariant forall k :: 0 <= k < i ==> slots[k].None?
        invariant i > 0 ==> counter == 0
      {
        if slots[i].Some? {
          slots := slots[i := None];
        }
        counter := 0;
        i := i + 1;
      }
      assert slots == Empties(SLOTS);
    }
  }
}
