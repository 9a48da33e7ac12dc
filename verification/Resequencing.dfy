/** `UdpChannel::receive` as a function on the state of a channel, and the loop its caller runs. */
module Resequencing {
  import opened Wrappers
  import opened UdpStacks

  /** What the channel keeps per sender address: the stored counter, and the stack. */
  datatype Source = Source(count: nat, stack: Stack)

  /** A source whose counters are bytes, and whose stack is counted right. */
  predicate Tidy(s: Source) {
    s.count < SLOTS && s.stack.counter < SLOTS && Counted(s.stack)
  }

  /** Every packet buffered has content. */
  predicate Filled(s: Source) {
    forall i :: 0 <= i < SLOTS && s.stack.slots[i].Some? ==> s.stack.slots[i].value != []
  }

  predicate Sane(s: Source) {
    Tidy(s) && Filled(s)
  }

  /** The slot of a sequence number: the number modulo 256, computed without division. */
  function Slot(n: nat): (r: nat)
    ensures r < SLOTS
  {
    if n < SLOTS then n else Slot(n - SLOTS)
  }

  lemma {:induction false} SlotIsModulo(n: nat)
    ensures Slot(n) == n % SLOTS
  {
    if n >= SLOTS {
      SlotIsModulo(n - SLOTS);
    }
  }

  lemma {:induction false} SlotNext(n: nat)
    ensures Slot(n + 1) == Next(Slot(n))
  {
    if n >= SLOTS {
      SlotNext(n - SLOTS);
    }
  }

  /** Numbers less than 256 apart have different slots. */
  lemma {:induction false} SlotDistinct(a: nat, b: nat)
    requires a < b < a + SLOTS
    ensures Slot(a) != Slot(b)
  {
    if a >= SLOTS {
      SlotDistinct(a - SLOTS, b - SLOTS);
    }
  }

  /** The skip loop: from slot `i` on, the first one with a packet. `n` counts down the slots that
      are left; on a stack that holds a packet it does not run out. */
  function Skip(s: Stack, i: nat, n: nat): (r: nat)
    requires i < SLOTS
    ensures r < SLOTS
    decreases n
  {
    if n == 0 || HasNext(s, i) then i else Skip(s, Next(i), n - 1)
  }

  /** The loop meets a packet exactly when there is one: on a stack without any it would not end. */
  lemma {:induction false} SkipFinds(s: Stack, i: nat)
    requires i < SLOTS
    ensures HasNext(s, Skip(s, i, SLOTS - 1)) <==> exists k :: 0 <= k < SLOTS && HasNext(s, k)
  {
    if exists k :: 0 <= k < SLOTS && HasNext(s, k) {
      var k :| 0 <= k < SLOTS && HasNext(s, k);
      var m := if i <= k then k else k + SLOTS;
      assert Slot(k) == k && Slot(i) == i;
      assert m >= SLOTS ==> Slot(m) == Slot(m - SLOTS);
      SkipWithin(s, i, m, SLOTS - 1);
    }
  }

  lemma {:induction false} SkipWithin(s: Stack, from: nat, m: nat, n: nat)
    requires from <= m <= from + n && HasNext(s, Slot(m))
    ensures HasNext(s, Skip(s, Slot(from), n))
    decreases n
  {
    if !HasNext(s, Slot(from)) {
      SlotNext(from);
      SkipWithin(s, from + 1, m, n - 1);
    }
  }

  /** The slot found is the first one, counting numbers up, that holds a packet. */
  lemma {:induction false} SkipFirst(s: Stack, from: nat, m: nat, n: nat)
    requires from <= m <= from + n && HasNext(s, Slot(m))
    requires forall k :: from <= k < m ==> !HasNext(s, Slot(k))
    ensures Skip(s, Slot(from), n) == Slot(m)
    decreases n
  {
    if from < m {
      assert !HasNext(s, Slot(from));
      SlotNext(from);
      SkipFirst(s, from + 1, m, n - 1);
    }
  }

  /** The outcome of one call of `receive`: the source, the packet handed up (or a null pointer), and
      whether the caller must call again, which is whether `stacked_ip` stays set. */
  datatype Outcome = Outcome(source: Source, buf: Option<Payload>, again: bool)

  /** `handleStack` on one slot. */
  function TakeSlot(s: Source, i: nat): (o: Outcome)
    requires i < SLOTS && s.stack.counter < SLOTS
    ensures o.source.count == s.count && o.source.stack.counter < SLOTS
  {
    var stack := Remove(s.stack, i);
    Outcome(s.(stack := stack), s.stack.slots[i], HasNext(stack, Next(i)))
  }

  /** `receive` while the source is stacked: the slot of the stored counter is handed up, and the
      counter advances when the next slot holds a packet. */
  function ReceiveStacked(s: Source): Outcome
    requires s.count < SLOTS && s.stack.counter < SLOTS
  {
    var o := TakeSlot(s, s.count);
    if o.again then o.(source := o.source.(count := Next(s.count))) else o
  }

  /** Where a datagram numbered `nb` finds its sender: a new one starts at that number. */
  function Located(s: Source, known: bool, nb: nat): Source {
    if known then s else Source(nb, EmptyStack())
  }

  /** The number the channel wants next from a sender. */
  function Current(s: Source, known: bool, nb: nat): (r: nat)
    requires s.count < SLOTS && nb < SLOTS
    ensures r < SLOTS
  {
    if known then Next(s.count) else nb
  }

  function Stored(s: Source, nb: nat, data: Payload): (r: Source)
    requires s.stack.counter < SLOTS && nb < SLOTS
    ensures r.count == s.count && r.stack.counter < SLOTS
  {
    s.(stack := Add(s.stack, nb, data))
  }

  /** Hand up the wanted packet if it is there. The counter follows only when no packet comes after. */
  function TryCurrent(s: Source, current: nat): (o: Outcome)
    requires s.count < SLOTS && s.stack.counter < SLOTS && current < SLOTS
    ensures o.source.count < SLOTS && o.source.stack.counter < SLOTS
  {
    if HasNext(s.stack, current) then
      var o := TakeSlot(s, current);
      if o.again then o else o.(source := o.source.(count := current))
    else Outcome(s, None, false)
  }

  /** Store a datagram, hand up the wanted packet, and give up the missing ones if there are too many. */
  function Served(s: Source, current: nat, maxStack: nat, nb: nat, data: Payload): (o: Outcome)
    requires s.count < SLOTS && s.stack.counter < SLOTS && nb < SLOTS && current < SLOTS
    ensures o.source.count < SLOTS && o.source.stack.counter < SLOTS
  {
    var o := TryCurrent(Stored(s, nb, data), current);
    if o.again then o else Overflow(o, maxStack, current)
  }

  /** `receive` of a datagram numbered `nb`; `known` tells whether the sender has a counter already. */
  function ReceiveNew(s: Source, known: bool, maxStack: nat, nb: nat, data: Payload): (o: Outcome)
    requires s.count < SLOTS && s.stack.counter < SLOTS && nb < SLOTS
    ensures o.source.count < SLOTS && o.source.stack.counter < SLOTS
  {
    Served(Located(s, known, nb), Current(s, known, nb), maxStack, nb, data)
  }

  /** The check for too many packets: the missing ones are given up. */
  function Overflow(o: Outcome, maxStack: nat, current: nat): (r: Outcome)
    requires current < SLOTS && o.source.count < SLOTS && o.source.stack.counter < SLOTS
    ensures r.source.count < SLOTS && r.source.stack.counter < SLOTS
  {
    if o.source.stack.counter > maxStack then
      Outcome(o.source.(count := Skip(o.source.stack, Next(current), SLOTS - 1)), o.buf, true)
    else o
  }

  // ----- The loop of the caller -----

  /** Bounds the calls: one per packet, and one that may find an empty slot. */
  function Calls(s: Source): nat
    requires s.count < SLOTS && s.stack.counter < SLOTS
  {
    Occupied(s.stack.slots) + (if s.stack.slots[s.count].Some? then 0 else 1)
  }

  lemma {:induction false} StackedDecreases(s: Source)
    requires s.count < SLOTS && s.stack.counter < SLOTS
    ensures var o := ReceiveStacked(s);
      o.again ==> o.source.count < SLOTS && o.source.stack.counter < SLOTS && Calls(o.source) < Calls(s)
  {
    OccupiedUpdate(s.stack.slots, s.count, None);
  }

  function Packet(buf: Option<Payload>): seq<Payload> {
    if buf.Some? && buf.value != [] then [buf.value] else []
  }

  /** All calls until the source is no longer stacked: what is handed up, what is left, and how many
      calls it took. */
  function Drain(s: Source): (r: (seq<Payload>, Source, nat))
    requires s.count < SLOTS && s.stack.counter < SLOTS
    ensures r.1.count < SLOTS && r.1.stack.counter < SLOTS
    decreases Calls(s)
  {
    StackedDecreases(s);
    var o := ReceiveStacked(s);
    if o.again then
      var (rest, source, calls) := Drain(o.source);
      (Packet(o.buf) + rest, source, calls + 1)
    else (Packet(o.buf), o.source, 1)
  }

  /** A datagram and the drain after it, as `onEvent` runs them. */
  function Handle(s: Source, known: bool, maxStack: nat, nb: nat, data: Payload): (r: (seq<Payload>, Source))
    requires s.count < SLOTS && s.stack.counter < SLOTS && nb < SLOTS
    ensures r.1.count < SLOTS && r.1.stack.counter < SLOTS
  {
    var o := ReceiveNew(s, known, maxStack, nb, data);
    if o.again then
      var (rest, source, _) := Drain(o.source);
      (Packet(o.buf) + rest, source)
    else (Packet(o.buf), o.source)
  }

  /** Draining takes at most one call more than there are packets, and no more than there are when
      it starts on one. */
  lemma {:induction false} DrainCalls(s: Source)
    requires s.count < SLOTS && s.stack.counter < SLOTS
    ensures 1 <= Drain(s).2 <= Calls(s) <= Occupied(s.stack.slots) + 1
    decreases Calls(s)
  {
    StackedDecreases(s);
    OccupiedUpdate(s.stack.slots, s.count, None);
    var o := ReceiveStacked(s);
    if o.again {
      DrainCalls(o.source);
    }
  }

  /** What one call of the drain does, from what is in the slot of the counter and in the next one. */
  lemma {:induction false} DrainStep(s: Source, next: bool)
    requires s.count < SLOTS && s.stack.counter < SLOTS
    requires next == HasNext(Remove(s.stack, s.count), Next(s.count))
    ensures var buf := Packet(s.stack.slots[s.count]);
      var after := Source(if next then Next(s.count) else s.count, Remove(s.stack, s.count));
      && Drain(s).0 == buf + (if next then Drain(after).0 else [])
      && Drain(s).1 == if next then Drain(after).1 else after
  {
  }

  lemma {:induction false} HandleStep(s: Source, known: bool, maxStack: nat, nb: nat, data: Payload)
    requires s.count < SLOTS && s.stack.counter < SLOTS && nb < SLOTS
    ensures var o := ReceiveNew(s, known, maxStack, nb, data);
      && Handle(s, known, maxStack, nb, data).0 == Packet(o.buf) + (if o.again then Drain(o.source).0 else [])
      && Handle(s, known, maxStack, nb, data).1 == if o.again then Drain(o.source).1 else o.source
  {
  }

  // ----- Bounds, for arrivals of any kind -----

  lemma {:induction false} TakeTidy(s: Source, i: nat)
    requires Tidy(s) && i < SLOTS
    ensures var s' := TakeSlot(s, i).source;
      && Tidy(s') && (Filled(s) ==> Filled(s'))
      && Occupied(s'.stack.slots) + (if s.stack.slots[i].Some? then 1 else 0) == Occupied(s.stack.slots)
  {
    RemoveCounted(s.stack, i);
    OccupiedUpdate(s.stack.slots, i, None);
  }

  /** Draining adds no packet, and takes one when it starts on one. */
  lemma {:induction false} DrainBound(s: Source)
    requires Tidy(s)
    ensures Tidy(Drain(s).1) && (Filled(s) ==> Filled(Drain(s).1))
    ensures Occupied(Drain(s).1.stack.slots) + (if s.stack.slots[s.count].Some? then 1 else 0)
            <= Occupied(s.stack.slots)
    decreases Calls(s)
  {
    StackedDecreases(s);
    TakeTidy(s, s.count);
    var o := ReceiveStacked(s);
    if o.again {
      DrainBound(o.source);
    }
  }

  /** When a stack has too many packets, the skip loop finds one. */
  predicate Skippable(s: Stack, maxStack: nat) {
    s.counter > maxStack ==> exists k :: 0 <= k < SLOTS && HasNext(s, k)
  }

  /** `receive` returns: if it comes to skipping, there is a packet with content to stop at. */
  predicate Servable(s: Source, current: nat, maxStack: nat, nb: nat, data: Payload)
    requires s.count < SLOTS && s.stack.counter < SLOTS && nb < SLOTS && current < SLOTS
  {
    Skippable(TryCurrent(Stored(s, nb, data), current).source.stack, maxStack)
  }

  predicate Returns(s: Source, known: bool, maxStack: nat, nb: nat, data: Payload)
    requires s.count < SLOTS && s.stack.counter < SLOTS && nb < SLOTS
  {
    Servable(Located(s, known, nb), Current(s, known, nb), maxStack, nb, data)
  }

  /** The skip stops on a packet. */
  lemma {:induction false} OverflowTidy(s: Source, maxStack: nat, current: nat, buf: Option<Payload>)
    requires Tidy(s) && current < SLOTS && s.stack.counter > maxStack && Skippable(s.stack, maxStack)
    ensures var o := Overflow(Outcome(s, buf, false), maxStack, current);
      o.again && Tidy(o.source) && o.source.stack == s.stack && HasNext(s.stack, o.source.count)
  {
    SkipFinds(s.stack, Next(current));
  }

  lemma {:induction false} StackedTidy(s: Source)
    requires Tidy(s)
    ensures Tidy(ReceiveStacked(s).source)
  {
    TakeTidy(s, s.count);
  }

  lemma {:induction false} AddTidy(s: Source, nb: nat, data: Payload)
    requires Tidy(s) && nb < SLOTS
    ensures Tidy(Stored(s, nb, data)) && (Filled(s) && data != [] ==> Filled(Stored(s, nb, data)))
    ensures Occupied(Stored(s, nb, data).stack.slots) <= Occupied(s.stack.slots) + 1
    ensures Stored(s, nb, data).stack.slots[nb].Some?
  {
    AddCounted(s.stack, nb, data);
    OccupiedUpdate(s.stack.slots, nb, Some(data));
  }

  lemma {:induction false} TryTidy(s: Source, current: nat)
    requires Tidy(s) && current < SLOTS
    ensures Tidy(TryCurrent(s, current).source) && (Filled(s) ==> Filled(TryCurrent(s, current).source))
    ensures Occupied(TryCurrent(s, current).source.stack.slots) + (if HasNext(s.stack, current) then 1 else 0)
            <= Occupied(s.stack.slots)
  {
    TakeTidy(s, current);
  }

  lemma {:induction false} LocatedTidy(s: Source, known: bool, nb: nat)
    requires Tidy(s) && nb < SLOTS
    ensures Tidy(Located(s, known, nb)) && (Filled(s) ==> Filled(Located(s, known, nb)))
    ensures !known ==> Occupied(Located(s, known, nb).stack.slots) == 0
  {
    EmptyCounted();
    OccupiedNone(Empties(SLOTS));
  }

  /** The state in which too many packets are looked for. */
  function Tried(s: Source, known: bool, nb: nat, data: Payload): (o: Outcome)
    requires s.count < SLOTS && s.stack.counter < SLOTS && nb < SLOTS
    ensures o.source.count < SLOTS && o.source.stack.counter < SLOTS
  {
    TryCurrent(Stored(Located(s, known, nb), nb, data), Current(s, known, nb))
  }

  lemma {:induction false} TriedTidy(s: Source, known: bool, nb: nat, data: Payload)
    requires Tidy(s) && nb < SLOTS
    ensures var s' := Tried(s, known, nb, data).source;
      Tidy(s') && (Filled(s) && data != [] ==> Filled(s'))
  {
    LocatedTidy(s, known, nb);
    AddTidy(Located(s, known, nb), nb, data);
    TryTidy(Stored(Located(s, known, nb), nb, data), Current(s, known, nb));
  }

  /** When all packets have content `receive` returns. */
  lemma {:induction false} SaneReturns(s: Source, known: bool, maxStack: nat, nb: nat, data: Payload)
    requires Sane(s) && nb < SLOTS && data != []
    ensures Returns(s, known, maxStack, nb, data)
  {
    TriedTidy(s, known, nb, data);
    var stack := Tried(s, known, nb, data).source.stack;
    if stack.counter > maxStack {
      OccupiedSome(stack.slots);
      var k :| 0 <= k < SLOTS && stack.slots[k].Some?;
      assert HasNext(stack, k);
    }
  }

  /** Whatever arrives, the stack stays counted right. */
  lemma {:induction false} ReceiveTidy(s: Source, known: bool, maxStack: nat, nb: nat, data: Payload)
    requires Tidy(s) && nb < SLOTS
    ensures var s' := ReceiveNew(s, known, maxStack, nb, data).source;
      Tidy(s') && (Filled(s) && data != [] ==> Filled(s'))
  {
    TriedTidy(s, known, nb, data);
  }

  lemma {:induction false} HandleTidy(s: Source, known: bool, maxStack: nat, nb: nat, data: Payload)
    requires Tidy(s) && nb < SLOTS
    ensures var s' := Handle(s, known, maxStack, nb, data).1;
      Tidy(s') && (Filled(s) && data != [] ==> Filled(s'))
  {
    ReceiveTidy(s, known, maxStack, nb, data);
    var o := ReceiveNew(s, known, maxStack, nb, data);
    if o.again {
      DrainBound(o.source);
    }
  }

  /** Whatever arrives, in the window or not, with content or without: if `receive` returns, at most
      `maxStack` packets are buffered for a sender once the caller has drained. */
  lemma {:induction false} BufferBound(s: Source, known: bool, maxStack: nat, nb: nat, data: Payload)
    requires Tidy(s) && nb < SLOTS && maxStack < SLOTS - 1 && Returns(s, known, maxStack, nb, data)
    requires known ==> Occupied(s.stack.slots) <= maxStack
    ensures Tidy(Handle(s, known, maxStack, nb, data).1)
    ensures Occupied(Handle(s, known, maxStack, nb, data).1.stack.slots) <= maxStack
  {
    LocatedTidy(s, known, nb);
    AddTidy(Located(s, known, nb), nb, data);
    var current := Current(s, known, nb);
    var stored := Stored(Located(s, known, nb), nb, data);
    TryTidy(stored, current);
    ReceiveTidy(s, known, maxStack, nb, data);
    HandleStep(s, known, maxStack, nb, data);
    var tried := TryCurrent(stored, current);
    if tried.again {
      DrainBound(tried.source);
    } else if tried.source.stack.counter > maxStack {
      OverflowTidy(tried.source, maxStack, current, tried.buf);
      DrainBound(Overflow(tried, maxStack, current).source);
    }
  }
}
