/** What the resequencer is for, on unbounded sequence numbers, and that the 256-slot channel does it.
    The reference: a flow knows the last number it handed up and holds later packets. The packet that
    comes next is handed up at once. When more than `maxStack` packets are held, the gap is given up and
    the run of consecutive packets that starts at the least one is handed up. */
module Flows {
  import opened Wrappers
  import opened UdpStacks
  import opened Resequencing

  datatype Flow = Flow(last: nat, held: map<nat, Payload>)

  /** A packet with the number its sender gave it. */
  datatype Numbered = Numbered(number: nat, data: Payload)

  /** Arrivals the channel is made for: newer than the last number handed up, at most 255 ahead of
      it, not held already, and with content. */
  predicate Admissible(f: Flow, p: Numbered) {
    f.last < p.number <= f.last + 255 && p.number !in f.held && p.data != []
  }

  predicate InOrder(f: Flow, maxStack: nat) {
    && (forall n :: n in f.held ==> f.last < n <= f.last + 255 && f.held[n] != [])
    && |f.held| <= maxStack
  }

  predicate HoldsIn(held: map<nat, Payload>, lo: nat, hi: nat) {
    exists n :: n in held && lo <= n && n <= hi
  }

  /** The least held number in a range. */
  function Least(held: map<nat, Payload>, lo: nat, hi: nat): (m: nat)
    requires HoldsIn(held, lo, hi)
    ensures m in held && lo <= m <= hi && forall n :: n in held && lo <= n ==> m <= n
    decreases hi - lo
  {
    if lo in held then lo else Least(held, lo + 1, hi)
  }

  /** Hand up the run of consecutive packets that starts at `m`. */
  function Flush(held: map<nat, Payload>, m: nat): (r: (seq<Numbered>, Flow))
    requires m in held
    decreases |held|
  {
    var rest := held - {m};
    assert rest.Keys == held.Keys - {m};
    assert |rest.Keys| < |held.Keys|;
    if m + 1 in rest then
      var (run, flow) := Flush(rest, m + 1);
      ([Numbered(m, held[m])] + run, flow)
    else ([Numbered(m, held[m])], Flow(m, rest))
  }

  /** The reference resequencer, for one arrival. */
  function Arrive(f: Flow, maxStack: nat, p: Numbered): (r: (seq<Numbered>, Flow))
    requires InOrder(f, maxStack) && Admissible(f, p)
  {
    var held := f.held[p.number := p.data];
    if p.number == f.last + 1 then ([p], Flow(p.number, f.held))
    else if |held| <= maxStack then ([], Flow(f.last, held))
    else
      assert p.number in held;
      Flush(held, Least(held, f.last + 1, f.last + 255))
  }

  // ----- The reference keeps order, and loses nothing -----

  ghost predicate Increasing(out: seq<Numbered>) {
    forall i, j :: 0 <= i < j < |out| ==> out[i].number < out[j].number
  }

  predicate Has(held: map<nat, Payload>, p: Numbered) {
    p.number in held && held[p.number] == p.data
  }

  /** The run that is flushed starts at `m` and leaves only later packets; together they are the
      packets held before. */
  ghost predicate FlushOf(held: map<nat, Payload>, m: nat, top: nat, run: seq<Numbered>, flow: Flow) {
    && run != [] && run[0].number == m && flow.last == run[|run| - 1].number && Increasing(run)
    && m <= flow.last <= top
    && (forall n :: n in flow.held ==> flow.last + 1 < n <= top && flow.held[n] != [])
    && |flow.held| < |held|
    && (forall q :: q in run || Has(flow.held, q) <==> Has(held, q))
  }

  lemma {:induction false} FlushKeeps(held: map<nat, Payload>, m: nat, top: nat)
    requires m in held && forall n :: n in held ==> m <= n <= top && held[n] != []
    ensures FlushOf(held, m, top, Flush(held, m).0, Flush(held, m).1)
    decreases |held|
  {
    var rest := held - {m};
    assert rest.Keys == held.Keys - {m};
    assert |rest.Keys| < |held.Keys|;
    var first := Numbered(m, held[m]);
    assert forall q :: Has(held, q) <==> q == first || Has(rest, q);
    if m + 1 in rest {
      FlushKeeps(rest, m + 1, top);
      var (run, flow) := Flush(rest, m + 1);
      FlushOfCons(held, rest, m, top, run, flow);
    }
  }

  lemma {:induction false} FlushOfCons(held: map<nat, Payload>, rest: map<nat, Payload>, m: nat, top: nat,
                                       run: seq<Numbered>, flow: Flow)
    requires m in held && |rest| < |held|
    requires forall q :: Has(held, q) <==> q == Numbered(m, held[m]) || Has(rest, q)
    requires FlushOf(rest, m + 1, top, run, flow)
    ensures FlushOf(held, m, top, [Numbered(m, held[m])] + run, flow)
  {
    var first := Numbered(m, held[m]);
    assert forall q :: q in [first] + run <==> q == first || q in run;
    IncreasingCons(first, run);
  }

  lemma {:induction false} IncreasingCons(first: Numbered, run: seq<Numbered>)
    requires Increasing(run) && run != [] && first.number < run[0].number
    ensures Increasing([first] + run)
  {
    var out := [first] + run;
    forall i, j | 0 <= i < j < |out|
      ensures out[i].number < out[j].number
    {
      assert out[j] == run[j - 1];
      assert i > 0 ==> out[i] == run[i - 1];
      assert run[0].number <= run[j - 1].number;
    }
  }

  lemma {:induction false} ArriveFlushes(f: Flow, maxStack: nat, p: Numbered)
    requires InOrder(f, maxStack) && Admissible(f, p) && p.number != f.last + 1
    requires |f.held[p.number := p.data]| > maxStack
    ensures HoldsIn(f.held[p.number := p.data], f.last + 1, f.last + 255)
    ensures var held := f.held[p.number := p.data];
      Arrive(f, maxStack, p) == Flush(held, Least(held, f.last + 1, f.last + 255))
  {
    assert p.number in f.held[p.number := p.data];
  }

  /** What every arrival keeps: what is handed up is in increasing order and newer than everything
      handed up before; the flow stays in order, with at most `maxStack` packets held; and the packets
      handed up together with those held are the ones held before and the new one. */
  ghost predicate Keeps(f: Flow, maxStack: nat, p: Numbered, out: seq<Numbered>, f': Flow) {
    && InOrder(f', maxStack)
    && Increasing(out) && (forall i :: 0 <= i < |out| ==> f.last < out[i].number)
    && f'.last == (if out == [] then f.last else out[|out| - 1].number)
    && (forall q :: q in out || Has(f'.held, q) <==> Has(f.held, q) || q == p)
  }

  lemma {:induction false} ArriveKeeps(f: Flow, maxStack: nat, p: Numbered)
    requires InOrder(f, maxStack) && Admissible(f, p)
    ensures Keeps(f, maxStack, p, Arrive(f, maxStack, p).0, Arrive(f, maxStack, p).1)
  {
    var held := f.held[p.number := p.data];
    assert |held| == |f.held| + 1;
    assert forall q :: Has(held, q) <==> Has(f.held, q) || q == p;
    if p.number != f.last + 1 && |held| > maxStack {
      ArriveFlushes(f, maxStack, p);
      var m := Least(held, f.last + 1, f.last + 255);
      FlushArrivalKeeps(f, maxStack, p, held, m);
    }
  }

  lemma {:induction false} FlushArrivalKeeps(f: Flow, maxStack: nat, p: Numbered, held: map<nat, Payload>, m: nat)
    requires InOrder(f, maxStack) && Admissible(f, p) && |held| <= maxStack + 1
    requires forall q :: Has(held, q) <==> Has(f.held, q) || q == p
    requires m in held && f.last < m && forall n :: n in held ==> m <= n <= f.last + 255 && held[n] != []
    ensures Keeps(f, maxStack, p, Flush(held, m).0, Flush(held, m).1)
  {
    FlushKeeps(held, m, f.last + 255);
    RunAbove(Flush(held, m).0, f.last);
  }

  lemma {:induction false} RunAbove(run: seq<Numbered>, lo: nat)
    requires Increasing(run) && run != [] && lo < run[0].number
    ensures forall i :: 0 <= i < |run| ==> lo < run[i].number
  {
  }

  // ----- The slots hold the flow -----

  /** The stack holds exactly the packets `held`, all numbered within 255 of `lo`, each in the slot of
      its number. */
  ghost predicate StackHolds(stack: Stack, held: map<nat, Payload>, lo: nat) {
    && stack.counter == |held| < SLOTS
    && (forall n :: n in held ==> lo < n <= lo + 255 && held[n] != [])
    && (forall x :: lo <= x <= lo + 255 ==>
          stack.slots[Slot(x)] == if x in held then Some(held[x]) else None)
  }

  /** The source that implements a flow. When the packet after the last one is held, the stored
      counter lags one behind: it was not advanced when the last packet was handed up. */
  ghost predicate Implements(s: Source, f: Flow) {
    && StackHolds(s.stack, f.held, f.last)
    && s.count == if f.last + 1 in f.held then Previous(Slot(f.last)) else Slot(f.last)
  }

  function Payloads(out: seq<Numbered>): (r: seq<Payload>)
    ensures |r| == |out|
  {
    if out == [] then [] else [out[0].data] + Payloads(out[1..])
  }

  lemma {:induction false} HasNextIff(stack: Stack, held: map<nat, Payload>, lo: nat, x: nat)
    requires StackHolds(stack, held, lo) && lo <= x <= lo + 255
    ensures HasNext(stack, Slot(x)) <==> x in held
  {
  }

  lemma {:induction false} AddHolds(stack: Stack, held: map<nat, Payload>, lo: nat, p: Numbered)
    requires StackHolds(stack, held, lo) && lo < p.number <= lo + 255
    requires p.number !in held && p.data != [] && |held| < SLOTS - 1
    ensures StackHolds(Add(stack, Slot(p.number), p.data), held[p.number := p.data], lo)
  {
    var held' := held[p.number := p.data];
    var stack' := Add(stack, Slot(p.number), p.data);
    forall x | lo <= x <= lo + 255
      ensures stack'.slots[Slot(x)] == if x in held' then Some(held'[x]) else None
    {
      if x < p.number {
        SlotDistinct(x, p.number);
      } else if p.number < x {
        SlotDistinct(p.number, x);
      }
    }
  }

  lemma {:induction false} RemoveHolds(stack: Stack, held: map<nat, Payload>, lo: nat, m: nat)
    requires StackHolds(stack, held, lo) && m in held
    ensures StackHolds(Remove(stack, Slot(m)), held - {m}, lo)
    ensures |held - {m}| == |held| - 1
  {
    var held' := held - {m};
    var stack' := Remove(stack, Slot(m));
    assert held'.Keys == held.Keys - {m};
    assert |held'.Keys| == |held.Keys| - 1;
    forall x | lo <= x <= lo + 255
      ensures stack'.slots[Slot(x)] == if x in held' then Some(held'[x]) else None
    {
      if x < m {
        SlotDistinct(x, m);
      } else if m < x {
        SlotDistinct(m, x);
      }
    }
  }

  /** The range may move up as long as every held packet stays above its foot. */
  lemma {:induction false} MoveUp(stack: Stack, held: map<nat, Payload>, lo: nat, lo': nat)
    requires StackHolds(stack, held, lo) && lo <= lo' && forall n :: n in held ==> lo' < n
    requires lo' <= lo + 255
    ensures StackHolds(stack, held, lo')
  {
    forall x | lo' <= x <= lo' + 255
      ensures stack.slots[Slot(x)] == if x in held then Some(held[x]) else None
    {
      if x > lo + 255 {
        assert Slot(x) == Slot(x - SLOTS);
        assert x - SLOTS !in held;
      }
    }
  }

  /** After the least packet is taken out the stack holds the others. */
  lemma {:induction false} TakeLeast(stack: Stack, held: map<nat, Payload>, lo: nat, m: nat)
    requires StackHolds(stack, held, lo) && m in held && forall n :: n in held ==> m <= n
    ensures var rest := held - {m};
      && StackHolds(Remove(stack, Slot(m)), rest, m) && |rest| < |held|
      && (HasNext(Remove(stack, Slot(m)), Slot(m + 1)) <==> m + 1 in rest)
      && stack.slots[Slot(m)] == Some(held[m]) && held[m] != []
  {
    RemoveHolds(stack, held, lo, m);
    MoveUp(Remove(stack, Slot(m)), held - {m}, lo, m);
    HasNextIff(Remove(stack, Slot(m)), held - {m}, m, m + 1);
  }

  lemma {:induction false} FlushStep(held: map<nat, Payload>, m: nat)
    requires m in held
    ensures var rest := held - {m};
      && Payloads(Flush(held, m).0) == [held[m]] + (if m + 1 in rest then Payloads(Flush(rest, m + 1).0) else [])
      && Flush(held, m).1 == if m + 1 in rest then Flush(rest, m + 1).1 else Flow(m, rest)
  {
    var rest := held - {m};
    var first := Numbered(m, held[m]);
    if m + 1 in rest {
      PayloadsCons(first, Flush(rest, m + 1).0);
    } else {
      PayloadsCons(first, []);
      assert [first] + [] == [first];
    }
  }

  /** Draining the source hands up the run that starts at `m`, and implements what is left. */
  ghost predicate DrainsAs(s: Source, held: map<nat, Payload>, m: nat)
    requires m in held && s.count < SLOTS && s.stack.counter < SLOTS
  {
    Drain(s).0 == Payloads(Flush(held, m).0) && Implements(Drain(s).1, Flush(held, m).1)
  }

  lemma {:induction false} DrainsMore(stack: Stack, held: map<nat, Payload>, m: nat)
    requires stack.counter < SLOTS && m in held && m + 1 in held - {m}
    requires stack.slots[Slot(m)] == Some(held[m]) && held[m] != []
    requires HasNext(Remove(stack, Slot(m)), Slot(m + 1))
    requires DrainsAs(Source(Slot(m + 1), Remove(stack, Slot(m))), held - {m}, m + 1)
    ensures DrainsAs(Source(Slot(m), stack), held, m)
  {
    SlotNext(m);
    DrainStep(Source(Slot(m), stack), true);
    FlushStep(held, m);
  }

  lemma {:induction false} DrainsLast(stack: Stack, held: map<nat, Payload>, m: nat)
    requires stack.counter < SLOTS && m in held && m + 1 !in held - {m}
    requires stack.slots[Slot(m)] == Some(held[m]) && held[m] != []
    requires !HasNext(Remove(stack, Slot(m)), Slot(m + 1))
    requires StackHolds(Remove(stack, Slot(m)), held - {m}, m)
    ensures DrainsAs(Source(Slot(m), stack), held, m)
  {
    SlotNext(m);
    DrainStep(Source(Slot(m), stack), false);
    FlushStep(held, m);
    assert Packet(stack.slots[Slot(m)]) + [] == [held[m]];
  }

  /** Draining from the least held packet hands up the run that starts there. */
  lemma {:induction false} DrainRun(stack: Stack, held: map<nat, Payload>, lo: nat, m: nat)
    requires StackHolds(stack, held, lo) && m in held && forall n :: n in held ==> m <= n
    ensures DrainsAs(Source(Slot(m), stack), held, m)
    decreases |held|
  {
    TakeLeast(stack, held, lo, m);
    if m + 1 in held - {m} {
      DrainRun(Remove(stack, Slot(m)), held - {m}, m, m + 1);
      DrainsMore(stack, held, m);
    } else {
      DrainsLast(stack, held, m);
    }
  }

  lemma {:induction false} PayloadsCons(first: Numbered, run: seq<Numbered>)
    ensures Payloads([first] + run) == [first.data] + Payloads(run)
  {
    assert ([first] + run)[1..] == run;
  }

  /** On a source that lags, with nothing in the two slots it looks at, a drain is one call without
      a packet. */
  lemma {:induction false} DrainNothing(s: Source, lo: nat, held: map<nat, Payload>)
    requires StackHolds(s.stack, held, lo) && s.count == Slot(lo) && lo + 1 !in held
    ensures Drain(s).0 == [] && Drain(s).1 == s
  {
    SlotNext(lo);
    HasNextIff(s.stack, held, lo, lo + 1);
    assert s.stack.slots[s.count := None] == s.stack.slots;
  }

  /** The wanted packet goes through its empty slot. */
  lemma {:induction false} ReceiveThrough(s: Source, maxStack: nat, nb: nat, data: Payload, more: bool)
    requires s.count < SLOTS && s.stack.counter <= maxStack < SLOTS && nb == Next(s.count) && data != []
    requires s.stack.slots[nb].None? && more == HasNext(s.stack, Next(nb))
    ensures ReceiveNew(s, true, maxStack, nb, data) ==
      Outcome(Source(if more then s.count else nb, s.stack), Some(data), more)
  {
    AddThenRemove(s.stack, nb, data);
    assert HasNext(Add(s.stack, nb, data), nb);
  }

  /** In order: the slot of the packet is filled and emptied at once. */
  lemma {:induction false} ReceiveNext(s: Source, f: Flow, maxStack: nat, p: Numbered)
    requires maxStack < SLOTS - 1
    requires InOrder(f, maxStack) && Implements(s, f) && Admissible(f, p) && p.number == f.last + 1
    ensures var count := if p.number + 1 in f.held then s.count else Slot(p.number);
      ReceiveNew(s, true, maxStack, Slot(p.number), p.data) ==
      Outcome(Source(count, s.stack), Some(p.data), p.number + 1 in f.held)
  {
    SlotNext(f.last);
    SlotNext(p.number);
    HasNextIff(s.stack, f.held, f.last, p.number + 1);
    ReceiveThrough(s, maxStack, Slot(p.number), p.data, p.number + 1 in f.held);
  }

  /** In order: the packet is handed up at once. When its successor is held the source stays stacked
      with the old counter, and the drain finds an empty slot and stops. */
  lemma {:induction false} HandleNext(s: Source, f: Flow, maxStack: nat, p: Numbered)
    requires maxStack < SLOTS - 1
    requires InOrder(f, maxStack) && Implements(s, f) && Admissible(f, p) && p.number == f.last + 1
    ensures var (out, s') := Handle(s, true, maxStack, Slot(p.number), p.data);
      out == [p.data] && Implements(s', Flow(p.number, f.held))
  {
    ReceiveNext(s, f, maxStack, p);
    HandleStep(s, true, maxStack, Slot(p.number), p.data);
    NextImplements(s, f, p);
    if p.number + 1 in f.held {
      DrainNothing(s, f.last, f.held);
    }
  }

  lemma {:induction false} NextImplements(s: Source, f: Flow, p: Numbered)
    requires Implements(s, f) && p.number == f.last + 1 && p.number !in f.held
    ensures s.count == Slot(f.last)
    ensures Implements(Source(if p.number + 1 in f.held then s.count else Slot(p.number), s.stack),
      Flow(p.number, f.held))
  {
    MoveUp(s.stack, f.held, f.last, p.number);
    SlotNext(f.last);
    NextIsModulo(Slot(f.last));
  }

  /** Out of order: the packet is put into its slot, and the slot that would be next stays empty. */
  lemma {:induction false} ReceiveEarly(s: Source, f: Flow, maxStack: nat, p: Numbered)
    requires maxStack < SLOTS - 1
    requires InOrder(f, maxStack) && Implements(s, f) && Admissible(f, p) && p.number != f.last + 1
    ensures var held := f.held[p.number := p.data];
      var stack := Add(s.stack, Slot(p.number), p.data);
      var from := if f.last + 1 in f.held then f.last else f.last + 1;
      && StackHolds(stack, held, f.last)
      && ReceiveNew(s, true, maxStack, Slot(p.number), p.data) ==
         Overflow(Outcome(Source(s.count, stack), None, false), maxStack, Slot(from))
  {
    var held := f.held[p.number := p.data];
    var stack := Add(s.stack, Slot(p.number), p.data);
    var from := if f.last + 1 in f.held then f.last else f.last + 1;
    AddHolds(s.stack, f.held, f.last, p);
    SlotNext(f.last);
    NextIsModulo(Slot(f.last));
    assert Next(s.count) == Slot(from);
    HasNextIff(stack, held, f.last, from);
  }

  /** Out of order, with room: the packet is kept. */
  lemma {:induction false} HandleKept(s: Source, f: Flow, maxStack: nat, p: Numbered)
    requires maxStack < SLOTS - 1
    requires InOrder(f, maxStack) && Implements(s, f) && Admissible(f, p) && p.number != f.last + 1
    requires |f.held[p.number := p.data]| <= maxStack
    ensures Handle(s, true, maxStack, Slot(p.number), p.data).0 == []
    ensures Implements(Handle(s, true, maxStack, Slot(p.number), p.data).1, Flow(f.last, f.held[p.number := p.data]))
  {
    ReceiveEarly(s, f, maxStack, p);
    var stack := Add(s.stack, Slot(p.number), p.data);
    HandleStep(s, true, maxStack, Slot(p.number), p.data);
    KeptImplements(s, f, p, stack);
    assert ReceiveNew(s, true, maxStack, Slot(p.number), p.data) == Outcome(Source(s.count, stack), None, false);
  }

  lemma {:induction false} KeptImplements(s: Source, f: Flow, p: Numbered, stack: Stack)
    requires Implements(s, f) && p.number != f.last + 1
    requires StackHolds(stack, f.held[p.number := p.data], f.last)
    ensures Implements(Source(s.count, stack), Flow(f.last, f.held[p.number := p.data]))
  {
    assert f.last + 1 in f.held[p.number := p.data] <==> f.last + 1 in f.held;
  }

  lemma {:induction false} OverflowSkips(s: Source, maxStack: nat, current: nat)
    requires current < SLOTS && s.count < SLOTS && maxStack < s.stack.counter < SLOTS
    ensures Overflow(Outcome(s, None, false), maxStack, current) ==
      Outcome(Source(Skip(s.stack, Next(current), SLOTS - 1), s.stack), None, true)
  {
  }

  lemma {:induction false} OverflowToLeast(s: Source, held: map<nat, Payload>, lo: nat, maxStack: nat, from: nat,
                                           m: nat)
    requires s.count < SLOTS && StackHolds(s.stack, held, lo) && |held| > maxStack
    requires lo <= from < m && m in held && forall n :: n in held ==> m <= n
    ensures Overflow(Outcome(s, None, false), maxStack, Slot(from)) == Outcome(Source(Slot(m), s.stack), None, true)
  {
    SlotNext(from);
    SkipToLeast(s.stack, held, lo, from + 1, m);
    OverflowSkips(s, maxStack, Slot(from));
  }

  /** Out of order, with too many packets: the missing ones are given up. */
  lemma {:induction false} HandleFlushed(s: Source, f: Flow, maxStack: nat, p: Numbered)
    requires maxStack < SLOTS - 1
    requires InOrder(f, maxStack) && Implements(s, f) && Admissible(f, p) && p.number != f.last + 1
    requires |f.held[p.number := p.data]| > maxStack
    ensures HoldsIn(f.held[p.number := p.data], f.last + 1, f.last + 255)
    ensures var held := f.held[p.number := p.data];
      var m := Least(held, f.last + 1, f.last + 255);
      var stack := Add(s.stack, Slot(p.number), p.data);
      && StackHolds(stack, held, f.last)
      && ReceiveNew(s, true, maxStack, Slot(p.number), p.data) == Outcome(Source(Slot(m), stack), None, true)
  {
    var held := f.held[p.number := p.data];
    var from := if f.last + 1 in f.held then f.last else f.last + 1;
    ReceiveEarly(s, f, maxStack, p);
    assert p.number in held;
    var m := Least(held, f.last + 1, f.last + 255);
    OverflowToLeast(Source(s.count, Add(s.stack, Slot(p.number), p.data)), held, f.last, maxStack, from, m);
  }

  /** Handling a datagram does what the reference does. */
  ghost predicate HandlesAs(s: Source, f: Flow, maxStack: nat, p: Numbered)
    requires s.count < SLOTS && s.stack.counter < SLOTS && InOrder(f, maxStack) && Admissible(f, p)
  {
    && Handle(s, true, maxStack, Slot(p.number), p.data).0 == Payloads(Arrive(f, maxStack, p).0)
    && Implements(Handle(s, true, maxStack, Slot(p.number), p.data).1, Arrive(f, maxStack, p).1)
  }

  lemma {:induction false} FlushHandlesAs(s: Source, f: Flow, maxStack: nat, p: Numbered, stack: Stack,
                                          held: map<nat, Payload>, m: nat)
    requires s.count < SLOTS && s.stack.counter < SLOTS && InOrder(f, maxStack) && Admissible(f, p)
      && p.number != f.last + 1
    requires held == f.held[p.number := p.data] && |held| > maxStack
    requires HoldsIn(held, f.last + 1, f.last + 255) && m == Least(held, f.last + 1, f.last + 255)
    requires stack.counter < SLOTS && DrainsAs(Source(Slot(m), stack), held, m)
    requires ReceiveNew(s, true, maxStack, Slot(p.number), p.data) == Outcome(Source(Slot(m), stack), None, true)
    ensures HandlesAs(s, f, maxStack, p)
  {
    ArriveFlushes(f, maxStack, p);
    HandleStep(s, true, maxStack, Slot(p.number), p.data);
  }

  /** Out of order: the packet is kept, and too many packets end the wait for the missing ones. */
  lemma {:induction false} HandleEarly(s: Source, f: Flow, maxStack: nat, p: Numbered)
    requires maxStack < SLOTS - 1
    requires InOrder(f, maxStack) && Implements(s, f) && Admissible(f, p) && p.number != f.last + 1
    ensures HandlesAs(s, f, maxStack, p)
  {
    var held := f.held[p.number := p.data];
    if |held| <= maxStack {
      HandleKept(s, f, maxStack, p);
    } else {
      HandleFlushed(s, f, maxStack, p);
      var m := Least(held, f.last + 1, f.last + 255);
      var stack := Add(s.stack, Slot(p.number), p.data);
      DrainRun(stack, held, f.last, m);
      FlushHandlesAs(s, f, maxStack, p, stack, held, m);
    }
  }

  lemma {:induction false} SkipToLeast(stack: Stack, held: map<nat, Payload>, lo: nat, from: nat, m: nat)
    requires StackHolds(stack, held, lo) && lo < from <= m && m in held
    requires forall n :: n in held ==> m <= n
    ensures Skip(stack, Slot(from), SLOTS - 1) == Slot(m)
  {
    forall k | from <= k < m
      ensures !HasNext(stack, Slot(k))
    {
      HasNextIff(stack, held, lo, k);
    }
    HasNextIff(stack, held, lo, m);
    SkipFirst(stack, from, m, SLOTS - 1);
  }

  /** The channel does for an arrival what the reference does. */
  lemma {:induction false} HandleRefines(s: Source, f: Flow, maxStack: nat, p: Numbered)
    requires maxStack < SLOTS - 1
    requires InOrder(f, maxStack) && Implements(s, f) && Admissible(f, p)
    ensures Handle(s, true, maxStack, p.number % SLOTS, p.data).0 == Payloads(Arrive(f, maxStack, p).0)
    ensures Implements(Handle(s, true, maxStack, p.number % SLOTS, p.data).1, Arrive(f, maxStack, p).1)
  {
    SlotIsModulo(p.number);
    if p.number == f.last + 1 {
      HandleNext(s, f, maxStack, p);
      PayloadsCons(p, []);
      assert [p] + [] == [p];
    } else {
      HandleEarly(s, f, maxStack, p);
    }
  }

  /** The first datagram of a sender is handed up, whatever its number. */
  lemma {:induction false} FirstRefines(s: Source, maxStack: nat, p: Numbered)
    requires s.count < SLOTS && s.stack.counter < SLOTS && p.data != []
    ensures Handle(s, false, maxStack, p.number % SLOTS, p.data).0 == [p.data]
    ensures Implements(Handle(s, false, maxStack, p.number % SLOTS, p.data).1, Flow(p.number, map[]))
  {
    SlotIsModulo(p.number);
    var nb := Slot(p.number);
    AddThenRemove(EmptyStack(), nb, p.data);
    var o := ReceiveNew(s, false, maxStack, nb, p.data);
    assert o == Outcome(Source(nb, EmptyStack()), Some(p.data), false);
  }

  // ----- Whole runs, with any number of senders -----

  datatype Arrival = Arrival(ip: string, packet: Numbered)

  datatype Delivery = Delivery(ip: string, packet: Numbered)

  /** The reference on one arrival: the first packet of a sender starts its flow. */
  function Step(flows: map<string, Flow>, maxStack: nat, a: Arrival): (seq<Numbered>, Flow)
    requires Welcome(flows, maxStack, a)
  {
    if a.ip in flows then Arrive(flows[a.ip], maxStack, a.packet)
    else ([a.packet], Flow(a.packet.number, map[]))
  }

  predicate Welcome(flows: map<string, Flow>, maxStack: nat, a: Arrival) {
    if a.ip in flows then InOrder(flows[a.ip], maxStack) && Admissible(flows[a.ip], a.packet)
    else a.packet.data != []
  }

  /** Every arrival of the run is admissible when it comes. */
  predicate WelcomeRun(flows: map<string, Flow>, maxStack: nat, arrivals: seq<Arrival>)
    decreases |arrivals|
  {
    arrivals != [] ==>
      && Welcome(flows, maxStack, arrivals[0])
      && WelcomeRun(flows[arrivals[0].ip := Step(flows, maxStack, arrivals[0]).1], maxStack, arrivals[1..])
  }

  function From(ip: string, out: seq<Numbered>): (r: seq<Delivery>)
    ensures |r| == |out| && forall i :: 0 <= i < |out| ==> r[i] == Delivery(ip, out[i])
  {
    seq(|out|, i requires 0 <= i < |out| => Delivery(ip, out[i]))
  }

  /** What the reference hands up over a run, and the flows it ends with. */
  function RunFlows(flows: map<string, Flow>, maxStack: nat, arrivals: seq<Arrival>): (seq<Delivery>, map<string, Flow>)
    requires WelcomeRun(flows, maxStack, arrivals)
    decreases |arrivals|
  {
    if arrivals == [] then ([], flows)
    else
      var a := arrivals[0];
      var (out, flow) := Step(flows, maxStack, a);
      var (rest, final) := RunFlows(flows[a.ip := flow], maxStack, arrivals[1..]);
      (From(a.ip, out) + rest, final)
  }

  predicate Bytes(sources: map<string, Source>) {
    forall ip :: ip in sources ==> sources[ip].count < SLOTS && sources[ip].stack.counter < SLOTS
  }

  /** The channel on one arrival: a new sender starts with an empty stack. */
  function ChannelStep(sources: map<string, Source>, maxStack: nat, a: Arrival): (r: (seq<Payload>, Source))
    requires Bytes(sources)
    ensures r.1.count < SLOTS && r.1.stack.counter < SLOTS
  {
    var known := a.ip in sources;
    var s := if known then sources[a.ip] else Source(0, EmptyStack());
    Handle(s, known, maxStack, a.packet.number % SLOTS, a.packet.data)
  }

  /** The channel on a run: `udp_counters` and `stacks`, keyed by sender address. */
  function RunChannel(sources: map<string, Source>, maxStack: nat, arrivals: seq<Arrival>)
    : (r: (seq<(string, Payload)>, map<string, Source>))
    requires Bytes(sources)
    decreases |arrivals|
  {
    if arrivals == [] then ([], sources)
    else
      var a := arrivals[0];
      var (out, next) := ChannelStep(sources, maxStack, a);
      var (rest, final) := RunChannel(sources[a.ip := next], maxStack, arrivals[1..]);
      (Tagged(a.ip, out) + rest, final)
  }

  function Tagged(ip: string, out: seq<Payload>): (r: seq<(string, Payload)>)
    ensures |r| == |out| && forall i :: 0 <= i < |out| ==> r[i] == (ip, out[i])
  {
    seq(|out|, i requires 0 <= i < |out| => (ip, out[i]))
  }

  function Unnumbered(out: seq<Delivery>): (r: seq<(string, Payload)>)
    ensures |r| == |out| && forall i :: 0 <= i < |out| ==> r[i] == (out[i].ip, out[i].packet.data)
  {
    seq(|out|, i requires 0 <= i < |out| => (out[i].ip, out[i].packet.data))
  }

  /** The channel implements the flows of all senders. */
  ghost predicate ImplementsAll(sources: map<string, Source>, flows: map<string, Flow>) {
    && sources.Keys == flows.Keys
    && forall ip :: ip in sources ==> Implements(sources[ip], flows[ip])
  }

  lemma {:induction false} PayloadsAt(out: seq<Numbered>)
    ensures forall i :: 0 <= i < |out| ==> Payloads(out)[i] == out[i].data
  {
    if out != [] {
      PayloadsAt(out[1..]);
    }
  }

  lemma {:induction false} StepRefines(sources: map<string, Source>, flows: map<string, Flow>, maxStack: nat,
                                       a: Arrival)
    requires maxStack < SLOTS - 1 && Bytes(sources) && ImplementsAll(sources, flows) && Welcome(flows, maxStack, a)
    ensures ChannelStep(sources, maxStack, a).0 == Payloads(Step(flows, maxStack, a).0)
    ensures ImplementsAll(sources[a.ip := ChannelStep(sources, maxStack, a).1],
      flows[a.ip := Step(flows, maxStack, a).1])
  {
    if a.ip in sources {
      HandleRefines(sources[a.ip], flows[a.ip], maxStack, a.packet);
    } else {
      FirstRefines(Source(0, EmptyStack()), maxStack, a.packet);
      PayloadsCons(a.packet, []);
      assert [a.packet] + [] == [a.packet];
    }
    ImplementsUpdate(sources, flows, a.ip, ChannelStep(sources, maxStack, a).1, Step(flows, maxStack, a).1);
  }

  lemma {:induction false} ImplementsUpdate(sources: map<string, Source>, flows: map<string, Flow>, ip: string,
                                            s: Source, f: Flow)
    requires ImplementsAll(sources, flows) && Implements(s, f)
    ensures ImplementsAll(sources[ip := s], flows[ip := f])
  {
  }

  lemma {:induction false} UnnumberedConcat(ip: string, out: seq<Numbered>, rest: seq<Delivery>)
    ensures Unnumbered(From(ip, out) + rest) == Tagged(ip, Payloads(out)) + Unnumbered(rest)
  {
    PayloadsAt(out);
    assert Tagged(ip, Payloads(out)) == Unnumbered(From(ip, out));
    assert Unnumbered(From(ip, out) + rest) == Unnumbered(From(ip, out)) + Unnumbered(rest);
  }

  /** Over every admissible run the channel hands up exactly the payloads the reference does, in the
      same order. */
  lemma {:induction false} RunRefines(sources: map<string, Source>, flows: map<string, Flow>, maxStack: nat,
                                      arrivals: seq<Arrival>)
    requires maxStack < SLOTS - 1 && Bytes(sources) && ImplementsAll(sources, flows)
      && WelcomeRun(flows, maxStack, arrivals)
    ensures RunChannel(sources, maxStack, arrivals).0 == Unnumbered(RunFlows(flows, maxStack, arrivals).0)
    ensures ImplementsAll(RunChannel(sources, maxStack, arrivals).1, RunFlows(flows, maxStack, arrivals).1)
    decreases |arrivals|
  {
    if arrivals != [] {
      var a := arrivals[0];
      StepRefines(sources, flows, maxStack, a);
      var next := sources[a.ip := ChannelStep(sources, maxStack, a).1];
      var flows' := flows[a.ip := Step(flows, maxStack, a).1];
      RunRefines(next, flows', maxStack, arrivals[1..]);
      UnnumberedConcat(a.ip, Step(flows, maxStack, a).0, RunFlows(flows', maxStack, arrivals[1..]).0);
    }
  }

  // ----- Order and conservation over a run -----

  /** The packets of one sender among the deliveries, in order. */
  function Of(ip: string, out: seq<Delivery>): seq<Numbered> {
    if out == [] then []
    else (if out[0].ip == ip then [out[0].packet] else []) + Of(ip, out[1..])
  }

  lemma {:induction false} OfConcat(ip: string, a: seq<Delivery>, b: seq<Delivery>)
    ensures Of(ip, a + b) == Of(ip, a) + Of(ip, b)
  {
    if a == [] {
      assert a + b == b;
    } else {
      OfConcat(ip, a[1..], b);
      var head := if a[0].ip == ip then [a[0].packet] else [];
      assert (a + b)[0] == a[0] && (a + b)[1..] == a[1..] + b;
      assert head + (Of(ip, a[1..]) + Of(ip, b)) == (head + Of(ip, a[1..])) + Of(ip, b);
    }
  }

  lemma {:induction false} OfFrom(ip: string, from: string, out: seq<Numbered>)
    ensures Of(ip, From(from, out)) == if ip == from then out else []
  {
    if out != [] {
      assert From(from, out)[1..] == From(from, out[1..]);
      OfFrom(ip, from, out[1..]);
      assert [out[0]] + out[1..] == out;
    }
  }

  /** The packets of one sender among the arrivals. */
  function Sent(ip: string, arrivals: seq<Arrival>): seq<Numbered> {
    if arrivals == [] then []
    else (if arrivals[0].ip == ip then [arrivals[0].packet] else []) + Sent(ip, arrivals[1..])
  }

  predicate HeldBy(flows: map<string, Flow>, ip: string, q: Numbered) {
    ip in flows && Has(flows[ip].held, q)
  }

  /** Over every admissible run, and for every sender: what is handed up comes in strictly increasing
      send order, so each packet at most once; and the packets handed up or still held are exactly the
      ones that were held at the start or arrived. */
  lemma {:induction false} RunKeepsOrder(flows: map<string, Flow>, maxStack: nat, arrivals: seq<Arrival>, ip: string)
    requires WelcomeRun(flows, maxStack, arrivals)
    ensures var (out, final) := RunFlows(flows, maxStack, arrivals);
      var delivered := Of(ip, out);
      && Increasing(delivered)
      && (ip in flows ==> forall i :: 0 <= i < |delivered| ==> flows[ip].last < delivered[i].number)
      && (forall q :: q in delivered || HeldBy(final, ip, q) <==> HeldBy(flows, ip, q) || q in Sent(ip, arrivals))
    decreases |arrivals|
  {
    if arrivals != [] {
      var a := arrivals[0];
      var (out, flow) := Step(flows, maxStack, a);
      var next := flows[a.ip := flow];
      RunKeepsOrder(next, maxStack, arrivals[1..], ip);
      var (rest, final) := RunFlows(next, maxStack, arrivals[1..]);
      OfConcat(ip, From(a.ip, out), rest);
      OfFrom(ip, a.ip, out);
      var sent := Sent(ip, arrivals[1..]);
      if ip == a.ip {
        StepKeeps(flows, maxStack, a);
        var later := Of(ip, rest);
        IncreasingConcat(out, later, flow.last);
        assert forall q :: q in out + later <==> q in out || q in later;
        assert forall q :: q in [a.packet] + sent <==> q == a.packet || q in sent;
      } else {
        assert [] + Of(ip, rest) == Of(ip, rest);
        assert [] + sent == sent;
      }
    }
  }

  lemma {:induction false} StepKeeps(flows: map<string, Flow>, maxStack: nat, a: Arrival)
    requires Welcome(flows, maxStack, a)
    ensures var (out, flow) := Step(flows, maxStack, a);
      && Increasing(out)
      && (forall i :: 0 <= i < |out| ==> out[i].number <= flow.last)
      && (a.ip in flows ==>
            && flows[a.ip].last <= flow.last
            && forall i :: 0 <= i < |out| ==> flows[a.ip].last < out[i].number)
      && (forall q :: q in out || Has(flow.held, q) <==> HeldBy(flows, a.ip, q) || q == a.packet)
  {
    if a.ip in flows {
      ArriveKeeps(flows[a.ip], maxStack, a.packet);
    }
  }

  lemma {:induction false} IncreasingConcat(a: seq<Numbered>, b: seq<Numbered>, mid: nat)
    requires Increasing(a) && Increasing(b)
    requires forall i :: 0 <= i < |a| ==> a[i].number <= mid
    requires forall i :: 0 <= i < |b| ==> mid < b[i].number
    ensures Increasing(a + b)
  {
  }
}
