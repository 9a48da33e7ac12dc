/** What may follow a datagram. A sender numbers its packets without bound and the channel sees them modulo
    256. A run of the channel is watched next to the reference, which takes what is in its window: it is
    safe when, whatever else arrives in the window, packets are handed up in increasing order and no
    packet newer than those done with is lost. */
module Watches {
  import opened Wrappers
  import opened UdpStacks
  import opened Resequencing
  import opened Flows

  // ----- A sender, and what is watched -----

  /** The packets of a sender: the one numbered `n` has the content `content(n)`, and no other has it, so
      that `number` can tell them apart. The channel keeps up to `maxStack` of them; all up to number
      `low` are done with. */
  datatype Link = Link(content: nat -> Payload, number: Payload -> nat, maxStack: nat, low: nat)

  ghost predicate Distinct(k: Link) {
    forall n: nat :: k.content(n) != [] && k.number(k.content(n)) == n
  }

  /** There are such senders: the content may be as many bytes as the number says, and one more. */
  lemma {:induction false} SomeSender(maxStack: nat, low: nat) returns (k: Link)
    ensures Distinct(k) && k.maxStack == maxStack && k.low == low
  {
    k := Link((n: nat) => seq(n + 1, i => 0), (x: Payload) => if x == [] then 0 else |x| - 1, maxStack, low);
    forall n: nat
      ensures k.content(n) != [] && k.number(k.content(n)) == n
    {
      assert |k.content(n)| == n + 1;
    }
  }

  function PacketOf(k: Link, n: nat): Numbered {
    Numbered(n, k.content(n))
  }

  /** A run of the channel next to the reference: what the channel handed up, its state, the flow of the
      reference, and the numbers of all packets that were held at the start or arrived. */
  datatype Watch = Watch(out: seq<Payload>, source: Source, flow: Flow, seen: set<nat>)

  /** The arrivals the reference takes: new, and at most 255 ahead. */
  predicate Accepts(f: Flow, n: nat) {
    f.last < n <= f.last + 255 && n !in f.held
  }

  /** The content of a packet that was held or arrived. */
  ghost predicate Known(k: Link, w: Watch, x: Payload) {
    k.number(x) in w.seen && k.content(k.number(x)) == x
  }

  /** What is in a slot. */
  function Kept(s: Source, i: nat): Option<Payload>
    requires i < SLOTS
  {
    s.stack.slots[i]
  }

  ghost predicate InPlace(k: Link, w: Watch, x: Payload, i: nat) {
    Known(k, w, x) && Slot(k.number(x)) == i
  }

  /** The watch is consistent: every packet is in the slot of its number, and nothing came from nowhere. */
  ghost predicate Live(k: Link, w: Watch) {
    && Distinct(k) && k.maxStack < SLOTS - 1
    && InOrder(w.flow, k.maxStack)
    && (forall n :: n in w.flow.held ==> w.flow.held[n] == k.content(n))
    && w.source.count < SLOTS && w.source.stack.counter < SLOTS
    && (forall i :: 0 <= i < SLOTS && Kept(w.source, i).Some? ==> InPlace(k, w, Kept(w.source, i).value, i))
    && (forall i :: 0 <= i < |w.out| ==> Known(k, w, w.out[i]))
  }

  /** The datagram numbered `n` arrives, with the number modulo 256. The reference takes it or ignores it,
      the channel handles it. */
  ghost function Receive(k: Link, w: Watch, n: nat): Watch
    requires Live(k, w)
  {
    ReceiveAt(k, w, n, Slot(n))
  }

  ghost function ReceiveAt(k: Link, w: Watch, n: nat, nb: nat): Watch
    requires Live(k, w) && nb < SLOTS
  {
    var (more, source) := Handle(w.source, true, k.maxStack, nb, k.content(n));
    Watch(w.out + more,
          source,
          if Accepts(w.flow, n) then Arrive(w.flow, k.maxStack, PacketOf(k, n)).1 else w.flow,
          w.seen + {n})
  }

  /** What is handed up is newer than `low` and in increasing order. */
  ghost predicate Ascending(k: Link, out: seq<Payload>) {
    && (forall i :: 0 <= i < |out| ==> k.low < k.number(out[i]))
    && (forall i, j :: 0 <= i < j < |out| ==> k.number(out[i]) < k.number(out[j]))
  }

  /** Nothing is lost: every packet newer than `low` was handed up or is in its slot. An older one may be
      dropped. */
  ghost predicate NothingLost(k: Link, w: Watch) {
    forall a :: a in w.seen && k.low < a ==> k.content(a) in w.out || Kept(w.source, Slot(a)) == Some(k.content(a))
  }

  ghost predicate Sound(k: Link, w: Watch) {
    Ascending(k, w.out) && NothingLost(k, w)
  }

  /** The reference takes all of these, one after the other. */
  ghost predicate Fits(k: Link, w: Watch, ns: seq<nat>)
    requires Live(k, w)
    decreases |ns|
  {
    ns != [] ==> Accepts(w.flow, ns[0]) && Live(k, Receive(k, w, ns[0])) && Fits(k, Receive(k, w, ns[0]), ns[1..])
  }

  ghost function ReceiveAll(k: Link, w: Watch, ns: seq<nat>): Watch
    requires Live(k, w) && Fits(k, w, ns)
    decreases |ns|
  {
    if ns == [] then w else ReceiveAll(k, Receive(k, w, ns[0]), ns[1..])
  }

  /** Whatever else arrives within the window, the order is kept and nothing is lost. */
  ghost predicate Safe(k: Link, w: Watch)
    requires Live(k, w)
  {
    forall ns :: Fits(k, w, ns) ==> Sound(k, ReceiveAll(k, w, ns))
  }

  // ----- Nothing vanishes but the packet in the slot of the arrival -----

  /** From the slots `a` to the slots `b`: what is gone was handed up, and nothing else was. */
  ghost predicate Conserves(a: Slots, out: seq<Payload>, b: Slots) {
    && (forall i :: 0 <= i < SLOTS ==>
          || b[i] == a[i]
          || (b[i].None? && (a[i].Some? && a[i].value != [] ==> a[i].value in out)))
    && (forall x :: x in out ==> exists i :: 0 <= i < SLOTS && a[i] == Some(x))
  }

  lemma {:induction false} ConservesMore(a: Slots, first: seq<Payload>, b: Slots, rest: seq<Payload>, c: Slots)
    requires Conserves(a, first, b) && Conserves(b, rest, c)
    ensures Conserves(a, first + rest, c)
  {
    forall x | x in first + rest
      ensures exists i :: 0 <= i < SLOTS && a[i] == Some(x)
    {
      if x !in first {
        var i :| 0 <= i < SLOTS && b[i] == Some(x);
        assert a[i] == Some(x);
      }
    }
  }

  lemma {:induction false} TakeConserves(s: Source, i: nat)
    requires i < SLOTS && s.stack.counter < SLOTS
    ensures Conserves(s.stack.slots, Packet(s.stack.slots[i]), TakeSlot(s, i).source.stack.slots)
  {
  }

  lemma {:induction false} DrainConserves(s: Source)
    requires s.count < SLOTS && s.stack.counter < SLOTS
    ensures Conserves(s.stack.slots, Drain(s).0, Drain(s).1.stack.slots)
    decreases Calls(s)
  {
    var o := ReceiveStacked(s);
    StackedDecreases(s);
    TakeConserves(s, s.count);
    DrainStep(s, o.again);
    if o.again {
      DrainConserves(o.source);
      ConservesMore(s.stack.slots, Packet(o.buf), o.source.stack.slots, Drain(o.source).0,
        Drain(o.source).1.stack.slots);
    } else {
      assert Packet(o.buf) + [] == Packet(o.buf);
    }
  }

  lemma {:induction false} TryConserves(s: Source, current: nat)
    requires s.count < SLOTS && s.stack.counter < SLOTS && current < SLOTS
    ensures var o := TryCurrent(s, current);
      Conserves(s.stack.slots, Packet(o.buf), o.source.stack.slots)
  {
    TakeConserves(s, current);
  }

  /** Whatever arrives, in whatever state: the arrival is stored, and from then on a packet that is no
      longer in its slot was handed up. */
  lemma {:induction false} HandleConserves(s: Source, maxStack: nat, nb: nat, data: Payload)
    requires s.count < SLOTS && s.stack.counter < SLOTS && nb < SLOTS
    ensures var (out, s') := Handle(s, true, maxStack, nb, data);
      Conserves(s.stack.slots[nb := Some(data)], out, s'.stack.slots)
  {
    var stored := Stored(s, nb, data);
    var o := ReceiveNew(s, true, maxStack, nb, data);
    TryConserves(stored, Next(s.count));
    HandleStep(s, true, maxStack, nb, data);
    if o.again {
      DrainConserves(o.source);
      ConservesMore(stored.stack.slots, Packet(o.buf), o.source.stack.slots, Drain(o.source).0,
        Drain(o.source).1.stack.slots);
    } else {
      assert Packet(o.buf) + [] == Packet(o.buf);
    }
  }

  lemma {:induction false} ReceiveConserves(k: Link, w: Watch, n: nat)
    requires Live(k, w)
    ensures var w' := Receive(k, w, n);
      && w.out <= w'.out
      && w'.source.count < SLOTS && w'.source.stack.counter < SLOTS
      && Conserves(w.source.stack.slots[Slot(n) := Some(k.content(n))], w'.out[|w.out|..], w'.source.stack.slots)
  {
    HandleConserves(w.source, k.maxStack, Slot(n), k.content(n));
    var (more, source) := Handle(w.source, true, k.maxStack, Slot(n), k.content(n));
    assert (w.out + more)[|w.out|..] == more;
  }

  // ----- What every arrival does -----

  /** An arrival the reference takes moves it on, or fills it. */
  lemma {:induction false} ArriveMoves(f: Flow, maxStack: nat, p: Numbered)
    requires InOrder(f, maxStack) && Admissible(f, p)
    ensures var f' := Arrive(f, maxStack, p).1;
      && InOrder(f', maxStack)
      && f.last <= f'.last <= f.last + 255
      && (f'.last == f.last ==> f' == Flow(f.last, f.held[p.number := p.data]) && |f'.held| == |f.held| + 1)
      && (forall n :: n in f'.held ==> n <= f.last + 255)
      && (forall q :: Has(f'.held, q) ==> Has(f.held, q) || q == p)
  {
    ArriveKeeps(f, maxStack, p);
    var (out, f') := Arrive(f, maxStack, p);
    forall n | n in f'.held
      ensures n <= f.last + 255
    {
      assert Has(f'.held, Numbered(n, f'.held[n]));
    }
    if out != [] {
      var q := out[|out| - 1];
      assert q in out;
      assert Has(f.held, q) || q == p;
    } else {
      ArriveSilent(f, maxStack, p);
    }
  }

  lemma {:induction false} ArriveSilent(f: Flow, maxStack: nat, p: Numbered)
    requires InOrder(f, maxStack) && Admissible(f, p) && Arrive(f, maxStack, p).0 == []
    ensures Arrive(f, maxStack, p).1 == Flow(f.last, f.held[p.number := p.data])
    ensures |f.held[p.number := p.data]| == |f.held| + 1 <= maxStack
  {
    if p.number != f.last + 1 && |f.held[p.number := p.data]| > maxStack {
      ArriveFlushes(f, maxStack, p);
    }
  }

  lemma {:induction false} ReceiveFlow(k: Link, w: Watch, n: nat)
    requires Live(k, w)
    ensures var f := Receive(k, w, n).flow;
      && InOrder(f, k.maxStack) && forall m :: m in f.held ==> f.held[m] == k.content(m)
  {
    var f := Receive(k, w, n).flow;
    if Accepts(w.flow, n) {
      ArriveMoves(w.flow, k.maxStack, PacketOf(k, n));
      forall m | m in f.held
        ensures f.held[m] == k.content(m)
      {
        assert Has(f.held, Numbered(m, f.held[m]));
      }
    }
  }

  lemma {:induction false} ReceiveSlots(k: Link, w: Watch, n: nat)
    requires Live(k, w)
    ensures var w' := Receive(k, w, n);
      && (forall i :: 0 <= i < SLOTS && Kept(w'.source, i).Some? ==> InPlace(k, w', Kept(w'.source, i).value, i))
      && (forall i :: 0 <= i < |w'.out| ==> Known(k, w', w'.out[i]))
  {
    var w' := Receive(k, w, n);
    ReceiveConserves(k, w, n);
    var stored := w.source.stack.slots[Slot(n) := Some(k.content(n))];
    forall i | 0 <= i < SLOTS && stored[i].Some?
      ensures InPlace(k, w', stored[i].value, i)
    {
      if i != Slot(n) {
        assert stored[i] == Kept(w.source, i);
        assert InPlace(k, w, stored[i].value, i);
      }
    }
    var more := w'.out[|w.out|..];
    forall j | 0 <= j < |w'.out|
      ensures Known(k, w', w'.out[j])
    {
      if j < |w.out| {
        assert w'.out[j] == w.out[j];
      } else {
        assert w'.out[j] == more[j - |w.out|];
        var i :| 0 <= i < SLOTS && stored[i] == Some(w'.out[j]);
        assert InPlace(k, w', stored[i].value, i);
      }
    }
  }

  lemma {:induction false} ReceiveLive(k: Link, w: Watch, n: nat)
    requires Live(k, w)
    ensures Live(k, Receive(k, w, n))
  {
    ReceiveFlow(k, w, n);
    ReceiveConserves(k, w, n);
    ReceiveSlots(k, w, n);
  }

  lemma {:induction false} SafeSound(k: Link, w: Watch)
    requires Live(k, w) && Safe(k, w)
    ensures Sound(k, w)
  {
    assert Fits(k, w, []);
    assert ReceiveAll(k, w, []) == w;
  }

  lemma {:induction false} FitsFirst(k: Link, w: Watch, n: nat, ns: seq<nat>)
    requires Live(k, w) && Accepts(w.flow, n) && Live(k, Receive(k, w, n)) && Fits(k, Receive(k, w, n), ns)
    ensures Fits(k, w, [n] + ns) && ReceiveAll(k, w, [n] + ns) == ReceiveAll(k, Receive(k, w, n), ns)
  {
    assert ([n] + ns)[1..] == ns;
  }

  lemma {:induction false} SafeStep(k: Link, w: Watch, n: nat)
    requires Live(k, w) && Safe(k, w) && Accepts(w.flow, n)
    ensures Live(k, Receive(k, w, n)) && Safe(k, Receive(k, w, n)) && Sound(k, Receive(k, w, n))
  {
    ReceiveLive(k, w, n);
    var w' := Receive(k, w, n);
    forall ns | Fits(k, w', ns)
      ensures Sound(k, ReceiveAll(k, w', ns))
    {
      FitsFirst(k, w, n, ns);
    }
    SafeSound(k, w');
  }

  // ----- Within the window -----

  /** The channel is where the reference is. */
  ghost predicate Synced(k: Link, w: Watch) {
    && Live(k, w) && Implements(w.source, w.flow) && Ascending(k, w.out) && k.low <= w.flow.last
    && Below(k, w.out, w.flow.last)
    && (forall a :: a in w.seen ==> k.content(a) in w.out || a in w.flow.held)
  }

  lemma {:induction false} SyncedSound(k: Link, w: Watch)
    requires Synced(k, w)
    ensures Sound(k, w)
  {
  }

  ghost predicate Below(k: Link, out: seq<Payload>, top: nat) {
    forall i :: 0 <= i < |out| ==> k.number(out[i]) <= top
  }

  ghost predicate SentAbove(k: Link, run: seq<Numbered>, last: nat, top: nat) {
    forall i :: 0 <= i < |run| ==> last < run[i].number <= top && run[i].data == k.content(run[i].number)
  }

  /** The payloads of a run of the sender's packets that is newer than all handed up before. */
  lemma {:induction false} AscendingMore(k: Link, out: seq<Payload>, run: seq<Numbered>, last: nat, top: nat)
    requires Distinct(k) && Ascending(k, out) && Below(k, out, last) && k.low <= last <= top
    requires Increasing(run) && SentAbove(k, run, last, top)
    ensures Ascending(k, out + Payloads(run)) && Below(k, out + Payloads(run), top)
  {
    var all := out + Payloads(run);
    PayloadsAt(run);
    forall i | 0 <= i < |all|
      ensures k.number(all[i]) == if i < |out| then k.number(out[i]) else run[i - |out|].number
    {
    }
  }

  /** What the reference hands up of a sender are packets of the sender. */
  lemma {:induction false} RunIsSent(k: Link, w: Watch, n: nat)
    requires Live(k, w) && Accepts(w.flow, n)
    ensures var (run, f') := Arrive(w.flow, k.maxStack, PacketOf(k, n));
      && Increasing(run) && w.flow.last <= f'.last
      && SentAbove(k, run, w.flow.last, f'.last)
      && (forall a :: a in w.flow.held || a == n ==> PacketOf(k, a) in run || a in f'.held)
  {
    var p := PacketOf(k, n);
    var (run, f') := Arrive(w.flow, k.maxStack, p);
    ArriveKeeps(w.flow, k.maxStack, p);
    forall i | 0 <= i < |run|
      ensures run[i].number <= f'.last && run[i].data == k.content(run[i].number)
    {
      assert run[i] in run;
      assert Has(w.flow.held, run[i]) || run[i] == p;
    }
    forall a | a in w.flow.held || a == n
      ensures PacketOf(k, a) in run || a in f'.held
    {
      assert Has(w.flow.held, PacketOf(k, a)) || PacketOf(k, a) == p;
    }
  }

  lemma {:induction false} SentInPayloads(run: seq<Numbered>, p: Numbered)
    requires p in run
    ensures p.data in Payloads(run)
  {
    PayloadsAt(run);
    var i :| 0 <= i < |run| && run[i] == p;
    assert Payloads(run)[i] == p.data;
  }

  lemma {:induction false} SyncedStep(k: Link, w: Watch, n: nat)
    requires Synced(k, w) && Accepts(w.flow, n)
    ensures Synced(k, Receive(k, w, n))
  {
    var w' := Receive(k, w, n);
    var (run, f') := Arrive(w.flow, k.maxStack, PacketOf(k, n));
    ReceiveLive(k, w, n);
    SlotIsModulo(n);
    HandleRefines(w.source, w.flow, k.maxStack, PacketOf(k, n));
    RunIsSent(k, w, n);
    assert w'.out == w.out + Payloads(run);
    AscendingMore(k, w.out, run, w.flow.last, f'.last);
    forall a | a in w'.seen
      ensures k.content(a) in w'.out || a in f'.held
    {
      if (a in w.flow.held || a == n) && PacketOf(k, a) in run {
        SentInPayloads(run, PacketOf(k, a));
      }
    }
  }

  lemma {:induction false} SyncedSafe(k: Link, w: Watch)
    requires Synced(k, w)
    ensures Safe(k, w)
  {
    forall ns | Fits(k, w, ns)
      ensures Sound(k, ReceiveAll(k, w, ns))
    {
      SyncedAll(k, w, ns);
    }
  }

  lemma {:induction false} SyncedAll(k: Link, w: Watch, ns: seq<nat>)
    requires Synced(k, w) && Fits(k, w, ns)
    ensures Sound(k, ReceiveAll(k, w, ns))
    decreases |ns|
  {
    if ns == [] {
      SyncedSound(k, w);
    } else {
      SyncedStep(k, w, ns[0]);
      SyncedAll(k, Receive(k, w, ns[0]), ns[1..]);
    }
  }

  /** A second copy of a packet that is held changes nothing. */
  lemma {:induction false} RepeatIgnored(s: Source, f: Flow, maxStack: nat, n: nat)
    requires maxStack < SLOTS - 1 && InOrder(f, maxStack) && Implements(s, f) && n in f.held
    ensures Handle(s, true, maxStack, Slot(n), f.held[n]) == ([], s)
  {
    var nb := Slot(n);
    assert s.stack.slots[nb := Some(f.held[n])] == s.stack.slots;
    assert |f.held| > 0 by {
      assert n in f.held.Keys;
    }
    NextIsModulo(s.stack.counter);
    NextIsModulo(Slot(f.last));
    SlotNext(f.last);
    var from := if f.last + 1 in f.held then f.last else f.last + 1;
    assert Next(s.count) == Slot(from);
    HasNextIff(s.stack, f.held, f.last, from);
    assert Stored(s, nb, f.held[n]) == s;
    HandleStep(s, true, maxStack, nb, f.held[n]);
  }

  // ----- Outside the window -----

  /** A packet is gone when another one comes into its slot. */
  lemma {:induction false} StoreOver(k: Link, w: Watch, a: nat, y: nat)
    requires Live(k, w) && k.content(a) !in w.out && y != a && Slot(y) == Slot(a)
    ensures var w' := Receive(k, w, y);
      k.content(a) !in w'.out && Kept(w'.source, Slot(a)) != Some(k.content(a))
  {
    var w' := Receive(k, w, y);
    ReceiveConserves(k, w, y);
    var more := w'.out[|w.out|..];
    assert w'.out == w.out + more;
    var stored := w.source.stack.slots[Slot(y) := Some(k.content(y))];
    assert k.number(k.content(y)) != k.number(k.content(a));
    forall i | 0 <= i < SLOTS
      ensures stored[i] != Some(k.content(a))
    {
      if i != Slot(y) && stored[i].Some? {
        assert stored[i] == Kept(w.source, i);
        assert InPlace(k, w, stored[i].value, i);
      }
    }
  }

  lemma {:induction false} Overwritten(k: Link, w: Watch, a: nat, y: nat)
    requires Live(k, w) && a in w.seen && k.low < a && k.content(a) !in w.out
    requires Accepts(w.flow, y) && y != a && Slot(y) == Slot(a)
    ensures !Safe(k, w)
  {
    if Safe(k, w) {
      SafeStep(k, w, y);
      StoreOver(k, w, a, y);
    }
  }

  lemma {:induction false} HeldBelow(held: map<nat, Payload>, last: nat, j: nat)
    requires forall x :: last < x <= last + j ==> x in held
    ensures |held| >= j
    decreases j
  {
    if j > 0 {
      var rest := held - {last + j};
      assert rest.Keys == held.Keys - {last + j};
      HeldBelow(rest, last, j - 1);
    }
  }

  /** The reference always takes some number. */
  lemma {:induction false} Vacancy(f: Flow, maxStack: nat) returns (n: nat)
    requires InOrder(f, maxStack) && maxStack < SLOTS - 1
    ensures Accepts(f, n)
  {
    if forall x :: f.last < x <= f.last + 255 ==> x in f.held {
      HeldBelow(f.held, f.last, 255);
    }
    n :| f.last < n <= f.last + 255 && n !in f.held;
  }

  predicate UpTo(f: Flow, top: nat) {
    f.last <= top && forall n :: n in f.held ==> n <= top
  }

  ghost predicate Leads(k: Link, w: Watch, w': Watch, top: nat) {
    && Live(k, w') && Safe(k, w')
    && w.out <= w'.out && w.seen <= w'.seen
    && forall a :: a in w'.seen ==> a in w.seen || w.flow.last < a <= top
  }

  lemma {:induction false} LeadsStep(k: Link, w: Watch, n: nat, top: nat)
    requires Live(k, w) && Safe(k, w) && Accepts(w.flow, n) && w.flow.last + 255 <= top
    ensures var w' := Receive(k, w, n);
      && Leads(k, w, w', top) && UpTo(w'.flow, top) && w.flow.last <= w'.flow.last
      && (w'.flow.last == w.flow.last ==> |w'.flow.held| == |w.flow.held| + 1)
  {
    SafeStep(k, w, n);
    ReceiveConserves(k, w, n);
    ArriveMoves(w.flow, k.maxStack, PacketOf(k, n));
  }

  lemma {:induction false} LeadsMore(k: Link, w: Watch, w': Watch, w'': Watch, top: nat)
    requires Leads(k, w, w', top) && Leads(k, w', w'', top) && w.flow.last <= w'.flow.last
    ensures Leads(k, w, w'', top)
  {
  }

  /** Every arrival moves the reference on or fills it, so some arrivals bring it beyond `z`, to where it
      takes the number that shares the slot of `z`. */
  lemma {:induction false} Beyond(k: Link, w: Watch, z: nat) returns (w': Watch)
    requires Live(k, w) && Safe(k, w) && UpTo(w.flow, z + 255)
    ensures Leads(k, w, w', z + 255) && Accepts(w'.flow, z + SLOTS)
    decreases if w.flow.last > z then 0 else z + 1 - w.flow.last, k.maxStack - |w.flow.held|
  {
    if w.flow.last > z {
      w' := w;
    } else {
      var n := Vacancy(w.flow, k.maxStack);
      LeadsStep(k, w, n, z + 255);
      var next := Receive(k, w, n);
      w' := Beyond(k, next, z);
      LeadsMore(k, w, next, w', z + 255);
    }
  }

  lemma {:induction false} NotAfter(k: Link, out: seq<Payload>, more: seq<Payload>, z: nat, v: nat)
    requires Distinct(k) && Ascending(k, more) && out <= more && k.content(v) in out && k.content(z) !in out && z <= v
    ensures k.content(z) !in more
  {
    var i :| 0 <= i < |out| && out[i] == k.content(v);
    assert more[i] == k.content(v) && k.number(more[i]) == v && k.number(k.content(z)) == z;
    forall j | 0 <= j < |more|
      ensures more[j] != k.content(z)
    {
      if j < |out| {
        assert more[j] == out[j];
      }
    }
  }

  /** A packet that is not handed up before a later one is: handing it up breaks the order, and keeping it
      ends when its slot is needed again. */
  lemma {:induction false} Overtaken(k: Link, w: Watch, z: nat, v: nat)
    requires Live(k, w) && UpTo(w.flow, z + 255)
    requires z in w.seen && k.low < z && k.content(z) !in w.out && k.content(v) in w.out && z <= v
    ensures !Safe(k, w)
  {
    if Safe(k, w) {
      var w' := Beyond(k, w, z);
      SafeSound(k, w');
      NotAfter(k, w.out, w'.out, z, v);
      SlotWraps(z);
      Overwritten(k, w', z, z + SLOTS);
    }
  }

  /** The same for a packet that has yet to arrive. */
  lemma {:induction false} Late(k: Link, w: Watch, z: nat, v: nat)
    requires Live(k, w) && Accepts(w.flow, z) && z !in w.seen && k.low < z && k.content(v) in w.out && z <= v
    ensures !Safe(k, w)
  {
    if Safe(k, w) {
      LeadsStep(k, w, z, w.flow.last + 255);
      var w' := Receive(k, w, z);
      SafeSound(k, w');
      NotAfter(k, w.out, w'.out, z, v);
      Overtaken(k, w', z, v);
    }
  }

  lemma {:induction false} OldStays(k: Link, out: seq<Payload>, n: nat)
    requires Distinct(k) && Ascending(k, out) && n <= k.low
    ensures k.content(n) !in out
  {
    assert k.number(k.content(n)) == n;
  }

  /** A packet from beyond the window: it is overwritten by the packet it is taken for, or that one is late. */
  lemma {:induction false} FarAhead(k: Link, w: Watch, n: nat, y: nat)
    requires Live(k, w) && n in w.seen && y !in w.seen
    requires Accepts(w.flow, y) && k.low < y < n && Slot(y) == Slot(n)
    ensures !Safe(k, w)
  {
    if k.content(n) !in w.out {
      Overwritten(k, w, n, y);
    } else {
      Late(k, w, y, n);
    }
  }

  lemma {:induction false} SlotWraps(n: nat)
    ensures Slot(n + SLOTS) == Slot(n)
  {
  }

  /** The number that a datagram numbered `n` is taken for: the one with its slot in the window, or the
      first one after the window. */
  lemma {:induction false} TakenFor(last: nat, n: nat) returns (m: nat)
    ensures last < m <= last + SLOTS && Slot(m) == Slot(n)
  {
    m := last + 1 + (n - last - 1) % SLOTS;
    SlotIsModulo(m);
    SlotIsModulo(n);
  }

  /** The state of the channel when it is where the flow `f` is, before anything is watched. */
  function Start(s: Source, f: Flow): Watch {
    Watch([], s, f, f.held.Keys)
  }

  lemma {:induction false} StartSynced(k: Link, s: Source, f: Flow)
    requires Distinct(k) && k.maxStack < SLOTS - 1 && k.low == f.last
    requires InOrder(f, k.maxStack) && Implements(s, f) && forall n :: n in f.held ==> f.held[n] == k.content(n)
    ensures Synced(k, Start(s, f))
  {
    var w := Start(s, f);
    forall i | 0 <= i < SLOTS && Kept(s, i).Some?
      ensures InPlace(k, w, Kept(s, i).value, i)
    {
      var x := TakenFor(f.last, i);
      assert Slot(i) == i;
      SlotWraps(f.last);
      assert x != f.last + SLOTS;
      assert x in f.held;
    }
  }

  /** A datagram in the slot that the channel looks at is handed up at once, before anything else. */
  lemma {:induction false} HandsUpAtOnce(s: Source, maxStack: nat, data: Payload)
    requires s.count < SLOTS && s.stack.counter < SLOTS && data != []
    ensures var out := Handle(s, true, maxStack, Next(s.count), data).0;
      out != [] && out[0] == data
  {
    var nb := Next(s.count);
    HandleStep(s, true, maxStack, nb, data);
    assert HasNext(Add(s.stack, nb, data), nb);
    var o := ReceiveNew(s, true, maxStack, nb, data);
    assert o.buf == Some(data);
    assert Packet(o.buf)[0] == data;
  }

  /** The packet after the last one is missing, and something else was handed up. */
  lemma {:induction false} Ahead(k: Link, w: Watch)
    requires Live(k, w) && w.out != [] && Accepts(w.flow, k.low + 1) && k.low + 1 !in w.seen
    ensures !Safe(k, w)
  {
    if Safe(k, w) {
      SafeSound(k, w);
      assert w.out[0] in w.out;
      Late(k, w, k.low + 1, k.number(w.out[0]));
    }
  }
}
