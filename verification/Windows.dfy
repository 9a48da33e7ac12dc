/** Which numbers a datagram may carry: in any state of the resequencer, exactly those newer than the last
    one handed up and at most 255 ahead of it. */
module Windows {
  import opened Wrappers
  import opened UdpStacks
  import opened Resequencing
  import opened Flows
  import opened Watches
  import opened LateArrivals

  // ----- The slot of the last number -----

  /** When the slot looked at is empty, a datagram is stored; unless there are too many packets nothing
      else happens, and if there are something is handed up. */
  lemma {:induction false} HandleQuiet(s: Source, maxStack: nat, nb: nat, data: Payload)
    requires s.count < SLOTS && s.stack.counter < SLOTS && nb < SLOTS && data != []
    requires !HasNext(Add(s.stack, nb, data), Next(s.count))
    ensures var stack := Add(s.stack, nb, data);
      if stack.counter <= maxStack then Handle(s, true, maxStack, nb, data) == ([], Source(s.count, stack))
      else Handle(s, true, maxStack, nb, data).0 != []
  {
    var stack := Add(s.stack, nb, data);
    HandleStep(s, true, maxStack, nb, data);
    if stack.counter > maxStack {
      assert HasNext(stack, nb);
      SkipFinds(stack, Next(Next(s.count)));
      var o := ReceiveNew(s, true, maxStack, nb, data);
      DrainStep(o.source, HasNext(Remove(stack, o.source.count), Next(o.source.count)));
    }
  }

  /** What is in the slot of the stored counter, and in the two after it. */
  predicate Around(s: Source, x: Option<Payload>, y: Option<Payload>, z: Option<Payload>) {
    && s.count < SLOTS
    && s.stack.slots[s.count] == x && s.stack.slots[Next(s.count)] == y && s.stack.slots[Next(Next(s.count))] == z
  }

  /** The slot of the counter is empty, and so is the next one, which the channel looks at: a datagram with
      the slot of the counter is stored, or something is handed up. */
  lemma {:induction false} StoreAtCounter(s: Source, z: Option<Payload>, maxStack: nat, data: Payload)
    requires Around(s, None, None, z) && s.stack.counter < SLOTS - 1 && data != []
    ensures var (out, s') := Handle(s, true, maxStack, s.count, data);
      if s.stack.counter < maxStack then
        && out == [] && s'.stack.counter == s.stack.counter + 1
        && s'.count == s.count && Around(s', Some(data), None, z)
      else out != []
  {
    HandleQuiet(s, maxStack, s.count, data);
  }

  /** The same for the slot after the next one. */
  lemma {:induction false} StoreAfterNext(s: Source, x: Option<Payload>, maxStack: nat, data: Payload)
    requires Around(s, x, None, None) && s.stack.counter < SLOTS - 1 && data != []
    ensures var (out, s') := Handle(s, true, maxStack, Next(Next(s.count)), data);
      if s.stack.counter < maxStack then
        && out == [] && s'.stack.counter == s.stack.counter + 1
        && s'.count == s.count && Around(s', x, None, Some(data))
      else out != []
  {
    HandleQuiet(s, maxStack, Next(Next(s.count)), data);
  }

  /** With a packet in the slot of the counter and one after the next: when the next one comes, the packet
      in the slot of the counter is handed up with it. */
  lemma {:induction false} MissingBringsStale(s: Source, maxStack: nat, early: Payload, next: Payload, d: Payload)
    requires Around(s, Some(early), None, Some(next)) && 0 < s.stack.counter < SLOTS
    requires early != [] && next != [] && d != []
    ensures Handle(s, true, maxStack, Next(s.count), d).0 == [d, early]
  {
    var nb := Next(s.count);
    AddThenRemove(s.stack, nb, d);
    HandleStep(s, true, maxStack, nb, d);
    assert ReceiveNew(s, true, maxStack, nb, d) == Outcome(s, Some(d), true);
    DrainStep(s, false);
    assert [early] + [] == [early];
    assert [d] + [early] == [d, early];
  }

  /** The packet after the next one, if it is held. */
  function AfterNext(f: Flow): Option<Payload> {
    if f.last + 2 in f.held then Some(f.held[f.last + 2]) else None
  }

  lemma {:induction false} HoldsAt(stack: Stack, held: map<nat, Payload>, lo: nat, x: nat)
    requires StackHolds(stack, held, lo) && lo <= x <= lo + 255
    ensures stack.slots[Slot(x)] == if x in held then Some(held[x]) else None
  {
  }

  lemma {:induction false} SlotsAfter(n: nat, c: nat)
    requires c == Slot(n)
    ensures Slot(n + SLOTS) == c && Slot(n + 1) == Next(c) && Slot(n + 2) == Next(Next(c))
  {
    SlotNext(n);
    SlotNext(n + 1);
  }

  /** What the channel finds next, in a state that implements a flow. */
  ghost predicate Looks(s: Source, f: Flow, c: nat) {
    && s.count < SLOTS
    && if f.last + 1 in f.held then Next(s.count) == c
       else s.count == c && Around(s, None, None, AfterNext(f)) && s.stack.counter == |f.held|
  }

  lemma {:induction false} ImplementsLooks(s: Source, f: Flow)
    requires Implements(s, f)
    ensures Looks(s, f, Slot(f.last))
  {
    SlotsAfter(f.last, Slot(f.last));
    NextIsModulo(Slot(f.last));
    HoldsAt(s.stack, f.held, f.last, f.last);
    HoldsAt(s.stack, f.held, f.last, f.last + 1);
    HoldsAt(s.stack, f.held, f.last, f.last + 2);
  }

  /** The number is that of an old packet, or of one beyond the window. */
  predicate Aside(k: Link, n: nat) {
    n <= k.low || k.low + SLOTS <= n
  }

  /** The channel looks at the slot of the datagram: it is handed up before all that are missing. */
  lemma {:induction false} SlotLagging(k: Link, w: Watch, n: nat, w': Watch)
    requires Live(k, w) && w.seen == w.flow.held.Keys && w.flow.last == k.low && Aside(k, n)
    requires w' == ReceiveAt(k, w, n, Next(w.source.count)) && Live(k, w')
    ensures !Safe(k, w')
  {
    HandsUpAtOnce(w.source, k.maxStack, k.content(n));
    if n <= k.low {
      OldUnsafe(k, w', n);
    } else {
      var z := Vacancy(w.flow, k.maxStack);
      Late(k, w', z, n);
    }
  }

  lemma {:induction false} OldUnsafe(k: Link, w: Watch, n: nat)
    requires Live(k, w) && n <= k.low && k.content(n) in w.out
    ensures !Safe(k, w)
  {
    if Safe(k, w) {
      SafeSound(k, w);
      OldStays(k, w.out, n);
    }
  }

  /** The datagram and the packet after the missing one are in their slots, and the missing one comes. */
  ghost predicate Waits(k: Link, w: Watch, n: nat) {
    && Aside(k, n) && w.out == [] && w.flow.last == k.low && k.low + 1 !in w.flow.held && k.low + 2 in w.seen
    && w.source.stack.counter > 0
    && Around(w.source, Some(k.content(n)), None, Some(k.content(k.low + 2)))
  }

  lemma {:induction false} MissingHandsUp(k: Link, w: Watch, n: nat)
    requires Live(k, w) && Waits(k, w, n)
    ensures ReceiveAt(k, w, k.low + 1, Next(w.source.count)).out == [k.content(k.low + 1), k.content(n)]
  {
    MissingBringsStale(w.source, k.maxStack, k.content(n), k.content(k.low + 2), k.content(k.low + 1));
    assert [] + [k.content(k.low + 1), k.content(n)] == [k.content(k.low + 1), k.content(n)];
  }

  lemma {:induction false} MissingTaken(k: Link, w: Watch, n: nat) returns (w': Watch)
    requires Live(k, w) && Waits(k, w, n) && Safe(k, w) && w.source.count == Slot(k.low)
    ensures Live(k, w') && Safe(k, w') && UpTo(w'.flow, k.low + 255) && k.low + 2 in w'.seen
    ensures w'.out == [k.content(k.low + 1), k.content(n)]
  {
    MissingHandsUp(k, w, n);
    LeadsStep(k, w, k.low + 1, k.low + 255);
    SlotsAfter(k.low, w.source.count);
    w' := Receive(k, w, k.low + 1);
  }

  lemma {:induction false} NeitherIs(k: Link, out: seq<Payload>, a: nat, b: nat, z: nat)
    requires Distinct(k) && out == [k.content(a), k.content(b)] && z != a && z != b
    ensures k.content(z) !in out && k.content(b) in out
  {
    assert k.number(k.content(z)) == z && k.number(k.content(a)) == a && k.number(k.content(b)) == b;
    assert out[1] == k.content(b);
  }

  lemma {:induction false} MissingLate(k: Link, w: Watch, n: nat)
    requires Live(k, w) && UpTo(w.flow, k.low + 255) && k.low + 2 in w.seen && Aside(k, n)
    requires w.out == [k.content(k.low + 1), k.content(n)]
    ensures !Safe(k, w)
  {
    NeitherIs(k, w.out, k.low + 1, n, k.low + 2);
    if n <= k.low {
      OldUnsafe(k, w, n);
    } else {
      Overtaken(k, w, k.low + 2, n);
    }
  }

  /** It is handed up with the datagram, which is old, or the one after it is late. */
  lemma {:induction false} MissingComes(k: Link, w: Watch, n: nat)
    requires Live(k, w) && Waits(k, w, n) && w.source.count == Slot(k.low)
    ensures !Safe(k, w)
  {
    if Safe(k, w) {
      var w' := MissingTaken(k, w, n);
      MissingLate(k, w', n);
    }
  }

  /** The datagram is in the slot of the last number, and the next one is missing. */
  ghost predicate Stuck(k: Link, w: Watch, n: nat) {
    && Aside(k, n) && w.out == [] && w.flow.last == k.low && w.seen == w.flow.held.Keys + {n}
    && k.low + 1 !in w.flow.held && |w.flow.held| < k.maxStack
    && w.source.stack.counter == |w.flow.held| + 1
    && Around(w.source, Some(k.content(n)), None, AfterNext(w.flow))
  }

  /** The channel stores the datagram, if it has room. */
  lemma {:induction false} TooFarStored(k: Link, w: Watch, n: nat, w': Watch)
    requires Live(k, w) && w.out == [] && w.seen == w.flow.held.Keys && k.low == w.flow.last
    requires k.low + 1 !in w.flow.held && Looks(w.source, w.flow, w.source.count)
    requires w' == ReceiveAt(k, w, n, w.source.count) && Aside(k, n)
    ensures w'.flow == w.flow && k.low + 1 !in w'.seen
    ensures w'.out == [] ==> Stuck(k, w', n) && w'.source.count == w.source.count
  {
    StoreAtCounter(w.source, AfterNext(w.flow), k.maxStack, k.content(n));
  }

  /** The packet after the missing one is held already. */
  lemma {:induction false} StuckHeld(k: Link, w: Watch, n: nat)
    requires Live(k, w) && Stuck(k, w, n) && k.low + 2 in w.flow.held && w.source.count == Slot(k.low)
    ensures !Safe(k, w)
  {
    assert Waits(k, w, n);
    MissingComes(k, w, n);
  }

  lemma {:induction false} NextKept(k: Link, f: Flow, n: nat)
    requires InOrder(f, k.maxStack) && |f.held| < k.maxStack && Distinct(k) && n == f.last + 2 && n !in f.held
    ensures Accepts(f, n) && Arrive(f, k.maxStack, PacketOf(k, n)).1 == Flow(f.last, f.held[n := k.content(n)])
  {
  }

  lemma {:induction false} NextReceived(k: Link, w: Watch, n: nat, nb: nat)
    requires Live(k, w) && w.out == [] && |w.flow.held| < k.maxStack && n == w.flow.last + 2 && n !in w.flow.held
    requires nb < SLOTS
    ensures var w' := ReceiveAt(k, w, n, nb);
      && w'.flow == Flow(w.flow.last, w.flow.held[n := k.content(n)]) && w'.seen == w.seen + {n}
      && (w'.out, w'.source) == Handle(w.source, true, k.maxStack, nb, k.content(n))
  {
    NextKept(k, w.flow, n);
    var out := Handle(w.source, true, k.maxStack, nb, k.content(n)).0;
    assert [] + out == out;
  }

  lemma {:induction false} NextWaits(k: Link, w: Watch, n: nat, w': Watch)
    requires Distinct(k) && k.maxStack < SLOTS - 1 && Stuck(k, w, n) && k.low + 2 !in w.flow.held
    requires w'.flow == Flow(k.low, w.flow.held[k.low + 2 := k.content(k.low + 2)]) && w'.seen == w.seen + {k.low + 2}
    requires (w'.out, w'.source) == Handle(w.source, true, k.maxStack, Next(Next(w.source.count)), k.content(k.low + 2))
    ensures Accepts(w'.flow, k.low + 1) && k.low + 1 !in w'.seen
    ensures w'.out == [] ==> Waits(k, w', n) && w'.source.count == w.source.count
  {
    StoreAfterNext(w.source, Some(k.content(n)), k.maxStack, k.content(k.low + 2));
  }

  lemma {:induction false} NextReceivedWaits(k: Link, w: Watch, n: nat, w': Watch, nb: nat)
    requires Live(k, w) && Stuck(k, w, n) && k.low + 2 !in w.flow.held && nb == Next(Next(w.source.count))
    requires w' == ReceiveAt(k, w, k.low + 2, nb)
    ensures Accepts(w'.flow, k.low + 1) && k.low + 1 !in w'.seen
    ensures w'.out == [] ==> Waits(k, w', n) && w'.source.count == w.source.count
  {
    NextReceived(k, w, k.low + 2, nb);
    NextWaits(k, w, n, w');
  }

  lemma {:induction false} NextOutcome(k: Link, w: Watch, n: nat)
    requires Live(k, w) && Stuck(k, w, n) && k.low + 2 !in w.flow.held && w.source.count == Slot(k.low)
    ensures var w' := Receive(k, w, k.low + 2);
      && Accepts(w'.flow, k.low + 1) && k.low + 1 !in w'.seen
      && (w'.out == [] ==> Waits(k, w', n) && w'.source.count == w.source.count)
  {
    SlotsAfter(k.low, w.source.count);
    NextReceivedWaits(k, w, n, Receive(k, w, k.low + 2), Slot(k.low + 2));
  }

  /** When it is not held either, it is sent first. */
  lemma {:induction false} StuckSent(k: Link, w: Watch, n: nat)
    requires Live(k, w) && Stuck(k, w, n) && k.low + 2 !in w.flow.held && w.source.count == Slot(k.low)
    ensures !Safe(k, w)
  {
    if Safe(k, w) {
      SafeStep(k, w, k.low + 2);
      NextOutcome(k, w, n);
      NotWaiting(k, Receive(k, w, k.low + 2), n);
    }
  }

  lemma {:induction false} NotWaiting(k: Link, w: Watch, n: nat)
    requires Live(k, w) && Accepts(w.flow, k.low + 1) && k.low + 1 !in w.seen
    requires w.out == [] ==> Waits(k, w, n) && w.source.count == Slot(k.low)
    ensures !Safe(k, w)
  {
    if w.out != [] {
      Ahead(k, w);
    } else {
      MissingComes(k, w, n);
    }
  }

  lemma {:induction false} TooFarGap(k: Link, w: Watch, n: nat)
    requires Live(k, w) && Accepts(w.flow, k.low + 1) && k.low + 1 !in w.seen
    requires w.out == [] ==> Stuck(k, w, n) && w.source.count == Slot(k.low)
    ensures !Safe(k, w)
  {
    if w.out != [] {
      Ahead(k, w);
    } else if k.low + 2 in w.flow.held {
      StuckHeld(k, w, n);
    } else {
      StuckSent(k, w, n);
    }
  }

  /** A datagram in the slot of the last number. */
  lemma {:induction false} SameSlotAt(k: Link, w: Watch, n: nat, w': Watch, c: nat)
    requires Live(k, w) && w.out == [] && w.seen == w.flow.held.Keys && k.low == w.flow.last && Aside(k, n)
    requires Looks(w.source, w.flow, c) && c < SLOTS && c == Slot(k.low)
    requires w' == ReceiveAt(k, w, n, c) && Live(k, w')
    ensures !Safe(k, w')
  {
    if k.low + 1 in w.flow.held {
      SlotLagging(k, w, n, w');
    } else {
      TooFarStored(k, w, n, w');
      TooFarGap(k, w', n);
    }
  }

  lemma {:induction false} SameSlotUnsafe(k: Link, w: Watch, n: nat)
    requires Live(k, w) && w.out == [] && w.seen == w.flow.held.Keys && k.low == w.flow.last && Aside(k, n)
    requires Slot(n) == Slot(k.low) && Looks(w.source, w.flow, Slot(n)) && Live(k, Receive(k, w, n))
    ensures !Safe(k, Receive(k, w, n))
  {
    SameSlotAt(k, w, n, Receive(k, w, n), Slot(n));
  }

  // ----- The exact window -----

  lemma {:induction false} HeldOverwritten(k: Link, w: Watch, m: nat, n: nat)
    requires Live(k, w) && m in w.seen && k.low < m && k.content(m) !in w.out && n != m && Slot(n) == Slot(m)
    requires Live(k, Receive(k, w, n))
    ensures !Safe(k, Receive(k, w, n))
  {
    StoreOver(k, w, m, n);
    var w' := Receive(k, w, n);
    assert m in w'.seen;
    if Safe(k, w') {
      SafeSound(k, w');
    }
  }

  /** A datagram from beyond the window that is taken for a packet in it. */
  lemma {:induction false} BeyondUnsafe(k: Link, w: Watch, m: nat, n: nat)
    requires Live(k, w) && w.seen == w.flow.held.Keys && k.low == w.flow.last && Live(k, Receive(k, w, n))
    requires Accepts(w.flow, m) && w.flow.last + 255 < n && Slot(m) == Slot(n)
    ensures !Safe(k, Receive(k, w, n))
  {
    FarAhead(k, Receive(k, w, n), n, m);
  }

  /** A datagram from outside the window that has the slot of a packet in it, which is not held. */
  lemma {:induction false} TakenUnsafe(k: Link, w: Watch, m: nat, n: nat)
    requires Synced(k, w) && Live(k, Receive(k, w, n)) && Accepts(w.flow, m) && Slot(m) == Slot(n)
    requires w.out == [] && w.seen == w.flow.held.Keys && k.low == w.flow.last && (n <= k.low || k.low + 255 < n)
    ensures !Safe(k, Receive(k, w, n))
  {
    if n <= k.low {
      LateUnsafe(k, w, m, n, Receive(k, w, n));
    } else {
      BeyondUnsafe(k, w, m, n);
    }
  }

  /** One that has the slot of a packet that is held. */
  lemma {:induction false} HeldUnsafe(k: Link, w: Watch, m: nat, n: nat)
    requires Live(k, w) && m in w.flow.held && Slot(m) == Slot(n) && w.out == [] && w.seen == w.flow.held.Keys
    requires k.low == w.flow.last && (n <= k.low || k.low + 255 < n) && Live(k, Receive(k, w, n))
    ensures !Safe(k, Receive(k, w, n))
  {
    assert k.low < m <= k.low + 255;
    HeldOverwritten(k, w, m, n);
  }

  /** One that has the slot of the last number. */
  lemma {:induction false} LastUnsafe(k: Link, w: Watch, n: nat)
    requires Live(k, w) && Looks(w.source, w.flow, Slot(w.flow.last)) && Live(k, Receive(k, w, n))
    requires w.out == [] && w.seen == w.flow.held.Keys && k.low == w.flow.last && (n <= k.low || k.low + 255 < n)
    requires Slot(k.low + SLOTS) == Slot(n)
    ensures !Safe(k, Receive(k, w, n))
  {
    SlotWraps(k.low);
    SameSlotUnsafe(k, w, n);
  }

  /** Outside the window: the datagram has the slot of a held packet, of the last one, or of one to come. */
  lemma {:induction false} OutsideUnsafe(k: Link, w: Watch, m: nat, n: nat)
    requires Synced(k, w) && Looks(w.source, w.flow, Slot(w.flow.last)) && Live(k, Receive(k, w, n))
    requires w.out == [] && w.seen == w.flow.held.Keys && k.low == w.flow.last && (n <= k.low || k.low + 255 < n)
    requires k.low < m <= k.low + SLOTS && Slot(m) == Slot(n)
    ensures !Safe(k, Receive(k, w, n))
  {
    if m in w.flow.held {
      HeldUnsafe(k, w, m, n);
    } else if m == k.low + SLOTS {
      LastUnsafe(k, w, n);
    } else {
      TakenUnsafe(k, w, m, n);
    }
  }

  /** The channel is where a flow of the sender's packets is, up to the last number handed up. */
  ghost predicate Follows(k: Link, s: Source, f: Flow) {
    && Distinct(k) && k.maxStack < SLOTS - 1 && k.low == f.last
    && InOrder(f, k.maxStack) && Implements(s, f) && forall n :: n in f.held ==> f.held[n] == k.content(n)
  }

  lemma {:induction false} WithinSafe(k: Link, s: Source, f: Flow, n: nat)
    requires Follows(k, s, f) && f.last < n <= f.last + 255
    ensures Live(k, Start(s, f)) && Live(k, Receive(k, Start(s, f), n)) && Safe(k, Receive(k, Start(s, f), n))
  {
    StartSynced(k, s, f);
    var w := Start(s, f);
    if n in f.held {
      RepeatIgnored(s, f, k.maxStack, n);
      assert w.seen + {n} == w.seen;
      assert w.out + [] == w.out;
      assert Receive(k, w, n) == w;
      SyncedSafe(k, w);
    } else {
      SyncedStep(k, w, n);
      SyncedSafe(k, Receive(k, w, n));
    }
  }

  lemma {:induction false} OutsideStart(k: Link, s: Source, f: Flow, n: nat)
    requires Follows(k, s, f) && (n <= f.last || f.last + 255 < n)
    ensures Live(k, Start(s, f)) && Live(k, Receive(k, Start(s, f), n)) && !Safe(k, Receive(k, Start(s, f), n))
  {
    StartSynced(k, s, f);
    ReceiveLive(k, Start(s, f), n);
    ImplementsLooks(s, f);
    var m := TakenFor(f.last, n);
    OutsideUnsafe(k, Start(s, f), m, n);
  }

  /** For every state that implements a flow of the sender's packets, and every number: the datagram does
      no harm exactly when its number is newer than the last one handed up and at most 255 ahead of it,
      a second copy of a packet that is held included. */
  lemma {:induction false} WindowIff(k: Link, s: Source, f: Flow, n: nat)
    requires Follows(k, s, f)
    ensures Live(k, Start(s, f)) && Live(k, Receive(k, Start(s, f), n))
    ensures Safe(k, Receive(k, Start(s, f), n)) <==> f.last < n <= f.last + 255
  {
    if f.last < n <= f.last + 255 {
      WithinSafe(k, s, f, n);
    } else {
      OutsideStart(k, s, f, n);
    }
  }

  // ----- A run from a new channel on which the order is lost -----

  lemma {:induction false} RunStep(sources: map<string, Source>, maxStack: nat, a: Arrival, rest: seq<Arrival>,
                                   out: seq<Payload>, next: Source)
    requires Bytes(sources) && ChannelStep(sources, maxStack, a) == (out, next)
    ensures RunChannel(sources, maxStack, [a] + rest).0 ==
      Tagged(a.ip, out) + RunChannel(sources[a.ip := next], maxStack, rest).0
  {
    assert ([a] + rest)[1..] == rest;
  }

  /** What the channel does with a datagram of a sender it knows. */
  predicate Takes(s: Source, maxStack: nat, n: nat, data: Payload, out: seq<Payload>, s': Source) {
    s.count < SLOTS && s.stack.counter < SLOTS && Handle(s, true, maxStack, n % SLOTS, data) == (out, s')
  }

  lemma {:induction false} RunKnown(ip: string, s: Source, maxStack: nat, n: nat, data: Payload, rest: seq<Arrival>,
                                    out: seq<Payload>, s': Source)
    requires Takes(s, maxStack, n, data, out, s')
    ensures s'.count < SLOTS && s'.stack.counter < SLOTS
    ensures RunChannel(map[ip := s], maxStack, [Arrival(ip, Numbered(n, data))] + rest).0 ==
      Tagged(ip, out) + RunChannel(map[ip := s'], maxStack, rest).0
  {
    RunStep(map[ip := s], maxStack, Arrival(ip, Numbered(n, data)), rest, out, s');
    assert map[ip := s][ip := s'] == map[ip := s'];
  }

  lemma {:induction false} FirstTaken(ip: string, maxStack: nat, n: nat, data: Payload, rest: seq<Arrival>)
    returns (s: Source)
    requires data != []
    ensures Around(s, None, None, None) && s.count == n % SLOTS && s.stack.counter == 0
    ensures RunChannel(map[], maxStack, [Arrival(ip, Numbered(n, data))] + rest).0 ==
      [(ip, data)] + RunChannel(map[ip := s], maxStack, rest).0
  {
    var a := Arrival(ip, Numbered(n, data));
    FirstRefines(Source(0, EmptyStack()), maxStack, a.packet);
    s := ChannelStep(map[], maxStack, a).1;
    ImplementsLooks(s, Flow(n, map[]));
    SlotIsModulo(n);
    RunStep(map[], maxStack, a, rest, [data], s);
    assert Tagged(ip, [data]) == [(ip, data)];
  }

  lemma {:induction false} SecondTaken(s: Source, maxStack: nat, last: nat, n: nat, early: Payload) returns (s': Source)
    requires Around(s, None, None, None) && s.count == last % SLOTS && s.stack.counter == 0
    requires 2 <= maxStack && n % SLOTS == last % SLOTS && early != []
    ensures Takes(s, maxStack, n, early, [], s') && s'.count == s.count && s'.stack.counter == 1
    ensures Around(s', Some(early), None, None)
  {
    StoreAtCounter(s, None, maxStack, early);
    s' := Handle(s, true, maxStack, s.count, early).1;
  }

  lemma {:induction false} ThirdTaken(s: Source, maxStack: nat, last: nat, early: Payload, next: Payload)
    returns (s': Source)
    requires Around(s, Some(early), None, None) && s.count == last % SLOTS && s.stack.counter == 1
    requires 2 <= maxStack && next != []
    ensures Takes(s, maxStack, last + 2, next, [], s') && s'.count == s.count && s'.stack.counter == 2
    ensures Around(s', Some(early), None, Some(next))
  {
    SlotIsModulo(last);
    SlotIsModulo(last + 2);
    SlotsAfter(last, s.count);
    StoreAfterNext(s, Some(early), maxStack, next);
    s' := Handle(s, true, maxStack, Next(Next(s.count)), next).1;
  }

  lemma {:induction false} FourthTaken(s: Source, maxStack: nat, last: nat, early: Payload, next: Payload, d: Payload)
    returns (s': Source)
    requires Around(s, Some(early), None, Some(next)) && s.count == last % SLOTS && s.stack.counter == 2
    requires early != [] && next != [] && d != []
    ensures Takes(s, maxStack, last + 1, d, [d, early], s')
  {
    SlotIsModulo(last);
    SlotIsModulo(last + 1);
    SlotsAfter(last, s.count);
    MissingBringsStale(s, maxStack, early, next, d);
    s' := Handle(s, true, maxStack, Next(s.count), d).1;
  }

  lemma {:induction false} RunFourth(ip: string, s: Source, maxStack: nat, last: nat, early: Payload, next: Payload,
                                     d: Payload)
    requires Around(s, Some(early), None, Some(next)) && s.count == last % SLOTS && s.stack.counter == 2
    requires early != [] && next != [] && d != []
    ensures RunChannel(map[ip := s], maxStack, [Arrival(ip, Numbered(last + 1, d))] + []).0 == [(ip, d), (ip, early)]
  {
    var s' := FourthTaken(s, maxStack, last, early, next, d);
    RunKnown(ip, s, maxStack, last + 1, d, [], [d, early], s');
    assert Tagged(ip, [d, early]) == [(ip, d), (ip, early)];
  }

  /** The packet after the next one, and the next one. */
  function LastTwo(ip: string, last: nat, next: Payload, d: Payload): seq<Arrival> {
    [Arrival(ip, Numbered(last + 2, next))] + ([Arrival(ip, Numbered(last + 1, d))] + [])
  }

  lemma {:induction false} RunThird(ip: string, s: Source, maxStack: nat, last: nat, early: Payload, next: Payload,
                                    d: Payload)
    requires Around(s, Some(early), None, None) && s.count == last % SLOTS && s.stack.counter == 1
    requires 2 <= maxStack && early != [] && next != [] && d != []
    ensures RunChannel(map[ip := s], maxStack, LastTwo(ip, last, next, d)).0 == [(ip, d), (ip, early)]
  {
    var s' := ThirdTaken(s, maxStack, last, early, next);
    RunFourth(ip, s', maxStack, last, early, next, d);
    RunKnown(ip, s, maxStack, last + 2, next, [Arrival(ip, Numbered(last + 1, d))] + [], [], s');
  }

  lemma {:induction false} RunSecond(ip: string, s: Source, maxStack: nat, last: nat, n: nat,
                                     early: Payload, next: Payload, d: Payload)
    requires Around(s, None, None, None) && s.count == last % SLOTS && s.stack.counter == 0
    requires 2 <= maxStack && n % SLOTS == last % SLOTS && early != [] && next != [] && d != []
    ensures RunChannel(map[ip := s], maxStack, [Arrival(ip, Numbered(n, early))] + LastTwo(ip, last, next, d)).0 ==
      [(ip, d), (ip, early)]
  {
    var s' := SecondTaken(s, maxStack, last, n, early);
    RunThird(ip, s', maxStack, last, early, next, d);
    RunKnown(ip, s, maxStack, n, early, LastTwo(ip, last, next, d), [], s');
  }

  /** On a new channel four datagrams of one sender suffice to lose the order: any one, one with its slot (a
      second copy, or one numbered 256 more), the one after the next, and the next. The second comes after
      the next one, and before the one after it. */
  lemma {:induction false} OrderLost(ip: string, maxStack: nat, last: nat, n: nat,
                                     x: Payload, early: Payload, next: Payload, d: Payload)
    requires 2 <= maxStack && n % SLOTS == last % SLOTS
    requires x != [] && early != [] && next != [] && d != []
    ensures RunChannel(map[], maxStack,
                [Arrival(ip, Numbered(last, x))]
                  + ([Arrival(ip, Numbered(n, early))] + LastTwo(ip, last, next, d))).0 ==
      [(ip, x), (ip, d), (ip, early)]
  {
    var rest := [Arrival(ip, Numbered(n, early))] + LastTwo(ip, last, next, d);
    var s := FirstTaken(ip, maxStack, last, x, rest);
    RunSecond(ip, s, maxStack, last, n, early, next, d);
  }
}
