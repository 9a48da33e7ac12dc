/** What becomes of a late datagram that the channel takes for a packet yet to come. The channel then does
    what the reference would do with a flow that holds the late datagram in the place of that packet, a
    shadow of the flow it should follow. Packets that come in the window make it hand the late datagram up,
    or break the order or lose a packet before they do. */
module LateArrivals {
  import opened Wrappers
  import opened UdpStacks
  import opened Resequencing
  import opened Flows
  import opened Watches

  // ----- What the reference flushes -----

  /** A flush hands up the consecutive packets from `m` on, and leaves the ones after the next gap. */
  ghost predicate Splits(held: map<nat, Payload>, m: nat, run: seq<Numbered>, flow: Flow) {
    && m <= flow.last && flow.last + 1 !in held
    && (forall x :: m <= x <= flow.last ==> x in held)
    && (forall x: nat :: x in flow.held <==> x in held && x > flow.last)
    && (forall x :: x in flow.held ==> flow.held[x] == held[x])
    && run != [] && run[0].number == m
  }

  lemma {:induction false} FlushSplits(held: map<nat, Payload>, m: nat)
    requires m in held && forall n :: n in held ==> m <= n
    ensures Splits(held, m, Flush(held, m).0, Flush(held, m).1)
    decreases |held|
  {
    var rest := held - {m};
    assert rest.Keys == held.Keys - {m};
    assert |rest.Keys| < |held.Keys|;
    assert forall x :: x in rest <==> x in held && x != m;
    if m + 1 in rest {
      FlushSplits(rest, m + 1);
      SplitsCons(held, rest, m, Flush(rest, m + 1).0, Flush(rest, m + 1).1);
    }
  }

  lemma {:induction false} SplitsCons(held: map<nat, Payload>, rest: map<nat, Payload>, m: nat, run: seq<Numbered>,
                                      flow: Flow)
    requires m in held && rest == held - {m} && Splits(rest, m + 1, run, flow)
    ensures Splits(held, m, [Numbered(m, held[m])] + run, flow)
  {
    assert forall x :: x in rest <==> x in held && x != m;
  }

  /** An arrival out of order with too many packets held, in a flow that holds the packet after the last
      one: everything up to the next gap goes. */
  lemma {:induction false} ArriveSplits(f: Flow, maxStack: nat, p: Numbered)
    requires InOrder(f, maxStack) && Admissible(f, p) && p.number != f.last + 1
    requires |f.held| == maxStack && f.last + 1 in f.held
    ensures var (run, f') := Arrive(f, maxStack, p);
      Splits(f.held[p.number := p.data], f.last + 1, run, f')
  {
    var held := f.held[p.number := p.data];
    ArriveFlushes(f, maxStack, p);
    var m := Least(held, f.last + 1, f.last + 255);
    assert f.last + 1 in held && m == f.last + 1;
    FlushSplits(held, m);
  }

  /** No number an arrival leaves is above all that came. */
  lemma {:induction false} ArriveUpTo(f: Flow, maxStack: nat, p: Numbered, top: nat)
    requires InOrder(f, maxStack) && Admissible(f, p) && UpTo(f, top) && p.number <= top
    ensures UpTo(Arrive(f, maxStack, p).1, top)
  {
    ArriveKeeps(f, maxStack, p);
    var (out, f') := Arrive(f, maxStack, p);
    forall n | n in f'.held
      ensures n <= top
    {
      assert Has(f'.held, Numbered(n, f'.held[n]));
    }
    if out != [] {
      var q := out[|out| - 1];
      assert q in out;
      assert Has(f.held, q) || q == p;
    }
  }

  // ----- The shadow -----

  /** The content in the place of number `x`: that of the packet, but for the late datagram `n` in the place
      of `m`. */
  function InPlaceOf(k: Link, m: nat, n: nat, x: nat): Payload {
    k.content(if x == m then n else x)
  }

  ghost predicate Labels(k: Link, g: Flow, m: nat, n: nat) {
    forall x :: x in g.held ==> g.held[x] == InPlaceOf(k, m, n, x)
  }

  /** The channel is where the flow `g` is, in which the late datagram `n` stands for `m`. */
  ghost predicate Shadows(k: Link, w: Watch, g: Flow, m: nat, n: nat) {
    && Implements(w.source, g) && InOrder(g, k.maxStack) && Labels(k, g, m, n)
    && m in g.held && n <= k.low <= g.last && Below(k, w.out, g.last)
  }

  lemma {:induction false} RunBelow(k: Link, out: seq<Payload>, run: seq<Numbered>, last: nat, top: nat)
    requires Distinct(k) && Below(k, out, last) && last <= top && SentAbove(k, run, last, top)
    ensures Below(k, out + Payloads(run), top)
  {
    var all := out + Payloads(run);
    PayloadsAt(run);
    forall i | 0 <= i < |all|
      ensures k.number(all[i]) == if i < |out| then k.number(out[i]) else run[i - |out|].number
    {
    }
  }

  /** What an arrival makes of a labelled flow. */
  lemma {:induction false} ArriveLabels(k: Link, g: Flow, m: nat, n: nat, p: Numbered)
    requires InOrder(g, k.maxStack) && Labels(k, g, m, n) && Admissible(g, p) && p.data == InPlaceOf(k, m, n, p.number)
    ensures var r := Arrive(g, k.maxStack, p);
      && InOrder(r.1, k.maxStack) && Labels(k, r.1, m, n) && g.last <= r.1.last
      && forall i :: 0 <= i < |r.0| ==>
           g.last < r.0[i].number <= r.1.last && r.0[i].data == InPlaceOf(k, m, n, r.0[i].number)
  {
    var r := Arrive(g, k.maxStack, p);
    ArriveKeeps(g, k.maxStack, p);
    forall x | x in r.1.held
      ensures r.1.held[x] == InPlaceOf(k, m, n, x)
    {
      assert Has(r.1.held, Numbered(x, r.1.held[x]));
    }
    forall i | 0 <= i < |r.0|
      ensures g.last < r.0[i].number <= r.1.last && r.0[i].data == InPlaceOf(k, m, n, r.0[i].number)
    {
      assert r.0[i] in r.0;
      assert Has(g.held, r.0[i]) || r.0[i] == p;
    }
  }

  /** Unless the late datagram is handed up, only packets newer than the ones before are. */
  lemma {:induction false} ArriveLate(k: Link, g: Flow, m: nat, n: nat, p: Numbered)
    requires InOrder(g, k.maxStack) && Labels(k, g, m, n) && Admissible(g, p) && p.data == InPlaceOf(k, m, n, p.number)
    requires m in g.held || p.number == m
    ensures var r := Arrive(g, k.maxStack, p);
      if m in r.1.held then SentAbove(k, r.0, g.last, r.1.last) else k.content(n) in Payloads(r.0)
  {
    var r := Arrive(g, k.maxStack, p);
    var late := Numbered(m, k.content(n));
    ArriveKeeps(g, k.maxStack, p);
    ArriveLabels(k, g, m, n, p);
    assert Has(g.held, late) || late == p;
    if m !in r.1.held {
      SentInPayloads(r.0, late);
    }
  }

  /** After an arrival that both take: the channel goes on as the shadow, unless it hands up the late
      datagram, which would not be safe. */
  lemma {:induction false} ShadowStep(k: Link, w: Watch, g: Flow, m: nat, n: nat, x: nat) returns (w': Watch)
    requires Live(k, w) && Safe(k, w) && Shadows(k, w, g, m, n) && Accepts(g, x) && Accepts(w.flow, x)
    ensures Live(k, w') && Safe(k, w') && Shadows(k, w', Arrive(g, k.maxStack, PacketOf(k, x)).1, m, n)
    ensures w'.flow == Arrive(w.flow, k.maxStack, PacketOf(k, x)).1
  {
    w' := Receive(k, w, x);
    var run, g' := Arrive(g, k.maxStack, PacketOf(k, x)).0, Arrive(g, k.maxStack, PacketOf(k, x)).1;
    SafeStep(k, w, x);
    SlotIsModulo(x);
    HandleRefines(w.source, g, k.maxStack, PacketOf(k, x));
    ArriveLabels(k, g, m, n, PacketOf(k, x));
    ArriveLate(k, g, m, n, PacketOf(k, x));
    assert w'.out == w.out + Payloads(run);
    OldStays(k, w'.out, n);
    assert m in g'.held;
    RunBelow(k, w.out, run, g.last, g'.last);
  }

  // ----- Level with the reference -----

  /** The shadow `g` holds what the reference `f` holds, and the late datagram in the place of `m`. */
  predicate Level(f: Flow, g: Flow, m: nat) {
    f.last == g.last && f.held.Keys == g.held.Keys - {m}
  }

  /** The shadow has handed up what the reference holds up to a gap, and holds the rest and the late
      datagram. The reference is full. */
  ghost predicate Overhauls(f: Flow, g: Flow, m: nat, maxStack: nat) {
    && f.last < g.last && g.last + 1 !in g.held && m <= f.last + 255 && |f.held| == maxStack
    && (forall x :: f.last < x <= g.last ==> x in f.held)
    && (forall x: nat :: g.last < x ==> (x in f.held <==> x in g.held && x != m))
  }

  ghost predicate Twin(k: Link, w: Watch, g: Flow, m: nat, n: nat) {
    Shadows(k, w, g, m, n) && Level(w.flow, g, m)
  }

  ghost predicate Leading(k: Link, w: Watch, g: Flow, m: nat, n: nat) {
    Shadows(k, w, g, m, n) && Overhauls(w.flow, g, m, k.maxStack)
  }

  /** The shadow still holds the packet after its last one, and the reference is past it. */
  ghost predicate Behind(f: Flow, g: Flow, m: nat) {
    g.last < f.last && UpTo(f, g.last + 255) && g.last + 1 in g.held && g.last + 1 != m
  }

  ghost predicate Caught(f: Flow, g: Flow, m: nat) {
    Level(f, g, m) || Behind(f, g, m)
  }

  lemma {:induction false} LevelSizes(f: Flow, g: Flow, m: nat)
    requires Level(f, g, m) && m in g.held
    ensures |f.held| == |g.held| - 1
  {
    assert |f.held.Keys| == |g.held.Keys| - 1;
  }

  lemma {:induction false} KeptArrive(f: Flow, maxStack: nat, p: Numbered)
    requires InOrder(f, maxStack) && Admissible(f, p) && p.number != f.last + 1 && |f.held| < maxStack
    ensures Arrive(f, maxStack, p).1 == Flow(f.last, f.held[p.number := p.data])
    ensures |f.held[p.number := p.data]| == |f.held| + 1
  {
  }

  /** The packet after the last one goes through both. */
  lemma {:induction false} NextLevel(f: Flow, g: Flow, m: nat, maxStack: nat, p: Numbered)
    requires InOrder(f, maxStack) && InOrder(g, maxStack) && Level(f, g, m)
    requires p.number == g.last + 1 && p.number !in g.held && p.data != []
    ensures Admissible(f, p) && Admissible(g, p)
    ensures Arrive(g, maxStack, p).1 == Flow(g.last + 1, g.held)
    ensures Level(Arrive(f, maxStack, p).1, Flow(g.last + 1, g.held), m)
  {
  }

  /** There is room: both keep the packet. */
  lemma {:induction false} LevelKeeps(f: Flow, g: Flow, m: nat, maxStack: nat, p: Numbered)
    requires InOrder(f, maxStack) && InOrder(g, maxStack) && Level(f, g, m) && m in g.held
    requires Admissible(g, p) && p.number != g.last + 1 && |g.held| < maxStack
    ensures Admissible(f, p) && |f.held| < maxStack
    ensures Arrive(g, maxStack, p).1.last == g.last && |Arrive(g, maxStack, p).1.held| == |g.held| + 1
    ensures Level(Arrive(f, maxStack, p).1, Arrive(g, maxStack, p).1, m)
  {
    LevelSizes(f, g, m);
    KeptArrive(f, maxStack, p);
    KeptArrive(g, maxStack, p);
  }

  /** There is none: unless it hands up the late datagram, the shadow goes ahead up to the next gap. */
  lemma {:induction false} LevelFlushes(f: Flow, g: Flow, m: nat, maxStack: nat, p: Numbered)
    requires InOrder(f, maxStack) && InOrder(g, maxStack) && Level(f, g, m) && m in g.held
    requires Admissible(g, p) && g.last + 1 in g.held && |g.held| == maxStack
    ensures Admissible(f, p) && |f.held| < maxStack
    ensures m in Arrive(g, maxStack, p).1.held ==>
      && Overhauls(Arrive(f, maxStack, p).1, Arrive(g, maxStack, p).1, m, maxStack)
      && g.last < Arrive(g, maxStack, p).1.last
  {
    LevelSizes(f, g, m);
    KeptArrive(f, maxStack, p);
    ArriveSplits(g, maxStack, p);
    if m in Arrive(g, maxStack, p).1.held {
      SplitOverhauls(f, g, m, maxStack, p, Arrive(g, maxStack, p).0, Arrive(g, maxStack, p).1);
    }
  }

  lemma {:induction false} SplitOverhauls(f: Flow, g: Flow, m: nat, maxStack: nat, p: Numbered, run: seq<Numbered>,
                                          g': Flow)
    requires Level(f, g, m) && m in g.held && m <= g.last + 255 && p.number != m && p.number > g.last
    requires forall x :: x in g.held ==> x > g.last
    requires Splits(g.held[p.number := p.data], g.last + 1, run, g') && m in g'.held
    requires |f.held[p.number := p.data]| == maxStack
    ensures Overhauls(Flow(f.last, f.held[p.number := p.data]), g', m, maxStack) && g.last < g'.last
  {
    SplitKeys(f.held[p.number := p.data], g.held[p.number := p.data], m, f.last, run, g');
  }

  /** What is left of the packets `held` after a flush up to the next gap, when one side also holds `m`. */
  lemma {:induction false} SplitKeys(held: map<nat, Payload>, more: map<nat, Payload>, m: nat, last: nat,
                                     run: seq<Numbered>, g: Flow)
    requires held.Keys == more.Keys - {m} && Splits(more, last + 1, run, g) && m in g.held
    ensures last < g.last && g.last + 1 !in g.held
    ensures forall x :: last < x <= g.last ==> x in held
    ensures forall x: nat :: g.last < x ==> (x in held <==> x in g.held && x != m)
  {
    assert forall x :: x in held <==> x in more && x != m;
    assert m > g.last;
    assert g.last + 1 in g.held ==> g.last + 1 in more;
  }

  /** The packet in the gap comes: the reference goes to the same place, or further. */
  lemma {:induction false} LeadsNext(f: Flow, g: Flow, m: nat, maxStack: nat, p: Numbered)
    requires InOrder(f, maxStack) && InOrder(g, maxStack) && Overhauls(f, g, m, maxStack) && m in g.held
    requires p.number == g.last + 1 && p.data != []
    ensures Admissible(f, p) && Admissible(g, p)
    ensures Arrive(g, maxStack, p).1.last == p.number
    ensures Caught(Arrive(f, maxStack, p).1, Arrive(g, maxStack, p).1, m)
  {
    assert m > g.last + 1;
    ArriveSplits(f, maxStack, p);
    ArriveMoves(f, maxStack, p);
    SplitCatchesUp(f, g, m, p, Arrive(f, maxStack, p).0, Arrive(f, maxStack, p).1);
  }

  lemma {:induction false} SplitCatchesUp(f: Flow, g: Flow, m: nat, p: Numbered, run: seq<Numbered>, f': Flow)
    requires Overhauls(f, g, m, |f.held|) && m in g.held && p.number == g.last + 1
    requires forall x :: x in g.held ==> x > g.last
    requires Splits(f.held[p.number := p.data], f.last + 1, run, f') && UpTo(f', f.last + 255)
    ensures Caught(f', Flow(p.number, g.held), m)
  {
    var held := f.held[p.number := p.data];
    assert forall x: nat :: x > p.number ==> (x in held <==> x in g.held && x != m);
    assert forall x :: f.last < x <= p.number ==> x in held;
    assert f'.last + 1 !in held;
    assert f'.last >= p.number;
    if !(p.number + 1 in g.held && p.number + 1 != m) {
      assert p.number + 1 !in held;
      assert f'.last == p.number;
      forall x: nat
        ensures x in f'.held <==> x in g.held && x != m
      {
        assert x in g.held ==> x > p.number;
      }
    }
  }

  // ----- Behind the reference -----

  /** The packet numbered 256 more than the last one of the shadow is then in the window, and is handed up
      at once. */
  lemma {:induction false} BehindUnsafe(k: Link, w: Watch, g: Flow, m: nat, n: nat)
    requires Live(k, w) && Shadows(k, w, g, m, n) && Behind(w.flow, g, m)
    ensures !Safe(k, w)
  {
    if Safe(k, w) {
      var (z, y) := (g.last + 1, g.last + SLOTS);
      HeldSeen(k, w, g, m, n, z);
      var w' := HandedUpAtOnce(k, w, g, m, n);
      FirstOfMore(k, w.out, w'.out, z, y);
      Overtaken(k, w', z, y);
    }
  }

  lemma {:induction false} HandedUpAtOnce(k: Link, w: Watch, g: Flow, m: nat, n: nat) returns (w': Watch)
    requires Live(k, w) && Safe(k, w) && Shadows(k, w, g, m, n) && Behind(w.flow, g, m)
    ensures Live(k, w') && Safe(k, w') && Ascending(k, w'.out) && w.seen <= w'.seen
    ensures UpTo(w'.flow, g.last + SLOTS)
    ensures w.out < w'.out && w'.out[|w.out|] == k.content(g.last + SLOTS)
  {
    var y := g.last + SLOTS;
    LagLooks(w.source, g);
    SlotWraps(g.last);
    HandsUpAtOnce(w.source, k.maxStack, k.content(y));
    SafeStep(k, w, y);
    ArriveUpTo(w.flow, k.maxStack, PacketOf(k, y), y);
    w' := Receive(k, w, y);
  }

  lemma {:induction false} LagLooks(s: Source, g: Flow)
    requires Implements(s, g) && g.last + 1 in g.held
    ensures Next(s.count) == Slot(g.last)
  {
    NextIsModulo(Slot(g.last));
  }

  /** A packet that the shadow holds was seen and is not handed up yet. */
  lemma {:induction false} HeldSeen(k: Link, w: Watch, g: Flow, m: nat, n: nat, z: nat)
    requires Live(k, w) && Shadows(k, w, g, m, n) && z in g.held && z != m
    ensures z in w.seen && k.content(z) !in w.out && k.low < z
  {
    assert Kept(w.source, Slot(z)) == Some(k.content(z));
    assert InPlace(k, w, k.content(z), Slot(z));
    assert k.number(k.content(z)) == z;
  }

  /** What follows the first of the packets handed up is newer. */
  lemma {:induction false} FirstOfMore(k: Link, out: seq<Payload>, more: seq<Payload>, z: nat, y: nat)
    requires Distinct(k) && Ascending(k, more) && out < more && more[|out|] == k.content(y)
    requires k.content(z) !in out && z < y
    ensures k.content(z) !in more && k.content(y) in more
  {
    assert k.number(k.content(y)) == y && k.number(k.content(z)) == z;
    forall j | 0 <= j < |more|
      ensures more[j] != k.content(z)
    {
      if j < |out| {
        assert more[j] == out[j];
      }
    }
  }

  // ----- The late datagram comes out -----

  /** Level with the reference the shadow cannot go on for ever: some packets in the window make the channel
      hand up the late datagram, or break the order, or lose one. */
  lemma {:induction false} TwinUnsafe(k: Link, w: Watch, g: Flow, m: nat, n: nat)
    requires Live(k, w) && Twin(k, w, g, m, n)
    ensures !Safe(k, w)
    decreases m - g.last, k.maxStack - |g.held|, 2
  {
    if g.last + 1 !in g.held {
      TwinNextUnsafe(k, w, g, m, n);
    } else if |g.held| < k.maxStack {
      TwinKeepsUnsafe(k, w, g, m, n);
    } else {
      TwinFlushesUnsafe(k, w, g, m, n);
    }
  }

  /** The packet after the last one is missing: it comes. */
  lemma {:induction false} TwinNextUnsafe(k: Link, w: Watch, g: Flow, m: nat, n: nat)
    requires Live(k, w) && Twin(k, w, g, m, n) && g.last + 1 !in g.held
    ensures !Safe(k, w)
    decreases m - g.last, k.maxStack - |g.held|, 1
  {
    if Safe(k, w) {
      NextLevel(w.flow, g, m, k.maxStack, PacketOf(k, g.last + 1));
      var w' := ShadowStep(k, w, g, m, n, g.last + 1);
      TwinUnsafe(k, w', Flow(g.last + 1, g.held), m, n);
    }
  }

  /** It is held, and there is room: any packet comes. */
  lemma {:induction false} TwinKeepsUnsafe(k: Link, w: Watch, g: Flow, m: nat, n: nat)
    requires Live(k, w) && Twin(k, w, g, m, n) && g.last + 1 in g.held && |g.held| < k.maxStack
    ensures !Safe(k, w)
    decreases m - g.last, k.maxStack - |g.held|, 1
  {
    if Safe(k, w) {
      var x := Vacancy(g, k.maxStack);
      LevelKeeps(w.flow, g, m, k.maxStack, PacketOf(k, x));
      var w' := ShadowStep(k, w, g, m, n, x);
      TwinUnsafe(k, w', Arrive(g, k.maxStack, PacketOf(k, x)).1, m, n);
    }
  }

  /** It is held, and there is no room: any packet makes the shadow go ahead. */
  lemma {:induction false} TwinFlushesUnsafe(k: Link, w: Watch, g: Flow, m: nat, n: nat)
    requires Live(k, w) && Twin(k, w, g, m, n) && g.last + 1 in g.held && |g.held| == k.maxStack
    ensures !Safe(k, w)
    decreases m - g.last, k.maxStack - |g.held|, 1
  {
    if Safe(k, w) {
      var x := Vacancy(g, k.maxStack);
      LevelFlushes(w.flow, g, m, k.maxStack, PacketOf(k, x));
      var w' := ShadowStep(k, w, g, m, n, x);
      LeadingUnsafe(k, w', Arrive(g, k.maxStack, PacketOf(k, x)).1, m, n);
    }
  }

  /** The packet in the gap comes: the shadow is level with the reference again, or behind it. */
  lemma {:induction false} LeadingUnsafe(k: Link, w: Watch, g: Flow, m: nat, n: nat)
    requires Live(k, w) && Leading(k, w, g, m, n)
    ensures !Safe(k, w)
    decreases m - g.last, k.maxStack - |g.held|, 0
  {
    if Safe(k, w) {
      var y := g.last + 1;
      LeadsNext(w.flow, g, m, k.maxStack, PacketOf(k, y));
      var w' := ShadowStep(k, w, g, m, n, y);
      CaughtUnsafe(k, w', Arrive(g, k.maxStack, PacketOf(k, y)).1, m, n);
    }
  }

  lemma {:induction false} CaughtUnsafe(k: Link, w: Watch, g: Flow, m: nat, n: nat)
    requires Live(k, w) && Shadows(k, w, g, m, n) && Caught(w.flow, g, m)
    ensures !Safe(k, w)
    decreases m - g.last, k.maxStack - |g.held|, 3
  {
    if Level(w.flow, g, m) {
      TwinUnsafe(k, w, g, m, n);
    } else {
      BehindUnsafe(k, w, g, m, n);
    }
  }

  // ----- The arrival of the late datagram -----

  /** The channel takes the late datagram for the packet `m`, which the reference does not hold. */
  lemma {:induction false} LateHandled(k: Link, w: Watch, m: nat, n: nat, w': Watch, p: Numbered)
    requires Live(k, w) && Implements(w.source, w.flow) && w.out == [] && n <= w.flow.last
    requires Accepts(w.flow, m) && Slot(m) == Slot(n) && w' == Receive(k, w, n) && p == Numbered(m, k.content(n))
    ensures w'.flow == w.flow && w'.seen == w.seen + {n} && w'.out == Payloads(Arrive(w.flow, k.maxStack, p).0)
    ensures Implements(w'.source, Arrive(w.flow, k.maxStack, p).1)
  {
    SlotIsModulo(m);
    HandleRefines(w.source, w.flow, k.maxStack, p);
    var run := Arrive(w.flow, k.maxStack, p).0;
    assert w'.out == [] + Payloads(run) == Payloads(run);
  }

  lemma {:induction false} LateShadows(k: Link, w: Watch, f: Flow, m: nat, n: nat, p: Numbered)
    requires Distinct(k) && InOrder(f, k.maxStack) && Labels(k, f, m, n) && Accepts(f, m)
    requires p == Numbered(m, k.content(n)) && n <= k.low == f.last
    requires w.out == Payloads(Arrive(f, k.maxStack, p).0) && Ascending(k, w.out)
    requires Implements(w.source, Arrive(f, k.maxStack, p).1)
    ensures Shadows(k, w, Arrive(f, k.maxStack, p).1, m, n)
  {
    var run, g := Arrive(f, k.maxStack, p).0, Arrive(f, k.maxStack, p).1;
    ArriveLabels(k, f, m, n, p);
    ArriveLate(k, f, m, n, p);
    OldStays(k, w.out, n);
    RunBelow(k, [], run, f.last, g.last);
    assert [] + Payloads(run) == Payloads(run);
  }

  /** The state after that: level with the reference, ahead of it, or something is handed up before the
      packet after the last one. */
  ghost predicate GoesOn(f: Flow, g: Flow, m: nat, maxStack: nat, out: seq<Payload>) {
    || Level(f, g, m)
    || Overhauls(f, g, m, maxStack)
    || (f.last + 1 !in f.held && out != [])
  }

  lemma {:induction false} LateLevel(f: Flow, m: nat, maxStack: nat, p: Numbered)
    requires InOrder(f, maxStack) && Admissible(f, p) && p.number == m
    ensures m in Arrive(f, maxStack, p).1.held ==>
      GoesOn(f, Arrive(f, maxStack, p).1, m, maxStack, Payloads(Arrive(f, maxStack, p).0))
  {
    if p.number != f.last + 1 {
      if |f.held| < maxStack {
        KeptArrive(f, maxStack, p);
      } else if f.last + 1 in f.held {
        ArriveSplits(f, maxStack, p);
        LateOverhauls(f, m, maxStack, p, Arrive(f, maxStack, p).0, Arrive(f, maxStack, p).1);
      } else {
        ArriveFlushes(f, maxStack, p);
      }
    }
  }

  lemma {:induction false} LateOverhauls(f: Flow, m: nat, maxStack: nat, p: Numbered, run: seq<Numbered>, g: Flow)
    requires p.number == m && m !in f.held && f.last + 1 < m <= f.last + 255 && |f.held| == maxStack
    requires forall x :: x in f.held ==> x > f.last
    requires Splits(f.held[m := p.data], f.last + 1, run, g)
    ensures m in g.held ==> Overhauls(f, g, m, maxStack)
  {
    var held := f.held[m := p.data];
    assert forall x :: x in f.held <==> x in held && x != m;
    assert g.last + 1 !in g.held;
    forall x: nat | g.last < x
      ensures x in f.held <==> x in g.held && x != m
    {
      assert x in g.held <==> x in held;
    }
  }

  lemma {:induction false} LateGoesOn(k: Link, w: Watch, g: Flow, m: nat, n: nat, out: seq<Payload>)
    requires Live(k, w) && Shadows(k, w, g, m, n) && k.low == w.flow.last && w.seen == w.flow.held.Keys + {n}
    requires w.out == out && GoesOn(w.flow, g, m, k.maxStack, out)
    ensures !Safe(k, w)
  {
    if Level(w.flow, g, m) {
      TwinUnsafe(k, w, g, m, n);
    } else if Overhauls(w.flow, g, m, k.maxStack) {
      LeadingUnsafe(k, w, g, m, n);
    } else {
      Ahead(k, w);
    }
  }

  /** A late datagram that the channel takes for a packet in the window. */
  lemma {:induction false} LateUnsafe(k: Link, w: Watch, m: nat, n: nat, w': Watch)
    requires Synced(k, w) && w.out == [] && w.seen == w.flow.held.Keys && k.low == w.flow.last && n <= k.low
    requires Accepts(w.flow, m) && Slot(m) == Slot(n) && w' == Receive(k, w, n) && Live(k, w')
    ensures !Safe(k, w')
  {
    if Safe(k, w') {
      SafeSound(k, w');
      var p := Numbered(m, k.content(n));
      var run, g := Arrive(w.flow, k.maxStack, p).0, Arrive(w.flow, k.maxStack, p).1;
      LateHandled(k, w, m, n, w', p);
      LateShadows(k, w', w.flow, m, n, p);
      LateLevel(w.flow, m, k.maxStack, p);
      LateGoesOn(k, w', g, m, n, Payloads(run));
    }
  }
}
