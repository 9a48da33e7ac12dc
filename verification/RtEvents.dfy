/** The order in which the events of one pass of an event loop are served: `RtEvent`'s operator<. */
module RtEvents {
  datatype EventKind = Signal | Timer | Message | NetSocket | File | TcpListen

  /** The trigger time is in nanoseconds, the resolution of the clock. */
  datatype Event = Event(fd: int, priority: nat, kind: EventKind, triggerTime: int)

  /** The weight of one priority level, in microseconds: 100 seconds. */
  const PRIORITY_WEIGHT := 100_000_000

  /** The cast of a duration to whole microseconds truncates toward zero. */
  function Micros(nanos: int): int {
    if nanos >= 0 then nanos / 1000 else -((-nanos) / 1000)
  }

  predicate Less(a: Event, b: Event) {
    PRIORITY_WEIGHT * (a.priority - b.priority) + Micros(a.triggerTime - b.triggerTime) < 0
  }

  function Key(e: Event): int {
    1000 * PRIORITY_WEIGHT * e.priority + e.triggerTime
  }

  /** The truncation costs an event that was triggered earlier a whole microsecond. */
  lemma {:induction false} LessIff(a: Event, b: Event)
    ensures Less(a, b) <==>
      if a.triggerTime >= b.triggerTime then Key(a) < Key(b) else Key(a) + 1000 <= Key(b)
  {
    var p, d := a.priority - b.priority, a.triggerTime - b.triggerTime;
    if d >= 0 {
      assert 1000 * Micros(d) <= d < 1000 * Micros(d) + 1000;
    } else {
      assert 1000 * Micros(d) - 1000 < d <= 1000 * Micros(d);
    }
  }

  lemma {:induction false} Irreflexive(a: Event)
    ensures !Less(a, a)
  {
    LessIff(a, a);
  }

  /** For all priorities and all times, whatever the resolution of the clock. */
  lemma {:induction false} Transitive(a: Event, b: Event, c: Event)
    requires Less(a, b) && Less(b, c)
    ensures Less(a, c)
  {
    LessIff(a, b);
    LessIff(b, c);
    LessIff(a, c);
  }

  /** The smaller priority number goes first exactly when it was not triggered 100 seconds later for
      each level between the two. */
  lemma {:induction false} PriorityFirst(a: Event, b: Event)
    requires a.priority < b.priority
    ensures Less(a, b) <==> a.triggerTime - b.triggerTime < 100_000_000_000 * (b.priority - a.priority)
  {
    LessIff(a, b);
    assert PRIORITY_WEIGHT * (b.priority - a.priority) >= PRIORITY_WEIGHT;
  }

  ghost predicate Tied(a: Event, b: Event) {
    !Less(a, b) && !Less(b, a)
  }

  lemma {:induction false} TiedIff(a: Event, b: Event)
    requires a.triggerTime <= b.triggerTime
    ensures Tied(a, b) <==> 0 <= Key(b) - Key(a) < if a.triggerTime < b.triggerTime then 1000 else 1
  {
    LessIff(a, b);
    LessIff(b, a);
  }

  /** A clock that ticks every `g` nanoseconds. */
  ghost predicate OnGrid(e: Event, g: nat) {
    exists k: int :: e.triggerTime == k * g
  }

  ghost predicate TiesCompose(a: Event, b: Event, c: Event) {
    Tied(a, b) && Tied(b, c) ==> Tied(a, c)
  }

  /** Ties compose among all events on the grid whose priorities are at most `top`. */
  ghost predicate StrictWeakOnGrid(g: nat, top: nat) {
    forall a, b, c :: OnGridTo(a, g, top) && OnGridTo(b, g, top) && OnGridTo(c, g, top) ==> TiesCompose(a, b, c)
  }

  ghost predicate OnGridTo(e: Event, g: nat, top: nat) {
    OnGrid(e, g) && e.priority <= top
  }

  lemma {:induction false} DistinctMultiples(k: int, l: int, g: nat)
    ensures k < l ==> l * g - k * g >= g
    decreases l - k
  {
    if k + 1 < l {
      DistinctMultiples(k + 1, l, g);
    }
  }

  // ----- Which levels can tie -----

  /** One priority level, in nanoseconds. */
  const LEVEL := 1000 * PRIORITY_WEIGHT

  /** By how much the first tick at or after `k` levels exceeds them. */
  function Excess(g: nat, k: nat): (e: nat)
    requires g > 0
    ensures e < g
  {
    (-(LEVEL * k)) % g
  }

  /** The time of that tick. */
  function TickAfter(g: nat, k: nat): nat
    requires g > 0
  {
    LEVEL * k + Excess(g, k)
  }

  lemma {:induction false} TickOnGrid(g: nat, k: nat) returns (q: int)
    requires g > 0
    ensures TickAfter(g, k) == q * g
  {
    var x := -(LEVEL * k);
    q := -(x / g);
    assert x == g * (x / g) + x % g;
    assert q * g == -(g * (x / g));
  }

  lemma {:induction false} ExcessUnique(g: nat, k: nat, e: nat, q: int)
    requires e < g && LEVEL * k + e == q * g
    ensures e == Excess(g, k)
  {
    var r := TickOnGrid(g, k);
    DistinctMultiples(q, r, g);
    DistinctMultiples(r, q, g);
  }

  lemma {:induction false} MultiplesAdd(q: int, r: int, g: nat)
    ensures (q + r) * g == q * g + r * g && (q - r) * g == q * g - r * g
  {
  }

  lemma {:induction false} ExcessSum(g: nat, i: nat, j: nat)
    requires g > 0 && Excess(g, i) + Excess(g, j) < g
    ensures Excess(g, i + j) == Excess(g, i) + Excess(g, j)
  {
    var q := TickOnGrid(g, i);
    var r := TickOnGrid(g, j);
    MultiplesAdd(q, r, g);
    ExcessUnique(g, i + j, Excess(g, i) + Excess(g, j), q + r);
  }

  lemma {:induction false} ExcessDifference(g: nat, i: nat, j: nat)
    requires g > 0 && i <= j && Excess(g, i) <= Excess(g, j)
    ensures Excess(g, j - i) == Excess(g, j) - Excess(g, i)
  {
    var q := TickOnGrid(g, j);
    var r := TickOnGrid(g, i);
    MultiplesAdd(q, r, g);
    ExcessUnique(g, j - i, Excess(g, j) - Excess(g, i), q - r);
  }

  /** On a grid no finer than a microsecond, an event ties with a later one exactly when that one is
      more urgent and comes at the first tick that makes up for it, within a microsecond. */
  lemma {:induction false} TieLevels(a: Event, b: Event, g: nat)
    requires g >= 1000 && OnGrid(a, g) && OnGrid(b, g) && a.triggerTime <= b.triggerTime
    ensures Tied(a, b) <==>
      && b.priority <= a.priority && Excess(g, a.priority - b.priority) < 1000
      && b.triggerTime - a.triggerTime == TickAfter(g, a.priority - b.priority)
  {
    TiedIff(a, b);
    if b.priority <= a.priority && Tied(a, b) {
      var k := a.priority - b.priority;
      var s: int :| a.triggerTime == s * g;
      var t: int :| b.triggerTime == t * g;
      MultiplesAdd(t, s, g);
      ExcessUnique(g, k, Key(b) - Key(a), t - s);
    }
  }

  /** The condition on the clock: level differences that can tie neither add up to one that cannot,
      nor does a smaller one exceed its tick by more. A finite check for every `g` and `top`. */
  predicate LevelsCompose(g: nat, top: nat)
    requires g > 0
  {
    forall i: nat, j: nat | i <= top && j <= top && Excess(g, i) < 1000 && Excess(g, j) < 1000 ::
      && (i + j <= top ==> Excess(g, i) + Excess(g, j) < 1000)
      && (i < j ==> Excess(g, i) <= Excess(g, j))
  }

  /** `a`, `b` and `c` in the order of their times. */
  lemma {:induction false} ComposeChain(a: Event, b: Event, c: Event, g: nat, top: nat)
    requires g >= 1000 && LevelsCompose(g, top)
    requires OnGridTo(a, g, top) && OnGridTo(b, g, top) && OnGridTo(c, g, top)
    requires a.triggerTime <= b.triggerTime <= c.triggerTime
    ensures TiesCompose(a, b, c)
  {
    TieLevels(a, b, g);
    TieLevels(b, c, g);
    TieLevels(a, c, g);
    if Tied(a, b) && Tied(b, c) {
      ExcessSum(g, a.priority - b.priority, b.priority - c.priority);
    }
  }

  /** `b` is the last of the three. */
  lemma {:induction false} ComposeLast(a: Event, b: Event, c: Event, g: nat, top: nat)
    requires g >= 1000 && LevelsCompose(g, top)
    requires OnGridTo(a, g, top) && OnGridTo(b, g, top) && OnGridTo(c, g, top)
    requires a.triggerTime <= c.triggerTime <= b.triggerTime
    ensures TiesCompose(a, b, c)
  {
    TieLevels(a, b, g);
    TieLevels(c, b, g);
    TieLevels(a, c, g);
    if Tied(a, b) && Tied(b, c) {
      ForkLevels(g, c.priority - b.priority, a.priority - b.priority, top);
    }
  }

  /** `b` is the first of the three. */
  lemma {:induction false} ComposeFirst(a: Event, b: Event, c: Event, g: nat, top: nat)
    requires g >= 1000 && LevelsCompose(g, top)
    requires OnGridTo(a, g, top) && OnGridTo(b, g, top) && OnGridTo(c, g, top)
    requires b.triggerTime <= a.triggerTime <= c.triggerTime
    ensures TiesCompose(a, b, c)
  {
    TieLevels(b, a, g);
    TieLevels(b, c, g);
    TieLevels(a, c, g);
    if Tied(a, b) && Tied(b, c) {
      ForkLevels(g, b.priority - a.priority, b.priority - c.priority, top);
    }
  }

  lemma {:induction false} ComposeInTime(a: Event, b: Event, c: Event, g: nat, top: nat)
    requires g >= 1000 && LevelsCompose(g, top)
    requires OnGridTo(a, g, top) && OnGridTo(b, g, top) && OnGridTo(c, g, top)
    requires a.triggerTime <= c.triggerTime
    ensures TiesCompose(a, b, c)
  {
    if b.triggerTime < a.triggerTime {
      ComposeFirst(a, b, c, g, top);
    } else if b.triggerTime <= c.triggerTime {
      ComposeChain(a, b, c, g, top);
    } else {
      ComposeLast(a, b, c, g, top);
    }
  }

  lemma {:induction false} ForkLevels(g: nat, i: nat, j: nat, top: nat)
    requires g >= 1000 && LevelsCompose(g, top) && i <= top && j <= top
    requires Excess(g, i) < 1000 && Excess(g, j) < 1000 && TickAfter(g, i) <= TickAfter(g, j)
    ensures i <= j && Excess(g, j - i) < 1000 && TickAfter(g, j) - TickAfter(g, i) == TickAfter(g, j - i)
  {
    assert i <= j;
    ExcessDifference(g, i, j);
  }

  /** Two level differences that add up to one that cannot tie: a chain of three events. */
  lemma {:induction false} ChainBreaks(g: nat, i: nat, j: nat) returns (a: Event, b: Event, c: Event)
    requires g >= 1000 && Excess(g, i) < 1000 && Excess(g, j) < 1000 <= Excess(g, i) + Excess(g, j)
    ensures OnGridTo(a, g, i + j) && OnGridTo(b, g, i + j) && OnGridTo(c, g, i + j) && !TiesCompose(a, b, c)
  {
    var q := TickOnGrid(g, i);
    var r := TickOnGrid(g, j);
    MultiplesAdd(q, r, g);
    a := Event(0, i + j, Timer, 0 * g);
    b := Event(1, j, Timer, TickAfter(g, i));
    c := Event(2, 0, Timer, TickAfter(g, i) + TickAfter(g, j));
    assert OnGrid(c, g) by {
      assert c.triggerTime == (q + r) * g;
    }
    TieLevels(a, b, g);
    TieLevels(b, c, g);
    TieLevels(a, c, g);
  }

  /** A smaller level difference that exceeds its tick by more: two events tied with a third. */
  lemma {:induction false} ForkBreaks(g: nat, i: nat, j: nat) returns (a: Event, b: Event, c: Event)
    requires g >= 1000 && i < j && Excess(g, j) < Excess(g, i) < 1000
    ensures OnGridTo(a, g, j) && OnGridTo(b, g, j) && OnGridTo(c, g, j) && !TiesCompose(a, b, c)
  {
    var q := TickOnGrid(g, j);
    var r := TickOnGrid(g, i);
    MultiplesAdd(q, r, g);
    a := Event(0, i, Timer, TickAfter(g, j) - TickAfter(g, i));
    b := Event(1, 0, Timer, TickAfter(g, j));
    c := Event(2, j, Timer, 0 * g);
    assert OnGrid(a, g) by {
      assert a.triggerTime == (q - r) * g;
    }
    TieLevels(a, b, g);
    TieLevels(c, b, g);
    TieLevels(c, a, g);
  }

  /** Below a microsecond: three events of equal priority, each tied with the next, of which the first
      goes before the last. */
  lemma {:induction false} FineTies(g: nat) returns (a: Event, b: Event, c: Event)
    requires 0 < g < 1000
    ensures OnGridTo(a, g, 0) && OnGridTo(b, g, 0) && OnGridTo(c, g, 0) && !TiesCompose(a, b, c)
  {
    var j := 999 / g;
    a := Event(0, 0, Timer, 0 * g);
    b := Event(1, 0, Timer, j * g);
    c := Event(2, 0, Timer, (j + 1) * g);
    assert j * g <= 999 < (j + 1) * g == j * g + g;
    assert j >= 1;
    TiedIff(a, b);
    TiedIff(b, c);
    TiedIff(a, c);
  }

  lemma {:induction false} StoppedClock(a: Event, b: Event, c: Event)
    requires OnGrid(a, 0) && OnGrid(b, 0) && OnGrid(c, 0)
    ensures TiesCompose(a, b, c)
  {
    TiedIff(a, b);
    TiedIff(b, c);
    TiedIff(a, c);
  }

  /** The order is a strict weak order, which sorting asks for, exactly when the clock does not tick
      faster than the microsecond it is truncated to, and the level differences compose. */
  lemma {:induction false} StrictWeakIff(g: nat, top: nat)
    ensures StrictWeakOnGrid(g, top) <==> g == 0 || (g >= 1000 && LevelsCompose(g, top))
  {
    if g == 0 {
      forall a, b, c | OnGridTo(a, g, top) && OnGridTo(b, g, top) && OnGridTo(c, g, top)
        ensures TiesCompose(a, b, c)
      {
        StoppedClock(a, b, c);
      }
    } else if g < 1000 {
      var a, b, c := FineTies(g);
      assert OnGridTo(a, g, top) && OnGridTo(b, g, top) && OnGridTo(c, g, top);
    } else if LevelsCompose(g, top) {
      forall a, b, c | OnGridTo(a, g, top) && OnGridTo(b, g, top) && OnGridTo(c, g, top)
        ensures TiesCompose(a, b, c)
      {
        if a.triggerTime <= c.triggerTime {
          ComposeInTime(a, b, c, g, top);
        } else {
          ComposeInTime(c, b, a, g, top);
        }
      }
    } else {
      LevelsBreak(g, top);
    }
  }

  lemma {:induction false} LevelsBreak(g: nat, top: nat)
    requires g >= 1000 && !LevelsCompose(g, top)
    ensures !StrictWeakOnGrid(g, top)
  {
    var i: nat, j: nat :|
      && i <= top && j <= top && Excess(g, i) < 1000 && Excess(g, j) < 1000
      && !((i + j <= top ==> Excess(g, i) + Excess(g, j) < 1000) && (i < j ==> Excess(g, i) <= Excess(g, j)));
    var a, b, c;
    if i + j <= top && Excess(g, i) + Excess(g, j) >= 1000 {
      a, b, c := ChainBreaks(g, i, j);
    } else {
      a, b, c := ForkBreaks(g, i, j);
    }
    assert OnGridTo(a, g, top) && OnGridTo(b, g, top) && OnGridTo(c, g, top);
  }

  // ----- Whatever the number of levels -----

  /** The greatest common divisor. */
  function Gcd(a: nat, b: nat): (d: nat)
    ensures b > 0 ==> d > 0
    decreases b
  {
    if b == 0 then a else Gcd(b, a % b)
  }

  lemma {:induction false} FactorOut(r: int, s: int, d: int, n: int)
    ensures (r * d) * n + s * d == (n * r + s) * d
  {
    assert (r * d) * n == (n * r) * d;
  }

  lemma {:induction false} Regroup(a: int, b: int, u: int, v: int, n: int)
    ensures v * a + (u - v * n) * b == u * b + v * (a - n * b)
  {
    assert (v * n) * b == v * (n * b);
  }

  lemma {:induction false} GcdDivides(a: nat, b: nat) returns (p: int, q: int)
    ensures a == p * Gcd(a, b) && b == q * Gcd(a, b)
    decreases b
  {
    if b == 0 {
      p, q := 1, 0;
    } else {
      var d := Gcd(b, a % b);
      var r, s := GcdDivides(b, a % b);
      var n := a / b;
      p, q := n * r + s, r;
      FactorOut(r, s, d, n);
    }
  }

  lemma {:induction false} Bezout(a: nat, b: nat) returns (x: int, y: int)
    ensures x * a + y * b == Gcd(a, b)
    decreases b
  {
    if b == 0 {
      x, y := 1, 0;
    } else {
      var u, v := Bezout(b, a % b);
      var n := a / b;
      x, y := v, u - v * n;
      Regroup(a, b, u, v, n);
    }
  }

  /** Every excess is a multiple of the greatest common divisor of the tick and a level, so when that
      is a microsecond only equal keys tie. */
  lemma {:induction false} CoarseExcess(g: nat, k: nat)
    requires g > 0 && Gcd(g, LEVEL) >= 1000 && Excess(g, k) < 1000
    ensures Excess(g, k) == 0
  {
    var d := Gcd(g, LEVEL);
    var p, q := GcdDivides(g, LEVEL);
    var n := TickOnGrid(g, k);
    var m := n * p - q * k;
    calc {
      Excess(g, k);
      n * g - LEVEL * k;
      n * (p * d) - (q * d) * k;
      (n * p) * d - (q * k) * d;
      { MultiplesAdd(n * p, q * k, d); }
      m * d;
    }
    DistinctMultiples(0, m, d);
    DistinctMultiples(m, 0, d);
  }

  lemma {:induction false} Shifted(w: int, g: int, n: int, x: int, y: int)
    ensures w * (g * n - y) + (x * g + y * w) == (x + w * n) * g
  {
    calc {
      w * (g * n - y) + (x * g + y * w);
      w * (g * n) + x * g;
      (w * n) * g + x * g;
      (x + w * n) * g;
    }
  }

  lemma {:induction false} AtLeastFactor(g: nat, n: nat)
    requires g > 0
    ensures g * n >= n
  {
    assert g * n == (g - 1) * n + n;
    assert (g - 1) * n >= 0;
  }

  /** Some tick exceeds a number of levels by the divisor itself. */
  lemma {:induction false} DivisorExcess(g: nat) returns (k: nat, q: int)
    requires g > 0
    ensures LEVEL * k + Gcd(g, LEVEL) == q * g
  {
    var x, y := Bezout(g, LEVEL);
    var n: nat := if y >= 0 then y else -y;
    AtLeastFactor(g, n);
    k := g * n - y;
    q := x + LEVEL * n;
    Shifted(LEVEL, g, n, x, y);
  }

  lemma {:induction false} Scaled(w: int, k: int, d: int, q: int, g: int, j: int)
    requires w * k + d == q * g
    ensures w * (j * k) + j * d == (j * q) * g
  {
    calc {
      w * (j * k) + j * d;
      j * (w * k + d);
      j * (q * g);
      (j * q) * g;
    }
  }

  /** So the divisor is the excess of some level difference, and so are its multiples. */
  lemma {:induction false} FineExcess(g: nat, j: nat) returns (k: nat)
    requires g > 0 && j * Gcd(g, LEVEL) < g && Gcd(g, LEVEL) < g
    ensures Excess(g, k) == Gcd(g, LEVEL) && Excess(g, j * k) == j * Gcd(g, LEVEL)
  {
    var q;
    k, q := DivisorExcess(g);
    ExcessUnique(g, k, Gcd(g, LEVEL), q);
    Scaled(LEVEL, k, Gcd(g, LEVEL), q, g, j);
    ExcessUnique(g, j * k, j * Gcd(g, LEVEL), j * q);
  }

  /** With as many priority levels as one likes, the order is a strict weak order exactly when the
      greatest common divisor of the tick and a level is at least a microsecond. */
  lemma {:induction false} StrictWeakForAllLevelsIff(g: nat)
    ensures (forall top: nat :: StrictWeakOnGrid(g, top)) <==> Gcd(g, LEVEL) >= 1000
  {
    if Gcd(g, LEVEL) >= 1000 {
      forall top: nat
        ensures StrictWeakOnGrid(g, top)
      {
        CoarseGrid(g, top);
      }
    } else {
      var top := TooManyLevels(g);
    }
  }

  lemma {:induction false} CoarseGrid(g: nat, top: nat)
    requires Gcd(g, LEVEL) >= 1000
    ensures StrictWeakOnGrid(g, top)
  {
    StrictWeakIff(g, top);
    if g > 0 {
      var p, q := GcdDivides(g, LEVEL);
      DistinctMultiples(0, p, Gcd(g, LEVEL));
      DistinctMultiples(p, 0, Gcd(g, LEVEL));
      forall k: nat | Excess(g, k) < 1000
        ensures Excess(g, k) == 0
      {
        CoarseExcess(g, k);
      }
    }
  }

  lemma {:induction false} TooManyLevels(g: nat) returns (top: nat)
    requires Gcd(g, LEVEL) < 1000
    ensures !StrictWeakOnGrid(g, top)
  {
    var d := Gcd(g, LEVEL);
    if g < 1000 {
      assert Gcd(0, LEVEL) == Gcd(LEVEL, 0) == LEVEL;
      top := 0;
      StrictWeakIff(g, top);
    } else {
      var j := 999 / d;
      assert j * d <= 999 < (j + 1) * d == j * d + d;
      var k := FineExcess(g, j);
      top := j * k + k;
      StrictWeakIff(g, top);
      assert Excess(g, j * k) + Excess(g, k) >= 1000;
    }
  }

  // ----- Sorting the events of a pass -----

  ghost predicate StrictWeakOn(es: seq<Event>) {
    forall a, b, c :: a in es && b in es && c in es ==> TiesCompose(a, b, c)
  }

  ghost predicate Ordered(es: seq<Event>) {
    forall i, j :: 0 <= i < j < |es| ==> !Less(es[j], es[i])
  }

  lemma {:induction false} InsertOrdered(es: seq<Event>, p: nat, e: Event)
    requires Ordered(es) && p <= |es|
    requires forall i :: 0 <= i < p ==> !Less(e, es[i])
    requires p < |es| ==> Less(e, es[p])
    ensures Ordered(es[..p] + [e] + es[p..])
  {
    var r := es[..p] + [e] + es[p..];
    forall j | p <= j < |es|
      ensures !Less(es[j], e)
    {
      if Less(es[j], e) {
        Transitive(es[j], e, es[p]);
        Irreflexive(es[p]);
      }
    }
    forall i, j | 0 <= i < j < |r|
      ensures !Less(r[j], r[i])
    {
      var i', j' := if i < p then i else i - 1, if j < p then j else j - 1;
      assert i != p ==> r[i] == es[i'];
      assert j != p ==> r[j] == es[j'];
    }
  }

  /** Triggered within 100 seconds of each other, ordered events go by priority, and at equal priority
      no event goes a microsecond or more before one that has waited longer. */
  lemma {:induction false} OrderedByPriority(es: seq<Event>, i: nat, j: nat)
    requires Ordered(es) && i < j < |es|
    requires -100_000_000_000 < es[i].triggerTime - es[j].triggerTime < 100_000_000_000
    ensures es[i].priority <= es[j].priority
    ensures es[i].priority == es[j].priority ==> es[i].triggerTime < es[j].triggerTime + 1000
  {
    var (a, b) := (es[i], es[j]);
    LessIff(b, a);
    if b.priority < a.priority {
      PriorityFirst(b, a);
    }
  }

  /** Of two events triggered less than 100 seconds apart the one with the smaller priority number comes
      first, and at equal priority none comes before one that has waited a microsecond longer. */
  ghost predicate ByPriority(es: seq<Event>) {
    forall i, j :: 0 <= i < j < |es| && -100_000_000_000 < es[i].triggerTime - es[j].triggerTime < 100_000_000_000 ==>
      && es[i].priority <= es[j].priority
      && (es[i].priority == es[j].priority ==> es[i].triggerTime < es[j].triggerTime + 1000)
  }

  lemma {:induction false} OrderedIsByPriority(es: seq<Event>)
    requires Ordered(es)
    ensures ByPriority(es)
  {
    forall i, j | 0 <= i < j < |es| && -100_000_000_000 < es[i].triggerTime - es[j].triggerTime < 100_000_000_000
      ensures es[i].priority <= es[j].priority
      ensures es[i].priority == es[j].priority ==> es[i].triggerTime < es[j].triggerTime + 1000
    {
      OrderedByPriority(es, i, j);
    }
  }

  /** The library's sort: a permutation, and ordered when the comparison is a strict weak order on
      the elements. Nothing is promised otherwise. */
  method Sort(es: seq<Event>) returns (r: seq<Event>)
    ensures multiset(r) == multiset(es)
    ensures StrictWeakOn(es) ==> Ordered(r) && ByPriority(r)
  {
    r := [];
    for n := 0 to |es|
      invariant multiset(r) == multiset(es[..n])
      invariant Ordered(r)
    {
      var p := 0;
      while p < |r| && !Less(es[n], r[p])
        invariant p <= |r|
        invariant forall i :: 0 <= i < p ==> !Less(es[n], r[i])
      {
        p := p + 1;
      }
      InsertOrdered(r, p, es[n]);
      assert r == r[..p] + r[p..];
      assert es[..n + 1] == es[..n] + [es[n]];
      r := r[..p] + [es[n]] + r[p..];
    }
    assert es[..|es|] == es;
    OrderedIsByPriority(r);
  }
}
