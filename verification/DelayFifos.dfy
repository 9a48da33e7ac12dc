/** The delay FIFO: `DelayFifo` keeps packets sorted by the tick at which they leave. */
module DelayFifos {
  import opened Wrappers

  datatype FifoElement = FifoElement(tickOut: int, content: nat)

  ghost predicate Sorted(q: seq<FifoElement>) {
    forall i, j :: 0 <= i < j < |q| ==> q[i].tickOut <= q[j].tickOut
  }

  /** Where an element leaving at `t` belongs: after everything that leaves no later. */
  ghost predicate IsPosition(q: seq<FifoElement>, t: int, p: int) {
    && 0 <= p <= |q|
    && (forall i :: 0 <= i < p ==> q[i].tickOut <= t)
    && (forall i :: p <= i < |q| ==> t < q[i].tickOut)
  }

  lemma {:induction false} PositionUnique(q: seq<FifoElement>, t: int, p: int, r: int)
    requires IsPosition(q, t, p) && IsPosition(q, t, r)
    ensures p == r
  {
    assert p < |q| ==> t < q[p].tickOut;
    assert r < |q| ==> t < q[r].tickOut;
  }

  /** Insertion that keeps equal elements in the order of insertion. */
  function Insert(q: seq<FifoElement>, e: FifoElement): seq<FifoElement> {
    if q == [] || e.tickOut < q[0].tickOut then [e] + q else [q[0]] + Insert(q[1..], e)
  }

  lemma {:induction false} InsertAt(q: seq<FifoElement>, e: FifoElement, p: int)
    requires IsPosition(q, e.tickOut, p)
    ensures Insert(q, e) == q[..p] + [e] + q[p..]
  {
    if p > 0 {
      assert q[0].tickOut <= e.tickOut;
      assert IsPosition(q[1..], e.tickOut, p - 1);
      InsertAt(q[1..], e, p - 1);
      assert q[..p] == [q[0]] + q[1..][..p - 1];
      assert q[p..] == q[1..][p - 1..];
    } else {
      assert q[..0] == [] && q[0..] == q;
      if q != [] {
        assert e.tickOut < q[0].tickOut;
      }
      assert [] + [e] + q == [e] + q;
    }
  }

  lemma {:induction false} InsertAdds(q: seq<FifoElement>, e: FifoElement)
    ensures multiset(Insert(q, e)) == multiset(q) + multiset{e}
    ensures |Insert(q, e)| == |q| + 1
  {
    if q != [] && q[0].tickOut <= e.tickOut {
      InsertAdds(q[1..], e);
      assert q == [q[0]] + q[1..];
    }
  }

  lemma {:induction false} FrontSorted(e: FifoElement, q: seq<FifoElement>)
    requires Sorted(q)
    ensures Sorted([e] + q) <==> q == [] || e.tickOut <= q[0].tickOut
  {
    var r := [e] + q;
    assert q != [] ==> r[1] == q[0] && r[0] == e;
    if q == [] || e.tickOut <= q[0].tickOut {
      forall i, j | 0 <= i < j < |r|
        ensures r[i].tickOut <= r[j].tickOut
      {
        assert r[j] == q[j - 1] && q[0].tickOut <= q[j - 1].tickOut;
        assert i > 0 ==> r[i] == q[i - 1];
      }
    }
  }

  lemma {:induction false} InsertSorted(q: seq<FifoElement>, e: FifoElement)
    requires Sorted(q)
    ensures Sorted(Insert(q, e))
  {
    if q == [] || e.tickOut < q[0].tickOut {
      FrontSorted(e, q);
    } else {
      InsertSorted(q[1..], e);
      FrontSorted(q[0], Insert(q[1..], e));
    }
  }

  class DelayFifo {
    var queue: seq<FifoElement>
    var maxSizePkt: nat

    ghost predicate Valid()
      reads this
    {
      Sorted(queue) && |queue| <= maxSizePkt
    }

    function State(): Bounded
      reads this
    {
      Bounded(queue, maxSizePkt)
    }

    constructor (maxSizePkt: nat)
      ensures Valid() && queue == [] && this.maxSizePkt == maxSizePkt
    {
      queue := [];
      this.maxSizePkt := maxSizePkt;
    }

    method GetCurrentSize() returns (n: nat)
      ensures n == |queue|
    {
      n := |queue|;
    }

    /** `setMaxSize` refuses a bound the queue exceeds already. */
    method SetMaxSize(max: nat) returns (ok: bool)
      modifies this`maxSizePkt
      ensures ok <==> |queue| <= max
      ensures maxSizePkt == if ok then max else old(maxSizePkt)
      ensures old(Valid()) ==> Valid()
      ensures FifoStep(old(State()), DoSetMax(max)) == (Accepted(ok), State())
    {
      if |queue| > max {
        return false;
      }
      maxSizePkt := max;
      return true;
    }

    /** `getTickOut`: the tick of the head, 0 for an empty queue. */
    method GetTickOut() returns (tick: int)
      ensures tick == if queue == [] then 0 else queue[0].tickOut
    {
      tick := if |queue| > 0 then queue[0].tickOut else 0;
    }

    /** `getTickOutPosition`: divide and conquer. It never returns -1; on a sorted queue it returns
        the one position that keeps the queue sorted and equal ticks in order of insertion. */
    method GetTickOutPosition(timeOut: int) returns (pos: int)
      ensures 0 <= pos <= |queue|
      ensures Sorted(queue) ==> IsPosition(queue, timeOut, pos)
    {
      pos := -1;
      var start, end := 0, |queue| - 1;
      while end > start
        invariant queue == [] ==> start == 0 && end == -1
        invariant queue != [] ==> 0 <= start <= end < |queue|
        invariant Sorted(queue) ==> forall i :: 0 <= i < start ==> queue[i].tickOut <= timeOut
        invariant Sorted(queue) ==> forall i :: end < i < |queue| ==> timeOut < queue[i].tickOut
        invariant queue != [] && end < |queue| - 1 ==> timeOut < queue[end].tickOut
        decreases end - start
      {
        var test := (end + start) / 2;
        if queue[test].tickOut > timeOut {
          end := test;
        } else {
          start := test + 1;
        }
      }
      if end == start {
        if queue[start].tickOut > timeOut {
          pos := start;
        } else {
          pos := start + 1;
        }
      } else if end < 0 {
        pos := 0;
      }
    }

    /** `push`: refused when the queue is full, otherwise a stable sorted insertion. */
    method Push(elem: FifoElement) returns (ok: bool)
      requires Valid()
      modifies this`queue
      ensures Valid()
      ensures ok <==> old(|queue|) < maxSizePkt
      ensures queue == if ok then Insert(old(queue), elem) else old(queue)
      ensures FifoStep(old(State()), DoPush(elem)) == (Accepted(ok), State())
    {
      if |queue| >= maxSizePkt {
        return false;
      }
      var pos := GetTickOutPosition(elem.tickOut);
      InsertAt(queue, elem, pos);
      InsertAdds(queue, elem);
      InsertSorted(queue, elem);
      if pos >= 0 {
        queue := queue[..pos] + [elem] + queue[pos..];
      }
      return true;
    }

    /** `pushFront`: the queue stays sorted exactly when nothing leaves before the element. */
    method PushFront(elem: FifoElement) returns (ok: bool)
      modifies this`queue
      ensures ok <==> old(|queue|) < maxSizePkt
      ensures queue == if ok then [elem] + old(queue) else old(queue)
      ensures old(Valid()) && ok ==> (Valid() <==> (old(queue) == [] || elem.tickOut <= old(queue)[0].tickOut))
    {
      if |queue| < maxSizePkt {
        ghost var q := queue;
        queue := [elem] + queue;
        if Sorted(q) {
          FrontSorted(elem, q);
        }
        return true;
      }
      return false;
    }

    /** `pushBack`: the queue stays sorted exactly when nothing leaves after the element. */
    method PushBack(elem: FifoElement) returns (ok: bool)
      modifies this`queue
      ensures ok <==> old(|queue|) < maxSizePkt
      ensures queue == if ok then old(queue) + [elem] else old(queue)
      ensures old(Valid()) && ok ==>
        (Valid() <==> (old(queue) == [] || old(queue)[|old(queue)| - 1].tickOut <= elem.tickOut))
    {
      if |queue| < maxSizePkt {
        ghost var q := queue;
        queue := queue + [elem];
        if Sorted(q) && q != [] {
          BackSorted(q, elem);
        }
        return true;
      }
      return false;
    }

    /** `pop`: the head, if any. */
    method Pop() returns (elem: Option<FifoElement>)
      modifies this`queue
      ensures elem == if old(queue) == [] then None else Some(old(queue)[0])
      ensures queue == if old(queue) == [] then [] else old(queue)[1..]
      ensures old(Valid()) ==> Valid()
      ensures FifoStep(old(State()), DoPop) == (Got(elem), State())
    {
      if |queue| <= 0 {
        return None;
      }
      elem := Some(queue[0]);
      queue := queue[1..];
    }

    method Flush()
      modifies this`queue
      ensures queue == []
      ensures Valid()
      ensures FifoStep(old(State()), DoFlush) == (Accepted(true), State())
    {
      queue := [];
    }
  }

  lemma {:induction false} BackSorted(q: seq<FifoElement>, e: FifoElement)
    requires Sorted(q) && q != []
    ensures Sorted(q + [e]) <==> q[|q| - 1].tickOut <= e.tickOut
  {
    var r := q + [e];
    assert r[|q|] == e && r[|q| - 1] == q[|q| - 1];
  }

  /** Taking the head out and putting the same element back in front restores the queue, sorted. */
  method PopThenPushFront(fifo: DelayFifo)
    requires fifo.Valid() && fifo.queue != []
    modifies fifo`queue
    ensures fifo.Valid() && fifo.queue == old(fifo.queue)
  {
    var e := fifo.Pop();
    var ok := fifo.PushFront(e.value);
  }

  // ----- The reference: a bounded priority queue that knows only the order of insertion -----

  /** The index of the element to leave first: the earliest inserted of those with the least tick. */
  function FirstLeast(arrived: seq<FifoElement>): (m: nat)
    requires arrived != []
    ensures m < |arrived|
    ensures forall i :: 0 <= i < |arrived| ==> arrived[m].tickOut <= arrived[i].tickOut
    ensures forall i :: 0 <= i < m ==> arrived[m].tickOut < arrived[i].tickOut
  {
    var n := |arrived| - 1;
    if n == 0 then 0
    else
      var init := arrived[..n];
      var m := FirstLeast(init);
      assert forall i :: 0 <= i < n ==> arrived[i] == init[i];
      if arrived[n].tickOut < arrived[m].tickOut then n else m
  }

  function Without(arrived: seq<FifoElement>, m: nat): seq<FifoElement>
    requires m < |arrived|
  {
    arrived[..m] + arrived[m + 1..]
  }

  function StableSort(arrived: seq<FifoElement>): seq<FifoElement> {
    if arrived == [] then [] else Insert(StableSort(arrived[..|arrived| - 1]), arrived[|arrived| - 1])
  }

  lemma {:induction false} StableSortKeeps(arrived: seq<FifoElement>)
    ensures Sorted(StableSort(arrived))
    ensures multiset(StableSort(arrived)) == multiset(arrived) && |StableSort(arrived)| == |arrived|
  {
    if arrived != [] {
      var n := |arrived| - 1;
      StableSortKeeps(arrived[..n]);
      InsertAdds(StableSort(arrived[..n]), arrived[n]);
      InsertSorted(StableSort(arrived[..n]), arrived[n]);
      assert arrived == arrived[..n] + [arrived[n]];
    }
  }

  lemma {:induction false} StableSortSnoc(arrived: seq<FifoElement>, e: FifoElement)
    ensures StableSort(arrived + [e]) == Insert(StableSort(arrived), e)
  {
    assert (arrived + [e])[..|arrived|] == arrived;
  }

  lemma {:induction false} FirstLeastSnoc(init: seq<FifoElement>, x: FifoElement)
    requires init != []
    ensures FirstLeast(init + [x]) ==
      if x.tickOut < init[FirstLeast(init)].tickOut then |init| else FirstLeast(init)
  {
    assert (init + [x])[..|init|] == init;
  }

  lemma {:induction false} WithoutSnoc(init: seq<FifoElement>, x: FifoElement, m: nat)
    requires m < |init|
    ensures Without(init + [x], m) == Without(init, m) + [x]
    ensures Without(init + [x], |init|) == init
  {
  }

  lemma {:induction false} InsertBehind(m: FifoElement, rest: seq<FifoElement>, x: FifoElement)
    ensures Insert([m] + rest, x) == if x.tickOut < m.tickOut then [x] + ([m] + rest) else [m] + Insert(rest, x)
  {
    assert ([m] + rest)[1..] == rest;
  }

  /** The head of the sorted queue is the element to leave first, and the rest is the sorted rest. */
  lemma {:induction false} StableSortPop(arrived: seq<FifoElement>)
    requires arrived != []
    ensures StableSort(arrived) == [arrived[FirstLeast(arrived)]] + StableSort(Without(arrived, FirstLeast(arrived)))
  {
    var n := |arrived| - 1;
    var init, x := arrived[..n], arrived[n];
    if n == 0 {
      assert Without(arrived, 0) == [] && init == [] && arrived == [x];
    } else {
      assert arrived == init + [x];
      var m := FirstLeast(init);
      StableSortPop(init);
      StableSortSnoc(init, x);
      FirstLeastSnoc(init, x);
      WithoutSnoc(init, x, m);
      StableSortSnoc(Without(init, m), x);
      InsertBehind(init[m], StableSort(Without(init, m)), x);
    }
  }

  datatype Op = DoPush(e: FifoElement) | DoPop | DoSetMax(max: nat) | DoFlush

  datatype Outcome = Accepted(ok: bool) | Got(elem: Option<FifoElement>)

  /** The elements, in the order the state keeps them, and the bound. */
  datatype Bounded = Bounded(elements: seq<FifoElement>, max: nat)

  /** One operation of the class, as its contracts describe it. */
  function FifoStep(s: Bounded, op: Op): (Outcome, Bounded) {
    match op
    case DoPush(e) =>
      if |s.elements| >= s.max then (Accepted(false), s) else (Accepted(true), s.(elements := Insert(s.elements, e)))
    case DoPop =>
      if s.elements == [] then (Got(None), s) else (Got(Some(s.elements[0])), s.(elements := s.elements[1..]))
    case DoSetMax(max) => if |s.elements| > max then (Accepted(false), s) else (Accepted(true), s.(max := max))
    case DoFlush => (Accepted(true), s.(elements := []))
  }

  /** The same operation on elements in the order of insertion. */
  function ReferenceStep(s: Bounded, op: Op): (Outcome, Bounded) {
    match op
    case DoPush(e) =>
      if |s.elements| >= s.max then (Accepted(false), s) else (Accepted(true), s.(elements := s.elements + [e]))
    case DoPop =>
      if s.elements == [] then (Got(None), s)
      else
        var m := FirstLeast(s.elements);
        (Got(Some(s.elements[m])), s.(elements := Without(s.elements, m)))
    case DoSetMax(max) => if |s.elements| > max then (Accepted(false), s) else (Accepted(true), s.(max := max))
    case DoFlush => (Accepted(true), s.(elements := []))
  }

  function RunFifo(s: Bounded, ops: seq<Op>): (seq<Outcome>, Bounded)
    decreases |ops|
  {
    if ops == [] then ([], s)
    else
      var (o, s') := FifoStep(s, ops[0]);
      var (os, final) := RunFifo(s', ops[1..]);
      ([o] + os, final)
  }

  function RunReference(s: Bounded, ops: seq<Op>): (seq<Outcome>, Bounded)
    decreases |ops|
  {
    if ops == [] then ([], s)
    else
      var (o, s') := ReferenceStep(s, ops[0]);
      var (os, final) := RunReference(s', ops[1..]);
      ([o] + os, final)
  }

  lemma {:induction false} StepRefines(s: Bounded, r: Bounded, op: Op)
    requires s == r.(elements := StableSort(r.elements))
    ensures FifoStep(s, op).0 == ReferenceStep(r, op).0
    ensures FifoStep(s, op).1 == ReferenceStep(r, op).1.(elements := StableSort(ReferenceStep(r, op).1.elements))
  {
    StableSortKeeps(r.elements);
    match op {
      case DoPush(e) => StableSortSnoc(r.elements, e);
      case DoPop =>
        if r.elements != [] {
          StableSortPop(r.elements);
        }
      case DoSetMax(_) =>
      case DoFlush =>
    }
  }

  /** Over every run of operations the FIFO answers as the reference does: it is a bounded priority
      queue, stable among equal ticks. Its queue is always the stable sort of what is in it. */
  lemma {:induction false} RunRefines(s: Bounded, r: Bounded, ops: seq<Op>)
    requires s == r.(elements := StableSort(r.elements))
    ensures RunFifo(s, ops).0 == RunReference(r, ops).0
    ensures RunFifo(s, ops).1 == RunReference(r, ops).1.(elements := StableSort(RunReference(r, ops).1.elements))
    decreases |ops|
  {
    if ops != [] {
      StepRefines(s, r, ops[0]);
      RunRefines(FifoStep(s, ops[0]).1, ReferenceStep(r, ops[0]).1, ops[1..]);
    }
  }

  function Pushed(op: Op, o: Outcome): seq<FifoElement> {
    if op.DoPush? && o == Accepted(true) then [op.e] else []
  }

  function Popped(o: Outcome): seq<FifoElement> {
    if o.Got? && o.elem.Some? then [o.elem.value] else []
  }

  /** The elements whose push was accepted, in order. */
  function PushedIn(ops: seq<Op>, os: seq<Outcome>): seq<FifoElement>
    requires |ops| == |os|
  {
    if ops == [] then [] else Pushed(ops[0], os[0]) + PushedIn(ops[1..], os[1..])
  }

  /** The elements that were popped, in order. */
  function PoppedIn(os: seq<Outcome>): seq<FifoElement> {
    if os == [] then [] else Popped(os[0]) + PoppedIn(os[1..])
  }

  ghost predicate Bounds(s: Bounded) {
    Sorted(s.elements) && |s.elements| <= s.max
  }

  /** What was there and what came in is what went out and what is left. */
  ghost predicate Balances(before: seq<FifoElement>, pushed: seq<FifoElement>, popped: seq<FifoElement>,
                           after: seq<FifoElement>) {
    multiset(before) + multiset(pushed) == multiset(popped) + multiset(after)
  }

  lemma {:induction false} BalancesThen(a: seq<FifoElement>, p: seq<FifoElement>, q: seq<FifoElement>,
                                        b: seq<FifoElement>, p': seq<FifoElement>, q': seq<FifoElement>,
                                        c: seq<FifoElement>)
    requires Balances(a, p, q, b) && Balances(b, p', q', c)
    ensures Balances(a, p + p', q + q', c)
  {
    var (mb, mp, mq) := (multiset(b), multiset(p'), multiset(q));
    calc {
      multiset(a) + multiset(p + p');
      multiset(a) + multiset(p) + mp;
      mq + mb + mp;
      mq + (mb + mp);
      mq + (multiset(q') + multiset(c));
      multiset(q + q') + multiset(c);
    }
  }

  lemma {:induction false} InsertBalances(q: seq<FifoElement>, e: FifoElement)
    ensures |Insert(q, e)| == |q| + 1
    ensures Balances(q, [e], [], Insert(q, e)) && Balances(q, [], [], q)
  {
    InsertAdds(q, e);
  }

  lemma {:induction false} HeadBalances(q: seq<FifoElement>)
    requires q != []
    ensures Balances(q, [], [q[0]], q[1..])
  {
    assert q == [q[0]] + q[1..];
  }

  lemma {:induction false} StepConserves(s: Bounded, op: Op)
    requires Bounds(s) && op != DoFlush
    ensures Bounds(FifoStep(s, op).1)
    ensures Balances(s.elements, Pushed(op, FifoStep(s, op).0), Popped(FifoStep(s, op).0), FifoStep(s, op).1.elements)
  {
    match op {
      case DoPush(e) =>
        InsertSorted(s.elements, e);
        InsertBalances(s.elements, e);
      case DoPop =>
        if s.elements != [] {
          HeadBalances(s.elements);
        }
      case DoSetMax(_) =>
    }
  }

  lemma {:induction false} RunLength(s: Bounded, ops: seq<Op>)
    ensures |RunFifo(s, ops).0| == |ops|
    decreases |ops|
  {
    if ops != [] {
      RunLength(FifoStep(s, ops[0]).1, ops[1..]);
    }
  }

  ghost predicate Conserves(s: Bounded, ops: seq<Op>, os: seq<Outcome>, final: Bounded)
    requires |ops| == |os|
  {
    Bounds(final) && Balances(s.elements, PushedIn(ops, os), PoppedIn(os), final.elements)
  }

  lemma {:induction false} ConservesCons(s: Bounded, ops: seq<Op>, o: Outcome, s': Bounded, os: seq<Outcome>,
                                         final: Bounded)
    requires ops != [] && |os| == |ops| - 1
    requires Balances(s.elements, Pushed(ops[0], o), Popped(o), s'.elements) && Conserves(s', ops[1..], os, final)
    ensures Conserves(s, ops, [o] + os, final)
  {
    assert ([o] + os)[1..] == os;
    BalancesThen(s.elements, Pushed(ops[0], o), Popped(o), s'.elements,
                 PushedIn(ops[1..], os), PoppedIn(os), final.elements);
  }

  /** Over every run without a flush nothing is lost or invented, and the queue stays sorted and
      within its bound. */
  lemma {:induction false} RunConserves(s: Bounded, ops: seq<Op>)
    requires Bounds(s) && DoFlush !in ops
    ensures |RunFifo(s, ops).0| == |ops|
    ensures Conserves(s, ops, RunFifo(s, ops).0, RunFifo(s, ops).1)
    decreases |ops|
  {
    RunLength(s, ops);
    if ops != [] {
      var (o, s') := FifoStep(s, ops[0]);
      StepConserves(s, ops[0]);
      RunLength(s', ops[1..]);
      RunConserves(s', ops[1..]);
      ConservesCons(s, ops, o, s', RunFifo(s', ops[1..]).0, RunFifo(s', ops[1..]).1);
    }
  }
}
