/** What a fresh data model can become when its patterns are changed too: a pattern is an element like any
    other, and can be reached by path. The items made from a pattern then have its values and its items;
    they are still what items of the pristine pattern can become. */
module Descendants {
  import opened Wrappers
  import opened Numerals
  import opened Values
  import opened Elements
  import opened Edits
  import opened References
  import opened DataLists
  import opened DataTrees
  import opened Instances
  import opened Xml

  /** `d`, at position `pos` of its model, is what the fresh tree `t` became. */
  ghost predicate Descends(d: Element, t: Element, pos: Pos)
    decreases d
  {
    && SameHead(d, t)
    && match d
       case Parameter(_, _, _, info) =>
         && info.Holding? && Sound(info.data)
         && t.info.Holding? && t.info.data == Data(info.data.typ, None)
       case Component(_, _, _, _, items) =>
         && |items| == |t.items|
         && forall i :: 0 <= i < |items| ==> Descends(items[i], t.items[i], pos + [Item(i)])
       case List(_, _, _, _, items, pattern) =>
         && t.items == [] && Descends(pattern, t.pattern, pos + [Pattern])
         && (items != [] ==> !SelfReferring(t, pos))
         && forall i :: 0 <= i < |items| ==> Descends(items[i], ItemOf(t, pos, i), pos + [Item(i)])
  }

  /** The fresh element that the child of a descendant comes from. */
  function Origin(t: Element, pos: Pos, s: Step): Element
    requires !t.Parameter? && (s.Item? && t.Component? ==> s.i < |t.items|) && (s.Pattern? ==> t.List?)
  {
    match s
    case Item(i) => Model(t, pos, i)
    case Pattern => t.pattern
  }

  lemma {:induction false} DescendsSub(d: Element, t: Element, pos: Pos, s: Step)
    requires Descends(d, t, pos) && HasStep(d, s)
    ensures !t.Parameter? && (s.Item? && t.Component? ==> s.i < |t.items|) && (s.Pattern? ==> t.List?)
    ensures Descends(Sub(d, s), Origin(t, pos, s), pos + [s])
  {
  }

  lemma {:induction false} DescendsWith(d: Element, t: Element, pos: Pos, s: Step, x: Element)
    requires Descends(d, t, pos) && HasStep(d, s)
    requires !t.Parameter? && (s.Item? && t.Component? ==> s.i < |t.items|) && (s.Pattern? ==> t.List?)
    requires Descends(x, Origin(t, pos, s), pos + [s])
    ensures Descends(WithSub(d, s, x), t, pos)
  {
  }

  /** A fresh tree comes from itself. */
  lemma {:induction false} FreshDescends(t: Element, pos: Pos)
    requires Fresh(t)
    ensures Descends(t, t, pos)
    decreases t
  {
    forall s | HasStep(t, s)
      ensures Descends(Sub(t, s), Sub(t, s), pos + [s])
    {
      FreshDescends(Sub(t, s), pos + [s]);
    }
    if t.Component? {
      forall i | 0 <= i < |t.items|
        ensures Descends(t.items[i], t.items[i], pos + [Item(i)])
      {
        assert HasStep(t, Item(i)) && Sub(t, Item(i)) == t.items[i];
      }
    } else if t.List? {
      assert HasStep(t, Pattern) && Sub(t, Pattern) == t.pattern;
    }
  }

  /** Setting the data of a parameter, anywhere. */
  lemma {:induction false} DescendsSet(d: Element, t: Element, pos: Pos, p: Pos, data: Data)
    requires Descends(d, t, pos) && In(d, p) && At(d, p).Parameter?
    requires Sound(data) && At(d, p).info.Holding? && data.typ == At(d, p).info.data.typ
    ensures Descends(SetRoot(d, p, data), t, pos)
    decreases p
  {
    if p != [] {
      DescendsSub(d, t, pos, p[0]);
      DescendsSet(Sub(d, p[0]), Origin(t, pos, p[0]), pos + [p[0]], p[1..], data);
      DescendsWith(d, t, pos, p[0], SetRoot(Sub(d, p[0]), p[1..], data));
    }
  }

  // ----- Where the references of a fresh tree do not point -----

  /** No reference below the element points to the position or below it. */
  ghost predicate Avoids(e: Element, to: Pos) {
    forall p :: In(e, p) && At(e, p).ref.Some? ==> !(to <= At(e, p).ref.value.target.pos)
  }

  lemma {:induction false} AvoidsSub(e: Element, to: Pos, s: Step)
    requires Avoids(e, to) && HasStep(e, s)
    ensures Avoids(Sub(e, s), to)
  {
    forall p | In(Sub(e, s), p) && At(Sub(e, s), p).ref.Some?
      ensures !(to <= At(Sub(e, s), p).ref.value.target.pos)
    {
      assert ([s] + p)[1..] == p;
      assert In(e, [s] + p) && At(e, [s] + p) == At(Sub(e, s), p);
    }
  }

  /** No reference in a pattern points into an item of its list: a fresh list has none. */
  ghost predicate Clean(t: Element, pos: Pos)
    decreases t
  {
    && (t.List? ==> forall j: nat :: Avoids(t.pattern, pos + [Item(j)]))
    && forall s :: HasStep(t, s) ==> Clean(Sub(t, s), pos + [s])
  }

  lemma {:induction false} FreshClean(root: Element, model: nat, q: Pos)
    requires Fresh(root) && GoodRefs(root, model) && In(root, q)
    ensures Clean(At(root, q), q)
    decreases At(root, q)
  {
    var t := At(root, q);
    FreshBelow(root, q);
    forall s | HasStep(t, s)
      ensures Clean(Sub(t, s), q + [s])
    {
      InSnoc(root, q, s);
      FreshClean(root, model, q + [s]);
    }
    if t.List? {
      forall j: nat, p | In(t.pattern, p) && At(t.pattern, p).ref.Some?
        ensures !(q + [Item(j)] <= At(t.pattern, p).ref.value.target.pos)
      {
        FreshTarget(root, model, q, p, j);
      }
    }
  }

  lemma {:induction false} FreshTarget(root: Element, model: nat, q: Pos, p: Pos, j: nat)
    requires GoodRefs(root, model) && In(root, q) && At(root, q).List? && At(root, q).items == []
    requires In(At(root, q).pattern, p) && At(At(root, q).pattern, p).ref.Some?
    ensures !(q + [Item(j)] <= At(At(root, q).pattern, p).ref.value.target.pos)
  {
    InSnoc(root, q, Pattern);
    InConcat(root, q + [Pattern], p);
    var r := At(root, q + [Pattern] + p).ref.value;
    assert GoodRef(root, model, r);
    var to := q + [Item(j)];
    if to <= r.target.pos {
      InPrefix(root, r.target.pos, |to|);
      assert r.target.pos[..|to|] == to;
      InSnoc(root, q, Item(j));
    }
  }

  /** A move from a pattern to an item, and the way a target goes. */
  function MovedPos(p: Pos, move: Move): Pos {
    if move.Shift? && move.from <= p then move.to + p[|move.from|..] else p
  }

  lemma {:induction false} StampRef(e: Element, id: string, parent: string, move: Move, p: Pos)
    ensures var c := Stamp(e, id, parent, move);
      && (In(c, p) <==> In(e, p))
      && (In(e, p) ==> At(c, p).ref == MoveRef(At(e, p).ref, move))
      && (In(e, p) && At(e, p).ref.Some? ==>
            At(c, p).ref.value.target.pos == MovedPos(At(e, p).ref.value.target.pos, move))
  {
    StampAt(e, id, parent, move, p);
    if In(e, p) {
      StampFace(e, id, parent, move, p);
    }
  }

  /** From the pattern of the list at `at` to its item `n`. */
  function ToItem(at: Pos, n: nat): Move {
    Shift(at + [Pattern], at + [Item(n)])
  }

  lemma {:induction false} MovedAvoids(p: Pos, at: Pos, n: nat, r: Pos)
    requires !(at + [Item(n)] <= p)
    ensures at + [Item(n)] + r <= MovedPos(p, ToItem(at, n)) <==> at + [Pattern] + r <= p
  {
    var from, to := at + [Pattern], at + [Item(n)];
    if from <= p {
      var q := p[|from|..];
      assert p == from + q && MovedPos(p, ToItem(at, n)) == to + q;
      PrefixOf(from, r, q);
      PrefixOf(to, r, q);
    } else {
      PrefixLess(to, r, p);
      PrefixLess(from, r, p);
    }
  }

  lemma {:induction false} PrefixLess(a: Pos, r: Pos, p: Pos)
    ensures a + r <= p ==> a <= p
  {
    if a + r <= p {
      assert p[..|a|] == (a + r)[..|a|] == a;
    }
  }

  lemma {:induction false} PrefixOf(a: Pos, r: Pos, q: Pos)
    ensures a + r <= a + q <==> r <= q
  {
    if a + r <= a + q {
      assert (a + r)[|a|..] == r && (a + q)[|a|..] == q;
      assert (a + q)[..|a + r|] == a + r;
      assert q[..|r|] == (a + q)[|a|..|a + r|] == r;
    }
    if r <= q {
      assert q[..|r|] == r;
      assert (a + q)[..|a + r|] == a + r;
    }
  }

  /** Stamping out a clean pattern gives a clean item. */
  lemma {:induction false} StampClean(e: Element, id: string, parent: string, at: Pos, n: nat, r: Pos)
    requires Clean(e, at + [Pattern] + r) && Avoids(e, at + [Item(n)])
    ensures Clean(Stamp(e, id, parent, ToItem(at, n)), at + [Item(n)] + r)
    decreases e
  {
    var c := Stamp(e, id, parent, ToItem(at, n));
    forall s | HasStep(c, s)
      ensures Clean(Sub(c, s), at + [Item(n)] + r + [s])
    {
      StampSub(e, id, parent, ToItem(at, n), s);
      AvoidsSub(e, at + [Item(n)], s);
      assert at + [Pattern] + r + [s] == at + [Pattern] + (r + [s]);
      assert at + [Item(n)] + r + [s] == at + [Item(n)] + (r + [s]);
      StampClean(Sub(e, s), Sub(e, s).id, PathOf(id, parent), at, n, r + [s]);
    }
    if e.List? {
      AvoidsSub(e, at + [Item(n)], Pattern);
      forall j: nat
        ensures Avoids(c.pattern, at + [Item(n)] + r + [Item(j)])
      {
        StampAvoids(e.pattern, e.pattern.id, PathOf(id, parent), at, n, r + [Item(j)]);
        assert at + [Pattern] + r + [Item(j)] == at + [Pattern] + (r + [Item(j)]);
        assert at + [Item(n)] + r + [Item(j)] == at + [Item(n)] + (r + [Item(j)]);
      }
    }
  }

  lemma {:induction false} StampAvoids(e: Element, id: string, parent: string, at: Pos, n: nat, r: Pos)
    requires Avoids(e, at + [Item(n)])
    ensures Avoids(e, at + [Pattern] + r) ==> Avoids(Stamp(e, id, parent, ToItem(at, n)), at + [Item(n)] + r)
  {
    var c := Stamp(e, id, parent, ToItem(at, n));
    if Avoids(e, at + [Pattern] + r) {
      forall p | In(c, p) && At(c, p).ref.Some?
        ensures !(at + [Item(n)] + r <= At(c, p).ref.value.target.pos)
      {
        StampRef(e, id, parent, ToItem(at, n), p);
        MovedAvoids(At(e, p).ref.value.target.pos, at, n, r);
      }
    }
  }

  lemma {:induction false} OriginClean(t: Element, pos: Pos, s: Step)
    requires Clean(t, pos) && Fresh(t)
    requires !t.Parameter? && (s.Item? && t.Component? ==> s.i < |t.items|) && (s.Pattern? ==> t.List?)
    ensures Clean(Origin(t, pos, s), pos + [s]) && Fresh(Origin(t, pos, s))
  {
    if t.List? {
      assert HasStep(t, Pattern) && Sub(t, Pattern) == t.pattern;
    }
    if s.Item? {
      FreshModel(t, pos, s.i);
      if t.Component? {
        assert HasStep(t, s) && Sub(t, s) == t.items[s.i];
      } else {
        assert pos + [Pattern] + [] == pos + [Pattern] && pos + [s] + [] == pos + [s];
        StampClean(t.pattern, Dec(s.i), Path(t), pos, s.i, []);
      }
    }
  }

  // ----- Stamping out twice -----

  /** Two moves that can be exchanged on every reference below the element. */
  ghost predicate Exchange(e: Element, a: Move, b: Move, c: Move) {
    forall p :: In(e, p) ==> MoveRef(MoveRef(At(e, p).ref, a), b) == MoveRef(MoveRef(At(e, p).ref, b), c)
  }

  lemma {:induction false} ExchangeSub(e: Element, a: Move, b: Move, c: Move, s: Step)
    requires Exchange(e, a, b, c) && HasStep(e, s)
    ensures Exchange(Sub(e, s), a, b, c)
  {
    forall p | In(Sub(e, s), p)
      ensures MoveRef(MoveRef(At(Sub(e, s), p).ref, a), b) == MoveRef(MoveRef(At(Sub(e, s), p).ref, b), c)
    {
      assert ([s] + p)[1..] == p;
      assert In(e, [s] + p) && At(e, [s] + p) == At(Sub(e, s), p);
    }
  }

  lemma {:induction false} StampTwice(e: Element, id: string, parent: string, id': string, parent': string,
                                      last: string, above: string, a: Move, b: Move, c: Move)
    requires Exchange(e, a, b, c)
    ensures Stamp(Stamp(e, id, parent, a), last, above, b) == Stamp(Stamp(e, id', parent', b), last, above, c)
    decreases e
  {
    assert In(e, []) && At(e, []) == e;
    if !e.Parameter? {
      var l := Stamp(Stamp(e, id, parent, a), last, above, b);
      var r := Stamp(Stamp(e, id', parent', b), last, above, c);
      forall i | 0 <= i < |e.items|
        ensures l.items[i] == r.items[i]
      {
        var x := e.items[i];
        assert HasStep(e, Item(i)) && Sub(e, Item(i)) == x;
        ExchangeSub(e, a, b, c, Item(i));
        StampTwice(x, x.id, PathOf(id, parent), x.id, PathOf(id', parent'), x.id, PathOf(last, above), a, b, c);
        StampPath(x, x.id, PathOf(id, parent), a);
        StampPath(x, x.id, PathOf(id', parent'), b);
      }
      assert l.items == r.items;
    }
    if e.List? {
      var x := e.pattern;
      ExchangeSub(e, a, b, c, Pattern);
      StampTwice(x, x.id, PathOf(id, parent), x.id, PathOf(id', parent'), x.id, PathOf(last, above), a, b, c);
      StampPath(x, x.id, PathOf(id, parent), a);
      StampPath(x, x.id, PathOf(id', parent'), b);
    }
  }

  /** A position below what moves. */
  lemma {:induction false} MovedBelow(at: Pos, n: nat, q: Pos)
    ensures MovedPos(at + [Pattern] + q, ToItem(at, n)) == at + [Item(n)] + q
  {
    assert (at + [Pattern] + q)[|at| + 1..] == q;
    assert at + [Pattern] <= at + [Pattern] + q;
  }

  /** A position below the pattern of a list inside the pattern moves twice, either way. */
  lemma {:induction false} MovedInside(at: Pos, n: nat, r: Pos, i: nat, q: Pos)
    ensures var p := at + [Pattern] + r + [Pattern] + q;
      var (inner, outer) := (ToItem(at + [Pattern] + r, i), ToItem(at, n));
      && MovedPos(MovedPos(p, inner), outer) == at + [Item(n)] + r + [Item(i)] + q
      && MovedPos(MovedPos(p, outer), ToItem(at + [Item(n)] + r, i)) == at + [Item(n)] + r + [Item(i)] + q
  {
    MovedBelow(at + [Pattern] + r, i, q);
    assert at + [Pattern] + r + [Item(i)] + q == at + [Pattern] + (r + [Item(i)] + q);
    MovedBelow(at, n, r + [Item(i)] + q);
    assert at + [Pattern] + r + [Pattern] + q == at + [Pattern] + (r + [Pattern] + q);
    MovedBelow(at, n, r + [Pattern] + q);
    assert at + [Item(n)] + (r + [Pattern] + q) == at + [Item(n)] + r + [Pattern] + q;
    MovedBelow(at + [Item(n)] + r, i, q);
    assert at + [Item(n)] + (r + [Item(i)] + q) == at + [Item(n)] + r + [Item(i)] + q;
  }

  lemma {:induction false} MovedTwice(p: Pos, at: Pos, n: nat, r: Pos, i: nat)
    requires !(at + [Item(n)] <= p)
    ensures MovedPos(MovedPos(p, ToItem(at + [Pattern] + r, i)), ToItem(at, n)) ==
            MovedPos(MovedPos(p, ToItem(at, n)), ToItem(at + [Item(n)] + r, i))
  {
    var start := at + [Pattern] + r + [Pattern];
    if start <= p {
      MovedInside(at, n, r, i, p[|start|..]);
      assert p == start + p[|start|..];
    } else {
      MovedAvoids(p, at, n, r + [Pattern]);
      assert at + [Pattern] + (r + [Pattern]) == start;
      assert at + [Item(n)] + (r + [Pattern]) == at + [Item(n)] + r + [Pattern];
    }
  }

  /** Moving into the item of a list inside the pattern, and then with the pattern into an item, is moving
      with the pattern first, and then into the item of the list inside the item. */
  lemma {:induction false} ExchangeItems(e: Element, at: Pos, n: nat, r: Pos, i: nat)
    requires Avoids(e, at + [Item(n)])
    ensures Exchange(e, ToItem(at + [Pattern] + r, i), ToItem(at, n), ToItem(at + [Item(n)] + r, i))
  {
    forall p | In(e, p)
      ensures MoveRef(MoveRef(At(e, p).ref, ToItem(at + [Pattern] + r, i)), ToItem(at, n)) ==
              MoveRef(MoveRef(At(e, p).ref, ToItem(at, n)), ToItem(at + [Item(n)] + r, i))
    {
      if At(e, p).ref.Some? {
        MovedTwice(At(e, p).ref.value.target.pos, at, n, r, i);
      }
    }
  }

  /** Item `i` of a list inside the pattern, stamped out with the pattern, is item `i` of the list inside the
      item. */
  lemma {:induction false} StampedItem(t: Element, id: string, parent: string, at: Pos, n: nat, r: Pos, i: nat)
    requires t.List? && Avoids(t, at + [Item(n)])
    ensures Stamp(ItemOf(t, at + [Pattern] + r, i), Dec(i), PathOf(id, parent), ToItem(at, n)) ==
            ItemOf(Stamp(t, id, parent, ToItem(at, n)), at + [Item(n)] + r, i)
  {
    var c := Stamp(t, id, parent, ToItem(at, n));
    StampPath(t, id, parent, ToItem(at, n));
    AvoidsSub(t, at + [Item(n)], Pattern);
    ExchangeItems(t.pattern, at, n, r, i);
    StampTwice(t.pattern, Dec(i), Path(t), t.pattern.id, PathOf(id, parent), Dec(i), PathOf(id, parent),
      ToItem(at + [Pattern] + r, i), ToItem(at, n), ToItem(at + [Item(n)] + r, i));
  }

  /** The items of a list inside the pattern stay away from the items of the list of the pattern. */
  lemma {:induction false} ItemAvoids(t: Element, at: Pos, n: nat, r: Pos, i: nat)
    requires t.List? && Avoids(t, at + [Item(n)])
    ensures Avoids(ItemOf(t, at + [Pattern] + r, i), at + [Item(n)])
  {
    var pos := at + [Pattern] + r;
    var c := ItemOf(t, pos, i);
    AvoidsSub(t, at + [Item(n)], Pattern);
    forall p | In(c, p) && At(c, p).ref.Some?
      ensures !(at + [Item(n)] <= At(c, p).ref.value.target.pos)
    {
      StampRef(t.pattern, Dec(i), Path(t), ToItem(pos, i), p);
      var was := At(t.pattern, p).ref.value.target.pos;
      var now := MovedPos(was, ToItem(pos, i));
      if pos + [Pattern] <= was {
        assert now == pos + [Item(i)] + was[|pos| + 1..];
        assert now[|at|] == Pattern;
      }
    }
  }

  /** A descendant of a pattern, stamped out, is a descendant of the item. */
  lemma {:induction false} StampDescends(d: Element, t: Element, id: string, parent: string, at: Pos, n: nat, r: Pos)
    requires Descends(d, t, at + [Pattern] + r) && Avoids(t, at + [Item(n)])
    ensures Descends(Stamp(d, id, parent, ToItem(at, n)), Stamp(t, id, parent, ToItem(at, n)), at + [Item(n)] + r)
    decreases d
  {
    var d', t' := Stamp(d, id, parent, ToItem(at, n)), Stamp(t, id, parent, ToItem(at, n));
    if !d.Parameter? {
      forall i | 0 <= i < |d.items|
        ensures !t'.Parameter? && (t'.Component? ==> i < |t'.items|)
        ensures Descends(d'.items[i], Model(t', at + [Item(n)] + r, i), at + [Item(n)] + r + [Item(i)])
      {
        StampDescendsItem(d, t, id, parent, at, n, r, i);
      }
    }
    if d.List? {
      AvoidsSub(t, at + [Item(n)], Pattern);
      assert at + [Pattern] + r + [Pattern] == at + [Pattern] + (r + [Pattern]);
      assert at + [Item(n)] + r + [Pattern] == at + [Item(n)] + (r + [Pattern]);
      StampDescends(d.pattern, t.pattern, d.pattern.id, PathOf(id, parent), at, n, r + [Pattern]);
      StampSelfReferring(t, id, parent, at, n, r);
    }
  }

  lemma {:induction false} StampSelfReferring(t: Element, id: string, parent: string, at: Pos, n: nat, r: Pos)
    requires t.List? && Avoids(t, at + [Item(n)])
    ensures SelfReferring(Stamp(t, id, parent, ToItem(at, n)), at + [Item(n)] + r) <==>
            SelfReferring(t, at + [Pattern] + r)
  {
    AvoidsSub(t, at + [Item(n)], Pattern);
    assert In(t.pattern, []) && At(t.pattern, []) == t.pattern;
    StampPath(t.pattern, t.pattern.id, PathOf(id, parent), ToItem(at, n));
    if t.pattern.ref.Some? {
      MovedAvoids(t.pattern.ref.value.target.pos, at, n, r + [Pattern]);
      assert at + [Pattern] + (r + [Pattern]) == at + [Pattern] + r + [Pattern];
      assert at + [Item(n)] + (r + [Pattern]) == at + [Item(n)] + r + [Pattern];
    }
  }

  lemma {:induction false} StampDescendsItem(d: Element, t: Element, id: string, parent: string,
                                             at: Pos, n: nat, r: Pos, i: nat)
    requires Descends(d, t, at + [Pattern] + r) && Avoids(t, at + [Item(n)])
    requires !d.Parameter? && i < |d.items|
    ensures var d', t' := Stamp(d, id, parent, ToItem(at, n)), Stamp(t, id, parent, ToItem(at, n));
      && !t'.Parameter? && (t'.Component? ==> i < |t'.items|)
      && Descends(d'.items[i], Model(t', at + [Item(n)] + r, i), at + [Item(n)] + r + [Item(i)])
    decreases d, 0
  {
    var x := d.items[i];
    assert at + [Pattern] + r + [Item(i)] == at + [Pattern] + (r + [Item(i)]);
    assert at + [Item(n)] + r + [Item(i)] == at + [Item(n)] + (r + [Item(i)]);
    DescendsSub(d, t, at + [Pattern] + r, Item(i));
    if t.Component? {
      assert HasStep(t, Item(i)) && Sub(t, Item(i)) == t.items[i];
      AvoidsSub(t, at + [Item(n)], Item(i));
    } else {
      ItemAvoids(t, at, n, r, i);
      StampedItem(t, id, parent, at, n, r, i);
    }
    var y := Model(t, at + [Pattern] + r, i);
    assert x.id == y.id;
    StampDescends(x, y, x.id, PathOf(id, parent), at, n, r + [Item(i)]);
  }

  // ----- addItem -----

  lemma {:induction false} DescendsGrowHere(d: Element, t: Element, pos: Pos)
    requires Descends(d, t, pos) && Clean(t, pos) && d.List? && !SelfReferring(d, pos)
    ensures Descends(WithItems(d, d.items + [NewItem(d, pos)]), t, pos)
  {
    var n := |d.items|;
    assert Path(d) == Path(t);
    assert pos + [Pattern] + [] == pos + [Pattern] && pos + [Item(n)] + [] == pos + [Item(n)];
    StampDescends(d.pattern, t.pattern, Dec(n), Path(d), pos, n, []);
    assert Descends(NewItem(d, pos), ItemOf(t, pos, n), pos + [Item(n)]);
  }

  /** A list grows, wherever it is. */
  lemma {:induction false} DescendsGrow(d: Element, t: Element, pos: Pos, p: Pos)
    requires Descends(d, t, pos) && Fresh(t) && Clean(t, pos) && In(d, p) && At(d, p).List?
    requires !SelfReferring(At(d, p), pos + p)
    ensures Descends(Append(d, p, NewItem(At(d, p), pos + p)), t, pos)
    decreases p
  {
    if p == [] {
      assert pos + p == pos;
      DescendsGrowHere(d, t, pos);
    } else {
      assert pos + p == (pos + [p[0]]) + p[1..];
      DescendsSub(d, t, pos, p[0]);
      OriginClean(t, pos, p[0]);
      DescendsGrow(Sub(d, p[0]), Origin(t, pos, p[0]), pos + [p[0]], p[1..]);
      DescendsWith(d, t, pos, p[0], Append(Sub(d, p[0]), p[1..], NewItem(At(d, p), pos + p)));
    }
  }

  // ----- No reference in a pattern ever points into an item of its list -----

  lemma {:induction false} DescendsAvoids(d: Element, t: Element, at: Pos, n: nat, r: Pos)
    requires Descends(d, t, at + [Pattern] + r) && Avoids(t, at + [Item(n)])
    ensures Avoids(d, at + [Item(n)])
    decreases d
  {
    forall p | In(d, p) && At(d, p).ref.Some?
      ensures !(at + [Item(n)] <= At(d, p).ref.value.target.pos)
    {
      if p == [] {
        assert In(t, []) && At(t, []) == t;
      } else {
        DescendsAvoidsSub(d, t, at, n, r, p[0]);
        assert In(Sub(d, p[0]), p[1..]);
      }
    }
  }

  lemma {:induction false} DescendsAvoidsSub(d: Element, t: Element, at: Pos, n: nat, r: Pos, s: Step)
    requires Descends(d, t, at + [Pattern] + r) && Avoids(t, at + [Item(n)]) && HasStep(d, s)
    ensures Avoids(Sub(d, s), at + [Item(n)])
    decreases d, 0
  {
    DescendsSub(d, t, at + [Pattern] + r, s);
    if t.List? && s.Item? {
      ItemAvoids(t, at, n, r, s.i);
    } else {
      assert HasStep(t, s) && Sub(t, s) == Origin(t, at + [Pattern] + r, s);
      AvoidsSub(t, at + [Item(n)], s);
    }
    assert at + [Pattern] + r + [s] == at + [Pattern] + (r + [s]);
    DescendsAvoids(Sub(d, s), Origin(t, at + [Pattern] + r, s), at, n, r + [s]);
  }

  lemma {:induction false} DescendsClean(d: Element, t: Element, pos: Pos)
    requires Descends(d, t, pos) && Clean(t, pos) && Fresh(t)
    ensures Clean(d, pos)
    decreases d
  {
    forall s | HasStep(d, s)
      ensures Clean(Sub(d, s), pos + [s])
    {
      DescendsSub(d, t, pos, s);
      OriginClean(t, pos, s);
      DescendsClean(Sub(d, s), Origin(t, pos, s), pos + [s]);
    }
    if d.List? {
      forall j: nat
        ensures Avoids(d.pattern, pos + [Item(j)])
      {
        assert pos + [Pattern] + [] == pos + [Pattern];
        DescendsAvoids(d.pattern, t.pattern, pos, j, []);
      }
    }
  }

  lemma {:induction false} CleanBelow(d: Element, pos: Pos, p: Pos)
    requires Clean(d, pos) && In(d, p)
    ensures Clean(At(d, p), pos + p)
    decreases |p|
  {
    if p == [] {
      assert pos + p == pos;
    } else {
      CleanBelow(Sub(d, p[0]), pos + [p[0]], p[1..]);
      assert pos + [p[0]] + p[1..] == pos + p;
    }
  }

  // ----- With the patterns as they were -----

  /** The tree with the patterns that the schema made. */
  ghost function Pristine(d: Element, t: Element, pos: Pos): Element
    requires Descends(d, t, pos)
    decreases d
  {
    match d
    case Parameter(_, _, _, _) => d
    case Component(id, parent, ref, info, items) => Component(id, parent, ref, info, PristineItems(d, t, pos))
    case List(id, parent, ref, info, items, pattern) =>
      List(id, parent, ref, info, PristineItems(d, t, pos), t.pattern)
  }

  ghost function PristineItems(d: Element, t: Element, pos: Pos): (r: seq<Element>)
    requires Descends(d, t, pos) && !d.Parameter?
    ensures |r| == |d.items|
    decreases d, 0
  {
    seq(|d.items|, i requires 0 <= i < |d.items| =>
      DescendsSub(d, t, pos, Item(i));
      Pristine(d.items[i], Model(t, pos, i), pos + [Item(i)]))
  }

  /** It is an instance: its items are those of the pristine patterns. */
  lemma {:induction false} PristineInstance(d: Element, t: Element, pos: Pos)
    requires Descends(d, t, pos)
    ensures Instance(Pristine(d, t, pos), t, pos)
    decreases d
  {
    if !d.Parameter? {
      forall i | 0 <= i < |d.items|
        ensures Instance(PristineItems(d, t, pos)[i], Model(t, pos, i), pos + [Item(i)])
      {
        DescendsSub(d, t, pos, Item(i));
        PristineInstance(d.items[i], Model(t, pos, i), pos + [Item(i)]);
      }
    }
  }

  /** It is the tree itself exactly when no pattern was changed. */
  lemma {:induction false} PristineSame(d: Element, t: Element, pos: Pos)
    requires Descends(d, t, pos)
    ensures Pristine(d, t, pos) == d <==> Instance(d, t, pos)
    decreases d
  {
    PristineInstance(d, t, pos);
    if Instance(d, t, pos) && !d.Parameter? {
      forall i | 0 <= i < |d.items|
        ensures PristineItems(d, t, pos)[i] == d.items[i]
      {
        DescendsSub(d, t, pos, Item(i));
        InstanceChild(d, t, pos, i);
        PristineSame(d.items[i], Model(t, pos, i), pos + [Item(i)]);
      }
      assert PristineItems(d, t, pos) == d.items;
    }
  }

  /** A document says nothing about patterns, and only what it says matters to empty strings. */
  lemma {:induction false} PristineDocument(d: Element, t: Element, pos: Pos)
    requires Descends(d, t, pos)
    ensures ToXml(Pristine(d, t, pos)) == ToXml(d)
    ensures NoEmptyText(Pristine(d, t, pos)) <==> NoEmptyText(d)
    decreases d
  {
    if !d.Parameter? {
      var items := PristineItems(d, t, pos);
      forall i | 0 <= i < |d.items|
        ensures ToXml(items[i]) == ToXml(d.items[i]) && (items[i].Parameter? <==> d.items[i].Parameter?)
        ensures NoEmptyText(items[i]) <==> NoEmptyText(d.items[i])
      {
        DescendsSub(d, t, pos, Item(i));
        PristineDocument(d.items[i], Model(t, pos, i), pos + [Item(i)]);
      }
      SameNodes(items, d.items);
    }
  }

  lemma {:induction false} SameNodes(a: seq<Element>, b: seq<Element>)
    requires |a| == |b|
    requires forall i :: 0 <= i < |a| ==> ToXml(a[i]) == ToXml(b[i]) && (a[i].Parameter? <==> b[i].Parameter?)
    ensures ChildNodes(a) == ChildNodes(b) && ItemNodes(a) == ItemNodes(b)
  {
    if a != [] {
      SameNodes(a[1..], b[1..]);
    }
  }

  lemma {:induction false} BlankedInstance(d: Element, t: Element, pos: Pos)
    requires Instance(d, t, pos)
    ensures Instance(Blanked(d), t, pos)
    decreases d
  {
    if !d.Parameter? {
      forall i | 0 <= i < |d.items|
        ensures Instance(Blanked(d).items[i], Model(t, pos, i), pos + [Item(i)])
      {
        InstanceChild(d, t, pos, i);
        BlankedInstance(d.items[i], Model(t, pos, i), pos + [Item(i)]);
      }
    }
  }

  /** What a round trip restores is the tree itself exactly when no parameter holds the empty string and no
      pattern was changed. */
  lemma {:induction false} PristineBlankedSame(d: Element, t: Element, pos: Pos)
    requires Descends(d, t, pos)
    ensures Blanked(Pristine(d, t, pos)) == d <==> NoEmptyText(d) && Instance(d, t, pos)
  {
    var p := Pristine(d, t, pos);
    PristineInstance(d, t, pos);
    BlankedInstance(p, t, pos);
    PristineSame(d, t, pos);
    BlankedSame(d);
    BlankedSame(p);
    PristineDocument(d, t, pos);
  }
}
