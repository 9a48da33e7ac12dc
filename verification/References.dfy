/** References between elements: finding them with a worklist, and re-creating them in a copy. */
module References {
  import opened Wrappers
  import opened Paths
  import opened Values
  import opened Elements

  /** The type of the data a parameter holds. */
  function TypeOf(info: Info): Option<DataType> {
    match info
    case Schema(_, _, _, _, typ, _) => typ
    case Holding(data) => Some(data.typ)
    case Plain => None
  }

  /** A reference into model `model`: its target is a parameter of the tree, and the expected data
      has the type of that parameter. */
  ghost predicate GoodRef(root: Element, model: nat, r: Reference) {
    && r.target.model == model
    && In(root, r.target.pos)
    && At(root, r.target.pos).Parameter?
    && TypeOf(At(root, r.target.pos).info) == Some(r.expected.typ)
    && Sound(r.expected)
  }

  ghost predicate GoodRefs(root: Element, model: nat) {
    forall p :: In(root, p) && At(root, p).ref.Some? ==> GoodRef(root, model, At(root, p).ref.value)
  }

  /** Every reference knows which value it expects. */
  ghost predicate ExpectedSet(root: Element) {
    forall p :: In(root, p) && At(root, p).ref.Some? ==> At(root, p).ref.value.expected.value.Some?
  }

  /** A model whose names can be looked up and whose references are its own. */
  ghost predicate WellFormed(root: Element, model: nat) {
    IsRoot(root) && Built(root) && Placed(root) && Named(root) && GoodRefs(root, model)
  }

  /** `createReference` of a parameter, which is at `target`, then `copy` of the expected data. */
  function MakeReference(parameter: Element, target: Target, expected: Data): Option<Reference>
    requires Sound(expected) && Readable(expected)
  {
    match TypeOf(parameter.info)
    case None => None
    case Some(t) =>
      match Copy(Data(t, None), expected)
      case None => None
      case Some(d) => Some(Reference(target, d))
  }

  // ----- The worklist -----

  function Size(e: Element): nat {
    match e
    case Parameter(_, _, _, _) => 1
    case Component(_, _, _, _, items) => 1 + SizeAll(items)
    case List(_, _, _, _, items, pattern) => 1 + SizeAll(items) + Size(pattern)
  }

  function SizeAll(es: seq<Element>): nat {
    if es == [] then 0 else Size(es[0]) + SizeAll(es[1..])
  }

  ghost predicate AllIn(root: Element, queue: seq<Pos>) {
    forall i :: 0 <= i < |queue| ==> In(root, queue[i])
  }

  ghost function Weight(root: Element, queue: seq<Pos>): nat
    requires AllIn(root, queue)
  {
    if queue == [] then 0 else Size(At(root, queue[0])) + Weight(root, queue[1..])
  }

  /** The positions of the items of the element at `p`, from item `n` on. */
  function ItemsFrom(e: Element, p: Pos, n: nat): (r: seq<Pos>)
    requires !e.Parameter? && n <= |e.items|
    ensures |r| == |e.items| - n && forall i :: 0 <= i < |r| ==> r[i] == p + [Item(n + i)]
    decreases |e.items| - n
  {
    if n == |e.items| then [] else [p + [Item(n)]] + ItemsFrom(e, p, n + 1)
  }

  /** The children the worklist pushes: the items, and for a list its pattern first or last. */
  function Kids(e: Element, p: Pos, patternFirst: bool): seq<Pos> {
    match e
    case Parameter(_, _, _, _) => []
    case Component(_, _, _, _, _) => ItemsFrom(e, p, 0)
    case List(_, _, _, _, _, _) =>
      if patternFirst then [p + [Pattern]] + ItemsFrom(e, p, 0) else ItemsFrom(e, p, 0) + [p + [Pattern]]
  }

  lemma {:induction false} KidsIn(root: Element, p: Pos, patternFirst: bool)
    requires In(root, p)
    ensures AllIn(root, Kids(At(root, p), p, patternFirst))
  {
    var e := At(root, p);
    var kids := Kids(e, p, patternFirst);
    forall i | 0 <= i < |kids|
      ensures In(root, kids[i])
    {
      var s :| kids[i] == p + [s] && HasStep(e, s);
      InSnoc(root, p, s);
    }
  }

  lemma {:induction false} WeightConcat(root: Element, a: seq<Pos>, b: seq<Pos>)
    requires AllIn(root, a) && AllIn(root, b)
    ensures AllIn(root, a + b) && Weight(root, a + b) == Weight(root, a) + Weight(root, b)
  {
    if a == [] {
      assert a + b == b;
    } else {
      assert (a + b)[1..] == a[1..] + b;
      WeightConcat(root, a[1..], b);
    }
  }

  lemma {:induction false} WeightItems(root: Element, p: Pos, n: nat)
    requires In(root, p) && !At(root, p).Parameter? && n <= |At(root, p).items|
    ensures AllIn(root, ItemsFrom(At(root, p), p, n))
    ensures Weight(root, ItemsFrom(At(root, p), p, n)) == SizeAll(At(root, p).items[n..])
    decreases |At(root, p).items| - n
  {
    var e := At(root, p);
    if n < |e.items| {
      WeightItems(root, p, n + 1);
      InSnoc(root, p, Item(n));
      assert e.items[n..][1..] == e.items[n + 1..];
      assert ItemsFrom(e, p, n)[1..] == ItemsFrom(e, p, n + 1);
    }
  }

  /** Replacing an element by its children makes the worklist lighter. */
  lemma {:induction false} WeightKids(root: Element, p: Pos, patternFirst: bool)
    requires In(root, p)
    ensures AllIn(root, Kids(At(root, p), p, patternFirst))
    ensures Weight(root, Kids(At(root, p), p, patternFirst)) == Size(At(root, p)) - 1
  {
    KidsIn(root, p, patternFirst);
    var e := At(root, p);
    if !e.Parameter? {
      WeightItems(root, p, 0);
      assert e.items[0..] == e.items;
      if e.List? {
        InSnoc(root, p, Pattern);
        var pat := [p + [Pattern]];
        assert Weight(root, pat) == Size(e.pattern);
        WeightConcat(root, pat, ItemsFrom(e, p, 0));
        WeightConcat(root, ItemsFrom(e, p, 0), pat);
      }
    }
  }

  /** The worklist after its head is taken and the children of the head are pushed. */
  function Advance(root: Element, queue: seq<Pos>, patternFirst: bool): seq<Pos>
    requires queue != [] && In(root, queue[0])
  {
    queue[1..] + Kids(At(root, queue[0]), queue[0], patternFirst)
  }

  lemma {:induction false} AdvanceLighter(root: Element, queue: seq<Pos>, patternFirst: bool)
    requires queue != [] && AllIn(root, queue)
    ensures AllIn(root, Advance(root, queue, patternFirst))
    ensures Weight(root, Advance(root, queue, patternFirst)) == Weight(root, queue) - 1
  {
    WeightKids(root, queue[0], patternFirst);
    WeightConcat(root, queue[1..], Kids(At(root, queue[0]), queue[0], patternFirst));
  }

  /** The positions the worklist visits, in order. */
  ghost function Visits(root: Element, queue: seq<Pos>, patternFirst: bool): seq<Pos>
    requires AllIn(root, queue)
    decreases Weight(root, queue)
  {
    if queue == [] then []
    else
      AdvanceLighter(root, queue, patternFirst);
      [queue[0]] + Visits(root, Advance(root, queue, patternFirst), patternFirst)
  }

  /** How many entries of a worklist lie above (or at) a position. */
  function Covers(queue: seq<Pos>, x: Pos): nat {
    if queue == [] then 0 else (if queue[0] <= x then 1 else 0) + Covers(queue[1..], x)
  }

  lemma {:induction false} CoversConcat(a: seq<Pos>, b: seq<Pos>, x: Pos)
    ensures Covers(a + b, x) == Covers(a, x) + Covers(b, x)
  {
    if a == [] {
      assert a + b == b;
    } else {
      assert (a + b)[1..] == a[1..] + b;
      CoversConcat(a[1..], b, x);
    }
  }

  lemma {:induction false} CoversItems(e: Element, p: Pos, n: nat, x: Pos)
    requires !e.Parameter? && n <= |e.items|
    ensures Covers(ItemsFrom(e, p, n), x) ==
      if p <= x && |x| > |p| && x[|p|].Item? && n <= x[|p|].i < |e.items| then 1 else 0
    decreases |e.items| - n
  {
    if n < |e.items| {
      CoversItems(e, p, n + 1, x);
      assert ItemsFrom(e, p, n)[1..] == ItemsFrom(e, p, n + 1);
      assert p + [Item(n)] <= x <==> p <= x && |x| > |p| && x[|p|] == Item(n);
    }
  }

  /** The children of `p` lie above exactly the positions properly below `p`, each one once. */
  lemma {:induction false} CoversKids(root: Element, p: Pos, patternFirst: bool, x: Pos)
    requires In(root, p) && In(root, x)
    ensures Covers(Kids(At(root, p), p, patternFirst), x) == if p <= x && p != x then 1 else 0
  {
    var e := At(root, p);
    if p <= x {
      InPrefix(root, x, |p|);
      assert x[..|p|] == p;
      assert p != x ==> |x| > |p| && HasStep(e, x[|p|..][0]);
    }
    if !e.Parameter? {
      CoversItems(e, p, 0, x);
      if e.List? {
        var pat := [p + [Pattern]];
        assert p + [Pattern] <= x <==> p <= x && |x| > |p| && x[|p|] == Pattern;
        assert Covers(pat, x) == if p + [Pattern] <= x then 1 else 0;
        CoversConcat(pat, ItemsFrom(e, p, 0), x);
        CoversConcat(ItemsFrom(e, p, 0), pat, x);
      }
    }
  }

  /** The worklist visits each position of the tree as often as the queue lies above it, and
      nothing else. */
  lemma {:induction false} VisitsCount(root: Element, queue: seq<Pos>, patternFirst: bool, x: Pos)
    requires AllIn(root, queue)
    ensures multiset(Visits(root, queue, patternFirst))[x] == if In(root, x) then Covers(queue, x) else 0
    decreases Weight(root, queue)
  {
    if queue != [] {
      AdvanceLighter(root, queue, patternFirst);
      var next := Advance(root, queue, patternFirst);
      VisitsCount(root, next, patternFirst, x);
      var tail := Visits(root, next, patternFirst);
      assert multiset([queue[0]] + tail) == multiset{queue[0]} + multiset(tail);
      if In(root, x) {
        CoversConcat(queue[1..], Kids(At(root, queue[0]), queue[0], patternFirst), x);
        CoversKids(root, queue[0], patternFirst, x);
      }
    }
  }

  /** Started from one element, the worklist visits every element below it exactly once. */
  lemma {:induction false} VisitsOnce(root: Element, start: Pos, patternFirst: bool, x: Pos)
    requires In(root, start)
    ensures multiset(Visits(root, [start], patternFirst))[x] == if start <= x && In(root, x) then 1 else 0
  {
    VisitsCount(root, [start], patternFirst, x);
    assert Covers([start], x) == if start <= x then 1 else 0;
  }

  /** The test `addItem` makes on a reference: the common path of the list and the target is the
      list itself, and the target goes on through the pattern. */
  predicate ThroughPattern(listPath: string, targetPath: string) {
    var common := CommonPath(listPath, targetPath);
    common == listPath && ["*"] <= Segments(RelativePath(common, targetPath))
  }

  /** Whether a worklist keeps an element: it has a reference; when the worklist belongs to a list,
      one whose target lies in the pattern of that list. */
  predicate Kept(root: Element, p: Pos, list: Option<string>) {
    && In(root, p)
    && At(root, p).ref.Some?
    && (list.Some? ==>
          var target := At(root, p).ref.value.target.pos;
          In(root, target) && ThroughPattern(list.value, Path(At(root, target))))
  }

  function Filter(root: Element, ps: seq<Pos>, list: Option<string>): (r: seq<Pos>)
    ensures forall p :: p in r <==> p in ps && Kept(root, p, list)
  {
    if ps == [] then []
    else (if Kept(root, ps[0], list) then [ps[0]] else []) + Filter(root, ps[1..], list)
  }

  lemma {:induction false} FilterSnoc(root: Element, ps: seq<Pos>, p: Pos, list: Option<string>)
    ensures Filter(root, ps + [p], list) == Filter(root, ps, list) + (if Kept(root, p, list) then [p] else [])
  {
    if ps == [] {
      assert ps + [p] == [p];
    } else {
      assert (ps + [p])[1..] == ps[1..] + [p];
      FilterSnoc(root, ps[1..], p, list);
    }
  }

  ghost predicate Distinct(ps: seq<Pos>) {
    forall i, j :: 0 <= i < j < |ps| ==> ps[i] != ps[j]
  }

  lemma {:induction false} DistinctFilter(root: Element, ps: seq<Pos>, list: Option<string>)
    requires forall p :: multiset(ps)[p] <= 1
    ensures Distinct(Filter(root, ps, list))
  {
    if ps != [] {
      var rest := ps[1..];
      assert ps == [ps[0]] + rest;
      assert multiset(ps) == multiset{ps[0]} + multiset(rest);
      forall p
        ensures multiset(rest)[p] <= 1
      {
        assert multiset(rest)[p] <= multiset(ps)[p];
      }
      DistinctFilter(root, rest, list);
      assert ps[0] !in rest by {
        assert multiset(ps)[ps[0]] <= 1;
      }
    }
  }

  /** What a finished worklist has kept: every element below its start that passes the test, and
      each of them once. */
  lemma {:induction false} KeptOnce(root: Element, start: Pos, patternFirst: bool, list: Option<string>)
    requires In(root, start)
    ensures var kept := Filter(root, Visits(root, [start], patternFirst), list);
      && Distinct(kept)
      && forall p :: p in kept <==> start <= p && Kept(root, p, list)
  {
    var all := Visits(root, [start], patternFirst);
    forall p
      ensures multiset(all)[p] <= 1
      ensures p in all <==> start <= p && In(root, p)
    {
      VisitsOnce(root, start, patternFirst, p);
      assert p in all <==> multiset(all)[p] > 0;
    }
    DistinctFilter(root, all, list);
  }

  /** One round of a worklist. */
  lemma {:induction false} VisitStep(root: Element, queue: seq<Pos>, patternFirst: bool, visited: seq<Pos>)
    requires AllIn(root, queue) && queue != []
    ensures var next := Advance(root, queue, patternFirst);
      && AllIn(root, next)
      && Weight(root, next) < Weight(root, queue)
      && visited + Visits(root, queue, patternFirst) == (visited + [queue[0]]) + Visits(root, next, patternFirst)
  {
    AdvanceLighter(root, queue, patternFirst);
    Regroup(visited, queue[0], Visits(root, Advance(root, queue, patternFirst), patternFirst));
  }

  lemma {:induction false} Regroup<T>(a: seq<T>, x: T, b: seq<T>)
    ensures a + ([x] + b) == (a + [x]) + b
  {
  }

  /** The first loop of `clone` and `createData`: every element that has a reference, each once. */
  method FindReferenced(root: Element, patternFirst: bool) returns (referenced: seq<Pos>)
    ensures forall p :: p in referenced <==> In(root, p) && At(root, p).ref.Some?
    ensures Distinct(referenced)
  {
    referenced := [];
    var queue: seq<Pos> := [[]];
    ghost var visited: seq<Pos> := [];
    ghost var all := Visits(root, queue, patternFirst);
    while queue != []
      invariant AllIn(root, queue)
      invariant visited + Visits(root, queue, patternFirst) == all
      invariant referenced == Filter(root, visited, None)
      decreases Weight(root, queue)
    {
      VisitStep(root, queue, patternFirst, visited);
      FilterSnoc(root, visited, queue[0], None);
      var pos := queue[0];
      visited := visited + [pos];
      if At(root, pos).ref.Some? {
        referenced := referenced + [pos];
      }
      queue := Advance(root, queue, patternFirst);
    }
    assert visited == all;
    KeptOnce(root, [], patternFirst, None);
  }

  // ----- Copies of a tree -----

  /** `clone` keeps what an element holds; `createData` gives each parameter an unset data. `Reread` keeps
      everything: it is what reading a schema back gives. */
  datatype Copying = Clone | CreateData | Reread

  function CopyInfo(info: Info, how: Copying): Info {
    if !how.CreateData? then info
    else
      match TypeOf(info)
      case None => Plain
      case Some(t) => Holding(Data(t, None))
  }

  /** The reference of a copied element: none, or the same position in the model `into`. `clone` copies the
      expected value without looking whether it is set. */
  function CopyRef(r: Option<Reference>, how: Copying, into: Option<nat>): Option<Reference> {
    match r
    case None => None
    case Some(r) =>
      match into
      case None => None
      case Some(model) =>
        Some(Reference(Target(model, r.target.pos), if how.Clone? then Copied(r.expected) else r.expected))
  }

  function CopyTree(e: Element, how: Copying, into: Option<nat>): Element {
    match e
    case Parameter(id, parent, ref, info) =>
      Parameter(id, parent, CopyRef(ref, how, into), CopyInfo(info, how))
    case Component(id, parent, ref, info, items) =>
      Component(id, parent, CopyRef(ref, how, into), CopyInfo(info, how), CopyAll(items, how, into))
    case List(id, parent, ref, info, items, pattern) =>
      List(id, parent, CopyRef(ref, how, into), CopyInfo(info, how), CopyAll(items, how, into),
        CopyTree(pattern, how, into))
  }

  function CopyAll(es: seq<Element>, how: Copying, into: Option<nat>): (r: seq<Element>)
    ensures |r| == |es|
    ensures forall i :: 0 <= i < |es| ==> r[i] == CopyTree(es[i], how, into)
  {
    if es == [] then [] else [CopyTree(es[0], how, into)] + CopyAll(es[1..], how, into)
  }

  lemma {:induction false} CopySub(e: Element, how: Copying, into: Option<nat>, s: Step)
    ensures HasStep(CopyTree(e, how, into), s) <==> HasStep(e, s)
    ensures HasStep(e, s) ==> Sub(CopyTree(e, how, into), s) == CopyTree(Sub(e, s), how, into)
  {
  }

  lemma {:induction false} CopyAt(e: Element, how: Copying, into: Option<nat>, p: Pos)
    ensures In(CopyTree(e, how, into), p) <==> In(e, p)
    ensures In(e, p) ==> At(CopyTree(e, how, into), p) == CopyTree(At(e, p), how, into)
    ensures In(e, p) ==> Ids(CopyTree(e, how, into), p) == Ids(e, p)
  {
    if p != [] {
      CopySub(e, how, into, p[0]);
      if HasStep(e, p[0]) {
        CopyAt(Sub(e, p[0]), how, into, p[1..]);
      }
    }
  }

  lemma {:induction false} CopyPath(e: Element, how: Copying, into: Option<nat>)
    ensures var c := CopyTree(e, how, into);
      && c.id == e.id && c.parent == e.parent && Path(c) == Path(e)
      && (c.Parameter? <==> e.Parameter?) && (c.Component? <==> e.Component?)
  {
  }

  lemma {:induction false} CopyItems(e: Element, how: Copying, into: Option<nat>)
    requires !e.Parameter?
    ensures var c := CopyTree(e, how, into);
      && |c.items| == |e.items|
      && (forall i :: 0 <= i < |e.items| ==>
            c.items[i].id == e.items[i].id && (c.items[i].Component? <==> e.items[i].Component?))
      && (e.List? ==> c.pattern.id == e.pattern.id && (c.pattern.Component? <==> e.pattern.Component?))
  {
    forall i | 0 <= i < |e.items|
      ensures var x := CopyTree(e.items[i], how, into);
        x.id == e.items[i].id && (x.Component? <==> e.items[i].Component?)
    {
      CopyPath(e.items[i], how, into);
    }
    if e.List? {
      CopyPath(e.pattern, how, into);
    }
  }

  /** A copy has the names of its source. */
  lemma {:induction false} CopyBuilt(e: Element, how: Copying, into: Option<nat>)
    requires Built(e)
    ensures Built(CopyTree(e, how, into))
    decreases e
  {
    var c := CopyTree(e, how, into);
    if !e.Parameter? {
      CopyItems(e, how, into);
    }
    forall s | HasStep(c, s)
      ensures '/' !in Sub(c, s).id && Built(Sub(c, s))
    {
      CopySub(e, how, into, s);
      CopyPath(Sub(e, s), how, into);
      CopyBuilt(Sub(e, s), how, into);
    }
  }

  lemma {:induction false} CopyPlaced(e: Element, how: Copying, into: Option<nat>)
    requires Placed(e)
    ensures Placed(CopyTree(e, how, into))
    decreases e
  {
    var c := CopyTree(e, how, into);
    CopyPath(e, how, into);
    forall s | HasStep(c, s)
      ensures Sub(c, s).parent == Path(c) && Placed(Sub(c, s))
    {
      CopySub(e, how, into, s);
      CopyPath(Sub(e, s), how, into);
      CopyPlaced(Sub(e, s), how, into);
    }
  }

  lemma {:induction false} CopyNamed(e: Element, how: Copying, into: Option<nat>)
    requires Named(e)
    ensures Named(CopyTree(e, how, into))
    decreases e
  {
    var c := CopyTree(e, how, into);
    forall s | HasStep(c, s)
      ensures Sub(c, s).id != "" && (s.Item? ==> Sub(c, s).id != "*") && Named(Sub(c, s))
    {
      CopySub(e, how, into, s);
      CopyPath(Sub(e, s), how, into);
      CopyNamed(Sub(e, s), how, into);
    }
  }

  /** Setting a reference changes no name. */
  lemma {:induction false} SetRefSub(e: Element, p: Pos, r: Option<Reference>, s: Step)
    requires In(e, p)
    ensures var c := SetRef(e, p, r);
      && c.id == e.id && c.parent == e.parent && (c.Component? <==> e.Component?)
      && (c.Parameter? <==> e.Parameter?) && Path(c) == Path(e)
      && (HasStep(c, s) <==> HasStep(e, s))
      && (HasStep(e, s) ==> Sub(c, s) == if p != [] && p[0] == s then SetRef(Sub(e, s), p[1..], r) else Sub(e, s))
  {
  }

  lemma {:induction false} SetRefBuilt(e: Element, p: Pos, r: Option<Reference>)
    requires In(e, p) && Built(e)
    ensures Built(SetRef(e, p, r))
    decreases p
  {
    var c := SetRef(e, p, r);
    if p != [] {
      SetRefBuilt(Sub(e, p[0]), p[1..], r);
      SetRefSub(Sub(e, p[0]), p[1..], r, Pattern);
    }
    forall s | HasStep(c, s)
      ensures '/' !in Sub(c, s).id && Built(Sub(c, s))
    {
      SetRefSub(e, p, r, s);
    }
  }

  lemma {:induction false} SetRefPlaced(e: Element, p: Pos, r: Option<Reference>)
    requires In(e, p) && Placed(e)
    ensures Placed(SetRef(e, p, r))
    decreases p
  {
    var c := SetRef(e, p, r);
    if p != [] {
      SetRefPlaced(Sub(e, p[0]), p[1..], r);
      SetRefSub(Sub(e, p[0]), p[1..], r, Pattern);
    }
    SetRefSub(e, p, r, Pattern);
    forall s | HasStep(c, s)
      ensures Sub(c, s).parent == Path(c) && Placed(Sub(c, s))
    {
      SetRefSub(e, p, r, s);
    }
  }

  lemma {:induction false} SetRefNamed(e: Element, p: Pos, r: Option<Reference>)
    requires In(e, p) && Named(e)
    ensures Named(SetRef(e, p, r))
    decreases p
  {
    var c := SetRef(e, p, r);
    if p != [] {
      SetRefNamed(Sub(e, p[0]), p[1..], r);
      SetRefSub(Sub(e, p[0]), p[1..], r, Pattern);
    }
    forall s | HasStep(c, s)
      ensures Sub(c, s).id != "" && (s.Item? ==> Sub(c, s).id != "*") && Named(Sub(c, s))
    {
      SetRefSub(e, p, r, s);
    }
  }
}
