/** Lists of a data model: `DataList::addItem` duplicates the pattern of the list, finds the
    references of the pattern that stay inside the pattern, and re-targets those of the new item. */
module DataLists {
  import opened Wrappers
  import opened Numerals
  import opened Paths
  import opened Values
  import opened Elements
  import opened References

  // ----- Duplication -----

  /** The references of a subtree are good, and know what they expect. */
  ghost predicate RefsInto(root: Element, model: nat, e: Element) {
    forall p :: In(e, p) && At(e, p).ref.Some? ==>
      var r := At(e, p).ref.value;
      GoodRef(root, model, r) && r.expected.value.Some?
  }

  lemma {:induction false} RefsIntoSub(root: Element, model: nat, e: Element, s: Step)
    requires RefsInto(root, model, e) && HasStep(e, s)
    ensures RefsInto(root, model, Sub(e, s))
  {
    forall p | In(Sub(e, s), p) && At(Sub(e, s), p).ref.Some?
      ensures var r := At(Sub(e, s), p).ref.value; GoodRef(root, model, r) && r.expected.value.Some?
    {
      var q := [s] + p;
      assert q[1..] == p;
      assert In(e, q) && At(e, q) == At(Sub(e, s), p);
    }
  }

  /** The path of an element with the given id and parent path. */
  function PathOf(id: string, parent: string): string {
    var s := parent + "/" + id;
    if s != "/" then s else ""
  }

  /** `duplicateReference`: the same target, and a copy of the expected data. */
  function DuplicateRef(root: Element, ghost model: nat, r: Option<Reference>): Option<Option<Reference>>
    requires r.Some? ==> GoodRef(root, model, r.value) && r.value.expected.value.Some?
  {
    match r
    case None => Some(None)
    case Some(r) =>
      match MakeReference(At(root, r.target.pos), r.target, r.expected)
      case None => None
      case Some(made) => Some(Some(made))
  }

  /** `duplicate`: a copy of the subtree under another id and parent; it fails when the copy of
      some reference fails. */
  function Duplicate(root: Element, ghost model: nat, e: Element, id: string, parent: string): Option<Element>
    requires RefsInto(root, model, e)
    decreases e, 1, 0
  {
    assert In(e, []) && At(e, []) == e;
    match DuplicateRef(root, model, e.ref)
    case None => None
    case Some(ref) =>
      if e.Parameter? then Some(Parameter(id, parent, ref, e.info))
      else
        match DuplicateItems(root, model, e, 0, PathOf(id, parent))
        case None => None
        case Some(items) =>
          if e.Component? then Some(Component(id, parent, ref, e.info, items))
          else
            RefsIntoSub(root, model, e, Pattern);
            match Duplicate(root, model, e.pattern, e.pattern.id, PathOf(id, parent))
            case None => None
            case Some(pattern) => Some(List(id, parent, ref, e.info, items, pattern))
  }

  function DuplicateItems(root: Element, ghost model: nat, e: Element, n: nat, parent: string): Option<seq<Element>>
    requires RefsInto(root, model, e) && !e.Parameter? && n <= |e.items|
    decreases e, 0, |e.items| - n
  {
    if n == |e.items| then Some([])
    else
      RefsIntoSub(root, model, e, Item(n));
      assert Sub(e, Item(n)) == e.items[n];
      match Duplicate(root, model, e.items[n], e.items[n].id, parent)
      case None => None
      case Some(item) =>
        match DuplicateItems(root, model, e, n + 1, parent)
        case None => None
        case Some(items) => Some([item] + items)
  }

  // ----- Stamping out a pattern -----

  /** How references move when a pattern is stamped out: not at all, or those into the subtree at
      `from` to the corresponding place below `to`. */
  datatype Move = Stay | Shift(from: Pos, to: Pos)

  function MoveRef(r: Option<Reference>, move: Move): Option<Reference> {
    match r
    case None => None
    case Some(r) =>
      if move.Shift? && move.from <= r.target.pos then
        Some(Reference(Target(r.target.model, move.to + r.target.pos[|move.from|..]), r.expected))
      else Some(r)
  }

  function Stamp(e: Element, id: string, parent: string, move: Move): Element {
    match e
    case Parameter(_, _, ref, info) => Parameter(id, parent, MoveRef(ref, move), info)
    case Component(_, _, ref, info, items) =>
      Component(id, parent, MoveRef(ref, move), info, StampAll(items, PathOf(id, parent), move))
    case List(_, _, ref, info, items, pattern) =>
      List(id, parent, MoveRef(ref, move), info, StampAll(items, PathOf(id, parent), move),
           Stamp(pattern, pattern.id, PathOf(id, parent), move))
  }

  function StampAll(es: seq<Element>, parent: string, move: Move): (r: seq<Element>)
    ensures |r| == |es|
    ensures forall i :: 0 <= i < |es| ==> r[i] == Stamp(es[i], es[i].id, parent, move)
  {
    if es == [] then [] else [Stamp(es[0], es[0].id, parent, move)] + StampAll(es[1..], parent, move)
  }

  /** On good references duplication succeeds, and copies the subtree as it is. */
  lemma {:induction false} DuplicateIsStamp(root: Element, model: nat, e: Element, id: string, parent: string)
    requires RefsInto(root, model, e)
    ensures Duplicate(root, model, e, id, parent) == Some(Stamp(e, id, parent, Stay))
    decreases e, 1, 0
  {
    assert In(e, []) && At(e, []) == e;
    if e.ref.Some? {
      CopyReproduces(e.ref.value.expected);
    }
    if !e.Parameter? {
      DuplicateItemsIsStamp(root, model, e, 0, PathOf(id, parent));
      assert e.items[0..] == e.items;
      if e.List? {
        RefsIntoSub(root, model, e, Pattern);
        DuplicateIsStamp(root, model, e.pattern, e.pattern.id, PathOf(id, parent));
      }
    }
  }

  lemma {:induction false} DuplicateItemsIsStamp(root: Element, model: nat, e: Element, n: nat, parent: string)
    requires RefsInto(root, model, e) && !e.Parameter? && n <= |e.items|
    ensures DuplicateItems(root, model, e, n, parent) == Some(StampAll(e.items[n..], parent, Stay))
    decreases e, 0, |e.items| - n
  {
    if n < |e.items| {
      RefsIntoSub(root, model, e, Item(n));
      assert Sub(e, Item(n)) == e.items[n];
      DuplicateIsStamp(root, model, e.items[n], e.items[n].id, parent);
      DuplicateItemsIsStamp(root, model, e, n + 1, parent);
      assert e.items[n..][1..] == e.items[n + 1..];
    }
  }

  lemma {:induction false} StampSub(e: Element, id: string, parent: string, move: Move, s: Step)
    ensures HasStep(Stamp(e, id, parent, move), s) <==> HasStep(e, s)
    ensures HasStep(e, s) ==>
      Sub(Stamp(e, id, parent, move), s) == Stamp(Sub(e, s), Sub(e, s).id, PathOf(id, parent), move)
  {
  }

  lemma {:induction false} StampPath(e: Element, id: string, parent: string, move: Move)
    ensures var c := Stamp(e, id, parent, move);
      && c.id == id && c.parent == parent && Path(c) == PathOf(id, parent)
      && (c.Parameter? <==> e.Parameter?) && (c.Component? <==> e.Component?)
      && c.info == e.info && c.ref == MoveRef(e.ref, move)
  {
  }

  /** The id and the parent path of the stamped element at a position. */
  function StampedId(e: Element, id: string, q: Pos): string
    requires In(e, q)
  {
    if q == [] then id else At(e, q).id
  }

  function StampedParent(e: Element, id: string, parent: string, q: Pos): string
    requires In(e, q)
  {
    if q == [] then parent
    else StampedParent(Sub(e, q[0]), Sub(e, q[0]).id, PathOf(id, parent), q[1..])
  }

  lemma {:induction false} StampAt(e: Element, id: string, parent: string, move: Move, q: Pos)
    ensures var c := Stamp(e, id, parent, move);
      && (In(c, q) <==> In(e, q))
      && (In(e, q) ==>
            && At(c, q) == Stamp(At(e, q), StampedId(e, id, q), StampedParent(e, id, parent, q), move)
            && Ids(c, q) == Ids(e, q))
  {
    if q != [] {
      StampSub(e, id, parent, move, q[0]);
      if HasStep(e, q[0]) {
        var c := Stamp(e, id, parent, move);
        var s := Sub(e, q[0]);
        StampAt(s, s.id, PathOf(id, parent), move, q[1..]);
        StampPath(s, s.id, PathOf(id, parent), move);
        assert Sub(c, q[0]).id == s.id;
      }
    }
  }

  lemma {:induction false} StampFace(e: Element, id: string, parent: string, move: Move, q: Pos)
    requires In(e, q)
    ensures In(Stamp(e, id, parent, move), q)
    ensures FaceOf(At(Stamp(e, id, parent, move), q)) ==
      FaceOf(At(e, q)).(id := StampedId(e, id, q), parent := StampedParent(e, id, parent, q),
                        ref := MoveRef(At(e, q).ref, move))
  {
    StampAt(e, id, parent, move, q);
  }

  lemma {:induction false} StampBuilt(e: Element, id: string, parent: string, move: Move)
    requires Built(e)
    ensures Built(Stamp(e, id, parent, move))
    decreases e
  {
    var c := Stamp(e, id, parent, move);
    forall s | HasStep(c, s)
      ensures '/' !in Sub(c, s).id && Built(Sub(c, s))
    {
      StampSub(e, id, parent, move, s);
      StampPath(Sub(e, s), Sub(e, s).id, PathOf(id, parent), move);
      StampBuilt(Sub(e, s), Sub(e, s).id, PathOf(id, parent), move);
    }
    if !e.Parameter? {
      forall i | 0 <= i < |c.items|
        ensures c.items[i].id == e.items[i].id && (c.items[i].Component? <==> e.items[i].Component?)
      {
        StampPath(e.items[i], e.items[i].id, PathOf(id, parent), move);
      }
    }
    if e.List? {
      StampPath(e.pattern, e.pattern.id, PathOf(id, parent), move);
    }
  }

  lemma {:induction false} StampPlaced(e: Element, id: string, parent: string, move: Move)
    ensures Placed(Stamp(e, id, parent, move))
    decreases e
  {
    var c := Stamp(e, id, parent, move);
    StampPath(e, id, parent, move);
    forall s | HasStep(c, s)
      ensures Sub(c, s).parent == Path(c) && Placed(Sub(c, s))
    {
      StampSub(e, id, parent, move, s);
      StampPath(Sub(e, s), Sub(e, s).id, PathOf(id, parent), move);
      StampPlaced(Sub(e, s), Sub(e, s).id, PathOf(id, parent), move);
    }
  }

  lemma {:induction false} StampNamed(e: Element, id: string, parent: string, move: Move)
    requires Named(e)
    ensures Named(Stamp(e, id, parent, move))
    decreases e
  {
    var c := Stamp(e, id, parent, move);
    forall s | HasStep(c, s)
      ensures Sub(c, s).id != "" && (s.Item? ==> Sub(c, s).id != "*") && Named(Sub(c, s))
    {
      StampSub(e, id, parent, move, s);
      StampPath(Sub(e, s), Sub(e, s).id, PathOf(id, parent), move);
      StampNamed(Sub(e, s), Sub(e, s).id, PathOf(id, parent), move);
    }
  }

  // ----- The item a list gets -----

  /** Item `n` of the list at `pos`, as it is when new: the pattern under the number `n`, with the
      references into the pattern moved into the item. */
  function ItemOf(list: Element, pos: Pos, n: nat): Element
    requires list.List?
  {
    Stamp(list.pattern, Dec(n), Path(list), Shift(pos + [Pattern], pos + [Item(n)]))
  }

  /** The item that `addItem` adds. */
  function NewItem(list: Element, pos: Pos): Element
    requires list.List?
  {
    ItemOf(list, pos, |list.items|)
  }

  /** The pattern itself refers to one of its own parameters. */
  predicate SelfReferring(list: Element, pos: Pos)
    requires list.List?
  {
    list.pattern.ref.Some? && pos + [Pattern] <= list.pattern.ref.value.target.pos
  }

  /** The list after `addItem`. It fails when the pattern refers into itself: the path of the item
      relative to itself is empty, and finds nothing. */
  function Grown(list: Element, pos: Pos): Option<Element>
    requires list.List?
  {
    if SelfReferring(list, pos) then None else Some(WithItems(list, list.items + [NewItem(list, pos)]))
  }

  // ----- Which references stay inside the pattern -----

  /** Two positions with the same ids are the same. */
  lemma {:induction false} IdsInjective(root: Element, p: Pos, q: Pos)
    requires Built(root) && Named(root) && In(root, p) && In(root, q)
    requires Ids(root, p) == Ids(root, q)
    ensures p == q
  {
    NamedEverywhere(root, p);
    NamedEverywhere(root, q);
    FollowsPattern(root, p);
    FollowsPattern(root, q);
    ResolveIds(root, p, PatternMode);
    ResolveIds(root, q, PatternMode);
  }

  /** One position lies above another exactly when its ids are a prefix of the other's. */
  lemma {:induction false} IdsPrefix(root: Element, p: Pos, q: Pos)
    requires Built(root) && Named(root) && In(root, p) && In(root, q)
    ensures Ids(root, p) <= Ids(root, q) <==> p <= q
  {
    if |p| <= |q| {
      InPrefix(root, q, |p|);
      var a := Ids(root, q[..|p|]);
      assert Ids(root, q)[..|p|] == a;
      if Ids(root, p) <= Ids(root, q) {
        assert Ids(root, p) == a;
        IdsInjective(root, p, q[..|p|]);
      }
      if p <= q {
        assert q[..|p|] == p;
      }
    }
  }

  lemma {:induction false} RootPath(root: Element, p: Pos)
    requires IsRoot(root) && Built(root) && Placed(root) && Named(root) && In(root, p)
    ensures Path(At(root, p)) == Render(Ids(root, p)) && AllSegments(Ids(root, p))
  {
    NamedEverywhere(root, p);
    PathIsRender(root, p);
    IdsAreSegments(root, p);
    assert root.parent + "/" + root.id == "/";
  }

  lemma {:induction false} PatternIds(root: Element, pos: Pos)
    requires Built(root) && In(root, pos) && At(root, pos).List?
    ensures In(root, pos + [Pattern]) && At(root, pos + [Pattern]) == At(root, pos).pattern
    ensures Ids(root, pos + [Pattern]) == Ids(root, pos) + ["*"]
  {
    BuiltBelow(root, pos);
    InSnoc(root, pos, Pattern);
    InConcat(root, pos, [Pattern]);
    assert Ids(At(root, pos), [Pattern]) == ["*"];
  }

  /** The path test of `addItem` picks out exactly the targets below the pattern of the list. */
  lemma {:induction false} ThroughPatternIff(root: Element, pos: Pos, target: Pos)
    requires IsRoot(root) && Built(root) && Placed(root) && Named(root)
    requires In(root, pos) && At(root, pos).List? && In(root, target)
    ensures ThroughPattern(Path(At(root, pos)), Path(At(root, target))) <==> pos + [Pattern] <= target
  {
    RootPath(root, pos);
    RootPath(root, target);
    PatternIds(root, pos);
    IdsPrefix(root, pos + [Pattern], target);
    CommonBelow(Ids(root, pos), Ids(root, target), "*");
    CommonThenRelative(Ids(root, pos), Ids(root, target));
  }

  // ----- Re-targeting the references of the new item -----

  /** The path of an element below a pattern, relative to the pattern, leads in the item to the
      corresponding element; only for the pattern itself does it find nothing. */
  lemma {:induction false} RelativeLookup(root: Element, pos: Pos, q: Pos, item: Element)
    requires IsRoot(root) && Built(root) && Placed(root) && Named(root)
    requires In(root, pos) && At(root, pos).List? && In(root, pos + [Pattern] + q)
    requires Built(item) && Named(item) && In(item, q) && In(At(root, pos).pattern, q)
    requires Ids(item, q) == Ids(At(root, pos).pattern, q)
    ensures Lookup(item, RelativePath(Path(At(root, pos)) + "/*", Path(At(root, pos + [Pattern] + q))), PatternMode)
            == if q == [] then None else Some(q)
  {
    var start := pos + [Pattern];
    PatternIds(root, pos);
    InConcat(root, start, q);
    RootPath(root, pos);
    RootPath(root, start);
    RootPath(root, start + q);
    RenderSnoc(Ids(root, pos), "*");
    assert Path(At(root, pos)) + "/*" == Render(Ids(root, pos)) + "/" + "*" == Render(Ids(root, start));
    NamedEverywhere(item, q);
    IdsAreSegments(item, q);
    RelativeOfRender(Ids(root, start), Ids(item, q));
    FollowsPattern(item, q);
    ResolveIds(item, q, PatternMode);
  }

  /** The state of the second loop of `addItem`: `cur` is the duplicate of the pattern in which the
      references of `done` have moved. */
  ghost predicate PartialItem(root: Element, pos: Pos, move: Move, done: seq<Pos>, cur: Element)
    requires In(root, pos) && At(root, pos).List?
  {
    var list := At(root, pos);
    var start := pos + [Pattern];
    && Built(cur) && Named(cur)
    && (forall q :: In(cur, q) <==> In(list.pattern, q))
    && (forall q :: In(cur, q) ==> Ids(cur, q) == Ids(list.pattern, q))
    && (forall q :: In(cur, q) ==>
          FaceOf(At(cur, q)) == FaceOf(At(list.pattern, q)).(
            id := StampedId(list.pattern, Dec(|list.items|), q),
            parent := StampedParent(list.pattern, Dec(|list.items|), Path(list), q),
            ref := MoveRef(At(list.pattern, q).ref, if start + q in done then move else Stay)))
  }

  lemma {:induction false} SetRefIds(e: Element, p: Pos, r: Option<Reference>, q: Pos)
    requires In(e, p) && In(e, q)
    ensures In(SetRef(e, p, r), q)
    ensures Ids(SetRef(e, p, r), q) == Ids(e, q)
    decreases |q|
  {
    SetRefFaces(e, p, r, q);
    if q != [] {
      SetRefSub(e, p, r, q[0]);
      if p != [] && p[0] == q[0] {
        SetRefIds(Sub(e, p[0]), p[1..], r, q[1..]);
        SetRefSub(Sub(e, p[0]), p[1..], r, Pattern);
      }
    }
  }

  lemma {:induction false} PartialItemStart(root: Element, pos: Pos, move: Move)
    requires Built(root) && Named(root) && In(root, pos) && At(root, pos).List?
    ensures var list := At(root, pos);
      PartialItem(root, pos, move, [], Stamp(list.pattern, Dec(|list.items|), Path(list), Stay))
  {
    var list := At(root, pos);
    var id := Dec(|list.items|);
    var cur := Stamp(list.pattern, id, Path(list), Stay);
    PatternIds(root, pos);
    BuiltBelow(root, pos + [Pattern]);
    NamedBelow(root, pos + [Pattern]);
    StampBuilt(list.pattern, id, Path(list), Stay);
    StampNamed(list.pattern, id, Path(list), Stay);
    forall q
      ensures In(cur, q) <==> In(list.pattern, q)
      ensures In(cur, q) ==> Ids(cur, q) == Ids(list.pattern, q)
      ensures In(cur, q) ==>
        FaceOf(At(cur, q)) == FaceOf(At(list.pattern, q)).(
          id := StampedId(list.pattern, id, q),
          parent := StampedParent(list.pattern, id, Path(list), q),
          ref := MoveRef(At(list.pattern, q).ref, Stay))
    {
      StampAt(list.pattern, id, Path(list), Stay, q);
      if In(list.pattern, q) {
        StampFace(list.pattern, id, Path(list), Stay, q);
      }
    }
  }

  lemma {:induction false} PartialItemStep(root: Element, pos: Pos, move: Move, done: seq<Pos>, cur: Element, q: Pos)
    requires In(root, pos) && At(root, pos).List? && PartialItem(root, pos, move, done, cur)
    requires In(cur, q) && In(At(root, pos).pattern, q)
    ensures PartialItem(root, pos, move, done + [pos + [Pattern] + q],
                        SetRef(cur, q, MoveRef(At(At(root, pos).pattern, q).ref, move)))
  {
    var list := At(root, pos);
    var start := pos + [Pattern];
    var r := MoveRef(At(list.pattern, q).ref, move);
    var next := SetRef(cur, q, r);
    SetRefBuilt(cur, q, r);
    SetRefNamed(cur, q, r);
    forall x
      ensures In(next, x) <==> In(list.pattern, x)
      ensures In(next, x) ==> Ids(next, x) == Ids(list.pattern, x)
      ensures In(next, x) ==>
        FaceOf(At(next, x)) == FaceOf(At(list.pattern, x)).(
          id := StampedId(list.pattern, Dec(|list.items|), x),
          parent := StampedParent(list.pattern, Dec(|list.items|), Path(list), x),
          ref := MoveRef(At(list.pattern, x).ref, if start + x in done + [start + q] then move else Stay))
    {
      SetRefFaces(cur, q, r, x);
      if In(cur, x) {
        SetRefIds(cur, q, r, x);
        assert start + x == start + q <==> x == q by {
          assert (start + x)[|start|..] == x && (start + q)[|start|..] == q;
        }
      }
    }
  }

  /** When every reference into the pattern has moved the item is complete. */
  lemma {:induction false} PartialItemEnd(root: Element, pos: Pos, done: seq<Pos>, cur: Element)
    requires In(root, pos) && At(root, pos).List?
    requires PartialItem(root, pos, Shift(pos + [Pattern], pos + [Item(|At(root, pos).items|)]), done, cur)
    requires forall q :: In(At(root, pos).pattern, q) && At(At(root, pos).pattern, q).ref.Some?
               && pos + [Pattern] <= At(At(root, pos).pattern, q).ref.value.target.pos
               ==> pos + [Pattern] + q in done
    ensures cur == NewItem(At(root, pos), pos)
  {
    var list := At(root, pos);
    var move := Shift(pos + [Pattern], pos + [Item(|list.items|)]);
    var item := NewItem(list, pos);
    forall q | In(cur, q)
      ensures In(item, q) && FaceOf(At(cur, q)) == FaceOf(At(item, q))
    {
      StampFace(list.pattern, Dec(|list.items|), Path(list), move, q);
    }
    SameFaces(cur, item);
  }

  /** What the lookups of the second loop of `addItem` find, and the reference made from them. */
  lemma {:induction false} MoveLookups(root: Element, model: nat, pos: Pos, done: seq<Pos>, cur: Element, x: Pos)
    requires WellFormed(root, model) && ExpectedSet(root)
    requires In(root, pos) && At(root, pos).List?
    requires PartialItem(root, pos, Shift(pos + [Pattern], pos + [Item(|At(root, pos).items|)]), done, cur)
    requires pos + [Pattern] <= x && In(root, x) && At(root, x).ref.Some?
    requires pos + [Pattern] <= At(root, x).ref.value.target.pos
    ensures var list := At(root, pos);
      var start := pos + [Pattern];
      var into := pos + [Item(|list.items|)];
      var r := At(root, x).ref.value;
      var q, t := x[|start|..], r.target.pos[|start|..];
      && In(list.pattern, q) && In(cur, q) && At(list.pattern, q).ref == Some(r)
      && In(root, r.target.pos) && Sound(r.expected) && r.expected.value.Some?
      && Lookup(cur, RelativePath(Path(list) + "/*", Path(At(root, x))), PatternMode) ==
        (if q == [] then None else Some(q))
      && Lookup(cur, RelativePath(Path(list) + "/*", Path(At(root, r.target.pos))), PatternMode) == Some(t)
      && At(cur, t).Parameter?
      && MakeReference(At(cur, t), Target(r.target.model, into + t), r.expected) == MoveRef(Some(r), Shift(start, into))
  {
    var list := At(root, pos);
    var start := pos + [Pattern];
    var into := pos + [Item(|list.items|)];
    var r := At(root, x).ref.value;
    var q, t := x[|start|..], r.target.pos[|start|..];
    assert x == start + q && r.target.pos == start + t;
    assert GoodRef(root, model, r);
    PatternIds(root, pos);
    InConcat(root, start, q);
    InConcat(root, start, t);
    RelativeLookup(root, pos, q, cur);
    RelativeLookup(root, pos, t, cur);
    BuiltBelow(root, pos);
    MakesMoved(At(cur, t), r, start, into, t);
  }

  lemma {:induction false} MakesMoved(e: Element, r: Reference, start: Pos, into: Pos, t: Pos)
    requires r.target.pos == start + t && Sound(r.expected) && r.expected.value.Some?
    requires TypeOf(e.info) == Some(r.expected.typ)
    ensures MakeReference(e, Target(r.target.model, into + t), r.expected) == MoveRef(Some(r), Shift(start, into))
  {
    assert r.target.pos[|start|..] == t;
    CopyReproduces(r.expected);
  }

  /** The second loop of `addItem` for one element: both ends are looked up again in the item. */
  method MoveReference(root: Element, ghost model: nat, pos: Pos, ghost done: seq<Pos>, cur: Element, x: Pos)
    returns (r: Option<Element>)
    requires WellFormed(root, model) && ExpectedSet(root)
    requires In(root, pos) && At(root, pos).List?
    requires PartialItem(root, pos, Shift(pos + [Pattern], pos + [Item(|At(root, pos).items|)]), done, cur)
    requires pos + [Pattern] <= x && In(root, x) && At(root, x).ref.Some?
    requires pos + [Pattern] <= At(root, x).ref.value.target.pos
    ensures r.Some? <==> x != pos + [Pattern]
    ensures r.Some? ==>
      PartialItem(root, pos, Shift(pos + [Pattern], pos + [Item(|At(root, pos).items|)]), done + [x], r.value)
  {
    var list := At(root, pos);
    var into := pos + [Item(|list.items|)];
    var reference := At(root, x).ref.value;
    MoveLookups(root, model, pos, done, cur, x);
    assert x == pos + [Pattern] + x[|pos| + 1..];
    var elt := GetItemFromRoot(cur, RelativePath(Path(list) + "/*", Path(At(root, x))), PatternMode);
    if elt.None? {
      return None;
    }
    var target := GetItemFromRoot(cur, RelativePath(Path(list) + "/*", Path(At(root, reference.target.pos))),
      PatternMode);
    if target.None? || !At(cur, target.value).Parameter? {
      return None;
    }
    var made := MakeReference(At(cur, target.value), Target(reference.target.model, into + target.value),
      reference.expected);
    if made.None? {
      return None;
    }
    PartialItemStep(root, pos, Shift(pos + [Pattern], into), done, cur, elt.value);
    r := Some(SetRef(cur, elt.value, made));
  }

  /** The first loop of `addItem`: the elements of the pattern that refer into the pattern. */
  method FindInternal(root: Element, pos: Pos) returns (referenced: seq<Pos>)
    requires In(root, pos) && At(root, pos).List?
    requires forall p :: In(root, p) && At(root, p).ref.Some? ==> In(root, At(root, p).ref.value.target.pos)
    ensures forall p :: p in referenced <==> pos + [Pattern] <= p && Kept(root, p, Some(Path(At(root, pos))))
    ensures Distinct(referenced)
  {
    var list := At(root, pos);
    referenced := [];
    InSnoc(root, pos, Pattern);
    var queue: seq<Pos> := [pos + [Pattern]];
    ghost var visited: seq<Pos> := [];
    ghost var all := Visits(root, queue, false);
    while queue != []
      invariant AllIn(root, queue)
      invariant visited + Visits(root, queue, false) == all
      invariant referenced == Filter(root, visited, Some(Path(list)))
      decreases Weight(root, queue)
    {
      VisitStep(root, queue, false, visited);
      FilterSnoc(root, visited, queue[0], Some(Path(list)));
      var elt := queue[0];
      visited := visited + [elt];
      if At(root, elt).ref.Some? {
        var target := At(root, At(root, elt).ref.value.target.pos);
        var common := GetCommonPath(Path(list), Path(target));
        var relative := GetRelativePath(common, Path(target));
        var remaining := SplitPath(relative);
        if common == Path(list) && remaining != [] && remaining[0] == "*" {
          referenced := referenced + [elt];
        }
      }
      queue := Advance(root, queue, false);
    }
    assert visited == all;
    KeptOnce(root, pos + [Pattern], false, Some(Path(list)));
  }

  /** What the first loop found, in terms of positions. */
  lemma {:induction false} InternalMeaning(root: Element, model: nat, pos: Pos, referenced: seq<Pos>)
    requires WellFormed(root, model) && In(root, pos) && At(root, pos).List?
    requires forall p :: p in referenced <==> pos + [Pattern] <= p && Kept(root, p, Some(Path(At(root, pos))))
    ensures forall x :: x in referenced ==>
      && pos + [Pattern] <= x && In(root, x) && At(root, x).ref.Some?
      && pos + [Pattern] <= At(root, x).ref.value.target.pos
    ensures forall q ::
      In(At(root, pos).pattern, q) && At(At(root, pos).pattern, q).ref.Some?
      && pos + [Pattern] <= At(At(root, pos).pattern, q).ref.value.target.pos ==>
        pos + [Pattern] + q in referenced
    ensures pos + [Pattern] in referenced <==> SelfReferring(At(root, pos), pos)
  {
    KeptInside(root, model, pos);
    PatternIds(root, pos);
  }

  /** `addItem` up to the insertion: the new item, or nothing when the pattern refers into itself. */
  method MakeItem(root: Element, ghost model: nat, pos: Pos) returns (item: Option<Element>)
    requires WellFormed(root, model) && ExpectedSet(root)
    requires In(root, pos) && At(root, pos).List?
    ensures item.None? <==> SelfReferring(At(root, pos), pos)
    ensures item.Some? ==> item.value == NewItem(At(root, pos), pos)
  {
    var list := At(root, pos);
    PatternRefs(root, model, pos);
    DuplicateIsStamp(root, model, list.pattern, Dec(|list.items|), Path(list));
    item := Duplicate(root, model, list.pattern, Dec(|list.items|), Path(list));
    PartialItemStart(root, pos, Shift(pos + [Pattern], pos + [Item(|list.items|)]));
    assert forall p :: In(root, p) && At(root, p).ref.Some? ==> GoodRef(root, model, At(root, p).ref.value);
    var referenced := FindInternal(root, pos);
    InternalMeaning(root, model, pos, referenced);
    item := MoveReferences(root, model, pos, item.value, referenced);
  }

  method MoveReferences(root: Element, ghost model: nat, pos: Pos, copy: Element, referenced: seq<Pos>)
    returns (item: Option<Element>)
    requires WellFormed(root, model) && ExpectedSet(root)
    requires In(root, pos) && At(root, pos).List?
    requires PartialItem(root, pos, Shift(pos + [Pattern], pos + [Item(|At(root, pos).items|)]), [], copy)
    requires forall x :: x in referenced ==>
      && pos + [Pattern] <= x && In(root, x) && At(root, x).ref.Some?
      && pos + [Pattern] <= At(root, x).ref.value.target.pos
    requires forall q ::
      In(At(root, pos).pattern, q) && At(At(root, pos).pattern, q).ref.Some?
      && pos + [Pattern] <= At(At(root, pos).pattern, q).ref.value.target.pos ==>
        pos + [Pattern] + q in referenced
    ensures item.None? <==> pos + [Pattern] in referenced
    ensures item.Some? ==> item.value == NewItem(At(root, pos), pos)
  {
    ghost var move := Shift(pos + [Pattern], pos + [Item(|At(root, pos).items|)]);
    item := Some(copy);
    var k := 0;
    while k < |referenced|
      invariant 0 <= k <= |referenced|
      invariant item.Some? && PartialItem(root, pos, move, referenced[..k], item.value)
      invariant pos + [Pattern] !in referenced[..k]
    {
      assert referenced[k] in referenced;
      item := MoveReference(root, model, pos, referenced[..k], item.value, referenced[k]);
      if item.None? {
        return None;
      }
      assert referenced[..k] + [referenced[k]] == referenced[..k + 1];
      k := k + 1;
    }
    assert referenced[..k] == referenced;
    PartialItemEnd(root, pos, referenced, item.value);
  }

  lemma {:induction false} PatternRefs(root: Element, model: nat, pos: Pos)
    requires WellFormed(root, model) && ExpectedSet(root)
    requires In(root, pos) && At(root, pos).List?
    ensures RefsInto(root, model, At(root, pos).pattern)
  {
    InSnoc(root, pos, Pattern);
    var start := pos + [Pattern];
    forall q | In(At(root, start), q) && At(At(root, start), q).ref.Some?
      ensures var r := At(At(root, start), q).ref.value; GoodRef(root, model, r) && r.expected.value.Some?
    {
      InConcat(root, start, q);
      assert In(root, start + q);
    }
  }

  /** The elements `addItem` keeps are those of the pattern whose target lies below the pattern. */
  lemma {:induction false} KeptInside(root: Element, model: nat, pos: Pos)
    requires WellFormed(root, model) && In(root, pos) && At(root, pos).List?
    ensures forall x :: Kept(root, x, Some(Path(At(root, pos)))) <==>
      In(root, x) && At(root, x).ref.Some? && pos + [Pattern] <= At(root, x).ref.value.target.pos
    ensures forall q :: In(At(root, pos).pattern, q) ==>
      In(root, pos + [Pattern] + q) && At(root, pos + [Pattern] + q) == At(At(root, pos).pattern, q)
  {
    forall x | In(root, x) && At(root, x).ref.Some?
      ensures Kept(root, x, Some(Path(At(root, pos)))) <==> pos + [Pattern] <= At(root, x).ref.value.target.pos
    {
      assert GoodRef(root, model, At(root, x).ref.value);
      ThroughPatternIff(root, pos, At(root, x).ref.value.target.pos);
    }
    forall q | In(At(root, pos).pattern, q)
      ensures In(root, pos + [Pattern] + q) && At(root, pos + [Pattern] + q) == At(At(root, pos).pattern, q)
    {
      InSnoc(root, pos, Pattern);
      InConcat(root, pos + [Pattern], q);
    }
  }
}
