/** What the operations on a data model keep. */
module DataTrees {
  import opened Wrappers
  import opened Numerals
  import opened Paths
  import opened Values
  import opened Elements
  import opened Edits
  import opened References
  import opened DataLists

  /** Every parameter holds a data that passed the check of its type. */
  ghost predicate HoldsData(root: Element) {
    forall p :: In(root, p) && At(root, p).Parameter? ==>
      At(root, p).info.Holding? && Sound(At(root, p).info.data)
  }

  /** The tree of a data model. */
  ghost predicate DataTree(root: Element, model: nat) {
    WellFormed(root, model) && ExpectedSet(root) && HoldsData(root)
  }

  // ----- addItem -----

  /** The root after `addItem` on the list at `pos`. */
  function GrownRoot(root: Element, pos: Pos): Element
    requires In(root, pos) && At(root, pos).List?
  {
    Append(root, pos, NewItem(At(root, pos), pos))
  }

  /** Every element that was there keeps everything but, for the list itself, its number of items. */
  lemma {:induction false} GrownOld(root: Element, pos: Pos, p: Pos)
    requires In(root, pos) && At(root, pos).List? && In(root, p)
    ensures In(GrownRoot(root, pos), p)
    ensures FaceOf(At(GrownRoot(root, pos), p)) ==
            if p == pos then FaceOf(At(root, p)).(size := |At(root, pos).items| + 1) else FaceOf(At(root, p))
  {
    AppendOld(root, pos, NewItem(At(root, pos), pos), p);
  }

  /** The new item is there, below the number it got. */
  lemma {:induction false} GrownNew(root: Element, pos: Pos, q: Pos)
    requires In(root, pos) && At(root, pos).List?
    ensures var list := At(root, pos);
      var p := pos + [Item(|list.items|)] + q;
      && (In(GrownRoot(root, pos), p) <==> In(list.pattern, q))
      && (In(list.pattern, q) ==>
            In(NewItem(list, pos), q) && At(GrownRoot(root, pos), p) == At(NewItem(list, pos), q))
  {
    var list := At(root, pos);
    var n := |list.items|;
    AppendNew(root, pos, NewItem(list, pos), q);
    StampAt(list.pattern, Dec(n), Path(list), Shift(pos + [Pattern], pos + [Item(n)]), q);
  }

  /** There is nothing else. */
  lemma {:induction false} GrownOnly(root: Element, pos: Pos, p: Pos)
    requires In(root, pos) && At(root, pos).List? && In(GrownRoot(root, pos), p)
    ensures In(root, p) ||
      (&& pos + [Item(|At(root, pos).items|)] <= p
       && p == pos + [Item(|At(root, pos).items|)] + p[|pos| + 1..]
       && In(At(root, pos).pattern, p[|pos| + 1..]))
  {
    var list := At(root, pos);
    var n := |list.items|;
    AppendOnly(root, pos, NewItem(list, pos), p);
    if !In(root, p) {
      StampAt(list.pattern, Dec(n), Path(list), Shift(pos + [Pattern], pos + [Item(n)]), p[|pos| + 1..]);
    }
  }

  /** An element of the new item holds what the corresponding element of the pattern holds, and
      has its reference, moved. */
  lemma {:induction false} NewFace(root: Element, pos: Pos, q: Pos)
    requires In(root, pos) && At(root, pos).List?
    requires In(At(root, pos).pattern, q)
    ensures var list := At(root, pos);
      var into := pos + [Item(|list.items|)];
      && In(root, pos + [Pattern] + q)
      && At(root, pos + [Pattern] + q) == At(list.pattern, q)
      && In(GrownRoot(root, pos), into + q)
      && At(GrownRoot(root, pos), into + q).info == At(list.pattern, q).info
      && (At(GrownRoot(root, pos), into + q).Parameter? <==> At(list.pattern, q).Parameter?)
      && At(GrownRoot(root, pos), into + q).ref == MoveRef(At(list.pattern, q).ref, Shift(pos + [Pattern], into))
  {
    var list := At(root, pos);
    var n := |list.items|;
    InSnoc(root, pos, Pattern);
    InConcat(root, pos + [Pattern], q);
    GrownNew(root, pos, q);
    StampFace(list.pattern, Dec(n), Path(list), Shift(pos + [Pattern], pos + [Item(n)]), q);
  }

  /** A good reference is still good after it moved. */
  lemma {:induction false} MovedRef(root: Element, model: nat, pos: Pos, r: Reference)
    requires In(root, pos) && At(root, pos).List? && GoodRef(root, model, r)
    ensures var move := Shift(pos + [Pattern], pos + [Item(|At(root, pos).items|)]);
      GoodRef(GrownRoot(root, pos), model, MoveRef(Some(r), move).value)
    ensures pos + [Pattern] <= r.target.pos ==> In(At(root, pos).pattern, r.target.pos[|pos| + 1..])
    ensures !(pos + [Pattern] <= r.target.pos) ==>
      FaceOf(At(GrownRoot(root, pos), r.target.pos)) == FaceOf(At(root, r.target.pos))
  {
    var start := pos + [Pattern];
    if start <= r.target.pos {
      var t := r.target.pos[|start|..];
      assert r.target.pos == start + t;
      InSnoc(root, pos, Pattern);
      InConcat(root, start, t);
      NewFace(root, pos, t);
    } else {
      GrownOld(root, pos, r.target.pos);
    }
  }

  /** The path of an element of the new item, from the path of the item. */
  lemma {:induction false} NewPath(root: Element, pos: Pos, t: Pos)
    requires Built(root) && Named(root) && In(root, pos) && At(root, pos).List?
    requires In(At(root, pos).pattern, t)
    ensures var into := pos + [Item(|At(root, pos).items|)];
      var root' := GrownRoot(root, pos);
      && In(root', into) && In(root', into + t)
      && Path(At(root', into + t)) == Path(At(root', into)) + Render(Ids(At(root, pos).pattern, t))
  {
    var list := At(root, pos);
    var n := |list.items|;
    var into := pos + [Item(n)];
    var move := Shift(pos + [Pattern], into);
    GrownNew(root, pos, t);
    GrownNew(root, pos, []);
    assert into + [] == into;
    InSnoc(root, pos, Pattern);
    NamedBelow(root, pos + [Pattern]);
    StampNamed(list.pattern, Dec(n), Path(list), move);
    StampPlaced(list.pattern, Dec(n), Path(list), move);
    StampAt(list.pattern, Dec(n), Path(list), move, t);
    NamedEverywhere(NewItem(list, pos), t);
    PathIsRender(NewItem(list, pos), t);
  }

  /** List instantiation re-binds references. Take the element at `q` of the pattern and the
      corresponding element of the new item: if the pattern's reference points inside the pattern, the
      item's points at the corresponding parameter of the same item; any other reference still points
      where it did. The expected value is the same, and so is the data held. */
  lemma {:induction false} AddItemRebinds(root: Element, model: nat, pos: Pos, q: Pos)
    requires DataTree(root, model) && In(root, pos) && At(root, pos).List?
    requires In(At(root, pos).pattern, q)
    ensures var pattern := At(root, pos).pattern;
      var start := pos + [Pattern];
      var into := pos + [Item(|At(root, pos).items|)];
      var root' := GrownRoot(root, pos);
      && In(root', into + q)
      && At(root', into + q).info == At(pattern, q).info
      && (At(root', into + q).ref.Some? <==> At(pattern, q).ref.Some?)
      && (At(pattern, q).ref.Some? ==>
            var was := At(pattern, q).ref.value;
            var now := At(root', into + q).ref.value;
            && now.expected == was.expected
            && In(root', now.target.pos) && At(root', now.target.pos).Parameter?
            && (start <= was.target.pos ==>
                  var t := was.target.pos[|start|..];
                  && now.target.pos == into + t
                  && In(root', into) && In(pattern, t)
                  && Path(At(root', now.target.pos)) == Path(At(root', into)) + Render(Ids(pattern, t)))
            && (!(start <= was.target.pos) ==>
                  && now == was && In(root, was.target.pos)
                  && FaceOf(At(root', was.target.pos)) == FaceOf(At(root, was.target.pos))))
  {
    NewFace(root, pos, q);
    if At(At(root, pos).pattern, q).ref.Some? {
      var was := At(At(root, pos).pattern, q).ref.value;
      assert GoodRef(root, model, was);
      MovedRef(root, model, pos, was);
      if pos + [Pattern] <= was.target.pos {
        NewPath(root, pos, was.target.pos[|pos| + 1..]);
      }
    }
  }

  /** Item `i` is named `i`, in decimal. */
  lemma {:induction false} ItemNumbers(root: Element, pos: Pos, i: nat)
    requires Built(root) && In(root, pos) && At(root, pos).List? && i < |At(root, pos).items|
    ensures At(root, pos).items[i].id == Dec(i)
  {
    BuiltBelow(root, pos);
  }

  lemma {:induction false} GrownNames(root: Element, model: nat, pos: Pos)
    requires DataTree(root, model) && In(root, pos) && At(root, pos).List?
    ensures var r := GrownRoot(root, pos); IsRoot(r) && Built(r) && Placed(r) && Named(r)
  {
    var list := At(root, pos);
    var n := |list.items|;
    var item := NewItem(list, pos);
    var move := Shift(pos + [Pattern], pos + [Item(n)]);
    BuiltBelow(root, pos);
    NamedBelow(root, pos);
    assert HasStep(list, Pattern) && Sub(list, Pattern) == list.pattern;
    StampBuilt(list.pattern, Dec(n), Path(list), move);
    StampPlaced(list.pattern, Dec(n), Path(list), move);
    StampNamed(list.pattern, Dec(n), Path(list), move);
    StampPath(list.pattern, Dec(n), Path(list), move);
    forall i | 0 <= i < n
      ensures list.items[i].id != item.id
    {
      DecInjective(i, n);
    }
    DecIsNoStar(n);
    AppendNames(root, pos, item);
  }

  lemma {:induction false} DecIsNoStar(n: nat)
    ensures Dec(n) != "*" && '/' !in Dec(n)
  {
    assert IsDigit(Dec(n)[0]);
    forall c | c in Dec(n)
      ensures c != '/'
    {
      var i :| 0 <= i < |Dec(n)| && Dec(n)[i] == c;
    }
  }

  /** `addItem` keeps the model well-formed. */
  lemma {:induction false} GrownTree(root: Element, model: nat, pos: Pos)
    requires DataTree(root, model) && In(root, pos) && At(root, pos).List?
    ensures DataTree(GrownRoot(root, pos), model)
  {
    var root' := GrownRoot(root, pos);
    var list := At(root, pos);
    GrownNames(root, model, pos);
    forall p | In(root', p)
      ensures At(root', p).Parameter? ==> At(root', p).info.Holding? && Sound(At(root', p).info.data)
      ensures At(root', p).ref.Some? ==>
        GoodRef(root', model, At(root', p).ref.value) && At(root', p).ref.value.expected.value.Some?
    {
      GrownOnly(root, pos, p);
      if In(root, p) {
        GrownOld(root, pos, p);
        if At(root, p).ref.Some? {
          assert GoodRef(root, model, At(root, p).ref.value);
          GrownOld(root, pos, At(root, p).ref.value.target.pos);
        }
      } else {
        GrownItemRef(root, model, pos, p[|pos| + 1..]);
        assert p == pos + [Item(|list.items|)] + p[|pos| + 1..];
      }
    }
  }

  lemma {:induction false} GrownItemRef(root: Element, model: nat, pos: Pos, q: Pos)
    requires DataTree(root, model) && In(root, pos) && At(root, pos).List? && In(At(root, pos).pattern, q)
    ensures var root' := GrownRoot(root, pos);
      var p := pos + [Item(|At(root, pos).items|)] + q;
      && In(root', p)
      && (At(root', p).Parameter? ==> At(root', p).info.Holding? && Sound(At(root', p).info.data))
      && (At(root', p).ref.Some? ==>
            GoodRef(root', model, At(root', p).ref.value) && At(root', p).ref.value.expected.value.Some?)
  {
    NewFace(root, pos, q);
    if At(root, pos + [Pattern] + q).ref.Some? {
      var was := At(root, pos + [Pattern] + q).ref.value;
      assert GoodRef(root, model, was);
      MovedRef(root, model, pos, was);
    }
  }

  // ----- Setting a value -----

  function WithData(e: Element, d: Data): Element
    requires e.Parameter?
  {
    Parameter(e.id, e.parent, e.ref, Holding(d))
  }

  /** The root after the data of the parameter at `pos` became `d`. */
  function SetRoot(root: Element, pos: Pos, d: Data): Element
    requires In(root, pos) && At(root, pos).Parameter?
  {
    Replace(root, pos, WithData(At(root, pos), d))
  }

  lemma {:induction false} SetFaces(root: Element, pos: Pos, d: Data, p: Pos)
    requires In(root, pos) && At(root, pos).Parameter?
    ensures In(SetRoot(root, pos, d), p) <==> In(root, p)
    ensures In(root, p) ==> FaceOf(At(SetRoot(root, pos, d), p)) ==
                            if p == pos then FaceOf(At(root, p)).(info := Holding(d)) else FaceOf(At(root, p))
  {
    var x := WithData(At(root, pos), d);
    ReplaceAt(root, pos, x);
    if pos <= p {
      var r := p[|pos|..];
      assert p == pos + r;
      InConcat(root, pos, r);
      InConcat(SetRoot(root, pos, d), pos, r);
    } else {
      ReplaceElsewhere(root, pos, x, p);
    }
  }

  /** Setting a checked value keeps the model well-formed. */
  lemma {:induction false} SetTree(root: Element, model: nat, pos: Pos, d: Data)
    requires DataTree(root, model) && In(root, pos) && At(root, pos).Parameter?
    requires Sound(d) && d.typ == At(root, pos).info.data.typ
    ensures DataTree(SetRoot(root, pos, d), model)
  {
    var root' := SetRoot(root, pos, d);
    var x := WithData(At(root, pos), d);
    ReplaceBuilt(root, pos, x);
    ReplacePlaced(root, pos, x);
    ReplaceNamed(root, pos, x);
    ReplaceName(root, pos, x);
    forall p | In(root', p)
      ensures At(root', p).Parameter? ==> At(root', p).info.Holding? && Sound(At(root', p).info.data)
      ensures At(root', p).ref.Some? ==>
        GoodRef(root', model, At(root', p).ref.value) && At(root', p).ref.value.expected.value.Some?
    {
      SetFaces(root, pos, d, p);
      if At(root, p).ref.Some? {
        assert GoodRef(root, model, At(root, p).ref.value);
        SetFaces(root, pos, d, At(root, p).ref.value.target.pos);
      }
    }
  }
}
