/** The references of a schema that is read from its document: they are set last, by path. */
module XsdReferences {
  import opened Wrappers
  import opened Values
  import opened Elements
  import opened References
  import opened Copies
  import opened Instances
  import opened Xsd
  import opened XsdTrees
  import opened MetaModels

  // ----- Setting one -----

  /** One round of the last loop of `loadRootFromXSD`: the outcome of `setReference` is ignored. */
  function ApplyOne(root: Element, model: nat, x: Pending): (r: Option<Element>) {
    match Lookup(root, x.path, SchemaMode)
    case None => None
    case Some(t) =>
      if !At(root, t).Parameter? || TypeOf(At(root, t).info).None? || !In(root, x.pos) then None
      else
        var typ := TypeOf(At(root, t).info).value;
        var next :=
          if Referable(root, x.pos, t) then SetRef(root, x.pos, Some(Reference(Target(model, t), Data(typ, None))))
          else root;
        if x.expected == "" then Some(next)
        else if !In(next, x.pos) || At(next, x.pos).ref.None? then None
        else
          var reference := At(next, x.pos).ref.value;
          match FromString(reference.expected, x.expected)
          case None => None
          case Some(d) => Some(SetRef(next, x.pos, Some(reference.(expected := d))))
  }

  function ApplyAll(root: Element, model: nat, xs: seq<Pending>): Option<Element>
    decreases |xs|
  {
    if xs == [] then Some(root)
    else
      match ApplyOne(root, model, xs[0])
      case None => None
      case Some(next) => ApplyAll(next, model, xs[1..])
  }

  lemma {:induction false} SetRefTwice(e: Element, p: Pos, r: Option<Reference>, r': Option<Reference>)
    requires In(e, p)
    ensures In(SetRef(e, p, r), p) && At(SetRef(e, p, r), p).ref == r
    ensures SetRef(SetRef(e, p, r), p, r') == SetRef(e, p, r')
  {
    var x := At(e, p).(ref := r);
    ReplaceAt(e, p, x);
    ReplaceTwice(e, p, x, x.(ref := r'));
  }

  /** What an expected value is read back as. */
  lemma {:induction false} ExpectedRead(d: Data)
    requires Sound(d)
    ensures if ToString(d) == "" then StripData(d) == Data(StripType(d.typ), None)
            else FromString(Data(StripType(d.typ), None), ToString(d)) == Some(StripData(d))
  {
    if d.value.Some? {
      PrintsEmpty(d);
      if d.value != Some(TextVal("")) {
        ReadBack(StripData(d), Data(StripType(d.typ), None));
      }
    }
  }

  /** Setting the reference of an element that may have it gives the stripped reference. */
  lemma {:induction false} ApplyGood(cur: Element, model: nat, p: Pos, t: Pos, path: string, d: Data)
    requires In(cur, p) && In(cur, t) && Lookup(cur, path, SchemaMode) == Some(t) && At(cur, t).Parameter?
    requires TypeOf(At(cur, t).info) == Some(StripType(d.typ)) && Sound(d) && Referable(cur, p, t)
    ensures ApplyOne(cur, model, Pending(p, path, ToString(d))) ==
      Some(SetRef(cur, p, Some(Reference(Target(model, t), StripData(d)))))
  {
    var first := Some(Reference(Target(model, t), Data(StripType(d.typ), None)));
    ExpectedRead(d);
    SetRefTwice(cur, p, first, Some(Reference(Target(model, t), StripData(d))));
  }

  // ----- Setting all of them -----

  /** The schema that the document keeps. */
  ghost predicate Stripped(root: Element, model: nat, src: Element) {
    && src == Strip(root) && WellFormed(root, model) && SchemaTree(root) && WellFormed(src, model)
    && forall p :: In(root, p) ==> ReferableAt(root, p)
  }

  lemma {:induction false} StrippedGood(root: Element, model: nat, r: Reference)
    requires GoodRef(root, model, r) && SchemaTree(root)
    ensures GoodRef(Strip(root), model, Reference(r.target, StripData(r.expected)))
  {
    StripAt(root, r.target.pos);
    StripFace(At(root, r.target.pos));
    SchemaBelow(root, r.target.pos);
  }

  lemma {:induction false} StripWellFormed(root: Element, model: nat)
    requires WellFormed(root, model) && SchemaTree(root)
    ensures WellFormed(Strip(root), model)
  {
    var src := Strip(root);
    StripBuilt(root);
    StripPlaced(root);
    StripNamed(root);
    StripFace(root);
    forall p | In(src, p) && At(src, p).ref.Some?
      ensures GoodRef(src, model, At(src, p).ref.value)
    {
      StripAt(root, p);
      StripFace(At(root, p));
      assert GoodRef(root, model, At(root, p).ref.value);
      StrippedGood(root, model, At(root, p).ref.value);
    }
  }

  /** What a position of the schema has to set. */
  ghost predicate IsPending(root: Element, x: Pending) {
    && In(root, x.pos) && At(root, x.pos).ref.Some?
    && x == Pending(x.pos, RefPath(root, At(root, x.pos).ref), RefExpected(At(root, x.pos).ref))
  }

  lemma {:induction false} StripLists(root: Element, how: Copying, model: nat, done: seq<Pos>, cur: Element)
    requires Partial(Strip(root), how, model, SchemaMode, done, cur)
    ensures SameLists(root, cur)
  {
    forall q | In(root, q)
      ensures In(cur, q) && (At(cur, q).List? <==> At(root, q).List?)
    {
      StripAt(root, q);
      StripFace(At(root, q));
      assert FaceOf(At(cur, q)) == PartialFace(Strip(root), how, model, done, q);
    }
  }

  lemma {:induction false} PendingTarget(root: Element, srcModel: nat, model: nat, done: seq<Pos>, cur: Element,
                                         x: Pending)
    requires Stripped(root, srcModel, Strip(root)) && IsPending(root, x)
    requires Partial(Strip(root), Reread, model, SchemaMode, done, cur)
    ensures var r := At(root, x.pos).ref.value;
      && In(cur, x.pos) && In(cur, r.target.pos) && At(cur, r.target.pos).Parameter? && Sound(r.expected)
      && Lookup(cur, x.path, SchemaMode) == Some(r.target.pos)
      && TypeOf(At(cur, r.target.pos).info) == Some(StripType(r.expected.typ))
      && Referable(cur, x.pos, r.target.pos)
  {
    var src, p := Strip(root), x.pos;
    var r := At(root, p).ref.value;
    var t := r.target.pos;
    assert GoodRef(root, srcModel, r) && ReferableAt(root, p);
    StripAt(root, p);
    StripFace(At(root, p));
    StripAt(root, t);
    StripFace(At(root, t));
    Relocate(src, srcModel, Reread, model, SchemaMode, done, cur, p);
    StripLists(root, Reread, model, done, cur);
    ReferableSame(root, cur, p, t);
    assert FaceOf(At(cur, t)) == PartialFace(src, Reread, model, done, t);
  }

  lemma {:induction false} ApplyPending(root: Element, srcModel: nat, model: nat, done: seq<Pos>, cur: Element,
                                        x: Pending)
    returns (next: Element)
    requires Stripped(root, srcModel, Strip(root)) && IsPending(root, x)
    requires Partial(Strip(root), Reread, model, SchemaMode, done, cur)
    ensures ApplyOne(cur, model, x) == Some(next)
    ensures Partial(Strip(root), Reread, model, SchemaMode, done + [x.pos], next)
  {
    var src, p := Strip(root), x.pos;
    var r := At(root, p).ref.value;
    PendingTarget(root, srcModel, model, done, cur, x);
    ApplyGood(cur, model, p, r.target.pos, x.path, r.expected);
    StripAt(root, p);
    StripFace(At(root, p));
    PartialStep(src, Reread, model, SchemaMode, done, cur, p);
    next := SetRef(cur, p, CopyRef(At(src, p).ref, Reread, Some(model)));
    assert CopyRef(At(src, p).ref, Reread, Some(model)) ==
      Some(Reference(Target(model, r.target.pos), StripData(r.expected)));
  }

  function Positions(xs: seq<Pending>): seq<Pos> {
    if xs == [] then [] else [xs[0].pos] + Positions(xs[1..])
  }

  lemma {:induction false} ApplyCons(cur: Element, model: nat, xs: seq<Pending>, next: Element, final: Element)
    requires xs != [] && ApplyOne(cur, model, xs[0]) == Some(next) && ApplyAll(next, model, xs[1..]) == Some(final)
    ensures ApplyAll(cur, model, xs) == Some(final)
  {
  }

  lemma {:induction false} ApplyFirst(root: Element, srcModel: nat, model: nat, done: seq<Pos>, cur: Element,
                                      xs: seq<Pending>)
    returns (next: Element)
    requires xs != [] && Stripped(root, srcModel, Strip(root)) && IsPending(root, xs[0])
    requires Partial(Strip(root), Reread, model, SchemaMode, done, cur)
    ensures Partial(Strip(root), Reread, model, SchemaMode, done + [xs[0].pos], next)
    ensures ApplyAll(next, model, xs[1..]).Some? ==> ApplyAll(cur, model, xs) == ApplyAll(next, model, xs[1..])
  {
    next := ApplyPending(root, srcModel, model, done, cur, xs[0]);
    if ApplyAll(next, model, xs[1..]).Some? {
      ApplyCons(cur, model, xs, next, ApplyAll(next, model, xs[1..]).value);
    }
  }

  /** Whatever the order, setting the references goes well and sets those of the schema. */
  lemma {:induction false} ApplyPendings(root: Element, srcModel: nat, model: nat, done: seq<Pos>, cur: Element,
                                         xs: seq<Pending>)
    returns (final: Element)
    requires Stripped(root, srcModel, Strip(root)) && forall i :: 0 <= i < |xs| ==> IsPending(root, xs[i])
    requires Partial(Strip(root), Reread, model, SchemaMode, done, cur)
    ensures ApplyAll(cur, model, xs) == Some(final)
    ensures Partial(Strip(root), Reread, model, SchemaMode, done + Positions(xs), final)
    decreases |xs|
  {
    if xs == [] {
      assert done + Positions(xs) == done;
      final := cur;
    } else {
      var next := ApplyFirst(root, srcModel, model, done, cur, xs);
      final := ApplyPendings(root, srcModel, model, done + [xs[0].pos], next, xs[1..]);
      assert done + [xs[0].pos] + Positions(xs[1..]) == done + Positions(xs);
    }
  }

  // ----- The references met while reading are those of the schema -----

  lemma {:induction false} PendingSound(root: Element, e: Element, pos: Pos, x: Pending)
    requires In(root, pos) && At(root, pos) == e && x in PendingAt(root, e, pos)
    ensures IsPending(root, x)
    decreases e, 1
  {
    match e {
      case Parameter(_, _, _, _) =>
      case Component(_, _, _, _, _) =>
        if x in PendingBelow(root, e, pos, 0) {
          PendingBelowSound(root, e, pos, 0, x);
        }
      case List(_, _, _, _, _, pattern) =>
        InSnoc(root, pos, Pattern);
        if pattern.Component? && x in PendingBelow(root, pattern, pos + [Pattern], 0) {
          PendingBelowSound(root, pattern, pos + [Pattern], 0, x);
        }
    }
  }

  lemma {:induction false} PendingBelowSound(root: Element, e: Element, pos: Pos, k: nat, x: Pending)
    requires In(root, pos) && At(root, pos) == e && e.Component? && k <= |e.items| && x in PendingBelow(root, e, pos, k)
    ensures IsPending(root, x)
    decreases e, 0, |e.items| - k
  {
    InSnoc(root, pos, Item(k));
    if x in PendingAt(root, e.items[k], pos + [Item(k)]) {
      PendingSound(root, e.items[k], pos + [Item(k)], x);
    } else {
      PendingBelowSound(root, e, pos, k + 1, x);
    }
  }

  lemma {:induction false} PendingCovers(root: Element, e: Element, pos: Pos, q: Pos)
    requires SchemaTree(e) && Built(e) && In(e, q) && At(e, q).ref.Some? && RefPath(root, At(e, q).ref) != ""
    ensures Pending(pos + q, RefPath(root, At(e, q).ref), RefExpected(At(e, q).ref)) in PendingAt(root, e, pos)
    decreases e, 1
  {
    if q == [] {
      assert pos + q == pos;
    } else {
      assert HasStep(e, q[0]);
      if e.Component? {
        PendingBelowCovers(root, e, pos, 0, q);
      } else {
        assert q[0] == Pattern && Sub(e, q[0]) == e.pattern;
        if q == [Pattern] {
          assert q[1..] == [];
        } else {
          PendingBelowCovers(root, e.pattern, pos + [Pattern], 0, q[1..]);
          assert pos + [Pattern] + q[1..] == pos + q;
        }
      }
    }
  }

  lemma {:induction false} PendingBelowCovers(root: Element, e: Element, pos: Pos, k: nat, q: Pos)
    requires SchemaTree(e) && Built(e) && e.Component? && In(e, q) && q != [] && k <= q[0].i
    requires At(e, q).ref.Some? && RefPath(root, At(e, q).ref) != ""
    ensures k <= |e.items|
    ensures Pending(pos + q, RefPath(root, At(e, q).ref), RefExpected(At(e, q).ref)) in PendingBelow(root, e, pos, k)
    decreases e, 0, |e.items| - k
  {
    if k < q[0].i {
      PendingBelowCovers(root, e, pos, k + 1, q);
    } else {
      assert HasStep(e, Item(k)) && Sub(e, Item(k)) == e.items[k];
      PendingCovers(root, e.items[k], pos + [Item(k)], q[1..]);
      assert pos + [Item(k)] + q[1..] == pos + q;
    }
  }

  lemma {:induction false} PathNotEmpty(root: Element, model: nat, r: Reference)
    requires WellFormed(root, model) && GoodRef(root, model, r)
    ensures RefPath(root, Some(r)) != ""
  {
    var t := r.target.pos;
    assert t != [];
    InPrefix(root, t, |t| - 1);
    NamedBelow(root, t[..|t| - 1]);
    var c := At(root, t[..|t| - 1]);
    var s := t[|t| - 1..];
    assert HasStep(c, s[0]) && Sub(c, s[0]) == At(c, s);
    var x := At(root, t);
    assert |x.parent + "/" + x.id| > 1;
  }

  /** The references of the root, then those below it. */
  function AllPending(root: Element): seq<Pending>
    requires root.Component?
  {
    OwnPending(root, root, []) + PendingBelow(root, root, [], 0)
  }

  lemma {:induction false} PositionsHave(xs: seq<Pending>, x: Pending)
    requires x in xs
    ensures x.pos in Positions(xs)
  {
    if xs[0] != x {
      PositionsHave(xs[1..], x);
    }
  }

  lemma {:induction false} AllCovered(root: Element, model: nat, p: Pos)
    requires WellFormed(root, model) && SchemaTree(root) && In(root, p) && At(root, p).ref.Some?
    ensures p in Positions(AllPending(root))
  {
    var ref := At(root, p).ref;
    assert GoodRef(root, model, ref.value);
    PathNotEmpty(root, model, ref.value);
    var x := Pending(p, RefPath(root, ref), RefExpected(ref));
    if p != [] {
      assert p[0].Item?;
      PendingBelowCovers(root, root, [], 0, p);
      assert [] + p == p;
    }
    assert x in AllPending(root);
    PositionsHave(AllPending(root), x);
  }

  /** Setting the references that reading met turns the bare tree into a copy of the stripped one. */
  lemma {:induction false} ReferencesRead(root: Element, srcModel: nat, model: nat)
    requires WellFormed(root, srcModel) && SchemaTree(root) && forall p :: In(root, p) ==> ReferableAt(root, p)
    ensures ApplyAll(Bare(root), model, AllPending(root)) == Some(CopyTree(Strip(root), Reread, Some(model)))
  {
    var src, xs := Strip(root), AllPending(root);
    StripWellFormed(root, srcModel);
    SchemaReachable(root);
    PartialStart(src, Reread, model, SchemaMode);
    forall i | 0 <= i < |xs|
      ensures IsPending(root, xs[i])
    {
      if xs[i] in PendingBelow(root, root, [], 0) {
        PendingBelowSound(root, root, [], 0, xs[i]);
      }
    }
    var final := ApplyPendings(root, srcModel, model, [], Bare(root), xs);
    assert [] + Positions(xs) == Positions(xs);
    forall p | In(src, p) && At(src, p).ref.Some?
      ensures p in Positions(xs)
    {
      StripAt(root, p);
      StripFace(At(root, p));
      AllCovered(root, srcModel, p);
    }
    PartialEnd(src, Reread, model, SchemaMode, Positions(xs), final);
  }

  lemma {:induction false} SchemaReachable(root: Element)
    requires SchemaTree(root)
    ensures Reachable(Strip(root), SchemaMode)
  {
    StripSchema(root);
    forall p | In(Strip(root), p)
      ensures Follows(Strip(root), p, SchemaMode)
    {
      SchemaFollows(Strip(root), p);
    }
  }

  lemma {:induction false} StripSchema(e: Element)
    requires SchemaTree(e)
    ensures SchemaTree(Strip(e))
    decreases e
  {
    var c := Strip(e);
    StripFace(e);
    forall s | HasStep(c, s)
      ensures SchemaTree(Sub(c, s))
    {
      StripSub(e, s);
      StripSchema(Sub(e, s));
    }
    assert e.List? ==> c.items == [];
  }
}
