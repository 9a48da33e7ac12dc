/** Copying a whole model: `MetaModel::clone`, `MetaModel::createData`, `DataModel::clone`.
    All three first build a copy without references, then find the elements that have one and look
    both ends up again in the copy, by path. */
module Copies {
  import opened Wrappers
  import opened Values
  import opened Elements
  import opened References

  /** Every way down in the tree is one the lookup mode can take. */
  ghost predicate Reachable(root: Element, mode: Mode) {
    forall p :: In(root, p) ==> Follows(root, p, mode)
  }

  lemma {:induction false} CopyFace(e: Element, how: Copying, into: Option<nat>, p: Pos)
    requires In(e, p)
    ensures In(CopyTree(e, how, into), p)
    ensures FaceOf(At(CopyTree(e, how, into), p)) ==
            FaceOf(At(e, p)).(ref := CopyRef(At(e, p).ref, how, into), info := CopyInfo(At(e, p).info, how))
  {
    CopyAt(e, how, into, p);
  }

  lemma {:induction false} CopyFollows(e: Element, how: Copying, into: Option<nat>, p: Pos, mode: Mode)
    requires In(e, p)
    ensures In(CopyTree(e, how, into), p)
    ensures Follows(CopyTree(e, how, into), p, mode) <==> Follows(e, p, mode)
  {
    CopyAt(e, how, into, p);
    if p != [] {
      CopySub(e, how, into, p[0]);
      CopyFollows(Sub(e, p[0]), how, into, p[1..], mode);
    }
  }

  lemma {:induction false} SetRefFollows(e: Element, p: Pos, r: Option<Reference>, q: Pos, mode: Mode)
    requires In(e, p) && In(e, q)
    ensures In(SetRef(e, p, r), q)
    ensures Follows(SetRef(e, p, r), q, mode) <==> Follows(e, q, mode)
    decreases |q|
  {
    SetRefFaces(e, p, r, q);
    if q != [] {
      SetRefSub(e, p, r, q[0]);
      if p != [] && p[0] == q[0] {
        SetRefFollows(Sub(e, p[0]), p[1..], r, q[1..], mode);
      }
    }
  }

  /** The face a position has when `done` of the references are re-created. */
  function PartialFace(src: Element, how: Copying, model: nat, done: seq<Pos>, p: Pos): Face
    requires In(src, p)
  {
    var into := if p in done then Some(model) else None;
    FaceOf(At(src, p)).(ref := CopyRef(At(src, p).ref, how, into), info := CopyInfo(At(src, p).info, how))
  }

  /** The state of the second loop: `cur` is the copy with the references of `done` re-created. */
  ghost predicate Partial(src: Element, how: Copying, model: nat, mode: Mode, done: seq<Pos>, cur: Element) {
    && IsRoot(cur) && Built(cur) && Placed(cur) && Named(cur) && Reachable(cur, mode)
    && (forall p :: In(cur, p) <==> In(src, p))
    && (forall p :: In(src, p) ==> FaceOf(At(cur, p)) == PartialFace(src, how, model, done, p))
  }

  lemma {:induction false} PartialStart(src: Element, how: Copying, model: nat, mode: Mode)
    requires IsRoot(src) && Built(src) && Placed(src) && Named(src) && Reachable(src, mode)
    ensures Partial(src, how, model, mode, [], CopyTree(src, how, None))
  {
    var cur := CopyTree(src, how, None);
    CopyPath(src, how, None);
    CopyBuilt(src, how, None);
    CopyPlaced(src, how, None);
    CopyNamed(src, how, None);
    forall p
      ensures In(cur, p) <==> In(src, p)
      ensures In(src, p) ==> FaceOf(At(cur, p)) == PartialFace(src, how, model, [], p)
      ensures In(cur, p) ==> Follows(cur, p, mode)
    {
      CopyAt(src, how, None, p);
      if In(src, p) {
        CopyFollows(src, how, None, p, mode);
      }
    }
  }

  lemma {:induction false} PartialStep(src: Element, how: Copying, model: nat, mode: Mode, done: seq<Pos>,
                                       cur: Element, p: Pos)
    requires Partial(src, how, model, mode, done, cur) && In(src, p)
    ensures Partial(src, how, model, mode, done + [p], SetRef(cur, p, CopyRef(At(src, p).ref, how, Some(model))))
  {
    var r := CopyRef(At(src, p).ref, how, Some(model));
    var next := SetRef(cur, p, r);
    SetRefSub(cur, p, r, Pattern);
    SetRefBuilt(cur, p, r);
    SetRefPlaced(cur, p, r);
    SetRefNamed(cur, p, r);
    forall q
      ensures In(next, q) <==> In(src, q)
      ensures In(src, q) ==> FaceOf(At(next, q)) == PartialFace(src, how, model, done + [p], q)
      ensures In(next, q) ==> Follows(next, q, mode)
    {
      SetRefFaces(cur, p, r, q);
      if In(cur, q) {
        SetRefFollows(cur, p, r, q, mode);
      }
    }
  }

  /** When all references are re-created the copy is complete. */
  lemma {:induction false} PartialEnd(src: Element, how: Copying, model: nat, mode: Mode, done: seq<Pos>, cur: Element)
    requires Partial(src, how, model, mode, done, cur)
    requires forall p :: In(src, p) && At(src, p).ref.Some? ==> p in done
    ensures cur == CopyTree(src, how, Some(model))
  {
    var copy := CopyTree(src, how, Some(model));
    forall p | In(cur, p)
      ensures In(copy, p) && FaceOf(At(cur, p)) == FaceOf(At(copy, p))
    {
      CopyFace(src, how, Some(model), p);
    }
    SameFaces(cur, copy);
  }

  /** Whether a copy can take the expected value. */
  predicate Taken(d: Data, how: Copying) {
    d.value.Some? || (how.Clone? && Readable(d))
  }

  /** What the lookups of the second loop find, and the reference made from them. */
  lemma {:induction false} Relocate(src: Element, srcModel: nat, how: Copying, model: nat, mode: Mode, done: seq<Pos>,
                                    cur: Element, p: Pos)
    requires WellFormed(src, srcModel) && Partial(src, how, model, mode, done, cur)
    requires In(src, p) && At(src, p).ref.Some?
    ensures Lookup(cur, Path(At(src, p)), mode) == if p == [] then None else Some(p)
    ensures var r := At(src, p).ref.value;
      && In(src, r.target.pos)
      && Lookup(cur, Path(At(src, r.target.pos)), mode) == Some(r.target.pos)
      && At(cur, r.target.pos).Parameter?
      && (Taken(r.expected, how) ==>
            MakeReference(At(cur, r.target.pos), Target(model, r.target.pos), r.expected) ==
              CopyRef(Some(r), how, Some(model)))
  {
    var r := At(src, p).ref.value;
    assert GoodRef(src, srcModel, r);
    var t := r.target.pos;
    assert FaceOf(At(cur, t)) == PartialFace(src, how, model, done, t);
    assert t != [];
    assert Path(At(cur, t)) == Path(At(src, t));
    NamedPathLookup(cur, t, mode);
    assert FaceOf(At(cur, p)) == PartialFace(src, how, model, done, p);
    assert Path(At(cur, p)) == Path(At(src, p));
    if p != [] {
      NamedPathLookup(cur, p, mode);
    } else {
      assert Path(src) == "" by {
        assert src.parent + "/" + src.id == "/";
      }
    }
    if Taken(r.expected, how) {
      CopyReproduces(r.expected);
    }
  }

  /** A reference is re-created unless it is one of the root, or `createData` finds no expected value. */
  ghost predicate Copiable(src: Element, how: Copying, p: Pos) {
    p != [] && In(src, p) && At(src, p).ref.Some? && (how.CreateData? ==> At(src, p).ref.value.expected.value.Some?)
  }

  /** Every expected value that `clone` copies without looking can be read. */
  ghost predicate ExpectedReadable(src: Element) {
    forall p :: In(src, p) && At(src, p).ref.Some? ==> Readable(At(src, p).ref.value.expected)
  }

  /** One round of the second loop. */
  method CopyReference(src: Element, ghost srcModel: nat, how: Copying, model: nat, mode: Mode,
                       ghost done: seq<Pos>, cur: Element, pos: Pos)
    returns (r: Option<Element>)
    requires WellFormed(src, srcModel) && Partial(src, how, model, mode, done, cur)
    requires In(src, pos) && At(src, pos).ref.Some?
    requires how.CreateData? || (how.Clone? && Readable(At(src, pos).ref.value.expected))
    ensures r.Some? <==> Copiable(src, how, pos)
    ensures r.Some? ==> Partial(src, how, model, mode, done + [pos], r.value)
  {
    var reference := At(src, pos).ref.value;
    if how.CreateData? && reference.expected.value.None? {
      return None;
    }
    Relocate(src, srcModel, how, model, mode, done, cur, pos);
    var elt := GetItemFromRoot(cur, Path(At(src, pos)), mode);
    if elt.None? {
      return None;
    }
    var target := GetItemFromRoot(cur, Path(At(src, reference.target.pos)), mode);
    if target.None? || !At(cur, target.value).Parameter? {
      return None;
    }
    assert GoodRef(src, srcModel, reference);
    var made := MakeReference(At(cur, target.value), Target(model, target.value), reference.expected);
    if made.None? {
      return None;
    }
    PartialStep(src, how, model, mode, done, cur, pos);
    r := Some(SetRef(cur, elt.value, made));
  }

  /** The second loop. */
  method CopyEach(src: Element, ghost srcModel: nat, how: Copying, model: nat, mode: Mode, copy: Element,
                  referenced: seq<Pos>)
    returns (r: Option<Element>)
    requires WellFormed(src, srcModel) && Partial(src, how, model, mode, [], copy)
    requires forall i :: 0 <= i < |referenced| ==> In(src, referenced[i]) && At(src, referenced[i]).ref.Some?
    requires how.CreateData? || (how.Clone? && ExpectedReadable(src))
    ensures r.Some? <==> forall i :: 0 <= i < |referenced| ==> Copiable(src, how, referenced[i])
    ensures r.Some? ==> Partial(src, how, model, mode, referenced, r.value)
  {
    var cur := copy;
    ghost var done: seq<Pos> := [];
    var k := 0;
    while k < |referenced|
      invariant 0 <= k <= |referenced|
      invariant Partial(src, how, model, mode, done, cur) && done == referenced[..k]
      invariant forall i :: 0 <= i < k ==> Copiable(src, how, referenced[i])
    {
      var next := CopyReference(src, srcModel, how, model, mode, done, cur, referenced[k]);
      if next.None? {
        return None;
      }
      cur := next.value;
      done := done + [referenced[k]];
      k := k + 1;
    }
    assert done == referenced;
    r := Some(cur);
  }

  /** Both loops. The copy is complete exactly when the root has no reference, the path of the root being
      empty and finding nothing, and, for `createData`, every reference has its expected value. `clone` does
      not test the expected values: an unset string is copied as the empty string. */
  method CopyReferences(src: Element, ghost srcModel: nat, how: Copying, model: nat, mode: Mode, patternFirst: bool)
    returns (r: Option<Element>)
    requires WellFormed(src, srcModel) && Reachable(src, mode)
    requires how.CreateData? || (how.Clone? && ExpectedReadable(src))
    ensures r.Some? <==> src.ref.None? && (how.CreateData? ==> ExpectedSet(src))
    ensures r.Some? ==> r.value == CopyTree(src, how, Some(model))
  {
    assert In(src, []) && At(src, []) == src;
    PartialStart(src, how, model, mode);
    var referenced := FindReferenced(src, patternFirst);
    r := CopyEach(src, srcModel, how, model, mode, CopyTree(src, how, None), referenced);
    assert forall p :: p in referenced ==> exists i :: 0 <= i < |referenced| && referenced[i] == p;
    if r.Some? {
      PartialEnd(src, how, model, mode, referenced, r.value);
    }
  }

  // ----- What the copy means -----

  /** The path of an element leads to its copy. */
  lemma {:induction false} CopyFinds(src: Element, srcModel: nat, how: Copying, model: nat, p: Pos)
    requires WellFormed(src, srcModel) && In(src, p) && p != []
    ensures var copy := CopyTree(src, how, Some(model));
      && In(copy, p) && (At(copy, p).Parameter? <==> At(src, p).Parameter?)
      && Path(At(copy, p)) == Path(At(src, p))
      && Lookup(copy, Path(At(src, p)), PatternMode) == Some(p)
  {
    var copy := CopyTree(src, how, Some(model));
    CopyFace(src, how, Some(model), p);
    CopyBuilt(src, how, Some(model));
    CopyPlaced(src, how, Some(model));
    CopyNamed(src, how, Some(model));
    CopyPath(src, how, Some(model));
    FollowsPattern(copy, p);
    NamedPathLookup(copy, p, PatternMode);
  }

  /** A clone says and holds what its source does; where a schema has a parameter, what `createData` makes has
      unset data of its type. */
  lemma {:induction false} CopyHolds(src: Element, how: Copying, into: Option<nat>, p: Pos)
    ensures var copy := CopyTree(src, how, into);
      && (In(copy, p) <==> In(src, p))
      && (In(src, p) ==>
            && Path(At(copy, p)) == Path(At(src, p)) && At(copy, p).id == At(src, p).id
            && (At(copy, p).Component? <==> At(src, p).Component?) && (At(copy, p).List? <==> At(src, p).List?)
            && (!how.CreateData? ==> At(copy, p).info == At(src, p).info)
            && (how.CreateData? ==>
                  match At(src, p).info
                  case Schema(_, _, _, _, Some(t), _) => At(copy, p).info == Holding(Data(t, None))
                  case Schema(_, _, _, _, None, _) => At(copy, p).info == Plain
                  case _ => true))
  {
    CopyAt(src, how, into, p);
    if In(src, p) {
      CopyFace(src, how, into, p);
    }
  }

  /** The copy has the shape and the paths of its source; a reference of it targets the element of
      the copy, never of the source, that has the path of the source's target; and it expects the
      same value, but for an unset string in a clone. */
  lemma {:induction false} CopyMeaning(src: Element, srcModel: nat, how: Copying, model: nat, p: Pos)
    requires WellFormed(src, srcModel)
    ensures var copy := CopyTree(src, how, Some(model));
      && (In(copy, p) <==> In(src, p))
      && (In(src, p) ==>
            && Path(At(copy, p)) == Path(At(src, p))
            && (At(copy, p).ref.Some? <==> At(src, p).ref.Some?)
            && (At(copy, p).ref.Some? ==>
                  var was := At(src, p).ref.value;
                  var now := At(copy, p).ref.value;
                  && now.target.model == model
                  && In(src, was.target.pos) && In(copy, now.target.pos)
                  && At(copy, now.target.pos).Parameter?
                  && Path(At(copy, now.target.pos)) == Path(At(src, was.target.pos))
                  && Lookup(copy, Path(At(src, was.target.pos)), PatternMode) == Some(now.target.pos)
                  && now.expected.typ == was.expected.typ
                  && now.expected.value ==
                    if how.Clone? && was.expected.value.None? && Holds(was.expected.typ, TextVal(""))
                      && (was.expected.typ.EnumType? ==> "" in was.expected.typ.values)
                    then Some(TextVal("")) else was.expected.value))
  {
    CopyAt(src, how, Some(model), p);
    if In(src, p) {
      CopyFace(src, how, Some(model), p);
      if At(src, p).ref.Some? {
        var was := At(src, p).ref.value;
        assert GoodRef(src, srcModel, was);
        CopyFinds(src, srcModel, how, model, was.target.pos);
      }
    }
  }

  lemma {:induction false} CopyGoodRef(src: Element, srcModel: nat, how: Copying, model: nat, p: Pos)
    requires WellFormed(src, srcModel) && In(src, p) && At(src, p).ref.Some?
    ensures var r := CopyRef(At(src, p).ref, how, Some(model));
      && r.Some? && GoodRef(CopyTree(src, how, Some(model)), model, r.value)
      && (At(src, p).ref.value.expected.value.Some? ==> r.value.expected.value.Some?)
  {
    var was := At(src, p).ref.value;
    assert GoodRef(src, srcModel, was);
    CopyFace(src, how, Some(model), was.target.pos);
  }

  /** A copy is a well-formed model of its own. */
  lemma {:induction false} CopyWellFormed(src: Element, srcModel: nat, how: Copying, model: nat)
    requires WellFormed(src, srcModel)
    ensures var copy := CopyTree(src, how, Some(model));
      WellFormed(copy, model) && (ExpectedSet(src) ==> ExpectedSet(copy))
  {
    var copy := CopyTree(src, how, Some(model));
    CopyBuilt(src, how, Some(model));
    CopyPlaced(src, how, Some(model));
    CopyNamed(src, how, Some(model));
    CopyPath(src, how, Some(model));
    forall p | In(copy, p) && At(copy, p).ref.Some?
      ensures GoodRef(copy, model, At(copy, p).ref.value)
      ensures ExpectedSet(src) ==> At(copy, p).ref.value.expected.value.Some?
    {
      CopyAt(src, how, Some(model), p);
      CopyFace(src, how, Some(model), p);
      CopyGoodRef(src, srcModel, how, model, p);
    }
  }

  /** Cloning twice is cloning once. */
  lemma {:induction false} CloneOfClone(src: Element, a: nat, b: nat)
    ensures CopyTree(CopyTree(src, Clone, Some(a)), Clone, Some(b)) == CopyTree(src, Clone, Some(b))
  {
    var once := CopyTree(src, Clone, Some(a));
    var twice := CopyTree(once, Clone, Some(b));
    var copy := CopyTree(src, Clone, Some(b));
    forall p | In(twice, p)
      ensures In(copy, p) && FaceOf(At(twice, p)) == FaceOf(At(copy, p))
    {
      CopyAt(once, Clone, Some(b), p);
      CopyAt(src, Clone, Some(a), p);
      CopyFace(once, Clone, Some(b), p);
      CopyFace(src, Clone, Some(a), p);
      CopyFace(src, Clone, Some(b), p);
    }
    SameFaces(twice, copy);
  }
}
