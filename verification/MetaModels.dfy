/** The schema model: building it, its references, and what is made from it. */
module MetaModels {
  import opened Wrappers
  import opened Paths
  import opened Values
  import opened TypesLists
  import opened Elements
  import opened Edits
  import opened References
  import opened Copies
  import opened DataLists
  import opened Instances
  import opened Descendants
  import opened DataModels

  // ----- Keeping a schema a schema -----

  lemma {:induction false} SchemaBelow(e: Element, p: Pos)
    requires SchemaTree(e) && In(e, p)
    ensures SchemaTree(At(e, p))
  {
    if p != [] {
      SchemaBelow(Sub(e, p[0]), p[1..]);
    }
  }

  lemma {:induction false} SchemaReplace(e: Element, p: Pos, x: Element)
    requires SchemaTree(e) && In(e, p) && SchemaTree(x)
    requires x.Parameter? <==> At(e, p).Parameter?
    requires x.Component? <==> At(e, p).Component?
    ensures SchemaTree(Replace(e, p, x))
    decreases p
  {
    if p != [] {
      var c := Replace(e, p, x);
      SchemaReplace(Sub(e, p[0]), p[1..], x);
      ReplaceSub(e, p, x, Pattern);
      forall s | HasStep(c, s)
        ensures SchemaTree(Sub(c, s))
      {
        ReplaceSub(e, p, x, s);
      }
      assert c.List? ==> c.items == [] by {
        assert e.List? ==> p[0] == Pattern;
      }
    }
  }

  lemma {:induction false} SchemaSetRef(e: Element, p: Pos, r: Option<Reference>)
    requires SchemaTree(e) && In(e, p)
    ensures SchemaTree(SetRef(e, p, r))
  {
    var x := At(e, p).(ref := r);
    SchemaBelow(e, p);
    assert forall s :: HasStep(x, s) ==> HasStep(At(e, p), s) && Sub(x, s) == Sub(At(e, p), s);
    SchemaReplace(e, p, x);
  }

  /** In a schema every way down can be taken by the schema lookup. */
  lemma {:induction false} SchemaFollows(e: Element, p: Pos)
    requires SchemaTree(e) && In(e, p)
    ensures Follows(e, p, SchemaMode)
  {
    if p != [] {
      SchemaFollows(Sub(e, p[0]), p[1..]);
    }
  }

  // ----- Which references may be set -----

  /** How far two positions agree. */
  function CommonLen(p: Pos, q: Pos): (n: nat)
    ensures n <= |p| && n <= |q| && p[..n] == q[..n]
    ensures n < |p| && n < |q| ==> p[n] != q[n]
  {
    if p == [] || q == [] || p[0] != q[0] then 0
    else
      var n := 1 + CommonLen(p[1..], q[1..]);
      assert p[..n] == [p[0]] + p[1..][..n - 1] && q[..n] == [q[0]] + q[1..][..n - 1];
      n
  }

  /** No list lies on the way from the ancestor at depth `n` down to the target. */
  predicate NoListBelow(root: Element, target: Pos, n: nat)
    requires In(root, target)
  {
    forall k :: n < k <= |target| ==> (InPrefix(root, target, k); !At(root, target[..k]).List?)
  }

  /** An element may refer to a parameter other than itself that can be reached from their deepest
      common ancestor without entering a list. */
  predicate Referable(root: Element, element: Pos, target: Pos)
    requires In(root, target)
  {
    element != target && NoListBelow(root, target, CommonLen(element, target))
  }

  lemma {:induction false} CommonIs(p: Pos, q: Pos, n: nat)
    requires n <= |p| && n <= |q| && p[..n] == q[..n] && (n < |p| && n < |q| ==> p[n] != q[n])
    ensures CommonLen(p, q) == n
  {
    if n > 0 {
      assert p[..n][0] == q[..n][0] && p[1..][..n - 1] == p[..n][1..] && q[1..][..n - 1] == q[..n][1..];
      CommonIs(p[1..], q[1..], n - 1);
    }
  }

  /** The element is another one, and every element below their deepest common ancestor, down to the target,
      is a component or a parameter. */
  lemma {:induction false} ReferableIff(root: Element, element: Pos, target: Pos, n: nat)
    requires In(root, target) && n <= |element| && n <= |target| && element[..n] == target[..n]
    requires n < |element| && n < |target| ==> element[n] != target[n]
    ensures Referable(root, element, target) <==>
      && element != target
      && forall k :: n < k <= |target| ==> In(root, target[..k]) && !At(root, target[..k]).List?
  {
    CommonIs(element, target, n);
    forall k | 0 <= k <= |target|
      ensures In(root, target[..k])
    {
      InPrefix(root, target, k);
    }
  }

  lemma {:induction false} SiblingIds(e: Element, s: Step, t: Step)
    requires Built(e) && Named(e) && HasStep(e, s) && HasStep(e, t) && s != t
    ensures Sub(e, s).id != Sub(e, t).id
  {
  }

  /** The common ids of two positions are the ids of their deepest common ancestor. */
  lemma {:induction false} CommonIds(root: Element, p: Pos, q: Pos)
    requires Built(root) && Named(root) && In(root, p) && In(root, q)
    ensures var n := CommonLen(p, q);
      In(root, q[..n]) && CommonPrefix(Ids(root, p), Ids(root, q)) == Ids(root, q[..n])
  {
    var n := CommonLen(p, q);
    InPrefix(root, p, n);
    InPrefix(root, q, n);
    var a := Ids(root, q[..n]);
    assert Ids(root, p)[..n] == a && Ids(root, q)[..n] == a;
    if n < |p| && n < |q| {
      var e := At(root, q[..n]);
      BuiltBelow(root, q[..n]);
      NamedBelow(root, q[..n]);
      SiblingIds(e, p[n..][0], q[n..][0]);
      assert Ids(root, p)[n] == Ids(e, p[n..])[0] && Ids(root, q)[n] == Ids(e, q[n..])[0];
    }
    CommonPrefixAt(Ids(root, p), Ids(root, q), n);
  }

  /** The walk of `setReference` from an ancestor: the remaining ids lead to the target as long as
      no list is met. */
  method WalkToTarget(root: Element, target: Pos, start: nat, remaining: seq<string>) returns (found: bool)
    requires Built(root) && Named(root) && SchemaTree(root) && In(root, target) && start <= |target|
    requires In(root, target[..start]) && remaining == Ids(root, target)[start..]
    ensures found <==> NoListBelow(root, target, start)
  {
    var elt := At(root, target[..start]);
    var k := start;
    while k < |target|
      invariant start <= k <= |target|
      invariant In(root, target[..k]) && elt == At(root, target[..k])
      invariant forall j :: start < j <= k ==> In(root, target[..j]) && !At(root, target[..j]).List?
    {
      WalkStep(root, target, k);
      var next := FindChild(elt, remaining[k - start], SchemaMode);
      elt := Sub(elt, next.value);
      if elt.List? {
        assert !NoListBelow(root, target, start) by {
          InPrefix(root, target, k + 1);
        }
        return false;
      }
      k := k + 1;
    }
    return true;
  }

  lemma {:induction false} WalkStep(root: Element, target: Pos, k: nat)
    requires Built(root) && Named(root) && SchemaTree(root) && In(root, target) && k < |target|
    ensures In(root, target[..k]) && In(root, target[..k + 1]) && HasStep(At(root, target[..k]), target[k])
    ensures FindChild(At(root, target[..k]), Ids(root, target)[k], SchemaMode) == Some(target[k])
    ensures At(root, target[..k + 1]) == Sub(At(root, target[..k]), target[k])
  {
    InPrefix(root, target, k);
    var elt := At(root, target[..k]);
    assert target[k..][0] == target[k];
    assert Ids(root, target)[k] == Ids(elt, target[k..])[0] == Sub(elt, target[k]).id;
    InSnoc(root, target[..k], target[k]);
    assert target[..k] + [target[k]] == target[..k + 1];
    BuiltBelow(root, target[..k]);
    SchemaBelow(root, target[..k]);
    FindSchemaChild(elt, target[k]);
  }

  lemma {:induction false} FindSchemaChild(e: Element, s: Step)
    requires Built(e) && SchemaTree(e) && HasStep(e, s)
    ensures FindChild(e, Sub(e, s).id, SchemaMode) == Some(s)
  {
    if s.Item? {
      FindOnly(e.items, s.i);
    }
  }

  // ----- What every schema made by the operations satisfies -----

  ghost predicate KnownAt(root: Element, types: Types, p: Pos)
    requires In(root, p)
  {
    At(root, p).Parameter? ==>
      At(root, p).info.Schema? && At(root, p).info.typ.Some? && Knows(types, At(root, p).info.typ.value)
  }

  ghost predicate ReferableAt(root: Element, p: Pos)
    requires In(root, p)
  {
    At(root, p).ref.Some? ==>
      In(root, At(root, p).ref.value.target.pos) && Referable(root, p, At(root, p).ref.value.target.pos)
  }

  /** The root keeps its name, the types of the parameters are those of the list, and every reference
      is one that may be set. */
  ghost predicate Regular(root: Element, types: Types) {
    && root.info.Schema? && root.info.name == "Root"
    && ProperTypes(types)
    && (forall p :: In(root, p) ==> KnownAt(root, types, p))
    && (forall p :: In(root, p) ==> ReferableAt(root, p))
  }

  lemma {:induction false} AloneKnown(x: Element, types: Types)
    requires !x.List? && (x.Component? ==> x.items == [])
    requires x.Parameter? ==> x.info.Schema? && x.info.typ.Some?
    ensures (x.Parameter? ==> Knows(types, x.info.typ.value)) ==> forall q :: In(x, q) ==> KnownAt(x, types, q)
  {
    assert forall s :: !HasStep(x, s);
    assert forall q :: In(x, q) ==> q == [];
  }

  lemma {:induction false} NewListKnown(parent: string, id: string, name: string, patternName: string,
                                        description: string,
                                        patternDescription: string, types: Types)
    ensures var x := NewList(parent, id, name, patternName, description, patternDescription);
      forall q :: In(x, q) ==> KnownAt(x, types, q)
  {
    var x := NewList(parent, id, name, patternName, description, patternDescription);
    forall q | In(x, q)
      ensures KnownAt(x, types, q)
    {
      if q != [] {
        assert q[0] == Pattern && In(x.pattern, q[1..]);
        assert forall s :: !HasStep(x.pattern, s);
      }
    }
  }

  /** The second tree has everything the first has, and lists where the first has lists. */
  ghost predicate SameLists(a: Element, b: Element) {
    forall q :: In(a, q) ==> In(b, q) && (At(b, q).List? <==> At(a, q).List?)
  }

  lemma {:induction false} ReferableSame(a: Element, b: Element, p: Pos, target: Pos)
    requires In(a, target) && Referable(a, p, target) && SameLists(a, b)
    ensures In(b, target) && Referable(b, p, target)
  {
    forall k | CommonLen(p, target) < k <= |target|
      ensures (InPrefix(b, target, k); !At(b, target[..k]).List?)
    {
      InPrefix(a, target, k);
      InPrefix(b, target, k);
    }
  }

  lemma {:induction false} AppendLists(root: Element, pos: Pos, x: Element)
    requires In(root, pos) && !At(root, pos).Parameter?
    ensures SameLists(root, Append(root, pos, x))
  {
    forall q | In(root, q)
      ensures In(Append(root, pos, x), q) && (At(Append(root, pos, x), q).List? <==> At(root, q).List?)
    {
      AppendOld(root, pos, x, q);
    }
  }

  lemma {:induction false} SetRefLists(root: Element, pos: Pos, r: Option<Reference>)
    requires In(root, pos)
    ensures SameLists(root, SetRef(root, pos, r))
  {
    forall q | In(root, q)
      ensures In(SetRef(root, pos, r), q) && (At(SetRef(root, pos, r), q).List? <==> At(root, q).List?)
    {
      SetRefFaces(root, pos, r, q);
    }
  }

  lemma {:induction false} CopyLists(root: Element, how: Copying, into: Option<nat>)
    ensures SameLists(root, CopyTree(root, how, into))
  {
    forall q | In(root, q)
      ensures In(CopyTree(root, how, into), q) && (At(CopyTree(root, how, into), q).List? <==> At(root, q).List?)
    {
      CopyFace(root, how, into, q);
    }
  }

  lemma {:induction false} AppendRegular(root: Element, model: nat, types: Types, pos: Pos, x: Element)
    requires Regular(root, types) && GoodRefs(root, model) && In(root, pos) && At(root, pos).Component?
    requires forall q :: In(x, q) ==> At(x, q).ref.None?
    requires forall q :: In(x, q) ==> KnownAt(x, types, q)
    ensures Regular(Append(root, pos, x), types)
  {
    var root' := Append(root, pos, x);
    AppendOld(root, pos, x, []);
    forall p | In(root', p)
      ensures KnownAt(root', types, p) && ReferableAt(root', p)
    {
      AppendOnly(root, pos, x, p);
      if In(root, p) {
        AppendOld(root, pos, x, p);
        assert KnownAt(root, types, p);
        if At(root', p).ref.Some? {
          AppendReferable(root, model, pos, x, p);
        }
      } else {
        AppendNew(root, pos, x, p[|pos| + 1..]);
        assert KnownAt(x, types, p[|pos| + 1..]);
      }
    }
  }

  lemma {:induction false} AppendReferable(root: Element, model: nat, pos: Pos, x: Element, p: Pos)
    requires GoodRefs(root, model) && In(root, pos) && !At(root, pos).Parameter?
    requires In(root, p) && At(root, p).ref.Some? && ReferableAt(root, p)
    ensures In(Append(root, pos, x), p) && ReferableAt(Append(root, pos, x), p)
  {
    AppendOld(root, pos, x, p);
    AppendLists(root, pos, x);
    ReferableSame(root, Append(root, pos, x), p, At(root, p).ref.value.target.pos);
  }

  lemma {:induction false} SetRefRegular(root: Element, model: nat, types: Types, pos: Pos, r: Option<Reference>)
    requires Regular(root, types) && GoodRefs(root, model) && In(root, pos)
    requires r.Some? ==> In(root, r.value.target.pos) && Referable(root, pos, r.value.target.pos)
    ensures Regular(SetRef(root, pos, r), types)
  {
    var root' := SetRef(root, pos, r);
    SetRefFaces(root, pos, r, []);
    forall p | In(root', p)
      ensures KnownAt(root', types, p) && ReferableAt(root', p)
    {
      SetRefFaces(root, pos, r, p);
      assert KnownAt(root, types, p) && ReferableAt(root, p);
      if At(root', p).ref.Some? {
        SetRefLists(root, pos, r);
        ReferableSame(root, root', p, At(root', p).ref.value.target.pos);
      }
    }
  }

  lemma {:induction false} CloneRegular(root: Element, model: nat, types: Types, into: nat)
    requires Regular(root, types) && GoodRefs(root, model)
    ensures Regular(CopyTree(root, Clone, Some(into)), types)
  {
    var copy := CopyTree(root, Clone, Some(into));
    CopyFace(root, Clone, Some(into), []);
    forall p | In(copy, p)
      ensures KnownAt(copy, types, p) && ReferableAt(copy, p)
    {
      CopyAt(root, Clone, Some(into), p);
      CopyFace(root, Clone, Some(into), p);
      assert KnownAt(root, types, p) && ReferableAt(root, p);
      if At(copy, p).ref.Some? {
        CopyLists(root, Clone, Some(into));
        ReferableSame(root, copy, p, At(root, p).ref.value.target.pos);
      }
    }
  }

  function Described(root: Element, description: string, advanced: bool): Element
    requires root.Component? && root.info.Schema?
  {
    var info := root.info;
    Component(root.id, root.parent, root.ref,
              Schema(info.name, description, advanced, info.readOnly, info.typ, info.unit), root.items)
  }

  /** The texts of the root are no part of its name or of its place. */
  lemma {:induction false} DescribedRoot(a: Element, description: string, advanced: bool, model: nat, types: Types)
    requires IsRoot(a) && Built(a) && Placed(a) && SchemaTree(a) && GoodRefs(a, model)
    ensures var b := Described(a, description, advanced);
      && IsRoot(b) && Built(b) && Placed(b) && SchemaTree(b) && GoodRefs(b, model)
      && (Named(a) ==> Named(b)) && (Regular(a, types) ==> Regular(b, types))
  {
    var b := Described(a, description, advanced);
    assert forall s :: (HasStep(b, s) <==> HasStep(a, s)) && (HasStep(a, s) ==> Sub(b, s) == Sub(a, s));
    assert forall p :: In(b, p) <==> In(a, p);
    assert forall p :: p != [] && In(a, p) ==> At(b, p) == At(a, p);
    forall p | In(b, p) && At(b, p).ref.Some?
      ensures GoodRef(b, model, At(b, p).ref.value)
    {
      assert GoodRef(a, model, At(a, p).ref.value);
    }
    if Regular(a, types) {
      forall p | In(b, p)
        ensures KnownAt(b, types, p) && ReferableAt(b, p)
      {
        assert KnownAt(a, types, p) && ReferableAt(a, p);
        if At(b, p).ref.Some? {
          ReferableSame(a, b, p, At(a, p).ref.value.target.pos);
        }
      }
    }
  }

  // ----- The model -----

  class MetaModel {
    const version: string
    const model: nat
    var types: Types
    var root: Element

    ghost predicate Valid()
      reads this
    {
      && IsRoot(root) && Built(root) && Placed(root)
      && SchemaTree(root)
      && GoodRefs(root, model)
    }

    constructor (version: string, model: nat, types: Types)
      ensures Valid() && Named(root) && (ProperTypes(types) ==> Regular(root, types))
      ensures this.version == version && this.model == model && this.types == types
      ensures root == Component("", "", None, Schema("Root", "Root component", false, false, None, ""), [])
    {
      this.version := version;
      this.model := model;
      this.types := types;
      this.root := Component("", "", None, Schema("Root", "Root component", false, false, None, ""), []);
    }

    /** Append a new child to the component at `pos`, unless its id is taken or has a separator. */
    method AddChild(pos: Pos, x: Element) returns (ok: bool)
      requires Valid() && In(root, pos) && At(root, pos).Component?
      requires Built(x) && Placed(x) && SchemaTree(x) && x.parent == Path(At(root, pos))
      requires forall q :: In(x, q) ==> At(x, q).ref.None?
      modifies this`root
      ensures Valid()
      ensures ok <==>
        '/' !in x.id && forall i :: 0 <= i < |old(At(root, pos)).items| ==> old(At(root, pos)).items[i].id != x.id
      ensures root == if ok then Append(old(root), pos, x) else old(root)
      ensures old(Named(root)) && Named(x) && x.id != "" && x.id != "*" ==> Named(root)
      ensures old(Regular(root, types)) && (forall q :: In(x, q) ==> KnownAt(x, types, q)) ==> Regular(root, types)
    {
      if '/' in x.id {
        return false;
      }
      if FindItem(At(root, pos).items, x.id).Some? {
        return false;
      }
      AppendNames(root, pos, x);
      AppendSchema(root, pos, x);
      AppendGood(root, model, pos, x);
      if Regular(root, types) && forall q :: In(x, q) ==> KnownAt(x, types, q) {
        AppendRegular(root, model, types, pos, x);
      }
      root := Append(root, pos, x);
      return true;
    }

    /** `addComponent`. */
    method AddComponent(pos: Pos, id: string, name: string, description: string) returns (ok: bool)
      requires Valid() && In(root, pos) && At(root, pos).Component?
      modifies this`root
      ensures Valid()
      ensures ok <==>
        '/' !in id && forall i :: 0 <= i < |old(At(root, pos)).items| ==> old(At(root, pos)).items[i].id != id
      ensures root == if ok then
          Append(old(root), pos,
            Component(id, Path(old(At(root, pos))), None, Schema(name, description, false, false, None, ""), []))
        else old(root)
      ensures old(Named(root)) && id != "" && id != "*" ==> Named(root)
      ensures old(Regular(root, types)) ==> Regular(root, types)
    {
      var x := Component(id, Path(At(root, pos)), None, Schema(name, description, false, false, None, ""), []);
      AloneKnown(x, types);
      ok := AddChild(pos, x);
    }

    /** `addList`: the list gets a pattern, an empty component named "*". The pattern records the
        path of the list; an unnamed list of the root has an empty path, and records "/" instead. */
    method AddList(pos: Pos, id: string, name: string, patternName: string, description: string,
                   patternDescription: string)
      returns (ok: bool)
      requires Valid() && In(root, pos) && At(root, pos).Component?
      modifies this`root
      ensures Valid() <==> !(ok && id == "" && old(Path(At(root, pos))) == "")
      ensures ok <==>
        '/' !in id && forall i :: 0 <= i < |old(At(root, pos)).items| ==> old(At(root, pos)).items[i].id != id
      ensures root == if ok then
          Append(old(root), pos,
            NewList(Path(old(At(root, pos))), id, name, patternName, description, patternDescription))
        else old(root)
      ensures old(Named(root)) && id != "" && id != "*" ==> Named(root)
      ensures old(Regular(root, types)) ==> Regular(root, types)
    {
      if '/' in id {
        return false;
      }
      if FindItem(At(root, pos).items, id).Some? {
        return false;
      }
      var list := NewList(Path(At(root, pos)), id, name, patternName, description, patternDescription);
      AppendList(root, model, pos, list, id, name, patternName, description, patternDescription);
      if Regular(root, types) {
        NewListKnown(Path(At(root, pos)), id, name, patternName, description, patternDescription, types);
        AppendRegular(root, model, types, pos, list);
      }
      root := Append(root, pos, list);
      return true;
    }

    /** `addParameter`: its type must be one of the model's. */
    method AddParameter(pos: Pos, id: string, name: string, typ: DataType, description: string) returns (ok: bool)
      requires Valid() && In(root, pos) && At(root, pos).Component?
      modifies this`root
      ensures Valid()
      ensures ok <==>
        && Knows(types, typ) && '/' !in id
        && forall i :: 0 <= i < |old(At(root, pos)).items| ==> old(At(root, pos)).items[i].id != id
      ensures root == if ok then
          Append(old(root), pos,
            Parameter(id, Path(old(At(root, pos))), None, Schema(name, description, false, false, Some(typ), "")))
        else old(root)
      ensures old(Named(root)) && id != "" && id != "*" ==> Named(root)
      ensures old(Regular(root, types)) ==> Regular(root, types)
    {
      if !Knows(types, typ) {
        return false;
      }
      var x := Parameter(id, Path(At(root, pos)), None, Schema(name, description, false, false, Some(typ), ""));
      AloneKnown(x, types);
      ok := AddChild(pos, x);
    }

    /** `MetaModel::setReference`. */
    method SetReference(element: Pos, target: Pos) returns (ok: bool)
      requires Valid() && Named(root)
      requires In(root, element) && In(root, target) && At(root, target).Parameter?
      requires At(root, target).info.Schema? && At(root, target).info.typ.Some?
      modifies this`root
      ensures Valid() && Named(root)
      ensures old(Regular(root, types)) ==> Regular(root, types)
      ensures ok <==> Referable(old(root), element, target)
      ensures root == if ok then
          SetRef(old(root), element,
            Some(Reference(Target(model, target), Data(old(At(root, target)).info.typ.value, None))))
        else old(root)
    {
      RootPath(root, element);
      RootPath(root, target);
      ghost var a, b := Ids(root, element), Ids(root, target);
      CommonThenRelative(a, b);
      CommonIds(root, element, target);
      ghost var n := CommonLen(element, target);
      var common := GetCommonPath(Path(At(root, element)), Path(At(root, target)));
      var relative := GetRelativePath(common, Path(At(root, target)));
      var remaining := SplitPath(relative);
      if remaining == [] {
        SameWhenNothingRemains(root, element, target);
        return false;
      }
      InPrefix(root, target, n);
      ghost var start := target[..n];
      RootPath(root, start);
      RenderStart(Ids(root, start));
      if n > 0 {
        SchemaFollows(root, start);
        NamedPathLookup(root, start, SchemaMode);
      }
      var from: Option<Pos> := Some([]);
      if common != "" {
        from := GetItemFromRoot(root, common, SchemaMode);
      }
      if from.None? {
        return false;
      }
      assert from.value == target[..n];
      ok := WalkToTarget(root, target, |from.value|, remaining);
      if ok {
        SchemaBelow(root, target);
        var r := Some(Reference(Target(model, target), Data(At(root, target).info.typ.value, None)));
        SetGood(root, model, element, r);
        if Regular(root, types) {
          SetRefRegular(root, model, types, element, r);
        }
        root := SetRef(root, element, r);
      }
    }

    /** Set the value an element's reference expects. */
    method SetExpected(element: Pos, v: Val) returns (ok: bool)
      requires Valid() && In(root, element) && At(root, element).ref.Some?
      requires Holds(At(root, element).ref.value.expected.typ, v)
      modifies this`root
      ensures Valid() && (old(Named(root)) ==> Named(root))
      ensures old(Regular(root, types)) ==> Regular(root, types)
      ensures ok <==>
        var typ := old(At(root, element)).ref.value.expected.typ; typ.EnumType? ==> v.s in typ.values
      ensures root == if ok then
          SetRef(old(root), element, Some(old(At(root, element)).ref.value.(expected :=
            Data(old(At(root, element)).ref.value.expected.typ, Some(v)))))
        else old(root)
    {
      var reference := At(root, element).ref.value;
      var d := Set(reference.expected, v);
      if d.None? {
        return false;
      }
      assert GoodRef(root, model, reference);
      var r := Some(reference.(expected := d.value));
      SetGood(root, model, element, r);
      if Named(root) {
        SetRefNamed(root, element, r);
      }
      if Regular(root, types) {
        SetRefRegular(root, model, types, element, r);
      }
      root := SetRef(root, element, r);
      return true;
    }

    /** The same from a string: `getReferenceData()->fromString`. */
    method SetExpectedText(element: Pos, text: string) returns (ok: bool)
      requires Valid() && In(root, element) && At(root, element).ref.Some?
      modifies this`root
      ensures Valid() && (old(Named(root)) ==> Named(root))
      ensures old(Regular(root, types)) ==> Regular(root, types)
      ensures ok <==> FromString(old(At(root, element)).ref.value.expected, text).Some?
      ensures root == if ok then
          SetRef(old(root), element, Some(old(At(root, element)).ref.value.(expected :=
            FromString(old(At(root, element)).ref.value.expected, text).value)))
        else old(root)
      ensures ok <==> exists v :: ReadsAs(old(At(root, element)).ref.value.expected.typ, text, v)
    {
      var reference := At(root, element).ref.value;
      var d := FromString(reference.expected, text);
      ReadsWhen(reference.expected, text);
      if d.None? {
        return false;
      }
      assert GoodRef(root, model, reference);
      FromStringSound(reference.expected, text);
      var r := Some(reference.(expected := d.value));
      SetGood(root, model, element, r);
      if Named(root) {
        SetRefNamed(root, element, r);
      }
      if Regular(root, types) {
        SetRefRegular(root, model, types, element, r);
      }
      root := SetRef(root, element, r);
      return true;
    }

    /** `addEnumType`. */
    method AddEnum(id: string, name: string, values: set<string>, description: string) returns (ok: bool)
      requires Valid()
      modifies this`types
      ensures Valid()
      ensures ok <==>
        && values != {} && id !in ["bool", "double", "float", "int", "short", "long", "string"]
        && id !in old(types).enums
      ensures types.enums ==
        if ok then old(types).enums[id := Enum(name, description, values)] else old(types).enums
      ensures old(Regular(root, types)) ==> Regular(root, types)
    {
      var added := AddEnumType(types, id, name, values, description);
      if added.None? {
        return false;
      }
      if Regular(root, types) {
        forall p | In(root, p)
          ensures KnownAt(root, added.value, p)
        {
          assert KnownAt(root, types, p);
          if At(root, p).Parameter? {
            KnowsMore(types, id, name, values, description, At(root, p).info.typ.value);
          }
        }
      }
      types := added.value;
      return true;
    }

    /** `setDescription` and `setAdvanced` on the root. */
    method DescribeRoot(description: string, advanced: bool)
      requires Valid()
      modifies this`root
      ensures Valid() && (old(Named(root)) ==> Named(root))
      ensures old(Regular(root, types)) ==> Regular(root, types)
      ensures root == Component(old(root).id, old(root).parent, old(root).ref,
        Schema(old(root).info.name, description, advanced, old(root).info.readOnly, old(root).info.typ,
          old(root).info.unit), old(root).items)
    {
      DescribedRoot(root, description, advanced, model, types);
      root := Described(root, description, advanced);
    }

    /** `clone`. */
    method CloneModel(into: nat) returns (c: MetaModel?)
      requires Valid() && Named(root) && ExpectedReadable(root)
      ensures c != null <==> root.ref.None?
      ensures c != null ==> fresh(c) && c.Valid() && Named(c.root)
      ensures c != null ==> c.version == version && c.types == types && c.model == into
      ensures c != null ==> c.root == CopyTree(root, Clone, Some(into))
      ensures c != null && Regular(root, types) ==> Regular(c.root, c.types)
    {
      forall p | In(root, p)
        ensures Follows(root, p, SchemaMode)
      {
        SchemaFollows(root, p);
      }
      var copy := CopyReferences(root, model, Clone, into, SchemaMode, false);
      if copy.None? {
        return null;
      }
      CopyWellFormed(root, model, Clone, into);
      CloneSchema(root, into);
      if Regular(root, types) {
        CloneRegular(root, model, types, into);
      }
      c := new MetaModel(version, into, types);
      c.root := copy.value;
    }

    /** `createData`: it fails when some reference does not know what it expects, or the root has
        one; what it makes is a valid, fresh data model. */
    method CreateDataModel(into: nat) returns (d: DataModel?)
      requires Valid() && Named(root)
      ensures d != null <==> root.ref.None? && ExpectedSet(root)
      ensures d != null ==> fresh(d) && d.Valid()
      ensures d != null ==> d.version == version && d.model == into
      ensures d != null ==> d.root == CopyTree(root, CreateData, Some(into)) && d.blank == d.root
    {
      forall p | In(root, p)
        ensures Follows(root, p, PatternMode)
      {
        FollowsPattern(root, p);
      }
      var copy := CopyReferences(root, model, CreateData, into, PatternMode, false);
      if copy.None? {
        return null;
      }
      CopyWellFormed(root, model, CreateData, into);
      CreatedFresh(root, Some(into));
      FreshHolds(copy.value);
      FreshDescends(copy.value, []);
      FreshClean(copy.value, into, []);
      d := new DataModel(version, into, copy.value, copy.value);
    }
  }

  // ----- Helpers -----

  lemma {:induction false} NewListIsList(parent: string, id: string, name: string, patternName: string,
                                         description: string, patternDescription: string)
    requires parent + "/" + id != "/"
    ensures var x := NewList(parent, id, name, patternName, description, patternDescription);
      && Built(x) && Placed(x) && SchemaTree(x) && Named(x)
      && forall q :: In(x, q) ==> At(x, q).ref.None?
  {
    var x := NewList(parent, id, name, patternName, description, patternDescription);
    forall q | In(x, q)
      ensures At(x, q).ref.None?
    {
      if q != [] {
        assert q[0] == Pattern && In(x.pattern, q[1..]);
        assert forall s :: !HasStep(x.pattern, s);
      }
    }
  }

  lemma {:induction false} NotPlacedBelow(e: Element, p: Pos)
    requires In(e, p) && !Placed(At(e, p))
    ensures !Placed(e)
  {
    if Placed(e) {
      PlacedBelow(e, p);
    }
  }

  lemma {:induction false} AppendList(root: Element, model: nat, pos: Pos, x: Element,
                                     id: string, name: string, patternName: string, description: string,
                                     patternDescription: string)
    requires IsRoot(root) && Built(root) && Placed(root) && SchemaTree(root) && GoodRefs(root, model)
    requires In(root, pos) && At(root, pos).Component? && '/' !in id
    requires forall i :: 0 <= i < |At(root, pos).items| ==> At(root, pos).items[i].id != id
    requires x == NewList(Path(At(root, pos)), id, name, patternName, description, patternDescription)
    ensures var root' := Append(root, pos, x);
      if Path(At(root, pos)) + "/" + id == "/" then !Placed(root')
      else
        && IsRoot(root') && Built(root') && Placed(root') && SchemaTree(root') && GoodRefs(root', model)
        && (Named(root) && id != "" && id != "*" ==> Named(root'))
  {
    var parent := Path(At(root, pos));
    var root' := Append(root, pos, x);
    if parent + "/" + id == "/" {
      AppendNew(root, pos, x, []);
      var p := pos + [Item(|At(root, pos).items|)];
      assert p + [] == p;
      assert !Placed(x) by {
        assert HasStep(x, Pattern) && Sub(x, Pattern).parent == "/" && Path(x) == "";
      }
      NotPlacedBelow(root', p);
    } else {
      NewListIsList(parent, id, name, patternName, description, patternDescription);
      AppendNames(root, pos, x);
      AppendSchema(root, pos, x);
      AppendGood(root, model, pos, x);
    }
  }

  lemma {:induction false} AppendSchema(root: Element, pos: Pos, x: Element)
    requires SchemaTree(root) && In(root, pos) && At(root, pos).Component? && SchemaTree(x)
    ensures SchemaTree(Append(root, pos, x))
  {
    var c := At(root, pos);
    var grown := WithItems(c, c.items + [x]);
    SchemaBelow(root, pos);
    forall s | HasStep(grown, s)
      ensures SchemaTree(Sub(grown, s))
    {
      if s != Item(|c.items|) {
        assert HasStep(c, s) && Sub(grown, s) == Sub(c, s);
      }
    }
    SchemaReplace(root, pos, grown);
  }

  lemma {:induction false} AppendGood(root: Element, model: nat, pos: Pos, x: Element)
    requires GoodRefs(root, model) && In(root, pos) && At(root, pos).Component?
    requires forall q :: In(x, q) ==> At(x, q).ref.None?
    ensures GoodRefs(Append(root, pos, x), model)
  {
    var root' := Append(root, pos, x);
    forall p | In(root', p) && At(root', p).ref.Some?
      ensures GoodRef(root', model, At(root', p).ref.value)
    {
      AppendOnly(root, pos, x, p);
      if In(root, p) {
        AppendOld(root, pos, x, p);
        var r := At(root, p).ref.value;
        assert GoodRef(root, model, r);
        AppendOld(root, pos, x, r.target.pos);
      } else {
        AppendNew(root, pos, x, p[|pos| + 1..]);
      }
    }
  }

  lemma {:induction false} SetGood(root: Element, model: nat, pos: Pos, r: Option<Reference>)
    requires IsRoot(root) && Built(root) && Placed(root) && SchemaTree(root) && GoodRefs(root, model)
    requires In(root, pos) && (r.Some? ==> GoodRef(root, model, r.value))
    ensures var root' := SetRef(root, pos, r);
      IsRoot(root') && Built(root') && Placed(root') && SchemaTree(root') && GoodRefs(root', model)
      && (Named(root) ==> Named(root'))
  {
    var root' := SetRef(root, pos, r);
    SetRefSub(root, pos, r, Pattern);
    SetRefBuilt(root, pos, r);
    SetRefPlaced(root, pos, r);
    SchemaSetRef(root, pos, r);
    if Named(root) {
      SetRefNamed(root, pos, r);
    }
    forall p | In(root', p) && At(root', p).ref.Some?
      ensures GoodRef(root', model, At(root', p).ref.value)
    {
      SetRefFaces(root, pos, r, p);
      var now := At(root', p).ref.value;
      assert GoodRef(root, model, now);
      SetRefFaces(root, pos, r, now.target.pos);
    }
  }

  lemma {:induction false} CloneSchema(e: Element, into: nat)
    requires SchemaTree(e)
    ensures SchemaTree(CopyTree(e, Clone, Some(into)))
    decreases e
  {
    var c := CopyTree(e, Clone, Some(into));
    forall s | HasStep(c, s)
      ensures SchemaTree(Sub(c, s))
    {
      CopySub(e, Clone, Some(into), s);
      CloneSchema(Sub(e, s), into);
    }
  }

  lemma {:induction false} SameWhenNothingRemains(root: Element, element: Pos, target: Pos)
    requires Built(root) && Named(root) && In(root, element) && In(root, target) && At(root, target).Parameter?
    requires CommonLen(element, target) == |target|
    ensures element == target
  {
    InPrefix(root, element, |target|);
    assert element[..|target|] == target;
    assert element[|target|..] == [];
    assert element == element[..|target|] + element[|target|..];
  }
}
