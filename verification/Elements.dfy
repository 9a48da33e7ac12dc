/** The element trees of opensand-conf.
    A schema element (`MetaElement`) and a data element (`DataElement`) have the same skeleton: an
    id, the path of the parent, at most one reference, and children. Both are one datatype here,
    told apart by what `info` carries. The identity of an element is its position in the tree of
    its model, so a reference, a pointer in the sources, is a model and a position in it. */
module Elements {
  import opened Wrappers
  import opened Numerals
  import opened Paths
  import opened Values

  /** One step from a container to a child: an item, or the pattern of a list. */
  datatype Step = Item(i: nat) | Pattern

  type Pos = seq<Step>

  /** The parameter a reference points at: which model, and where in it. */
  datatype Target = Target(model: nat, pos: Pos)

  /** `reference`: the element is active iff the target's data equals the expected data. */
  datatype Reference = Reference(target: Target, expected: Data)

  datatype Info =
    | Schema(name: string, description: string, advanced: bool, readOnly: bool, typ: Option<DataType>, unit: string)
    | Holding(data: Data)
    | Plain

  datatype Element =
    | Parameter(id: string, parent: string, ref: Option<Reference>, info: Info)
    | Component(id: string, parent: string, ref: Option<Reference>, info: Info, items: seq<Element>)
    | List(id: string, parent: string, ref: Option<Reference>, info: Info, items: seq<Element>, pattern: Element)

  // ----- Children and positions -----

  predicate HasStep(e: Element, s: Step) {
    match s
    case Item(i) => !e.Parameter? && i < |e.items|
    case Pattern => e.List?
  }

  function Sub(e: Element, s: Step): (c: Element)
    requires HasStep(e, s)
    ensures c < e
  {
    match s
    case Item(i) => e.items[i]
    case Pattern => e.pattern
  }

  predicate In(e: Element, p: Pos) {
    p != [] ==> HasStep(e, p[0]) && In(Sub(e, p[0]), p[1..])
  }

  function At(e: Element, p: Pos): Element
    requires In(e, p)
  {
    if p == [] then e else At(Sub(e, p[0]), p[1..])
  }

  /** The ids met on the way down to a position. */
  function Ids(e: Element, p: Pos): (ids: seq<string>)
    requires In(e, p)
    ensures |ids| == |p|
  {
    if p == [] then [] else [Sub(e, p[0]).id] + Ids(Sub(e, p[0]), p[1..])
  }

  lemma {:induction false} InConcat(e: Element, p: Pos, q: Pos)
    ensures In(e, p + q) <==> In(e, p) && In(At(e, p), q)
    ensures In(e, p + q) ==> At(e, p + q) == At(At(e, p), q)
    ensures In(e, p + q) ==> Ids(e, p + q) == Ids(e, p) + Ids(At(e, p), q)
  {
    if p == [] {
      assert p + q == q;
    } else {
      assert (p + q)[1..] == p[1..] + q;
      if HasStep(e, p[0]) {
        InConcat(Sub(e, p[0]), p[1..], q);
      }
    }
  }

  lemma {:induction false} InPrefix(e: Element, p: Pos, n: nat)
    requires In(e, p) && n <= |p|
    ensures In(e, p[..n]) && In(At(e, p[..n]), p[n..])
    ensures At(e, p) == At(At(e, p[..n]), p[n..])
    ensures Ids(e, p) == Ids(e, p[..n]) + Ids(At(e, p[..n]), p[n..])
  {
    assert p == p[..n] + p[n..];
    InConcat(e, p[..n], p[n..]);
  }

  lemma {:induction false} InSnoc(e: Element, p: Pos, s: Step)
    requires In(e, p)
    ensures In(e, p + [s]) <==> HasStep(At(e, p), s)
    ensures In(e, p + [s]) ==> At(e, p + [s]) == Sub(At(e, p), s)
  {
    InConcat(e, p, [s]);
  }

  // ----- Trees are equal when they agree at every position -----

  /** All of an element but its children, of which only the number counts. */
  datatype Face = Face(kind: nat, id: string, parent: string, ref: Option<Reference>, info: Info, size: nat)

  function FaceOf(e: Element): Face {
    match e
    case Parameter(id, parent, ref, info) => Face(0, id, parent, ref, info, 0)
    case Component(id, parent, ref, info, items) => Face(1, id, parent, ref, info, |items|)
    case List(id, parent, ref, info, items, _) => Face(2, id, parent, ref, info, |items|)
  }

  lemma {:induction false} SameFaces(a: Element, b: Element)
    requires forall p :: In(a, p) ==> In(b, p) && FaceOf(At(a, p)) == FaceOf(At(b, p))
    ensures a == b
  {
    assert In(a, []) && FaceOf(At(a, [])) == FaceOf(At(b, []));
    forall s | HasStep(a, s)
      ensures HasStep(b, s) && Sub(a, s) == Sub(b, s)
    {
      forall p | In(Sub(a, s), p)
        ensures In(Sub(b, s), p) && FaceOf(At(Sub(a, s), p)) == FaceOf(At(Sub(b, s), p))
      {
        assert ([s] + p)[1..] == p;
        assert In(a, [s] + p);
        assert In(b, [s] + p);
      }
      SameFaces(Sub(a, s), Sub(b, s));
    }
    if !a.Parameter? {
      forall i | 0 <= i < |a.items|
        ensures a.items[i] == b.items[i]
      {
        assert HasStep(a, Item(i)) && Sub(a, Item(i)) == Sub(b, Item(i));
      }
    }
    if a.List? {
      assert HasStep(a, Pattern) && Sub(a, Pattern) == Sub(b, Pattern);
    }
  }

  // ----- Replacing a subtree -----

  function WithItems(e: Element, items: seq<Element>): (r: Element)
    requires !e.Parameter?
    ensures r.Component? <==> e.Component?
  {
    match e
    case Component(id, parent, ref, info, _) => Component(id, parent, ref, info, items)
    case List(id, parent, ref, info, _, pattern) => List(id, parent, ref, info, items, pattern)
  }

  function WithSub(e: Element, s: Step, c: Element): Element
    requires HasStep(e, s)
  {
    match s
    case Item(i) => e.(items := e.items[i := c])
    case Pattern => e.(pattern := c)
  }

  function Replace(e: Element, p: Pos, x: Element): Element
    requires In(e, p)
  {
    if p == [] then x else WithSub(e, p[0], Replace(Sub(e, p[0]), p[1..], x))
  }

  lemma {:induction false} ReplaceAt(e: Element, p: Pos, x: Element)
    requires In(e, p)
    ensures In(Replace(e, p, x), p) && At(Replace(e, p, x), p) == x
    ensures p != [] ==> FaceOf(Replace(e, p, x)) == FaceOf(e)
  {
    if p != [] {
      ReplaceAt(Sub(e, p[0]), p[1..], x);
    }
  }

  lemma {:induction false} ReplaceTwice(e: Element, p: Pos, x: Element, y: Element)
    requires In(e, p)
    ensures In(Replace(e, p, x), p)
    ensures Replace(Replace(e, p, x), p, y) == Replace(e, p, y)
  {
    ReplaceAt(e, p, x);
    if p != [] {
      ReplaceTwice(Sub(e, p[0]), p[1..], x, y);
    }
  }

  lemma {:induction false} ReplaceSelf(e: Element, p: Pos)
    requires In(e, p)
    ensures Replace(e, p, At(e, p)) == e
  {
    if p != [] {
      ReplaceSelf(Sub(e, p[0]), p[1..]);
    }
  }

  /** Replacing below `p` is replacing at `p` by the replaced subtree. */
  lemma {:induction false} ReplaceConcat(e: Element, p: Pos, q: Pos, x: Element)
    requires In(e, p + q)
    ensures In(e, p) && In(At(e, p), q)
    ensures Replace(e, p + q, x) == Replace(e, p, Replace(At(e, p), q, x))
  {
    InConcat(e, p, q);
    if p == [] {
      assert p + q == q;
    } else {
      assert (p + q)[1..] == p[1..] + q;
      ReplaceConcat(Sub(e, p[0]), p[1..], q, x);
    }
  }

  lemma {:induction false} PrefixCons(p: Pos, q: Pos)
    requires p != [] && q != []
    ensures p <= q <==> p[0] == q[0] && p[1..] <= q[1..]
  {
    assert p == [p[0]] + p[1..] && q == [q[0]] + q[1..];
  }

  /** A position that `p` is not a prefix of keeps its face. */
  lemma {:induction false} ReplaceElsewhere(e: Element, p: Pos, x: Element, q: Pos)
    requires In(e, p) && !(p <= q)
    ensures In(Replace(e, p, x), q) <==> In(e, q)
    ensures In(e, q) ==> FaceOf(At(Replace(e, p, x), q)) == FaceOf(At(e, q))
  {
    if q == [] {
      ReplaceAt(e, p, x);
    } else if q[0] == p[0] {
      if HasStep(e, q[0]) {
        PrefixCons(p, q);
        ReplaceElsewhere(Sub(e, p[0]), p[1..], x, q[1..]);
      }
    }
  }

  // ----- Setting one reference -----

  function SetRef(e: Element, p: Pos, r: Option<Reference>): Element
    requires In(e, p)
  {
    Replace(e, p, At(e, p).(ref := r))
  }

  lemma {:induction false} SetRefFaces(e: Element, p: Pos, r: Option<Reference>, q: Pos)
    requires In(e, p)
    ensures In(SetRef(e, p, r), q) <==> In(e, q)
    ensures In(e, q) ==> FaceOf(At(SetRef(e, p, r), q)) ==
                         if q == p then FaceOf(At(e, q)).(ref := r) else FaceOf(At(e, q))
  {
    if p == [] {
      if q != [] {
        assert forall s :: HasStep(e, s) ==> Sub(e.(ref := r), s) == Sub(e, s);
      }
    } else if q == [] {
      ReplaceAt(e, p, At(e, p).(ref := r));
    } else if q[0] == p[0] && HasStep(e, q[0]) {
      SetRefFaces(Sub(e, p[0]), p[1..], r, q[1..]);
      assert p == [p[0]] + p[1..] && q == [q[0]] + q[1..];
    }
  }

  // ----- Paths and lookup -----

  /** `getPath`: the parent path, a separator and the id; empty for the root. */
  function Path(e: Element): string {
    var s := e.parent + "/" + e.id;
    if s != "/" then s else ""
  }

  /** Every child records the path of its container. */
  ghost predicate Placed(e: Element) {
    forall s :: HasStep(e, s) ==> Sub(e, s).parent == Path(e) && Placed(Sub(e, s))
  }

  predicate DistinctIds(items: seq<Element>) {
    forall i, j :: 0 <= i < j < |items| ==> items[i].id != items[j].id
  }

  /** What the checks of the `add*` operations establish: siblings have distinct ids without
      separator. A list holds a pattern named "*" and items named by their index. */
  ghost predicate Built(e: Element) {
    && (!e.Parameter? ==> DistinctIds(e.items))
    && (e.List? ==>
          && e.pattern.id == "*" && e.pattern.Component?
          && forall i :: 0 <= i < |e.items| ==> e.items[i].id == Dec(i) && e.items[i].Component?)
    && (forall s :: HasStep(e, s) ==> '/' !in Sub(e, s).id && Built(Sub(e, s)))
  }

  /** No id is empty, and only patterns are named "*". */
  ghost predicate Named(e: Element) {
    forall s :: HasStep(e, s) ==>
      Sub(e, s).id != "" && (s.Item? ==> Sub(e, s).id != "*") && Named(Sub(e, s))
  }

  /** Which children a path segment can select: those of a schema (where the pattern of a list is
      its only item), the items of a data tree, or its items and patterns. */
  datatype Mode = SchemaMode | ItemMode | PatternMode

  /** `getItem`: the first item with the id. */
  function FindItem(items: seq<Element>, id: string): (r: Option<nat>)
    ensures r.Some? ==> r.value < |items| && items[r.value].id == id
                        && forall j :: 0 <= j < r.value ==> items[j].id != id
    ensures r.None? ==> forall j :: 0 <= j < |items| ==> items[j].id != id
  {
    if items == [] then None
    else if items[0].id == id then Some(0)
    else
      match FindItem(items[1..], id)
      case None => None
      case Some(i) => Some(i + 1)
  }

  function FindChild(e: Element, id: string, mode: Mode): (r: Option<Step>)
    ensures r.Some? ==> HasStep(e, r.value)
  {
    if e.Parameter? then None
    else if mode.SchemaMode? && e.List? then
      (if e.pattern.id == id then Some(Pattern) else None)
    else if mode.PatternMode? && id == "*" then
      (if e.List? then Some(Pattern) else None)
    else
      match FindItem(e.items, id)
      case None => None
      case Some(i) => Some(Item(i))
  }

  /** Follow the segments of a path from an element. */
  function Resolve(e: Element, ids: seq<string>, mode: Mode): (r: Option<Pos>)
    ensures r.Some? ==> In(e, r.value) && |r.value| == |ids|
    decreases |ids|
  {
    if ids == [] then Some([])
    else
      match FindChild(e, ids[0], mode)
      case None => None
      case Some(s) =>
        match Resolve(Sub(e, s), ids[1..], mode)
        case None => None
        case Some(p) => Some([s] + p)
  }

  /** `getItemFromRoot`. */
  function Lookup(e: Element, path: string, mode: Mode): (r: Option<Pos>)
    ensures r.Some? ==> In(e, r.value)
  {
    if path == "" then None else Resolve(e, Segments(path), mode)
  }

  function Under(p: Pos, r: Option<Pos>): Option<Pos> {
    match r
    case None => None
    case Some(q) => Some(p + q)
  }

  lemma {:induction false} UnderNothing(r: Option<Pos>)
    ensures Under([], r) == r
  {
    if r.Some? {
      assert [] + r.value == r.value;
    }
  }

  lemma {:induction false} UnderStep(p: Pos, s: Step, r: Option<Pos>)
    ensures Under(p, Under([s], r)) == Under(p + [s], r)
  {
    if r.Some? {
      assert p + ([s] + r.value) == (p + [s]) + r.value;
    }
  }

  /** `getItemFromRoot` walks down from the root, one segment at a time. */
  method GetItemFromRoot(root: Element, path: string, mode: Mode) returns (r: Option<Pos>)
    ensures r == Lookup(root, path, mode)
  {
    if path == "" {
      return None;
    }
    var segments := SplitPath(path);
    var pos: Pos := [];
    var elt := root;
    var k := 0;
    assert segments[0..] == segments;
    UnderNothing(Resolve(root, segments, mode));
    while k < |segments|
      invariant 0 <= k <= |segments|
      invariant In(root, pos) && At(root, pos) == elt
      invariant Resolve(root, segments, mode) == Under(pos, Resolve(elt, segments[k..], mode))
    {
      var next := FindChild(elt, segments[k], mode);
      assert segments[k..][1..] == segments[k + 1..];
      if next.None? {
        return None;
      }
      InSnoc(root, pos, next.value);
      UnderStep(pos, next.value, Resolve(Sub(elt, next.value), segments[k + 1..], mode));
      pos := pos + [next.value];
      elt := Sub(elt, next.value);
      k := k + 1;
    }
    assert segments[k..] == [];
    assert pos + [] == pos;
    r := Some(pos);
  }

  // ----- Looking up the path of an element gives the element -----

  /** The ids on the way down to a position are non-empty, and no item on it is named "*". */
  predicate NamedAlong(e: Element, p: Pos)
    requires In(e, p)
  {
    p != [] ==>
      var c := Sub(e, p[0]);
      c.id != "" && (p[0].Item? ==> c.id != "*") && NamedAlong(c, p[1..])
  }

  /** The way down to a position is one the lookup mode can take. */
  predicate Follows(e: Element, p: Pos, mode: Mode)
    requires In(e, p)
  {
    p != [] ==>
      && (mode.ItemMode? ==> p[0].Item?)
      && (mode.SchemaMode? && e.List? ==> p[0].Pattern?)
      && Follows(Sub(e, p[0]), p[1..], mode)
  }

  lemma {:induction false} NamedEverywhere(e: Element, p: Pos)
    requires Named(e) && In(e, p)
    ensures NamedAlong(e, p)
  {
    if p != [] {
      NamedEverywhere(Sub(e, p[0]), p[1..]);
    }
  }

  lemma {:induction false} FollowsPattern(e: Element, p: Pos)
    requires In(e, p)
    ensures Follows(e, p, PatternMode)
  {
    if p != [] {
      FollowsPattern(Sub(e, p[0]), p[1..]);
    }
  }

  lemma {:induction false} BuiltBelow(e: Element, p: Pos)
    requires Built(e) && In(e, p)
    ensures Built(At(e, p))
  {
    if p != [] {
      BuiltBelow(Sub(e, p[0]), p[1..]);
    }
  }

  lemma {:induction false} NamedBelow(e: Element, p: Pos)
    requires Named(e) && In(e, p)
    ensures Named(At(e, p))
  {
    if p != [] {
      NamedBelow(Sub(e, p[0]), p[1..]);
    }
  }

  lemma {:induction false} PlacedBelow(e: Element, p: Pos)
    requires Placed(e) && In(e, p)
    ensures Placed(At(e, p))
  {
    if p != [] {
      PlacedBelow(Sub(e, p[0]), p[1..]);
    }
  }

  lemma {:induction false} IdsAreSegments(e: Element, p: Pos)
    requires Built(e) && In(e, p) && NamedAlong(e, p)
    ensures AllSegments(Ids(e, p))
  {
    if p != [] {
      IdsAreSegments(Sub(e, p[0]), p[1..]);
    }
  }

  lemma {:induction false} ChildSegments(e: Element, s: Step)
    requires Built(e) && Placed(e) && HasStep(e, s)
    ensures Segments(Path(Sub(e, s))) == Segments(Path(e)) + NonEmpty([Sub(e, s).id])
  {
    SegmentsSnoc(Path(e), Sub(e, s).id);
    if Path(e) + "/" + Sub(e, s).id == "/" {
      assert Segments("/") == Segments("");
    }
  }

  /** The segments of an element's path are the non-empty ids on the way down to it. */
  lemma {:induction false} SegmentsOfPath(e: Element, p: Pos)
    requires Built(e) && Placed(e) && In(e, p)
    ensures Segments(Path(At(e, p))) == Segments(Path(e)) + NonEmpty(Ids(e, p))
  {
    if p == [] {
      assert NonEmpty(Ids(e, p)) == [];
    } else {
      var c := Sub(e, p[0]);
      var ids := Ids(c, p[1..]);
      ChildSegments(e, p[0]);
      SegmentsOfPath(c, p[1..]);
      NonEmptyCons(c.id, ids);
      Append3(Segments(Path(e)), NonEmpty([c.id]), NonEmpty(ids));
    }
  }

  lemma {:induction false} Append3<T>(a: seq<T>, b: seq<T>, c: seq<T>)
    ensures (a + b) + c == a + (b + c)
  {
  }

  /** The path of a well-named element is canonical. */
  lemma {:induction false} PathIsRender(e: Element, p: Pos)
    requires Placed(e) && In(e, p) && NamedAlong(e, p)
    ensures Path(At(e, p)) == Path(e) + Render(Ids(e, p))
  {
    if p != [] {
      var c := Sub(e, p[0]);
      assert Path(c) == Path(e) + "/" + c.id;
      PathIsRender(c, p[1..]);
      var rest := Render(Ids(c, p[1..]));
      assert Ids(e, p)[1..] == Ids(c, p[1..]);
      assert Path(e) + "/" + c.id + rest == Path(e) + ("/" + c.id + rest);
    }
  }

  lemma {:induction false} FindOnly(items: seq<Element>, i: nat)
    requires DistinctIds(items) && i < |items|
    ensures FindItem(items, items[i].id) == Some(i)
  {
  }

  /** Following the ids of a position leads back to it. */
  lemma {:induction false} ResolveIds(e: Element, p: Pos, mode: Mode)
    requires Built(e) && In(e, p) && NamedAlong(e, p) && Follows(e, p, mode)
    ensures Resolve(e, Ids(e, p), mode) == Some(p)
  {
    if p != [] {
      var c := Sub(e, p[0]);
      if p[0].Item? {
        FindOnly(e.items, p[0].i);
      }
      assert FindChild(e, c.id, mode) == Some(p[0]);
      ResolveIds(c, p[1..], mode);
      assert Ids(e, p)[1..] == Ids(c, p[1..]);
      assert [p[0]] + p[1..] == p;
    }
  }

  /** What a lookup finds, it finds by following the way down it returns. */
  lemma {:induction false} ResolveSound(e: Element, ids: seq<string>, mode: Mode)
    requires Built(e)
    requires Resolve(e, ids, mode).Some?
    ensures var p := Resolve(e, ids, mode).value;
      Ids(e, p) == ids && Follows(e, p, mode)
    decreases |ids|
  {
    if ids != [] {
      var s := FindChild(e, ids[0], mode).value;
      ResolveSound(Sub(e, s), ids[1..], mode);
      var q := Resolve(Sub(e, s), ids[1..], mode).value;
      assert ([s] + q)[1..] == q;
    }
  }

  /** A step into a pattern is taken exactly at the name of the pattern. */
  lemma {:induction false} ResolvePatterns(e: Element, ids: seq<string>)
    requires Resolve(e, ids, PatternMode).Some?
    ensures |Resolve(e, ids, PatternMode).value| == |ids|
    ensures forall k :: 0 <= k < |ids| ==> (Resolve(e, ids, PatternMode).value[k].Pattern? <==> ids[k] == "*")
    decreases |ids|
  {
    if ids != [] {
      var s := FindChild(e, ids[0], PatternMode).value;
      ResolvePatterns(Sub(e, s), ids[1..]);
      var q := Resolve(Sub(e, s), ids[1..], PatternMode).value;
      var p := [s] + q;
      assert forall k :: 1 <= k < |p| ==> p[k] == q[k - 1] && ids[k] == ids[1..][k - 1];
    }
  }

  /** The root of a model. */
  predicate IsRoot(e: Element) {
    e.id == "" && e.parent == "" && e.Component?
  }

  /** In a tree the `add*` operations built, looking up the path of an element from the root gives
      that very element exactly when it is not the root, no id on its way down is empty, and no
      component on it is named like a pattern. */
  lemma {:induction false} PathLookup(root: Element, p: Pos)
    requires IsRoot(root) && Built(root) && Placed(root) && In(root, p)
    ensures Lookup(root, Path(At(root, p)), PatternMode) == Some(p) <==> p != [] && NamedAlong(root, p)
  {
    var path := Path(At(root, p));
    var ids := Ids(root, p);
    SegmentsOfPath(root, p);
    assert Segments(path) == NonEmpty(ids);
    if p != [] && NamedAlong(root, p) {
      IdsAreSegments(root, p);
      NonEmptyAll(ids);
      FollowsPattern(root, p);
      ResolveIds(root, p, PatternMode);
    }
    if Lookup(root, path, PatternMode) == Some(p) {
      NonEmptyAll(ids);
      ResolveSound(root, ids, PatternMode);
      ResolvePatterns(root, ids);
      NamedByIds(root, p);
    }
  }

  lemma {:induction false} NamedByIds(e: Element, p: Pos)
    requires Built(e) && In(e, p)
    requires forall k :: 0 <= k < |p| ==> Ids(e, p)[k] != "" && (p[k].Item? ==> Ids(e, p)[k] != "*")
    ensures NamedAlong(e, p)
  {
    if p != [] {
      var c := Sub(e, p[0]);
      assert Ids(e, p)[0] == c.id;
      forall k | 0 <= k < |p[1..]|
        ensures Ids(c, p[1..])[k] != "" && (p[1..][k].Item? ==> Ids(c, p[1..])[k] != "*")
      {
        assert Ids(e, p)[k + 1] == Ids(c, p[1..])[k];
      }
      NamedByIds(c, p[1..]);
    }
  }

  /** In a tree with proper names every other lookup mode agrees, on the ways down it can take. */
  lemma {:induction false} NamedPathLookup(root: Element, p: Pos, mode: Mode)
    requires IsRoot(root) && Built(root) && Placed(root) && Named(root) && In(root, p) && p != []
    ensures Follows(root, p, mode) ==> Lookup(root, Path(At(root, p)), mode) == Some(p)
  {
    NamedEverywhere(root, p);
    SegmentsOfPath(root, p);
    assert Segments(Path(At(root, p))) == NonEmpty(Ids(root, p));
    IdsAreSegments(root, p);
    NonEmptyAll(Ids(root, p));
    if Follows(root, p, mode) {
      ResolveIds(root, p, mode);
    }
  }
}
