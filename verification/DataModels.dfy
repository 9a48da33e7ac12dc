/** The data model: `DataModel.cpp`, the operations on its elements, and its XML reader. */
module DataModels {
  import opened Wrappers
  import opened Numerals
  import opened Values
  import opened Elements
  import opened Edits
  import opened References
  import opened Copies
  import opened DataLists
  import opened DataTrees
  import opened Instances
  import opened Descendants
  import opened Xml
  import opened Loading

  /** A text that a data accepts gives a checked value of the same type. */
  lemma {:induction false} FromStringSound(d: Data, s: string)
    requires Sound(d)
    ensures FromString(d, s).Some? ==> Sound(FromString(d, s).value) && FromString(d, s).value.typ == d.typ
  {
  }

  // ----- Validation -----

  /** `checkReference`: no reference, or one whose target holds the expected data. */
  predicate Active(root: Element, e: Element)
    requires e.ref.Some? ==> In(root, e.ref.value.target.pos) && At(root, e.ref.value.target.pos).info.Holding?
  {
    e.ref.None? ||
      var expected := e.ref.value.expected;
      var data := At(root, e.ref.value.target.pos).info.data;
      expected.value.Some? && data.value.Some? && data == expected
  }

  ghost predicate Checkable(root: Element, e: Element) {
    forall p :: In(e, p) ==>
      && (At(e, p).Parameter? ==> At(e, p).info.Holding?)
      && (At(e, p).ref.Some? ==>
            var t := At(e, p).ref.value.target.pos; In(root, t) && At(root, t).info.Holding?)
  }

  lemma {:induction false} CheckableSub(root: Element, e: Element, s: Step)
    requires Checkable(root, e) && HasStep(e, s)
    ensures Checkable(root, Sub(e, s))
  {
    forall p | In(Sub(e, s), p)
      ensures In(e, [s] + p) && At(e, [s] + p) == At(Sub(e, s), p)
    {
      assert ([s] + p)[1..] == p;
    }
  }

  /** Walking down from `e` along items, every element on the way to `p` is active. */
  ghost predicate ActiveAlong(root: Element, e: Element, p: Pos)
    requires Checkable(root, e) && In(e, p)
    decreases |p|
  {
    assert In(e, []) && At(e, []) == e;
    && Active(root, e)
    && (p != [] ==> (CheckableSub(root, e, p[0]); ActiveAlong(root, Sub(e, p[0]), p[1..])))
  }

  /** Every active parameter holds a value. */
  ghost predicate ActiveSet(root: Element, e: Element)
    requires Checkable(root, e)
  {
    forall p :: In(e, p) && ThroughItems(p) && At(e, p).Parameter? && ActiveAlong(root, e, p) ==>
      At(e, p).info.data.value.Some?
  }

  /** `validate`, recursively: an inactive element is valid, an active container is when its items
      are, an active parameter when it is set. */
  method ValidateElement(root: Element, e: Element) returns (ok: bool)
    requires Checkable(root, e)
    ensures ok <==> ActiveSet(root, e)
    decreases e
  {
    assert In(e, []) && At(e, []) == e;
    if !Active(root, e) {
      return true;
    }
    if e.Parameter? {
      ok := e.info.data.value.Some?;
      assert ActiveAlong(root, e, []);
      return;
    }
    var i := 0;
    while i < |e.items|
      invariant 0 <= i <= |e.items|
      invariant forall j :: 0 <= j < i ==> Checkable(root, e.items[j]) && ActiveSet(root, e.items[j])
    {
      CheckableSub(root, e, Item(i));
      assert Sub(e, Item(i)) == e.items[i];
      var valid := ValidateElement(root, e.items[i]);
      if !valid {
        InvalidItem(root, e, i);
        return false;
      }
      i := i + 1;
    }
    ValidItems(root, e);
    return true;
  }

  lemma {:induction false} InvalidItem(root: Element, e: Element, i: nat)
    requires Checkable(root, e) && !e.Parameter? && i < |e.items| && Checkable(root, e.items[i])
    requires e.ref.Some? ==> In(root, e.ref.value.target.pos) && At(root, e.ref.value.target.pos).info.Holding?
    requires Active(root, e) && !ActiveSet(root, e.items[i])
    ensures !ActiveSet(root, e)
  {
    var c := e.items[i];
    var p :| In(c, p) && ThroughItems(p) && At(c, p).Parameter? && ActiveAlong(root, c, p)
      && At(c, p).info.data.value.None?;
    var q := [Item(i)] + p;
    assert q[1..] == p && Sub(e, q[0]) == c;
    assert In(e, q) && ThroughItems(q) && At(e, q) == At(c, p) && ActiveAlong(root, e, q);
  }

  lemma {:induction false} ValidItems(root: Element, e: Element)
    requires Checkable(root, e) && !e.Parameter?
    requires forall j :: 0 <= j < |e.items| ==> Checkable(root, e.items[j]) && ActiveSet(root, e.items[j])
    ensures ActiveSet(root, e)
  {
    forall p: Pos | In(e, p) && ThroughItems(p) && At(e, p).Parameter? && ActiveAlong(root, e, p)
      ensures At(e, p).info.data.value.Some?
    {
      var c := Sub(e, p[0]);
      assert c == e.items[p[0].i];
      assert In(c, p[1..]) && ThroughItems(p[1..]) && ActiveAlong(root, c, p[1..]);
    }
  }

  lemma {:induction false} TreeCheckable(root: Element, model: nat)
    requires DataTree(root, model)
    ensures Checkable(root, root)
  {
    forall p | In(root, p)
      ensures At(root, p).Parameter? ==> At(root, p).info.Holding?
      ensures At(root, p).ref.Some? ==>
        var t := At(root, p).ref.value.target.pos; In(root, t) && At(root, t).info.Holding?
    {
      if At(root, p).ref.Some? {
        assert GoodRef(root, model, At(root, p).ref.value);
      }
    }
  }

  /** There is an element at the position, and it has no reference, or one to a parameter that is set, to
      the value expected. */
  ghost predicate Met(root: Element, p: Pos) {
    In(root, p) &&
    match At(root, p).ref
    case None => true
    case Some(r) =>
      In(root, r.target.pos) &&
      match At(root, r.target.pos).info
      case Holding(data) => data.value.Some? && r.expected.value.Some? && data.value.value == r.expected.value.value
      case _ => false
  }

  lemma {:induction false} ActiveIsMet(root: Element, model: nat, p: Pos)
    requires DataTree(root, model) && In(root, p) && Checkable(root, root)
    ensures Active(root, At(root, p)) <==> Met(root, p)
  {
    if At(root, p).ref.Some? {
      assert GoodRef(root, model, At(root, p).ref.value);
    }
  }

  ghost predicate ActiveAt(root: Element, e: Element, q: Pos) {
    && In(e, q)
    && (At(e, q).ref.Some? ==>
          var t := At(e, q).ref.value.target.pos; In(root, t) && At(root, t).info.Holding?)
    && Active(root, At(e, q))
  }

  lemma {:induction false} AtPrefix(root: Element, e: Element, p: Pos, k: nat)
    requires In(e, p) && p != [] && k < |p|
    ensures ActiveAt(root, e, p[..k + 1]) <==> ActiveAt(root, Sub(e, p[0]), p[1..][..k])
  {
    assert p[..k + 1][0] == p[0] && p[..k + 1][1..] == p[1..][..k];
  }

  lemma {:induction false} AlongIsAll(root: Element, e: Element, p: Pos)
    requires Checkable(root, e) && In(e, p)
    ensures ActiveAlong(root, e, p) <==> forall k :: 0 <= k <= |p| ==> ActiveAt(root, e, p[..k])
    decreases |p|
  {
    assert In(e, []) && At(e, []) == e && p[..0] == [];
    assert Active(root, e) <==> ActiveAt(root, e, p[..0]);
    if p != [] {
      CheckableSub(root, e, p[0]);
      AlongIsAll(root, Sub(e, p[0]), p[1..]);
      AllPrefixes(root, e, p);
    }
  }

  lemma {:induction false} AllPrefixes(root: Element, e: Element, p: Pos)
    requires In(e, p) && p != []
    ensures (forall k :: 0 <= k <= |p| ==> ActiveAt(root, e, p[..k])) <==>
      ActiveAt(root, e, []) && forall k :: 0 <= k <= |p| - 1 ==> ActiveAt(root, Sub(e, p[0]), p[1..][..k])
  {
    assert p[..0] == [];
    forall k: nat | k < |p|
      ensures ActiveAt(root, e, p[..k + 1]) <==> ActiveAt(root, Sub(e, p[0]), p[1..][..k])
    {
      AtPrefix(root, e, p, k);
    }
    if ActiveAt(root, e, []) && forall k :: 0 <= k <= |p| - 1 ==> ActiveAt(root, Sub(e, p[0]), p[1..][..k]) {
      forall k | 0 <= k <= |p|
        ensures ActiveAt(root, e, p[..k])
      {
        if k > 0 {
          AtPrefix(root, e, p, k - 1);
        }
      }
    }
  }

  lemma {:induction false} AlongIsMet(root: Element, model: nat, p: Pos)
    requires DataTree(root, model) && In(root, p) && Checkable(root, root)
    ensures ActiveAlong(root, root, p) <==> forall k :: 0 <= k <= |p| ==> Met(root, p[..k])
  {
    AlongIsAll(root, root, p);
    forall k | 0 <= k <= |p|
      ensures ActiveAt(root, root, p[..k]) <==> Met(root, p[..k])
    {
      InPrefix(root, p, k);
      ActiveIsMet(root, model, p[..k]);
    }
  }

  /** Every set enumeration holds one of its values, and every reference expects one, in any data model. */
  lemma {:induction false} EnumerationsHold(root: Element, model: nat, p: Pos)
    requires DataTree(root, model) && In(root, p)
    ensures At(root, p).Parameter? ==> At(root, p).info.Holding? && var d := At(root, p).info.data;
      d.typ.EnumType? && d.value.Some? ==> d.value.value.TextVal? && d.value.value.s in d.typ.values
    ensures At(root, p).ref.Some? ==> var d := At(root, p).ref.value.expected;
      d.value.Some? && (d.typ.EnumType? ==> d.value.value.TextVal? && d.value.value.s in d.typ.values)
  {
    if At(root, p).ref.Some? {
      assert GoodRef(root, model, At(root, p).ref.value);
    }
  }

  // ----- Clones of instances -----

  lemma {:induction false} CloneStamp(e: Element, m: nat, id: string, parent: string, move: Move)
    ensures CopyTree(Stamp(e, id, parent, move), Clone, Some(m)) == Stamp(CopyTree(e, Clone, Some(m)), id, parent, move)
    decreases e, 1
  {
    if !e.Parameter? {
      CloneStampAll(e.items, m, PathOf(id, parent), move);
    }
    if e.List? {
      CloneStamp(e.pattern, m, e.pattern.id, PathOf(id, parent), move);
    }
  }

  lemma {:induction false} CloneStampAll(es: seq<Element>, m: nat, parent: string, move: Move)
    ensures CopyAll(StampAll(es, parent, move), Clone, Some(m)) == StampAll(CopyAll(es, Clone, Some(m)), parent, move)
    decreases es, 0
  {
    if es != [] {
      CloneStamp(es[0], m, es[0].id, parent, move);
      CloneStampAll(es[1..], m, parent, move);
      assert StampAll(es, parent, move)[1..] == StampAll(es[1..], parent, move);
      assert CopyAll(es, Clone, Some(m))[1..] == CopyAll(es[1..], Clone, Some(m));
    }
  }

  lemma {:induction false} CloneFresh(t: Element, m: nat)
    requires Fresh(t)
    ensures Fresh(CopyTree(t, Clone, Some(m)))
    decreases t
  {
    var c := CopyTree(t, Clone, Some(m));
    forall s | HasStep(c, s)
      ensures Fresh(Sub(c, s))
    {
      CopySub(t, Clone, Some(m), s);
      CloneFresh(Sub(t, s), m);
    }
  }

  /** The clone of an instance is an instance of the clone. */
  lemma {:induction false} CloneInstance(d: Element, t: Element, pos: Pos, m: nat)
    requires Instance(d, t, pos)
    ensures Instance(CopyTree(d, Clone, Some(m)), CopyTree(t, Clone, Some(m)), pos)
    decreases d
  {
    var d' := CopyTree(d, Clone, Some(m));
    var t' := CopyTree(t, Clone, Some(m));
    if !d.Parameter? {
      forall i | 0 <= i < |d.items|
        ensures (d.List? ==> Instance(d'.items[i], ItemOf(t', pos, i), pos + [Item(i)]))
        ensures (d.Component? ==> Instance(d'.items[i], t'.items[i], pos + [Item(i)]))
      {
        InstanceChild(d, t, pos, i);
        CloneInstance(d.items[i], Model(t, pos, i), pos + [Item(i)], m);
        if d.List? {
          CopyPath(t, Clone, Some(m));
          CloneStamp(t.pattern, m, Dec(i), Path(t), Shift(pos + [Pattern], pos + [Item(i)]));
        }
      }
    }
  }

  lemma {:induction false} CloneClean(t: Element, pos: Pos, m: nat)
    requires Clean(t, pos)
    ensures Clean(CopyTree(t, Clone, Some(m)), pos)
    decreases t
  {
    var c := CopyTree(t, Clone, Some(m));
    forall s | HasStep(c, s)
      ensures Clean(Sub(c, s), pos + [s])
    {
      CopySub(t, Clone, Some(m), s);
      CloneClean(Sub(t, s), pos + [s], m);
    }
    if t.List? {
      forall j: nat, p | In(c.pattern, p) && At(c.pattern, p).ref.Some?
        ensures !(pos + [Item(j)] <= At(c.pattern, p).ref.value.target.pos)
      {
        CopyAt(t.pattern, Clone, Some(m), p);
        CopyFace(t.pattern, Clone, Some(m), p);
        assert Avoids(t.pattern, pos + [Item(j)]);
      }
    }
  }

  /** The clone of a descendant descends from the clone. */
  lemma {:induction false} CloneDescends(d: Element, t: Element, pos: Pos, m: nat)
    requires Descends(d, t, pos)
    ensures Descends(CopyTree(d, Clone, Some(m)), CopyTree(t, Clone, Some(m)), pos)
    decreases d
  {
    var d' := CopyTree(d, Clone, Some(m));
    var t' := CopyTree(t, Clone, Some(m));
    if !d.Parameter? {
      forall i | 0 <= i < |d.items|
        ensures (d.List? ==> Descends(d'.items[i], ItemOf(t', pos, i), pos + [Item(i)]))
        ensures (d.Component? ==> Descends(d'.items[i], t'.items[i], pos + [Item(i)]))
      {
        DescendsSub(d, t, pos, Item(i));
        CloneDescends(d.items[i], Model(t, pos, i), pos + [Item(i)], m);
        if d.List? {
          CopyPath(t, Clone, Some(m));
          CloneStamp(t.pattern, m, Dec(i), Path(t), Shift(pos + [Pattern], pos + [Item(i)]));
        }
      }
    }
    if d.List? {
      CloneDescends(d.pattern, t.pattern, pos + [Pattern], m);
    }
  }

  // ----- Loading into a model -----

  /** What the loops do to the component at a position is what its nodes say. */
  lemma {:induction false} LoadBelow(root: Element, model: nat, blank: Element, pos: Pos, node: Node)
    requires DataTree(root, model) && Descends(root, blank, []) && Fresh(blank) && Clean(blank, [])
    requires In(root, pos) && At(root, pos).Component?
    ensures Load(At(root, pos), pos, node.children) ==
      if Fits(At(root, pos), pos, node) then Some(Result(At(root, pos), pos, [node])) else None
  {
    DescendsClean(root, blank, []);
    CleanBelow(root, [], pos);
    assert [] + pos == pos;
    BuiltBelow(root, pos);
    LoadIs(At(root, pos), pos, node.children);
    FitsIntoAll(At(root, pos), pos, node);
    ResultOne(At(root, pos), pos, node);
  }

  // ----- The model -----

  class DataModel {
    const version: string
    /** Which model this is: what its references name. */
    const model: nat
    var root: Element
    /** The tree as it was when `createData` made it. */
    ghost var blank: Element

    ghost predicate Valid()
      reads this
    {
      && DataTree(root, model)
      && Fresh(blank) && Built(blank) && Clean(blank, [])
      && Descends(root, blank, [])
      && blank.ref.None?
    }

    /** No pattern was changed. */
    ghost predicate Untouched()
      reads this
    {
      Instance(root, blank, [])
    }

    constructor (version: string, model: nat, root: Element, ghost blank: Element)
      requires DataTree(root, model)
      requires Fresh(blank) && Built(blank) && Clean(blank, []) && Descends(root, blank, []) && blank.ref.None?
      ensures Valid()
      ensures this.version == version && this.model == model && this.root == root && this.blank == blank
    {
      this.version := version;
      this.model := model;
      this.root := root;
      this.blank := blank;
    }

    /** `DataList::addItem` on the list at `pos`. */
    method AddItem(pos: Pos) returns (ok: bool)
      requires Valid() && In(root, pos) && At(root, pos).List?
      modifies this`root
      ensures Valid()
      ensures ok <==> !SelfReferring(old(At(root, pos)), pos)
      ensures root == if ok then GrownRoot(old(root), pos) else old(root)
      ensures old(Untouched()) && ThroughItems(pos) ==> Untouched()
    {
      var item := MakeItem(root, model, pos);
      if item.None? {
        return false;
      }
      GrownTree(root, model, pos);
      assert [] + pos == pos;
      DescendsGrow(root, blank, [], pos);
      if Untouched() && ThroughItems(pos) {
        InstanceGrow(root, blank, [], pos);
      }
      root := Append(root, pos, item.value);
      return true;
    }

    /** Store a checked data in the parameter at `pos`. */
    method Store(pos: Pos, d: Data)
      requires Valid() && In(root, pos) && At(root, pos).Parameter?
      requires At(root, pos).info.Holding? && Sound(d) && d.typ == At(root, pos).info.data.typ
      modifies this`root
      ensures Valid()
      ensures root == SetRoot(old(root), pos, d)
      ensures old(Untouched()) && ThroughItems(pos) ==> Untouched()
    {
      SetTree(root, model, pos, d);
      DescendsSet(root, blank, [], pos, d);
      if Untouched() && ThroughItems(pos) {
        InstanceSet(root, blank, [], pos, d);
      }
      root := SetRoot(root, pos, d);
    }

    /** `DataValue::set` on the parameter at `pos`, with a value of its C++ type. */
    method SetValue(pos: Pos, v: Val) returns (ok: bool)
      requires Valid() && In(root, pos) && At(root, pos).Parameter?
      requires At(root, pos).info.Holding? && Holds(At(root, pos).info.data.typ, v)
      modifies this`root
      ensures Valid()
      ensures ok <==> var typ := old(At(root, pos)).info.data.typ; typ.EnumType? ==> v.s in typ.values
      ensures root == if ok then SetRoot(old(root), pos, Data(old(At(root, pos).info.data.typ), Some(v))) else old(root)
      ensures old(Untouched()) && ThroughItems(pos) ==> Untouched()
    {
      var d := Set(At(root, pos).info.data, v);
      if d.None? {
        return false;
      }
      Store(pos, d.value);
      return true;
    }

    /** `DataValue::fromString` on the parameter at `pos`. */
    method SetText(pos: Pos, s: string) returns (ok: bool)
      requires Valid() && In(root, pos) && At(root, pos).Parameter?
      requires At(root, pos).info.Holding?
      modifies this`root
      ensures Valid()
      ensures ok <==> exists v :: ReadsAs(old(At(root, pos)).info.data.typ, s, v)
      ensures ok <==> FromString(old(At(root, pos)).info.data, s).Some?
      ensures root ==
        if ok then SetRoot(old(root), pos, FromString(old(At(root, pos)).info.data, s).value) else old(root)
      ensures forall v :: ReadsAs(old(At(root, pos)).info.data.typ, s, v) ==>
        root == SetRoot(old(root), pos, Data(old(At(root, pos)).info.data.typ, Some(v)))
      ensures old(Untouched()) && ThroughItems(pos) ==> Untouched()
    {
      var d := FromString(At(root, pos).info.data, s);
      ReadsWhen(At(root, pos).info.data, s);
      assert Sound(At(root, pos).info.data);
      FromStringSound(At(root, pos).info.data, s);
      if d.None? {
        return false;
      }
      Store(pos, d.value);
      return true;
    }

    method GetItemByPath(path: string) returns (r: Option<Pos>)
      ensures r == Lookup(root, path, ItemMode)
    {
      r := GetItemFromRoot(root, path, ItemMode);
    }

    method GetItemByMetaPath(path: string) returns (r: Option<Pos>)
      ensures r == Lookup(root, path, PatternMode)
    {
      r := GetItemFromRoot(root, path, PatternMode);
    }

    /** `validate`: true exactly when every parameter is set that is active together with all containers on
        the way to it. An element is active without a reference, or when the target of its reference is set,
        and to the value that is expected. */
    method Validate() returns (ok: bool)
      requires Valid()
      ensures Checkable(root, root)
      ensures ok <==> forall p ::
        (In(root, p) && ThroughItems(p) && At(root, p).Parameter?
         && forall k :: 0 <= k <= |p| ==> Met(root, p[..k])) ==> At(root, p).info.data.value.Some?
    {
      TreeCheckable(root, model);
      ok := ValidateElement(root, root);
      forall p | In(root, p)
        ensures ActiveAlong(root, root, p) <==> forall k :: 0 <= k <= |p| ==> Met(root, p[..k])
      {
        AlongIsMet(root, model, p);
      }
    }

    /** `clone`: always succeeds, and gives a model of its own. */
    method CloneModel(into: nat) returns (c: DataModel?)
      requires Valid()
      ensures c != null && fresh(c) && c.Valid()
      ensures c.version == version && c.model == into
      ensures c.root == CopyTree(root, Clone, Some(into))
    {
      forall p | In(root, p)
        ensures Follows(root, p, PatternMode)
      {
        FollowsPattern(root, p);
      }
      var copy := CopyReferences(root, model, Clone, into, PatternMode, true);
      if copy.None? {
        return null;
      }
      CopyWellFormed(root, model, Clone, into);
      ClonedHolds(root, into);
      CloneFresh(blank, into);
      CopyBuilt(blank, Clone, Some(into));
      CloneClean(blank, [], into);
      CloneDescends(root, blank, [], into);
      c := new DataModel(version, into, copy.value, CopyTree(blank, Clone, Some(into)));
    }

    // ----- fromXML -----

    /** `loadComponentFromXML`: it succeeds exactly when all children of the node fit, and the items then hold
        what they say. */
    method LoadComponent(pos: Pos, node: Node) returns (ok: bool)
      requires Valid() && In(root, pos) && At(root, pos).Component?
      modifies this`root
      ensures Valid()
      ensures ok <==> Fits(old(At(root, pos)), pos, node)
      ensures ok ==> root == Replace(old(root), pos, Result(old(At(root, pos)), pos, [node]))
    {
      LoadBelow(root, model, blank, pos, node);
      ok := LoadNodes(pos, node);
    }

    /** The loop of `loadComponentFromXML`, node by node. */
    method LoadNodes(pos: Pos, node: Node) returns (ok: bool)
      requires Valid() && In(root, pos) && At(root, pos).Component?
      modifies this`root
      ensures Valid()
      ensures ok <==> old(Load(At(root, pos), pos, node.children)).Some?
      ensures ok ==> root == Replace(old(root), pos, old(Load(At(root, pos), pos, node.children)).value)
      decreases node, 1
    {
      var k := 0;
      assert node.children[0..] == node.children;
      ReplaceSelf(root, pos);
      while k < |node.children|
        invariant 0 <= k <= |node.children|
        invariant Valid() && In(root, pos) && At(root, pos).Component?
        invariant root == Replace(old(root), pos, At(root, pos))
        invariant Load(At(root, pos), pos, node.children[k..]) == old(Load(At(root, pos), pos, node.children))
      {
        ghost var e := At(root, pos);
        LoadNext(e, pos, node.children, k);
        ghost var before := root;
        ok := LoadNode(pos, node.children[k]);
        if !ok {
          return;
        }
        ReplaceAt(before, pos, LoadOne(e, pos, node.children[k]).value);
        ReplaceTwice(old(root), pos, e, At(root, pos));
        k := k + 1;
      }
      assert node.children[k..] == [];
      ok := true;
    }

    /** The body of the loop of `loadComponentFromXML`. */
    method LoadNode(pos: Pos, node: Node) returns (ok: bool)
      requires Valid() && In(root, pos) && At(root, pos).Component?
      modifies this`root
      ensures Valid()
      ensures ok <==> old(LoadOne(At(root, pos), pos, node)).Some?
      ensures ok ==> root == Replace(old(root), pos, old(LoadOne(At(root, pos), pos, node)).value)
      decreases node, 2
    {
      ghost var e := At(root, pos);
      var found := FindItem(At(root, pos).items, node.name);
      if found.None? {
        return false;
      }
      var i := found.value;
      InSnoc(root, pos, Item(i));
      ReplaceItem(root, pos, i);
      var c := At(root, pos + [Item(i)]);
      match c {
        case Parameter(_, _, _, _) =>
          if Content(node) == "" {
            ReplaceSelf(root, pos);
            return true;
          }
          assert c.info.Holding?;
          ok := SetText(pos + [Item(i)], Content(node));
        case Component(_, _, _, _, _) =>
          ok := LoadNodes(pos + [Item(i)], node);
        case List(_, _, _, _, _, _) =>
          ok := LoadList(pos + [Item(i)], node);
      }
    }

    /** One round of the list case: add an item, and load it. */
    method AddLoaded(pos: Pos, node: Node) returns (ok: bool)
      requires Valid() && In(root, pos) && At(root, pos).List?
      modifies this`root
      ensures Valid()
      ensures ok <==> old(LoadItem(At(root, pos), pos, node)).Some?
      ensures ok ==> In(root, pos) && root == Replace(old(root), pos, old(LoadItem(At(root, pos), pos, node)).value)
                     && At(root, pos) == old(LoadItem(At(root, pos), pos, node)).value
      decreases node, 2
    {
      ghost var l := At(root, pos);
      var n := |At(root, pos).items|;
      ok := AddItem(pos);
      if !ok {
        return;
      }
      ghost var grown := WithItems(l, l.items + [NewItem(l, pos)]);
      ReplaceAt(old(root), pos, grown);
      ReplaceItem(root, pos, n);
      BuiltBelow(root, pos);
      ok := LoadNodes(pos + [Item(n)], node);
      if ok {
        ghost var loaded := LoadItem(l, pos, node).value;
        ReplaceTwice(old(root), pos, grown, loaded);
        ReplaceAt(old(root), pos, loaded);
      }
    }

    /** The list case: each child named "item" adds an item and loads it. */
    method LoadList(pos: Pos, node: Node) returns (ok: bool)
      requires Valid() && In(root, pos) && At(root, pos).List?
      modifies this`root
      ensures Valid()
      ensures ok <==> old(LoadItems(At(root, pos), pos, node.children)).Some?
      ensures ok ==> root == Replace(old(root), pos, old(LoadItems(At(root, pos), pos, node.children)).value)
      decreases node, 1
    {
      var k := 0;
      assert node.children[0..] == node.children;
      ReplaceSelf(root, pos);
      while k < |node.children|
        invariant 0 <= k <= |node.children|
        invariant Valid() && In(root, pos) && At(root, pos).List?
        invariant root == Replace(old(root), pos, At(root, pos))
        invariant LoadItems(At(root, pos), pos, node.children[k..]) == old(LoadItems(At(root, pos), pos, node.children))
      {
        ghost var l := At(root, pos);
        var child := node.children[k];
        LoadItemsNext(l, pos, node.children, k);
        if child.name == "item" {
          ok := AddLoaded(pos, child);
          if !ok {
            return;
          }
          ReplaceTwice(old(root), pos, l, At(root, pos));
        }
        k := k + 1;
      }
      ok := true;
    }
  }

  lemma {:induction false} ClonedHolds(root: Element, into: nat)
    requires HoldsData(root)
    ensures HoldsData(CopyTree(root, Clone, Some(into)))
  {
    forall p | In(CopyTree(root, Clone, Some(into)), p)
      ensures var e := At(CopyTree(root, Clone, Some(into)), p);
        e.Parameter? ==> e.info.Holding? && Sound(e.info.data)
    {
      CopyAt(root, Clone, Some(into), p);
    }
  }

  /** Replacing an item of the component at `pos` replaces the component. */
  lemma {:induction false} ReplaceItem(root: Element, pos: Pos, i: nat)
    requires In(root, pos) && !At(root, pos).Parameter? && i < |At(root, pos).items|
    ensures In(root, pos + [Item(i)]) && At(root, pos + [Item(i)]) == At(root, pos).items[i]
    ensures forall c :: Replace(root, pos + [Item(i)], c) ==
                        Replace(root, pos, WithItems(At(root, pos), At(root, pos).items[i := c]))
  {
    InSnoc(root, pos, Item(i));
    forall c
      ensures Replace(root, pos + [Item(i)], c) ==
              Replace(root, pos, WithItems(At(root, pos), At(root, pos).items[i := c]))
    {
      ReplaceConcat(root, pos, [Item(i)], c);
      assert Replace(At(root, pos), [Item(i)], c) == WithItems(At(root, pos), At(root, pos).items[i := c]);
    }
  }
}
