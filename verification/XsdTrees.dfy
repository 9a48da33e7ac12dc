/** A schema tree that is written and read again: everything but the references, which are set last. */
module XsdTrees {
  import opened Wrappers
  import opened Values
  import opened TypesLists
  import opened Elements
  import opened Edits
  import opened References
  import opened Instances
  import opened Xsd

  // ----- What a document does not keep -----

  /** The empty string is not written among the values of an enumeration. */
  function StripType(t: DataType): DataType {
    match t
    case EnumType(name, values) => EnumType(name, values - {""})
    case _ => t
  }

  /** An empty string that is expected comes back unset. */
  function StripData(d: Data): Data {
    Data(StripType(d.typ), if d.value == Some(TextVal("")) then None else d.value)
  }

  function StripRef(r: Option<Reference>): Option<Reference> {
    match r
    case None => None
    case Some(r) => Some(Reference(r.target, StripData(r.expected)))
  }

  /** Units, and the advanced and read-only marks, are written but not read back. */
  function StripInfo(info: Info): Info {
    match info
    case Schema(name, description, _, _, typ, _) =>
      Schema(name, description, false, false, if typ.Some? then Some(StripType(typ.value)) else None, "")
    case _ => info
  }

  function Strip(e: Element): Element {
    match e
    case Parameter(id, parent, ref, info) => Parameter(id, parent, StripRef(ref), StripInfo(info))
    case Component(id, parent, ref, info, items) =>
      Component(id, parent, StripRef(ref), StripInfo(info), StripAll(items))
    case List(id, parent, ref, info, items, pattern) =>
      List(id, parent, StripRef(ref), StripInfo(info), StripAll(items), Strip(pattern))
  }

  function StripAll(es: seq<Element>): (r: seq<Element>)
    ensures |r| == |es|
    ensures forall i :: 0 <= i < |es| ==> r[i] == Strip(es[i])
  {
    if es == [] then [] else [Strip(es[0])] + StripAll(es[1..])
  }

  lemma {:induction false} StripSub(e: Element, s: Step)
    ensures HasStep(Strip(e), s) <==> HasStep(e, s)
    ensures HasStep(e, s) ==> Sub(Strip(e), s) == Strip(Sub(e, s))
  {
  }

  lemma {:induction false} StripFace(e: Element)
    ensures FaceOf(Strip(e)) == FaceOf(e).(ref := StripRef(e.ref), info := StripInfo(e.info))
    ensures Path(Strip(e)) == Path(e)
  {
  }

  lemma {:induction false} StripAt(e: Element, p: Pos)
    ensures In(Strip(e), p) <==> In(e, p)
    ensures In(e, p) ==> At(Strip(e), p) == Strip(At(e, p))
  {
    if p != [] {
      StripSub(e, p[0]);
      if HasStep(e, p[0]) {
        StripAt(Sub(e, p[0]), p[1..]);
      }
    }
  }

  lemma {:induction false} StripBuilt(e: Element)
    requires Built(e)
    ensures Built(Strip(e))
    decreases e
  {
    var c := Strip(e);
    forall s | HasStep(c, s)
      ensures '/' !in Sub(c, s).id && Built(Sub(c, s))
    {
      StripSub(e, s);
      StripFace(Sub(e, s));
      StripBuilt(Sub(e, s));
    }
  }

  lemma {:induction false} StripPlaced(e: Element)
    requires Placed(e)
    ensures Placed(Strip(e))
    decreases e
  {
    var c := Strip(e);
    StripFace(e);
    forall s | HasStep(c, s)
      ensures Sub(c, s).parent == Path(c) && Placed(Sub(c, s))
    {
      StripSub(e, s);
      StripFace(Sub(e, s));
      StripPlaced(Sub(e, s));
    }
  }

  lemma {:induction false} StripNamed(e: Element)
    requires Named(e)
    ensures Named(Strip(e))
    decreases e
  {
    var c := Strip(e);
    forall s | HasStep(c, s)
      ensures Sub(c, s).id != "" && (s.Item? ==> Sub(c, s).id != "*") && Named(Sub(c, s))
    {
      StripSub(e, s);
      StripFace(Sub(e, s));
      StripNamed(Sub(e, s));
    }
  }

  /** The tree before the references are set. */
  function Bare(e: Element): Element {
    CopyTree(Strip(e), Reread, None)
  }

  function BareAll(es: seq<Element>): (r: seq<Element>)
    ensures |r| == |es|
    ensures forall i :: 0 <= i < |es| ==> r[i] == Bare(es[i])
  {
    CopyAll(StripAll(es), Reread, None)
  }

  // ----- What is left to do afterwards -----

  function OwnPending(root: Element, e: Element, pos: Pos): seq<Pending> {
    if RefPath(root, e.ref) != "" then [Pending(pos, RefPath(root, e.ref), RefExpected(e.ref))] else []
  }

  /** The references of an item and of everything below it, in the order they are met. */
  function PendingAt(root: Element, e: Element, pos: Pos): seq<Pending>
    decreases e, 1
  {
    match e
    case Parameter(_, _, _, _) => OwnPending(root, e, pos)
    case Component(_, _, _, _, _) => PendingBelow(root, e, pos, 0) + OwnPending(root, e, pos)
    case List(_, _, _, _, _, pattern) =>
      (if pattern.Component? then PendingBelow(root, pattern, pos + [Pattern], 0) else [])
      + OwnPending(root, pattern, pos + [Pattern]) + OwnPending(root, e, pos)
  }

  function PendingBelow(root: Element, e: Element, pos: Pos, k: nat): seq<Pending>
    requires e.Component? && k <= |e.items|
    decreases e, 0, |e.items| - k
  {
    if k == |e.items| then []
    else PendingAt(root, e.items[k], pos + [Item(k)]) + PendingBelow(root, e, pos, k + 1)
  }

  // ----- Which schemas can be read back -----

  /** The type of a parameter is written where a container says what it is. */
  predicate Distinguishable(e: Element)
    requires AllSchema(e)
  {
    match e
    case Parameter(_, _, _, info) => TypeId(info.typ.value) != "component" && TypeId(info.typ.value) != "list"
    case Component(_, _, _, _, items) => DistinguishableFrom(items, 0)
    case List(_, _, _, _, _, pattern) => Distinguishable(pattern)
  }

  predicate DistinguishableFrom(es: seq<Element>, k: nat)
    requires k <= |es| && forall i :: 0 <= i < |es| ==> AllSchema(es[i])
    decreases es, |es| - k
  {
    k < |es| ==> Distinguishable(es[k]) && DistinguishableFrom(es, k + 1)
  }

  /** Every parameter has a type that the list the document is read with knows. */
  ghost predicate Typed(e: Element, types: Types) {
    && (e.Parameter? ==> e.info.Schema? && e.info.typ.Some? && Knows(types, StripType(e.info.typ.value)))
    && forall s :: HasStep(e, s) ==> Typed(Sub(e, s), types)
  }

  /** What the tree proofs need of a subtree. */
  ghost predicate Storable(e: Element, types: Types) {
    SchemaTree(e) && Built(e) && Placed(e) && Named(e) && Typed(e, types)
  }

  lemma {:induction false} StorableSub(e: Element, types: Types, s: Step)
    requires Storable(e, types) && HasStep(e, s)
    ensures Storable(Sub(e, s), types)
    ensures Sub(e, s).parent == Path(e) && Sub(e, s).id != "" && '/' !in Sub(e, s).id
  {
  }

  lemma {:induction false} SchemaAll(e: Element)
    requires SchemaTree(e) && Built(e)
    ensures AllSchema(e)
    decreases e
  {
    match e {
      case Parameter(_, _, _, _) =>
      case Component(_, _, _, _, items) =>
        forall i | 0 <= i < |items|
          ensures AllSchema(items[i])
        {
          assert HasStep(e, Item(i)) && Sub(e, Item(i)) == items[i];
          SchemaAll(items[i]);
        }
      case List(_, _, _, _, _, pattern) =>
        assert HasStep(e, Pattern) && Sub(e, Pattern) == pattern;
        SchemaAll(pattern);
    }
  }

  // ----- Reading what was written -----

  /** What reading the node of an item should give. */
  ghost predicate ItemReads(root: Element, h: Element, done: seq<Element>, pos: Pos, x: Element, node: XNode,
                            types: Types)
    requires h.Component? && AllSchema(x)
  {
    LoadChild(WithItems(h, done), pos, node, types) ==
    if Distinguishable(x) then
      Some(Loaded(WithItems(h, done + [Bare(x)]), PendingAt(root, x, pos + [Item(|done|)]), true))
    else None
  }

  /** What reading the content of a component should give, into an empty component `h`. */
  ghost predicate ContentReads(root: Element, h: Element, pos: Pos, x: Element, node: XNode, types: Types)
    requires h.Component? && x.Component? && AllSchema(x)
  {
    LoadXsd(h, pos, node, types) ==
    if Distinguishable(x) then Some(Loaded(WithItems(h, BareAll(x.items)), PendingBelow(root, x, pos, 0), true))
    else None
  }

  /** Whether a container can take the item `x` next. */
  ghost predicate Fits(h: Element, done: seq<Element>, x: Element) {
    h.Component? && x.parent == Path(h) && '/' !in x.id && forall i :: 0 <= i < |done| ==> done[i].id != x.id
  }

  lemma {:induction false} FitsAdd(h: Element, done: seq<Element>, x: Element)
    requires Fits(h, done, x)
    ensures CanAdd(WithItems(h, done), x.id) && Path(WithItems(h, done)) == Path(h)
    ensures WithItems(h, done).items == done
    ensures forall more :: WithItems(WithItems(h, done), more) == WithItems(h, more)
  {
  }

  lemma {:induction false} ParameterNode(root: Element, x: Element)
    requires x.Parameter? && AllSchema(x)
    ensures var node := ToXsd(root, x, x.id, map[]);
      && ReadProps(node) == Some(PropsOf(root, x, x.id, TypeId(x.info.typ.value)))
      && ContentNode(node) == None && PatternNode(node) == None
  {
    var typ := TypeId(x.info.typ.value);
    var p := PropsOf(root, x, x.id, typ);
    var attrs := map["type" := XsType(typ), "minOccurs" := "0"];
    PropsRead(p, x.info.advanced, x.info.readOnly, Some(x.info.unit), attrs, []);
    NoContent(p, x.info.advanced, x.info.readOnly, Some(x.info.unit), attrs);
  }

  lemma {:induction false} StripKnown(x: Element, types: Types)
    requires x.Parameter? && AllSchema(x) && Typed(x, types)
    ensures GetType(types, TypeId(x.info.typ.value)) == Some(StripType(x.info.typ.value))
  {
    assert TypeId(StripType(x.info.typ.value)) == TypeId(x.info.typ.value);
  }

  lemma {:induction false} BareParameter(e: Element, p: Props, x: Element)
    requires !e.Parameter? && x.Parameter? && AllSchema(x) && x.parent == Path(e)
    requires p.id == x.id && p.name == x.info.name && p.description == x.info.description
    ensures NewParameter(e, p, StripType(x.info.typ.value)) == Bare(x)
  {
  }

  lemma {:induction false} ParameterReads(root: Element, h: Element, done: seq<Element>, pos: Pos, x: Element,
                                          node: XNode,
                                          types: Types)
    requires Fits(h, done, x) && x.Parameter? && AllSchema(x) && Typed(x, types)
    requires ReadProps(node) == Some(PropsOf(root, x, x.id, TypeId(x.info.typ.value)))
    requires ContentNode(node) == None && PatternNode(node) == None
    ensures ItemReads(root, h, done, pos, x, node, types)
  {
    var e := WithItems(h, done);
    var p := PropsOf(root, x, x.id, TypeId(x.info.typ.value));
    FitsAdd(h, done, x);
    if Distinguishable(x) {
      StripKnown(x, types);
      ChildParameter(e, pos, node, types, p, StripType(x.info.typ.value));
      BareParameter(e, p, x);
      assert PendingOf(p, pos + [Item(|done|)]) == PendingAt(root, x, pos + [Item(|done|)]);
    } else {
      ChildMisread(e, pos, node, types, p);
    }
  }

  lemma {:induction false} BareComponent(e: Element, p: Props, x: Element)
    requires !e.Parameter? && x.Component? && SchemaTree(x) && x.parent == Path(e)
    requires p.id == x.id && p.name == x.info.name && p.description == x.info.description
    ensures WithItems(NewComponent(e, p), BareAll(x.items)) == Bare(x)
  {
  }

  lemma {:induction false} ComponentNode(root: Element, x: Element)
    requires x.Component? && AllSchema(x)
    ensures ReadProps(ToXsd(root, x, x.id, map[])) == Some(PropsOf(root, x, x.id, "component"))
  {
    PropsRead(PropsOf(root, x, x.id, "component"), x.info.advanced, x.info.readOnly, None, map[],
              [Sequence(AllToXsd(root, x.items))]);
  }

  lemma {:induction false} ComponentReads(root: Element, h: Element, done: seq<Element>, pos: Pos, x: Element,
                                          node: XNode,
                                          types: Types)
    requires Fits(h, done, x) && x.Component? && AllSchema(x) && SchemaTree(x)
    requires ReadProps(node) == Some(PropsOf(root, x, x.id, "component"))
    requires var p := PropsOf(root, x, x.id, "component");
      ContentReads(root, NewComponent(WithItems(h, done), p), pos + [Item(|done|)], x, node, types)
    ensures ItemReads(root, h, done, pos, x, node, types)
  {
    var e := WithItems(h, done);
    var p := PropsOf(root, x, x.id, "component");
    FitsAdd(h, done, x);
    BareComponent(e, p, x);
    ChildComponent(e, pos, node, types, p, LoadXsd(NewComponent(e, p), pos + [Item(|done|)], node, types));
  }

  lemma {:induction false} BareList(e: Element, x: Element)
    requires !e.Parameter? && x.List? && SchemaTree(x) && x.parent == Path(e)
    requires SchemaTree(x.pattern) && x.pattern.Component? && x.info.Schema? && x.pattern.info.Schema?
    requires x.pattern.id == "*" && x.pattern.parent == x.parent + "/" + x.id
    ensures var list := NewList(Path(e), x.id, x.info.name, x.pattern.info.name, x.info.description,
      x.pattern.info.description);
      list.(pattern := WithItems(list.pattern, BareAll(x.pattern.items))) == Bare(x)
  {
    assert BareAll(x.items) == [];
    var pattern := x.pattern;
    assert Bare(pattern) == Component("*", pattern.parent, None, StripInfo(pattern.info), BareAll(pattern.items));
  }

  lemma {:induction false} PatternRead(root: Element, x: Element)
    requires x.List? && AllSchema(x)
    ensures PatternNode(ToXsd(root, x, x.id, map[])) == Some(ToXsd(root, x.pattern, "item", ITEM_ATTRS))
    ensures ReadProps(ToXsd(root, x.pattern, "item", ITEM_ATTRS)) == Some(PropsOf(root, x.pattern, "item", "component"))
    ensures ReadProps(ToXsd(root, x, x.id, map[])) == Some(PropsOf(root, x, x.id, "list"))
  {
    var n := ToXsd(root, x.pattern, "item", ITEM_ATTRS);
    var p, info := PropsOf(root, x, x.id, "list"), x.info;
    OnlyChild(p, info.advanced, info.readOnly, n);
    PropsRead(p, info.advanced, info.readOnly, None, map[], [Sequence([n])]);
    PropsRead(PropsOf(root, x.pattern, "item", "component"), x.pattern.info.advanced, x.pattern.info.readOnly, None,
              ITEM_ATTRS, [Sequence(AllToXsd(root, x.pattern.items))]);
  }

  lemma {:induction false} OnlyChild(p: Props, advanced: bool, readOnly: bool, n: XNode)
    requires n.ns == "xs" && n.name == "element"
    ensures PatternNode(ElementNode(p, advanced, readOnly, None, map[], [Sequence([n])])) == Some(n)
  {
    ContentRead(p, advanced, readOnly, map[], [n]);
    OneMatch([n], 0, "xs", "element");
  }

  lemma {:induction false} ListReads(root: Element, h: Element, done: seq<Element>, pos: Pos, x: Element, node: XNode,
                                     n: XNode,
                                     types: Types)
    requires Fits(h, done, x) && x.List? && AllSchema(x) && SchemaTree(x) && SchemaTree(x.pattern)
    requires x.pattern.id == "*" && x.pattern.parent == x.parent + "/" + x.id
    requires PatternNode(node) == Some(n) && ReadProps(n) == Some(PropsOf(root, x.pattern, "item", "component"))
    requires ReadProps(node) == Some(PropsOf(root, x, x.id, "list"))
    requires var list := NewList(Path(h), x.id, x.info.name, x.pattern.info.name, x.info.description,
      x.pattern.info.description);
      ContentReads(root, list.pattern, pos + [Item(|done|)] + [Pattern], x.pattern, n, types)
    ensures ItemReads(root, h, done, pos, x, node, types)
  {
    var e := WithItems(h, done);
    var p, q := PropsOf(root, x, x.id, "list"), PropsOf(root, x.pattern, "item", "component");
    var list := NewList(Path(e), x.id, x.info.name, x.pattern.info.name, x.info.description,
      x.pattern.info.description);
    FitsAdd(h, done, x);
    BareList(e, x);
    ChildList(e, pos, node, types, p, n, q, LoadXsd(list.pattern, pos + [Item(|done|)] + [Pattern], n, types));
  }

  /** The node of an item is read back as the item, without references. */
  lemma {:induction false} ItemRead(root: Element, h: Element, done: seq<Element>, pos: Pos, x: Element, types: Types)
    requires Fits(h, done, x) && Storable(x, types) && AllSchema(x) && x.id != ""
    ensures ItemReads(root, h, done, pos, x, ToXsd(root, x, x.id, map[]), types)
    decreases x, 3, 0
  {
    var node := ToXsd(root, x, x.id, map[]);
    match x {
      case Parameter(_, _, _, _) =>
        ParameterNode(root, x);
        ParameterReads(root, h, done, pos, x, node, types);
      case Component(_, _, _, info, items) =>
        var f := NewComponent(WithItems(h, done), PropsOf(root, x, x.id, "component"));
        FitsAdd(h, done, x);
        ComponentNode(root, x);
        ComponentRead(root, f, pos + [Item(|done|)], x, x.id, map[], types);
        ComponentReads(root, h, done, pos, x, node, types);
      case List(_, _, _, info, _, pattern) =>
        var list := NewList(Path(h), x.id, info.name, pattern.info.name, info.description, pattern.info.description);
        StorableSub(x, types, Pattern);
        PatternRead(root, x);
        ComponentRead(root, list.pattern, pos + [Item(|done|)] + [Pattern], pattern, "item", ITEM_ATTRS, types);
        ListReads(root, h, done, pos, x, node, ToXsd(root, pattern, "item", ITEM_ATTRS), types);
    }
  }

  /** The content of a component is read back item by item. */
  lemma {:induction false} ComponentRead(root: Element, h: Element, pos: Pos, x: Element, id: string,
                                         attrs: map<string, string>,
                                         types: Types)
    requires h.Component? && h.items == [] && Path(h) == Path(x)
    requires x.Component? && Storable(x, types) && AllSchema(x)
    ensures ContentReads(root, h, pos, x, ToXsd(root, x, id, attrs), types)
    decreases x, 2, 0
  {
    var nodes := AllToXsd(root, x.items);
    RestReads(root, h, pos, x, 0, types);
    assert nodes[0..] == nodes;
    assert WithItems(h, BareAll(x.items)[..0]) == h;
    ComponentLoads(root, h, pos, x, id, attrs, types);
  }

  lemma {:induction false} ComponentLoads(root: Element, h: Element, pos: Pos, x: Element, id: string,
                                          attrs: map<string, string>,
                                          types: Types)
    requires h.Component? && x.Component? && AllSchema(x)
    ensures LoadXsd(h, pos, ToXsd(root, x, id, attrs), types) == LoadChildren(h, pos, AllToXsd(root, x.items), types)
  {
    var nodes := AllToXsd(root, x.items);
    ContentRead(PropsOf(root, x, id, "component"), x.info.advanced, x.info.readOnly, attrs, nodes);
    AllElements(root, x.items);
    LoadXsdIn(h, pos, ToXsd(root, x, id, attrs), XNode("xs", "sequence", map[], nodes, ""), types);
  }

  lemma {:induction false} AllElements(root: Element, es: seq<Element>)
    requires forall i :: 0 <= i < |es| ==> AllSchema(es[i])
    ensures ChildNodes(AllToXsd(root, es), "xs", "element") == AllToXsd(root, es)
  {
    forall i | 0 <= i < |es|
      ensures Matches(AllToXsd(root, es)[i], "xs", "element")
    {
      AllToXsdAt(root, es, i);
      ElementNamed(root, es[i], es[i].id, map[]);
    }
    AllMatch(AllToXsd(root, es), "xs", "element");
  }

  lemma {:induction false} ElementNamed(root: Element, e: Element, id: string, attrs: map<string, string>)
    requires AllSchema(e)
    ensures ToXsd(root, e, id, attrs).ns == "xs" && ToXsd(root, e, id, attrs).name == "element"
  {
  }

  /** What reading the items from the `k`-th on should give, once those before it are read. */
  ghost predicate RestIs(root: Element, h: Element, pos: Pos, d: Element, nodes: seq<XNode>, k: nat, types: Types)
    requires h.Component? && d.Component? && AllSchema(d) && k <= |d.items| == |nodes|
  {
    LoadChildren(WithItems(h, BareAll(d.items)[..k]), pos, nodes[k..], types) ==
    if DistinguishableFrom(d.items, k) then
      Some(Loaded(WithItems(h, BareAll(d.items)), PendingBelow(root, d, pos, k), true))
    else None
  }

  lemma {:induction false} RestEnds(root: Element, h: Element, pos: Pos, d: Element, nodes: seq<XNode>, types: Types)
    requires h.Component? && d.Component? && AllSchema(d) && |d.items| == |nodes|
    ensures RestIs(root, h, pos, d, nodes, |d.items|, types)
  {
    assert nodes[|d.items|..] == [];
    assert BareAll(d.items)[..|d.items|] == BareAll(d.items);
  }

  /** What reading the `k`-th item should do. */
  ghost predicate NextIs(root: Element, h: Element, pos: Pos, d: Element, nodes: seq<XNode>, k: nat, types: Types)
    requires h.Component? && d.Component? && AllSchema(d) && k < |d.items| == |nodes|
  {
    LoadChildren(WithItems(h, BareAll(d.items)[..k]), pos, nodes[k..], types) ==
    if Distinguishable(d.items[k]) then
      After(PendingAt(root, d.items[k], pos + [Item(k)]),
            LoadChildren(WithItems(h, BareAll(d.items)[..k + 1]), pos, nodes[k + 1..], types))
    else None
  }

  lemma {:induction false} NextFrom(root: Element, h: Element, pos: Pos, d: Element, nodes: seq<XNode>, k: nat,
                                    types: Types)
    requires h.Component? && d.Component? && AllSchema(d) && k < |d.items| == |nodes|
    requires ItemReads(root, h, BareAll(d.items)[..k], pos, d.items[k], nodes[k], types)
    ensures NextIs(root, h, pos, d, nodes, k, types)
  {
    var done := BareAll(d.items)[..k];
    BareNext(d.items, k);
    ChildrenNext(WithItems(h, done), pos, nodes, k, types, LoadChild(WithItems(h, done), pos, nodes[k], types));
  }

  lemma {:induction false} BareNext(es: seq<Element>, k: nat)
    requires k < |es|
    ensures BareAll(es)[..k] + [Bare(es[k])] == BareAll(es)[..k + 1]
  {
  }

  lemma {:induction false} RestStep(root: Element, h: Element, pos: Pos, d: Element, nodes: seq<XNode>, k: nat,
                                    types: Types)
    requires h.Component? && d.Component? && AllSchema(d) && k < |d.items| == |nodes|
    requires RestIs(root, h, pos, d, nodes, k + 1, types)
    requires NextIs(root, h, pos, d, nodes, k, types)
    ensures RestIs(root, h, pos, d, nodes, k, types)
  {
  }

  lemma {:induction false} RestReads(root: Element, h: Element, pos: Pos, d: Element, k: nat, types: Types)
    requires h.Component? && Path(h) == Path(d)
    requires d.Component? && Storable(d, types) && AllSchema(d) && k <= |d.items|
    ensures RestIs(root, h, pos, d, AllToXsd(root, d.items), k, types)
    decreases d, 1, |d.items| - k
  {
    var nodes := AllToXsd(root, d.items);
    if k == |d.items| {
      RestEnds(root, h, pos, d, nodes, types);
    } else {
      StorableItem(d, types, k);
      BareFits(h, d, k);
      ItemRead(root, h, BareAll(d.items)[..k], pos, d.items[k], types);
      AllToXsdAt(root, d.items, k);
      NextFrom(root, h, pos, d, nodes, k, types);
      RestReads(root, h, pos, d, k + 1, types);
      RestStep(root, h, pos, d, nodes, k, types);
    }
  }

  lemma {:induction false} StorableItem(d: Element, types: Types, k: nat)
    requires Storable(d, types) && d.Component? && k < |d.items|
    ensures Storable(d.items[k], types) && d.items[k].id != ""
  {
    assert HasStep(d, Item(k)) && Sub(d, Item(k)) == d.items[k];
    StorableSub(d, types, Item(k));
  }

  lemma {:induction false} BareFits(h: Element, d: Element, k: nat)
    requires h.Component? && Path(h) == Path(d) && d.Component? && Built(d) && Placed(d) && k < |d.items|
    ensures Fits(h, BareAll(d.items)[..k], d.items[k])
  {
    assert HasStep(d, Item(k)) && Sub(d, Item(k)) == d.items[k];
    forall i | 0 <= i < k
      ensures BareAll(d.items)[..k][i].id != d.items[k].id
    {
      assert BareAll(d.items)[i].id == d.items[i].id;
    }
  }
}
