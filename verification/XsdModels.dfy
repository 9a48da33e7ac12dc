/** Writing a schema model to an XSD document, and building a schema model from one. */
module XsdModels {
  import opened Wrappers
  import opened Values
  import opened TypesLists
  import opened Elements
  import opened Instances
  import opened Edits
  import opened References
  import opened Xsd
  import opened XsdTrees
  import opened MetaModels
  import opened XsdReferences
  import opened XsdDocuments

  // ----- toXSD -----

  /** A node needs a name and a type that are not empty. For a parameter without one of them the sources
      follow a null pointer. */
  predicate Writable(e: Element, id: string)
    requires AllSchema(e)
    decreases e, 0
  {
    id != "" &&
    match e
    case Parameter(_, _, _, info) => TypeId(info.typ.value) != ""
    case Component(_, _, _, _, items) => AllWritable(items, |items|)
    case List(_, _, _, _, _, pattern) => Writable(pattern, "*")
  }

  /** `elementToXSD`. */
  method ElementToXsd(root: Element, e: Element, id: string) returns (node: Option<XNode>)
    requires AllSchema(e)
    ensures node == if Writable(e, id) then Some(ToXsd(root, e, id, map[])) else None
    decreases e, 1
  {
    if id == "" {
      return None;
    }
    match e {
      case Parameter(_, _, _, info) =>
        var typ := TypeId(info.typ.value);
        if typ == "" {
          return None;
        }
        node := Some(ElementNode(PropsOf(root, e, id, typ), info.advanced, info.readOnly, Some(info.unit),
                                 map["type" := XsType(typ), "minOccurs" := "0"], []));
      case Component(_, _, _, info, items) =>
        var children := AddXsdChild(root, items);
        if children.None? {
          return None;
        }
        node := Some(ElementNode(PropsOf(root, e, id, "component"), info.advanced, info.readOnly, None, map[],
                                 [Sequence(children.value)]));
      case List(_, _, _, info, _, pattern) =>
        var p := ElementToXsd(root, pattern, "*");
        if p.None? {
          return None;
        }
        var item := p.value.(attrs := p.value.attrs["name" := "item"]["minOccurs" := "0"]["maxOccurs" := "unbounded"]);
        PatternRenamed(root, pattern, item);
        node := Some(ElementNode(PropsOf(root, e, id, "list"), info.advanced, info.readOnly, None, map[],
          [Sequence([item])]));
    }
  }

  lemma {:induction false} PatternRenamed(root: Element, e: Element, item: XNode)
    requires e.Component? && AllSchema(e)
    requires item == ToXsd(root, e, "*", map[]).(attrs :=
      ToXsd(root, e, "*", map[]).attrs["name" := "item"]["minOccurs" := "0"]["maxOccurs" := "unbounded"])
    ensures item == ToXsd(root, e, "item", ITEM_ATTRS)
  {
    assert item.attrs == ITEM_ATTRS["name" := "item"];
  }

  /** `addXSDChild`: one node that cannot be made spoils them all. */
  method AddXsdChild(root: Element, items: seq<Element>) returns (nodes: Option<seq<XNode>>)
    requires forall i :: 0 <= i < |items| ==> AllSchema(items[i])
    ensures nodes == if AllWritable(items, |items|) then Some(AllToXsd(root, items)) else None
    decreases items, 2
  {
    var made: seq<XNode> := [];
    for k := 0 to |items|
      invariant AllWritable(items, k)
      invariant WrittenTo(root, items, k, made)
    {
      var node := ElementToXsd(root, items[k], items[k].id);
      if node.None? {
        return None;
      }
      WrittenNext(root, items, k, made, node.value);
      made := made + [node.value];
    }
    assert AllToXsd(root, items)[..|items|] == AllToXsd(root, items);
    nodes := Some(made);
  }

  /** The nodes of the first `k` items. */
  ghost predicate WrittenTo(root: Element, items: seq<Element>, k: nat, made: seq<XNode>)
    requires k <= |items| && forall i :: 0 <= i < |items| ==> AllSchema(items[i])
  {
    made == AllToXsd(root, items)[..k]
  }

  lemma {:induction false} WrittenNext(root: Element, items: seq<Element>, k: nat, made: seq<XNode>, node: XNode)
    requires k < |items| && forall i :: 0 <= i < |items| ==> AllSchema(items[i])
    requires WrittenTo(root, items, k, made) && node == ToXsd(root, items[k], items[k].id, map[])
    ensures WrittenTo(root, items, k + 1, made + [node])
  {
    AllToXsdAt(root, items, k);
  }

  predicate AllWritable(items: seq<Element>, n: nat)
    requires n <= |items| && forall i :: 0 <= i < |items| ==> AllSchema(items[i])
    decreases items, 0
  {
    forall i :: 0 <= i < n ==> Writable(items[i], items[i].id)
  }

  /** No id of an item, and no type id of a parameter, is empty here. */
  ghost predicate NoEmptyName(e: Element, p: Pos)
    requires In(e, p)
  {
    && (p != [] && p[|p| - 1] != Pattern ==> At(e, p).id != "")
    && (At(e, p).Parameter? && At(e, p).info.Schema? && At(e, p).info.typ.Some? ==>
          TypeId(At(e, p).info.typ.value) != "")
  }

  /** A node is made exactly when there is no empty name, at any depth. */
  lemma {:induction false} WritableIff(e: Element, id: string)
    requires AllSchema(e) && SchemaTree(e)
    ensures Writable(e, id) <==> id != "" && forall p :: In(e, p) ==> NoEmptyName(e, p)
    decreases e
  {
    if Writable(e, id) {
      forall p | In(e, p)
        ensures NoEmptyName(e, p)
      {
        WritableAt(e, id, p);
      }
    }
    if id != "" && forall p :: In(e, p) ==> NoEmptyName(e, p) {
      assert In(e, []) && At(e, []) == e && NoEmptyName(e, []);
      forall s | HasStep(e, s)
        ensures Writable(Sub(e, s), if s == Pattern then "*" else Sub(e, s).id)
      {
        NamesBelow(e, s);
        WritableIff(Sub(e, s), if s == Pattern then "*" else Sub(e, s).id);
      }
      if e.Component? {
        forall i | 0 <= i < |e.items|
          ensures Writable(e.items[i], e.items[i].id)
        {
          assert HasStep(e, Item(i)) && Sub(e, Item(i)) == e.items[i];
        }
      } else if e.List? {
        assert HasStep(e, Pattern) && Sub(e, Pattern) == e.pattern;
      }
    }
  }

  lemma {:induction false} NamesBelow(e: Element, s: Step)
    requires AllSchema(e) && SchemaTree(e) && HasStep(e, s) && forall p :: In(e, p) ==> NoEmptyName(e, p)
    ensures AllSchema(Sub(e, s)) && SchemaTree(Sub(e, s))
    ensures s != Pattern ==> Sub(e, s).id != ""
    ensures forall p :: In(Sub(e, s), p) ==> NoEmptyName(Sub(e, s), p)
  {
    InSnoc(e, [], s);
    assert [] + [s] == [s];
    assert In(e, [s]) && At(e, [s]) == Sub(e, s) && NoEmptyName(e, [s]);
    forall p | In(Sub(e, s), p)
      ensures NoEmptyName(Sub(e, s), p)
    {
      var q := [s] + p;
      assert q[1..] == p;
      assert In(e, q) && At(e, q) == At(Sub(e, s), p) && NoEmptyName(e, q);
    }
  }

  lemma {:induction false} WritableAt(e: Element, id: string, p: Pos)
    requires AllSchema(e) && SchemaTree(e) && Writable(e, id) && In(e, p)
    ensures NoEmptyName(e, p)
    decreases |p|
  {
    if p != [] {
      var c := Sub(e, p[0]);
      if e.Component? {
        assert p[0].Item? && c == e.items[p[0].i];
        assert AllWritable(e.items, |e.items|) && Writable(c, c.id);
        WritableAt(c, c.id, p[1..]);
      } else {
        assert p[0] == Pattern;
        WritableAt(c, "*", p[1..]);
      }
      if p[1..] == [] {
        assert p == [p[0]];
      } else {
        assert p[1..][|p| - 2] == p[|p| - 1];
      }
    }
  }

  /** `enumerationsToXSD`. */
  method EnumerationsToXsd(types: Types) returns (nodes: seq<XNode>)
    ensures nodes == AllEnumNodes(types)
  {
    var ids := Listing(types.enums.Keys);
    ListingIs(types.enums.Keys);
    nodes := [];
    for k := 0 to |ids|
      invariant nodes + EnumNodes(types, ids[k..]) == EnumNodes(types, ids)
    {
      EnumNodesNext(types, ids, k, nodes);
      nodes := nodes + [EnumNode(ids[k], types.enums[ids[k]])];
    }
  }

  lemma {:induction false} EnumNodesNext(types: Types, ids: seq<string>, k: nat, nodes: seq<XNode>)
    requires k < |ids| && forall id :: id in ids ==> id in types.enums
    ensures ids[k] in types.enums
    ensures nodes + EnumNodes(types, ids[k..]) == nodes + [EnumNode(ids[k], types.enums[ids[k]])]
      + EnumNodes(types, ids[k + 1..])
  {
    assert ids[k] in ids;
    assert ids[k..][0] == ids[k] && ids[k..][1..] == ids[k + 1..];
  }

  /** `toXSD`. */
  method ToXsdDocument(m: MetaModel) returns (doc: Option<XNode>)
    requires m.Valid()
    ensures AllSchema(m.root)
    ensures doc == if Writable(m.root, "root") then Some(DocumentOf(m.version, m.types, m.root)) else None
  {
    SchemaAll(m.root);
    var enums := EnumerationsToXsd(m.types);
    var root := ElementToXsd(m.root, m.root, "root");
    if root.None? {
      return None;
    }
    doc := Some(SchemaDocument(m.version, root.value, enums));
  }

  // ----- fromXSD -----

  /** The element nodes of the document have names that can be looked up. */
  ghost predicate ProperNames(n: XNode) {
    && (n.name == "element" ==> Attribute(n, "name") != "" && Attribute(n, "name") != "*")
    && forall i :: 0 <= i < |n.children| ==> ProperNames(n.children[i])
  }

  lemma {:induction false} ProperChild(n: XNode, c: XNode)
    requires ProperNames(n) && c in n.children
    ensures ProperNames(c)
  {
  }

  lemma {:induction false} ProperContent(n: XNode)
    requires ProperNames(n)
    ensures ContentNode(n).Some? ==> ProperNames(ContentNode(n).value)
    ensures PatternNode(n).Some? ==> ProperNames(PatternNode(n).value) && PatternNode(n).value.name == "element"
  {
    if ContentNode(n).Some? {
      var c := UniqueChild(n, "xs", "complexType").value;
      ProperChild(n, c);
      ProperChild(c, ContentNode(n).value);
      if PatternNode(n).Some? {
        ProperChild(ContentNode(n).value, PatternNode(n).value);
        UniqueMatches(ContentNode(n).value, "xs", "element");
      }
    }
  }

  lemma {:induction false} UniqueMatches(n: XNode, ns: string, name: string)
    requires UniqueChild(n, ns, name).Some?
    ensures Matches(UniqueChild(n, ns, name).value, ns, name)
  {
    ChildNodesAre(n.children, ns, name);
    assert UniqueChild(n, ns, name).value in ChildNodes(n.children, ns, name);
  }

  lemma {:induction false} AllAreElements(nodes: seq<XNode>)
    requires |ChildNodes(nodes, "xs", "element")| == |nodes|
    ensures forall i :: 0 <= i < |nodes| ==> nodes[i].name == "element"
  {
    if nodes != [] {
      ChildNodesAre(nodes[1..], "xs", "element");
      AllAreElements(nodes[1..]);
    }
  }

  lemma {:induction false} KnowsGot(types: Types, id: string)
    requires GetType(types, id).Some?
    ensures Knows(types, GetType(types, id).value)
  {
  }

  lemma {:induction false} AfterAfter(p: seq<Pending>, q: seq<Pending>, r: Option<Loaded>)
    ensures After(p, After(q, r)) == After(p + q, r)
  {
    if r.Some? {
      assert p + (q + r.value.pending) == p + q + r.value.pending;
    }
  }

  /** What remains to be read when `pending` was met already; `last` tells whether the last child is there. */
  function Remaining(e: Element, pos: Pos, nodes: seq<XNode>, k: nat, types: Types, pending: seq<Pending>, last: bool)
    : Option<Loaded>
    requires e.Component? && k <= |nodes|
  {
    if k == |nodes| && !last then None else After(pending, LoadChildren(e, pos, nodes[k..], types))
  }

  lemma {:induction false} RemainingStarts(e: Element, pos: Pos, nodes: seq<XNode>, types: Types)
    requires e.Component?
    ensures Remaining(e, pos, nodes, 0, types, [], true) == LoadChildren(e, pos, nodes, types)
  {
    assert nodes[0..] == nodes;
    var r := LoadChildren(e, pos, nodes, types);
    if r.Some? {
      assert [] + r.value.pending == r.value.pending;
    }
  }

  lemma {:induction false} RemainingNext(e: Element, pos: Pos, nodes: seq<XNode>, k: nat, types: Types,
                                         pending: seq<Pending>,
                                         first: Option<Loaded>)
    requires e.Component? && k < |nodes| && first == LoadChild(e, pos, nodes[k], types)
    ensures Remaining(e, pos, nodes, k, types, pending, true) ==
      if first.None? then None
      else Remaining(first.value.e, pos, nodes, k + 1, types, pending + first.value.pending, first.value.present)
    ensures Remaining(e, pos, nodes, k, types, pending, false) == Remaining(e, pos, nodes, k, types, pending, true)
  {
    assert nodes[k..][0] == nodes[k] && nodes[k..][1..] == nodes[k + 1..];
    if first.Some? {
      AfterAfter(pending, first.value.pending, LoadChildren(first.value.e, pos, nodes[k + 1..], types));
    }
  }

  lemma {:induction false} RemainingEnds(e: Element, pos: Pos, nodes: seq<XNode>, types: Types, pending: seq<Pending>,
                                         last: bool)
    requires e.Component?
    ensures Remaining(e, pos, nodes, |nodes|, types, pending, last) ==
      if last then Some(Loaded(e, pending, true)) else None
  {
    assert nodes[|nodes|..] == [] && pending + [] == pending;
  }

  /** The model after the component at `pos` became `e`. */
  ghost predicate Became(m: MetaModel, was: Element, pos: Pos, e: Element)
    requires In(was, pos)
    reads m
  {
    m.root == Replace(was, pos, e)
  }

  /** What reading a child did to the model is what it gives for the tree. */
  ghost predicate Reads(m: MetaModel, was: Element, pos: Pos, l: Option<Loaded>, r: Option<(seq<Pending>, bool)>)
    requires In(was, pos)
    reads m
  {
    && (r.Some? <==> l.Some?)
    && (r.Some? ==> r.value == (l.value.pending, l.value.present) && Became(m, was, pos, l.value.e))
  }

  /** `loadComponentFromXSD`. */
  method LoadComponentFromXsd(m: MetaModel, pos: Pos, node: XNode) returns (r: Option<seq<Pending>>)
    requires m.Valid() && Named(m.root) && In(m.root, pos) && At(m.root, pos).Component? && ProperNames(node)
    modifies m`root
    ensures m.Valid() && Named(m.root) && (old(Regular(m.root, m.types)) ==> Regular(m.root, m.types))
    ensures var l := old(LoadXsd(At(m.root, pos), pos, node, m.types));
      && (r.Some? <==> l.Some?)
      && (r.Some? ==> r.value == l.value.pending && Became(m, old(m.root), pos, l.value.e))
    decreases node, 0
  {
    var content := ContentNode(node);
    if content.None? {
      return None;
    }
    var nodes := content.value.children;
    if |ChildNodes(nodes, "xs", "element")| != |nodes| {
      return None;
    }
    ProperContent(node);
    AllAreElements(nodes);
    r := LoadChildrenFromXsd(m, pos, nodes);
  }

  method LoadChildrenFromXsd(m: MetaModel, pos: Pos, nodes: seq<XNode>) returns (r: Option<seq<Pending>>)
    requires m.Valid() && Named(m.root) && In(m.root, pos) && At(m.root, pos).Component?
    requires forall i :: 0 <= i < |nodes| ==> ProperNames(nodes[i]) && nodes[i].name == "element"
    modifies m`root
    ensures m.Valid() && Named(m.root) && (old(Regular(m.root, m.types)) ==> Regular(m.root, m.types))
    ensures var l := old(LoadChildren(At(m.root, pos), pos, nodes, m.types));
      && (r.Some? <==> l.Some?)
      && (r.Some? ==> r.value == l.value.pending && Became(m, old(m.root), pos, l.value.e))
    decreases nodes, 3
  {
    ghost var was, e := m.root, At(m.root, pos);
    var pending: seq<Pending>, last := [], true;
    RemainingStarts(e, pos, nodes, m.types);
    ReplaceSelf(m.root, pos);
    for k := 0 to |nodes|
      invariant m.Valid() && Named(m.root) && (old(Regular(m.root, m.types)) ==> Regular(m.root, m.types))
      invariant In(m.root, pos) && At(m.root, pos).Component? && Became(m, was, pos, At(m.root, pos))
      invariant Remaining(At(m.root, pos), pos, nodes, k, m.types, pending, last) ==
        LoadChildren(e, pos, nodes, m.types)
    {
      ghost var before := At(m.root, pos);
      ghost var first := LoadChild(before, pos, nodes[k], m.types);
      RemainingNext(before, pos, nodes, k, m.types, pending, first);
      var next := LoadChildFromXsd(m, pos, nodes[k]);
      if next.None? {
        return None;
      }
      ReplaceTwice(was, pos, before, first.value.e);
      ReplaceAt(was, pos, first.value.e);
      pending, last := pending + next.value.0, next.value.1;
    }
    RemainingEnds(At(m.root, pos), pos, nodes, m.types, pending, last);
    r := if last then Some(pending) else None;
  }

  /** One child: a component, a list with its pattern, or a parameter. */
  method LoadChildFromXsd(m: MetaModel, pos: Pos, node: XNode) returns (r: Option<(seq<Pending>, bool)>)
    requires m.Valid() && Named(m.root) && In(m.root, pos) && At(m.root, pos).Component?
    requires ProperNames(node) && node.name == "element"
    modifies m`root
    ensures m.Valid() && Named(m.root) && (old(Regular(m.root, m.types)) ==> Regular(m.root, m.types))
    ensures Reads(m, old(m.root), pos, old(LoadChild(At(m.root, pos), pos, node, m.types)), r)
    decreases node, 2
  {
    var props := ReadProps(node);
    if props.None? {
      return None;
    }
    var p := props.value;
    if p.typ == "component" {
      r := LoadComponentChild(m, pos, node, p);
    } else if p.typ == "list" {
      r := LoadListChild(m, pos, node, p);
    } else {
      r := LoadParameterChild(m, pos, node, p);
    }
  }

  method LoadParameterChild(m: MetaModel, pos: Pos, node: XNode, p: Props) returns (r: Option<(seq<Pending>, bool)>)
    requires m.Valid() && Named(m.root) && In(m.root, pos) && At(m.root, pos).Component?
    requires p.id != "" && p.id != "*"
    modifies m`root
    ensures m.Valid() && Named(m.root) && (old(Regular(m.root, m.types)) ==> Regular(m.root, m.types))
    ensures Reads(m, old(m.root), pos,
                  old(LoadParameter(At(m.root, pos), pos + [Item(|At(m.root, pos).items|)], node, m.types, p)), r)
  {
    var at := pos + [Item(|At(m.root, pos).items|)];
    var typ := GetType(m.types, p.typ);
    if typ.None? {
      return None;
    }
    KnowsGot(m.types, p.typ);
    ReplaceSelf(m.root, pos);
    var ok := m.AddParameter(pos, p.id, p.name, typ.value, p.description);
    if ok {
      return Some((PendingOf(p, at), true));
    }
    if HasUnit(node) || p.reference != "" {
      return None;
    }
    return Some(([], false));
  }

  method LoadComponentChild(m: MetaModel, pos: Pos, node: XNode, p: Props) returns (r: Option<(seq<Pending>, bool)>)
    requires m.Valid() && Named(m.root) && In(m.root, pos) && At(m.root, pos).Component?
    requires ProperNames(node) && p.id != "" && p.id != "*"
    modifies m`root
    ensures m.Valid() && Named(m.root) && (old(Regular(m.root, m.types)) ==> Regular(m.root, m.types))
    ensures Reads(m, old(m.root), pos,
                  old(LoadComponent(At(m.root, pos), pos + [Item(|At(m.root, pos).items|)], node, m.types, p)), r)
    decreases node, 1
  {
    ghost var was, e := m.root, At(m.root, pos);
    var at := pos + [Item(|At(m.root, pos).items|)];
    var ok := m.AddComponent(pos, p.id, p.name, p.description);
    if !ok {
      return None;
    }
    ghost var x := NewComponent(e, p);
    AppendThen(was, pos, x, x);
    var c := LoadComponentFromXsd(m, at, node);
    if c.None? {
      return None;
    }
    AppendThen(was, pos, x, LoadXsd(x, at, node, m.types).value.e);
    r := Some((c.value + PendingOf(p, at), true));
  }

  method LoadListChild(m: MetaModel, pos: Pos, node: XNode, p: Props) returns (r: Option<(seq<Pending>, bool)>)
    requires m.Valid() && Named(m.root) && In(m.root, pos) && At(m.root, pos).Component?
    requires ProperNames(node) && p.id != "" && p.id != "*"
    modifies m`root
    ensures m.Valid() && Named(m.root) && (old(Regular(m.root, m.types)) ==> Regular(m.root, m.types))
    ensures Reads(m, old(m.root), pos,
                  old(LoadList(At(m.root, pos), pos + [Item(|At(m.root, pos).items|)], node, m.types, p)), r)
    decreases node, 1
  {
    var pattern := PatternNode(node);
    if pattern.None? {
      return None;
    }
    var props := ReadProps(pattern.value);
    if props.None? {
      return None;
    }
    ProperContent(node);
    r := LoadNewList(m, pos, p, pattern.value, props.value);
  }

  method LoadNewList(m: MetaModel, pos: Pos, p: Props, pattern: XNode, q: Props)
    returns (r: Option<(seq<Pending>, bool)>)
    requires m.Valid() && Named(m.root) && In(m.root, pos) && At(m.root, pos).Component?
    requires ProperNames(pattern) && p.id != "" && p.id != "*"
    modifies m`root
    ensures m.Valid() && Named(m.root) && (old(Regular(m.root, m.types)) ==> Regular(m.root, m.types))
    ensures var e := old(At(m.root, pos));
      Reads(m, old(m.root), pos,
            if CanAdd(e, p.id) then LoadPattern(e, pos + [Item(|e.items|)], pattern, old(m.types), p, q) else None, r)
    decreases pattern, 2
  {
    ghost var was, e := m.root, At(m.root, pos);
    var at := pos + [Item(|At(m.root, pos).items|)];
    var ok := m.AddList(pos, p.id, p.name, q.name, p.description, q.description);
    if !ok {
      return None;
    }
    r := LoadListPattern(m, was, pos, at, p, pattern, q);
  }

  /** The rest of the list case: the list was added to the tree `was`, its pattern is still empty. */
  method LoadListPattern(m: MetaModel, ghost was: Element, ghost pos: Pos, at: Pos, p: Props, pattern: XNode, q: Props)
    returns (r: Option<(seq<Pending>, bool)>)
    requires In(was, pos) && At(was, pos).Component? && at == pos + [Item(|At(was, pos).items|)]
    requires ProperNames(pattern)
    requires m.Valid() && Named(m.root)
    requires m.root == Append(was, pos, NewList(Path(At(was, pos)), p.id, p.name, q.name, p.description, q.description))
    modifies m`root
    ensures m.Valid() && Named(m.root) && (old(Regular(m.root, m.types)) ==> Regular(m.root, m.types))
    ensures Reads(m, was, pos, LoadPattern(At(was, pos), at, pattern, m.types, p, q), r)
    decreases pattern, 1
  {
    ghost var e := At(was, pos);
    ghost var list := NewList(Path(e), p.id, p.name, q.name, p.description, q.description);
    ghost var l := LoadXsd(list.pattern, at + [Pattern], pattern, m.types);
    AppendThenPattern(was, pos, list, list.pattern);
    var c := LoadComponentFromXsd(m, at + [Pattern], pattern);
    if c.None? {
      return None;
    }
    AppendThenPattern(was, pos, list, l.value.e);
    r := Some((c.value + PendingOf(q, at + [Pattern]) + PendingOf(p, at), true));
  }

  lemma {:induction false} ApplyNext(root: Element, model: nat, xs: seq<Pending>, k: nat)
    requires k < |xs|
    ensures ApplyAll(root, model, xs[k..]) ==
      if ApplyOne(root, model, xs[k]).None? then None
      else ApplyAll(ApplyOne(root, model, xs[k]).value, model, xs[k + 1..])
  {
    assert xs[k..][0] == xs[k] && xs[k..][1..] == xs[k + 1..];
  }

  /** One round of the last loop of `loadRootFromXSD`. */
  method ApplyReference(m: MetaModel, x: Pending) returns (ok: bool)
    requires m.Valid() && Named(m.root)
    modifies m`root
    ensures m.Valid() && Named(m.root) && (old(Regular(m.root, m.types)) ==> Regular(m.root, m.types))
    ensures var next := ApplyOne(old(m.root), m.model, x);
      (ok <==> next.Some?) && (ok ==> m.root == next.value)
  {
    var target := GetItemFromRoot(m.root, x.path, SchemaMode);
    if target.None? || !At(m.root, target.value).Parameter? {
      return false;
    }
    SchemaBelow(m.root, target.value);
    // the element is one that was just read
    if !In(m.root, x.pos) {
      return false;
    }
    var was := m.root;
    var _ := m.SetReference(x.pos, target.value);
    if x.expected == "" {
      return true;
    }
    SetRefFaces(was, x.pos,
      Some(Reference(Target(m.model, target.value), Data(At(was, target.value).info.typ.value, None))), x.pos);
    if At(m.root, x.pos).ref.None? {
      return false;
    }
    ok := m.SetExpectedText(x.pos, x.expected);
  }

  /** `loadRootFromXSD`. */
  method LoadRootFromXsd(m: MetaModel, node: XNode) returns (ok: bool)
    requires m.Valid() && Named(m.root) && Regular(m.root, m.types) && ProperNames(node)
    requires m.root == FreshRoot("Root component")
    modifies m`root
    ensures m.Valid() && Named(m.root) && Regular(m.root, m.types)
    ensures var root := ReadRoot(m.types, node, m.model);
      (ok <==> root.Some?) && (ok ==> m.root == root.value)
  {
    var props := ReadProps(node);
    if props.None? {
      return false;
    }
    var p := props.value;
    if p.typ != "component" || p.id != "root" || p.name != "Root" {
      return false;
    }
    ok := BuildRootFromXsd(m, node, p);
  }

  method BuildRootFromXsd(m: MetaModel, node: XNode, p: Props) returns (ok: bool)
    requires m.Valid() && Named(m.root) && Regular(m.root, m.types) && ProperNames(node)
    requires m.root == FreshRoot("Root component")
    modifies m`root
    ensures m.Valid() && Named(m.root) && Regular(m.root, m.types)
    ensures var root := BuildRoot(m.types, node, m.model, p);
      (ok <==> root.Some?) && (ok ==> m.root == root.value)
  {
    m.DescribeRoot(p.description, false);
    var pending := LoadComponentFromXsd(m, [], node);
    if pending.None? {
      return false;
    }
    ok := ApplyReferences(m, PendingOf(p, []) + pending.value);
  }

  method ApplyReferences(m: MetaModel, xs: seq<Pending>) returns (ok: bool)
    requires m.Valid() && Named(m.root) && Regular(m.root, m.types)
    modifies m`root
    ensures m.Valid() && Named(m.root) && Regular(m.root, m.types)
    ensures var root := ApplyAll(old(m.root), m.model, xs);
      (ok <==> root.Some?) && (ok ==> m.root == root.value)
  {
    assert xs[0..] == xs;
    for k := 0 to |xs|
      invariant m.Valid() && Named(m.root) && Regular(m.root, m.types)
      invariant ApplyAll(m.root, m.model, xs[k..]) == ApplyAll(old(m.root), m.model, xs)
    {
      ApplyNext(m.root, m.model, xs, k);
      ok := ApplyReference(m, xs[k]);
      if !ok {
        return;
      }
    }
    assert xs[|xs|..] == [];
    ok := true;
  }

  method LoadEnums(m: MetaModel, nodes: seq<XNode>) returns (ok: bool)
    requires m.Valid() && Named(m.root) && Regular(m.root, m.types)
    modifies m`types
    ensures m.Valid() && Regular(m.root, m.types)
    ensures var types := ReadEnums(old(m.types), nodes);
      (ok <==> types.Some?) && (ok ==> m.types == types.value)
  {
    assert nodes[0..] == nodes;
    for k := 0 to |nodes|
      invariant m.Valid() && Regular(m.root, m.types)
      invariant ReadEnums(m.types, nodes[k..]) == ReadEnums(old(m.types), nodes)
    {
      assert nodes[k..][0] == nodes[k] && nodes[k..][1..] == nodes[k + 1..];
      var e := ReadEnum(nodes[k]);
      if e.None? {
        return false;
      }
      ok := m.AddEnum(e.value.0, e.value.1.name, e.value.1.values, e.value.1.description);
      if !ok {
        return;
      }
    }
    assert nodes[|nodes|..] == [];
    ok := true;
  }

  /** `fromXSD`. */
  method FromXsd(schema: XNode, into: nat) returns (m: MetaModel?)
    requires ProperNames(schema)
    ensures m != null <==> ModelOf(schema, into).Some?
    ensures m != null ==> fresh(m) && m.Valid() && Named(m.root) && Regular(m.root, m.types) && m.model == into
    ensures m != null ==> ModelOf(schema, into).value == ReadSchema(m.version, m.types, m.root)
  {
    var parts := ReadDocument(schema);
    if parts.None? {
      return null;
    }
    ProperRoot(schema);
    m := BuildFromXsd(parts.value, into);
  }

  method BuildFromXsd(parts: Parts, into: nat) returns (m: MetaModel?)
    requires ProperNames(parts.root)
    ensures m != null <==> BuildModel(parts, into).Some?
    ensures m != null ==> fresh(m) && m.Valid() && Named(m.root) && Regular(m.root, m.types) && m.model == into
    ensures m != null ==> BuildModel(parts, into).value == ReadSchema(m.version, m.types, m.root)
  {
    m := new MetaModel(parts.version, into, Types(map[]));
    var ok := LoadParts(m, parts);
    if !ok {
      return null;
    }
  }

  method LoadParts(m: MetaModel, parts: Parts) returns (ok: bool)
    requires m.Valid() && Named(m.root) && Regular(m.root, m.types) && ProperNames(parts.root)
    requires m.version == parts.version && m.types == Types(map[]) && m.root == FreshRoot("Root component")
    modifies m`root, m`types
    ensures m.Valid() && Named(m.root) && Regular(m.root, m.types)
    ensures ok <==> BuildModel(parts, m.model).Some?
    ensures ok ==> BuildModel(parts, m.model).value == ReadSchema(m.version, m.types, m.root)
  {
    ok := LoadEnums(m, parts.enums);
    if ok {
      ok := LoadRootFromXsd(m, parts.root);
    }
  }

  lemma {:induction false} ProperRoot(schema: XNode)
    requires ProperNames(schema) && ReadDocument(schema).Some?
    ensures ProperNames(ReadDocument(schema).value.root)
  {
    var m := UniqueChild(schema, "xs", "element").value;
    ProperChild(schema, m);
    var c := UniqueChild(m, "xs", "complexType").value;
    ProperChild(m, c);
    var s := UniqueChild(c, "xs", "sequence").value;
    ProperChild(c, s);
    ProperChild(s, RootNodeOf(m).value);
  }

  // ----- Writing and reading again -----

  lemma {:induction false} DocumentationProper(p: Props, advanced: bool, readOnly: bool, unit: Option<string>)
    ensures ProperNames(Documentation(p, advanced, readOnly, unit))
  {
  }

  lemma {:induction false} ElementProper(p: Props, advanced: bool, readOnly: bool, unit: Option<string>,
                                         attrs: map<string, string>,
                                         content: seq<XNode>)
    requires p.id != "" && p.id != "*" && forall i :: 0 <= i < |content| ==> ProperNames(content[i])
    ensures ProperNames(ElementNode(p, advanced, readOnly, unit, attrs, content))
  {
    var node := ElementNode(p, advanced, readOnly, unit, attrs, content);
    DocumentationProper(p, advanced, readOnly, unit);
    var a := node.children[0];
    assert ProperNames(a);
    forall i | 0 <= i < |node.children|
      ensures ProperNames(node.children[i])
    {
      if i > 0 {
        assert node.children[i] == content[i - 1];
      }
    }
  }

  lemma {:induction false} SequenceProper(nodes: seq<XNode>)
    requires forall i :: 0 <= i < |nodes| ==> ProperNames(nodes[i])
    ensures ProperNames(Sequence(nodes))
  {
    assert ProperNames(XNode("xs", "sequence", map[], nodes, ""));
  }

  lemma {:induction false} WrittenProper(root: Element, e: Element, id: string, attrs: map<string, string>)
    requires AllSchema(e) && Named(e) && id != "" && id != "*"
    ensures ProperNames(ToXsd(root, e, id, attrs))
    decreases e
  {
    match e {
      case Parameter(_, _, _, info) =>
        var typ := TypeId(info.typ.value);
        ElementProper(PropsOf(root, e, id, typ), info.advanced, info.readOnly, Some(info.unit),
                      map["type" := XsType(typ), "minOccurs" := "0"], []);
      case Component(_, _, _, info, items) =>
        var nodes := AllToXsd(root, items);
        forall i | 0 <= i < |nodes|
          ensures ProperNames(nodes[i])
        {
          assert HasStep(e, Item(i)) && Sub(e, Item(i)) == items[i];
          AllToXsdAt(root, items, i);
          WrittenProper(root, items[i], items[i].id, map[]);
        }
        SequenceProper(nodes);
        ElementProper(PropsOf(root, e, id, "component"), info.advanced, info.readOnly, None, attrs, [Sequence(nodes)]);
      case List(_, _, _, info, _, pattern) =>
        assert HasStep(e, Pattern) && Sub(e, Pattern) == pattern;
        var nodes := [ToXsd(root, pattern, "item", ITEM_ATTRS)];
        WrittenProper(root, pattern, "item", ITEM_ATTRS);
        SequenceProper(nodes);
        ElementProper(PropsOf(root, e, id, "list"), info.advanced, info.readOnly, None, map[], [Sequence(nodes)]);
    }
  }

  lemma {:induction false} EnumProper(id: string, e: Enum)
    ensures ProperNames(EnumNode(id, e))
  {
    var node := EnumNode(id, e);
    var a, r := node.children[0], node.children[1];
    assert ProperNames(a.children[0]);
    assert forall i :: 0 <= i < |r.children| ==> ProperNames(r.children[i]);
  }

  lemma {:induction false} EnumsProper(types: Types, ids: seq<string>)
    requires forall id :: id in ids ==> id in types.enums
    ensures forall i :: 0 <= i < |EnumNodes(types, ids)| ==> ProperNames(EnumNodes(types, ids)[i])
  {
    if ids != [] {
      EnumProper(ids[0], types.enums[ids[0]]);
      EnumsProper(types, ids[1..]);
    }
  }

  lemma {:induction false} DocumentProper(version: string, root: XNode, enums: seq<XNode>)
    requires ProperNames(root) && forall i :: 0 <= i < |enums| ==> ProperNames(enums[i])
    ensures ProperNames(SchemaDocument(version, root, enums))
  {
    var schema := SchemaDocument(version, root, enums);
    var m := schema.children[0];
    var a, c := m.children[0], m.children[1];
    assert ProperNames(a.children[0]);
    assert ProperNames(a);
    assert ProperNames(c.children[0]) && ProperNames(c.children[1]);
    assert ProperNames(c);
    assert ProperNames(m);
    forall i | 0 <= i < |schema.children|
      ensures ProperNames(schema.children[i])
    {
      if i > 0 {
        assert schema.children[i] == enums[i - 1];
      }
    }
  }

  /** Saving a schema and loading it again. For every schema that the operations made it works exactly
      when the nodes can be written and read back; the new schema has the same version, elements, names,
      descriptions, types and values of its enumerations, and its references are re-bound by path. What
      is lost are units, the advanced and read-only marks, and empty strings among expected values and
      values of enumerations. */
  method SaveAndLoadSchema(m: MetaModel, into: nat) returns (again: MetaModel?)
    requires m.Valid() && Named(m.root) && Regular(m.root, m.types)
    ensures AllSchema(m.root)
    ensures again != null <==> Writable(m.root, "root") && Restorable(m.root, m.types)
    ensures again != null ==> fresh(again) && again.Valid() && Named(again.root) && Regular(again.root, again.types)
    ensures again != null ==> again.version == m.version && again.types == StripTypes(m.types)
    ensures again != null ==> again.model == into && again.root == CopyTree(Strip(m.root), Reread, Some(into))
  {
    var doc := ToXsdDocument(m);
    if doc.None? {
      return null;
    }
    DocumentRoundTrip(m.version, m.types, m.root, m.model, into);
    WrittenProper(m.root, m.root, "root", map[]);
    ListingIs(m.types.enums.Keys);
    EnumsProper(m.types, Listing(m.types.enums.Keys));
    DocumentProper(m.version, ToXsd(m.root, m.root, "root", map[]), AllEnumNodes(m.types));
    again := FromXsd(doc.value, into);
  }
}
