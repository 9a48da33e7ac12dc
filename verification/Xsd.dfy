/** Schemas as XSD documents: `toXSD` and `fromXSD` of Configuration.cpp over abstract nodes. */
module Xsd {
  import opened Wrappers
  import opened Values
  import opened TypesLists
  import opened Elements
  import opened Edits

  /** An element node: the prefix of its namespace, its name, its attributes, its element children
      and its own text. */
  datatype XNode = XNode(ns: string, name: string, attrs: map<string, string>, children: seq<XNode>, text: string)

  // ----- Finding nodes -----

  /** The test of `getChildNodes`: without a prefix, any namespace will do. */
  predicate Matches(n: XNode, ns: string, name: string) {
    n.name == name && (ns != "" ==> n.ns == ns)
  }

  function ChildNodes(nodes: seq<XNode>, ns: string, name: string): seq<XNode> {
    if nodes == [] then []
    else (if Matches(nodes[0], ns, name) then [nodes[0]] else []) + ChildNodes(nodes[1..], ns, name)
  }

  lemma {:induction false} ChildNodesAre(nodes: seq<XNode>, ns: string, name: string)
    ensures forall n :: n in ChildNodes(nodes, ns, name) ==> n in nodes && Matches(n, ns, name)
    ensures |ChildNodes(nodes, ns, name)| <= |nodes|
  {
    if nodes != [] {
      ChildNodesAre(nodes[1..], ns, name);
    }
  }

  /** `getUniqueChildNode`. */
  function UniqueChild(n: XNode, ns: string, name: string): (r: Option<XNode>)
    ensures r.Some? ==> r.value in n.children && r.value < n
  {
    var found := ChildNodes(n.children, ns, name);
    if |found| == 1 then
      ChildNodesAre(n.children, ns, name);
      assert found[0] in found;
      Some(found[0])
    else None
  }

  /** `getAttribute`: a missing one reads as the empty string. */
  function Attribute(n: XNode, name: string): string {
    if name in n.attrs then n.attrs[name] else ""
  }

  /** `getNodeContent`. */
  function Content(n: XNode): string {
    n.text + ContentAll(n.children)
  }

  function ContentAll(ns: seq<XNode>): string {
    if ns == [] then "" else Content(ns[0]) + ContentAll(ns[1..])
  }

  /** The text of the unique child with a name. */
  function ChildContent(n: XNode, name: string): Option<string> {
    match UniqueChild(n, "", name)
    case None => None
    case Some(c) => Some(Content(c))
  }

  lemma {:induction false} NoMatch(nodes: seq<XNode>, ns: string, name: string)
    requires forall i :: 0 <= i < |nodes| ==> !Matches(nodes[i], ns, name)
    ensures ChildNodes(nodes, ns, name) == []
  {
    if nodes != [] {
      NoMatch(nodes[1..], ns, name);
    }
  }

  lemma {:induction false} AllMatch(nodes: seq<XNode>, ns: string, name: string)
    requires forall i :: 0 <= i < |nodes| ==> Matches(nodes[i], ns, name)
    ensures ChildNodes(nodes, ns, name) == nodes
  {
    if nodes != [] {
      AllMatch(nodes[1..], ns, name);
      assert nodes == [nodes[0]] + nodes[1..];
    }
  }

  lemma {:induction false} OneMatch(nodes: seq<XNode>, k: nat, ns: string, name: string)
    requires k < |nodes| && Matches(nodes[k], ns, name)
    requires forall i :: 0 <= i < |nodes| && i != k ==> !Matches(nodes[i], ns, name)
    ensures ChildNodes(nodes, ns, name) == [nodes[k]]
  {
    if k == 0 {
      NoMatch(nodes[1..], ns, name);
    } else {
      OneMatch(nodes[1..], k - 1, ns, name);
    }
  }

  lemma {:induction false} RestMatches(first: XNode, rest: seq<XNode>, ns: string, name: string)
    requires !Matches(first, ns, name) && forall i :: 0 <= i < |rest| ==> Matches(rest[i], ns, name)
    ensures ChildNodes([first] + rest, ns, name) == rest
  {
    AllMatch(rest, ns, name);
    assert ([first] + rest)[1..] == rest;
  }

  lemma {:induction false} UniqueIs(n: XNode, k: nat, ns: string, name: string)
    requires k < |n.children| && Matches(n.children[k], ns, name)
    requires forall i :: 0 <= i < |n.children| && i != k ==> !Matches(n.children[i], ns, name)
    ensures UniqueChild(n, ns, name) == Some(n.children[k])
  {
    OneMatch(n.children, k, ns, name);
  }

  /** The only node of the list that matches. */
  predicate OnlyMatch(nodes: seq<XNode>, k: nat, ns: string, name: string) {
    && k < |nodes| && nodes[k].name == name && (ns == "" || nodes[k].ns == ns)
    && forall i :: 0 <= i < |nodes| && nodes[i].name == name && (ns == "" || nodes[i].ns == ns) ==> i == k
  }

  lemma {:induction false} NoneFound(nodes: seq<XNode>, ns: string, name: string)
    requires ChildNodes(nodes, ns, name) == []
    ensures forall i :: 0 <= i < |nodes| ==> !Matches(nodes[i], ns, name)
  {
    if nodes != [] {
      NoneFound(nodes[1..], ns, name);
      assert nodes == [nodes[0]] + nodes[1..];
    }
  }

  lemma {:induction false} OneFound(nodes: seq<XNode>, ns: string, name: string) returns (k: nat)
    requires |ChildNodes(nodes, ns, name)| == 1
    ensures OnlyMatch(nodes, k, ns, name)
  {
    assert nodes == [nodes[0]] + nodes[1..];
    if Matches(nodes[0], ns, name) {
      NoneFound(nodes[1..], ns, name);
      k := 0;
    } else {
      k := OneFound(nodes[1..], ns, name);
      k := k + 1;
    }
  }

  /** A child is found exactly when only one matches, and it is that one. */
  lemma {:induction false} UniqueChildIff(n: XNode, ns: string, name: string)
    ensures UniqueChild(n, ns, name).Some? <==> exists k: nat :: OnlyMatch(n.children, k, ns, name)
    ensures forall k: nat :: OnlyMatch(n.children, k, ns, name) ==> UniqueChild(n, ns, name) == Some(n.children[k])
  {
    if UniqueChild(n, ns, name).Some? {
      var k := OneFound(n.children, ns, name);
    }
    forall k: nat | OnlyMatch(n.children, k, ns, name)
      ensures UniqueChild(n, ns, name) == Some(n.children[k])
    {
      UniqueIs(n, k, ns, name);
    }
  }

  // ----- Writing -----

  function Leaf(name: string, text: string): XNode {
    XNode("", name, map[], [], text)
  }

  lemma {:induction false} LeafContent(name: string, text: string)
    ensures Content(Leaf(name, text)) == text
  {
    assert text + "" == text;
  }

  function Truth(b: bool): string {
    if b then "true" else "false"
  }

  /** What an element node says of an element, but for what is not read back. */
  datatype Props = Props(id: string, typ: string, name: string, description: string, reference: string,
                         expected: string)

  function Documentation(p: Props, advanced: bool, readOnly: bool, unit: Option<string>): XNode {
    XNode("xs", "documentation", map["xml:lang" := "en"],
          [Leaf("type", p.typ), Leaf("name", p.name), Leaf("description", p.description),
           Leaf("advanced", Truth(advanced)), Leaf("readonly", Truth(readOnly)),
           Leaf("reference", p.reference), Leaf("expected", p.expected)]
          + (if unit.Some? then [Leaf("unit", unit.value)] else []), "")
  }

  /** `createXSDNode`, and what its callers add to the node. */
  function ElementNode(p: Props, advanced: bool, readOnly: bool, unit: Option<string>, attrs: map<string, string>,
                       content: seq<XNode>): XNode {
    XNode("xs", "element", attrs["name" := p.id],
          [XNode("xs", "annotation", map[], [Documentation(p, advanced, readOnly, unit)], "")] + content, "")
  }

  /** The path of the target, empty without a reference. */
  function RefPath(root: Element, ref: Option<Reference>): string {
    if ref.Some? && In(root, ref.value.target.pos) then Path(At(root, ref.value.target.pos)) else ""
  }

  function RefExpected(ref: Option<Reference>): string {
    if ref.Some? then ToString(ref.value.expected) else ""
  }

  function PropsOf(root: Element, e: Element, id: string, typ: string): Props
    requires e.info.Schema?
  {
    Props(id, typ, e.info.name, e.info.description, RefPath(root, e.ref), RefExpected(e.ref))
  }

  predicate AllSchema(e: Element) {
    && e.info.Schema? && (e.Parameter? ==> e.info.typ.Some?)
    && (e.Component? ==> forall i :: 0 <= i < |e.items| ==> AllSchema(e.items[i]))
    && (e.List? ==> AllSchema(e.pattern) && e.pattern.Component?)
  }

  function XsType(id: string): string {
    if id == "string" then "xs:string"
    else if id == "bool" then "xs:boolean"
    else if id == "int" || id == "short" || id == "long" then "xs:integer"
    else if id == "double" || id == "float" then "xs:decimal"
    else id
  }

  function Sequence(nodes: seq<XNode>): XNode {
    XNode("xs", "complexType", map[], [XNode("xs", "sequence", map[], nodes, "")], "")
  }

  const ITEM_ATTRS := map["minOccurs" := "0", "maxOccurs" := "unbounded"]

  /** `elementToXSD` under a name: the id of the element, "item" for a pattern, "root" for the root. */
  function ToXsd(root: Element, e: Element, id: string, attrs: map<string, string>): XNode
    requires AllSchema(e)
  {
    match e
    case Parameter(_, _, _, info) =>
      var typ := TypeId(info.typ.value);
      ElementNode(PropsOf(root, e, id, typ), info.advanced, info.readOnly, Some(info.unit),
                  map["type" := XsType(typ), "minOccurs" := "0"], [])
    case Component(_, _, _, info, items) =>
      ElementNode(PropsOf(root, e, id, "component"), info.advanced, info.readOnly, None, attrs,
                  [Sequence(AllToXsd(root, items))])
    case List(_, _, _, info, _, pattern) =>
      ElementNode(PropsOf(root, e, id, "list"), info.advanced, info.readOnly, None, map[],
                  [Sequence([ToXsd(root, pattern, "item", ITEM_ATTRS)])])
  }

  /** `addXSDChild`. */
  function AllToXsd(root: Element, es: seq<Element>): (r: seq<XNode>)
    requires forall i :: 0 <= i < |es| ==> AllSchema(es[i])
    ensures |r| == |es|
  {
    if es == [] then [] else [ToXsd(root, es[0], es[0].id, map[])] + AllToXsd(root, es[1..])
  }

  lemma {:induction false} AllToXsdAt(root: Element, es: seq<Element>, k: nat)
    requires k < |es| && forall i :: 0 <= i < |es| ==> AllSchema(es[i])
    ensures AllToXsd(root, es)[k] == ToXsd(root, es[k], es[k].id, map[])
  {
    if k > 0 {
      AllToXsdAt(root, es[1..], k - 1);
    }
  }

  // ----- Reading -----

  /** The node that documents an element node. */
  function DocumentationOf(node: XNode): Option<XNode> {
    match UniqueChild(node, "xs", "annotation")
    case None => None
    case Some(a) => if |a.children| != 1 then None else UniqueChild(a, "xs", "documentation")
  }

  /** `getElementFromXSD`. What it reads of "advanced" is always false: "true" does not parse as a
      number. "readonly" is not looked at. */
  function ReadProps(node: XNode): Option<Props> {
    match DocumentationOf(node)
    case None => None
    case Some(d) =>
      var name, typ, desc := ChildContent(d, "name"), ChildContent(d, "type"), ChildContent(d, "description");
      var adv, ref, exp := ChildContent(d, "advanced"), ChildContent(d, "reference"), ChildContent(d, "expected");
      if name.None? || typ.None? || desc.None? || adv.None? || ref.None? || exp.None? then None
      else Some(Props(Attribute(node, "name"), typ.value, name.value, desc.value, ref.value, exp.value))
  }

  /** `getComponentContentXSDNode`. */
  function ContentNode(node: XNode): (r: Option<XNode>)
    ensures r.Some? ==> r.value < node
  {
    match UniqueChild(node, "xs", "complexType")
    case None => None
    case Some(c) => if |c.children| != 1 then None else UniqueChild(c, "xs", "sequence")
  }

  /** `getPatternListXSDNode`. */
  function PatternNode(node: XNode): (r: Option<XNode>)
    ensures r.Some? ==> r.value < node
  {
    match ContentNode(node)
    case None => None
    case Some(s) => if |s.children| != 1 then None else UniqueChild(s, "xs", "element")
  }

  /** A reference that is set once the whole tree is there. */
  datatype Pending = Pending(pos: Pos, path: string, expected: string)

  function PendingOf(p: Props, pos: Pos): seq<Pending> {
    if p.reference != "" then [Pending(pos, p.reference, p.expected)] else []
  }

  /** The checks on an id before a child is added. */
  predicate CanAdd(e: Element, id: string)
    requires !e.Parameter?
  {
    '/' !in id && FindItem(e.items, id).None?
  }

  function NewComponent(e: Element, p: Props): Element {
    Component(p.id, Path(e), None, Schema(p.name, p.description, false, false, None, ""), [])
  }

  function NewParameter(e: Element, p: Props, typ: DataType): Element {
    Parameter(p.id, Path(e), None, Schema(p.name, p.description, false, false, Some(typ), ""))
  }

  /** What reading one child gives: the container with it, the references to set, and whether there
      is a child (a parameter that could not be added is skipped unless it comes last). */
  datatype Loaded = Loaded(e: Element, pending: seq<Pending>, present: bool)

  /** `loadComponentFromXSD`: `e` is the component at `pos`, so far. */
  function LoadXsd(e: Element, pos: Pos, node: XNode, types: Types): (r: Option<Loaded>)
    requires e.Component?
    ensures r.Some? ==> r.value.e.Component?
    decreases node, 0
  {
    match ContentNode(node)
    case None => None
    case Some(s) =>
      if |ChildNodes(s.children, "xs", "element")| != |s.children| then None
      else LoadChildren(e, pos, s.children, types)
  }

  function LoadChildren(e: Element, pos: Pos, nodes: seq<XNode>, types: Types): (r: Option<Loaded>)
    requires e.Component?
    ensures r.Some? ==> r.value.e.Component? && r.value.present
    decreases nodes, 3
  {
    if nodes == [] then Some(Loaded(e, [], true))
    else
      match LoadChild(e, pos, nodes[0], types)
      case None => None
      case Some(first) =>
        if nodes[1..] == [] && !first.present then None
        else
          match LoadChildren(first.e, pos, nodes[1..], types)
          case None => None
          case Some(rest) => Some(Loaded(rest.e, first.pending + rest.pending, true))
  }

  function LoadChild(e: Element, pos: Pos, node: XNode, types: Types): (r: Option<Loaded>)
    requires e.Component?
    ensures r.Some? ==> r.value.e.Component?
    decreases node, 2
  {
    var at := pos + [Item(|e.items|)];
    match ReadProps(node)
    case None => None
    case Some(p) =>
      if p.typ == "component" then LoadComponent(e, at, node, types, p)
      else if p.typ == "list" then LoadList(e, at, node, types, p)
      else LoadParameter(e, at, node, types, p)
  }

  function LoadComponent(e: Element, at: Pos, node: XNode, types: Types, p: Props): (r: Option<Loaded>)
    requires e.Component?
    ensures r.Some? ==> r.value.e.Component?
    decreases node, 1
  {
    if !CanAdd(e, p.id) then None
    else
      match LoadXsd(NewComponent(e, p), at, node, types)
      case None => None
      case Some(c) => Some(Loaded(WithItems(e, e.items + [c.e]), c.pending + PendingOf(p, at), true))
  }

  function LoadParameter(e: Element, at: Pos, node: XNode, types: Types, p: Props): (r: Option<Loaded>)
    requires e.Component?
    ensures r.Some? ==> r.value.e.Component?
  {
    match GetType(types, p.typ)
    case None => None
    case Some(t) =>
      if CanAdd(e, p.id) then Some(Loaded(WithItems(e, e.items + [NewParameter(e, p, t)]), PendingOf(p, at), true))
      else if HasUnit(node) || p.reference != "" then None
      else Some(Loaded(e, [], false))
  }

  function LoadList(e: Element, at: Pos, node: XNode, types: Types, p: Props): (r: Option<Loaded>)
    requires e.Component?
    ensures r.Some? ==> r.value.e.Component?
    decreases node, 1
  {
    match PatternNode(node)
    case None => None
    case Some(n) =>
      match ReadProps(n)
      case None => None
      case Some(q) =>
        if !CanAdd(e, p.id) then None else LoadPattern(e, at, n, types, p, q)
  }

  function LoadPattern(e: Element, at: Pos, n: XNode, types: Types, p: Props, q: Props): (r: Option<Loaded>)
    requires e.Component?
    ensures r.Some? ==> r.value.e.Component?
    decreases n, 1
  {
    var list := NewList(Path(e), p.id, p.name, q.name, p.description, q.description);
    match LoadXsd(list.pattern, at + [Pattern], n, types)
    case None => None
    case Some(c) =>
      Some(Loaded(WithItems(e, e.items + [list.(pattern := c.e)]),
                  c.pending + PendingOf(q, at + [Pattern]) + PendingOf(p, at), true))
  }

  /** `loadParameterFromXSD` on a parameter that was not added: it would follow a null pointer when
      there is a unit, as would the references. */
  predicate HasUnit(node: XNode) {
    DocumentationOf(node).Some? && UniqueChild(DocumentationOf(node).value, "", "unit").Some?
  }

  // ----- The cases of reading a child -----

  lemma {:induction false} ChildParameter(e: Element, pos: Pos, node: XNode, types: Types, p: Props, t: DataType)
    requires e.Component? && ReadProps(node) == Some(p) && p.typ != "component" && p.typ != "list"
    requires GetType(types, p.typ) == Some(t) && CanAdd(e, p.id)
    ensures LoadChild(e, pos, node, types) ==
      Some(Loaded(WithItems(e, e.items + [NewParameter(e, p, t)]), PendingOf(p, pos + [Item(|e.items|)]), true))
  {
  }

  /** The references met first, and what is read after them. */
  function After(pending: seq<Pending>, rest: Option<Loaded>): Option<Loaded> {
    if rest.None? then None else Some(Loaded(rest.value.e, pending + rest.value.pending, true))
  }

  lemma {:induction false} ChildrenNext(e: Element, pos: Pos, nodes: seq<XNode>, k: nat, types: Types,
                                        first: Option<Loaded>)
    requires e.Component? && k < |nodes| && first == LoadChild(e, pos, nodes[k], types)
    requires first.Some? ==> first.value.present
    ensures LoadChildren(e, pos, nodes[k..], types) ==
      if first.None? then None
      else After(first.value.pending, LoadChildren(first.value.e, pos, nodes[k + 1..], types))
  {
    assert nodes[k..][0] == nodes[k] && nodes[k..][1..] == nodes[k + 1..];
  }

  lemma {:induction false} LoadXsdIn(e: Element, pos: Pos, node: XNode, s: XNode, types: Types)
    requires e.Component? && ContentNode(node) == Some(s) && ChildNodes(s.children, "xs", "element") == s.children
    ensures LoadXsd(e, pos, node, types) == LoadChildren(e, pos, s.children, types)
  {
  }

  lemma {:induction false} ChildMisread(e: Element, pos: Pos, node: XNode, types: Types, p: Props)
    requires e.Component? && ReadProps(node) == Some(p) && (p.typ == "component" || p.typ == "list")
    requires ContentNode(node) == None && PatternNode(node) == None
    ensures LoadChild(e, pos, node, types) == None
  {
    var at := pos + [Item(|e.items|)];
    if p.typ == "component" {
      if CanAdd(e, p.id) {
        assert LoadXsd(NewComponent(e, p), at, node, types) == None;
      }
      assert LoadComponent(e, at, node, types, p) == None;
    } else {
      assert LoadList(e, at, node, types, p) == None;
    }
  }

  lemma {:induction false} ChildComponent(e: Element, pos: Pos, node: XNode, types: Types, p: Props, c: Option<Loaded>)
    requires e.Component? && ReadProps(node) == Some(p) && p.typ == "component" && CanAdd(e, p.id)
    requires c == LoadXsd(NewComponent(e, p), pos + [Item(|e.items|)], node, types)
    ensures LoadChild(e, pos, node, types) ==
      if c.None? then None
      else Some(Loaded(WithItems(e, e.items + [c.value.e]), c.value.pending + PendingOf(p, pos + [Item(|e.items|)]),
        true))
  {
  }

  lemma {:induction false} ListPattern(e: Element, at: Pos, node: XNode, types: Types, p: Props, n: XNode, q: Props,
                                       c: Option<Loaded>)
    requires e.Component? && CanAdd(e, p.id) && PatternNode(node) == Some(n) && ReadProps(n) == Some(q)
    requires c == LoadXsd(NewList(Path(e), p.id, p.name, q.name, p.description, q.description).pattern, at + [Pattern],
      n, types)
    ensures LoadList(e, at, node, types, p) ==
      if c.None? then None
      else
        var list := NewList(Path(e), p.id, p.name, q.name, p.description, q.description);
        Some(Loaded(WithItems(e, e.items + [list.(pattern := c.value.e)]),
                    c.value.pending + PendingOf(q, at + [Pattern]) + PendingOf(p, at), true))
  {
  }

  lemma {:induction false} ChildList(e: Element, pos: Pos, node: XNode, types: Types, p: Props, n: XNode, q: Props,
                                     c: Option<Loaded>)
    requires e.Component? && ReadProps(node) == Some(p) && p.typ == "list" && CanAdd(e, p.id)
    requires PatternNode(node) == Some(n) && ReadProps(n) == Some(q)
    requires c == LoadXsd(NewList(Path(e), p.id, p.name, q.name, p.description, q.description).pattern,
                          pos + [Item(|e.items|)] + [Pattern], n, types)
    ensures LoadChild(e, pos, node, types) ==
      if c.None? then None
      else
        var at := pos + [Item(|e.items|)];
        var list := NewList(Path(e), p.id, p.name, q.name, p.description, q.description);
        Some(Loaded(WithItems(e, e.items + [list.(pattern := c.value.e)]),
                    c.value.pending + PendingOf(q, at + [Pattern]) + PendingOf(p, at), true))
  {
    ListPattern(e, pos + [Item(|e.items|)], node, types, p, n, q, c);
  }

  // ----- What is read back from what was written -----

  lemma {:induction false} DocumentationContent(p: Props, advanced: bool, readOnly: bool, unit: Option<string>, k: nat)
    requires k < if unit.Some? then 8 else 7
    ensures var d := Documentation(p, advanced, readOnly, unit);
      ChildContent(d, d.children[k].name) == Some(d.children[k].text)
  {
    var l := Documentation(p, advanced, readOnly, unit).children;
    forall i | 0 <= i < |l|
      ensures l[i].name == NAMES[i]
    {
    }
    forall i | 0 <= i < |l| && i != k
      ensures !Matches(l[i], "", l[k].name)
    {
      NamesDiffer(i, k);
    }
    OneMatch(l, k, "", l[k].name);
    LeafContent(l[k].name, l[k].text);
  }

  const NAMES: seq<string> := ["type", "name", "description", "advanced", "readonly", "reference", "expected", "unit"]

  lemma {:induction false} NamesDiffer(i: nat, k: nat)
    requires i < |NAMES| && k < |NAMES| && i != k
    ensures NAMES[i] != NAMES[k]
  {
    assert NAMES[i][0] != NAMES[k][0] || |NAMES[i]| != |NAMES[k]|;
  }

  lemma {:induction false} AnnotationRead(node: XNode, a: XNode, d: XNode, content: seq<XNode>)
    requires node.children == [a] + content && a.ns == "xs" && a.name == "annotation" && a.children == [d]
    requires d.ns == "xs" && d.name == "documentation"
    requires forall i :: 0 <= i < |content| ==> content[i].name == "complexType"
    ensures DocumentationOf(node) == Some(d)
  {
    forall i | 0 < i < |node.children|
      ensures node.children[i].name == "complexType"
    {
      assert node.children[i] == content[i - 1];
    }
    OneMatch(node.children, 0, "xs", "annotation");
    OneMatch(a.children, 0, "xs", "documentation");
  }

  lemma {:induction false} TextsRead(p: Props, advanced: bool, readOnly: bool, unit: Option<string>)
    ensures var d := Documentation(p, advanced, readOnly, unit);
      && ChildContent(d, "type") == Some(p.typ) && ChildContent(d, "name") == Some(p.name)
      && ChildContent(d, "description") == Some(p.description)
  {
    DocumentationContent(p, advanced, readOnly, unit, 0);
    DocumentationContent(p, advanced, readOnly, unit, 1);
    DocumentationContent(p, advanced, readOnly, unit, 2);
  }

  lemma {:induction false} ReferenceRead(p: Props, advanced: bool, readOnly: bool, unit: Option<string>)
    ensures var d := Documentation(p, advanced, readOnly, unit);
      && ChildContent(d, "advanced").Some?
      && ChildContent(d, "reference") == Some(p.reference) && ChildContent(d, "expected") == Some(p.expected)
  {
    DocumentationContent(p, advanced, readOnly, unit, 3);
    DocumentationContent(p, advanced, readOnly, unit, 5);
    DocumentationContent(p, advanced, readOnly, unit, 6);
  }

  lemma {:induction false} PropsRead(p: Props, advanced: bool, readOnly: bool, unit: Option<string>,
                                     attrs: map<string, string>,
                                     content: seq<XNode>)
    requires forall i :: 0 <= i < |content| ==> content[i].name == "complexType"
    ensures ReadProps(ElementNode(p, advanced, readOnly, unit, attrs, content)) == Some(p)
  {
    var node := ElementNode(p, advanced, readOnly, unit, attrs, content);
    var d := Documentation(p, advanced, readOnly, unit);
    AnnotationRead(node, node.children[0], d, content);
    TextsRead(p, advanced, readOnly, unit);
    ReferenceRead(p, advanced, readOnly, unit);
  }

  /** A container node holds its children in a sequence. */
  lemma {:induction false} ContentRead(p: Props, advanced: bool, readOnly: bool, attrs: map<string, string>,
                                       nodes: seq<XNode>)
    ensures ContentNode(ElementNode(p, advanced, readOnly, None, attrs, [Sequence(nodes)])) ==
      Some(XNode("xs", "sequence", map[], nodes, ""))
  {
    var node := ElementNode(p, advanced, readOnly, None, attrs, [Sequence(nodes)]);
    OneMatch(node.children, 1, "xs", "complexType");
    OneMatch(Sequence(nodes).children, 0, "xs", "sequence");
  }

  /** A parameter node holds none. */
  lemma {:induction false} NoContent(p: Props, advanced: bool, readOnly: bool, unit: Option<string>,
                                     attrs: map<string, string>)
    ensures ContentNode(ElementNode(p, advanced, readOnly, unit, attrs, [])) == None
    ensures PatternNode(ElementNode(p, advanced, readOnly, unit, attrs, [])) == None
  {
    NoMatch(ElementNode(p, advanced, readOnly, unit, attrs, []).children, "xs", "complexType");
  }
}
