/** The document of a schema: its version, its enumerations and its root. */
module XsdDocuments {
  import opened Wrappers
  import opened Values
  import opened TypesLists
  import opened Elements
  import opened References
  import opened Copies
  import opened Instances
  import opened Xsd
  import opened XsdTrees
  import opened MetaModels
  import opened XsdReferences

  // ----- Enumerations -----

  function Annotation(children: seq<XNode>): XNode {
    XNode("xs", "annotation", map[], [XNode("xs", "documentation", map["xml:lang" := "en"], children, "")], "")
  }

  function ValueNode(v: string): XNode {
    XNode("xs", "enumeration", map["value" := v], [], "")
  }

  function ValueNodes(vs: seq<string>): (r: seq<XNode>)
    ensures |r| == |vs| && forall i :: 0 <= i < |vs| ==> r[i] == ValueNode(vs[i])
  {
    if vs == [] then [] else [ValueNode(vs[0])] + ValueNodes(vs[1..])
  }

  /** The node of an enumeration. The empty string is always among the values, for unset parameters. */
  function EnumNode(id: string, e: Enum): XNode {
    XNode("xs", "simpleType", map["name" := id],
          [Annotation([Leaf("name", e.name), Leaf("description", e.description)]),
           XNode("xs", "restriction", map["base" := "xs:string"], ValueNodes(Listing(e.values)) + [ValueNode("")], "")],
          "")
  }

  function EnumNodes(types: Types, ids: seq<string>): seq<XNode>
    requires forall id :: id in ids ==> id in types.enums
  {
    if ids == [] then [] else [EnumNode(ids[0], types.enums[ids[0]])] + EnumNodes(types, ids[1..])
  }

  /** The values of enumeration nodes, but for the empty string. */
  function ReadValues(nodes: seq<XNode>): set<string> {
    if nodes == [] then {}
    else (if Attribute(nodes[0], "value") != "" then {Attribute(nodes[0], "value")} else {}) + ReadValues(nodes[1..])
  }

  /** `addEnumTypeFromXSD`, up to the addition. */
  function ReadEnum(node: XNode): Option<(string, Enum)> {
    if |node.children| != 2 then None
    else
      match UniqueChild(node, "xs", "annotation")
      case None => None
      case Some(a) =>
        match UniqueChild(a, "xs", "documentation")
        case None => None
        case Some(d) =>
          match UniqueChildWith(node, "xs", "restriction", "base", "xs:string")
          case None => None
          case Some(r) =>
            if ChildContent(d, "name").None? || ChildContent(d, "description").None? then None
            else if |ChildNodes(r.children, "xs", "enumeration")| != |r.children| then None
            else Some((Attribute(node, "name"),
                       Enum(ChildContent(d, "name").value, ChildContent(d, "description").value,
                         ReadValues(r.children))))
  }

  /** The nodes that have an attribute with a value. */
  function WithAttribute(nodes: seq<XNode>, attribute: string, value: string): (r: seq<XNode>)
    ensures forall n :: n in r ==> n in nodes
  {
    if nodes == [] then []
    else
      (if attribute in nodes[0].attrs && nodes[0].attrs[attribute] == value then [nodes[0]] else [])
      + WithAttribute(nodes[1..], attribute, value)
  }

  /** `getUniqueChildNodeWithAttribute`. */
  function UniqueChildWith(n: XNode, ns: string, name: string, attribute: string, value: string): (r: Option<XNode>)
    ensures r.Some? ==> r.value in n.children
  {
    var found := WithAttribute(ChildNodes(n.children, ns, name), attribute, value);
    if |found| == 1 then
      ChildNodesAre(n.children, ns, name);
      assert found[0] in found;
      Some(found[0])
    else None
  }

  function ReadEnums(types: Types, nodes: seq<XNode>): Option<Types>
    decreases |nodes|
  {
    if nodes == [] then Some(types)
    else
      match ReadEnum(nodes[0])
      case None => None
      case Some((id, e)) =>
        match AddEnumType(types, id, e.name, e.values, e.description)
        case None => None
        case Some(more) => ReadEnums(more, nodes[1..])
  }

  function StripEnum(e: Enum): Enum {
    Enum(e.name, e.description, e.values - {""})
  }

  function StripTypes(types: Types): Types {
    Types(map id | id in types.enums :: StripEnum(types.enums[id]))
  }

  function Written(vs: seq<string>): set<string> {
    if vs == [] then {} else (if vs[0] != "" then {vs[0]} else {}) + Written(vs[1..])
  }

  lemma {:induction false} ValuesHas(vs: seq<string>, v: string)
    ensures v in Written(vs) <==> v in vs && v != ""
  {
    if vs != [] {
      ValuesHas(vs[1..], v);
      assert v in vs <==> v == vs[0] || v in vs[1..];
    }
  }

  lemma {:induction false} ValuesRead(vs: seq<string>)
    ensures ReadValues(ValueNodes(vs) + [ValueNode("")]) == Written(vs)
  {
    var nodes := ValueNodes(vs) + [ValueNode("")];
    if vs == [] {
      assert nodes == [ValueNode("")];
    } else {
      ValuesRead(vs[1..]);
      assert nodes[0] == ValueNode(vs[0]) && nodes[1..] == ValueNodes(vs[1..]) + [ValueNode("")];
    }
  }

  lemma {:induction false} UniqueWithIs(n: XNode, k: nat, ns: string, name: string, attribute: string, value: string)
    requires k < |n.children| && Matches(n.children[k], ns, name)
    requires forall i :: 0 <= i < |n.children| && i != k ==> !Matches(n.children[i], ns, name)
    requires attribute in n.children[k].attrs && n.children[k].attrs[attribute] == value
    ensures UniqueChildWith(n, ns, name, attribute, value) == Some(n.children[k])
  {
    OneMatch(n.children, k, ns, name);
    var x := n.children[k];
    assert [x][1..] == [];
    assert WithAttribute([x], attribute, value) == [x];
  }

  /** An enumeration node, from its parts. */
  lemma {:induction false} EnumPartsRead(node: XNode, a: XNode, d: XNode, r: XNode, name: string, description: string)
    requires node.children == [a, r] && a.ns == "xs" && a.name == "annotation" && a.children == [d]
    requires d.ns == "xs" && d.name == "documentation"
    requires ChildContent(d, "name") == Some(name) && ChildContent(d, "description") == Some(description)
    requires r.ns == "xs" && r.name == "restriction" && "base" in r.attrs && r.attrs["base"] == "xs:string"
    requires ChildNodes(r.children, "xs", "enumeration") == r.children
    ensures ReadEnum(node) == Some((Attribute(node, "name"), Enum(name, description, ReadValues(r.children))))
  {
    UniqueIs(node, 0, "xs", "annotation");
    UniqueIs(a, 0, "xs", "documentation");
    UniqueWithIs(node, 1, "xs", "restriction", "base", "xs:string");
  }

  lemma {:induction false} EnumRead(id: string, e: Enum)
    ensures ReadEnum(EnumNode(id, e)) == Some((id, StripEnum(e)))
  {
    var node := EnumNode(id, e);
    var a, r := node.children[0], node.children[1];
    ValuesListed(e.values);
    LeavesRead(e.name, e.description);
    EnumPartsRead(node, a, a.children[0], r, e.name, e.description);
  }

  lemma {:induction false} ValuesListed(values: set<string>)
    ensures var nodes := ValueNodes(Listing(values)) + [ValueNode("")];
      ChildNodes(nodes, "xs", "enumeration") == nodes && ReadValues(nodes) == values - {""}
  {
    ValuesMatch(Listing(values));
    ValuesRead(Listing(values));
    ListingValues(values);
  }

  lemma {:induction false} ListingValues(values: set<string>)
    ensures Written(Listing(values)) == values - {""}
  {
    ListingIs(values);
    forall v
      ensures v in Written(Listing(values)) <==> v in values - {""}
    {
      ValuesHas(Listing(values), v);
    }
  }

  lemma {:induction false} ValuesMatch(vs: seq<string>)
    ensures ChildNodes(ValueNodes(vs) + [ValueNode("")], "xs", "enumeration") == ValueNodes(vs) + [ValueNode("")]
  {
    var nodes := ValueNodes(vs) + [ValueNode("")];
    forall i | 0 <= i < |nodes|
      ensures Matches(nodes[i], "xs", "enumeration")
    {
      if i < |vs| {
        assert nodes[i] == ValueNode(vs[i]);
      }
    }
    AllMatch(nodes, "xs", "enumeration");
  }

  lemma {:induction false} LeavesRead(name: string, description: string)
    ensures var d := XNode("xs", "documentation", map["xml:lang" := "en"],
      [Leaf("name", name), Leaf("description", description)], "");
      ChildContent(d, "name") == Some(name) && ChildContent(d, "description") == Some(description)
  {
    var l := [Leaf("name", name), Leaf("description", description)];
    OneMatch(l, 0, "", "name");
    OneMatch(l, 1, "", "description");
    LeafContent("name", name);
    LeafContent("description", description);
  }

  /** The enumerations that are read back: those with a value other than the empty string. */
  predicate Valued(types: Types, ids: seq<string>)
    requires forall id :: id in ids ==> id in types.enums
  {
    forall i :: 0 <= i < |ids| ==> types.enums[ids[i]].values - {""} != {}
  }

  lemma {:induction false} EnumsNext(types: Types, node: XNode, rest: seq<XNode>, id: string, e: Enum)
    requires ReadEnum(node) == Some((id, e)) && !BuiltIn(id) && id !in types.enums
    ensures ReadEnums(types, [node] + rest) ==
      if e.values == {} then None else ReadEnums(Types(types.enums[id := e]), rest)
  {
    assert ([node] + rest)[1..] == rest;
  }

  function StripOf(types: Types, ids: seq<string>): map<string, Enum>
    requires forall id :: id in ids ==> id in types.enums
  {
    map id | id in ids :: StripEnum(types.enums[id])
  }

  lemma {:induction false} StripOfCons(types: Types, ids: seq<string>, done: map<string, Enum>)
    requires ids != [] && ids[0] !in ids[1..] && forall id :: id in ids ==> id in types.enums
    ensures forall id :: id in ids[1..] ==> id in types.enums
    ensures done[ids[0] := StripEnum(types.enums[ids[0]])] + StripOf(types, ids[1..]) == done + StripOf(types, ids)
  {
    assert ids == [ids[0]] + ids[1..];
  }

  lemma {:induction false} ValuedCons(types: Types, ids: seq<string>)
    requires ids != [] && forall id :: id in ids ==> id in types.enums
    ensures forall id :: id in ids[1..] ==> id in types.enums
    ensures Valued(types, ids) <==> types.enums[ids[0]].values - {""} != {} && Valued(types, ids[1..])
  {
    assert forall i :: 0 <= i < |ids| - 1 ==> ids[1..][i] == ids[i + 1];
    assert forall i :: 0 < i < |ids| ==> ids[i] == ids[1..][i - 1];
  }

  lemma {:induction false} EnumsRead(types: Types, ids: seq<string>, done: map<string, Enum>)
    requires ProperTypes(types) && forall id :: id in ids ==> id in types.enums && id !in done
    requires forall i, j :: 0 <= i < j < |ids| ==> ids[i] != ids[j]
    ensures ReadEnums(Types(done), EnumNodes(types, ids)) ==
      if Valued(types, ids) then Some(Types(done + StripOf(types, ids))) else None
    decreases |ids|
  {
    if ids == [] {
      assert done + StripOf(types, ids) == done;
    } else {
      var id, rest := ids[0], ids[1..];
      var e := StripEnum(types.enums[id]);
      assert id in ids && id !in rest;
      EnumRead(id, types.enums[id]);
      ValuedCons(types, ids);
      EnumsNext(Types(done), EnumNode(id, types.enums[id]), EnumNodes(types, rest), id, e);
      if e.values != {} {
        EnumsRead(types, rest, done[id := e]);
        StripOfCons(types, ids, done);
      }
    }
  }

  /** All enumerations of a list, in the order of their ids. */
  function AllEnumNodes(types: Types): seq<XNode> {
    ListingIs(types.enums.Keys);
    EnumNodes(types, Listing(types.enums.Keys))
  }

  lemma {:induction false} TypesRead(types: Types)
    requires ProperTypes(types)
    ensures ReadEnums(Types(map[]), AllEnumNodes(types)) ==
      if (forall id :: id in types.enums ==> types.enums[id].values - {""} != {}) then Some(StripTypes(types)) else None
  {
    var ids := Listing(types.enums.Keys);
    ListingIs(types.enums.Keys);
    EnumsRead(types, ids, map[]);
    assert Valued(types, ids) <==> forall id :: id in types.enums ==> types.enums[id].values - {""} != {};
    assert map[] + StripOf(types, ids) == StripTypes(types).enums;
  }

  /** A type that the list knows is known to the list that is read back. */
  lemma {:induction false} StripKnows(types: Types, t: DataType)
    requires Knows(types, t)
    ensures Knows(StripTypes(types), StripType(t))
  {
  }

  // ----- The whole document -----

  function SchemaDocument(version: string, root: XNode, enums: seq<XNode>): XNode {
    XNode("xs", "schema", map["xmlns:xs" := "http://www.w3.org/2001/XMLSchema", "elementFormDefault" := "qualified"],
          [XNode("xs", "element", map["name" := "model"],
                 [Annotation([Leaf("version", version)]),
                  XNode("xs", "complexType", map[],
                        [XNode("xs", "sequence", map[], [root], ""),
                         XNode("xs", "attribute", map["name" := "version", "type" := "xs:string", "use" := "required"],
                           [], "")],
                        "")], "")]
          + enums, "")
  }

  /** The parts of a document: the version, the node of the root, and those of the enumerations. */
  datatype Parts = Parts(version: string, root: XNode, enums: seq<XNode>)

  /** `fromXSD`, up to the enumerations. */
  function ReadDocument(schema: XNode): Option<Parts> {
    match UniqueChild(schema, "xs", "element")
    case None => None
    case Some(m) =>
      if |m.children| != 2 then None
      else
        match VersionOf(m)
        case None => None
        case Some(version) =>
          match RootNodeOf(m)
          case None => None
          case Some(root) =>
            var enums := ChildNodes(schema.children, "xs", "simpleType");
            if |enums| + 1 != |schema.children| then None else Some(Parts(version, root, enums))
  }

  function VersionOf(m: XNode): Option<string> {
    match UniqueChild(m, "xs", "annotation")
    case None => None
    case Some(a) =>
      match UniqueChild(a, "xs", "documentation")
      case None => None
      case Some(d) => ChildContent(d, "version")
  }

  function RootNodeOf(m: XNode): Option<XNode> {
    match UniqueChild(m, "xs", "complexType")
    case None => None
    case Some(c) =>
      match UniqueChild(c, "xs", "sequence")
      case None => None
      case Some(s) =>
        if UniqueChild(c, "xs", "attribute").None? then None else UniqueChildWith(s, "xs", "element", "name", "root")
  }

  lemma {:induction false} VersionRead(version: string, m: XNode, c: XNode)
    requires m.children == [Annotation([Leaf("version", version)]), c] && c.name == "complexType"
    ensures VersionOf(m) == Some(version)
  {
    var l := [Leaf("version", version)];
    OneMatch(m.children, 0, "xs", "annotation");
    OneMatch(Annotation(l).children, 0, "xs", "documentation");
    OneMatch(l, 0, "", "version");
    LeafContent("version", version);
  }

  lemma {:induction false} RootPartRead(m: XNode, a: XNode, c: XNode, s: XNode, x: XNode, root: XNode)
    requires m.children == [a, c] && a.name == "annotation" && c.ns == "xs" && c.name == "complexType"
    requires c.children == [s, x] && s.ns == "xs" && s.name == "sequence" && x.ns == "xs" && x.name == "attribute"
    requires s.children == [root] && Matches(root, "xs", "element") && "name" in root.attrs
      && root.attrs["name"] == "root"
    ensures RootNodeOf(m) == Some(root)
  {
    UniqueIs(m, 1, "xs", "complexType");
    UniqueIs(c, 0, "xs", "sequence");
    UniqueIs(c, 1, "xs", "attribute");
    UniqueWithIs(s, 0, "xs", "element", "name", "root");
  }

  lemma {:induction false} PartsRead(schema: XNode, m: XNode, enums: seq<XNode>, version: string, root: XNode)
    requires schema.children == [m] + enums && Matches(m, "xs", "element") && |m.children| == 2
    requires VersionOf(m) == Some(version) && RootNodeOf(m) == Some(root)
    requires forall i :: 0 <= i < |enums| ==> Matches(enums[i], "xs", "simpleType")
    ensures ReadDocument(schema) == Some(Parts(version, root, enums))
  {
    forall i | 0 < i < |schema.children|
      ensures schema.children[i].name == "simpleType"
    {
      assert schema.children[i] == enums[i - 1];
    }
    UniqueIs(schema, 0, "xs", "element");
    RestMatches(m, enums, "xs", "simpleType");
  }

  lemma {:induction false} DocumentRead(version: string, root: XNode, enums: seq<XNode>)
    requires Matches(root, "xs", "element") && "name" in root.attrs && root.attrs["name"] == "root"
    requires forall i :: 0 <= i < |enums| ==> Matches(enums[i], "xs", "simpleType")
    ensures ReadDocument(SchemaDocument(version, root, enums)) == Some(Parts(version, root, enums))
  {
    var schema := SchemaDocument(version, root, enums);
    var m := schema.children[0];
    var c := m.children[1];
    VersionRead(version, m, c);
    RootPartRead(m, m.children[0], c, c.children[0], c.children[1], root);
    PartsRead(schema, m, enums, version, root);
  }

  // ----- Reading a document -----

  /** The root as the constructor makes it, with the description of the document. */
  function FreshRoot(description: string): Element {
    Component("", "", None, Schema("Root", description, false, false, None, ""), [])
  }

  /** `loadRootFromXSD` and what it calls. */
  function ReadRoot(types: Types, node: XNode, model: nat): Option<Element> {
    match ReadProps(node)
    case None => None
    case Some(p) =>
      if p.typ != "component" || p.id != "root" || p.name != "Root" then None else BuildRoot(types, node, model, p)
  }

  function BuildRoot(types: Types, node: XNode, model: nat, p: Props): Option<Element> {
    match LoadXsd(FreshRoot(p.description), [], node, types)
    case None => None
    case Some(l) => ApplyAll(l.e, model, PendingOf(p, []) + l.pending)
  }

  datatype ReadSchema = ReadSchema(version: string, types: Types, root: Element)

  /** `fromXSD`. */
  function ModelOf(schema: XNode, model: nat): Option<ReadSchema> {
    match ReadDocument(schema)
    case None => None
    case Some(parts) => BuildModel(parts, model)
  }

  function BuildModel(parts: Parts, model: nat): Option<ReadSchema> {
    match ReadEnums(Types(map[]), parts.enums)
    case None => None
    case Some(types) =>
      match ReadRoot(types, parts.root, model)
      case None => None
      case Some(root) => Some(ReadSchema(parts.version, types, root))
  }

  /** `toXSD`. */
  function DocumentOf(version: string, types: Types, root: Element): XNode
    requires AllSchema(root)
  {
    SchemaDocument(version, ToXsd(root, root, "root", map[]), AllEnumNodes(types))
  }

  /** When a schema can be read back from its document: no type of a parameter is named like a kind of
      container, and every enumeration has a value that is written. */
  predicate Restorable(root: Element, types: Types)
    requires AllSchema(root)
  {
    Distinguishable(root) && forall id :: id in types.enums ==> types.enums[id].values - {""} != {}
  }

  lemma {:induction false} TypedOf(root: Element, types: Types, p: Pos)
    requires In(root, p) && forall q :: In(root, q) ==> KnownAt(root, types, q)
    ensures Typed(At(root, p), StripTypes(types))
    decreases At(root, p)
  {
    var e := At(root, p);
    assert KnownAt(root, types, p);
    if e.Parameter? {
      StripKnows(types, e.info.typ.value);
    }
    forall s | HasStep(e, s)
      ensures Typed(Sub(e, s), StripTypes(types))
    {
      InSnoc(root, p, s);
      TypedOf(root, types, p + [s]);
    }
  }

  lemma {:induction false} EnumNodesMatch(types: Types, ids: seq<string>)
    requires forall id :: id in ids ==> id in types.enums
    ensures forall i :: 0 <= i < |EnumNodes(types, ids)| ==> Matches(EnumNodes(types, ids)[i], "xs", "simpleType")
  {
    if ids != [] {
      EnumNodesMatch(types, ids[1..]);
    }
  }

  /** The root is read back with its references. */
  lemma {:induction false} RootRead(root: Element, srcModel: nat, types: Types, model: nat)
    requires WellFormed(root, srcModel) && SchemaTree(root) && Regular(root, types) && AllSchema(root)
    ensures ReadRoot(StripTypes(types), ToXsd(root, root, "root", map[]), model) ==
      if Distinguishable(root) then Some(CopyTree(Strip(root), Reread, Some(model))) else None
  {
    var node := ToXsd(root, root, "root", map[]);
    var p := PropsOf(root, root, "root", "component");
    RootPropsRead(root);
    RootContentRead(root, types);
    ReferencesRead(root, srcModel, model);
    RootLoaded(StripTypes(types), node, model, p, LoadXsd(FreshRoot(p.description), [], node, StripTypes(types)));
    assert PendingOf(p, []) == OwnPending(root, root, []);
  }

  lemma {:induction false} RootPropsRead(root: Element)
    requires root.Component? && AllSchema(root)
    ensures ReadProps(ToXsd(root, root, "root", map[])) == Some(PropsOf(root, root, "root", "component"))
  {
    var p := PropsOf(root, root, "root", "component");
    PropsRead(p, root.info.advanced, root.info.readOnly, None, map[], [Sequence(AllToXsd(root, root.items))]);
  }

  lemma {:induction false} RootContentRead(root: Element, types: Types)
    requires IsRoot(root) && Built(root) && Placed(root) && Named(root) && SchemaTree(root) && Regular(root, types)
      && AllSchema(root)
    ensures LoadXsd(FreshRoot(root.info.description), [], ToXsd(root, root, "root", map[]), StripTypes(types)) ==
      if Distinguishable(root) then Some(Loaded(Bare(root), PendingBelow(root, root, [], 0), true)) else None
  {
    var h := FreshRoot(root.info.description);
    TypedOf(root, types, []);
    ComponentRead(root, h, [], root, "root", map[], StripTypes(types));
    BareRoot(root, h);
  }

  lemma {:induction false} RootLoaded(types: Types, node: XNode, model: nat, p: Props, l: Option<Loaded>)
    requires ReadProps(node) == Some(p) && p.typ == "component" && p.id == "root" && p.name == "Root"
    requires l == LoadXsd(FreshRoot(p.description), [], node, types)
    ensures ReadRoot(types, node, model) ==
      if l.None? then None else ApplyAll(l.value.e, model, PendingOf(p, []) + l.value.pending)
  {
  }

  lemma {:induction false} BareRoot(root: Element, h: Element)
    requires IsRoot(root) && SchemaTree(root) && root.info.name == "Root" && h == FreshRoot(root.info.description)
    ensures WithItems(h, BareAll(root.items)) == Bare(root)
  {
  }

  /** A schema that the operations made is read back from its document exactly when it is restorable.
      It comes back with its version, its enumerations, its elements in their order, and every reference
      at the element with the same path, in the new model. */
  lemma {:induction false} DocumentRoundTrip(version: string, types: Types, root: Element, srcModel: nat, model: nat)
    requires WellFormed(root, srcModel) && SchemaTree(root) && Regular(root, types)
    ensures AllSchema(root)
    ensures ModelOf(DocumentOf(version, types, root), model) ==
      if Restorable(root, types) then
        Some(ReadSchema(version, StripTypes(types), CopyTree(Strip(root), Reread, Some(model))))
      else None
  {
    SchemaAll(root);
    var node := ToXsd(root, root, "root", map[]);
    ListingIs(types.enums.Keys);
    EnumNodesMatch(types, Listing(types.enums.Keys));
    DocumentRead(version, node, AllEnumNodes(types));
    TypesRead(types);
    RootRead(root, srcModel, types, model);
  }

  /** The schema that was read back has the same elements at the same paths, with their names,
      descriptions and type ids. */
  lemma {:induction false} ReadBackShape(root: Element, model: nat, p: Pos)
    requires SchemaTree(root)
    ensures var again := CopyTree(Strip(root), Reread, Some(model));
      && (In(again, p) <==> In(root, p))
      && (In(root, p) ==>
            && Path(At(again, p)) == Path(At(root, p))
            && (At(again, p).Component? <==> At(root, p).Component?) && (At(again, p).List? <==> At(root, p).List?)
            && SameTexts(At(root, p).info, At(again, p).info))
  {
    var src := Strip(root);
    StripAt(root, p);
    CopyAt(src, Reread, Some(model), p);
    if In(root, p) {
      StripFace(At(root, p));
      SchemaBelow(root, p);
      CopyFace(src, Reread, Some(model), p);
    }
  }

  /** A reference that was read back targets, in the new model, the parameter with the path of the old
      target, and expects the same value, but for the empty string. */
  lemma {:induction false} ReadBackReference(root: Element, srcModel: nat, model: nat, p: Pos)
    requires WellFormed(root, srcModel) && SchemaTree(root) && In(root, p)
    ensures var again := CopyTree(Strip(root), Reread, Some(model));
      && In(again, p) && (At(again, p).ref.Some? <==> At(root, p).ref.Some?)
      && (At(again, p).ref.Some? ==>
            var was := At(root, p).ref.value;
            var now := At(again, p).ref.value;
            && now.target.model == model
            && In(root, was.target.pos) && In(again, now.target.pos)
            && Path(At(again, now.target.pos)) == Path(At(root, was.target.pos))
            && now.expected.value == if was.expected.value == Some(TextVal("")) then None else was.expected.value)
  {
    var src := Strip(root);
    StripAt(root, p);
    StripFace(At(root, p));
    CopyFace(src, Reread, Some(model), p);
    if At(root, p).ref.Some? {
      var was := At(root, p).ref.value;
      assert GoodRef(root, srcModel, was);
      ReadBackShape(root, model, was.target.pos);
    }
  }

  /** Two schema elements with the same name, description and type id. */
  predicate SameTexts(a: Info, b: Info) {
    && a.Schema? && b.Schema? && a.name == b.name && a.description == b.description
    && (a.typ.Some? <==> b.typ.Some?) && (a.typ.Some? ==> TypeId(a.typ.value) == TypeId(b.typ.value))
  }
}
