/** What the document of a schema says, node by node: in the terms in which a document is read, not in those
    in which it is written. Some of it is for other readers only: marks, units, types and occurrences. */
module XsdContents {
  import opened Wrappers
  import opened Values
  import opened TypesLists
  import opened Elements
  import opened Instances
  import opened Xsd
  import opened MetaModels
  import opened XsdDocuments

  // ----- The nodes of the elements -----

  /** The node of the element at a position, from the node of the one the position starts at. */
  function NodeAt(node: XNode, p: Pos): Option<XNode>
    decreases |p|
  {
    if p == [] then Some(node)
    else
      match p[0]
      case Item(i) =>
        (match ContentNode(node)
         case None => None
         case Some(s) => if i < |s.children| then NodeAt(s.children[i], p[1..]) else None)
      case Pattern =>
        match PatternNode(node)
        case None => None
        case Some(n) => NodeAt(n, p[1..])
  }

  /** Under which name, and with which occurrences, the element at the position is written. */
  function WrittenAs(e: Element, p: Pos, id: string): string
    requires In(e, p)
  {
    if p == [] then id else if p[|p| - 1] == Pattern then "item" else At(e, p).id
  }

  function OccurrencesAt(p: Pos, attrs: map<string, string>): map<string, string> {
    if p == [] then attrs else if p[|p| - 1] == Pattern then ITEM_ATTRS else map[]
  }

  lemma {:induction false} ContentWritten(root: Element, e: Element, id: string, attrs: map<string, string>)
    requires AllSchema(e)
    ensures e.Component? ==>
      ContentNode(ToXsd(root, e, id, attrs)) == Some(XNode("xs", "sequence", map[], AllToXsd(root, e.items), ""))
    ensures e.List? ==> PatternNode(ToXsd(root, e, id, attrs)) == Some(ToXsd(root, e.pattern, "item", ITEM_ATTRS))
  {
    if e.Component? {
      ContentRead(PropsOf(root, e, id, "component"), e.info.advanced, e.info.readOnly, attrs, AllToXsd(root, e.items));
    } else if e.List? {
      var item := ToXsd(root, e.pattern, "item", ITEM_ATTRS);
      ContentRead(PropsOf(root, e, id, "list"), e.info.advanced, e.info.readOnly, map[], [item]);
      OneMatch([item], 0, "xs", "element");
    }
  }

  lemma {:induction false} StepWritten(root: Element, e: Element, s: Step, id: string, attrs: map<string, string>,
                                       p: Pos)
    requires AllSchema(e) && SchemaTree(e) && HasStep(e, s) && p != [] && p[0] == s
    ensures AllSchema(Sub(e, s)) && SchemaTree(Sub(e, s))
    ensures NodeAt(ToXsd(root, e, id, attrs), p) ==
      NodeAt(if s == Pattern then ToXsd(root, Sub(e, s), "item", ITEM_ATTRS)
        else ToXsd(root, Sub(e, s), Sub(e, s).id, map[]), p[1..])
  {
    ContentWritten(root, e, id, attrs);
    if s.Item? {
      AllToXsdAt(root, e.items, s.i);
    }
  }

  lemma {:induction false} NodeWritten(root: Element, e: Element, p: Pos, id: string, attrs: map<string, string>)
    requires AllSchema(e) && SchemaTree(e) && In(e, p)
    ensures AllSchema(At(e, p))
    ensures NodeAt(ToXsd(root, e, id, attrs), p) ==
      Some(ToXsd(root, At(e, p), WrittenAs(e, p, id), OccurrencesAt(p, attrs)))
    decreases |p|
  {
    if p != [] {
      var c := Sub(e, p[0]);
      StepWritten(root, e, p[0], id, attrs, p);
      if p[0] == Pattern {
        NodeWritten(root, c, p[1..], "item", ITEM_ATTRS);
      } else {
        NodeWritten(root, c, p[1..], c.id, map[]);
      }
      assert p[1..] != [] ==> p[1..][|p| - 2] == p[|p| - 1];
    }
  }

  // ----- What a node says -----

  /** The child of the documentation of a node with the name, if there is one such child. */
  function Says(node: XNode, name: string): Option<string> {
    match DocumentationOf(node)
    case None => None
    case Some(d) => ChildContent(d, name)
  }

  lemma {:induction false} NodeSays(p: Props, advanced: bool, readOnly: bool, unit: Option<string>,
                                    attrs: map<string, string>, content: seq<XNode>)
    requires forall i :: 0 <= i < |content| ==> content[i].name == "complexType"
    ensures var node := ElementNode(p, advanced, readOnly, unit, attrs, content);
      && Says(node, "type") == Some(p.typ) && Says(node, "name") == Some(p.name)
      && Says(node, "description") == Some(p.description)
      && Says(node, "reference") == Some(p.reference) && Says(node, "expected") == Some(p.expected)
  {
    var node := ElementNode(p, advanced, readOnly, unit, attrs, content);
    AnnotationRead(node, node.children[0], Documentation(p, advanced, readOnly, unit), content);
    TextsRead(p, advanced, readOnly, unit);
    ReferenceRead(p, advanced, readOnly, unit);
  }

  lemma {:induction false} NodeMarks(p: Props, advanced: bool, readOnly: bool, unit: Option<string>,
                                     attrs: map<string, string>, content: seq<XNode>)
    requires forall i :: 0 <= i < |content| ==> content[i].name == "complexType"
    ensures var node := ElementNode(p, advanced, readOnly, unit, attrs, content);
      && Says(node, "advanced") == Some(if advanced then "true" else "false")
      && Says(node, "readonly") == Some(if readOnly then "true" else "false")
      && Says(node, "unit") == unit
      && DocumentationOf(node).Some? && Attribute(DocumentationOf(node).value, "xml:lang") == "en"
  {
    var node := ElementNode(p, advanced, readOnly, unit, attrs, content);
    AnnotationRead(node, node.children[0], Documentation(p, advanced, readOnly, unit), content);
    DocumentationContent(p, advanced, readOnly, unit, 3);
    DocumentationContent(p, advanced, readOnly, unit, 4);
    UnitSaid(p, advanced, readOnly, unit);
  }

  lemma {:induction false} UnitSaid(p: Props, advanced: bool, readOnly: bool, unit: Option<string>)
    ensures ChildContent(Documentation(p, advanced, readOnly, unit), "unit") == unit
  {
    var d := Documentation(p, advanced, readOnly, unit);
    if unit.Some? {
      DocumentationContent(p, advanced, readOnly, unit, 7);
    } else {
      forall i | 0 <= i < |d.children|
        ensures !Matches(d.children[i], "", "unit")
      {
        NamesDiffer(i, 7);
        assert d.children[i].name == NAMES[i];
      }
      NoMatch(d.children, "", "unit");
    }
  }

  /** The node of an element says what the element is. */
  lemma {:induction false} ElementSays(root: Element, e: Element, id: string, attrs: map<string, string>)
    requires AllSchema(e) && e.info.Schema?
    ensures var node := ToXsd(root, e, id, attrs);
      && node.ns == "xs" && node.name == "element" && Attribute(node, "name") == id
      && Says(node, "name") == Some(e.info.name) && Says(node, "description") == Some(e.info.description)
      && Says(node, "advanced") == Some(if e.info.advanced then "true" else "false")
      && Says(node, "readonly") == Some(if e.info.readOnly then "true" else "false")
      && Says(node, "type") ==
           Some(if e.Component? then "component" else if e.List? then "list" else TypeId(e.info.typ.value))
      && Says(node, "unit") == (if e.Parameter? then Some(e.info.unit) else None)
      && Says(node, "reference") ==
           Some(if e.ref.Some? && In(root, e.ref.value.target.pos) then Path(At(root, e.ref.value.target.pos)) else "")
      && Says(node, "expected") == Some(if e.ref.Some? then ToString(e.ref.value.expected) else "")
  {
    match e {
      case Parameter(_, _, _, info) =>
        var typ := TypeId(info.typ.value);
        var own := map["type" := XsType(typ), "minOccurs" := "0"];
        NodeSays(PropsOf(root, e, id, typ), info.advanced, info.readOnly, Some(info.unit), own, []);
        NodeMarks(PropsOf(root, e, id, typ), info.advanced, info.readOnly, Some(info.unit), own, []);
      case Component(_, _, _, info, items) =>
        var content := [Sequence(AllToXsd(root, items))];
        NodeSays(PropsOf(root, e, id, "component"), info.advanced, info.readOnly, None, attrs, content);
        NodeMarks(PropsOf(root, e, id, "component"), info.advanced, info.readOnly, None, attrs, content);
      case List(_, _, _, info, _, pattern) =>
        var content := [Sequence([ToXsd(root, pattern, "item", ITEM_ATTRS)])];
        NodeSays(PropsOf(root, e, id, "list"), info.advanced, info.readOnly, None, map[], content);
        NodeMarks(PropsOf(root, e, id, "list"), info.advanced, info.readOnly, None, map[], content);
    }
  }

  /** What a validator is told: the type of a parameter, which may be missing, and that a list may have any
      number of items. */
  lemma {:induction false} ElementOccurs(root: Element, e: Element, id: string, attrs: map<string, string>,
                                         types: Types)
    requires AllSchema(e) && (e.Parameter? ==> Knows(types, e.info.typ.value))
    requires attrs == map[] || (attrs == ITEM_ATTRS && e.Component?)
    ensures var node := ToXsd(root, e, id, attrs);
      && Attribute(node, "type") ==
           (if !e.Parameter? then ""
            else
              match e.info.typ.value
              case BoolType => "xs:boolean"
              case NumType(_, _, _) => "xs:integer"
              case TextType => "xs:string"
              case EnumType(name, _) => name)
      && Attribute(node, "minOccurs") == (if e.Parameter? || attrs != map[] then "0" else "")
      && Attribute(node, "maxOccurs") == (if !e.Parameter? && attrs != map[] then "unbounded" else "")
  {
  }

  /** The floating point types, of which no data is modelled here, are decimals. */
  lemma {:induction false} FloatingTypes()
    ensures XsType("double") == XsType("float") == "xs:decimal"
  {
  }

  /** The document has, for the element at any position, a node that says what the element is. */
  lemma {:induction false} DocumentSays(version: string, types: Types, root: Element, p: Pos)
    requires SchemaTree(root) && AllSchema(root) && In(root, p)
    ensures At(root, p).info.Schema? && (At(root, p).Parameter? ==> At(root, p).info.typ.Some?)
    ensures ReadDocument(DocumentOf(version, types, root)).Some?
    ensures var found := NodeAt(ReadDocument(DocumentOf(version, types, root)).value.root, p);
      found.Some? && var node, e := found.value, At(root, p);
      && node.ns == "xs" && node.name == "element"
      && Attribute(node, "name") == (if p == [] then "root" else if p[|p| - 1] == Pattern then "item" else e.id)
      && Says(node, "name") == Some(e.info.name) && Says(node, "description") == Some(e.info.description)
      && Says(node, "advanced") == Some(if e.info.advanced then "true" else "false")
      && Says(node, "readonly") == Some(if e.info.readOnly then "true" else "false")
      && Says(node, "type") ==
           Some(if e.Component? then "component" else if e.List? then "list" else TypeId(e.info.typ.value))
      && Says(node, "unit") == (if e.Parameter? then Some(e.info.unit) else None)
      && Says(node, "reference") ==
           Some(if e.ref.Some? && In(root, e.ref.value.target.pos) then Path(At(root, e.ref.value.target.pos)) else "")
      && Says(node, "expected") == Some(if e.ref.Some? then ToString(e.ref.value.expected) else "")
  {
    RootFound(version, types, root);
    NodeWritten(root, root, p, "root", map[]);
    SchemaBelow(root, p);
    ElementSays(root, At(root, p), WrittenAs(root, p, "root"), OccurrencesAt(p, map[]));
  }

  lemma {:induction false} RootFound(version: string, types: Types, root: Element)
    requires AllSchema(root)
    ensures ReadDocument(DocumentOf(version, types, root)) ==
      Some(Parts(version, ToXsd(root, root, "root", map[]), AllEnumNodes(types)))
  {
    ListingIs(types.enums.Keys);
    EnumNodesMatch(types, Listing(types.enums.Keys));
    DocumentRead(version, ToXsd(root, root, "root", map[]), AllEnumNodes(types));
  }

  /** And what a validator is told of it. */
  lemma {:induction false} DocumentOccurs(version: string, types: Types, root: Element, p: Pos)
    requires SchemaTree(root) && AllSchema(root) && In(root, p) && Regular(root, types)
    ensures ReadDocument(DocumentOf(version, types, root)).Some?
    ensures At(root, p).Parameter? ==> At(root, p).info.Schema? && At(root, p).info.typ.Some?
    ensures var found := NodeAt(ReadDocument(DocumentOf(version, types, root)).value.root, p);
      found.Some? && var node, e := found.value, At(root, p);
      && Attribute(node, "type") ==
           (if !e.Parameter? then ""
            else
              match e.info.typ.value
              case BoolType => "xs:boolean"
              case NumType(_, _, _) => "xs:integer"
              case TextType => "xs:string"
              case EnumType(name, _) => name)
      && Attribute(node, "minOccurs") == (if e.Parameter? || (p != [] && p[|p| - 1] == Pattern) then "0" else "")
      && Attribute(node, "maxOccurs") == (if p != [] && p[|p| - 1] == Pattern then "unbounded" else "")
  {
    RootFound(version, types, root);
    NodeWritten(root, root, p, "root", map[]);
    SchemaBelow(root, p);
    assert KnownAt(root, types, p);
    if p != [] && p[|p| - 1] == Pattern {
      PatternIsComponent(root, p);
    }
    ElementOccurs(root, At(root, p), WrittenAs(root, p, "root"), OccurrencesAt(p, map[]), types);
  }

  lemma {:induction false} PatternIsComponent(e: Element, p: Pos)
    requires AllSchema(e) && SchemaTree(e) && In(e, p) && p != [] && p[|p| - 1] == Pattern
    ensures At(e, p).Component?
    decreases |p|
  {
    if |p| > 1 {
      assert p[1..][|p| - 2] == p[|p| - 1];
      PatternIsComponent(Sub(e, p[0]), p[1..]);
    }
  }

  // ----- The enumerations, and the frame -----

  lemma {:induction false} EnumListed(types: Types, ids: seq<string>, id: string)
    requires id in ids && forall id :: id in ids ==> id in types.enums
    ensures EnumNode(id, types.enums[id]) in EnumNodes(types, ids)
  {
    if ids[0] != id {
      EnumListed(types, ids[1..], id);
    }
  }

  /** The node lists the values of the enumeration in ascending order, and the empty string after them. */
  ghost predicate ListsValues(node: XNode, id: string, e: Enum) {
    && node.ns == "xs" && node.name == "simpleType" && Attribute(node, "name") == id
    && UniqueChildWith(node, "xs", "restriction", "base", "xs:string").Some?
    && Lists(UniqueChildWith(node, "xs", "restriction", "base", "xs:string").value.children, Listing(e.values))
  }

  ghost predicate Lists(nodes: seq<XNode>, values: seq<string>) {
    && |nodes| == |values| + 1
    && (forall i :: 0 <= i < |nodes| ==> nodes[i].ns == "xs" && nodes[i].name == "enumeration")
    && (forall i :: 0 <= i < |values| ==> Attribute(nodes[i], "value") == values[i])
    && "value" in nodes[|values|].attrs && nodes[|values|].attrs["value"] == ""
  }

  lemma {:induction false} ValuesListedAll(values: seq<string>)
    ensures Lists(ValueNodes(values) + [ValueNode("")], values)
  {
  }

  lemma {:induction false} EnumLists(id: string, e: Enum)
    ensures ListsValues(EnumNode(id, e), id, e)
  {
    UniqueWithIs(EnumNode(id, e), 1, "xs", "restriction", "base", "xs:string");
    ValuesListedAll(Listing(e.values));
  }

  /** Every enumeration has a node. */
  lemma {:induction false} EnumerationSays(version: string, types: Types, root: Element, id: string)
    requires AllSchema(root) && id in types.enums
    ensures exists node :: node in DocumentOf(version, types, root).children && ListsValues(node, id, types.enums[id])
  {
    ListingIs(types.enums.Keys);
    EnumListed(types, Listing(types.enums.Keys), id);
    EnumLists(id, types.enums[id]);
    assert EnumNode(id, types.enums[id]) in DocumentOf(version, types, root).children;
  }

  /** What is around them. */
  lemma {:induction false} DocumentFrame(version: string, types: Types, root: Element)
    requires AllSchema(root)
    ensures var doc := DocumentOf(version, types, root);
      && doc.ns == "xs" && doc.name == "schema"
      && doc.attrs == map["xmlns:xs" := "http://www.w3.org/2001/XMLSchema", "elementFormDefault" := "qualified"]
      && UniqueChild(doc, "xs", "element").Some? && var model := UniqueChild(doc, "xs", "element").value;
      && Attribute(model, "name") == "model"
      && UniqueChild(model, "xs", "complexType").Some? && var typ := UniqueChild(model, "xs", "complexType").value;
      && UniqueChild(typ, "xs", "attribute").Some?
      && UniqueChild(typ, "xs", "attribute").value.attrs ==
           map["name" := "version", "type" := "xs:string", "use" := "required"]
  {
    var doc := DocumentOf(version, types, root);
    ListingIs(types.enums.Keys);
    EnumNodesMatch(types, Listing(types.enums.Keys));
    forall i | 0 < i < |doc.children|
      ensures doc.children[i].name == "simpleType"
    {
      assert doc.children[i] == AllEnumNodes(types)[i - 1];
    }
    var model := doc.children[0];
    UniqueIs(doc, 0, "xs", "element");
    UniqueIs(model, 1, "xs", "complexType");
    UniqueIs(model.children[1], 1, "xs", "attribute");
  }

  // ----- Nothing else is written -----

  /** A node of the schema language has no text of its own, and a documentation is in English; any other is a
      leaf that only has text. */
  ghost predicate Tidy(n: XNode) {
    && n.ns in {"xs", ""}
    && (n.ns == "xs" ==> n.text == "" && (n.name == "documentation" ==> n.attrs == map["xml:lang" := "en"]))
    && (n.ns == "" ==> n.children == [] && n.attrs == map[])
    && forall i :: 0 <= i < |n.children| ==> Tidy(n.children[i])
  }

  ghost predicate AllTidy(nodes: seq<XNode>) {
    forall i :: 0 <= i < |nodes| ==> Tidy(nodes[i])
  }

  lemma {:induction false} TidyOver(name: string, attrs: map<string, string>, children: seq<XNode>)
    requires AllTidy(children) && (name == "documentation" ==> attrs == map["xml:lang" := "en"])
    ensures Tidy(XNode("xs", name, attrs, children, ""))
  {
  }

  lemma {:induction false} TidyElement(p: Props, advanced: bool, readOnly: bool, unit: Option<string>,
                                       attrs: map<string, string>, content: seq<XNode>)
    requires AllTidy(content)
    ensures Tidy(ElementNode(p, advanced, readOnly, unit, attrs, content))
  {
    var d := Documentation(p, advanced, readOnly, unit);
    TidyOver("documentation", d.attrs, d.children);
    TidyOver("annotation", map[], [d]);
    TidyOver("element", attrs["name" := p.id], [XNode("xs", "annotation", map[], [d], "")] + content);
  }

  lemma {:induction false} TidySequence(nodes: seq<XNode>)
    requires AllTidy(nodes)
    ensures Tidy(Sequence(nodes))
  {
    TidyOver("sequence", map[], nodes);
    TidyOver("complexType", map[], [XNode("xs", "sequence", map[], nodes, "")]);
  }

  lemma {:induction false} TidyTree(root: Element, e: Element, id: string, attrs: map<string, string>)
    requires AllSchema(e)
    ensures Tidy(ToXsd(root, e, id, attrs))
    decreases e
  {
    match e {
      case Parameter(_, _, _, info) =>
        var typ := TypeId(info.typ.value);
        TidyElement(PropsOf(root, e, id, typ), info.advanced, info.readOnly, Some(info.unit),
          map["type" := XsType(typ), "minOccurs" := "0"], []);
      case Component(_, _, _, info, items) =>
        var nodes := AllToXsd(root, items);
        forall i | 0 <= i < |items|
          ensures Tidy(nodes[i])
        {
          AllToXsdAt(root, items, i);
          TidyTree(root, items[i], items[i].id, map[]);
        }
        TidySequence(nodes);
        TidyElement(PropsOf(root, e, id, "component"), info.advanced, info.readOnly, None, attrs, [Sequence(nodes)]);
      case List(_, _, _, info, _, pattern) =>
        var item := ToXsd(root, pattern, "item", ITEM_ATTRS);
        TidyTree(root, pattern, "item", ITEM_ATTRS);
        TidySequence([item]);
        TidyElement(PropsOf(root, e, id, "list"), info.advanced, info.readOnly, None, map[], [Sequence([item])]);
    }
  }

  lemma {:induction false} TidyAnnotation(leaves: seq<XNode>)
    requires AllTidy(leaves)
    ensures Tidy(Annotation(leaves))
  {
    TidyOver("documentation", map["xml:lang" := "en"], leaves);
    TidyOver("annotation", map[], [XNode("xs", "documentation", map["xml:lang" := "en"], leaves, "")]);
  }

  lemma {:induction false} TidyEnum(id: string, e: Enum)
    ensures Tidy(EnumNode(id, e))
  {
    var node := EnumNode(id, e);
    var values := ValueNodes(Listing(e.values)) + [ValueNode("")];
    assert forall v :: Tidy(ValueNode(v));
    assert AllTidy(values);
    TidyAnnotation([Leaf("name", e.name), Leaf("description", e.description)]);
    TidyOver("restriction", map["base" := "xs:string"], values);
    TidyOver("simpleType", map["name" := id], node.children);
  }

  lemma {:induction false} TidyEnums(types: Types, ids: seq<string>)
    requires forall id :: id in ids ==> id in types.enums
    ensures AllTidy(EnumNodes(types, ids))
  {
    if ids != [] {
      TidyEnum(ids[0], types.enums[ids[0]]);
      TidyEnums(types, ids[1..]);
    }
  }

  /** A document has text only where it says something. */
  lemma {:induction false} DocumentTidy(version: string, types: Types, root: Element)
    requires AllSchema(root)
    ensures Tidy(DocumentOf(version, types, root))
  {
    var doc := DocumentOf(version, types, root);
    var model := doc.children[0];
    var typ := model.children[1];
    ListingIs(types.enums.Keys);
    TidyEnums(types, Listing(types.enums.Keys));
    TidyTree(root, root, "root", map[]);
    TidyAnnotation([Leaf("version", version)]);
    TidyOver("sequence", map[], typ.children[0].children);
    TidyOver("attribute", typ.children[1].attrs, []);
    TidyOver("complexType", map[], typ.children);
    TidyOver("element", model.attrs, model.children);
    TidyOver("schema", doc.attrs, doc.children);
  }
}
