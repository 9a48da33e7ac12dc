/** Which schema documents can be read, and what is read from them: a child at a time, without the tree that the
    loops build up on the way. For every document, whoever wrote it. */
module XsdReading {
  import opened Wrappers
  import opened Values
  import opened TypesLists
  import opened Elements
  import opened Edits
  import opened DataLists
  import opened Xsd
  import opened MetaModels
  import opened XsdReferences
  import opened XsdDocuments
  import opened XsdContents

  // ----- What the reader asks of a node -----

  /** The child of the documentation with the name, or nothing. */
  function Text(n: XNode, name: string): string {
    match Says(n, name)
    case None => ""
    case Some(t) => t
  }

  /** The node has a documentation, with one child of each of these names. */
  ghost predicate Documented(n: XNode) {
    && Says(n, "name").Some? && Says(n, "type").Some? && Says(n, "description").Some? && Says(n, "advanced").Some?
    && Says(n, "reference").Some? && Says(n, "expected").Some?
  }

  /** An element is added when its id has no separator and no child before it has the id. */
  ghost predicate Addable(cs: seq<XNode>, k: nat)
    requires k < |cs|
  {
    '/' !in Attribute(cs[k], "name") && forall j :: 0 <= j < k ==> Attribute(cs[j], "name") != Attribute(cs[k], "name")
  }

  /** A node whose content is read: a sequence of elements, each of which can be read, the last of which is
      added. */
  ghost predicate ReadsContent(n: XNode, types: Types)
    decreases n, 0
  {
    ContentNode(n).Some? && var cs := ContentNode(n).value.children;
    && (forall k :: 0 <= k < |cs| ==> cs[k].ns == "xs" && cs[k].name == "element")
    && ReadsFrom(cs, 0, types) && (cs != [] ==> Addable(cs, |cs| - 1))
  }

  /** The children from the one at `k` on can be read. */
  ghost predicate ReadsFrom(cs: seq<XNode>, k: nat, types: Types)
    requires k <= |cs|
    decreases cs, 3, |cs| - k
  {
    k < |cs| ==> ReadsChild(cs[k], Addable(cs, k), types) && ReadsFrom(cs, k + 1, types)
  }

  /** A child that can be read. A component or a list must be added; a parameter must have a known type, and
      when it is not added it must have neither a unit nor a reference. */
  ghost predicate ReadsChild(c: XNode, added: bool, types: Types)
    decreases c, 1
  {
    && Documented(c)
    && if Text(c, "type") == "component" then added && ReadsContent(c, types)
       else if Text(c, "type") == "list" then
         added && PatternNode(c).Some? && Documented(PatternNode(c).value) && ReadsContent(PatternNode(c).value, types)
       else GetType(types, Text(c, "type")).Some? && (added || (Says(c, "unit").None? && Text(c, "reference") == ""))
  }

  // ----- What is read -----

  ghost function Described(n: XNode, typ: Option<DataType>): Info {
    Schema(Text(n, "name"), Text(n, "description"), false, false, typ, "")
  }

  /** The elements added from the first `k` children of a component with the path. */
  ghost function ItemsOf(path: string, cs: seq<XNode>, types: Types, k: nat): seq<Element>
    requires k <= |cs|
    decreases cs, 3, k
  {
    if k == 0 then []
    else
      ItemsOf(path, cs, types, k - 1)
      + if Addable(cs, k - 1) then [ItemFrom(path, cs[k - 1], types)] else []
  }

  /** A component with its content, a list with its pattern, or a parameter, below the path. */
  ghost function ItemFrom(path: string, n: XNode, types: Types): (e: Element)
    ensures e.id == Attribute(n, "name")
    decreases n, 2
  {
    var id := Attribute(n, "name");
    if Text(n, "type") == "component" then
      match ContentNode(n)
      case None => Component(id, path, None, Described(n, None), [])
      case Some(s) =>
        Component(id, path, None, Described(n, None), ItemsOf(PathOf(id, path), s.children, types, |s.children|))
    else if Text(n, "type") == "list" then
      match PatternNode(n)
      case None => List(id, path, None, Described(n, None), [], Parameter("", "", None, Plain))
      case Some(p) => List(id, path, None, Described(n, None), [], PatternFrom(path + "/" + id, p, types))
    else Parameter(id, path, None, Described(n, GetType(types, Text(n, "type"))))
  }

  ghost function PatternFrom(path: string, p: XNode, types: Types): Element
    decreases p, 1
  {
    match ContentNode(p)
    case None => Component("*", path, None, Described(p, None), [])
    case Some(s) =>
      Component("*", path, None, Described(p, None), ItemsOf(PathOf("*", path), s.children, types, |s.children|))
  }

  /** How many of the first `k` children are added. */
  ghost function Rank(cs: seq<XNode>, k: nat): nat
    requires k <= |cs|
  {
    if k == 0 then 0 else Rank(cs, k - 1) + if Addable(cs, k - 1) then 1 else 0
  }

  /** The references of the elements added from the children, from the one at `k` on. */
  ghost function ReferencesOf(pos: Pos, cs: seq<XNode>, k: nat): seq<Pending>
    requires k <= |cs|
    decreases cs, 3, |cs| - k
  {
    if k == |cs| then []
    else
      (if Addable(cs, k) then ReferencesIn(pos + [Item(Rank(cs, k))], cs[k]) else []) + ReferencesOf(pos, cs, k + 1)
  }

  /** Those of the element from the node, which is at the position: below it first. */
  ghost function ReferencesIn(at: Pos, n: XNode): seq<Pending>
    decreases n, 2
  {
    if Text(n, "type") == "component" then ReferencesBelow(at, n) + OwnReference(at, n)
    else if Text(n, "type") == "list" then
      match PatternNode(n)
      case None => []
      case Some(p) => ReferencesBelow(at + [Pattern], p) + OwnReference(at + [Pattern], p) + OwnReference(at, n)
    else OwnReference(at, n)
  }

  ghost function ReferencesBelow(at: Pos, n: XNode): seq<Pending>
    decreases n, 1
  {
    match ContentNode(n)
    case None => []
    case Some(s) => ReferencesOf(at, s.children, 0)
  }

  ghost function OwnReference(at: Pos, n: XNode): seq<Pending> {
    if Text(n, "reference") == "" then [] else [Pending(at, Text(n, "reference"), Text(n, "expected"))]
  }

  // ----- The loops do the same -----

  lemma {:induction false} PropsIff(n: XNode)
    ensures ReadProps(n) ==
      if Documented(n) then
        Some(Props(Attribute(n, "name"), Text(n, "type"), Text(n, "name"), Text(n, "description"), Text(n, "reference"),
          Text(n, "expected")))
      else None
  {
  }

  lemma {:induction false} ItemsCount(path: string, cs: seq<XNode>, types: Types, k: nat)
    requires k <= |cs|
    ensures |ItemsOf(path, cs, types, k)| == Rank(cs, k)
    decreases k
  {
    if k > 0 {
      ItemsCount(path, cs, types, k - 1);
    }
  }

  /** Some child with the id of the one at `j`, no later, is added, unless the id has a separator. */
  lemma {:induction false} FirstAdded(cs: seq<XNode>, j: nat) returns (i: nat)
    requires j < |cs| && '/' !in Attribute(cs[j], "name")
    ensures i <= j && Addable(cs, i) && Attribute(cs[i], "name") == Attribute(cs[j], "name")
    decreases j
  {
    if Addable(cs, j) {
      i := j;
    } else {
      var m :| 0 <= m < j && Attribute(cs[m], "name") == Attribute(cs[j], "name");
      i := FirstAdded(cs, m);
    }
  }

  lemma {:induction false} HasItem(path: string, cs: seq<XNode>, types: Types, k: nat, i: nat) returns (m: nat)
    requires i < k <= |cs| && Addable(cs, i)
    ensures m < |ItemsOf(path, cs, types, k)| && ItemsOf(path, cs, types, k)[m].id == Attribute(cs[i], "name")
    decreases k
  {
    var before := ItemsOf(path, cs, types, k - 1);
    if i == k - 1 {
      var x := ItemFrom(path, cs[i], types);
      assert ItemsOf(path, cs, types, k) == before + [x];
      assert (before + [x])[|before|] == x && x.id == Attribute(cs[i], "name");
      m := |before|;
    } else {
      m := HasItem(path, cs, types, k - 1, i);
      assert ItemsOf(path, cs, types, k)[m] == before[m];
    }
  }

  lemma {:induction false} OfChild(path: string, cs: seq<XNode>, types: Types, k: nat, m: nat) returns (j: nat)
    requires k <= |cs| && m < |ItemsOf(path, cs, types, k)|
    ensures j < k && ItemsOf(path, cs, types, k)[m].id == Attribute(cs[j], "name")
    decreases k
  {
    var before := ItemsOf(path, cs, types, k - 1);
    if m < |before| {
      j := OfChild(path, cs, types, k - 1, m);
      assert ItemsOf(path, cs, types, k)[m] == before[m];
    } else {
      var x := ItemFrom(path, cs[k - 1], types);
      assert ItemsOf(path, cs, types, k) == before + [x] && (before + [x])[m] == x;
      j := k - 1;
    }
  }

  /** The check on the tree so far is the one on the children before. */
  lemma {:induction false} CanAddIff(e: Element, cs: seq<XNode>, types: Types, k: nat)
    requires e.Component? && k < |cs| && e.items == ItemsOf(Path(e), cs, types, k)
    ensures CanAdd(e, Attribute(cs[k], "name")) <==> Addable(cs, k)
  {
    var id := Attribute(cs[k], "name");
    if FindItem(e.items, id).Some? {
      var j := OfChild(Path(e), cs, types, k, FindItem(e.items, id).value);
    }
    if '/' !in id && !Addable(cs, k) {
      var j :| 0 <= j < k && Attribute(cs[j], "name") == id;
      var i := FirstAdded(cs, j);
      var m := HasItem(Path(e), cs, types, k, i);
    }
  }

  /** The component with the items so far. */
  ghost predicate Holds(e: Element, h: Element, cs: seq<XNode>, types: Types, k: nat) {
    h.Component? && k <= |cs| && e == WithItems(h, ItemsOf(Path(h), cs, types, k))
  }

  lemma {:induction false} HeldNext(e: Element, h: Element, cs: seq<XNode>, types: Types, k: nat)
    requires Holds(e, h, cs, types, k) && k < |cs|
    ensures e.Component? && Path(e) == Path(h) && |e.items| == Rank(cs, k)
    ensures CanAdd(e, Attribute(cs[k], "name")) <==> Addable(cs, k)
    ensures WithItems(h, ItemsOf(Path(h), cs, types, k + 1)) ==
      if Addable(cs, k) then WithItems(e, e.items + [ItemFrom(Path(h), cs[k], types)]) else e
  {
    CanAddIff(e, cs, types, k);
    ItemsCount(Path(h), cs, types, k);
    var items := ItemsOf(Path(h), cs, types, k);
    assert items + [] == items;
  }

  /** What reading the child at `k` gives. */
  ghost function ChildRead(h: Element, pos: Pos, cs: seq<XNode>, k: nat, types: Types): Option<Loaded>
    requires h.Component? && k < |cs|
  {
    if ReadsChild(cs[k], Addable(cs, k), types) then
      Some(Loaded(WithItems(h, ItemsOf(Path(h), cs, types, k + 1)),
        if Addable(cs, k) then ReferencesIn(pos + [Item(Rank(cs, k))], cs[k]) else [], Addable(cs, k)))
    else None
  }

  /** What reading all of a content gives. */
  ghost function ContentRead(h: Element, pos: Pos, n: XNode, types: Types): Option<Loaded>
    requires h.Component?
  {
    if ReadsContent(n, types) then
      var cs := ContentNode(n).value.children;
      Some(Loaded(WithItems(h, ItemsOf(Path(h), cs, types, |cs|)), ReferencesOf(pos, cs, 0), true))
    else None
  }

  lemma {:induction false} ParameterIs(e: Element, h: Element, pos: Pos, cs: seq<XNode>, k: nat, types: Types)
    requires Holds(e, h, cs, types, k) && k < |cs| && Documented(cs[k])
    requires Text(cs[k], "type") != "component" && Text(cs[k], "type") != "list"
    ensures LoadChild(e, pos, cs[k], types) == ChildRead(h, pos, cs, k, types)
  {
    PropsIff(cs[k]);
    HeldNext(e, h, cs, types, k);
    var p := ReadProps(cs[k]).value;
    var t := GetType(types, p.typ);
    if t.Some? && CanAdd(e, p.id) {
      ChildParameter(e, pos, cs[k], types, p, t.value);
      assert ItemFrom(Path(h), cs[k], types) == NewParameter(e, p, t.value);
    }
  }

  /** What reading a child gives the component `e`. */
  ghost function WithChild(e: Element, at: Pos, n: XNode, types: Types): Loaded
    requires e.Component?
  {
    Loaded(WithItems(e, e.items + [ItemFrom(Path(e), n, types)]), ReferencesIn(at, n), true)
  }

  lemma {:induction false} ComponentRead(e: Element, at: Pos, n: XNode, types: Types, p: Props)
    requires e.Component? && ReadProps(n) == Some(p) && p.typ == "component" && ReadsContent(n, types)
    ensures ContentRead(NewComponent(e, p), at, n, types) ==
      Some(Loaded(ItemFrom(Path(e), n, types), ReferencesBelow(at, n), true))
    ensures ReferencesIn(at, n) == ReferencesBelow(at, n) + PendingOf(p, at)
  {
    PropsIff(n);
    assert Path(NewComponent(e, p)) == PathOf(p.id, Path(e));
  }

  /** A component, in terms of what its content gives. */
  lemma {:induction false} ComponentChild(e: Element, pos: Pos, n: XNode, types: Types, p: Props)
    requires e.Component? && ReadProps(n) == Some(p) && p.typ == "component"
    ensures LoadChild(e, pos, n, types) ==
      if CanAdd(e, p.id) && ReadsContent(n, types) then Some(WithChild(e, pos + [Item(|e.items|)], n, types)) else None
    decreases n, 2
  {
    var at := pos + [Item(|e.items|)];
    ContentIs(NewComponent(e, p), at, n, types);
    if CanAdd(e, p.id) {
      ChildComponent(e, pos, n, types, p, LoadXsd(NewComponent(e, p), at, n, types));
      if ReadsContent(n, types) {
        ComponentRead(e, at, n, types, p);
      }
    } else {
      assert LoadComponent(e, at, n, types, p) == None;
    }
  }

  lemma {:induction false} ListRead(e: Element, at: Pos, c: XNode, types: Types, p: Props, n: XNode, q: Props)
    requires e.Component? && ReadProps(c) == Some(p) && p.typ == "list" && PatternNode(c) == Some(n)
    requires ReadProps(n) == Some(q) && ReadsContent(n, types)
    ensures var list := NewList(Path(e), p.id, p.name, q.name, p.description, q.description);
      var pattern := PatternFrom(Path(e) + "/" + p.id, n, types);
      && ContentRead(list.pattern, at + [Pattern], n, types) ==
           Some(Loaded(pattern, ReferencesBelow(at + [Pattern], n), true))
      && ItemFrom(Path(e), c, types) == list.(pattern := pattern)
    ensures ReferencesIn(at, c) ==
      ReferencesBelow(at + [Pattern], n) + PendingOf(q, at + [Pattern]) + PendingOf(p, at)
  {
    PropsIff(c);
    PropsIff(n);
    var list := NewList(Path(e), p.id, p.name, q.name, p.description, q.description);
    assert Path(list.pattern) == PathOf("*", Path(e) + "/" + p.id);
  }

  /** A list, in terms of what the content of its pattern gives. */
  lemma {:induction false} ListChild(e: Element, pos: Pos, c: XNode, types: Types, p: Props)
    requires e.Component? && ReadProps(c) == Some(p) && p.typ == "list"
    ensures LoadChild(e, pos, c, types) ==
      if CanAdd(e, p.id) && PatternNode(c).Some? && Documented(PatternNode(c).value)
        && ReadsContent(PatternNode(c).value, types)
      then Some(WithChild(e, pos + [Item(|e.items|)], c, types)) else None
    decreases c, 2
  {
    var at := pos + [Item(|e.items|)];
    if PatternNode(c).Some? {
      PropsIff(PatternNode(c).value);
    }
    if PatternNode(c).Some? && Documented(PatternNode(c).value) && CanAdd(e, p.id) {
      var n := PatternNode(c).value;
      var q := ReadProps(n).value;
      var h := NewList(Path(e), p.id, p.name, q.name, p.description, q.description).pattern;
      ContentIs(h, at + [Pattern], n, types);
      ChildList(e, pos, c, types, p, n, q, LoadXsd(h, at + [Pattern], n, types));
      if ReadsContent(n, types) {
        ListRead(e, at, c, types, p, n, q);
      }
    } else {
      assert LoadList(e, at, c, types, p) == None;
    }
  }

  lemma {:induction false} ReadsContainer(c: XNode, added: bool, types: Types)
    requires Documented(c)
    ensures Text(c, "type") == "component" ==> (ReadsChild(c, added, types) <==> added && ReadsContent(c, types))
    ensures Text(c, "type") == "list" ==>
      (ReadsChild(c, added, types) <==>
       added && PatternNode(c).Some? && Documented(PatternNode(c).value) && ReadsContent(PatternNode(c).value, types))
  {
  }

  /** The children one by one: what a container gives is what the list of children says. */
  lemma {:induction false} ContainerIs(e: Element, h: Element, pos: Pos, cs: seq<XNode>, k: nat, types: Types,
                                       readable: bool)
    requires Holds(e, h, cs, types, k) && k < |cs| && (readable ==> Addable(cs, k))
    requires readable <==> ReadsChild(cs[k], Addable(cs, k), types)
    ensures ChildRead(h, pos, cs, k, types) ==
      if readable then Some(WithChild(e, pos + [Item(|e.items|)], cs[k], types)) else None
  {
    HeldNext(e, h, cs, types, k);
  }

  lemma {:induction false} ChildIs(e: Element, h: Element, pos: Pos, cs: seq<XNode>, k: nat, types: Types)
    requires Holds(e, h, cs, types, k) && k < |cs|
    ensures LoadChild(e, pos, cs[k], types) == ChildRead(h, pos, cs, k, types)
    decreases cs[k], 4
  {
    PropsIff(cs[k]);
    if Documented(cs[k]) {
      HeldNext(e, h, cs, types, k);
      ReadsContainer(cs[k], Addable(cs, k), types);
      var p := ReadProps(cs[k]).value;
      if p.typ == "component" {
        ComponentChild(e, pos, cs[k], types, p);
        ContainerIs(e, h, pos, cs, k, types, Addable(cs, k) && ReadsContent(cs[k], types));
      } else if p.typ == "list" {
        ListChild(e, pos, cs[k], types, p);
        ContainerIs(e, h, pos, cs, k, types, ReadsChild(cs[k], Addable(cs, k), types));
      } else {
        ParameterIs(e, h, pos, cs, k, types);
      }
    }
  }

  /** What reading the children from the one at `k` on gives. */
  ghost function RestRead(h: Element, pos: Pos, cs: seq<XNode>, k: nat, types: Types): Option<Loaded>
    requires h.Component? && k <= |cs|
  {
    if ReadsFrom(cs, k, types) && (k < |cs| ==> Addable(cs, |cs| - 1)) then
      Some(Loaded(WithItems(h, ItemsOf(Path(h), cs, types, |cs|)), ReferencesOf(pos, cs, k), true))
    else None
  }

  lemma {:induction false} RestNext(h: Element, pos: Pos, cs: seq<XNode>, k: nat, types: Types)
    requires h.Component? && k < |cs|
    ensures var first := ChildRead(h, pos, cs, k, types);
      RestRead(h, pos, cs, k, types) ==
        if first.None? || (k + 1 == |cs| && !first.value.present) then None
        else After(first.value.pending, RestRead(h, pos, cs, k + 1, types))
  {
  }

  lemma {:induction false} LoadRest(e: Element, pos: Pos, cs: seq<XNode>, k: nat, types: Types, first: Option<Loaded>)
    requires e.Component? && k < |cs| && first == LoadChild(e, pos, cs[k], types)
    ensures LoadChildren(e, pos, cs[k..], types) ==
      if first.None? || (k + 1 == |cs| && !first.value.present) then None
      else After(first.value.pending, LoadChildren(first.value.e, pos, cs[k + 1..], types))
  {
    assert cs[k..][0] == cs[k] && cs[k..][1..] == cs[k + 1..];
  }

  lemma {:induction false} ChildrenIs(e: Element, h: Element, pos: Pos, cs: seq<XNode>, k: nat, types: Types)
    requires Holds(e, h, cs, types, k)
    ensures LoadChildren(e, pos, cs[k..], types) == RestRead(h, pos, cs, k, types)
    decreases cs, 4, |cs| - k
  {
    if k < |cs| {
      ChildIs(e, h, pos, cs, k, types);
      var first := LoadChild(e, pos, cs[k], types);
      if first.Some? {
        HoldsNext(h, pos, cs, k, types, first.value);
        ChildrenIs(first.value.e, h, pos, cs, k + 1, types);
      }
      ChildrenStep(e, h, pos, cs, k, types, first);
    } else {
      ChildrenEnd(e, h, pos, cs, types);
    }
  }

  lemma {:induction false} HoldsNext(h: Element, pos: Pos, cs: seq<XNode>, k: nat, types: Types, first: Loaded)
    requires h.Component? && k < |cs| && ChildRead(h, pos, cs, k, types) == Some(first)
    ensures Holds(first.e, h, cs, types, k + 1)
  {
  }

  lemma {:induction false} ChildrenStep(e: Element, h: Element, pos: Pos, cs: seq<XNode>, k: nat, types: Types,
                                        first: Option<Loaded>)
    requires e.Component? && h.Component? && k < |cs|
    requires first == LoadChild(e, pos, cs[k], types) == ChildRead(h, pos, cs, k, types)
    requires first.Some? ==> LoadChildren(first.value.e, pos, cs[k + 1..], types) == RestRead(h, pos, cs, k + 1, types)
    ensures LoadChildren(e, pos, cs[k..], types) == RestRead(h, pos, cs, k, types)
  {
    RestNext(h, pos, cs, k, types);
    LoadRest(e, pos, cs, k, types, first);
  }

  lemma {:induction false} ChildrenEnd(e: Element, h: Element, pos: Pos, cs: seq<XNode>, types: Types)
    requires Holds(e, h, cs, types, |cs|)
    ensures LoadChildren(e, pos, cs[|cs|..], types) == RestRead(h, pos, cs, |cs|, types)
  {
    assert cs[|cs|..] == [];
  }

  lemma {:induction false} AllElements(cs: seq<XNode>)
    ensures |ChildNodes(cs, "xs", "element")| == |cs| <==>
      forall k :: 0 <= k < |cs| ==> cs[k].ns == "xs" && cs[k].name == "element"
  {
    if cs != [] {
      AllElements(cs[1..]);
      ChildNodesAre(cs[1..], "xs", "element");
      assert forall k :: 0 < k < |cs| ==> cs[k] == cs[1..][k - 1];
      assert forall k :: 0 <= k < |cs[1..]| ==> cs[1..][k] == cs[k + 1];
    }
  }

  lemma {:induction false} ContentIsRest(h: Element, pos: Pos, n: XNode, types: Types, cs: seq<XNode>)
    requires h.Component? && ContentNode(n).Some? && cs == ContentNode(n).value.children
    ensures ContentRead(h, pos, n, types) ==
      if forall k :: 0 <= k < |cs| ==> cs[k].ns == "xs" && cs[k].name == "element" then RestRead(h, pos, cs, 0, types)
      else None
  {
  }

  /** Reading the content of any node into a new component. */
  lemma {:induction false} ContentIs(h: Element, pos: Pos, n: XNode, types: Types)
    requires h.Component? && h.items == []
    ensures LoadXsd(h, pos, n, types) == ContentRead(h, pos, n, types)
    decreases n, 1
  {
    if ContentNode(n).Some? {
      var cs := ContentNode(n).value.children;
      AllElements(cs);
      assert cs[0..] == cs;
      ChildrenIs(h, h, pos, cs, 0, types);
      ContentIsRest(h, pos, n, types, cs);
    }
  }

  // ----- Enumerations, and the document around them -----

  lemma {:induction false} ValuesAre(nodes: seq<XNode>, v: string)
    ensures v in ReadValues(nodes) <==> v != "" && exists i :: 0 <= i < |nodes| && Attribute(nodes[i], "value") == v
  {
    if nodes != [] {
      ValuesAre(nodes[1..], v);
      if v in ReadValues(nodes[1..]) {
        var i :| 0 <= i < |nodes[1..]| && Attribute(nodes[1..][i], "value") == v;
        assert Attribute(nodes[i + 1], "value") == v;
      }
      if exists i :: 0 <= i < |nodes| && Attribute(nodes[i], "value") == v {
        var i :| 0 <= i < |nodes| && Attribute(nodes[i], "value") == v;
        assert i > 0 ==> nodes[1..][i - 1] == nodes[i];
      }
    }
  }

  /** A node of that kind that has the attribute with the value. */
  predicate HasWith(n: XNode, ns: string, name: string, attribute: string, value: string) {
    n.name == name && (ns == "" || n.ns == ns) && attribute in n.attrs && n.attrs[attribute] == value
  }

  predicate OnlyWith(nodes: seq<XNode>, k: nat, ns: string, name: string, attribute: string, value: string) {
    && k < |nodes| && HasWith(nodes[k], ns, name, attribute, value)
    && forall i :: 0 <= i < |nodes| && HasWith(nodes[i], ns, name, attribute, value) ==> i == k
  }

  function AllWith(nodes: seq<XNode>, ns: string, name: string, attribute: string, value: string): seq<XNode> {
    WithAttribute(ChildNodes(nodes, ns, name), attribute, value)
  }

  lemma {:induction false} AllWithCons(nodes: seq<XNode>, ns: string, name: string, attribute: string, value: string)
    requires nodes != []
    ensures AllWith(nodes, ns, name, attribute, value) ==
      (if HasWith(nodes[0], ns, name, attribute, value) then [nodes[0]] else [])
      + AllWith(nodes[1..], ns, name, attribute, value)
  {
    var rest := ChildNodes(nodes[1..], ns, name);
    if Matches(nodes[0], ns, name) {
      assert ([nodes[0]] + rest)[1..] == rest;
    } else {
      assert [] + rest == rest;
    }
  }

  lemma {:induction false} NoneWith(nodes: seq<XNode>, ns: string, name: string, attribute: string, value: string)
    ensures AllWith(nodes, ns, name, attribute, value) == [] <==>
      forall i :: 0 <= i < |nodes| ==> !HasWith(nodes[i], ns, name, attribute, value)
  {
    if nodes != [] {
      AllWithCons(nodes, ns, name, attribute, value);
      NoneWith(nodes[1..], ns, name, attribute, value);
      assert forall i :: 0 < i < |nodes| ==> nodes[i] == nodes[1..][i - 1];
      assert forall i :: 0 <= i < |nodes[1..]| ==> nodes[1..][i] == nodes[i + 1];
    }
  }

  lemma {:induction false} OneWith(nodes: seq<XNode>, ns: string, name: string, attribute: string, value: string)
    returns (k: nat)
    requires |AllWith(nodes, ns, name, attribute, value)| == 1
    ensures OnlyWith(nodes, k, ns, name, attribute, value)
    ensures AllWith(nodes, ns, name, attribute, value) == [nodes[k]]
  {
    AllWithCons(nodes, ns, name, attribute, value);
    assert nodes == [nodes[0]] + nodes[1..];
    if HasWith(nodes[0], ns, name, attribute, value) {
      NoneWith(nodes[1..], ns, name, attribute, value);
      k := 0;
    } else {
      var m := OneWith(nodes[1..], ns, name, attribute, value);
      k := m + 1;
    }
  }

  lemma {:induction false} OnlyIsAll(nodes: seq<XNode>, k: nat, ns: string, name: string, attribute: string,
                                     value: string)
    requires OnlyWith(nodes, k, ns, name, attribute, value)
    ensures AllWith(nodes, ns, name, attribute, value) == [nodes[k]]
  {
    AllWithCons(nodes, ns, name, attribute, value);
    if k == 0 {
      NoneWith(nodes[1..], ns, name, attribute, value);
    } else {
      assert nodes[1..][k - 1] == nodes[k];
      OnlyIsAll(nodes[1..], k - 1, ns, name, attribute, value);
    }
  }

  /** A child with an attribute is found exactly when only one has it, and it is that one. */
  lemma {:induction false} UniqueWithIff(n: XNode, ns: string, name: string, attribute: string, value: string)
    ensures UniqueChildWith(n, ns, name, attribute, value).Some? <==>
      exists k: nat :: OnlyWith(n.children, k, ns, name, attribute, value)
    ensures forall k: nat :: OnlyWith(n.children, k, ns, name, attribute, value) ==>
      UniqueChildWith(n, ns, name, attribute, value) == Some(n.children[k])
  {
    if UniqueChildWith(n, ns, name, attribute, value).Some? {
      var k := OneWith(n.children, ns, name, attribute, value);
    }
    forall k: nat | OnlyWith(n.children, k, ns, name, attribute, value)
      ensures UniqueChildWith(n, ns, name, attribute, value) == Some(n.children[k])
    {
      OnlyIsAll(n.children, k, ns, name, attribute, value);
    }
  }

  /** The node of an enumeration: its id, name and description, and a restriction of strings with enumeration
      nodes only, which name the values; the empty string is none of them. */
  lemma {:induction false} EnumIff(node: XNode)
    ensures ReadEnum(node).Some? <==>
      && |node.children| == 2 && UniqueChild(node, "xs", "annotation").Some?
      && UniqueChild(UniqueChild(node, "xs", "annotation").value, "xs", "documentation").Some?
      && EnumText(node, "name").Some? && EnumText(node, "description").Some?
      && UniqueChildWith(node, "xs", "restriction", "base", "xs:string").Some?
      && forall c :: c in UniqueChildWith(node, "xs", "restriction", "base", "xs:string").value.children ==>
           c.ns == "xs" && c.name == "enumeration"
    ensures ReadEnum(node).Some? ==>
      var (id, e) := ReadEnum(node).value;
      && id == Attribute(node, "name") && Some(e.name) == EnumText(node, "name")
      && Some(e.description) == EnumText(node, "description")
      && forall v :: v in e.values <==> (v != "" && HasValue(node, v))
  {
    var r := UniqueChildWith(node, "xs", "restriction", "base", "xs:string");
    if r.Some? {
      AllNamed(r.value.children, "enumeration");
      forall v
        ensures v in ReadValues(r.value.children) <==> v != "" && HasValue(node, v)
      {
        ValuesAre(r.value.children, v);
      }
    }
  }

  lemma {:induction false} AllNamed(cs: seq<XNode>, name: string)
    ensures |ChildNodes(cs, "xs", name)| == |cs| <==> forall c :: c in cs ==> c.ns == "xs" && c.name == name
  {
    if cs != [] {
      AllNamed(cs[1..], name);
      ChildNodesAre(cs[1..], "xs", name);
      assert cs == [cs[0]] + cs[1..];
    }
  }

  function EnumText(node: XNode, name: string): Option<string> {
    match UniqueChild(node, "xs", "annotation")
    case None => None
    case Some(a) =>
      match UniqueChild(a, "xs", "documentation")
      case None => None
      case Some(d) => ChildContent(d, name)
  }

  ghost predicate HasValue(node: XNode, v: string) {
    UniqueChildWith(node, "xs", "restriction", "base", "xs:string").Some? &&
    exists i :: 0 <= i < |UniqueChildWith(node, "xs", "restriction", "base", "xs:string").value.children| &&
      Attribute(UniqueChildWith(node, "xs", "restriction", "base", "xs:string").value.children[i], "value") == v
  }

  /** An enumeration that can be added after those before it: it has a value, and its id is new. */
  ghost predicate AddsEnum(nodes: seq<XNode>, k: nat)
    requires k < |nodes|
  {
    && ReadEnum(nodes[k]).Some? && ReadEnum(nodes[k]).value.1.values != {}
    && !BuiltIn(Attribute(nodes[k], "name"))
    && forall j :: 0 <= j < k ==> Attribute(nodes[j], "name") != Attribute(nodes[k], "name")
  }

  /** The enumeration of the node is filed under its id. */
  ghost predicate FiledAs(enums: map<string, Enum>, node: XNode) {
    && Attribute(node, "name") in enums
    && ReadEnum(node) == Some((Attribute(node, "name"), enums[Attribute(node, "name")]))
  }

  ghost predicate IdAmong(nodes: seq<XNode>, k: nat, id: string) {
    exists j :: 0 <= j < k && j < |nodes| && Attribute(nodes[j], "name") == id
  }

  ghost predicate Enumerates(enums: map<string, Enum>, nodes: seq<XNode>, k: nat)
    requires k <= |nodes|
  {
    && (forall id :: id in enums ==> IdAmong(nodes, k, id))
    && forall j :: 0 <= j < k ==> FiledAs(enums, nodes[j])
  }

  /** All enumerations are read exactly when each one can be added. */
  lemma {:induction false} EnumsIff(types: Types, nodes: seq<XNode>, k: nat)
    requires k <= |nodes| && Enumerates(types.enums, nodes, k)
    ensures ReadEnums(types, nodes[k..]).Some? <==> forall j :: k <= j < |nodes| ==> AddsEnum(nodes, j)
    ensures ReadEnums(types, nodes[k..]).Some? ==> Enumerates(ReadEnums(types, nodes[k..]).value.enums, nodes, |nodes|)
    decreases |nodes| - k
  {
    if k == |nodes| {
      assert nodes[k..] == [];
    } else if AddsEnum(nodes, k) {
      var more := Types(types.enums[Attribute(nodes[k], "name") := ReadEnum(nodes[k]).value.1]);
      EnumAdded(types, nodes, k, more);
      EnumTaken(types, nodes, k, more);
      EnumsIff(more, nodes, k + 1);
    } else {
      EnumRefused(types, nodes, k);
    }
  }

  lemma {:induction false} EnumAdded(types: Types, nodes: seq<XNode>, k: nat, more: Types)
    requires k < |nodes| && Enumerates(types.enums, nodes, k) && AddsEnum(nodes, k)
    requires more == Types(types.enums[Attribute(nodes[k], "name") := ReadEnum(nodes[k]).value.1])
    ensures Enumerates(more.enums, nodes, k + 1)
  {
    assert ReadEnum(nodes[k]).value.0 == Attribute(nodes[k], "name");
    forall id | id in more.enums
      ensures IdAmong(nodes, k + 1, id)
    {
      assert id != Attribute(nodes[k], "name") ==> IdAmong(nodes, k, id);
    }
    forall j | 0 <= j < k + 1
      ensures FiledAs(more.enums, nodes[j])
    {
      if j < k {
        assert FiledAs(types.enums, nodes[j]);
      }
    }
  }

  lemma {:induction false} EnumRefused(types: Types, nodes: seq<XNode>, k: nat)
    requires k < |nodes| && Enumerates(types.enums, nodes, k) && !AddsEnum(nodes, k)
    ensures ReadEnums(types, nodes[k..]) == None
  {
    assert nodes[k..][0] == nodes[k];
    if ReadEnum(nodes[k]).Some? && ReadEnum(nodes[k]).value.1.values != {} && !BuiltIn(Attribute(nodes[k], "name")) {
      var j :| 0 <= j < k && Attribute(nodes[j], "name") == Attribute(nodes[k], "name");
      assert FiledAs(types.enums, nodes[j]);
    }
  }

  lemma {:induction false} IdIsNew(enums: map<string, Enum>, nodes: seq<XNode>, k: nat)
    requires k < |nodes| && Enumerates(enums, nodes, k) && AddsEnum(nodes, k)
    ensures Attribute(nodes[k], "name") !in enums
  {
    forall id | id in enums
      ensures id != Attribute(nodes[k], "name")
    {
      assert IdAmong(nodes, k, id);
    }
  }

  lemma {:induction false} EnumTaken(types: Types, nodes: seq<XNode>, k: nat, more: Types)
    requires k < |nodes| && Enumerates(types.enums, nodes, k) && AddsEnum(nodes, k)
    requires more == Types(types.enums[Attribute(nodes[k], "name") := ReadEnum(nodes[k]).value.1])
    ensures ReadEnums(types, nodes[k..]) == ReadEnums(more, nodes[k + 1..])
  {
    var id := Attribute(nodes[k], "name");
    IdIsNew(types.enums, nodes, k);
    IdRead(nodes[k]);
    assert nodes[k..] == [nodes[k]] + nodes[k + 1..];
    EnumsNext(types, nodes[k], nodes[k + 1..], id, ReadEnum(nodes[k]).value.1);
  }

  lemma {:induction false} IdRead(node: XNode)
    requires ReadEnum(node).Some?
    ensures ReadEnum(node) == Some((Attribute(node, "name"), ReadEnum(node).value.1))
  {
  }

  /** The document: one element, and simple types beside it; in the element, the version and the root. */
  lemma {:induction false} DocumentIff(schema: XNode)
    ensures ReadDocument(schema).Some? <==>
      && UniqueChild(schema, "xs", "element").Some?
      && (forall c :: c in schema.children && !(c.ns == "xs" && c.name == "element") ==>
            (c.ns == "xs" && c.name == "simpleType"))
      && var m := UniqueChild(schema, "xs", "element").value;
      && |m.children| == 2 && VersionOf(m).Some? && RootNodeOf(m).Some?
    ensures ReadDocument(schema).Some? ==>
      var m := UniqueChild(schema, "xs", "element").value;
      && Some(ReadDocument(schema).value.version) == VersionOf(m)
      && Some(ReadDocument(schema).value.root) == RootNodeOf(m)
      && ReadDocument(schema).value.enums == ChildNodes(schema.children, "xs", "simpleType")
  {
    if UniqueChild(schema, "xs", "element").Some? {
      var k := OneFound(schema.children, "xs", "element");
      RestNamed(schema.children, k);
    }
  }

  lemma {:induction false} RestNamed(cs: seq<XNode>, k: nat)
    requires OnlyMatch(cs, k, "xs", "element")
    ensures |ChildNodes(cs, "xs", "simpleType")| + 1 == |cs| <==>
      forall c :: c in cs && !(c.ns == "xs" && c.name == "element") ==> (c.ns == "xs" && c.name == "simpleType")
  {
    assert cs == [cs[0]] + cs[1..];
    AllNamed(cs[1..], "simpleType");
    ChildNodesAre(cs[1..], "xs", "simpleType");
    assert forall i :: 0 <= i < |cs[1..]| ==> cs[1..][i] == cs[i + 1];
    if k > 0 {
      RestNamed(cs[1..], k - 1);
    }
  }

  // ----- The root and its references -----

  /** The root, before its references are set: it must be a component with the id "root" and the name "Root". */
  lemma {:induction false} RootIs(types: Types, node: XNode, model: nat)
    ensures ReadRoot(types, node, model) ==
      if Documented(node) && Text(node, "type") == "component" && Attribute(node, "name") == "root"
        && Text(node, "name") == "Root" && ReadsContent(node, types)
      then ApplyAll(RootFrom(node, types), model, OwnReference([], node) + ReferencesBelow([], node)) else None
  {
    PropsIff(node);
    if Documented(node) {
      ContentIs(FreshRoot(Text(node, "description")), [], node, types);
      RootContent(types, node);
      assert PendingOf(ReadProps(node).value, []) == OwnReference([], node);
    }
  }

  lemma {:induction false} RootContent(types: Types, node: XNode)
    ensures ContentRead(FreshRoot(Text(node, "description")), [], node, types) ==
      if ReadsContent(node, types) then Some(Loaded(RootFrom(node, types), ReferencesBelow([], node), true)) else None
  {
    assert Path(FreshRoot(Text(node, "description"))) == "";
  }

  ghost function RootFrom(node: XNode, types: Types): Element {
    Component("", "", None, Schema("Root", Text(node, "description"), false, false, None, ""),
      match ContentNode(node)
      case None => []
      case Some(s) => ItemsOf("", s.children, types, |s.children|))
  }

  /** The target of a pending reference: a parameter, found by its path. */
  ghost predicate Targets(root: Element, x: Pending, t: Pos, typ: DataType) {
    && In(root, x.pos) && In(root, t) && Lookup(root, x.path, SchemaMode) == Some(t)
    && At(root, t).Parameter? && At(root, t).info.Schema? && At(root, t).info.typ == Some(typ)
  }

  /** Setting a reference that may be set: it then expects the value that can be read from the text. */
  lemma {:induction false} ApplySets(root: Element, model: nat, x: Pending, t: Pos, typ: DataType)
    requires Targets(root, x, t, typ) && Referable(root, x.pos, t)
    ensures x.expected == "" ==>
      ApplyOne(root, model, x) == Some(SetRef(root, x.pos, Some(Reference(Target(model, t), Data(typ, None)))))
    ensures forall v :: x.expected != "" && ReadsAs(typ, x.expected, v) ==>
      ApplyOne(root, model, x) == Some(SetRef(root, x.pos, Some(Reference(Target(model, t), Data(typ, Some(v))))))
    ensures x.expected != "" && !(exists v :: ReadsAs(typ, x.expected, v)) ==> ApplyOne(root, model, x) == None
  {
    var r := Reference(Target(model, t), Data(typ, None));
    ReadsWhen(r.expected, x.expected);
    SetRefTwice(root, x.pos, Some(r), None);
    forall v
      ensures ReadsAs(typ, x.expected, v) ==>
        SetRef(SetRef(root, x.pos, Some(r)), x.pos, Some(r.(expected := Data(typ, Some(v))))) ==
        SetRef(root, x.pos, Some(Reference(Target(model, t), Data(typ, Some(v)))))
    {
      SetRefTwice(root, x.pos, Some(r), Some(r.(expected := Data(typ, Some(v)))));
    }
  }

  /** One that may not be set is left out; a value to expect then needs a reference from before. */
  lemma {:induction false} ApplySkips(root: Element, model: nat, x: Pending, t: Pos, typ: DataType)
    requires Targets(root, x, t, typ) && !Referable(root, x.pos, t)
    ensures x.expected == "" ==> ApplyOne(root, model, x) == Some(root)
    ensures x.expected != "" && At(root, x.pos).ref.None? ==> ApplyOne(root, model, x) == None
  {
  }

  lemma {:induction false} NotApplied(root: Element, model: nat, x: Pending)
    requires var t := Lookup(root, x.path, SchemaMode);
      t.None? || !In(root, t.value) || !At(root, t.value).Parameter?
    ensures ApplyOne(root, model, x) == None
  {
  }
}
