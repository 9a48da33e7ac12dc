/** Data models as XML documents: `toXML` and `fromXML` of Configuration.cpp over abstract nodes. */
module Xml {
  import opened Wrappers
  import opened Numerals
  import opened Values
  import opened Elements
  import opened DataLists
  import opened DataTrees
  import opened Instances

  /** An element node: its name, its element children and its own text. */
  datatype Node = Node(name: string, children: seq<Node>, text: string)

  /** `getNodeContent`: the text of a node and of everything below it. */
  function Content(n: Node): string {
    n.text + ContentAll(n.children)
  }

  function ContentAll(ns: seq<Node>): string {
    if ns == [] then "" else Content(ns[0]) + ContentAll(ns[1..])
  }

  // ----- Writing -----

  /** `elementToXML`. */
  function ToXml(e: Element): Node {
    match e
    case Parameter(id, _, _, info) => Node(id, [], if info.Holding? then ToString(info.data) else "")
    case Component(id, _, _, _, items) => Node(id, ChildNodes(items), "")
    case List(id, _, _, _, items, _) => Node(id, ItemNodes(items), "")
  }

  /** The children of a component: parameters without content are left out. */
  function ChildNodes(es: seq<Element>): seq<Node> {
    if es == [] then []
    else
      var node := ToXml(es[0]);
      (if Content(node) != "" || !es[0].Parameter? then [node] else []) + ChildNodes(es[1..])
  }

  /** The children of a list: the same, all named "item". */
  function ItemNodes(es: seq<Element>): seq<Node> {
    if es == [] then []
    else
      var node := ToXml(es[0]);
      (if Content(node) != "" || !es[0].Parameter? then [node.(name := "item")] else []) + ItemNodes(es[1..])
  }

  lemma {:induction false} ChildNodesSnoc(es: seq<Element>, e: Element)
    ensures ChildNodes(es + [e]) ==
      ChildNodes(es) + (if Content(ToXml(e)) != "" || !e.Parameter? then [ToXml(e)] else [])
  {
    var last := if Content(ToXml(e)) != "" || !e.Parameter? then [ToXml(e)] else [];
    if es == [] {
      assert es + [e] == [e];
    } else {
      assert (es + [e])[0] == es[0] && (es + [e])[1..] == es[1..] + [e];
      ChildNodesSnoc(es[1..], e);
      var first := if Content(ToXml(es[0])) != "" || !es[0].Parameter? then [ToXml(es[0])] else [];
      assert first + (ChildNodes(es[1..]) + last) == first + ChildNodes(es[1..]) + last;
    }
  }

  lemma {:induction false} ItemNodesSnoc(es: seq<Element>, e: Element)
    ensures ItemNodes(es + [e]) ==
      ItemNodes(es) + (if Content(ToXml(e)) != "" || !e.Parameter? then [ToXml(e).(name := "item")] else [])
  {
    var last := if Content(ToXml(e)) != "" || !e.Parameter? then [ToXml(e).(name := "item")] else [];
    if es == [] {
      assert es + [e] == [e];
    } else {
      assert (es + [e])[0] == es[0] && (es + [e])[1..] == es[1..] + [e];
      ItemNodesSnoc(es[1..], e);
      var first := if Content(ToXml(es[0])) != "" || !es[0].Parameter? then [ToXml(es[0]).(name := "item")] else [];
      assert first + (ItemNodes(es[1..]) + last) == first + ItemNodes(es[1..]) + last;
    }
  }

  /** The nodes of some elements are those of the ones that are written, in their order: all but parameters
      without a text. */
  ghost predicate Writes(es: seq<Element>, nodes: seq<Node>, at: seq<nat>, item: bool) {
    && |at| == |nodes|
    && (forall j, k :: 0 <= j < k < |at| ==> at[j] < at[k])
    && (forall j :: 0 <= j < |at| ==>
          at[j] < |es| && nodes[j].children == ToXml(es[at[j]]).children && nodes[j].text == ToXml(es[at[j]]).text
          && nodes[j].name == if item then "item" else es[at[j]].id)
    && (forall i :: 0 <= i < |es| ==> (i in at <==> !es[i].Parameter? || HasText(es[i])))
  }

  predicate HasText(e: Element) {
    e.info.Holding? && e.info.data.value.Some? && ToString(e.info.data) != ""
  }

  /** The node of an element has its id, text only for a parameter, and children only for a container. */
  lemma {:induction false} NodeIs(e: Element)
    ensures ToXml(e).name == e.id
    ensures e.Parameter? ==> ToXml(e).children == []
    ensures e.Parameter? ==> ToXml(e).text == if HasText(e) then ToString(e.info.data) else ""
    ensures !e.Parameter? ==> ToXml(e).text == ""
    ensures e.Parameter? ==> (Content(ToXml(e)) != "" <==> HasText(e))
  {
    if e.Parameter? {
      assert ToXml(e).text + "" == ToXml(e).text;
    }
  }

  lemma {:induction false} WritesWith(es: seq<Element>, nodes: seq<Node>, at: seq<nat>, item: bool, e: Element,
                                      node: Node)
    requires Writes(es, nodes, at, item) && node == ToXml(e).(name := if item then "item" else e.id)
    requires !e.Parameter? || HasText(e)
    ensures Writes(es + [e], nodes + [node], at + [|es|], item)
  {
    assert forall i :: 0 <= i < |es| ==> (es + [e])[i] == es[i];
    assert |es| !in at;
    assert forall i :: i in at + [|es|] <==> i in at || i == |es|;
  }

  lemma {:induction false} WritesWithout(es: seq<Element>, nodes: seq<Node>, at: seq<nat>, item: bool, e: Element)
    requires Writes(es, nodes, at, item) && e.Parameter? && !HasText(e)
    ensures Writes(es + [e], nodes, at, item)
  {
    assert forall i :: 0 <= i < |es| ==> (es + [e])[i] == es[i];
    assert |es| !in at;
  }

  lemma {:induction false} WritesSnoc(es: seq<Element>, nodes: seq<Node>, at: seq<nat>, item: bool, e: Element,
                                      node: Node)
    returns (more: seq<nat>)
    requires Writes(es, nodes, at, item) && node == ToXml(e).(name := if item then "item" else e.id)
    ensures Writes(es + [e], nodes + (if Content(ToXml(e)) != "" || !e.Parameter? then [node] else []), more, item)
  {
    NodeIs(e);
    if e.Parameter? && !HasText(e) {
      WritesWithout(es, nodes, at, item, e);
      assert nodes + [] == nodes;
      more := at;
    } else {
      WritesWith(es, nodes, at, item, e, node);
      more := at + [|es|];
    }
  }

  lemma {:induction false} ChildrenAre(es: seq<Element>) returns (at: seq<nat>)
    ensures Writes(es, ChildNodes(es), at, false)
    decreases |es|
  {
    if es == [] {
      at := [];
    } else {
      var init, e := es[..|es| - 1], es[|es| - 1];
      at := ChildrenAre(init);
      assert es == init + [e];
      ChildNodesSnoc(init, e);
      NodeIs(e);
      at := WritesSnoc(init, ChildNodes(init), at, false, e, ToXml(e));
    }
  }

  lemma {:induction false} ItemsAre(es: seq<Element>) returns (at: seq<nat>)
    ensures Writes(es, ItemNodes(es), at, true)
    decreases |es|
  {
    if es == [] {
      at := [];
    } else {
      var init, e := es[..|es| - 1], es[|es| - 1];
      at := ItemsAre(init);
      assert es == init + [e];
      ItemNodesSnoc(init, e);
      at := WritesSnoc(init, ItemNodes(init), at, true, e, ToXml(e).(name := "item"));
    }
  }

  /** The children of the node of a component or a list. */
  lemma {:induction false} NodeChildren(e: Element) returns (at: seq<nat>)
    requires !e.Parameter?
    ensures Writes(e.items, ToXml(e).children, at, e.List?)
  {
    if e.Component? {
      at := ChildrenAre(e.items);
    } else {
      at := ItemsAre(e.items);
    }
  }

  method ElementToXML(e: Element) returns (node: Node)
    ensures node == ToXml(e)
    decreases e, 1
  {
    match e {
      case Parameter(_, _, _, _) => node := ParameterToXML(e);
      case Component(_, _, _, _, _) => node := ComponentToXML(e, e.id);
      case List(_, _, _, _, _, _) => node := ListToXML(e);
    }
  }

  method ParameterToXML(e: Element) returns (node: Node)
    requires e.Parameter?
    ensures node == ToXml(e)
  {
    node := Node(e.id, [], "");
    if e.info.Holding? && e.info.data.value.Some? {
      node := node.(text := ToString(e.info.data));
    }
  }

  /** `componentToXML`, and `rootToXML` for the name "root". */
  method ComponentToXML(e: Element, name: string) returns (node: Node)
    requires e.Component?
    ensures node == ToXml(e).(name := name)
    decreases e, 0
  {
    node := Node(name, [], "");
    var i := 0;
    while i < |e.items|
      invariant 0 <= i <= |e.items|
      invariant node == Node(name, ChildNodes(e.items[..i]), "")
    {
      assert HasStep(e, Item(i)) && Sub(e, Item(i)) == e.items[i];
      var eltnode := ElementToXML(e.items[i]);
      ChildNodesSnoc(e.items[..i], e.items[i]);
      assert e.items[..i] + [e.items[i]] == e.items[..i + 1];
      if Content(eltnode) != "" || !e.items[i].Parameter? {
        node := node.(children := node.children + [eltnode]);
      }
      i := i + 1;
    }
    assert e.items[..i] == e.items;
  }

  method ListToXML(e: Element) returns (node: Node)
    requires e.List?
    ensures node == ToXml(e)
    decreases e, 0
  {
    node := Node(e.id, [], "");
    var i := 0;
    while i < |e.items|
      invariant 0 <= i <= |e.items|
      invariant node == Node(e.id, ItemNodes(e.items[..i]), "")
    {
      assert HasStep(e, Item(i)) && Sub(e, Item(i)) == e.items[i];
      var itemnode := ElementToXML(e.items[i]);
      ItemNodesSnoc(e.items[..i], e.items[i]);
      assert e.items[..i] + [e.items[i]] == e.items[..i + 1];
      if Content(itemnode) != "" || !e.items[i].Parameter? {
        node := node.(children := node.children + [itemnode.(name := "item")]);
      }
      i := i + 1;
    }
    assert e.items[..i] == e.items;
  }

  // ----- Reading -----

  /** `loadComponentFromXML` over the children of a node: each one changes the item with its name. */
  function Load(e: Element, pos: Pos, nodes: seq<Node>): (r: Option<Element>)
    requires e.Component?
    ensures r.Some? ==> r.value.Component?
    decreases nodes, 1
  {
    if nodes == [] then Some(e)
    else
      match LoadOne(e, pos, nodes[0])
      case None => None
      case Some(e') => Load(e', pos, nodes[1..])
  }

  function LoadOne(e: Element, pos: Pos, node: Node): (r: Option<Element>)
    requires e.Component?
    ensures r.Some? ==> r.value.Component?
    decreases node, 0
  {
    match FindItem(e.items, node.name)
    case None => None
    case Some(i) =>
      var c := e.items[i];
      match c
      case Parameter(id, parent, ref, info) =>
        if Content(node) == "" then Some(e)
        else if !info.Holding? then None
        else
          (match FromString(info.data, Content(node))
           case None => None
           case Some(d) => Some(WithItems(e, e.items[i := WithData(c, d)])))
      case Component(_, _, _, _, _) =>
        (match Load(c, pos + [Item(i)], node.children)
         case None => None
         case Some(c') => Some(WithItems(e, e.items[i := c'])))
      case List(_, _, _, _, _, _) =>
        match LoadItems(c, pos + [Item(i)], node.children)
        case None => None
        case Some(c') => Some(WithItems(e, e.items[i := c']))
  }

  lemma {:induction false} LoadNext(e: Element, pos: Pos, nodes: seq<Node>, k: nat)
    requires e.Component? && k < |nodes|
    ensures Load(e, pos, nodes[k..]) ==
      if LoadOne(e, pos, nodes[k]).None? then None else Load(LoadOne(e, pos, nodes[k]).value, pos, nodes[k + 1..])
  {
    assert nodes[k..][0] == nodes[k] && nodes[k..][1..] == nodes[k + 1..];
  }

  lemma {:induction false} LoadItemsNext(l: Element, pos: Pos, nodes: seq<Node>, k: nat)
    requires l.List? && k < |nodes|
    ensures LoadItems(l, pos, nodes[k..]) ==
      if nodes[k].name != "item" then LoadItems(l, pos, nodes[k + 1..])
      else if LoadItem(l, pos, nodes[k]).None? then None
      else LoadItems(LoadItem(l, pos, nodes[k]).value, pos, nodes[k + 1..])
  {
    assert nodes[k..][0] == nodes[k] && nodes[k..][1..] == nodes[k + 1..];
  }

  /** The "item" children of a list node: each one adds an item to the list and loads it. */
  function LoadItems(l: Element, pos: Pos, nodes: seq<Node>): (r: Option<Element>)
    requires l.List?
    ensures r.Some? ==> r.value.List?
    decreases nodes, 2
  {
    if nodes == [] then Some(l)
    else if nodes[0].name != "item" then LoadItems(l, pos, nodes[1..])
    else
      match LoadItem(l, pos, nodes[0])
      case None => None
      case Some(l') => LoadItems(l', pos, nodes[1..])
  }

  function LoadItem(l: Element, pos: Pos, node: Node): (r: Option<Element>)
    requires l.List?
    ensures r.Some? ==> r.value.List?
    decreases node, 1
  {
    match Grown(l, pos)
    case None => None
    case Some(l') =>
      var n := |l.items|;
      if !l'.items[n].Component? then None
      else
        match Load(l'.items[n], pos + [Item(n)], node.children)
        case None => None
        case Some(c) => Some(WithItems(l', l'.items[n := c]))
  }

  // ----- What survives a round trip -----

  /** A set empty string is not written, so it comes back unset. */
  function Blank(d: Data): Data {
    if d.value == Some(TextVal("")) then d.(value := None) else d
  }

  /** The tree in which every empty string is unset. */
  function Blanked(e: Element): Element {
    match e
    case Parameter(id, parent, ref, info) =>
      Parameter(id, parent, ref, if info.Holding? then Holding(Blank(info.data)) else info)
    case Component(id, parent, ref, info, items) => Component(id, parent, ref, info, BlankedAll(items))
    case List(id, parent, ref, info, items, pattern) => List(id, parent, ref, info, BlankedAll(items), pattern)
  }

  function BlankedAll(es: seq<Element>): (r: seq<Element>)
    ensures |r| == |es|
    ensures forall i :: 0 <= i < |es| ==> r[i] == Blanked(es[i])
  {
    if es == [] then [] else [Blanked(es[0])] + BlankedAll(es[1..])
  }

  lemma {:induction false} ParameterContent(d: Element)
    requires d.Parameter?
    ensures Content(ToXml(d)) == ToXml(d).text
  {
    assert ToXml(d).text + "" == ToXml(d).text;
  }

  /** A component is rebuilt item by item: the first `k` items are loaded already. */
  lemma {:induction false} LoadRest(d: Element, t: Element, pos: Pos, k: nat)
    requires d.Component? && Instance(d, t, pos) && Fresh(t) && Built(t) && k <= |d.items|
    ensures Load(WithItems(t, BlankedAll(d.items)[..k] + t.items[k..]), pos, ChildNodes(d.items[k..])) ==
      Some(Blanked(d))
    decreases d, 1, |d.items| - k
  {
    var done := BlankedAll(d.items);
    var e := WithItems(t, done[..k] + t.items[k..]);
    if k == |d.items| {
      assert done[..k] + t.items[k..] == done;
      assert d.items[k..] == [];
    } else {
      var next := WithItems(t, done[..k + 1] + t.items[k + 1..]);
      LoadRest(d, t, pos, k + 1);
      assert d.items[k..][0] == d.items[k] && d.items[k..][1..] == d.items[k + 1..];
      var node := ToXml(d.items[k]);
      if Content(node) != "" || !d.items[k].Parameter? {
        LoadChild(d, t, pos, k);
        assert ChildNodes(d.items[k..])[0] == node && ChildNodes(d.items[k..])[1..] == ChildNodes(d.items[k + 1..]);
      } else {
        SkippedChild(d, t, pos, k);
        assert ChildNodes(d.items[k..]) == ChildNodes(d.items[k + 1..]);
      }
    }
  }

  /** A parameter that is not written is as fresh after the round trip as it was before. */
  lemma {:induction false} SkippedChild(d: Element, t: Element, pos: Pos, k: nat)
    requires d.Component? && Instance(d, t, pos) && k < |d.items|
    requires d.items[k].Parameter? && Content(ToXml(d.items[k])) == ""
    ensures WithItems(t, BlankedAll(d.items)[..k] + t.items[k..]) ==
            WithItems(t, BlankedAll(d.items)[..k + 1] + t.items[k + 1..])
  {
    var done := BlankedAll(d.items);
    SkippedItem(d, t, pos, k);
    OneMoreDone(done, t.items, k);
    assert (done[..k] + t.items[k..])[k := t.items[k]] == done[..k] + t.items[k..];
  }

  lemma {:induction false} SkippedItem(d: Element, t: Element, pos: Pos, k: nat)
    requires d.Component? && Instance(d, t, pos) && k < |d.items|
    requires d.items[k].Parameter? && Content(ToXml(d.items[k])) == ""
    ensures t.Component? && |t.items| == |d.items| && Blanked(d.items[k]) == t.items[k]
  {
    var c := d.items[k];
    InstanceChild(d, t, pos, k);
    ParameterContent(c);
    if c.info.data.value.Some? {
      PrintsEmpty(c.info.data);
    }
  }

  /** Loading a node into an item gives `loaded`. */
  ghost predicate LoadsAs(c: Element, pos: Pos, node: Node, loaded: Element) {
    match c
    case Parameter(_, _, _, info) =>
      && Content(node) != "" && info.Holding? && FromString(info.data, Content(node)).Some?
      && loaded == WithData(c, FromString(info.data, Content(node)).value)
    case Component(_, _, _, _, _) => Load(c, pos, node.children) == Some(loaded)
    case List(_, _, _, _, _, _) => LoadItems(c, pos, node.children) == Some(loaded)
  }

  lemma {:induction false} LoadOneAs(e: Element, pos: Pos, node: Node, k: nat, loaded: Element)
    requires e.Component? && FindItem(e.items, node.name) == Some(k) && k < |e.items|
    requires LoadsAs(e.items[k], pos + [Item(k)], node, loaded)
    ensures LoadOne(e, pos, node) == Some(WithItems(e, e.items[k := loaded]))
  {
  }

  /** Loading the node of item `k` turns the fresh item into the written one. */
  lemma {:induction false} ItemLoads(c: Element, t: Element, pos: Pos)
    requires Instance(c, t, pos) && Fresh(t) && Built(t)
    requires Content(ToXml(c)) != "" || !c.Parameter?
    ensures LoadsAs(t, pos, ToXml(c), Blanked(c))
    decreases c, 4, 0
  {
    match c {
      case Parameter(_, _, _, _) => LoadParameter(c, t, pos);
      case Component(_, _, _, _, _) => LoadWhole(c, t, pos);
      case List(_, _, _, _, _, _) =>
        LoadRestItems(c, t, pos, 0);
        assert WithItems(t, BlankedAll(c.items)[..0]) == t;
        assert c.items[0..] == c.items;
    }
  }

  lemma {:induction false} LoadChild(d: Element, t: Element, pos: Pos, k: nat)
    requires d.Component? && Instance(d, t, pos) && Fresh(t) && Built(t) && k < |d.items|
    requires Content(ToXml(d.items[k])) != "" || !d.items[k].Parameter?
    ensures LoadOne(WithItems(t, BlankedAll(d.items)[..k] + t.items[k..]), pos, ToXml(d.items[k])) ==
            Some(WithItems(t, BlankedAll(d.items)[..k + 1] + t.items[k + 1..]))
    decreases d, 0, 0
  {
    var c := d.items[k];
    InstanceChild(d, t, pos, k);
    ItemFresh(t, k);
    ItemLoads(c, t.items[k], pos + [Item(k)]);
    FindLoaded(d, t, pos, k);
    OneMoreDone(BlankedAll(d.items), t.items, k);
    LoadOneAs(WithItems(t, BlankedAll(d.items)[..k] + t.items[k..]), pos, ToXml(c), k, Blanked(c));
  }

  lemma {:induction false} ItemFresh(t: Element, k: nat)
    requires Fresh(t) && Built(t) && t.Component? && k < |t.items|
    ensures Fresh(t.items[k]) && Built(t.items[k])
  {
    assert HasStep(t, Item(k)) && Sub(t, Item(k)) == t.items[k];
  }

  lemma {:induction false} OneMoreDone(done: seq<Element>, items: seq<Element>, k: nat)
    requires k < |done| == |items|
    ensures (done[..k] + items[k..])[k] == items[k]
    ensures (done[..k] + items[k..])[k := done[k]] == done[..k + 1] + items[k + 1..]
  {
  }

  lemma {:induction false} LoadParameter(c: Element, t: Element, pos: Pos)
    requires c.Parameter? && Instance(c, t, pos) && Content(ToXml(c)) != ""
    ensures FromString(t.info.data, Content(ToXml(c))) == Some(Blank(c.info.data))
    ensures WithData(t, Blank(c.info.data)) == Blanked(c)
  {
    ParameterContent(c);
    assert c.info.data.value.Some?;
    PrintsEmpty(c.info.data);
    ReadBack(c.info.data, t.info.data);
  }

  lemma {:induction false} LoadWhole(c: Element, t: Element, pos: Pos)
    requires c.Component? && Instance(c, t, pos) && Fresh(t) && Built(t)
    ensures Load(t, pos, ToXml(c).children) == Some(Blanked(c))
    decreases c, 2, 0
  {
    LoadRest(c, t, pos, 0);
    assert BlankedAll(c.items)[..0] + t.items[0..] == t.items;
    assert WithItems(t, t.items) == t;
    assert c.items[0..] == c.items;
  }

  lemma {:induction false} FindLoaded(d: Element, t: Element, pos: Pos, k: nat)
    requires d.Component? && Instance(d, t, pos) && Built(t) && k < |d.items|
    ensures FindItem(BlankedAll(d.items)[..k] + t.items[k..], d.items[k].id) == Some(k)
  {
    var items := BlankedAll(d.items)[..k] + t.items[k..];
    forall i | 0 <= i < |items|
      ensures items[i].id == t.items[i].id
    {
      InstanceChild(d, t, pos, i);
    }
    InstanceChild(d, t, pos, k);
    FindOnly(items, k);
  }

  /** What `addItem` appends while a list is rebuilt. */
  lemma {:induction false} GrowLoaded(d: Element, t: Element, pos: Pos, k: nat)
    requires d.List? && Instance(d, t, pos) && Fresh(t) && Built(t) && k < |d.items|
    ensures Grown(WithItems(t, BlankedAll(d.items)[..k]), pos) ==
            Some(WithItems(t, BlankedAll(d.items)[..k] + [ItemOf(t, pos, k)]))
    ensures ItemOf(t, pos, k).Component? && Fresh(ItemOf(t, pos, k)) && Built(ItemOf(t, pos, k))
    ensures Instance(d.items[k], ItemOf(t, pos, k), pos + [Item(k)])
  {
    var l := WithItems(t, BlankedAll(d.items)[..k]);
    var move := Shift(pos + [Pattern], pos + [Item(k)]);
    InstanceChild(d, t, pos, k);
    FreshModel(t, pos, k);
    assert HasStep(t, Pattern) && Sub(t, Pattern) == t.pattern;
    StampBuilt(t.pattern, Dec(k), Path(t), move);
    StampPath(t.pattern, Dec(k), Path(t), move);
    assert Path(l) == Path(t);
  }

  lemma {:induction false} LoadItemsStep(t: Element, pos: Pos, done: seq<Element>, k: nat, node: Node, rest: seq<Node>,
                                         item: Element)
    requires t.List? && k < |done| && node.name == "item" && item.Component?
    requires Grown(WithItems(t, done[..k]), pos) == Some(WithItems(t, done[..k] + [item]))
    requires Load(item, pos + [Item(k)], node.children) == Some(done[k])
    ensures LoadItems(WithItems(t, done[..k]), pos, [node] + rest) == LoadItems(WithItems(t, done[..k + 1]), pos, rest)
  {
    var l := WithItems(t, done[..k]);
    assert (done[..k] + [item])[k] == item;
    assert (done[..k] + [item])[k := done[k]] == done[..k + 1];
    assert ([node] + rest)[1..] == rest;
  }

  lemma {:induction false} ItemNodesCons(es: seq<Element>, k: nat)
    requires k < |es| && es[k].Component?
    ensures ItemNodes(es[k..]) == [ToXml(es[k]).(name := "item")] + ItemNodes(es[k + 1..])
  {
    assert es[k..][0] == es[k] && es[k..][1..] == es[k + 1..];
  }

  /** A list is rebuilt item by item, through `addItem`. */
  lemma {:induction false} LoadRestItems(d: Element, t: Element, pos: Pos, k: nat)
    requires d.List? && Instance(d, t, pos) && Fresh(t) && Built(t) && k <= |d.items|
    ensures LoadItems(WithItems(t, BlankedAll(d.items)[..k]), pos, ItemNodes(d.items[k..])) == Some(Blanked(d))
    decreases d, 3, |d.items| - k
  {
    var done := BlankedAll(d.items);
    if k == |d.items| {
      assert done[..k] == done;
      assert d.items[k..] == [];
    } else {
      var item := ItemOf(t, pos, k);
      var node := ToXml(d.items[k]).(name := "item");
      GrowLoaded(d, t, pos, k);
      LoadWhole(d.items[k], item, pos + [Item(k)]);
      ItemNodesCons(d.items, k);
      LoadItemsStep(t, pos, done, k, node, ItemNodes(d.items[k + 1..]), item);
      LoadRestItems(d, t, pos, k + 1);
    }
  }

  /** Round trip: loading the document of any instance into the fresh tree succeeds, and gives the
      instance back, but for parameters that were set to the empty string. */
  lemma {:induction false} RoundTrip(d: Element, t: Element)
    requires d.Component? && Instance(d, t, []) && Fresh(t) && Built(t)
    ensures Load(t, [], ToXml(d).children) == Some(Blanked(d))
  {
    LoadWhole(d, t, []);
  }

  /** No parameter of the tree is set to the empty string. */
  ghost predicate NoEmptyText(e: Element) {
    && (e.Parameter? && e.info.Holding? ==> e.info.data.value != Some(TextVal("")))
    && (!e.Parameter? ==> forall i :: 0 <= i < |e.items| ==> NoEmptyText(e.items[i]))
  }

  lemma {:induction false} BlankedSame(e: Element)
    ensures Blanked(e) == e <==> NoEmptyText(e)
    decreases e
  {
    if !e.Parameter? {
      forall i | 0 <= i < |e.items|
        ensures Blanked(e.items[i]) == e.items[i] <==> NoEmptyText(e.items[i])
      {
        assert HasStep(e, Item(i)) && Sub(e, Item(i)) == e.items[i];
        BlankedSame(e.items[i]);
      }
      if NoEmptyText(e) {
        assert BlankedAll(e.items) == e.items;
      }
      if Blanked(e) == e {
        assert BlankedAll(e.items) == e.items;
      }
    }
  }

  /** The round trip is exact if and only if no parameter is set to the empty string. */
  lemma {:induction false} RoundTripExact(d: Element, t: Element)
    requires d.Component? && Instance(d, t, []) && Fresh(t) && Built(t)
    ensures Load(t, [], ToXml(d).children) == Some(d) <==> NoEmptyText(d)
  {
    RoundTrip(d, t);
    BlankedSame(d);
  }
}
