/** What loading a document does, told item by item: which nodes an element can be loaded from, and what it
    holds then. The loops go node by node instead, through states that the nodes before have left; they do the
    same. */
module Loading {
  import opened Wrappers
  import opened Numerals
  import opened Values
  import opened Elements
  import opened DataLists
  import opened DataTrees
  import opened Descendants
  import opened Xml

  // ----- The documents that can be loaded -----

  /** The element can be loaded from the node. Each child of the node of a component names an item of it; a
      parameter is given no text, or one of its type; a list gets items only when its pattern does not refer
      into itself. What else is in the node of a list is not looked at. */
  ghost predicate Fits(e: Element, pos: Pos, node: Node)
    decreases e
  {
    match e
    case Parameter(_, _, _, info) =>
      Content(node) == "" || (info.Holding? && exists v :: ReadsAs(info.data.typ, Content(node), v))
    case Component(_, _, _, _, items) =>
      forall c :: c in node.children ==>
        exists i :: 0 <= i < |items| && items[i].id == c.name && Fits(items[i], pos + [Item(i)], c)
    case List(_, _, _, _, _, pattern) =>
      forall c :: c in node.children && c.name == "item" ==>
        !SelfReferring(e, pos) && Fits(pattern, pos + [Pattern], c)
  }

  ghost predicate AllFit(e: Element, pos: Pos, nodes: seq<Node>) {
    forall i :: 0 <= i < |nodes| ==> Fits(e, pos, nodes[i])
  }

  // ----- What an element holds then -----

  /** The nodes with a name, in their order. */
  function Called(nodes: seq<Node>, name: string): seq<Node> {
    if nodes == [] then []
    else Called(nodes[..|nodes| - 1], name) + if nodes[|nodes| - 1].name == name then [nodes[|nodes| - 1]] else []
  }

  /** The children of the nodes, one after the other. */
  function Inside(nodes: seq<Node>): seq<Node> {
    if nodes == [] then [] else Inside(nodes[..|nodes| - 1]) + nodes[|nodes| - 1].children
  }

  /** The last text that is not empty. */
  function LastText(nodes: seq<Node>): string {
    if nodes == [] then ""
    else if Content(nodes[|nodes| - 1]) != "" then Content(nodes[|nodes| - 1])
    else LastText(nodes[..|nodes| - 1])
  }

  /** The nodes and all below them. */
  function Count(nodes: seq<Node>): nat {
    if nodes == [] then 0 else Count(nodes[..|nodes| - 1]) + 1 + CountIn(nodes[|nodes| - 1])
  }

  function CountIn(node: Node): nat {
    Count(node.children)
  }

  lemma {:induction false} CountConcat(a: seq<Node>, b: seq<Node>)
    ensures Count(a + b) == Count(a) + Count(b)
    decreases |b|
  {
    if b == [] {
      assert a + b == a;
    } else {
      assert (a + b)[..|a + b| - 1] == a + b[..|b| - 1];
      CountConcat(a, b[..|b| - 1]);
    }
  }

  lemma {:induction false} CountCalled(nodes: seq<Node>, name: string)
    ensures Count(Called(nodes, name)) <= Count(nodes)
  {
    if nodes != [] {
      CountCalled(nodes[..|nodes| - 1], name);
      var last := nodes[|nodes| - 1];
      var before := Called(nodes[..|nodes| - 1], name);
      if last.name == name {
        assert (before + [last])[..|before|] == before;
      } else {
        assert before + [] == before;
      }
    }
  }

  lemma {:induction false} CountInside(nodes: seq<Node>)
    ensures Count(Inside(nodes)) + |nodes| == Count(nodes)
  {
    if nodes != [] {
      CountInside(nodes[..|nodes| - 1]);
      CountConcat(Inside(nodes[..|nodes| - 1]), nodes[|nodes| - 1].children);
    }
  }

  lemma {:induction false} CountAt(nodes: seq<Node>, i: nat)
    requires i < |nodes|
    ensures Count([nodes[i]]) <= Count(nodes)
  {
    var last := nodes[|nodes| - 1];
    assert [last][..0] == [];
    if i < |nodes| - 1 {
      CountAt(nodes[..|nodes| - 1], i);
    }
  }

  lemma {:induction false} CountItems(nodes: seq<Node>, name: string)
    ensures Count(Called(Inside(nodes), name)) + |nodes| <= Count(nodes)
  {
    CountInside(nodes);
    CountCalled(Inside(nodes), name);
  }

  /** The element once all its nodes were loaded: a parameter has the last text that one of them gives, each
      item of a component what the nodes with its id in them give, and a list has a new item for each node
      "item" in them, with what that node gives. */
  ghost function Result(e: Element, pos: Pos, nodes: seq<Node>): (r: Element)
    ensures r.id == e.id && (r.Component? <==> e.Component?) && (r.Parameter? <==> e.Parameter?)
    decreases Count(nodes), e, 2
  {
    match e
    case Parameter(_, _, _, info) =>
      if LastText(nodes) == "" || !info.Holding? then e
      else
        (match FromString(info.data, LastText(nodes))
         case None => e
         case Some(d) => WithData(e, d))
    case Component(id, parent, ref, own, items) =>
      CountInside(nodes);
      Component(id, parent, ref, own, ItemResults(e, pos, Inside(nodes)))
    case List(id, parent, ref, own, items, pattern) =>
      CountItems(nodes, "item");
      if nodes == [] then e
      else List(id, parent, ref, own, items + NewItems(e, pos, Called(Inside(nodes), "item")), pattern)
  }

  ghost function ItemResults(e: Element, pos: Pos, nodes: seq<Node>): (r: seq<Element>)
    requires e.Component?
    ensures |r| == |e.items|
    decreases Count(nodes), e, 1
  {
    seq(|e.items|, i requires 0 <= i < |e.items| =>
      CountCalled(nodes, e.items[i].id);
      Result(e.items[i], pos + [Item(i)], Called(nodes, e.items[i].id)))
  }

  /** The new items of a list, one for each node. */
  ghost function NewItems(l: Element, pos: Pos, nodes: seq<Node>): (r: seq<Element>)
    requires l.List?
    ensures |r| == |nodes|
    decreases Count(nodes) + 1, l, 1
  {
    var n := |l.items|;
    seq(|nodes|, i requires 0 <= i < |nodes| =>
      CountAt(nodes, i);
      Result(ItemOf(l, pos, n + i), pos + [Item(n + i)], [nodes[i]]))
  }

  /** A component after the children of its node were loaded. */
  ghost function Filled(e: Element, pos: Pos, nodes: seq<Node>): (r: Element)
    requires e.Component?
    ensures r.Component?
  {
    WithItems(e, ItemResults(e, pos, nodes))
  }

  /** The children can be loaded into the component. */
  ghost predicate FitsInto(e: Element, pos: Pos, c: Node)
    requires e.Component?
  {
    exists i :: 0 <= i < |e.items| && e.items[i].id == c.name && Fits(e.items[i], pos + [Item(i)], c)
  }

  ghost predicate AllFitInto(e: Element, pos: Pos, nodes: seq<Node>)
    requires e.Component?
  {
    forall k :: 0 <= k < |nodes| ==> FitsInto(e, pos, nodes[k])
  }

  // ----- An item can be loaded from what its pattern can -----

  lemma {:induction false} FitsStamped(e: Element, id: string, parent: string, at: Pos, n: nat, r: Pos, node: Node)
    requires Avoids(e, at + [Item(n)])
    ensures Fits(Stamp(e, id, parent, ToItem(at, n)), at + [Item(n)] + r, node) <==> Fits(e, at + [Pattern] + r, node)
    decreases e
  {
    if e.Component? {
      ComponentFitsStamped(e, id, parent, at, n, r, node);
    } else if e.List? {
      AvoidsSub(e, at + [Item(n)], Pattern);
      StampSelfReferring(e, id, parent, at, n, r);
      assert at + [Pattern] + r + [Pattern] == at + [Pattern] + (r + [Pattern]);
      assert at + [Item(n)] + r + [Pattern] == at + [Item(n)] + (r + [Pattern]);
      forall c: Node
        ensures
          Fits(Stamp(e.pattern, e.pattern.id, PathOf(id, parent), ToItem(at, n)), at + [Item(n)] + r + [Pattern], c)
          <==> Fits(e.pattern, at + [Pattern] + r + [Pattern], c)
      {
        FitsStamped(e.pattern, e.pattern.id, PathOf(id, parent), at, n, r + [Pattern], c);
      }
    }
  }

  lemma {:induction false} ComponentFitsStamped(e: Element, id: string, parent: string, at: Pos, n: nat, r: Pos,
                                                node: Node)
    requires e.Component? && Avoids(e, at + [Item(n)])
    ensures Fits(Stamp(e, id, parent, ToItem(at, n)), at + [Item(n)] + r, node) <==> Fits(e, at + [Pattern] + r, node)
    decreases e, 0
  {
    var e' := Stamp(e, id, parent, ToItem(at, n));
    forall i, c: Node | 0 <= i < |e.items|
      ensures e'.items[i].id == e.items[i].id
      ensures Fits(e'.items[i], at + [Item(n)] + r + [Item(i)], c) <==>
        Fits(e.items[i], at + [Pattern] + r + [Item(i)], c)
    {
      var x := e.items[i];
      assert HasStep(e, Item(i)) && Sub(e, Item(i)) == x;
      AvoidsSub(e, at + [Item(n)], Item(i));
      StampPath(x, x.id, PathOf(id, parent), ToItem(at, n));
      assert at + [Pattern] + r + [Item(i)] == at + [Pattern] + (r + [Item(i)]);
      assert at + [Item(n)] + r + [Item(i)] == at + [Item(n)] + (r + [Item(i)]);
      FitsStamped(x, x.id, PathOf(id, parent), at, n, r + [Item(i)], c);
    }
  }

  // ----- Loading in two parts -----

  lemma {:induction false} LoadConcat(e: Element, pos: Pos, a: seq<Node>, b: seq<Node>)
    requires e.Component?
    ensures Load(e, pos, a + b) == if Load(e, pos, a).None? then None else Load(Load(e, pos, a).value, pos, b)
    decreases |a|
  {
    if a == [] {
      assert a + b == b;
    } else {
      assert (a + b)[0] == a[0] && (a + b)[1..] == a[1..] + b;
      var first := LoadOne(e, pos, a[0]);
      if first.Some? {
        LoadConcat(first.value, pos, a[1..], b);
      }
    }
  }

  lemma {:induction false} LoadSnoc(e: Element, pos: Pos, a: seq<Node>, n: Node)
    requires e.Component?
    ensures Load(e, pos, a + [n]) == if Load(e, pos, a).None? then None else LoadOne(Load(e, pos, a).value, pos, n)
  {
    LoadConcat(e, pos, a, [n]);
    assert [n][1..] == [];
  }

  lemma {:induction false} LoadItemsSnoc(l: Element, pos: Pos, a: seq<Node>, n: Node)
    requires l.List?
    ensures LoadItems(l, pos, a + [n]) ==
      if LoadItems(l, pos, a).None? then None
      else if n.name != "item" then LoadItems(l, pos, a) else LoadItem(LoadItems(l, pos, a).value, pos, n)
    decreases |a|
  {
    if a == [] {
      assert [] + [n] == [n] && [n][1..] == [];
    } else {
      assert (a + [n])[0] == a[0] && (a + [n])[1..] == a[1..] + [n];
      if a[0].name != "item" {
        LoadItemsSnoc(l, pos, a[1..], n);
      } else {
        var first := LoadItem(l, pos, a[0]);
        if first.Some? {
          LoadItemsSnoc(first.value, pos, a[1..], n);
        }
      }
    }
  }

  /** What one node does to the item with its name. */
  ghost function LoadInto(c: Element, pos: Pos, node: Node): Option<Element> {
    match c
    case Parameter(_, _, _, info) =>
      if Content(node) == "" then Some(c)
      else if !info.Holding? then None
      else
        (match FromString(info.data, Content(node))
         case None => None
         case Some(d) => Some(WithData(c, d)))
    case Component(_, _, _, _, _) => Load(c, pos, node.children)
    case List(_, _, _, _, _, _) => LoadItems(c, pos, node.children)
  }

  lemma {:induction false} LoadOneInto(e: Element, pos: Pos, node: Node)
    requires e.Component?
    ensures FindItem(e.items, node.name).None? ==> LoadOne(e, pos, node) == None
    ensures FindItem(e.items, node.name).Some? ==>
      var i := FindItem(e.items, node.name).value;
      var r := LoadInto(e.items[i], pos + [Item(i)], node);
      LoadOne(e, pos, node) == if r.None? then None else Some(WithItems(e, e.items[i := r.value]))
  {
    if FindItem(e.items, node.name).Some? {
      var i := FindItem(e.items, node.name).value;
      assert e.items[i := e.items[i]] == e.items;
    }
  }

  // ----- One node more -----

  lemma {:induction false} SnocTake(ns: seq<Node>, n: Node)
    ensures (ns + [n])[..|ns + [n]| - 1] == ns && (ns + [n])[|ns + [n]| - 1] == n
  {
  }

  lemma {:induction false} SnocNodes(ns: seq<Node>, n: Node, name: string)
    ensures Called(ns + [n], name) == Called(ns, name) + if n.name == name then [n] else []
    ensures Inside(ns + [n]) == Inside(ns) + n.children
    ensures LastText(ns + [n]) == if Content(n) != "" then Content(n) else LastText(ns)
    ensures Count(ns + [n]) == Count(ns) + 1 + Count(n.children)
  {
    SnocTake(ns, n);
  }

  lemma {:induction false} ReadsByType(a: Data, b: Data, s: string)
    requires a.typ == b.typ
    ensures FromString(a, s) == FromString(b, s)
  {
  }

  lemma {:induction false} ParameterMore(x: Element, pos: Pos, ns: seq<Node>, n: Node)
    requires x.Parameter? && AllFit(x, pos, ns)
    ensures LoadInto(Result(x, pos, ns), pos, n) == if Fits(x, pos, n) then Some(Result(x, pos, ns + [n])) else None
  {
    SnocNodes(ns, n, "");
    if x.info.Holding? {
      var r := Result(x, pos, ns);
      ResultTyped(x, pos, ns);
      ReadsByType(x.info.data, r.info.data, Content(n));
      ReadsWhen(x.info.data, Content(n));
    } else {
      NoText(x, pos, ns);
    }
  }

  lemma {:induction false} NoText(x: Element, pos: Pos, ns: seq<Node>)
    requires x.Parameter? && !x.info.Holding? && AllFit(x, pos, ns)
    ensures LastText(ns) == ""
    decreases |ns|
  {
    if ns != [] {
      assert Fits(x, pos, ns[|ns| - 1]);
      NoText(x, pos, ns[..|ns| - 1]);
    }
  }

  lemma {:induction false} ResultTyped(x: Element, pos: Pos, ns: seq<Node>)
    requires x.Parameter? && x.info.Holding?
    ensures var r := Result(x, pos, ns);
      r.info.Holding? && r.info.data.typ == x.info.data.typ && forall d :: WithData(r, d) == WithData(x, d)
  {
    ReadsWhen(x.info.data, LastText(ns));
    var d := FromString(x.info.data, LastText(ns));
    if d.Some? {
      var v :| ReadsAs(x.info.data.typ, LastText(ns), v);
    }
  }

  lemma {:induction false} FitsEach(x: Element, pos: Pos, ns: seq<Node>, n: Node)
    requires x.Component?
    ensures Fits(x, pos, n) <==> AllFitInto(x, pos, n.children)
    ensures AllFit(x, pos, ns) ==> AllFitInto(x, pos, Inside(ns))
    decreases |ns|
  {
    FitsIntoAll(x, pos, n);
    if ns != [] && AllFit(x, pos, ns) {
      var last := ns[|ns| - 1];
      assert Fits(x, pos, last);
      FitsIntoAll(x, pos, last);
      FitsEach(x, pos, ns[..|ns| - 1], n);
      FitConcat(x, pos, Inside(ns[..|ns| - 1]), last.children);
    }
  }

  lemma {:induction false} FitsIntoAll(x: Element, pos: Pos, n: Node)
    requires x.Component?
    ensures Fits(x, pos, n) <==> AllFitInto(x, pos, n.children)
  {
    if AllFitInto(x, pos, n.children) {
      forall c | c in n.children
        ensures FitsInto(x, pos, c)
      {
        var k :| 0 <= k < |n.children| && n.children[k] == c;
      }
    }
    if Fits(x, pos, n) {
      forall k | 0 <= k < |n.children|
        ensures FitsInto(x, pos, n.children[k])
      {
        assert n.children[k] in n.children;
      }
    }
  }

  lemma {:induction false} FitConcat(x: Element, pos: Pos, a: seq<Node>, b: seq<Node>)
    requires x.Component?
    ensures AllFitInto(x, pos, a + b) <==> AllFitInto(x, pos, a) && AllFitInto(x, pos, b)
  {
    if AllFitInto(x, pos, a + b) {
      forall k | 0 <= k < |a|
        ensures FitsInto(x, pos, a[k])
      {
        assert a[k] == (a + b)[k];
      }
      forall k | 0 <= k < |b|
        ensures FitsInto(x, pos, b[k])
      {
        assert b[k] == (a + b)[|a| + k];
      }
    }
  }

  /** A component that gets one node more. */
  lemma {:induction false} ComponentMore(x: Element, pos: Pos, ns: seq<Node>, n: Node)
    requires x.Component? && Built(x) && Clean(x, pos) && AllFit(x, pos, ns)
    ensures LoadInto(Result(x, pos, ns), pos, n) == if Fits(x, pos, n) then Some(Result(x, pos, ns + [n])) else None
    decreases Count(ns + [n]), 0
  {
    SnocNodes(ns, n, "");
    CountInside(ns + [n]);
    CountConcat(Inside(ns), n.children);
    FitsEach(x, pos, ns, n);
    FitConcat(x, pos, Inside(ns), n.children);
    LoadIs(x, pos, Inside(ns));
    LoadIs(x, pos, Inside(ns) + n.children);
    LoadConcat(x, pos, Inside(ns), n.children);
  }

  /** The pattern of the list refers to no item of it, and neither do those below. */
  ghost predicate CleanPattern(l: Element, pos: Pos)
    requires l.List?
  {
    && Built(l.pattern) && l.pattern.Component? && Clean(l.pattern, pos + [Pattern])
    && forall j: nat :: Avoids(l.pattern, pos + [Item(j)])
  }

  lemma {:induction false} CleanItem(l: Element, pos: Pos, j: nat, c: Node)
    requires l.List? && CleanPattern(l, pos)
    ensures var x := ItemOf(l, pos, j);
      && x.Component? && Built(x) && Clean(x, pos + [Item(j)])
      && (Fits(x, pos + [Item(j)], c) <==> Fits(l.pattern, pos + [Pattern], c))
  {
    StampBuilt(l.pattern, Dec(j), Path(l), ToItem(pos, j));
    assert pos + [Pattern] + [] == pos + [Pattern] && pos + [Item(j)] + [] == pos + [Item(j)];
    StampClean(l.pattern, Dec(j), Path(l), pos, j, []);
    FitsStamped(l.pattern, Dec(j), Path(l), pos, j, [], c);
  }

  lemma {:induction false} LoadItemIs(r: Element, pos: Pos, c: Node)
    requires r.List? && r.pattern.Component?
    ensures LoadItem(r, pos, c) ==
      if SelfReferring(r, pos) then None
      else
        var y := Load(NewItem(r, pos), pos + [Item(|r.items|)], c.children);
        if y.None? then None else Some(WithItems(r, r.items + [y.value]))
  {
    var x := NewItem(r, pos);
    var grown := WithItems(r, r.items + [x]);
    assert grown.items[|r.items|] == x;
    forall y
      ensures WithItems(grown, grown.items[|r.items| := y]) == WithItems(r, r.items + [y])
    {
      assert grown.items[|r.items| := y] == r.items + [y];
    }
  }

  /** Of the same list at two times. */
  predicate SameList(l: Element, r: Element) {
    l.List? && r.List? && r.pattern == l.pattern && r.id == l.id && r.parent == l.parent
  }

  lemma {:induction false} SameItems(l: Element, r: Element, pos: Pos, j: nat)
    requires SameList(l, r)
    ensures ItemOf(r, pos, j) == ItemOf(l, pos, j) && (SelfReferring(r, pos) <==> SelfReferring(l, pos))
  {
    assert Path(r) == Path(l);
  }

  /** A list gets an item for one node "item". */
  lemma {:induction false} ItemIs(l: Element, r: Element, pos: Pos, c: Node)
    requires SameList(l, r) && CleanPattern(l, pos)
    ensures LoadItem(r, pos, c) ==
      if !SelfReferring(l, pos) && Fits(l.pattern, pos + [Pattern], c) then
        Some(WithItems(r, r.items + [Result(ItemOf(l, pos, |r.items|), pos + [Item(|r.items|)], [c])]))
      else None
    decreases Count([c]), 3
  {
    var j := |r.items|;
    var x := ItemOf(l, pos, j);
    SameItems(l, r, pos, j);
    LoadItemIs(r, pos, c);
    CleanItem(l, pos, j, c);
    FitsIntoAll(x, pos + [Item(j)], c);
    CountOne(c);
    LoadIs(x, pos + [Item(j)], c.children);
    ResultOne(x, pos + [Item(j)], c);
  }

  lemma {:induction false} ResultOne(x: Element, pos: Pos, c: Node)
    requires x.Component?
    ensures Result(x, pos, [c]) == Filled(x, pos, c.children)
  {
    SnocNodes([], c, "");
    assert [] + [c] == [c] && [] + c.children == c.children;
  }

  /** The list, and the items it gets for the children. */
  ghost function Extended(l: Element, pos: Pos, cs: seq<Node>): Element
    requires l.List?
  {
    WithItems(l, l.items + NewItems(l, pos, Called(cs, "item")))
  }

  ghost predicate FitsList(l: Element, pos: Pos, cs: seq<Node>)
    requires l.List?
  {
    forall k :: 0 <= k < |cs| && cs[k].name == "item" ==>
      !SelfReferring(l, pos) && Fits(l.pattern, pos + [Pattern], cs[k])
  }

  /** The items for some nodes, and then those for others. */
  lemma {:induction false} NewItemsConcat(l: Element, r: Element, pos: Pos, a: seq<Node>, b: seq<Node>)
    requires SameList(l, r) && |r.items| == |l.items| + |a|
    ensures NewItems(l, pos, a + b) == NewItems(l, pos, a) + NewItems(r, pos, b)
  {
    var all, first, rest := NewItems(l, pos, a + b), NewItems(l, pos, a), NewItems(r, pos, b);
    forall i | 0 <= i < |all|
      ensures all[i] == (first + rest)[i]
    {
      if i >= |a| {
        SameItems(l, r, pos, |r.items| + (i - |a|));
        assert (a + b)[i] == b[i - |a|];
        assert |r.items| + (i - |a|) == |l.items| + i;
      } else {
        assert (a + b)[i] == a[i];
      }
    }
  }

  lemma {:induction false} OneNewItem(l: Element, r: Element, pos: Pos, c: Node)
    requires SameList(l, r)
    ensures NewItems(r, pos, [c]) == [Result(ItemOf(l, pos, |r.items|), pos + [Item(|r.items|)], [c])]
  {
    SameItems(l, r, pos, |r.items|);
    assert |r.items| + 0 == |r.items|;
  }

  lemma {:induction false} ExtendedMore(l: Element, pos: Pos, cs: seq<Node>, c: Node)
    requires l.List?
    ensures var r := Extended(l, pos, cs);
      Extended(l, pos, cs + [c]) == if c.name != "item" then r
        else WithItems(r, r.items + [Result(ItemOf(l, pos, |r.items|), pos + [Item(|r.items|)], [c])])
  {
    SnocNodes(cs, c, "item");
    var r, ms := Extended(l, pos, cs), Called(cs, "item");
    if c.name == "item" {
      ItemsConcat(l, pos, ms, r, [c]);
      OneNewItem(l, r, pos, c);
    } else {
      assert ms + [] == ms;
    }
  }

  lemma {:induction false} ItemsConcat(l: Element, pos: Pos, a: seq<Node>, r: Element, b: seq<Node>)
    requires SameList(l, r) && r.items == l.items + NewItems(l, pos, a)
    ensures l.items + NewItems(l, pos, a + b) == r.items + NewItems(r, pos, b)
  {
    NewItemsConcat(l, r, pos, a, b);
    assert l.items + (NewItems(l, pos, a) + NewItems(r, pos, b)) == l.items + NewItems(l, pos, a) + NewItems(r, pos, b);
  }

  lemma {:induction false} ItemsIs(l: Element, pos: Pos, cs: seq<Node>)
    requires l.List? && CleanPattern(l, pos)
    ensures LoadItems(l, pos, cs) == if FitsList(l, pos, cs) then Some(Extended(l, pos, cs)) else None
    decreases Count(cs), 4
  {
    if cs == [] {
      assert l.items + NewItems(l, pos, []) == l.items;
    } else {
      var a, c := cs[..|cs| - 1], cs[|cs| - 1];
      assert cs == a + [c];
      SnocNodes(a, c, "");
      CountOne(c);
      ItemsIs(l, pos, a);
      LoadItemsSnoc(l, pos, a, c);
      assert FitsList(l, pos, cs) ==> FitsList(l, pos, a) by {
        assert forall k :: 0 <= k < |a| ==> a[k] == cs[k];
      }
      if FitsList(l, pos, a) {
        ExtendedMore(l, pos, a, c);
        ItemIs(l, Extended(l, pos, a), pos, c);
        FitsListMore(l, pos, a, c);
      }
    }
  }

  lemma {:induction false} FitsListMore(l: Element, pos: Pos, a: seq<Node>, c: Node)
    requires l.List? && FitsList(l, pos, a)
    ensures FitsList(l, pos, a + [c]) <==>
      (c.name == "item" ==> !SelfReferring(l, pos) && Fits(l.pattern, pos + [Pattern], c))
  {
    assert (a + [c])[|a|] == c;
  }

  lemma {:induction false} CountOne(c: Node)
    ensures Count([c]) == 1 + Count(c.children)
  {
    SnocNodes([], c, "");
    assert [] + [c] == [c];
  }

  /** A list that gets one node more. */
  lemma {:induction false} ListMore(x: Element, pos: Pos, ns: seq<Node>, n: Node)
    requires x.List? && CleanPattern(x, pos)
    ensures LoadInto(Result(x, pos, ns), pos, n) == if Fits(x, pos, n) then Some(Result(x, pos, ns + [n])) else None
    decreases Count(ns + [n]), 0
  {
    var r := Result(x, pos, ns);
    SnocNodes(ns, n, "");
    ItemsIs(r, pos, n.children);
    FitsListIs(x, r, pos, n);
    ResultMore(x, pos, ns, n);
  }

  lemma {:induction false} FitsListIs(x: Element, r: Element, pos: Pos, n: Node)
    requires x.List? && r.List? && r.pattern == x.pattern
    ensures FitsList(r, pos, n.children) <==> Fits(x, pos, n)
  {
    assert SelfReferring(r, pos) <==> SelfReferring(x, pos);
    if Fits(x, pos, n) {
      forall k | 0 <= k < |n.children| && n.children[k].name == "item"
        ensures !SelfReferring(r, pos) && Fits(r.pattern, pos + [Pattern], n.children[k])
      {
        assert n.children[k] in n.children;
      }
    }
  }

  lemma {:induction false} CalledConcat(a: seq<Node>, b: seq<Node>, name: string)
    ensures Called(a + b, name) == Called(a, name) + Called(b, name)
    decreases |b|
  {
    if b == [] {
      assert a + b == a;
    } else {
      var b', last := b[..|b| - 1], b[|b| - 1];
      assert a + b == (a + b') + [last] && b == b' + [last];
      CalledConcat(a, b', name);
      SnocNodes(a + b', last, name);
      SnocNodes(b', last, name);
    }
  }

  lemma {:induction false} ResultMore(x: Element, pos: Pos, ns: seq<Node>, n: Node)
    requires x.List?
    ensures Extended(Result(x, pos, ns), pos, n.children) == Result(x, pos, ns + [n])
  {
    SnocNodes(ns, n, "item");
    CalledConcat(Inside(ns), n.children, "item");
    var r := Result(x, pos, ns);
    assert ns == [] ==> Inside(ns) == [] && x.items + NewItems(x, pos, []) == x.items;
    ItemsConcat(x, pos, Called(Inside(ns), "item"), r, Called(n.children, "item"));
  }

  /** Any item that gets one node more. */
  lemma {:induction false} OneMore(x: Element, pos: Pos, ns: seq<Node>, n: Node)
    requires Built(x) && Clean(x, pos) && AllFit(x, pos, ns)
    ensures LoadInto(Result(x, pos, ns), pos, n) == if Fits(x, pos, n) then Some(Result(x, pos, ns + [n])) else None
    decreases Count(ns + [n]), 1
  {
    match x {
      case Parameter(_, _, _, _) => ParameterMore(x, pos, ns, n);
      case Component(_, _, _, _, _) => ComponentMore(x, pos, ns, n);
      case List(_, _, _, _, _, _) =>
        assert HasStep(x, Pattern) && Sub(x, Pattern) == x.pattern;
        ListMore(x, pos, ns, n);
    }
  }

  // ----- All nodes -----

  lemma {:induction false} FindSame(a: seq<Element>, b: seq<Element>, name: string)
    requires |a| == |b| && forall i :: 0 <= i < |a| ==> a[i].id == b[i].id
    ensures FindItem(a, name) == FindItem(b, name)
  {
    if a != [] {
      FindSame(a[1..], b[1..], name);
    }
  }

  lemma {:induction false} CalledIn(nodes: seq<Node>, name: string)
    ensures forall i :: 0 <= i < |Called(nodes, name)| ==> Called(nodes, name)[i] in nodes
    ensures forall i :: 0 <= i < |Called(nodes, name)| ==> Called(nodes, name)[i].name == name
  {
    if nodes != [] {
      CalledIn(nodes[..|nodes| - 1], name);
    }
  }

  lemma {:induction false} CalledFit(e: Element, pos: Pos, nodes: seq<Node>, i: nat)
    requires e.Component? && DistinctIds(e.items) && i < |e.items| && AllFitInto(e, pos, nodes)
    ensures AllFit(e.items[i], pos + [Item(i)], Called(nodes, e.items[i].id))
  {
    var mine := Called(nodes, e.items[i].id);
    CalledIn(nodes, e.items[i].id);
    forall k | 0 <= k < |mine|
      ensures Fits(e.items[i], pos + [Item(i)], mine[k])
    {
      var m :| 0 <= m < |nodes| && nodes[m] == mine[k];
      assert FitsInto(e, pos, nodes[m]);
    }
  }

  lemma {:induction false} FitsIntoIff(e: Element, pos: Pos, c: Node)
    requires e.Component? && DistinctIds(e.items)
    ensures FitsInto(e, pos, c) <==>
      var i := FindItem(e.items, c.name);
      i.Some? && Fits(e.items[i.value], pos + [Item(i.value)], c)
  {
  }

  lemma {:induction false} FilledMore(e: Element, pos: Pos, ns: seq<Node>, n: Node, i: nat)
    requires e.Component? && DistinctIds(e.items) && i < |e.items| && e.items[i].id == n.name
    ensures Filled(e, pos, ns + [n]) == WithItems(e, Filled(e, pos, ns).items[i :=
      Result(e.items[i], pos + [Item(i)], Called(ns, n.name) + [n])])
  {
    var was, now := ItemResults(e, pos, ns), ItemResults(e, pos, ns + [n]);
    forall j | 0 <= j < |e.items|
      ensures now[j] == if j == i then Result(e.items[i], pos + [Item(i)], Called(ns, n.name) + [n]) else was[j]
    {
      SnocNodes(ns, n, e.items[j].id);
      assert Called(ns, e.items[j].id) + [] == Called(ns, e.items[j].id);
    }
    assert now == was[i := Result(e.items[i], pos + [Item(i)], Called(ns, n.name) + [n])];
  }

  /** One node more into a component. */
  lemma {:induction false} NextLoaded(e: Element, pos: Pos, ns: seq<Node>, n: Node)
    requires e.Component? && Built(e) && Clean(e, pos) && AllFitInto(e, pos, ns)
    ensures LoadOne(Filled(e, pos, ns), pos, n) ==
      if FitsInto(e, pos, n) then Some(Filled(e, pos, ns + [n])) else None
    decreases Count(ns + [n]), 2
  {
    var e' := Filled(e, pos, ns);
    LoadOneInto(e', pos, n);
    FindSame(e'.items, e.items, n.name);
    FitsIntoIff(e, pos, n);
    if FindItem(e.items, n.name).Some? {
      var i := FindItem(e.items, n.name).value;
      assert HasStep(e, Item(i)) && Sub(e, Item(i)) == e.items[i];
      CalledFit(e, pos, ns, i);
      SnocNodes(Called(ns, n.name), n, "");
      SnocNodes(ns, n, "");
      CountCalled(ns, n.name);
      OneMore(e.items[i], pos + [Item(i)], Called(ns, n.name), n);
      FilledMore(e, pos, ns, n, i);
    }
  }

  /** Loading children into a component: it succeeds exactly when all of them fit, and fills the items with what
      the nodes with their ids say. */
  lemma {:induction false} LoadIs(e: Element, pos: Pos, nodes: seq<Node>)
    requires e.Component? && Built(e) && Clean(e, pos)
    ensures Load(e, pos, nodes) == if AllFitInto(e, pos, nodes) then Some(Filled(e, pos, nodes)) else None
    decreases Count(nodes), 3
  {
    if nodes == [] {
      NothingLoaded(e, pos);
    } else {
      var ns, n := nodes[..|nodes| - 1], nodes[|nodes| - 1];
      assert nodes == ns + [n];
      SnocNodes(ns, n, "");
      LoadIs(e, pos, ns);
      LoadSnoc(e, pos, ns, n);
      FitConcat(e, pos, ns, [n]);
      assert AllFitInto(e, pos, [n]) <==> FitsInto(e, pos, n) by {
        assert [n][0] == n;
      }
      if AllFitInto(e, pos, ns) {
        NextLoaded(e, pos, ns, n);
      }
    }
  }

  /** Without nodes nothing changes. */
  lemma {:induction false} NothingLoaded(e: Element, pos: Pos)
    ensures Result(e, pos, []) == e
    ensures e.Component? ==> Filled(e, pos, []) == e
    decreases e
  {
    if e.Component? {
      forall i | 0 <= i < |e.items|
        ensures ItemResults(e, pos, [])[i] == e.items[i]
      {
        NothingLoaded(e.items[i], pos + [Item(i)]);
      }
      assert ItemResults(e, pos, []) == e.items;
    }
  }
}
