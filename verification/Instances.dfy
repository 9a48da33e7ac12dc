/** Which data trees a fresh data model can become.
    `addItem` and setting values are the changes considered; `clearItems`, which empties a list, is left
    out. A tree reached by them is an instance of the fresh tree: the same skeleton and references, any
    checked values, and lists whose items are instances of the stamped out pattern. */
module Instances {
  import opened Wrappers
  import opened Numerals
  import opened Values
  import opened Elements
  import opened Edits
  import opened References
  import opened DataLists
  import opened DataTrees

  /** A tree as `createData` makes it: no value set, no list filled. */
  ghost predicate Fresh(t: Element) {
    && (t.Parameter? ==> t.info.Holding? && t.info.data.value.None?)
    && (t.List? ==> t.items == [])
    && (forall s :: HasStep(t, s) ==> Fresh(Sub(t, s)))
  }

  predicate SameHead(d: Element, t: Element) {
    && d.id == t.id && d.parent == t.parent && d.ref == t.ref
    && (d.Component? <==> t.Component?) && (d.List? <==> t.List?)
    && (!d.Parameter? ==> d.info == t.info)
  }

  /** `d`, at position `pos` of its model, is an instance of the fresh tree `t`. */
  ghost predicate Instance(d: Element, t: Element, pos: Pos)
    decreases d
  {
    && SameHead(d, t)
    && match d
       case Parameter(_, _, _, info) =>
         && info.Holding? && Sound(info.data)
         && t.info.Holding? && t.info.data == Data(info.data.typ, None)
       case Component(_, _, _, _, items) =>
         && |items| == |t.items|
         && forall i :: 0 <= i < |items| ==> Instance(items[i], t.items[i], pos + [Item(i)])
       case List(_, _, _, _, items, pattern) =>
         && pattern == t.pattern && t.items == []
         && (items != [] ==> !SelfReferring(t, pos))
         && forall i :: 0 <= i < |items| ==> Instance(items[i], ItemOf(t, pos, i), pos + [Item(i)])
  }

  lemma {:induction false} StampFresh(e: Element, id: string, parent: string, move: Move)
    requires Fresh(e)
    ensures Fresh(Stamp(e, id, parent, move))
    decreases e
  {
    var c := Stamp(e, id, parent, move);
    forall s | HasStep(c, s)
      ensures Fresh(Sub(c, s))
    {
      StampSub(e, id, parent, move, s);
      StampFresh(Sub(e, s), Sub(e, s).id, PathOf(id, parent), move);
    }
  }

  /** A fresh tree is an instance of itself. */
  lemma {:induction false} FreshInstance(t: Element, pos: Pos)
    requires Fresh(t)
    ensures Instance(t, t, pos)
    decreases t
  {
    if t.Component? {
      forall i | 0 <= i < |t.items|
        ensures Instance(t.items[i], t.items[i], pos + [Item(i)])
      {
        assert HasStep(t, Item(i)) && Sub(t, Item(i)) == t.items[i];
        FreshInstance(t.items[i], pos + [Item(i)]);
      }
    }
  }

  // ----- Changing an instance at one position -----

  /** A way down that uses items only: the elements a user of the model can change. */
  predicate ThroughItems(p: Pos) {
    forall k :: 0 <= k < |p| ==> p[k].Item?
  }

  /** The fresh element that the child of an instance is an instance of. */
  function Model(t: Element, pos: Pos, i: nat): Element
    requires t.Component? ==> i < |t.items|
    requires !t.Parameter?
  {
    if t.Component? then t.items[i] else ItemOf(t, pos, i)
  }

  lemma {:induction false} InstanceChild(d: Element, t: Element, pos: Pos, i: nat)
    requires Instance(d, t, pos) && HasStep(d, Item(i))
    ensures !t.Parameter? && (t.Component? ==> i < |t.items|)
    ensures Instance(d.items[i], Model(t, pos, i), pos + [Item(i)])
  {
  }

  lemma {:induction false} FreshModel(t: Element, pos: Pos, i: nat)
    requires Fresh(t) && !t.Parameter? && (t.Component? ==> i < |t.items|)
    ensures Fresh(Model(t, pos, i))
  {
    if t.Component? {
      assert HasStep(t, Item(i)) && Sub(t, Item(i)) == t.items[i];
    } else {
      assert HasStep(t, Pattern) && Sub(t, Pattern) == t.pattern;
      StampFresh(t.pattern, Dec(i), Path(t), Shift(pos + [Pattern], pos + [Item(i)]));
    }
  }

  lemma {:induction false} InstanceWithChild(d: Element, t: Element, pos: Pos, i: nat, x: Element)
    requires Instance(d, t, pos) && HasStep(d, Item(i))
    requires !t.Parameter? && (t.Component? ==> i < |t.items|)
    requires Instance(x, Model(t, pos, i), pos + [Item(i)])
    ensures Instance(WithSub(d, Item(i), x), t, pos)
  {
  }

  /** Setting the data of a parameter of an instance. */
  lemma {:induction false} InstanceSet(d: Element, t: Element, pos: Pos, p: Pos, data: Data)
    requires Instance(d, t, pos) && In(d, p) && ThroughItems(p) && At(d, p).Parameter?
    requires Sound(data) && At(d, p).info.Holding? && data.typ == At(d, p).info.data.typ
    ensures Instance(SetRoot(d, p, data), t, pos)
    decreases p
  {
    if p != [] {
      var i := p[0].i;
      InstanceChild(d, t, pos, i);
      InstanceSet(d.items[i], Model(t, pos, i), pos + [Item(i)], p[1..], data);
      InstanceWithChild(d, t, pos, i, SetRoot(d.items[i], p[1..], data));
    }
  }

  lemma {:induction false} InstanceGrowHere(d: Element, t: Element, pos: Pos)
    requires Instance(d, t, pos) && Fresh(t) && d.List? && !SelfReferring(d, pos)
    ensures Instance(WithItems(d, d.items + [NewItem(d, pos)]), t, pos)
  {
    var n := |d.items|;
    assert Path(d) == Path(t);
    assert NewItem(d, pos) == ItemOf(t, pos, n);
    FreshModel(t, pos, n);
    FreshInstance(ItemOf(t, pos, n), pos + [Item(n)]);
  }

  /** The list of an instance grows into an instance, at whatever depth it is. */
  lemma {:induction false} InstanceGrow(d: Element, t: Element, pos: Pos, p: Pos)
    requires Instance(d, t, pos) && Fresh(t) && In(d, p) && ThroughItems(p) && At(d, p).List?
    requires !SelfReferring(At(d, p), pos + p)
    ensures Instance(Append(d, p, NewItem(At(d, p), pos + p)), t, pos)
    decreases p
  {
    if p == [] {
      assert pos + p == pos;
      InstanceGrowHere(d, t, pos);
    } else {
      var i := p[0].i;
      assert pos + p == (pos + [Item(i)]) + p[1..];
      InstanceChild(d, t, pos, i);
      FreshModel(t, pos, i);
      InstanceGrow(d.items[i], Model(t, pos, i), pos + [Item(i)], p[1..]);
      var list := At(d, p);
      InstanceWithChild(d, t, pos, i, Append(d.items[i], p[1..], NewItem(list, pos + p)));
    }
  }

  /** `createData` makes a fresh tree from a schema whose lists hold nothing but their pattern. */
  ghost predicate SchemaTree(e: Element) {
    && e.info.Schema?
    && (e.Parameter? <==> e.info.typ.Some?)
    && (e.List? ==> e.items == [])
    && (forall s :: HasStep(e, s) ==> SchemaTree(Sub(e, s)))
  }

  lemma {:induction false} CreatedFresh(e: Element, into: Option<nat>)
    requires SchemaTree(e)
    ensures Fresh(CopyTree(e, CreateData, into))
    decreases e
  {
    var c := CopyTree(e, CreateData, into);
    forall s | HasStep(c, s)
      ensures Fresh(Sub(c, s))
    {
      CopySub(e, CreateData, into, s);
      CreatedFresh(Sub(e, s), into);
    }
  }

  lemma {:induction false} FreshBelow(t: Element, p: Pos)
    requires Fresh(t) && In(t, p)
    ensures Fresh(At(t, p))
  {
    if p != [] {
      FreshBelow(Sub(t, p[0]), p[1..]);
    }
  }

  lemma {:induction false} FreshHolds(t: Element)
    requires Fresh(t)
    ensures HoldsData(t)
  {
    forall p | In(t, p) && At(t, p).Parameter?
      ensures At(t, p).info.Holding? && Sound(At(t, p).info.data)
    {
      FreshBelow(t, p);
    }
  }
}
