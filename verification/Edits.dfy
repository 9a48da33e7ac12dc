/** Editing a tree in place: replacing a subtree, and appending an item to a container. */
module Edits {
  import opened Wrappers
  import opened Numerals
  import opened Elements

  // ----- Replacing a subtree by one of the same name -----

  lemma {:induction false} ReplaceSub(e: Element, p: Pos, x: Element, s: Step)
    requires In(e, p) && p != []
    ensures var c := Replace(e, p, x);
      && c.id == e.id && c.parent == e.parent && Path(c) == Path(e)
      && (c.Component? <==> e.Component?) && (c.List? <==> e.List?)
      && (HasStep(c, s) <==> HasStep(e, s))
      && (HasStep(e, s) ==> Sub(c, s) == if p[0] == s then Replace(Sub(e, s), p[1..], x) else Sub(e, s))
  {
  }

  lemma {:induction false} ReplaceName(e: Element, p: Pos, x: Element)
    requires In(e, p) && x.id == At(e, p).id && x.parent == At(e, p).parent
    requires x.Component? <==> At(e, p).Component?
    ensures var c := Replace(e, p, x); c.id == e.id && c.parent == e.parent && (c.Component? <==> e.Component?)
  {
  }

  lemma {:induction false} ReplaceBuilt(e: Element, p: Pos, x: Element)
    requires In(e, p) && Built(e) && Built(x)
    requires x.id == At(e, p).id && x.parent == At(e, p).parent && (x.Component? <==> At(e, p).Component?)
    ensures Built(Replace(e, p, x))
    decreases p
  {
    if p != [] {
      var c := Replace(e, p, x);
      ReplaceBuilt(Sub(e, p[0]), p[1..], x);
      ReplaceName(Sub(e, p[0]), p[1..], x);
      forall s | HasStep(c, s)
        ensures '/' !in Sub(c, s).id && Built(Sub(c, s))
      {
        ReplaceSub(e, p, x, s);
      }
    }
  }

  lemma {:induction false} ReplacePlaced(e: Element, p: Pos, x: Element)
    requires In(e, p) && Placed(e) && Placed(x)
    requires x.id == At(e, p).id && x.parent == At(e, p).parent && (x.Component? <==> At(e, p).Component?)
    ensures Placed(Replace(e, p, x))
    decreases p
  {
    if p != [] {
      var c := Replace(e, p, x);
      ReplacePlaced(Sub(e, p[0]), p[1..], x);
      ReplaceName(Sub(e, p[0]), p[1..], x);
      ReplaceSub(e, p, x, Pattern);
      forall s | HasStep(c, s)
        ensures Sub(c, s).parent == Path(c) && Placed(Sub(c, s))
      {
        ReplaceSub(e, p, x, s);
      }
    }
  }

  lemma {:induction false} ReplaceNamed(e: Element, p: Pos, x: Element)
    requires In(e, p) && Named(e) && Named(x)
    requires x.id == At(e, p).id && x.parent == At(e, p).parent && (x.Component? <==> At(e, p).Component?)
    ensures Named(Replace(e, p, x))
    decreases p
  {
    if p != [] {
      var c := Replace(e, p, x);
      ReplaceNamed(Sub(e, p[0]), p[1..], x);
      ReplaceName(Sub(e, p[0]), p[1..], x);
      forall s | HasStep(c, s)
        ensures Sub(c, s).id != "" && (s.Item? ==> Sub(c, s).id != "*") && Named(Sub(c, s))
      {
        ReplaceSub(e, p, x, s);
      }
    }
  }

  // ----- Appending an item -----

  /** The tree after the container at `pos` got `x` as its last item. */
  function Append(root: Element, pos: Pos, x: Element): Element
    requires In(root, pos) && !At(root, pos).Parameter?
  {
    Replace(root, pos, WithItems(At(root, pos), At(root, pos).items + [x]))
  }

  /** Every element that was there keeps everything but, for the container, its number of items. */
  lemma {:induction false} AppendOld(root: Element, pos: Pos, x: Element, p: Pos)
    requires In(root, pos) && !At(root, pos).Parameter? && In(root, p)
    ensures In(Append(root, pos, x), p)
    ensures FaceOf(At(Append(root, pos, x), p)) ==
            if p == pos then FaceOf(At(root, p)).(size := |At(root, pos).items| + 1) else FaceOf(At(root, p))
  {
    var c := At(root, pos);
    var grown := WithItems(c, c.items + [x]);
    ReplaceAt(root, pos, grown);
    if pos <= p {
      var r := p[|pos|..];
      assert p == pos + r;
      InConcat(root, pos, r);
      InConcat(Append(root, pos, x), pos, r);
      if r != [] {
        assert Sub(grown, r[0]) == Sub(c, r[0]);
      }
    } else {
      ReplaceElsewhere(root, pos, grown, p);
    }
  }

  /** The new item is there, as the last one. */
  lemma {:induction false} AppendNew(root: Element, pos: Pos, x: Element, q: Pos)
    requires In(root, pos) && !At(root, pos).Parameter?
    ensures var p := pos + [Item(|At(root, pos).items|)] + q;
      && (In(Append(root, pos, x), p) <==> In(x, q))
      && (In(x, q) ==> At(Append(root, pos, x), p) == At(x, q))
  {
    var c := At(root, pos);
    var n := |c.items|;
    var grown := WithItems(c, c.items + [x]);
    var root' := Append(root, pos, x);
    ReplaceAt(root, pos, grown);
    InSnoc(root', pos, Item(n));
    assert Sub(grown, Item(n)) == x;
    InConcat(root', pos + [Item(n)], q);
  }

  /** An item that was appended may be replaced at once. */
  lemma {:induction false} AppendThen(root: Element, pos: Pos, x: Element, y: Element)
    requires In(root, pos) && !At(root, pos).Parameter?
    ensures var at := pos + [Item(|At(root, pos).items|)];
      && In(Append(root, pos, x), at) && At(Append(root, pos, x), at) == x
      && Replace(Append(root, pos, x), at, y) == Append(root, pos, y)
  {
    var c := At(root, pos);
    var n := |c.items|;
    var grown := WithItems(c, c.items + [x]);
    var root' := Append(root, pos, x);
    ReplaceAt(root, pos, grown);
    InSnoc(root', pos, Item(n));
    ReplaceConcat(root', pos, [Item(n)], y);
    assert WithSub(grown, Item(n), y) == WithItems(c, c.items + [y]);
    ReplaceTwice(root, pos, grown, WithItems(c, c.items + [y]));
  }

  lemma {:induction false} AppendThenPattern(root: Element, pos: Pos, list: Element, pattern: Element)
    requires In(root, pos) && !At(root, pos).Parameter? && list.List?
    ensures var at := pos + [Item(|At(root, pos).items|)];
      && In(Append(root, pos, list), at + [Pattern]) && At(Append(root, pos, list), at + [Pattern]) == list.pattern
      && Replace(Append(root, pos, list), at + [Pattern], pattern) == Append(root, pos, list.(pattern := pattern))
  {
    var at := pos + [Item(|At(root, pos).items|)];
    AppendThen(root, pos, list, list.(pattern := pattern));
    InSnoc(Append(root, pos, list), at, Pattern);
    ReplaceConcat(Append(root, pos, list), at, [Pattern], pattern);
  }

  /** There is nothing else. */
  lemma {:induction false} AppendOnly(root: Element, pos: Pos, x: Element, p: Pos)
    requires In(root, pos) && !At(root, pos).Parameter? && In(Append(root, pos, x), p)
    ensures In(root, p) ||
      (&& pos + [Item(|At(root, pos).items|)] <= p
       && p == pos + [Item(|At(root, pos).items|)] + p[|pos| + 1..]
       && In(x, p[|pos| + 1..]))
  {
    var c := At(root, pos);
    var n := |c.items|;
    var grown := WithItems(c, c.items + [x]);
    ReplaceAt(root, pos, grown);
    if pos <= p {
      var r := p[|pos|..];
      assert p == pos + r;
      InConcat(Append(root, pos, x), pos, r);
      InConcat(root, pos, r);
      if r != [] && r[0] == Item(n) {
        assert p == pos + [Item(n)] + r[1..] && p[|pos| + 1..] == r[1..];
        AppendNew(root, pos, x, r[1..]);
      } else if r != [] {
        assert Sub(grown, r[0]) == Sub(c, r[0]);
      }
    } else {
      ReplaceElsewhere(root, pos, grown, p);
    }
  }

  /** What `addList` appends: a list with its pattern, an empty component named "*". */
  function NewList(parent: string, id: string, name: string, patternName: string, description: string,
                   patternDescription: string): Element {
    List(id, parent, None, Schema(name, description, false, false, None, ""), [],
         Component("*", parent + "/" + id, None, Schema(patternName, patternDescription, false, false, None, ""), []))
  }

  /** An item can be appended when its id is new, has no separator, and, in a list, is its number. */
  ghost predicate Appendable(c: Element, x: Element) {
    && !c.Parameter?
    && Built(x) && '/' !in x.id
    && (forall i :: 0 <= i < |c.items| ==> c.items[i].id != x.id)
    && (c.List? ==> x.Component? && x.id == Dec(|c.items|))
    && Placed(x) && x.parent == Path(c)
  }

  lemma {:induction false} AppendHere(c: Element, x: Element)
    requires Built(c) && Placed(c) && Appendable(c, x)
    ensures var grown := WithItems(c, c.items + [x]);
      && Built(grown) && Placed(grown) && Path(grown) == Path(c)
      && (Named(c) && Named(x) && x.id != "" && x.id != "*" ==> Named(grown))
  {
    var grown := WithItems(c, c.items + [x]);
    var n := |c.items|;
    forall s | HasStep(grown, s)
      ensures if s == Item(n) then Sub(grown, s) == x else HasStep(c, s) && Sub(grown, s) == Sub(c, s)
    {
    }
    assert DistinctIds(grown.items);
  }

  /** Appending keeps the tree built, placed and named. */
  lemma {:induction false} AppendNames(root: Element, pos: Pos, x: Element)
    requires IsRoot(root) && Built(root) && Placed(root) && In(root, pos) && Appendable(At(root, pos), x)
    ensures var r := Append(root, pos, x);
      && IsRoot(r) && Built(r) && Placed(r)
      && (Named(root) && Named(x) && x.id != "" && x.id != "*" ==> Named(r))
  {
    var c := At(root, pos);
    var grown := WithItems(c, c.items + [x]);
    BuiltBelow(root, pos);
    PlacedBelow(root, pos);
    AppendHere(c, x);
    ReplaceBuilt(root, pos, grown);
    ReplacePlaced(root, pos, grown);
    ReplaceName(root, pos, grown);
    if Named(root) && Named(x) && x.id != "" && x.id != "*" {
      NamedBelow(root, pos);
      ReplaceNamed(root, pos, grown);
    }
  }
}
