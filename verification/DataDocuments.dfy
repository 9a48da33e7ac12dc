/** `toXML` and `fromXML`: writing a data model to a document, and making one from a document. */
module DataDocuments {
  import opened Wrappers
  import opened Numerals
  import opened Elements
  import opened References
  import opened Copies
  import opened DataLists
  import opened Instances
  import opened Descendants
  import opened Xml
  import opened Loading
  import opened DataModels
  import opened MetaModels
  import opened XsdModels

  /** The document of a data model: its version, and the node "root". */
  datatype Document = Document(version: string, root: Node)

  /** `toXML`. */
  method ToDocument(d: DataModel) returns (doc: Document)
    requires d.Valid()
    ensures doc == Document(d.version, ToXml(d.root).(name := "root"))
  {
    var node := ComponentToXML(d.root, "root");
    doc := Document(d.version, node);
  }

  /** What `fromXML` asks of the schema model: its own document can be made, the versions agree, and a
      fresh data model can. */
  ghost predicate Loadable(m: MetaModel, version: string)
    reads m
    requires Xsd.AllSchema(m.root)
  {
    Writable(m.root, "root") && version == m.version && m.root.ref.None? && ExpectedSet(m.root)
  }

  /** `fromXML` on the document of a model: the document of the schema is made first, the version must
      match, a fresh data model is created, and the node "root" is loaded into it. */
  method FromXML(m: MetaModel, doc: Document, into: nat) returns (d: DataModel?)
    requires m.Valid() && Named(m.root)
    ensures Xsd.AllSchema(m.root)
    ensures d != null ==> fresh(d) && d.Valid() && d.version == m.version && d.model == into
    ensures d != null <==>
      Loadable(m, doc.version) && Fits(CopyTree(m.root, CreateData, Some(into)), [], doc.root)
    ensures d != null ==> d.root == Result(CopyTree(m.root, CreateData, Some(into)), [], [doc.root])
  {
    var xsd := ToXsdDocument(m);
    if xsd.None? || doc.version != m.version {
      return null;
    }
    d := m.CreateDataModel(into);
    if d == null {
      return;
    }
    CopyPath(m.root, CreateData, Some(into));
    var ok := d.LoadComponent([], doc.root);
    if !ok {
      return null;
    }
  }

  // ----- The round trip, into a model of another number -----

  /** The document says nothing about which model it is of. */
  lemma {:induction false} CloneDocument(e: Element, m: nat)
    ensures ToXml(CopyTree(e, Clone, Some(m))) == ToXml(e)
    decreases e
  {
    if !e.Parameter? {
      CloneNodes(e.items, m);
    }
  }

  lemma {:induction false} CloneNodes(es: seq<Element>, m: nat)
    ensures ChildNodes(CopyAll(es, Clone, Some(m))) == ChildNodes(es)
    ensures ItemNodes(CopyAll(es, Clone, Some(m))) == ItemNodes(es)
    decreases es
  {
    if es != [] {
      CloneDocument(es[0], m);
      CloneNodes(es[1..], m);
      CopyPath(es[0], Clone, Some(m));
      assert CopyAll(es, Clone, Some(m))[1..] == CopyAll(es[1..], Clone, Some(m));
    }
  }

  lemma {:induction false} CloneBlanked(e: Element, m: nat)
    ensures Blanked(CopyTree(e, Clone, Some(m))) == CopyTree(Blanked(e), Clone, Some(m))
    ensures NoEmptyText(CopyTree(e, Clone, Some(m))) <==> NoEmptyText(e)
    decreases e
  {
    if !e.Parameter? {
      var c := CopyTree(e, Clone, Some(m));
      forall i | 0 <= i < |e.items|
        ensures Blanked(c.items[i]) == CopyTree(Blanked(e.items[i]), Clone, Some(m))
        ensures NoEmptyText(c.items[i]) <==> NoEmptyText(e.items[i])
      {
        assert c.items[i] == CopyTree(e.items[i], Clone, Some(m));
        CloneBlanked(e.items[i], m);
      }
      assert BlankedAll(c.items) == CopyAll(BlankedAll(e.items), Clone, Some(m));
    }
  }

  /** A fresh tree cloned is the fresh tree of the other model. */
  lemma {:induction false} CloneOfCreated(src: Element, a: nat, b: nat)
    requires ExpectedSet(src)
    ensures CopyTree(CopyTree(src, CreateData, Some(a)), Clone, Some(b)) == CopyTree(src, CreateData, Some(b))
  {
    var once := CopyTree(src, CreateData, Some(a));
    var twice := CopyTree(once, Clone, Some(b));
    var copy := CopyTree(src, CreateData, Some(b));
    forall p | In(twice, p)
      ensures In(copy, p) && FaceOf(At(twice, p)) == FaceOf(At(copy, p))
    {
      CopyAt(once, Clone, Some(b), p);
      CopyAt(src, CreateData, Some(a), p);
      CopyFace(once, Clone, Some(b), p);
      CopyFace(src, CreateData, Some(a), p);
      CopyFace(src, CreateData, Some(b), p);
    }
    SameFaces(twice, copy);
  }

  /** What loading the document of a descendant gives, when the fresh tree belongs to model `into`. */
  lemma {:induction false} LoadsElsewhere(src: Element, model: nat, d: Element, into: nat)
    requires ExpectedSet(src) && d.Component? && Descends(d, CopyTree(src, CreateData, Some(model)), [])
    requires Fresh(CopyTree(src, CreateData, Some(into))) && Built(CopyTree(src, CreateData, Some(into)))
    ensures Load(CopyTree(src, CreateData, Some(into)), [], ToXml(d).children) ==
      Some(CopyTree(Blanked(Pristine(d, CopyTree(src, CreateData, Some(model)), [])), Clone, Some(into)))
  {
    var blank := CopyTree(src, CreateData, Some(model));
    var p := Pristine(d, blank, []);
    PristineInstance(d, blank, []);
    PristineDocument(d, blank, []);
    CloneInstance(p, blank, [], into);
    CloneOfCreated(src, model, into);
    CopyPath(p, Clone, Some(into));
    RoundTrip(CopyTree(p, Clone, Some(into)), CopyTree(src, CreateData, Some(into)));
    CloneDocument(p, into);
    CloneBlanked(p, into);
  }

  lemma {:induction false} FreshLoads(t: Element, model: nat, node: Node)
    requires WellFormed(t, model) && ExpectedSet(t) && Fresh(t)
    ensures t.Component?
    ensures Load(t, [], node.children) == if Fits(t, [], node) then Some(Result(t, [], [node])) else None
  {
    FreshHolds(t);
    FreshDescends(t, []);
    FreshClean(t, model, []);
    LoadBelow(t, model, t, [], node);
  }

  // ----- When the clone is the model itself -----

  /** Every reference below the element is one into the model, and expects a value. */
  ghost predicate Owned(e: Element, model: nat) {
    forall p :: In(e, p) && At(e, p).ref.Some? ==>
      At(e, p).ref.value.target.model == model && At(e, p).ref.value.expected.value.Some?
  }

  lemma {:induction false} OwnedSub(e: Element, model: nat, s: Step)
    requires Owned(e, model) && HasStep(e, s)
    ensures Owned(Sub(e, s), model)
  {
    forall p | In(Sub(e, s), p) && At(Sub(e, s), p).ref.Some?
      ensures At(Sub(e, s), p).ref.value.target.model == model && At(Sub(e, s), p).ref.value.expected.value.Some?
    {
      assert ([s] + p)[1..] == p;
      assert In(e, [s] + p) && At(e, [s] + p) == At(Sub(e, s), p);
    }
  }

  /** A clone into the same model changes nothing. */
  lemma {:induction false} OwnedClone(e: Element, model: nat)
    requires Owned(e, model)
    ensures CopyTree(e, Clone, Some(model)) == e
    decreases e
  {
    assert In(e, []) && At(e, []) == e;
    if !e.Parameter? {
      forall i | 0 <= i < |e.items|
        ensures CopyTree(e.items[i], Clone, Some(model)) == e.items[i]
      {
        assert HasStep(e, Item(i)) && Sub(e, Item(i)) == e.items[i];
        OwnedSub(e, model, Item(i));
        OwnedClone(e.items[i], model);
      }
      assert CopyAll(e.items, Clone, Some(model)) == e.items;
    }
    if e.List? {
      OwnedSub(e, model, Pattern);
      OwnedClone(e.pattern, model);
    }
  }

  lemma {:induction false} TreeOwned(root: Element, model: nat)
    requires WellFormed(root, model) && ExpectedSet(root)
    ensures Owned(root, model)
  {
    forall p | In(root, p) && At(root, p).ref.Some?
      ensures At(root, p).ref.value.target.model == model && At(root, p).ref.value.expected.value.Some?
    {
      assert GoodRef(root, model, At(root, p).ref.value);
    }
  }

  lemma {:induction false} ItemBlanked(d: Element, t: Element, pos: Pos, i: nat)
    requires Descends(d, t, pos) && !d.Parameter? && i < |d.items|
    ensures !t.Parameter? && (t.Component? ==> i < |t.items|)
    ensures Descends(d.items[i], Model(t, pos, i), pos + [Item(i)])
    ensures Sub(Blanked(Pristine(d, t, pos)), Item(i)) ==
      Blanked(Pristine(d.items[i], Model(t, pos, i), pos + [Item(i)]))
  {
    assert HasStep(d, Item(i)) && Sub(d, Item(i)) == d.items[i];
    DescendsSub(d, t, pos, Item(i));
    assert PristineItems(d, t, pos)[i] == Pristine(d.items[i], Model(t, pos, i), pos + [Item(i)]);
    var q := Pristine(d, t, pos);
    assert q.items == PristineItems(d, t, pos) && Blanked(q).items == BlankedAll(q.items);
  }

  /** The blanked pristine tree: its patterns come from the blank one, everything else from the tree. */
  lemma {:induction false} PristineOwned(d: Element, t: Element, pos: Pos, model: nat, p: Pos)
    requires Descends(d, t, pos) && Owned(d, model) && Owned(t, model) && In(Blanked(Pristine(d, t, pos)), p)
    ensures var e := At(Blanked(Pristine(d, t, pos)), p);
      e.ref.Some? ==> e.ref.value.target.model == model && e.ref.value.expected.value.Some?
    decreases p
  {
    var e := Blanked(Pristine(d, t, pos));
    if p == [] {
      assert In(d, []) && At(d, []) == d;
      assert e.ref == d.ref;
    } else if p[0].Item? {
      var i := p[0].i;
      assert HasStep(d, Item(i)) && Sub(d, Item(i)) == d.items[i];
      OwnedSub(d, model, Item(i));
      OwnedModel(t, pos, i, model);
      ItemBlanked(d, t, pos, i);
      PristineOwned(d.items[i], Model(t, pos, i), pos + [Item(i)], model, p[1..]);
    } else {
      PatternOwned(t, e, model, p);
    }
  }

  lemma {:induction false} PatternOwned(t: Element, e: Element, model: nat, p: Pos)
    requires Owned(t, model) && t.List? && e.List? && e.pattern == t.pattern
    requires In(e, p) && p != [] && p[0] == Pattern
    ensures At(e, p).ref.Some? ==>
      At(e, p).ref.value.target.model == model && At(e, p).ref.value.expected.value.Some?
  {
    OwnedSub(t, model, Pattern);
    assert In(t.pattern, p[1..]) && At(e, p) == At(t.pattern, p[1..]);
  }

  lemma {:induction false} OwnedModel(t: Element, pos: Pos, i: nat, model: nat)
    requires Owned(t, model) && !t.Parameter? && (t.Component? ==> i < |t.items|)
    ensures Owned(Model(t, pos, i), model)
  {
    if t.Component? {
      assert HasStep(t, Item(i)) && Sub(t, Item(i)) == t.items[i];
      OwnedSub(t, model, Item(i));
    } else {
      OwnedSub(t, model, Pattern);
      var c := ItemOf(t, pos, i);
      forall p | In(c, p) && At(c, p).ref.Some?
        ensures At(c, p).ref.value.target.model == model && At(c, p).ref.value.expected.value.Some?
      {
        StampRef(t.pattern, Dec(i), Path(t), ToItem(pos, i), p);
      }
    }
  }

  /** Two trees of one model are the same when their clones into another one are. */
  lemma {:induction false} OwnedSame(d: Element, e: Element, model: nat, into: nat)
    requires Owned(d, model) && Owned(e, model)
    ensures CopyTree(d, Clone, Some(into)) == CopyTree(e, Clone, Some(into)) <==> d == e
  {
    CloneOfClone(d, into, model);
    CloneOfClone(e, into, model);
    OwnedClone(d, model);
    OwnedClone(e, model);
  }

  /** What comes back is the clone exactly when no parameter holds the empty string and no pattern was
      changed. */
  lemma {:induction false} ComesBackSame(d: Element, t: Element, model: nat, into: nat)
    requires Descends(d, t, []) && Owned(d, model) && Owned(t, model)
    ensures CopyTree(Blanked(Pristine(d, t, [])), Clone, Some(into)) == CopyTree(d, Clone, Some(into)) <==>
      NoEmptyText(d) && Instance(d, t, [])
  {
    var e := Blanked(Pristine(d, t, []));
    forall p | In(e, p) && At(e, p).ref.Some?
      ensures At(e, p).ref.value.target.model == model && At(e, p).ref.value.expected.value.Some?
    {
      PristineOwned(d, t, [], model, p);
    }
    OwnedSame(e, d, model, into);
    PristineBlankedSame(d, t, []);
  }

  /** Saving a data model and loading it again, as the model `into`: for every model that `createData`
      made and that `addItem` and setting values changed since, in its patterns too, it succeeds exactly
      when the document of the schema can be made. The second model has the same ids, list lengths and
      values as the first, its references target its own elements as those of the first do theirs, and its
      patterns are those of the schema. It is the clone of the first if and only if no parameter holds the
      empty string and no pattern was changed. */
  method SaveAndLoad(m: MetaModel, d: DataModel, into: nat) returns (again: DataModel?)
    requires m.Valid() && Named(m.root) && m.root.ref.None? && ExpectedSet(m.root)
    requires d.Valid() && d.version == m.version && d.blank == CopyTree(m.root, CreateData, Some(d.model))
    ensures Xsd.AllSchema(m.root)
    ensures again != null <==> Writable(m.root, "root")
    ensures again != null ==> fresh(again) && again.Valid() && again.version == d.version && again.model == into
    ensures again != null ==> again.root == CopyTree(Blanked(Pristine(d.root, d.blank, [])), Clone, Some(into))
    ensures again != null ==>
      (again.root == CopyTree(d.root, Clone, Some(into)) <==> NoEmptyText(d.root) && d.Untouched())
  {
    var doc := ToDocument(d);
    CopyWellFormed(m.root, m.model, CreateData, d.model);
    CopyWellFormed(m.root, m.model, CreateData, into);
    CreatedFresh(m.root, Some(into));
    LoadsElsewhere(m.root, d.model, d.root, into);
    TreeOwned(d.root, d.model);
    TreeOwned(d.blank, d.model);
    ComesBackSame(d.root, d.blank, d.model, into);
    FreshLoads(CopyTree(m.root, CreateData, Some(into)), into, doc.root);
    again := FromXML(m, doc, into);
  }
}
