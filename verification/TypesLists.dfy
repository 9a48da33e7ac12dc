/** The value types a schema may use: `MetaTypesList`, the built-in types and the enumerations. */
module TypesLists {
  import opened Wrappers
  import opened Values

  datatype Enum = Enum(name: string, description: string, values: set<string>)

  /** The enumerations by id. */
  datatype Types = Types(enums: map<string, Enum>)

  /** The ids of the built-in types. The floating point ones have no data here. */
  predicate BuiltIn(id: string) {
    id in ["bool", "double", "float", "int", "short", "long", "string"]
  }

  function BuiltInType(id: string): Option<DataType> {
    if id == "bool" then Some(BoolType)
    else if id == "short" then Some(NumType("short", -0x8000, 0x7fff))
    else if id == "int" then Some(NumType("int", -0x8000_0000, 0x7fff_ffff))
    else if id == "long" then Some(NumType("long", -0x8000_0000_0000_0000, 0x7fff_ffff_ffff_ffff))
    else if id == "string" then Some(TextType)
    else None
  }

  function TypeId(t: DataType): string {
    match t
    case BoolType => "bool"
    case NumType(name, _, _) => name
    case TextType => "string"
    case EnumType(name, _) => name
  }

  /** `getType`. */
  function GetType(types: Types, id: string): (r: Option<DataType>) {
    if BuiltIn(id) then BuiltInType(id)
    else if id in types.enums then Some(EnumType(id, types.enums[id].values))
    else None
  }

  /** `addEnumType`: an enumeration needs a value and a new id. */
  function AddEnumType(types: Types, id: string, name: string, values: set<string>,
                       description: string): Option<Types> {
    if values == {} || BuiltIn(id) || id in types.enums then None
    else Some(Types(types.enums[id := Enum(name, description, values)]))
  }

  /** The check of `addParameter`: the type is the one of the list with its id. */
  predicate Knows(types: Types, t: DataType) {
    GetType(types, TypeId(t)) == Some(t)
  }

  /** What `addEnumType` establishes. */
  predicate ProperTypes(types: Types) {
    forall id :: id in types.enums ==> !BuiltIn(id) && types.enums[id].values != {}
  }

  /** A list that grows keeps the types it knows. */
  lemma {:induction false} KnowsMore(types: Types, id: string, name: string, values: set<string>, description: string,
                                     t: DataType)
    requires AddEnumType(types, id, name, values, description).Some? && Knows(types, t)
    ensures Knows(AddEnumType(types, id, name, values, description).value, t)
  {
  }

  /** The built-in types, by what their values can be. */
  lemma {:induction false} BuiltInTypes(types: Types, v: Val)
    ensures forall id :: id in ["bool", "short", "int", "long", "string"] ==> GetType(types, id).Some?
    ensures GetType(types, "float") == GetType(types, "double") == None
    ensures Holds(GetType(types, "bool").value, v) <==> v.BoolVal?
    ensures Holds(GetType(types, "short").value, v) <==> v.NumVal? && -32768 <= v.n <= 32767
    ensures Holds(GetType(types, "int").value, v) <==> v.NumVal? && -2147483648 <= v.n <= 2147483647
    ensures Holds(GetType(types, "long").value, v) <==>
      v.NumVal? && -9223372036854775808 <= v.n <= 9223372036854775807
    ensures Holds(GetType(types, "string").value, v) <==> v.TextVal?
  {
  }

  /** The type of an id has that id; any other id is that of an enumeration, or of none. */
  lemma {:induction false} GotType(types: Types, id: string)
    ensures GetType(types, id).Some? ==> TypeId(GetType(types, id).value) == id
    ensures id !in ["bool", "double", "float", "int", "short", "long", "string"] ==>
      GetType(types, id) == if id in types.enums then Some(EnumType(id, types.enums[id].values)) else None
  {
  }

  // ----- The order of a map or a set of strings -----

  predicate Below(a: string, b: string) {
    b != [] && (a == [] || a[0] < b[0] || (a[0] == b[0] && Below(a[1..], b[1..])))
  }

  lemma {:induction false} BelowTotal(a: string, b: string)
    ensures a == b || Below(a, b) || Below(b, a)
    ensures !(Below(a, b) && Below(b, a)) && !Below(a, a)
  {
    if a != [] && b != [] && a[0] == b[0] {
      BelowTotal(a[1..], b[1..]);
      assert a == [a[0]] + a[1..] && b == [b[0]] + b[1..];
    }
    if a != [] {
      BelowTotal(a[1..], a[1..]);
    }
  }

  lemma {:induction false} BelowTransitive(a: string, b: string, c: string)
    requires Below(a, b) && Below(b, c)
    ensures Below(a, c)
  {
    if a != [] && a[0] == b[0] == c[0] {
      BelowTransitive(a[1..], b[1..], c[1..]);
    }
  }

  predicate IsFirst(x: string, s: set<string>) {
    x in s && forall y :: y in s && y != x ==> Below(x, y)
  }

  lemma {:induction false} FirstExists(s: set<string>) returns (x: string)
    requires s != {}
    ensures IsFirst(x, s)
    decreases |s|
  {
    x :| x in s;
    if s != {x} {
      var rest := s - {x};
      var y := FirstExists(rest);
      BelowTotal(x, y);
      forall z | z in s && z != x && z != y
        ensures Below(x, y) ==> Below(x, z)
        ensures Below(y, z)
      {
        assert z in rest;
        if Below(x, y) {
          BelowTransitive(x, y, z);
        }
      }
      if Below(y, x) {
        x := y;
      }
    }
  }

  lemma {:induction false} FirstUnique(x: string, y: string, s: set<string>)
    requires IsFirst(x, s) && IsFirst(y, s)
    ensures x == y
  {
    BelowTotal(x, y);
  }

  function First(s: set<string>): (x: string)
    requires s != {}
    ensures IsFirst(x, s)
  {
    assert exists x :: IsFirst(x, s) by {
      var x := FirstExists(s);
    }
    assert forall x, y :: IsFirst(x, s) && IsFirst(y, s) ==> x == y by {
      forall x, y | IsFirst(x, s) && IsFirst(y, s)
        ensures x == y
      {
        FirstUnique(x, y, s);
      }
    }
    var x :| IsFirst(x, s);
    x
  }

  /** The elements in ascending order. */
  function Listing(s: set<string>): seq<string>
    decreases |s|
  {
    if s == {} then [] else [First(s)] + Listing(s - {First(s)})
  }

  lemma {:induction false} ListingIs(s: set<string>)
    ensures forall x :: x in Listing(s) <==> x in s
    ensures forall i, j :: 0 <= i < j < |Listing(s)| ==> Listing(s)[i] != Listing(s)[j]
    decreases |s|
  {
    if s != {} {
      ListingIs(s - {First(s)});
    }
  }

  lemma {:induction false} ListingAscends(s: set<string>, i: nat, j: nat)
    requires i < j < |Listing(s)|
    ensures Below(Listing(s)[i], Listing(s)[j])
    decreases |s|
  {
    var rest := s - {First(s)};
    if i == 0 {
      ListingIs(rest);
      assert Listing(rest)[j - 1] in Listing(rest);
    } else {
      ListingAscends(rest, i - 1, j - 1);
    }
  }
}
