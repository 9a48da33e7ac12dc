/** Typed data of opensand-conf: `DataValue<T>` and its types, without the floating point ones. */
module Values {
  import opened Wrappers
  import opened Numerals

  /** A value of one of the C++ types `bool`, `short`/`int`/`long`, `std::string`. */
  datatype Val = BoolVal(b: bool) | NumVal(n: int) | TextVal(s: string)

  /** A data type. `NumType` carries the range of its C++ type; an enumeration holds strings. */
  datatype DataType =
    | BoolType
    | NumType(name: string, lo: int, hi: int)
    | TextType
    | EnumType(name: string, values: set<string>)

  /** A data: its type, and its value once it is set. */
  datatype Data = Data(typ: DataType, value: Option<Val>)

  /** Whether the C++ value type `T` of the data type can hold the value. */
  predicate Holds(t: DataType, v: Val) {
    match t
    case BoolType => v.BoolVal?
    case NumType(_, lo, hi) => v.NumVal? && lo <= v.n <= hi
    case TextType => v.TextVal?
    case EnumType(_, _) => v.TextVal?
  }

  /** `DataValueType::check`, refined by `DataEnumType::check`. */
  predicate Check(t: DataType, v: Val)
    requires Holds(t, v)
  {
    t.EnumType? ==> v.s in t.values
  }

  /** A data whose value, if any, passed the check of its type. */
  predicate Sound(d: Data) {
    d.value.Some? ==> Holds(d.typ, d.value.value) && Check(d.typ, d.value.value)
  }

  /** `DataValue::set`. */
  function Set(d: Data, v: Val): Option<Data>
    requires Holds(d.typ, v)
  {
    if Check(d.typ, v) then Some(d.(value := Some(v))) else None
  }

  /** Whether two data types share their C++ value type, so that the cast in `copy` succeeds. */
  predicate SameKind(t: DataType, u: DataType) {
    match t
    case BoolType => u.BoolType?
    case NumType(n, lo, hi) => u == NumType(n, lo, hi)
    case TextType => u.TextType? || u.EnumType?
    case EnumType(_, _) => u.TextType? || u.EnumType?
  }

  /** Whether `DataValue::get` gives a value: it does on a set data, and on one that holds a string, which
      is empty at first; any other member was never initialised. */
  predicate Readable(d: Data) {
    d.value.Some? || d.typ.TextType? || d.typ.EnumType?
  }

  /** `DataValue::get`. */
  function Get(d: Data): (v: Val)
    requires Sound(d) && Readable(d)
    ensures Holds(d.typ, v)
  {
    if d.value.Some? then d.value.value else TextVal("")
  }

  /** `DataValue::copy`: the cast may fail, the outcome of `set` is ignored. */
  function Copy(d: Data, src: Data): Option<Data>
    requires Sound(src) && Readable(src)
  {
    if !SameKind(d.typ, src.typ) then None
    else
      match Set(d, Get(src))
      case Some(d') => Some(d')
      case None => Some(d)
  }

  /** What a copy of a data holds: an unset string becomes the set empty string, if its type accepts it. */
  function Copied(d: Data): Data {
    if d.value.None? && (d.typ.TextType? || (d.typ.EnumType? && "" in d.typ.values)) then d.(value := Some(TextVal("")))
    else d
  }

  /** `DataValue::toString`: empty when unset, `true`/`false` for a boolean. */
  function ToString(d: Data): string {
    match d.value
    case None => ""
    case Some(BoolVal(b)) => if b then "true" else "false"
    case Some(NumVal(n)) => Print(n)
    case Some(TextVal(s)) => s
  }

  /** `DataValue::fromString`: parse, then set. */
  function FromString(d: Data, s: string): Option<Data> {
    match d.typ
    case BoolType =>
      var t := SkipSpaces(s);
      if "true" <= t then Some(d.(value := Some(BoolVal(true))))
      else if "false" <= t then Some(d.(value := Some(BoolVal(false))))
      else None
    case NumType(_, lo, hi) =>
      (match Parse(s, lo, hi)
       case None => None
       case Some(n) => Set(d, NumVal(n)))
    case TextType => Set(d, TextVal(s))
    case EnumType(_, _) => Set(d, TextVal(s))
  }

  /** The values that a text can be read as, by type. */
  ghost predicate ReadsAs(t: DataType, s: string, v: Val) {
    match t
    case BoolType => v.BoolVal? && StartsWith(s, if v.b then "true" else "false")
    case NumType(_, lo, hi) => v.NumVal? && lo <= v.n <= hi && Reads(s, v.n)
    case TextType => v == TextVal(s)
    case EnumType(_, values) => v == TextVal(s) && s in values
  }

  /** `fromString` accepts exactly the texts that can be read, and stores what they say. */
  lemma {:induction false} ReadsIff(d: Data, s: string, v: Val)
    ensures FromString(d, s) == Some(Data(d.typ, Some(v))) <==> ReadsAs(d.typ, s, v)
  {
    match d.typ
    case BoolType =>
      StartsIff(s, "true");
      StartsIff(s, "false");
    case NumType(_, lo, hi) =>
      if v.NumVal? {
        ParseIff(s, lo, hi, v.n);
      }
    case TextType =>
    case EnumType(_, _) =>
  }

  lemma {:induction false} ReadsWhen(d: Data, s: string)
    ensures FromString(d, s).Some? <==> exists v :: ReadsAs(d.typ, s, v)
    ensures forall v :: ReadsAs(d.typ, s, v) ==> FromString(d, s) == Some(Data(d.typ, Some(v)))
  {
    forall v
      ensures FromString(d, s) == Some(Data(d.typ, Some(v))) <==> ReadsAs(d.typ, s, v)
    {
      ReadsIff(d, s, v);
    }
    if FromString(d, s).Some? {
      var v := FromString(d, s).value.value.value;
      assert ReadsAs(d.typ, s, v);
    }
  }

  /** A data of the same type reads back every sound set value from what `toString` printed. */
  lemma {:induction false} ReadBack(d: Data, blank: Data)
    requires Sound(d) && d.value.Some? && blank.typ == d.typ
    ensures FromString(blank, ToString(d)) == Some(d)
  {
    match d.value.value
    case BoolVal(b) =>
    case NumVal(n) => ParsePrint(n, d.typ.lo, d.typ.hi);
    case TextVal(s) =>
  }

  /** What is printed: nothing without a value, a word for a boolean, a string as it is, and of a number its
      digits, without leading zeros, after a minus if it is negative. */
  lemma {:induction false} Prints(d: Data)
    ensures d.value == None ==> ToString(d) == ""
    ensures d.value == Some(BoolVal(true)) ==> ToString(d) == "true"
    ensures d.value == Some(BoolVal(false)) ==> ToString(d) == "false"
    ensures d.value.Some? && d.value.value.TextVal? ==> ToString(d) == d.value.value.s
    ensures d.value.Some? && d.value.value.NumVal? ==>
      var n := d.value.value.n;
      var digits := if n < 0 then ToString(d)[if ToString(d) == "" then 0 else 1..] else ToString(d);
      && (n < 0 ==> ToString(d) == "-" + digits)
      && digits != "" && (forall i :: 0 <= i < |digits| ==> '0' <= digits[i] <= '9')
      && Value(digits) == (if n < 0 then -n else n)
      && (digits[0] == '0' ==> digits == "0")
  {
    if d.value.Some? && d.value.value.NumVal? {
      var n := d.value.value.n;
      var m := if n < 0 then -n else n;
      Printed(n);
      NoLeadingZero(m);
      assert ("-" + Dec(m))[1..] == Dec(m);
    }
  }

  /** Only the empty string prints as nothing. */
  lemma {:induction false} PrintsEmpty(d: Data)
    requires Sound(d) && d.value.Some?
    ensures ToString(d) == "" <==> d.value == Some(TextVal(""))
  {
    match d.value.value
    case BoolVal(b) =>
    case NumVal(n) => ParsePrint(n, n, n);
    case TextVal(s) =>
  }

  /** Copying a sound set data into a fresh data of its own type reproduces it; an unset string comes
      out as the empty one. */
  lemma {:induction false} CopyReproduces(src: Data)
    requires Sound(src) && Readable(src)
    ensures Copy(Data(src.typ, None), src) == Some(Copied(src))
    ensures Copied(src) == src <==> src.value.Some? || (src.typ.EnumType? && "" !in src.typ.values)
  {
  }
}
