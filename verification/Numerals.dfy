/** Decimal numerals, as a C++ stream prints and reads them. */
module Numerals {
  import opened Wrappers

  const DIGITS := ['0', '1', '2', '3', '4', '5', '6', '7', '8', '9']

  predicate IsDigit(c: char) { '0' <= c <= '9' }

  function Digit(d: nat): (c: char)
    requires d < 10
    ensures IsDigit(c) && c as int - '0' as int == d
  {
    DIGITS[d]
  }

  /** `ss << n` for an unsigned number. */
  function Dec(n: nat): (s: string)
    ensures s != "" && forall i :: 0 <= i < |s| ==> IsDigit(s[i])
  {
    if n < 10 then [Digit(n)] else Dec(n / 10) + [Digit(n % 10)]
  }

  function Value(s: string): nat
    requires forall i :: 0 <= i < |s| ==> IsDigit(s[i])
  {
    if s == "" then 0
    else
      assert IsDigit(s[|s| - 1]);
      10 * Value(s[..|s| - 1]) + (s[|s| - 1] as int - '0' as int)
  }

  lemma {:induction false} ValueDec(n: nat)
    ensures Value(Dec(n)) == n
  {
    if n < 10 {
      assert Dec(n)[..|Dec(n)| - 1] == "";
    } else {
      var s := Dec(n);
      assert s[..|s| - 1] == Dec(n / 10);
      ValueDec(n / 10);
    }
  }

  /** Numbers are printed without leading zeros. */
  lemma {:induction false} NoLeadingZero(n: nat)
    ensures n == 0 ==> Dec(n) == "0"
    ensures n > 0 ==> Dec(n)[0] != '0'
  {
    if n >= 10 {
      NoLeadingZero(n / 10);
    }
  }

  lemma {:induction false} DecInjective(a: nat, b: nat)
    ensures Dec(a) == Dec(b) ==> a == b
  {
    ValueDec(a);
    ValueDec(b);
  }

  /** `ss << n` for a signed number. */
  function Print(n: int): string {
    if n < 0 then "-" + Dec(-n) else Dec(n)
  }

  /** The sign comes first, and there is none but a minus. */
  lemma {:induction false} Printed(n: int)
    ensures n >= 0 ==> Print(n) == Dec(n) && Value(Dec(n)) == n
    ensures n < 0 ==> Print(n) == "-" + Dec(-n) && Value(Dec(-n)) == -n
  {
    ValueDec(if n < 0 then -n else n);
  }

  predicate IsSpace(c: char) { c == ' ' || '\t' <= c <= '\r' }

  function SkipSpaces(s: string): string {
    if s != "" && IsSpace(s[0]) then SkipSpaces(s[1..]) else s
  }

  /** The leading digits of a string. */
  function LeadingDigits(s: string): (d: string)
    ensures d <= s && forall i :: 0 <= i < |d| ==> IsDigit(d[i])
  {
    if s == "" || !IsDigit(s[0]) then "" else [s[0]] + LeadingDigits(s[1..])
  }

  /** `ss >> n` into a type with range `[lo, hi]`: blanks are skipped, a sign is optional, the
      longest run of digits is read and the rest is ignored; no digit or an overflow fails. */
  function Parse(s: string, lo: int, hi: int): Option<int> {
    var t := SkipSpaces(s);
    var negative := t != "" && t[0] == '-';
    var u := if t != "" && (t[0] == '-' || t[0] == '+') then t[1..] else t;
    var d := LeadingDigits(u);
    if d == "" then None
    else
      var n: int := if negative then -(Value(d) as int) else Value(d);
      if lo <= n <= hi then Some(n) else None
  }

  // ----- Which texts are read, and as what -----

  /** Blanks, a sign or none, the longest run of digits, and the rest. */
  ghost predicate Spells(s: string, blanks: string, sign: string, digits: string, rest: string) {
    && s == blanks + (sign + (digits + rest))
    && (forall i :: 0 <= i < |blanks| ==> blanks[i] == ' ' || 9 <= blanks[i] as int <= 13)
    && (sign == "" || sign == "+" || sign == "-")
    && digits != "" && (forall i :: 0 <= i < |digits| ==> '0' <= digits[i] <= '9')
    && (rest != "" ==> !('0' <= rest[0] <= '9'))
  }

  function Signed(sign: string, digits: string): int
    requires forall i :: 0 <= i < |digits| ==> '0' <= digits[i] <= '9'
  {
    if sign == "-" then -(Value(digits) as int) else Value(digits)
  }

  /** The text starts with the number, after blanks. */
  ghost predicate Reads(s: string, n: int) {
    exists blanks, sign, digits, rest :: Spells(s, blanks, sign, digits, rest) && n == Signed(sign, digits)
  }

  lemma {:induction false} SkipBlanks(blanks: string, s: string)
    requires (forall i :: 0 <= i < |blanks| ==> IsSpace(blanks[i])) && (s != "" ==> !IsSpace(s[0]))
    ensures SkipSpaces(blanks + s) == s
  {
    if blanks == "" {
      assert blanks + s == s;
    } else {
      assert (blanks + s)[1..] == blanks[1..] + s;
      SkipBlanks(blanks[1..], s);
    }
  }

  lemma {:induction false} Skipped(s: string) returns (blanks: string)
    ensures s == blanks + SkipSpaces(s) && forall i :: 0 <= i < |blanks| ==> IsSpace(blanks[i])
    ensures SkipSpaces(s) != "" ==> !IsSpace(SkipSpaces(s)[0])
  {
    if s != "" && IsSpace(s[0]) {
      var more := Skipped(s[1..]);
      blanks := [s[0]] + more;
      assert s == [s[0]] + s[1..];
    } else {
      blanks := "";
    }
  }

  /** The text starts with the word, after blanks. */
  ghost predicate StartsWith(s: string, word: string) {
    exists blanks, rest :: Led(s, blanks, word, rest)
  }

  ghost predicate Led(s: string, blanks: string, word: string, rest: string) {
    s == blanks + (word + rest) && forall i :: 0 <= i < |blanks| ==> blanks[i] == ' ' || 9 <= blanks[i] as int <= 13
  }

  lemma {:induction false} StartsIff(s: string, word: string)
    requires word != "" && !IsSpace(word[0])
    ensures StartsWith(s, word) <==> word <= SkipSpaces(s)
  {
    if StartsWith(s, word) {
      var blanks, rest :| Led(s, blanks, word, rest);
      assert (word + rest)[0] == word[0];
      SkipBlanks(blanks, word + rest);
    }
    if word <= SkipSpaces(s) {
      var blanks := Skipped(s);
      var rest := SkipSpaces(s)[|word|..];
      assert SkipSpaces(s) == word + rest;
      assert Led(s, blanks, word, rest);
    }
  }

  lemma {:induction false} LeadingUpTo(digits: string, rest: string)
    requires (forall i :: 0 <= i < |digits| ==> IsDigit(digits[i])) && (rest != "" ==> !IsDigit(rest[0]))
    ensures LeadingDigits(digits + rest) == digits
  {
    if digits == "" {
      assert digits + rest == rest;
    } else {
      assert (digits + rest)[1..] == digits[1..] + rest;
      LeadingUpTo(digits[1..], rest);
    }
  }

  lemma {:induction false} AfterLeading(s: string)
    ensures var d := LeadingDigits(s);
      s == d + s[|d|..] && (s[|d|..] != "" ==> !IsDigit(s[|d|]))
  {
    if s != "" && IsDigit(s[0]) {
      AfterLeading(s[1..]);
    }
  }

  lemma {:induction false} AfterSign(s: string, lo: int, hi: int, sign: string, u: string)
    requires SkipSpaces(s) == sign + u && u != "" && IsDigit(u[0]) && (sign == "" || sign == "+" || sign == "-")
    ensures LeadingDigits(u) != ""
    ensures var n := Signed(sign, LeadingDigits(u));
      Parse(s, lo, hi) == if lo <= n <= hi then Some(n) else None
  {
    var t := sign + u;
    if sign == "" {
      assert t == u;
    } else {
      assert t[0] == sign[0] && t[1..] == u;
    }
  }

  lemma {:induction false} SpelledIsParsed(s: string, lo: int, hi: int, blanks: string, sign: string, digits: string,
                                           rest: string)
    requires Spells(s, blanks, sign, digits, rest)
    ensures Parse(s, lo, hi) == if lo <= Signed(sign, digits) <= hi then Some(Signed(sign, digits)) else None
  {
    var u := digits + rest;
    assert u[0] == digits[0];
    assert (sign + u)[0] == if sign == "" then digits[0] else sign[0];
    SkipBlanks(blanks, sign + u);
    LeadingUpTo(digits, rest);
    AfterSign(s, lo, hi, sign, u);
  }

  lemma {:induction false} ParsedIsSpelled(s: string, lo: int, hi: int)
    returns (blanks: string, sign: string, digits: string, rest: string)
    requires Parse(s, lo, hi).Some?
    ensures Spells(s, blanks, sign, digits, rest)
  {
    blanks := Skipped(s);
    var t := SkipSpaces(s);
    var u := if t != "" && (t[0] == '-' || t[0] == '+') then t[1..] else t;
    sign := if t != "" && (t[0] == '-' || t[0] == '+') then [t[0]] else "";
    assert t == sign + u;
    digits := LeadingDigits(u);
    rest := u[|digits|..];
    AfterLeading(u);
  }

  /** A number is read exactly when the text starts with one in the range of the type, after blanks. */
  lemma {:induction false} ParseIff(s: string, lo: int, hi: int, n: int)
    ensures Parse(s, lo, hi) == Some(n) <==> lo <= n <= hi && Reads(s, n)
  {
    if Parse(s, lo, hi).Some? {
      var blanks, sign, digits, rest := ParsedIsSpelled(s, lo, hi);
      SpelledIsParsed(s, lo, hi, blanks, sign, digits, rest);
    }
    if Reads(s, n) {
      var blanks, sign, digits, rest :| Spells(s, blanks, sign, digits, rest) && n == Signed(sign, digits);
      SpelledIsParsed(s, lo, hi, blanks, sign, digits, rest);
    }
  }

  /** Digits count what they say, and ten times as much one place further left. */
  lemma {:induction false} TenDigits()
    ensures Value("9876543210") == 9876543210
  {
    assert "9876543210"[..9] == "987654321" && "987654321"[..8] == "98765432" && "98765432"[..7] == "9876543";
    assert "9876543"[..6] == "987654" && "987654"[..5] == "98765" && "98765"[..4] == "9876" && "9876"[..3] == "987";
    assert "987"[..2] == "98" && "98"[..1] == "9" && "9"[..0] == "";
    assert Value("98") == 98 && Value("987") == 987 && Value("9876") == 9876 && Value("98765") == 98765;
    assert Value("987654") == 987654 && Value("9876543") == 9876543 && Value("98765432") == 98765432;
    assert Value("987654321") == 987654321;
  }

  /** Reading back a printed number gives the number. */
  lemma {:induction false} ParsePrint(n: int, lo: int, hi: int)
    requires lo <= n <= hi
    ensures Print(n) != ""
    ensures Parse(Print(n), lo, hi) == Some(n)
  {
    var sign, digits := if n < 0 then "-" else "", Dec(if n < 0 then -n else n);
    ValueDec(if n < 0 then -n else n);
    assert Print(n) == "" + (sign + (digits + ""));
    SpelledIsParsed(Print(n), lo, hi, "", sign, digits, "");
  }
}
