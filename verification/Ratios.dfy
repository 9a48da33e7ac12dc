/** The shares of the wave forms of a carrier: `getSpotCarriers` scales the configured ratios to a
    total of 1000, in 32-bit unsigned arithmetic. */
module Ratios {
  import opened Wrappers

  const WORD := 0x1_0000_0000

  type UInt = x: int | 0 <= x < WORD

  function Sum(values: seq<nat>, n: nat): nat
    requires n <= |values|
  {
    if n == 0 then 0 else Sum(values, n - 1) + values[n - 1]
  }

  /** The ratios by wave form; the last one counts when a wave form is named twice. */
  function Filed<T>(formats: seq<string>, values: seq<T>, n: nat): (r: map<string, T>)
    requires n <= |formats| == |values|
    ensures forall i :: 0 <= i < n ==> formats[i] in r
  {
    if n == 0 then map[] else Filed(formats, values, n - 1)[formats[n - 1] := values[n - 1]]
  }

  function Scaled(value: UInt, total: UInt): (r: UInt)
    requires total != 0
  {
    1000 * value % WORD / total
  }

  /** Sums and products have 32 bits. */
  lemma {:induction false} ScaledIs(value: nat, total: nat)
    requires value < 4294967296 && 0 < total < 4294967296
    ensures Scaled(value, total) == 1000 * value % 4294967296 / total && WORD == 4294967296
    ensures 1000 * value < 4294967296 ==> Scaled(value, total) == 1000 * value / total
  {
    if 1000 * value < 4294967296 {
      assert 1000 * value % WORD == 1000 * value;
    }
  }

  ghost predicate AllScaled(ratios: map<string, UInt>, filed: map<string, UInt>, total: UInt) {
    && total != 0 && ratios.Keys == filed.Keys
    && forall f :: f in ratios ==> ratios[f] == Scaled(filed[f], total)
  }

  /** The scaling of the ratios read. It fails when there is not one ratio for each wave form, and the
      total must not be 0, by which it divides. */
  method Scale(formats: seq<string>, values: seq<UInt>) returns (ratios: Option<map<string, UInt>>)
    requires |formats| == |values| ==> Sum(values, |values|) % WORD != 0
    ensures |formats| != |values| <==> ratios.None?
    ensures ratios.Some? ==>
      AllScaled(ratios.value, Filed(formats, values, |values|), Sum(values, |values|) % WORD)
  {
    if |values| != |formats| {
      return None;
    }
    var total: UInt := 0;
    var r: map<string, UInt> := map[];
    for n := 0 to |values|
      invariant total == Sum(values, n) % WORD
      invariant r == Filed(formats, values, n)
    {
      r := r[formats[n] := values[n]];
      total := (total + values[n]) % WORD;
    }
    ghost var filed := r;
    var left := r.Keys;
    while left != {}
      invariant left <= r.Keys == filed.Keys
      invariant forall f :: f in r ==> r[f] == if f in left then filed[f] else Scaled(filed[f], total)
      decreases |left|
    {
      var f :| f in left;
      left := left - {f};
      r := r[f := Scaled(r[f], total)];
    }
    return Some(r);
  }

  ghost predicate Distinct(formats: seq<string>) {
    forall i, j :: 0 <= i < j < |formats| ==> formats[i] != formats[j]
  }

  lemma {:induction false} FiledAt<T>(formats: seq<string>, values: seq<T>, n: nat, i: nat)
    requires i < n <= |formats| == |values| && Distinct(formats)
    ensures Filed(formats, values, n)[formats[i]] == values[i]
  {
    if i < n - 1 {
      FiledAt(formats, values, n - 1, i);
      assert formats[i] != formats[n - 1];
    }
  }

  /** The last value with the wave form is the one filed. */
  lemma {:induction false} FiledLast<T>(formats: seq<string>, values: seq<T>, n: nat, f: string) returns (i: int)
    requires n <= |formats| == |values|
    ensures -1 <= i < n && (i == -1 <==> f !in Filed(formats, values, n))
    ensures i >= 0 ==> formats[i] == f && Filed(formats, values, n)[f] == values[i]
    ensures forall j :: i < j < n ==> formats[j] != f
  {
    if n == 0 {
      i := -1;
    } else if formats[n - 1] == f {
      i := n - 1;
    } else {
      i := FiledLast(formats, values, n - 1, f);
    }
  }

  /** The shares in the order of the wave forms. */
  function Shares(values: seq<UInt>, total: UInt): (r: seq<UInt>)
    requires total != 0
    ensures |r| == |values|
    ensures forall i :: 0 <= i < |r| ==> r[i] == Scaled(values[i], total)
  {
    seq(|values|, i requires 0 <= i < |values| => Scaled(values[i], total))
  }

  lemma {:induction false} SumMonotone(values: seq<nat>, i: nat, n: nat)
    requires i < n <= |values|
    ensures values[i] <= Sum(values, n)
  {
    if i < n - 1 {
      SumMonotone(values, i, n - 1);
    }
  }

  lemma {:induction false} ScaledBounds(value: UInt, total: UInt)
    requires 1000 * value < WORD && total != 0
    ensures total * Scaled(value, total) <= 1000 * value < total * Scaled(value, total) + total
  {
    var x := 1000 * value;
    assert x % WORD == x;
    assert x == total * (x / total) + x % total;
  }

  lemma {:induction false} LoseStep(total: int, n: int, sum: int, value: int, before: int, share: int)
    requires 1000 * sum - (n - 1) * total <= total * before <= 1000 * sum
    requires total * share <= 1000 * value < total * share + total
    ensures 1000 * (sum + value) - n * total < total * (before + share) <= 1000 * (sum + value)
  {
    assert total * (before + share) == total * before + total * share;
    assert n * total == (n - 1) * total + total;
  }

  /** Each share loses less than one unit. */
  lemma {:induction false} SharesLose(values: seq<UInt>, total: UInt, n: nat)
    requires n <= |values| && total != 0 && forall i :: 0 <= i < |values| ==> 1000 * values[i] < WORD
    ensures 1000 * Sum(values, n) - n * total <= total * Sum(Shares(values, total), n) <= 1000 * Sum(values, n)
    ensures n > 0 ==> 1000 * Sum(values, n) - n * total < total * Sum(Shares(values, total), n)
  {
    if n > 0 {
      SharesLose(values, total, n - 1);
      ScaledBounds(values[n - 1], total);
      LoseStep(total, n, Sum(values, n - 1), values[n - 1], Sum(Shares(values, total), n - 1),
        Scaled(values[n - 1], total));
    }
  }

  lemma {:induction false} AtMost(total: int, a: int, b: int)
    requires total > 0 && total * a - total < total * b
    ensures a <= b
  {
    assert total * a - total == total * (a - 1);
  }

  lemma {:induction false} LosesLess(total: int, n: int, sum: int)
    requires total > 0 && 1000 * total - n * total < total * sum <= 1000 * total
    ensures 1000 - n + 1 <= sum <= 1000
  {
    AtMost(total, sum, 1000);
    assert total * (1000 - n + 1) - total == 1000 * total - n * total;
    AtMost(total, 1000 - n + 1, sum);
  }

  lemma {:induction false} ShareAtMost(values: seq<UInt>, total: UInt, i: nat)
    requires i < |values| && total == Sum(values, |values|) && 0 < total && 1000 * total < WORD
    ensures 1000 * values[i] < WORD && Scaled(values[i], total) <= 1000
  {
    SumMonotone(values, i, |values|);
    ScaledBounds(values[i], total);
    AtMost(total, Scaled(values[i], total), 1000);
  }

  /** Without overflow, the shares are at most 1000 each, and they sum to 1000 but for less than one
      unit for each wave form. */
  lemma {:induction false} SharesSum(values: seq<UInt>, total: UInt)
    requires values != [] && total == Sum(values, |values|) && 0 < total && 1000 * total < WORD
    ensures 1000 - |values| + 1 <= Sum(Shares(values, total), |values|) <= 1000
    ensures forall i :: 0 <= i < |values| ==> Shares(values, total)[i] <= 1000
  {
    var n := |values|;
    forall i | 0 <= i < n
      ensures 1000 * values[i] < WORD && Scaled(values[i], total) <= 1000
    {
      ShareAtMost(values, total, i);
    }
    SharesLose(values, total, n);
    var sum := Sum(Shares(values, total), n);
    LosesLess(total, n, sum);
  }

  /** The wave forms in the order configured, each with its ratio. */
  function RatiosOf(formats: seq<string>, ratios: map<string, UInt>): (r: seq<UInt>)
    requires forall i :: 0 <= i < |formats| ==> formats[i] in ratios
    ensures |r| == |formats| && forall i :: 0 <= i < |r| ==> r[i] == ratios[formats[i]]
  {
    seq(|formats|, i requires 0 <= i < |formats| => ratios[formats[i]])
  }

  lemma {:induction false} RatioAt(formats: seq<string>, values: seq<UInt>, ratios: map<string, UInt>, total: UInt,
                                   i: nat)
    requires i < |formats| == |values| && Distinct(formats)
    requires AllScaled(ratios, Filed(formats, values, |values|), total)
    ensures formats[i] in ratios && ratios[formats[i]] == Scaled(values[i], total)
  {
    FiledAt(formats, values, |values|, i);
  }

  /** For distinct wave forms the ratios that `Scale` returns are these shares. */
  lemma {:induction false} RatiosSum(formats: seq<string>, values: seq<UInt>, ratios: map<string, UInt>)
    requires |formats| == |values| && Distinct(formats) && values != []
    requires 0 < Sum(values, |values|) && 1000 * Sum(values, |values|) < WORD
    requires AllScaled(ratios, Filed(formats, values, |values|), Sum(values, |values|) % WORD)
    ensures forall i :: 0 <= i < |formats| ==> formats[i] in ratios && 0 <= ratios[formats[i]] <= 1000
    ensures 1000 - |formats| + 1 <= Sum(RatiosOf(formats, ratios), |formats|) <= 1000
  {
    var total: UInt := Sum(values, |values|);
    assert total % WORD == total;
    SharesSum(values, total);
    forall i | 0 <= i < |formats|
      ensures formats[i] in ratios && ratios[formats[i]] == Shares(values, total)[i]
    {
      RatioAt(formats, values, ratios, total, i);
    }
    assert RatiosOf(formats, ratios) == Shares(values, total);
  }
}
