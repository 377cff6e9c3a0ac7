/**
 * The part of decimal.js-light the payment commands use: `new Decimal(0).add(amount)`
 * over invoice amounts given as strings.  Values are exact reals; the library's
 * rounding to 20 significant digits is not modelled.
 */
module Decimal {
  import opened Wrappers
  import opened Text

  /** `x * 10^e` for an exponent of either sign. */
  function ScaleBy(x: real, e: int): real
    decreases if e >= 0 then e else -e
  {
    if e == 0 then x
    else if e > 0 then 10.0 * ScaleBy(x, e - 1)
    else ScaleBy(x, e + 1) / 10.0
  }

  /** The value of the digits after a decimal point. */
  function FracValue(s: string): (r: real)
    requires AllDigits(s)
    ensures 0.0 <= r <= 1.0
  {
    if |s| == 0 then 0.0 else (DigitValue(s[0]) as real + FracValue(s[1..])) / 10.0
  }

  predicate ExpMark(c: char) {
    c == 'e' || c == 'E'
  }

  /** The index of the first exponent mark, or the length when there is none. */
  function FindExp(s: string): (k: nat)
    ensures k <= |s| && (k < |s| ==> ExpMark(s[k])) && forall j :: 0 <= j < k ==> !ExpMark(s[j])
  {
    if |s| == 0 || ExpMark(s[0]) then 0
    else
      var k := 1 + FindExp(s[1..]);
      assert forall j :: 1 <= j < k ==> s[j] == s[1..][j - 1];
      k
  }

  /** `\d+(\.\d*)?|\.\d+`: digits around at most one point, at least one digit. */
  predicate ValidMantissa(m: string) {
    AllDigits(Before(m, '.')) && AllDigits(After(m, '.')) && |Before(m, '.')| + |After(m, '.')| > 0
  }

  function MantissaValue(m: string): real
    requires ValidMantissa(m)
  {
    DigitsNat(Before(m, '.')) as real + FracValue(After(m, '.'))
  }

  /** `[+-]?\d+` after the exponent mark. */
  function ExponentValue(x: string): Option<int> {
    var neg := |x| > 0 && x[0] == '-';
    var digits := if |x| > 0 && (x[0] == '-' || x[0] == '+') then x[1..] else x;
    if |digits| == 0 || !AllDigits(digits) then None
    else
      var v: int := DigitsNat(digits);
      Some(if neg then -v else v)
  }

  /** `/^(\d+(\.\d*)?|\.\d+)(e[+-]?\d+)?$/i` and the value it spells. */
  function ParseUnsigned(body: string): Option<real> {
    var k := FindExp(body);
    var m := body[..k];
    if !ValidMantissa(m) then None
    else
      var e := if k == |body| then Some(0) else ExponentValue(body[k + 1..]);
      if e.None? then None else Some(ScaleBy(MantissaValue(m), e.value))
  }

  /** `new Decimal(s)` for a string: an optional leading '-' before the unsigned form; anything else throws (`None`). */
  function ParseDecimal(s: string): Option<real> {
    if |s| > 0 && s[0] == '-' then
      var r := ParseUnsigned(s[1..]);
      if r.None? then None else Some(-r.value)
    else ParseUnsigned(s)
  }

  /** A string of digits is read as the integer it spells. */
  lemma DigitsAreIntegers(s: string)
    requires |s| > 0 && AllDigits(s)
    ensures ParseDecimal(s) == Some(DigitsNat(s) as real)
  {
    assert !ExpMark(s[0]);
    assert FindExp(s) == |s|;
    assert s[..|s|] == s;
    assert '.' !in s;
    assert Before(s, '.') == s && After(s, '.') == "";
    assert MantissaValue(s) == DigitsNat(s) as real;
    assert ParseUnsigned(s) == Some(ScaleBy(MantissaValue(s), 0));
  }

  /** A leading '-' negates the value of what follows. */
  lemma MinusNegates(s: string)
    requires |s| == 0 || s[0] != '-'
    ensures ParseDecimal("-" + s).Some? <==> ParseDecimal(s).Some?
    ensures ParseDecimal(s).Some? ==> ParseDecimal("-" + s) == Some(-ParseDecimal(s).value)
  {
    var t := "-" + s;
    assert t[0] == '-' && t[1..] == s;
    var r := ParseUnsigned(s);
    assert ParseDecimal(t) == if r.None? then None else Some(-r.value);
    assert ParseDecimal(s) == r;
  }

  /** Each amount as `new Decimal` reads it. */
  function Values(amounts: seq<string>): (r: seq<Option<real>>)
    ensures |r| == |amounts| && forall i :: 0 <= i < |amounts| ==> r[i] == ParseDecimal(amounts[i])
  {
    seq(|amounts|, i requires 0 <= i < |amounts| => ParseDecimal(amounts[i]))
  }

  /** The running sum of the read amounts; `None` once one of them threw. */
  function SumValues(values: seq<Option<real>>): Option<real> {
    if |values| == 0 then Some(0.0)
    else
      var prefix := SumValues(values[..|values| - 1]);
      var last := values[|values| - 1];
      if prefix.None? || last.None? then None else Some(prefix.value + last.value)
  }

  /** `amounts.reduce((acc, x) => acc.add(x), new Decimal(0))`. */
  function Total(amounts: seq<string>): Option<real> {
    SumValues(Values(amounts))
  }

  lemma {:induction false} SumConcat(a: seq<Option<real>>, b: seq<Option<real>>)
    ensures SumValues(a + b).Some? <==> SumValues(a).Some? && SumValues(b).Some?
    ensures SumValues(a + b).Some? ==> SumValues(a + b).value == SumValues(a).value + SumValues(b).value
    decreases |b|
  {
    if |b| == 0 {
      assert a + b == a;
    } else {
      var b' := b[..|b| - 1];
      assert (a + b)[..|a + b| - 1] == a + b';
      assert (a + b)[|a + b| - 1] == b[|b| - 1];
      SumConcat(a, b');
    }
  }

  lemma {:induction false} SumDefined(values: seq<Option<real>>)
    ensures SumValues(values).Some? <==> forall i :: 0 <= i < |values| ==> values[i].Some?
  {
    if |values| > 0 {
      var prefix := values[..|values| - 1];
      SumDefined(prefix);
      assert forall i :: 0 <= i < |prefix| ==> prefix[i] == values[i];
    }
  }

  /** The total of a concatenation is the sum of the totals, and exists exactly when both do. */
  lemma TotalConcat(a: seq<string>, b: seq<string>)
    ensures Total(a + b).Some? <==> Total(a).Some? && Total(b).Some?
    ensures Total(a + b).Some? ==> Total(a + b).value == Total(a).value + Total(b).value
  {
    assert Values(a + b) == Values(a) + Values(b);
    SumConcat(Values(a), Values(b));
  }

  /** The total exists exactly when every amount is a decimal. */
  lemma TotalDefined(amounts: seq<string>)
    ensures Total(amounts).Some? <==> forall i :: 0 <= i < |amounts| ==> ParseDecimal(amounts[i]).Some?
  {
    SumDefined(Values(amounts));
  }
}
