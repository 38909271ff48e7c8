/**
 * `parseFloat`, `parseInt` and the `x || 0` fallback, over JavaScript numbers
 * held as exact reals (no rounding) together with NaN and the two infinities.
 */
module JsNumber {
  import opened JsString
  import opened Options

  /** A JavaScript number as far as the stats code can produce one. Finite values
      are exact: double rounding is not modelled. */
  datatype Number = NaN | Infinity(negative: bool) | Finite(value: real)

  function Pow10(n: nat): (r: nat)
    ensures r >= 1
  {
    if n == 0 then 1 else 10 * Pow10(n - 1)
  }

  function DigitValue(c: char): nat
  {
    if IsDigit(c) then (c as int - '0' as int) as nat else 0
  }

  predicate IsHexDigit(c: char) {
    IsDigit(c) || 'a' <= c <= 'f' || 'A' <= c <= 'F'
  }

  function HexDigitValue(c: char): nat
  {
    if IsDigit(c) then DigitValue(c)
    else if 'a' <= c <= 'f' then (c as int - 'a' as int + 10) as nat
    else if 'A' <= c <= 'F' then (c as int - 'A' as int + 10) as nat
    else 0
  }

  /** The end of the run of decimal digits that starts at `i`. */
  function DigitRun(s: string, i: nat): (j: nat)
    requires i <= |s|
    ensures i <= j <= |s|
    ensures forall k :: i <= k < j ==> IsDigit(s[k])
    ensures j < |s| ==> !IsDigit(s[j])
    decreases |s| - i
  {
    if i < |s| && IsDigit(s[i]) then DigitRun(s, i + 1) else i
  }

  /** The end of the run of hexadecimal digits that starts at `i`. */
  function HexRun(s: string, i: nat): (j: nat)
    requires i <= |s|
    ensures i <= j <= |s|
    ensures forall k :: i <= k < j ==> IsHexDigit(s[k])
    ensures j < |s| ==> !IsHexDigit(s[j])
    decreases |s| - i
  {
    if i < |s| && IsHexDigit(s[i]) then HexRun(s, i + 1) else i
  }

  /** The value of `s[i..j]` read as decimal digits. */
  function DigitsValue(s: string, i: nat, j: nat): nat
    requires i <= j <= |s|
    decreases j - i
  {
    if i == j then 0 else 10 * DigitsValue(s, i, j - 1) + DigitValue(s[j - 1])
  }

  /** The value of `s[i..j]` read as hexadecimal digits. */
  function HexValue(s: string, i: nat, j: nat): nat
    requires i <= j <= |s|
    decreases j - i
  {
    if i == j then 0 else 16 * HexValue(s, i, j - 1) + HexDigitValue(s[j - 1])
  }


  /** Where the numeral proper starts: after the leading whitespace and one
      optional `+` or `-`. */
  function NumeralStart(s: string): (i: nat)
    ensures i <= |s|
  {
    var i0 := SkipSpace(s, 0);
    if i0 < |s| && (s[i0] == '-' || s[i0] == '+') then i0 + 1 else i0
  }

  /** The sign in front of the numeral is a minus. */
  predicate NegativeSign(s: string) {
    var i0 := SkipSpace(s, 0);
    i0 < |s| && s[i0] == '-'
  }

  predicate StartsWithAt(s: string, i: nat, w: string) {
    i + |w| <= |s| && s[i..i + |w|] == w
  }

  /** A decimal literal starts at `i`: a digit, or a dot followed by a digit. */
  predicate DecimalAt(s: string, i: nat) {
    (i < |s| && IsDigit(s[i])) || (i + 1 < |s| && s[i] == '.' && IsDigit(s[i + 1]))
  }

  /** The exponent of an `e`/`E` part starting at `i`, or 0 when there is none
      (an `e` without digits after it is not part of the number). */
  function ExponentAt(s: string, i: nat): int
    requires i <= |s|
  {
    if i < |s| && (s[i] == 'e' || s[i] == 'E') then
      var j := if i + 1 < |s| && (s[i + 1] == '+' || s[i + 1] == '-') then i + 2 else i + 1;
      var k := DigitRun(s, j);
      if k == j then 0
      else if s[i + 1] == '-' then -(DigitsValue(s, j, k) as int)
      else DigitsValue(s, j, k)
    else 0
  }

  /** The digits, optional fraction and optional exponent of a decimal literal
      starting at `i`, without sign; NaN when no literal starts there. */
  function UnsignedDecimal(s: string, i: nat): (n: Number)
    requires i <= |s|
    ensures n.NaN? <==> !DecimalAt(s, i)
    ensures !n.Infinity?
    ensures n.Finite? ==> n.value >= 0.0
  {
    var i2 := DigitRun(s, i);
    var f0 := if i2 < |s| && s[i2] == '.' then i2 + 1 else i2;
    var i3 := DigitRun(s, f0);
    if i2 == i && i3 == f0 then NaN
    else
      var m := Mantissa(s, i, i2, f0, i3);
      Finite(Scale(m, ExponentAt(s, i3)))
  }

  /** The value of the digits `s[i..i2]` before the point and `s[f0..i3]` after it. */
  function Mantissa(s: string, i: nat, i2: nat, f0: nat, i3: nat): (m: real)
    requires i <= i2 <= f0 <= i3 <= |s|
    ensures m >= 0.0
  {
    var whole := DigitsValue(s, i, i2) as real;
    var frac := DigitsValue(s, f0, i3) as real;
    var unit := Pow10(i3 - f0) as real;
    assert frac / unit >= 0.0;
    whole + frac / unit
  }

  /** `m` times ten to the power `e`. */
  function Scale(m: real, e: int): (r: real)
    requires m >= 0.0
    ensures r >= 0.0
  {
    var p := Pow10(if e >= 0 then e else -e) as real;
    if e >= 0 then (assert m * p >= 0.0; m * p) else (assert m / p >= 0.0; m / p)
  }

  /** `parseFloat(s)`: the longest prefix (after whitespace) that reads as a
      decimal literal with optional sign, fraction and exponent, or `Infinity`. */
  function ParseFloat(s: string): (n: Number)
    ensures n.NaN? <==> !DecimalAt(s, NumeralStart(s)) && !StartsWithAt(s, NumeralStart(s), "Infinity")
    ensures n.Infinity? <==> StartsWithAt(s, NumeralStart(s), "Infinity")
    ensures n.Infinity? ==> (n.negative <==> NegativeSign(s))
    ensures n.Finite? && !NegativeSign(s) ==> n.value >= 0.0
  {
    var i := NumeralStart(s);
    if StartsWithAt(s, i, "Infinity") then Infinity(NegativeSign(s))
    else
      var u := UnsignedDecimal(s, i);
      if u.Finite? && NegativeSign(s) then Finite(-u.value) else u
  }

  /** `parseInt(s)` with no radix: whitespace, an optional sign, then either
      `0x`/`0X` and hexadecimal digits or decimal digits; `None` is NaN. */
  function ParseInt(s: string): (r: Option<int>)
    ensures r.Some? && !NegativeSign(s) ==> r.value >= 0
  {
    var neg := NegativeSign(s);
    var i1 := NumeralStart(s);
    var hex := HexPrefixAt(s, i1);
    var d0 := if hex then i1 + 2 else i1;
    var d1 := if hex then HexRun(s, d0) else DigitRun(s, d0);
    if d1 == d0 then None
    else
      var mag := if hex then HexValue(s, d0, d1) else DigitsValue(s, d0, d1);
      Some(if neg then -mag else mag)
  }

  predicate HexPrefixAt(s: string, i: nat) {
    i + 1 < |s| && s[i] == '0' && (s[i + 1] == 'x' || s[i + 1] == 'X')
  }

  /** `parseInt` is NaN exactly when no digit of the chosen base follows the
      sign (and the `0x` prefix, if there is one). */
  lemma ParseIntNaN(s: string)
    ensures var i := NumeralStart(s);
      ParseInt(s).None? <==>
        if HexPrefixAt(s, i) then !(i + 2 < |s| && IsHexDigit(s[i + 2]))
        else !(i < |s| && IsDigit(s[i]))
  {
  }

  /** A run of decimal digits opens the numeral at index 0, with no sign, no
      `0x` prefix and no `Infinity`. */
  lemma PlainDigitsStart(d: string)
    requires d != [] && forall k :: 0 <= k < |d| ==> IsDigit(d[k])
    ensures NumeralStart(d) == 0 && !NegativeSign(d) && !HexPrefixAt(d, 0)
    ensures !StartsWithAt(d, 0, "Infinity")
    ensures DigitRun(d, 0) == |d|
  {
    assert SkipSpace(d, 0) == 0;
  }

  /** A string of decimal digits reads as its decimal value under both
      `parseFloat` and `parseInt`. */
  lemma DigitString(d: string)
    requires d != [] && forall k :: 0 <= k < |d| ==> IsDigit(d[k])
    ensures ParseFloat(d) == Finite(DigitsValue(d, 0, |d|) as real)
    ensures ParseInt(d) == Some(DigitsValue(d, 0, |d|))
  {
    PlainDigitsStart(d);
    assert Mantissa(d, 0, |d|, |d|, |d|) == DigitsValue(d, 0, |d|) as real;
    assert ExponentAt(d, |d|) == 0;
  }

  /** `x || 0` on a number: NaN (and zero) become zero, anything else is kept. */
  function OrZero(n: Number): (r: Number)
    ensures r != NaN
    ensures n != NaN ==> r == n
  {
    if n.NaN? then Finite(0.0) else n
  }

  /** `x * m` for a non-negative integer multiplier `m`. */
  function Times(n: Number, m: nat): (r: Number)
    ensures n.Finite? ==> r == Finite(n.value * (m as real))
    ensures n.NaN? ==> r.NaN?
  {
    if n.Finite? then Finite(n.value * (m as real))
    else if n.Infinity? && m > 0 then n
    else NaN
  }
}
