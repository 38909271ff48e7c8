/**
 * `parseMemory` (index.js): a size such as `1.5GiB` or `648B` as a byte count.
 * The string must match `^([\d.]+)(\w+)$`; the coefficient is read with
 * `parseFloat` and multiplied by the unit's factor from a fixed table.
 */
module Memory {
  import opened JsString
  import opened JsNumber
  import opened Options

  /** `\w`: ASCII letters, digits and underscore. */
  predicate IsWordChar(c: char) {
    IsDigit(c) || 'a' <= c <= 'z' || 'A' <= c <= 'Z' || c == '_'
  }

  /** `[\d.]`: a character the coefficient group may hold. */
  predicate IsCoefficientChar(c: char) {
    IsDigit(c) || c == '.'
  }

  /** One way for `^([\d.]+)(\w+)$` to match `s`: `s[..k]` is the coefficient
      group and `s[k..]` the unit group, both non-empty. */
  predicate SplitsAt(s: string, k: int) {
    && 0 < k < |s|
    && (forall i :: 0 <= i < k ==> IsCoefficientChar(s[i]))
    && (forall i :: k <= i < |s| ==> IsWordChar(s[i]))
  }

  /** The end of the run of `[\d.]` characters that starts at `i`. */
  function CoefficientRun(s: string, i: nat): (j: nat)
    requires i <= |s|
    ensures i <= j <= |s|
    ensures forall k :: i <= k < j ==> IsCoefficientChar(s[k])
    ensures j < |s| ==> !IsCoefficientChar(s[j])
    decreases |s| - i
  {
    if i < |s| && IsCoefficientChar(s[i]) then CoefficientRun(s, i + 1) else i
  }

  predicate AllWordFrom(s: string, k: nat) {
    forall i :: k <= i < |s| ==> IsWordChar(s[i])
  }

  /** The regular-expression engine giving back characters of the greedy
      coefficient group one at a time, from `k` down to 1, until the rest is a
      unit. */
  function Backtrack(s: string, k: nat): (r: Option<nat>)
    requires k < |s|
    requires forall i :: 0 <= i < k ==> IsCoefficientChar(s[i])
    ensures r.Some? ==> SplitsAt(s, r.value) && r.value <= k
    ensures forall j :: 0 < j <= k && SplitsAt(s, j) ==> r.Some? && j <= r.value
    decreases k
  {
    if k == 0 then None
    else if AllWordFrom(s, k) then Some(k)
    else Backtrack(s, k - 1)
  }

  /** Where `^([\d.]+)(\w+)$` splits `s`: the largest split point, which is the
      one the greedy first group settles on, or `None` when there is no match. */
  function MatchUnit(s: string): (r: Option<nat>)
    ensures r.Some? ==> SplitsAt(s, r.value)
    ensures forall k :: SplitsAt(s, k) ==> r.Some? && k <= r.value
  {
    if |s| == 0 then None
    else
      var p := CoefficientRun(s, 0);
      var start := if p < |s| then p else |s| - 1;
      assert forall k :: SplitsAt(s, k) ==> k <= start;
      Backtrack(s, start)
  }

  /** The unit table; any other unit multiplies by 1. */
  const Units: map<string, nat> := map[
    "B" := 1,
    "kB" := 1000,
    "KB" := 1024,
    "MB" := 1000000,
    "MiB" := 1024 * 1024,
    "GB" := 1000000000,
    "GiB" := 1024 * 1024 * 1024,
    "TB" := 1000000000000,
    "TiB" := 1024 * 1024 * 1024 * 1024
  ]

  /** `units[unit] || 1` as the code evidently intends it: the table's factor,
      or 1 for a unit the table does not list. */
  function Multiplier(unit: string): (m: nat)
    ensures m >= 1
    ensures unit !in Units ==> m == 1
  {
    if unit in Units then Units[unit] else 1
  }

  /** What a byte size can be: NaN, or a finite number that is not negative. */
  predicate IsSize(n: Number) {
    n == NaN || (n.Finite? && n.value >= 0.0)
  }

  /** `parseMemory(s)`, with an unknown unit counting as bytes. The size is
      never negative or infinite; it is NaN only for a coefficient such as `.`
      that `parseFloat` cannot read. */
  function ParseMemory(s: string): (n: Number)
    ensures IsSize(n)
  {
    if s == "" then Finite(0.0)
    else
      match MatchUnit(s)
      case None => Finite(0.0)
      case Some(k) =>
        CoefficientNumeral(s[..k]);
        Times(ParseFloat(s[..k]), Multiplier(s[k..]))
  }

  /** A coefficient group has no leading space, no sign and no `Infinity`, so
      `parseFloat` reads it as a non-negative number or NaN. */
  lemma CoefficientNumeral(c: string)
    requires c != [] && forall i :: 0 <= i < |c| ==> IsCoefficientChar(c[i])
    ensures NumeralStart(c) == 0 && !NegativeSign(c) && !StartsWithAt(c, 0, "Infinity")
  {
    assert SkipSpace(c, 0) == 0;
    assert IsCoefficientChar(c[0]);
  }

  /** What `parseMemory` computes, in terms of the pattern: zero when
      `^([\d.]+)(\w+)$` does not match (the empty string included), otherwise the
      coefficient of the split the greedy match settles on (the largest) times the
      unit's factor. */
  lemma ParseMemoryMeaning(s: string)
    ensures (forall k :: !SplitsAt(s, k)) ==> ParseMemory(s) == Finite(0.0)
    ensures forall k :: SplitsAt(s, k) && (forall j :: SplitsAt(s, j) ==> j <= k) ==>
              ParseMemory(s) == Times(ParseFloat(s[..k]), Multiplier(s[k..]))
  {
    var r := MatchUnit(s);
    forall k | SplitsAt(s, k) && (forall j :: SplitsAt(s, j) ==> j <= k)
      ensures ParseMemory(s) == Times(ParseFloat(s[..k]), Multiplier(s[k..]))
    {
      assert r.Some? && k <= r.value;
      assert SplitsAt(s, r.value);
      assert r.value == k;
    }
  }

  /** A character that is neither `[\d.]` nor `\w` (a space, a `/`, a `%`)
      anywhere in the string makes the size 0. */
  lemma ForeignCharGivesZero(s: string, i: nat)
    requires i < |s| && !IsCoefficientChar(s[i]) && !IsWordChar(s[i])
    ensures ParseMemory(s) == Finite(0.0)
  {
    ParseMemoryMeaning(s);
    assert forall k :: !SplitsAt(s, k);
  }

  /** The usual case needs no backtracking: when the whole leading `[\d.]` run
      is followed by a word, that run is the coefficient and the word the unit. */
  lemma ParseMemoryNoBacktrack(s: string, k: nat)
    requires 0 < k < |s|
    requires CoefficientRun(s, 0) == k && AllWordFrom(s, k)
    ensures ParseMemory(s) == Times(ParseFloat(s[..k]), Multiplier(s[k..]))
  {
    assert MatchUnit(s) == Some(k);
  }

  /** A coefficient `s[..k]` followed by a unit `s[k..]` that does not start
      with a digit or a dot is read as the coefficient times the unit's factor. */
  lemma ParseMemoryAt(s: string, k: nat)
    requires 0 < k < |s| && forall i :: 0 <= i < k ==> IsCoefficientChar(s[i])
    requires !IsCoefficientChar(s[k]) && AllWordFrom(s, k)
    ensures ParseMemory(s) == Times(ParseFloat(s[..k]), Multiplier(s[k..]))
  {
    assert CoefficientRun(s, 0) == k;
    ParseMemoryNoBacktrack(s, k);
  }

  /** Sizes as `docker stats` prints them: `0B` and the empty string are 0 bytes. */
  lemma ParseMemoryZero()
    ensures ParseMemory("") == Finite(0.0)
    ensures ParseMemory("0B") == Finite(0.0)
  {
    var s := "0B";
    ParseMemoryAt(s, 1);
    assert s[..1] == "0" && s[1..] == "B";
    ReadDigit("0", 0);
  }

  /** A one-digit string reads as that digit. */
  lemma ReadDigit(d: string, v: nat)
    requires |d| == 1 && IsDigit(d[0]) && DigitValue(d[0]) == v
    ensures ParseFloat(d) == Finite(v as real)
  {
    DigitString(d);
    assert DigitsValue(d, 0, 1) == v;
  }

  /** `2kB` is 2000 bytes: `kB` is the decimal kilobyte. */
  lemma ParseMemoryKilo()
    ensures ParseMemory("2kB") == Finite(2000.0)
  {
    var s := "2kB";
    ParseMemoryAt(s, 1);
    assert s[..1] == "2" && s[1..] == "kB";
    ReadDigit("2", 2);
    assert Multiplier("kB") == 1000;
  }

  /** `1.5` reads as one and a half. */
  lemma ReadOnePointFive()
    ensures ParseFloat("1.5") == Finite(1.5)
  {
    var s := "1.5";
    CoefficientNumeral(s);
    assert DigitRun(s, 1) == 1;
    assert DigitRun(s, 0) == 1;
    assert DigitRun(s, 3) == 3;
    assert DigitRun(s, 2) == 3;
    assert DigitsValue(s, 0, 1) == 1 && DigitsValue(s, 2, 3) == 5;
    assert Mantissa(s, 0, 1, 2, 3) == 1.5;
    assert ExponentAt(s, 3) == 0;
    assert UnsignedDecimal(s, 0) == Finite(1.5);
  }

  /** `1.5GiB` splits into `1.5` and `GiB`. */
  lemma GibiParts()
    ensures ParseMemory("1.5GiB") == Times(ParseFloat("1.5"), Multiplier("GiB"))
  {
    var s := "1.5GiB";
    ParseMemoryAt(s, 3);
    assert s[..3] == "1.5" && s[3..] == "GiB";
  }

  /** `1.5GiB` is 1.5 times 2^30 bytes: a fractional coefficient times a binary unit. */
  lemma ParseMemoryGibi()
    ensures ParseMemory("1.5GiB") == Finite(1.5 * 1073741824.0)
  {
    GibiParts();
    ReadOnePointFive();
    assert Multiplier("GiB") == 1073741824;
  }

  /** A unit-less `12` backtracks: it splits into coefficient `1` and unit `2`. */
  lemma ParseMemoryBacktracks()
    ensures ParseMemory("12") == Finite(1.0)
  {
    var s := "12";
    assert CoefficientRun(s, 0) == 2;
    assert AllWordFrom(s, 1);
    assert MatchUnit(s) == Some(1);
    assert s[..1] == "1" && s[1..] == "2";
    ReadDigit("1", 1);
    assert Multiplier("2") == 1;
  }

  /** A single digit leaves nothing for the unit group and does not match. */
  lemma ParseMemorySingleDigit()
    ensures ParseMemory("5") == Finite(0.0)
  {
    assert CoefficientRun("5", 0) == 1;
    assert MatchUnit("5") == None;
  }

  /* ---------------------------------------------------------------- as written */

  /** The names a JavaScript object literal inherits from `Object.prototype`
      that are also `\w+` words. Looking one of them up in the unit table finds
      a function or an object, which is truthy, so `|| 1` does not apply and
      the product is NaN. */
  const InheritedNames: set<string> := {
    "constructor", "hasOwnProperty", "isPrototypeOf", "propertyIsEnumerable",
    "toLocaleString", "toString", "valueOf", "__proto__",
    "__defineGetter__", "__defineSetter__", "__lookupGetter__", "__lookupSetter__"
  }

  /** `parseMemory(s)` exactly as index.js computes it, inherited names included. */
  function ParseMemoryAsWritten(s: string): (n: Number)
    ensures (forall k :: !SplitsAt(s, k)) ==> n == Finite(0.0)
    ensures IsSize(n)
  {
    if s == "" then Finite(0.0)
    else
      match MatchUnit(s)
      case None => Finite(0.0)
      case Some(k) =>
        CoefficientNumeral(s[..k]);
        var unit := s[k..];
        if unit !in Units && unit in InheritedNames then NaN
        else Times(ParseFloat(s[..k]), Multiplier(unit))
  }

  /** No way of matching `s` makes its unit an inherited name. */
  predicate OffPrototype(s: string) {
    forall k :: 0 < k < |s| && SplitsAt(s, k) ==> s[k..] !in InheritedNames
  }

  /** The two agree unless the unit is an inherited name. */
  lemma AsWrittenAgreesOffPrototype(s: string)
    requires OffPrototype(s)
    ensures ParseMemoryAsWritten(s) == ParseMemory(s)
  {
  }

  /** `1constructor` splits into `1` and `constructor`. */
  lemma ConstructorParts()
    ensures var s := "1constructor";
      MatchUnit(s) == Some(1) && s[..1] == "1" && s[1..] == "constructor"
  {
    var s := "1constructor";
    ParseMemoryAt(s, 1);
    assert s[..1] == "1" && s[1..] == "constructor";
  }

  /** `1constructor`: the unit lookup finds `Object`, and the size comes out NaN
      instead of 1 byte. */
  lemma InheritedUnitIsNaN()
    ensures ParseMemoryAsWritten("1constructor") == NaN
    ensures ParseMemory("1constructor") == Finite(1.0)
  {
    ConstructorParts();
    ReadDigit("1", 1);
    assert "constructor" !in Units;
    assert "constructor" in InheritedNames;
  }
}
