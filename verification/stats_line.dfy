/**
 * `parseStatsLine` (index.js): one data row of `docker stats --no-stream`
 * table output as a record of numbers. The row is split on whitespace and the
 * fields are read by position; anything malformed degrades to zero.
 */
module StatsLine {
  import opened JsString
  import opened JsNumber
  import opened Memory

  /** The object `parseStatsLine` returns. Byte sizes may be NaN (a coefficient
      such as `.`); the two percentages never are. */
  datatype StatsRecord = StatsRecord(
    name: string,
    cpuPercent: Number,
    memUsed: Number,
    memTotal: Number,
    memPercent: Number,
    netIn: Number,
    netOut: Number,
    blockRead: Number,
    blockWrite: Number,
    pids: int)

  /** The record returned for a row with fewer than seven tokens. */
  const Unknown: StatsRecord := StatsRecord(
    "unknown", Finite(0.0), Finite(0.0), Finite(0.0), Finite(0.0),
    Finite(0.0), Finite(0.0), Finite(0.0), Finite(0.0), 0)

  /** The minimum number of tokens a row needs to be read at all. */
  const MinTokens := 7

  /** `${parts[i]}`: a token, or the text `undefined` past the end of the list. */
  function Part(parts: seq<string>, i: nat): (w: string)
    ensures i >= |parts| ==> w == "undefined"
    ensures (forall k :: 0 <= k < |parts| ==> parts[k] != [] && SpaceFree(parts[k])) ==>
      w != [] && SpaceFree(w)
  {
    if i < |parts| then parts[i] else "undefined"
  }

  /** `parseFloat(token.replace("%", "")) || 0`. */
  function Percent(token: string): (n: Number)
    ensures n != NaN
  {
    OrZero(ParseFloat(RemoveFirst(token, '%')))
  }

  /** `parseMemory(halves[i]?.trim() || "0B")`: a size, and zero bytes for a
      missing half. */
  function Half(halves: seq<string>, i: nat): (n: Number)
    ensures IsSize(n)
    ensures i >= |halves| ==> n == Finite(0.0)
  {
    var t := if i < |halves| then Trim(halves[i]) else "";
    ParseMemoryZero();
    ParseMemory(if t == "" then "0B" else t)
  }

  /** A `used / total` field: the three tokens from `start` joined with single
      spaces, split on `" / "`, and each half read as a size. */
  function Ratio(parts: seq<string>, start: nat): (r: (Number, Number))
    ensures IsSize(r.0) && IsSize(r.1)
  {
    RatioOf(Part(parts, start), Part(parts, start + 1), Part(parts, start + 2))
  }

  /** The sizes of the text `a b c` split on `" / "`. */
  function RatioOf(a: string, b: string, c: string): (r: (Number, Number))
    ensures IsSize(r.0) && IsSize(r.1)
  {
    var halves := Split(a + " " + b + " " + c, " / ");
    (Half(halves, 0), Half(halves, 1))
  }

  /** `parseStatsLine(line)`. A row of fewer than seven tokens gives the
      `unknown` record; otherwise the name is the first token and the two
      percentages are numbers (never NaN). */
  function ParseStatsLine(line: string): (r: StatsRecord)
    ensures |Tokens(line)| < MinTokens ==> r == Unknown
    ensures |Tokens(line)| >= MinTokens ==> r.name == Tokens(line)[0]
    ensures r.cpuPercent != NaN && r.memPercent != NaN
    ensures IsSize(r.memUsed) && IsSize(r.memTotal) && IsSize(r.netIn)
    ensures IsSize(r.netOut) && IsSize(r.blockRead) && IsSize(r.blockWrite)
  {
    var parts := Tokens(line);
    if |parts| < MinTokens then Unknown
    else
      var mem, net, block := Ratio(parts, 2), Ratio(parts, 6), Ratio(parts, 9);
      StatsRecord(
        parts[0], Percent(parts[1]), mem.0, mem.1, Percent(parts[5]),
        net.0, net.1, block.0, block.1,
        Pids(Last(parts)))
  }

  /** `parts[parts.length - 1]`: the PID count is read from the final token,
      wherever the row ends. */
  function Last(parts: seq<string>): (w: string)
    requires parts != []
    ensures w in parts
  {
    parts[|parts| - 1]
  }

  /** `parseInt(token) || 0`: NaN becomes zero, so the count is never negative
      unless the token carries a minus sign. */
  function Pids(token: string): (n: int)
    ensures ParseInt(token).None? ==> n == 0
    ensures !NegativeSign(token) ==> n >= 0
  {
    match ParseInt(token)
    case None => 0
    case Some(v) => v
  }

  /* ---------------------------------------------------------------- lemmas */

  /** A string that neither starts nor ends with whitespace is its own trim. */
  lemma TrimUnpadded(s: string)
    requires s != [] && !IsSpace(s[0]) && !IsSpace(s[|s| - 1])
    ensures Trim(s) == s
  {
  }

  /** The text `undefined` is not a size: it does not start with a digit or dot. */
  lemma UndefinedIsZero()
    ensures ParseMemory("undefined") == Finite(0.0)
  {
    ParseMemoryMeaning("undefined");
    assert forall k :: !SplitsAt("undefined", k) by {
      forall k | 0 < k < |"undefined"| ensures !SplitsAt("undefined", k) {
        assert !IsCoefficientChar("undefined"[0]);
      }
    }
  }

  /** A triple with `/` in the middle reads as the sizes on either side. */
  lemma RatioOfSlash(a: string, c: string)
    requires a != [] && c != [] && SpaceFree(a) && SpaceFree(c)
    ensures RatioOf(a, "/", c) == (ParseMemory(a), ParseMemory(c))
  {
    SplitTriple(a, "/", c);
    TrimSpaceFree(a);
    TrimSpaceFree(c);
  }

  /** A triple with anything else in the middle is one piece holding spaces,
      which is not a size, and no second piece: two zeros. */
  lemma RatioOfOther(a: string, b: string, c: string)
    requires a != [] && b != [] && c != [] && SpaceFree(a) && SpaceFree(b) && SpaceFree(c)
    requires b != "/"
    ensures RatioOf(a, b, c) == (Finite(0.0), Finite(0.0))
  {
    var text := a + " " + b + " " + c;
    SplitTriple(a, b, c);
    assert Split(text, " / ") == [text];
    assert text[|a|] == ' ';
    assert text[0] == a[0] && text[|text| - 1] == c[|c| - 1];
    TrimUnpadded(text);
    ForeignCharGivesZero(text, |a|);
    ParseMemoryZero();
  }

  /** What a ratio field reads as: the two sizes either side of the `/` when the
      middle token is exactly `/`, and two zeros otherwise (including when the
      triple runs past the end of the tokens). */
  lemma RatioMeaning(parts: seq<string>, start: nat)
    requires forall i :: 0 <= i < |parts| ==> parts[i] != [] && SpaceFree(parts[i])
    ensures Ratio(parts, start) ==
      if Part(parts, start + 1) == "/"
      then (ParseMemory(Part(parts, start)), ParseMemory(Part(parts, start + 2)))
      else (Finite(0.0), Finite(0.0))
  {
    var a, b, c := Part(parts, start), Part(parts, start + 1), Part(parts, start + 2);
    assert SpaceFree("undefined");
    assert a != [] && SpaceFree(a) && b != [] && SpaceFree(b) && c != [] && SpaceFree(c);
    if b == "/" {
      RatioOfSlash(a, c);
    } else {
      RatioOfOther(a, b, c);
    }
  }

  /** The record's sizes for the ratio field whose tokens start at `start`. */
  function RatioField(r: StatsRecord, start: nat): (Number, Number)
    requires start == 2 || start == 6 || start == 9
  {
    if start == 2 then (r.memUsed, r.memTotal)
    else if start == 6 then (r.netIn, r.netOut)
    else (r.blockRead, r.blockWrite)
  }

  /** Malformed ratio fields read as zeros: a triple whose middle token is not
      exactly `/` (whether it is another word or lies past the end of the row)
      gives zero for both of its sizes, and a `/` that is the last token gives
      zero for the missing second size. */
  lemma MalformedRatiosAreZero(line: string, start: nat)
    requires |Tokens(line)| >= MinTokens
    requires start == 2 || start == 6 || start == 9
    ensures var t, f := Tokens(line), RatioField(ParseStatsLine(line), start);
      && (Part(t, start + 1) != "/" ==> f == (Finite(0.0), Finite(0.0)))
      && (|t| == start + 2 && t[start + 1] == "/" ==> f.1 == Finite(0.0))
  {
    var t := Tokens(line);
    RatioFields(line);
    assert RatioField(ParseStatsLine(line), start) == Ratio(t, start);
    MalformedRatioIsZero(t, start);
  }

  /** The six sizes of a row of at least seven tokens are its three ratio
      fields, starting at tokens 2, 6 and 9. */
  lemma RatioFields(line: string)
    requires |Tokens(line)| >= MinTokens
    ensures var t, r := Tokens(line), ParseStatsLine(line);
      && r.memUsed == Ratio(t, 2).0 && r.memTotal == Ratio(t, 2).1
      && r.netIn == Ratio(t, 6).0 && r.netOut == Ratio(t, 6).1
      && r.blockRead == Ratio(t, 9).0 && r.blockWrite == Ratio(t, 9).1
  {
  }

  /** One ratio field: zeros unless its middle token is `/`, and a zero second
      size when that `/` is the last token. */
  lemma MalformedRatioIsZero(t: seq<string>, start: nat)
    requires forall i :: 0 <= i < |t| ==> t[i] != [] && SpaceFree(t[i])
    ensures Part(t, start + 1) != "/" ==> Ratio(t, start) == (Finite(0.0), Finite(0.0))
    ensures |t| == start + 2 && t[start + 1] == "/" ==> Ratio(t, start).1 == Finite(0.0)
  {
    RatioMeaning(t, start);
    UndefinedIsZero();
  }

  /** A row in the documented layout `NAME CPU% USED / TOTAL MEM% IN / OUT
      READ / WRITE PIDS` (thirteen tokens): every field comes from its own
      token, sizes through `parseMemory`, percentages with their `%` removed. */
  lemma DocumentedLayout(line: string)
    requires var t := Tokens(line); |t| == 13 && t[3] == "/" && t[7] == "/" && t[10] == "/"
    ensures var t, r := Tokens(line), ParseStatsLine(line);
      && r.name == t[0]
      && r.cpuPercent == OrZero(ParseFloat(RemoveFirst(t[1], '%')))
      && r.memUsed == ParseMemory(t[2]) && r.memTotal == ParseMemory(t[4])
      && r.memPercent == OrZero(ParseFloat(RemoveFirst(t[5], '%')))
      && r.netIn == ParseMemory(t[6]) && r.netOut == ParseMemory(t[8])
      && r.blockRead == ParseMemory(t[9]) && r.blockWrite == ParseMemory(t[11])
      && r.pids == Pids(t[12])
  {
    var t := Tokens(line);
    assert ParseStatsLine(line) == StatsRecord(
      t[0], Percent(t[1]), Ratio(t, 2).0, Ratio(t, 2).1, Percent(t[5]),
      Ratio(t, 6).0, Ratio(t, 6).1, Ratio(t, 9).0, Ratio(t, 9).1,
      Pids(Last(t)));
    RatioMeaning(t, 2);
    RatioMeaning(t, 6);
    RatioMeaning(t, 9);
  }

  /** Where the unit correction does not apply, the documented row reads as
      index.js reads it: a size token with no match ending in an inherited
      name gives the same size under the as-written `parseMemory`. */
  lemma DocumentedLayoutAsWritten(line: string)
    requires var t := Tokens(line); |t| == 13 && t[3] == "/" && t[7] == "/" && t[10] == "/"
    requires var t := Tokens(line);
      && OffPrototype(t[2]) && OffPrototype(t[4]) && OffPrototype(t[6])
      && OffPrototype(t[8]) && OffPrototype(t[9]) && OffPrototype(t[11])
    ensures var t, r := Tokens(line), ParseStatsLine(line);
      && r.memUsed == ParseMemoryAsWritten(t[2]) && r.memTotal == ParseMemoryAsWritten(t[4])
      && r.netIn == ParseMemoryAsWritten(t[6]) && r.netOut == ParseMemoryAsWritten(t[8])
      && r.blockRead == ParseMemoryAsWritten(t[9]) && r.blockWrite == ParseMemoryAsWritten(t[11])
  {
    var t := Tokens(line);
    DocumentedLayout(line);
    AsWrittenAgreesOffPrototype(t[2]);
    AsWrittenAgreesOffPrototype(t[4]);
    AsWrittenAgreesOffPrototype(t[6]);
    AsWrittenAgreesOffPrototype(t[8]);
    AsWrittenAgreesOffPrototype(t[9]);
    AsWrittenAgreesOffPrototype(t[11]);
  }

  /** Non-numeric CPU and memory percentages and a non-numeric PID count read
      as zero. */
  lemma NonNumericFieldsAreZero(line: string)
    requires |Tokens(line)| >= MinTokens
    ensures var t, r := Tokens(line), ParseStatsLine(line);
      && (ParseFloat(RemoveFirst(t[1], '%')).NaN? ==> r.cpuPercent == Finite(0.0))
      && (ParseFloat(RemoveFirst(t[5], '%')).NaN? ==> r.memPercent == Finite(0.0))
      && (ParseInt(Last(t)).None? ==> r.pids == 0)
  {
    var t, r := Tokens(line), ParseStatsLine(line);
    assert r.cpuPercent == Percent(t[1]) && r.memPercent == Percent(t[5]);
    assert r.pids == Pids(Last(t));
  }

  /* ---------------------------------------------------------------- example */

  /** A row as `docker stats` prints it, already split into tokens. */
  const ExampleTokens: seq<string> :=
    ["web", "12.5%", "2kB", "/", "1.5GiB", "50%", "0B", "/", "2kB", "0B", "/", "0B", "5"]

  lemma ExampleTokensOfRow()
    ensures Tokens(Join(ExampleTokens, " ")) == ExampleTokens
  {
    assert forall i :: 0 <= i < |ExampleTokens| ==> ExampleTokens[i] != [] && SpaceFree(ExampleTokens[i]);
    TokensOfJoin(ExampleTokens);
  }

  lemma ExamplePercentTexts()
    ensures RemoveFirst("12.5%", '%') == "12.5"
    ensures RemoveFirst("50%", '%') == "50"
  {
    RemoveTrailing("12.5", '%');
    assert "12.5" + ['%'] == "12.5%";
    RemoveTrailing("50", '%');
    assert "50" + ['%'] == "50%";
  }

  lemma ExampleDecimal()
    ensures ParseFloat("12.5") == Finite(12.5)
  {
    var s := "12.5";
    assert SkipSpace(s, 0) == 0;
    assert NumeralStart(s) == 0 && !NegativeSign(s);
    assert !StartsWithAt(s, 0, "Infinity");
    assert DigitRun(s, 0) == 2 by {
      assert DigitRun(s, 2) == 2;
    }
    assert DigitRun(s, 3) == 4;
    assert DigitsValue(s, 0, 2) == 12 && DigitsValue(s, 3, 4) == 5;
    assert Mantissa(s, 0, 2, 3, 4) == 12.5;
    assert ExponentAt(s, 4) == 0;
    assert UnsignedDecimal(s, 0) == Finite(12.5);
  }

  lemma ExampleIntegers()
    ensures ParseFloat("50") == Finite(50.0)
    ensures Pids("5") == 5
  {
    DigitString("50");
    DigitString("5");
  }

  lemma ExamplePercents()
    ensures Percent("12.5%") == Finite(12.5)
    ensures Percent("50%") == Finite(50.0)
  {
    ExamplePercentTexts();
    ExampleDecimal();
    ExampleIntegers();
  }

  /** The row `web 12.5% 2kB / 1.5GiB 50% 0B / 2kB 0B / 0B 5` reads as
      12.5% CPU, 2000 of 1.5 GiB bytes of memory (50%), 0 bytes in and 2000
      out, no block I/O, and 5 processes. */
  lemma ExampleRow()
    ensures ParseStatsLine(Join(ExampleTokens, " ")) == StatsRecord(
      "web", Finite(12.5), Finite(2000.0), Finite(1.5 * 1073741824.0), Finite(50.0),
      Finite(0.0), Finite(2000.0), Finite(0.0), Finite(0.0), 5)
  {
    var line := Join(ExampleTokens, " ");
    ExampleTokensOfRow();
    DocumentedLayout(line);
    ParseMemoryZero();
    ParseMemoryKilo();
    ParseMemoryGibi();
    ExamplePercents();
    ExampleIntegers();
  }
}
