/**
 * The string operations of the JavaScript runtime that the stats code relies on:
 * the `\s` character class, `trim`, `split` with a string separator, splitting a
 * line into whitespace-separated tokens, and `replace` of a single character.
 */
module JsString {

  /** The characters `\s` matches in a JavaScript regular expression; `trim` and
      `parseFloat` skip exactly the same set. */
  predicate IsSpace(c: char) {
    || c == '\t' || c == '\n' || c == '\U{B}' || c == '\U{C}' || c == '\r' || c == ' '
    || c == '\U{A0}' || c == '\U{1680}' || ('\U{2000}' <= c <= '\U{200A}')
    || c == '\U{2028}' || c == '\U{2029}' || c == '\U{202F}' || c == '\U{205F}'
    || c == '\U{3000}' || c == '\U{FEFF}'
  }

  /** `\d`: an ASCII decimal digit. */
  predicate IsDigit(c: char) {
    '0' <= c <= '9'
  }

  predicate SpaceFree(s: string) {
    forall i :: 0 <= i < |s| ==> !IsSpace(s[i])
  }

  /* ---------------------------------------------------------------- trim */

  /** The first index at or after `i` that is not whitespace. */
  function SkipSpace(s: string, i: nat): (j: nat)
    requires i <= |s|
    ensures i <= j <= |s|
    ensures forall k :: i <= k < j ==> IsSpace(s[k])
    ensures j < |s| ==> !IsSpace(s[j])
    decreases |s| - i
  {
    if i < |s| && IsSpace(s[i]) then SkipSpace(s, i + 1) else i
  }

  /** The start of the run of whitespace that ends at index `j`. */
  function SpaceRunStart(s: string, j: nat): (k: nat)
    requires j <= |s|
    ensures k <= j
    ensures forall i :: k <= i < j ==> IsSpace(s[i])
    ensures k > 0 ==> !IsSpace(s[k - 1])
  {
    if j > 0 && IsSpace(s[j - 1]) then SpaceRunStart(s, j - 1) else j
  }

  /** `String.prototype.trim`: the slice of `s` left after dropping the
      leading and the trailing run of whitespace. */
  function Trim(s: string): (r: string)
    ensures r == [] || (!IsSpace(r[0]) && !IsSpace(r[|r| - 1]))
    ensures var a := SkipSpace(s, 0);
            && a + |r| <= |s| && r == s[a..a + |r|]
            && (forall i :: 0 <= i < a ==> IsSpace(s[i]))
            && (forall i :: a + |r| <= i < |s| ==> IsSpace(s[i]))
  {
    var a := SkipSpace(s, 0);
    if a == |s| then []
    else
      var b := SpaceRunStart(s, |s|);
      s[a..b]
  }

  /** A string without whitespace is its own trim. */
  lemma TrimSpaceFree(s: string)
    requires SpaceFree(s)
    ensures Trim(s) == s
  {
    if |s| > 0 {
      assert !IsSpace(s[0]) && !IsSpace(s[|s| - 1]);
    }
  }

  /* ---------------------------------------------------------------- split / join */

  /** `s.split(sep)` for a non-empty string separator: the pieces between the
      non-overlapping occurrences of `sep`, found left to right. */
  function Split(s: string, sep: string): (parts: seq<string>)
    requires sep != []
    ensures |parts| >= 1
    decreases |s|
  {
    if |s| < |sep| then [s]
    else if s[..|sep|] == sep then [[]] + Split(s[|sep|..], sep)
    else
      var rest := Split(s[1..], sep);
      [[s[0]] + rest[0]] + rest[1..]
  }

  /** `parts.join(sep)`. */
  function Join(parts: seq<string>, sep: string): string
  {
    if |parts| == 0 then []
    else if |parts| == 1 then parts[0]
    else parts[0] + sep + Join(parts[1..], sep)
  }

  /** Joining a list whose head is glued to `c` is `c` followed by joining the
      list. */
  lemma JoinGlue(c: char, rest: seq<string>, sep: string)
    requires rest != []
    ensures Join([[c] + rest[0]] + rest[1..], sep) == [c] + Join(rest, sep)
  {
    var parts := [[c] + rest[0]] + rest[1..];
    if |rest| > 1 {
      assert parts[1..] == rest[1..];
    }
  }

  /** Joining a list that starts with an empty piece is the separator
      followed by joining the rest. */
  lemma JoinEmptyHead(rest: seq<string>, sep: string)
    requires rest != []
    ensures Join([[]] + rest, sep) == sep + Join(rest, sep)
  {
    assert ([[]] + rest)[1..] == rest;
  }

  /** Joining the pieces of a split with the same separator gives back the string. */
  lemma {:induction false} JoinSplit(s: string, sep: string)
    requires sep != []
    ensures Join(Split(s, sep), sep) == s
    decreases |s|
  {
    if |s| < |sep| {
    } else if s[..|sep|] == sep {
      var rest := Split(s[|sep|..], sep);
      assert Split(s, sep) == [[]] + rest;
      JoinSplit(s[|sep|..], sep);
      JoinEmptyHead(rest, sep);
      assert s == s[..|sep|] + s[|sep|..];
    } else {
      var rest := Split(s[1..], sep);
      assert Split(s, sep) == [[s[0]] + rest[0]] + rest[1..];
      JoinSplit(s[1..], sep);
      JoinGlue(s[0], rest, sep);
      assert s == [s[0]] + s[1..];
    }
  }

  /** A whitespace-free prefix never contains a separator that starts with
      whitespace, so it is glued to the first piece of what follows it. */
  lemma {:induction false} SplitAfterSpaceFree(a: string, x: string, sep: string)
    requires sep != [] && IsSpace(sep[0])
    requires SpaceFree(a)
    ensures Split(a + x, sep) == [a + Split(x, sep)[0]] + Split(x, sep)[1..]
    decreases |a|
  {
    if |a| == 0 {
      var xs := Split(x, sep);
      assert a + x == x;
      assert a + xs[0] == xs[0];
      assert xs == [xs[0]] + xs[1..];
    } else {
      var s := a + x;
      SplitAfterSpaceFree(a[1..], x, sep);
      assert s[1..] == a[1..] + x;
      if |s| < |sep| {
        assert Split(x, sep) == [x];
      } else {
        assert s[..|sep|][0] == a[0];
        assert s[..|sep|] != sep;
        var xs := Split(x, sep);
        var rest := Split(s[1..], sep);
        assert rest == [a[1..] + xs[0]] + xs[1..];
        assert rest[0] == a[1..] + xs[0] && rest[1..] == xs[1..];
        assert [s[0]] + (a[1..] + xs[0]) == a + xs[0];
      }
    }
  }

  /** A whitespace-free string is never split by a separator starting with whitespace. */
  lemma SplitSpaceFree(a: string, sep: string)
    requires sep != [] && IsSpace(sep[0])
    requires SpaceFree(a)
    ensures Split(a, sep) == [a]
  {
    SplitAfterSpaceFree(a, [], sep);
    assert a + [] == a;
  }

  /** A space followed by a whitespace-free word holds no `" / "`. */
  lemma SplitSpaceWord(c: string)
    requires c != [] && SpaceFree(c)
    ensures Split(" " + c, " / ") == [" " + c]
  {
    var y := " " + c;
    if |y| >= 3 {
      assert y[..3][2] == c[1];
      assert y[..3] != " / ";
      assert y[1..] == c;
      SplitSpaceFree(c, " / ");
    }
  }

  /** `" b c"` holds no `" / "` when the middle word `b` is not `/`. */
  lemma SplitMiddleNotSlash(b: string, c: string)
    requires b != [] && c != [] && SpaceFree(b) && SpaceFree(c)
    requires b != "/"
    ensures Split(" " + b + " " + c, " / ") == [" " + b + " " + c]
  {
    var sep := " / ";
    var x := " " + b + " " + c;
    var y := " " + c;
    assert x[..3] != sep by {
      if |b| == 1 { assert x[1] == b[0] && b[0] != '/'; }
      else { assert x[2] == b[1]; }
    }
    SplitSpaceWord(c);
    assert x[1..] == b + y;
    SplitAfterSpaceFree(b, y, sep);
    assert Split(x[1..], sep) == [b + y];
    assert [x[0]] + (b + y) == x;
  }

  /** `" / c"` splits into an empty piece and `c`. */
  lemma SplitMiddleSlash(c: string)
    requires c != [] && SpaceFree(c)
    ensures Split(" / " + c, " / ") == [[], c]
  {
    var x := " / " + c;
    assert x[..3] == " / ";
    assert x[3..] == c;
    SplitSpaceFree(c, " / ");
  }

  /** `"a / c"` splits into `a` and `c`. */
  lemma SplitSlashTriple(a: string, c: string)
    requires a != [] && c != [] && SpaceFree(a) && SpaceFree(c)
    ensures Split(a + " " + "/" + " " + c, " / ") == [a, c]
  {
    var x := " / " + c;
    assert a + " " + "/" + " " + c == a + x;
    SplitAfterSpaceFree(a, x, " / ");
    SplitMiddleSlash(c);
    assert a + [] == a;
  }

  /** `"a b c"` with `b` other than `/` is one piece. */
  lemma SplitOtherTriple(a: string, b: string, c: string)
    requires a != [] && b != [] && c != []
    requires SpaceFree(a) && SpaceFree(b) && SpaceFree(c)
    requires b != "/"
    ensures Split(a + " " + b + " " + c, " / ") == [a + " " + b + " " + c]
  {
    var x := " " + b + " " + c;
    assert a + " " + b + " " + c == a + x;
    SplitAfterSpaceFree(a, x, " / ");
    SplitMiddleNotSlash(b, c);
  }

  /** Splitting `"a b c"` on `" / "` when `a`, `b`, `c` are whitespace-free words:
      two pieces `a` and `c` exactly when `b` is `/`, otherwise one piece. */
  lemma SplitTriple(a: string, b: string, c: string)
    requires a != [] && b != [] && c != []
    requires SpaceFree(a) && SpaceFree(b) && SpaceFree(c)
    ensures Split(a + " " + b + " " + c, " / ") ==
            if b == "/" then [a, c] else [a + " " + b + " " + c]
  {
    if b == "/" {
      SplitSlashTriple(a, c);
    } else {
      SplitOtherTriple(a, b, c);
    }
  }

  /* ---------------------------------------------------------------- tokens */

  /** The longest prefix of `s` that holds no whitespace. */
  function Word(s: string): (w: string)
    ensures w <= s && SpaceFree(w)
    ensures |w| < |s| ==> IsSpace(s[|w|])
  {
    if |s| == 0 || IsSpace(s[0]) then [] else [s[0]] + Word(s[1..])
  }

  /** `line.split(/\s+/).filter(part => part.trim() !== "")`: the maximal runs
      of non-whitespace characters, left to right. */
  function Tokens(s: string): (ts: seq<string>)
    ensures forall i :: 0 <= i < |ts| ==> ts[i] != [] && SpaceFree(ts[i])
    decreases |s|
  {
    if |s| == 0 then []
    else if IsSpace(s[0]) then Tokens(s[1..])
    else
      var w := Word(s);
      [w] + Tokens(s[|w|..])
  }

  lemma WordOfSpaceFree(t: string, x: string)
    requires SpaceFree(t)
    requires x == [] || IsSpace(x[0])
    ensures Word(t + x) == t
  {
    if |t| > 0 {
      WordOfSpaceFree(t[1..], x);
      assert (t + x)[1..] == t[1..] + x;
    } else {
      assert t + x == x;
    }
  }

  /** Tokenising words joined by single spaces gives the words back: the tokens
      are the inverse of joining. */
  lemma {:induction false} TokensOfJoin(ts: seq<string>)
    requires forall i :: 0 <= i < |ts| ==> ts[i] != [] && SpaceFree(ts[i])
    ensures Tokens(Join(ts, " ")) == ts
  {
    if |ts| == 1 {
      WordOfSpaceFree(ts[0], []);
      assert ts[0] + [] == ts[0];
      assert ts[0][|ts[0]|..] == [];
    } else if |ts| > 1 {
      var rest := Join(ts[1..], " ");
      var s := ts[0] + " " + rest;
      assert Join(ts, " ") == s;
      TokensOfJoin(ts[1..]);
      WordOfSpaceFree(ts[0], " " + rest);
      assert s == ts[0] + (" " + rest);
      assert s[|ts[0]|..] == " " + rest;
      assert (" " + rest)[1..] == rest;
      assert ts == [ts[0]] + ts[1..];
    }
  }

  /* ---------------------------------------------------------------- replace */

  /** Index of the first occurrence of `c` in `s`. */
  function IndexOf(s: string, c: char): (i: nat)
    requires c in s
    ensures i < |s| && s[i] == c && c !in s[..i]
  {
    if s[0] == c then 0 else
      assert s == [s[0]] + s[1..];
      var j := IndexOf(s[1..], c);
      assert s[..j + 1] == [s[0]] + s[1..][..j];
      j + 1
  }

  /** `s.replace(c, "")` for a one-character pattern: only the first occurrence
      is removed. */
  function RemoveFirst(s: string, c: char): (r: string)
    ensures c !in s ==> r == s
    ensures c in s ==> r == s[..IndexOf(s, c)] + s[IndexOf(s, c) + 1..]
  {
    if |s| == 0 then s
    else if s[0] == c then s[1..]
    else
      assert s == [s[0]] + s[1..];
      [s[0]] + RemoveFirst(s[1..], c)
  }

  /** A character that appears only at the end is the one removed. */
  lemma RemoveTrailing(s: string, c: char)
    requires c !in s
    ensures RemoveFirst(s + [c], c) == s
  {
    var t := s + [c];
    assert t[|s|] == c;
    assert forall k :: 0 <= k < |s| ==> t[k] == s[k];
    assert IndexOf(t, c) == |s|;
    assert t[..|s|] == s;
  }
}
