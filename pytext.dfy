/** The two pieces of Python's built-in string handling that the dice
    validator relies on: `str.strip()` with no argument (whitespace as
    `str.isspace()` defines it) and `int()` applied to a `str` in base 10.
    Strings are sequences of Unicode scalar values. A Python `str` may also
    hold lone surrogates (`input()` can produce them under the
    surrogateescape error handler); those are outside the model, and neither
    function would treat one as whitespace or as a digit. */
module PyText {

  datatype Option<T> = None | Some(value: T)

  /** `str.isspace()`: true of the ASCII controls TAB..CR, the information
      separators U+001C..U+001F, SPACE, NEL, NO-BREAK SPACE and the Unicode
      space, line and paragraph separators. These are the characters
      `str.strip()` removes. */
  predicate IsPySpace(c: char) {
    '\t' <= c <= '\r' || '\U{1C}' <= c <= ' ' || c == '\U{85}' || c == '\U{A0}' ||
    c == '\U{1680}' || '\U{2000}' <= c <= '\U{200A}' || c == '\U{2028}' ||
    c == '\U{2029}' || c == '\U{202F}' || c == '\U{205F}' || c == '\U{3000}'
  }

  /** The information separators U+001C..U+001F: whitespace to
      `str.isspace()`, but ASCII characters that `int()` does not skip (among
      ASCII characters it skips only the C-locale `isspace` set). */
  predicate IsSeparator(c: char) {
    '\U{1C}' <= c <= '\U{1F}'
  }

  /** The whitespace `int()` ignores around a numeral. `int()` first turns
      every non-ASCII `str.isspace()` character into a space, so this is
      `str.isspace()` without the information separators. */
  predicate IsIntSpace(c: char) {
    IsPySpace(c) && !IsSeparator(c)
  }

  predicate AllSpace(s: string, ws: char -> bool) {
    forall i :: 0 <= i < |s| ==> ws(s[i])
  }

  /** Neither end of `s` is `ws` whitespace: nothing is left to trim. */
  predicate Bare(s: string, ws: char -> bool) {
    s == [] || (!ws(s[0]) && !ws(s[|s| - 1]))
  }

  /** How many characters at the start of `s` are `ws` whitespace. */
  function Leading(s: string, ws: char -> bool): (k: nat)
    ensures k <= |s|
  {
    if |s| > 0 && ws(s[0]) then 1 + Leading(s[1..], ws) else 0
  }

  /** `Leading` counts a run of whitespace that is as long as it can be. */
  lemma {:induction false} LeadingSpec(s: string, ws: char -> bool)
    ensures forall i :: 0 <= i < Leading(s, ws) ==> ws(s[i])
    ensures Leading(s, ws) < |s| ==> !ws(s[Leading(s, ws)])
  {
    if |s| > 0 && ws(s[0]) {
      var t := s[1..];
      LeadingSpec(t, ws);
      forall i | 1 <= i < Leading(s, ws)
        ensures ws(s[i])
      {
        assert s[i] == t[i - 1];
      }
      if Leading(s, ws) < |s| {
        assert s[Leading(s, ws)] == t[Leading(t, ws)];
      }
    }
  }

  /** How many characters at the end of `s` are `ws` whitespace. */
  function Trailing(s: string, ws: char -> bool): (k: nat)
    ensures k <= |s|
  {
    if |s| > 0 && ws(s[|s| - 1]) then 1 + Trailing(s[..|s| - 1], ws) else 0
  }

  /** `Trailing` counts a run of whitespace that is as long as it can be. */
  lemma {:induction false} TrailingSpec(s: string, ws: char -> bool)
    ensures forall i :: |s| - Trailing(s, ws) <= i < |s| ==> ws(s[i])
    ensures Trailing(s, ws) < |s| ==> !ws(s[|s| - 1 - Trailing(s, ws)])
  {
    if |s| > 0 && ws(s[|s| - 1]) {
      var t := s[..|s| - 1];
      TrailingSpec(t, ws);
      forall i | |s| - Trailing(s, ws) <= i < |s| - 1
        ensures ws(s[i])
      {
        assert s[i] == t[i];
      }
      if Trailing(s, ws) < |s| {
        assert s[|s| - 1 - Trailing(s, ws)] == t[|t| - 1 - Trailing(t, ws)];
      }
    }
  }

  /** Drops `ws` whitespace from both ends of `s`. */
  function Trim(s: string, ws: char -> bool): (r: string)
    ensures |r| <= |s|
  {
    var t := s[Leading(s, ws)..];
    t[..|t| - Trailing(t, ws)]
  }

  /** Python's `s.strip()`. */
  function Strip(s: string): (r: string)
    ensures Bare(r, IsPySpace)
  {
    TrimIsBare(s, IsPySpace);
    Trim(s, IsPySpace)
  }

  /** Where `Trim` cuts: everything before `i` and from `j` on is `ws`
      whitespace, and what is kept, `s[i..j]`, has none at its ends. */
  lemma TrimBounds(s: string, ws: char -> bool) returns (i: nat, j: nat)
    ensures i <= j <= |s| && Trim(s, ws) == s[i..j]
    ensures forall k :: 0 <= k < i ==> ws(s[k])
    ensures forall k :: j <= k < |s| ==> ws(s[k])
    ensures i < j ==> !ws(s[i]) && !ws(s[j - 1])
  {
    i := Leading(s, ws);
    LeadingSpec(s, ws);
    var t := s[i..];
    TrailingSpec(t, ws);
    j := |s| - Trailing(t, ws);
    forall k | j <= k < |s|
      ensures ws(s[k])
    {
      assert s[k] == t[k - i];
    }
    if i < j {
      assert s[j - 1] == t[|t| - 1 - Trailing(t, ws)];
    }
    assert t[..|t| - Trailing(t, ws)] == s[i..j];
  }

  /** The trimmed string has no whitespace at either end. */
  lemma TrimIsBare(s: string, ws: char -> bool)
    ensures Bare(Trim(s, ws), ws)
  {
    var i, j := TrimBounds(s, ws);
    if i < j {
      assert s[i..j][0] == s[i] && s[i..j][j - i - 1] == s[j - 1];
    }
  }

  /** Cutting `s` anywhere that leaves only whitespace outside and no
      whitespace at the ends of the inside is what `Trim` does. */
  lemma TrimAt(s: string, i: nat, j: nat, ws: char -> bool)
    requires i <= j <= |s|
    requires forall k :: 0 <= k < i ==> ws(s[k])
    requires forall k :: j <= k < |s| ==> ws(s[k])
    requires i < j ==> !ws(s[i]) && !ws(s[j - 1])
    ensures Trim(s, ws) == s[i..j]
  {
    LeadingSpec(s, ws);
    var l := Leading(s, ws);
    if i == j {
      assert l == |s|;
    } else {
      assert l == i;
      var t := s[i..];
      TrailingSpec(t, ws);
      assert t[j - i - 1] == s[j - 1];
      assert forall k :: j - i <= k < |t| ==> t[k] == s[i + k];
      assert Trailing(t, ws) == |s| - j;
    }
  }

  /** `Trim` removes exactly a run of `ws` whitespace at each end. */
  lemma TrimSplit(s: string, ws: char -> bool) returns (a: string, b: string)
    ensures s == a + Trim(s, ws) + b
    ensures AllSpace(a, ws) && AllSpace(b, ws)
  {
    var i, j := TrimBounds(s, ws);
    a, b := s[..i], s[j..];
    assert s[..j] == a + s[i..j];
    assert s == s[..j] + b;
  }

  /** The trimmed string is the unique bare core: whatever run of `ws`
      whitespace surrounds a bare string, trimming gives back that string. */
  lemma TrimUnique(a: string, m: string, b: string, ws: char -> bool)
    requires AllSpace(a, ws) && AllSpace(b, ws) && Bare(m, ws)
    ensures Trim(a + m + b, ws) == m
  {
    var s := a + m + b;
    assert forall k :: 0 <= k < |a| ==> s[k] == a[k];
    assert forall k :: |a| + |m| <= k < |s| ==> s[k] == b[k - |a| - |m|];
    assert s[|a|..|a| + |m|] == m;
    if m != [] {
      assert s[|a|] == m[0] && s[|a| + |m| - 1] == m[|m| - 1];
    }
    TrimAt(s, |a|, |a| + |m|, ws);
  }

  /** A string with nothing to trim is left as it is. */
  lemma TrimBare(s: string, ws: char -> bool)
    requires Bare(s, ws)
    ensures Trim(s, ws) == s
  {
    assert s[0..|s|] == s;
    TrimAt(s, 0, |s|, ws);
  }

  /** Trimming twice is trimming once. */
  lemma TrimIdempotent(s: string, ws: char -> bool)
    ensures Trim(Trim(s, ws), ws) == Trim(s, ws)
  {
    TrimIsBare(s, ws);
    TrimBare(Trim(s, ws), ws);
  }

  /** Whitespace in front lengthens the leading run by its own length. */
  lemma {:induction false} LeadingSkips(w: string, s: string, ws: char -> bool)
    requires AllSpace(w, ws)
    ensures Leading(w + s, ws) == |w| + Leading(s, ws)
  {
    if w == [] {
      assert w + s == s;
    } else {
      assert (w + s)[0] == w[0];
      assert (w + s)[1..] == w[1..] + s;
      LeadingSkips(w[1..], s, ws);
    }
  }

  /** Adding `ws` whitespace in front does not change the trimmed string. */
  lemma TrimIgnoresLeftPadding(w: string, s: string, ws: char -> bool)
    requires AllSpace(w, ws)
    ensures Trim(w + s, ws) == Trim(s, ws)
  {
    LeadingSkips(w, s, ws);
    var l := Leading(s, ws);
    assert (w + s)[|w| + l..] == s[l..];
  }

  /** Adding `ws` whitespace behind does not change the trimmed string. */
  lemma TrimIgnoresRightPadding(s: string, w: string, ws: char -> bool)
    requires AllSpace(w, ws)
    ensures Trim(s + w, ws) == Trim(s, ws)
  {
    var i, j := TrimBounds(s, ws);
    var p := s + w;
    forall k | 0 <= k < i
      ensures ws(p[k])
    {
      assert p[k] == s[k];
    }
    forall k | j <= k < |p|
      ensures ws(p[k])
    {
      if k < |s| { assert p[k] == s[k]; } else { assert p[k] == w[k - |s|]; }
    }
    if i < j {
      assert p[i] == s[i] && p[j - 1] == s[j - 1];
    }
    TrimAt(p, i, j, ws);
    assert p[i..j] == s[i..j] by {
      forall k | 0 <= k < j - i
        ensures p[i..j][k] == s[i..j][k]
      {
        assert p[i + k] == s[i + k];
      }
    }
  }

  /** Adding `ws` whitespace at either end does not change the trimmed
      string. */
  lemma TrimIgnoresPadding(w1: string, s: string, w2: string, ws: char -> bool)
    requires AllSpace(w1, ws) && AllSpace(w2, ws)
    ensures Trim(w1 + s + w2, ws) == Trim(s, ws)
  {
    TrimIgnoresRightPadding(w1 + s, w2, ws);
    TrimIgnoresLeftPadding(w1, s, ws);
  }

  predicate IsDigit(c: char) {
    '0' <= c <= '9'
  }

  function DigitValue(c: char): (d: nat)
    requires IsDigit(c)
    ensures d < 10
  {
    (c as int) - ('0' as int)
  }

  /** The ASCII digit for `d`: the inverse of `DigitValue`. */
  function DigitChar(d: nat): (c: char)
    requires d < 10
    ensures IsDigit(c) && DigitValue(c) == d
  {
    ('0' as int + d) as char
  }

  /** No ASCII digit is whitespace of either kind. */
  lemma DigitIsNotSpace(c: char)
    requires IsDigit(c)
    ensures !IsPySpace(c) && !IsIntSpace(c)
  {
  }

  /** The digits of a base-10 `int()` argument after its sign: ASCII digits,
      where single underscores may stand between two digits. */
  predicate IsNumeral(s: string) {
    |s| > 0 && IsDigit(s[0]) &&
    (|s| == 1 || IsNumeral(s[1..]) || (s[1] == '_' && IsNumeral(s[2..])))
  }

  /** The base-10 value of the digits of `s`, underscores skipped. */
  function NumeralValue(s: string): nat {
    if s == [] then 0
    else if IsDigit(s[|s| - 1]) then 10 * NumeralValue(s[..|s| - 1]) + DigitValue(s[|s| - 1])
    else NumeralValue(s[..|s| - 1])
  }

  /** Python's `int(s)` for a `str` in base 10: `Some(n)` where it returns
      `n`, `None` where it raises `ValueError`. Surrounding `IsIntSpace`
      whitespace is ignored, one optional sign may come first, the rest is a numeral
      (leading zeros allowed). */
  function PyInt(s: string): Option<int> {
    var t := Trim(s, IsIntSpace);
    if |t| > 0 && (t[0] == '+' || t[0] == '-') && IsNumeral(t[1..]) then
      var v: int := NumeralValue(t[1..]);
      Some(if t[0] == '-' then -v else v)
    else if IsNumeral(t) then
      Some(NumeralValue(t))
    else
      None
  }

  /** A numeral starts and ends with a digit. */
  lemma {:induction false} NumeralEnds(s: string)
    requires IsNumeral(s)
    ensures IsDigit(s[0]) && IsDigit(s[|s| - 1])
  {
    if |s| > 1 {
      if IsNumeral(s[1..]) {
        NumeralEnds(s[1..]);
        assert s[1..][|s| - 2] == s[|s| - 1];
      } else {
        NumeralEnds(s[2..]);
        assert s[2..][|s| - 3] == s[|s| - 1];
      }
    }
  }

  /** `int()` reads an unsigned numeral, with any `IsIntSpace` whitespace
      around it, as its base-10 value (leading zeros and single underscores
      between digits allowed). */
  lemma PyIntOfNumeral(a: string, m: string, b: string)
    requires IsNumeral(m) && AllSpace(a, IsIntSpace) && AllSpace(b, IsIntSpace)
    ensures PyInt(a + m + b) == Some(NumeralValue(m))
  {
    NumeralEnds(m);
    DigitIsNotSpace(m[0]);
    DigitIsNotSpace(m[|m| - 1]);
    TrimUnique(a, m, b, IsIntSpace);
  }

  /** `int()` reads a numeral after one `+` or `-` sign, with any
      `IsIntSpace` whitespace around it, as its signed value. */
  lemma PyIntOfSigned(a: string, t: string, b: string)
    requires |t| > 1 && (t[0] == '+' || t[0] == '-') && IsNumeral(t[1..])
    requires AllSpace(a, IsIntSpace) && AllSpace(b, IsIntSpace)
    ensures PyInt(a + t + b) ==
      Some(if t[0] == '-' then -(NumeralValue(t[1..]) as int) else NumeralValue(t[1..]))
  {
    NumeralEnds(t[1..]);
    assert t[|t| - 1] == t[1..][|t| - 2];
    DigitIsNotSpace(t[|t| - 1]);
    TrimUnique(a, t, b, IsIntSpace);
  }

  /** `int()` of one digit, with any `IsIntSpace` whitespace around it, is
      that digit's value. */
  lemma PyIntOfDigit(a: string, c: char, b: string)
    requires IsDigit(c) && AllSpace(a, IsIntSpace) && AllSpace(b, IsIntSpace)
    ensures PyInt(a + [c] + b) == Some(DigitValue(c))
  {
    assert [c][..0] == [];
    PyIntOfNumeral(a, [c], b);
  }

  /** `int()` ignores `IsIntSpace` whitespace around its argument. */
  lemma PyIntIgnoresPadding(w1: string, s: string, w2: string)
    requires AllSpace(w1, IsIntSpace) && AllSpace(w2, IsIntSpace)
    ensures PyInt(w1 + s + w2) == PyInt(s)
  {
    TrimIgnoresPadding(w1, s, w2, IsIntSpace);
  }

  /** No information separator occurs in `s`. */
  predicate NoSeparators(s: string) {
    forall i :: 0 <= i < |s| ==> !IsSeparator(s[i])
  }

  /** Without information separators, `int()` of a string that strips to one
      digit is that digit's value: `int()` skips everything `strip()`
      removes. */
  lemma PyIntOfStrippedDigit(s: string)
    requires |Strip(s)| == 1 && IsDigit(Strip(s)[0]) && NoSeparators(s)
    ensures PyInt(s) == Some(DigitValue(Strip(s)[0]))
  {
    var a, b := TrimSplit(s, IsPySpace);
    var c := Strip(s)[0];
    assert s == a + [c] + b;
    assert AllSpace(a, IsIntSpace) by {
      forall i | 0 <= i < |a| ensures IsIntSpace(a[i]) {
        assert a[i] == s[i];
      }
    }
    assert AllSpace(b, IsIntSpace) by {
      forall i | 0 <= i < |b| ensures IsIntSpace(b[i]) {
        assert b[i] == s[|a| + 1 + i];
      }
    }
    PyIntOfDigit(a, c, b);
  }

  /** What `int()` reads after skipping its whitespace cannot start or end
      with an information separator: no sign, digit or numeral does. */
  lemma PyIntRefusesSeparatorAtEnd(s: string)
    requires var t := Trim(s, IsIntSpace);
      |t| > 0 && (IsSeparator(t[0]) || IsSeparator(t[|t| - 1]))
    ensures PyInt(s) == None
  {
    var t := Trim(s, IsIntSpace);
    if IsNumeral(t) {
      NumeralEnds(t);
    }
    if |t| > 1 && IsNumeral(t[1..]) {
      NumeralEnds(t[1..]);
      assert t[1..][|t| - 2] == t[|t| - 1];
    }
  }

  /** Leading `str.isspace()` whitespace that holds an information separator
      makes `int()` fail, whatever follows: the first character `int()` does
      not skip lies in that whitespace and is a separator. */
  lemma PyIntRefusesLeftSeparator(w: string, r: string, k: nat)
    requires AllSpace(w, IsPySpace) && k < |w| && IsSeparator(w[k])
    ensures PyInt(w + r) == None
  {
    var s := w + r;
    assert s[k] == w[k];
    var i, j := TrimBounds(s, IsIntSpace);
    assert i <= k < j;
    assert s[i] == w[i] && IsPySpace(w[i]);
    PyIntRefusesSeparatorAtEnd(s);
  }

  /** Trailing `str.isspace()` whitespace that holds an information separator
      makes `int()` fail, whatever precedes it. */
  lemma PyIntRefusesRightSeparator(r: string, w: string, k: nat)
    requires AllSpace(w, IsPySpace) && k < |w| && IsSeparator(w[k])
    ensures PyInt(r + w) == None
  {
    var s := r + w;
    assert s[|r| + k] == w[k];
    var i, j := TrimBounds(s, IsIntSpace);
    assert i <= |r| + k < j;
    assert s[j - 1] == w[j - 1 - |r|] && IsPySpace(w[j - 1 - |r|]);
    PyIntRefusesSeparatorAtEnd(s);
  }

  /** An information separator in the whitespace around one digit makes
      `int()` fail. */
  lemma PyIntOfPaddedDigitFails(a: string, c: char, b: string)
    requires AllSpace(a, IsPySpace) && AllSpace(b, IsPySpace) && IsDigit(c)
    requires !NoSeparators(a + [c] + b)
    ensures PyInt(a + [c] + b) == None
  {
    var s := a + [c] + b;
    var k :| 0 <= k < |s| && IsSeparator(s[k]);
    if k < |a| {
      assert s[k] == a[k];
      assert s == a + ([c] + b);
      PyIntRefusesLeftSeparator(a, [c] + b, k);
    } else {
      assert k != |a|;
      assert s[k] == b[k - |a| - 1];
      PyIntRefusesRightSeparator(a + [c], b, k - |a| - 1);
    }
  }

  /** An information separator anywhere in a string that strips to one digit
      makes `int()` fail: `int()` does not skip it, so it is left at one end
      of what `int()` reads. */
  lemma PyIntOfStrippedDigitFails(s: string)
    requires |Strip(s)| == 1 && IsDigit(Strip(s)[0]) && !NoSeparators(s)
    ensures PyInt(s) == None
  {
    var a, b := TrimSplit(s, IsPySpace);
    var c := Strip(s)[0];
    assert s == a + [c] + b;
    PyIntOfPaddedDigitFails(a, c, b);
  }

  /** `int()` of a string that strips to one digit: the digit's value when
      no information separator occurs in the string, a `ValueError`
      otherwise. */
  lemma PyIntOfStrippedDigitCases(s: string)
    requires |Strip(s)| == 1 && IsDigit(Strip(s)[0])
    ensures PyInt(s) == if NoSeparators(s) then Some(DigitValue(Strip(s)[0])) else None
  {
    if NoSeparators(s) {
      PyIntOfStrippedDigit(s);
    } else {
      PyIntOfStrippedDigitFails(s);
    }
  }

  /** An argument starting with an information separator is refused by
      `int()`, although `str.strip()` would remove that character. */
  lemma PyIntRefusesSeparator(c: char, s: string)
    requires IsSeparator(c)
    ensures PyInt([c] + s) == None
  {
    var u := [c] + s;
    assert !IsIntSpace(u[0]);
    var i, j := TrimBounds(u, IsIntSpace);
    assert i == 0 && j > 0;
    var t := Trim(u, IsIntSpace);
    assert t[0] == c;
  }
}
