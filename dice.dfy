/** The input validator of the dice roller: `parse_input` turns the text the
    user typed into a number of dice between 1 and 6, or ends the program. */
module Dice {
  import opened PyText

  /** What one call of `parse_input` comes to: it returns an integer; it
      prints the "value between 1 and 6" message and exits with status 1; or
      a `ValueError` raised by `int()` escapes it. */
  datatype Outcome = Ok(value: int) | InvalidInput | UncaughtValueError

  /** The literal set the stripped input is tested against. */
  const Accepted: set<string> := {"1", "2", "3", "4", "5", "6"}

  /** The accepted strings are exactly the single digits 1 to 6. */
  lemma AcceptedIsDigit(t: string)
    ensures t in Accepted <==> |t| == 1 && IsDigit(t[0]) && 1 <= DigitValue(t[0]) <= 6
  {
    if |t| == 1 && IsDigit(t[0]) && 1 <= DigitValue(t[0]) <= 6 {
      var d := DigitValue(t[0]);
      assert t == [DigitChar(d)];
      assert d == 1 || d == 2 || d == 3 || d == 4 || d == 5 || d == 6;
    }
  }

  /** `parse_input` as written: the guard tests `input_string.strip()`, but
      `int()` is then applied to the unstripped `input_string`. A value it
      returns is the accepted digit; the `ValueError` escapes exactly when
      the input passes the guard and holds an information separator. */
  function ParseInputAsWritten(s: string): (r: Outcome)
    ensures r == InvalidInput <==> Strip(s) !in Accepted
    ensures r == UncaughtValueError <==> Strip(s) in Accepted && !NoSeparators(s)
    ensures r.Ok? ==> 1 <= r.value <= 6 && Strip(s) == [DigitChar(r.value)]
    ensures r.Ok? ==> r == ParseInput(s)
  {
    var t := Strip(s);
    if t in Accepted then
      AcceptedIsDigit(t);
      PyIntOfStrippedDigitCases(s);
      match PyInt(s)
      case Some(n) => Ok(n)
      case None => UncaughtValueError
    else
      InvalidInput
  }

  /** `parse_input` with `int()` applied to the stripped string, the value
      the guard has just checked; for one of the six accepted strings that is
      the value of its digit (see `ParseInputIsIntOfStripped`). This is the
      validator the rest of the model uses. */
  function ParseInput(s: string): (r: Outcome)
    ensures r.Ok? <==> Strip(s) in Accepted
    ensures r.Ok? ==> 1 <= r.value <= 6 && Strip(s) == [DigitChar(r.value)]
    ensures r.Ok? || r == InvalidInput
  {
    var t := Strip(s);
    if t in Accepted then
      AcceptedIsDigit(t);
      Ok(DigitValue(t[0]))
    else
      InvalidInput
  }

  /** Success means exactly: the input is one digit from 1 to 6 with nothing
      but whitespace around it; and the result is that digit's value. */
  lemma ParseInputOkIffPadded(s: string, n: int)
    ensures ParseInput(s) == Ok(n) <==>
      1 <= n <= 6 &&
      exists a, b :: AllSpace(a, IsPySpace) && AllSpace(b, IsPySpace) && s == a + [DigitChar(n)] + b
  {
    if ParseInput(s) == Ok(n) {
      var a, b := TrimSplit(s, IsPySpace);
      assert s == a + [DigitChar(n)] + b;
    }
    if 1 <= n <= 6 &&
      exists a, b :: AllSpace(a, IsPySpace) && AllSpace(b, IsPySpace) && s == a + [DigitChar(n)] + b
    {
      var a, b :| AllSpace(a, IsPySpace) && AllSpace(b, IsPySpace) && s == a + [DigitChar(n)] + b;
      var c := DigitChar(n);
      DigitIsNotSpace(c);
      TrimUnique(a, [c], b, IsPySpace);
      AcceptedIsDigit([c]);
      var r := ParseInput(s);
      assert r.Ok? && [DigitChar(r.value)] == [c];
      assert DigitValue(DigitChar(r.value)) == DigitValue(c);
    }
  }

  /** Whitespace added around the input never changes the outcome. */
  lemma ParseInputIgnoresPadding(w1: string, s: string, w2: string)
    requires AllSpace(w1, IsPySpace) && AllSpace(w2, IsPySpace)
    ensures ParseInput(w1 + s + w2) == ParseInput(s)
  {
    TrimIgnoresPadding(w1, s, w2, IsPySpace);
  }

  /** The returned integer is what `int()` makes of the stripped input, and
      is the value of its one digit. */
  lemma ParseInputIsIntOfStripped(s: string)
    requires ParseInput(s).Ok?
    ensures PyInt(Strip(s)) == Some(ParseInput(s).value)
    ensures ParseInput(s).value == DigitValue(Strip(s)[0])
  {
    var t := Strip(s);
    assert [] + [t[0]] + [] == t;
    PyIntOfDigit([], t[0], []);
  }

  /** Applying `int()` to the unstripped input is harmless, because `int()`
      skips the same whitespace `strip()` removes, except for the information
      separators: without them the code as written and `ParseInput` agree. */
  lemma AsWrittenAgrees(s: string)
    requires NoSeparators(s)
    ensures ParseInputAsWritten(s) == ParseInput(s)
  {
    if Strip(s) in Accepted {
      AcceptedIsDigit(Strip(s));
      PyIntOfStrippedDigit(s);
    }
  }

  /** An information separator before an accepted digit passes the guard,
      since `strip()` removes it, but `int()` refuses it: the code as written
      lets a `ValueError` escape where the corrected validator returns the
      digit. */
  lemma SeparatorBeforeDigitEscapes(c: char, n: nat)
    requires IsSeparator(c) && 1 <= n <= 6
    ensures ParseInputAsWritten([c, DigitChar(n)]) == UncaughtValueError
    ensures ParseInput([c, DigitChar(n)]) == Ok(n)
  {
    var d := DigitChar(n);
    DigitIsNotSpace(d);
    assert [c] + [d] + [] == [c, d];
    TrimUnique([c], [d], [], IsPySpace);
    AcceptedIsDigit([d]);
    PyIntRefusesSeparator(c, [d]);
    assert [c] + [d] == [c, d];
  }

  /** A single character other than the digits 1 to 6 and whitespace is
      rejected: "0", "7", "a". */
  lemma SingleCharRejected(c: char)
    requires !IsPySpace(c) && !(IsDigit(c) && 1 <= DigitValue(c) <= 6)
    ensures ParseInput([c]) == InvalidInput
  {
    TrimBare([c], IsPySpace);
    AcceptedIsDigit([c]);
  }

  /** A string of two or more characters with no whitespace at its ends is
      rejected: "10", "03", "+3", "-1", "abc", "1 2". */
  lemma LongBareRejected(s: string)
    requires |s| >= 2 && !IsPySpace(s[0]) && !IsPySpace(s[|s| - 1])
    ensures ParseInput(s) == InvalidInput
  {
    TrimBare(s, IsPySpace);
    AcceptedIsDigit(s);
  }

  /** The empty input and all-whitespace inputs are rejected. */
  lemma BlankRejected(w: string)
    requires AllSpace(w, IsPySpace)
    ensures ParseInput(w) == InvalidInput
  {
    assert w == w + "" + "";
    TrimUnique(w, "", "", IsPySpace);
    AcceptedIsDigit("");
  }

  /* Strings `int()` reads as an integer but that are not one of the six
     literal strings end the program. */

  lemma ZeroRejected()
    ensures PyInt("0") == Some(0) && ParseInput("0") == InvalidInput
  {
    SingleCharRejected('0');
    assert "0" == [] + ['0'] + [];
    PyIntOfDigit([], '0', []);
  }

  lemma SevenRejected()
    ensures PyInt("7") == Some(7) && ParseInput("7") == InvalidInput
  {
    SingleCharRejected('7');
    assert "7" == [] + ['7'] + [];
    PyIntOfDigit([], '7', []);
  }

  lemma TenRejected()
    ensures PyInt("10") == Some(10) && ParseInput("10") == InvalidInput
  {
    LongBareRejected("10");
    TrimBare("10", IsIntSpace);
    assert "10"[1..] == "0" && IsNumeral("0");
    assert "10"[..1] == "1" && "1"[..0] == "";
  }

  lemma LeadingZeroRejected()
    ensures PyInt("03") == Some(3) && ParseInput("03") == InvalidInput
  {
    LongBareRejected("03");
    TrimBare("03", IsIntSpace);
    assert "03"[1..] == "3" && IsNumeral("3");
    assert "03"[..1] == "0" && "0"[..0] == "";
  }

  lemma PlusSignRejected()
    ensures PyInt("+3") == Some(3) && ParseInput("+3") == InvalidInput
  {
    LongBareRejected("+3");
    TrimBare("+3", IsIntSpace);
    assert "+3"[1..] == "3" && IsNumeral("3");
    assert "3"[..0] == "";
  }

  lemma MinusSignRejected()
    ensures PyInt("-1") == Some(-1) && ParseInput("-1") == InvalidInput
  {
    LongBareRejected("-1");
    TrimBare("-1", IsIntSpace);
    assert "-1"[1..] == "1" && IsNumeral("1");
    assert "1"[..0] == "";
  }
}
