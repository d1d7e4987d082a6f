# Dice roller input validation in Dafny

The dice roller asks the user how many dice to roll. It reads a line of
text and hands it to `parse_input`. When the text, with surrounding whitespace
stripped, is one of the strings `"1"` to `"6"`, the function returns that
number as an integer. The exception is input that also holds a character from
U+001C–U+001F: there `int()` raises `ValueError`, which escapes the function
(see "## Findings"). Every other input makes it print "Please enter a value
between 1 and 6. Exiting program." and exit with status 1.

The project has two modules:

- `PyText` (`pytext.dfy`) models the built-in operations the validator relies on:
  - `str.isspace()` (`IsPySpace`);
  - `str.strip()` (`Strip`, an instance of the generic `Trim` over a whitespace predicate);
  - `int()` on a `str` in base 10 (`PyInt`, which returns `None` where Python raises `ValueError`).

  The lemmas say what these operations do:
  - `strip()` removes exactly the maximal whitespace runs at both ends;
  - the stripped result is unique, idempotent and unaffected by extra padding;
  - `int()` reads a signed or unsigned numeral between `int()`-whitespace.
- `Dice` (`dice.dfy`) models `parse_input` itself. An `Outcome` is one of three things:
  - the returned integer (`Ok`);
  - the "print and exit" path (`InvalidInput`);
  - a `ValueError` that escapes the function (`UncaughtValueError`).

  `Dice` has two versions of the function:
  - `ParseInputAsWritten` follows the code line for line. The guard tests the stripped string, but `int()` is applied to the unstripped input.
  - `ParseInput` applies `int()` to the stripped string, which is what the code evidently intends (see "## Findings").

The model follows the code, which accepts exactly the six literal strings
`"1"` to `"6"`.

## Model

| member | source | states |
|---|---|---|
| Dice.ParseInput | dice.py:17-21 | Success exactly when the stripped input is one of the six accepted strings. The value is then between 1 and 6 and is the digit the stripped input consists of. Every other input gives the print-and-exit outcome, and no `ValueError` can escape. |
| Dice.ParseInputAsWritten | dice.py:17-21 | The code as written takes the print-and-exit path exactly when the stripped input is not one of the six accepted strings. The `ValueError` escapes exactly when the stripped input is accepted and the input holds a character from U+001C–U+001F. Any integer it returns is in 1..6, is the digit the stripped input consists of, and equals the corrected validator's result. |
| Dice.AcceptedIsDigit | dice.py:17 | The accepted set `{"1",…,"6"}` is exactly the set of one-character strings whose character is a digit with value 1 to 6. |
| Dice.ParseInputOkIffPadded | dice.py:17-18 | In both directions: the result is `n` exactly when `1 <= n <= 6` and the input is the digit of `n` with only `str.isspace()` whitespace before and after it. |
| Dice.ParseInputIgnoresPadding | dice.py:17 | Adding whitespace on either side of the input never changes the outcome. |
| Dice.ParseInputIsIntOfStripped | dice.py:17-18 | On success, the returned integer equals `int()` of the stripped input and is the value of its one digit. |
| Dice.AsWrittenAgrees | dice.py:17-18 | For every input without the characters U+001C–U+001F, the code as written and the corrected validator give the same outcome: there, `int()` skips exactly the whitespace `strip()` removes. |
| Dice.SeparatorBeforeDigitEscapes | dice.py:17-18 | An information separator followed by a digit from 1 to 6 passes the guard. The code as written then lets a `ValueError` escape, while the corrected validator returns the digit. |
| Dice.SingleCharRejected | dice.py:17-21 | A single character that is neither whitespace nor one of the digits 1 to 6 is rejected. |
| Dice.LongBareRejected | dice.py:17-21 | A string of two or more characters with no whitespace at either end is rejected (for example "10", "+3", "1 2"). |
| Dice.BlankRejected | dice.py:17-21 | The empty input and every all-whitespace input are rejected. |
| Dice.ZeroRejected | dice.py:17-21 | `int("0")` is 0, but "0" is rejected. |
| Dice.SevenRejected | dice.py:17-21 | `int("7")` is 7, but "7" is rejected. |
| Dice.TenRejected | dice.py:17-21 | `int("10")` is 10, but "10" is rejected. |
| Dice.LeadingZeroRejected | dice.py:17-21 | `int("03")` is 3, but "03" is rejected: the guard compares strings, not numbers. |
| Dice.PlusSignRejected | dice.py:17-21 | `int("+3")` is 3, but "+3" is rejected. |
| Dice.MinusSignRejected | dice.py:17-21 | `int("-1")` is -1, but "-1" is rejected. |
| PyText.IsPySpace | dice.py:17 | The character set that `str.isspace()` accepts, and so the set `strip()` removes: TAB..CR, U+001C–U+001F, SPACE, NEL, NO-BREAK SPACE, U+1680, U+2000–U+200A, U+2028, U+2029, U+202F, U+205F and U+3000. A predicate, so it has no contract. `DigitIsNotSpace` shows that no digit is in the set. |
| PyText.Trim | dice.py:17 | Trimming never lengthens a string. What the result is gets pinned down by `TrimBounds`, `TrimSplit` and `TrimUnique`: the unique middle of a split into whitespace, a core with no whitespace at its ends, and whitespace. |
| PyText.Strip | dice.py:17 | `str.strip()` with no argument is `Trim` over `str.isspace()` whitespace. The result has no whitespace at either end. `TrimSplit` and `TrimUnique` (with `ws := IsPySpace`) characterise it completely. |
| PyText.PyInt | dice.py:18 | `int()` in base 10. The function has no contract of its own. `PyIntOfNumeral`, `PyIntOfSigned` and `PyIntIgnoresPadding` give its value on padded signed and unsigned numerals, and `PyIntRefusesSeparator`, `PyIntRefusesSeparatorAtEnd`, `PyIntRefusesLeftSeparator` and `PyIntRefusesRightSeparator` give the information-separator `ValueError` cases. Its other `ValueError` cases, such as "", "abc" and "1__0", follow from the definition alone. |
| PyText.LeadingSpec | dice.py:17 | The count of leading characters `strip()` removes covers a whitespace run that cannot be extended. Every counted character is whitespace, and the next character, if there is one, is not. |
| PyText.TrailingSpec | dice.py:17 | The same holds at the end of the string. |
| PyText.TrimBounds | dice.py:17 | `strip()` keeps a slice `s[i..j]`. Everything before `i` and from `j` on is whitespace, and a non-empty result has no whitespace at either end. |
| PyText.TrimIsBare | dice.py:17 | A stripped string has no whitespace at either end. |
| PyText.TrimAt | dice.py:17 | Any slice with whitespace outside it and no whitespace at its own ends is the stripped string. |
| PyText.TrimSplit | dice.py:17 | Every string is whitespace, then its stripped form, then whitespace. |
| PyText.TrimUnique | dice.py:17 | A string with no whitespace at its ends, padded on both sides by whitespace, strips to itself. Together with `TrimSplit`, this means the stripped form is the only such decomposition. |
| PyText.TrimBare | dice.py:17 | A string with no whitespace at its ends is unchanged by `strip()`. |
| PyText.TrimIdempotent | dice.py:17 | Stripping twice is the same as stripping once. |
| PyText.LeadingSkips | dice.py:17 | The leading whitespace count of `w + s`, for whitespace `w`, is `|w|` plus that of `s`. |
| PyText.TrimIgnoresLeftPadding | dice.py:17 | Whitespace added on the left does not change the stripped string. |
| PyText.TrimIgnoresRightPadding | dice.py:17 | Whitespace added on the right does not change the stripped string. |
| PyText.TrimIgnoresPadding | dice.py:17 | Whitespace added on both sides does not change the stripped string. |
| PyText.DigitChar | dice.py:17-18 | The character of a digit value is a digit with that value. |
| PyText.DigitIsNotSpace | dice.py:17-18 | No digit is whitespace to `strip()` or to `int()`. |
| PyText.NumeralEnds | dice.py:18 | A numeral as `int()` accepts it starts and ends with a digit. |
| PyText.PyIntOfNumeral | dice.py:18 | `int()` of an unsigned numeral with `int()`-whitespace around it is the numeral's base-10 value. |
| PyText.PyIntOfSigned | dice.py:18 | `int()` of a numeral after one `+` or `-`, with whitespace around it, is the signed value. |
| PyText.PyIntOfDigit | dice.py:18 | `int()` of one digit with whitespace around it is the digit's value. |
| PyText.PyIntIgnoresPadding | dice.py:18 | Whitespace that `int()` skips, added on either side, does not change `int()`'s result. |
| PyText.PyIntOfStrippedDigit | dice.py:17-18 | Take an input with no information separators that strips to one digit. `int()` of the unstripped input is that digit's value. |
| PyText.PyIntRefusesSeparator | dice.py:18 | `int()` raises `ValueError` on any string that starts with an information separator, although `strip()` removes that character. |
| PyText.PyIntRefusesSeparatorAtEnd | dice.py:18 | When what `int()` reads after skipping its whitespace starts or ends with an information separator, `int()` raises `ValueError`: no sign, digit or numeral can stand there. |
| PyText.PyIntRefusesLeftSeparator | dice.py:18 | `str.isspace()` whitespace that holds an information separator, placed before any text, makes `int()` raise `ValueError`. |
| PyText.PyIntRefusesRightSeparator | dice.py:18 | The same holds for such whitespace placed after any text. |
| PyText.PyIntOfPaddedDigitFails | dice.py:18 | One digit with `str.isspace()` whitespace around it makes `int()` raise `ValueError` when that whitespace holds an information separator. |
| PyText.PyIntOfStrippedDigitFails | dice.py:17-18 | An input that strips to one digit and holds an information separator makes `int()` of the unstripped input raise `ValueError`. |
| PyText.PyIntOfStrippedDigitCases | dice.py:17-18 | For an input that strips to one digit, `int()` of the unstripped input is the digit's value exactly when no information separator occurs in the input, and raises `ValueError` otherwise. |

## Left out

- `main` and `input()`: reading the line from the terminal is I/O. The model takes the line as a parameter.
- The printed message and `SystemExit(1)`: the model does not perform this output or exit. Both become the single `InvalidInput` outcome.
- Rolling the dice, drawing the faces and summing them: these are not part of `parse_input`, so they are not modelled.
- PyText.PyInt: Unicode decimal digits (which `int()` also accepts) and the 4300-digit limit on conversions are not modelled. In the validator, `int()` only ever sees whitespace around one ASCII digit, so neither affects `Dice.ParseInput` or `Dice.ParseInputAsWritten`.
- Determinism and the absence of side effects of `parse_input` hold by construction, because Dafny functions are pure. No separate lemma states them.

## Findings

| source | as written | input that shows it | evidently intended | confidence | as-written member | corrected member |
|---|---|---|---|---|---|---|
| dice.py:17-18 | The guard tests `input_string.strip()`, but the function returns `int(input_string)` on the unstripped input. `strip()` removes U+001C–U+001F because `str.isspace()` counts them as whitespace, but `int()` does not skip them. | `"\x1c3"`: the guard passes because it strips to `"3"`, then `int("\x1c3")` raises `ValueError`, which escapes `parse_input` instead of giving 3 or the exit message. | Convert the string that was validated, `int(input_string.strip())`. The result is then always the accepted digit's value, and no `ValueError` can escape. | not executed | Dice.SeparatorBeforeDigitEscapes | Dice.ParseInputIsIntOfStripped |
