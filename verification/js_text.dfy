/** The JavaScript text semantics the route handlers rely on: the character
    classes of their regular expressions, whole-string matching of a
    one-or-more character class (`/^[...]+$/.test`), `String.prototype.startsWith`,
    the conversion of JSON values to strings, and the global `parseInt`.

    A JavaScript string is modelled as a sequence of code points; every
    character class used here lies inside the Basic Multilingual Plane, so a
    character outside it is rejected under either reading.
 */
module JsText {
  import opened Results

  /** A value of a JSON request body, as far as the handlers inspect it. */
  datatype JsonValue = Null | Bool(b: bool) | Num(n: int) | Str(s: string)

  /** The class `[A-Za-z]`. */
  predicate IsAsciiLetter(c: char) {
    'A' <= c <= 'Z' || 'a' <= c <= 'z'
  }

  /** The class `[0-9]`. */
  predicate IsAsciiDigit(c: char) {
    '0' <= c <= '9'
  }

  /** The class `\s`: the WhiteSpace and LineTerminator code points of
      ECMAScript (tab, line feed, vertical tab, form feed, carriage return,
      space, no-break space, the space separators of Unicode, line and
      paragraph separators, and the byte order mark). `parseInt` trims the
      same set. */
  predicate IsJsWhitespace(c: char) {
    var n := c as int;
    || 0x09 <= n <= 0x0D
    || n == 0x20
    || n == 0xA0
    || n == 0x1680
    || 0x2000 <= n <= 0x200A
    || n == 0x2028 || n == 0x2029
    || n == 0x202F
    || n == 0x205F
    || n == 0x3000
    || n == 0xFEFF
  }

  /** Every character of `s` belongs to the class `cls`. */
  predicate AllChars(cls: char -> bool, s: string) {
    forall i :: 0 <= i < |s| ==> cls(s[i])
  }

  /** Regular-expression semantics of `/^[cls]+$/` on the whole of `s`: one
      character of the class, followed by the empty string or by another
      match. */
  predicate MatchesPlus(cls: char -> bool, s: string)
    decreases |s|
  {
    && |s| > 0
    && cls(s[0])
    && (|s| == 1 || MatchesPlus(cls, s[1..]))
  }

  /** `/^[cls]+$/` accepts exactly the non-empty strings drawn from the class. */
  lemma {:induction false} MatchesPlusIff(cls: char -> bool, s: string)
    ensures MatchesPlus(cls, s) <==> |s| > 0 && AllChars(cls, s)
    decreases |s|
  {
    if |s| > 1 {
      MatchesPlusIff(cls, s[1..]);
      if AllChars(cls, s) {
        assert AllChars(cls, s[1..]) by {
          forall i | 0 <= i < |s[1..]| ensures cls(s[1..][i]) {
            assert s[1..][i] == s[i + 1];
          }
        }
      }
      if cls(s[0]) && AllChars(cls, s[1..]) {
        forall i | 0 <= i < |s| ensures cls(s[i]) {
          if i > 0 {
            assert s[i] == s[1..][i - 1];
          }
        }
      }
    }
  }

  /** `s.startsWith(p)`. */
  predicate StartsWith(s: string, p: string) {
    |p| <= |s| && s[..|p|] == p
  }

  /** `s.endsWith(p)`. */
  predicate EndsWith(s: string, p: string) {
    |p| <= |s| && s[|s| - |p|..] == p
  }

  /** Value of `c` as a digit of radix up to 36 (`0-9`, then `a-z` or `A-Z`). */
  function DigitOf(c: char): (d: Option<nat>)
    ensures d.Some? ==> d.value < 36
    ensures IsAsciiDigit(c) <==> d.Some? && d.value < 10
  {
    if '0' <= c <= '9' then Some(c as int - '0' as int)
    else if 'a' <= c <= 'z' then Some(c as int - 'a' as int + 10)
    else if 'A' <= c <= 'Z' then Some(c as int - 'A' as int + 10)
    else None
  }

  /** `c` is a digit of the given radix. */
  predicate IsRadixDigit(c: char, radix: nat) {
    DigitOf(c).Some? && DigitOf(c).value < radix
  }

  /** The decimal digit character of `d`. */
  function DigitChar(d: nat): (c: char)
    requires d < 10
    ensures IsAsciiDigit(c) && DigitOf(c) == Some(d)
  {
    ('0' as int + d) as char
  }

  /** Numeric value of a string of radix digits, most significant first.
      It is only applied to runs of digits; a character that is not a digit
      would count as 0. */
  function DigitsValue(s: string, radix: nat): nat {
    if |s| == 0 then 0
    else DigitsValue(s[..|s| - 1], radix) * radix + DigitOf(s[|s| - 1]).GetOr(0)
  }

  /** Length of the longest prefix of `s` made of digits of the radix. */
  function DigitRun(s: string, radix: nat): (n: nat)
    ensures n <= |s|
    ensures forall i :: 0 <= i < n ==> IsRadixDigit(s[i], radix)
    ensures n < |s| ==> !IsRadixDigit(s[n], radix)
  {
    if |s| > 0 && IsRadixDigit(s[0], radix) then 1 + DigitRun(s[1..], radix) else 0
  }

  /** `s` with its leading white space removed. */
  function TrimStart(s: string): (r: string)
    ensures |r| <= |s|
    ensures forall i :: 0 <= i < |s| - |r| ==> IsJsWhitespace(s[i])
    ensures |r| > 0 ==> !IsJsWhitespace(r[0])
  {
    if |s| > 0 && IsJsWhitespace(s[0]) then TrimStart(s[1..]) else s
  }

  /** What trimming leaves is the tail of the original string. */
  lemma {:induction false} TrimStartIsSuffix(s: string)
    ensures TrimStart(s) == s[|s| - |TrimStart(s)|..]
    decreases |s|
  {
    if |s| > 0 && IsJsWhitespace(s[0]) {
      TrimStartIsSuffix(s[1..]);
      assert s[1..][|s[1..]| - |TrimStart(s)|..] == s[|s| - |TrimStart(s)|..];
    }
  }

  /** The digits of a `parseInt` argument after its sign: a `0x` or `0X`
      prefix selects radix 16 (radix 10 otherwise), and the longest run of
      digits that follows is converted; anything after that run is ignored.
      `None` is `NaN`, the result when the run is empty. */
  function ParseMagnitude(u: string): (r: Option<int>)
    ensures r.Some? ==> r.value >= 0
  {
    var hex := |u| >= 2 && u[0] == '0' && (u[1] == 'x' || u[1] == 'X');
    var radix := if hex then 16 else 10;
    var digits := if hex then u[2..] else u;
    var n := DigitRun(digits, radix);
    if n == 0 then None else Some(DigitsValue(digits[..n], radix))
  }

  /** `parseInt` after white space is trimmed: one `+` or `-` sign is read
      and the magnitude follows it. */
  function ParseSigned(t: string): Option<int> {
    if |t| > 0 && t[0] == '-' then
      match ParseMagnitude(t[1..])
      case Some(m) => Some(-m)
      case None => None
    else if |t| > 0 && t[0] == '+' then ParseMagnitude(t[1..])
    else ParseMagnitude(t)
  }

  /** The global `parseInt(s)` with no radix argument: leading white space
      is skipped, then a signed magnitude is read. */
  function ParseInt(s: string): Option<int> {
    ParseSigned(TrimStart(s))
  }

  /** The decimal numeral of `n` with no leading zeros, as `String(n)` writes it. */
  function NatToDecimal(n: nat): (s: string)
    ensures |s| > 0 && AllChars(IsAsciiDigit, s)
    ensures |s| > 1 ==> s[0] != '0'
    decreases n
  {
    if n < 10 then [DigitChar(n)]
    else NatToDecimal(n / 10) + [DigitChar(n % 10)]
  }

  /** The digits of `String(n)` have value `n`. */
  lemma {:induction false} NatToDecimalValue(n: nat)
    ensures DigitsValue(NatToDecimal(n), 10) == n
    decreases n
  {
    var s := NatToDecimal(n);
    if n >= 10 {
      NatToDecimalValue(n / 10);
      assert s[..|s| - 1] == NatToDecimal(n / 10);
    }
  }

  /** `String(n)` for an integer `n`. */
  function IntToDecimal(n: int): (s: string)
    ensures |s| > 0 && (s[0] == '-' <==> n < 0)
  {
    if n < 0 then "-" + NatToDecimal(-n) else NatToDecimal(n)
  }

  /** `String(v)`, the conversion `parseInt` applies to its argument. */
  function ToJsString(v: JsonValue): string {
    match v
    case Null => "null"
    case Bool(b) => if b then "true" else "false"
    case Num(n) => IntToDecimal(n)
    case Str(s) => s
  }

  /** `parseInt(v)` for a JSON value. */
  function ParseIntValue(v: JsonValue): Option<int> {
    ParseInt(ToJsString(v))
  }

  /** The longest decimal run at the front of `d + rest` is `d` itself when
      `d` is all digits and `rest` does not start with one. */
  lemma DigitRunOfNumeral(d: string, rest: string)
    requires AllChars(IsAsciiDigit, d)
    requires |rest| > 0 ==> !IsAsciiDigit(rest[0])
    ensures DigitRun(d + rest, 10) == |d|
    ensures (d + rest)[..|d|] == d
  {
    var s := d + rest;
    assert forall i :: 0 <= i < |d| ==> s[i] == d[i];
    if |rest| > 0 {
      assert s[|d|] == rest[0];
    }
  }

  /** A single-digit numeral of a non-zero number is not `"0"`. */
  lemma ZeroNumeral(m: nat)
    requires |NatToDecimal(m)| == 1 && NatToDecimal(m)[0] == '0'
    ensures m == 0
  {
    var d := NatToDecimal(m);
    NatToDecimalValue(m);
    assert d[..0] == [];
    assert DigitsValue(d, 10) == DigitsValue(d[..0], 10) * 10 + DigitOf(d[0]).value;
  }

  /** The magnitude read from a numeral followed by a character that cannot
      continue it is the numeral's value. */
  lemma MagnitudeOfNumeral(m: nat, rest: string)
    requires |rest| > 0 ==> !IsAsciiDigit(rest[0])
    requires |rest| > 0 && m == 0 ==> rest[0] != 'x' && rest[0] != 'X'
    ensures ParseMagnitude(NatToDecimal(m) + rest) == Some(m)
  {
    var d := NatToDecimal(m);
    var u := d + rest;
    NatToDecimalValue(m);
    // no hexadecimal prefix: a numeral longer than one digit does not start
    // with 0, and the numeral "0" is not followed by an x
    if |d| == 1 && d[0] == '0' {
      ZeroNumeral(m);
    }
    assert u[0] == d[0];
    DigitRunOfNumeral(d, rest);
  }

  /** `parseInt` reads back the numeral `String(n)` and stops at the first
      character after it that cannot continue the number: a numeral
      followed by a non-digit parses to `n` (so `"3.7"` gives 3 and
      `"12abc"` gives 12), except that `"0x"` switches to hexadecimal. */
  lemma ParseIntOfNumeral(n: int, rest: string)
    requires |rest| > 0 ==> !IsAsciiDigit(rest[0])
    requires |rest| > 0 && n == 0 ==> rest[0] != 'x' && rest[0] != 'X'
    ensures ParseInt(IntToDecimal(n) + rest) == Some(n)
  {
    if n < 0 {
      NegativeNumeral(n, rest);
    } else {
      NonNegativeNumeral(n, rest);
    }
  }

  lemma NegativeNumeral(n: int, rest: string)
    requires n < 0
    requires |rest| > 0 ==> !IsAsciiDigit(rest[0])
    ensures ParseInt(IntToDecimal(n) + rest) == Some(n)
  {
    var d := NatToDecimal(-n);
    var u := d + rest;
    MagnitudeOfNumeral(-n, rest);
    assert u[0] == d[0];
    SignedOfNumeral(u, Some(-n));
    NegativeNumeralSplits(n, rest);
  }

  /** `String(n) + rest` for a negative `n` is a minus sign before the
      numeral of `-n` and `rest`. */
  lemma NegativeNumeralSplits(n: int, rest: string)
    requires n < 0
    ensures IntToDecimal(n) + rest == "-" + (NatToDecimal(-n) + rest)
  {
  }

  lemma NonNegativeNumeral(n: nat, rest: string)
    requires |rest| > 0 ==> !IsAsciiDigit(rest[0])
    requires |rest| > 0 && n == 0 ==> rest[0] != 'x' && rest[0] != 'X'
    ensures ParseInt(IntToDecimal(n) + rest) == Some(n)
  {
    var d := NatToDecimal(n);
    var u := d + rest;
    MagnitudeOfNumeral(n, rest);
    assert u[0] == d[0];
    assert IntToDecimal(n) == d;
    UnsignedOfNumeral(u);
  }

  /** A string starting with a digit is read as an unsigned magnitude. */
  lemma UnsignedOfNumeral(u: string)
    requires |u| > 0 && IsAsciiDigit(u[0])
    ensures ParseInt(u) == ParseMagnitude(u)
  {
    assert TrimStart(u) == u;
  }

  /** A minus sign before a digit negates the magnitude that follows. */
  lemma SignedOfNumeral(u: string, m: Option<int>)
    requires |u| > 0 && IsAsciiDigit(u[0])
    requires m == ParseMagnitude(u) && m.Some?
    ensures ParseInt("-" + u) == Some(-m.value)
  {
    var s := "-" + u;
    assert TrimStart(s) == s;
    assert s[1..] == u;
  }

  /** `parseInt(String(n))` is `n`: the round trip through a numeral. */
  lemma ParseIntRoundTrip(n: int)
    ensures ParseIntValue(Num(n)) == Some(n)
  {
    ParseIntOfNumeral(n, "");
    assert IntToDecimal(n) + "" == IntToDecimal(n);
  }

  /** Leading white space is trimmed away. */
  lemma {:induction false} TrimStartSkipsWhitespace(ws: string, s: string)
    requires AllChars(IsJsWhitespace, ws)
    ensures TrimStart(ws + s) == TrimStart(s)
    decreases |ws|
  {
    if |ws| > 0 {
      assert (ws + s)[1..] == ws[1..] + s;
      assert (ws + s)[0] == ws[0];
      assert AllChars(IsJsWhitespace, ws[1..]) by {
        forall i | 0 <= i < |ws[1..]| ensures IsJsWhitespace(ws[1..][i]) {
          assert ws[1..][i] == ws[i + 1];
        }
      }
      TrimStartSkipsWhitespace(ws[1..], s);
    } else {
      assert ws + s == s;
    }
  }

  /** Leading white space does not change what `parseInt` reads. */
  lemma ParseIntSkipsWhitespace(ws: string, s: string)
    requires AllChars(IsJsWhitespace, ws)
    ensures ParseInt(ws + s) == ParseInt(s)
  {
    TrimStartSkipsWhitespace(ws, s);
  }

  /** `parseInt` of a string that starts with neither white space, a sign
      nor a decimal digit is `NaN`. */
  lemma ParseIntWithoutDigits(s: string)
    requires |s| > 0 ==> !(IsAsciiDigit(s[0]) || IsJsWhitespace(s[0]) || s[0] == '-' || s[0] == '+')
    ensures ParseInt(s) == None
  {
  }

  /** `String(null)`, `String(true)` and `String(false)` are not numbers. */
  lemma ParseIntOfNonNumbers(v: JsonValue)
    requires v.Null? || v.Bool?
    ensures ParseIntValue(v) == None
  {
    ParseIntWithoutDigits(ToJsString(v));
  }
}
