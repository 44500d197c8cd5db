/** JavaScript's `parseInt` (no radix argument) and the decimal rendering of a natural number,
    as used when a numeric id travels through a URL query string. */
module Decimal {
  import opened Wrappers
  import Text

  /** Value of `c` as a digit in bases up to 36 (0-9, then a-z or A-Z), or 36 if it is none. */
  function DigitValue(c: char): (d: nat)
    ensures d <= 36
    ensures d < 10 <==> '0' <= c <= '9'
  {
    if '0' <= c <= '9' then c as int - '0' as int
    else if 'a' <= c <= 'z' then c as int - 'a' as int + 10
    else if 'A' <= c <= 'Z' then c as int - 'A' as int + 10
    else 36
  }

  /** Every character of `s` is a digit of base `radix`. */
  predicate AllDigits(s: string, radix: nat) {
    forall i :: 0 <= i < |s| ==> DigitValue(s[i]) < radix
  }

  /** Length of the longest prefix of `s` made of digits of base `radix`. */
  function DigitRun(s: string, radix: nat): (n: nat)
    ensures n <= |s|
    ensures AllDigits(s[..n], radix)
    ensures n < |s| ==> DigitValue(s[n]) >= radix
  {
    if |s| == 0 || DigitValue(s[0]) >= radix then 0
    else
      var n := 1 + DigitRun(s[1..], radix);
      assert s[..n] == [s[0]] + s[1..][..n - 1];
      n
  }

  /** Value of a digit string read in base `radix`, most significant digit first. */
  function DigitsValue(s: string, radix: nat): nat
    requires AllDigits(s, radix)
  {
    if |s| == 0 then 0
    else DigitsValue(s[..|s| - 1], radix) * radix + DigitValue(s[|s| - 1])
  }

  /** `u` starts with the `0x` or `0X` prefix that switches `parseInt` to base 16. */
  predicate HexPrefix(u: string) {
    |u| >= 2 && u[0] == '0' && (u[1] == 'x' || u[1] == 'X')
  }

  /** `parseInt(s)`: skip leading whitespace, read an optional sign, switch to base 16 after a
      `0x`/`0X` prefix, then read the longest run of digits; `None` stands for NaN (no digit). */
  function ParseInt(s: string): Option<int> {
    Signed(Text.TrimStart(s))
  }

  /** What `parseInt` reads once the leading whitespace is gone: an optional sign, then the
      unsigned part. */
  function Signed(t: string): Option<int> {
    var negative := |t| > 0 && t[0] == '-';
    var u := if |t| > 0 && (t[0] == '-' || t[0] == '+') then t[1..] else t;
    match Unsigned(u)
    case None => None
    case Some(v) => Some(if negative then -(v as int) else v)
  }

  /** What `parseInt` reads after the sign: base 16 after a `0x` prefix, base 10 otherwise, the
      value of the longest run of digits of that base, `None` when the run is empty. */
  function Unsigned(u: string): Option<nat> {
    var radix := if HexPrefix(u) then 16 else 10;
    var digits := if HexPrefix(u) then u[2..] else u;
    var n := DigitRun(digits, radix);
    if n == 0 then None else Some(DigitsValue(digits[..n], radix))
  }

  /** The digit run of `d + rest` is exactly `d` when `rest` does not start with a digit. */
  lemma {:induction false} DigitRunOf(d: string, rest: string, radix: nat)
    requires AllDigits(d, radix)
    requires rest == [] || DigitValue(rest[0]) >= radix
    ensures DigitRun(d + rest, radix) == |d|
  {
    if |d| > 0 {
      assert (d + rest)[1..] == d[1..] + rest;
      DigitRunOf(d[1..], rest, radix);
    }
  }

  /** A text of leading whitespace, an optional sign, then `u`, decomposed as `parseInt` reads it. */
  predicate SignedText(ws: string, sign: string, u: string) {
    && Text.IsBlank(ws)
    && (sign == "" || sign == "-" || sign == "+")
    && (sign == "" ==> u == [] || (!Text.IsSpace(u[0]) && u[0] != '-' && u[0] != '+'))
  }

  /** `parseInt` strips the whitespace and the sign of such a text and reads what follows. */
  lemma {:induction false} SignedTextBody(ws: string, sign: string, u: string)
    requires SignedText(ws, sign, u)
    ensures ParseInt(ws + sign + u) ==
            match Unsigned(u)
            case None => None
            case Some(v) => Some(if sign == "-" then -(v as int) else v)
  {
    var t := sign + u;
    assert ws + sign + u == ws + t;
    assert t == [] || !Text.IsSpace(t[0]) by {
      if sign != "" {
        assert t[0] == sign[0];
      }
    }
    Text.TrimStartBlank(ws, t);
    SignedOf(sign, u);
  }

  /** The sign, if any, is read off the front and the rest is read unsigned. */
  lemma {:induction false} SignedOf(sign: string, u: string)
    requires sign == "" || sign == "-" || sign == "+"
    requires sign == "" ==> u == [] || (u[0] != '-' && u[0] != '+')
    ensures Signed(sign + u) ==
            match Unsigned(u)
            case None => None
            case Some(v) => Some(if sign == "-" then -(v as int) else v)
  {
    if sign == "" {
      assert sign + u == u;
    } else {
      assert (sign + u)[0] == sign[0];
      assert (sign + u)[1..] == u;
    }
  }

  /** For leading whitespace, an optional sign, then a non-empty run of decimal digits that is not
      a `0x` prefix, followed by anything that is not a digit, `parseInt` gives the signed value of
      the run. */
  lemma {:induction false} ParseIntDecimal(ws: string, sign: string, digits: string, rest: string)
    requires Text.IsBlank(ws) && (sign == "" || sign == "-" || sign == "+")
    requires |digits| > 0 && AllDigits(digits, 10)
    requires rest == [] || DigitValue(rest[0]) >= 10
    requires !HexPrefix(digits + rest)
    ensures ParseInt(ws + sign + (digits + rest)) ==
            Some(if sign == "-" then -(DigitsValue(digits, 10) as int) else DigitsValue(digits, 10))
  {
    var u := digits + rest;
    assert u[0] == digits[0] && DigitValue(digits[0]) < 10;
    UnsignedDecimal(digits, rest);
    ParseIntWith(ws, sign, u, DigitsValue(digits, 10));
  }

  /** A signed text whose unsigned part reads as `v` is parsed as `v` with its sign. */
  lemma {:induction false} ParseIntWith(ws: string, sign: string, u: string, v: nat)
    requires SignedText(ws, sign, u)
    requires Unsigned(u) == Some(v)
    ensures ParseInt(ws + sign + u) == Some(if sign == "-" then -(v as int) else v)
  {
    SignedTextBody(ws, sign, u);
  }

  /** The decimal run at the head of `digits + rest` is read as the value of `digits`. */
  lemma {:induction false} UnsignedDecimal(digits: string, rest: string)
    requires |digits| > 0 && AllDigits(digits, 10)
    requires rest == [] || DigitValue(rest[0]) >= 10
    requires !HexPrefix(digits + rest)
    ensures Unsigned(digits + rest) == Some(DigitsValue(digits, 10))
  {
    DigitRunOf(digits, rest, 10);
    assert (digits + rest)[..|digits|] == digits;
  }

  /** For leading whitespace, an optional sign, then `u`, `parseInt` is NaN exactly when no digit
      of the base in force follows the sign, or the `0x` prefix when `u` starts with one. */
  lemma {:induction false} ParseIntNaN(ws: string, sign: string, u: string)
    requires SignedText(ws, sign, u)
    ensures ParseInt(ws + sign + u).None? <==>
            if HexPrefix(u) then |u| == 2 || DigitValue(u[2]) >= 16
            else u == [] || DigitValue(u[0]) >= 10
  {
    SignedTextBody(ws, sign, u);
  }

  /** Decimal digit of a number below ten. */
  function DigitChar(d: nat): (c: char)
    requires d < 10
    ensures '0' <= c <= '9' && DigitValue(c) == d
  {
    ('0' as int + d) as char
  }

  /** `String(n)` for a natural number: canonical decimal digits whose value is `n`. */
  function DecimalString(n: nat): (s: string)
    ensures |s| > 0
    ensures AllDigits(s, 10)
    ensures |s| > 1 ==> s[0] != '0'
    ensures DigitsValue(s, 10) == n
  {
    if n < 10 then [DigitChar(n)]
    else
      var s := DecimalString(n / 10) + [DigitChar(n % 10)];
      assert s[..|s| - 1] == DecimalString(n / 10);
      s
  }

  /** An id rendered into a query string is read back unchanged by `parseInt`. */
  lemma ParseDecimalString(n: nat)
    ensures ParseInt(DecimalString(n)) == Some(n)
  {
    var s := DecimalString(n);
    assert !Text.IsSpace(s[0]);
    assert Text.TrimStart(s) == s;
    assert AllDigits(s, 10);
    assert DigitRun(s, 10) == |s|;
    assert s[..|s|] == s;
  }

  /** A missing query parameter reaches `parseInt` as the text "null", which is NaN. */
  lemma ParseNull()
    ensures ParseInt("null") == None
  {
    var u := "null";
    assert !Text.IsSpace(u[0]) && !HexPrefix(u) && DigitValue(u[0]) >= 10;
    ParseIntNaN("", "", u);
    assert "" + "" + u == u;
  }
}
