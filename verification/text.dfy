/** String helpers with the semantics of the JavaScript built-ins the application calls:
    `String.prototype.trim`, `startsWith`, `split(".").pop()` and `toUpperCase` on one character. */
module Text {

  /** The characters `trim` removes: the WhiteSpace and LineTerminator code points of
      ECMAScript (sections 12.2 and 12.3 of ECMA-262), written out by code point. */
  predicate IsSpace(c: char) {
    var n := c as int;
    || (0x09 <= n <= 0x0D)
    || n == 0x20 || n == 0xA0 || n == 0x1680
    || (0x2000 <= n <= 0x200A)
    || n == 0x2028 || n == 0x2029 || n == 0x202F || n == 0x205F
    || n == 0x3000 || n == 0xFEFF
  }

  /** Every character of `s` is whitespace (vacuously true of the empty string). */
  predicate IsBlank(s: string) {
    forall i :: 0 <= i < |s| ==> IsSpace(s[i])
  }

  /** `s` neither starts nor ends with whitespace. */
  predicate IsTrimmed(s: string) {
    s == [] || (!IsSpace(s[0]) && !IsSpace(s[|s| - 1]))
  }

  /** `s` with its leading whitespace removed. */
  function TrimStart(s: string): (r: string)
    ensures |r| <= |s| && r == s[|s| - |r|..]
    ensures IsBlank(s[..|s| - |r|])
    ensures r == [] || !IsSpace(r[0])
  {
    if |s| > 0 && IsSpace(s[0]) then
      var r := TrimStart(s[1..]);
      assert s[..|s| - |r|] == [s[0]] + s[1..][..|s| - 1 - |r|];
      r
    else
      s
  }

  /** `TrimStart` removes a blank prefix and stops at the first character that is not whitespace. */
  lemma {:induction false} TrimStartBlank(ws: string, x: string)
    requires IsBlank(ws)
    requires x == [] || !IsSpace(x[0])
    ensures TrimStart(ws + x) == x
  {
    if |ws| > 0 {
      assert (ws + x)[1..] == ws[1..] + x;
      TrimStartBlank(ws[1..], x);
    }
  }

  /** `s` with its trailing whitespace removed. */
  function TrimEnd(s: string): (r: string)
    ensures |r| <= |s| && r == s[..|r|]
    ensures IsBlank(s[|r|..])
    ensures r == [] || !IsSpace(r[|r| - 1])
  {
    if |s| > 0 && IsSpace(s[|s| - 1]) then
      var r := TrimEnd(s[..|s| - 1]);
      assert s[|r|..] == s[..|s| - 1][|r|..] + [s[|s| - 1]];
      r
    else
      s
  }

  /** Number of leading whitespace characters of `s`. */
  function Leading(s: string): nat {
    |s| - |TrimStart(s)|
  }

  /** `String.prototype.trim`: the result is the slice of `s` left after removing exactly its
      leading and its trailing whitespace; it is empty iff `s` is blank. */
  function Trim(s: string): (r: string)
    ensures Leading(s) + |r| <= |s|
    ensures r == s[Leading(s)..Leading(s) + |r|]
    ensures IsBlank(s[..Leading(s)]) && IsBlank(s[Leading(s) + |r|..])
    ensures IsTrimmed(r)
    ensures r == [] <==> IsBlank(s)
  {
    var t := TrimStart(s);
    var r := TrimEnd(t);
    TrimmedSlice(s, t, r);
    r
  }

  /** Cutting whitespace off the front of `s` (giving `t`) and then off the back of `t` (giving
      `r`) leaves a trimmed slice of `s`, framed by whitespace, empty exactly when `s` is blank. */
  lemma TrimmedSlice(s: string, t: string, r: string)
    requires |t| <= |s| && t == s[|s| - |t|..] && IsBlank(s[..|s| - |t|]) && (t == [] || !IsSpace(t[0]))
    requires |r| <= |t| && r == t[..|r|] && IsBlank(t[|r|..]) && (r == [] || !IsSpace(r[|r| - 1]))
    ensures var n := |s| - |t|;
      && r == s[n..n + |r|]
      && IsBlank(s[n + |r|..])
      && IsTrimmed(r)
      && (r == [] <==> IsBlank(s))
  {
    SuffixPrefix(s, t, r);
    assert r != [] ==> r[0] == t[0];
    EmptyIffBlank(s, |s| - |t|, r);
  }

  /** A slice `r` of `s` framed by whitespace on both sides and not starting with whitespace is
      empty exactly when `s` is blank. */
  lemma EmptyIffBlank(s: string, n: nat, r: string)
    requires n + |r| <= |s| && r == s[n..n + |r|]
    requires IsBlank(s[..n]) && IsBlank(s[n + |r|..])
    requires r == [] || !IsSpace(r[0])
    ensures r == [] <==> IsBlank(s)
  {
    if r == [] {
      forall i | 0 <= i < |s|
        ensures IsSpace(s[i])
      {
        if i < n {
          assert s[i] == s[..n][i];
        } else {
          assert s[i] == s[n..][i - n];
        }
      }
    } else {
      assert s[n] == r[0];
    }
  }

  /** When `t` is a suffix of `s` and `r` a prefix of `t`, `r` is the slice of `s` after the `n`
      characters `t` leaves out, and what follows `r` in `t` is what follows it in `s`. */
  lemma SuffixPrefix(s: string, t: string, r: string)
    requires |t| <= |s| && t == s[|s| - |t|..]
    requires |r| <= |t| && r == t[..|r|]
    ensures var n := |s| - |t|;
      && r == s[n..n + |r|]
      && t[|r|..] == s[n + |r|..]
      && s == s[..n] + t
  {
  }

  /** Trimming already trimmed text changes nothing. */
  lemma TrimTrimmed(s: string)
    requires IsTrimmed(s)
    ensures Trim(s) == s
  {
    assert TrimStart(s) == s;
  }

  /** `trim` is idempotent. */
  lemma TrimIdempotent(s: string)
    ensures Trim(Trim(s)) == Trim(s)
  {
    TrimTrimmed(Trim(s));
  }

  /** `s.startsWith(prefix)`. */
  predicate StartsWith(s: string, prefix: string) {
    |prefix| <= |s| && s[..|prefix|] == prefix
  }

  /** `s.split(sep).pop()`: the longest suffix of `s` that does not contain `sep`,
      which is all of `s` when `sep` does not occur in it. */
  function LastSegment(s: string, sep: char): (r: string)
    ensures |r| <= |s| && r == s[|s| - |r|..]
    ensures sep !in r
    ensures |r| < |s| ==> s[|s| - |r| - 1] == sep
  {
    if |s| == 0 then []
    else if s[|s| - 1] == sep then []
    else
      var r := LastSegment(s[..|s| - 1], sep);
      r + [s[|s| - 1]]
  }

  /** The segment after the last separator is recovered from `prefix + sep + segment`. */
  lemma {:induction false} LastSegmentOfJoin(prefix: string, sep: char, segment: string)
    requires sep !in segment
    ensures LastSegment(prefix + [sep] + segment, sep) == segment
  {
    var s := prefix + [sep] + segment;
    if segment != [] {
      var init := segment[..|segment| - 1];
      assert s[..|s| - 1] == prefix + [sep] + init;
      LastSegmentOfJoin(prefix, sep, init);
      assert segment == init + [segment[|segment| - 1]];
    }
  }

  /** A name without any separator is its own last segment. */
  lemma LastSegmentWithoutSeparator(s: string, sep: char)
    requires sep !in s
    ensures LastSegment(s, sep) == s
  {
  }

  /** `toUpperCase` restricted to the ASCII letters a-z. */
  function UpperAscii(c: char): (r: char)
    ensures 'a' <= c <= 'z' ==> 'A' <= r <= 'Z' && r as int == c as int - 32
    ensures !('a' <= c <= 'z') ==> r == c
  {
    if 'a' <= c <= 'z' then (c as int - 32) as char else c
  }
}
