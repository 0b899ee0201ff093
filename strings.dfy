/** The handful of JavaScript string operations the modelled code relies on:
    `trim`, `includes`, `indexOf`, ASCII case mapping, `replace` of a single
    character, and decimal rendering and parsing of numbers. */
module Strings {

  /** ECMAScript WhiteSpace and LineTerminator code points, the characters
      `String.prototype.trim` removes from both ends. */
  predicate IsWhitespace(c: char) {
    || c == '\t' || c == '\n' || c == '\U{000B}' || c == '\U{000C}' || c == '\r'
    || c == ' ' || c == '\U{00A0}' || c == '\U{1680}'
    || ('\U{2000}' <= c <= '\U{200A}')
    || c == '\U{2028}' || c == '\U{2029}' || c == '\U{202F}' || c == '\U{205F}'
    || c == '\U{3000}' || c == '\U{FEFF}'
  }

  predicate IsBlank(s: string) {
    forall i :: 0 <= i < |s| ==> IsWhitespace(s[i])
  }

  /** `String.prototype.trimStart`: the suffix left after the leading blanks. */
  function TrimStart(s: string): (r: string)
    ensures |r| <= |s| && r == s[|s| - |r|..]
    ensures IsBlank(s[..|s| - |r|])
    ensures r == [] || !IsWhitespace(r[0])
  {
    if |s| > 0 && IsWhitespace(s[0]) then
      var r := TrimStart(s[1..]);
      TrimStartStep(s, r);
      r
    else
      s
  }

  /** A leading blank in front of the text `TrimStart` has already trimmed
      keeps the same result a suffix of the longer text. */
  lemma TrimStartStep(s: string, r: string)
    requires |s| > 0 && IsWhitespace(s[0])
    requires |r| <= |s| - 1 && r == s[1..][|s| - 1 - |r|..]
    requires IsBlank(s[1..][..|s| - 1 - |r|])
    ensures r == s[|s| - |r|..]
    ensures IsBlank(s[..|s| - |r|])
  {
    var k := |s| - |r|;
    assert s[1..][|s| - 1 - |r|..] == s[k..];
    forall i | 0 <= i < k
      ensures IsWhitespace(s[..k][i])
    {
      if i > 0 {
        assert s[..k][i] == s[1..][..k - 1][i - 1];
      }
    }
  }

  /** `String.prototype.trimEnd`: the prefix left before the trailing blanks. */
  function TrimEnd(s: string): (r: string)
    ensures |r| <= |s| && r == s[..|r|]
    ensures IsBlank(s[|r|..])
    ensures r == [] || !IsWhitespace(r[|r| - 1])
  {
    if |s| > 0 && IsWhitespace(s[|s| - 1]) then
      var r := TrimEnd(s[..|s| - 1]);
      assert s[|r|..] == s[..|s| - 1][|r|..] + [s[|s| - 1]];
      r
    else
      s
  }

  /** Where the trimmed text starts inside the original. */
  function TrimOffset(s: string): nat
  {
    |s| - |TrimStart(s)|
  }

  /** `String.prototype.trim`: the blanks on both ends removed, nothing else
      touched; the result is empty exactly when the input is blank. */
  function Trim(s: string): (r: string)
    ensures TrimOffset(s) + |r| <= |s| && r == s[TrimOffset(s)..TrimOffset(s) + |r|]
    ensures IsBlank(s[..TrimOffset(s)]) && IsBlank(s[TrimOffset(s) + |r|..])
    ensures r == [] || (!IsWhitespace(r[0]) && !IsWhitespace(r[|r| - 1]))
    ensures r == [] <==> IsBlank(s)
  {
    var t := TrimStart(s);
    var r := TrimEnd(t);
    TrimSlices(s, |s| - |t|, t, r);
    TrimEmptyIffBlank(s, |s| - |t|, t, r);
    r
  }

  lemma TrimSlices(s: string, off: nat, t: string, r: string)
    requires off <= |s| && t == s[off..] && |r| <= |t| && r == t[..|r|]
    requires IsBlank(t[|r|..])
    ensures off + |r| <= |s| && r == s[off..off + |r|]
    ensures IsBlank(s[off + |r|..])
  {
    assert s[off + |r|..] == t[|r|..];
  }

  lemma TrimEmptyIffBlank(s: string, off: nat, t: string, r: string)
    requires off <= |s| && t == s[off..] && IsBlank(s[..off])
    requires t == [] || !IsWhitespace(t[0])
    requires |r| <= |t| && r == t[..|r|] && IsBlank(t[|r|..])
    ensures r == [] <==> IsBlank(s)
  {
    if r == [] {
      assert t[|r|..] == t;
      assert s == s[..off] + t;
      BlankConcat(s[..off], t);
    }
  }

  lemma BlankConcat(a: string, b: string)
    requires IsBlank(a) && IsBlank(b)
    ensures IsBlank(a + b)
  {
  }

  /** The trim of `s` is a stretch of `s` with only blanks before and after
      it, and it neither starts nor ends with a blank. */
  predicate IsTrimOf(s: string, r: string) {
    && (exists i :: 0 <= i <= |s| - |r| && r == s[i..i + |r|] && IsBlank(s[..i]) && IsBlank(s[i + |r|..]))
    && (r == [] || (!IsWhitespace(r[0]) && !IsWhitespace(r[|r| - 1])))
  }

  lemma TrimIsTrimOf(s: string)
    ensures IsTrimOf(s, Trim(s))
  {
    var r := Trim(s);
    var i := TrimOffset(s);
    assert r == s[i..i + |r|] && IsBlank(s[..i]) && IsBlank(s[i + |r|..]);
  }

  /** A string with no blank at either end is its own trim. */
  lemma TrimmedIsFixed(s: string)
    requires s == [] || (!IsWhitespace(s[0]) && !IsWhitespace(s[|s| - 1]))
    ensures Trim(s) == s
  {
  }

  lemma TrimIdempotent(s: string)
    ensures Trim(Trim(s)) == Trim(s)
  {
    TrimmedIsFixed(Trim(s));
  }

  /** Blanks in front of a text that starts with a non-blank are what
      `trimStart` removes. */
  lemma {:induction false} TrimStartAfterBlank(a: string, x: string)
    requires IsBlank(a) && x != [] && !IsWhitespace(x[0])
    ensures TrimStart(a + x) == x
  {
    if a != [] {
      assert (a + x)[1..] == a[1..] + x;
      TrimStartAfterBlank(a[1..], x);
    } else {
      assert a + x == x;
    }
  }

  /** Blanks behind a text that ends with a non-blank are what `trimEnd`
      removes. */
  lemma {:induction false} TrimEndBeforeBlank(x: string, b: string)
    requires IsBlank(b) && x != [] && !IsWhitespace(x[|x| - 1])
    ensures TrimEnd(x + b) == x
  {
    if b != [] {
      assert (x + b)[..|x + b| - 1] == x + b[..|b| - 1];
      TrimEndBeforeBlank(x, b[..|b| - 1]);
    } else {
      assert x + b == x;
    }
  }

  /** Trimming a text with no blank at either end, surrounded by blanks,
      gives the text back. */
  lemma TrimAround(a: string, p: string, b: string)
    requires p != [] && !IsWhitespace(p[0]) && !IsWhitespace(p[|p| - 1])
    requires IsBlank(a) && IsBlank(b)
    ensures Trim(a + p + b) == p
  {
    assert a + p + b == a + (p + b);
    TrimStartAfterBlank(a, p + b);
    TrimEndBeforeBlank(p, b);
  }

  /** `String.prototype.includes`. */
  predicate Contains(s: string, sub: string) {
    exists i :: 0 <= i <= |s| - |sub| && OccursAt(s, sub, i)
  }

  predicate OccursAt(s: string, sub: string, i: int) {
    0 <= i <= |s| - |sub| && s[i..i + |sub|] == sub
  }

  lemma ContainsMiddle(a: string, sub: string, b: string)
    ensures Contains(a + sub + b, sub)
  {
    var s := a + sub + b;
    assert OccursAt(s, sub, |a|);
  }

  /** `String.prototype.indexOf` for one character: the first position, or -1. */
  function IndexOf(s: string, c: char): (r: int)
    ensures r == -1 <==> c !in s
    ensures r != -1 ==> 0 <= r < |s| && s[r] == c && c !in s[..r]
  {
    if |s| == 0 then -1
    else if s[0] == c then 0
    else
      var k := IndexOf(s[1..], c);
      if k == -1 then -1
      else
        assert s[..k + 1] == [s[0]] + s[1..][..k];
        k + 1
  }

  function ToLowerChar(c: char): char {
    if 'A' <= c <= 'Z' then (c as int + 32) as char else c
  }

  function ToUpperChar(c: char): char {
    if 'a' <= c <= 'z' then (c as int - 32) as char else c
  }

  /** `String.prototype.toLowerCase`, for the ASCII letters. */
  function ToLower(s: string): (r: string)
    ensures |r| == |s| && forall i :: 0 <= i < |s| ==> r[i] == ToLowerChar(s[i])
  {
    seq(|s|, i requires 0 <= i < |s| => ToLowerChar(s[i]))
  }

  /** `String.prototype.toUpperCase`, for the ASCII letters. */
  function ToUpper(s: string): (r: string)
    ensures |r| == |s| && forall i :: 0 <= i < |s| ==> r[i] == ToUpperChar(s[i])
  {
    seq(|s|, i requires 0 <= i < |s| => ToUpperChar(s[i]))
  }

  /** `s.replace(/from/g, to)` for a single character. */
  function ReplaceChar(s: string, from: char, to: char): (r: string)
    ensures |r| == |s|
    ensures forall i :: 0 <= i < |s| ==> r[i] == (if s[i] == from then to else s[i])
  {
    seq(|s|, i requires 0 <= i < |s| => if s[i] == from then to else s[i])
  }

  predicate IsDigit(c: char) {
    '0' <= c <= '9'
  }

  predicate IsDigits(s: string) {
    forall i :: 0 <= i < |s| ==> IsDigit(s[i])
  }

  function DigitValue(c: char): nat
    requires IsDigit(c)
  {
    c as int - '0' as int
  }

  function DigitChar(d: nat): (c: char)
    requires d < 10
    ensures IsDigit(c) && DigitValue(c) == d
  {
    ('0' as int + d) as char
  }

  /** The decimal text JavaScript prints for a non-negative integer. */
  function NatToString(n: nat): (r: string)
    ensures |r| >= 1 && IsDigits(r)
    ensures |r| > 1 ==> r[0] != '0'
  {
    if n < 10 then [DigitChar(n)] else NatToString(n / 10) + [DigitChar(n % 10)]
  }

  function IntToString(n: int): string {
    if n < 0 then "-" + NatToString(-n) else NatToString(n)
  }

  /** The value of a string of decimal digits (`Number` on such a string). */
  function ParseDecimal(s: string): nat
    requires IsDigits(s)
  {
    if s == [] then 0 else ParseDecimal(s[..|s| - 1]) * 10 + DigitValue(s[|s| - 1])
  }

  /** Printing a number and reading it back gives the number. */
  lemma {:induction false} ParseNatToString(n: nat)
    ensures ParseDecimal(NatToString(n)) == n
  {
    if n >= 10 {
      var s := NatToString(n);
      assert s[..|s| - 1] == NatToString(n / 10);
      ParseNatToString(n / 10);
    }
  }

  /** Different numbers print differently. */
  lemma NatToStringInjective(m: nat, n: nat)
    requires NatToString(m) == NatToString(n)
    ensures m == n
  {
    ParseNatToString(m);
    ParseNatToString(n);
  }
}
