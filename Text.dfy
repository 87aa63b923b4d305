/**
 * The string operations of the browser runtime that the wizard relies on:
 * String.prototype.trim, indexOf, toUpperCase, the length of a string and
 * the decimal form of a number.
 */
module Text {

  /** The WhiteSpace and LineTerminator code points of ECMAScript, which trim() removes. */
  predicate IsWhitespace(c: char) {
    c == '\t' || c == '\n' || c == '\U{B}' || c == '\U{C}' || c == '\r' || c == ' '
    || c == '\U{A0}' || c == '\U{1680}' || ('\U{2000}' <= c <= '\U{200A}')
    || c == '\U{2028}' || c == '\U{2029}' || c == '\U{202F}' || c == '\U{205F}'
    || c == '\U{3000}' || c == '\U{FEFF}'
  }

  /** The string holds at least one character that trim() keeps. */
  predicate HasText(s: string) {
    exists k :: 0 <= k < |s| && !IsWhitespace(s[k])
  }

  /** Drops the leading whitespace: exactly the whitespace prefix goes, the rest is kept. */
  function TrimStart(s: string): (r: string)
    ensures |r| <= |s| && r == s[|s| - |r|..]
    ensures forall k :: 0 <= k < |s| - |r| ==> IsWhitespace(s[k])
    ensures r != [] ==> !IsWhitespace(r[0])
  {
    if s != [] && IsWhitespace(s[0]) then TrimStart(s[1..]) else s
  }

  /** Drops the trailing whitespace: exactly the whitespace suffix goes, the rest is kept. */
  function TrimEnd(s: string): (r: string)
    ensures |r| <= |s| && r == s[..|r|]
    ensures forall k :: |r| <= k < |s| ==> IsWhitespace(s[k])
    ensures r != [] ==> !IsWhitespace(r[|r| - 1])
  {
    if s != [] && IsWhitespace(s[|s| - 1]) then TrimEnd(s[..|s| - 1]) else s
  }

  /** String.prototype.trim: whitespace is dropped at both ends and nowhere else. */
  function Trim(s: string): (r: string)
    ensures |r| <= |s|
    ensures r != [] ==> !IsWhitespace(r[0]) && !IsWhitespace(r[|r| - 1])
    ensures var i := |s| - |TrimStart(s)|;
      i + |r| <= |s| && r == s[i..i + |r|]
      && (forall k :: 0 <= k < i ==> IsWhitespace(s[k]))
      && (forall k :: i + |r| <= k < |s| ==> IsWhitespace(s[k]))
  {
    var a := TrimStart(s);
    var r := TrimEnd(a);
    assert r != [] ==> r[0] == a[0];
    r
  }

  /**
   * The length of a string as JavaScript counts it, in UTF-16 code units: a
   * character outside the Basic Multilingual Plane takes two.
   */
  function Utf16Length(s: string): (n: nat)
    ensures |s| <= n <= 2 * |s|
    ensures (forall k :: 0 <= k < |s| ==> s[k] as int <= 0xFFFF) ==> n == |s|
  {
    if s == [] then 0 else Utf16Length(s[..|s| - 1]) + (if s[|s| - 1] as int > 0xFFFF then 2 else 1)
  }

  /** One character takes two UTF-16 units exactly when it lies outside the Basic Multilingual Plane. */
  lemma Utf16LengthOfChar(c: char)
    ensures Utf16Length([c]) == if c as int > 0xFFFF then 2 else 1
  {
    assert [c][..0] == [];
  }

  /** The UTF-16 length of a concatenation is the sum of the lengths. */
  lemma {:induction false} Utf16LengthAppend(a: string, b: string)
    ensures Utf16Length(a + b) == Utf16Length(a) + Utf16Length(b)
    decreases |b|
  {
    if b == [] {
      assert a + b == a;
    } else {
      var b' := b[..|b| - 1];
      assert (a + b)[..|a + b| - 1] == a + b';
      Utf16LengthAppend(a, b');
    }
  }

  /** trim() gives the empty string exactly when the input is all whitespace. */
  lemma TrimEmptyIff(s: string)
    ensures Trim(s) == [] <==> !HasText(s)
  {
    var a := TrimStart(s);
    if Trim(s) != [] {
      var r := Trim(s);
      assert r[0] == a[0] == s[|s| - |a|];
    }
  }

  /** A trimmed string neither starts nor ends with whitespace, so trimming again changes nothing. */
  lemma {:induction false} TrimIdempotent(s: string)
    ensures Trim(Trim(s)) == Trim(s)
  {
    var r := Trim(s);
    if r != [] {
      assert TrimStart(r) == r;
      assert TrimEnd(r) == r;
    }
  }

  /** The position of the first occurrence of pat in s at or after `from`, or -1. */
  predicate OccursAt(s: string, pat: string, i: nat) {
    i + |pat| <= |s| && s[i..i + |pat|] == pat
  }

  function IndexFrom(s: string, pat: string, from: nat): (r: int)
    requires from <= |s|
    ensures r == -1 || from <= r <= |s|
    ensures r >= 0 ==> OccursAt(s, pat, r)
    ensures forall j :: from <= j < (if r < 0 then |s| + 1 else r) ==> !OccursAt(s, pat, j)
    decreases |s| - from
  {
    if OccursAt(s, pat, from) then from
    else if from == |s| then -1
    else IndexFrom(s, pat, from + 1)
  }

  /** String.prototype.indexOf: the first position at which pat occurs, or -1. */
  function IndexOf(s: string, pat: string): (r: int)
    ensures r == -1 || 0 <= r <= |s|
    ensures r >= 0 ==> OccursAt(s, pat, r)
    ensures r >= 0 ==> forall j :: 0 <= j < r ==> !OccursAt(s, pat, j)
    ensures r < 0 <==> forall j :: 0 <= j <= |s| ==> !OccursAt(s, pat, j)
  {
    IndexFrom(s, pat, 0)
  }

  predicate IsLowerAscii(c: char) {
    'a' <= c <= 'z'
  }

  function UpperChar(c: char): char {
    if IsLowerAscii(c) then (c as int - 32) as char else c
  }

  /** Two strings whose characters lie in the same planes, position by position, have the same UTF-16 length. */
  lemma {:induction false} Utf16LengthByPlanes(s: string, t: string)
    requires |s| == |t|
    requires forall k :: 0 <= k < |s| ==> (s[k] as int > 0xFFFF <==> t[k] as int > 0xFFFF)
    ensures Utf16Length(s) == Utf16Length(t)
  {
    if s != [] {
      Utf16LengthByPlanes(s[..|s| - 1], t[..|t| - 1]);
    }
  }

  /** String.prototype.toUpperCase on the ASCII letters; every other character is kept. */
  function Upper(s: string): (r: string)
    ensures |r| == |s|
    ensures forall k :: 0 <= k < |r| ==> !IsLowerAscii(r[k])
    ensures forall k :: 0 <= k < |s| && IsLowerAscii(s[k]) ==> r[k] as int == s[k] as int - 32
    ensures forall k :: 0 <= k < |s| && !IsLowerAscii(s[k]) ==> r[k] == s[k]
  {
    seq(|s|, k requires 0 <= k < |s| => UpperChar(s[k]))
  }

  predicate IsDigit(c: char) {
    '0' <= c <= '9'
  }

  predicate IsDigits(s: string) {
    forall k :: 0 <= k < |s| ==> IsDigit(s[k])
  }

  function Digit(d: nat): char
    requires d < 10
  {
    ('0' as int + d) as char
  }

  /** The decimal form of a natural number, as String(n) writes it: no sign, no leading zero. */
  function NatText(n: nat): (r: string)
    ensures r != [] && IsDigits(r)
    ensures |r| > 1 ==> r[0] != '0'
  {
    if n < 10 then [Digit(n)] else NatText(n / 10) + [Digit(n % 10)]
  }

  /**
   * String(i) for an integer i: a minus sign exactly for a negative i,
   * followed by the decimal digits of its magnitude.
   */
  function IntText(i: int): (r: string)
    ensures r != [] && !IsWhitespace(r[0])
    ensures i < 0 <==> r[0] == '-'
    ensures i >= 0 ==> IsDigits(r) && DigitsValue(r) == i
    ensures i < 0 ==> IsDigits(r[1..]) && r[1..] != [] && DigitsValue(r[1..]) == -i
    ensures i >= 0 && |r| > 1 ==> r[0] != '0'
    ensures i < 0 && |r| > 2 ==> r[1] != '0'
  {
    if i < 0 then
      NatTextRoundTrip(-i);
      var r := "-" + NatText(-i);
      assert r[1..] == NatText(-i);
      r
    else
      NatTextRoundTrip(i);
      NatText(i)
  }

  /** The number a string of decimal digits denotes: the partner of NatText. */
  function DigitsValue(s: string): nat
    requires IsDigits(s)
  {
    if s == [] then 0 else 10 * DigitsValue(s[..|s| - 1]) + (s[|s| - 1] as int - '0' as int)
  }

  lemma {:induction false} NatTextRoundTrip(n: nat)
    ensures DigitsValue(NatText(n)) == n
  {
    if n >= 10 {
      NatTextRoundTrip(n / 10);
      var r := NatText(n);
      assert r[..|r| - 1] == NatText(n / 10);
    }
  }

  /** The text of a number is never all whitespace, so trim() keeps it. */
  lemma IntTextHasText(i: int)
    ensures HasText(IntText(i))
  {
    assert !IsWhitespace(IntText(i)[0]);
  }
}
