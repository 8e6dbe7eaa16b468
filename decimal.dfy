/**
 * Decimal text of integers: what Python's `str(n)` prints for an int and what
 * `int(s)` accepts for a str.  Used for cache keys (`'%s%s' % (prefix, id)`),
 * for `_Cache.incr` on string values and for the integer opcodes of the pickle model.
 */
module Decimal {
  import opened Base

  predicate IsDigit(c: char) {
    '0' <= c <= '9'
  }

  predicate AllDigits(s: string) {
    forall i :: 0 <= i < |s| ==> IsDigit(s[i])
  }

  /** The whitespace Python 2's `int()` strips from both ends of its argument. */
  predicate IsSpace(c: char) {
    c == ' ' || c == '\t' || c == '\n' || c == '\r' || c == 11 as char || c == 12 as char
  }

  function DigitChar(d: nat): (c: char)
    requires d < 10
    ensures IsDigit(c)
  {
    ('0' as int + d) as char
  }

  function DigitValue(c: char): (d: nat)
    requires IsDigit(c)
    ensures d < 10 && DigitChar(d) == c
  {
    c as int - '0' as int
  }

  /** The decimal digits of `n`, most significant first, without leading zeros. */
  function NatToStr(n: nat): (s: string)
    ensures s != [] && AllDigits(s)
    ensures n > 0 ==> s[0] != '0'
    decreases n
  {
    if n < 10 then [DigitChar(n)] else NatToStr(n / 10) + [DigitChar(n % 10)]
  }

  /** The number a string of decimal digits denotes. */
  function DigitsValue(s: string): nat
    requires AllDigits(s)
  {
    if s == [] then 0 else DigitsValue(s[..|s| - 1]) * 10 + DigitValue(s[|s| - 1])
  }

  /** `str(i)` for a Python int. */
  function IntToStr(i: int): (s: string)
    ensures s != [] && (s[0] == '-' || IsDigit(s[0]))
    ensures forall k :: 0 < k < |s| ==> IsDigit(s[k])
  {
    if i < 0 then "-" + NatToStr(-i) else NatToStr(i)
  }

  /** A non-empty run of decimal digits, read as a natural number. */
  function ParseNat(s: string): (r: Option<nat>)
    ensures r.Some? <==> s != [] && AllDigits(s)
  {
    if s != [] && AllDigits(s) then Some(DigitsValue(s)) else None
  }

  function StripLeft(s: string): (r: string)
    ensures |r| <= |s|
    ensures r != [] ==> !IsSpace(r[0])
  {
    if s != [] && IsSpace(s[0]) then StripLeft(s[1..]) else s
  }

  function StripRight(s: string): (r: string)
    ensures |r| <= |s|
    ensures r != [] ==> !IsSpace(r[|r| - 1])
  {
    if s != [] && IsSpace(s[|s| - 1]) then StripRight(s[..|s| - 1]) else s
  }

  /** `s.strip()` for the whitespace `int()` ignores. */
  function Strip(s: string): string {
    StripRight(StripLeft(s))
  }

  /**
   * Python 2's `int(s)` for a str: surrounding whitespace, an optional sign,
   * more whitespace (the sign is read before the digits' own leading
   * whitespace is skipped) and at least one decimal digit; None where `int`
   * raises ValueError.
   */
  function ParseInt(s: string): (r: Option<int>)
  {
    ParseStripped(Strip(s))
  }

  /** `int()` once the surrounding whitespace is gone. */
  function ParseStripped(t: string): (r: Option<int>)
    ensures r.Some? && t != [] && t[0] == '-' ==> r.value <= 0
    ensures r.Some? && t != [] && IsDigit(t[0]) ==> r.value >= 0
  {
    if t == [] then None
    else if t[0] == '-' then
      (match ParseNat(StripLeft(t[1..])) case Some(n) => Some(-(n as int)) case None => None)
    else if t[0] == '+' then
      (match ParseNat(StripLeft(t[1..])) case Some(n) => Some(n) case None => None)
    else
      (match ParseNat(t) case Some(n) => Some(n) case None => None)
  }

  lemma {:induction false} NatToStrValue(n: nat)
    ensures DigitsValue(NatToStr(n)) == n
    decreases n
  {
    if n >= 10 {
      var s := NatToStr(n);
      NatToStrValue(n / 10);
      assert s[..|s| - 1] == NatToStr(n / 10);
    }
  }

  /** Reading back what `str` printed: `int(str(n)) == n` for a natural number. */
  lemma {:induction false} ParseNatRoundTrip(n: nat)
    ensures ParseNat(NatToStr(n)) == Some(n)
  {
    NatToStrValue(n);
  }

  lemma StripUnchanged(s: string)
    requires s != [] && !IsSpace(s[0]) && !IsSpace(s[|s| - 1])
    ensures Strip(s) == s
  {
  }

  /** `int(str(i)) == i` for every Python int. */
  lemma {:induction false} ParseIntRoundTrip(i: int)
    ensures ParseInt(IntToStr(i)) == Some(i)
  {
    if i < 0 {
      ParseNatRoundTrip(-i);
      ParseNegative(NatToStr(-i), -i);
    } else {
      ParseNatRoundTrip(i);
      ParseUnsigned(NatToStr(i), i);
    }
  }

  /** `int()` of a bare run of digits reads it as a natural number. */
  lemma ParseUnsigned(d: string, n: nat)
    requires ParseNat(d) == Some(n)
    ensures ParseInt(d) == Some(n)
  {
    StripUnchanged(d);
  }

  /** `int()` of a minus sign followed by digits negates them. */
  lemma ParseNegative(d: string, n: nat)
    requires ParseNat(d) == Some(n)
    ensures ParseInt("-" + d) == Some(-(n as int))
  {
    var s := "-" + d;
    assert s[|s| - 1] == d[|d| - 1];
    StripUnchanged(s);
    assert s[1..] == d;
    StripLeftUnchanged(d);
    ParseSigned(s, n);
  }

  lemma StripLeftUnchanged(s: string)
    requires s != [] && !IsSpace(s[0])
    ensures StripLeft(s) == s
  {
  }

  /** A stripped text that starts with a sign: the sign, then the digits after any whitespace. */
  lemma ParseSigned(s: string, n: nat)
    requires Strip(s) == s && s != [] && (s[0] == '-' || s[0] == '+')
    requires ParseNat(StripLeft(s[1..])) == Some(n)
    ensures ParseInt(s) == Some(if s[0] == '-' then -(n as int) else n)
  {
    SignedStripped(s, n);
  }

  lemma SignedStripped(t: string, n: nat)
    requires t != [] && (t[0] == '-' || t[0] == '+')
    requires ParseNat(StripLeft(t[1..])) == Some(n)
    ensures ParseStripped(t) == Some(if t[0] == '-' then -(n as int) else n)
  {
  }

  /** Whitespace between the sign and the digits is accepted: `int("- 5") == -5` and `int("+ 7") == 7`. */
  lemma SpaceAfterSign()
    ensures ParseInt("- 5") == Some(-5)
    ensures ParseInt("+ 7") == Some(7)
  {
    SignSpaceDigit('-', '5', 5);
    SignSpaceDigit('+', '7', 7);
  }

  lemma SignSpaceDigit(sign: char, c: char, n: nat)
    requires (sign == '-' || sign == '+') && IsDigit(c) && n == DigitValue(c)
    ensures ParseInt([sign, ' ', c]) == Some(if sign == '-' then -(n as int) else n)
  {
    var s := [sign, ' ', c];
    StripUnchanged(s);
    assert s[1..] == [' ', c];
    StripLeftSpace(c);
    ParseOneDigit(c, n);
    ParseSigned(s, n);
  }

  lemma StripLeftSpace(c: char)
    requires !IsSpace(c)
    ensures StripLeft([' ', c]) == [c]
  {
    assert [' ', c][1..] == [c];
  }

  lemma ParseOneDigit(c: char, n: nat)
    requires IsDigit(c) && n == DigitValue(c)
    ensures ParseNat([c]) == Some(n)
  {
    assert AllDigits([c]);
    assert [c][..0] == [];
    assert DigitsValue([c]) == DigitsValue([]) * 10 + DigitValue(c);
  }

  /** Distinct ints print differently, so `prefix + str(id)` keys never collide. */
  lemma {:induction false} IntToStrInjective(a: int, b: int)
    requires IntToStr(a) == IntToStr(b)
    ensures a == b
  {
    ParseIntRoundTrip(a);
    ParseIntRoundTrip(b);
  }
}
