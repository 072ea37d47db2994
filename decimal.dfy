/**
 * Decimal text of integers, as Java's string concatenation renders an `int`
 * (an optional minus sign followed by the digits, no leading zeros), and a
 * reader that recovers the value from such text.
 */
module Decimal {
  import opened Wrappers

  predicate IsDigit(c: char) {
    '0' <= c <= '9'
  }

  predicate AllDigits(s: string) {
    forall i :: 0 <= i < |s| ==> IsDigit(s[i])
  }

  function DigitChar(d: nat): (c: char)
    requires d < 10
    ensures IsDigit(c)
  {
    "0123456789"[d]
  }

  function DigitValue(c: char): (d: nat)
    requires IsDigit(c)
    ensures d < 10
  {
    (c as int) - ('0' as int)
  }

  lemma DigitValueOfChar(d: nat)
    requires d < 10
    ensures DigitValue(DigitChar(d)) == d
  {
  }

  /** The decimal digits of `n`, most significant first. */
  function NatToString(n: nat): (s: string)
    ensures |s| > 0 && AllDigits(s)
    ensures |s| > 1 ==> s[0] != '0'
    decreases n
  {
    if n < 10 then [DigitChar(n)] else NatToString(n / 10) + [DigitChar(n % 10)]
  }

  function IntToString(n: int): string {
    if n < 0 then "-" + NatToString(-n) else NatToString(n)
  }

  /** The value of a string of digits, read most significant first. */
  function DigitsValue(s: string): nat
    requires AllDigits(s)
  {
    if s == [] then 0 else DigitsValue(s[..|s| - 1]) * 10 + DigitValue(s[|s| - 1])
  }

  lemma {:induction false} DigitsValueOfNatToString(n: nat)
    ensures DigitsValue(NatToString(n)) == n
    decreases n
  {
    var s := NatToString(n);
    if n < 10 {
      DigitValueOfChar(n);
    } else {
      DigitsValueOfNatToString(n / 10);
      assert s[..|s| - 1] == NatToString(n / 10);
      DigitValueOfChar(n % 10);
    }
  }

  /** How many characters at the front of `s` are digits. */
  function LeadingDigits(s: string): (k: nat)
    ensures k <= |s|
    ensures AllDigits(s[..k])
    ensures k < |s| ==> !IsDigit(s[k])
  {
    if s == [] || !IsDigit(s[0]) then 0
    else
      var k := 1 + LeadingDigits(s[1..]);
      assert s[..k] == [s[0]] + s[1..][..k - 1];
      k
  }

  lemma {:induction false} LeadingDigitsOfConcat(d: string, rest: string)
    requires AllDigits(d)
    requires rest == [] || !IsDigit(rest[0])
    ensures LeadingDigits(d + rest) == |d|
    decreases |d|
  {
    if d != [] {
      assert (d + rest)[1..] == d[1..] + rest;
      LeadingDigitsOfConcat(d[1..], rest);
    } else {
      assert d + rest == rest;
    }
  }

  /** Reads a non-empty run of digits from the front of `s`; gives the value and what follows. */
  function ReadNat(s: string): Option<(nat, string)> {
    var k := LeadingDigits(s);
    if k == 0 then None else Some((DigitsValue(s[..k]), s[k..]))
  }

  /** Reads an optional minus sign and then a number, as ReadNat does. */
  function ReadInt(s: string): Option<(int, string)> {
    if |s| > 0 && s[0] == '-' then
      match ReadNat(s[1..])
      case None => None
      case Some((v, rest)) => Some((-(v as int), rest))
    else
      match ReadNat(s)
      case None => None
      case Some((v, rest)) => Some((v as int, rest))
  }

  /** A non-empty run of digits, followed by a non-digit, is read back as its value. */
  lemma ReadNatOfDigits(d: string, rest: string)
    requires |d| > 0 && AllDigits(d)
    requires rest == [] || !IsDigit(rest[0])
    ensures ReadNat(d + rest) == Some((DigitsValue(d), rest))
  {
    LeadingDigitsOfConcat(d, rest);
    assert (d + rest)[..|d|] == d;
    assert (d + rest)[|d|..] == rest;
  }

  /** The digits of `m`, followed by a non-digit, are read back as `m`. */
  lemma ReadNatOfNatToString(m: nat, rest: string)
    requires rest == [] || !IsDigit(rest[0])
    ensures ReadNat(NatToString(m) + rest) == Some((m, rest))
  {
    DigitsValueOfNatToString(m);
    ReadNatOfDigits(NatToString(m), rest);
  }

  /** Without a minus sign in front, the number read is the one ReadNat reads. */
  lemma ReadIntWithoutMinus(d: string, v: nat, rest: string)
    requires |d| > 0 && IsDigit(d[0])
    requires ReadNat(d + rest) == Some((v, rest))
    ensures ReadInt(d + rest) == Some((v as int, rest))
  {
    assert (d + rest)[0] == d[0];
  }

  /** Behind a minus sign, the number read is negated. */
  lemma ReadIntBehindMinus(d: string, v: nat, rest: string)
    requires ReadNat(d + rest) == Some((v, rest))
    ensures ReadInt(("-" + d) + rest) == Some((-(v as int), rest))
  {
    assert (("-" + d) + rest)[1..] == d + rest;
  }

  /** Reading back the text of any integer, followed by a non-digit, gives the integer. */
  lemma ReadIntOfIntToString(n: int, rest: string)
    requires rest == [] || !IsDigit(rest[0])
    ensures ReadInt(IntToString(n) + rest) == Some((n, rest))
  {
    if n < 0 {
      ReadNatOfNatToString(-n, rest);
      ReadIntBehindMinus(NatToString(-n), -n, rest);
    } else {
      ReadNatOfNatToString(n, rest);
      ReadIntWithoutMinus(NatToString(n), n, rest);
    }
  }
}
