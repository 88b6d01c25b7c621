/**
 * Decimal numerals as the scripts read and write them: Python's `int()` of a
 * digit string, `str()` of an integer and the `{n:03d}` format.
 */
module Numerals {

  /** An ASCII decimal digit (what `\d` and `str.isdigit` accept here). */
  predicate IsDigit(c: char) {
    '0' <= c <= '9'
  }

  predicate OnlyDigits(s: string) {
    forall k :: 0 <= k < |s| ==> IsDigit(s[k])
  }

  /** `s.isdigit()`: non-empty and made of digits only. */
  predicate AllDigits(s: string) {
    |s| > 0 && OnlyDigits(s)
  }

  /** A run of digits inside a text, cut out, is a numeral. */
  lemma DigitRun(s: string, a: nat, b: nat)
    requires a < b <= |s|
    requires forall k :: a <= k < b ==> IsDigit(s[k])
    ensures AllDigits(s[a..b])
  {
    forall k | 0 <= k < b - a
      ensures IsDigit(s[a..b][k])
    {
      assert s[a..b][k] == s[a + k];
    }
  }

  function DigitValue(c: char): (d: nat)
    requires IsDigit(c)
    ensures d < 10
  {
    (c as int) - ('0' as int)
  }

  function DigitChar(d: nat): (c: char)
    requires d < 10
    ensures IsDigit(c) && DigitValue(c) == d
  {
    (('0' as int) + d) as char
  }

  /** `int(s)` of a digit string. */
  function ParseNat(s: string): nat
    requires OnlyDigits(s)
  {
    if s == [] then 0 else ParseNat(s[..|s| - 1]) * 10 + DigitValue(s[|s| - 1])
  }

  /** `str(n)` for n >= 0: the shortest decimal numeral. */
  function NatToString(n: nat): (r: string)
    ensures AllDigits(r)
    ensures ParseNat(r) == n
    ensures |r| > 1 ==> r[0] != '0'
  {
    if n < 10 then [DigitChar(n)]
    else
      var r := NatToString(n / 10) + [DigitChar(n % 10)];
      assert r[..|r| - 1] == NatToString(n / 10);
      r
  }

  /** Leading zeros do not change the value of a numeral. */
  lemma {:induction false} ParseNatLeadingZero(t: string)
    requires OnlyDigits(t)
    ensures OnlyDigits(['0'] + t) && ParseNat(['0'] + t) == ParseNat(t)
    decreases |t|
  {
    var s := ['0'] + t;
    if t != [] {
      assert s[..|s| - 1] == ['0'] + t[..|t| - 1];
      ParseNatLeadingZero(t[..|t| - 1]);
    }
  }

  /** z zero characters. */
  function Zeros(z: nat): (r: string)
    ensures |r| == z && OnlyDigits(r)
  {
    if z == 0 then [] else ['0'] + Zeros(z - 1)
  }

  lemma {:induction false} ParseNatLeadingZeros(z: nat, t: string)
    requires OnlyDigits(t)
    ensures OnlyDigits(Zeros(z) + t)
    ensures ParseNat(Zeros(z) + t) == ParseNat(t)
    decreases z
  {
    if z > 0 {
      ParseNatLeadingZeros(z - 1, t);
      assert Zeros(z) + t == ['0'] + (Zeros(z - 1) + t);
      ParseNatLeadingZero(Zeros(z - 1) + t);
    } else {
      assert Zeros(z) + t == t;
    }
  }

  /** `f'{n:03d}'`: n in decimal, left-padded with zeros to at least three
      characters. */
  function ZeroPad3(n: nat): (r: string)
    ensures |r| >= 3 && AllDigits(r)
    ensures ParseNat(r) == n
    ensures n >= 100 ==> r == NatToString(n)
  {
    var d := NatToString(n);
    var z := if |d| < 3 then 3 - |d| else 0;
    ParseNatLeadingZeros(z, d);
    assert n >= 100 ==> |d| >= 3 by {
      if |d| < 3 {
        NatToStringSmall(n);
      }
    }
    assert z == 0 ==> Zeros(z) + d == d;
    Zeros(z) + d
  }

  /** Numerals with at most two digits stand for numbers below 100. */
  lemma NatToStringSmall(n: nat)
    requires |NatToString(n)| < 3
    ensures n < 100
  {
    var d := NatToString(n);
    if |d| == 2 {
      assert d[..1] == [d[0]];
    }
  }

  /** `str(v)` for any integer. */
  function IntToString(v: int): (r: string)
    ensures r != []
    ensures v >= 0 ==> r == NatToString(v)
    ensures v < 0 ==> r == "-" + NatToString(-v)
  {
    if v < 0 then "-" + NatToString(-v) else NatToString(v)
  }
}
