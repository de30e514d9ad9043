/** Decimal text of integers, as JavaScript's template literals render an integer
    (`${n}`), together with the parser that inverts it. */
module Decimal {

  predicate IsDigit(c: char) {
    '0' <= c <= '9'
  }

  predicate AllDigits(s: string) {
    forall i :: 0 <= i < |s| ==> IsDigit(s[i])
  }

  function DigitChar(d: nat): (c: char)
    requires d < 10
    ensures IsDigit(c)
  {
    ('0' as int + d) as char
  }

  function DigitValue(c: char): (d: nat)
    requires IsDigit(c)
    ensures d < 10
  {
    c as int - '0' as int
  }

  /** Canonical decimal text of a natural number: digits only, no leading zero. */
  function NatToString(n: nat): (r: string)
    ensures 1 <= |r|
    ensures AllDigits(r)
    ensures 1 < |r| ==> r[0] != '0'
    ensures n < 10 <==> |r| == 1
  {
    if n < 10 then [DigitChar(n)]
    else NatToString(n / 10) + [DigitChar(n % 10)]
  }

  /** Decimal text of an integer, with a leading minus sign when negative. */
  function IntToString(i: int): (r: string)
    ensures 1 <= |r|
    ensures i < 0 <==> r[0] == '-'
    ensures 0 <= i ==> AllDigits(r)
    ensures forall k :: 0 < k < |r| ==> IsDigit(r[k])
  {
    if i < 0 then "-" + NatToString(-i) else NatToString(i)
  }

  /** The value of a string of decimal digits. */
  function ParseDigits(s: string): nat
    requires AllDigits(s)
  {
    if |s| == 0 then 0
    else ParseDigits(s[..|s| - 1]) * 10 + DigitValue(s[|s| - 1])
  }

  /** Parsing the rendered text gives back the number. */
  lemma {:induction false} ParseNatToString(n: nat)
    ensures ParseDigits(NatToString(n)) == n
  {
    var r := NatToString(n);
    if n >= 10 {
      assert r[..|r| - 1] == NatToString(n / 10);
      ParseNatToString(n / 10);
    }
  }

  /** Different numbers are rendered differently. */
  lemma NatToStringInjective(a: nat, b: nat)
    requires NatToString(a) == NatToString(b)
    ensures a == b
  {
    ParseNatToString(a);
    ParseNatToString(b);
  }

  /** Different integers are rendered differently. */
  lemma IntToStringInjective(a: int, b: int)
    requires IntToString(a) == IntToString(b)
    ensures a == b
  {
    if a < 0 && b < 0 {
      assert IntToString(a)[1..] == NatToString(-a);
      assert IntToString(b)[1..] == NatToString(-b);
      NatToStringInjective(-a, -b);
    } else if 0 <= a && 0 <= b {
      NatToStringInjective(a, b);
    }
  }

  /** The decimal text of an integer reads back as that integer: its digits alone, or a
      minus sign followed by the digits of its magnitude. */
  lemma IntToStringReads(i: int)
    ensures 0 <= i ==> AllDigits(IntToString(i)) && ParseDigits(IntToString(i)) == i
    ensures i < 0 ==> AllDigits(IntToString(i)[1..]) && ParseDigits(IntToString(i)[1..]) == -i
  {
    if 0 <= i {
      ParseNatToString(i);
    } else {
      assert IntToString(i)[1..] == NatToString(-i);
      ParseNatToString(-i);
    }
  }
}
