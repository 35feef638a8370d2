/** Decimal text of whole numbers: how Swift's string interpolation writes a
    non-negative `Int` (used by the counter label and the question prompt), and
    the digit-string reading that the rating parser and the inverse lemmas use. */
module Decimal {

  predicate IsDigit(c: char) {
    '0' <= c <= '9'
  }

  predicate AllDigits(s: string) {
    forall i :: 0 <= i < |s| ==> IsDigit(s[i])
  }

  function DigitChar(d: nat): (c: char)
    requires d < 10
    ensures IsDigit(c) && c as int - '0' as int == d
  {
    ('0' as int + d) as char
  }

  function DigitValue(c: char): (d: nat)
    requires IsDigit(c)
    ensures d < 10 && DigitChar(d) == c
  {
    c as int - '0' as int
  }

  /** The decimal numeral of `n`: at least one digit, no leading zero. */
  function NatToString(n: nat): (s: string)
    ensures |s| >= 1 && AllDigits(s)
    ensures |s| > 1 ==> s[0] != '0'
    ensures n < 10 <==> |s| == 1
    decreases n
  {
    if n < 10 then [DigitChar(n)] else NatToString(n / 10) + [DigitChar(n % 10)]
  }

  /** The value of a string of decimal digits, most significant first. */
  function ParseNat(s: string): nat
    requires AllDigits(s)
    decreases |s|
  {
    if s == [] then 0 else ParseNat(s[..|s| - 1]) * 10 + DigitValue(s[|s| - 1])
  }

  function Pow10(n: nat): (p: nat)
    ensures p >= 1
  {
    if n == 0 then 1 else 10 * Pow10(n - 1)
  }

  /** Reading a digit string from the front: the first digit weighs
      `10^(|s|-1)`, and the rest is read as its own number. */
  lemma {:induction false} ParseNatFront(s: string)
    requires |s| >= 1 && AllDigits(s)
    ensures ParseNat(s) == DigitValue(s[0]) * Pow10(|s| - 1) + ParseNat(s[1..])
    decreases |s|
  {
    if |s| == 1 {
      assert s[1..] == [];
    } else {
      var front := s[..|s| - 1];
      var d := DigitValue(s[0]);
      ParseNatFront(front);
      assert front[0] == s[0];
      assert front[1..] == s[1..][..|s[1..]| - 1];
      assert s[1..][|s[1..]| - 1] == s[|s| - 1];
      assert ParseNat(s[1..]) == ParseNat(front[1..]) * 10 + DigitValue(s[|s| - 1]);
      assert Pow10(|s| - 1) == Pow10(|s| - 2) * 10;
      Regroup(d, Pow10(|s| - 2), ParseNat(front[1..]), DigitValue(s[|s| - 1]));
    }
  }

  /** `r` with its decimal point moved `n` places to the right, `r * 10^n`,
      written as repeated multiplication by ten. */
  function TimesPow10(r: real, n: nat): real {
    if n == 0 then r else 10.0 * TimesPow10(r, n - 1)
  }

  lemma {:induction false} TimesPow10Sum(x: real, y: real, n: nat)
    ensures TimesPow10(x + y, n) == TimesPow10(x, n) + TimesPow10(y, n)
  {
    if n > 0 { TimesPow10Sum(x, y, n - 1); }
  }

  lemma {:induction false} TimesPow10Tenth(x: real, n: nat)
    requires n >= 1
    ensures TimesPow10(x / 10.0, n) == TimesPow10(x, n - 1)
  {
    if n > 1 { TimesPow10Tenth(x, n - 1); }
  }

  lemma {:induction false} TimesPow10Nat(d: nat, n: nat)
    ensures TimesPow10(d as real, n) == (d * Pow10(n)) as real
  {
    if n > 0 {
      TimesPow10Nat(d, n - 1);
      Regroup(d, Pow10(n - 1), 0, 0);
      assert d * Pow10(n) == 10 * (d * Pow10(n - 1));
    }
  }

  lemma Regroup(d: int, p: int, a: int, last: int)
    ensures (d * p + a) * 10 + last == d * (p * 10) + (a * 10 + last)
  {
  }

  /** Reading the numeral back gives the number: `NatToString` is injective and
      `ParseNat` is its inverse. */
  lemma {:induction false} ParseNatToString(n: nat)
    ensures ParseNat(NatToString(n)) == n
  {
    if n >= 10 {
      var s := NatToString(n / 10);
      var t := s + [DigitChar(n % 10)];
      assert t[..|t| - 1] == s;
      ParseNatToString(n / 10);
    }
  }

  /** A numeral as `NatToString` writes it: digits only, at least one, and no
      leading zero unless it is the numeral "0" itself. */
  predicate IsNumeral(s: string) {
    |s| >= 1 && AllDigits(s) && (|s| > 1 ==> s[0] != '0')
  }

  lemma {:induction false} ParseNatPositive(s: string)
    requires |s| >= 1 && AllDigits(s) && s[0] != '0'
    ensures ParseNat(s) > 0
    decreases |s|
  {
    if |s| > 1 {
      ParseNatPositive(s[..|s| - 1]);
    }
  }

  /** The other direction of the round trip: every numeral is the one
      `NatToString` writes for its value, so a numeral has exactly one value
      and a value exactly one numeral. */
  lemma {:induction false} NatToStringParseNat(s: string)
    requires IsNumeral(s)
    ensures NatToString(ParseNat(s)) == s
    decreases |s|
  {
    if |s| > 1 {
      var front := s[..|s| - 1];
      var d := DigitValue(s[|s| - 1]);
      ParseNatPositive(front);
      NatToStringParseNat(front);
      var n := ParseNat(s);
      assert n == ParseNat(front) * 10 + d;
      assert n / 10 == ParseNat(front) && n % 10 == d;
      assert s == front + [s[|s| - 1]];
    }
  }

  lemma NatToStringInjective(m: nat, n: nat)
    requires NatToString(m) == NatToString(n)
    ensures m == n
  {
    ParseNatToString(m);
    ParseNatToString(n);
  }
}
