/**
 Decimal numerals: Python's str() of an integer and the int() that reads a
 label file's keys back as action codes.
 */
module Decimal {

  predicate IsDigit(c: char) {
    '0' <= c <= '9'
  }

  predicate AllDigits(s: string) {
    forall i :: 0 <= i < |s| ==> IsDigit(s[i])
  }

  function DigitValue(c: char): (d: nat)
    requires IsDigit(c)
    ensures d < 10
  {
    c as int - '0' as int
  }

  function DigitChar(d: nat): (c: char)
    requires d < 10
    ensures IsDigit(c) && DigitValue(c) == d
  {
    ('0' as int + d) as char
  }

  /** str(n) for n >= 0: the shortest decimal numeral, without leading zeros. */
  function NatToString(n: nat): (s: string)
    ensures |s| >= 1 && AllDigits(s)
    ensures s[0] == '0' <==> n == 0
    ensures n == 0 ==> s == "0"
  {
    if n < 10 then [DigitChar(n)] else NatToString(n / 10) + [DigitChar(n % 10)]
  }

  /** The value of a string of decimal digits, leading zeros allowed. */
  function ParseDigits(s: string): nat
    requires AllDigits(s)
  {
    if s == [] then 0 else ParseDigits(s[..|s| - 1]) * 10 + DigitValue(s[|s| - 1])
  }

  lemma {:induction false} ParseNatToString(n: nat)
    ensures ParseDigits(NatToString(n)) == n
  {
    var s := NatToString(n);
    if n >= 10 {
      ParseNatToString(n / 10);
      assert s[..|s| - 1] == NatToString(n / 10);
    } else {
      assert s[..|s| - 1] == [];
    }
  }

  /** str(i): a minus sign before negative numbers. */
  function IntToString(i: int): (s: string)
    ensures IsIntLiteral(s)
    ensures s[0] == '-' <==> i < 0
  {
    if i < 0 then
      var t := NatToString(-i);
      assert ("-" + t)[1..] == t;
      "-" + t
    else NatToString(i)
  }

  /** The strings int() accepts here: an optional sign and at least one ASCII digit. */
  predicate IsIntLiteral(s: string) {
    || (|s| >= 1 && AllDigits(s))
    || (|s| >= 2 && (s[0] == '-' || s[0] == '+') && AllDigits(s[1..]))
  }

  /** int(s) on a literal. */
  function ParseInt(s: string): (r: int)
    requires IsIntLiteral(s)
    ensures s[0] == '-' ==> r <= 0
    ensures s[0] != '-' ==> r >= 0
  {
    if s[0] == '-' then -(ParseDigits(s[1..]) as int)
    else if s[0] == '+' then ParseDigits(s[1..])
    else ParseDigits(s)
  }

  /** int(str(i)) == i: the label file's keys, written by str(), read back as the codes they name. */
  lemma IntToStringRoundTrip(i: int)
    ensures IsIntLiteral(IntToString(i))
    ensures ParseInt(IntToString(i)) == i
  {
    if i < 0 {
      var t := NatToString(-i);
      assert ("-" + t)[1..] == t;
      ParseNatToString(-i);
    } else {
      ParseNatToString(i);
    }
  }
}
