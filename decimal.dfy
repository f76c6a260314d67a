/**
 * Decimal rendering of integers, as JavaScript's template interpolation
 * `${n}` writes an integral Number, and its inverse.
 */
module Decimal {
  import opened Wrappers

  predicate IsDigit(c: char) {
    '0' <= c <= '9'
  }

  predicate AllDigits(s: string) {
    forall i :: 0 <= i < |s| ==> IsDigit(s[i])
  }

  /** A canonical numeral: non-empty, digits only, no leading zero except "0" itself. */
  predicate IsCanonical(s: string) {
    |s| > 0 && AllDigits(s) && (s[0] == '0' ==> |s| == 1)
  }

  function DigitChar(d: nat): (c: char)
    requires d < 10
    ensures IsDigit(c)
  {
    (d + '0' as int) as char
  }

  function DigitValue(c: char): (d: nat)
    requires IsDigit(c)
    ensures d < 10 && DigitChar(d) == c
  {
    c as int - '0' as int
  }

  /** The number a string of digits denotes, most significant digit first. */
  function DigitsValue(s: string): nat
    requires AllDigits(s)
    decreases |s|
  {
    if s == [] then 0 else 10 * DigitsValue(s[..|s| - 1]) + DigitValue(s[|s| - 1])
  }

  /** The decimal numeral of a natural number. */
  function NatToString(n: nat): (s: string)
    ensures IsCanonical(s)
    ensures DigitsValue(s) == n
    decreases n
  {
    if n < 10 then [DigitChar(n)]
    else
      var front := NatToString(n / 10);
      var s := front + [DigitChar(n % 10)];
      assert s[..|s| - 1] == front;
      s
  }

  /** The numeral JavaScript writes for an integral Number: a minus sign only for negatives. */
  function IntToString(i: int): (s: string)
    ensures ('-' in s) <==> i < 0
    ensures i < 0 ==> s[0] == '-' && IsCanonical(s[1..])
    ensures i >= 0 ==> IsCanonical(s)
  {
    if i < 0 then
      var s := "-" + NatToString(-i);
      assert s[1..] == NatToString(-i);
      s
    else NatToString(i)
  }

  /** Reads a canonical numeral back; anything else is rejected. */
  function ParseNat(s: string): Option<nat> {
    if IsCanonical(s) then Some(DigitsValue(s)) else None
  }

  /** Reads back what IntToString writes; "-0" and non-canonical numerals are rejected. */
  function ParseInt(s: string): Option<int> {
    if |s| > 0 && s[0] == '-' then
      match ParseNat(s[1..])
      case Some(n) => if n > 0 then Some(-(n as int)) else None
      case None => None
    else
      match ParseNat(s)
      case Some(n) => Some(n)
      case None => None
  }

  /** A numeral of two or more digits with a non-zero leading digit is at least 10. */
  lemma {:induction false} CanonicalLongIsLarge(s: string)
    requires IsCanonical(s) && |s| >= 2
    ensures DigitsValue(s) >= 10
  {
    var front := s[..|s| - 1];
    assert front[0] == s[0];
    if |front| == 1 {
      assert front[..0] == [];
      assert DigitsValue(front) == DigitValue(front[0]);
    } else {
      CanonicalLongIsLarge(front);
    }
  }

  /** The other direction: a canonical numeral is exactly the rendering of its value. */
  lemma {:induction false} NatToStringOfValue(s: string)
    requires IsCanonical(s)
    ensures NatToString(DigitsValue(s)) == s
  {
    var v := DigitsValue(s);
    var front := s[..|s| - 1];
    var last := s[|s| - 1];
    if |s| == 1 {
      assert front == [];
      assert DigitsValue(front) == 0;
    } else {
      CanonicalLongIsLarge(s);
      assert front[0] == s[0];
      assert v == 10 * DigitsValue(front) + DigitValue(last);
      assert v / 10 == DigitsValue(front);
      assert v % 10 == DigitValue(last);
      NatToStringOfValue(front);
      assert s == front + [last];
    }
  }

  lemma IntToStringRoundTrip(i: int)
    ensures ParseInt(IntToString(i)) == Some(i)
  {
  }

  lemma IntToStringOfParse(s: string)
    requires ParseInt(s).Some?
    ensures IntToString(ParseInt(s).value) == s
  {
    if |s| > 0 && s[0] == '-' {
      NatToStringOfValue(s[1..]);
      assert s == "-" + s[1..];
    } else {
      NatToStringOfValue(s);
    }
  }
}
