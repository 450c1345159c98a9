/** Decimal texts of integers, as JavaScript's `String` and `BigInt.toString` write them. */
module Decimal {

  predicate IsDigit(c: char) { '0' <= c <= '9' }

  function DigitChar(d: nat): (c: char)
    requires d < 10
    ensures IsDigit(c)
  {
    '0' + d as char
  }

  /** The decimal digits of a natural number, without leading zeros. */
  function Digits(n: nat): (s: string)
    ensures s != [] && forall i :: 0 <= i < |s| ==> IsDigit(s[i])
  {
    if n < 10 then [DigitChar(n)] else Digits(n / 10) + [DigitChar(n % 10)]
  }

  function IntText(i: int): (s: string)
    ensures s != []
  {
    if i < 0 then "-" + Digits(-i) else Digits(i)
  }

  function ParseDigits(s: string): nat {
    if s == [] then 0
    else ParseDigits(s[..|s| - 1]) * 10 +
         (if IsDigit(s[|s| - 1]) then s[|s| - 1] as int - '0' as int else 0)
  }

  function ParseInt(s: string): int {
    if s != [] && s[0] == '-' then -(ParseDigits(s[1..]) as int) else ParseDigits(s)
  }

  lemma {:induction false} ParseDigitsInverts(n: nat)
    ensures ParseDigits(Digits(n)) == n
  {
    if n < 10 {
      assert Digits(n)[..0] == [];
    } else {
      ParseDigitsInverts(n / 10);
      assert Digits(n)[..|Digits(n)| - 1] == Digits(n / 10);
    }
  }

  lemma ParseIntInverts(i: int)
    ensures ParseInt(IntText(i)) == i
  {
    if i < 0 {
      ParseDigitsInverts(-i);
      assert IntText(i)[1..] == Digits(-i);
    } else {
      ParseDigitsInverts(i);
      assert IsDigit(Digits(i)[0]);
    }
  }

  /** Digits alone, and no zero in front but in "0". */
  predicate IsNumeral(s: string) {
    s != [] && (s[0] == '0' ==> |s| == 1) && forall k :: 0 <= k < |s| ==> IsDigit(s[k])
  }

  lemma {:induction false} DigitsAreNumeral(n: nat)
    ensures IsNumeral(Digits(n)) && (Digits(n)[0] == '0' ==> n == 0)
  {
    if n >= 10 {
      DigitsAreNumeral(n / 10);
    }
  }

  lemma {:induction false} NumeralIsDigits(s: string)
    requires IsNumeral(s)
    ensures Digits(ParseDigits(s)) == s && (ParseDigits(s) == 0 ==> s == "0")
  {
    var front, d := s[..|s| - 1], s[|s| - 1] as int - '0' as int;
    assert s == front + [s[|s| - 1]];
    if front == [] {
      assert ParseDigits(s) == d;
    } else {
      NumeralIsDigits(front);
      assert ParseDigits(front) > 0;
      assert (ParseDigits(front) * 10 + d) / 10 == ParseDigits(front);
    }
  }

  /** A text is the integer's exactly when it reads as the integer and is a numeral, with a sign before it
    * for a negative one. */
  lemma IntTextExactly(i: int, s: string)
    ensures s == IntText(i)
       <==> s != [] && ParseInt(s) == i && IsNumeral(if i < 0 then s[1..] else s) && (s[0] == '-' <==> i < 0)
  {
    if s == IntText(i) {
      ParseIntInverts(i);
      DigitsAreNumeral(if i < 0 then -i else i);
      assert i < 0 ==> s[1..] == Digits(-i);
    } else if s != [] && ParseInt(s) == i && (s[0] == '-' <==> i < 0) {
      var body := if i < 0 then s[1..] else s;
      assert i < 0 ==> s == "-" + body;
      if IsNumeral(body) {
        NumeralIsDigits(body);
      }
    }
  }

  lemma DigitsInjective(m: nat, n: nat)
    requires Digits(m) == Digits(n)
    ensures m == n
  {
    ParseDigitsInverts(m);
    ParseDigitsInverts(n);
  }

  /** Every character of an integer's text is a digit or the sign. */
  lemma IntTextChars(i: int)
    ensures forall k :: 0 <= k < |IntText(i)| ==> IsDigit(IntText(i)[k]) || IntText(i)[k] == '-'
  {
  }
}
