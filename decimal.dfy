/** Kotlin's `Int.toString()`: base-ten digits, no leading zeros, and a
    leading '-' for negative numbers. `ParseInt` reads such text back. */
module Decimal {

  predicate IsDigit(c: char) { '0' <= c <= '9' }

  function DigitChar(d: nat): (c: char)
    requires d < 10
    ensures IsDigit(c) && c as int - '0' as int == d
  {
    (d + '0' as int) as char
  }

  function NatText(n: nat): (r: string)
    ensures |r| >= 1
    ensures forall i :: 0 <= i < |r| ==> IsDigit(r[i])
    ensures r[0] == '0' ==> r == "0"
  {
    if n < 10 then [DigitChar(n)] else NatText(n / 10) + [DigitChar(n % 10)]
  }

  /** The text `$number` puts into the output for a number. */
  function IntText(n: int): (r: string)
  {
    if n < 0 then "-" + NatText(-n) else NatText(n)
  }

  /** The value of a string of digits, read left to right. */
  function ParseNat(s: string): nat
  {
    if s == [] then 0
    else ParseNat(s[..|s| - 1]) * 10 + (if IsDigit(s[|s| - 1]) then s[|s| - 1] as int - '0' as int else 0)
  }

  function ParseInt(s: string): int
  {
    if |s| > 0 && s[0] == '-' then -(ParseNat(s[1..]) as int) else ParseNat(s)
  }

  lemma {:induction false} NatTextRoundTrip(n: nat)
    ensures ParseNat(NatText(n)) == n
  {
    if n >= 10 {
      NatTextRoundTrip(n / 10);
      var r := NatText(n);
      assert r[..|r| - 1] == NatText(n / 10);
    }
  }

  /** Reading the rendered text of a number gives the number back, so
      distinct numbers render distinctly. */
  lemma IntTextRoundTrip(n: int)
    ensures ParseInt(IntText(n)) == n
  {
    if n < 0 {
      NatTextRoundTrip(-n);
      var digits := NatText(-n);
      assert digits[0] != '-';
      assert ("-" + digits)[1..] == digits;
    } else {
      NatTextRoundTrip(n);
      assert NatText(n)[0] != '-';
    }
  }

  /** The text of a number holds only digits and possibly a leading '-'. */
  lemma IntTextChars(n: int)
    ensures forall i :: 0 <= i < |IntText(n)| ==> IsDigit(IntText(n)[i]) || (i == 0 && IntText(n)[i] == '-')
    ensures |IntText(n)| > 0 && (IntText(n)[0] == '-' <==> n < 0)
  {
    if n < 0 {
      var digits := NatText(-n);
      forall i | 0 <= i < |IntText(n)|
        ensures IsDigit(IntText(n)[i]) || (i == 0 && IntText(n)[i] == '-')
      {
        if i > 0 {
          assert IntText(n)[i] == digits[i - 1];
        }
      }
    }
  }
}
