/** Decimal numerals: printing a number, reading one, and that the two are inverse. */
module Decimal {

  predicate IsDigit(c: char) {
    '0' <= c <= '9'
  }

  function DigitValue(c: char): nat
    requires IsDigit(c)
  {
    c as nat - '0' as nat
  }

  function DigitChar(d: nat): char
    requires d < 10
  {
    ('0' as nat + d) as char
  }

  predicate AllDigits(s: string) {
    forall i :: 0 <= i < |s| ==> IsDigit(s[i])
  }

  /** A numeral without superfluous leading zeros. */
  predicate Canonical(s: string) {
    s != "" && AllDigits(s) && (|s| > 1 ==> s[0] != '0')
  }

  function Print(n: nat): string {
    if n < 10 then [DigitChar(n)] else Print(n / 10) + [DigitChar(n % 10)]
  }

  function Value(s: string): nat
    requires AllDigits(s)
  {
    if s == "" then 0 else Value(s[..|s| - 1]) * 10 + DigitValue(s[|s| - 1])
  }

  lemma {:induction false} PrintIsCanonical(n: nat)
    ensures Canonical(Print(n))
    ensures Value(Print(n)) == n
    ensures n > 0 ==> Print(n)[0] != '0'
  {
    if n < 10 {
      assert Value(Print(n)[..0]) == 0;
    } else {
      PrintIsCanonical(n / 10);
      assert Print(n)[..|Print(n)| - 1] == Print(n / 10);
    }
  }

  lemma {:induction false} ValueIsPositive(s: string)
    requires Canonical(s) && |s| > 1
    ensures Value(s) >= 10
  {
    var front := s[..|s| - 1];
    if |front| > 1 {
      ValueIsPositive(front);
    } else {
      assert Value(front[..0]) == 0;
    }
  }

  /** A canonical numeral is the print of its value, so equal values are equal numerals. */
  lemma {:induction false} CanonicalIsPrint(s: string)
    requires Canonical(s)
    ensures Print(Value(s)) == s
  {
    if |s| == 1 {
      assert Value(s[..0]) == 0;
    } else {
      var front := s[..|s| - 1];
      ValueIsPositive(s);
      CanonicalIsPrint(front);
      assert Value(s) / 10 == Value(front) && Value(s) % 10 == DigitValue(s[|s| - 1]);
      assert s == front + [s[|s| - 1]];
    }
  }
}
