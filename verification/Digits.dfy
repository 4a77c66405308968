// Decimal numerals as Python's str() and int() and Postgres' bigint-to-text cast write them,
// shared by the stream cursor, the decision keys and the Decimal serialisation.
module Digits {

  predicate IsDigit(c: char) {
    '0' <= c <= '9'
  }

  /** `str.isascii() and str.isdigit()`: true of a non-empty run of ASCII digits. */
  predicate AllDigits(s: string) {
    s != "" && forall i :: 0 <= i < |s| ==> IsDigit(s[i])
  }

  function DigitChar(d: nat): (c: char)
    requires d < 10
    ensures IsDigit(c) && DigitValue(c) == d
  {
    ('0' as int + d) as char
  }

  function DigitValue(c: char): nat
    requires IsDigit(c)
  {
    c as int - '0' as int
  }

  /** The shortest decimal numeral of n. */
  function Numeral(n: nat): (s: string)
    ensures AllDigits(s)
    ensures |s| > 1 ==> s[0] != '0'
  {
    if n < 10 then [DigitChar(n)] else Numeral(n / 10) + [DigitChar(n % 10)]
  }

  /** The number a run of digits denotes; leading zeros are allowed, as int() allows them. */
  function Value(s: string): nat
    requires forall i :: 0 <= i < |s| ==> IsDigit(s[i])
  {
    if s == "" then 0 else 10 * Value(s[..|s| - 1]) + DigitValue(s[|s| - 1])
  }

  /** Reading a printed number gives the number back. */
  lemma {:induction false} ValueOfNumeral(n: nat)
    ensures Value(Numeral(n)) == n
  {
    if n < 10 {
      assert Numeral(n)[..0] == "";
    } else {
      ValueOfNumeral(n / 10);
      assert Numeral(n)[..|Numeral(n)| - 1] == Numeral(n / 10);
    }
  }

  lemma NumeralInjective(m: nat, n: nat)
    requires Numeral(m) == Numeral(n)
    ensures m == n
  {
    ValueOfNumeral(m);
    ValueOfNumeral(n);
  }

  /** A numeral without a leading zero is the numeral of its own value. */
  lemma {:induction false} NumeralOfValue(s: string)
    requires AllDigits(s) && (|s| > 1 ==> s[0] != '0')
    ensures Numeral(Value(s)) == s
  {
    var k := |s| - 1;
    if k == 0 {
      assert s[..0] == "";
      assert s == [s[0]];
    } else {
      var p := s[..k];
      assert AllDigits(p);
      NumeralOfValue(p);
      PositiveValue(p);
      assert s == p + [s[k]];
      assert Value(s) == 10 * Value(p) + DigitValue(s[k]);
    }
  }

  lemma {:induction false} PositiveValue(s: string)
    requires AllDigits(s) && s[0] != '0'
    ensures Value(s) > 0
  {
    if |s| == 1 {
      assert s[..0] == "";
    } else {
      PositiveValue(s[..|s| - 1]);
    }
  }

  function Pow10(k: nat): (p: nat)
    ensures p > 0
  {
    if k == 0 then 1 else 10 * Pow10(k - 1)
  }

  /** A number below 10^k prints in at most k digits (and always in at least one). */
  lemma {:induction false} NumeralLength(n: nat, k: nat)
    requires n < Pow10(k) && k > 0
    ensures |Numeral(n)| <= k
  {
    if n >= 10 {
      NumeralLength(n / 10, k - 1);
    }
  }

  lemma {:induction false} PowMonotone(j: nat, k: nat)
    requires j <= k
    ensures Pow10(j) <= Pow10(k)
  {
    if j < k {
      PowMonotone(j, k - 1);
    }
  }

  lemma {:induction false} PowSum(j: nat, k: nat)
    ensures Pow10(j + k) == Pow10(j) * Pow10(k)
  {
    if j > 0 {
      PowSum(j - 1, k);
      assert Pow10(j + k) == 10 * Pow10(j - 1 + k);
    }
  }
}
