/** `str(n)` of an integer, and that it loses nothing. */
module Decimal {
  function Digit(d: int): char
    requires 0 <= d < 10
  {
    "0123456789"[d]
  }

  function Digits(n: nat): (s: string)
    ensures |s| >= 1 && s[0] != '-'
  {
    if n < 10 then [Digit(n)] else Digits(n / 10) + [Digit(n % 10)]
  }

  function Str(n: int): string {
    if n < 0 then "-" + Digits(-n) else Digits(n)
  }

  /** The number that a string of digits stands for. */
  function Value(s: string): int {
    if s == [] then 0 else 10 * Value(s[..|s| - 1]) + (s[|s| - 1] as int - '0' as int)
  }

  lemma DigitValue(d: int)
    requires 0 <= d < 10
    ensures Digit(d) as int - '0' as int == d
  {
  }

  lemma {:induction false} DigitsValue(n: nat)
    ensures Value(Digits(n)) == n
  {
    if n < 10 {
      DigitValue(n);
      assert Digits(n)[..0] == [];
    } else {
      DigitsValue(n / 10);
      DigitValue(n % 10);
      var s := Digits(n);
      assert s[..|s| - 1] == Digits(n / 10);
    }
  }

  /** The string is the number in decimal, behind a minus sign if it is negative. */
  lemma StrValue(n: int)
    ensures n >= 0 ==> Value(Str(n)) == n
    ensures n < 0 ==> Str(n)[0] == '-' && Value(Str(n)[1..]) == -n
  {
    if n >= 0 {
      DigitsValue(n);
    } else {
      DigitsValue(-n);
      assert Str(n)[1..] == Digits(-n);
    }
  }

  lemma StrInjective(m: int, n: int)
    requires Str(m) == Str(n)
    ensures m == n
  {
    StrValue(m);
    StrValue(n);
  }
}
