/** Decimal numerals: Python's `str` on integers. */
module Numerals {
  function Digit(d: nat): char
    requires d < 10
  {
    (d + '0' as int) as char
  }

  function Str(n: nat): string { if n < 10 then [Digit(n)] else Str(n / 10) + [Digit(n % 10)] }

  function StrInt(n: int): string { if n < 0 then "-" + Str(-n) else Str(n) }

  lemma {:induction false} StrIsDigits(n: nat)
    ensures Str(n) != [] && forall c <- Str(n) :: '0' <= c <= '9'
  {
    if n >= 10 { StrIsDigits(n / 10); }
  }

  lemma {:induction false} StrIsInjective(a: nat, b: nat)
    requires Str(a) == Str(b)
    ensures a == b
  {
    StrIsDigits(a / 10);
    StrIsDigits(b / 10);
    assert Str(a)[|Str(a)| - 1] == Digit(a % 10) && Str(b)[|Str(b)| - 1] == Digit(b % 10);
    if a >= 10 && b >= 10 {
      assert Str(a)[..|Str(a)| - 1] == Str(a / 10) && Str(b)[..|Str(b)| - 1] == Str(b / 10);
      StrIsInjective(a / 10, b / 10);
    }
  }

  /** Reading a numeral back. */
  function DigitValue(c: char): int { c as int - '0' as int }

  function ValueOfDigits(s: string): int {
    if s == "" then 0 else 10 * ValueOfDigits(s[..|s| - 1]) + DigitValue(s[|s| - 1])
  }

  function Value(s: string): int {
    if s != "" && s[0] == '-' then -ValueOfDigits(s[1..]) else ValueOfDigits(s)
  }

  lemma {:induction false} StrReadsBack(n: nat)
    ensures ValueOfDigits(Str(n)) == n && Str(n) != [] && Str(n)[0] != '-'
  {
    var s := Str(n);
    if n < 10 {
      assert s[..|s| - 1] == "";
    } else {
      StrReadsBack(n / 10);
      assert s[..|s| - 1] == Str(n / 10);
    }
  }

  /** The text of an integer reads back as that integer, sign and all. */
  lemma StrIntReadsBack(n: int)
    ensures Value(StrInt(n)) == n
  {
    if n < 0 {
      StrReadsBack(-n);
      assert StrInt(n)[1..] == Str(-n);
    } else {
      StrReadsBack(n);
    }
  }
}
