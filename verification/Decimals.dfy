/** Decimal numerals: printed, read back, and told apart. */
module Decimals {
  import opened Basics

  function Decimal(n: nat): (s: string)
    ensures s != "" && forall c | c in s :: IsDigit(c)
  {
    if n < 10 then [('0' as int + n) as char] else Decimal(n / 10) + [('0' as int + n % 10) as char]
  }

  /** The value of the leading digits of `s`, counted on from `acc`. */
  function Digits(s: string, acc: nat): nat {
    if s == "" || !IsDigit(s[0]) then acc else Digits(s[1..], 10 * acc + DigitValue(s[0]))
  }

  function DigitValue(c: char): nat
    requires IsDigit(c)
  {
    c as int - '0' as int
  }

  lemma {:induction false} DigitsOfDecimal(n: nat, acc: nat, rest: string)
    requires rest != "" && !IsDigit(rest[0])
    ensures Digits(Decimal(n) + rest, 0) == n
    ensures n < 10 ==> Digits(Decimal(n) + rest, acc) == 10 * acc + n
    decreases n
  {
    if n < 10 {
      assert (Decimal(n) + rest)[1..] == rest;
    } else {
      DigitsThrough(Decimal(n / 10), 0, [('0' as int + n % 10) as char] + rest);
      DigitsOfDecimal(n / 10, 0, rest);
      DigitsThrough(Decimal(n / 10), 0, rest);
      var last := [('0' as int + n % 10) as char];
      assert Decimal(n) + rest == Decimal(n / 10) + (last + rest);
      assert (last + rest)[1..] == rest;
    }
  }

  /** Reading on past a run of digits. */
  lemma {:induction false} DigitsThrough(s: string, acc: nat, rest: string)
    requires forall c | c in s :: IsDigit(c)
    ensures Digits(s + rest, acc) == Digits(rest, Digits(s, acc))
    decreases |s|
  {
    if s == "" {
      assert s + rest == rest;
    } else {
      assert (s + rest)[1..] == s[1..] + rest;
      assert s[0] in s;
      DigitsThrough(s[1..], 10 * acc + DigitValue(s[0]), rest);
    }
  }

  lemma DecimalsDiffer(a: nat, b: nat)
    requires Decimal(a) == Decimal(b)
    ensures a == b
  {
    DigitsOfDecimal(a, 0, "-");
    DigitsOfDecimal(b, 0, "-");
  }
}
