/** Decimal text of integers. */
module Decimal {

  const MIN_INT := -0x8000_0000_0000_0000
  const MAX_INT := 0x7fff_ffff_ffff_ffff

  function Pow10(k: nat): nat {
    if k == 0 then 1 else 10 * Pow10(k - 1)
  }

  function Digit(d: nat): char
    requires d < 10
  {
    '0' + d as char
  }

  /** The decimal digits of n without leading zeros; nothing for 0. */
  function Digits(n: nat): string {
    if n == 0 then "" else Digits(n / 10) + [Digit(n % 10)]
  }

  predicate IsDigits(s: string) {
    forall i | 0 <= i < |s| :: '0' <= s[i] <= '9'
  }

  /** The number a string of digits denotes. */
  function Value(s: string): nat
    requires IsDigits(s)
  {
    if s == "" then 0 else 10 * Value(s[..|s| - 1]) + (s[|s| - 1] - '0') as nat
  }

  /** The canonical decimal text of an integer. */
  function Text(n: int): string {
    if n == 0 then "0" else if n < 0 then "-" + Digits(-n) else Digits(n)
  }

  lemma {:induction false} DigitsDenote(n: nat)
    ensures IsDigits(Digits(n)) && Value(Digits(n)) == n
    ensures n > 0 ==> Digits(n) != "" && Digits(n)[0] != '0'
  {
    if n > 0 {
      DigitsDenote(n / 10);
      assert Digits(n)[..|Digits(n)| - 1] == Digits(n / 10);
    }
  }

  /** Printing as many digits as a buffer of k holds is possible exactly below 10^k. */
  lemma {:induction false} DigitsLength(n: nat, k: nat)
    ensures |Digits(n)| <= k <==> n < Pow10(k)
    decreases k
  {
    if n == 0 {
      Pow10Positive(k);
    } else if k > 0 {
      DigitsLength(n / 10, k - 1);
    }
  }

  lemma {:induction false} Pow10Positive(j: nat)
    ensures Pow10(j) > 0
  {
    if j > 0 { Pow10Positive(j - 1); }
  }

  /** A canonical text of digits is the only one of its value, so the printed text is the decimal text. */
  lemma {:induction false} DigitsUnique(s: string)
    requires IsDigits(s) && (s == "" || s[0] != '0')
    ensures Digits(Value(s)) == s
  {
    hide Value, Digits, Digit;
    NoDigits();
    if s != "" {
      var t := s[..|s| - 1];
      DigitsUnique(t);
      LastValue(s);
      LastSplit(s);
      CharacterOfDigit(s[|s| - 1]);
      LastDigit(Value(t), (s[|s| - 1] - '0') as nat);
    }
  }

  lemma NoDigits()
    ensures Digits(0) == "" && Value("") == 0
  {
  }

  lemma LastSplit(s: string)
    requires s != ""
    ensures s == s[..|s| - 1] + [s[|s| - 1]]
  {
  }

  lemma LastValue(s: string)
    requires IsDigits(s) && s != ""
    ensures Value(s) == 10 * Value(s[..|s| - 1]) + (s[|s| - 1] - '0') as nat
  {
  }

  lemma CharacterOfDigit(c: char)
    requires '0' <= c <= '9'
    ensures (c - '0') as nat < 10 && Digit((c - '0') as nat) == c
  {
  }

  lemma LastDigit(v: nat, d: nat)
    requires d < 10 && (v > 0 || d > 0)
    ensures Digits(10 * v + d) == Digits(v) + [Digit(d)]
  {
  }

  /** s writes n in decimal without leading zeros, and 0 as one zero. */
  predicate Canonical(s: string, n: int) {
    if n == 0 then s == "0"
    else
      var digits := if n < 0 && s != "" then s[1..] else s;
      && (n < 0 ==> s != "" && s[0] == '-')
      && digits != "" && digits[0] != '0' && IsDigits(digits) && Value(digits) == if n < 0 then -n else n
  }

  /** The text of an integer is the one canonical text that writes it. */
  lemma TextExact(n: int, s: string)
    ensures s == Text(n) <==> Canonical(s, n)
  {
    hide Digits, Value;
    var magnitude := if n < 0 then -n else n;
    DigitsDenote(magnitude);
    if n < 0 {
      assert Text(n)[1..] == Digits(magnitude);
    }
    if Canonical(s, n) && n != 0 {
      var digits := if n < 0 then s[1..] else s;
      DigitsUnique(digits);
      assert n < 0 ==> s == "-" + digits;
    }
  }
}
