/** The hand-written integer printer of middleware/ratelimit/ratelimit.go. */
module Itoa {
  import opened Common
  import opened Decimal

  /** The integers whose text fits the 12-byte buffer. */
  predicate Fits(n: int) {
    -100_000_000_000 < n < 1_000_000_000_000
  }

  lemma FitsMeaning(n: int)
    ensures Fits(n) <==> |Text(n)| <= 12
  {
    assert Pow10(11) == 100_000_000_000 && Pow10(12) == 1_000_000_000_000 by {
      assert Pow10(4) == 10_000 && Pow10(8) == 100_000_000;
    }
    if n < 0 { DigitsLength(-n, 11); } else { DigitsLength(n, 12); }
  }

  lemma MoveLastDigit(n: nat, rest: string)
    requires n > 0
    ensures |Digits(n)| > 0
    ensures Digits(n) + rest == Digits(n / 10) + ([Digit(n % 10)] + rest)
  {
  }

  ghost function Magnitude(n: int): nat {
    if n > 0 then n else 0
  }

  /**
   None stands for the run-time panic of an index below the buffer. The text is the canonical
   decimal one whenever it fits, and the call panics for every other integer but the smallest,
   whose negation wraps to itself and prints as a lone sign.
   */
  method Print(value: int) returns (r: Option<string>)
    requires MIN_INT <= value <= MAX_INT
    ensures Fits(value) ==> r == Some(Text(value))
    ensures !Fits(value) && value != MIN_INT ==> r == None
    ensures value == MIN_INT ==> r == Some("-")
  {
    if value == 0 {
      return Some("0");
    }
    hide Digits, Digit, Fits;
    var a := new char[12];
    var i := a.Length;
    var neg := value < 0;
    var n := if neg && value != MIN_INT then -value else value;
    ghost var size := Magnitude(n);
    ghost var text := "";
    while n > 0
      invariant 0 <= i <= 12 && a[i..] == text
      invariant n <= 0 ==> n == 0 || i == 12
      invariant Digits(size) == Digits(Magnitude(n)) + text
    {
      MoveLastDigit(n, text);
      i := i - 1;
      if i < 0 {
        TooLong(value, size);
        return None;
      }
      a[i] := Digit(n % 10);
      text := [Digit(n % 10)] + text;
      n := n / 10;
    }
    NoDigits();
    if neg {
      i := i - 1;
      if i < 0 {
        TooLong(value, size);
        return None;
      }
      a[i] := '-';
      text := ['-'] + text;
    }
    assert a[i..] == text && (value == MIN_INT ==> text == "-");
    r := Some(a[i..]);
    Printed(value, text);
  }

  /** A text that needs more room than the buffer has belongs to an integer that does not fit. */
  lemma TooLong(value: int, size: nat)
    requires value != 0 && size == (if value < 0 then -value else value)
    requires |Digits(size)| + (if value < 0 then 1 else 0) > 12
    ensures !Fits(value)
  {
    FitsMeaning(value);
  }

  lemma Printed(value: int, text: string)
    requires value != MIN_INT ==> text == Text(value)
    requires |text| <= 12
    ensures value != MIN_INT ==> Fits(value)
    ensures !Fits(MIN_INT)
  {
    FitsMeaning(value);
  }
}
