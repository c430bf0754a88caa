/** Positional numerals: how Python prints a non-negative integer, and reads it back. */
module Numerals {
  import opened Wrappers

  function Digit(d: nat): (c: char)
    requires d < 16
    ensures DigitValue(c) == Some(d)
  {
    if d < 10 then (48 + d) as char else (87 + d) as char
  }

  function DigitValue(c: char): Option<nat> {
    var k := c as int;
    if 48 <= k <= 57 then Some(k - 48)       // 0-9
    else if 97 <= k <= 102 then Some(k - 87) // a-f
    else if 65 <= k <= 70 then Some(k - 55)  // A-F
    else None
  }

  predicate IsDigit(c: char, base: nat) {
    DigitValue(c).Some? && DigitValue(c).value < base
  }

  /** `n` in the given base, most significant digit first and without leading zeros. */
  function Numeral(n: nat, base: nat): (s: string)
    requires 2 <= base <= 16
    ensures s != [] && forall i :: 0 <= i < |s| ==> IsDigit(s[i], base)
  {
    if n < base then [Digit(n)] else Numeral(n / base, base) + [Digit(n % base)]
  }

  function Decimal(n: nat): string {
    Numeral(n, 10)
  }

  /** `int(s, base)` on a digit string; `None` is the `ValueError`. */
  function ParseNumeral(s: string, base: nat): Option<nat> {
    if s == [] || !IsDigit(s[|s| - 1], base) then None
    else
      var last := DigitValue(s[|s| - 1]).value;
      if |s| == 1 then Some(last)
      else
        match ParseNumeral(s[..|s| - 1], base)
        case None => None
        case Some(high) => Some(high * base + last)
  }

  lemma DivisionAlgorithm(n: nat, base: nat)
    requires base > 0
    ensures n == n / base * base + n % base && n % base < base
  {
  }

  /** Printing then parsing is the identity, in every base. */
  lemma {:induction false} NumeralRoundTrip(n: nat, base: nat)
    requires 2 <= base <= 16
    ensures ParseNumeral(Numeral(n, base), base) == Some(n)
  {
    if n >= base {
      NumeralRoundTrip(n / base, base);
      var s := Numeral(n, base);
      assert s[..|s| - 1] == Numeral(n / base, base);
      DivisionAlgorithm(n, base);
    }
  }
}
