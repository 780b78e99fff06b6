/** Integer reading of numeric lexemes, as `std::stoll` does it for the digit
    strings the scanner's numeric states accumulate, and the 32-bit bounds. */
module Numeric {

  const IntMin: int := -0x8000_0000
  const IntMax: int := 0x7fff_ffff

  predicate InInt32(v: int) { IntMin <= v <= IntMax }

  /** Value of one digit character in bases up to 16. */
  function DigitValue(c: char): (d: nat)
    ensures d < 16
    ensures '0' <= c <= '9' ==> d == c as int - '0' as int
  {
    if '0' <= c <= '9' then c as int - '0' as int
    else if 'a' <= c <= 'f' then c as int - 'a' as int + 10
    else if 'A' <= c <= 'F' then c as int - 'A' as int + 10
    else 0
  }

  /** The digits of `s`, read most significant first, in base `base`. */
  function Digits(s: string, base: nat): nat
  {
    if s == [] then 0 else Digits(s[..|s| - 1], base) * base + DigitValue(s[|s| - 1])
  }

  /** A decimal lexeme, possibly with a leading minus sign. */
  function DecValue(s: string): int
  {
    if |s| > 0 && s[0] == '-' then -(Digits(s[1..], 10) as int) else Digits(s, 10)
  }

  /** Appending one digit multiplies by the base and adds the digit. */
  lemma DigitsSnoc(s: string, c: char, base: nat)
    ensures Digits(s + [c], base) == Digits(s, base) * base + DigitValue(c)
  {
    assert (s + [c])[..|s + [c]| - 1] == s;
  }

  /** A lexeme of at most two characters reads, in any base up to 16, as a
      value far inside the 32-bit range. */
  lemma ShortLexemeFits(s: string, base: nat)
    requires |s| <= 2 && base <= 16
    ensures Digits(s, base) <= 255
    ensures InInt32(DecValue(s))
  {
    ShortDigits(s, base);
    if |s| > 0 && s[0] == '-' { ShortDigits(s[1..], 10); } else { ShortDigits(s, 10); }
  }

  lemma ShortDigits(s: string, base: nat)
    requires |s| <= 2 && base <= 16
    ensures Digits(s, base) <= 255
  {
    if |s| > 0 {
      var p := s[..|s| - 1];
      if |p| > 0 { assert p[..|p| - 1] == []; }
      assert Digits(p, base) <= 15;
      var d := DigitValue(s[|s| - 1]);
      assert Digits(s, base) == Digits(p, base) * base + d;
      assert Digits(p, base) * base <= 15 * 16 by {
        MulMono(Digits(p, base), 15, base, 16);
      }
    }
  }

  lemma MulMono(a: nat, b: nat, c: nat, d: nat)
    requires a <= b && c <= d
    ensures a * c <= b * d
  {}
}
