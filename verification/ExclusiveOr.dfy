/** Exclusive or of octets that are kept as numbers, one binary digit at a time. */
module ExclusiveOr {
  function PowerOfTwo(n: nat): nat {
    if n == 0 then 1 else 2 * PowerOfTwo(n - 1)
  }

  /** Digits that differ make a one. */
  function Digit(a: nat, b: nat): nat {
    if a % 2 == b % 2 then 0 else 1
  }

  function XorDigits(a: nat, b: nat, digits: nat): (r: nat)
    ensures r < PowerOfTwo(digits)
  {
    if digits == 0 then 0 else 2 * XorDigits(a / 2, b / 2, digits - 1) + Digit(a, b)
  }

  function Xor(a: int, b: int): (r: int)
    requires 0 <= a < 256 && 0 <= b < 256
    ensures 0 <= r < 256
  {
    assert PowerOfTwo(8) == 256 by { assert PowerOfTwo(4) == 16; }
    XorDigits(a, b, 8)
  }

  lemma LastDigit(half: nat, digit: nat)
    requires digit < 2
    ensures (2 * half + digit) / 2 == half && (2 * half + digit) % 2 == digit
  {
  }

  lemma {:induction false} DigitsTwice(a: nat, b: nat, digits: nat)
    requires a < PowerOfTwo(digits)
    ensures XorDigits(XorDigits(a, b, digits), b, digits) == a
  {
    if digits > 0 {
      var half := XorDigits(a / 2, b / 2, digits - 1);
      LastDigit(half, Digit(a, b));
      DigitsTwice(a / 2, b / 2, digits - 1);
      assert Digit(Digit(a, b), b) == a % 2;
    }
  }

  lemma XorTwice(a: int, b: int)
    requires 0 <= a < 256 && 0 <= b < 256
    ensures Xor(Xor(a, b), b) == a
  {
    assert PowerOfTwo(8) == 256 by { assert PowerOfTwo(4) == 16; }
    DigitsTwice(a, b, 8);
  }
}
