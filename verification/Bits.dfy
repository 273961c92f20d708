/** Bitwise operators on unbounded integers, as BigInt and Number use them. */
module Bits {

  /** Two's complement `a | b` on integers of any size. */
  function BitOr(a: int, b: int): int
    decreases if a < 0 then -(a + 1) else a
  {
    if a == 0 then b
    else if a == -1 then -1
    else 2 * BitOr(a / 2, b / 2) + (if a % 2 == 1 || b % 2 == 1 then 1 else 0)
  }

  /** `a ^ b` on non-negative integers. */
  function BitXor(a: nat, b: nat): nat
    decreases a + b
  {
    if a == 0 && b == 0 then 0 else 2 * BitXor(a / 2, b / 2) + (a + b) % 2
  }

  /** The k-th binary digit, from the right; a negative number has ones without end. */
  function BinaryDigit(x: int, k: nat): int
    decreases k
  {
    if k == 0 then x % 2 else BinaryDigit(x / 2, k - 1)
  }

  lemma OrHalves(a: int, b: int)
    ensures BitOr(a, b) / 2 == BitOr(a / 2, b / 2)
    ensures BitOr(a, b) % 2 == if a % 2 == 1 || b % 2 == 1 then 1 else 0
  {
  }

  /** A digit of `a | b` is one exactly if it is one in either. */
  lemma {:induction false} OrDigits(a: int, b: int, k: nat)
    ensures BinaryDigit(BitOr(a, b), k) == if BinaryDigit(a, k) == 1 || BinaryDigit(b, k) == 1 then 1 else 0
    decreases k
  {
    OrHalves(a, b);
    if k > 0 { OrDigits(a / 2, b / 2, k - 1); }
  }

  /** A digit of `a ^ b` is one exactly if it differs in the two. */
  lemma {:induction false} XorDigits(a: nat, b: nat, k: nat)
    ensures BinaryDigit(BitXor(a, b), k) == if BinaryDigit(a, k) != BinaryDigit(b, k) then 1 else 0
    decreases k
  {
    XorHalves(a, b);
    if k > 0 { XorDigits(a / 2, b / 2, k - 1); }
  }

  lemma {:induction false} OrZero(a: int)
    ensures BitOr(a, 0) == a
    decreases if a < 0 then -(a + 1) else a
  {
    if a != 0 && a != -1 { OrZero(a / 2); }
  }

  lemma {:induction false} OrDouble(a: int, b: int)
    ensures BitOr(2 * a, b) == 2 * BitOr(a, b / 2) + b % 2
  {
    if a != 0 { assert (2 * a) / 2 == a && (2 * a) % 2 == 0; }
  }

  /** Shifting left by five and or-ing a five-bit digit is `32 * a + d`. */
  lemma {:induction false} OrShiftedDigit(a: int, d: nat)
    requires d < 32
    ensures BitOr(32 * a, d) == 32 * a + d
  {
    hide BitOr;
    OrDouble(16 * a, d);
    OrDouble(8 * a, d / 2);
    OrDouble(4 * a, d / 4);
    OrDouble(2 * a, d / 8);
    OrDouble(a, d / 16);
    OrZero(a);
    assert d / 2 / 2 == d / 4 && d / 4 / 2 == d / 8 && d / 8 / 2 == d / 16 && d / 16 / 2 == 0;
  }

  lemma {:induction false} XorCommutes(a: nat, b: nat)
    ensures BitXor(a, b) == BitXor(b, a)
    decreases a + b
  {
    if a != 0 || b != 0 { XorCommutes(a / 2, b / 2); }
  }

  lemma {:induction false} XorHalves(a: nat, b: nat)
    ensures BitXor(a, b) / 2 == BitXor(a / 2, b / 2)
    ensures BitXor(a, b) % 2 == (a + b) % 2
  {
  }

  /** Exclusive-or acts on the bits above the fifth separately. */
  lemma {:induction false} XorHighBits(a: nat, b: nat)
    ensures BitXor(a, b) / 32 == BitXor(a / 32, b / 32)
  {
    hide BitXor;
    XorHalves(a, b);
    XorHalves(a / 2, b / 2);
    XorHalves(a / 4, b / 4);
    XorHalves(a / 8, b / 8);
    XorHalves(a / 16, b / 16);
    var x := BitXor(a, b);
    assert x / 2 / 2 == x / 4 && x / 4 / 2 == x / 8 && x / 8 / 2 == x / 16 && x / 16 / 2 == x / 32;
    assert a / 2 / 2 == a / 4 && a / 4 / 2 == a / 8 && a / 8 / 2 == a / 16 && a / 16 / 2 == a / 32;
    assert b / 2 / 2 == b / 4 && b / 4 / 2 == b / 8 && b / 8 / 2 == b / 16 && b / 16 / 2 == b / 32;
  }

  lemma SameHalves(a: nat, b: nat)
    ensures a == b <==> a / 2 == b / 2 && a % 2 == b % 2
  {
    assert a == 2 * (a / 2) + a % 2 && b == 2 * (b / 2) + b % 2;
  }

  lemma ParityCancels(a: nat, b: nat, c: nat)
    ensures (a + b) % 2 == (a + c) % 2 <==> b % 2 == c % 2
  {
  }

  /** Equal results force equal operands. */
  lemma {:induction false} XorCancels(a: nat, b: nat, c: nat)
    ensures BitXor(a, b) == BitXor(a, c) <==> b == c
    decreases a + b + c
  {
    if a != 0 || b != 0 || c != 0 {
      XorCancels(a / 2, b / 2, c / 2);
      SameHalves(b, c);
      SameHalves(BitXor(a, b), BitXor(a, c));
      XorHalves(a, b);
      XorHalves(a, c);
      ParityCancels(a, b, c);
    }
  }
}
