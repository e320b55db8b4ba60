/** Exclusive-or on bytes, bit by bit, so that it stays in integer arithmetic. */
module Xors {
  import opened Bytes

  function Pow2(n: nat): nat {
    if n == 0 then 1 else 2 * Pow2(n - 1)
  }

  function XorBits(a: nat, b: nat, n: nat): (x: nat)
    ensures x < Pow2(n)
  {
    if n == 0 then 0 else (if a % 2 == b % 2 then 0 else 1) + 2 * XorBits(a / 2, b / 2, n - 1)
  }

  lemma Halve(a: nat, b: nat, n: nat)
    ensures XorBits(a, b, n + 1) / 2 == XorBits(a / 2, b / 2, n)
    ensures XorBits(a, b, n + 1) % 2 == if a % 2 == b % 2 then 0 else 1
  {
  }

  lemma {:induction false} XorBitsTwice(a: nat, b: nat, n: nat)
    requires a < Pow2(n)
    ensures XorBits(XorBits(a, b, n), b, n) == a
  {
    if n > 0 {
      XorBitsTwice(a / 2, b / 2, n - 1);
      Halve(a, b, n - 1);
    }
  }

  lemma {:induction false} XorBitsCommutative(a: nat, b: nat, n: nat)
    ensures XorBits(a, b, n) == XorBits(b, a, n)
  {
    if n > 0 {
      XorBitsCommutative(a / 2, b / 2, n - 1);
    }
  }

  lemma {:induction false} XorBitsSame(a: nat, b: nat, n: nat)
    requires a < Pow2(n) && b < Pow2(n)
    ensures XorBits(a, b, n) == a <==> b == 0
  {
    if n > 0 {
      XorBitsSame(a / 2, b / 2, n - 1);
    }
  }

  lemma EightBits()
    ensures Pow2(8) == 256
  {
    assert Pow2(4) == 16;
  }

  function Xor(a: byte, b: byte): byte {
    EightBits();
    XorBits(a, b, 8)
  }

  lemma XorTwice(a: byte, b: byte)
    ensures Xor(Xor(a, b), b) == a
  {
    EightBits();
    XorBitsTwice(a, b, 8);
  }

  lemma XorCommutative(a: byte, b: byte)
    ensures Xor(a, b) == Xor(b, a)
  {
    XorBitsCommutative(a, b, 8);
  }

  lemma XorSame(a: byte, b: byte)
    ensures Xor(a, b) == a <==> b == 0
  {
    EightBits();
    XorBitsSame(a, b, 8);
  }
}
