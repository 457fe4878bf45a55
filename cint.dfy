/**
 * The 32-bit `int` of C and its operator `^`, used by Game::other
 * (server/server.cpp) and SquareWidget::switchColor (client/chess_gui.hpp).
 * Exclusive or is defined on the unsigned reading of the two's-complement
 * bits, one bit at a time.
 */
module CInt {
  /** A C `int`. */
  newtype int32 = x: int | -0x8000_0000 <= x < 0x8000_0000

  /** Bitwise exclusive or of two naturals, bit by bit from the lowest. */
  function XorNat(a: nat, b: nat): nat
    decreases a + b
  {
    if a == 0 && b == 0 then 0
    else (if a % 2 == b % 2 then 0 else 1) + 2 * XorNat(a / 2, b / 2)
  }

  function Pow2(n: nat): (r: nat)
    ensures r >= 1
  {
    if n == 0 then 1 else 2 * Pow2(n - 1)
  }

  lemma Pow2Of32()
    ensures Pow2(32) == 0x1_0000_0000
  {
    assert Pow2(8) == 0x100;
    assert Pow2(16) == 0x1_0000;
    assert Pow2(24) == 0x100_0000;
  }

  /** The lowest bit of `a ^ b` and the rest, also when both are 0. */
  lemma XorNatStep(a: nat, b: nat)
    ensures XorNat(a, b) % 2 == (if a % 2 == b % 2 then 0 else 1)
    ensures XorNat(a, b) / 2 == XorNat(a / 2, b / 2)
  {
  }

  /** Exclusive or with the same number twice gives back the other one. */
  lemma {:induction false} XorNatCancels(a: nat, b: nat)
    ensures XorNat(XorNat(a, b), a) == b
    decreases a + b
  {
    if a == 0 && b == 0 {
    } else {
      var c := XorNat(a, b);
      XorNatStep(a, b);
      XorNatStep(c, a);
      XorNatCancels(a / 2, b / 2);
      assert XorNat(c, a) % 2 == b % 2;
      assert XorNat(c, a) / 2 == b / 2;
    }
  }

  /** Exclusive or keeps numbers of `n` bits within `n` bits. */
  lemma {:induction false} XorNatBound(a: nat, b: nat, n: nat)
    requires a < Pow2(n) && b < Pow2(n)
    ensures XorNat(a, b) < Pow2(n)
  {
    if n == 0 {
      assert a == 0 && b == 0;
    } else {
      XorNatStep(a, b);
      XorNatBound(a / 2, b / 2, n - 1);
    }
  }

  /** The 32 bits of a C int read as an unsigned number. */
  function Unsigned(x: int32): (u: nat)
    ensures u < 0x1_0000_0000
  {
    if x < 0 then x as int + 0x1_0000_0000 else x as int
  }

  /** A 32-bit pattern read back as a C int. */
  function Signed(u: nat): (x: int32)
    requires u < 0x1_0000_0000
    ensures Unsigned(x) == u
  {
    if u < 0x8000_0000 then u as int32 else (u - 0x1_0000_0000) as int32
  }

  /** The C operator `^` on ints. */
  function Xor(a: int32, b: int32): (r: int32)
    ensures Unsigned(r) == XorNat(Unsigned(a), Unsigned(b))
  {
    Pow2Of32();
    XorNatBound(Unsigned(a), Unsigned(b), 32);
    Signed(XorNat(Unsigned(a), Unsigned(b)))
  }

  /** `a ^ b ^ a` is `b` and `a ^ b ^ b` is `a`. */
  lemma XorCancels(a: int32, b: int32)
    ensures Xor(Xor(a, b), a) == b && Xor(Xor(a, b), b) == a
  {
    XorNatCancels(Unsigned(a), Unsigned(b));
    XorNatCancels(Unsigned(b), Unsigned(a));
    XorNatSymmetric(Unsigned(a), Unsigned(b));
    UnsignedInjective(Xor(Xor(a, b), a), b);
    UnsignedInjective(Xor(Xor(a, b), b), a);
  }

  lemma {:induction false} XorNatSymmetric(a: nat, b: nat)
    ensures XorNat(a, b) == XorNat(b, a)
    decreases a + b
  {
    if a != 0 || b != 0 {
      XorNatSymmetric(a / 2, b / 2);
    }
  }

  /** The operands of `^` commute. */
  lemma XorCommutes(a: int32, b: int32)
    ensures Xor(a, b) == Xor(b, a)
  {
    XorNatSymmetric(Unsigned(a), Unsigned(b));
    UnsignedInjective(Xor(a, b), Xor(b, a));
  }

  lemma UnsignedInjective(x: int32, y: int32)
    requires Unsigned(x) == Unsigned(y)
    ensures x == y
  {
  }
}
