/**
 * u8 values as the integers 0..255, with the bitwise operators of the
 * source defined bit by bit from the low end.
 */
module Bits {
  /** A u8. */
  type Byte = b: int | 0 <= b < 256

  /** The three bitwise operators the interpreter uses: `&`, `|` and `^`. */
  datatype BitOp = AndOp | OrOp | XorOp

  function Pow2(n: nat): (r: nat)
    ensures r >= 1
  {
    if n == 0 then 1 else 2 * Pow2(n - 1)
  }

  /** `op` on two single bits. */
  predicate BitOf(op: BitOp, p: bool, q: bool)
  {
    match op
    case AndOp => p && q
    case OrOp => p || q
    case XorOp => p != q
  }

  /** `op` applied to the `n` low bits of `a` and `b`; the result fits in `n` bits. */
  function Bitwise(op: BitOp, a: nat, b: nat, n: nat): (r: nat)
    ensures r < Pow2(n)
  {
    if n == 0 then 0
    else 2 * Bitwise(op, a / 2, b / 2, n - 1) + (if BitOf(op, a % 2 == 1, b % 2 == 1) then 1 else 0)
  }

  lemma Pow2Byte()
    ensures Pow2(8) == 256
  {
    assert Pow2(1) == 2;
    assert Pow2(2) == 4;
    assert Pow2(4) == 2 * Pow2(3) == 16;
    assert Pow2(6) == 2 * Pow2(5) == 64;
    assert Pow2(8) == 2 * Pow2(7) == 256;
  }

  /** `a & b` on bytes. */
  function And(a: Byte, b: Byte): Byte
  {
    Pow2Byte();
    Bitwise(AndOp, a, b, 8)
  }

  /** `a | b` on bytes. */
  function Or(a: Byte, b: Byte): Byte
  {
    Pow2Byte();
    Bitwise(OrOp, a, b, 8)
  }

  /** `a ^ b` on bytes. */
  function Xor(a: Byte, b: Byte): Byte
  {
    Pow2Byte();
    Bitwise(XorOp, a, b, 8)
  }

  /** Masking never produces a bit that is not in both operands: the result is at most either. */
  lemma {:induction false} AndBounded(a: nat, b: nat, n: nat)
    ensures Bitwise(AndOp, a, b, n) <= a
    ensures Bitwise(AndOp, a, b, n) <= b
  {
    if n > 0 {
      AndBounded(a / 2, b / 2, n - 1);
    }
  }

  /** Masking with 0 gives 0. */
  lemma {:induction false} AndZero(a: nat, n: nat)
    ensures Bitwise(AndOp, a, 0, n) == 0
  {
    if n > 0 {
      AndZero(a / 2, n - 1);
    }
  }

  /** Masking with 1 keeps the low bit. */
  lemma AndOne(a: nat, n: nat)
    requires n > 0
    ensures Bitwise(AndOp, a, 1, n) == a % 2
  {
    AndZero(a / 2, n - 1);
  }

  /** Masking a byte with 0x80 keeps its top bit. */
  lemma AndTopBit(a: Byte)
    ensures And(a, 0x80) == if a >= 0x80 then 0x80 else 0
  {
    var a1, a2, a3, a4, a5, a6, a7 := a / 2, a / 4, a / 8, a / 16, a / 32, a / 64, a / 128;
    assert a2 == a1 / 2 && a3 == a2 / 2 && a4 == a3 / 2 && a5 == a4 / 2 && a6 == a5 / 2 && a7 == a6 / 2;
    AndOne(a7, 1);
    calc {
      And(a, 0x80);
      Bitwise(AndOp, a, 128, 8);
      2 * Bitwise(AndOp, a1, 64, 7);
      4 * Bitwise(AndOp, a2, 32, 6);
      8 * Bitwise(AndOp, a3, 16, 5);
      16 * Bitwise(AndOp, a4, 8, 4);
      32 * Bitwise(AndOp, a5, 4, 3);
      64 * Bitwise(AndOp, a6, 2, 2);
      128 * Bitwise(AndOp, a7, 1, 1);
      128 * (a7 % 2);
    }
  }
}
