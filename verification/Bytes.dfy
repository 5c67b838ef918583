/** Bytes as bounded integers, with the C bitwise operators the firmware applies to them. */
module Bytes {

  datatype Option<+T> = None | Some(value: T)

  type Byte = x: int | 0 <= x < 256

  function Min(a: int, b: int): int { if a < b then a else b }

  function Max(a: int, b: int): int { if a > b then a else b }

  /** Bit k of x, counted from the least significant one. */
  predicate Bit(x: nat, k: nat) {
    if k == 0 then x % 2 == 1 else Bit(x / 2, k - 1)
  }

  /** The C operators `a | b` and `a ^ b` on n-bit values. */
  function OrN(a: nat, b: nat, n: nat): nat {
    if n == 0 then 0
    else (if a % 2 == 1 || b % 2 == 1 then 1 else 0) + 2 * OrN(a / 2, b / 2, n - 1)
  }

  function XorN(a: nat, b: nat, n: nat): nat {
    if n == 0 then 0
    else (if a % 2 != b % 2 then 1 else 0) + 2 * XorN(a / 2, b / 2, n - 1)
  }

  function Pow2(n: nat): nat { if n == 0 then 1 else 2 * Pow2(n - 1) }

  lemma {:induction false} BitByDivision(x: nat, k: nat, quotient: nat, rest: nat)
    requires x == Pow2(k) * quotient + rest && rest < Pow2(k)
    ensures Bit(x, k) == (quotient % 2 == 1)
  {
    if k > 0 {
      assert Pow2(k) * quotient == 2 * (Pow2(k - 1) * quotient);
      BitByDivision(x / 2, k - 1, quotient, rest / 2);
    }
  }

  lemma {:induction false} OrBounded(a: nat, b: nat, n: nat)
    ensures OrN(a, b, n) < Pow2(n)
  {
    if n != 0 {
      OrBounded(a / 2, b / 2, n - 1);
    }
  }

  lemma {:induction false} XorBounded(a: nat, b: nat, n: nat)
    ensures XorN(a, b, n) < Pow2(n)
  {
    if n != 0 {
      XorBounded(a / 2, b / 2, n - 1);
    }
  }

  function Or(a: Byte, b: Byte): Byte {
    OrBounded(a, b, 8);
    assert Pow2(8) == 256 by { assert Pow2(4) == 16; }
    OrN(a, b, 8)
  }

  function Xor(a: Byte, b: Byte): Byte {
    XorBounded(a, b, 8);
    assert Pow2(8) == 256 by { assert Pow2(4) == 16; }
    XorN(a, b, 8)
  }

  /** `|` sets exactly the bits that either operand has. */
  lemma {:induction false} OrBitN(a: nat, b: nat, n: nat, k: nat)
    requires k < n
    ensures Bit(OrN(a, b, n), k) == (Bit(a, k) || Bit(b, k))
  {
    var r := OrN(a / 2, b / 2, n - 1);
    assert OrN(a, b, n) / 2 == r;
    if k != 0 {
      OrBitN(a / 2, b / 2, n - 1, k - 1);
    }
  }

  lemma OrBit(a: Byte, b: Byte, k: nat)
    requires k < 8
    ensures Bit(Or(a, b), k) == (Bit(a, k) || Bit(b, k))
  {
    OrBitN(a, b, 8, k);
  }

  /** `^` sets exactly the bits in which the operands differ. */
  lemma {:induction false} XorBitN(a: nat, b: nat, n: nat, k: nat)
    requires k < n
    ensures Bit(XorN(a, b, n), k) == (Bit(a, k) != Bit(b, k))
  {
    var r := XorN(a / 2, b / 2, n - 1);
    assert XorN(a, b, n) / 2 == r;
    if k != 0 {
      XorBitN(a / 2, b / 2, n - 1, k - 1);
    }
  }

  lemma XorBit(a: Byte, b: Byte, k: nat)
    requires k < 8
    ensures Bit(Xor(a, b), k) == (Bit(a, k) != Bit(b, k))
  {
    XorBitN(a, b, 8, k);
  }

  lemma {:induction false} XorTwiceN(a: nat, m: nat, n: nat)
    requires a < Pow2(n)
    ensures XorN(XorN(a, m, n), m, n) == a
  {
    if n != 0 {
      var r := XorN(a / 2, m / 2, n - 1);
      assert XorN(a, m, n) / 2 == r;
      XorTwiceN(a / 2, m / 2, n - 1);
    }
  }

  lemma {:induction false} ZeroHasNoBits(k: nat)
    ensures !Bit(0, k)
  {
    if k > 0 {
      ZeroHasNoBits(k - 1);
    }
  }

  /** A power of two has its own bit and no other. */
  lemma {:induction false} FlagBit(j: nat, k: nat)
    ensures Bit(Pow2(j), k) == (j == k)
  {
    if j > 0 && k > 0 {
      assert Pow2(j) / 2 == Pow2(j - 1);
      FlagBit(j - 1, k - 1);
    } else if k > 0 {
      ZeroHasNoBits(k - 1);
    }
  }

  /** Masking a byte twice with the same key gives the byte back. */
  lemma XorTwice(a: Byte, m: Byte)
    ensures Xor(Xor(a, m), m) == a
  {
    assert Pow2(8) == 256 by { assert Pow2(4) == 16; }
    XorTwiceN(a, m, 8);
  }
}
