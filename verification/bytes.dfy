/**
  * Byte and word values, and the bitwise operators the emulator applies to them.
  *
  * The emulator keeps every value in a plain number and relies on the host's
  * bitwise operators (`&`, `|`, `^`). Here those operators are defined bit by
  * bit on natural numbers, so that their meaning (one result bit per operand
  * bit) and their range (two bytes in, one byte out) are proved, not assumed.
  */
module Bytes {

  /** An unsigned 8-bit value: registers and memory cells. */
  type Byte = x: int | 0 <= x < 0x100

  /** An unsigned 16-bit value: what a little-endian word read returns. */
  type Word = x: int | 0 <= x < 0x1_0000

  function Pow2(k: nat): (p: nat)
    ensures p >= 1
  {
    if k == 0 then 1 else 2 * Pow2(k - 1)
  }

  /** Bit `k` (bit 0 is the least significant) of `v` is 1. */
  predicate BitSet(v: nat, k: nat)
  {
    if k == 0 then v % 2 == 1 else BitSet(v / 2, k - 1)
  }

  /** Bitwise AND, one binary digit at a time. */
  function BitAnd(a: nat, b: nat): (r: nat)
    ensures r <= a && r <= b
    decreases a
  {
    if a == 0 || b == 0 then 0
    else 2 * BitAnd(a / 2, b / 2) + (if a % 2 == 1 && b % 2 == 1 then 1 else 0)
  }

  /** Bitwise inclusive OR, one binary digit at a time. */
  function BitOr(a: nat, b: nat): (r: nat)
    ensures a <= r && b <= r && r <= a + b
    decreases a
  {
    if a == 0 then b
    else if b == 0 then a
    else 2 * BitOr(a / 2, b / 2) + (if a % 2 == 1 || b % 2 == 1 then 1 else 0)
  }

  /** Bitwise exclusive OR, one binary digit at a time. */
  function BitXor(a: nat, b: nat): (r: nat)
    ensures r <= a + b
    decreases a
  {
    if a == 0 then b
    else if b == 0 then a
    else 2 * BitXor(a / 2, b / 2) + (if (a % 2 == 1) != (b % 2 == 1) then 1 else 0)
  }

  lemma {:induction false} NoBitOfZero(k: nat)
    ensures !BitSet(0, k)
  {
    if k > 0 {
      NoBitOfZero(k - 1);
    }
  }

  /** Bit `k` of `a & b` is set exactly when bit `k` is set in both operands. */
  lemma {:induction false} BitAndBits(a: nat, b: nat, k: nat)
    ensures BitSet(BitAnd(a, b), k) <==> BitSet(a, k) && BitSet(b, k)
    decreases k
  {
    if a == 0 || b == 0 {
      NoBitOfZero(k);
    } else if k > 0 {
      BitAndBits(a / 2, b / 2, k - 1);
    }
  }

  /** Bit `k` of `a | b` is set exactly when bit `k` is set in either operand. */
  lemma {:induction false} BitOrBits(a: nat, b: nat, k: nat)
    ensures BitSet(BitOr(a, b), k) <==> BitSet(a, k) || BitSet(b, k)
    decreases k
  {
    if a == 0 {
      NoBitOfZero(k);
    } else if b == 0 {
      NoBitOfZero(k);
    } else if k > 0 {
      BitOrBits(a / 2, b / 2, k - 1);
    }
  }

  /** Bit `k` of `a ^ b` is set exactly when the operands differ in bit `k`. */
  lemma {:induction false} BitXorBits(a: nat, b: nat, k: nat)
    ensures BitSet(BitXor(a, b), k) <==> BitSet(a, k) != BitSet(b, k)
    decreases k
  {
    if a == 0 {
      NoBitOfZero(k);
    } else if b == 0 {
      NoBitOfZero(k);
    } else if k > 0 {
      BitXorBits(a / 2, b / 2, k - 1);
    }
  }

  /** OR of two values below 2^n stays below 2^n. */
  lemma {:induction false} BitOrBelow(a: nat, b: nat, n: nat)
    requires a < Pow2(n) && b < Pow2(n)
    ensures BitOr(a, b) < Pow2(n)
    decreases n
  {
    if a != 0 && b != 0 {
      assert n > 0;
      BitOrBelow(a / 2, b / 2, n - 1);
    }
  }

  /** XOR of two values below 2^n stays below 2^n. */
  lemma {:induction false} BitXorBelow(a: nat, b: nat, n: nat)
    requires a < Pow2(n) && b < Pow2(n)
    ensures BitXor(a, b) < Pow2(n)
    decreases n
  {
    if a != 0 && b != 0 {
      assert n > 0;
      BitXorBelow(a / 2, b / 2, n - 1);
    }
  }

  /** Masking with a single bit 2^k keeps that bit and nothing else. */
  lemma {:induction false} BitAndSingleBit(a: nat, k: nat)
    ensures BitAnd(a, Pow2(k)) == if BitSet(a, k) then Pow2(k) else 0
    decreases k
  {
    if a == 0 {
      NoBitOfZero(k);
    } else if k > 0 {
      BitAndSingleBit(a / 2, k - 1);
    }
  }

  lemma MulAtLeast(d: nat, k: int)
    requires k >= 1
    ensures d * k >= d
  {
    assert d * k == d * (k - 1) + d;
  }

  /** Quotient and remainder are the only ones: `a == d * q + r` with `0 <= r < d` fixes both. */
  lemma DivModUnique(a: nat, d: nat, q: nat, r: nat)
    requires d > 0 && r < d && a == d * q + r
    ensures a / d == q && a % d == r
  {
    var q', r' := a / d, a % d;
    assert a == d * q' + r';
    if q' < q {
      MulAtLeast(d, q - q');
    } else if q' > q {
      MulAtLeast(d, q' - q);
    }
  }

  /** Halving `a` before dividing by `m` is dividing by `2m`; the remainders relate likewise. */
  lemma HalveModulus(a: nat, m: nat)
    requires m >= 1
    ensures a % (2 * m) == 2 * ((a / 2) % m) + a % 2
    ensures a / 2 / m == a / (2 * m)
  {
    var q := a / 2;
    var t, s := q / m, q % m;
    assert q == m * t + s;
    assert a == 2 * q + a % 2;
    assert a == (2 * m) * t + (2 * s + a % 2);
    DivModUnique(a, 2 * m, t, 2 * s + a % 2);
  }

  /** One step of a low-bits mask: the lowest bit passes, the rest is a smaller mask. */
  lemma MaskStep(a: nat, m: nat)
    requires m >= 1
    ensures BitAnd(a, 2 * m - 1) == 2 * BitAnd(a / 2, m - 1) + a % 2
  {
    if a > 0 {
      assert (2 * m - 1) / 2 == m - 1 && (2 * m - 1) % 2 == 1;
    }
  }

  lemma {:induction false} LowMask(a: nat, n: nat)
    ensures BitAnd(a, Pow2(n) - 1) == a % Pow2(n)
    decreases n
  {
    if n > 0 {
      var m := Pow2(n - 1);
      assert Pow2(n) == 2 * m;
      MaskStep(a, m);
      LowMask(a / 2, n - 1);
      HalveModulus(a, m);
    }
  }

  /** An even mask shifts: `a & 2j` is twice `(a >> 1) & j`. */
  lemma EvenMask(a: nat, j: nat)
    ensures BitAnd(a, 2 * j) == 2 * BitAnd(a / 2, j)
  {
    if a > 0 && j > 0 {
      assert (2 * j) / 2 == j && (2 * j) % 2 == 0;
    }
  }

  /** `a & 0xFF` on a 16-bit value is its low byte. */
  lemma LowByteMask(a: Word)
    ensures BitAnd(a, 0xFF) == a % 0x100
  {
    assert Pow2(8) == 0x100;
    LowMask(a, 8);
  }

  /** Eight one-bit shifts make one eight-bit shift. */
  lemma EightHalvings(a: nat)
    ensures a / 2 / 2 / 2 / 2 / 2 / 2 / 2 / 2 == a / 0x100
  {
    var a8 := a / 2 / 2 / 2 / 2 / 2 / 2 / 2 / 2;
    DivModUnique(a, 0x100, a8, a - 0x100 * a8);
  }

  /** Masking with 0xFF00 is masking the high byte with 0xFF, shifted back into place. */
  lemma HighByteShift(a: nat)
    ensures BitAnd(a, 0xFF00) == 0x100 * BitAnd(a / 0x100, 0xFF)
  {
    var a1 := a / 2;
    var a2 := a1 / 2;
    var a3 := a2 / 2;
    var a4 := a3 / 2;
    var a5 := a4 / 2;
    var a6 := a5 / 2;
    var a7 := a6 / 2;
    EvenMask(a, 0x7F80);
    EvenMask(a1, 0x3FC0);
    EvenMask(a2, 0x1FE0);
    EvenMask(a3, 0x0FF0);
    EvenMask(a4, 0x07F8);
    EvenMask(a5, 0x03FC);
    EvenMask(a6, 0x01FE);
    EvenMask(a7, 0x00FF);
    EightHalvings(a);
  }

  /** `a & 0xFF00` on a 16-bit value clears its low byte. */
  lemma HighByteMask(a: Word)
    ensures BitAnd(a, 0xFF00) == a - a % 0x100
  {
    HighByteShift(a);
    LowByteMask(a / 0x100);
  }

  /** The byte AND: `a & b` on two bytes is a byte. */
  function And8(a: Byte, b: Byte): (r: Byte)
    ensures forall k: nat :: BitSet(r, k) <==> BitSet(a, k) && BitSet(b, k)
  {
    forall k: nat ensures BitSet(BitAnd(a, b), k) <==> BitSet(a, k) && BitSet(b, k) {
      BitAndBits(a, b, k);
    }
    BitAnd(a, b)
  }

  /** The byte OR: `a | b` on two bytes is a byte. */
  function Or8(a: Byte, b: Byte): (r: Byte)
    ensures forall k: nat :: BitSet(r, k) <==> BitSet(a, k) || BitSet(b, k)
  {
    forall k: nat ensures BitSet(BitOr(a, b), k) <==> BitSet(a, k) || BitSet(b, k) {
      BitOrBits(a, b, k);
    }
    BitOrBelow(a, b, 8);
    BitOr(a, b)
  }

  /** The byte XOR: `a ^ b` on two bytes is a byte. */
  function Xor8(a: Byte, b: Byte): (r: Byte)
    ensures forall k: nat :: BitSet(r, k) <==> BitSet(a, k) != BitSet(b, k)
  {
    forall k: nat ensures BitSet(BitXor(a, b), k) <==> BitSet(a, k) != BitSet(b, k) {
      BitXorBits(a, b, k);
    }
    BitXorBelow(a, b, 8);
    BitXor(a, b)
  }

  /** Bit 7 of a byte is its sign bit: set exactly for 0x80..0xFF. */
  lemma SignBit(v: Byte)
    ensures BitSet(v, 7) <==> v >= 0x80
  {
    var v1 := v / 2;
    var v2 := v1 / 2;
    var v3 := v2 / 2;
    var v4 := v3 / 2;
    var v5 := v4 / 2;
    var v6 := v5 / 2;
    var v7 := v6 / 2;
    assert BitSet(v, 7) == BitSet(v1, 6) == BitSet(v2, 5) == BitSet(v3, 4)
        == BitSet(v4, 3) == BitSet(v5, 2) == BitSet(v6, 1) == BitSet(v7, 0);
    assert v1 >= 0x40 <==> v >= 0x80;
    assert v2 >= 0x20 <==> v1 >= 0x40;
    assert v3 >= 0x10 <==> v2 >= 0x20;
    assert v4 >= 0x08 <==> v3 >= 0x10;
    assert v5 >= 0x04 <==> v4 >= 0x08;
    assert v6 >= 0x02 <==> v5 >= 0x04;
    assert v7 >= 0x01 <==> v6 >= 0x02;
    assert v7 < 2;
  }

  /** `high` with one more binary digit appended below it. */
  function AppendBit(high: nat, b: bool): (r: nat)
    ensures BitSet(r, 0) == b && r / 2 == high
  {
    2 * high + (if b then 1 else 0)
  }

  /** The byte whose bits 7..0 are `b7`..`b0`. */
  function Pack8(b7: bool, b6: bool, b5: bool, b4: bool, b3: bool, b2: bool, b1: bool, b0: bool): nat
  {
    AppendBit(AppendBit(AppendBit(AppendBit(AppendBit(AppendBit(AppendBit(AppendBit(
      0, b7), b6), b5), b4), b3), b2), b1), b0)
  }

  /** Packing bit by bit is the sum of the place values of the set bits. */
  lemma Pack8IsSum(b7: bool, b6: bool, b5: bool, b4: bool, b3: bool, b2: bool, b1: bool, b0: bool)
    ensures Pack8(b7, b6, b5, b4, b3, b2, b1, b0)
         == (if b7 then 0x80 else 0) + (if b6 then 0x40 else 0) + (if b5 then 0x20 else 0)
          + (if b4 then 0x10 else 0) + (if b3 then 0x08 else 0) + (if b2 then 0x04 else 0)
          + (if b1 then 0x02 else 0) + (if b0 then 0x01 else 0)
  {
  }

  /** Packing eight bits and reading them back gives the same bits, in the same places. */
  lemma Pack8Bits(b7: bool, b6: bool, b5: bool, b4: bool, b3: bool, b2: bool, b1: bool, b0: bool)
    ensures var p := Pack8(b7, b6, b5, b4, b3, b2, b1, b0);
      && p < 0x100
      && BitSet(p, 7) == b7 && BitSet(p, 6) == b6 && BitSet(p, 5) == b5 && BitSet(p, 4) == b4
      && BitSet(p, 3) == b3 && BitSet(p, 2) == b2 && BitSet(p, 1) == b1 && BitSet(p, 0) == b0
  {
    var p1 := AppendBit(0, b7);
    var p2 := AppendBit(p1, b6);
    var p3 := AppendBit(p2, b5);
    var p4 := AppendBit(p3, b4);
    var p5 := AppendBit(p4, b3);
    var p6 := AppendBit(p5, b2);
    var p7 := AppendBit(p6, b1);
    var p8 := AppendBit(p7, b0);
    BitsOfHalf(p8);
    BitsOfHalf(p7);
    BitsOfHalf(p6);
    BitsOfHalf(p5);
    BitsOfHalf(p4);
    BitsOfHalf(p3);
    BitsOfHalf(p2);
  }

  /** Bytes above 127 read as negative: the two's-complement value of a byte. */
  function ToSigned(b: Byte): (r: int)
    ensures -0x80 <= r < 0x80
    ensures (r + 0x100) % 0x100 == b
    ensures r < 0 <==> BitSet(b, 7)
  {
    SignBit(b);
    if b > 127 then b - 0x100 else b
  }

  /** A byte is zero exactly when none of its eight bits is set. */
  lemma ZeroIffNoBits(v: Byte)
    ensures v == 0 ==> forall k: nat :: k < 8 ==> !BitSet(v, k)
    ensures (forall k: nat :: k < 8 ==> !BitSet(v, k)) ==> v == 0
  {
    if v == 0 {
      forall k: nat | k < 8 ensures !BitSet(v, k) {
        NoBitOfZero(k);
      }
    }
    if forall k: nat :: k < 8 ==> !BitSet(v, k) {
      ByteFromBits(v);
      assert !BitSet(v, 0) && !BitSet(v, 1) && !BitSet(v, 2) && !BitSet(v, 3);
      assert !BitSet(v, 4) && !BitSet(v, 5) && !BitSet(v, 6) && !BitSet(v, 7);
    }
  }

  /** Bit `k` of `v` as a number, 0 or 1. */
  function BitValue(v: nat, k: nat): nat
  {
    if BitSet(v, k) then 1 else 0
  }

  /** A number is twice its half plus its lowest bit. */
  lemma HalveNumber(v: nat)
    ensures v == 2 * (v / 2) + BitValue(v, 0)
  {
  }

  /** A byte is the sum of the place values of its set bits. */
  lemma ByteFromBits(v: Byte)
    ensures v == 0x80 * BitValue(v, 7) + 0x40 * BitValue(v, 6) + 0x20 * BitValue(v, 5) + 0x10 * BitValue(v, 4)
               + 0x08 * BitValue(v, 3) + 0x04 * BitValue(v, 2) + 0x02 * BitValue(v, 1) + BitValue(v, 0)
  {
    var v1 := v / 2;
    var v2 := v1 / 2;
    var v3 := v2 / 2;
    var v4 := v3 / 2;
    var v5 := v4 / 2;
    var v6 := v5 / 2;
    var v7 := v6 / 2;
    HalveNumber(v);
    HalveNumber(v1);
    HalveNumber(v2);
    HalveNumber(v3);
    HalveNumber(v4);
    HalveNumber(v5);
    HalveNumber(v6);
    HalveNumber(v7);
    assert v7 / 2 == 0;
    BitValuesOfHalf(v);
    BitValuesOfHalf(v1);
    BitValuesOfHalf(v2);
    BitValuesOfHalf(v3);
    BitValuesOfHalf(v4);
    BitValuesOfHalf(v5);
    BitValuesOfHalf(v6);
  }

  /** The place values of a number above bit 0 are those of its half. */
  lemma BitValuesOfHalf(v: nat)
    ensures forall k: nat :: BitValue(v, k + 1) == BitValue(v / 2, k)
  {
    BitsOfHalf(v);
  }

  /** The bits of a number above bit 0 are the bits of its half. */
  lemma BitsOfHalf(v: nat)
    ensures forall k: nat :: BitSet(v, k + 1) == BitSet(v / 2, k)
  {
  }

  /** Adding a higher power of two leaves the bits below it alone. */
  lemma {:induction false} BitSetAddHigh(x: nat, j: nat, n: nat)
    requires j < n
    ensures BitSet(x + Pow2(n), j) == BitSet(x, j)
  {
    assert Pow2(n) == 2 * Pow2(n - 1);
    if j > 0 {
      assert (x + Pow2(n)) / 2 == x / 2 + Pow2(n - 1);
      BitSetAddHigh(x / 2, j - 1, n - 1);
    }
  }

  /** OR-ing a number below `2^n` into a multiple of `2^n` is addition. */
  lemma {:induction false} OrDisjointLow(h: nat, l: nat, n: nat)
    requires l < Pow2(n)
    ensures BitOr(h * Pow2(n), l) == h * Pow2(n) + l
    decreases n
  {
    if n > 0 && h != 0 && l != 0 {
      var p := Pow2(n - 1);
      var hp := h * p;
      assert Pow2(n) == 2 * p;
      assert h * Pow2(n) == 2 * hp;
      MulAtLeast(p, h);
      assert p * h == hp;
      assert (2 * hp) / 2 == hp && (2 * hp) % 2 == 0;
      assert l / 2 < p;
      assert BitOr(2 * hp, l) == 2 * BitOr(hp, l / 2) + l % 2;
      OrDisjointLow(h, l / 2, n - 1);
      assert BitOr(hp, l / 2) == hp + l / 2;
    }
  }

  /** Two bytes AND to zero exactly when they have no set bit in common. */
  lemma NoCommonBits(a: Byte, b: Byte)
    ensures And8(a, b) == 0 ==> forall k: nat :: k < 8 ==> !(BitSet(a, k) && BitSet(b, k))
    ensures (forall k: nat :: k < 8 ==> !(BitSet(a, k) && BitSet(b, k))) ==> And8(a, b) == 0
  {
    var c := And8(a, b);
    ZeroIffNoBits(c);
    if forall k: nat :: k < 8 ==> !(BitSet(a, k) && BitSet(b, k)) {
      forall k: nat | k < 8 ensures !BitSet(c, k) {
      }
    }
  }
}
