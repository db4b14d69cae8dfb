/**
  * The eight status flags and their packed form, the status byte, with bit
  * order N V Unused B D I Z C from bit 7 down to bit 0.
  */
module Flags {
  import opened Bytes

  datatype StatusFlags = StatusFlags(
    C: bool,      // carry
    Z: bool,      // zero
    I: bool,      // interrupt disable
    D: bool,      // decimal mode
    B: bool,      // break
    Unused: bool, // bit 5, reads as 1
    V: bool,      // overflow
    N: bool       // negative
  )

  /** The four flags a conditional branch can test. */
  datatype Flag = Carry | Zero | Negative | Overflow

  function GetFlag(f: StatusFlags, flag: Flag): bool
  {
    match flag
    case Carry => f.C
    case Zero => f.Z
    case Negative => f.N
    case Overflow => f.V
  }

  /** Masks of the N and V bits in a byte. */
  const NEGATIVE_MASK: Byte := 0x80
  const OVERFLOW_MASK: Byte := 0x40

  /** The flags of a fresh flag set: all clear except Unused. */
  function Default(): (f: StatusFlags)
    ensures !f.C && !f.Z && !f.I && !f.D && !f.B && !f.V && !f.N && f.Unused
  {
    StatusFlags(C := false, Z := false, I := false, D := false, B := false, Unused := true, V := false, N := false)
  }

  /** The packed status byte: each flag is one bit, N at bit 7 down to C at bit 0. */
  function Status(f: StatusFlags): (s: Byte)
    ensures BitSet(s, 7) == f.N && BitSet(s, 6) == f.V && BitSet(s, 5) == f.Unused
    ensures BitSet(s, 4) == f.B && BitSet(s, 3) == f.D && BitSet(s, 2) == f.I
    ensures BitSet(s, 1) == f.Z && BitSet(s, 0) == f.C
  {
    Pack8IsSum(f.N, f.V, f.Unused, f.B, f.D, f.I, f.Z, f.C);
    Pack8Bits(f.N, f.V, f.Unused, f.B, f.D, f.I, f.Z, f.C);
    (if f.N then 0x80 else 0) + (if f.V then 0x40 else 0) + (if f.Unused then 0x20 else 0)
    + (if f.B then 0x10 else 0) + (if f.D then 0x08 else 0) + (if f.I then 0x04 else 0)
    + (if f.Z then 0x02 else 0) + (if f.C then 0x01 else 0)
  }

  /** Assigning the status byte: every flag takes its bit, except Unused, which is forced to 1. */
  function SetStatus(v: Byte): (f: StatusFlags)
    ensures f.Unused
    ensures f.N == BitSet(v, 7) && f.V == BitSet(v, 6) && f.B == BitSet(v, 4) && f.D == BitSet(v, 3)
    ensures f.I == BitSet(v, 2) && f.Z == BitSet(v, 1) && f.C == BitSet(v, 0)
  {
    StatusFlags(C := BitSet(v, 0), Z := BitSet(v, 1), I := BitSet(v, 2), D := BitSet(v, 3),
                B := BitSet(v, 4), Unused := true, V := BitSet(v, 6), N := BitSet(v, 7))
  }

  /** Z and N after a value lands in a register: Z iff the value is zero, N iff its bit 7 is set. */
  function SetZAndN(f: StatusFlags, v: Byte): (r: StatusFlags)
    ensures r.Z <==> v == 0
    ensures r.N <==> v >= 0x80
    ensures r == f.(Z := r.Z, N := r.N)
  {
    MaskSignBit(v);
    f.(Z := v == 0, N := And8(v, NEGATIVE_MASK) != 0)
  }

  /** `v & 0x80` is non-zero exactly for the bytes 0x80..0xFF. */
  lemma MaskSignBit(v: Byte)
    ensures And8(v, NEGATIVE_MASK) != 0 <==> v >= 0x80
  {
    assert Pow2(7) == 0x80;
    BitAndSingleBit(v, 7);
    SignBit(v);
  }

  /** `v & 0x40` is non-zero exactly when bit 6 of `v` is set. */
  lemma MaskOverflowBit(v: Byte)
    ensures And8(v, OVERFLOW_MASK) != 0 <==> BitSet(v, 6)
  {
    assert Pow2(6) == 0x40;
    BitAndSingleBit(v, 6);
  }

  /** Two bytes with the same eight bits are equal. */
  lemma {:induction false} SameBitsSameByte(u: Byte, v: Byte)
    requires forall k: nat :: k < 8 ==> (BitSet(u, k) <==> BitSet(v, k))
    ensures u == v
  {
    ByteFromBits(u);
    ByteFromBits(v);
  }

  /** A fresh flag set packs to 0x20 (only bit 5 set). */
  lemma DefaultStatus()
    ensures Status(Default()) == 0x20
  {
  }

  /** Unpacking a packed status gives back the flags, provided Unused is set as it always is. */
  lemma PackThenUnpack(f: StatusFlags)
    requires f.Unused
    ensures SetStatus(Status(f)) == f
  {
  }

  /** Packing an assigned status gives back the byte with bit 5 forced on: `v | 0x20`. */
  lemma {:induction false} UnpackThenPack(v: Byte)
    ensures Status(SetStatus(v)) == Or8(v, 0x20)
  {
    var s := Status(SetStatus(v));
    var o := Or8(v, 0x20);
    assert BitSet(0x20, 5) && !BitSet(0x20, 0) && !BitSet(0x20, 1) && !BitSet(0x20, 2);
    assert !BitSet(0x20, 3) && !BitSet(0x20, 4) && !BitSet(0x20, 6) && !BitSet(0x20, 7);
    SameBitsSameByte(s, o);
  }

  /** Setting C, Z, I, D, B, V, N one after another adds bits 0, 1, 2, 3, 4, 6, 7 in turn. */
  lemma StatusBitsInTurn()
    ensures var f0 := Default();
            var f1 := f0.(C := true);
            var f2 := f1.(Z := true);
            var f3 := f2.(I := true);
            var f4 := f3.(D := true);
            var f5 := f4.(B := true);
            var f6 := f5.(V := true);
            var f7 := f6.(N := true);
            && Status(f1) == 0x21 && Status(f2) == 0x23 && Status(f3) == 0x27
            && Status(f4) == 0x2F && Status(f5) == 0x3F && Status(f6) == 0x7F
            && Status(f7) == 0xFF
  {
  }
}
