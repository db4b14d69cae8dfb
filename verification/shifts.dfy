/**
  * ASL: the operand is shifted one place left, either in A or in memory.
  * C receives the bit shifted out and Z describes the result. This handler
  * does not write N (a 6502 sets N from bit 7 of the result); the model
  * keeps the handler as it is.
  */
module Shifts {
  import opened Bytes
  import opened Results
  import opened AddressModes
  import opened Registers
  import opened Memory
  import opened Flags
  import opened Cpu

  /** The byte shifted one place left: bit 7 falls off and bit 0 becomes 0. */
  function ShiftLeft(v: Byte): (w: Byte)
    ensures !BitSet(w, 0)
    ensures forall k: nat :: 1 <= k < 8 ==> (BitSet(w, k) <==> BitSet(v, k - 1))
  {
    forall k: nat | 1 <= k < 8 ensures BitSet(CapAtEightBits(2 * v), k) <==> BitSet(v, k - 1) {
      if v >= 0x80 {
        assert Pow2(7) == 0x80;
        BitSetAddHigh(v - 0x80, k - 1, 7);
      }
    }
    CapAtEightBits(2 * v)
  }

  /** Doubling a byte is its left shift plus the carry out of bit 7. */
  lemma ShiftLeftDoubles(v: Byte)
    ensures 2 * v == ShiftLeft(v) + (if BitSet(v, 7) then 0x100 else 0)
  {
    SignBit(v);
  }

  /**
    * Puts a shifted byte back where it came from: into A for one cycle, or
    * into memory for three, plus one more for AbsoluteX.
    */
  function SaveShift(m: Machine, mode: AddressMode, data: Byte, target: Target): (r: Result<Machine>)
    requires mode != Accumulator ==> target.InMemory?
    ensures mode == Accumulator ==>
              r == Ok(Machine(m.cpu.(regs := m.cpu.regs.(a := data), cycles := m.cpu.cycles + 1), m.mem))
    ensures mode != Accumulator ==> (r.Ok? <==> ValidAddress(target.address))
    ensures mode != Accumulator && r.Ok? ==>
              && r.value.mem == m.mem[target.address := data]
              && r.value.cpu == m.cpu.(cycles := m.cpu.cycles + 3 + (if mode == AbsoluteX then 1 else 0))
  {
    if mode == Accumulator then
      Ok(Machine(m.cpu.(regs := m.cpu.regs.(a := data), cycles := m.cpu.cycles + 1), m.mem))
    else
      var written :- WriteByte(m.mem, target.address, data);
      var extra := if mode == AbsoluteX then 1 else 0;
      Ok(Machine(m.cpu.(cycles := m.cpu.cycles + 3 + extra), written))
  }

  /**
    * ASL through `mode`. C takes the old bit 7, Z says the result is zero,
    * and the result goes back to A or to the operand's memory cell.
    */
  function Asl(m: Machine, mode: AddressMode): (r: Result<Machine>)
    ensures r.Ok? <==> mode != Immediate && Readable(m.cpu, m.mem, mode)
    ensures r.Ok? ==>
      var v := OperandValue(m.cpu, m.mem, mode);
      var w := ShiftLeft(v);
      var c := r.value.cpu;
      && (c.flags.C <==> BitSet(v, 7))
      && (c.flags.Z <==> w == 0)
      && c.flags == m.cpu.flags.(C := c.flags.C, Z := c.flags.Z)
      && (mode == Accumulator ==> c.regs == m.cpu.regs.(a := w) && r.value.mem == m.mem)
      && (mode != Accumulator ==>
            c.regs == m.cpu.regs && r.value.mem == m.mem[EffectiveAddress(m.cpu, m.mem, mode) := w])
      && c.pc == m.cpu.pc + OperandBytes(mode)
      && c.cycles + FETCH_CYCLES == m.cpu.cycles + ReadModifyWriteCycles(mode)
  {
    var operand :- ReadByteAndAddress(m.cpu, m.mem, mode);
    var data := operand.value;
    MaskSignBit(data);
    SignBit(data);
    var carry := And8(data, NEGATIVE_MASK) > 0;
    var shifted := ShiftLeft(data);
    var flagged := operand.cpu.(flags := operand.cpu.flags.(C := carry, Z := shifted == 0));
    SaveShift(Machine(flagged, m.mem), mode, shifted, operand.target)
  }

  /** ASL A doubles A modulo 256, the doubled-out bit landing in C. */
  lemma AslAccumulatorDoubles(m: Machine)
    ensures var r := Asl(m, Accumulator).value;
            2 * m.cpu.regs.a == r.cpu.regs.a + (if r.cpu.flags.C then 0x100 else 0)
  {
    ShiftLeftDoubles(m.cpu.regs.a);
  }

  /** ASL A on 0x80 leaves 0 with Z and C set, in two cycles. */
  lemma AslOutOfTheTop(m: Machine)
    requires m.cpu.regs.a == 0x80
    ensures var r := Asl(m, Accumulator).value;
            r.cpu.regs.a == 0 && r.cpu.flags.Z && r.cpu.flags.C && r.cpu.cycles == m.cpu.cycles + 1
  {
    ShiftLeftDoubles(0x80);
  }

  /**
    * ASL A on 0x40 gives 0x80 but leaves N as it was: this handler does not
    * set N from the result.
    */
  lemma AslLeavesNegativeAlone(m: Machine)
    requires m.cpu.regs.a == 0x40 && !m.cpu.flags.N
    ensures var r := Asl(m, Accumulator).value;
            r.cpu.regs.a == 0x80 && !r.cpu.flags.N
  {
    ShiftLeftDoubles(0x40);
  }
}
