/**
  * PHA, PLA, PHP and PLP: A or the packed status byte is pushed onto, or
  * pulled from, the stack in page one.
  */
module StackOps {
  import opened Bytes
  import opened Registers
  import opened Memory
  import opened Flags
  import opened Cpu
  import opened Loads

  /** PHA: A goes onto the stack; two cycles. */
  function Pha(m: Machine): (r: Machine)
    ensures r.cpu == m.cpu.(regs := m.cpu.regs.(sp := r.cpu.regs.sp), cycles := m.cpu.cycles + 2)
    ensures r.cpu.regs.sp == (m.cpu.regs.sp + 0xFF) % 0x100
    ensures r.mem == m.mem[StackCell(r.cpu.regs.sp) := m.cpu.regs.a]
  {
    StackPushByte(m.cpu, m.mem, m.cpu.regs.a)
  }

  /** PLA: A is pulled from the stack and Z and N describe it; three cycles. */
  function Pla(m: Machine): (r: Machine)
    ensures r.cpu.regs == m.cpu.regs.(a := m.mem[StackCell(m.cpu.regs.sp)], sp := (m.cpu.regs.sp + 1) % 0x100)
    ensures DescribesValue(r.cpu.flags, m.cpu.flags, r.cpu.regs.a)
    ensures r.cpu.pc == m.cpu.pc && r.cpu.cycles == m.cpu.cycles + 3
    ensures r.mem == m.mem
  {
    var popped := StackPopByte(m.cpu, m.mem);
    var loaded := popped.cpu.(regs := popped.cpu.regs.(a := popped.value), cycles := popped.cpu.cycles + 1);
    SignBit(popped.value);
    Machine(SetFlagsOnRegisterLoad(loaded, A), m.mem)
  }

  /** PHP: the packed status byte goes onto the stack; two cycles. */
  function Php(m: Machine): (r: Machine)
    ensures r.cpu == m.cpu.(regs := m.cpu.regs.(sp := r.cpu.regs.sp), cycles := m.cpu.cycles + 2)
    ensures r.cpu.regs.sp == (m.cpu.regs.sp + 0xFF) % 0x100
    ensures r.mem == m.mem[StackCell(r.cpu.regs.sp) := Status(m.cpu.flags)]
  {
    StackPushByte(m.cpu, m.mem, Status(m.cpu.flags))
  }

  /**
    * PLP: the flags are unpacked from the pulled byte, each flag from its own
    * bit; three cycles.
    */
  function Plp(m: Machine): (r: Machine)
    ensures var v := m.mem[StackCell(m.cpu.regs.sp)];
            && r.cpu.flags.N == BitSet(v, 7) && r.cpu.flags.V == BitSet(v, 6)
            && r.cpu.flags.B == BitSet(v, 4) && r.cpu.flags.D == BitSet(v, 3)
            && r.cpu.flags.I == BitSet(v, 2) && r.cpu.flags.Z == BitSet(v, 1)
            && r.cpu.flags.C == BitSet(v, 0) && r.cpu.flags.Unused
    ensures r.cpu.regs == m.cpu.regs.(sp := (m.cpu.regs.sp + 1) % 0x100)
    ensures r.cpu.pc == m.cpu.pc && r.cpu.cycles == m.cpu.cycles + 3
    ensures r.mem == m.mem
  {
    var popped := StackPopByte(m.cpu, m.mem);
    Machine(popped.cpu.(flags := SetStatus(popped.value), cycles := popped.cpu.cycles + 1), m.mem)
  }

  /**
    * PHA then PLA gives back A and the stack pointer; with the two opcode
    * fetches the pair takes seven cycles.
    */
  lemma PlaAfterPha(m: Machine)
    ensures var back := Pla(Pha(m));
            && back.cpu.regs == m.cpu.regs
            && back.cpu.cycles + 2 * FETCH_CYCLES == m.cpu.cycles + 7
  {
  }

  /**
    * PHP then PLP gives back every flag. The always-set bit 5 comes back set,
    * so the flags must have had it set to begin with.
    */
  lemma PlpAfterPhp(m: Machine)
    requires m.cpu.flags.Unused
    ensures var back := Plp(Php(m));
            back.cpu.flags == m.cpu.flags && back.cpu.regs == m.cpu.regs
  {
    PackThenUnpack(m.cpu.flags);
  }

  /**
    * With every flag set (status 0xFF), PHP then PLP reads back status 0xFF,
    * even when the flags in between were cleared.
    */
  lemma FullStatusSurvivesStack(m: Machine, cleared: StatusFlags)
    requires Status(m.cpu.flags) == 0xFF
    ensures var pushed := Php(m);
            Status(Plp(pushed.(cpu := pushed.cpu.(flags := cleared))).cpu.flags) == 0xFF
  {
    UnpackThenPack(0xFF);
    assert Or8(0xFF, 0x20) == 0xFF by {
      forall k: nat | k < 8 ensures BitSet(Or8(0xFF, 0x20), k) <==> BitSet(0xFF, k) { }
      SameBitsSameByte(Or8(0xFF, 0x20), 0xFF);
    }
  }
}
