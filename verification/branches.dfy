/**
  * BCC, BCS, BEQ, BNE, BMI, BPL, BVC and BVS: the byte after the opcode is a
  * signed offset from the next instruction, taken when a flag has the value
  * the instruction tests for.
  */
module Branches {
  import opened Bytes
  import opened Results
  import opened Memory
  import opened Flags
  import opened Cpu

  /**
    * Branches on `flag` being `test`. Reading the offset costs a cycle; a
    * taken branch costs one more, and one more again when it lands on a
    * different page from the next instruction.
    */
  function Branch(m: Machine, flag: Flag, test: bool): (r: Result<Machine>)
    ensures r.Ok? <==> ValidAddress(m.cpu.pc)
    ensures r.Err? ==> r.error == AddressOutOfRange(m.cpu.pc)
    ensures r.Ok? ==>
      var next := m.cpu.pc + 1;
      var offset := ToSigned(m.mem[m.cpu.pc]);
      var c := r.value.cpu;
      && (GetFlag(m.cpu.flags, flag) == test ==>
            && c.pc == next + offset
            && c.cycles == m.cpu.cycles + 2 + (if OffsetCrossesPageBoundary(next, offset) then 1 else 0))
      && (GetFlag(m.cpu.flags, flag) != test ==> c.pc == next && c.cycles == m.cpu.cycles + 1)
    ensures r.Ok? ==> r.value == m.(cpu := m.cpu.(pc := r.value.cpu.pc, cycles := r.value.cpu.cycles))
  {
    var raw :- ReadByte(m.mem, m.cpu.pc);
    var next := m.cpu.(pc := m.cpu.pc + 1, cycles := m.cpu.cycles + 1);
    var offset := ToSigned(raw);
    if GetFlag(m.cpu.flags, flag) == test then
      var extra := if OffsetCrossesPageBoundary(next.pc, offset) then 1 else 0;
      Ok(m.(cpu := next.(pc := next.pc + offset, cycles := next.cycles + extra + 1)))
    else
      Ok(m.(cpu := next))
  }

  /**
    * Of a complementary pair (BEQ and BNE, say) on the same state, exactly
    * one is taken: the other falls through to the next instruction in one
    * cycle while the taken one spends at least two.
    */
  lemma ComplementaryBranches(m: Machine, flag: Flag)
    requires ValidAddress(m.cpu.pc)
    ensures var onSet := Branch(m, flag, true).value.cpu;
            var onClear := Branch(m, flag, false).value.cpu;
            && (GetFlag(m.cpu.flags, flag) ==> onClear.pc == m.cpu.pc + 1 && onClear.cycles == m.cpu.cycles + 1
                                                && onSet.cycles >= m.cpu.cycles + 2)
            && (!GetFlag(m.cpu.flags, flag) ==> onSet.pc == m.cpu.pc + 1 && onSet.cycles == m.cpu.cycles + 1
                                                 && onClear.cycles >= m.cpu.cycles + 2)
  {
  }

  /**
    * An offset of 0xFE (-2) lands back on the branch opcode itself, one byte
    * before the offset: a taken branch of this kind loops forever.
    */
  lemma BranchToItself(m: Machine, flag: Flag)
    requires ValidAddress(m.cpu.pc) && m.mem[m.cpu.pc] == 0xFE
    ensures Branch(m, flag, GetFlag(m.cpu.flags, flag)).value.cpu.pc == m.cpu.pc - 1
  {
  }

  /** Branch targets lie within 128 bytes before and 127 bytes after the next instruction. */
  lemma BranchReach(m: Machine, flag: Flag, test: bool)
    requires ValidAddress(m.cpu.pc)
    ensures var next := m.cpu.pc + 1;
            next - 0x80 <= Branch(m, flag, test).value.cpu.pc <= next + 0x7F
  {
  }

  /** A branch with its opcode fetch takes two, three or four cycles. */
  lemma BranchCycles(m: Machine, flag: Flag, test: bool)
    requires ValidAddress(m.cpu.pc)
    ensures 2 <= Branch(m, flag, test).value.cpu.cycles + FETCH_CYCLES - m.cpu.cycles <= 4
  {
  }
}
