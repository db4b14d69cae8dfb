/** NOP: spends one cycle and changes nothing else. */
module SystemOps {
  import opened Cpu

  /** NOP: one cycle beyond the fetch; registers, flags, PC and memory stay as they are. */
  function Nop(m: Machine): (r: Machine)
    ensures r.cpu.cycles == m.cpu.cycles + 1
    ensures r.cpu.regs == m.cpu.regs && r.cpu.flags == m.cpu.flags && r.cpu.pc == m.cpu.pc
    ensures r.mem == m.mem
  {
    m.(cpu := m.cpu.(cycles := m.cpu.cycles + 1))
  }
}
