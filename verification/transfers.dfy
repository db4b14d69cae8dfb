/**
  * TAX, TAY, TXA, TYA, TSX and TXS: one register is copied into another.
  * Z and N describe the copied value, except when the destination is the
  * stack pointer, which leaves the flags alone.
  */
module Transfers {
  import opened Bytes
  import opened Registers
  import opened Cpu
  import opened Loads

  /** Copies `source` into `destination`; one cycle. */
  function TransferRegister(m: Machine, source: Register, destination: Register): (r: Machine)
    ensures Get(r.cpu.regs, destination) == Get(m.cpu.regs, source)
    ensures forall o: Register :: o != destination ==> Get(r.cpu.regs, o) == Get(m.cpu.regs, o)
    ensures destination == SP ==> r.cpu.flags == m.cpu.flags
    ensures destination != SP ==> DescribesValue(r.cpu.flags, m.cpu.flags, Get(m.cpu.regs, source))
    ensures r.cpu.pc == m.cpu.pc && r.cpu.cycles == m.cpu.cycles + 1
    ensures r.mem == m.mem
  {
    var v := Get(m.cpu.regs, source);
    var copied := m.cpu.(regs := Set(m.cpu.regs, destination, v), cycles := m.cpu.cycles + 1);
    SignBit(v);
    if destination != SP then Machine(SetFlagsOnRegisterLoad(copied, destination), m.mem)
    else Machine(copied, m.mem)
  }

  /**
    * Copying back right after a copy changes nothing but the cycle count:
    * both registers already hold the same value, and Z and N already
    * describe it.
    */
  lemma TransferBackIsRedundant(m: Machine, source: Register, destination: Register)
    requires destination != SP
    ensures var there := TransferRegister(m, source, destination);
            TransferRegister(there, destination, source)
              == there.(cpu := there.cpu.(cycles := there.cpu.cycles + 1))
  {
    var there := TransferRegister(m, source, destination);
    var back := TransferRegister(there, destination, source);
    assert back.cpu.regs == there.cpu.regs by {
      assert Get(back.cpu.regs, A) == Get(there.cpu.regs, A);
      assert Get(back.cpu.regs, X) == Get(there.cpu.regs, X);
      assert Get(back.cpu.regs, Y) == Get(there.cpu.regs, Y);
      assert Get(back.cpu.regs, SP) == Get(there.cpu.regs, SP);
    }
  }
}
