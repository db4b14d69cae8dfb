/**
  * LDA, LDX and LDY: a register takes the operand value, and Z and N
  * describe the value loaded.
  */
module Loads {
  import opened Bytes
  import opened Results
  import opened AddressModes
  import opened Registers
  import opened Flags
  import opened Cpu

  /** Z and N describe `v`, and no other flag differs from `before`. */
  predicate DescribesValue(after: StatusFlags, before: StatusFlags, v: Byte)
  {
    && (after.Z <==> v == 0)
    && (after.N <==> BitSet(v, 7))
    && after == before.(Z := after.Z, N := after.N)
  }

  /**
    * Loads `reg` with the operand of `mode` and sets Z and N from the value
    * loaded. Fails where the operand cannot be read.
    */
  function LoadRegister(m: Machine, mode: AddressMode, reg: Register): (r: Result<Machine>)
    ensures r.Ok? <==> Readable(m.cpu, m.mem, mode)
    ensures r.Err? ==> (r.error.InvalidAddressMode? <==> mode in {Indirect, Implied, Relative})
    ensures r.Ok? ==>
      var v := OperandValue(m.cpu, m.mem, mode);
      var c := r.value.cpu;
      && Get(c.regs, reg) == v
      && (forall o: Register :: o != reg ==> Get(c.regs, o) == Get(m.cpu.regs, o))
      && DescribesValue(c.flags, m.cpu.flags, v)
      && c.pc == m.cpu.pc + OperandBytes(mode)
      && c.cycles + FETCH_CYCLES == m.cpu.cycles + ReadInstructionCycles(mode, CrossesPage(m.cpu, m.mem, mode))
      && r.value.mem == m.mem
  {
    var fetched :- ReadByteFromMemory(m.cpu, m.mem, mode);
    var loaded := fetched.cpu.(regs := Set(fetched.cpu.regs, reg, fetched.value));
    SignBit(fetched.value);
    Ok(Machine(SetFlagsOnRegisterLoad(loaded, reg), m.mem))
  }

  /** LDA #$42 puts 0x42 in A and clears Z and N, in two cycles. */
  lemma LoadImmediateExample(m: Machine)
    requires 0 <= m.cpu.pc < 0xFFFF && m.mem[m.cpu.pc] == 0x42
    ensures var r := LoadRegister(m, Immediate, A);
            && r.Ok? && r.value.cpu.regs.a == 0x42
            && !r.value.cpu.flags.Z && !r.value.cpu.flags.N
            && r.value.cpu.cycles == m.cpu.cycles + 1
            && r.value.cpu.pc == m.cpu.pc + 1
  {
    var r := LoadRegister(m, Immediate, A);
    assert Get(r.value.cpu.regs, A) == 0x42;
  }
}
