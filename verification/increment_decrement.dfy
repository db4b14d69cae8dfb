/**
  * INC, DEC, INX, INY, DEX and DEY: add or subtract one, wrapping within a
  * byte, and set Z and N from the result.
  */
module IncrementDecrement {
  import opened Bytes
  import opened Results
  import opened AddressModes
  import opened Registers
  import opened Memory
  import opened Flags
  import opened Cpu
  import opened Loads

  /** One more than `data`, with 0xFF wrapping to 0x00; Z and N describe the result. */
  function IncrementAndSetFlags(c: CpuState, data: Byte): (r: Fetched)
    ensures data < 0xFF ==> r.value == data + 1
    ensures data == 0xFF ==> r.value == 0
    ensures r.value == (data + 1) % 0x100
    ensures r.cpu == c.(flags := r.cpu.flags) && DescribesValue(r.cpu.flags, c.flags, r.value)
  {
    var v := CapAtEightBits(data + 1);
    SignBit(v);
    Fetched(c.(flags := SetZAndN(c.flags, v)), v)
  }

  /** One less than `data`, with 0x00 wrapping to 0xFF; Z and N describe the result. */
  function DecrementAndSetFlags(c: CpuState, data: Byte): (r: Fetched)
    ensures data > 0 ==> r.value == data - 1
    ensures data == 0 ==> r.value == 0xFF
    ensures r.value == (data + 0xFF) % 0x100
    ensures r.cpu == c.(flags := r.cpu.flags) && DescribesValue(r.cpu.flags, c.flags, r.value)
  {
    var d := data - 1;
    var v := if d < 0 then d + 0x100 else d;
    assert v == (data + 0xFF) % 0x100;
    SignBit(v);
    Fetched(c.(flags := SetZAndN(c.flags, v)), v)
  }

  /** Incrementing and decrementing undo each other, in either order. */
  lemma IncrementDecrementInverse(c1: CpuState, c2: CpuState, data: Byte)
    ensures DecrementAndSetFlags(c2, IncrementAndSetFlags(c1, data).value).value == data
    ensures IncrementAndSetFlags(c2, DecrementAndSetFlags(c1, data).value).value == data
  {
  }

  /** INX or INY: the register goes up by one modulo 256; one cycle. */
  function IncrementRegister(m: Machine, reg: Register): (r: Machine)
    requires reg == X || reg == Y
    ensures Get(r.cpu.regs, reg) == (Get(m.cpu.regs, reg) + 1) % 0x100
    ensures forall o: Register :: o != reg ==> Get(r.cpu.regs, o) == Get(m.cpu.regs, o)
    ensures DescribesValue(r.cpu.flags, m.cpu.flags, Get(r.cpu.regs, reg))
    ensures r.cpu.pc == m.cpu.pc && r.cpu.cycles == m.cpu.cycles + 1 && r.mem == m.mem
  {
    var stepped := IncrementAndSetFlags(m.cpu, Get(m.cpu.regs, reg));
    Machine(stepped.cpu.(regs := Set(m.cpu.regs, reg, stepped.value), cycles := m.cpu.cycles + 1), m.mem)
  }

  /** DEX or DEY: the register goes down by one modulo 256; one cycle. */
  function DecrementRegister(m: Machine, reg: Register): (r: Machine)
    requires reg == X || reg == Y
    ensures Get(r.cpu.regs, reg) == (Get(m.cpu.regs, reg) + 0xFF) % 0x100
    ensures forall o: Register :: o != reg ==> Get(r.cpu.regs, o) == Get(m.cpu.regs, o)
    ensures DescribesValue(r.cpu.flags, m.cpu.flags, Get(r.cpu.regs, reg))
    ensures r.cpu.pc == m.cpu.pc && r.cpu.cycles == m.cpu.cycles + 1 && r.mem == m.mem
  {
    var stepped := DecrementAndSetFlags(m.cpu, Get(m.cpu.regs, reg));
    Machine(stepped.cpu.(regs := Set(m.cpu.regs, reg, stepped.value), cycles := m.cpu.cycles + 1), m.mem)
  }

  /**
    * Writes a modified byte back to memory: two cycles for the modification,
    * one for the write, and one more for AbsoluteX.
    */
  function WriteModified(c: CpuState, mem: Ram, mode: AddressMode, address: int, data: Byte): Result<Machine>
  {
    var charged := c.(cycles := c.cycles + 2);
    var written :- WriteByte(mem, address, data);
    var extra := if mode == AbsoluteX then 1 else 0;
    Ok(Machine(charged.(cycles := charged.cycles + 1 + extra), written))
  }

  /**
    * INC on memory: the operand's cell goes up by one modulo 256 and Z and N
    * describe the new value. Registers do not change.
    */
  function IncrementMemory(m: Machine, mode: AddressMode): (r: Result<Machine>)
    requires mode != Accumulator
    ensures r.Ok? <==> mode != Immediate && Readable(m.cpu, m.mem, mode)
    ensures r.Ok? ==>
      var w := (OperandValue(m.cpu, m.mem, mode) + 1) % 0x100;
      && r.value.mem == m.mem[EffectiveAddress(m.cpu, m.mem, mode) := w]
      && r.value.cpu.regs == m.cpu.regs
      && DescribesValue(r.value.cpu.flags, m.cpu.flags, w)
      && r.value.cpu.pc == m.cpu.pc + OperandBytes(mode)
      && r.value.cpu.cycles + FETCH_CYCLES == m.cpu.cycles + ReadModifyWriteCycles(mode)
  {
    var operand :- ReadByteAndAddress(m.cpu, m.mem, mode);
    var stepped := IncrementAndSetFlags(operand.cpu, operand.value);
    WriteModified(stepped.cpu, m.mem, mode, operand.target.address, stepped.value)
  }

  /**
    * DEC on memory: the operand's cell goes down by one modulo 256 and Z and
    * N describe the new value. Registers do not change.
    */
  function DecrementMemory(m: Machine, mode: AddressMode): (r: Result<Machine>)
    requires mode != Accumulator
    ensures r.Ok? <==> mode != Immediate && Readable(m.cpu, m.mem, mode)
    ensures r.Ok? ==>
      var w := (OperandValue(m.cpu, m.mem, mode) + 0xFF) % 0x100;
      && r.value.mem == m.mem[EffectiveAddress(m.cpu, m.mem, mode) := w]
      && r.value.cpu.regs == m.cpu.regs
      && DescribesValue(r.value.cpu.flags, m.cpu.flags, w)
      && r.value.cpu.pc == m.cpu.pc + OperandBytes(mode)
      && r.value.cpu.cycles + FETCH_CYCLES == m.cpu.cycles + ReadModifyWriteCycles(mode)
  {
    var operand :- ReadByteAndAddress(m.cpu, m.mem, mode);
    var stepped := DecrementAndSetFlags(operand.cpu, operand.value);
    WriteModified(stepped.cpu, m.mem, mode, operand.target.address, stepped.value)
  }

  /** INX then DEX (or INY then DEY) gives every register back. */
  lemma IncrementThenDecrementRegister(m: Machine, reg: Register)
    requires reg == X || reg == Y
    ensures DecrementRegister(IncrementRegister(m, reg), reg).cpu.regs == m.cpu.regs
  {
    var back := DecrementRegister(IncrementRegister(m, reg), reg).cpu.regs;
    assert Get(back, A) == Get(m.cpu.regs, A) && Get(back, X) == Get(m.cpu.regs, X);
    assert Get(back, Y) == Get(m.cpu.regs, Y) && Get(back, SP) == Get(m.cpu.regs, SP);
  }

  /**
    * INC then DEC through the same operand bytes gives memory back. The modes
    * are those whose address comes from the operand bytes and X only, and the
    * cell must not be one of the operand bytes.
    */
  lemma IncrementThenDecrementMemory(m: Machine, mode: AddressMode)
    requires mode in {ZeroPage, ZeroPageX, Absolute, AbsoluteX}
    requires Readable(m.cpu, m.mem, mode)
    requires var a := EffectiveAddress(m.cpu, m.mem, mode);
             !(m.cpu.pc <= a < m.cpu.pc + OperandBytes(mode))
    ensures var once := IncrementMemory(m, mode).value;
            var back := DecrementMemory(once.(cpu := once.cpu.(pc := m.cpu.pc)), mode);
            back.Ok? && back.value.mem == m.mem
  {
    var a := EffectiveAddress(m.cpu, m.mem, mode);
    var once := IncrementMemory(m, mode).value;
    var rewound := once.cpu.(pc := m.cpu.pc);
    AddressSurvivesWrite(m.cpu, rewound, m.mem, mode, a, once.mem[a]);
    assert once.mem == m.mem[a := once.mem[a]];
    DecrementRestores(Machine(rewound, once.mem), mode, a, m.mem[a]);
  }

  /** DEC on a cell holding one more than `v` (modulo 256) puts `v` back. */
  lemma DecrementRestores(m: Machine, mode: AddressMode, a: int, v: Byte)
    requires mode != Accumulator && mode != Immediate && Readable(m.cpu, m.mem, mode)
    requires EffectiveAddress(m.cpu, m.mem, mode) == a && m.mem[a] == (v + 1) % 0x100
    ensures DecrementMemory(m, mode).Ok? && DecrementMemory(m, mode).value.mem == m.mem[a := v]
  {
    StepBack(v);
  }

  /** Adding 0xFF modulo 256 undoes adding one modulo 256. */
  lemma StepBack(v: Byte)
    ensures ((v + 1) % 0x100 + 0xFF) % 0x100 == v
  {
    if v == 0xFF {
      assert (v + 1) % 0x100 == 0;
    } else {
      assert (v + 1) % 0x100 == v + 1;
    }
  }

  /** INX on 0xFF wraps to 0x00 and sets Z. */
  lemma IncrementWraps(m: Machine)
    requires m.cpu.regs.x == 0xFF
    ensures var r := IncrementRegister(m, X).cpu;
            r.regs.x == 0 && r.flags.Z && !r.flags.N
  {
    assert Get(IncrementRegister(m, X).cpu.regs, X) == 0;
  }

  /** DEY on 0x00 wraps to 0xFF and sets N. */
  lemma DecrementWraps(m: Machine)
    requires m.cpu.regs.y == 0
    ensures var r := DecrementRegister(m, Y).cpu;
            r.regs.y == 0xFF && r.flags.N && !r.flags.Z
  {
    assert Get(DecrementRegister(m, Y).cpu.regs, Y) == 0xFF;
  }
}
