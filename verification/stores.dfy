/**
  * STA, STX and STY: a register's value is written to the effective address.
  * Stores never charge for page crossings, but the indexed modes AbsoluteX,
  * AbsoluteY and IndirectY always cost one cycle more.
  */
module Stores {
  import opened Results
  import opened AddressModes
  import opened Registers
  import opened Memory
  import opened Cpu
  import opened Loads

  /** Total cycles of a store through `mode`, opcode fetch included. */
  function StoreInstructionCycles(mode: AddressMode): nat
  {
    match mode
    case ZeroPage => 3
    case ZeroPageX | ZeroPageY | Absolute => 4
    case AbsoluteX | AbsoluteY => 5
    case IndirectX | IndirectY => 6
    case _ => 0
  }

  /**
    * Writes `reg` to the effective address of `mode`. Modes without a memory
    * location fail, and so does an effective address past the end of memory.
    */
  function StoreRegister(m: Machine, mode: AddressMode, reg: Register): (r: Result<Machine>)
    ensures r.Ok? <==> IsMemoryMode(mode) && Readable(m.cpu, m.mem, mode)
    ensures r.Err? ==> (r.error.InvalidAddressMode? <==> !IsMemoryMode(mode))
    ensures r.Ok? ==> r.value.mem == m.mem[EffectiveAddress(m.cpu, m.mem, mode) := Get(m.cpu.regs, reg)]
    ensures r.Ok? ==> r.value.cpu == m.cpu.(pc := m.cpu.pc + OperandBytes(mode), cycles := r.value.cpu.cycles)
    ensures r.Ok? ==> r.value.cpu.cycles + FETCH_CYCLES == m.cpu.cycles + StoreInstructionCycles(mode)
  {
    var resolved :- CalculateAddressFromAddressMode(m.cpu, m.mem, mode, false);
    var extra := if mode in {AbsoluteX, AbsoluteY, IndirectY} then 1 else 0;
    var written :- WriteByte(m.mem, resolved.address, Get(resolved.cpu.regs, reg));
    assert written == m.mem[resolved.address := Get(m.cpu.regs, reg)];
    Ok(Machine(resolved.cpu.(cycles := resolved.cpu.cycles + extra + 1), written))
  }

  /**
    * A store followed by a load through the same operand bytes reads back the
    * stored register. The modes are those whose effective address depends on
    * the operand bytes and index registers only, and the stored cell must not
    * be one of the operand bytes.
    */
  lemma StoreThenLoad(m: Machine, mode: AddressMode, source: Register, target: Register)
    requires mode in {ZeroPage, ZeroPageX, ZeroPageY, Absolute, AbsoluteX, AbsoluteY}
    requires StoreRegister(m, mode, source).Ok?
    requires var a := EffectiveAddress(m.cpu, m.mem, mode);
             !(m.cpu.pc <= a < m.cpu.pc + OperandBytes(mode))
    ensures var stored := StoreRegister(m, mode, source).value;
            var again := LoadRegister(Machine(stored.cpu.(pc := m.cpu.pc), stored.mem), mode, target);
            again.Ok? && Get(again.value.cpu.regs, target) == Get(m.cpu.regs, source)
  {
    var stored := StoreRegister(m, mode, source).value;
    var rewound := stored.cpu.(pc := m.cpu.pc);
    var a := EffectiveAddress(m.cpu, m.mem, mode);
    assert stored.mem[m.cpu.pc] == m.mem[m.cpu.pc];
    assert mode in {Absolute, AbsoluteX, AbsoluteY} ==> stored.mem[m.cpu.pc + 1] == m.mem[m.cpu.pc + 1];
    assert rewound.regs == m.cpu.regs;
    assert EffectiveAddress(rewound, stored.mem, mode) == a;
  }
}
