/**
  * The processor state and the services every instruction handler shares:
  * reset, the address-mode resolver, the two operand readers built on it,
  * and the one-byte stack push and pop.
  *
  * Each service is a pure function from the state before to the state after.
  * Its contract is stated against the raw memory cells (the `Operand…` and
  * `EffectiveAddress` definitions below), never against the memory functions
  * the body calls, so the contract says where the operand comes from, not how
  * the body fetches it.
  */
module Cpu {
  import opened Bytes
  import opened Results
  import opened AddressModes
  import opened Memory
  import opened Flags
  import opened Registers

  /** Where the start address of a program is stored. */
  const RESET_VECTOR := 0xFFFC

  /** The stack lives in page one: the stack pointer is an offset from here. */
  const STACK_BASE := 0x100

  /** The opcode fetch that precedes every handler costs one cycle. */
  const FETCH_CYCLES := 1

  /**
    * The processor: program counter, registers, flags, and the cycles consumed
    * so far. The program counter is an unbounded integer, as the host number
    * is; a counter outside the address space makes the next fetch fail.
    */
  datatype CpuState = CpuState(pc: int, regs: RegisterFile, flags: StatusFlags, cycles: nat)

  /** One processor bound to one memory. */
  datatype Machine = Machine(cpu: CpuState, mem: Ram)

  /** The resolver's answer: the state after the operand bytes, and the effective address. */
  datatype Resolved = Resolved(cpu: CpuState, address: int)

  /** An operand value and the state after reading it. */
  datatype Fetched = Fetched(cpu: CpuState, value: Byte)

  /** Where a read-modify-write instruction puts its result back. */
  datatype Target = InAccumulator | InMemory(address: int)

  /** An operand value, the state after reading it, and where it came from. */
  datatype Operand = Operand(cpu: CpuState, value: Byte, target: Target)

  /** A popped byte and the state after the pop. */
  datatype Popped = Popped(cpu: CpuState, value: Byte)

  /** The stored word whose low byte is at `a` and high byte at `a + 1`. */
  function WordAt(mem: Ram, a: int): Word
    requires 0 <= a < MAX_ADDRESS
  {
    LittleEndian(mem[a], mem[a + 1])
  }

  /**
    * Reset: the program counter is loaded from the reset vector, A, X, Y and
    * SP are cleared, and the flags start afresh. Nothing of the prior state
    * survives except the cycle count, which reset does not touch.
    */
  function Initialize(c: CpuState, mem: Ram): (r: CpuState)
    ensures r.pc == mem[RESET_VECTOR] + 0x100 * (mem[RESET_VECTOR + 1] as int)
    ensures forall reg: Register :: Get(r.regs, reg) == 0
    ensures !r.flags.C && !r.flags.Z && !r.flags.I && !r.flags.D && !r.flags.B && !r.flags.V && !r.flags.N
    ensures r.flags.Unused && Status(r.flags) == 0x20
    ensures r.cycles == c.cycles
  {
    DefaultStatus();
    var start := ReadWord(mem, RESET_VECTOR).value;
    CpuState(start, Zeroed(), Default(), c.cycles)
  }

  /** Resetting twice is resetting once. */
  lemma InitializeIdempotent(c: CpuState, mem: Ram)
    ensures Initialize(Initialize(c, mem), mem) == Initialize(c, mem)
  {
  }

  /** Reset forgets the program counter, registers and flags it started from. */
  lemma InitializeForgetsPriorState(c1: CpuState, c2: CpuState, mem: Ram)
    requires c1.cycles == c2.cycles
    ensures Initialize(c1, mem) == Initialize(c2, mem)
  {
  }

  /** Z and N from the value now held in `reg`. */
  function SetFlagsOnRegisterLoad(c: CpuState, reg: Register): CpuState
  {
    c.(flags := SetZAndN(c.flags, Get(c.regs, reg)))
  }

  /** Adds one to a byte-plus-one or doubles a byte and keeps the low eight bits. */
  function CapAtEightBits(data: nat): (r: nat)
    requires data < 0x200
    ensures r < 0x100 && r % 0x100 == data % 0x100
  {
    if data >= 0x100 then data - 0x100 else data
  }

  // ---------------------------------------------------------------------
  // What the resolver is meant to compute, from the raw memory cells.

  /** The operand bytes after the opcode all lie inside memory. */
  predicate OperandInRange(c: CpuState, mode: AddressMode)
  {
    0 <= c.pc && c.pc + OperandBytes(mode) <= SIZE
  }

  /**
    * The effective address of a memory mode: zero-page sums wrap within page
    * zero, absolute and post-indexed sums do not wrap at all.
    */
  function EffectiveAddress(c: CpuState, mem: Ram, mode: AddressMode): int
    requires IsMemoryMode(mode) && OperandInRange(c, mode)
  {
    var op := mem[c.pc];
    match mode
    case ZeroPage => op
    case ZeroPageX => (op + c.regs.x) % 0x100
    case ZeroPageY => (op + c.regs.y) % 0x100
    case Absolute => WordAt(mem, c.pc)
    case AbsoluteX => WordAt(mem, c.pc) + c.regs.x
    case AbsoluteY => WordAt(mem, c.pc) + c.regs.y
    case IndirectX => WordAt(mem, (op + c.regs.x) % 0x100)
    case IndirectY => WordAt(mem, op) + c.regs.y
  }

  /** The index register of an indexed mode moves the base address onto another page. */
  predicate CrossesPage(c: CpuState, mem: Ram, mode: AddressMode)
  {
    && OperandInRange(c, mode)
    && match mode
       case AbsoluteX => OffsetCrossesPageBoundary(WordAt(mem, c.pc), c.regs.x)
       case AbsoluteY => OffsetCrossesPageBoundary(WordAt(mem, c.pc), c.regs.y)
       case IndirectY => OffsetCrossesPageBoundary(WordAt(mem, mem[c.pc]), c.regs.y)
       case _ => false
  }

  /** Cycles the resolver spends on each memory mode, before any page-crossing charge. */
  function AddressingCycles(mode: AddressMode): nat
  {
    match mode
    case ZeroPage => 1
    case ZeroPageX | ZeroPageY | Absolute | AbsoluteX | AbsoluteY => 2
    case IndirectX => 4
    case IndirectY => 3
    case _ => 0
  }

  /**
    * The address-mode resolver: reads the operand bytes after the opcode and
    * computes the effective address, charging one more cycle for an indexed
    * page crossing when asked to. Modes that name no memory location fail.
    */
  function CalculateAddressFromAddressMode(c: CpuState, mem: Ram, mode: AddressMode, chargePageCross: bool)
    : (r: Result<Resolved>)
    ensures !IsMemoryMode(mode) ==> r == Err(InvalidAddressMode(mode))
    ensures IsMemoryMode(mode) ==> (r.Ok? <==> OperandInRange(c, mode))
    ensures IsMemoryMode(mode) && r.Err? ==> r.error.AddressOutOfRange?
    ensures r.Ok? ==> r.value.address == EffectiveAddress(c, mem, mode)
    ensures r.Ok? ==> r.value.cpu == c.(pc := c.pc + OperandBytes(mode),
                                        cycles := c.cycles + AddressingCycles(mode)
                                                  + (if chargePageCross && CrossesPage(c, mem, mode) then 1 else 0))
  {
    match mode
    case ZeroPage =>
      var zp :- ReadByte(mem, c.pc);
      Ok(Resolved(c.(pc := c.pc + 1, cycles := c.cycles + 1), zp))
    case ZeroPageX =>
      var zp :- ReadByte(mem, c.pc);
      Ok(Resolved(c.(pc := c.pc + 1, cycles := c.cycles + 2), (zp + c.regs.x) % 0x100))
    case ZeroPageY =>
      var zp :- ReadByte(mem, c.pc);
      Ok(Resolved(c.(pc := c.pc + 1, cycles := c.cycles + 2), (zp + c.regs.y) % 0x100))
    case Absolute =>
      var address :- ReadWord(mem, c.pc);
      Ok(Resolved(c.(pc := c.pc + 2, cycles := c.cycles + 2), address))
    case AbsoluteX =>
      var base :- ReadWord(mem, c.pc);
      var extra := if chargePageCross && OffsetCrossesPageBoundary(base, c.regs.x) then 1 else 0;
      Ok(Resolved(c.(pc := c.pc + 2, cycles := c.cycles + 2 + extra), base + c.regs.x))
    case AbsoluteY =>
      var base :- ReadWord(mem, c.pc);
      var extra := if chargePageCross && OffsetCrossesPageBoundary(base, c.regs.y) then 1 else 0;
      Ok(Resolved(c.(pc := c.pc + 2, cycles := c.cycles + 2 + extra), base + c.regs.y))
    case IndirectX =>
      var zp :- ReadByte(mem, c.pc);
      var address :- ReadWord(mem, (zp + c.regs.x) % 0x100);
      Ok(Resolved(c.(pc := c.pc + 1, cycles := c.cycles + 4), address))
    case IndirectY =>
      var zp :- ReadByte(mem, c.pc);
      var base :- ReadWord(mem, zp);
      var extra := if chargePageCross && OffsetCrossesPageBoundary(base, c.regs.y) then 1 else 0;
      Ok(Resolved(c.(pc := c.pc + 1, cycles := c.cycles + 3 + extra), base + c.regs.y))
    case _ => Err(InvalidAddressMode(mode))
  }

  /** Zero-page indexing wraps inside page zero: base 0xFF plus 2 is 0x01, never 0x101. */
  lemma ZeroPageIndexWraps(c: CpuState, mem: Ram)
    requires 0 <= c.pc < MAX_ADDRESS && mem[c.pc] == 0xFF && c.regs.x == 2 && c.regs.y == 2
    ensures CalculateAddressFromAddressMode(c, mem, ZeroPageX, true).value.address == 0x01
    ensures CalculateAddressFromAddressMode(c, mem, ZeroPageY, true).value.address == 0x01
  {
  }

  /** Every zero-page mode resolves inside page zero. */
  lemma ZeroPageStaysInPageZero(c: CpuState, mem: Ram, mode: AddressMode, charge: bool)
    requires mode in {ZeroPage, ZeroPageX, ZeroPageY}
    requires CalculateAddressFromAddressMode(c, mem, mode, charge).Ok?
    ensures 0 <= CalculateAddressFromAddressMode(c, mem, mode, charge).value.address < 0x100
  {
  }

  /**
    * Base 0x30FF plus X = 1 lands on the next page (0x3100) and costs one
    * cycle more than base 0x3000 with the same X, when crossings are charged.
    */
  lemma AbsoluteXPageCrossCostsOneCycle(c: CpuState, mem1: Ram, mem2: Ram)
    requires 0 <= c.pc < MAX_ADDRESS && c.regs.x == 1
    requires mem1[c.pc] == 0xFF && mem1[c.pc + 1] == 0x30
    requires mem2[c.pc] == 0x00 && mem2[c.pc + 1] == 0x30
    ensures var r1 := CalculateAddressFromAddressMode(c, mem1, AbsoluteX, true);
            var r2 := CalculateAddressFromAddressMode(c, mem2, AbsoluteX, true);
            && r1.value.address == 0x3100 && r2.value.address == 0x3001
            && r1.value.cpu.cycles == r2.value.cpu.cycles + 1
  {
  }

  // ---------------------------------------------------------------------
  // Reading an operand value.

  /** The operand of `mode` can be read: its bytes and the location they name are in memory. */
  predicate Readable(c: CpuState, mem: Ram, mode: AddressMode)
  {
    match mode
    case Accumulator => true
    case Immediate => OperandInRange(c, mode)
    case _ => IsMemoryMode(mode) && OperandInRange(c, mode) && ValidAddress(EffectiveAddress(c, mem, mode))
  }

  /** The operand value: A itself, the byte after the opcode, or the byte at the effective address. */
  function OperandValue(c: CpuState, mem: Ram, mode: AddressMode): Byte
    requires Readable(c, mem, mode)
  {
    match mode
    case Accumulator => c.regs.a
    case Immediate => mem[c.pc]
    case ZeroPage | ZeroPageX | ZeroPageY | Absolute | AbsoluteX | AbsoluteY | IndirectX | IndirectY =>
      mem[EffectiveAddress(c, mem, mode)]
    case Indirect | Implied | Relative => 0
  }

  /**
    * The operand of a memory or immediate mode depends on the program
    * counter, the index registers and memory only, not on A, the flags or
    * the cycle count.
    */
  lemma OperandIgnoresAccumulator(c1: CpuState, c2: CpuState, mem: Ram, mode: AddressMode)
    requires mode != Accumulator
    requires c1.pc == c2.pc && c1.regs.x == c2.regs.x && c1.regs.y == c2.regs.y
    ensures Readable(c1, mem, mode) <==> Readable(c2, mem, mode)
    ensures Readable(c1, mem, mode) ==> OperandValue(c1, mem, mode) == OperandValue(c2, mem, mode)
  {
  }

  /**
    * Writing a cell other than the operand bytes leaves the effective address
    * of the direct and directly indexed modes as it was, so re-reading the
    * same operand bytes names the same location.
    */
  lemma AddressSurvivesWrite(c1: CpuState, c2: CpuState, mem: Ram, mode: AddressMode, a: int, v: Byte)
    requires mode in {ZeroPage, ZeroPageX, ZeroPageY, Absolute, AbsoluteX, AbsoluteY}
    requires c1.pc == c2.pc && c1.regs.x == c2.regs.x && c1.regs.y == c2.regs.y
    requires 0 <= a < SIZE && !(c1.pc <= a < c1.pc + OperandBytes(mode))
    ensures Readable(c1, mem, mode) <==> Readable(c2, mem[a := v], mode)
    ensures Readable(c1, mem, mode) ==> EffectiveAddress(c1, mem, mode) == EffectiveAddress(c2, mem[a := v], mode)
  {
    if OperandInRange(c1, mode) {
      assert mem[a := v][c1.pc] == mem[c1.pc];
      if mode in {Absolute, AbsoluteX, AbsoluteY} {
        assert mem[a := v][c1.pc + 1] == mem[c1.pc + 1];
      }
    }
  }

  /**
    * Total cycles, opcode fetch included, of an instruction that reads one
    * operand through `mode` (LDA, LDX, LDY, AND, EOR, ORA, BIT); `crossed`
    * says whether an indexed mode moved onto another page.
    */
  function ReadInstructionCycles(mode: AddressMode, crossed: bool): nat
  {
    match mode
    case Accumulator => 1
    case Immediate => 2
    case ZeroPage => 3
    case ZeroPageX | ZeroPageY | Absolute => 4
    case AbsoluteX | AbsoluteY => if crossed then 5 else 4
    case IndirectX => 6
    case IndirectY => if crossed then 6 else 5
    case Indirect | Implied | Relative => 0
  }

  /**
    * Total cycles, opcode fetch included, of a read-modify-write instruction
    * (ASL, INC, DEC) through `mode`. The 6502 has such opcodes for
    * Accumulator (ASL only), ZeroPage, ZeroPageX, Absolute and AbsoluteX; the
    * other memory modes are listed at what the handlers would charge for them.
    */
  function ReadModifyWriteCycles(mode: AddressMode): nat
  {
    match mode
    case Accumulator => 2
    case ZeroPage => 5
    case ZeroPageX | ZeroPageY | Absolute | AbsoluteY => 6
    case AbsoluteX | IndirectY => 7
    case IndirectX => 8
    case Immediate | Indirect | Implied | Relative => 0
  }

  /**
    * Reads an operand value: Immediate takes the byte after the opcode,
    * Accumulator takes A for free, and the memory modes resolve an address
    * (page crossings charged) and read the byte there.
    */
  function ReadByteFromMemory(c: CpuState, mem: Ram, mode: AddressMode): (r: Result<Fetched>)
    ensures r.Ok? <==> Readable(c, mem, mode)
    ensures r.Err? ==> (r.error.InvalidAddressMode? <==> mode in {Indirect, Implied, Relative})
    ensures r.Ok? ==> r.value.value == OperandValue(c, mem, mode)
    ensures r.Ok? ==> r.value.cpu == c.(pc := c.pc + OperandBytes(mode), cycles := r.value.cpu.cycles)
    ensures r.Ok? ==> r.value.cpu.cycles + FETCH_CYCLES
                      == c.cycles + ReadInstructionCycles(mode, CrossesPage(c, mem, mode))
  {
    match mode
    case Immediate =>
      var v :- ReadByte(mem, c.pc);
      Ok(Fetched(c.(pc := c.pc + 1, cycles := c.cycles + 1), v))
    case Accumulator =>
      Ok(Fetched(c, c.regs.a))
    case Indirect | Implied | Relative =>
      CalculateAddressFromAddressMode(c, mem, mode, true).PropagateFailure()
    case ZeroPage | ZeroPageX | ZeroPageY | Absolute | AbsoluteX | AbsoluteY | IndirectX | IndirectY =>
      var res :- CalculateAddressFromAddressMode(c, mem, mode, true);
      var v :- ReadByte(mem, res.address);
      Ok(Fetched(res.cpu.(cycles := res.cpu.cycles + 1), v))
  }

  /**
    * Reads the operand of a read-modify-write instruction together with the
    * place it came from. Page crossings are not charged and the read itself
    * is free; the handlers charge for the write-back instead.
    */
  function ReadByteAndAddress(c: CpuState, mem: Ram, mode: AddressMode): (r: Result<Operand>)
    ensures r.Ok? <==> mode != Immediate && Readable(c, mem, mode)
    ensures r.Ok? ==> r.value.value == OperandValue(c, mem, mode)
    ensures r.Ok? ==> r.value.target == if mode == Accumulator then InAccumulator
                                        else InMemory(EffectiveAddress(c, mem, mode))
    ensures r.Ok? ==> r.value.cpu == c.(pc := c.pc + OperandBytes(mode), cycles := c.cycles + AddressingCycles(mode))
  {
    if mode == Accumulator then
      Ok(Operand(c, c.regs.a, InAccumulator))
    else
      var res :- CalculateAddressFromAddressMode(c, mem, mode, false);
      var v :- ReadByte(mem, res.address);
      Ok(Operand(res.cpu, v, InMemory(res.address)))
  }

  // ---------------------------------------------------------------------
  // The stack.

  /** The memory cell the stack pointer `sp` designates. */
  function StackCell(sp: Byte): (a: int)
    ensures STACK_BASE <= a < STACK_BASE + 0x100
  {
    STACK_BASE + sp
  }

  /**
    * Push: the stack pointer moves down one (0x00 wraps to 0xFF), then the
    * byte is written where it now points. Two cycles.
    */
  function StackPushByte(c: CpuState, mem: Ram, v: Byte): (r: Machine)
    ensures r.cpu == c.(regs := c.regs.(sp := (c.regs.sp + 0xFF) % 0x100), cycles := c.cycles + 2)
    ensures r.mem[STACK_BASE + r.cpu.regs.sp] == v
    ensures forall i :: 0 <= i < SIZE && i != STACK_BASE + r.cpu.regs.sp ==> r.mem[i] == mem[i]
  {
    var sp := (c.regs.sp - 1) % 0x100;
    var written := WriteByte(mem, StackCell(sp), v).value;
    Machine(c.(regs := c.regs.(sp := sp), cycles := c.cycles + 2), written)
  }

  /**
    * Pop: the byte the stack pointer designates is read, then the pointer
    * moves up one (0xFF wraps to 0x00). Two cycles; memory is not changed.
    */
  function StackPopByte(c: CpuState, mem: Ram): (r: Popped)
    ensures r.value == mem[0x100 + c.regs.sp]
    ensures r.cpu == c.(regs := c.regs.(sp := (c.regs.sp + 1) % 0x100), cycles := c.cycles + 2)
  {
    var v := ReadByte(mem, StackCell(c.regs.sp)).value;
    Popped(c.(regs := c.regs.(sp := (c.regs.sp + 1) % 0x100), cycles := c.cycles + 2), v)
  }

  /** A pop right after a push returns the pushed byte and restores the stack pointer. */
  lemma PopAfterPush(c: CpuState, mem: Ram, v: Byte)
    ensures var pushed := StackPushByte(c, mem, v);
            StackPopByte(pushed.cpu, pushed.mem) == Popped(c.(cycles := c.cycles + 4), v)
  {
  }
}
