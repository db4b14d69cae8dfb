/**
  * AND, EOR and ORA combine A with the operand bit by bit and set Z and N
  * from the result; BIT tests the operand against A without changing A.
  */
module Logical {
  import opened Bytes
  import opened Results
  import opened AddressModes
  import opened Registers
  import opened Flags
  import opened Memory
  import opened Cpu
  import opened Loads

  /**
    * `after` is `m` once A has taken a new value from an operand read through
    * `mode`: only A, Z and N changed, and the read cost its usual cycles.
    */
  predicate UpdatesAccumulator(m: Machine, mode: AddressMode, after: Machine)
    requires Readable(m.cpu, m.mem, mode)
  {
    var c := after.cpu;
    && c.regs == m.cpu.regs.(a := c.regs.a)
    && DescribesValue(c.flags, m.cpu.flags, c.regs.a)
    && c.pc == m.cpu.pc + OperandBytes(mode)
    && c.cycles + FETCH_CYCLES == m.cpu.cycles + ReadInstructionCycles(mode, CrossesPage(m.cpu, m.mem, mode))
    && after.mem == m.mem
  }

  /** A takes `a` after the operand read, and Z and N are set from it. */
  function WithAccumulator(fetched: Fetched, a: Byte, mem: Ram): Machine
  {
    var c := fetched.cpu.(regs := fetched.cpu.regs.(a := a));
    Machine(SetFlagsOnRegisterLoad(c, A), mem)
  }

  /** AND: a bit of A stays set only where the operand's bit is set too. */
  function And(m: Machine, mode: AddressMode): (r: Result<Machine>)
    ensures r.Ok? <==> Readable(m.cpu, m.mem, mode)
    ensures r.Ok? ==> UpdatesAccumulator(m, mode, r.value)
    ensures r.Ok? ==> forall k: nat :: BitSet(r.value.cpu.regs.a, k)
                        <==> BitSet(m.cpu.regs.a, k) && BitSet(OperandValue(m.cpu, m.mem, mode), k)
  {
    var fetched :- ReadByteFromMemory(m.cpu, m.mem, mode);
    var a := And8(m.cpu.regs.a, fetched.value);
    SignBit(a);
    Ok(WithAccumulator(fetched, a, m.mem))
  }

  /** EOR: a bit of A flips where the operand's bit is set. */
  function Eor(m: Machine, mode: AddressMode): (r: Result<Machine>)
    ensures r.Ok? <==> Readable(m.cpu, m.mem, mode)
    ensures r.Ok? ==> UpdatesAccumulator(m, mode, r.value)
    ensures r.Ok? ==> forall k: nat :: BitSet(r.value.cpu.regs.a, k)
                        <==> BitSet(m.cpu.regs.a, k) != BitSet(OperandValue(m.cpu, m.mem, mode), k)
  {
    var fetched :- ReadByteFromMemory(m.cpu, m.mem, mode);
    var a := Xor8(m.cpu.regs.a, fetched.value);
    SignBit(a);
    Ok(WithAccumulator(fetched, a, m.mem))
  }

  /** ORA: a bit of A becomes set where the operand's bit is set. */
  function Ora(m: Machine, mode: AddressMode): (r: Result<Machine>)
    ensures r.Ok? <==> Readable(m.cpu, m.mem, mode)
    ensures r.Ok? ==> UpdatesAccumulator(m, mode, r.value)
    ensures r.Ok? ==> forall k: nat :: BitSet(r.value.cpu.regs.a, k)
                        <==> BitSet(m.cpu.regs.a, k) || BitSet(OperandValue(m.cpu, m.mem, mode), k)
  {
    var fetched :- ReadByteFromMemory(m.cpu, m.mem, mode);
    var a := Or8(m.cpu.regs.a, fetched.value);
    SignBit(a);
    Ok(WithAccumulator(fetched, a, m.mem))
  }

  /**
    * BIT: N and V copy bits 7 and 6 of the operand itself, and Z says that
    * the operand and A have no set bit in common. A is not changed.
    */
  function Bit(m: Machine, mode: AddressMode): (r: Result<Machine>)
    ensures r.Ok? <==> Readable(m.cpu, m.mem, mode)
    ensures r.Ok? ==>
      var v := OperandValue(m.cpu, m.mem, mode);
      var f := r.value.cpu.flags;
      && (f.N <==> BitSet(v, 7))
      && (f.V <==> BitSet(v, 6))
      && (f.Z ==> forall k: nat :: k < 8 ==> !(BitSet(v, k) && BitSet(m.cpu.regs.a, k)))
      && ((forall k: nat :: k < 8 ==> !(BitSet(v, k) && BitSet(m.cpu.regs.a, k))) ==> f.Z)
      && f == m.cpu.flags.(N := f.N, V := f.V, Z := f.Z)
    ensures r.Ok? ==> r.value.cpu.regs == m.cpu.regs && r.value.mem == m.mem
    ensures r.Ok? ==> r.value.cpu.pc == m.cpu.pc + OperandBytes(mode)
    ensures r.Ok? ==> r.value.cpu.cycles + FETCH_CYCLES
                      == m.cpu.cycles + ReadInstructionCycles(mode, CrossesPage(m.cpu, m.mem, mode))
  {
    var fetched :- ReadByteFromMemory(m.cpu, m.mem, mode);
    var data := fetched.value;
    var common := And8(data, fetched.cpu.regs.a);
    MaskSignBit(data);
    SignBit(data);
    MaskOverflowBit(data);
    NoCommonBits(data, fetched.cpu.regs.a);
    var flags := fetched.cpu.flags.(N := And8(data, NEGATIVE_MASK) > 0,
                                    V := And8(data, OVERFLOW_MASK) > 0,
                                    Z := common == 0);
    Ok(Machine(fetched.cpu.(flags := flags), m.mem))
  }

  /** `m` with its program counter put back to `pc`, so that the same operand is read again. */
  function Rewound(m: Machine, pc: int): Machine
  {
    m.(cpu := m.cpu.(pc := pc))
  }

  /** EOR with the same memory operand twice gives A back. */
  lemma EorTwiceRestores(m: Machine, mode: AddressMode)
    requires mode != Accumulator && Readable(m.cpu, m.mem, mode)
    ensures var once := Eor(m, mode).value;
            var twice := Eor(Rewound(once, m.cpu.pc), mode);
            twice.Ok? && twice.value.cpu.regs.a == m.cpu.regs.a
  {
    var once := Eor(m, mode).value;
    var again := Rewound(once, m.cpu.pc);
    var v := OperandValue(m.cpu, m.mem, mode);
    OperandIgnoresAccumulator(m.cpu, again.cpu, m.mem, mode);
    var a := Eor(again, mode).value.cpu.regs.a;
    forall k: nat | k < 8 ensures BitSet(a, k) <==> BitSet(m.cpu.regs.a, k) {
    }
    SameBitsSameByte(a, m.cpu.regs.a);
  }

  /** AND followed by ORA with the same memory operand leaves exactly the operand in A. */
  lemma AndThenOraGivesOperand(m: Machine, mode: AddressMode)
    requires mode != Accumulator && Readable(m.cpu, m.mem, mode)
    ensures var anded := And(m, mode).value;
            var ored := Ora(Rewound(anded, m.cpu.pc), mode);
            ored.Ok? && ored.value.cpu.regs.a == OperandValue(m.cpu, m.mem, mode)
  {
    var anded := And(m, mode).value;
    var again := Rewound(anded, m.cpu.pc);
    var v := OperandValue(m.cpu, m.mem, mode);
    OperandIgnoresAccumulator(m.cpu, again.cpu, m.mem, mode);
    var a := Ora(again, mode).value.cpu.regs.a;
    forall k: nat | k < 8 ensures BitSet(a, k) <==> BitSet(v, k) {
    }
    SameBitsSameByte(a, v);
  }

  /** BIT with A = 0 always sets Z, whatever the operand. */
  lemma BitWithZeroAccumulator(m: Machine, mode: AddressMode)
    requires m.cpu.regs.a == 0 && Readable(m.cpu, m.mem, mode)
    ensures Bit(m, mode).value.cpu.flags.Z
  {
    forall k: nat | k < 8 ensures !BitSet(m.cpu.regs.a, k) {
      NoBitOfZero(k);
    }
  }
}
