/**
  * The fetch-decode-execute loop: an opcode byte is fetched from PC for one
  * cycle, looked up in the opcode table, and handed to its handler; whole
  * instructions run until the cycle count reaches the caller's budget.
  */
module Execution {
  import opened Bytes
  import opened Results
  import opened AddressModes
  import opened Registers
  import opened Memory
  import opened Flags
  import opened Cpu
  import opened Opcodes
  import Loads
  import Stores
  import Transfers
  import Logical
  import Shifts
  import IncrementDecrement
  import Jumps
  import Branches
  import StackOps
  import SystemOps

  /** Runs the handler of one decoded instruction, the opcode already fetched. */
  function Dispatch(m: Machine, d: Decoded): (r: Result<Machine>)
    requires LegalMode(d.instruction, d.mode)
    ensures r.Ok? ==> m.cpu.cycles + 1 <= r.value.cpu.cycles <= m.cpu.cycles + 6
    ensures r.Ok? && m.cpu.flags.Unused ==> r.value.cpu.flags.Unused
  {
    match d.instruction
    case Load(reg) => Loads.LoadRegister(m, d.mode, reg)
    case Store(reg) => Stores.StoreRegister(m, d.mode, reg)
    case Transfer(source, destination) => Ok(Transfers.TransferRegister(m, source, destination))
    case And => Logical.And(m, d.mode)
    case Eor => Logical.Eor(m, d.mode)
    case Ora => Logical.Ora(m, d.mode)
    case Bit => Logical.Bit(m, d.mode)
    case Asl => Shifts.Asl(m, d.mode)
    case IncrementMemory => IncrementDecrement.IncrementMemory(m, d.mode)
    case DecrementMemory => IncrementDecrement.DecrementMemory(m, d.mode)
    case IncrementRegister(reg) => Ok(IncrementDecrement.IncrementRegister(m, reg))
    case DecrementRegister(reg) => Ok(IncrementDecrement.DecrementRegister(m, reg))
    case Jump => Jumps.Jmp(m, d.mode)
    case Branch(flag, test) => Branches.Branch(m, flag, test)
    case PushA => Ok(StackOps.Pha(m))
    case PullA => Ok(StackOps.Pla(m))
    case PushStatus => Ok(StackOps.Php(m))
    case PullStatus => Ok(StackOps.Plp(m))
    case NoOperation => Ok(SystemOps.Nop(m))
  }

  /**
    * One instruction: fetch the opcode at PC (one cycle, PC moves past it),
    * decode it, run its handler. A byte the table does not hold fails with
    * the byte and the PC after the fetch.
    */
  function Step(m: Machine): (r: Result<Machine>)
    ensures !ValidAddress(m.cpu.pc) ==> r == Err(AddressOutOfRange(m.cpu.pc))
    ensures ValidAddress(m.cpu.pc) && Decode(m.mem[m.cpu.pc]).None? ==>
              r == Err(InvalidOpcode(m.mem[m.cpu.pc], m.cpu.pc + 1))
    ensures r.Ok? ==> m.cpu.cycles + 2 <= r.value.cpu.cycles <= m.cpu.cycles + 7
    ensures r.Ok? && m.cpu.flags.Unused ==> r.value.cpu.flags.Unused
  {
    var opcode :- ReadByte(m.mem, m.cpu.pc);
    var fetched := m.cpu.(pc := m.cpu.pc + 1, cycles := m.cpu.cycles + FETCH_CYCLES);
    match Decode(opcode)
    case None => Err(InvalidOpcode(opcode, fetched.pc))
    case Some(d) =>
      DecodeThenEncode(opcode);
      Dispatch(Machine(fetched, m.mem), d)
  }

  /**
    * The opcode at PC selects the handler: when `d` encodes to that byte,
    * a step is the fetch followed by `d`'s handler, and nothing else.
    */
  lemma StepDispatches(m: Machine, d: Decoded)
    requires ValidAddress(m.cpu.pc) && Encode(d) == Some(m.mem[m.cpu.pc])
    ensures LegalMode(d.instruction, d.mode)
    ensures Step(m) == Dispatch(Machine(m.cpu.(pc := m.cpu.pc + 1, cycles := m.cpu.cycles + FETCH_CYCLES), m.mem), d)
  {
    EncodeThenDecode(d);
  }

  /**
    * A step function behaves like one instruction: whenever it succeeds it
    * spends two to seven cycles and keeps the Unused flag set.
    */
  ghost predicate WellBehaved(step: Machine -> Result<Machine>)
  {
    forall s: Machine :: step(s).Ok? ==>
      && s.cpu.cycles + 2 <= step(s).value.cpu.cycles <= s.cpu.cycles + 7
      && (s.cpu.flags.Unused ==> step(s).value.cpu.flags.Unused)
  }

  /** Step is such a step function. */
  lemma StepWellBehaved()
    ensures WellBehaved(Step)
  {
    forall s: Machine | Step(s).Ok?
      ensures s.cpu.cycles + 2 <= Step(s).value.cpu.cycles <= s.cpu.cycles + 7
    {
    }
  }

  /** `k` applications of `step` in a row, stopping at the first that fails. */
  function Iterate(step: Machine -> Result<Machine>, m: Machine, k: nat): (r: Result<Machine>)
    requires WellBehaved(step)
    ensures k == 0 ==> r == Ok(m)
    ensures r.Ok? ==> m.cpu.cycles + 2 * k <= r.value.cpu.cycles <= m.cpu.cycles + 7 * k
    decreases k
  {
    if k == 0 then Ok(m)
    else
      var next :- step(m);
      Iterate(step, next, k - 1)
  }

  /**
    * If `k + 1` applications succeed, so do the first `k`, and the last one
    * cost at least two cycles.
    */
  lemma {:induction false} IterateGrow(step: Machine -> Result<Machine>, m: Machine, k: nat)
    requires WellBehaved(step) && Iterate(step, m, k + 1).Ok?
    ensures Iterate(step, m, k).Ok?
    ensures Iterate(step, m, k).value.cpu.cycles + 2 <= Iterate(step, m, k + 1).value.cpu.cycles
    decreases k
  {
    if k > 0 {
      IterateGrow(step, step(m).value, k - 1);
    }
  }

  /**
    * If `k` applications succeed, so do fewer, and each one left out cost at
    * least two cycles.
    */
  lemma {:induction false} IteratePrefix(step: Machine -> Result<Machine>, m: Machine, j: nat, k: nat)
    requires WellBehaved(step) && j <= k && Iterate(step, m, k).Ok?
    ensures Iterate(step, m, j).Ok?
    ensures Iterate(step, m, j).value.cpu.cycles + 2 * (k - j) <= Iterate(step, m, k).value.cpu.cycles
    decreases k - j
  {
    if j < k {
      IterateGrow(step, m, k - 1);
      IteratePrefix(step, m, j, k - 1);
    }
  }

  /**
    * Applies `step` until the cycle count is at least `budget`. A step is
    * never cut short, so the count can pass the budget by less than the cost
    * of one step; a failing step makes the whole run fail.
    */
  function RunWith(step: Machine -> Result<Machine>, m: Machine, budget: nat): (r: Result<Machine>)
    requires WellBehaved(step)
    ensures m.cpu.cycles >= budget ==> r == Ok(m)
    ensures r.Ok? ==> r.value.cpu.cycles >= budget
    ensures r.Ok? && m.cpu.cycles < budget ==> r.value.cpu.cycles < budget + 7
    ensures r.Ok? && m.cpu.flags.Unused ==> r.value.cpu.flags.Unused
    decreases budget - m.cpu.cycles
  {
    if m.cpu.cycles >= budget then Ok(m)
    else
      var next :- step(m);
      RunWith(step, next, budget)
  }

  /**
    * A run is `k` steps for some `k`, every one of which started below the
    * budget: it stops at the first step that reaches the budget, and a step
    * that fails before then is where the run fails.
    */
  lemma {:induction false} RunWithIsIterate(step: Machine -> Result<Machine>, m: Machine, budget: nat)
      returns (k: nat)
    requires WellBehaved(step)
    ensures RunWith(step, m, budget) == Iterate(step, m, k)
    ensures forall j: nat :: j < k ==> Iterate(step, m, j).Ok? && Iterate(step, m, j).value.cpu.cycles < budget
    decreases budget - m.cpu.cycles
  {
    if m.cpu.cycles >= budget {
      k := 0;
    } else if step(m).Err? {
      k := 1;
      assert Iterate(step, m, 1) == Err(step(m).error);
    } else {
      var next := step(m).value;
      var rest := RunWithIsIterate(step, next, budget);
      k := rest + 1;
      assert Iterate(step, m, k) == Iterate(step, next, rest);
      forall j: nat | j < k
        ensures Iterate(step, m, j).Ok? && Iterate(step, m, j).value.cpu.cycles < budget
      {
        if j > 0 {
          assert Iterate(step, m, j) == Iterate(step, next, j - 1);
        }
      }
    }
  }

  /** When `k` steps spend exactly `budget` cycles, running to `budget` is those `k` steps. */
  lemma RunWithReachesExactly(step: Machine -> Result<Machine>, m: Machine, budget: nat, k: nat)
    requires WellBehaved(step)
    requires Iterate(step, m, k).Ok? && Iterate(step, m, k).value.cpu.cycles == budget
    ensures RunWith(step, m, budget) == Iterate(step, m, k)
  {
    var ran := RunWithIsIterate(step, m, budget);
    if ran < k {
      IteratePrefix(step, m, ran, k);
      assert false;
    } else if ran > k {
      assert false;
    }
  }

  /** `k` instructions in a row, stopping at the first that fails. */
  function Steps(m: Machine, k: nat): (r: Result<Machine>)
    ensures k == 0 ==> r == Ok(m)
    ensures r.Ok? ==> m.cpu.cycles + 2 * k <= r.value.cpu.cycles <= m.cpu.cycles + 7 * k
  {
    StepWellBehaved();
    Iterate(Step, m, k)
  }

  /**
    * Runs whole instructions until the cycle count is at least `budget`. An
    * instruction is never cut short, so the count can pass the budget by
    * less than the cost of one instruction.
    */
  function Run(m: Machine, budget: nat): (r: Result<Machine>)
    ensures m.cpu.cycles >= budget ==> r == Ok(m)
    ensures r.Ok? ==> r.value.cpu.cycles >= budget
    ensures r.Ok? && m.cpu.cycles < budget ==> r.value.cpu.cycles < budget + 7
    ensures r.Ok? && m.cpu.flags.Unused ==> r.value.cpu.flags.Unused
  {
    StepWellBehaved();
    RunWith(Step, m, budget)
  }

  /**
    * Running to a budget is running some number `k` of whole instructions,
    * every one of which started below the budget. With the ensures of Run
    * (the result has reached the budget) this pins the run down: it stops
    * at the first instruction that reaches the budget, and an instruction
    * that fails before then makes the run fail with its error.
    */
  lemma RunIsSteps(m: Machine, budget: nat) returns (k: nat)
    ensures Run(m, budget) == Steps(m, k)
    ensures forall j: nat :: j < k ==> Steps(m, j).Ok? && Steps(m, j).value.cpu.cycles < budget
  {
    StepWellBehaved();
    k := RunWithIsIterate(Step, m, budget);
  }

  /** What an execution returns: the cycles it spent and the machine afterwards. */
  datatype Outcome = Outcome(consumed: nat, machine: Machine)

  /**
    * Execute: the cycle counter starts from zero, instructions run until it
    * reaches `budget`, and the count spent is returned with the machine.
    */
  function Execute(m: Machine, budget: nat): (r: Result<Outcome>)
    ensures r.Ok? ==> budget <= r.value.consumed < budget + 7
    ensures r.Ok? ==> r.value.consumed == r.value.machine.cpu.cycles
    ensures budget == 0 ==> r == Ok(Outcome(0, m.(cpu := m.cpu.(cycles := 0))))
  {
    var after :- Run(m.(cpu := m.cpu.(cycles := 0)), budget);
    Ok(Outcome(after.cpu.cycles, after))
  }

  /**
    * When `k` instructions from a zeroed cycle counter spend exactly
    * `budget` cycles, Execute runs exactly those instructions and reports
    * exactly `budget` cycles.
    */
  lemma ExecuteExactly(m: Machine, budget: nat, k: nat)
    requires var start := m.(cpu := m.cpu.(cycles := 0));
             Steps(start, k).Ok? && Steps(start, k).value.cpu.cycles == budget
    ensures var start := m.(cpu := m.cpu.(cycles := 0));
            Execute(m, budget) == Ok(Outcome(budget, Steps(start, k).value))
  {
    StepWellBehaved();
    RunWithReachesExactly(Step, m.(cpu := m.cpu.(cycles := 0)), budget, k);
  }

  /**
    * With the reset vector pointing at 0x6000 and LDA #$42 stored there, a
    * reset followed by a budget of two runs exactly that instruction.
    */
  lemma ResetVectorProgram(c: CpuState, mem: Ram)
    requires mem[RESET_VECTOR] == 0x00 && mem[RESET_VECTOR + 1] == 0x60
    requires mem[0x6000] == 0xA9 && mem[0x6001] == 0x42
    ensures var r := Execute(Machine(Initialize(c, mem), mem), 2);
            && r.Ok? && r.value.consumed == 2
            && r.value.machine.cpu.regs.a == 0x42 && r.value.machine.cpu.pc == 0x6002
            && !r.value.machine.cpu.flags.Z && !r.value.machine.cpu.flags.N
  {
    assert Initialize(c, mem).pc == 0x6000;
  }

  /**
    * A budget of three runs on past LDA #$42 into the zero byte after it,
    * which the table does not hold: execution fails naming it and the PC
    * after it.
    */
  lemma InvalidOpcodeStops(m: Machine)
    requires m.cpu.pc == 0x6000 && m.mem[0x6000] == 0xA9 && m.mem[0x6001] == 0x42 && m.mem[0x6002] == 0
    ensures Execute(m, 3) == Err(InvalidOpcode(0, 0x6003))
  {
    var start := m.(cpu := m.cpu.(cycles := 0));
    var loaded := Step(start);
    assert loaded.Ok? && loaded.value.cpu.cycles == 2 && loaded.value.cpu.pc == 0x6002 && loaded.value.mem == m.mem;
    assert Decode(0).None?;
    assert Run(start, 3) == Run(loaded.value, 3);
  }

  /** Three NOPs take six cycles, move PC by three, and change no register or flag. */
  lemma ThreeNops(m: Machine)
    requires 0 <= m.cpu.pc && m.cpu.pc + 3 <= SIZE
    requires m.mem[m.cpu.pc] == 0xEA && m.mem[m.cpu.pc + 1] == 0xEA && m.mem[m.cpu.pc + 2] == 0xEA
    ensures var r := Execute(m, 6);
            && r.Ok? && r.value.consumed == 6
            && r.value.machine.cpu.pc == m.cpu.pc + 3
            && r.value.machine.cpu.regs == m.cpu.regs && r.value.machine.cpu.flags == m.cpu.flags
            && r.value.machine.mem == m.mem
  {
    var m0 := m.(cpu := m.cpu.(cycles := 0));
    var m1 := NopStep(m0);
    var m2 := NopStep(m1);
    var m3 := NopStep(m2);
    assert Run(m0, 6) == Run(m1, 6) == Run(m2, 6) == Run(m3, 6) == Ok(m3);
  }

  /** Executing a NOP opcode: two cycles in all, PC past the opcode, nothing else changed. */
  lemma NopStep(m: Machine) returns (next: Machine)
    requires ValidAddress(m.cpu.pc) && m.mem[m.cpu.pc] == 0xEA
    ensures next == m.(cpu := m.cpu.(pc := m.cpu.pc + 1, cycles := m.cpu.cycles + 2))
    ensures Step(m) == Ok(next)
  {
    assert Decode(0xEA) == Some(Decoded(NoOperation, Implied));
    next := m.(cpu := m.cpu.(pc := m.cpu.pc + 1, cycles := m.cpu.cycles + 2));
  }
}
