# A Dafny model of the 6502ts instruction core

This project models the instruction-level semantics of the 6502ts emulator, a
MOS 6502 CPU written in TypeScript. The model covers:

- the 64 KiB memory with its range checks and little-endian words;
- the status flags and their packing into one byte, in the order N V U B D I Z C;
- the reset state of the CPU;
- the table from opcode bytes to instruction and address mode;
- the handler of each instruction family: loads, stores, register transfers,
  AND/EOR/ORA/BIT, ASL, INC/DEC (on memory and on X and Y), JMP, the eight
  conditional branches, PHA/PLA/PHP/PLP and NOP;
- the fetch-decode-execute loop that runs instructions until a cycle budget is
  spent.

Every handler is a pure function from a `Machine` (registers, flags, program
counter, cycle count and memory) to a new `Machine`, or to an error.
The errors are:
- a range error, for an address outside 0..0xFFFF;
- an invalid address mode;
- an invalid opcode.

These are the errors the TypeScript code throws. Cycle counts are those the
handlers charge, with the opcode fetch (one cycle) added by the step function.

Modules, one per file, in dependency order:
- `Bytes`: bytes, words, bitwise operations defined bit by bit, and signed bytes.
- `Results`: the result type and the three error kinds.
- `AddressModes`: the address modes and their operand byte counts.
- `Registers`: the register file.
- `Memory`: the byte store.
- `Flags`: the status flags.
- `Cpu`: the CPU state, reset, the address-mode resolver, operand reads, and the stack push and pop.
- `Opcodes`: the decode table.
- The handlers: `Loads`, `Stores`, `Transfers`, `Logical`, `Shifts`, `IncrementDecrement`, `Jumps`, `Branches`, `StackOps`, `SystemOps`.
- `Execution`: dispatch, step and the cycle-budgeted run.

Several helpers that the handlers call are not defined in the source. The CPU
class in src/cpu.ts is an early skeleton that lacks:
- the address-mode resolver, `ReadByteFromMemory` and `ReadByteAndAddress`;
- `SetFlagsOnRegisterLoad`, `SetZAndNFlag` and `CapAtEightBits`, which
  src/opcodes/transfer.ts:26 and src/opcodes/increment_decrement.ts:18-19 call;
- `StackPushByte` / `StackPopByte`, the `consumedCycles` counter and `Execute`.

The memory class in src/memory.ts lacks `Clear` and `OffsetCrossesPageBoundary`, which
src/opcodes/branch.ts:37 calls, and src/flags.ts lacks the `Status` setter.

Here they are defined so that they agree with what the repository's tests assert about them.

## Model

| member | source | states |
|---|---|---|
| Memory.Clear | tests/cpu.test.ts:18 | A cleared memory has 65,536 cells, all zero |
| Memory.VerifyAddressRange | src/memory.ts:17-26 | Succeeds exactly for addresses 0..0xFFFF; otherwise it is a range error naming the address |
| Memory.ReadByte | src/memory.ts:32-35 | Inside the address space it returns the stored byte; outside it is a range error naming the address |
| Memory.ReadWord | src/memory.ts:41-48 | Succeeds exactly when both address and address+1 are valid, returning high*256+low; a failure names the first bad address |
| Memory.WriteByte | src/memory.ts:55-58 | Succeeds exactly for valid addresses; the cell holds the new byte and every other cell is unchanged |
| Memory.WriteWord | src/memory.ts:65-71 | Succeeds exactly when both the address and address+1 are valid; the low byte goes at the address and the high byte after it; no other cell changes |
| Memory.ReadAfterWriteByte | src/memory.ts:32-58 | Reading a just-written cell gives the written byte; reading any other cell gives what was there before |
| Memory.ReadAfterWriteWord | src/memory.ts:41-71 | Reading a word back after writing it gives the same word |
| Memory.WordAtTopFails | src/memory.ts:41-43 | A word read or write at 0xFFFF fails on address 0x10000 |
| Memory.PageOf | src/opcodes/branch.ts:37-39 | The page of an address is the multiple of 0x100 whose 256-byte block contains it |
| Memory.CrossingIsHighByteChange | src/opcodes/branch.ts:37-39 | Moving by an offset crosses a page exactly when the high byte of the address changes |
| Flags.Default | src/flags.ts:13-48 | A fresh flag set has every flag clear except the always-set bit 5 |
| Flags.Status | src/flags.ts:55-63 | The packed byte has N, V, Unused, B, D, I, Z and C at bits 7 down to 0 |
| Flags.SetStatus | tests/stack.test.ts:31-37 | Unpacking a byte takes each flag from its bit and leaves Unused set |
| Flags.SetZAndN | src/opcodes/transfer.ts:25-27 | Z says the value is zero, N says bit 7 is set, and no other flag changes |
| Flags.MaskSignBit | src/opcodes/shift.ts:51 | Masking with the N mask is nonzero exactly for bytes of 0x80 and above |
| Flags.MaskOverflowBit | src/opcodes/logical.ts:54 | Masking with the V mask is nonzero exactly when bit 6 is set |
| Flags.DefaultStatus | tests/flags.test.ts:8-20 | A fresh flag set packs to 0x20 |
| Flags.StatusBitsInTurn | tests/flags.test.ts:22-45 | Setting C, Z, I, D, B, V and N one at a time adds 1, 2, 4, 8, 16, 64 and 128 to the packed byte |
| Flags.PackThenUnpack | tests/stack.test.ts:31-37 | Packing and then unpacking flags with Unused set gives back the same flags |
| Flags.UnpackThenPack | tests/stack.test.ts:31-37 | Unpacking and then repacking a byte gives it back with bit 5 forced on |
| Cpu.Initialize | src/cpu.ts:78-95 | A reset zeroes A, X, Y and SP and clears every flag except Unused, so the status is 0x20; PC becomes the word stored at the reset vector |
| Cpu.InitializeIdempotent | src/cpu.ts:78-95 | Resetting twice equals resetting once |
| Cpu.InitializeForgetsPriorState | tests/cpu.test.ts:45-53 | Two states with the same cycle count reset to the same state, whatever their PC, registers and flags; a reset keeps the cycle count |
| Cpu.CapAtEightBits | src/opcodes/shift.ts:10-16 | For values below 512, the result is the value modulo 256 |
| Cpu.CalculateAddressFromAddressMode | tests/cpu.test.ts:73-170 | Modes without a memory address are an error; the others succeed exactly when the operand bytes are in range, and they yield the effective address, step PC past the operand and charge the mode's cycles |
| Cpu.ZeroPageIndexWraps | tests/cpu.test.ts:122-141 | Zero page 0xFF indexed by 2 resolves to 0x01, for both X and Y |
| Cpu.ZeroPageStaysInPageZero | tests/cpu.test.ts:109-141 | ZeroPage, ZeroPageX and ZeroPageY always resolve inside page zero |
| Cpu.AbsoluteXPageCrossCostsOneCycle | tests/cpu.test.ts:81-93 | 0x30FF plus X=1 resolves to 0x3100 and costs one cycle more than 0x3000 plus 1 |
| Cpu.ReadByteFromMemory | tests/load.test.ts:87-179 | An operand read succeeds exactly when the mode can be read, returns the operand and changes only PC and cycles; with the fetch, cycles follow the load cost table, page crossings included |
| Cpu.ReadByteAndAddress | src/opcodes/shift.ts:48 | A read-modify-write operand read returns the value and where it came from (A, or its memory address), charging only the addressing cycles |
| Cpu.StackPushByte | src/opcodes/stack.ts:17 | A push decrements SP modulo 256, stores the byte at 0x100+SP and touches no other cell; it costs two cycles |
| Cpu.StackPopByte | src/opcodes/stack.ts:27 | A pop reads the byte at 0x100+SP, then increments SP modulo 256; it costs two cycles |
| Cpu.PopAfterPush | tests/stack.test.ts:22-28 | Popping right after a push returns the pushed byte and the original SP |
| Opcodes.DecodeThenEncode | src/opcodes.ts:6-60 | Every byte in the table decodes to a legal instruction and mode, and encoding that gives back the byte |
| Opcodes.EncodeThenDecode | src/opcodes.ts:6-60 | An instruction and mode have an opcode exactly when the pair is legal, and decoding that opcode gives the pair back |
| Opcodes.EncodeInjective | src/opcodes.ts:6-60 | No two instruction and mode pairs share an opcode |
| Opcodes.DecodeFailsOffTable | tests/cpu.test.ts:64-71 | A byte fails to decode exactly when no instruction encodes to it |
| Opcodes.LoadImmediateAndNoBreak | src/opcodes.ts:9 | 0xA9 is LDA Immediate; 0x00 has no handler |
| Opcodes.JumpEntries | src/opcodes.ts:28-29 | 0x4C is JMP Absolute and 0x6C is JMP Indirect |
| Opcodes.RegisterPairingEntries | src/opcodes.ts:16-50 | 0xB6 is LDX zero page,Y; 0x96 is STX zero page,Y; 0xB4 is LDY zero page,X; 0x9A is TXS |
| Loads.LoadRegister | src/opcodes/load.ts:18-21 | The target register receives the operand and the others keep theirs; Z and N describe the value; PC steps over the operand; cycles follow the load cost table; an unreadable operand is an error |
| Loads.LoadImmediateExample | tests/cpu.test.ts:55-62 | LDA #$42 leaves 0x42 in A with Z and N clear, in one handler cycle |
| Stores.StoreRegister | src/opcodes/store.ts:17-30 | A store writes the register to the effective address only; registers and flags are unchanged; the indexed modes always pay the extra cycle; a mode without an address is an invalid-mode error |
| Stores.StoreThenLoad | src/opcodes/store.ts:17-30 | For zero page, zero page indexed and absolute (plain or indexed) operands whose effective address lies outside the instruction's own bytes, loading through the same operand right after a store reads back the stored register |
| Transfers.TransferRegister | src/opcodes/transfer.ts:16-28 | The destination receives the source and the other registers are unchanged; Z and N describe the value, except that a transfer into SP leaves the flags alone; one cycle; memory is unchanged |
| Transfers.TransferBackIsRedundant | src/opcodes/transfer.ts:21-27 | When the destination is not SP, copying straight back after a copy changes nothing but the cycle count |
| Logical.And | src/opcodes/logical.ts:17-20 | Bit k of A afterwards is set exactly when it was set in both A and the operand; Z and N describe A; the other flags are unchanged |
| Logical.Eor | src/opcodes/logical.ts:28-31 | Bit k of A afterwards is set exactly when A and the operand differ in it; Z and N describe A |
| Logical.Ora | src/opcodes/logical.ts:39-42 | Bit k of A afterwards is set exactly when either A or the operand has it; Z and N describe A |
| Logical.Bit | src/opcodes/logical.ts:50-56 | N and V are copied from bits 7 and 6 of the operand, and Z says the operand and A share no bit; registers and memory are unchanged |
| Logical.EorTwiceRestores | src/opcodes/logical.ts:28-31 | EOR with the same operand twice gives A back |
| Logical.AndThenOraGivesOperand | src/opcodes/logical.ts:17-42 | AND and then ORA with the same operand leaves exactly the operand in A |
| Logical.BitWithZeroAccumulator | src/opcodes/logical.ts:55 | With A = 0, BIT always sets Z |
| Shifts.ShiftLeft | src/opcodes/shift.ts:54-57 | Each bit moves up one place; bit 0 becomes clear and bit 7 is lost |
| Shifts.ShiftLeftDoubles | src/opcodes/shift.ts:51-57 | Twice the byte equals its left shift plus 256 when bit 7 was set |
| Shifts.SaveShift | src/opcodes/shift.ts:28-38 | The result goes to A for one cycle; otherwise it goes to its memory cell for three cycles, four for AbsoluteX, and the write fails only on an out-of-range address |
| Shifts.Asl | src/opcodes/shift.ts:46-63 | C gets the old bit 7, Z says the shifted result is zero, and the other flags (N included) are unchanged; the result replaces A or the operand's cell; PC and total cycles match the read-modify-write cost table |
| Shifts.AslAccumulatorDoubles | tests/shift.test.ts:44-57 | ASL A doubles A modulo 256, and the bit that falls out lands in C |
| Shifts.AslOutOfTheTop | tests/shift.test.ts:54-57 | ASL A on 0x80 leaves 0 with Z and C set |
| Shifts.AslLeavesNegativeAlone | src/opcodes/shift.ts:59-62 | ASL A on 0x40 gives 0x80 but leaves N clear |
| IncrementDecrement.IncrementAndSetFlags | src/opcodes/increment_decrement.ts:16-22 | The byte goes up by one modulo 256, 0xFF wrapping to 0; Z and N describe it; nothing else changes |
| IncrementDecrement.DecrementAndSetFlags | src/opcodes/increment_decrement.ts:30-39 | The byte goes down by one modulo 256, 0 wrapping to 0xFF; Z and N describe it; nothing else changes |
| IncrementDecrement.IncrementDecrementInverse | src/opcodes/increment_decrement.ts:16-39 | An increment followed by a decrement, or the reverse, gives the byte back |
| IncrementDecrement.IncrementRegister | src/opcodes/increment_decrement.ts:47-50 | INX/INY raise only the named register by one modulo 256, with Z and N describing it, in one cycle |
| IncrementDecrement.DecrementRegister | src/opcodes/increment_decrement.ts:77-80 | DEX/DEY lower only the named register by one modulo 256, with Z and N describing it, in one cycle |
| IncrementDecrement.IncrementMemory | src/opcodes/increment_decrement.ts:58-69 | INC writes the incremented operand back to the address it was read from, changes no register, and costs the read-modify-write cycles; it fails exactly when the operand cannot be read |
| IncrementDecrement.DecrementMemory | src/opcodes/increment_decrement.ts:88-99 | DEC writes the decremented operand back to the address it was read from, changes no register, and costs the read-modify-write cycles |
| IncrementDecrement.IncrementThenDecrementRegister | src/opcodes/increment_decrement.ts:47-80 | INX then DEX (or INY then DEY) gives every register back |
| IncrementDecrement.IncrementThenDecrementMemory | src/opcodes/increment_decrement.ts:58-99 | When the effective address is not one of the instruction's own operand bytes, INC then DEC through the same operand gives the memory back |
| IncrementDecrement.IncrementWraps | tests/increments_decrements.test.ts:51-58 | INX on 0xFF gives 0 with Z set and N clear |
| IncrementDecrement.DecrementWraps | src/opcodes/increment_decrement.ts:30-39 | DEY on 0 gives 0xFF with N set and Z clear |
| Jumps.HighByteAddress | src/opcodes/jump.ts:35-41 | The high byte of an indirect target comes from the pointer's own page: from the next cell, or from the page's first cell when the pointer ends a page |
| Jumps.JoinBytes | src/opcodes/jump.ts:45 | Joining a high and a low byte gives the little-endian word whose quotient and remainder by 256 are those bytes |
| Jumps.Jmp | src/opcodes/jump.ts:16-50 | Absolute loads PC with the operand word in two cycles; Indirect loads PC from the word the operand points to, with the page wrap, in five cycles; only PC and cycles change; a read off the end of memory is a range error |
| Jumps.IndirectReadsStoredWord | tests/jmp.test.ts:35-54 | Away from a page end, JMP (pointer) lands on the word stored at the pointer |
| Jumps.IndirectWrapsWithinPage | tests/jmp.test.ts:57-77 | A pointer at 0x30FF takes its high byte from 0x3000, landing on 0x4080 |
| Jumps.AbsoluteExample | tests/jmp.test.ts:23-33 | JMP $7000 lands on 0x7000 in two handler cycles |
| Branches.Branch | src/opcodes/branch.ts:19-43 | The offset byte is read as a signed value; a taken branch moves PC from the next instruction by that offset for two cycles, plus one on a page cross; an untaken one costs one cycle; only PC and cycles change |
| Branches.ComplementaryBranches | tests/branch.test.ts:40-65 | Of a branch-on-set and branch-on-clear pair on the same state, exactly one falls through in one cycle and the other is taken |
| Branches.BranchToItself | src/opcodes/branch.ts:26-40 | A taken branch with offset 0xFE lands on its own opcode |
| Branches.BranchReach | src/opcodes/branch.ts:30-40 | Branch targets lie from 128 bytes before to 127 bytes after the next instruction |
| Branches.BranchCycles | src/opcodes/branch.ts:26-42 | A branch with its fetch takes two, three or four cycles |
| StackOps.Pha | src/opcodes/stack.ts:16-18 | PHA pushes A and leaves every other register and the flags alone, in two cycles |
| StackOps.Pla | src/opcodes/stack.ts:26-30 | PLA pulls A from the stack, Z and N describe it, in three cycles |
| StackOps.Php | src/opcodes/stack.ts:38-40 | PHP pushes the packed status byte, in two cycles |
| StackOps.Plp | src/opcodes/stack.ts:48-51 | PLP takes every flag from its bit of the pulled byte, in three cycles |
| StackOps.PlaAfterPha | tests/stack.test.ts:21-28 | PHA then PLA gives back A and SP; the pair takes seven cycles with the fetches |
| StackOps.PlpAfterPhp | tests/stack.test.ts:30-37 | When the Unused flag is set, as it is in every state a reset or a step produces, PHP then PLP gives back every flag |
| StackOps.FullStatusSurvivesStack | tests/stack.test.ts:30-37 | A status of 0xFF pushed and pulled reads back 0xFF, even if the flags were cleared in between |
| SystemOps.Nop | src/opcodes/system.ts:17-19 | NOP costs one cycle and changes no register, flag, PC or memory cell |
| Execution.Dispatch | src/ExecutionFunction.ts:9-11 | Running the handler of any decoded instruction on a machine takes one to six cycles and keeps the Unused flag set |
| Execution.Step | tests/cpu.test.ts:55-71 | A PC off memory is a range error; a byte with no handler is an invalid-opcode error naming the byte and the PC after it; a successful step costs two to seven cycles |
| Execution.StepDispatches | tests/cpu.test.ts:55-62 | When the byte at PC is the opcode of an instruction and mode, a step is exactly that instruction's handler run on the machine with PC past the opcode and one fetch cycle charged |
| Execution.StepWellBehaved | tests/cpu.test.ts:55-71 | Every successful step costs two to seven cycles and keeps the Unused flag set |
| Execution.Steps | tests/system.test.ts:13-31 | Zero steps change nothing; k successful steps cost between 2k and 7k cycles |
| Execution.IteratePrefix | tests/system.test.ts:13-31 | If k steps succeed, so does every shorter prefix, and each step left out would have cost at least two cycles |
| Execution.RunWithIsIterate | tests/cpu.test.ts:55-71 | A budgeted run equals some number k of steps, each of the first k steps succeeding and starting below the budget |
| Execution.Run | tests/cpu.test.ts:55-71 | Running stops at the first instruction that reaches the budget, so it ends less than seven cycles past the budget; with the budget already reached it does nothing |
| Execution.RunIsSteps | tests/cpu.test.ts:55-71 | A run is exactly k steps from its start, where every earlier step succeeded below the budget; it is the step sequence, not just a cycle count |
| Execution.Execute | tests/cpu.test.ts:55-71 | The cycles consumed are at least the budget and less than the budget plus seven; a budget of zero runs nothing |
| Execution.ExecuteExactly | tests/system.test.ts:23 | If k steps from the start land exactly on the budget, execution returns the budget as the cycles used and the machine those k steps reach |
| Execution.ResetVectorProgram | tests/cpu.test.ts:55-62 | After a reset through a vector to 0x6000, LDA #$42 there runs in exactly two cycles and leaves 0x42 in A |
| Execution.InvalidOpcodeStops | tests/cpu.test.ts:64-71 | After LDA #$42, the byte 0x00 stops execution with an invalid-opcode error |
| Execution.ThreeNops | tests/system.test.ts:13-31 | Three NOPs take six cycles, advance PC by three and change nothing else |

## Left out

- JSR, RTS and stack-pointer addressing: no handler for them exists in the source; only the push and pop they would use are modelled.
- Decimal mode, interrupts, BRK and the instructions without handlers (ADC, SBC, the compares, LSR, ROL, ROR, the flag instructions): none of them has a handler.
- File loading of test ROMs, the demo driver in src/main.ts, and the build script gulpfile.js: these are I/O and tooling.
- `Memory.WriteWord`, `Memory.WriteByte` and `Memory.Clear`: the model's memory holds only bytes, and its word data only 16-bit words. The source's memory is a plain array of numbers (src/memory.ts:11). `writeByte` (src/memory.ts:55-58) stores any number unmasked, and `writeWord` stores `data >> 8` unmasked at src/memory.ts:70, so data of 0x10000 or more leaves a value above 0xFF in the second cell, and data of 2^31 or more a negative one. A fresh memory's cells are `undefined` until cleared or written. None of these values arises in the modelled core: every writer there passes a byte (src/opcodes/store.ts:28, src/opcodes/shift.ts:33, src/opcodes/increment_decrement.ts:64 and 94), and every test clears or loads memory first.
- `Cpu.CalculateAddressFromAddressMode`: IndirectX reads its pointer word at `(operand + X) % 256` and at the cell after it. When the first cell is 0xFF, the second is 0x100, not 0x00 as on a 6502; the model follows the resolver as the tests pin it and does not state the 6502 wrap.
- `IncrementDecrement.IncrementMemory` and `IncrementDecrement.DecrementMemory` require a mode other than Accumulator. The handler would pass Accumulator to a resolver that has no address for it; INC A does not exist on the 6502, and no opcode decodes to it.
- `Cpu.ReadModifyWriteCycles` lists costs for ZeroPageY, AbsoluteY, IndirectX and IndirectY. These are what the handlers would charge; no opcode uses them.
- `Branches.Branch`: the program counter is an unbounded integer, as in the source, which does not mask it to 16 bits. A branch can leave PC outside memory; the next fetch then fails with a range error.
- `Cpu.Initialize` follows the tests, not the code: the PC is the word stored at the reset vector 0xFFFC. The skeleton at src/cpu.ts:79 instead sets PC to 0xFFFC itself. The flags object built at src/cpu.ts:86-94 names neither `Unused` nor `Status`; that Unused stays set and the status reads 0x20 comes from src/flags.ts:38 and tests/cpu.test.ts:37-38.
- The opcode table: the enum at src/opcodes.ts:8-60 names only the loads, JMP, the stores, the transfers and AND. The opcodes of EOR, ORA, BIT, ASL, INC, DEC, INX, INY, DEX, DEY, the branches, PHA, PLA, PHP, PLP and NOP are taken from the 6502 instruction reference linked at src/opcodes.ts:6, as the handlers and tests use them.
- The machine state after a failing instruction is not modelled: a failure returns only the error. The source may have changed the CPU before throwing; for example src/opcodes/branch.ts:26 has already advanced PC past the offset byte when the range check fails.
- `Cpu.StackPushByte` and `Cpu.StackPopByte`: a push decrements SP and then writes at 0x100+SP, and a pop reads there and then increments SP. A 6502 writes first and then decrements. The stack helpers are not part of src/cpu.ts and the tests pin only the round trip, so this order is a modelling choice.
- `Shifts.Asl` follows the code: N is not written, although a 6502 sets N from bit 7 of the result.
- The helpers that src/cpu.ts does not define (listed above) have their cycle costs fixed by the totals the tests check: load, store, shift, increment and decrement costs per address mode. The extra cycles that src/opcodes/shift.ts:34-36 and src/opcodes/increment_decrement.ts:62-67 charge without explanation are kept as constants.
- Tests that contradict the code are not followed. These are: the 4-cycle STA absolute,X in tests/sta_stx_sty.test.ts:66; the skipped test in tests/decrement.test.ts:168-172; and the "Absolute + Y" test at tests/cpu.test.ts:95-107, which resolves AbsoluteX.
