/**
  * The opcode table: which byte selects which instruction in which
  * addressing mode.
  *
  * The table holds every opcode the emulator handles. Its entries are the
  * emulator's own enumeration of opcode values (loads, JMP, stores,
  * transfers, AND) together with the standard 6502 encodings of the other
  * instructions whose handlers are modelled (EOR, ORA, BIT, ASL, INC/DEC,
  * the register increments, the branches, the stack instructions and NOP).
  * `Decode` is the table lookup on a fetched byte and `Encode` is its
  * inverse; `LegalMode` is the 6502's own list of addressing modes per
  * instruction, written independently of the table.
  */
module Opcodes {
  import opened Bytes
  import opened Results
  import opened AddressModes
  import opened Registers
  import opened Flags

  /** What a handler does, apart from its addressing mode. */
  datatype Instruction =
    | Load(target: Register)
    | Store(source: Register)
    | Transfer(source: Register, destination: Register)
    | And
    | Eor
    | Ora
    | Bit
    | Asl
    | IncrementMemory
    | DecrementMemory
    | IncrementRegister(register: Register)
    | DecrementRegister(register: Register)
    | Jump
    | Branch(flag: Flag, test: bool)
    | PushA
    | PullA
    | PushStatus
    | PullStatus
    | NoOperation

  /** An instruction together with the addressing mode of its operand. */
  datatype Decoded = Decoded(instruction: Instruction, mode: AddressMode)

  /**
    * The addressing modes the 6502 instruction set defines for each
    * instruction, independent of the table above.
    */
  predicate LegalMode(i: Instruction, m: AddressMode)
  {
    match i
    case Load(r) =>
      || (r == A && m in {Immediate, ZeroPage, ZeroPageX, Absolute, AbsoluteX, AbsoluteY, IndirectX, IndirectY})
      || (r == X && m in {Immediate, ZeroPage, ZeroPageY, Absolute, AbsoluteY})
      || (r == Y && m in {Immediate, ZeroPage, ZeroPageX, Absolute, AbsoluteX})
    case Store(r) =>
      || (r == A && m in {ZeroPage, ZeroPageX, Absolute, AbsoluteX, AbsoluteY, IndirectX, IndirectY})
      || (r == X && m in {ZeroPage, ZeroPageY, Absolute})
      || (r == Y && m in {ZeroPage, ZeroPageX, Absolute})
    case Transfer(s, d) => m == Implied && (s, d) in {(A, X), (A, Y), (X, A), (Y, A), (SP, X), (X, SP)}
    case And | Eor | Ora =>
      m in {Immediate, ZeroPage, ZeroPageX, Absolute, AbsoluteX, AbsoluteY, IndirectX, IndirectY}
    case Bit => m in {ZeroPage, Absolute}
    case Asl => m in {Accumulator, ZeroPage, ZeroPageX, Absolute, AbsoluteX}
    case IncrementMemory | DecrementMemory => m in {ZeroPage, ZeroPageX, Absolute, AbsoluteX}
    case IncrementRegister(r) => m == Implied && r in {X, Y}
    case DecrementRegister(r) => m == Implied && r in {X, Y}
    case Jump => m in {Absolute, Indirect}
    case Branch(_, _) => m == Relative
    case PushA | PullA | PushStatus | PullStatus | NoOperation => m == Implied
  }

  /** The byte that selects an instruction in a mode, if the table has one. */
  function Encode(d: Decoded): (r: Option<Byte>)
  {
    match d.instruction
    case Load(r) =>
      (match r
       case A =>
         (match d.mode
         case Immediate => Some(0xA9)
         case ZeroPage => Some(0xA5)
         case ZeroPageX => Some(0xB5)
         case Absolute => Some(0xAD)
         case AbsoluteX => Some(0xBD)
         case AbsoluteY => Some(0xB9)
         case IndirectX => Some(0xA1)
         case IndirectY => Some(0xB1)
         case _ => None)
       case X =>
         (match d.mode
         case Immediate => Some(0xA2)
         case ZeroPage => Some(0xA6)
         case ZeroPageY => Some(0xB6)
         case Absolute => Some(0xAE)
         case AbsoluteY => Some(0xBE)
         case _ => None)
       case Y =>
         (match d.mode
         case Immediate => Some(0xA0)
         case ZeroPage => Some(0xA4)
         case ZeroPageX => Some(0xB4)
         case Absolute => Some(0xAC)
         case AbsoluteX => Some(0xBC)
         case _ => None)
       case SP => None)
    case Jump =>
      (match d.mode
      case Absolute => Some(0x4C)
      case Indirect => Some(0x6C)
      case _ => None)
    case Store(r) =>
      (match r
       case A =>
         (match d.mode
         case ZeroPage => Some(0x85)
         case ZeroPageX => Some(0x95)
         case Absolute => Some(0x8D)
         case AbsoluteX => Some(0x9D)
         case AbsoluteY => Some(0x99)
         case IndirectX => Some(0x81)
         case IndirectY => Some(0x91)
         case _ => None)
       case X =>
         (match d.mode
         case ZeroPage => Some(0x86)
         case ZeroPageY => Some(0x96)
         case Absolute => Some(0x8E)
         case _ => None)
       case Y =>
         (match d.mode
         case ZeroPage => Some(0x84)
         case ZeroPageX => Some(0x94)
         case Absolute => Some(0x8C)
         case _ => None)
       case SP => None)
    case Transfer(s, t) =>
      if d.mode != Implied then None
      else
        (match (s, t)
         case (A, X) => Some(0xAA)
         case (A, Y) => Some(0xA8)
         case (X, A) => Some(0x8A)
         case (Y, A) => Some(0x98)
         case (SP, X) => Some(0xBA)
         case (X, SP) => Some(0x9A)
         case _ => None)
    case And =>
      (match d.mode
      case Immediate => Some(0x29)
      case ZeroPage => Some(0x25)
      case ZeroPageX => Some(0x35)
      case Absolute => Some(0x2D)
      case AbsoluteX => Some(0x3D)
      case AbsoluteY => Some(0x39)
      case IndirectX => Some(0x21)
      case IndirectY => Some(0x31)
      case _ => None)
    case Eor =>
      (match d.mode
      case Immediate => Some(0x49)
      case ZeroPage => Some(0x45)
      case ZeroPageX => Some(0x55)
      case Absolute => Some(0x4D)
      case AbsoluteX => Some(0x5D)
      case AbsoluteY => Some(0x59)
      case IndirectX => Some(0x41)
      case IndirectY => Some(0x51)
      case _ => None)
    case Ora =>
      (match d.mode
      case Immediate => Some(0x09)
      case ZeroPage => Some(0x05)
      case ZeroPageX => Some(0x15)
      case Absolute => Some(0x0D)
      case AbsoluteX => Some(0x1D)
      case AbsoluteY => Some(0x19)
      case IndirectX => Some(0x01)
      case IndirectY => Some(0x11)
      case _ => None)
    case Bit =>
      (match d.mode
      case ZeroPage => Some(0x24)
      case Absolute => Some(0x2C)
      case _ => None)
    case Asl =>
      (match d.mode
      case Accumulator => Some(0x0A)
      case ZeroPage => Some(0x06)
      case ZeroPageX => Some(0x16)
      case Absolute => Some(0x0E)
      case AbsoluteX => Some(0x1E)
      case _ => None)
    case IncrementMemory =>
      (match d.mode
      case ZeroPage => Some(0xE6)
      case ZeroPageX => Some(0xF6)
      case Absolute => Some(0xEE)
      case AbsoluteX => Some(0xFE)
      case _ => None)
    case DecrementMemory =>
      (match d.mode
      case ZeroPage => Some(0xC6)
      case ZeroPageX => Some(0xD6)
      case Absolute => Some(0xCE)
      case AbsoluteX => Some(0xDE)
      case _ => None)
    case IncrementRegister(r) =>
      if d.mode != Implied then None
      else
        (match r
         case X => Some(0xE8)
         case Y => Some(0xC8)
         case _ => None)
    case DecrementRegister(r) =>
      if d.mode != Implied then None
      else
        (match r
         case X => Some(0xCA)
         case Y => Some(0x88)
         case _ => None)
    case Branch(flag, test) =>
      if d.mode != Relative then None
      else
        (match (flag, test)
         case (Carry, false) => Some(0x90)
         case (Carry, true) => Some(0xB0)
         case (Zero, true) => Some(0xF0)
         case (Zero, false) => Some(0xD0)
         case (Negative, true) => Some(0x30)
         case (Negative, false) => Some(0x10)
         case (Overflow, false) => Some(0x50)
         case (Overflow, true) => Some(0x70))
    case PushA => if d.mode == Implied then Some(0x48) else None
    case PushStatus => if d.mode == Implied then Some(0x08) else None
    case PullA => if d.mode == Implied then Some(0x68) else None
    case PullStatus => if d.mode == Implied then Some(0x28) else None
    case NoOperation => if d.mode == Implied then Some(0xEA) else None
  }

  /**
    * The table lookup on a fetched byte. The table is laid out as the 6502
    * opcode matrix: one row per high nibble, one column per low nibble.
    */
  function Decode(b: Byte): Option<Decoded>
  {
    var column := b % 0x10;
    match b / 0x10
    case 0x0 =>
      (match column
      case 0x1 => Some(Decoded(Ora, IndirectX))
      case 0x5 => Some(Decoded(Ora, ZeroPage))
      case 0x6 => Some(Decoded(Asl, ZeroPage))
      case 0x8 => Some(Decoded(PushStatus, Implied))
      case 0x9 => Some(Decoded(Ora, Immediate))
      case 0xA => Some(Decoded(Asl, Accumulator))
      case 0xD => Some(Decoded(Ora, Absolute))
      case 0xE => Some(Decoded(Asl, Absolute))
      case _ => None)
    case 0x1 =>
      (match column
      case 0x0 => Some(Decoded(Branch(Negative, false), Relative))
      case 0x1 => Some(Decoded(Ora, IndirectY))
      case 0x5 => Some(Decoded(Ora, ZeroPageX))
      case 0x6 => Some(Decoded(Asl, ZeroPageX))
      case 0x9 => Some(Decoded(Ora, AbsoluteY))
      case 0xD => Some(Decoded(Ora, AbsoluteX))
      case 0xE => Some(Decoded(Asl, AbsoluteX))
      case _ => None)
    case 0x2 =>
      (match column
      case 0x1 => Some(Decoded(And, IndirectX))
      case 0x4 => Some(Decoded(Bit, ZeroPage))
      case 0x5 => Some(Decoded(And, ZeroPage))
      case 0x8 => Some(Decoded(PullStatus, Implied))
      case 0x9 => Some(Decoded(And, Immediate))
      case 0xC => Some(Decoded(Bit, Absolute))
      case 0xD => Some(Decoded(And, Absolute))
      case _ => None)
    case 0x3 =>
      (match column
      case 0x0 => Some(Decoded(Branch(Negative, true), Relative))
      case 0x1 => Some(Decoded(And, IndirectY))
      case 0x5 => Some(Decoded(And, ZeroPageX))
      case 0x9 => Some(Decoded(And, AbsoluteY))
      case 0xD => Some(Decoded(And, AbsoluteX))
      case _ => None)
    case 0x4 =>
      (match column
      case 0x1 => Some(Decoded(Eor, IndirectX))
      case 0x5 => Some(Decoded(Eor, ZeroPage))
      case 0x8 => Some(Decoded(PushA, Implied))
      case 0x9 => Some(Decoded(Eor, Immediate))
      case 0xC => Some(Decoded(Jump, Absolute))
      case 0xD => Some(Decoded(Eor, Absolute))
      case _ => None)
    case 0x5 =>
      (match column
      case 0x0 => Some(Decoded(Branch(Overflow, false), Relative))
      case 0x1 => Some(Decoded(Eor, IndirectY))
      case 0x5 => Some(Decoded(Eor, ZeroPageX))
      case 0x9 => Some(Decoded(Eor, AbsoluteY))
      case 0xD => Some(Decoded(Eor, AbsoluteX))
      case _ => None)
    case 0x6 =>
      (match column
      case 0x8 => Some(Decoded(PullA, Implied))
      case 0xC => Some(Decoded(Jump, Indirect))
      case _ => None)
    case 0x7 =>
      (match column
      case 0x0 => Some(Decoded(Branch(Overflow, true), Relative))
      case _ => None)
    case 0x8 =>
      (match column
      case 0x1 => Some(Decoded(Store(A), IndirectX))
      case 0x4 => Some(Decoded(Store(Y), ZeroPage))
      case 0x5 => Some(Decoded(Store(A), ZeroPage))
      case 0x6 => Some(Decoded(Store(X), ZeroPage))
      case 0x8 => Some(Decoded(DecrementRegister(Y), Implied))
      case 0xA => Some(Decoded(Transfer(X, A), Implied))
      case 0xC => Some(Decoded(Store(Y), Absolute))
      case 0xD => Some(Decoded(Store(A), Absolute))
      case 0xE => Some(Decoded(Store(X), Absolute))
      case _ => None)
    case 0x9 =>
      (match column
      case 0x0 => Some(Decoded(Branch(Carry, false), Relative))
      case 0x1 => Some(Decoded(Store(A), IndirectY))
      case 0x4 => Some(Decoded(Store(Y), ZeroPageX))
      case 0x5 => Some(Decoded(Store(A), ZeroPageX))
      case 0x6 => Some(Decoded(Store(X), ZeroPageY))
      case 0x8 => Some(Decoded(Transfer(Y, A), Implied))
      case 0x9 => Some(Decoded(Store(A), AbsoluteY))
      case 0xA => Some(Decoded(Transfer(X, SP), Implied))
      case 0xD => Some(Decoded(Store(A), AbsoluteX))
      case _ => None)
    case 0xA =>
      (match column
      case 0x0 => Some(Decoded(Load(Y), Immediate))
      case 0x1 => Some(Decoded(Load(A), IndirectX))
      case 0x2 => Some(Decoded(Load(X), Immediate))
      case 0x4 => Some(Decoded(Load(Y), ZeroPage))
      case 0x5 => Some(Decoded(Load(A), ZeroPage))
      case 0x6 => Some(Decoded(Load(X), ZeroPage))
      case 0x8 => Some(Decoded(Transfer(A, Y), Implied))
      case 0x9 => Some(Decoded(Load(A), Immediate))
      case 0xA => Some(Decoded(Transfer(A, X), Implied))
      case 0xC => Some(Decoded(Load(Y), Absolute))
      case 0xD => Some(Decoded(Load(A), Absolute))
      case 0xE => Some(Decoded(Load(X), Absolute))
      case _ => None)
    case 0xB =>
      (match column
      case 0x0 => Some(Decoded(Branch(Carry, true), Relative))
      case 0x1 => Some(Decoded(Load(A), IndirectY))
      case 0x4 => Some(Decoded(Load(Y), ZeroPageX))
      case 0x5 => Some(Decoded(Load(A), ZeroPageX))
      case 0x6 => Some(Decoded(Load(X), ZeroPageY))
      case 0x9 => Some(Decoded(Load(A), AbsoluteY))
      case 0xA => Some(Decoded(Transfer(SP, X), Implied))
      case 0xC => Some(Decoded(Load(Y), AbsoluteX))
      case 0xD => Some(Decoded(Load(A), AbsoluteX))
      case 0xE => Some(Decoded(Load(X), AbsoluteY))
      case _ => None)
    case 0xC =>
      (match column
      case 0x6 => Some(Decoded(DecrementMemory, ZeroPage))
      case 0x8 => Some(Decoded(IncrementRegister(Y), Implied))
      case 0xA => Some(Decoded(DecrementRegister(X), Implied))
      case 0xE => Some(Decoded(DecrementMemory, Absolute))
      case _ => None)
    case 0xD =>
      (match column
      case 0x0 => Some(Decoded(Branch(Zero, false), Relative))
      case 0x6 => Some(Decoded(DecrementMemory, ZeroPageX))
      case 0xE => Some(Decoded(DecrementMemory, AbsoluteX))
      case _ => None)
    case 0xE =>
      (match column
      case 0x6 => Some(Decoded(IncrementMemory, ZeroPage))
      case 0x8 => Some(Decoded(IncrementRegister(X), Implied))
      case 0xA => Some(Decoded(NoOperation, Implied))
      case 0xE => Some(Decoded(IncrementMemory, Absolute))
      case _ => None)
    case 0xF =>
      (match column
      case 0x0 => Some(Decoded(Branch(Zero, true), Relative))
      case 0x6 => Some(Decoded(IncrementMemory, ZeroPageX))
      case 0xE => Some(Decoded(IncrementMemory, AbsoluteX))
      case _ => None)
    case _ => None
  }

  /** An entry is faithful when it exists exactly for the legal modes and decodes back. */
  predicate EncodesFaithfully(d: Decoded)
  {
    && (Encode(d).Some? <==> LegalMode(d.instruction, d.mode))
    && (Encode(d).Some? ==> Decode(Encode(d).value) == Some(d))
  }

  /** The encoding of loads is defined on the legal modes and decodes back. */
  lemma EncodeLoads(d: Decoded)
    ensures d.instruction.Load? ==> EncodesFaithfully(d)
  {
    if d.instruction.Load? {
      match d.instruction.target {
        case A =>
          match d.mode {
            case Immediate => assert Decode(0xA9) == Some(Decoded(Load(A), Immediate));
            case ZeroPage => assert Decode(0xA5) == Some(Decoded(Load(A), ZeroPage));
            case ZeroPageX => assert Decode(0xB5) == Some(Decoded(Load(A), ZeroPageX));
            case Absolute => assert Decode(0xAD) == Some(Decoded(Load(A), Absolute));
            case AbsoluteX => assert Decode(0xBD) == Some(Decoded(Load(A), AbsoluteX));
            case AbsoluteY => assert Decode(0xB9) == Some(Decoded(Load(A), AbsoluteY));
            case IndirectX => assert Decode(0xA1) == Some(Decoded(Load(A), IndirectX));
            case IndirectY => assert Decode(0xB1) == Some(Decoded(Load(A), IndirectY));
            case _ =>
          }
        case X =>
          match d.mode {
            case Immediate => assert Decode(0xA2) == Some(Decoded(Load(X), Immediate));
            case ZeroPage => assert Decode(0xA6) == Some(Decoded(Load(X), ZeroPage));
            case ZeroPageY => assert Decode(0xB6) == Some(Decoded(Load(X), ZeroPageY));
            case Absolute => assert Decode(0xAE) == Some(Decoded(Load(X), Absolute));
            case AbsoluteY => assert Decode(0xBE) == Some(Decoded(Load(X), AbsoluteY));
            case _ =>
          }
        case Y =>
          match d.mode {
            case Immediate => assert Decode(0xA0) == Some(Decoded(Load(Y), Immediate));
            case ZeroPage => assert Decode(0xA4) == Some(Decoded(Load(Y), ZeroPage));
            case ZeroPageX => assert Decode(0xB4) == Some(Decoded(Load(Y), ZeroPageX));
            case Absolute => assert Decode(0xAC) == Some(Decoded(Load(Y), Absolute));
            case AbsoluteX => assert Decode(0xBC) == Some(Decoded(Load(Y), AbsoluteX));
            case _ =>
          }
        case _ =>
      }
    }
  }

  /** The encoding of stores is defined on the legal modes and decodes back. */
  lemma EncodeStores(d: Decoded)
    ensures d.instruction.Store? ==> EncodesFaithfully(d)
  {
    if d.instruction.Store? {
      match d.instruction.source {
        case A =>
          match d.mode {
            case ZeroPage => assert Decode(0x85) == Some(Decoded(Store(A), ZeroPage));
            case ZeroPageX => assert Decode(0x95) == Some(Decoded(Store(A), ZeroPageX));
            case Absolute => assert Decode(0x8D) == Some(Decoded(Store(A), Absolute));
            case AbsoluteX => assert Decode(0x9D) == Some(Decoded(Store(A), AbsoluteX));
            case AbsoluteY => assert Decode(0x99) == Some(Decoded(Store(A), AbsoluteY));
            case IndirectX => assert Decode(0x81) == Some(Decoded(Store(A), IndirectX));
            case IndirectY => assert Decode(0x91) == Some(Decoded(Store(A), IndirectY));
            case _ =>
          }
        case X =>
          match d.mode {
            case ZeroPage => assert Decode(0x86) == Some(Decoded(Store(X), ZeroPage));
            case ZeroPageY => assert Decode(0x96) == Some(Decoded(Store(X), ZeroPageY));
            case Absolute => assert Decode(0x8E) == Some(Decoded(Store(X), Absolute));
            case _ =>
          }
        case Y =>
          match d.mode {
            case ZeroPage => assert Decode(0x84) == Some(Decoded(Store(Y), ZeroPage));
            case ZeroPageX => assert Decode(0x94) == Some(Decoded(Store(Y), ZeroPageX));
            case Absolute => assert Decode(0x8C) == Some(Decoded(Store(Y), Absolute));
            case _ =>
          }
        case _ =>
      }
    }
  }

  /** The encoding of transfers is defined on the legal modes and decodes back. */
  lemma EncodeTransfers(d: Decoded)
    ensures d.instruction.Transfer? ==> EncodesFaithfully(d)
  {
    if d.instruction.Transfer? {
      if d.mode == Implied {
        match (d.instruction.source, d.instruction.destination) {
          case (A, X) => assert Decode(0xAA) == Some(Decoded(Transfer(A, X), Implied));
          case (A, Y) => assert Decode(0xA8) == Some(Decoded(Transfer(A, Y), Implied));
          case (X, A) => assert Decode(0x8A) == Some(Decoded(Transfer(X, A), Implied));
          case (Y, A) => assert Decode(0x98) == Some(Decoded(Transfer(Y, A), Implied));
          case (SP, X) => assert Decode(0xBA) == Some(Decoded(Transfer(SP, X), Implied));
          case (X, SP) => assert Decode(0x9A) == Some(Decoded(Transfer(X, SP), Implied));
          case _ =>
        }
      }
    }
  }

  /** The encoding of AND, EOR, ORA and BIT is defined on the legal modes and decodes back. */
  lemma EncodeLogical(d: Decoded)
    ensures (d.instruction.And? || d.instruction.Eor? || d.instruction.Ora? || d.instruction.Bit?) ==> EncodesFaithfully(d)
  {
    match d.instruction {
      case And =>
        match d.mode {
          case Immediate => assert Decode(0x29) == Some(Decoded(And, Immediate));
          case ZeroPage => assert Decode(0x25) == Some(Decoded(And, ZeroPage));
          case ZeroPageX => assert Decode(0x35) == Some(Decoded(And, ZeroPageX));
          case Absolute => assert Decode(0x2D) == Some(Decoded(And, Absolute));
          case AbsoluteX => assert Decode(0x3D) == Some(Decoded(And, AbsoluteX));
          case AbsoluteY => assert Decode(0x39) == Some(Decoded(And, AbsoluteY));
          case IndirectX => assert Decode(0x21) == Some(Decoded(And, IndirectX));
          case IndirectY => assert Decode(0x31) == Some(Decoded(And, IndirectY));
          case _ =>
        }
      case Eor =>
        match d.mode {
          case Immediate => assert Decode(0x49) == Some(Decoded(Eor, Immediate));
          case ZeroPage => assert Decode(0x45) == Some(Decoded(Eor, ZeroPage));
          case ZeroPageX => assert Decode(0x55) == Some(Decoded(Eor, ZeroPageX));
          case Absolute => assert Decode(0x4D) == Some(Decoded(Eor, Absolute));
          case AbsoluteX => assert Decode(0x5D) == Some(Decoded(Eor, AbsoluteX));
          case AbsoluteY => assert Decode(0x59) == Some(Decoded(Eor, AbsoluteY));
          case IndirectX => assert Decode(0x41) == Some(Decoded(Eor, IndirectX));
          case IndirectY => assert Decode(0x51) == Some(Decoded(Eor, IndirectY));
          case _ =>
        }
      case Ora =>
        match d.mode {
          case Immediate => assert Decode(0x09) == Some(Decoded(Ora, Immediate));
          case ZeroPage => assert Decode(0x05) == Some(Decoded(Ora, ZeroPage));
          case ZeroPageX => assert Decode(0x15) == Some(Decoded(Ora, ZeroPageX));
          case Absolute => assert Decode(0x0D) == Some(Decoded(Ora, Absolute));
          case AbsoluteX => assert Decode(0x1D) == Some(Decoded(Ora, AbsoluteX));
          case AbsoluteY => assert Decode(0x19) == Some(Decoded(Ora, AbsoluteY));
          case IndirectX => assert Decode(0x01) == Some(Decoded(Ora, IndirectX));
          case IndirectY => assert Decode(0x11) == Some(Decoded(Ora, IndirectY));
          case _ =>
        }
      case Bit =>
        match d.mode {
          case ZeroPage => assert Decode(0x24) == Some(Decoded(Bit, ZeroPage));
          case Absolute => assert Decode(0x2C) == Some(Decoded(Bit, Absolute));
          case _ =>
        }
      case _ =>
    }
  }

  /** The encoding of ASL, INC and DEC is defined on the legal modes and decodes back. */
  lemma EncodeReadModifyWrite(d: Decoded)
    ensures (d.instruction.Asl? || d.instruction.IncrementMemory? || d.instruction.DecrementMemory?) ==> EncodesFaithfully(d)
  {
    match d.instruction {
      case Asl =>
        match d.mode {
          case Accumulator => assert Decode(0x0A) == Some(Decoded(Asl, Accumulator));
          case ZeroPage => assert Decode(0x06) == Some(Decoded(Asl, ZeroPage));
          case ZeroPageX => assert Decode(0x16) == Some(Decoded(Asl, ZeroPageX));
          case Absolute => assert Decode(0x0E) == Some(Decoded(Asl, Absolute));
          case AbsoluteX => assert Decode(0x1E) == Some(Decoded(Asl, AbsoluteX));
          case _ =>
        }
      case IncrementMemory =>
        match d.mode {
          case ZeroPage => assert Decode(0xE6) == Some(Decoded(IncrementMemory, ZeroPage));
          case ZeroPageX => assert Decode(0xF6) == Some(Decoded(IncrementMemory, ZeroPageX));
          case Absolute => assert Decode(0xEE) == Some(Decoded(IncrementMemory, Absolute));
          case AbsoluteX => assert Decode(0xFE) == Some(Decoded(IncrementMemory, AbsoluteX));
          case _ =>
        }
      case DecrementMemory =>
        match d.mode {
          case ZeroPage => assert Decode(0xC6) == Some(Decoded(DecrementMemory, ZeroPage));
          case ZeroPageX => assert Decode(0xD6) == Some(Decoded(DecrementMemory, ZeroPageX));
          case Absolute => assert Decode(0xCE) == Some(Decoded(DecrementMemory, Absolute));
          case AbsoluteX => assert Decode(0xDE) == Some(Decoded(DecrementMemory, AbsoluteX));
          case _ =>
        }
      case _ =>
    }
  }

  /** The encoding of INX, INY, DEX and DEY is defined on the legal modes and decodes back. */
  lemma EncodeRegisterSteps(d: Decoded)
    ensures (d.instruction.IncrementRegister? || d.instruction.DecrementRegister?) ==> EncodesFaithfully(d)
  {
    match d.instruction {
      case IncrementRegister(_) =>
        match d.instruction.register {
          case X =>
            match d.mode {
              case Implied => assert Decode(0xE8) == Some(Decoded(IncrementRegister(X), Implied));
              case _ =>
            }
          case Y =>
            match d.mode {
              case Implied => assert Decode(0xC8) == Some(Decoded(IncrementRegister(Y), Implied));
              case _ =>
            }
          case _ =>
        }
      case DecrementRegister(_) =>
        match d.instruction.register {
          case X =>
            match d.mode {
              case Implied => assert Decode(0xCA) == Some(Decoded(DecrementRegister(X), Implied));
              case _ =>
            }
          case Y =>
            match d.mode {
              case Implied => assert Decode(0x88) == Some(Decoded(DecrementRegister(Y), Implied));
              case _ =>
            }
          case _ =>
        }
      case _ =>
    }
  }

  /** The encoding of JMP and the branches is defined on the legal modes and decodes back. */
  lemma EncodeJumpsAndBranches(d: Decoded)
    ensures (d.instruction.Jump? || d.instruction.Branch?) ==> EncodesFaithfully(d)
  {
    match d.instruction {
      case Jump =>
        match d.mode {
          case Absolute => assert Decode(0x4C) == Some(Decoded(Jump, Absolute));
          case Indirect => assert Decode(0x6C) == Some(Decoded(Jump, Indirect));
          case _ =>
        }
      case Branch(_, _) =>
        if d.mode == Relative {
          match (d.instruction.flag, d.instruction.test) {
            case (Carry, false) => assert Decode(0x90) == Some(Decoded(Branch(Carry, false), Relative));
            case (Carry, true) => assert Decode(0xB0) == Some(Decoded(Branch(Carry, true), Relative));
            case (Zero, true) => assert Decode(0xF0) == Some(Decoded(Branch(Zero, true), Relative));
            case (Zero, false) => assert Decode(0xD0) == Some(Decoded(Branch(Zero, false), Relative));
            case (Negative, true) => assert Decode(0x30) == Some(Decoded(Branch(Negative, true), Relative));
            case (Negative, false) => assert Decode(0x10) == Some(Decoded(Branch(Negative, false), Relative));
            case (Overflow, false) => assert Decode(0x50) == Some(Decoded(Branch(Overflow, false), Relative));
            case (Overflow, true) => assert Decode(0x70) == Some(Decoded(Branch(Overflow, true), Relative));
          }
        }
      case _ =>
    }
  }

  /** The encoding of the stack instructions and NOP is defined on the legal modes and decodes back. */
  lemma EncodeStackAndNop(d: Decoded)
    ensures (d.instruction.PushA? || d.instruction.PullA? || d.instruction.PushStatus? || d.instruction.PullStatus? || d.instruction.NoOperation?) ==> EncodesFaithfully(d)
  {
    match d.instruction {
      case PushA =>
        match d.mode {
          case Implied => assert Decode(0x48) == Some(Decoded(PushA, Implied));
          case _ =>
        }
      case PullA =>
        match d.mode {
          case Implied => assert Decode(0x68) == Some(Decoded(PullA, Implied));
          case _ =>
        }
      case PushStatus =>
        match d.mode {
          case Implied => assert Decode(0x08) == Some(Decoded(PushStatus, Implied));
          case _ =>
        }
      case PullStatus =>
        match d.mode {
          case Implied => assert Decode(0x28) == Some(Decoded(PullStatus, Implied));
          case _ =>
        }
      case NoOperation =>
        match d.mode {
          case Implied => assert Decode(0xEA) == Some(Decoded(NoOperation, Implied));
          case _ =>
        }
      case _ =>
    }
  }

  /** A decoded byte is a legal entry of the table that encodes back to the byte. */
  predicate DecodesFaithfully(b: Byte)
    requires Decode(b).Some?
  {
    var d := Decode(b).value;
    LegalMode(d.instruction, d.mode) && Encode(d) == Some(b)
  }

  /** Decoding rows 0x0 to 0x3 of the matrix yields legal entries that encode back. */
  lemma DecodeRows0To3(b: Byte)
    ensures 0 <= b / 0x10 < 4 && Decode(b).Some? ==> DecodesFaithfully(b)
  {
  }

  /** Decoding rows 0x4 to 0x7 of the matrix yields legal entries that encode back. */
  lemma DecodeRows4To7(b: Byte)
    ensures 4 <= b / 0x10 < 8 && Decode(b).Some? ==> DecodesFaithfully(b)
  {
  }

  /** Decoding rows 0x8 to 0xB of the matrix yields legal entries that encode back. */
  lemma DecodeRows8ToB(b: Byte)
    ensures 8 <= b / 0x10 < 12 && Decode(b).Some? ==> DecodesFaithfully(b)
  {
  }

  /** Decoding rows 0xC to 0xF of the matrix yields legal entries that encode back. */
  lemma DecodeRowsCToF(b: Byte)
    ensures 12 <= b / 0x10 < 16 && Decode(b).Some? ==> DecodesFaithfully(b)
  {
  }

  /** Every byte the table decodes is a legal entry, and it encodes back to the byte. */
  lemma DecodeThenEncode(b: Byte)
    ensures Decode(b).Some? ==> LegalMode(Decode(b).value.instruction, Decode(b).value.mode)
    ensures Decode(b).Some? ==> Encode(Decode(b).value) == Some(b)
  {
    DecodeRows0To3(b);
    DecodeRows4To7(b);
    DecodeRows8ToB(b);
    DecodeRowsCToF(b);
  }

  /**
    * The table has an entry for an instruction in a mode exactly when the
    * 6502 allows that mode, and every entry decodes back to what it encodes.
    */
  lemma EncodeThenDecode(d: Decoded)
    ensures Encode(d).Some? <==> LegalMode(d.instruction, d.mode)
    ensures Encode(d).Some? ==> Decode(Encode(d).value) == Some(d)
  {
    EncodeLoads(d);
    EncodeStores(d);
    EncodeTransfers(d);
    EncodeLogical(d);
    EncodeReadModifyWrite(d);
    EncodeRegisterSteps(d);
    EncodeJumpsAndBranches(d);
    EncodeStackAndNop(d);
  }

  /** No two instructions share a byte, so the table is a function of the byte. */
  lemma EncodeInjective(d1: Decoded, d2: Decoded)
    ensures Encode(d1).Some? && Encode(d1) == Encode(d2) ==> d1 == d2
  {
    EncodeThenDecode(d1);
    EncodeThenDecode(d2);
  }

  /** Decoding fails exactly on the bytes that encode nothing. */
  lemma DecodeFailsOffTable(b: Byte)
    ensures Decode(b).None? <==> forall d: Decoded :: Encode(d) != Some(b)
  {
    forall d: Decoded ensures Decode(b).None? ==> Encode(d) != Some(b) {
      EncodeThenDecode(d);
    }
    DecodeThenEncode(b);
  }

  /** 0xA9 is LDA immediate, and 0x00 (BRK, which has no handler) decodes to nothing. */
  lemma LoadImmediateAndNoBreak()
    ensures Decode(0xA9) == Some(Decoded(Load(A), Immediate))
    ensures Decode(0x00) == None
  {
  }

  /** 0x4C is the absolute JMP and 0x6C the indirect one. */
  lemma JumpEntries()
    ensures Decode(0x4C) == Some(Decoded(Jump, Absolute))
    ensures Decode(0x6C) == Some(Decoded(Jump, Indirect))
  {
  }

  /** X is indexed by Y and Y by X: 0xB6 is LDX zero page,Y and 0x96 is STX zero page,Y. */
  lemma RegisterPairingEntries()
    ensures Decode(0xB6) == Some(Decoded(Load(X), ZeroPageY))
    ensures Decode(0x96) == Some(Decoded(Store(X), ZeroPageY))
    ensures Decode(0xB4) == Some(Decoded(Load(Y), ZeroPageX))
    ensures Decode(0x9A) == Some(Decoded(Transfer(X, SP), Implied))
  {
  }
}
