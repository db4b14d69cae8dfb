/**
  * The 6502 addressing modes. The first nine are the emulator's own
  * enumeration; the handlers also dispatch on `Accumulator` (shifts) and
  * `Indirect` (JMP), and the decode table needs a tag for instructions
  * without an operand (`Implied`) and for branches (`Relative`).
  */
module AddressModes {

  datatype AddressMode =
    | Immediate
    | ZeroPage
    | ZeroPageX
    | ZeroPageY
    | Absolute
    | AbsoluteX
    | AbsoluteY
    | IndirectX
    | IndirectY
    | Accumulator
    | Indirect
    | Implied
    | Relative

  /** The modes that name a location in memory, i.e. the ones the address resolver accepts. */
  predicate IsMemoryMode(mode: AddressMode)
  {
    mode in {ZeroPage, ZeroPageX, ZeroPageY, Absolute, AbsoluteX, AbsoluteY, IndirectX, IndirectY}
  }

  /** Number of operand bytes that follow the opcode. */
  function OperandBytes(mode: AddressMode): nat
  {
    match mode
    case Accumulator | Implied => 0
    case Immediate | ZeroPage | ZeroPageX | ZeroPageY | IndirectX | IndirectY | Relative => 1
    case Absolute | AbsoluteX | AbsoluteY | Indirect => 2
  }
}
