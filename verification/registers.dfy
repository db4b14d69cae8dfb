/**
  * The register file: accumulator, the two index registers and the stack
  * pointer, each an 8-bit value.
  */
module Registers {
  import opened Bytes

  datatype Register = A | X | Y | SP

  datatype RegisterFile = RegisterFile(a: Byte, x: Byte, y: Byte, sp: Byte)

  function Get(regs: RegisterFile, r: Register): Byte
  {
    match r
    case A => regs.a
    case X => regs.x
    case Y => regs.y
    case SP => regs.sp
  }

  /** Writes one register; the other three keep their values. */
  function Set(regs: RegisterFile, r: Register, v: Byte): (res: RegisterFile)
    ensures Get(res, r) == v
    ensures forall o: Register :: o != r ==> Get(res, o) == Get(regs, o)
  {
    match r
    case A => regs.(a := v)
    case X => regs.(x := v)
    case Y => regs.(y := v)
    case SP => regs.(sp := v)
  }

  /** All registers zero, as after power-on. */
  function Zeroed(): RegisterFile
  {
    RegisterFile(0, 0, 0, 0)
  }
}
