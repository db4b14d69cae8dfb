/**
  * The two error kinds the emulator raises, and the result type every
  * fallible operation returns instead of throwing.
  */
module Results {
  import opened AddressModes

  datatype Error =
    /** A memory access outside 0x0000..0xFFFF; carries the offending address. */
    | AddressOutOfRange(address: int)
    /** A fetched byte with no handler; carries the byte and the PC after the fetch. */
    | InvalidOpcode(opcode: int, pc: int)
    /** An address-mode resolution was asked for a mode that names no memory location. */
    | InvalidAddressMode(mode: AddressMode)

  datatype Option<+T> = None | Some(value: T)

  datatype Result<+T> = Ok(value: T) | Err(error: Error) {
    predicate IsFailure() {
      Err?
    }

    function PropagateFailure<U>(): Result<U>
      requires Err?
    {
      Err(error)
    }

    function Extract(): T
      requires Ok?
    {
      value
    }
  }
}
