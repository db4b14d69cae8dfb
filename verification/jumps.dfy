/**
  * JMP: the program counter is loaded from the operand word (Absolute) or
  * from the word that the operand points to (Indirect). The indirect read
  * reproduces the 6502's page-wrap quirk: a pointer at the last byte of a
  * page takes its high byte from the start of the same page.
  */
module Jumps {
  import opened Bytes
  import opened Results
  import opened AddressModes
  import opened Memory
  import opened Cpu

  /**
    * Where the high byte of an indirect target is read: the cell after the
    * pointer, except that a pointer at the end of a page wraps to that
    * page's first cell instead of moving to the next page.
    */
  function HighByteAddress(pointer: Word): (a: Word)
    ensures PageOf(a) == PageOf(pointer)
    ensures pointer % 0x100 != 0xFF ==> a == pointer + 1
    ensures pointer % 0x100 == 0xFF ==> a == pointer - 0xFF
  {
    LowByteMask(pointer);
    HighByteMask(pointer);
    NextOnSamePage(pointer);
    if BitAnd(pointer, 0xFF) == 0xFF then BitAnd(pointer, 0xFF00) else pointer + 1
  }

  /** The cell after `pointer`, or the first of its page at a page end, is on the pointer's page. */
  lemma NextOnSamePage(pointer: Word)
    ensures pointer % 0x100 != 0xFF ==> PageOf(pointer + 1) == PageOf(pointer)
    ensures pointer % 0x100 == 0xFF ==> PageOf(pointer - 0xFF) == PageOf(pointer)
  {
    var high, low := pointer / 0x100, pointer % 0x100;
    PageOfParts(high, low);
    if low == 0xFF {
      PageOfParts(high, 0);
    } else {
      PageOfParts(high, low + 1);
    }
  }

  /** The address assembled from a high and a low byte: `(high << 8) | low`. */
  function JoinBytes(high: Byte, low: Byte): (w: Word)
    ensures w == LittleEndian(low, high)
    ensures w / 0x100 == high && w % 0x100 == low
  {
    assert Pow2(8) == 0x100;
    OrDisjointLow(high, low, 8);
    BitOr(high * 0x100, low)
  }

  /**
    * JMP through `mode`. Absolute costs two cycles beyond the fetch and
    * Indirect five; the read of the operand word can fail when it runs off
    * the end of memory. Any other mode leaves the machine as it is.
    */
  function Jmp(m: Machine, mode: AddressMode): (r: Result<Machine>)
    ensures mode !in {Absolute, Indirect} ==> r == Ok(m)
    ensures mode in {Absolute, Indirect} ==> (r.Ok? <==> OperandInRange(m.cpu, mode))
    ensures r.Err? ==> r.error == AddressOutOfRange(if ValidAddress(m.cpu.pc) then m.cpu.pc + 1 else m.cpu.pc)
    ensures mode == Absolute && r.Ok? ==>
              r.value.cpu.pc == WordAt(m.mem, m.cpu.pc) && r.value.cpu.cycles == m.cpu.cycles + 2
    ensures mode == Indirect && r.Ok? ==>
              var pointer := WordAt(m.mem, m.cpu.pc);
              && r.value.cpu.pc == LittleEndian(m.mem[pointer], m.mem[HighByteAddress(pointer)])
              && r.value.cpu.cycles == m.cpu.cycles + 5
    ensures mode in {Absolute, Indirect} && r.Ok? ==> 0 <= r.value.cpu.pc < SIZE
    ensures r.Ok? ==> r.value == m.(cpu := m.cpu.(pc := r.value.cpu.pc, cycles := r.value.cpu.cycles))
  {
    match mode
    case Absolute =>
      var target :- ReadWord(m.mem, m.cpu.pc);
      Ok(m.(cpu := m.cpu.(pc := target, cycles := m.cpu.cycles + 2)))
    case Indirect =>
      var pointer :- ReadWord(m.mem, m.cpu.pc);
      // Both reads are of 16-bit addresses, so their range checks always pass.
      var low := m.mem[pointer];
      var high := m.mem[HighByteAddress(pointer)];
      Ok(m.(cpu := m.cpu.(pc := JoinBytes(high, low), cycles := m.cpu.cycles + 2 + 1 + 1 + 1)))
    case _ => Ok(m)
  }

  /**
    * Away from a page end, JMP (pointer) goes to the little-endian word
    * stored at the pointer, exactly like reading that word directly.
    */
  lemma IndirectReadsStoredWord(m: Machine)
    requires OperandInRange(m.cpu, Indirect)
    requires WordAt(m.mem, m.cpu.pc) % 0x100 != 0xFF
    ensures Jmp(m, Indirect).value.cpu.pc == WordAt(m.mem, WordAt(m.mem, m.cpu.pc))
  {
  }

  /**
    * A pointer at 0x30FF reads its low byte there and its high byte from
    * 0x3000, not 0x3100: with 0x80 and 0x40 stored there, JMP goes to 0x4080.
    */
  lemma IndirectWrapsWithinPage(m: Machine)
    requires 0 <= m.cpu.pc < MAX_ADDRESS
    requires m.mem[m.cpu.pc] == 0xFF && m.mem[m.cpu.pc + 1] == 0x30
    requires m.mem[0x30FF] == 0x80 && m.mem[0x3000] == 0x40
    ensures Jmp(m, Indirect).Ok? && Jmp(m, Indirect).value.cpu.pc == 0x4080
  {
  }

  /** JMP absolute to 0x7000 lands there in two cycles beyond the fetch. */
  lemma AbsoluteExample(m: Machine)
    requires m.cpu.pc == 0x6001 && m.mem[0x6001] == 0x00 && m.mem[0x6002] == 0x70
    ensures Jmp(m, Absolute) == Ok(m.(cpu := m.cpu.(pc := 0x7000, cycles := m.cpu.cycles + 2)))
  {
  }
}
