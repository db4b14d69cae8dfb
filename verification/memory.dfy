/**
  * The 64 KiB byte store: range-checked byte and word access, words stored
  * little-endian, and the page-crossing test the CPU charges cycles for.
  */
module Memory {
  import opened Bytes
  import opened Results

  const MAX_ADDRESS := 0xFFFF
  const SIZE := MAX_ADDRESS + 1

  /** Exactly one cell per address 0x0000..0xFFFF. */
  type Ram = s: seq<Byte> | |s| == SIZE witness Clear()

  predicate ValidAddress(address: int)
  {
    0 <= address <= MAX_ADDRESS
  }

  /** Every cell zero. */
  function Clear(): (m: seq<Byte>)
    ensures |m| == SIZE
    ensures forall i :: 0 <= i < SIZE ==> m[i] == 0
  {
    seq(SIZE, _ => 0)
  }

  /** The 16-bit value whose low byte is `lo` and high byte is `hi`. */
  function LittleEndian(lo: Byte, hi: Byte): Word
  {
    (hi as int) * 0x100 + lo
  }

  /** Raises the range error for any address outside 0x0000..0xFFFF. */
  function VerifyAddressRange(address: int): (r: Result<()>)
    ensures r.Ok? <==> ValidAddress(address)
    ensures r.Err? ==> r.error == AddressOutOfRange(address)
  {
    if address > MAX_ADDRESS then Err(AddressOutOfRange(address))
    else if address < 0 then Err(AddressOutOfRange(address))
    else Ok(())
  }

  /** Reads one byte; an address outside the space is a range error. */
  function ReadByte(mem: Ram, address: int): (r: Result<Byte>)
    ensures r.Ok? <==> ValidAddress(address)
    ensures r.Ok? ==> r.value == mem[address]
    ensures r.Err? ==> r.error == AddressOutOfRange(address)
  {
    var _ :- VerifyAddressRange(address);
    Ok(mem[address])
  }

  /** Reads the low byte at `address` and the high byte at `address + 1`; both addresses are checked. */
  function ReadWord(mem: Ram, address: int): (r: Result<Word>)
    ensures r.Ok? <==> 0 <= address && address + 1 <= MAX_ADDRESS
    ensures r.Ok? ==> r.value == (mem[address + 1] as int) * 0x100 + mem[address]
    ensures r.Err? ==> r.error == AddressOutOfRange(if ValidAddress(address) then address + 1 else address)
  {
    var _ :- VerifyAddressRange(address);
    var _ :- VerifyAddressRange(address + 1);
    Ok(LittleEndian(mem[address], mem[address + 1]))
  }

  /** Stores one byte; every other cell is unchanged. */
  function WriteByte(mem: Ram, address: int, data: Byte): (r: Result<Ram>)
    ensures r.Ok? <==> ValidAddress(address)
    ensures r.Ok? ==> r.value[address] == data
    ensures r.Ok? ==> forall i :: 0 <= i < SIZE && i != address ==> r.value[i] == mem[i]
    ensures r.Err? ==> r.error == AddressOutOfRange(address)
  {
    var _ :- VerifyAddressRange(address);
    Ok(mem[address := data])
  }

  /** Stores `data & 0xFF` at `address` and `data >> 8` at `address + 1`; every other cell is unchanged. */
  function WriteWord(mem: Ram, address: int, data: Word): (r: Result<Ram>)
    ensures r.Ok? <==> 0 <= address && address + 1 <= MAX_ADDRESS
    ensures r.Ok? ==> LittleEndian(r.value[address], r.value[address + 1]) == data
    ensures r.Ok? ==> r.value[address] == data % 0x100 && r.value[address + 1] == data / 0x100
    ensures r.Ok? ==> forall i :: 0 <= i < SIZE && i != address && i != address + 1 ==> r.value[i] == mem[i]
    ensures r.Err? ==> r.error == AddressOutOfRange(if ValidAddress(address) then address + 1 else address)
  {
    var _ :- VerifyAddressRange(address);
    var _ :- VerifyAddressRange(address + 1);
    Ok(mem[address := data % 0x100][address + 1 := data / 0x100])
  }

  /**
    * The page (high byte) of an address, as `address & 0xFF00` computes it on
    * a 32-bit two's-complement number: the remainder modulo 0x10000 is taken
    * first so that negative and over-range values are handled the same way.
    */
  function PageOf(address: int): (p: int)
    ensures 0 <= p <= 0xFF00 && p % 0x100 == 0
    ensures ValidAddress(address) ==> p <= address < p + 0x100
  {
    (address % 0x1_0000) / 0x100 * 0x100
  }

  /** An address inside the space lies on the page its high byte names. */
  lemma PageOfParts(high: Byte, low: Byte)
    ensures PageOf(high * 0x100 + low) == high * 0x100
  {
    DivModUnique(high * 0x100 + low, 0x100, high, low);
  }

  /** Adding `offset` to `baseAddress` changes its page. */
  predicate OffsetCrossesPageBoundary(baseAddress: int, offset: int)
  {
    PageOf(baseAddress) != PageOf(baseAddress + offset)
  }

  /** Within the address space, crossing a page means the high bytes differ. */
  lemma CrossingIsHighByteChange(baseAddress: int, offset: int)
    requires ValidAddress(baseAddress) && ValidAddress(baseAddress + offset)
    ensures OffsetCrossesPageBoundary(baseAddress, offset) <==> baseAddress / 0x100 != (baseAddress + offset) / 0x100
  {
  }

  /** A byte written is the byte read back. */
  lemma ReadAfterWriteByte(mem: Ram, address: int, data: Byte, other: int)
    requires ValidAddress(address) && ValidAddress(other)
    ensures ReadByte(WriteByte(mem, address, data).value, address) == Ok(data)
    ensures other != address ==> ReadByte(WriteByte(mem, address, data).value, other) == ReadByte(mem, other)
  {
  }

  /** A word written is the word read back. */
  lemma ReadAfterWriteWord(mem: Ram, address: int, data: Word)
    requires 0 <= address && address + 1 <= MAX_ADDRESS
    ensures ReadWord(WriteWord(mem, address, data).value, address) == Ok(data)
  {
  }

  /** A word access at the last address fails on its second byte. */
  lemma WordAtTopFails(mem: Ram, data: Word)
    ensures ReadWord(mem, MAX_ADDRESS) == Err(AddressOutOfRange(MAX_ADDRESS + 1))
    ensures WriteWord(mem, MAX_ADDRESS, data) == Err(AddressOutOfRange(MAX_ADDRESS + 1))
  {
  }
}
