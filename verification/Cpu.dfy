/** What the models of the emitted 68k instructions have in common: condition codes and sizes. */
module Cpu {

  /** The condition codes of src/machdep/m68k.h. */
  datatype Flags = Flags(c: bool, z: bool, n: bool, v: bool, x: bool)

  datatype Size = Byte | Word | Long

  function Bits(size: Size): nat {
    match size
    case Byte => 8
    case Word => 16
    case Long => 32
  }

  /** The sign bit. */
  function Half(size: Size): nat {
    match size
    case Byte => 0x80
    case Word => 0x8000
    case Long => 0x8000_0000
  }

  /** Two to the number of bits. */
  function Base(size: Size): (b: nat)
    ensures b == 2 * Half(size) >= 0x100
  {
    match size
    case Byte => 0x100
    case Word => 0x1_0000
    case Long => 0x1_0000_0000
  }

  predicate InRange(size: Size, v: int) { 0 <= v < Base(size) }

  predicate Negative(size: Size, v: int) { v >= Half(size) }

  /** The value as a signed number. */
  function Signed(size: Size, v: int): int { if Negative(size, v) then v - Base(size) else v }

  /** Bytes, words and longs have 8, 16 and 32 bits, and the highest one is the sign. */
  lemma SizesAre(v: int)
    ensures Bits(Byte) == 8 && Bits(Word) == 16 && Bits(Long) == 32
    ensures Base(Byte) == 0x100 && Base(Word) == 0x1_0000 && Base(Long) == 0x1_0000_0000
    ensures forall size: Size :: InRange(size, v) ==>
              && Signed(size, v) == (if v >= Base(size) / 2 then v - Base(size) else v)
              && (Negative(size, v) <==> Signed(size, v) < 0)
  {
  }
}
