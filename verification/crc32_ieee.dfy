/** The CRC-32 that guards stored partitions: a table of sixteen entries, and two look-ups for each byte. */
module Crc32Ieee {
  import opened Bytes
  import opened Crc32
  import opened Crc32Table

  const NIBBLES: Row := Row(0x00000000, 0x1DB71064, 0x3B6E20C8, 0x26D930AC, 0x76DC4190, 0x6B6B51F4, 0x4DB26158, 0x5005713C,
                            0xEDB88320, 0xF00F9344, 0xD6D6A3E8, 0xCB61B38C, 0x9B64C2B0, 0x86D3D2D4, 0xA00AE278, 0xBDBDF21C)

  lemma {:induction false} NibblesHold()
    ensures RowHolds(Step4, NIBBLES)
  {
  }

  lemma {:induction false} NibblesAreEntries()
    ensures EntriesHold(Step4, NIBBLES)
  {
    NibblesHold();
    RowIsEntries(Step4, NIBBLES);
  }

  lemma {:induction false} NibbleIsSteps(x: Word)
    requires x < 16
    ensures Entry(NIBBLES, x) == Step4(x)
  {
    NibblesAreEntries();
    assert EntryHolds(Step4, NIBBLES, x);
  }

  /** A look-up and a shift do the work of four division steps. */
  lemma {:induction false} LookUpNibble(crc: Word, nibble: Word)
    requires nibble < 16
    ensures (crc ^ nibble) & 0xF < 16
    ensures Xor(crc >> 4, Entry(NIBBLES, (crc ^ nibble) & 0xF)) == Step4(crc ^ nibble)
  {
    var x := crc ^ nibble;
    assert x & 0xF < 16;
    NibbleIsSteps(x & 0xF);
    Step4OfLowPart(x);
    HighNibbles(crc, nibble, Step4(x & 0xF));
  }

  lemma {:induction false} HighNibbles(crc: Word, nibble: Word, y: Word)
    requires nibble < 16
    ensures (crc ^ nibble) >> 4 == crc >> 4 && Xor(crc >> 4, y) == Xor(y, crc >> 4)
  {
  }

  lemma {:induction false} NibblesOfByte(crc: Word, b: byte)
    ensures (b & 0xF) as bv32 < 16 && (b >> 4) as bv32 < 16
    ensures (crc ^ (b as bv32)) & 0xF == (crc ^ ((b & 0xF) as bv32)) & 0xF
    ensures Xor(crc ^ ((b & 0xF) as bv32), ((b >> 4) as bv32) << 4) == crc ^ (b as bv32)
    ensures (((b >> 4) as bv32) << 4) & 0xF == 0 && (((b >> 4) as bv32) << 4) >> 4 == (b >> 4) as bv32
  {
  }

  lemma {:induction false} InTwoParts<T(!new)>(op: (T, T) -> T, f: T -> T, x: T, high: T, shifted: T, whole: T)
    requires Linear(op, f) && op(x, high) == whole && f(high) == shifted
    ensures f(op(f(x), shifted)) == f(f(whole))
  {
    assert LinearAt(op, f, x, high);
  }

  /** The two halves of a byte, one after the other, do what the whole byte does. */
  lemma {:induction false} TwoNibbles(crc: Word, b: byte)
    ensures Step4(Xor(Step4(crc ^ ((b & 0xF) as bv32)), (b >> 4) as bv32)) == Step8(crc ^ (b as bv32))
  {
    var low, high := crc ^ ((b & 0xF) as bv32), (b >> 4) as bv32;
    NibblesOfByte(crc, b);
    Step4Shifts(high << 4);
    StepsLinear();
    StepsTwice();
    InTwoParts(Xor, Step4, low, high << 4, high, crc ^ (b as bv32));
  }

  method PutLowNibble(crc: Word, b: byte) returns (half: Word)
    ensures half == Step4(crc ^ ((b & 0xF) as bv32))
  {
    NibblesOfByte(crc, b);
    LookUpNibble(crc, (b & 0xF) as bv32);
    half := Xor(crc >> 4, Entry(NIBBLES, (crc ^ (b as bv32)) & 0xF));
  }

  lemma {:induction false} HighNibbleFits(b: byte)
    ensures (b >> 4) as bv32 < 16
  {
  }

  method PutHighNibble(half: Word, b: byte) returns (next: Word)
    ensures next == Step4(Xor(half, (b >> 4) as bv32))
  {
    HighNibbleFits(b);
    var nibble: Word := (b >> 4) as bv32;
    LookUpNibble(half, nibble);
    next := Xor(half >> 4, Entry(NIBBLES, (half ^ nibble) & 0xF));
  }

  method PutByte(crc: Word, b: byte) returns (next: Word)
    ensures next == Step8(crc ^ (b as bv32))
  {
    var half := PutLowNibble(crc, b);
    next := PutHighNibble(half, b);
    TwoNibbles(crc, b);
  }

  /** Continues from the checksum of what came before. */
  method Crc32IeeeUpdate(crc: Word, data: seq<byte>) returns (r: Word)
    ensures r == Not(Divide(Not(crc), data))
  {
    var start := Not(crc);
    var c := start;
    for i := 0 to |data|
      invariant Divide(start, data) == Divide(c, data[i..])
    {
      var next := PutByte(c, data[i]);
      DivideFirst(c, data, i, next);
      c := next;
    }
    r := Not(c);
  }

  method Crc32Ieee(data: seq<byte>) returns (r: Word)
    ensures r == Crc(data)
  {
    r := Crc32IeeeUpdate(0, data);
    assert Not(0) == !0;
  }
}
