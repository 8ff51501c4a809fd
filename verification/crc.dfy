module Crc {
  import opened Bytes

  function Ccitt16Byte(seed: bv16, b: byte): bv16 {
    var e := (seed & 0xFF) ^ (b as bv16);
    var f := (e ^ (e << 4)) & 0xFF;
    (seed >> 8) ^ (f << 8) ^ (f << 3) ^ (f >> 4)
  }

  function Ccitt16(seed: bv16, data: seq<byte>): bv16
    decreases |data|
  {
    if data == [] then seed else Ccitt16(Ccitt16Byte(seed, data[0]), data[1..])
  }

  method Ccitt16Buffer(seed: bv16, data: seq<byte>) returns (crc: bv16)
    ensures crc == Ccitt16(seed, data)
  {
    crc := seed;
    for i := 0 to |data|
      invariant Ccitt16(seed, data) == Ccitt16(crc, data[i..])
    {
      assert data[i..][1..] == data[i + 1..];
      crc := Ccitt16Byte(crc, data[i]);
    }
  }

  lemma {:induction false} Ccitt16Concat(seed: bv16, a: seq<byte>, b: seq<byte>)
    ensures Ccitt16(seed, a + b) == Ccitt16(Ccitt16(seed, a), b)
    decreases |a|
  {
    if a == [] {
      assert a + b == b;
    } else {
      assert (a + b)[1..] == a[1..] + b;
      Ccitt16Concat(Ccitt16Byte(seed, a[0]), a[1..], b);
    }
  }
}
