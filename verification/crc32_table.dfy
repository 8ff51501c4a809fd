/** The byte table of the frame check sequence, and that each entry is eight division steps of its index. */
module Crc32Table {
  import opened Bytes
  import opened Crc32

  /** Sixteen entries of the table. */
  datatype Row = Row(e0: Word, e1: Word, e2: Word, e3: Word, e4: Word, e5: Word, e6: Word, e7: Word,
                     e8: Word, e9: Word, eA: Word, eB: Word, eC: Word, eD: Word, eE: Word, eF: Word)

  const ROW_0: Row := Row(0x00000000, 0x77073096, 0xEE0E612C, 0x990951BA, 0x076DC419, 0x706AF48F, 0xE963A535, 0x9E6495A3,
                         0x0EDB8832, 0x79DCB8A4, 0xE0D5E91E, 0x97D2D988, 0x09B64C2B, 0x7EB17CBD, 0xE7B82D07, 0x90BF1D91)
  const ROW_1: Row := Row(0x1DB71064, 0x6AB020F2, 0xF3B97148, 0x84BE41DE, 0x1ADAD47D, 0x6DDDE4EB, 0xF4D4B551, 0x83D385C7,
                         0x136C9856, 0x646BA8C0, 0xFD62F97A, 0x8A65C9EC, 0x14015C4F, 0x63066CD9, 0xFA0F3D63, 0x8D080DF5)
  const ROW_2: Row := Row(0x3B6E20C8, 0x4C69105E, 0xD56041E4, 0xA2677172, 0x3C03E4D1, 0x4B04D447, 0xD20D85FD, 0xA50AB56B,
                         0x35B5A8FA, 0x42B2986C, 0xDBBBC9D6, 0xACBCF940, 0x32D86CE3, 0x45DF5C75, 0xDCD60DCF, 0xABD13D59)
  const ROW_3: Row := Row(0x26D930AC, 0x51DE003A, 0xC8D75180, 0xBFD06116, 0x21B4F4B5, 0x56B3C423, 0xCFBA9599, 0xB8BDA50F,
                         0x2802B89E, 0x5F058808, 0xC60CD9B2, 0xB10BE924, 0x2F6F7C87, 0x58684C11, 0xC1611DAB, 0xB6662D3D)
  const ROW_4: Row := Row(0x76DC4190, 0x01DB7106, 0x98D220BC, 0xEFD5102A, 0x71B18589, 0x06B6B51F, 0x9FBFE4A5, 0xE8B8D433,
                         0x7807C9A2, 0x0F00F934, 0x9609A88E, 0xE10E9818, 0x7F6A0DBB, 0x086D3D2D, 0x91646C97, 0xE6635C01)
  const ROW_5: Row := Row(0x6B6B51F4, 0x1C6C6162, 0x856530D8, 0xF262004E, 0x6C0695ED, 0x1B01A57B, 0x8208F4C1, 0xF50FC457,
                         0x65B0D9C6, 0x12B7E950, 0x8BBEB8EA, 0xFCB9887C, 0x62DD1DDF, 0x15DA2D49, 0x8CD37CF3, 0xFBD44C65)
  const ROW_6: Row := Row(0x4DB26158, 0x3AB551CE, 0xA3BC0074, 0xD4BB30E2, 0x4ADFA541, 0x3DD895D7, 0xA4D1C46D, 0xD3D6F4FB,
                         0x4369E96A, 0x346ED9FC, 0xAD678846, 0xDA60B8D0, 0x44042D73, 0x33031DE5, 0xAA0A4C5F, 0xDD0D7CC9)
  const ROW_7: Row := Row(0x5005713C, 0x270241AA, 0xBE0B1010, 0xC90C2086, 0x5768B525, 0x206F85B3, 0xB966D409, 0xCE61E49F,
                         0x5EDEF90E, 0x29D9C998, 0xB0D09822, 0xC7D7A8B4, 0x59B33D17, 0x2EB40D81, 0xB7BD5C3B, 0xC0BA6CAD)
  const ROW_8: Row := Row(0xEDB88320, 0x9ABFB3B6, 0x03B6E20C, 0x74B1D29A, 0xEAD54739, 0x9DD277AF, 0x04DB2615, 0x73DC1683,
                         0xE3630B12, 0x94643B84, 0x0D6D6A3E, 0x7A6A5AA8, 0xE40ECF0B, 0x9309FF9D, 0x0A00AE27, 0x7D079EB1)
  const ROW_9: Row := Row(0xF00F9344, 0x8708A3D2, 0x1E01F268, 0x6906C2FE, 0xF762575D, 0x806567CB, 0x196C3671, 0x6E6B06E7,
                         0xFED41B76, 0x89D32BE0, 0x10DA7A5A, 0x67DD4ACC, 0xF9B9DF6F, 0x8EBEEFF9, 0x17B7BE43, 0x60B08ED5)
  const ROW_A: Row := Row(0xD6D6A3E8, 0xA1D1937E, 0x38D8C2C4, 0x4FDFF252, 0xD1BB67F1, 0xA6BC5767, 0x3FB506DD, 0x48B2364B,
                         0xD80D2BDA, 0xAF0A1B4C, 0x36034AF6, 0x41047A60, 0xDF60EFC3, 0xA867DF55, 0x316E8EEF, 0x4669BE79)
  const ROW_B: Row := Row(0xCB61B38C, 0xBC66831A, 0x256FD2A0, 0x5268E236, 0xCC0C7795, 0xBB0B4703, 0x220216B9, 0x5505262F,
                         0xC5BA3BBE, 0xB2BD0B28, 0x2BB45A92, 0x5CB36A04, 0xC2D7FFA7, 0xB5D0CF31, 0x2CD99E8B, 0x5BDEAE1D)
  const ROW_C: Row := Row(0x9B64C2B0, 0xEC63F226, 0x756AA39C, 0x026D930A, 0x9C0906A9, 0xEB0E363F, 0x72076785, 0x05005713,
                         0x95BF4A82, 0xE2B87A14, 0x7BB12BAE, 0x0CB61B38, 0x92D28E9B, 0xE5D5BE0D, 0x7CDCEFB7, 0x0BDBDF21)
  const ROW_D: Row := Row(0x86D3D2D4, 0xF1D4E242, 0x68DDB3F8, 0x1FDA836E, 0x81BE16CD, 0xF6B9265B, 0x6FB077E1, 0x18B74777,
                         0x88085AE6, 0xFF0F6A70, 0x66063BCA, 0x11010B5C, 0x8F659EFF, 0xF862AE69, 0x616BFFD3, 0x166CCF45)
  const ROW_E: Row := Row(0xA00AE278, 0xD70DD2EE, 0x4E048354, 0x3903B3C2, 0xA7672661, 0xD06016F7, 0x4969474D, 0x3E6E77DB,
                         0xAED16A4A, 0xD9D65ADC, 0x40DF0B66, 0x37D83BF0, 0xA9BCAE53, 0xDEBB9EC5, 0x47B2CF7F, 0x30B5FFE9)
  const ROW_F: Row := Row(0xBDBDF21C, 0xCABAC28A, 0x53B39330, 0x24B4A3A6, 0xBAD03605, 0xCDD70693, 0x54DE5729, 0x23D967BF,
                         0xB3667A2E, 0xC4614AB8, 0x5D681B02, 0x2A6F2B94, 0xB40BBE37, 0xC30C8EA1, 0x5A05DF1B, 0x2D02EF8D)

  /** The entries whose index has upper half `high`. */
  function TableRow(high: Word): Row
    requires high < 16
  {
    if high == 0 then ROW_0
    else if high == 1 then ROW_1
    else if high == 2 then ROW_2
    else if high == 3 then ROW_3
    else if high == 4 then ROW_4
    else if high == 5 then ROW_5
    else if high == 6 then ROW_6
    else if high == 7 then ROW_7
    else if high == 8 then ROW_8
    else if high == 9 then ROW_9
    else if high == 10 then ROW_A
    else if high == 11 then ROW_B
    else if high == 12 then ROW_C
    else if high == 13 then ROW_D
    else if high == 14 then ROW_E
    else ROW_F
  }

  function Entry(r: Row, low: Word): Word
    requires low < 16
  {
    if low == 0 then r.e0 else if low == 1 then r.e1 else if low == 2 then r.e2 else if low == 3 then r.e3
    else if low == 4 then r.e4 else if low == 5 then r.e5 else if low == 6 then r.e6 else if low == 7 then r.e7
    else if low == 8 then r.e8 else if low == 9 then r.e9 else if low == 10 then r.eA else if low == 11 then r.eB
    else if low == 12 then r.eC else if low == 13 then r.eD else if low == 14 then r.eE else r.eF
  }

  function TableEntry(x: Word): Word
    requires x < 256
  {
    Entry(TableRow(x >> 4), x & 0xF)
  }

  // ----- a row lists the steps of sixteen neighboring indices -----

  function StepsFrom(base: Word): Word -> Word {
    low => Step8(base + low)
  }

  ghost predicate EntryHolds(f: Word -> Word, r: Row, low: Word) {
    low < 16 && Entry(r, low) == f(low)
  }

  ghost predicate EntriesHold(f: Word -> Word, r: Row) {
    forall low {:trigger EntryHolds(f, r, low)} :: low < 16 ==> EntryHolds(f, r, low)
  }

  predicate RowHolds(f: Word -> Word, r: Row) {
    && r.e0 == f(0) && r.e1 == f(1) && r.e2 == f(2) && r.e3 == f(3)
    && r.e4 == f(4) && r.e5 == f(5) && r.e6 == f(6) && r.e7 == f(7)
    && r.e8 == f(8) && r.e9 == f(9) && r.eA == f(10) && r.eB == f(11)
    && r.eC == f(12) && r.eD == f(13) && r.eE == f(14) && r.eF == f(15)
  }

  lemma {:induction false} RowIsEntries(f: Word -> Word, r: Row)
    requires RowHolds(f, r)
    ensures EntriesHold(f, r)
  {
  }

  lemma {:induction false} Row0Holds()
    ensures RowHolds(StepsFrom(0x00), ROW_0)
  {
    var f := StepsFrom(0);
    assert f(0) == Step8(0) && f(1) == Step8(1) && f(2) == Step8(2) && f(3) == Step8(3)
        && f(4) == Step8(4) && f(5) == Step8(5) && f(6) == Step8(6) && f(7) == Step8(7)
        && f(8) == Step8(8) && f(9) == Step8(9) && f(10) == Step8(10) && f(11) == Step8(11)
        && f(12) == Step8(12) && f(13) == Step8(13) && f(14) == Step8(14) && f(15) == Step8(15);
  }

  lemma {:induction false} Row1Holds()
    ensures RowHolds(StepsFrom(0x10), ROW_1)
  {
  }

  lemma {:induction false} Row2Holds()
    ensures RowHolds(StepsFrom(0x20), ROW_2)
  {
  }

  lemma {:induction false} Row3Holds()
    ensures RowHolds(StepsFrom(0x30), ROW_3)
  {
  }

  lemma {:induction false} Row4Holds()
    ensures RowHolds(StepsFrom(0x40), ROW_4)
  {
  }

  lemma {:induction false} Row5Holds()
    ensures RowHolds(StepsFrom(0x50), ROW_5)
  {
  }

  lemma {:induction false} Row6Holds()
    ensures RowHolds(StepsFrom(0x60), ROW_6)
  {
  }

  lemma {:induction false} Row7Holds()
    ensures RowHolds(StepsFrom(0x70), ROW_7)
  {
  }

  lemma {:induction false} Row8Holds()
    ensures RowHolds(StepsFrom(0x80), ROW_8)
  {
  }

  lemma {:induction false} Row9Holds()
    ensures RowHolds(StepsFrom(0x90), ROW_9)
  {
  }

  lemma {:induction false} RowAHolds()
    ensures RowHolds(StepsFrom(0xA0), ROW_A)
  {
  }

  lemma {:induction false} RowBHolds()
    ensures RowHolds(StepsFrom(0xB0), ROW_B)
  {
  }

  lemma {:induction false} RowCHolds()
    ensures RowHolds(StepsFrom(0xC0), ROW_C)
  {
  }

  lemma {:induction false} RowDHolds()
    ensures RowHolds(StepsFrom(0xD0), ROW_D)
  {
  }

  lemma {:induction false} RowEHolds()
    ensures RowHolds(StepsFrom(0xE0), ROW_E)
  {
  }

  lemma {:induction false} RowFHolds()
    ensures RowHolds(StepsFrom(0xF0), ROW_F)
  {
  }

  lemma {:induction false} TableRowHolds(high: Word)
    requires high < 16
    ensures EntriesHold(StepsFrom(high << 4), TableRow(high))
  {
    if high == 0 {
      Row0Holds();
      RowIsEntries(StepsFrom(0x00), ROW_0);
    } else if high == 1 {
      Row1Holds();
      RowIsEntries(StepsFrom(0x10), ROW_1);
    } else if high == 2 {
      Row2Holds();
      RowIsEntries(StepsFrom(0x20), ROW_2);
    } else if high == 3 {
      Row3Holds();
      RowIsEntries(StepsFrom(0x30), ROW_3);
    } else if high == 4 {
      Row4Holds();
      RowIsEntries(StepsFrom(0x40), ROW_4);
    } else if high == 5 {
      Row5Holds();
      RowIsEntries(StepsFrom(0x50), ROW_5);
    } else if high == 6 {
      Row6Holds();
      RowIsEntries(StepsFrom(0x60), ROW_6);
    } else if high == 7 {
      Row7Holds();
      RowIsEntries(StepsFrom(0x70), ROW_7);
    } else if high == 8 {
      Row8Holds();
      RowIsEntries(StepsFrom(0x80), ROW_8);
    } else if high == 9 {
      Row9Holds();
      RowIsEntries(StepsFrom(0x90), ROW_9);
    } else if high == 10 {
      RowAHolds();
      RowIsEntries(StepsFrom(0xA0), ROW_A);
    } else if high == 11 {
      RowBHolds();
      RowIsEntries(StepsFrom(0xB0), ROW_B);
    } else if high == 12 {
      RowCHolds();
      RowIsEntries(StepsFrom(0xC0), ROW_C);
    } else if high == 13 {
      RowDHolds();
      RowIsEntries(StepsFrom(0xD0), ROW_D);
    } else if high == 14 {
      RowEHolds();
      RowIsEntries(StepsFrom(0xE0), ROW_E);
    } else {
      assert high == 15;
      RowFHolds();
      RowIsEntries(StepsFrom(0xF0), ROW_F);
    }
  }

  /** Both halves of an index. */
  lemma {:induction false} Halves(x: Word)
    requires x < 256
    ensures x >> 4 < 16 && x & 0xF < 16 && ((x >> 4) << 4) + (x & 0xF) == x
  {
  }

  /** Each of the 256 entries is what eight division steps make of its index. */
  lemma {:induction false} EntryIsSteps(x: Word)
    requires x < 256
    ensures TableEntry(x) == Step8(x)
  {
    Halves(x);
    TableRowHolds(x >> 4);
    assert EntryHolds(StepsFrom((x >> 4) << 4), TableRow(x >> 4), x & 0xF);
  }

  // ----- the frame check sequence -----

  /** A look-up and a shift do the work of eight division steps. */
  lemma {:induction false} LookUp(crc: Word, b: byte)
    ensures (crc ^ (b as bv32)) & 0xFF < 256
    ensures Xor(TableEntry((crc ^ (b as bv32)) & 0xFF), crc >> 8) == Step8(crc ^ (b as bv32))
  {
    var x := crc ^ (b as bv32);
    assert x & 0xFF < 256;
    EntryIsSteps(x & 0xFF);
    Step8OfLowPart(x);
    HighPart(crc, b);
  }

  lemma {:induction false} HighPart(crc: Word, b: byte)
    ensures (crc ^ (b as bv32)) >> 8 == crc >> 8
  {
  }

  method PutByte(crc: Word, b: byte) returns (next: Word)
    ensures next == Step8(crc ^ (b as bv32))
  {
    LookUp(crc, b);
    next := Xor(TableEntry((crc ^ (b as bv32)) & 0xFF), crc >> 8);
  }

  /** One table look-up for each byte. */
  method FcsCalculate(data: seq<byte>) returns (r: Word)
    ensures r == Crc(data)
  {
    var crc: Word := !0;
    for i := 0 to |data|
      invariant Divide(!0, data) == Divide(crc, data[i..])
    {
      var next := PutByte(crc, data[i]);
      DivideFirst(crc, data, i, next);
      crc := next;
    }
    r := crc ^ !0;
    Complement(crc);
  }

  lemma {:induction false} Complement(c: Word)
    ensures c ^ !0 == Not(c)
  {
  }
}
