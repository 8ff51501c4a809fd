/** A queue of records of any length in a circular byte buffer. Each record is stored behind its length. */
module RecordQueue {
  import opened Bytes
  import opened Ring

  datatype BmErr = BmOK | BmEINVAL | BmENOMEM | BmENODATA

  const HEADER_LENGTH := 4

  /** A record's length as it lies in memory, low byte first. */
  function Header(n: uint32): (h: seq<uint8>)
    ensures |h| == HEADER_LENGTH
  {
    [n % 0x100, n / 0x100 % 0x100, n / 0x1_0000 % 0x100, n / 0x100_0000]
  }

  function HeaderValue(h: seq<uint8>): int
    requires |h| == HEADER_LENGTH
  {
    h[0] as int + 0x100 * h[1] as int + 0x1_0000 * h[2] as int + 0x100_0000 * h[3] as int
  }

  lemma {:induction false} HeaderReadsBack(n: uint32)
    ensures HeaderValue(Header(n)) == n
  {
    var a := n / 0x100;
    var b := a / 0x100;
    assert n / 0x1_0000 == b && n / 0x100_0000 == b / 0x100;
    assert n == a * 0x100 + n % 0x100 && a == b * 0x100 + a % 0x100 && b == b / 0x100 * 0x100 + b % 0x100;
  }

  type Record = r: seq<uint8> | 0 < |r| < 0x1_0000_0000 witness [0]

  /** The bytes that a list of records takes in the buffer. */
  function Encode(records: seq<Record>): seq<uint8>
    decreases |records|
  {
    if records == [] then [] else Header(|records[0]|) + records[0] + Encode(records[1..])
  }

  lemma {:induction false} EncodeAppend(records: seq<Record>, r: Record)
    ensures Encode(records + [r]) == Encode(records) + Header(|r|) + r
    decreases |records|
  {
    if records == [] {
      assert [r][1..] == [] && records + [r] == [r];
    } else {
      assert (records + [r])[1..] == records[1..] + [r] && (records + [r])[0] == records[0];
      EncodeAppend(records[1..], r);
    }
  }

  /** The room that records take: each its own length and that of its header. */
  function Footprint(records: seq<Record>): nat
    decreases |records|
  {
    if records == [] then 0 else HEADER_LENGTH + |records[0]| + Footprint(records[1..])
  }

  lemma {:induction false} EncodeLength(records: seq<Record>)
    ensures |Encode(records)| == Footprint(records)
    decreases |records|
  {
    if records != [] {
      EncodeLength(records[1..]);
    }
  }

  lemma {:induction false} FirstRecord(records: seq<Record>)
    requires records != []
    ensures var bytes, end := Encode(records), HEADER_LENGTH + |records[0]|;
      && end <= |bytes| && bytes[..HEADER_LENGTH] == Header(|records[0]|)
      && bytes[HEADER_LENGTH..end] == records[0] && bytes[end..] == Encode(records[1..])
  {
  }

  /** Reads records off the front of the bytes as long as they are complete. */
  function Decode(bytes: seq<uint8>): seq<Record>
    decreases |bytes|
  {
    if |bytes| < HEADER_LENGTH then []
    else
      var n := HeaderValue(bytes[..HEADER_LENGTH]);
      if n == 0 || HEADER_LENGTH + n > |bytes| then []
      else [bytes[HEADER_LENGTH..HEADER_LENGTH + n]] + Decode(bytes[HEADER_LENGTH + n..])
  }

  /** The bytes between tail and head say which records there are. */
  lemma {:induction false} DecodeEncode(records: seq<Record>)
    ensures Decode(Encode(records)) == records
    decreases |records|
  {
    if records != [] {
      FirstRecord(records);
      HeaderReadsBack(|records[0]|);
      DecodeEncode(records[1..]);
      assert records == [records[0]] + records[1..];
    }
  }

  class Q {
    const buf: array<uint8>
    var head: nat
    var tail: nat
    var count: nat
    /** The bytes between tail and head, and the records they hold. */
    ghost var stored: seq<uint8>
    ghost var records: seq<Record>

    ghost predicate RingOk()
      reads this, buf
    {
      && head < buf.Length && tail < buf.Length && |stored| <= buf.Length
      && head == Wrap(tail + |stored|, buf.Length)
      && forall k :: 0 <= k < |stored| ==> buf[Wrap(tail + k, buf.Length)] == stored[k]
    }

    ghost predicate Valid()
      reads this, buf
    {
      RingOk() && count == |records| && stored == Encode(records)
    }

    constructor (buf: array<uint8>)
      requires buf.Length > 0
      ensures Valid() && records == [] && this.buf == buf
    {
      this.buf := buf;
      head, tail, count, stored, records := 0, 0, 0, [], [];
    }

    method GetFreeSpace() returns (free: nat)
      requires Valid()
      ensures free == buf.Length - |stored|
    {
      if head == tail {
        free := if count != 0 then 0 else buf.Length;
      } else if head > tail {
        free := buf.Length - head + tail;
      } else {
        free := tail - head;
      }
    }

    method PutByte(b: uint8)
      requires RingOk() && |stored| < buf.Length
      modifies this`head, this`stored, buf
      ensures RingOk() && stored == old(stored) + [b]
    {
      buf[head] := b;
      NextIndex(head, buf.Length);
      head := (head + 1) % buf.Length;
      stored := stored + [b];
    }

    method PutBytes(data: seq<uint8>)
      requires RingOk() && |stored| + |data| <= buf.Length
      modifies this`head, this`stored, buf
      ensures RingOk() && stored == old(stored) + data
    {
      for i := 0 to |data|
        invariant RingOk() && stored == old(stored) + data[..i]
      {
        PutByte(data[i]);
        assert data[..i + 1] == data[..i] + [data[i]];
      }
    }

    method AddRecord(data: Record)
      requires Valid() && |stored| + HEADER_LENGTH + |data| <= buf.Length
      modifies this, buf
      ensures Valid() && records == old(records) + [data]
    {
      EncodeAppend(records, data);
      PutBytes(Header(|data|));
      PutBytes(data);
      count := count + 1;
      records := records + [data];
    }

    /** Fails exactly when the record and its length do not fit, and then changes nothing. */
    method Enqueue(data: seq<uint8>) returns (err: BmErr)
      requires Valid() && |data| < 0x1_0000_0000
      modifies this, buf
      ensures Valid()
      ensures err == if |data| == 0 then BmEINVAL
                     else if Footprint(old(records)) + HEADER_LENGTH + |data| <= buf.Length then BmOK else BmENOMEM
      ensures records == if err == BmOK then old(records) + [data] else old(records)
      ensures err != BmOK ==> unchanged(this) && unchanged(buf)
    {
      if |data| == 0 {
        return BmEINVAL;
      }
      EncodeLength(records);
      var free := GetFreeSpace();
      if free < |data| + HEADER_LENGTH {
        return BmENOMEM;
      }
      AddRecord(data);
      err := BmOK;
    }

    /** Reads `n` bytes from index `from` on. */
    method ReadBytes(from: nat, n: nat, ghost at: nat) returns (data: seq<uint8>, next: nat)
      requires RingOk() && at + n <= |stored| && from == Wrap(tail + at, buf.Length)
      ensures data == stored[at..at + n]
      ensures next == Wrap(tail + at + n, buf.Length)
    {
      data, next := [], from;
      for i := 0 to n
        invariant data == stored[at..at + i] && next == Wrap(tail + at + i, buf.Length)
      {
        data := data + [buf[next]];
        NextIndex(next, buf.Length);
        next := (next + 1) % buf.Length;
      }
    }

    /** Copies `n` bytes from index `from` on to the front of `data`. */
    method CopyOut(data: array<uint8>, from: nat, n: nat, ghost at: nat) returns (next: nat)
      requires RingOk() && at + n <= |stored| && from == Wrap(tail + at, buf.Length)
      requires data != buf && n <= data.Length
      modifies data
      ensures data[..] == stored[at..at + n] + old(data[..])[n..]
      ensures next == Wrap(tail + at + n, buf.Length)
    {
      next := from;
      for i := 0 to n
        invariant data[..i] == stored[at..at + i] && data[i..] == old(data[..])[i..]
        invariant next == Wrap(tail + at + i, buf.Length)
      {
        data[i] := buf[next];
        NextIndex(next, buf.Length);
        next := (next + 1) % buf.Length;
      }
      assert data[..] == data[..n] + data[n..];
    }

    method DropBytes(n: nat, next: nat)
      requires RingOk() && n <= |stored| && next == Wrap(tail + n, buf.Length)
      modifies this`tail, this`stored
      ensures RingOk() && stored == old(stored)[n..]
    {
      ghost var was, first := stored, tail;
      tail := next;
      stored := stored[n..];
      forall k | 0 <= k < |stored|
        ensures buf[Wrap(tail + k, buf.Length)] == stored[k]
      {
        assert Wrap(tail + k, buf.Length) == Wrap(first + (n + k), buf.Length) && stored[k] == was[n + k];
      }
    }

    /** The bytes after the header go to the front of `data`, and the tail moves past them. */
    method TakeRecord(data: array<uint8>, from: nat, size: nat)
      requires Valid() && data != buf && records != [] && size == |records[0]| <= data.Length
      requires HEADER_LENGTH <= |stored| && from == Wrap(tail + HEADER_LENGTH, buf.Length)
      modifies this, data
      ensures Valid() && records == old(records)[1..]
      ensures data[..] == old(records)[0] + old(data[..])[size..]
    {
      FirstRecord(records);
      var next := CopyOut(data, from, size, HEADER_LENGTH);
      DropBytes(HEADER_LENGTH + size, next);
      count := count - 1;
      records := records[1..];
    }

    /** The oldest record goes to the front of `data`; when it does not fit there, nothing changes. */
    method Dequeue(data: array<uint8>) returns (err: BmErr)
      requires Valid() && data != buf
      modifies this, data
      ensures Valid()
      ensures err == if data.Length == 0 then BmEINVAL
                     else if old(records) == [] then BmENODATA
                     else if |old(records)[0]| > data.Length then BmENOMEM else BmOK
      ensures records == if err == BmOK then old(records)[1..] else old(records)
      ensures err == BmOK ==> data[..] == old(records)[0] + old(data[..])[|old(records)[0]|..]
      ensures err != BmOK ==> unchanged(this) && unchanged(data)
    {
      if data.Length == 0 {
        return BmEINVAL;
      }
      if count == 0 {
        return BmENODATA;
      }
      FirstRecord(records);
      var header, tailLocal := ReadBytes(tail, HEADER_LENGTH, 0);
      HeaderReadsBack(|records[0]|);
      var size := HeaderValue(header);
      if size > data.Length {
        return BmENOMEM;
      }
      TakeRecord(data, tailLocal, size);
      err := BmOK;
    }

    method Size() returns (n: nat)
      requires Valid()
      ensures n == |records|
    {
      n := count;
    }

    method Clear()
      requires Valid()
      modifies this
      ensures Valid() && records == []
    {
      count, head, tail := 0, 0, 0;
      stored, records := [], [];
    }
  }
}
