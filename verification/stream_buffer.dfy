/**
 The stream buffer of the hosted port. A sender and a receiver share it; each holds the lock except while it
 waits, so the other one acts exactly at the waits.
 */
module StreamBuffer {
  import opened Bytes
  import opened Ring

  datatype BmErr = BmOK | BmENOMEM | BmETIMEDOUT

  /** How a sender's wait ends: its time is over, or the receiver has read up to `max` bytes meanwhile. */
  datatype SenderWake = TimeOver | Read(max: nat)

  /** How a receiver's wait ends: its time is over, or the sender has got `data` ready and written what fits. */
  datatype ReceiverWake = NothingCame | Write(data: seq<uint8>)

  class StreamBuffer {
    const storage: array<uint8>
    var count: nat
    var head: nat
    var tail: nat
    /** What is in the buffer, and all that was ever written to it and read from it. */
    ghost var contents: seq<uint8>
    ghost var written: seq<uint8>
    ghost var received: seq<uint8>

    ghost predicate Valid()
      reads this, storage
    {
      && count == |contents| <= storage.Length
      && (head < storage.Length || head == storage.Length == 0)
      && tail == Wrap(head + count, storage.Length)
      && (forall k :: 0 <= k < |contents| ==> storage[Wrap(head + k, storage.Length)] == contents[k])
      && received + contents == written
    }

    constructor (storage: array<uint8>)
      ensures Valid() && written == [] && received == [] && this.storage == storage
    {
      this.storage := storage;
      count, head, tail, contents, written, received := 0, 0, 0, [], [], [];
    }

    method PutByte(b: uint8)
      requires Valid() && count < storage.Length
      modifies this, storage
      ensures Valid() && contents == old(contents) + [b]
      ensures written == old(written) + [b] && received == old(received)
    {
      storage[tail] := b;
      NextIndex(tail, storage.Length);
      tail := (tail + 1) % storage.Length;
      count := count + 1;
      contents, written := contents + [b], written + [b];
    }

    method GetByte() returns (b: uint8)
      requires Valid() && count > 0
      modifies this
      ensures Valid() && old(contents) == [b] + contents
      ensures written == old(written) && received == old(received) + [b]
    {
      b := storage[head];
      NextIndex(head, storage.Length);
      head := (head + 1) % storage.Length;
      count := count - 1;
      contents, received := contents[1..], received + [b];
    }

    /** One round of the send loop: writes as much of the rest of the data as fits. */
    method WriteSome(data: seq<uint8>, from: nat) returns (to: nat)
      requires Valid() && from < |data| && count < storage.Length
      modifies this, storage
      ensures Valid() && from < to <= |data| && received == old(received)
      ensures written == old(written) + data[from..to]
      ensures to < |data| ==> count == storage.Length
    {
      var avail := storage.Length - count;
      var toWrite := if |data| - from > avail then avail else |data| - from;
      to := from;
      for i := 0 to toWrite
        invariant Valid() && to == from + i && count == old(count) + i
        invariant written == old(written) + data[from..to] && received == old(received)
      {
        assert data[from..to + 1] == data[from..to] + [data[to]];
        PutByte(data[to]);
        to := to + 1;
      }
    }

    /** The receiver's turn when there is something to read. */
    method ReadSome(max: nat) returns (data: seq<uint8>)
      requires Valid() && count > 0
      modifies this
      ensures Valid() && |data| == (if old(count) > max then max else old(count))
      ensures written == old(written) && received == old(received) + data
    {
      var toRead := if count > max then max else count;
      data := [];
      for i := 0 to toRead
        invariant Valid() && count == old(count) - i && |data| == i
        invariant written == old(written) && received == old(received) + data
      {
        var b := GetByte();
        data := data + [b];
      }
    }

    /**
     Sends all of the data, or gives up after a part of it: `wakes` says how each wait ends, and when it runs
     out, so does the time. Whatever the receiver does meanwhile, what was written is a prefix of the data.
     */
    method Send(data: seq<uint8>, timeout: uint32, wakes: seq<SenderWake>) returns (err: BmErr, ghost sent: nat)
      requires Valid()
      modifies this, storage
      ensures Valid() && sent <= |data| && written == old(written) + data[..sent]
      ensures err == BmOK <==> sent == |data|
      ensures err == BmENOMEM ==> timeout == 0
      ensures timeout == 0 ==> received == old(received)
    {
      var done, w := 0, 0;
      while done < |data|
        invariant Valid() && done <= |data| && w <= |wakes| && written == old(written) + data[..done]
        invariant timeout == 0 ==> received == old(received)
        decreases |data| - done
      {
        while count == storage.Length
          invariant Valid() && w <= |wakes| && written == old(written) + data[..done]
          invariant timeout == 0 ==> received == old(received)
          decreases |wakes| - w
        {
          if timeout == 0 {
            return BmENOMEM, done;
          }
          if w == |wakes| || wakes[w].TimeOver? || count == 0 {
            return BmETIMEDOUT, done;
          }
          var bytes := ReadSome(wakes[w].max);
          w := w + 1;
        }
        ghost var before := done;
        done := WriteSome(data, done);
        assert data[..before] + data[before..done] == data[..done];
      }
      err, sent := BmOK, done;
    }

    /** Waits until something is there, and reads what is there up to `max` bytes. */
    method Receive(max: nat, timeout: uint32, wakes: seq<ReceiverWake>) returns (err: BmErr, data: seq<uint8>)
      requires Valid()
      modifies this, storage
      ensures Valid() && received == old(received) + data && |data| <= max
      ensures err == BmOK && max > 0 ==> data != []
      ensures err != BmOK ==> data == [] && err == BmETIMEDOUT && contents == []
      ensures old(written) <= written
      ensures timeout == 0 ==> written == old(written) && (err == BmOK <==> old(contents) != [])
    {
      var w := 0;
      while count == 0
        invariant Valid() && w <= |wakes| && received == old(received) && old(written) <= written
        invariant timeout == 0 ==> written == old(written) && contents == old(contents)
        decreases |wakes| - w
      {
        if timeout == 0 || w == |wakes| || wakes[w].NothingCame? {
          return BmETIMEDOUT, [];
        }
        if wakes[w].data != [] && count < storage.Length {
          var to := WriteSome(wakes[w].data, 0);
        }
        w := w + 1;
      }
      data := ReadSome(max);
      err := BmOK;
    }
  }
}
