/** The queue of the hosted port: a bounded deque in a circular array. */
module PosixQueue {
  import opened Ring

  datatype BmErr = BmOK | BmENOMEM | BmETIMEDOUT

  /** What a caller does when the queue is not ready: give up, or wait until its time is over. */
  datatype Patience = NoWait | UntilTimeout

  class PosixQueue<T> {
    const storage: array<T>
    var count: nat
    var head: nat
    var tail: nat
    ghost var items: seq<T>

    ghost predicate Valid()
      reads this, storage
    {
      && count == |items| <= storage.Length
      && (head < storage.Length || head == storage.Length == 0)
      && tail == Wrap(head + count, storage.Length)
      && forall k :: 0 <= k < |items| ==> storage[Wrap(head + k, storage.Length)] == items[k]
    }

    constructor (storage: array<T>)
      ensures Valid() && items == [] && this.storage == storage
    {
      this.storage := storage;
      count, head, tail, items := 0, 0, 0, [];
    }

    /** Nobody else uses the queue during the call: when it is empty, waiting does not help. */
    method Receive(patience: Patience, blank: T) returns (err: BmErr, item: T)
      requires Valid()
      modifies this
      ensures Valid()
      ensures err == if old(items) == [] then BmETIMEDOUT else BmOK
      ensures if err == BmOK then old(items) == [item] + items else item == blank && unchanged(this)
    {
      if count == 0 {
        return BmETIMEDOUT, blank;
      }
      item := storage[head];
      NextIndex(head, storage.Length);
      head := (head + 1) % storage.Length;
      count := count - 1;
      items := items[1..];
      err := BmOK;
    }

    method Send(item: T, patience: Patience) returns (err: BmErr)
      requires Valid()
      modifies this, storage
      ensures Valid()
      ensures err == if old(|items|) < storage.Length then BmOK else if patience == NoWait then BmENOMEM else BmETIMEDOUT
      ensures items == if err == BmOK then old(items) + [item] else old(items)
      ensures err != BmOK ==> unchanged(this) && unchanged(storage)
    {
      if count == storage.Length {
        return if patience == NoWait then BmENOMEM else BmETIMEDOUT;
      }
      storage[tail] := item;
      NextIndex(tail, storage.Length);
      tail := (tail + 1) % storage.Length;
      count := count + 1;
      items := items + [item];
      err := BmOK;
    }

    /** The head moves back by one. */
    method SendToFront(item: T) returns (err: BmErr)
      requires Valid()
      modifies this, storage
      ensures Valid()
      ensures err == if old(|items|) < storage.Length then BmOK else BmENOMEM
      ensures items == if err == BmOK then [item] + old(items) else old(items)
      ensures err != BmOK ==> unchanged(this) && unchanged(storage)
    {
      if count == storage.Length {
        return BmENOMEM;
      }
      head := if head == 0 then storage.Length - 1 else head - 1;
      storage[head] := item;
      count := count + 1;
      items := [item] + items;
      err := BmOK;
    }
  }
}
