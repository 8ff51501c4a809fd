/** Indices that run around a buffer. */
module Ring {

  function Wrap(i: int, size: int): int {
    if i >= size then i - size else i
  }

  lemma {:induction false} NextIndex(i: nat, size: nat)
    requires i < size
    ensures (i + 1) % size == Wrap(i + 1, size)
  {
  }
}
