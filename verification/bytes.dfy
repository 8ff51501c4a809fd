/** Fixed-width integers and byte strings shared by every model. */
module Bytes {

  type byte = bv8

  type uint8 = x: int | 0 <= x < 0x100
  type uint16 = x: int | 0 <= x < 0x1_0000
  type uint32 = x: int | 0 <= x < 0x1_0000_0000
  type uint64 = x: int | 0 <= x < 0x1_0000_0000_0000_0000

  function BitOr(a: uint8, b: uint8): uint8 {
    ((a as bv8) | (b as bv8)) as int
  }

  lemma {:induction false} OrWithZero(b: uint8)
    ensures BitOr(0, b) == b
  {
  }

  datatype Option<+T> = None | Some(value: T)

  /** `target` with `data` copied over it from index `at` on: what memcpy and a flash write do. */
  function Splice<T>(target: seq<T>, at: nat, data: seq<T>): (r: seq<T>)
    requires at + |data| <= |target|
    ensures |r| == |target|
    ensures r[at..at + |data|] == data
    ensures r[..at] == target[..at] && r[at + |data|..] == target[at + |data|..]
  {
    target[..at] + data + target[at + |data|..]
  }
}
