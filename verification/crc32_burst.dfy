/** What the checksum catches: any damage within four neighboring bytes changes it. */
module Crc32Burst {
  import opened Bytes
  import opened Crc32

  // ----- the steps can be taken back -----

  /** Where `f(x)` has its top bits clear, `x` is `f(x)` moved up. */
  ghost predicate BackAt<T>(f: T -> T, clear: T -> bool, up: T -> T, x: T) {
    clear(f(x)) ==> x == up(f(x))
  }

  ghost predicate Back<T(!new)>(f: T -> T, clear: T -> bool, up: T -> T) {
    forall x {:trigger BackAt(f, clear, up, x)} :: BackAt(f, clear, up, x)
  }

  lemma {:induction false} TwiceBack<T(!new)>(f: T -> T, clear: T -> bool, up: T -> T,
                                              h: T -> T, clear2: T -> bool, up2: T -> T)
    requires Back(f, clear, up) && Twice(f, h) && Halves(clear, up, clear2, up2)
    ensures Back(h, clear2, up2)
  {
    forall x
      ensures BackAt(h, clear2, up2, x)
    {
      assert HalvesAt(clear, up, clear2, up2, h(x));
      assert BackAt(f, clear, up, x) && BackAt(f, clear, up, f(x));
    }
  }

  predicate TopClear1(x: Word) { x & 0x8000_0000 == 0 }
  predicate TopClear2(x: Word) { x & 0xC000_0000 == 0 }
  predicate TopClear4(x: Word) { x & 0xF000_0000 == 0 }
  predicate TopClear8(x: Word) { x & 0xFF00_0000 == 0 }

  function Up1(x: Word): Word { x << 1 }
  function Up2(x: Word): Word { x << 2 }
  function Up4(x: Word): Word { x << 4 }
  function Up8(x: Word): Word { x << 8 }

  lemma {:induction false} UpsHalve()
    ensures Halves(TopClear1, Up1, TopClear2, Up2)
    ensures Halves(TopClear2, Up2, TopClear4, Up4)
    ensures Halves(TopClear4, Up4, TopClear8, Up8)
  {
  }

  lemma {:induction false} BitStepBack()
    ensures Back(BitStep, TopClear1, Up1)
  {
  }

  lemma {:induction false} Step8Back()
    ensures Back(Step8, TopClear8, Up8)
  {
    BitStepBack();
    StepsTwice();
    UpsHalve();
    TwiceBack(BitStep, TopClear1, Up1, Step2, TopClear2, Up2);
    TwiceBack(Step2, TopClear2, Up2, Step4, TopClear4, Up4);
    TwiceBack(Step4, TopClear4, Up4, Step8, TopClear8, Up8);
  }

  // ----- four bytes -----

  lemma {:induction false} BackFrom(f: Word -> Word, x: Word, d: Word, y: Word)
    requires Back(f, TopClear8, Up8) && f(Xor(x, d)) == y && y & 0xFF00_0000 == 0
    ensures Xor(x, d) == y << 8
  {
    assert BackAt(f, TopClear8, Up8, Xor(x, d));
  }

  lemma {:induction false} Moved(x: Word, d: Word, y: Word)
    requires Xor(x, d) == y << 8
    ensures x == Xor(y << 8, d)
  {
  }

  lemma {:induction false} StayLow(y: Word, d: Word)
    requires d < 256
    ensures y == 0 ==> Xor(y << 8, d) == d
    ensures y < 0x100 ==> Xor(y << 8, d) < 0x1_0000
    ensures y < 0x1_0000 ==> Xor(y << 8, d) < 0x100_0000
    ensures y < 0x100_0000 ==> y & 0xFF00_0000 == 0
    ensures Xor(y << 8, d) == 0 && y < 0x100_0000 ==> y == 0 && d == 0
  {
  }

  /** Four bytes put on an empty remainder leave it empty only when they are all zero. */
  lemma {:induction false} AllZero(f: Word -> Word, d0: Word, d1: Word, d2: Word, d3: Word,
                                   z0: Word, z1: Word, z2: Word, z3: Word, z4: Word)
    requires Back(f, TopClear8, Up8) && d0 < 256 && d1 < 256 && d2 < 256 && d3 < 256
    requires f(Xor(z0, d0)) == z1 && f(Xor(z1, d1)) == z2 && f(Xor(z2, d2)) == z3 && f(Xor(z3, d3)) == z4
    requires z0 == 0 && z4 == 0
    ensures d0 == 0 && d1 == 0 && d2 == 0 && d3 == 0
  {
    BackFrom(f, z3, d3, 0);
    Moved(z3, d3, 0);
    StayLow(0, d3);
    BackFrom(f, z2, d2, z3);
    Moved(z2, d2, z3);
    StayLow(z3, d2);
    BackFrom(f, z1, d1, z2);
    Moved(z1, d1, z2);
    StayLow(z2, d1);
    StayLow(z1, d0);
    BackFrom(f, 0, d0, z1);
    Moved(0, d0, z1);
  }

  // ----- two messages side by side -----

  /** How two remainders differ after a byte each. */
  lemma {:induction false} DifferenceStep<T(!new)>(op: (T, T) -> T, f: T -> T, x: T, y: T, both: T)
    requires Linear(op, f) && op(x, y) == both
    ensures op(f(x), f(y)) == f(both)
  {
    assert LinearAt(op, f, x, y);
  }

  lemma {:induction false} Regroup(s: Word, t: Word, a: byte, b: byte)
    ensures Xor(s ^ (a as bv32), t ^ (b as bv32)) == Xor(Xor(s, t), (a ^ b) as bv32)
    ensures (a ^ b) as bv32 < 256 && ((a ^ b) as bv32 == 0 <==> a == b)
  {
  }

  ghost predicate Follows(f: Word -> Word, s: Word, a: byte, next: Word) {
    next == f(s ^ (a as bv32))
  }

  lemma {:induction false} Differences(f: Word -> Word, s: Word, t: Word, a: byte, b: byte, s1: Word, t1: Word)
    requires Linear(Xor, f) && Follows(f, s, a, s1) && Follows(f, t, b, t1)
    ensures (a ^ b) as bv32 < 256 && ((a ^ b) as bv32 == 0 <==> a == b)
    ensures f(Xor(Xor(s, t), (a ^ b) as bv32)) == Xor(s1, t1)
  {
    Regroup(s, t, a, b);
    DifferenceStep(Xor, f, s ^ (a as bv32), t ^ (b as bv32), Xor(Xor(s, t), (a ^ b) as bv32));
  }

  lemma {:induction false} XorSelf(x: Word, y: Word)
    ensures Xor(Xor(x, y), y) == x && Xor(x, x) == 0 && Xor(x, 0) == x && Xor(0, x) == x && Xor(0, y) == y
  {
  }

  lemma {:induction false} GroupZero<T>(op: (T, T) -> T, zero: T, x: T, y: T)
    requires op(op(x, y), y) == x && op(x, x) == zero && op(zero, y) == y
    ensures op(x, y) == zero <==> x == y
  {
  }

  lemma {:induction false} XorZero(x: Word, y: Word)
    ensures Xor(x, y) == 0 <==> x == y
    ensures Xor(x, 0) == x
  {
    XorSelf(x, y);
    GroupZero(Xor, 0, x, y);
  }

  /** Two remainders that differ still differ after the same byte. */
  lemma {:induction false} StaysDifferent(f: Word -> Word, s: Word, t: Word, a: byte, s1: Word, t1: Word)
    requires Linear(Xor, f) && Back(f, TopClear8, Up8) && Follows(f, s, a, s1) && Follows(f, t, a, t1) && s != t
    ensures s1 != t1
  {
    Differences(f, s, t, a, a, s1, t1);
    XorZero(s, t);
    XorZero(s1, t1);
    if s1 == t1 {
      XorZero(Xor(s, t), 0);
      BackFrom(f, Xor(s, t), (a ^ a) as bv32, 0);
    }
  }

  lemma {:induction false} DivideUnfolds(c: Word, data: seq<byte>) returns (next: Word)
    requires data != []
    ensures Follows(Step8, c, data[0], next) && Divide(c, data) == Divide(next, data[1..])
  {
    next := Step8(c ^ (data[0] as bv32));
  }

  lemma {:induction false} SameTail(s: Word, t: Word, tail: seq<byte>)
    requires s != t
    ensures Divide(s, tail) != Divide(t, tail)
    decreases |tail|
  {
    if tail != [] {
      var s1 := DivideUnfolds(s, tail);
      var t1 := DivideUnfolds(t, tail);
      StepsLinear();
      Step8Back();
      StaysDifferent(Step8, s, t, tail[0], s1, t1);
      SameTail(s1, t1, tail[1..]);
    }
  }

  ghost predicate Trace(f: Word -> Word, c: Word, a: seq<byte>, r1: Word, r2: Word, r3: Word, r4: Word)
    requires |a| == 4
  {
    Follows(f, c, a[0], r1) && Follows(f, r1, a[1], r2) && Follows(f, r2, a[2], r3) && Follows(f, r3, a[3], r4)
  }

  /** The remainders after each of four bytes. */
  lemma {:induction false} FourRemainders(c: Word, a: seq<byte>) returns (r1: Word, r2: Word, r3: Word, r4: Word)
    requires |a| == 4
    ensures Trace(Step8, c, a, r1, r2, r3, r4) && Divide(c, a) == r4
  {
    r1 := DivideUnfolds(c, a);
    r2 := DivideUnfolds(r1, a[1..]);
    r3 := DivideUnfolds(r2, a[1..][1..]);
    r4 := DivideUnfolds(r3, a[1..][1..][1..]);
    assert a[1..][1..][1..][1..] == [];
  }

  lemma {:induction false} ByteDifference(f: Word -> Word, s: Word, t: Word, a: byte, b: byte, s1: Word, t1: Word)
    returns (d: Word)
    requires Linear(Xor, f) && Follows(f, s, a, s1) && Follows(f, t, b, t1)
    ensures d < 256 && (d == 0 <==> a == b) && f(Xor(Xor(s, t), d)) == Xor(s1, t1)
  {
    Differences(f, s, t, a, b, s1, t1);
    d := (a ^ b) as bv32;
  }

  lemma {:induction false} TracesMeet(f: Word -> Word, c: Word, a: seq<byte>, s1: Word, s2: Word, s3: Word,
                                      b: seq<byte>, t1: Word, t2: Word, t3: Word, end: Word)
    requires Linear(Xor, f) && Back(f, TopClear8, Up8)
    requires |a| == |b| == 4 && Trace(f, c, a, s1, s2, s3, end) && Trace(f, c, b, t1, t2, t3, end)
    ensures a[0] == b[0] && a[1] == b[1] && a[2] == b[2] && a[3] == b[3]
  {
    XorSelf(c, c);
    XorSelf(end, end);
    var d0 := ByteDifference(f, c, c, a[0], b[0], s1, t1);
    var d1 := ByteDifference(f, s1, t1, a[1], b[1], s2, t2);
    var d2 := ByteDifference(f, s2, t2, a[2], b[2], s3, t3);
    var d3 := ByteDifference(f, s3, t3, a[3], b[3], end, end);
    AllZero(f, d0, d1, d2, d3, Xor(c, c), Xor(s1, t1), Xor(s2, t2), Xor(s3, t3), Xor(end, end));
  }

  /** Four bytes are determined by the remainder they leave. */
  lemma {:induction false} FourBytesDetermined(c: Word, a: seq<byte>, b: seq<byte>)
    requires |a| == |b| == 4 && Divide(c, a) == Divide(c, b)
    ensures a == b
  {
    var s1, s2, s3, s4 := FourRemainders(c, a);
    var t1, t2, t3, t4 := FourRemainders(c, b);
    StepsLinear();
    Step8Back();
    TracesMeet(Step8, c, a, s1, s2, s3, b, t1, t2, t3, s4);
  }

  /** Messages that differ within four neighboring bytes, and nowhere else, have different checksums. */
  lemma {:induction false} DamageIsCaught(head: seq<byte>, a: seq<byte>, b: seq<byte>, tail: seq<byte>)
    requires |a| == |b| == 4 && a != b
    ensures Crc(head + a + tail) != Crc(head + b + tail)
  {
    var ones: Word := !0;
    DivideConcat(ones, head, a);
    DivideConcat(ones, head, b);
    DivideConcat(ones, head + a, tail);
    DivideConcat(ones, head + b, tail);
    var c := Divide(ones, head);
    if Divide(c, a) == Divide(c, b) {
      FourBytesDetermined(c, a, b);
    }
    SameTail(Divide(c, a), Divide(c, b), tail);
    NotIsInjective(Divide(ones, head + a + tail), Divide(ones, head + b + tail));
  }

  lemma {:induction false} Involution<T>(f: T -> T, x: T, y: T)
    requires f(f(x)) == x && f(f(y)) == y
    ensures f(x) == f(y) <==> x == y
  {
  }

  lemma {:induction false} NotNot(x: Word)
    ensures Not(Not(x)) == x
  {
  }

  lemma {:induction false} NotIsInjective(x: Word, y: Word)
    ensures Not(x) == Not(y) <==> x == y
  {
    NotNot(x);
    NotNot(y);
    Involution(Not, x, y);
  }
}
