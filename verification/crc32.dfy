/** CRC-32 of IEEE 802.3 (section 3.2.9) by division one bit at a time, and the facts that let it be done faster. */
module Crc32 {
  import opened Bytes

  type Word = bv32

  const POLYNOMIAL: Word := 0xEDB88320

  // ----- division one bit at a time -----

  /** The remainder after one more division step, low bit first. */
  function BitStep(c: Word): Word {
    if c & 1 == 1 then (c >> 1) ^ POLYNOMIAL else c >> 1
  }

  function Step2(c: Word): Word {
    BitStep(BitStep(c))
  }

  function Step4(c: Word): Word {
    Step2(Step2(c))
  }

  function Step8(c: Word): Word {
    Step4(Step4(c))
  }

  /** Each byte is put on the remainder and then divided out, bit by bit. */
  function Divide(c: Word, data: seq<byte>): Word
    decreases |data|
  {
    if data == [] then c else Divide(Step8(c ^ (data[0] as bv32)), data[1..])
  }

  function Not(x: Word): Word {
    !x
  }

  /** The checksum: the complement of what is left of all ones. */
  function Crc(data: seq<byte>): Word {
    Not(Divide(!0, data))
  }

  lemma {:induction false} DivideFirst(crc: Word, data: seq<byte>, i: nat, next: Word)
    requires i < |data| && next == Step8(crc ^ (data[i] as bv32))
    ensures Divide(crc, data[i..]) == Divide(next, data[i + 1..])
  {
    assert data[i..][1..] == data[i + 1..];
  }

  lemma {:induction false} DivideConcat(c: Word, a: seq<byte>, b: seq<byte>)
    ensures Divide(c, a + b) == Divide(Divide(c, a), b)
    decreases |a|
  {
    if a == [] {
      assert a + b == b;
    } else {
      assert (a + b)[1..] == a[1..] + b;
      DivideConcat(Step8(c ^ (a[0] as bv32)), a[1..], b);
    }
  }

  // ----- the steps are linear -----

  ghost predicate LinearAt<T>(op: (T, T) -> T, f: T -> T, x: T, y: T) {
    f(op(x, y)) == op(f(x), f(y))
  }

  ghost predicate Linear<T(!new)>(op: (T, T) -> T, f: T -> T) {
    forall x, y {:trigger LinearAt(op, f, x, y)} :: LinearAt(op, f, x, y)
  }

  ghost predicate Twice<T(!new)>(f: T -> T, h: T -> T) {
    forall x {:trigger h(x)} :: h(x) == f(f(x))
  }

  function Xor(x: Word, y: Word): Word {
    x ^ y
  }

  lemma {:induction false} XorFacts(x: Word, y: Word)
    ensures (x ^ y) >> 1 == (x >> 1) ^ (y >> 1)
    ensures (x ^ y) & 1 == (x & 1) ^ (y & 1)
    ensures x & 1 == 0 || x & 1 == 1
    ensures y & 1 == 0 || y & 1 == 1
  {
  }

  lemma {:induction false} XorCancels(x: Word, y: Word, p: Word)
    ensures (x ^ p) ^ (y ^ p) == x ^ y
    ensures (x ^ p) ^ y == (x ^ y) ^ p
    ensures x ^ (y ^ p) == (x ^ y) ^ p
  {
  }

  lemma {:induction false} TwiceLinear<T(!new)>(op: (T, T) -> T, f: T -> T, h: T -> T)
    requires Linear(op, f) && Twice(f, h)
    ensures Linear(op, h)
  {
    forall x, y
      ensures LinearAt(op, h, x, y)
    {
      assert LinearAt(op, f, x, y) && LinearAt(op, f, f(x), f(y));
    }
  }

  lemma {:induction false} BitStepLinearAt(x: Word, y: Word)
    ensures LinearAt(Xor, BitStep, x, y)
  {
    XorFacts(x, y);
    XorCancels(x >> 1, y >> 1, POLYNOMIAL);
    assert (0 as bv32) ^ 0 == 0 && (1 as bv32) ^ 1 == 0 && (0 as bv32) ^ 1 == 1 && (1 as bv32) ^ 0 == 1;
    assert BitStep(Xor(x, y)) == Xor(BitStep(x), BitStep(y));
  }

  lemma {:induction false} BitStepLinear()
    ensures Linear(Xor, BitStep)
  {
    forall x, y
      ensures LinearAt(Xor, BitStep, x, y)
    {
      BitStepLinearAt(x, y);
    }
  }

  lemma {:induction false} StepsTwice()
    ensures Twice(BitStep, Step2) && Twice(Step2, Step4) && Twice(Step4, Step8)
  {
  }

  lemma {:induction false} StepsLinear()
    ensures Linear(Xor, BitStep) && Linear(Xor, Step2) && Linear(Xor, Step4) && Linear(Xor, Step8)
  {
    BitStepLinear();
    StepsTwice();
    TwiceLinear(Xor, BitStep, Step2);
    TwiceLinear(Xor, Step2, Step4);
    TwiceLinear(Xor, Step4, Step8);
  }

  // ----- the low part decides -----

  lemma {:induction false} SplitStep<T(!new)>(op: (T, T) -> T, f: T -> T, x: T, low: T, high: T, shifted: T)
    requires Linear(op, f) && op(low, high) == x && f(high) == shifted
    ensures f(x) == op(f(low), shifted)
  {
    assert LinearAt(op, f, low, high);
  }

  lemma {:induction false} Parts(x: Word)
    ensures (x & 0xF) ^ (x & 0xFFFF_FFF0) == x && (x & 0xFFFF_FFF0) & 0xF == 0 && (x & 0xFFFF_FFF0) >> 4 == x >> 4
    ensures (x & 0xFF) ^ (x & 0xFFFF_FF00) == x && (x & 0xFFFF_FF00) & 0xFF == 0 && (x & 0xFFFF_FF00) >> 8 == x >> 8
  {
  }

  /** On words that `clear` holds of, `f` is `shift`. */
  ghost predicate ShiftsAt<T>(f: T -> T, clear: T -> bool, shift: T -> T, x: T) {
    clear(x) ==> f(x) == shift(x)
  }

  ghost predicate Shifts<T(!new)>(f: T -> T, clear: T -> bool, shift: T -> T) {
    forall x {:trigger ShiftsAt(f, clear, shift, x)} :: ShiftsAt(f, clear, shift, x)
  }

  ghost predicate HalvesAt<T>(clear: T -> bool, shift: T -> T, clear2: T -> bool, shift2: T -> T, x: T) {
    clear2(x) ==> clear(x) && clear(shift(x)) && shift(shift(x)) == shift2(x)
  }

  ghost predicate Halves<T(!new)>(clear: T -> bool, shift: T -> T, clear2: T -> bool, shift2: T -> T) {
    forall x {:trigger HalvesAt(clear, shift, clear2, shift2, x)} :: HalvesAt(clear, shift, clear2, shift2, x)
  }

  lemma {:induction false} TwiceShifts<T(!new)>(f: T -> T, clear: T -> bool, shift: T -> T,
                                                h: T -> T, clear2: T -> bool, shift2: T -> T)
    requires Shifts(f, clear, shift) && Twice(f, h) && Halves(clear, shift, clear2, shift2)
    ensures Shifts(h, clear2, shift2)
  {
    forall x
      ensures ShiftsAt(h, clear2, shift2, x)
    {
      assert HalvesAt(clear, shift, clear2, shift2, x);
      assert ShiftsAt(f, clear, shift, x) && ShiftsAt(f, clear, shift, shift(x));
    }
  }

  predicate Clear1(x: Word) { x & 0x1 == 0 }
  predicate Clear2(x: Word) { x & 0x3 == 0 }
  predicate Clear4(x: Word) { x & 0xF == 0 }
  predicate Clear8(x: Word) { x & 0xFF == 0 }

  function Shift1(x: Word): Word { x >> 1 }
  function Shift2(x: Word): Word { x >> 2 }
  function Shift4(x: Word): Word { x >> 4 }
  function Shift8(x: Word): Word { x >> 8 }

  lemma {:induction false} ShiftsHalve()
    ensures Halves(Clear1, Shift1, Clear2, Shift2)
    ensures Halves(Clear2, Shift2, Clear4, Shift4)
    ensures Halves(Clear4, Shift4, Clear8, Shift8)
  {
  }

  lemma {:induction false} StepsShift()
    ensures Shifts(Step4, Clear4, Shift4) && Shifts(Step8, Clear8, Shift8)
  {
    assert Shifts(BitStep, Clear1, Shift1);
    StepsTwice();
    ShiftsHalve();
    TwiceShifts(BitStep, Clear1, Shift1, Step2, Clear2, Shift2);
    TwiceShifts(Step2, Clear2, Shift2, Step4, Clear4, Shift4);
    TwiceShifts(Step4, Clear4, Shift4, Step8, Clear8, Shift8);
  }

  lemma {:induction false} Step4Shifts(x: Word)
    requires x & 0xF == 0
    ensures Step4(x) == x >> 4
  {
    StepsShift();
    assert ShiftsAt(Step4, Clear4, Shift4, x);
  }

  lemma {:induction false} Step8Shifts(x: Word)
    requires x & 0xFF == 0
    ensures Step8(x) == x >> 8
  {
    StepsShift();
    assert ShiftsAt(Step8, Clear8, Shift8, x);
  }

  lemma {:induction false} Step4OfLowPart(x: Word)
    ensures Step4(x) == Xor(Step4(x & 0xF), x >> 4)
  {
    StepsLinear();
    Parts(x);
    Step4Shifts(x & 0xFFFF_FFF0);
    SplitStep(Xor, Step4, x, x & 0xF, x & 0xFFFF_FFF0, x >> 4);
  }

  lemma {:induction false} Step8OfLowPart(x: Word)
    ensures Step8(x) == Xor(Step8(x & 0xFF), x >> 8)
  {
    StepsLinear();
    Parts(x);
    Step8Shifts(x & 0xFFFF_FF00);
    SplitStep(Xor, Step8, x, x & 0xFF, x & 0xFFFF_FF00, x >> 8);
  }
}
