/** The one's complement checksum over the IPv6 pseudo-header (RFC 1071 section 2, RFC 8200 section 8.1). */
module Checksum {
  import opened Bytes

  type Word = uint16

  function Not(x: Word): Word {
    0xFFFF - x
  }

  /** Exchanges the two bytes of a word: network order to the host order of a little-endian machine. */
  function Swap(x: Word): Word {
    x % 0x100 * 0x100 + x / 0x100
  }

  /** The sum of big-endian words; an odd last byte is the upper half of a word. */
  function WordSum(s: seq<uint8>): nat
    decreases |s|
  {
    if |s| == 0 then 0
    else if |s| == 1 then s[0] * 0x100
    else s[0] * 0x100 + s[1] + WordSum(s[2..])
  }

  function Fold(sum: nat): (r: Word)
    decreases sum
  {
    if sum < 0x1_0000 then sum else Fold(sum % 0x1_0000 + sum / 0x1_0000)
  }

  function PseudoSum(src: seq<uint8>, dst: seq<uint8>, nextHeader: uint8, length: uint32, data: seq<uint8>): nat {
    WordSum(src) + WordSum(dst) + length / 0x1_0000 + length % 0x1_0000 + nextHeader + WordSum(data)
  }

  lemma {:induction false} WordSumBound(s: seq<uint8>)
    ensures WordSum(s) <= (|s| + 1) / 2 * 0xFFFF
    decreases |s|
  {
    if |s| >= 2 {
      WordSumBound(s[2..]);
    }
  }

  lemma {:induction false} WordSumSplit(s: seq<uint8>, i: nat)
    requires i % 2 == 0 && i <= |s|
    ensures WordSum(s) == WordSum(s[..i]) + WordSum(s[i..])
    decreases i
  {
    if i == 0 {
      assert s[..0] == [] && s[0..] == s;
    } else {
      WordSumSplit(s[2..], i - 2);
      assert s[..i][2..] == s[2..][..i - 2] && s[i..] == s[2..][i - 2..];
    }
  }

  /** One more word of the sum. */
  lemma {:induction false} WordSumStep(s: seq<uint8>, i: nat)
    requires i % 2 == 0 && i + 1 < |s|
    ensures WordSum(s[..i + 2]) == WordSum(s[..i]) + s[i] as int * 0x100 + s[i + 1] as int
  {
    WordSumSplit(s[..i + 2], i);
    assert s[..i + 2][..i] == s[..i] && s[..i + 2][i..] == [s[i], s[i + 1]];
  }

  method AddWords(sum: uint32, s: seq<uint8>, n: nat) returns (r: uint32)
    requires n % 2 == 0 && n <= |s|
    requires sum + WordSum(s[..n]) < 0x1_0000_0000
    ensures r == sum + WordSum(s[..n])
  {
    r := sum;
    assert s[..0] == [];
    var i := 0;
    while i + 1 < n
      invariant 0 <= i <= n && i % 2 == 0 && r == sum + WordSum(s[..i])
    {
      WordSumStep(s, i);
      WordSumSplit(s[..n], i + 2);
      assert s[..n][..i + 2] == s[..i + 2];
      r := r + s[i] as int * 0x100 + s[i + 1] as int;
      i := i + 2;
    }
  }

  method AddData(sum: uint32, data: seq<uint8>) returns (r: uint32)
    requires sum + WordSum(data) < 0x1_0000_0000
    ensures r == sum + WordSum(data)
  {
    if |data| % 2 == 0 {
      assert data[..|data|] == data;
      r := AddWords(sum, data, |data|);
    } else {
      var even := |data| - 1;
      WordSumSplit(data, even);
      assert data[even..] == [data[even]];
      r := AddWords(sum, data, even);
      r := r + data[even] as int * 0x100;
    }
  }

  method FoldCarries(total: uint32) returns (sum: Word)
    ensures sum == Fold(total)
  {
    var s := total;
    while s / 0x1_0000 != 0
      invariant 0 <= s && Fold(s) == Fold(total)
      decreases s
    {
      s := s % 0x1_0000 + s / 0x1_0000;
    }
    sum := s;
  }

  /** The length of `data` fits the 16-bit length field of the header, so the 32-bit sum does not overflow. */
  method Ipv6PseudoChecksum(src: seq<uint8>, dst: seq<uint8>, nextHeader: uint8, data: seq<uint8>) returns (r: Word)
    requires |src| == 16 && |dst| == 16 && |data| < 0x1_0000
    ensures r == Swap(Not(Fold(PseudoSum(src, dst, nextHeader, |data|, data))))
  {
    WordSumBound(src);
    WordSumBound(dst);
    WordSumBound(data);
    var sum: uint32 := AddData(0, src);
    sum := AddData(sum, dst);
    var length: uint32 := |data|;
    sum := sum + length / 0x1_0000;
    sum := sum + length % 0x1_0000;
    sum := sum + nextHeader;
    sum := AddData(sum, data);
    var folded := FoldCarries(sum);
    r := Swap(Not(folded));
  }

  // ----- what folding computes -----

  /** Folding keeps the sum modulo 0xFFFF, and gives zero only for zero. */
  lemma {:induction false} FoldIsResidue(sum: nat)
    ensures Fold(sum) % 0xFFFF == sum % 0xFFFF && (Fold(sum) == 0 <==> sum == 0)
    decreases sum
  {
    if sum >= 0x1_0000 {
      var high, low := sum / 0x1_0000, sum % 0x1_0000;
      FoldIsResidue(low + high);
      SameResidue(high, low + high);
    }
  }

  lemma {:induction false} SameResidue(k: nat, x: nat)
    ensures (0xFFFF * k + x) % 0xFFFF == x % 0xFFFF
    decreases k
  {
    if k > 0 {
      SameResidue(k - 1, x);
      assert 0xFFFF * k + x == 0xFFFF * (k - 1) + x + 0xFFFF;
    }
  }

  /** Exchanging the bytes of a word multiplies it by 0x100 modulo 0xFFFF. */
  lemma {:induction false} SwapIsProduct(x: Word)
    ensures Swap(x) % 0xFFFF == 0x100 * x % 0xFFFF && (Swap(x) == 0 <==> x == 0) && Swap(Swap(x)) == x
  {
    SameResidue(x / 0x100, Swap(x));
  }

  lemma {:induction false} SwapOfNot(x: Word)
    ensures Swap(Not(x)) == Not(Swap(x))
  {
  }
}
