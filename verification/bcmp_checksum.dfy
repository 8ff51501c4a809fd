/** The checksum of a BCMP message, from the sender over the stamped wire to the receiver's check. */
module BcmpMessageChecksum {
  import opened Bytes
  import opened Checksum
  import opened L2Policy
  import opened L2Stamp

  const LEGACY_PORTS_OFFSET := 26

  /** An IPv6 frame with a BCMP message whose length fits the header's length field. */
  predicate IsMessage(f: Frame) {
    BCMP_CHECKSUM_OFFSET + 1 < |f| < BCMP_OFFSET + 0x1_0000 && IsBcmp(f)
  }

  function FrameSum(f: Frame): nat
    requires BCMP_OFFSET <= |f| < BCMP_OFFSET + 0x1_0000
  {
    PseudoSum(f[SOURCE_OFFSET..IPV6_DESTINATION_OFFSET], f[IPV6_DESTINATION_OFFSET..BCMP_OFFSET], IP_PROTO_BCMP,
              |f| - BCMP_OFFSET, f[BCMP_OFFSET..])
  }

  function Computed(f: Frame): Word
    requires BCMP_OFFSET <= |f| < BCMP_OFFSET + 0x1_0000
  {
    Swap(Not(Fold(FrameSum(f))))
  }

  /** The sender computes the checksum with the field at zero, and then fills the field. */
  function Sealed(f: Frame): Frame
    requires IsMessage(f)
  {
    var zeroed := WithBcmpChecksum(f, 0);
    WithBcmpChecksum(f, Computed(zeroed))
  }

  /** The receiver clears the ingress port and two address bytes that once held ports. */
  function WithoutIngress(f: Frame): Frame
    requires HasAddresses(f)
  {
    f[LEGACY_PORTS_OFFSET := 0][LEGACY_PORTS_OFFSET + 1 := 0][IPV6_PORTS_OFFSET := ClearIngress(f[IPV6_PORTS_OFFSET])]
  }

  predicate Verifies(f: Frame)
    requires IsMessage(f)
  {
    Computed(WithBcmpChecksum(WithoutIngress(f), 0)) == BcmpChecksum(f)
  }

  method FrameChecksum(f: Frame) returns (c: Word)
    requires IsMessage(f)
    ensures c == Computed(f)
  {
    c := Ipv6PseudoChecksum(f[SOURCE_OFFSET..IPV6_DESTINATION_OFFSET], f[IPV6_DESTINATION_OFFSET..BCMP_OFFSET],
                            IP_PROTO_BCMP, f[BCMP_OFFSET..]);
  }

  method StoreChecksum(frame: array<uint8>, c: Word)
    requires frame.Length > BCMP_CHECKSUM_OFFSET + 1
    modifies frame
    ensures frame[..] == WithBcmpChecksum(old(frame[..]), c)
  {
    frame[BCMP_CHECKSUM_OFFSET] := c % 0x100;
    frame[BCMP_CHECKSUM_OFFSET + 1] := c / 0x100;
  }

  method Seal(frame: array<uint8>)
    requires IsMessage(frame[..])
    modifies frame
    ensures frame[..] == Sealed(old(frame[..]))
  {
    StoreChecksum(frame, 0);
    var c := FrameChecksum(frame[..]);
    StoreChecksum(frame, c);
  }

  /** The checksum field is put back only when the message is accepted. */
  method Accept(frame: array<uint8>) returns (ok: bool)
    requires IsMessage(frame[..])
    modifies frame
    ensures ok <==> Verifies(old(frame[..]))
    ensures frame[..] == var f := WithoutIngress(old(frame[..])); if ok then f else WithBcmpChecksum(f, 0)
  {
    frame[LEGACY_PORTS_OFFSET] := 0;
    frame[LEGACY_PORTS_OFFSET + 1] := 0;
    frame[IPV6_PORTS_OFFSET] := ClearIngress(frame[IPV6_PORTS_OFFSET]);
    ghost var cleared := frame[..];
    assert cleared == WithoutIngress(old(frame[..]));
    var read := BcmpChecksum(frame[..]);
    StoreChecksum(frame, 0);
    var computed := FrameChecksum(frame[..]);
    if computed != read {
      return false;
    }
    StoreChecksum(frame, read);
    FieldIsBytes(cleared);
    return true;
  }

  // ----- does a stamped message verify? -----

  /** Writing into an upper half of a word moves the sum by 0x100 for each unit. */
  lemma {:induction false} SumWithUpperByte(s: seq<uint8>, k: nat, b: uint8)
    requires k % 2 == 0 && k + 1 < |s| && s[k] == 0
    ensures WordSum(s[k := b]) == WordSum(s) + 0x100 * b
  {
    var t := s[k := b];
    WordSumSplit(s, k);
    WordSumSplit(t, k);
    assert t[..k] == s[..k] && t[k..][2..] == s[k..][2..];
  }

  lemma {:induction false} FrameSumWithPorts(f: Frame, port: nat)
    requires IsMessage(f) && f[IPV6_PORTS_OFFSET] == 0 && port <= MAX_PORTS
    ensures FrameSum(SetPorts(f, port)) == FrameSum(f) + 0x100 * port
  {
    var g := SetPorts(f, port);
    var src := f[SOURCE_OFFSET..IPV6_DESTINATION_OFFSET];
    var ports: uint8 := port;
    SumWithUpperByte(src, 2, ports);
    assert g[SOURCE_OFFSET..IPV6_DESTINATION_OFFSET] == src[2 := ports];
    assert g[IPV6_DESTINATION_OFFSET..BCMP_OFFSET] == f[IPV6_DESTINATION_OFFSET..BCMP_OFFSET];
    assert g[BCMP_OFFSET..] == f[BCMP_OFFSET..];
  }

  lemma {:induction false} TimesResidue(x: nat, y: nat)
    requires x % 0xFFFF == y % 0xFFFF
    ensures 0x100 * x % 0xFFFF == 0x100 * y % 0xFFFF
  {
    SameResidue(0x100 * (x / 0xFFFF), 0x100 * (x % 0xFFFF));
    SameResidue(0x100 * (y / 0xFFFF), 0x100 * (y % 0xFFFF));
  }

  lemma {:induction false} SumResidue(x: nat, y: nat, z: nat)
    requires x % 0xFFFF == y % 0xFFFF
    ensures (x + z) % 0xFFFF == (y + z) % 0xFFFF
  {
  }

  lemma {:induction false} SwappedFold(sum: nat)
    ensures Swap(Fold(sum)) % 0xFFFF == 0x100 * sum % 0xFFFF
  {
    FoldIsResidue(sum);
    SwapIsProduct(Fold(sum));
    TimesResidue(Fold(sum), sum);
  }

  /** `Swap(Fold(sum + 0x100 * port))` is `Swap(Fold(sum)) + port` modulo 0xFFFF. */
  lemma {:induction false} StampedResidue(sum: nat, port: nat)
    ensures Swap(Fold(sum + 0x100 * port)) % 0xFFFF == (Swap(Fold(sum)) + port) % 0xFFFF
  {
    SwappedFold(sum);
    SwappedFold(sum + 0x100 * port);
    SumResidue(Swap(Fold(sum)), 0x100 * sum, port);
    SameResidue(port, 0x100 * sum + port);
  }

  lemma {:induction false} StampArithmetic(sum: nat, port: nat)
    requires sum > 0 && port <= MAX_PORTS
    ensures var c := Swap(Not(Fold(sum)));
      AddToWord(c, port) == Swap(Not(Fold(sum + 0x100 * port))) <==> Not(c) + port <= 0xFFFF
  {
    var x, y := Swap(Fold(sum)), Swap(Fold(sum + 0x100 * port));
    StampedResidue(sum, port);
    SwapOfNot(Fold(sum));
    SwapOfNot(Fold(sum + 0x100 * port));
    FoldIsResidue(sum);
    FoldIsResidue(sum + 0x100 * port);
    SwapIsProduct(Fold(sum));
    SwapIsProduct(Fold(sum + 0x100 * port));
    SameInRange(x, y, port);
  }

  lemma {:induction false} SameInRange(x: Word, y: Word, port: nat)
    requires x > 0 && y > 0 && port <= MAX_PORTS && y % 0xFFFF == (x + port) % 0xFFFF
    ensures (x + port) % 0x1_0000 == y <==> x + port <= 0xFFFF
  {
  }

  /** The receiver's clearing undoes the receiving node's mark, and leaves the stamp. */
  lemma {:induction false} ClearingUndoesMark(s: Frame, ingress: PortMask)
    requires IsMessage(s) && s[IPV6_PORTS_OFFSET] < 0x10
    requires s[LEGACY_PORTS_OFFSET] == 0 && s[LEGACY_PORTS_OFFSET + 1] == 0
    ensures var r := RxFrame(s, ingress); IsMessage(r) && WithoutIngress(r) == s
  {
    var r := RxFrame(s, ingress);
    assert r[LEGACY_PORTS_OFFSET := 0] == r && r[LEGACY_PORTS_OFFSET + 1 := 0] == r;
    assert ClearIngress(r[IPV6_PORTS_OFFSET]) == s[IPV6_PORTS_OFFSET];
    assert SetPorts(r, s[IPV6_PORTS_OFFSET]) == s;
  }

  lemma {:induction false} AdjustOfMessage(f: Frame, ports: uint8, port: int)
    requires IsMessage(f)
    ensures AdjustChecksum(SetPorts(f, ports), port) ==
            WithBcmpChecksum(SetPorts(f, ports), AddToWord(BcmpChecksum(f), port))
  {
    assert BcmpChecksum(SetPorts(f, ports)) == BcmpChecksum(f);
  }

  lemma {:induction false} ReceiverSeesStamp(f: Frame, port: nat, ingress: PortMask)
    requires IsMessage(f) && port <= MAX_PORTS
    requires f[IPV6_PORTS_OFFSET] == 0 && f[LEGACY_PORTS_OFFSET] == 0 && f[LEGACY_PORTS_OFFSET + 1] == 0
    ensures var r := RxFrame(Stamped(f, port), ingress);
      IsMessage(r) && WithoutIngress(r) == WithBcmpChecksum(SetPorts(f, port), AddToWord(BcmpChecksum(f), port))
  {
    StampOfClean(f, port);
    AdjustOfMessage(f, port, port);
    var s := AdjustChecksum(SetPorts(f, port), port);
    assert s[IPV6_PORTS_OFFSET] == port;
    ClearingUndoesMark(s, ingress);
  }

  /**
   A message that the sender sealed with an empty ports byte, and that the wire stamped with its port and the
   receiving node with another, is accepted if and only if adding the port to the complemented checksum does
   not overflow the word.
   */
  lemma {:induction false} StampedMessageVerifies(f: Frame, port: nat, ingress: PortMask)
    requires IsMessage(f) && port <= MAX_PORTS
    requires f[IPV6_PORTS_OFFSET] == 0 && f[LEGACY_PORTS_OFFSET] == 0 && f[LEGACY_PORTS_OFFSET + 1] == 0
    ensures IsMessage(Sealed(f)) && IsMessage(RxFrame(Stamped(Sealed(f), port), ingress))
    ensures Verifies(RxFrame(Stamped(Sealed(f), port), ingress)) <==> Not(BcmpChecksum(Sealed(f))) + port <= 0xFFFF
  {
    var zeroed, g := WithBcmpChecksum(f, 0), Sealed(f);
    var c := Computed(zeroed);
    FieldReadsBack(f, c);
    ReceiverSeesStamp(g, port, ingress);
    var r := RxFrame(Stamped(g, port), ingress);
    assert WithBcmpChecksum(WithoutIngress(r), 0) == SetPorts(zeroed, port);
    FieldReadsBack(SetPorts(g, port), AddToWord(c, port));
    assert BcmpChecksum(WithoutIngress(r)) == BcmpChecksum(r) == AddToWord(c, port);
    FrameSumWithPorts(zeroed, port);
    assert FrameSum(zeroed) > 0;
    StampArithmetic(FrameSum(zeroed), port);
  }

  // ----- messages that are lost -----

  const WORD_OFFSET := 68

  /** `f` with the word at the even offset 68, inside the payload, set to `w`. */
  function WithWord(f: Frame, w: Word): Frame
    requires |f| > WORD_OFFSET + 1
  {
    f[WORD_OFFSET := w / 0x100][WORD_OFFSET + 1 := w % 0x100]
  }

  lemma {:induction false} SumWithWord(s: seq<uint8>, k: nat, high: uint8, low: uint8)
    requires k % 2 == 0 && k + 1 < |s| && s[k] == 0 && s[k + 1] == 0
    ensures WordSum(s[k := high][k + 1 := low]) == WordSum(s) + 0x100 * high as int + low as int
  {
    var t := s[k := high][k + 1 := low];
    WordSumSplit(s, k);
    WordSumSplit(t, k);
    assert t[..k] == s[..k] && t[k..][2..] == s[k..][2..];
  }

  lemma {:induction false} FrameSumWithWord(f: Frame, w: Word)
    requires IsMessage(f) && |f| > WORD_OFFSET + 1 && f[WORD_OFFSET] == 0 && f[WORD_OFFSET + 1] == 0
    ensures FrameSum(WithWord(f, w)) == FrameSum(f) + w
  {
    var g := WithWord(f, w);
    var data: seq<uint8> := f[BCMP_OFFSET..];
    var k := WORD_OFFSET - BCMP_OFFSET;
    var high: uint8, low: uint8 := w / 0x100, w % 0x100;
    SumWithWord(data, k, high, low);
    assert g[SOURCE_OFFSET..IPV6_DESTINATION_OFFSET] == f[SOURCE_OFFSET..IPV6_DESTINATION_OFFSET];
    assert g[IPV6_DESTINATION_OFFSET..BCMP_OFFSET] == f[IPV6_DESTINATION_OFFSET..BCMP_OFFSET];
    assert g[BCMP_OFFSET..] == data[k := high][k + 1 := low];
  }

  lemma {:induction false} FoldsToOnes(sum: nat)
    requires sum > 0 && sum % 0xFFFF == 0
    ensures Fold(sum) == 0xFFFF
  {
    FoldIsResidue(sum);
  }

  /** Every message with a free payload word has a variant that no stamped copy of which is accepted. */
  lemma {:induction false} SomeMessageIsLost(f: Frame) returns (w: Word)
    requires IsMessage(f) && |f| > WORD_OFFSET + 1 && f[WORD_OFFSET] == 0 && f[WORD_OFFSET + 1] == 0
    requires f[IPV6_PORTS_OFFSET] == 0 && f[LEGACY_PORTS_OFFSET] == 0 && f[LEGACY_PORTS_OFFSET + 1] == 0
    ensures IsMessage(WithWord(f, w))
    ensures forall port, ingress | 1 <= port <= MAX_PORTS ::
              var r := RxFrame(Stamped(Sealed(WithWord(f, w)), port), ingress);
              IsMessage(r) && !Verifies(r)
  {
    var zeroed := WithBcmpChecksum(f, 0);
    w := 0xFFFF - FrameSum(zeroed) % 0xFFFF;
    var g := WithWord(f, w);
    assert WithBcmpChecksum(g, 0) == WithWord(zeroed, w);
    FrameSumWithWord(zeroed, w);
    FoldsToOnes(FrameSum(zeroed) + w);
    FieldReadsBack(g, 0);
    assert BcmpChecksum(Sealed(g)) == 0;
    forall port, ingress | 1 <= port <= MAX_PORTS
      ensures var r := RxFrame(Stamped(Sealed(g), port), ingress); IsMessage(r) && !Verifies(r)
    {
      StampedMessageVerifies(g, port, ingress);
    }
  }
}
