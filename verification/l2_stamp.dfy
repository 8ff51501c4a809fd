/**
 Sending a link-local frame on several ports: each copy is stamped in place with its port, the checksum is
 adjusted to match, and both are undone before the next port.
 */
module L2Stamp {
  import opened Bytes
  import opened Checksum
  import opened L2Policy

  const NEXT_HEADER_OFFSET := 20
  const SOURCE_OFFSET := 22
  const UDP_CHECKSUM_OFFSET := 60
  const BCMP_OFFSET := 54
  const BCMP_CHECKSUM_OFFSET := 56
  const IP_PROTO_UDP: uint8 := 17
  const IP_PROTO_BCMP: uint8 := 0xBC

  /** The headers that are read and written lie inside the frame. */
  predicate HasHeaders(f: Frame) {
    && HasAddresses(f)
    && (IsUdp(f) ==> |f| > UDP_CHECKSUM_OFFSET)
    && (IsBcmp(f) ==> |f| > BCMP_CHECKSUM_OFFSET + 1)
  }

  predicate IsUdp(f: Frame)
    requires HasAddresses(f)
  {
    IsIpv6(f) && f[NEXT_HEADER_OFFSET] == IP_PROTO_UDP
  }

  predicate IsBcmp(f: Frame)
    requires HasAddresses(f)
  {
    IsIpv6(f) && f[NEXT_HEADER_OFFSET] == IP_PROTO_BCMP
  }

  // ----- the checksum field: the BCMP header is little endian -----

  function BcmpChecksum(f: Frame): Word
    requires |f| > BCMP_CHECKSUM_OFFSET + 1
  {
    f[BCMP_CHECKSUM_OFFSET] as int + 0x100 * f[BCMP_CHECKSUM_OFFSET + 1] as int
  }

  function WithBcmpChecksum(f: Frame, c: Word): (r: Frame)
    requires |f| > BCMP_CHECKSUM_OFFSET + 1
  {
    f[BCMP_CHECKSUM_OFFSET := c % 0x100][BCMP_CHECKSUM_OFFSET + 1 := c / 0x100]
  }

  // ----- stamping and its undoing -----

  function AddToByte(b: uint8, port: int): uint8 {
    0xFF - (0xFF - b + port) % 0x100
  }

  function AddToWord(c: Word, port: int): Word {
    Not((Not(c) + port) % 0x1_0000)
  }

  function AdjustChecksum(f: Frame, port: int): (r: Frame)
    requires HasHeaders(f)
    ensures HasHeaders(r)
  {
    if IsUdp(f) then f[UDP_CHECKSUM_OFFSET := AddToByte(f[UDP_CHECKSUM_OFFSET], port)]
    else if IsBcmp(f) then WithBcmpChecksum(f, AddToWord(BcmpChecksum(f), port))
    else f
  }

  function Stamped(f: Frame, port: nat): Frame
    requires HasHeaders(f) && port <= MAX_PORTS
  {
    AdjustChecksum(SetPorts(f, BitOr(f[IPV6_PORTS_OFFSET], port)), port)
  }

  lemma {:induction false} StampOfClean(f: Frame, port: nat)
    requires HasHeaders(f) && port <= MAX_PORTS && f[IPV6_PORTS_OFFSET] == 0
    ensures Stamped(f, port) == AdjustChecksum(SetPorts(f, port), port)
  {
    OrWithZero(port);
  }

  lemma {:induction false} AddingUndone(b: uint8, c: Word, port: int)
    ensures AddToByte(AddToByte(b, port), 0 - port) == b && AddToWord(AddToWord(c, port), 0 - port) == c
  {
  }

  lemma {:induction false} AdjustUndone(f: Frame, port: int)
    requires HasHeaders(f)
    ensures AdjustChecksum(AdjustChecksum(f, port), 0 - port) == f
  {
    var g := AdjustChecksum(f, port);
    if IsUdp(f) {
      AddingUndone(f[UDP_CHECKSUM_OFFSET], 0, port);
      assert g[UDP_CHECKSUM_OFFSET := f[UDP_CHECKSUM_OFFSET]] == f;
    } else if IsBcmp(f) {
      var c := BcmpChecksum(f);
      AddingUndone(0, c, port);
      FieldReadsBack(f, AddToWord(c, port));
      FieldOverwritten(f, AddToWord(c, port), c);
      FieldIsBytes(f);
    }
  }

  lemma {:induction false} FieldOverwritten(f: Frame, c: Word, d: Word)
    requires |f| > BCMP_CHECKSUM_OFFSET + 1
    ensures WithBcmpChecksum(WithBcmpChecksum(f, c), d) == WithBcmpChecksum(f, d)
  {
  }

  lemma {:induction false} FieldReadsBack(f: Frame, c: Word)
    requires |f| > BCMP_CHECKSUM_OFFSET + 1
    ensures BcmpChecksum(WithBcmpChecksum(f, c)) == c
  {
  }

  lemma {:induction false} FieldIsBytes(f: Frame)
    requires |f| > BCMP_CHECKSUM_OFFSET + 1
    ensures WithBcmpChecksum(f, BcmpChecksum(f)) == f
  {
  }

  lemma {:induction false} PortsAndChecksumCommute(f: Frame, ports: uint8, port: int)
    requires HasHeaders(f)
    ensures HasHeaders(SetPorts(f, ports))
    ensures SetPorts(AdjustChecksum(f, port), ports) == AdjustChecksum(SetPorts(f, ports), port)
  {
  }

  /** Clearing the ports and reverting the checksum gives the frame as it was, with an empty ports byte. */
  lemma {:induction false} RevertGivesOriginal(f: Frame, port: nat)
    requires HasHeaders(f) && port <= MAX_PORTS
    ensures HasHeaders(SetPorts(Stamped(f, port), 0))
    ensures AdjustChecksum(SetPorts(Stamped(f, port), 0), 0 - port) == SetPorts(f, 0)
  {
    var marked := SetPorts(f, BitOr(f[IPV6_PORTS_OFFSET], port));
    PortsAndChecksumCommute(f, BitOr(f[IPV6_PORTS_OFFSET], port), 0);
    PortsAndChecksumCommute(marked, 0, port);
    AdjustUndone(SetPorts(f, 0), port);
    assert SetPorts(marked, 0) == SetPorts(f, 0);
  }

  method AddEgressPort(frame: array<uint8>, port: nat)
    requires HasHeaders(frame[..]) && port <= MAX_PORTS
    modifies frame
    ensures frame[..] == Stamped(old(frame[..]), port)
  {
    ghost var f := frame[..];
    ghost var marked := SetPorts(f, BitOr(f[IPV6_PORTS_OFFSET], port));
    frame[IPV6_PORTS_OFFSET] := BitOr(frame[IPV6_PORTS_OFFSET], port);
    assert frame[..] == marked;
    ShiftChecksum(frame, port);
  }

  method RevertChecksum(frame: array<uint8>, port: nat)
    requires HasHeaders(frame[..])
    modifies frame
    ensures frame[..] == AdjustChecksum(old(frame[..]), 0 - port)
  {
    ShiftChecksum(frame, 0 - port);
  }

  /** The checksum field is complemented, moved by `delta` with wrap-around, and complemented again. */
  method ShiftChecksum(frame: array<uint8>, delta: int)
    requires HasHeaders(frame[..])
    modifies frame
    ensures frame[..] == AdjustChecksum(old(frame[..]), delta)
  {
    if frame[ETHERNET_TYPE_OFFSET] == 0x86 && frame[ETHERNET_TYPE_OFFSET + 1] == 0xDD {
      if frame[NEXT_HEADER_OFFSET] == IP_PROTO_UDP {
        frame[UDP_CHECKSUM_OFFSET] := AddToByte(frame[UDP_CHECKSUM_OFFSET], delta);
      } else if frame[NEXT_HEADER_OFFSET] == IP_PROTO_BCMP {
        var c := AddToWord(BcmpChecksum(frame[..]), delta);
        frame[BCMP_CHECKSUM_OFFSET] := c % 0x100;
        frame[BCMP_CHECKSUM_OFFSET + 1] := c / 0x100;
      }
    }
    assert frame[..] == AdjustChecksum(old(frame[..]), delta);
  }

  datatype Sent = Sent(port: nat, frame: Frame)

  /** The copies sent from position `i` on: after the first one the ports byte is empty. */
  function StampedCopies(f: Frame, mask: PortMask, i: nat, numPorts: nat): seq<Sent>
    requires HasHeaders(f) && i <= numPorts <= MAX_PORTS
    decreases numPorts - i
  {
    if i == numPorts then []
    else if i in mask then [Sent(i + 1, Stamped(f, i + 1))] + StampedCopies(SetPorts(f, 0), mask, i + 1, numPorts)
    else StampedCopies(f, mask, i + 1, numPorts)
  }

  /** One port's turn: the buffer is stamped and sent, and then cleaned for the next port. */
  method SendOn(frame: array<uint8>, port: nat) returns (copy: Frame)
    requires HasHeaders(frame[..]) && port <= MAX_PORTS
    modifies frame
    ensures copy == Stamped(old(frame[..]), port) && frame[..] == SetPorts(old(frame[..]), 0)
  {
    ghost var f := frame[..];
    AddEgressPort(frame, port);
    copy := frame[..];
    frame[IPV6_PORTS_OFFSET] := 0;
    RevertGivesOriginal(f, port);
    assert frame[..] == SetPorts(Stamped(f, port), 0);
    RevertChecksum(frame, port);
  }

  /** One frame buffer serves every port of the mask. */
  method SendLinkLocal(frame: array<uint8>, mask: PortMask, numPorts: nat) returns (sent: seq<Sent>)
    requires HasHeaders(frame[..]) && numPorts <= MAX_PORTS
    modifies frame
    ensures sent == StampedCopies(old(frame[..]), mask, 0, numPorts)
    ensures frame[..] == old(frame[..]) || frame[..] == SetPorts(old(frame[..]), 0)
  {
    sent := [];
    ghost var original, f := frame[..], frame[..];
    ghost var all := StampedCopies(original, mask, 0, numPorts);
    assert SetPorts(SetPorts(original, 0), 0) == SetPorts(original, 0);
    for i := 0 to numPorts
      invariant f == frame[..] && HasHeaders(f) && (f == original || f == SetPorts(original, 0))
      invariant sent + StampedCopies(f, mask, i, numPorts) == all
    {
      if i in mask {
        var copy := SendOn(frame, i + 1);
        assert StampedCopies(f, mask, i, numPorts) ==
               [Sent(i + 1, copy)] + StampedCopies(SetPorts(f, 0), mask, i + 1, numPorts);
        sent := sent + [Sent(i + 1, copy)];
        f := SetPorts(f, 0);
      }
    }
  }

  /** A frame with an empty ports byte goes out once on each port of the mask, each copy with its own stamp. */
  lemma {:induction false} EachPortGetsItsStamp(f: Frame, mask: PortMask, i: nat, numPorts: nat)
    requires HasHeaders(f) && i <= numPorts <= MAX_PORTS && f[IPV6_PORTS_OFFSET] == 0
    ensures var copies, ports := StampedCopies(f, mask, i, numPorts), PortsOf(mask, i, numPorts);
      |copies| == |ports| && forall k :: 0 <= k < |ports| ==> copies[k] == Sent(ports[k], Stamped(f, ports[k]))
    decreases numPorts - i
  {
    if i < numPorts {
      assert SetPorts(f, 0) == f;
      EachPortGetsItsStamp(f, mask, i + 1, numPorts);
    }
  }
}
