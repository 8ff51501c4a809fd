/** The rules a node applies to a received frame. */
module L2Policy {
  import opened Bytes

  type Frame = seq<uint8>

  const ETHERNET_TYPE_OFFSET := 12
  const IPV6_PORTS_OFFSET := 24
  const IPV6_DESTINATION_OFFSET := 38
  const IPV6_HEADERS_LENGTH := 54
  const MAX_PORTS := 15

  /** A 16-bit port mask, as the set of the positions of its set bits. Port `p` has position `p - 1`. */
  type PortMask = mask: set<nat> | forall i :: i in mask ==> i < 16

  function AllPorts(numPorts: nat): (mask: PortMask)
    requires numPorts <= MAX_PORTS
    ensures forall i :: i in mask <==> 0 <= i < numPorts
  {
    if numPorts == 0 then {} else AllPorts(numPorts - 1) + {numPorts - 1}
  }

  /** One more than the lowest set position from `i` on; 0 when there is none. */
  function FindFirstSet(mask: PortMask, i: nat): (p: nat)
    requires i <= 16
    ensures p == 0 || (i < p <= 16 && p - 1 in mask)
    decreases 16 - i
  {
    if i == 16 then 0 else if i in mask then i + 1 else FindFirstSet(mask, i + 1)
  }

  lemma {:induction false} FindsOnlyBit(k: nat, i: nat)
    requires i <= k < 16
    ensures FindFirstSet({k}, i) == k + 1
    decreases k - i
  {
    if i < k {
      FindsOnlyBit(k, i + 1);
    }
  }

  /** The ports of a mask from position `i` on, as the transmit loop visits them. */
  function PortsOf(mask: PortMask, i: nat, numPorts: nat): (ports: seq<nat>)
    requires i <= numPorts <= MAX_PORTS
    ensures forall k :: 0 <= k < |ports| ==> i < ports[k] <= numPorts
    decreases numPorts - i
  {
    if i == numPorts then []
    else (if i in mask then [i + 1] else []) + PortsOf(mask, i + 1, numPorts)
  }

  /** They are exactly the ports of the mask, each once, in order. */
  lemma {:induction false} PortsOfMask(mask: PortMask, i: nat, numPorts: nat)
    requires i <= numPorts <= MAX_PORTS
    ensures forall p :: p in PortsOf(mask, i, numPorts) <==> i < p <= numPorts && p - 1 in mask
    ensures forall j, k :: 0 <= j < k < |PortsOf(mask, i, numPorts)| ==>
              PortsOf(mask, i, numPorts)[j] < PortsOf(mask, i, numPorts)[k]
    decreases numPorts - i
  {
    if i < numPorts {
      PortsOfMask(mask, i + 1, numPorts);
    }
  }

  // ----- frames -----

  predicate HasAddresses(f: Frame) {
    |f| >= IPV6_HEADERS_LENGTH
  }

  predicate IsIpv6(f: Frame)
    requires |f| > ETHERNET_TYPE_OFFSET + 1
  {
    f[ETHERNET_TYPE_OFFSET] == 0x86 && f[ETHERNET_TYPE_OFFSET + 1] == 0xDD
  }

  predicate ToGlobalMulticast(f: Frame)
    requires HasAddresses(f)
  {
    && f[IPV6_DESTINATION_OFFSET] == 0xFF && f[IPV6_DESTINATION_OFFSET + 1] == 0x03
    && f[IPV6_DESTINATION_OFFSET + 15] == 0x01
  }

  predicate ToLinkLocalMulticast(f: Frame)
    requires HasAddresses(f)
  {
    f[IPV6_DESTINATION_OFFSET] == 0xFF && f[IPV6_DESTINATION_OFFSET + 1] == 0x02
  }

  predicate ToNeighbors(f: Frame)
    requires HasAddresses(f)
  {
    ToLinkLocalMulticast(f) && f[IPV6_DESTINATION_OFFSET + 15] == 0x01
  }

  // The port that a frame came in on is the upper half of the ports byte, the port it is sent out on the lower.

  function WithIngress(ports: uint8, port: nat): uint8
    requires port <= 16
  {
    ports % 0x10 + port % 0x10 * 0x10
  }

  function ClearIngress(ports: uint8): uint8 {
    ports % 0x10
  }

  function ClearEgress(ports: uint8): uint8 {
    ports / 0x10 * 0x10
  }

  function SetPorts(f: Frame, ports: uint8): Frame
    requires HasAddresses(f)
  {
    f[IPV6_PORTS_OFFSET := ports]
  }

  // ----- the receive policy -----

  datatype RxResult = RxResult(shouldSubmit: bool, egressMask: PortMask, ingressPort: nat)

  /** What the routing callback answers: whether to submit, and the ports to forward to. */
  datatype Route = Route(submit: bool, egress: PortMask)

  predicate PolicyActs(f: Frame, ingress: PortMask) {
    HasAddresses(f) && IsIpv6(f) && FindFirstSet(ingress, 0) != 0
  }

  function RxFrame(f: Frame, ingress: PortMask): Frame {
    if PolicyActs(f, ingress) then SetPorts(f, WithIngress(f[IPV6_PORTS_OFFSET], FindFirstSet(ingress, 0))) else f
  }

  function RxDecision(f: Frame, ingress: PortMask, allPorts: PortMask, routing: Option<Route>): RxResult {
    if !PolicyActs(f, ingress) then RxResult(true, {}, 0)
    else if ToGlobalMulticast(f) then RxResult(true, allPorts - ingress, FindFirstSet(ingress, 0))
    else if routing.Some? && !ToNeighbors(f) then
      RxResult(routing.value.submit, routing.value.egress, FindFirstSet(ingress, 0))
    else RxResult(true, {}, FindFirstSet(ingress, 0))
  }

  function ForwardedCopy(f: Frame): Frame {
    if HasAddresses(f) then SetPorts(f, ClearEgress(ClearIngress(f[IPV6_PORTS_OFFSET]))) else f
  }

  /** Marks the frame in place with the port it came in on, and decides where it goes. */
  method RxApply(frame: array<uint8>, ingress: PortMask, allPorts: PortMask, routing: Option<Route>) returns (r: RxResult)
    modifies frame
    ensures frame[..] == RxFrame(old(frame[..]), ingress)
    ensures r == RxDecision(old(frame[..]), ingress, allPorts, routing)
  {
    r := RxResult(true, {}, 0);
    if frame.Length < IPV6_HEADERS_LENGTH {
      return;
    }
    if !(frame[ETHERNET_TYPE_OFFSET] == 0x86 && frame[ETHERNET_TYPE_OFFSET + 1] == 0xDD) {
      return;
    }
    var port := FindFirstSet(ingress, 0);
    if port == 0 {
      return;
    }
    r := r.(ingressPort := port);
    frame[IPV6_PORTS_OFFSET] := WithIngress(frame[IPV6_PORTS_OFFSET], port);
    assert frame[..] == RxFrame(old(frame[..]), ingress);
    if ToGlobalMulticast(frame[..]) {
      r := r.(egressMask := allPorts - ingress);
      return;
    }
    if routing.Some? && !ToNeighbors(frame[..]) {
      r := r.(shouldSubmit := routing.value.submit, egressMask := routing.value.egress);
    }
  }

  method PrepareForwardedCopy(frame: array<uint8>)
    modifies frame
    ensures frame[..] == ForwardedCopy(old(frame[..]))
  {
    if frame.Length >= IPV6_HEADERS_LENGTH {
      frame[IPV6_PORTS_OFFSET] := ClearIngress(frame[IPV6_PORTS_OFFSET]);
      frame[IPV6_PORTS_OFFSET] := ClearEgress(frame[IPV6_PORTS_OFFSET]);
      assert frame[..] == ForwardedCopy(old(frame[..]));
    }
  }

  // ----- what the marking does -----

  /** The port a frame came in on can be read back, and nothing but the upper half of one byte has changed. */
  lemma {:induction false} IngressReadsBack(f: Frame, ingress: PortMask)
    requires PolicyActs(f, ingress)
    ensures var r := RxFrame(f, ingress);
      && |r| == |f|
      && r[IPV6_PORTS_OFFSET] / 0x10 == FindFirstSet(ingress, 0) % 0x10
      && r[IPV6_PORTS_OFFSET] % 0x10 == f[IPV6_PORTS_OFFSET] % 0x10
      && forall k :: 0 <= k < |f| && k != IPV6_PORTS_OFFSET ==> r[k] == f[k]
  {
    var ports, port := f[IPV6_PORTS_OFFSET], FindFirstSet(ingress, 0);
    assert WithIngress(ports, port) / 0x10 == port % 0x10;
  }

  /** A forwarded copy is the received frame with an empty ports byte, whichever ports it has passed. */
  lemma {:induction false} ForwardedCopyForgetsPorts(f: Frame, ingress: PortMask)
    requires HasAddresses(f)
    ensures ForwardedCopy(RxFrame(f, ingress)) == SetPorts(f, 0)
  {
  }
}
