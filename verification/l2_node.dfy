/** One node's link layer: an event queue whose receive and transmit events are handled one at a time. */
module L2Model {
  import opened Bytes
  import opened L2Policy
  import opened L2Stamp

  const EVENT_QUEUE_LENGTH := 32

  datatype Event = Rx(frame: Frame, ports: PortMask) | Tx(frame: Frame, ports: PortMask)

  datatype Node = Node(numPorts: nat, enabled: PortMask, queue: seq<Event>)

  /** What handling an event does: the new state, the copies put on the wire, the frames given to the IP stack. */
  datatype Outcome = Outcome(node: Node, sent: seq<Sent>, submitted: seq<Frame>)

  /** A full queue drops the event. */
  function Enqueue(n: Node, e: Event): Node {
    if |n.queue| < EVENT_QUEUE_LENGTH then n.(queue := n.queue + [e]) else n
  }

  function Receive(n: Node, port: nat, frame: Frame): Node
    requires 1 <= port <= MAX_PORTS
  {
    Enqueue(n, Rx(frame, {port - 1}))
  }

  /** Ports that are offline are left out. */
  function Transmit(n: Node, frame: Frame, ports: PortMask): Node {
    Enqueue(n, Tx(frame, ports * n.enabled))
  }

  function Copies(frame: Frame, ports: seq<nat>): seq<Sent> {
    seq(|ports|, k requires 0 <= k < |ports| => Sent(ports[k], frame))
  }

  function TxCopies(n: Node, frame: Frame, ports: PortMask): seq<Sent>
    requires HasHeaders(frame) && n.numPorts <= MAX_PORTS
  {
    if ToGlobalMulticast(frame) then Copies(frame, PortsOf(ports, 0, n.numPorts))
    else if ToLinkLocalMulticast(frame) then StampedCopies(frame, ports, 0, n.numPorts)
    else []
  }

  function ProcessTx(n: Node, frame: Frame, ports: PortMask): Outcome
    requires HasHeaders(frame) && n.numPorts <= MAX_PORTS
  {
    Outcome(n, TxCopies(n, frame, ports), [])
  }

  function ProcessRx(n: Node, frame: Frame, ingress: PortMask, routing: Option<Route>, memory: bool): Outcome
    requires n.numPorts <= MAX_PORTS
  {
    var decision := RxDecision(frame, ingress, AllPorts(n.numPorts), routing);
    var marked := RxFrame(frame, ingress);
    Outcome(if decision.egressMask != {} && memory then Transmit(n, ForwardedCopy(marked), decision.egressMask) else n,
            [], if decision.shouldSubmit then [marked] else [])
  }

  predicate CanHandle(n: Node) {
    n.numPorts <= MAX_PORTS && n.queue != [] && (n.queue[0].Tx? ==> HasHeaders(n.queue[0].frame))
  }

  /** Handles the event at the head of the queue; `memory` says whether a forwarding buffer could be had. */
  function Handle(n: Node, routing: Option<Route>, memory: bool): Outcome
    requires CanHandle(n)
  {
    var rest := n.(queue := n.queue[1..]);
    match n.queue[0]
    case Rx(frame, ports) => ProcessRx(rest, frame, ports, routing, memory)
    case Tx(frame, ports) => ProcessTx(rest, frame, ports)
  }
}

/** The link layer in the source's form. */
module L2Node {
  import opened Bytes
  import opened L2Policy
  import opened L2Stamp
  import opened L2Model

  class L2 {
    const numPorts: nat
    var enabledPorts: PortMask
    var queue: seq<Event>

    ghost predicate Valid() {
      numPorts <= MAX_PORTS
    }

    ghost function Abs(): Node
      reads this
    {
      Node(numPorts, enabledPorts, queue)
    }

    constructor (numPorts: nat)
      requires numPorts <= MAX_PORTS
      ensures Valid() && Abs() == Node(numPorts, {}, [])
    {
      this.numPorts := numPorts;
      enabledPorts, queue := {}, [];
    }

    method LinkChange(portIndex: nat, isUp: bool)
      requires portIndex < 16
      modifies this`enabledPorts
      ensures forall i: nat :: i in enabledPorts <==> if i == portIndex then isUp else i in old(enabledPorts)
    {
      enabledPorts := if isUp then enabledPorts + {portIndex} else enabledPorts - {portIndex};
    }

    method Enqueue(e: Event)
      modifies this`queue
      ensures Abs() == L2Model.Enqueue(old(Abs()), e)
    {
      if |queue| < EVENT_QUEUE_LENGTH {
        queue := queue + [e];
      }
    }

    method Receive(port: nat, data: Frame)
      requires 1 <= port <= MAX_PORTS
      modifies this`queue
      ensures Abs() == L2Model.Receive(old(Abs()), port, data)
    {
      Enqueue(Rx(data, {port - 1}));
    }

    method Transmit(frame: Frame, ports: PortMask)
      modifies this`queue
      ensures Abs() == L2Model.Transmit(old(Abs()), frame, ports)
    {
      Enqueue(Tx(frame, ports * enabledPorts));
    }

    /** The device sends on every port when the mask has them all. */
    method SendGlobalMulticast(frame: Frame, ports: PortMask) returns (sent: seq<Sent>)
      requires Valid()
      ensures sent == Copies(frame, PortsOf(ports, 0, numPorts))
    {
      if ports == AllPorts(numPorts) {
        sent := Copies(frame, PortsOf(AllPorts(numPorts), 0, numPorts));
      } else {
        sent := [];
        for i := 0 to numPorts
          invariant sent + Copies(frame, PortsOf(ports, i, numPorts)) == Copies(frame, PortsOf(ports, 0, numPorts))
        {
          ghost var rest := PortsOf(ports, i + 1, numPorts);
          if i in ports {
            assert Copies(frame, [i + 1] + rest) == [Sent(i + 1, frame)] + Copies(frame, rest);
            sent := sent + [Sent(i + 1, frame)];
          } else {
            assert PortsOf(ports, i, numPorts) == rest;
          }
        }
      }
    }

    method ProcessTx(payload: array<uint8>, ports: PortMask) returns (sent: seq<Sent>)
      requires Valid() && HasHeaders(payload[..])
      modifies payload
      ensures sent == TxCopies(Abs(), old(payload[..]), ports)
    {
      if ToGlobalMulticast(payload[..]) {
        sent := SendGlobalMulticast(payload[..], ports);
      } else if ToLinkLocalMulticast(payload[..]) {
        sent := SendLinkLocal(payload, ports, numPorts);
      } else {
        sent := [];
      }
    }

    /** The received buffer is marked in place; a copy of it with its ports cleared is queued for forwarding. */
    method ProcessRx(payload: array<uint8>, ingress: PortMask, routing: Option<Route>, memory: bool)
      returns (submitted: seq<Frame>)
      requires Valid()
      modifies this`queue, payload
      ensures L2Model.ProcessRx(old(Abs()), old(payload[..]), ingress, routing, memory) == Outcome(Abs(), [], submitted)
    {
      var decision := RxApply(payload, ingress, AllPorts(numPorts), routing);
      if decision.egressMask != {} && memory {
        var forward := new uint8[payload.Length](i requires 0 <= i < payload.Length reads payload => payload[i]);
        assert forward[..] == payload[..];
        PrepareForwardedCopy(forward);
        Transmit(forward[..], decision.egressMask);
      }
      submitted := if decision.shouldSubmit then [payload[..]] else [];
    }

    /** One turn of the thread's loop. */
    method HandleEvent(routing: Option<Route>, memory: bool) returns (sent: seq<Sent>, submitted: seq<Frame>)
      requires Valid() && CanHandle(Abs())
      modifies this`queue
      ensures L2Model.Handle(old(Abs()), routing, memory) == Outcome(Abs(), sent, submitted)
    {
      var event := queue[0];
      queue := queue[1..];
      var payload := new uint8[|event.frame|](i requires 0 <= i < |event.frame| => event.frame[i]);
      assert payload[..] == event.frame;
      sent, submitted := [], [];
      if event.Rx? {
        submitted := ProcessRx(payload, event.ports, routing, memory);
      } else {
        sent := ProcessTx(payload, event.ports);
      }
    }
  }
}
