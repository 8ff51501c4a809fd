/** A network of nodes that flood one global-multicast frame, with every interleaving of their steps. */
module Flood {
  import opened Bytes
  import opened L2Policy
  import opened L2Stamp
  import opened L2Model
  import opened Wiring

  /** `wires` holds what is on the way from each end of a link; `crossed` lists the crossings made. */
  datatype State = State(nodes: seq<Node>, wires: map<End, seq<Frame>>, submitted: seq<seq<Frame>>, crossed: seq<End>)

  datatype Action =
    | Arrive(from: End)
    | Work(node: nat, routing: Option<Route>)

  ghost function PositionOf(net: Net, e: End): (i: nat)
    requires Wired(net) && e in net.peer
    ensures e.node < |net.ports| && i < 15 && i + 1 == e.port <= net.ports[e.node]
  {
    PeerOfPeer(net, e);
    e.port - 1
  }

  /** The ports of node `x` whose links are up. */
  ghost function Online(net: Net, x: nat): PortMask
    requires Wired(net)
  {
    set e | e in net.peer && e.node == x :: PositionOf(net, e)
  }

  /** The frames among the copies sent on one port. */
  function FramesOn(sent: seq<Sent>, port: nat): seq<Frame>
    decreases |sent|
  {
    if sent == [] then []
    else (if sent[0].port == port then [sent[0].frame] else []) + FramesOn(sent[1..], port)
  }

  ghost predicate Fits(net: Net, s: State) {
    && |s.nodes| == |s.submitted| == |net.ports|
    && s.wires.Keys == net.peer.Keys
  }

  ghost predicate Enabled(net: Net, s: State, a: Action)
    requires Fits(net, s)
  {
    match a
    case Arrive(e) => e in s.wires && s.wires[e] != []
    case Work(x, _) => x < |s.nodes| && s.nodes[x].queue != []
  }

  ghost function DoArrive(net: Net, s: State, e: End): State
    requires Wired(net) && Fits(net, s) && Enabled(net, s, Arrive(e))
  {
    PeerOfPeer(net, e);
    var d := net.peer[e];
    PeerOfPeer(net, d);
    State(s.nodes[d.node := Receive(s.nodes[d.node], d.port, s.wires[e][0])],
          s.wires[e := s.wires[e][1..]], s.submitted, s.crossed + [e])
  }

  ghost function Apply(s: State, x: nat, out: Outcome): State
    requires x < |s.nodes| == |s.submitted|
  {
    State(s.nodes[x := out.node],
          map e | e in s.wires :: s.wires[e] + (if e.node == x then FramesOn(out.sent, e.port) else []),
          s.submitted[x := s.submitted[x] + out.submitted], s.crossed)
  }

  ghost function DoWork(net: Net, s: State, x: nat, routing: Option<Route>): State
    requires Fits(net, s) && x < |s.nodes| && CanHandle(s.nodes[x])
  {
    Apply(s, x, Handle(s.nodes[x], routing, true))
  }

  /** The origin has just handed its frame to the link layer, for all ports. */
  ghost function Start(net: Net, origin: nat, f: Frame): State
    requires Wired(net) && origin < |net.ports|
  {
    var idle := seq(|net.ports|, i requires 0 <= i < |net.ports| => Node(net.ports[i], Online(net, i), []));
    State(idle[origin := Transmit(idle[origin], f, AllPorts(net.ports[origin]))], map e | e in net.peer :: [],
          seq(|net.ports|, i => []), [])
  }

  // ----- the invariant -----

  datatype Scene = Scene(net: Net, origin: nat, up: map<nat, End>, frame: Frame)

  ghost predicate SceneOk(c: Scene) {
    && Wired(c.net) && IsTree(c.net, c.origin, c.up)
    && HasHeaders(c.frame) && IsIpv6(c.frame) && ToGlobalMulticast(c.frame)
  }

  /** The port of node `x` towards the origin. */
  ghost function PortIn(c: Scene, x: nat): (port: nat)
    requires SceneOk(c) && x in c.up
    ensures 1 <= port <= c.net.ports[x] <= L2Policy.MAX_PORTS && c.up[x] == End(x, port)
  {
    PeerOfPeer(c.net, c.up[x]);
    c.up[x].port
  }

  /** The end that leads to node `x`. */
  ghost function Down(c: Scene, x: nat): (d: End)
    requires SceneOk(c) && x in c.up
    ensures d in c.net.peer && c.net.peer[d] == c.up[x] && d == c.net.peer[c.up[x]] && IsUp(c.up, c.net.peer[d])
    ensures d.node < |c.net.ports| && 1 <= d.port <= c.net.ports[d.node] <= L2Policy.MAX_PORTS
  {
    PeerOfPeer(c.net, c.up[x]);
    PeerOfPeer(c.net, c.net.peer[c.up[x]]);
    c.net.peer[c.up[x]]
  }

  /** The frame as forwarded by any node: with an empty ports byte. */
  function Clean(f: Frame): Frame
    requires HasAddresses(f)
  {
    SetPorts(f, 0)
  }

  /** The frame that crosses from end `d`: only the origin's own copies have its ports byte. */
  function Carried(c: Scene, d: End): Frame
    requires HasAddresses(c.frame)
  {
    if d.node == c.origin then c.frame else Clean(c.frame)
  }

  /** The frame as node `x` submits it. */
  ghost function Marked(c: Scene, x: nat): Frame
    requires SceneOk(c) && x in c.up
  {
    var f := Carried(c, Down(c, x));
    SetPorts(f, WithIngress(f[IPV6_PORTS_OFFSET], PortIn(c, x)))
  }

  ghost function Egress(c: Scene, x: nat): PortMask
    requires SceneOk(c)
  {
    Online(c.net, x) - (if x in c.up then {PortIn(c, x) - 1} else {})
  }

  /**
   The stage of a node: 0 nothing yet, 1 a frame is on the wire to it, 2 the frame is in its queue,
   3 it has submitted the frame and has its copies in its queue, 4 it is done.
   */
  type Stages = seq<nat>

  ghost predicate QueueOk(c: Scene, q: seq<Event>, x: nat, stage: nat)
    requires SceneOk(c)
  {
    q == if stage == 2 && x in c.up then [Rx(Carried(c, Down(c, x)), {PortIn(c, x) - 1})]
         else if stage == 3 then [Tx(if x == c.origin then c.frame else Clean(c.frame), Egress(c, x))]
         else []
  }

  ghost predicate NodeOk(c: Scene, s: State, stages: Stages, x: nat)
    requires SceneOk(c) && Fits(c.net, s) && x < |s.nodes| == |stages|
  {
    var stage := stages[x];
    && s.nodes[x].numPorts == c.net.ports[x] && s.nodes[x].enabled == Online(c.net, x)
    && QueueOk(c, s.nodes[x].queue, x, stage)
    && s.submitted[x] == (if x in c.up && stage >= 3 then [Marked(c, x)] else [])
    && stage <= 4 && (x == c.origin ==> stage >= 3) && (!InTree(c.origin, c.up, x) ==> stage == 0)
  }

  /** What is on the link that leads to node `x`. */
  ghost predicate LinkTo(c: Scene, s: State, stages: Stages, x: nat)
    requires SceneOk(c) && Fits(c.net, s) && |stages| == |s.nodes| && x in c.up
  {
    var d := Down(c, x);
    && s.wires[d] == (if stages[x] == 1 then [Carried(c, d)] else [])
    && (d in s.crossed <==> stages[x] >= 2)
    && (stages[x] >= 1 <==> stages[d.node] == 4)
  }

  ghost predicate NodesOk(c: Scene, s: State, stages: Stages)
    requires SceneOk(c) && Fits(c.net, s) && |s.nodes| == |stages|
  {
    forall x {:trigger NodeOk(c, s, stages, x)} :: 0 <= x < |stages| ==> NodeOk(c, s, stages, x)
  }

  ghost predicate LinksOk(c: Scene, s: State, stages: Stages)
    requires SceneOk(c) && Fits(c.net, s) && |s.nodes| == |stages|
  {
    forall x {:trigger LinkTo(c, s, stages, x)} :: x in c.up ==> LinkTo(c, s, stages, x)
  }

  /** Nothing goes towards the origin, and no link is crossed twice. */
  ghost predicate OneWay(c: Scene, s: State)
    requires SceneOk(c) && Fits(c.net, s)
  {
    && (forall e :: e in c.net.peer && !IsUp(c.up, c.net.peer[e]) ==> s.wires[e] == [])
    && (forall e :: e in s.crossed ==> e in c.net.peer && IsUp(c.up, c.net.peer[e]))
    && (forall i, j :: 0 <= i < j < |s.crossed| ==> s.crossed[i] != s.crossed[j])
  }

  ghost predicate Inv(c: Scene, s: State, stages: Stages)
    requires SceneOk(c)
  {
    && Fits(c.net, s) && |stages| == |s.nodes|
    && NodesOk(c, s, stages) && LinksOk(c, s, stages) && OneWay(c, s)
  }

  // ----- facts about the scene -----

  lemma {:induction false} OnlineIs(net: Net, x: nat, i: nat)
    requires Wired(net)
    ensures i in Online(net, x) <==> End(x, i + 1) in net.peer
    ensures i in Online(net, x) ==> x < |net.ports| && i < net.ports[x]
  {
    if End(x, i + 1) in net.peer {
      assert PositionOf(net, End(x, i + 1)) == i;
    }
  }

  /** Different nodes are reached over different links. */
  lemma {:induction false} DownLinksDiffer(c: Scene, x: nat, y: nat)
    requires SceneOk(c) && x in c.up && y in c.up && x != y
    ensures Down(c, x) != Down(c, y)
  {
    assert c.net.peer[Down(c, x)] == c.up[x] && c.net.peer[Down(c, y)] == c.up[y];
  }

  /** The port towards a child is not the port towards the origin. */
  lemma {:induction false} DownIsNotUp(c: Scene, x: nat, y: nat)
    requires SceneOk(c) && x in c.up && y in c.up
    ensures Down(c, y) in c.net.peer && Down(c, y) != c.up[x]
  {
    assert LinkOk(c.net, c.up, c.up[y]);
    assert Down(c, y) in c.net.peer;
  }

  lemma {:induction false} CleanKeepsHeaders(f: Frame)
    requires HasHeaders(f)
    ensures HasHeaders(Clean(f)) && (IsIpv6(f) <==> IsIpv6(Clean(f))) && Clean(Clean(f)) == Clean(f)
    ensures ToGlobalMulticast(f) <==> ToGlobalMulticast(Clean(f))
  {
  }

  // ----- a frame arrives -----

  lemma {:induction false} ArrivesAtChild(c: Scene, s: State, stages: Stages, e: End) returns (x: nat)
    requires SceneOk(c) && Inv(c, s, stages) && Enabled(c.net, s, Arrive(e))
    ensures x in c.up && x < |stages| && stages[x] == 1 && c.net.peer[e] == c.up[x] && Down(c, x) == e
    ensures s.wires[e] == [Carried(c, e)] && e !in s.crossed
  {
    x := c.net.peer[e].node;
    PeerOfPeer(c.net, e);
    assert IsUp(c.up, c.net.peer[e]);
    assert LinkTo(c, s, stages, x);
  }

  ghost predicate Arriving(c: Scene, s: State, stages: Stages, e: End, x: nat)
    requires SceneOk(c)
  {
    && Fits(c.net, s) && |stages| == |s.nodes| && e in s.wires && s.wires[e] == [Carried(c, e)] && e !in s.crossed
    && x in c.up && c.net.peer[e] == c.up[x] && Down(c, x) == e && stages[x] == 1
  }

  ghost predicate Arrived(c: Scene, s: State, s': State, e: End, x: nat)
    requires SceneOk(c) && x in c.up
  {
    && |s'.nodes| == |s.nodes| && x < |s.nodes| && s'.nodes[x].numPorts == s.nodes[x].numPorts
    && s'.nodes[x].enabled == s.nodes[x].enabled
    && s'.nodes[x].queue == [Rx(Carried(c, e), {PortIn(c, x) - 1})]
    && (forall y :: 0 <= y < |s.nodes| && y != x ==> s'.nodes[y] == s.nodes[y])
    && s'.wires == s.wires[e := []] && s'.submitted == s.submitted && s'.crossed == s.crossed + [e]
  }

  lemma {:induction false} ArriveEffect(c: Scene, s: State, stages: Stages, e: End, x: nat)
    requires SceneOk(c) && Arriving(c, s, stages, e, x) && x < |stages| && NodeOk(c, s, stages, x)
    ensures Arrived(c, s, DoArrive(c.net, s, e), e, x)
  {
    assert s.nodes[x].queue == [];
    assert s.wires[e][1..] == [];
  }

  lemma {:induction false} ArriveKeepsNode(c: Scene, s: State, s': State, stages: Stages, e: End, x: nat, y: nat)
    requires SceneOk(c) && Arriving(c, s, stages, e, x) && Arrived(c, s, s', e, x) && Fits(c.net, s')
    requires y < |stages| && NodeOk(c, s, stages, x) && NodeOk(c, s, stages, y)
    ensures NodeOk(c, s', stages[x := 2], y)
  {
  }

  lemma {:induction false} ArriveKeepsLink(c: Scene, s: State, s': State, stages: Stages, e: End, x: nat, y: nat)
    requires SceneOk(c) && Arriving(c, s, stages, e, x) && Arrived(c, s, s', e, x) && Fits(c.net, s')
    requires y in c.up && LinkTo(c, s, stages, y)
    ensures LinkTo(c, s', stages[x := 2], y)
  {
    if y != x {
      DownLinksDiffer(c, x, y);
    }
  }

  lemma {:induction false} ArriveKeepsOneWay(c: Scene, s: State, s': State, stages: Stages, e: End, x: nat)
    requires SceneOk(c) && Arriving(c, s, stages, e, x) && Arrived(c, s, s', e, x) && Fits(c.net, s') && OneWay(c, s)
    ensures OneWay(c, s')
  {
  }

  lemma {:induction false} ArriveKeepsAll(c: Scene, s: State, s': State, stages: Stages, e: End, x: nat)
    requires SceneOk(c) && Inv(c, s, stages) && Fits(c.net, s')
    requires Arriving(c, s, stages, e, x) && Arrived(c, s, s', e, x)
    ensures Inv(c, s', stages[x := 2])
  {
    assert NodeOk(c, s, stages, x);
    var stages' := stages[x := 2];
    forall y: nat | y < |stages|
      ensures NodeOk(c, s', stages', y)
    {
      assert NodeOk(c, s, stages, y);
      ArriveKeepsNode(c, s, s', stages, e, x, y);
    }
    forall y | y in c.up
      ensures LinkTo(c, s', stages', y)
    {
      assert LinkTo(c, s, stages, y);
      ArriveKeepsLink(c, s, s', stages, e, x, y);
    }
    ArriveKeepsOneWay(c, s, s', stages, e, x);
  }

  lemma {:induction false} ArriveKeeps(c: Scene, s: State, stages: Stages, e: End) returns (stages': Stages)
    requires SceneOk(c) && Inv(c, s, stages) && Enabled(c.net, s, Arrive(e))
    ensures Inv(c, DoArrive(c.net, s, e), stages') && Advances(stages, stages')
  {
    var x := ArrivesAtChild(c, s, stages, e);
    stages' := stages[x := 2];
    assert NodeOk(c, s, stages, x);
    ArriveEffect(c, s, stages, e, x);
    ArriveKeepsAll(c, s, DoArrive(c.net, s, e), stages, e, x);
    assert stages'[x] > stages[x];
  }

  ghost predicate Advances(a: Stages, b: Stages) {
    && |a| == |b|
    && (forall i :: 0 <= i < |a| ==> a[i] <= b[i])
    && (exists i :: 0 <= i < |a| && a[i] < b[i])
  }

  // ----- a node works on its queue -----

  lemma {:induction false} FramesOnFirst(f: Frame, first: nat, rest: seq<nat>, port: nat)
    ensures FramesOn(Copies(f, [first] + rest), port) ==
            (if first == port then [f] else []) + FramesOn(Copies(f, rest), port)
  {
    assert Copies(f, [first] + rest)[1..] == Copies(f, rest);
  }

  lemma {:induction false} FramesOnPorts(f: Frame, ports: seq<nat>, port: nat)
    requires forall j, k :: 0 <= j < k < |ports| ==> ports[j] < ports[k]
    ensures FramesOn(Copies(f, ports), port) == if port in ports then [f] else []
    decreases |ports|
  {
    if ports != [] {
      var rest := ports[1..];
      assert ports == [ports[0]] + rest;
      FramesOnPorts(f, rest, port);
      FramesOnFirst(f, ports[0], rest, port);
    }
  }

  lemma {:induction false} FramesOnCopies(f: Frame, mask: PortMask, n: nat, port: nat)
    requires n <= L2Policy.MAX_PORTS
    ensures FramesOn(Copies(f, PortsOf(mask, 0, n)), port) == if 0 < port <= n && port - 1 in mask then [f] else []
  {
    PortsOfMask(mask, 0, n);
    FramesOnPorts(f, PortsOf(mask, 0, n), port);
  }

  lemma {:induction false} ForwardMask(c: Scene, x: nat)
    requires SceneOk(c) && x in c.up
    ensures c.net.ports[x] <= L2Policy.MAX_PORTS && PortIn(c, x) <= L2Policy.MAX_PORTS
    ensures (AllPorts(c.net.ports[x]) - {PortIn(c, x) - 1}) * Online(c.net, x) == Egress(c, x)
  {
    forall i | i in Online(c.net, x)
      ensures i in AllPorts(c.net.ports[x])
    {
      OnlineIs(c.net, x, i);
    }
  }

  /** What node `x` makes of the frame that reaches it, whatever its routing callback says. */
  lemma {:induction false} RxOutcome(c: Scene, n: Node, x: nat, routing: Option<Route>)
    requires SceneOk(c) && x in c.up && n == Node(c.net.ports[x], Online(c.net, x), [])
    ensures n.numPorts <= L2Policy.MAX_PORTS
    ensures ProcessRx(n, Carried(c, Down(c, x)), {PortIn(c, x) - 1}, routing, true) ==
            Outcome(if AllPorts(n.numPorts) == {PortIn(c, x) - 1} then n else n.(queue := [Tx(Clean(c.frame), Egress(c, x))]),
                    [], [Marked(c, x)])
  {
    var port := PortIn(c, x);
    var f := Carried(c, Down(c, x));
    ForwardMask(c, x);
    FindsOnlyBit(port - 1, 0);
    CleanKeepsHeaders(c.frame);
    ForwardedCopyForgetsPorts(f, {port - 1});
    assert RxFrame(f, {port - 1}) == Marked(c, x);
    assert port - 1 in AllPorts(n.numPorts);
    assert AllPorts(n.numPorts) - {port - 1} == {} <==> AllPorts(n.numPorts) == {port - 1};
  }

  /** A node with one port only has nobody to forward to. */
  lemma {:induction false} OnePortNoEgress(c: Scene, x: nat)
    requires SceneOk(c) && x in c.up && c.net.ports[x] <= L2Policy.MAX_PORTS
    requires AllPorts(c.net.ports[x]) == {PortIn(c, x) - 1}
    ensures forall y | y in c.up :: Down(c, y).node != x
  {
    forall y | y in c.up
      ensures Down(c, y).node != x
    {
      var d := Down(c, y);
      DownIsNotUp(c, x, y);
      assert d.port - 1 in AllPorts(c.net.ports[d.node]);
    }
  }

  ghost function AfterRx(c: Scene, stages: Stages, x: nat): Stages
    requires SceneOk(c) && x < |stages| && x in c.up && c.net.ports[x] <= L2Policy.MAX_PORTS
  {
    stages[x := if AllPorts(c.net.ports[x]) == {PortIn(c, x) - 1} then 4 else 3]
  }

  ghost predicate Submits(c: Scene, s: State, s': State, x: nat)
    requires SceneOk(c) && x in c.up && c.net.ports[x] <= L2Policy.MAX_PORTS
  {
    && |s'.nodes| == |s.nodes| == |s.submitted| == |s'.submitted| && x < |s.nodes|
    && s'.nodes[x].numPorts == s.nodes[x].numPorts && s'.nodes[x].enabled == s.nodes[x].enabled
    && s'.nodes[x].queue == (if AllPorts(c.net.ports[x]) == {PortIn(c, x) - 1} then [] else [Tx(Clean(c.frame), Egress(c, x))])
    && s'.submitted[x] == s.submitted[x] + [Marked(c, x)]
    && (forall y :: 0 <= y < |s.nodes| && y != x ==> s'.nodes[y] == s.nodes[y] && s'.submitted[y] == s.submitted[y])
    && s'.wires == s.wires && s'.crossed == s.crossed
  }

  lemma {:induction false} RxEffect(c: Scene, s: State, stages: Stages, x: nat, routing: Option<Route>)
    requires SceneOk(c) && Fits(c.net, s) && x < |s.nodes| == |stages| && x in c.up
    requires NodeOk(c, s, stages, x) && stages[x] == 2
    ensures CanHandle(s.nodes[x]) && c.net.ports[x] <= L2Policy.MAX_PORTS
    ensures Submits(c, s, DoWork(c.net, s, x, routing), x)
  {
    var n := s.nodes[x];
    var rest := Node(c.net.ports[x], Online(c.net, x), []);
    assert n.(queue := n.queue[1..]) == rest;
    RxOutcome(c, rest, x, routing);
    SilentOutcome(c, s, x, Handle(n, routing, true));
  }

  lemma {:induction false} SilentOutcome(c: Scene, s: State, x: nat, out: Outcome)
    requires SceneOk(c) && Fits(c.net, s) && x < |s.nodes| && x in c.up && c.net.ports[x] <= L2Policy.MAX_PORTS
    requires out.sent == [] && out.submitted == [Marked(c, x)]
    requires out.node == s.nodes[x].(queue := if AllPorts(c.net.ports[x]) == {PortIn(c, x) - 1} then []
                                              else [Tx(Clean(c.frame), Egress(c, x))])
    ensures Submits(c, s, Apply(s, x, out), x)
  {
    var s' := Apply(s, x, out);
    forall e | e in s.wires
      ensures s'.wires[e] == s.wires[e]
    {
      assert FramesOn(out.sent, e.port) == [];
    }
  }

  lemma {:induction false} RxKeepsNode(c: Scene, s: State, s': State, stages: Stages, x: nat, y: nat)
    requires SceneOk(c) && Fits(c.net, s) && Fits(c.net, s') && x < |s.nodes| == |stages| && x in c.up && y < |stages|
    requires NodeOk(c, s, stages, x) && NodeOk(c, s, stages, y) && stages[x] == 2
    requires c.net.ports[x] <= L2Policy.MAX_PORTS && Submits(c, s, s', x)
    ensures NodeOk(c, s', AfterRx(c, stages, x), y)
  {
  }

  lemma {:induction false} RxKeepsLink(c: Scene, s: State, s': State, stages: Stages, x: nat, y: nat)
    requires SceneOk(c) && Fits(c.net, s) && Fits(c.net, s') && x < |s.nodes| == |stages| && x in c.up && y in c.up
    requires stages[x] == 2 && LinkTo(c, s, stages, y)
    requires c.net.ports[x] <= L2Policy.MAX_PORTS && Submits(c, s, s', x)
    ensures LinkTo(c, s', AfterRx(c, stages, x), y)
  {
    if AllPorts(c.net.ports[x]) == {PortIn(c, x) - 1} {
      OnePortNoEgress(c, x);
    }
  }

  lemma {:induction false} RxKeepsAll(c: Scene, s: State, s': State, stages: Stages, x: nat)
    requires SceneOk(c) && Inv(c, s, stages) && Fits(c.net, s') && x < |stages| && stages[x] == 2 && x in c.up
    requires c.net.ports[x] <= L2Policy.MAX_PORTS && Submits(c, s, s', x)
    ensures Inv(c, s', AfterRx(c, stages, x))
  {
    var stages' := AfterRx(c, stages, x);
    assert NodeOk(c, s, stages, x);
    forall y: nat | y < |stages|
      ensures NodeOk(c, s', stages', y)
    {
      assert NodeOk(c, s, stages, y);
      RxKeepsNode(c, s, s', stages, x, y);
    }
    forall y | y in c.up
      ensures LinkTo(c, s', stages', y)
    {
      assert LinkTo(c, s, stages, y);
      RxKeepsLink(c, s, s', stages, x, y);
    }
  }

  lemma {:induction false} RxKeeps(c: Scene, s: State, stages: Stages, x: nat, routing: Option<Route>) returns (stages': Stages)
    requires SceneOk(c) && Inv(c, s, stages) && x < |stages| && stages[x] == 2 && x in c.up
    ensures CanHandle(s.nodes[x]) && Inv(c, DoWork(c.net, s, x, routing), stages') && Advances(stages, stages')
  {
    assert NodeOk(c, s, stages, x);
    RxEffect(c, s, stages, x, routing);
    stages' := AfterRx(c, stages, x);
    RxKeepsAll(c, s, DoWork(c.net, s, x, routing), stages, x);
    assert stages'[x] > stages[x];
  }

  // ----- a node sends its copies -----

  function Outgoing(c: Scene, x: nat): Frame
    requires HasAddresses(c.frame)
  {
    if x == c.origin then c.frame else Clean(c.frame)
  }

  /** Node `x` is done, and a frame is on the wire to each of its children. */
  ghost function AfterTx(c: Scene, stages: Stages, x: nat): Stages
    requires SceneOk(c)
  {
    seq(|stages|, y requires 0 <= y < |stages| =>
      if y == x then 4 else if y in c.up && Down(c, y).node == x then 1 else stages[y])
  }

  ghost predicate Sends(c: Scene, s: State, s': State, x: nat)
    requires SceneOk(c) && Fits(c.net, s)
  {
    && |s'.nodes| == |s.nodes| && x < |s.nodes| && s'.submitted == s.submitted && s'.crossed == s.crossed
    && s'.nodes == s.nodes[x := s.nodes[x].(queue := [])]
    && s'.wires.Keys == s.wires.Keys
    && (forall e :: e in s.wires ==>
          s'.wires[e] == s.wires[e] + (if e.node == x && IsUp(c.up, c.net.peer[e]) then [Outgoing(c, x)] else []))
  }

  /** The ends at node `x` that get a copy are those that lead to its children. */
  lemma {:induction false} EgressIsDown(c: Scene, x: nat, e: End)
    requires SceneOk(c) && InTree(c.origin, c.up, x) && e in c.net.peer && e.node == x
    ensures c.net.peer[e] in c.net.peer && x < |c.net.ports|
    ensures 0 < e.port <= c.net.ports[x] && e.port - 1 in Egress(c, x) <==> IsUp(c.up, c.net.peer[e])
  {
    PeerOfPeer(c.net, e);
    assert LinkOk(c.net, c.up, e);
    OnlineIs(c.net, x, e.port - 1);
    if x in c.up {
      assert c.up[x] == End(x, PortIn(c, x));
    }
  }

  lemma {:induction false} TxOutcome(c: Scene, s: State, stages: Stages, x: nat, routing: Option<Route>)
    requires SceneOk(c) && Fits(c.net, s) && x < |s.nodes| == |stages| && InTree(c.origin, c.up, x)
    requires NodeOk(c, s, stages, x) && stages[x] == 3
    ensures CanHandle(s.nodes[x]) && c.net.ports[x] <= L2Policy.MAX_PORTS
    ensures Handle(s.nodes[x], routing, true) ==
            Outcome(s.nodes[x].(queue := []), Copies(Outgoing(c, x), PortsOf(Egress(c, x), 0, c.net.ports[x])), [])
  {
    CleanKeepsHeaders(c.frame);
    assert s.nodes[x].queue == [Tx(Outgoing(c, x), Egress(c, x))] && s.nodes[x].queue[1..] == [];
    assert c.net.ports[x] <= L2Policy.MAX_PORTS;
  }

  lemma {:induction false} CopiesGoDown(c: Scene, s: State, x: nat, out: Outcome)
    requires SceneOk(c) && Fits(c.net, s) && x < |s.nodes| && InTree(c.origin, c.up, x)
    requires c.net.ports[x] <= L2Policy.MAX_PORTS && out.node == s.nodes[x].(queue := []) && out.submitted == []
    requires out.sent == Copies(Outgoing(c, x), PortsOf(Egress(c, x), 0, c.net.ports[x]))
    ensures Sends(c, s, Apply(s, x, out), x)
  {
    var s' := Apply(s, x, out);
    assert s.submitted[x] + [] == s.submitted[x] && s'.submitted == s.submitted;
    forall e | e in s.wires
      ensures s'.wires[e] == s.wires[e] + (if e.node == x && IsUp(c.up, c.net.peer[e]) then [Outgoing(c, x)] else [])
    {
      if e.node == x {
        EgressIsDown(c, x, e);
        FramesOnCopies(Outgoing(c, x), Egress(c, x), c.net.ports[x], e.port);
      }
    }
  }

  lemma {:induction false} TxKeepsNode(c: Scene, s: State, s': State, stages: Stages, x: nat, y: nat)
    requires SceneOk(c) && Inv(c, s, stages) && Fits(c.net, s') && x < |stages| && y < |stages|
    requires InTree(c.origin, c.up, x) && stages[x] == 3 && Sends(c, s, s', x)
    ensures NodeOk(c, s', AfterTx(c, stages, x), y)
  {
    assert NodeOk(c, s, stages, x) && NodeOk(c, s, stages, y);
    if y in c.up {
      assert LinkTo(c, s, stages, y);
    }
  }

  /** While node `x` is not done, its children wait. */
  lemma {:induction false} ChildrenWait(c: Scene, s: State, stages: Stages, x: nat, y: nat)
    requires SceneOk(c) && Inv(c, s, stages) && x < |stages| && stages[x] == 3 && y in c.up && Down(c, y).node == x
    ensures stages[y] == 0 && y != x
  {
    assert LinkTo(c, s, stages, y);
  }

  lemma {:induction false} TxStages(c: Scene, s: State, stages: Stages, x: nat, y: nat)
    requires SceneOk(c) && Inv(c, s, stages) && x < |stages| && stages[x] == 3 && y in c.up
    ensures y < |stages| && Down(c, y).node < |stages|
    ensures var after := AfterTx(c, stages, x);
      && (after[y] >= 1 <==> after[Down(c, y).node] == 4) && (after[y] >= 2 <==> stages[y] >= 2)
      && (after[y] == 1 <==> stages[y] == 1 || Down(c, y).node == x)
    ensures Down(c, y).node == x ==> stages[y] == 0
  {
    var d := Down(c, y);
    assert LinkTo(c, s, stages, y);
    if d.node == x {
      ChildrenWait(c, s, stages, x, y);
    } else if d.node in c.up && Down(c, d.node).node == x {
      ChildrenWait(c, s, stages, x, d.node);
    }
  }

  lemma {:induction false} TxKeepsLink(c: Scene, s: State, s': State, stages: Stages, x: nat, y: nat)
    requires SceneOk(c) && Inv(c, s, stages) && Fits(c.net, s') && x < |stages| && y in c.up
    requires InTree(c.origin, c.up, x) && stages[x] == 3 && Sends(c, s, s', x)
    ensures LinkTo(c, s', AfterTx(c, stages, x), y)
  {
    TxStages(c, s, stages, x, y);
    assert LinkTo(c, s, stages, y);
    var d := Down(c, y);
    assert s'.wires[d] == s.wires[d] + (if d.node == x then [Outgoing(c, x)] else []);
  }

  lemma {:induction false} TxKeepsOneWay(c: Scene, s: State, s': State, x: nat)
    requires SceneOk(c) && Fits(c.net, s) && OneWay(c, s) && Fits(c.net, s') && Sends(c, s, s', x)
    ensures OneWay(c, s')
  {
  }

  lemma {:induction false} TxKeepsAll(c: Scene, s: State, s': State, stages: Stages, x: nat)
    requires SceneOk(c) && Inv(c, s, stages) && Fits(c.net, s') && x < |stages|
    requires InTree(c.origin, c.up, x) && stages[x] == 3 && Sends(c, s, s', x)
    ensures Inv(c, s', AfterTx(c, stages, x))
  {
    var stages' := AfterTx(c, stages, x);
    forall y: nat | y < |stages|
      ensures NodeOk(c, s', stages', y)
    {
      TxKeepsNode(c, s, s', stages, x, y);
    }
    forall y | y in c.up
      ensures LinkTo(c, s', stages', y)
    {
      TxKeepsLink(c, s, s', stages, x, y);
    }
    TxKeepsOneWay(c, s, s', x);
  }

  lemma {:induction false} TxAdvances(c: Scene, s: State, stages: Stages, x: nat)
    requires SceneOk(c) && Inv(c, s, stages) && x < |stages| && stages[x] == 3
    ensures Advances(stages, AfterTx(c, stages, x))
  {
    var stages' := AfterTx(c, stages, x);
    forall y | 0 <= y < |stages|
      ensures stages[y] <= stages'[y]
    {
      if y != x && y in c.up && Down(c, y).node == x {
        ChildrenWait(c, s, stages, x, y);
      }
    }
    assert stages[x] < stages'[x];
  }

  lemma {:induction false} TxKeeps(c: Scene, s: State, stages: Stages, x: nat, routing: Option<Route>) returns (stages': Stages)
    requires SceneOk(c) && Inv(c, s, stages) && x < |stages| && InTree(c.origin, c.up, x) && stages[x] == 3
    ensures CanHandle(s.nodes[x]) && Inv(c, DoWork(c.net, s, x, routing), stages') && Advances(stages, stages')
  {
    assert NodeOk(c, s, stages, x);
    TxOutcome(c, s, stages, x, routing);
    CopiesGoDown(c, s, x, Handle(s.nodes[x], routing, true));
    stages' := AfterTx(c, stages, x);
    TxKeepsAll(c, s, DoWork(c.net, s, x, routing), stages, x);
    TxAdvances(c, s, stages, x);
  }
}
