/** Every run of the flood ends, crosses each link once, and reaches every node once. */
module FloodTheorem {
  import opened Bytes
  import opened L2Policy
  import opened L2Stamp
  import opened L2Model
  import opened Wiring
  import opened Flood

  ghost function Next(net: Net, s: State, a: Action): State
    requires Wired(net) && Fits(net, s) && Enabled(net, s, a)
  {
    match a
    case Arrive(e) => DoArrive(net, s, e)
    case Work(x, routing) => if CanHandle(s.nodes[x]) then DoWork(net, s, x, routing) else s
  }

  /** Each action in turn finds something to do. */
  ghost predicate IsRun(net: Net, s: State, actions: seq<Action>)
    requires Wired(net)
    decreases |actions|
  {
    Fits(net, s) && (actions == [] || (Enabled(net, s, actions[0]) && IsRun(net, Next(net, s, actions[0]), actions[1..])))
  }

  ghost function Exec(net: Net, s: State, actions: seq<Action>): State
    requires Wired(net) && IsRun(net, s, actions)
    decreases |actions|
  {
    if actions == [] then s else Exec(net, Next(net, s, actions[0]), actions[1..])
  }

  // ----- counting stages -----

  function Total(stages: Stages): nat
    decreases |stages|
  {
    if stages == [] then 0 else stages[0] + Total(stages[1..])
  }

  lemma {:induction false} TotalOrder(a: Stages, b: Stages)
    requires |a| == |b| && forall i :: 0 <= i < |a| ==> a[i] <= b[i]
    ensures Total(a) <= Total(b) && (Advances(a, b) ==> Total(a) < Total(b))
    decreases |a|
  {
    if a != [] {
      TotalOrder(a[1..], b[1..]);
      if i :| 0 < i < |a| && a[i] < b[i] {
        assert a[1..][i - 1] < b[1..][i - 1];
      }
    }
  }

  lemma {:induction false} TotalBound(a: Stages)
    requires forall i :: 0 <= i < |a| ==> a[i] <= 4
    ensures Total(a) <= 4 * |a|
    decreases |a|
  {
    if a != [] {
      TotalBound(a[1..]);
    }
  }

  // ----- runs -----

  lemma {:induction false} StepKeeps(c: Scene, s: State, stages: Stages, a: Action) returns (stages': Stages)
    requires SceneOk(c) && Inv(c, s, stages) && Enabled(c.net, s, a)
    ensures Inv(c, Next(c.net, s, a), stages') && Advances(stages, stages')
  {
    match a {
      case Arrive(e) =>
        stages' := ArriveKeeps(c, s, stages, e);
      case Work(x, routing) =>
        assert NodeOk(c, s, stages, x);
        if stages[x] == 2 {
          stages' := RxKeeps(c, s, stages, x, routing);
        } else {
          stages' := TxKeeps(c, s, stages, x, routing);
        }
    }
  }

  lemma {:induction false} RunKeeps(c: Scene, s: State, stages: Stages, actions: seq<Action>) returns (stages': Stages)
    requires SceneOk(c) && Inv(c, s, stages) && IsRun(c.net, s, actions)
    ensures Inv(c, Exec(c.net, s, actions), stages') && Total(stages) + |actions| <= Total(stages')
    decreases |actions|
  {
    if actions == [] {
      stages' := stages;
    } else {
      var stages1 := StepKeeps(c, s, stages, actions[0]);
      TotalOrder(stages, stages1);
      stages' := RunKeeps(c, Next(c.net, s, actions[0]), stages1, actions[1..]);
    }
  }

  lemma {:induction false} StartInv(c: Scene) returns (stages: Stages)
    requires SceneOk(c)
    ensures Inv(c, Start(c.net, c.origin, c.frame), stages)
  {
    var s := Start(c.net, c.origin, c.frame);
    stages := seq(|c.net.ports|, i => if i == c.origin then 3 else 0);
    forall x: nat | x < |s.nodes|
      ensures NodeOk(c, s, stages, x)
    {
      if x == c.origin {
        AllOnline(c.net, x);
        assert Egress(c, x) == Online(c.net, x);
      }
    }
    forall x | x in c.up
      ensures LinkTo(c, s, stages, x)
    {
      assert c.up[x] == End(x, PortIn(c, x));
    }
  }

  lemma {:induction false} AllOnline(net: Net, x: nat)
    requires Wired(net) && x < |net.ports|
    ensures AllPorts(net.ports[x]) * Online(net, x) == Online(net, x)
  {
    forall i | i in Online(net, x)
      ensures i in AllPorts(net.ports[x])
    {
      OnlineIs(net, x, i);
    }
  }

  // ----- when nothing is left to do -----

  ghost predicate Quiet(net: Net, s: State)
    requires Fits(net, s)
  {
    forall a {:trigger Enabled(net, s, a)} :: !Enabled(net, s, a)
  }

  lemma {:induction false} QuietNodeIsDone(c: Scene, s: State, stages: Stages, x: nat)
    requires SceneOk(c) && Inv(c, s, stages) && Quiet(c.net, s) && InTree(c.origin, c.up, x) && x < |stages|
    ensures stages[x] == 0 || stages[x] == 4
  {
    assert NodeOk(c, s, stages, x);
    assert !Enabled(c.net, s, Work(x, None));
    if x in c.up {
      assert LinkTo(c, s, stages, x);
      assert !Enabled(c.net, s, Arrive(Down(c, x)));
    }
  }

  /** Along every walk from the origin, each node is done. */
  lemma {:induction false} WalkIsDone(c: Scene, s: State, stages: Stages, w: seq<End>)
    requires SceneOk(c) && Inv(c, s, stages) && Quiet(c.net, s) && IsWalk(c.net, c.origin, w)
    ensures var x := Finish(c.net, c.origin, w); InTree(c.origin, c.up, x) && x < |stages| && stages[x] == 4
    decreases |w|
  {
    if w == [] {
      assert NodeOk(c, s, stages, c.origin);
      QuietNodeIsDone(c, s, stages, c.origin);
    } else {
      var e := w[|w| - 1];
      var x := c.net.peer[e].node;
      WalkWithoutLast(c.net, c.origin, w);
      WalkIsDone(c, s, stages, w[..|w| - 1]);
      PeerOfPeer(c.net, e);
      PeerOfPeer(c.net, c.net.peer[e]);
      assert LinkOk(c.net, c.up, e);
      if IsUp(c.up, e) {
        assert Down(c, e.node).node == x;
        assert LinkTo(c, s, stages, e.node);
        StageInTree(c, s, stages, x);
      } else {
        assert Down(c, x) == e;
        assert LinkTo(c, s, stages, x);
        QuietNodeIsDone(c, s, stages, x);
      }
    }
  }

  lemma {:induction false} StageInTree(c: Scene, s: State, stages: Stages, x: nat)
    requires SceneOk(c) && Inv(c, s, stages) && x < |stages| && stages[x] > 0
    ensures InTree(c.origin, c.up, x)
  {
    assert NodeOk(c, s, stages, x);
  }

  // ----- the theorems -----

  /**
   `g` is what node `x` may submit: the origin's frame, but with the port it came in on in the upper half of
   the ports byte. The lower half is the origin's next to the origin, and empty elsewhere.
   */
  ghost predicate IsDelivery(net: Net, origin: nat, f: Frame, x: nat, g: Frame)
    requires Wired(net) && HasAddresses(f)
  {
    exists e :: e in net.peer && e.node == x && e.port <= L2Policy.MAX_PORTS
             && g == SetPorts(f, 0x10 * e.port + (if net.peer[e].node == origin then f[IPV6_PORTS_OFFSET] % 0x10 else 0))
  }

  lemma {:induction false} MarkedIsDelivery(c: Scene, x: nat)
    requires SceneOk(c) && x in c.up
    ensures IsDelivery(c.net, c.origin, c.frame, x, Marked(c, x))
  {
    var f, port := Carried(c, Down(c, x)), PortIn(c, x);
    var low := if Down(c, x).node == c.origin then c.frame[IPV6_PORTS_OFFSET] % 0x10 else 0;
    assert f[IPV6_PORTS_OFFSET] % 0x10 == low;
    assert Marked(c, x) == SetPorts(c.frame, 0x10 * port + low);
    assert c.net.peer[c.up[x]] == Down(c, x);
  }

  ghost predicate IsFlood(net: Net, origin: nat, f: Frame) {
    && Wired(net) && Acyclic(net) && origin < |net.ports|
    && HasHeaders(f) && IsIpv6(f) && ToGlobalMulticast(f)
  }

  /** What holds at any time. */
  ghost predicate SoFar(net: Net, origin: nat, f: Frame, s: State)
    requires IsFlood(net, origin, f)
  {
    && Fits(net, s)
    && (forall x :: 0 <= x < |s.nodes| ==> |s.nodes[x].queue| <= 1)
    && (forall x :: 0 <= x < |s.submitted| ==> |s.submitted[x]| <= 1)
    && (forall x :: 0 <= x < |s.submitted| && s.submitted[x] != [] ==>
          x != origin && IsDelivery(net, origin, f, x, s.submitted[x][0]))
    && (forall i, j :: 0 <= i < j < |s.crossed| ==> s.crossed[i] != s.crossed[j])
    && (forall e :: e in s.crossed ==> e in net.peer && net.peer[e] !in s.crossed)
  }

  lemma {:induction false} InvIsSoFar(c: Scene, s: State, stages: Stages)
    requires SceneOk(c) && Inv(c, s, stages) && IsFlood(c.net, c.origin, c.frame)
    ensures SoFar(c.net, c.origin, c.frame, s)
  {
    forall x: nat | x < |s.nodes|
      ensures |s.nodes[x].queue| <= 1 && |s.submitted[x]| <= 1
      ensures s.submitted[x] != [] ==> x != c.origin && IsDelivery(c.net, c.origin, c.frame, x, s.submitted[x][0])
    {
      assert NodeOk(c, s, stages, x);
      if x in c.up {
        MarkedIsDelivery(c, x);
      }
    }
    forall e | e in s.crossed
      ensures e in c.net.peer && c.net.peer[e] !in s.crossed
    {
      PeerOfPeer(c.net, e);
      assert LinkOk(c.net, c.up, c.net.peer[e]);
    }
  }

  /** What holds once nothing is left to do. */
  ghost predicate Flooded(net: Net, origin: nat, s: State)
    requires Wired(net) && Fits(net, s)
  {
    && (forall x :: 0 <= x < |s.submitted| && x != origin ==> (|s.submitted[x]| == 1 <==> Reaches(net, origin, x)))
    && (forall e :: e in net.peer && Reaches(net, origin, e.node) ==>
          net.peer[e] in net.peer && (e in s.crossed <==> net.peer[e] !in s.crossed))
  }

  lemma {:induction false} QuietNodeIsFlooded(c: Scene, s: State, stages: Stages, x: nat)
    requires SceneOk(c) && Inv(c, s, stages) && Quiet(c.net, s) && c.up == UpLinks(c.net, c.origin)
    requires x < |s.submitted| && x != c.origin
    ensures |s.submitted[x]| == 1 <==> Reaches(c.net, c.origin, x)
  {
    assert NodeOk(c, s, stages, x);
    if Reaches(c.net, c.origin, x) {
      WalkIsDone(c, s, stages, Path(c.net, c.origin, x));
    }
  }

  lemma {:induction false} QuietLinkIsCrossed(c: Scene, s: State, stages: Stages, e: End)
    requires SceneOk(c) && Inv(c, s, stages) && Quiet(c.net, s) && Acyclic(c.net) && c.up == UpLinks(c.net, c.origin)
    requires e in c.net.peer && Reaches(c.net, c.origin, e.node)
    ensures c.net.peer[e] in c.net.peer && (e in s.crossed <==> c.net.peer[e] !in s.crossed)
  {
    PeerOfPeer(c.net, e);
    PeerOfPeer(c.net, c.net.peer[e]);
    LinkIsUpForOneEnd(c.net, c.origin, e);
    if IsUp(c.up, e) {
      WalkIsDone(c, s, stages, Path(c.net, c.origin, e.node));
      assert LinkTo(c, s, stages, e.node);
    } else {
      ChildReached(c, e);
      var x := c.net.peer[e].node;
      WalkIsDone(c, s, stages, Path(c.net, c.origin, x));
      assert LinkTo(c, s, stages, x);
    }
  }

  lemma {:induction false} ChildReached(c: Scene, e: End)
    requires SceneOk(c) && c.up == UpLinks(c.net, c.origin) && e in c.net.peer && IsUp(c.up, c.net.peer[e])
    ensures Reaches(c.net, c.origin, c.net.peer[e].node)
  {
  }

  /**
   Flooding on acyclic wiring, under every interleaving of the steps of all nodes: a run takes at most four
   steps for each node; at any time no node has submitted the frame twice, what was submitted is the
   origin's frame but for its ports byte, and no link has been crossed twice; and once nothing is left to do,
   exactly the nodes connected to the origin have submitted it, and each of their links has been crossed.
   */
  lemma {:induction false} FloodReachesEachNodeOnce(net: Net, origin: nat, f: Frame, actions: seq<Action>)
    requires IsFlood(net, origin, f) && IsRun(net, Start(net, origin, f), actions)
    ensures |actions| <= 4 * |net.ports|
    ensures var s := Exec(net, Start(net, origin, f), actions);
      SoFar(net, origin, f, s) && (Quiet(net, s) ==> Flooded(net, origin, s))
  {
    var c := Scene(net, origin, UpLinks(net, origin), f);
    AcyclicIsTree(net, origin);
    var start := StartInv(c);
    var stages := RunKeeps(c, Start(net, origin, f), start, actions);
    var s := Exec(net, Start(net, origin, f), actions);
    InvIsSoFar(c, s, stages);
    forall x: nat | x < |stages|
      ensures stages[x] <= 4
    {
      assert NodeOk(c, s, stages, x);
    }
    TotalBound(stages);
    if Quiet(net, s) {
      forall x: nat | x < |s.submitted| && x != origin
        ensures |s.submitted[x]| == 1 <==> Reaches(net, origin, x)
      {
        QuietNodeIsFlooded(c, s, stages, x);
      }
      forall e | e in net.peer && Reaches(net, origin, e.node)
        ensures net.peer[e] in net.peer && (e in s.crossed <==> net.peer[e] !in s.crossed)
      {
        QuietLinkIsCrossed(c, s, stages, e);
      }
    }
  }
}
