/** How nodes are wired port to port, and what it means that the wiring has no cycle. */
module Wiring {

  const MAX_PORTS := 15

  datatype End = End(node: nat, port: nat)

  /** `peer` gives the other end of every link that is up. */
  datatype Net = Net(ports: seq<nat>, peer: map<End, End>)

  /** Links join two different ports of nodes of the network, and read the same from both ends. */
  ghost predicate EndOk(net: Net, e: End)
    requires e in net.peer
  {
    && e.node < |net.ports| && 1 <= e.port <= net.ports[e.node] <= MAX_PORTS
    && net.peer[e] != e && net.peer[e] in net.peer && net.peer[net.peer[e]] == e
  }

  ghost predicate Wired(net: Net) {
    && (forall i :: 0 <= i < |net.ports| ==> net.ports[i] <= MAX_PORTS)
    && (forall e {:trigger EndOk(net, e)} :: e in net.peer ==> EndOk(net, e))
  }

  lemma {:induction false} PeerOfPeer(net: Net, e: End)
    requires Wired(net) && e in net.peer
    ensures e.node < |net.ports| && 1 <= e.port <= net.ports[e.node] <= MAX_PORTS
    ensures net.peer[e] != e && net.peer[e] in net.peer && net.peer[net.peer[e]] == e
  {
    assert EndOk(net, e);
  }

  // ----- walks -----

  /** One link after another, without turning back. */
  ghost predicate Joins(net: Net, e: End, f: End)
    requires e in net.peer
  {
    f.node == net.peer[e].node && f != net.peer[e]
  }

  /** A walk from node `a` that never goes back over the link it has just come by. */
  ghost predicate IsWalk(net: Net, a: nat, w: seq<End>) {
    && (forall i :: 0 <= i < |w| ==> w[i] in net.peer)
    && (w != [] ==> w[0].node == a)
    && (forall i, j :: 0 <= i < |w| && j == i + 1 && j < |w| ==> Joins(net, w[i], w[j]))
  }

  ghost function Finish(net: Net, a: nat, w: seq<End>): nat
    requires IsWalk(net, a, w)
  {
    if w == [] then a else net.peer[w[|w| - 1]].node
  }

  /** No walk comes back to where it started. */
  ghost predicate Acyclic(net: Net) {
    forall a, w :: IsWalk(net, a, w) && w != [] ==> Finish(net, a, w) != a
  }

  ghost predicate Reaches(net: Net, a: nat, x: nat) {
    exists w :: IsWalk(net, a, w) && Finish(net, a, w) == x
  }

  ghost function Backwards(net: Net, w: seq<End>): (r: seq<End>)
    requires forall i :: 0 <= i < |w| ==> w[i] in net.peer
    ensures |r| == |w| && forall i :: 0 <= i < |w| ==> r[i] == net.peer[w[|w| - 1 - i]]
  {
    seq(|w|, i requires 0 <= i < |w| => net.peer[w[|w| - 1 - i]])
  }

  lemma {:induction false} BackwardsIsWalk(net: Net, a: nat, w: seq<End>)
    requires Wired(net) && IsWalk(net, a, w) && w != []
    ensures IsWalk(net, Finish(net, a, w), Backwards(net, w))
    ensures Finish(net, Finish(net, a, w), Backwards(net, w)) == a
  {
    var r := Backwards(net, w);
    forall i | 0 <= i < |r|
      ensures r[i] in net.peer && net.peer[r[i]] == w[|w| - 1 - i]
    {
      PeerOfPeer(net, w[|w| - 1 - i]);
    }
    forall i, j | 0 <= i < |r| && j == i + 1 && j < |r|
      ensures Joins(net, r[i], r[j])
    {
      assert Joins(net, w[|w| - 1 - j], w[|w| - 1 - i]);
    }
  }

  lemma {:induction false} WalksJoin(net: Net, a: nat, u: seq<End>, v: seq<End>)
    requires IsWalk(net, a, u) && u != [] && IsWalk(net, Finish(net, a, u), v)
    requires v != [] ==> v[0] != net.peer[u[|u| - 1]]
    ensures IsWalk(net, a, u + v) && Finish(net, a, u + v) == Finish(net, Finish(net, a, u), v)
  {
    var w := u + v;
    forall i, j | 0 <= i < |w| && j == i + 1 && j < |w|
      ensures Joins(net, w[i], w[j])
    {
      if j < |u| {
        assert Joins(net, u[i], u[j]);
      } else if i >= |u| {
        assert Joins(net, v[i - |u|], v[j - |u|]);
      }
    }
  }

  lemma {:induction false} WalkWithoutLast(net: Net, a: nat, w: seq<End>)
    requires IsWalk(net, a, w) && w != []
    ensures IsWalk(net, a, w[..|w| - 1]) && Finish(net, a, w[..|w| - 1]) == w[|w| - 1].node
  {
    var v := w[..|w| - 1];
    forall i, j | 0 <= i < |v| && j == i + 1 && j < |v|
      ensures Joins(net, v[i], v[j])
    {
      assert Joins(net, w[i], w[j]);
    }
    if v != [] {
      assert Joins(net, w[|w| - 2], w[|w| - 1]);
    }
  }

  /** In acyclic wiring there is at most one walk between two nodes. */
  lemma {:induction false} WalksAreUnique(net: Net, a: nat, u: seq<End>, v: seq<End>)
    requires Wired(net) && Acyclic(net) && IsWalk(net, a, u) && IsWalk(net, a, v)
    requires Finish(net, a, u) == Finish(net, a, v)
    ensures u == v
    decreases |u|
  {
    if u != [] && v != [] {
      var e, f := u[|u| - 1], v[|v| - 1];
      WalkWithoutLast(net, a, u);
      WalkWithoutLast(net, a, v);
      if e == f {
        WalksAreUnique(net, a, u[..|u| - 1], v[..|v| - 1]);
        assert u == u[..|u| - 1] + [e] && v == v[..|v| - 1] + [f];
      } else {
        BackwardsIsWalk(net, a, v);
        PeerOfPeer(net, e);
        PeerOfPeer(net, f);
        WalksJoin(net, a, u, Backwards(net, v));
        assert false;
      }
    }
  }

  // ----- the tree seen from an origin -----

  /**
   `up` gives every other reachable node its port towards the origin. Every link of a reachable node is
   such a link for exactly one of its ends.
   */
  ghost predicate IsTree(net: Net, origin: nat, up: map<nat, End>) {
    && origin < |net.ports| && origin !in up
    && (forall x :: x in up ==> up[x] in net.peer && up[x].node == x && x < |net.ports|)
    && (forall e {:trigger LinkOk(net, up, e)} :: e in net.peer && InTree(origin, up, e.node) ==> LinkOk(net, up, e))
  }

  ghost predicate InTree(origin: nat, up: map<nat, End>, x: nat) {
    x == origin || x in up
  }

  /** `e` is the port of its node towards the origin. */
  ghost predicate IsUp(up: map<nat, End>, e: End) {
    e.node in up && up[e.node] == e
  }

  ghost predicate LinkOk(net: Net, up: map<nat, End>, e: End)
    requires e in net.peer
  {
    IsUp(up, e) <==> !IsUp(up, net.peer[e])
  }

  ghost function Path(net: Net, a: nat, x: nat): (w: seq<End>)
    requires Reaches(net, a, x)
    ensures IsWalk(net, a, w) && Finish(net, a, w) == x
  {
    var w :| IsWalk(net, a, w) && Finish(net, a, w) == x;
    w
  }

  ghost function UpLink(net: Net, origin: nat, x: nat): (e: End)
    requires Wired(net) && Reaches(net, origin, x) && x != origin
    ensures e in net.peer && e.node == x
  {
    var w := Path(net, origin, x);
    PeerOfPeer(net, w[|w| - 1]);
    net.peer[w[|w| - 1]]
  }

  ghost function UpLinks(net: Net, origin: nat): map<nat, End>
    requires Wired(net)
  {
    map x | 0 <= x < |net.ports| && x != origin && Reaches(net, origin, x) :: UpLink(net, origin, x)
  }

  /** `e` points up when the path to its node comes in by it. */
  ghost predicate EndsPath(net: Net, origin: nat, e: End)
    requires Wired(net) && Reaches(net, origin, e.node)
  {
    var p := Path(net, origin, e.node);
    p != [] && net.peer[p[|p| - 1]] == e
  }

  lemma {:induction false} UpEndsPath(net: Net, origin: nat, e: End)
    requires Wired(net) && Acyclic(net) && e in net.peer && Reaches(net, origin, e.node)
    ensures IsUp(UpLinks(net, origin), e) <==> EndsPath(net, origin, e)
  {
    PeerOfPeer(net, e);
    if Path(net, origin, e.node) != [] {
      assert e.node != origin;
    }
  }

  lemma {:induction false} ParentPath(net: Net, origin: nat, e: End)
    requires Wired(net) && Acyclic(net) && e in net.peer && Reaches(net, origin, e.node) && EndsPath(net, origin, e)
    ensures Reaches(net, origin, net.peer[e].node) && !EndsPath(net, origin, net.peer[e])
  {
    var p := Path(net, origin, e.node);
    var last := p[|p| - 1];
    PeerOfPeer(net, e);
    PeerOfPeer(net, last);
    WalkWithoutLast(net, origin, p);
    var q := Path(net, origin, net.peer[e].node);
    WalksAreUnique(net, origin, q, p[..|p| - 1]);
    if q != [] {
      assert Joins(net, p[|p| - 2], last);
    }
  }

  lemma {:induction false} ChildPath(net: Net, origin: nat, e: End)
    requires Wired(net) && Acyclic(net) && e in net.peer && Reaches(net, origin, e.node) && !EndsPath(net, origin, e)
    ensures Reaches(net, origin, net.peer[e].node) && EndsPath(net, origin, net.peer[e])
  {
    var p, w := Path(net, origin, e.node), [e];
    assert IsWalk(net, e.node, w);
    if p == [] {
      assert IsWalk(net, origin, w);
    } else {
      PeerOfPeer(net, p[|p| - 1]);
      WalksJoin(net, origin, p, w);
      w := p + w;
    }
    WalksAreUnique(net, origin, Path(net, origin, net.peer[e].node), w);
  }

  lemma {:induction false} LinkIsUpForOneEnd(net: Net, origin: nat, e: End)
    requires Wired(net) && Acyclic(net) && e in net.peer && Reaches(net, origin, e.node)
    ensures LinkOk(net, UpLinks(net, origin), e)
  {
    PeerOfPeer(net, e);
    if EndsPath(net, origin, e) {
      ParentPath(net, origin, e);
    } else {
      ChildPath(net, origin, e);
    }
    UpEndsPath(net, origin, e);
    UpEndsPath(net, origin, net.peer[e]);
  }

  /** Acyclic wiring is a tree around every node. */
  lemma {:induction false} AcyclicIsTree(net: Net, origin: nat)
    requires Wired(net) && Acyclic(net) && origin < |net.ports|
    ensures IsTree(net, origin, UpLinks(net, origin))
  {
    var up := UpLinks(net, origin);
    assert IsWalk(net, origin, []);
    assert Finish(net, origin, []) == origin;
    forall e | e in net.peer && InTree(origin, up, e.node)
      ensures LinkOk(net, up, e)
    {
      LinkIsUpForOneEnd(net, origin, e);
    }
  }
}
