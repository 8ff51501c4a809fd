/** The walk on a daisy chain whose nodes all answer: it ends, and the list is the chain. */
module TopologyWalk {
  import opened Bytes
  import opened TopologyModel

  // ----- daisy chains -----

  predicate Lists(t: Table, nodeId: uint64) {
    exists k :: 0 <= k < |t.neighbors| && t.neighbors[k].nodeId == nodeId
  }

  function Degree(n: nat, i: nat): nat {
    (if i > 0 then 1 else 0) + (if i + 1 < n then 1 else 0)
  }

  predicate PortsUp(t: Table) {
    forall k :: 0 <= k < |t.neighbors| ==> t.ports[t.neighbors[k].port - 1]
  }

  /** Node `i` reports exactly the nodes beside it, in any order. */
  predicate Truthful(v: seq<Table>, i: nat)
    requires i < |v|
  {
    && |v[i].neighbors| == Degree(|v|, i) && PortsUp(v[i])
    && (i > 0 ==> Lists(v[i], v[i - 1].nodeId))
    && (i + 1 < |v| ==> Lists(v[i], v[i + 1].nodeId))
  }

  /** The neighbor tables of a line of nodes, in physical order. */
  predicate IsLine(v: seq<Table>) {
    && 1 <= |v| <= MAX_NODES
    && (forall i :: 0 <= i < |v| ==> v[i].nodeId != 0)
    && (forall i {:trigger Truthful(v, i)} :: 0 <= i < |v| ==> Truthful(v, i))
    && (forall i, j :: 0 <= i < j < |v| ==> v[i].nodeId != v[j].nodeId)
  }

  function Reverse(v: seq<Table>): (r: seq<Table>)
    ensures |r| == |v| && forall i :: 0 <= i < |v| ==> r[i] == v[|v| - 1 - i]
  {
    seq(|v|, i requires 0 <= i < |v| => v[|v| - 1 - i])
  }

  lemma {:induction false} ReverseIsLine(v: seq<Table>)
    requires IsLine(v)
    ensures IsLine(Reverse(v))
  {
    var r := Reverse(v);
    forall i | 0 <= i < |r|
      ensures r[i].nodeId != 0 && Truthful(r, i)
    {
      assert r[i] == v[|v| - 1 - i] && Truthful(v, |v| - 1 - i);
    }
  }

  // ----- a network that answers -----

  function TableOf(v: seq<Table>, nodeId: uint64, i: nat): Table
    requires i <= |v|
    decreases |v| - i
  {
    if i == |v| then Table(nodeId, [], []) else if v[i].nodeId == nodeId then v[i] else TableOf(v, nodeId, i + 1)
  }

  lemma {:induction false} TableOfFinds(v: seq<Table>, j: nat, i: nat)
    requires i <= j < |v| && forall k :: i <= k < j ==> v[k].nodeId != v[j].nodeId
    ensures TableOf(v, v[j].nodeId, i) == v[j]
    decreases j - i
  {
    if i < j {
      TableOfFinds(v, j, i + 1);
    }
  }

  function Deliver(s1: Task, v: seq<Table>, asked: bool): Task {
    if asked && s1.requests != [] then Reply(s1, TableOf(v, s1.requests[|s1.requests| - 1], 0), ENV_OK) else s1
  }

  /** The task handles one event; when that sends a request, the node asked for answers at once. */
  function Turn(s: Task, v: seq<Table>, own: Table): Task {
    if !CanProcess(s) then s
    else
      var s1 := Process(s, own, ENV_OK);
      Deliver(s1, v, |s1.requests| > |s.requests|)
  }

  function Network(v: seq<Table>, own: Table): Task -> Task {
    s => Turn(s, v, own)
  }

  function Iterate<T>(f: T -> T, s: T, k: nat): T
    decreases k
  {
    if k == 0 then s else Iterate(f, f(s), k - 1)
  }

  lemma {:induction false} IterateTwice<T>(f: T -> T, s: T, k: nat)
    ensures Iterate(f, s, 2 + k) == Iterate(f, f(f(s)), k)
  {
    assert Iterate(f, s, 2 + k) == Iterate(f, f(s), 1 + k);
  }

  /** `f` is one turn; stated on the side so that proofs about many turns need not look inside one. */
  ghost predicate IsTurn(f: Task -> Task, v: seq<Table>, own: Table) {
    forall s {:trigger Turn(s, v, own)} :: f(s) == Turn(s, v, own)
  }

  lemma {:induction false} NetworkTurns(f: Task -> Task, v: seq<Table>, own: Table)
    requires f == Network(v, own)
    ensures IsTurn(f, v, own)
  {
  }

  lemma {:induction false} TurnSetsOut(s: Task, t: Topo, v: seq<Table>, own: Table)
    requires s.topo == Some(t) && s.queue == [EvCheckNode] && AllPortsExplored(t)
    ensures Turn(s, v, own) ==
            if Cursor(t).isRoot then s.(queue := [EvEnd])
            else s.(topo := Some(if s.insertBefore then MoveNext(t) else MovePrev(t)))
  {
    assert s.queue[1..] == [];
  }

  lemma {:induction false} TurnAsks(s: Task, t: Topo, v: seq<Table>, own: Table, id: uint64)
    requires s.topo == Some(t) && s.queue == [EvCheckNode] && s.sentRequest && !AllPortsExplored(t)
    requires id != 0 && FirstUnknown(t.entries, Cursor(t).table.neighbors, 0) == id
    ensures Turn(s, v, own) ==
            s.(insertBefore := s.insertBefore || (Cursor(t).isRoot && Cursor(t).portsExplored == 1),
               requests := s.requests + [id], retryCount := 0, topo := Some(CountPort(t)),
               queue := [EvAddNode(TableOf(v, id, 0))])
  {
    assert s.queue[1..] == [];
    var s1 := Process(s, own, ENV_OK);
    assert s1 == s.(insertBefore := s.insertBefore || (Cursor(t).isRoot && Cursor(t).portsExplored == 1),
                    requests := s.requests + [id], queue := []);
  }

  lemma {:induction false} TurnAdds(s: Task, t: Topo, v: seq<Table>, own: Table, table: Table)
    requires s.topo == Some(t) && s.queue == [EvAddNode(table)] && !Known(t.entries, table.nodeId)
    requires |t.entries| < MAX_NODES
    ensures Turn(s, v, own) == s.(topo := Some(AddEntry(t, s.insertBefore, table)), queue := [EvCheckNode])
  {
    assert s.queue[1..] == [];
  }

  // ----- the known part of the chain -----

  /** Links of node `i` to other nodes of the segment. */
  function Inner(i: nat, lo: nat, hi: nat): nat {
    (if lo < i then 1 else 0) + (if i + 1 < hi then 1 else 0)
  }

  function Segment(v: seq<Table>, root: nat, lo: nat, hi: nat): (r: seq<Entry>)
    requires lo <= hi <= |v|
    ensures |r| == hi - lo
    ensures forall k :: 0 <= k < hi - lo ==> r[k] == Entry(v[lo + k], lo + k == root, Inner(lo + k, lo, hi))
  {
    seq(hi - lo, k requires 0 <= k < hi - lo => Entry(v[lo + k], lo + k == root, Inner(lo + k, lo, hi)))
  }

  lemma {:induction false} KnownInSegment(v: seq<Table>, root: nat, lo: nat, hi: nat, i: nat)
    requires IsLine(v) && lo <= hi <= |v| && i < |v|
    ensures Known(Segment(v, root, lo, hi), v[i].nodeId) <==> lo <= i < hi
  {
    if lo <= i < hi {
      assert Segment(v, root, lo, hi)[i - lo].table == v[i];
    }
  }

  lemma {:induction false} AllOnline(t: Table, k: nat)
    requires PortsUp(t) && k <= |t.neighbors|
    ensures OnlineCount(t, k) == k
  {
    if k > 0 {
      AllOnline(t, k - 1);
    }
  }

  lemma {:induction false} FindsUnknown(entries: seq<Entry>, neighbors: seq<Neighbor>, k: nat, target: uint64)
    requires k <= |neighbors| && !Known(entries, target)
    requires exists j :: k <= j < |neighbors| && neighbors[j].nodeId == target
    requires forall j :: k <= j < |neighbors| ==> neighbors[j].nodeId == target || Known(entries, neighbors[j].nodeId)
    ensures FirstUnknown(entries, neighbors, k) == target
    decreases |neighbors| - k
  {
    if neighbors[k].nodeId != target {
      FindsUnknown(entries, neighbors, k + 1, target);
    }
  }

  /** The walk is at node `cur` of the segment `lo..hi`, about to check it. */
  predicate At(s: Task, v: seq<Table>, root: nat, lo: nat, hi: nat, cur: nat, insertBefore: bool) {
    && lo <= root < hi <= |v| <= MAX_NODES && lo <= cur < hi
    && s.topo == Some(Topo(Segment(v, root, lo, hi), cur - lo))
    && s.insertBefore == insertBefore && s.sentRequest && s.inProgress
    && s.queue == [EvCheckNode] && s.results == []
  }

  lemma {:induction false} ExploredInSegment(v: seq<Table>, root: nat, lo: nat, hi: nat, cur: nat)
    requires IsLine(v) && lo <= cur < hi <= |v|
    ensures AllPortsExplored(Topo(Segment(v, root, lo, hi), cur - lo)) <==> Inner(cur, lo, hi) == Degree(|v|, cur)
  {
    assert Truthful(v, cur);
    AllOnline(v[cur], |v[cur].neighbors|);
  }

  /** The unknown node beside `cur` is found when it is listed first or when the other one is known. */
  lemma {:induction false} NextUnknown(v: seq<Table>, root: nat, lo: nat, hi: nat, cur: nat, next: nat)
    requires IsLine(v) && lo <= cur < hi <= |v| && next < |v| && !(lo <= next < hi)
    requires next == cur + 1 || next + 1 == cur
    requires v[cur].neighbors != [] && v[cur].neighbors[0].nodeId == v[next].nodeId
    ensures FirstUnknown(Segment(v, root, lo, hi), v[cur].neighbors, 0) == v[next].nodeId
  {
    KnownInSegment(v, root, lo, hi, next);
  }

  /** The neighbors of `cur` are `next` and `other`. */
  lemma {:induction false} TwoNeighbors(v: seq<Table>, cur: nat, k: nat)
    requires IsLine(v) && cur < |v| && k < |v[cur].neighbors|
    ensures (cur > 0 && v[cur].neighbors[k].nodeId == v[cur - 1].nodeId)
         || (cur + 1 < |v| && v[cur].neighbors[k].nodeId == v[cur + 1].nodeId)
  {
    assert Truthful(v, cur);
  }

  lemma {:induction false} OtherKnown(v: seq<Table>, root: nat, lo: nat, hi: nat, cur: nat, next: nat)
    requires IsLine(v) && lo <= cur < hi <= |v| && next < |v| && !(lo <= next < hi)
    requires next == cur + 1 || next + 1 == cur
    requires next == cur + 1 ==> cur == 0 || lo < cur
    requires next + 1 == cur ==> cur + 1 == |v| || cur + 1 < hi
    ensures FirstUnknown(Segment(v, root, lo, hi), v[cur].neighbors, 0) == v[next].nodeId
  {
    var entries, ns := Segment(v, root, lo, hi), v[cur].neighbors;
    KnownInSegment(v, root, lo, hi, next);
    assert Truthful(v, cur);
    forall j | 0 <= j < |ns|
      ensures ns[j].nodeId == v[next].nodeId || Known(entries, ns[j].nodeId)
    {
      TwoNeighbors(v, cur, j);
      if ns[j].nodeId != v[next].nodeId {
        KnownInSegment(v, root, lo, hi, if next > cur then cur - 1 else cur + 1);
      }
    }
    FindsUnknown(entries, ns, 0, v[next].nodeId);
  }

  // ----- one move of the walk -----

  lemma {:induction false} AddsAfter(v: seq<Table>, root: nat, lo: nat, hi: nat)
    requires lo <= root < hi < |v| <= MAX_NODES
    ensures var t := Topo(Segment(v, root, lo, hi), hi - 1 - lo);
      AddEntry(CountPort(t), false, v[hi]) == Topo(Segment(v, root, lo, hi + 1), hi - lo)
  {
    var t := CountPort(Topo(Segment(v, root, lo, hi), hi - 1 - lo));
    var r := AddEntry(t, false, v[hi]);
    assert InsertAfter(t, Entry(v[hi], false, 0)).entries == t.entries + [Entry(v[hi], false, 0)];
    assert r.entries == Segment(v, root, lo, hi + 1);
  }

  lemma {:induction false} AddsBefore(v: seq<Table>, root: nat, lo: nat, hi: nat)
    requires 0 < lo <= root < hi <= |v| <= MAX_NODES
    ensures var t := Topo(Segment(v, root, lo, hi), 0);
      AddEntry(CountPort(t), true, v[lo - 1]) == Topo(Segment(v, root, lo - 1, hi), 0)
  {
    var t := CountPort(Topo(Segment(v, root, lo, hi), 0));
    var r := AddEntry(t, true, v[lo - 1]);
    assert InsertBefore(t, Entry(v[lo - 1], false, 0)).entries == [Entry(v[lo - 1], false, 0)] + t.entries;
    assert r.entries == Segment(v, root, lo - 1, hi);
  }

  predicate FromHereOn(ib: bool, root: nat, lo: nat, hi: nat, cur: nat) {
    ib || (cur == root && Inner(cur, lo, hi) == 1)
  }

  /** The table of node `next` has arrived, and is about to be added beside `cur`. */
  predicate Adding(s: Task, v: seq<Table>, root: nat, lo: nat, hi: nat, cur: nat, ib: bool, next: nat) {
    && lo <= root < hi <= |v| <= MAX_NODES && lo <= cur < hi && next < |v|
    && s.topo == Some(CountPort(Topo(Segment(v, root, lo, hi), cur - lo)))
    && s.insertBefore == ib && s.sentRequest && s.inProgress
    && s.queue == [EvAddNode(v[next])] && s.results == []
  }

  /** A node with unexplored ports asks for the next node. */
  lemma {:induction false} Asks(f: Task -> Task, s: Task, v: seq<Table>, own: Table, root: nat, lo: nat, hi: nat, cur: nat, ib: bool, next: nat)
    requires IsTurn(f, v, own) && IsLine(v) && At(s, v, root, lo, hi, cur, ib) && next < |v|
    requires Inner(cur, lo, hi) != Degree(|v|, cur)
    requires FirstUnknown(Segment(v, root, lo, hi), v[cur].neighbors, 0) == v[next].nodeId
    ensures Adding(f(s), v, root, lo, hi, cur, FromHereOn(ib, root, lo, hi, cur), next)
  {
    ExploredInSegment(v, root, lo, hi, cur);
    TableOfFinds(v, next, 0);
    TurnAsks(s, s.topo.value, v, own, v[next].nodeId);
  }

  lemma {:induction false} Adds(f: Task -> Task, s: Task, v: seq<Table>, own: Table, root: nat, lo: nat, hi: nat, cur: nat, ib: bool, next: nat)
    requires IsTurn(f, v, own) && IsLine(v) && Adding(s, v, root, lo, hi, cur, ib, next) && !(lo <= next < hi)
    requires (!ib && next == cur + 1 == hi) || (ib && next + 1 == cur == lo)
    ensures At(f(s), v, root, if ib then lo - 1 else lo, if ib then hi else hi + 1, next, ib)
  {
    var t := Topo(Segment(v, root, lo, hi), cur - lo);
    KnownInSegment(v, root, lo, hi, next);
    CountKeepsKnown(t, v[next].nodeId);
    if ib {
      AddsBefore(v, root, lo, hi);
    } else {
      AddsAfter(v, root, lo, hi);
    }
    TurnAdds(s, CountPort(t), v, own, v[next]);
  }

  lemma {:induction false} CountKeepsKnown(t: Topo, nodeId: uint64)
    ensures Known(CountPort(t).entries, nodeId) <==> Known(t.entries, nodeId)
  {
    var r := CountPort(t).entries;
    forall i | 0 <= i < |r|
      ensures r[i].table == t.entries[i].table
    {
    }
  }

  /** A node with every port explored hands the cursor back towards the root. */
  lemma {:induction false} GoesBack(f: Task -> Task, s: Task, v: seq<Table>, own: Table, root: nat, lo: nat, hi: nat, cur: nat, ib: bool)
    requires IsTurn(f, v, own) && IsLine(v) && At(s, v, root, lo, hi, cur, ib)
    requires cur != root && Inner(cur, lo, hi) == Degree(|v|, cur)
    requires if ib then cur + 1 < hi else lo < cur
    ensures At(f(s), v, root, lo, hi, if ib then cur + 1 else cur - 1, ib)
  {
    var t := s.topo.value;
    ExploredInSegment(v, root, lo, hi, cur);
    TurnSetsOut(s, t, v, own);
    assert !Cursor(t).isRoot;
    assert f(s) == s.(topo := Some(if ib then MoveNext(t) else MovePrev(t)));
  }

  predicate Finished(s: Task, v: seq<Table>, root: nat) {
    && |v| <= MAX_NODES && !s.inProgress && s.topo == None && s.queue == []
    && s.results == [Some(Segment(v, root, 0, |v|))]
  }

  predicate Ending(s: Task, v: seq<Table>, root: nat) {
    && |v| <= MAX_NODES && root < |v| && s.topo.Some? && s.topo.value.entries == Segment(v, root, 0, |v|)
    && s.queue == [EvEnd] && s.results == []
  }

  lemma {:induction false} StartsEnding(f: Task -> Task, s: Task, v: seq<Table>, own: Table, root: nat, ib: bool)
    requires IsTurn(f, v, own) && IsLine(v) && At(s, v, root, 0, |v|, root, ib)
    ensures Ending(f(s), v, root)
  {
    ExploredInSegment(v, root, 0, |v|, root);
    TurnSetsOut(s, s.topo.value, v, own);
  }

  lemma {:induction false} Ends(f: Task -> Task, s: Task, v: seq<Table>, own: Table, root: nat)
    requires IsTurn(f, v, own) && Ending(s, v, root)
    ensures Finished(f(s), v, root)
  {
    assert f(s) == Turn(s, v, own);
    assert s.queue[1..] == [];
  }

  // ----- the whole walk -----

  /**
   Where the walk can be, when its first step leads to higher positions: outward along that side, back to
   the root, outward along the other side, back to the root again.
   */
  predicate OnCourse(v: seq<Table>, root: nat, lo: nat, hi: nat, cur: nat, ib: bool) {
    if !ib then lo == root && (cur + 1 == hi || hi == |v|) else hi == |v| && cur <= root && (cur == lo || lo == 0)
  }

  function StepsLeft(v: seq<Table>, root: nat, lo: nat, hi: nat, cur: nat, ib: bool): int {
    if !ib then
      3 * |v| + (if hi < |v| then 2 * (|v| - hi) + |v| else cur) - root
    else 2 * lo + root - cur
  }

  lemma {:induction false} FindsNext(v: seq<Table>, root: nat, lo: nat, hi: nat, cur: nat, ib: bool)
    requires IsLine(v) && lo <= root < hi <= |v| && lo <= cur < hi && OnCourse(v, root, lo, hi, cur, ib)
    requires |v| > 1 ==> root + 1 < |v| && v[root].neighbors != [] && v[root].neighbors[0].nodeId == v[root + 1].nodeId
    requires Inner(cur, lo, hi) != Degree(|v|, cur)
    ensures var ib' := FromHereOn(ib, root, lo, hi, cur);
      var next := if ib' then cur - 1 else cur + 1;
      && (if ib' then cur == lo && 0 < lo && hi == |v| else cur + 1 == hi && hi < |v|)
      && FirstUnknown(Segment(v, root, lo, hi), v[cur].neighbors, 0) == v[next].nodeId
  {
    var ib' := FromHereOn(ib, root, lo, hi, cur);
    if cur == root && !ib' {
      NextUnknown(v, root, lo, hi, cur, cur + 1);
    } else {
      OtherKnown(v, root, lo, hi, cur, if ib' then cur - 1 else cur + 1);
    }
  }

  lemma {:induction false} StaysOnCourse(v: seq<Table>, root: nat, lo: nat, hi: nat, cur: nat, ib: bool)
    requires lo <= root < hi <= |v| && lo <= cur < hi && OnCourse(v, root, lo, hi, cur, ib)
    requires |v| > 1 ==> root + 1 < |v|
    requires Inner(cur, lo, hi) == Degree(|v|, cur)
    ensures cur == root ==> lo == 0 && hi == |v|
    ensures cur != root ==> var next := if ib then cur + 1 else cur - 1;
      && (if ib then cur + 1 < hi else lo < cur)
      && OnCourse(v, root, lo, hi, next, ib)
      && 0 <= StepsLeft(v, root, lo, hi, next, ib) < StepsLeft(v, root, lo, hi, cur, ib)
  {
  }

  lemma {:induction false} GrowsOnCourse(v: seq<Table>, root: nat, lo: nat, hi: nat, cur: nat, ib: bool)
    requires lo <= root < hi <= |v| && lo <= cur < hi && OnCourse(v, root, lo, hi, cur, ib)
    requires |v| > 1 ==> root + 1 < |v|
    requires var ib' := FromHereOn(ib, root, lo, hi, cur);
      if ib' then cur == lo && 0 < lo && hi == |v| else cur + 1 == hi && hi < |v|
    ensures var ib' := FromHereOn(ib, root, lo, hi, cur);
      var next, lo', hi' := if ib' then cur - 1 else cur + 1, if ib' then lo - 1 else lo, if ib' then hi else hi + 1;
      && OnCourse(v, root, lo', hi', next, ib')
      && 0 <= StepsLeft(v, root, lo', hi', next, ib') < StepsLeft(v, root, lo, hi, cur, ib)
  {
  }

  lemma {:induction false} Completes(f: Task -> Task, s: Task, v: seq<Table>, own: Table, root: nat, lo: nat, hi: nat, cur: nat, ib: bool)
    returns (k: nat)
    requires IsTurn(f, v, own) && IsLine(v) && At(s, v, root, lo, hi, cur, ib) && OnCourse(v, root, lo, hi, cur, ib)
    requires |v| > 1 ==> root + 1 < |v| && v[root].neighbors != [] && v[root].neighbors[0].nodeId == v[root + 1].nodeId
    ensures Finished(Iterate(f, s, k), v, root)
    decreases StepsLeft(v, root, lo, hi, cur, ib)
  {
    var s1 := f(s);
    if Inner(cur, lo, hi) != Degree(|v|, cur) {
      var ib' := FromHereOn(ib, root, lo, hi, cur);
      var next := if ib' then cur - 1 else cur + 1;
      FindsNext(v, root, lo, hi, cur, ib);
      GrowsOnCourse(v, root, lo, hi, cur, ib);
      Asks(f, s, v, own, root, lo, hi, cur, ib, next);
      Adds(f, s1, v, own, root, lo, hi, cur, ib', next);
      var s2 := f(s1);
      var rest := Completes(f, s2, v, own, root, if ib' then lo - 1 else lo, if ib' then hi else hi + 1, next, ib');
      IterateTwice(f, s, rest);
      k := 2 + rest;
    } else if cur == root {
      StaysOnCourse(v, root, lo, hi, cur, ib);
      StartsEnding(f, s, v, own, root, ib);
      Ends(f, s1, v, own, root);
      IterateTwice(f, s, 0);
      k := 2;
    } else {
      StaysOnCourse(v, root, lo, hi, cur, ib);
      GoesBack(f, s, v, own, root, lo, hi, cur, ib);
      var rest := Completes(f, s1, v, own, root, lo, hi, if ib then cur + 1 else cur - 1, ib);
      k := 1 + rest;
    }
  }

  lemma {:induction false} Starts(f: Task -> Task, v: seq<Table>, root: nat)
    requires IsLine(v) && root < |v| && IsTurn(f, v, v[root])
    ensures At(f(Post(IDLE_TASK, EvStart)), v, root, root, root + 1, root, false)
  {
    var s := Post(IDLE_TASK, EvStart);
    assert f(s) == Turn(s, v, v[root]);
    assert Segment(v, root, root, root + 1) == [Entry(v[root], true, 0)];
  }

  lemma {:induction false} WalkFrom(f: Task -> Task, v: seq<Table>, root: nat) returns (k: nat)
    requires IsLine(v) && root < |v| && IsTurn(f, v, v[root])
    requires |v| > 1 ==> root + 1 < |v| && v[root].neighbors != [] && v[root].neighbors[0].nodeId == v[root + 1].nodeId
    ensures Finished(Iterate(f, Post(IDLE_TASK, EvStart), k), v, root)
  {
    var s := Post(IDLE_TASK, EvStart);
    Starts(f, v, root);
    var rest := Completes(f, f(s), v, v[root], root, root, root + 1, root, false);
    k := 1 + rest;
  }

  /** The list names the nodes in the order of `v`, and marks the one at `root`. */
  predicate IsListOf(entries: seq<Entry>, v: seq<Table>, root: nat) {
    && |entries| == |v|
    && (forall i :: 0 <= i < |v| ==> entries[i].table == v[i] && (entries[i].isRoot <==> i == root))
  }

  lemma {:induction false} FirstNeighborInReverse(v: seq<Table>, root: nat)
    requires IsLine(v) && root < |v| && |v| > 1
    requires root + 1 < |v| ==> v[root].neighbors == [] || v[root].neighbors[0].nodeId != v[root + 1].nodeId
    ensures var r, root' := Reverse(v), |v| - 1 - root;
      root' + 1 < |v| && r[root'].neighbors != [] && r[root'].neighbors[0].nodeId == r[root' + 1].nodeId
  {
    assert Truthful(v, root);
    TwoNeighbors(v, root, 0);
  }

  lemma {:induction false} TableOfMisses(v: seq<Table>, nodeId: uint64, i: nat)
    requires i <= |v| && forall j :: i <= j < |v| ==> v[j].nodeId != nodeId
    ensures TableOf(v, nodeId, i) == Table(nodeId, [], [])
    decreases |v| - i
  {
    if i < |v| {
      TableOfMisses(v, nodeId, i + 1);
    }
  }

  lemma {:induction false} SameTable(v: seq<Table>, nodeId: uint64)
    requires IsLine(v)
    ensures TableOf(v, nodeId, 0) == TableOf(Reverse(v), nodeId, 0)
  {
    if j :| 0 <= j < |v| && v[j].nodeId == nodeId {
      TableOfFinds(v, j, 0);
      ReverseIsLine(v);
      TableOfFinds(Reverse(v), |v| - 1 - j, 0);
    } else {
      TableOfMisses(v, nodeId, 0);
      TableOfMisses(Reverse(v), nodeId, 0);
    }
  }

  lemma {:induction false} SameDelivery(s1: Task, v: seq<Table>, asked: bool)
    requires IsLine(v)
    ensures Deliver(s1, v, asked) == Deliver(s1, Reverse(v), asked)
  {
    if asked && s1.requests != [] {
      SameTable(v, s1.requests[|s1.requests| - 1]);
    }
  }

  /** Only the tables matter to the walk, not the order in which the network holds them. */
  lemma {:induction false} SameTurns(f: Task -> Task, v: seq<Table>, own: Table)
    requires IsLine(v) && IsTurn(f, v, own)
    ensures IsTurn(f, Reverse(v), own)
  {
    forall s
      ensures f(s) == Turn(s, Reverse(v), own)
    {
      assert f(s) == Turn(s, v, own);
      if CanProcess(s) {
        var s1 := Process(s, own, ENV_OK);
        SameDelivery(s1, v, |s1.requests| > |s.requests|);
      }
    }
  }

  lemma {:induction false} WalkOneWay(f: Task -> Task, v: seq<Table>, root: nat) returns (k: nat, entries: seq<Entry>)
    requires IsLine(v) && root < |v| && IsTurn(f, v, v[root])
    requires |v| > 1 ==> root + 1 < |v| && v[root].neighbors != [] && v[root].neighbors[0].nodeId == v[root + 1].nodeId
    ensures var s := Iterate(f, Post(IDLE_TASK, EvStart), k);
      s.results == [Some(entries)] && s.queue == [] && !s.inProgress
    ensures IsListOf(entries, v, root)
  {
    k := WalkFrom(f, v, root);
    entries := Segment(v, root, 0, |v|);
  }

  lemma {:induction false} WalkOtherWay(f: Task -> Task, v: seq<Table>, root: nat) returns (k: nat, entries: seq<Entry>)
    requires IsLine(v) && root < |v| && |v| > 1 && IsTurn(f, v, v[root])
    requires root + 1 < |v| ==> v[root].neighbors == [] || v[root].neighbors[0].nodeId != v[root + 1].nodeId
    ensures var s := Iterate(f, Post(IDLE_TASK, EvStart), k);
      s.results == [Some(entries)] && s.queue == [] && !s.inProgress
    ensures IsListOf(entries, Reverse(v), |v| - 1 - root)
  {
    ReverseIsLine(v);
    FirstNeighborInReverse(v, root);
    SameTurns(f, v, v[root]);
    k, entries := WalkOneWay(f, Reverse(v), |v| - 1 - root);
  }

  /**
   On every daisy chain of at most 255 nodes, from every position and for every order of the neighbor
   tables, the walk ends and calls back once with the chain in physical order, up to its direction.
   */
  lemma {:induction false} WalkFindsTheLine(v: seq<Table>, root: nat) returns (k: nat, entries: seq<Entry>)
    requires IsLine(v) && root < |v|
    ensures var s := Iterate(Network(v, v[root]), Post(IDLE_TASK, EvStart), k);
      s.results == [Some(entries)] && s.queue == [] && !s.inProgress
    ensures IsListOf(entries, v, root) || IsListOf(entries, Reverse(v), |v| - 1 - root)
  {
    var f := Network(v, v[root]);
    NetworkTurns(f, v, v[root]);
    if |v| == 1 || (root + 1 < |v| && v[root].neighbors != [] && v[root].neighbors[0].nodeId == v[root + 1].nodeId) {
      k, entries := WalkOneWay(f, v, root);
    } else {
      k, entries := WalkOtherWay(f, v, root);
    }
  }
}
