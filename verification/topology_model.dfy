/**
 The topology walk as functions on values: the list of known nodes with a cursor, and the task that
 grows it by handling one queued event at a time.
 */
module TopologyModel {
  import opened Bytes

  const TOPOLOGY_RETRIES := 3
  const EVENT_QUEUE_LENGTH := 32
  /** The list keeps its length in eight bits. */
  const MAX_NODES := 255

  datatype Neighbor = Neighbor(nodeId: uint64, port: uint8)

  /** A neighbor table: ports are numbered from 1, and a port knows whether its link is up. */
  datatype RawTable = Table(nodeId: uint64, ports: seq<bool>, neighbors: seq<Neighbor>)

  predicate WellFormed(t: RawTable) {
    |t.neighbors| <= 255 && forall i :: 0 <= i < |t.neighbors| ==> 1 <= t.neighbors[i].port <= |t.ports|
  }

  type Table = t: RawTable | WellFormed(t) witness Table(0, [], [])

  datatype Entry = Entry(table: Table, isRoot: bool, portsExplored: uint8)

  datatype RawTopo = Topo(entries: seq<Entry>, index: int)

  predicate HasCursor(t: RawTopo) {
    0 <= t.index < |t.entries| <= MAX_NODES
  }

  type Topo = t: RawTopo | HasCursor(t) witness Topo([Entry(Table(0, [], []), false, 0)], 0)

  function Cursor(t: Topo): Entry {
    t.entries[t.index]
  }

  predicate Known(entries: seq<Entry>, nodeId: uint64) {
    exists i :: 0 <= i < |entries| && entries[i].table.nodeId == nodeId
  }

  function MovePrev(t: Topo): Topo {
    if t.index > 0 then t.(index := t.index - 1) else t
  }

  function MoveNext(t: Topo): Topo {
    if t.index < |t.entries| - 1 then t.(index := t.index + 1) else t
  }

  function InsertAfter(t: Topo, e: Entry): Topo
    requires |t.entries| < MAX_NODES
  {
    t.(entries := t.entries[..t.index + 1] + [e] + t.entries[t.index + 1..])
  }

  /** The cursor stays on its node, which moves up by one. */
  function InsertBefore(t: Topo, e: Entry): Topo
    requires |t.entries| < MAX_NODES
  {
    t.(entries := t.entries[..t.index] + [e] + t.entries[t.index..], index := t.index + 1)
  }

  function Explored(e: Entry): Entry {
    e.(portsExplored := (e.portsExplored + 1) % 0x100)
  }

  function CountPort(t: Topo): Topo {
    t.(entries := t.entries[t.index := Explored(Cursor(t))])
  }

  /** How many of the first `k` neighbors sit behind a port whose link is up. */
  function OnlineCount(table: Table, k: nat): nat
    requires k <= |table.neighbors|
  {
    if k == 0 then 0
    else OnlineCount(table, k - 1) + (if table.ports[table.neighbors[k - 1].port - 1] then 1 else 0)
  }

  predicate AllPortsExplored(t: Topo) {
    OnlineCount(Cursor(t).table, |Cursor(t).table.neighbors|) == Cursor(t).portsExplored
  }

  /** The first of the neighbors from `k` on that is not in the list; 0 when there is none. */
  function FirstUnknown(entries: seq<Entry>, neighbors: seq<Neighbor>, k: nat): uint64
    requires k <= |neighbors|
    decreases |neighbors| - k
  {
    if k == |neighbors| then 0
    else if !Known(entries, neighbors[k].nodeId) then neighbors[k].nodeId
    else FirstUnknown(entries, neighbors, k + 1)
  }

  // ----- the task -----

  datatype Event = EvStart | EvAddNode(table: Table) | EvCheckNode | EvTimeout | EvEnd

  datatype Env = Env(memory: bool, tx: bool)
  const ENV_OK := Env(true, true)

  /** `requests` and `results` log the requests sent and the callbacks made. */
  datatype Task = Task(topo: Option<Topo>, insertBefore: bool, retryCount: uint8, sentRequest: bool,
                       inProgress: bool, queue: seq<Event>,
                       requests: seq<uint64>, results: seq<Option<seq<Entry>>>)

  const IDLE_TASK := Task(None, false, 0, false, false, [], [], [])

  /** A full queue drops the event. */
  function Post(s: Task, e: Event): Task {
    if |s.queue| < EVENT_QUEUE_LENGTH then s.(queue := s.queue + [e]) else s
  }

  function MoveBack(s: Task): Task {
    if s.topo.None? then s
    else s.(topo := Some(if s.insertBefore then MoveNext(s.topo.value) else MovePrev(s.topo.value)))
  }

  function ProcessStart(s: Task, own: Table, env: Env): Task {
    if !s.inProgress && env.memory then
      Post(s.(topo := Some(Topo([Entry(own, true, 0)], 0))), EvCheckNode).(inProgress := true, sentRequest := true)
    else s.(results := s.results + [None])
  }

  function AskOrMove(s: Task, env: Env): Task {
    var newNode := if s.topo.None? then 0
                   else FirstUnknown(s.topo.value.entries, Cursor(s.topo.value).table.neighbors, 0);
    if newNode != 0 then
      if env.tx then s.(requests := s.requests + [newNode]) else Post(s, EvEnd)
    else Post(MoveBack(s), EvCheckNode)
  }

  function ProcessCheck(s: Task, env: Env): Task {
    if s.topo.Some? && AllPortsExplored(s.topo.value) then
      if Cursor(s.topo.value).isRoot then Post(s, EvEnd)
      else Post(MoveBack(s), EvCheckNode)
    else
      AskOrMove(if s.topo.Some? && Cursor(s.topo.value).isRoot && Cursor(s.topo.value).portsExplored == 1
                then s.(insertBefore := true) else s, env)
  }

  /** The new node goes next to the cursor on the side being explored, becomes the cursor, and has one
      port explored: the one it was found through. */
  function AddEntry(t: Topo, insertBefore: bool, table: Table): Topo
    requires |t.entries| < MAX_NODES
  {
    var e := Entry(table, false, 0);
    CountPort(if insertBefore then MovePrev(InsertBefore(t, e)) else MoveNext(InsertAfter(t, e)))
  }

  predicate CanAdd(s: Task, table: Table) {
    s.topo.Some? ==> |s.topo.value.entries| < MAX_NODES || Known(s.topo.value.entries, table.nodeId)
  }

  function ProcessAdd(s: Task, table: Table): Task
    requires CanAdd(s, table)
  {
    Post(if s.topo.Some? && !Known(s.topo.value.entries, table.nodeId)
         then s.(topo := Some(AddEntry(s.topo.value, s.insertBefore, table))) else s,
         EvCheckNode)
  }

  function ProcessTimeout(s: Task): Task {
    var s1 := s.(retryCount := (s.retryCount + 1) % 0x100);
    var s2 := if s1.retryCount >= TOPOLOGY_RETRIES then
                MoveBack(if s1.topo.Some? then s1.(topo := Some(CountPort(s1.topo.value))) else s1)
              else s1;
    Post(s2, EvCheckNode)
  }

  function ProcessEnd(s: Task): Task {
    s.(results := s.results + [if s.topo.Some? then Some(s.topo.value.entries) else None],
       topo := None, insertBefore := false, retryCount := 0, sentRequest := false, inProgress := false)
  }

  predicate CanProcess(s: Task) {
    s.queue != [] && (s.queue[0].EvAddNode? ==> CanAdd(s, s.queue[0].table))
  }

  /** The task handles the event at the head of its queue; `own` is the node's own neighbor table. */
  function Process(s: Task, own: Table, env: Env): Task
    requires CanProcess(s)
  {
    var s1 := s.(queue := s.queue[1..]);
    match s.queue[0]
    case EvStart => ProcessStart(s1, own, env)
    case EvAddNode(table) => ProcessAdd(s1, table)
    case EvCheckNode => ProcessCheck(s1, env)
    case EvTimeout => ProcessTimeout(s1)
    case EvEnd => ProcessEnd(s1)
  }

  /** A neighbor table arrives while a walk is on. */
  function Reply(s: Task, table: Table, env: Env): Task {
    if !s.sentRequest then s
    else if !env.memory then Post(s, EvEnd)
    else
      var s1 := s.(retryCount := 0);
      Post(if s1.topo.Some? then s1.(topo := Some(CountPort(s1.topo.value))) else s1, EvAddNode(table))
  }
}
