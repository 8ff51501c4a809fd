/** What the topology list keeps in every run, with lost, late and repeated replies and any timeouts. */
module TopologyRuns {
  import opened Bytes
  import opened TopologyModel

  /** Node ids are pairwise distinct. */
  predicate Distinct(entries: seq<Entry>) {
    forall i, j :: 0 <= i < j < |entries| ==> entries[i].table.nodeId != entries[j].table.nodeId
  }

  /** One entry is the root and no other is. */
  predicate OneRoot(entries: seq<Entry>) {
    && (exists i :: 0 <= i < |entries| && entries[i].isRoot)
    && (forall i, j :: 0 <= i < j < |entries| ==> !(entries[i].isRoot && entries[j].isRoot))
  }

  predicate ListOk(entries: seq<Entry>) {
    Distinct(entries) && OneRoot(entries)
  }

  predicate TaskInv(s: Task) {
    && (s.inProgress <==> s.topo.Some?) && (s.sentRequest <==> s.topo.Some?)
    && (s.topo.Some? ==> ListOk(s.topo.value.entries))
    && (forall i :: 0 <= i < |s.results| ==> s.results[i].Some? ==> ListOk(s.results[i].value))
    && |s.queue| <= EVENT_QUEUE_LENGTH
  }

  lemma {:induction false} InsertKeepsList(entries: seq<Entry>, at: nat, e: Entry)
    requires ListOk(entries) && at <= |entries| && !e.isRoot && !Known(entries, e.table.nodeId)
    ensures ListOk(entries[..at] + [e] + entries[at..])
  {
    var r := entries[..at] + [e] + entries[at..];
    forall i | 0 <= i < |r|
      ensures i == at ==> r[i] == e
      ensures i < at ==> r[i] == entries[i]
      ensures i > at ==> r[i] == entries[i - 1]
    {
    }
    var k :| 0 <= k < |entries| && entries[k].isRoot;
    assert r[if k < at then k else k + 1].isRoot;
  }

  lemma {:induction false} CountPortKeepsList(t: Topo)
    requires ListOk(t.entries)
    ensures ListOk(CountPort(t).entries)
  {
    var r := CountPort(t).entries;
    forall i | 0 <= i < |r|
      ensures r[i].table == t.entries[i].table && r[i].isRoot == t.entries[i].isRoot
    {
    }
    var k :| 0 <= k < |t.entries| && t.entries[k].isRoot;
    assert r[k].isRoot;
  }

  lemma {:induction false} AddKeepsList(t: Topo, insertBefore: bool, table: Table)
    requires ListOk(t.entries) && |t.entries| < MAX_NODES && !Known(t.entries, table.nodeId)
    ensures ListOk(AddEntry(t, insertBefore, table).entries)
  {
    var e := Entry(table, false, 0);
    if insertBefore {
      InsertKeepsList(t.entries, t.index, e);
      CountPortKeepsList(MovePrev(InsertBefore(t, e)));
    } else {
      InsertKeepsList(t.entries, t.index + 1, e);
      CountPortKeepsList(MoveNext(InsertAfter(t, e)));
    }
  }

  datatype Action =
    | Ask
    | Handle(own: Table, env: Env)
    | Answer(table: Table, env: Env)
    | TimerFires

  predicate Possible(s: Task, a: Action) {
    a.Handle? && s.queue != [] ==> CanProcess(s)
  }

  function Next(s: Task, a: Action): Task
    requires Possible(s, a)
  {
    match a
    case Ask => Post(s, EvStart)
    case Handle(own, env) => if s.queue == [] then s else Process(s, own, env)
    case Answer(table, env) => Reply(s, table, env)
    case TimerFires => Post(s, EvTimeout)
  }

  /** The run never tries to list more nodes than the eight-bit length can count. */
  predicate Fits(s: Task, actions: seq<Action>)
    decreases |actions|
  {
    actions == [] || (Possible(s, actions[0]) && Fits(Next(s, actions[0]), actions[1..]))
  }

  function Exec(s: Task, actions: seq<Action>): Task
    requires Fits(s, actions)
    decreases |actions|
  {
    if actions == [] then s else Exec(Next(s, actions[0]), actions[1..])
  }

  lemma {:induction false} StartKeepsInv(s: Task, own: Table, env: Env)
    requires TaskInv(s)
    ensures TaskInv(ProcessStart(s, own, env))
  {
    var first := [Entry(own, true, 0)];
    assert OneRoot(first) by { assert first[0].isRoot; }
  }

  lemma {:induction false} AddKeepsInv(s: Task, table: Table)
    requires TaskInv(s) && CanAdd(s, table)
    ensures TaskInv(ProcessAdd(s, table))
  {
    if s.topo.Some? && !Known(s.topo.value.entries, table.nodeId) {
      AddKeepsList(s.topo.value, s.insertBefore, table);
    }
  }

  lemma {:induction false} TimeoutKeepsInv(s: Task)
    requires TaskInv(s)
    ensures TaskInv(ProcessTimeout(s))
  {
    if s.topo.Some? {
      CountPortKeepsList(s.topo.value);
    }
  }

  lemma {:induction false} CheckKeepsInv(s: Task, env: Env)
    requires TaskInv(s)
    ensures TaskInv(ProcessCheck(s, env))
  {
  }

  lemma {:induction false} EndKeepsInv(s: Task)
    requires TaskInv(s)
    ensures TaskInv(ProcessEnd(s))
  {
  }

  lemma {:induction false} ProcessKeepsInv(s: Task, own: Table, env: Env)
    requires TaskInv(s) && CanProcess(s)
    ensures TaskInv(Process(s, own, env))
  {
    var s1 := s.(queue := s.queue[1..]);
    match s.queue[0] {
      case EvAddNode(table) => AddKeepsInv(s1, table);
      case EvTimeout => TimeoutKeepsInv(s1);
      case EvStart => StartKeepsInv(s1, own, env);
      case EvCheckNode => CheckKeepsInv(s1, env);
      case EvEnd => EndKeepsInv(s1);
    }
  }

  lemma {:induction false} ReplyKeepsInv(s: Task, table: Table, env: Env)
    requires TaskInv(s)
    ensures TaskInv(Reply(s, table, env))
  {
    if s.topo.Some? {
      CountPortKeepsList(s.topo.value);
    }
  }

  /**
   In every run, whatever tables arrive and whenever timers fire: the ids in the list are distinct, exactly
   one entry is the root, the cursor is on the list, and every list handed to a callback is such a list.
   */
  lemma {:induction false} EveryRunKeepsTheList(s: Task, actions: seq<Action>)
    requires TaskInv(s) && Fits(s, actions)
    ensures TaskInv(Exec(s, actions))
    decreases |actions|
  {
    if actions != [] {
      match actions[0] {
        case Handle(own, env) =>
          if s.queue != [] {
            ProcessKeepsInv(s, own, env);
          }
        case Answer(table, env) => ReplyKeepsInv(s, table, env);
        case _ =>
      }
      EveryRunKeepsTheList(Next(s, actions[0]), actions[1..]);
    }
  }
}
