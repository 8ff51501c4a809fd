/** The topology task: it takes events from its queue and changes the list and its flags in place. */
module TopologyTask {
  import opened Bytes
  import TopologyModel
  import opened TopologyList

  type Table = TopologyModel.Table
  type Env = TopologyModel.Env
  type Event = TopologyModel.Event

  class Task {
    var topology: NetworkTopology?
    var insertBefore: bool
    var retryCount: uint8
    var sentRequest: bool
    var inProgress: bool
    var queue: seq<Event>
    ghost var requests: seq<uint64>
    ghost var results: seq<Option<seq<TopologyModel.Entry>>>

    ghost function Nodes(): seq<NeighborTableEntry>
      reads this, topology
    {
      if topology == null then [] else topology.nodes
    }

    ghost predicate Valid()
      reads this, topology, Nodes()
    {
      topology != null ==> topology.Valid()
    }

    ghost function Abs(): TopologyModel.Task
      reads this, topology
      requires topology != null ==> 0 <= topology.index < |topology.entries| <= TopologyModel.MAX_NODES
    {
      TopologyModel.Task(if topology == null then None else Some(topology.Abs()), insertBefore, retryCount,
                         sentRequest, inProgress, queue, requests, results)
    }

    constructor ()
      ensures Valid() && Abs() == TopologyModel.IDLE_TASK
    {
      topology, insertBefore, retryCount, sentRequest, inProgress := null, false, 0, false, false;
      queue, requests, results := [], [], [];
    }

    method Post(e: Event)
      requires Valid()
      modifies this`queue
      ensures Valid() && Abs() == TopologyModel.Post(old(Abs()), e)
    {
      if |queue| < TopologyModel.EVENT_QUEUE_LENGTH {
        queue := queue + [e];
      }
    }

    method MoveBack()
      requires Valid()
      modifies topology
      ensures Valid() && Nodes() == old(Nodes()) && Abs() == TopologyModel.MoveBack(old(Abs()))
    {
      if topology != null {
        if insertBefore {
          topology.MoveNext();
        } else {
          topology.MovePrev();
        }
      }
    }

    /** A new list with the node's own table as its only entry, marked as the root. */
    method NewTopology(own: Table) returns (t: NetworkTopology)
      ensures fresh(t) && fresh(t.nodes) && t.Valid()
      ensures t.Abs() == TopologyModel.Topo([TopologyModel.Entry(own, true, 0)], 0)
    {
      t := new NetworkTopology();
      var entry := new NeighborTableEntry(own, true);
      t.Append(entry);
      t.MoveToFront();
    }

    method ProcessStart(own: Table, env: Env)
      requires Valid()
      modifies this
      ensures Valid() && Abs() == TopologyModel.ProcessStart(old(Abs()), own, env)
    {
      if !inProgress && env.memory {
        topology := NewTopology(own);
        Post(TopologyModel.EvCheckNode);
        inProgress := true;
        sentRequest := true;
      } else {
        results := results + [None];
      }
    }

    method AskOrMove(env: Env)
      requires Valid()
      modifies this, topology
      ensures Valid() && Abs() == TopologyModel.AskOrMove(old(Abs()), env)
    {
      var newNode: uint64 := 0;
      if topology != null {
        newNode := topology.CheckNeighborNodeIds();
      }
      if newNode != 0 {
        if env.tx {
          requests := requests + [newNode];
        } else {
          Post(TopologyModel.EvEnd);
        }
      } else {
        MoveBack();
        Post(TopologyModel.EvCheckNode);
      }
    }

    method ProcessCheck(env: Env)
      requires Valid()
      modifies this, topology
      ensures Valid() && Abs() == TopologyModel.ProcessCheck(old(Abs()), env)
    {
      var explored := false;
      if topology != null {
        explored := topology.CheckAllPortsExplored();
      }
      if explored {
        if topology.cursor.isRoot {
          Post(TopologyModel.EvEnd);
        } else {
          MoveBack();
          Post(TopologyModel.EvCheckNode);
        }
      } else {
        if topology != null && topology.cursor.isRoot && topology.cursor.portsExplored == 1 {
          insertBefore := true;
        }
        AskOrMove(env);
      }
    }

    method AddEntry(table: Table)
      requires Valid() && topology != null && topology.length < TopologyModel.MAX_NODES
      modifies topology, Nodes()
      ensures Valid()
      ensures Abs() == old(Abs()).(topo := Some(TopologyModel.AddEntry(old(Abs()).topo.value, insertBefore, table)))
    {
      var entry := new NeighborTableEntry(table, false);
      if insertBefore {
        topology.InsertBefore(entry);
        topology.MovePrev();
      } else {
        topology.InsertAfter(entry);
        topology.MoveNext();
      }
      topology.IncrementPortCount();
    }

    /** An entry already known is dropped. */
    method ProcessAdd(table: Table)
      requires Valid() && TopologyModel.CanAdd(Abs(), table)
      modifies this, topology, Nodes()
      ensures Valid() && Abs() == TopologyModel.ProcessAdd(old(Abs()), table)
    {
      if topology != null {
        var known := topology.NodeIdInTopology(table.nodeId);
        if !known {
          AddEntry(table);
        }
      }
      Post(TopologyModel.EvCheckNode);
    }

    method CountPort()
      requires Valid()
      modifies topology, Nodes()
      ensures Valid() && Nodes() == old(Nodes())
      ensures Abs() == var s := old(Abs()); if s.topo.Some? then s.(topo := Some(TopologyModel.CountPort(s.topo.value))) else s
    {
      if topology != null {
        topology.IncrementPortCount();
      }
    }

    method ProcessTimeout()
      requires Valid()
      modifies this, topology, Nodes()
      ensures Valid() && Abs() == TopologyModel.ProcessTimeout(old(Abs()))
    {
      retryCount := if retryCount == 255 then 0 else retryCount + 1;
      ghost var counted := Abs();
      assert counted == old(Abs()).(retryCount := (old(retryCount) + 1) % 0x100);
      if retryCount >= TopologyModel.TOPOLOGY_RETRIES {
        CountPort();
        MoveBack();
      }
      Post(TopologyModel.EvCheckNode);
    }

    /** The caller gets the list, which is then released. */
    method ProcessEnd()
      requires Valid()
      modifies this
      ensures Valid() && Abs() == TopologyModel.ProcessEnd(old(Abs()))
    {
      results := results + [if topology == null then None else Some(topology.entries)];
      topology := null;
      insertBefore := false;
      retryCount := 0;
      sentRequest := false;
      inProgress := false;
    }

    /** One turn of the task's loop. */
    method ProcessEvent(own: Table, env: Env)
      requires Valid() && TopologyModel.CanProcess(Abs())
      modifies this, topology, Nodes()
      ensures Valid() && Abs() == TopologyModel.Process(old(Abs()), own, env)
    {
      var item := queue[0];
      queue := queue[1..];
      match item {
        case EvStart => ProcessStart(own, env);
        case EvAddNode(table) => ProcessAdd(table);
        case EvCheckNode => ProcessCheck(env);
        case EvTimeout => ProcessTimeout();
        case EvEnd => ProcessEnd();
      }
    }

    /** A neighbor table has come in. */
    method NeighborRequestCallback(table: Table, env: Env)
      requires Valid()
      modifies this, topology, Nodes()
      ensures Valid() && Abs() == TopologyModel.Reply(old(Abs()), table, env)
    {
      if sentRequest {
        if env.memory {
          retryCount := 0;
          CountPort();
          Post(TopologyModel.EvAddNode(table));
        } else {
          Post(TopologyModel.EvEnd);
        }
      }
    }
  }
}
