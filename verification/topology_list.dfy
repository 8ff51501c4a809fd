/** The doubly linked list of known nodes, changed in place through its cursor. */
module TopologyList {
  import opened Bytes
  import opened TopologyModel

  class NeighborTableEntry {
    const table: Table
    const isRoot: bool
    var prevNode: NeighborTableEntry?
    var nextNode: NeighborTableEntry?
    var portsExplored: uint8

    constructor (table: Table, isRoot: bool)
      ensures this.table == table && this.isRoot == isRoot
      ensures prevNode == null && nextNode == null && portsExplored == 0
    {
      this.table := table;
      this.isRoot := isRoot;
      prevNode, nextNode, portsExplored := null, null, 0;
    }

    ghost function Value(): Entry
      reads this
    {
      Entry(table, isRoot, portsExplored)
    }
  }

  /** `r` is `s` with `e` put in at position `at`. */
  ghost predicate Spliced<T>(r: seq<T>, s: seq<T>, at: nat, e: T)
    requires at <= |s|
  {
    && |r| == |s| + 1 && r[at] == e
    && (forall i {:trigger r[i]} :: 0 <= i < at ==> r[i] == s[i])
    && (forall i {:trigger r[i]} :: at < i < |r| ==> r[i] == s[i - 1])
  }

  class NetworkTopology {
    var front: NeighborTableEntry?
    var back: NeighborTableEntry?
    var cursor: NeighborTableEntry?
    var length: nat
    var index: int
    ghost var nodes: seq<NeighborTableEntry>
    ghost var entries: seq<Entry>

    /**
     `nodes` is the chain from `front` to `back`, the links of neighbors are inverse to each other, and
     `entries` are the values in the chain.
     */
    ghost predicate Linked()
      reads this, nodes
    {
      && |nodes| == |entries| == length <= MAX_NODES
      && (forall i {:trigger entries[i]} {:trigger nodes[i].Value()} :: 0 <= i < |nodes| ==> entries[i] == nodes[i].Value())
      && (forall i, j :: 0 <= i < j < |nodes| ==> nodes[i] != nodes[j])
      && (forall i {:trigger nodes[i].nextNode} :: 0 <= i < |nodes| ==>
            nodes[i].nextNode == if i + 1 < |nodes| then nodes[i + 1] else null)
      && (forall i {:trigger nodes[i].prevNode} :: 0 <= i < |nodes| ==>
            nodes[i].prevNode == if i > 0 then nodes[i - 1] else null)
      && front == (if nodes == [] then null else nodes[0])
      && back == (if nodes == [] then null else nodes[|nodes| - 1])
    }

    /** The cursor is the node at `index`. */
    ghost predicate Valid()
      reads this, nodes
    {
      Linked() && 0 <= index < length && cursor == nodes[index]
    }

    ghost function Abs(): Topo
      reads this
      requires 0 <= index < |entries| <= MAX_NODES
    {
      Topo(entries, index)
    }

    constructor ()
      ensures Linked() && entries == [] && cursor == null && index == -1
    {
      front, back, cursor, length, index, nodes, entries := null, null, null, 0, -1, [], [];
    }

    /** The first node does not become the cursor: that takes a move to the front. */
    method Append(entry: NeighborTableEntry)
      requires Linked() && length < MAX_NODES && entry !in nodes
      requires entry.nextNode == null && entry.prevNode == null
      modifies this, nodes, entry
      ensures Linked() && nodes == old(nodes) + [entry] && entries == old(entries) + [old(entry.Value())]
      ensures cursor == old(cursor) && index == (if old(nodes) == [] then old(index) + 1 else old(index))
    {
      if length == 0 {
        front := entry;
        back := entry;
        front.prevNode := null;
        front.nextNode := null;
        index := index + 1;
      } else {
        entry.prevNode := back;
        back.nextNode := entry;
        back := entry;
      }
      length := length + 1;
      nodes := nodes + [entry];
      entries := entries + [entry.Value()];
    }

    /** On an empty list the index moves twice, past the only node. */
    method Prepend(entry: NeighborTableEntry)
      requires Linked() && length < MAX_NODES && entry !in nodes
      requires entry.nextNode == null && entry.prevNode == null
      modifies this, nodes, entry
      ensures Linked() && nodes == [entry] + old(nodes) && entries == [old(entry.Value())] + old(entries)
      ensures cursor == old(cursor)
      ensures old(nodes) != [] && old(index) >= 0 ==> index == old(index) + 1
      ensures old(nodes) == [] && old(index) == -1 ==> index == 1
    {
      if length == 0 {
        front := entry;
        back := entry;
        front.prevNode := null;
        front.nextNode := null;
        index := index + 1;
      } else {
        entry.nextNode := front;
        front.prevNode := entry;
        front := entry;
      }
      length := length + 1;
      if index >= 0 {
        index := index + 1;
      }
      nodes := [entry] + nodes;
      entries := [entry.Value()] + entries;
    }

    method MoveToFront()
      requires Linked() && length > 0
      modifies this
      ensures Valid() && nodes == old(nodes) && entries == old(entries) && index == 0
    {
      cursor := front;
      index := 0;
    }

    method MovePrev()
      requires Valid()
      modifies this`cursor, this`index
      ensures Valid() && Abs() == TopologyModel.MovePrev(old(Abs()))
    {
      if index > 0 {
        assert nodes[index].prevNode == nodes[index - 1];
        cursor := cursor.prevNode;
        index := index - 1;
      }
    }

    method MoveNext()
      requires Valid()
      modifies this`cursor, this`index
      ensures Valid() && Abs() == TopologyModel.MoveNext(old(Abs()))
    {
      if index < length - 1 {
        assert nodes[index].nextNode == nodes[index + 1];
        cursor := cursor.nextNode;
        index := index + 1;
      }
    }

    method LinkAfter(entry: NeighborTableEntry)
      requires Valid() && length < MAX_NODES && entry !in nodes && index < length - 1
      modifies this, nodes, entry
      ensures Valid() && index == old(index) && Spliced(nodes, old(nodes), index + 1, entry)
      ensures entries == old(entries[..index + 1] + [entry.Value()] + entries[index + 1..])
    {
      ghost var at := index + 1;
      assert nodes[index].nextNode == nodes[index + 1];
      entry.nextNode := cursor.nextNode;
      cursor.nextNode.prevNode := entry;
      entry.prevNode := cursor;
      cursor.nextNode := entry;
      length := length + 1;
      nodes := nodes[..at] + [entry] + nodes[at..];
      entries := entries[..at] + [entry.Value()] + entries[at..];
      assert Spliced(nodes, old(nodes), at, entry);
      assert Spliced(entries, old(entries), at, entry.Value());
    }

    method InsertAfter(entry: NeighborTableEntry)
      requires Valid() && length < MAX_NODES && entry !in nodes
      requires entry.nextNode == null && entry.prevNode == null
      modifies this, nodes, entry
      ensures Valid() && Spliced(nodes, old(nodes), old(index) + 1, entry)
      ensures Abs() == TopologyModel.InsertAfter(old(Abs()), old(entry.Value()))
    {
      if index == length - 1 {
        Append(entry);
        assert nodes[index] == old(nodes)[index];
      } else {
        LinkAfter(entry);
      }
    }

    method LinkBefore(entry: NeighborTableEntry)
      requires Valid() && length < MAX_NODES && entry !in nodes && index > 0
      modifies this, nodes, entry
      ensures Valid() && index == old(index) + 1 && Spliced(nodes, old(nodes), old(index), entry)
      ensures entries == old(entries[..index] + [entry.Value()] + entries[index..])
    {
      ghost var at := index;
      assert nodes[index].prevNode == nodes[index - 1];
      cursor.prevNode.nextNode := entry;
      entry.nextNode := cursor;
      entry.prevNode := cursor.prevNode;
      cursor.prevNode := entry;
      length := length + 1;
      index := index + 1;
      nodes := nodes[..at] + [entry] + nodes[at..];
      entries := entries[..at] + [entry.Value()] + entries[at..];
      assert Spliced(nodes, old(nodes), at, entry);
      assert Spliced(entries, old(entries), at, entry.Value());
    }

    method InsertBefore(entry: NeighborTableEntry)
      requires Valid() && length < MAX_NODES && entry !in nodes
      requires entry.nextNode == null && entry.prevNode == null
      modifies this, nodes, entry
      ensures Valid() && Spliced(nodes, old(nodes), old(index), entry)
      ensures Abs() == TopologyModel.InsertBefore(old(Abs()), old(entry.Value()))
    {
      if index == 0 {
        Prepend(entry);
        assert nodes[1] == old(nodes)[0];
      } else {
        LinkBefore(entry);
      }
    }

    method IncrementPortCount()
      requires Valid()
      modifies this`entries, cursor`portsExplored
      ensures Valid() && Abs() == CountPort(old(Abs()))
    {
      cursor.portsExplored := if cursor.portsExplored == 255 then 0 else cursor.portsExplored + 1;
      entries := entries[index := cursor.Value()];
    }

    method NodeIdInTopology(nodeId: uint64) returns (found: bool)
      requires Linked()
      ensures found <==> Known(entries, nodeId)
    {
      var temp := front;
      ghost var k := 0;
      while temp != null
        invariant 0 <= k <= |nodes| && temp == if k < |nodes| then nodes[k] else null
        invariant forall i :: 0 <= i < k ==> entries[i].table.nodeId != nodeId
        decreases |nodes| - k
      {
        assert entries[k].table == temp.table;
        if temp.table.nodeId == nodeId {
          return true;
        }
        assert nodes[k].nextNode == if k + 1 < |nodes| then nodes[k + 1] else null;
        temp := temp.nextNode;
        k := k + 1;
      }
      return false;
    }

    method CheckNeighborNodeIds() returns (nodeId: uint64)
      requires Valid()
      ensures nodeId == FirstUnknown(Abs().entries, Cursor(Abs()).table.neighbors, 0)
    {
      var neighbors := cursor.table.neighbors;
      var k := 0;
      while k < |neighbors|
        invariant 0 <= k <= |neighbors|
        invariant FirstUnknown(Abs().entries, neighbors, 0) == FirstUnknown(Abs().entries, neighbors, k)
      {
        var known := NodeIdInTopology(neighbors[k].nodeId);
        if !known {
          return neighbors[k].nodeId;
        }
        k := k + 1;
      }
      return 0;
    }

    method CheckAllPortsExplored() returns (all: bool)
      requires Valid()
      ensures all <==> TopologyModel.AllPortsExplored(Abs())
    {
      var table := cursor.table;
      var online := 0;
      var k := 0;
      while k < |table.neighbors|
        invariant 0 <= k <= |table.neighbors| && online == OnlineCount(table, k)
      {
        if table.ports[table.neighbors[k].port - 1] {
          online := online + 1;
        }
        k := k + 1;
      }
      all := online == cursor.portsExplored as int;
    }
  }
}
