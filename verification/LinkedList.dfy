/** The intrusive list of kernel/lib/LinkedList.c.  The link is the first member of a process control block,
  * so a list is threaded through the blocks themselves and all lists share one `next` field per block. */
module LinkedLists {
  import opened KernelModel

  class PCB {
    var next: PCB?
    var id: int
    var state: ProcState
    var wakeupTick: nat

    constructor (id: int)
      ensures this.id == id && next == null && state == Exited && wakeupTick == 0
    {
      next, this.id, state, wakeupTick := null, id, Exited, 0;
    }
  }

  class LinkedList {
    var head: PCB?
    var tail: PCB?
    var count: int
    ghost var nodes: seq<PCB>

    /** head, tail, count and the `next` fields spell out exactly `nodes`: the chain is acyclic, ends in NULL
      * at `tail`, and has `count` members. */
    ghost predicate Valid()
      reads this, nodes`next
    {
      && count == |nodes|
      && (nodes == [] ==> head == null && tail == null)
      && (nodes != [] ==> head == nodes[0] && tail == nodes[|nodes| - 1] && nodes[|nodes| - 1].next == null)
      && (forall i {:trigger nodes[i].next} :: 0 <= i < |nodes| - 1 ==> nodes[i].next == nodes[i + 1])
      && (forall i, j :: 0 <= i < j < |nodes| ==> nodes[i] != nodes[j])
    }

    /** initList. */
    constructor ()
      ensures Valid() && nodes == [] && fresh(this)
    {
      head, tail, count, nodes := null, null, 0, [];
    }

    /** insertList: the node goes to the tail; only its own link and the old tail's are written. */
    method Insert(node: PCB)
      requires Valid() && node !in nodes
      modifies this, node`next, nodes`next
      ensures Valid() && nodes == old(nodes) + [node]
    {
      node.next := null;
      if head == null {
        head := node;
      } else {
        tail.next := node;
      }
      tail := node;
      count := count + 1;
      nodes := nodes + [node];
    }

    /** removeList: takes out the first node with this id and nothing else; the others keep their order. */
    method Remove(id: int) returns (removed: PCB?, ghost at: nat)
      requires Valid()
      modifies this, nodes`next
      ensures Valid() && at <= |old(nodes)| && forall j :: 0 <= j < at ==> old(nodes)[j].id != id
      ensures at == |old(nodes)| ==> removed == null && nodes == old(nodes) && forall n :: n in nodes ==> n.next == old(n.next)
      ensures at < |old(nodes)| ==> removed == old(nodes)[at] && removed.id == id && nodes == old(nodes)[..at] + old(nodes)[at + 1..]
    {
      var pre := head;
      var cur := head;
      at := 0;
      while cur != null
        invariant Valid() && nodes == old(nodes)
        invariant 0 <= at <= |nodes|
        invariant cur == if at < |nodes| then nodes[at] else null
        invariant at > 0 ==> pre == nodes[at - 1]
        invariant at == 0 ==> pre == cur
        invariant forall j :: 0 <= j < at ==> nodes[j].id != id
        invariant forall n :: n in nodes ==> n.next == old(n.next)
        decreases |nodes| - at
      {
        if cur.id == id {
          if cur == head && cur == tail {
            assert |nodes| == 1;
            head := null;
            tail := null;
          } else if cur == head {
            head := cur.next;
          } else if cur == tail {
            tail := pre;
            pre.next := null;
          } else {
            pre.next := cur.next;
          }
          count := count - 1;
          nodes := nodes[..at] + nodes[at + 1..];
          return cur, at;
        }
        pre := cur;
        cur := cur.next;
        at := at + 1;
      }
      return null, at;
    }

    /** HeadRemove: pops the front by its id, or answers NULL on an empty list. */
    method HeadRemove() returns (removed: PCB?)
      requires Valid()
      modifies this, nodes`next
      ensures Valid()
      ensures old(nodes) == [] ==> removed == null && nodes == []
      ensures old(nodes) != [] ==> removed == old(nodes)[0] && nodes == old(nodes)[1..]
    {
      if count == 0 {
        return null;
      }
      var cur := head;
      assert cur == nodes[0];
      ghost var at;
      removed, at := Remove(cur.id);
      assert at == 0 && old(nodes)[..0] + old(nodes)[0 + 1..] == old(nodes)[1..];
    }
  }
}
