/** The doubly linked queues between the vSSD threads (vssd_code/rb_nexus.c:53-90,
    vssd_code/rb_nexus.h:112-132): two sentinels and nodes spliced in place. */
module CommLists {

  /** What a node carries: its fixed priority and its message. */
  datatype Entry<M> = Entry(prio: int, msg: M)

  // ---------- specification on sequences, head first ----------

  /** Where insert_list_sorted puts an entry: in front of the first key not below its own. */
  function InsertPos<M>(q: seq<Entry<M>>, prio: int): (k: nat)
    ensures k <= |q|
    ensures forall i :: 0 <= i < k ==> prio > q[i].prio
    ensures k < |q| ==> prio <= q[k].prio
  {
    if q == [] || prio <= q[0].prio then 0 else 1 + InsertPos(q[1..], prio)
  }

  function InsertByPrio<M>(q: seq<Entry<M>>, e: Entry<M>): (r: seq<Entry<M>>)
    ensures |r| == |q| + 1
  {
    var k := InsertPos(q, e.prio);
    q[..k] + [e] + q[k..]
  }

  lemma SpliceIndex<M>(a: seq<Entry<M>>, e: Entry<M>, b: seq<Entry<M>>, i: nat)
    requires i <= |a| + |b|
    ensures (a + [e] + b)[i] == if i < |a| then a[i] else if i == |a| then e else b[i - |a| - 1]
  {
  }

  lemma InsertedAtIndex<M>(q: seq<Entry<M>>, e: Entry<M>, i: nat)
    requires i <= |q|
    ensures var k := InsertPos(q, e.prio);
            InsertByPrio(q, e)[i] == if i < k then q[i] else if i == k then e else q[i - 1]
  {
    var k := InsertPos(q, e.prio);
    SpliceIndex(q[..k], e, q[k..], i);
  }

  lemma InsertedAt<M>(q: seq<Entry<M>>, e: Entry<M>)
    ensures var k := InsertPos(q, e.prio);
            forall i :: 0 <= i <= |q| ==>
              InsertByPrio(q, e)[i] == if i < k then q[i] else if i == k then e else q[i - 1]
  {
    var r, k := InsertByPrio(q, e), InsertPos(q, e.prio);
    forall i | 0 <= i <= |q| ensures r[i] == if i < k then q[i] else if i == k then e else q[i - 1] {
      InsertedAtIndex(q, e, i);
    }
    hide InsertByPrio;
    hide InsertPos;
  }

  // ---------- the linked form ----------

  class Node<M> {
    var msg: M
    var prio: int
    var next: Node?<M>
    var prev: Node?<M>

    constructor (msg: M, prio: int)
      ensures this.msg == msg && this.prio == prio
    {
      this.msg := msg;
      this.prio := prio;
      next, prev := null, null;
    }
  }

  class CommList<M> {
    const head: Node<M>
    const tail: Node<M>
    ghost var chain: seq<Node<M>>       // head sentinel, the nodes, tail sentinel
    ghost var entries: seq<Entry<M>>    // what the nodes between the sentinels carry
    ghost var footprint: set<Node<M>>   // the nodes of the chain, sentinels included

    /** `next` and `prev` are mutually inverse along the chain. */
    ghost predicate Linked()
      reads this, footprint
    {
      && 2 <= |chain| && chain[0] == head && chain[|chain| - 1] == tail
      && (forall i :: 0 <= i < |chain| ==> chain[i] in footprint)
      && (forall i, j :: 0 <= i < j < |chain| ==> chain[i] != chain[j])
      && (forall i {:trigger chain[i].next} :: 0 <= i < |chain| - 1 ==> chain[i].next == chain[i + 1])
      && (forall i {:trigger chain[i].prev} :: 0 < i < |chain| ==> chain[i].prev == chain[i - 1])
    }

    ghost predicate Valid()
      reads this, footprint
    {
      && Linked()
      && |entries| == |chain| - 2
      && (forall i :: 0 <= i < |entries| ==> entries[i] == Entry(chain[i + 1].prio, chain[i + 1].msg))
    }

    /** init_comm_lists links the two sentinels; head.prev and tail.next stay unset. */
    constructor (headNode: Node<M>, tailNode: Node<M>)
      requires headNode != tailNode
      modifies headNode`next, tailNode`prev
      ensures Valid() && entries == [] && chain == [headNode, tailNode] && footprint == {headNode, tailNode}
    {
      head := headNode;
      tail := tailNode;
      new;
      head.next := tail;
      tail.prev := head;
      chain := [head, tail];
      footprint := {head, tail};
      entries := [];
    }

    /** The callers' guard. */
    predicate IsEmpty()
      requires Valid()
      reads this, footprint
      ensures IsEmpty() <==> entries == []
    {
      assert head == chain[0] && head.next == chain[1];
      head.next == tail
    }

    /** The splice all insertions share: between chain[k] and its successor. */
    method Splice(node: Node<M>, pnode: Node<M>, nnode: Node<M>, ghost k: nat)
      requires Linked() && node !in footprint && k < |chain| - 1
      requires pnode == chain[k] && nnode == chain[k + 1]
      modifies this`chain, this`footprint, pnode`next, nnode`prev, node`next, node`prev
      ensures Linked() && footprint == old(footprint) + {node}
      ensures chain == old(chain)[..k + 1] + [node] + old(chain)[k + 1..]
    {
      pnode.next := node;
      node.next := nnode;
      node.prev := pnode;
      nnode.prev := node;
      chain := chain[..k + 1] + [node] + chain[k + 1..];
      footprint := footprint + {node};
    }

    method SpliceEntry(node: Node<M>, pnode: Node<M>, nnode: Node<M>, ghost k: nat)
      requires Valid() && node !in footprint && k <= |entries|
      requires pnode == chain[k] && nnode == chain[k + 1]
      modifies this`chain, this`footprint, this`entries, pnode`next, nnode`prev, node`next, node`prev
      ensures Valid() && footprint == old(footprint) + {node}
      ensures chain == old(chain)[..k + 1] + [node] + old(chain)[k + 1..]
      ensures entries == old(entries)[..k] + [Entry(node.prio, node.msg)] + old(entries)[k..]
    {
      Splice(node, pnode, nnode, k);
      entries := entries[..k] + [Entry(node.prio, node.msg)] + entries[k..];
      forall i | 0 <= i < |entries| ensures entries[i] == Entry(chain[i + 1].prio, chain[i + 1].msg) {
        assert chain[i + 1] == if i < k then old(chain)[i + 1] else if i == k then node else old(chain)[i];
      }
    }

    method InsertHead(node: Node<M>)
      requires Valid() && node !in footprint
      modifies this, footprint, node`next, node`prev
      ensures Valid() && footprint == old(footprint) + {node}
      ensures chain == [head, node] + old(chain)[1..]
      ensures entries == [Entry(node.prio, node.msg)] + old(entries)
    {
      SpliceEntry(node, head, head.next, 0);
    }

    /** The scan of insert_list_sorted: from the head while the next key is smaller. */
    method ScanSorted(prio: int) returns (cur: Node<M>, ghost k: nat)
      requires Valid()
      ensures k == InsertPos(entries, prio) && cur == chain[k]
    {
      cur := head;
      k := 0;
      while cur.next != tail && prio > cur.next.prio
        invariant 0 <= k <= |entries| && cur == chain[k]
        invariant forall i :: 0 <= i < k ==> prio > entries[i].prio
        decreases |chain| - k
      {
        assert cur.next == chain[k + 1] && k < |entries|;
        cur := cur.next;
        k := k + 1;
      }
      assert cur.next == chain[k + 1];
      assert k < |entries| ==> prio <= entries[k].prio;
    }

    method InsertSorted(node: Node<M>) returns (ghost k: nat)
      requires Valid() && node !in footprint
      modifies this, footprint, node`next, node`prev
      ensures Valid() && footprint == old(footprint) + {node}
      ensures k == InsertPos(old(entries), node.prio)
      ensures chain == old(chain)[..k + 1] + [node] + old(chain)[k + 1..]
      ensures entries == InsertByPrio(old(entries), Entry(node.prio, node.msg))
    {
      var cur;
      cur, k := ScanSorted(node.prio);
      SpliceEntry(node, cur, cur.next, k);
    }

    /** Under the callers' guard the node before the last one is never null, so the error
        exit is not taken. */
    method RemoveTail() returns (node: Node<M>)
      requires Valid() && !IsEmpty()
      modifies this, footprint
      ensures Valid() && node in old(footprint) && footprint == old(footprint) - {node}
      ensures node == old(chain)[|old(chain)| - 2] && node.next == null && node.prev == null
      ensures chain == old(chain)[..|old(chain)| - 2] + [tail]
      ensures Entry(node.prio, node.msg) == old(entries)[|old(entries)| - 1]
      ensures entries == old(entries)[..|old(entries)| - 1]
    {
      assert |chain| > 2;
      node := tail.prev;
      var pnode := tail.prev.prev;
      node.prev := null;
      node.next := null;
      tail.prev := pnode;
      pnode.next := tail;
      chain := chain[..|chain| - 2] + [tail];
      entries := entries[..|entries| - 1];
      footprint := footprint - {node};
    }
  }
}
