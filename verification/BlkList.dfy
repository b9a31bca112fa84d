/** The singly linked block lists of vssd_code/blklist.c and the list helpers of
    vssd_code/vssd.c. The free lists are kept in descending, the allocated lists in
    ascending order of erase count; both are spliced in place through `next`. */
module BlkLists {
  import opened Ppas

  /** What one list node records: a physical block and its erase count. */
  datatype Blk = Blk(ppa: Ppa, data: int)

  // ---------- specification on sequences ----------

  function InsertDesc(s: seq<Blk>, b: Blk): (r: seq<Blk>)
    ensures |r| == |s| + 1
  {
    if s == [] then [b]
    else if s[0].data <= b.data then [b] + s
    else [s[0]] + InsertDesc(s[1..], b)
  }

  function InsertAsc(s: seq<Blk>, b: Blk): (r: seq<Blk>)
    ensures |r| == |s| + 1
  {
    if s == [] then [b]
    else if s[0].data >= b.data then [b] + s
    else [s[0]] + InsertAsc(s[1..], b)
  }

  /** Position of the first block with the given address, |s| when there is none. */
  function IndexOf(s: seq<Blk>, ppa: Ppa): (k: nat)
    ensures k <= |s|
    ensures k < |s| ==> s[k].ppa == ppa
    ensures forall i :: 0 <= i < k ==> s[i].ppa != ppa
  {
    if s == [] || s[0].ppa == ppa then 0 else 1 + IndexOf(s[1..], ppa)
  }

  function RemoveAt(s: seq<Blk>, k: nat): (r: seq<Blk>)
    requires k < |s|
  {
    s[..k] + s[k + 1..]
  }

  ghost predicate Descending(s: seq<Blk>) {
    forall i, j :: 0 <= i < j < |s| ==> s[i].data >= s[j].data
  }

  ghost predicate Ascending(s: seq<Blk>) {
    forall i, j :: 0 <= i < j < |s| ==> s[i].data <= s[j].data
  }

  /** Insertion happens in front of the first block that is no more worn. */
  lemma {:induction false} InsertDescAt(s: seq<Blk>, b: Blk, p: nat)
    requires p <= |s|
    requires forall i :: 0 <= i < p ==> s[i].data > b.data
    requires p < |s| ==> s[p].data <= b.data
    ensures InsertDesc(s, b) == s[..p] + [b] + s[p..]
  {
    if p > 0 {
      InsertDescAt(s[1..], b, p - 1);
    }
  }

  lemma {:induction false} InsertAscAt(s: seq<Blk>, b: Blk, p: nat)
    requires p <= |s|
    requires forall i :: 0 <= i < p ==> s[i].data < b.data
    requires p < |s| ==> s[p].data >= b.data
    ensures InsertAsc(s, b) == s[..p] + [b] + s[p..]
  {
    if p > 0 {
      InsertAscAt(s[1..], b, p - 1);
    }
  }

  lemma {:induction false} InsertDescMultiset(s: seq<Blk>, b: Blk)
    ensures multiset(InsertDesc(s, b)) == multiset(s) + multiset{b}
  {
    if s != [] && s[0].data > b.data {
      InsertDescMultiset(s[1..], b);
      var r := InsertDesc(s[1..], b);
      assert InsertDesc(s, b) == [s[0]] + r;
      hide InsertDesc;
      assert s == [s[0]] + s[1..];
      assert multiset([s[0]] + r) == multiset{s[0]} + multiset(r);
    }
  }

  lemma {:induction false} InsertDescHolds(s: seq<Blk>, b: Blk, x: Blk)
    requires x in InsertDesc(s, b)
    ensures x in s || x == b
  {
    if s != [] && s[0].data > b.data && x != s[0] {
      InsertDescHolds(s[1..], b, x);
    }
  }

  lemma PrependDesc(x: Blk, r: seq<Blk>)
    requires Descending(r) && forall y :: y in r ==> x.data >= y.data
    ensures Descending([x] + r)
  {
  }

  lemma {:induction false} InsertDescSorted(s: seq<Blk>, b: Blk)
    requires Descending(s)
    ensures Descending(InsertDesc(s, b))
  {
    if s != [] && s[0].data > b.data {
      InsertDescSorted(s[1..], b);
      forall y | y in InsertDesc(s[1..], b) ensures s[0].data >= y.data {
        InsertDescHolds(s[1..], b, y);
      }
      PrependDesc(s[0], InsertDesc(s[1..], b));
      hide Descending;
    }
  }

  lemma {:induction false} InsertAscMultiset(s: seq<Blk>, b: Blk)
    ensures multiset(InsertAsc(s, b)) == multiset(s) + multiset{b}
  {
    if s != [] && s[0].data < b.data {
      InsertAscMultiset(s[1..], b);
      var r := InsertAsc(s[1..], b);
      assert InsertAsc(s, b) == [s[0]] + r;
      hide InsertAsc;
      assert s == [s[0]] + s[1..];
      assert multiset([s[0]] + r) == multiset{s[0]} + multiset(r);
    }
  }

  lemma {:induction false} InsertAscHolds(s: seq<Blk>, b: Blk, x: Blk)
    requires x in InsertAsc(s, b)
    ensures x in s || x == b
  {
    if s != [] && s[0].data < b.data && x != s[0] {
      InsertAscHolds(s[1..], b, x);
    }
  }

  lemma PrependAsc(x: Blk, r: seq<Blk>)
    requires Ascending(r) && forall y :: y in r ==> x.data <= y.data
    ensures Ascending([x] + r)
  {
  }

  lemma {:induction false} InsertAscSorted(s: seq<Blk>, b: Blk)
    requires Ascending(s)
    ensures Ascending(InsertAsc(s, b))
  {
    if s != [] && s[0].data < b.data {
      InsertAscSorted(s[1..], b);
      forall y | y in InsertAsc(s[1..], b) ensures s[0].data <= y.data {
        InsertAscHolds(s[1..], b, y);
      }
      PrependAsc(s[0], InsertAsc(s[1..], b));
      hide Ascending;
    }
  }

  lemma RemoveAtMultiset(s: seq<Blk>, k: nat)
    requires k < |s|
    ensures multiset(s) == multiset(RemoveAt(s, k)) + multiset{s[k]}
  {
    assert s == s[..k] + ([s[k]] + s[k + 1..]);
  }

  lemma RemoveAtSorted(s: seq<Blk>, k: nat)
    requires k < |s| && Ascending(s)
    ensures Ascending(RemoveAt(s, k))
  {
    var r := RemoveAt(s, k);
    forall i, j | 0 <= i < j < |r| ensures r[i].data <= r[j].data {
      assert r[i] == s[if i < k then i else i + 1] && r[j] == s[if j < k then j else j + 1];
    }
  }

  // ---------- the linked lists ----------

  class Node {
    var ppa: Ppa
    var data: int
    var next: Node?

    constructor (ppa: Ppa, data: int)
      ensures this.ppa == ppa && this.data == data && next == null
    {
      this.ppa := ppa;
      this.data := data;
      next := null;
    }
  }

  ghost function BlkOf(n: Node): Blk
    reads n
  {
    Blk(n.ppa, n.data)
  }

  class BlkList {
    var head: Node?
    ghost var nodes: seq<Node>
    ghost var contents: seq<Blk>
    ghost var footprint: set<Node>

    /** `nodes` is the chain from `head` to the null link, each node once. */
    ghost predicate Linked()
      reads this, footprint
    {
      && (forall i :: 0 <= i < |nodes| ==> nodes[i] in footprint)
      && (forall i, j :: 0 <= i < j < |nodes| ==> nodes[i] != nodes[j])
      && head == (if nodes == [] then null else nodes[0])
      && (forall i {:trigger nodes[i].next} :: 0 <= i < |nodes| - 1 ==> nodes[i].next == nodes[i + 1])
      && (nodes != [] ==> nodes[|nodes| - 1].next == null)
    }

    /** `contents` is what those nodes record. */
    ghost predicate Valid()
      reads this, footprint
    {
      && Linked()
      && |contents| == |nodes|
      && (forall i :: 0 <= i < |nodes| ==> contents[i] == BlkOf(nodes[i]))
    }

    constructor ()
      ensures Valid() && nodes == [] && contents == [] && footprint == {}
    {
      head := null;
      nodes, contents, footprint := [], [], {};
    }

    method SpliceFront(node: Node)
      requires Valid() && node !in footprint
      modifies this, node`next
      ensures Valid() && footprint == old(footprint) + {node} && nodes == [node] + old(nodes)
      ensures contents == [old(BlkOf(node))] + old(contents)
    {
      node.next := head;
      head := node;
      nodes, contents, footprint := [node] + nodes, [BlkOf(node)] + contents, footprint + {node};
    }

    method LinkAfter(current: Node, node: Node, ghost p: nat)
      requires Linked() && node !in footprint
      requires 1 <= p <= |nodes| && current == nodes[p - 1]
      modifies this`nodes, this`footprint, node`next, current`next
      ensures Linked() && footprint == old(footprint) + {node}
      ensures nodes == old(nodes)[..p] + [node] + old(nodes)[p..]
    {
      node.next := current.next;
      current.next := node;
      nodes := nodes[..p] + [node] + nodes[p..];
      footprint := footprint + {node};
    }

    method SpliceAfter(current: Node, node: Node, ghost p: nat)
      requires Valid() && node !in footprint
      requires 1 <= p <= |nodes| && current == nodes[p - 1]
      modifies this`nodes, this`contents, this`footprint, node`next, current`next
      ensures Valid() && footprint == old(footprint) + {node}
      ensures nodes == old(nodes)[..p] + [node] + old(nodes)[p..]
      ensures contents == old(contents)[..p] + [old(BlkOf(node))] + old(contents)[p..]
    {
      LinkAfter(current, node, p);
      contents := contents[..p] + [BlkOf(node)] + contents[p..];
    }

    /** The last node before the insertion point, for a list whose head stays first. */
    method ScanDesc(data: int) returns (current: Node, ghost p: nat)
      requires Valid() && head != null && head.data > data
      ensures 1 <= p <= |nodes| && current == nodes[p - 1]
      ensures forall i :: 0 <= i < p ==> nodes[i].data > data
      ensures p < |nodes| ==> nodes[p].data <= data
    {
      current := head;
      p := 1;
      while current.next != null && current.next.data > data
        invariant 1 <= p <= |nodes| && current == nodes[p - 1]
        invariant forall i :: 0 <= i < p ==> nodes[i].data > data
        decreases |nodes| - p
      {
        current := current.next;
        p := p + 1;
      }
    }

    /** add_free_list, add_list_v: keep the most worn block first. */
    method AddDesc(node: Node) returns (ghost p: nat)
      requires Valid() && node !in footprint
      modifies this, footprint, node
      ensures Valid() && footprint == old(footprint) + {node}
      ensures p <= |old(nodes)| && nodes == old(nodes)[..p] + [node] + old(nodes)[p..]
      ensures contents == InsertDesc(old(contents), old(BlkOf(node)))
      ensures unchanged(node`ppa) && unchanged(node`data)
    {
      if head == null || head.data <= node.data {
        InsertDescAt(contents, BlkOf(node), 0);
        SpliceFront(node);
        return 0;
      }
      var current;
      current, p := ScanDesc(node.data);
      InsertDescAt(contents, BlkOf(node), p);
      SpliceAfter(current, node, p);
    }

    /** The last node before the insertion point, for a list whose head stays first. */
    method ScanAsc(data: int) returns (current: Node, ghost p: nat)
      requires Valid() && head != null && head.data < data
      ensures 1 <= p <= |nodes| && current == nodes[p - 1]
      ensures forall i :: 0 <= i < p ==> nodes[i].data < data
      ensures p < |nodes| ==> nodes[p].data >= data
    {
      current := head;
      p := 1;
      while current.next != null && current.next.data < data
        invariant 1 <= p <= |nodes| && current == nodes[p - 1]
        invariant forall i :: 0 <= i < p ==> nodes[i].data < data
        decreases |nodes| - p
      {
        current := current.next;
        p := p + 1;
      }
    }

    /** add_alloc_list: keep the least worn block first. */
    method AddAsc(node: Node) returns (ghost p: nat)
      requires Valid() && node !in footprint
      modifies this, footprint, node
      ensures Valid() && footprint == old(footprint) + {node}
      ensures p <= |old(nodes)| && nodes == old(nodes)[..p] + [node] + old(nodes)[p..]
      ensures contents == InsertAsc(old(contents), old(BlkOf(node)))
      ensures unchanged(node`ppa) && unchanged(node`data)
    {
      if head == null || head.data >= node.data {
        InsertAscAt(contents, BlkOf(node), 0);
        SpliceFront(node);
        return 0;
      }
      var current;
      current, p := ScanAsc(node.data);
      InsertAscAt(contents, BlkOf(node), p);
      SpliceAfter(current, node, p);
    }

    /** del_free_list, pop_list_v: detach the head, or answer null on an empty list. */
    method Pop() returns (node: Node?)
      requires Valid()
      modifies this, footprint
      ensures Valid()
      ensures old(contents) == [] ==> node == null && contents == [] && nodes == [] && footprint == old(footprint)
      ensures old(contents) != [] ==> node != null && [node] + nodes == old(nodes)
      ensures node != null ==> BlkOf(node) == old(contents)[0] && contents == old(contents)[1..]
      ensures node != null ==> node in old(footprint) && footprint == old(footprint) - {node}
    {
      if head == null {
        return null;
      }
      node := head;
      head := node.next;
      node.next := null;
      nodes, contents, footprint := nodes[1..], contents[1..], footprint - {node};
    }

    method Unlink(current: Node, curNext: Node, ghost p: nat)
      requires Valid()
      requires 1 <= p < |nodes| && current == nodes[p - 1] && curNext == nodes[p]
      modifies this`nodes, this`contents, this`footprint, current`next, curNext`next
      ensures Valid() && footprint == old(footprint) - {curNext}
      ensures nodes == old(nodes)[..p] + old(nodes)[p + 1..]
      ensures contents == RemoveAt(old(contents), p)
    {
      current.next := curNext.next;
      curNext.next := null;
      nodes, contents := nodes[..p] + nodes[p + 1..], RemoveAt(contents, p);
      footprint := footprint - {curNext};
    }

    /** Walk from the second node to the first one with this address. */
    method ScanPpa(ppa: Ppa) returns (current: Node, curNext: Node?, ghost p: nat)
      requires Valid() && head != null && head.ppa != ppa
      ensures 1 <= p <= |nodes| && current == nodes[p - 1]
      ensures curNext == if p < |nodes| then nodes[p] else null
      ensures p == IndexOf(contents, ppa)
    {
      current := head;
      curNext := current.next;
      p := 1;
      while curNext != null && curNext.ppa != ppa
        invariant 1 <= p <= |nodes| && current == nodes[p - 1]
        invariant curNext == if p < |nodes| then nodes[p] else null
        invariant forall i :: 0 <= i < p ==> nodes[i].ppa != ppa
        decreases |nodes| - p
      {
        current := curNext;
        curNext := curNext.next;
        p := p + 1;
      }
    }

    /** find_alloc_list: detach the first node with this address, or answer null. */
    method Find(ppa: Ppa) returns (node: Node?, ghost k: nat)
      requires Valid()
      modifies this, footprint
      ensures Valid()
      ensures k == IndexOf(old(contents), ppa)
      ensures k == |old(contents)| ==> node == null && contents == old(contents) && footprint == old(footprint)
      ensures k < |old(contents)| ==> node != null && node in old(footprint) && footprint == old(footprint) - {node}
      ensures k < |old(contents)| ==> BlkOf(node) == old(contents)[k] && contents == RemoveAt(old(contents), k)
    {
      if head == null {
        return null, 0;
      }
      if head.ppa == ppa {
        node := Pop();
        return node, 0;
      }
      var current, curNext, p := ScanPpa(ppa);
      if curNext != null {
        Unlink(current, curNext, p);
      }
      return curNext, p;
    }
  }
}
