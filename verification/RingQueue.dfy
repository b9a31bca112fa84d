/** The bounded queue of logical block addresses (vssd_code/queue.c): a circular
    buffer whose three cursors are updated in place, proved against a FIFO sequence. */
module RingQueues {

  class RingQueue {
    const capacity: nat
    const elements: array<int>
    var size: int
    var front: int
    var tail: int

    ghost var contents: seq<int>   // the elements still queued, oldest first

    /** The slot that lies i places after the front, going round the buffer. */
    ghost function Slot(i: nat): int
      reads this
    {
      if front + i < capacity then front + i else front + i - capacity
    }

    ghost predicate Valid()
      reads this, elements
    {
      && elements.Length == capacity
      && size == |contents| <= capacity
      && 0 <= front
      && (0 < capacity ==> front < capacity)
      && (capacity == 0 ==> front == 0)
      && -1 <= tail < capacity
      && (|| tail == front + size - 1
          || tail == front + size - 1 - capacity
          || (size == 0 && front == 0 && tail == capacity - 1))
      && (forall i :: 0 <= i < size ==> contents[i] == elements[Slot(i)])
    }

    constructor (maxElement: nat)
      ensures Valid() && fresh(elements)
      ensures capacity == maxElement && contents == []
    {
      capacity := maxElement;
      elements := new int[maxElement];
      size := 0;
      front := 0;
      tail := -1;
      contents := [];
    }

    /** An empty queue answers -1 and is left as it was. */
    method Dequeue() returns (element: int)
      requires Valid()
      modifies this
      ensures Valid()
      ensures old(contents) == [] ==> element == -1 && contents == []
      ensures old(contents) != [] ==> [element] + contents == old(contents)
    {
      if size == 0 {
        return -1;
      }
      element := elements[front];
      size := size - 1;
      front := front + 1;
      contents := contents[1..];
      if front == capacity {
        front := 0;
      }
    }

    /** A full queue answers -1 and is left as it was. */
    method Enqueue(element: int) returns (status: int)
      requires Valid()
      modifies this, elements
      ensures Valid()
      ensures status == if |old(contents)| == capacity then -1 else 0
      ensures contents == old(contents) + (if status == 0 then [element] else [])
    {
      if size == capacity {
        return -1;
      }
      size := size + 1;
      tail := tail + 1;
      if tail == capacity {
        tail := 0;
      }
      elements[tail] := element;
      contents := contents + [element];
      return 0;
    }
  }

  /** The LBAs lo, lo + 1, ..., hi - 1. */
  function Range(lo: nat, hi: nat): (s: seq<int>)
    requires lo <= hi
    ensures |s| == hi - lo && forall i :: 0 <= i < |s| ==> s[i] == lo + i
  {
    seq(hi - lo, i => lo + i)
  }

  /** A new queue holding LBAs lo to lo + n - 1, in order. */
  method FillQueue(capacity: nat, lo: nat, n: nat) returns (q: RingQueue)
    requires n <= capacity
    ensures q.Valid() && q.capacity == capacity && q.contents == Range(lo, lo + n) && fresh(q) && fresh(q.elements)
  {
    q := new RingQueue(capacity);
    hide RingQueue.Valid;
    for j := 0 to n
      invariant q.Valid() && q.capacity == capacity && q.contents == Range(lo, lo + j) && fresh(q) && fresh(q.elements)
    {
      var status := q.Enqueue(lo + j);
    }
  }
}
