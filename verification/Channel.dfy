/** The allocator in place: the operations of vssd_code/channel.c on the mapping table, the
    LBA queue and the linked block lists of one channel, proved against Allocator and
    against the opening of a channel in Devices. */
module Channels {
  import opened Ppas
  import opened RingQueues
  import opened BlkLists
  import opened BadBlocks
  import opened FreeScan
  import opened Allocator
  import opened Devices

  /** What an allocation answers; both failures end the process. */
  datatype Answer = Lba(lba: int) | NoBlock | NoAddress

  ghost predicate Apart(a: BlkList, b: BlkList)
    reads a, b
  {
    a != b && a.footprint !! b.footprint
  }

  /** The common text of alloc_block and alloc_superblock, on the lists of one kind. */
  method AllocFrom(table: array<Ppa>, queue: RingQueue, free: BlkList, alloc: BlkList) returns (r: Answer)
    requires queue.Valid() && free.Valid() && alloc.Valid() && Apart(free, alloc)
    requires free.contents != [] && queue.contents != [] ==> 0 <= queue.contents[0] < table.Length
    modifies table, queue, free, free.footprint, alloc, alloc.footprint
    ensures r == if old(free.contents) == [] then NoBlock
                 else if old(queue.contents) == [] then NoAddress
                 else Lba(old(queue.contents)[0])
    ensures r.Lba? ==>
              && queue.Valid() && queue.contents == old(queue.contents)[1..]
              && table[..] == old(table[..])[r.lba := old(free.contents)[0].ppa]
    ensures r.Lba? ==>
              && free.Valid() && alloc.Valid() && Apart(free, alloc)
              && free.contents == old(free.contents)[1..]
              && alloc.contents == InsertAsc(old(alloc.contents), old(free.contents)[0])
              && free.footprint + alloc.footprint == old(free.footprint + alloc.footprint)
  {
    hide BlkList.Valid;
    hide RingQueue.Valid;
    var freeBlk := free.Pop();
    if freeBlk == null {
      return NoBlock;
    }
    var ppa := freeBlk.ppa;
    ghost var waiting := queue.contents;
    var lba := queue.Dequeue();
    if lba == -1 {
      return NoAddress;
    }
    assert lba == waiting[0] && queue.contents == waiting[1..];
    table[lba] := ppa;
    assert freeBlk !in free.footprint && freeBlk !in alloc.footprint;
    var p := alloc.AddAsc(freeBlk);
    return Lba(lba);
  }

  /** The common tail of free_block and free_superblock: the LBA goes back to the queue,
      its entry is cleared, and the block moves to the free list with its new wear. */
  method FreeTo(table: array<Ppa>, queue: RingQueue, free: BlkList, alloc: BlkList, lba: nat, data: nat)
    requires queue.Valid() && free.Valid() && alloc.Valid() && Apart(free, alloc)
    requires lba < table.Length && |queue.contents| < queue.capacity
    requires IndexOf(alloc.contents, table[lba]) < |alloc.contents|
    modifies table, queue, queue.elements, free, free.footprint, alloc, alloc.footprint
    ensures queue.Valid() && queue.contents == old(queue.contents) + [lba]
    ensures table[..] == old(table[..])[lba := UNMAPPED]
    ensures free.Valid() && alloc.Valid() && Apart(free, alloc)
    ensures alloc.contents == RemoveAt(old(alloc.contents), IndexOf(old(alloc.contents), old(table[lba])))
    ensures free.contents == InsertDesc(old(free.contents), Blk(old(table[lba]), data))
    ensures free.footprint + alloc.footprint == old(free.footprint + alloc.footprint)
  {
    hide BlkList.Valid;
    hide RingQueue.Valid;
    var ppa := table[lba];
    var status := queue.Enqueue(lba);
    table[lba] := UNMAPPED;
    ghost var before := alloc.contents;
    var node, k := alloc.Find(ppa);
    assert BlkOf(node) == before[k];
    assert node !in free.footprint && node !in alloc.footprint;
    Relabel(node, data, free, alloc);
    var p := free.AddDesc(node);
  }

  /** The new wear is written into a node that is on neither list. */
  method Relabel(node: Node, data: nat, free: BlkList, alloc: BlkList)
    requires free.Valid() && alloc.Valid() && node !in free.footprint && node !in alloc.footprint
    modifies node`data
    ensures node.data == data && free.Valid() && alloc.Valid()
  {
    node.data := data;
  }

  /** init_mapping_table, table part. */
  method InitMappingTable(h: Hw, before: array?<Ppa>, ch: nat) returns (table: array<Ppa>)
    requires h.Valid() && ch < CHANNELS
    requires before != null ==> before.Length == CHANNELS * ChannelBlocks(h.g)
    modifies before
    ensures table[..] == TableWith(h, if before == null then [] else old(before[..]), ch)
    ensures before == null ==> fresh(table)
    ensures before != null ==> table == before
  {
    var n := ChannelBlocks(h.g);
    SliceFits(h, ch);
    if before == null {
      table := new Ppa[CHANNELS * n](_ => UNMAPPED);
      return;
    }
    var lo := ch * n;
    forall i | lo <= i < lo + n {
      before[i] := Ppa(0);
    }
    table := before;
  }

  /** erase_all_blk_chl: the two scans, each onto a new list. */
  method BuildLists(h: Hw, ch: nat) returns (free: BlkList, freeSuper: BlkList)
    requires h.Valid()
    ensures free.Valid() && fresh(free) && fresh(free.footprint) && free.contents == Blks(Blocks(h, ch))
    ensures freeSuper.Valid() && fresh(freeSuper) && fresh(freeSuper.footprint)
    ensures freeSuper.contents == Blks(Superblocks(h, ch)) && Apart(free, freeSuper)
  {
    free := new BlkList();
    var n := BuildFreeList(free, h.g, h.bad, h.mask, ch);
    hide BlkList.Valid;
    freeSuper := new BlkList();
    n := BuildSuperList(freeSuper, h.g, h.bad, h.mask, ch);
  }

  method SetUp(h: Hw, before: array?<Ppa>, ch: nat)
    returns (table: array<Ppa>, queue: RingQueue, free: BlkList, freeSuper: BlkList)
    requires h.Valid() && ch < CHANNELS
    requires before != null ==> before.Length == CHANNELS * ChannelBlocks(h.g)
    modifies before
    ensures table[..] == TableWith(h, if before == null then [] else old(before[..]), ch)
    ensures queue.Valid() && queue.capacity == CHANNELS * ChannelBlocks(h.g)
    ensures free.Valid() && freeSuper.Valid() && Apart(free, freeSuper)
    ensures fresh(queue) && fresh(free) && fresh(freeSuper) && fresh(free.footprint) && fresh(freeSuper.footprint)
    ensures NewChan(h, ch) == Chan(queue.contents, Lists(free.contents, []), Lists(freeSuper.contents, []))
  {
    var n := ChannelBlocks(h.g);
    SliceFits(h, ch);
    table := InitMappingTable(h, before, ch);
    hide TableWith;
    hide RingQueue.Valid;
    hide BlkList.Valid;
    queue := FillQueue(CHANNELS * n, ch * n, n);
    free, freeSuper := BuildLists(h, ch);
  }

  class Channel {
    const table: array<Ppa>
    const queue: RingQueue
    const free: BlkList
    const alloc: BlkList
    const freeSuper: BlkList
    const allocSuper: BlkList
    var ers: Counters

    ghost predicate Valid()
      reads queue, queue.elements, free, free.footprint, alloc, alloc.footprint
      reads freeSuper, freeSuper.footprint, allocSuper, allocSuper.footprint
    {
      && queue.Valid() && free.Valid() && alloc.Valid() && freeSuper.Valid() && allocSuper.Valid()
      && Apart(free, alloc) && Apart(freeSuper, allocSuper)
      && {free, alloc} !! {freeSuper, allocSuper}
      && free.footprint + alloc.footprint !! freeSuper.footprint + allocSuper.footprint
    }

    /** The value of the channel, with the table and the counters it shares. */
    ghost function Abs(): State
      reads this, table, queue, free, alloc, freeSuper, allocSuper
    {
      State(table[..], ers, Chan(queue.contents, Lists(free.contents, alloc.contents),
                                 Lists(freeSuper.contents, allocSuper.contents)))
    }

    /** alloc_channel: counters reset, lists built from the scan, table and queue set up. */
    constructor (h: Hw, before: array?<Ppa>, ers: Counters, ch: nat)
      requires h.Valid() && ch < CHANNELS
      requires before != null ==> before.Length == CHANNELS * ChannelBlocks(h.g)
      modifies before
      ensures Valid() && queue.capacity == CHANNELS * ChannelBlocks(h.g)
      ensures table[..] == TableWith(h, if before == null then [] else old(before[..]), ch)
      ensures this.ers == CountersReset(ers, ch) && Abs().chan == NewChan(h, ch)
    {
      hide BlkList.Valid;
      hide RingQueue.Valid;
      hide TableWith;
      hide ChannelBlocks;
      hide NewChan;
      var tbl, waiting, blocks, superblocks := SetUp(h, before, ch);
      table, queue, free, freeSuper := tbl, waiting, blocks, superblocks;
      alloc := new BlkList();
      allocSuper := new BlkList();
      this.ers := CountersReset(ers, ch);
    }

    /** alloc_block. */
    method AllocBlock() returns (r: Answer)
      requires Valid() && !Allocator.AllocBlock(Abs(), Block).Fault?
      modifies table, queue, free, free.footprint, alloc, alloc.footprint
      ensures match Allocator.AllocBlock(old(Abs()), Block)
              case Next(s) => Valid() && Abs() == s && r == Lba(old(queue.contents[0]))
              case NoFreeBlock => r == NoBlock
              case NoLba => r == NoAddress
              case Fault => false
    {
      hide BlkList.Valid;
      hide RingQueue.Valid;
      r := AllocFrom(table, queue, free, alloc);
    }

    /** alloc_superblock. */
    method AllocSuperblock() returns (r: Answer)
      requires Valid() && !Allocator.AllocBlock(Abs(), Superblock).Fault?
      modifies table, queue, freeSuper, freeSuper.footprint, allocSuper, allocSuper.footprint
      ensures match Allocator.AllocBlock(old(Abs()), Superblock)
              case Next(s) => Valid() && Abs() == s && r == Lba(old(queue.contents[0]))
              case NoFreeBlock => r == NoBlock
              case NoLba => r == NoAddress
              case Fault => false
    {
      hide BlkList.Valid;
      hide RingQueue.Valid;
      r := AllocFrom(table, queue, freeSuper, allocSuper);
    }

    /** free_block. */
    method FreeBlock(lba: nat)
      requires Valid() && |queue.contents| < queue.capacity && Allocator.FreeBlock(Abs(), Block, lba, 0).Next?
      modifies this`ers, table, queue, queue.elements, free, free.footprint, alloc, alloc.footprint
      ensures Valid() && Next(Abs()) == Allocator.FreeBlock(old(Abs()), Block, lba, 0)
    {
      hide BlkList.Valid;
      hide RingQueue.Valid;
      var ppa := table[lba];
      ers := Erased(ers, ppa);
      FreeTo(table, queue, free, alloc, lba, Count(ers, ppa));
    }

    /** free_superblock; count is what the erase counter of the superblock reads. */
    method FreeSuperblock(lba: nat, count: nat)
      requires Valid() && |queue.contents| < queue.capacity && Allocator.FreeBlock(Abs(), Superblock, lba, count).Next?
      modifies table, queue, queue.elements, freeSuper, freeSuper.footprint, allocSuper, allocSuper.footprint
      ensures Valid() && Next(Abs()) == Allocator.FreeBlock(old(Abs()), Superblock, lba, count)
    {
      hide BlkList.Valid;
      hide RingQueue.Valid;
      FreeTo(table, queue, freeSuper, allocSuper, lba, count);
    }
  }
}
