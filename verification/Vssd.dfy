/** The block and page bookkeeping of one vSSD on its one channel (vssd_code/vssd.c). */
module Vssds {
  import opened Options
  import opened Ppas
  import opened RingQueues
  import opened BlkLists
  import opened BadBlocks
  import opened FreeScan
  import opened History

  /** What alloc_block_v answers; both failures end the process. */
  datatype Alloc = Lba(lba: nat) | NoFreeBlock | NoLba

  /** ret_blks_v: move up to lim blocks from the allocated to the free list. */
  function Returned(alloc: seq<Blk>, free: seq<Blk>, lim: nat): (seq<Blk>, seq<Blk>) {
    if lim == 0 || alloc == [] then (alloc, free)
    else Returned(alloc[1..], InsertDesc(free, alloc[0]), lim - 1)
  }

  /** The move loses and duplicates nothing ... */
  lemma {:induction false} ReturnedConserves(alloc: seq<Blk>, free: seq<Blk>, lim: nat)
    ensures var (a, f) := Returned(alloc, free, lim);
            && multiset(a) + multiset(f) == multiset(alloc) + multiset(free)
            && |a| == (if lim <= |alloc| then |alloc| - lim else 0)
            && |a| + |f| == |alloc| + |free|
  {
    if lim > 0 && alloc != [] {
      ReturnedConserves(alloc[1..], InsertDesc(free, alloc[0]), lim - 1);
      InsertDescMultiset(free, alloc[0]);
      assert alloc == [alloc[0]] + alloc[1..];
    }
  }

  /** ... and keeps the free list in order. */
  lemma {:induction false} ReturnedSorted(alloc: seq<Blk>, free: seq<Blk>, lim: nat)
    requires Descending(free)
    ensures Descending(Returned(alloc, free, lim).1)
  {
    if lim > 0 && alloc != [] {
      InsertDescSorted(free, alloc[0]);
      ReturnedSorted(alloc[1..], InsertDesc(free, alloc[0]), lim - 1);
    }
  }

  // ---------- any run of alloc_block_v and ret_blks_v ----------

  /** The LBA queue, the two lists and the block counter. */
  datatype Stock = Stock(q: seq<int>, free: seq<Blk>, alloc: seq<Blk>, size: int)

  datatype StockOp = Take | Return(lim: nat)

  /** Ended holds the stock before the call that ends the process, and why it does. */
  datatype StockRun = Now(s: Stock) | Ended(s: Stock, why: Alloc)

  function Perform(s: Stock, op: StockOp): StockRun {
    match op
    case Take =>
      if s.free == [] then Ended(s, NoFreeBlock)
      else if s.q == [] then Ended(s, NoLba)
      else Now(Stock(s.q[1..], s.free[1..], InsertDesc(s.alloc, s.free[0]), s.size - 1))
    case Return(lim) =>
      var (a, f) := Returned(s.alloc, s.free, lim);
      Now(Stock(s.q, f, a, s.size + |f| - |s.free|))
  }

  function PerformAll(s: Stock, ops: seq<StockOp>): StockRun
    decreases |ops|
  {
    if ops == [] then Now(s)
    else match Perform(s, ops[0])
         case Now(s') => PerformAll(s', ops[1..])
         case ended => ended
  }

  function Takes(ops: seq<StockOp>): nat {
    if ops == [] then 0 else (if ops[0].Take? then 1 else 0) + Takes(ops[1..])
  }

  ghost predicate SameBlocks(s: Stock, s': Stock) {
    && multiset(s'.alloc) + multiset(s'.free) == multiset(s.alloc) + multiset(s.free)
    && s'.size - |s'.free| == s.size - |s.free|
  }

  lemma PerformConserves(s: Stock, op: StockOp)
    ensures SameBlocks(s, Perform(s, op).s)
  {
    match op
    case Take =>
      if s.free != [] && s.q != [] {
        InsertDescMultiset(s.alloc, s.free[0]);
        assert s.free == [s.free[0]] + s.free[1..];
      }
    case Return(lim) => ReturnedConserves(s.alloc, s.free, lim);
  }

  /** On any run the blocks are conserved and the counter stays off by a constant. LBAs are
      only ever used up: the process ends for want of one exactly when a free block is left
      but all LBAs have been taken. */
  lemma {:induction false} BlocksConserved(s: Stock, ops: seq<StockOp>)
    ensures var r := PerformAll(s, ops);
            && SameBlocks(s, r.s)
            && (r.Now? ==> Takes(ops) <= |s.q| && r.s.q == s.q[Takes(ops)..])
            && (r.Ended? ==> (r.why == NoFreeBlock && r.s.free == [])
                             || (r.why == NoLba && r.s.free != [] && r.s.q == [] && Takes(ops) > |s.q|))
    decreases |ops|
  {
    if ops != [] {
      PerformConserves(s, ops[0]);
      if Perform(s, ops[0]).Now? {
        BlocksConserved(Perform(s, ops[0]).s, ops[1..]);
      }
    }
  }

  /** Every block a run hands out was accepted by skip_ppa at set-up. */
  lemma HandsOutGoodBlocks(g: Geometry, table: Option<seq<Word>>, mask: Word, ch: nat, q: seq<int>, size: int,
                           ops: seq<StockOp>, b: Blk)
    requires g.Valid() && (table.Some? ==> TableFits(g, table.value))
    requires b in PerformAll(Stock(q, Blks(BlockScan(g, table, mask, ch, Normal(g))), [], size), ops).s.alloc
    ensures exists c :: Usable(g, table, mask, c) && c.ch == ch && c.blk < Normal(g) && b == Blk(PpaOf(c), 0)
  {
    var free := Blks(BlockScan(g, table, mask, ch, Normal(g)));
    var s := Stock(q, free, [], size);
    var s' := PerformAll(s, ops).s;
    BlocksConserved(s, ops);
    hide PerformAll;
    assert b in multiset(s'.alloc) + multiset(s'.free);
    assert b in multiset(s.alloc) + multiset(s.free);
    assert b in free;
    InitialFreeList(g, table, mask, ch);
  }

  /** ret_blks_v gives a block back but not its LBA: with one LBA left, a block that is
      taken and returned can never be taken again. */
  lemma ReturnedBlockHasNoLba(s: Stock)
    requires s.free != [] && s.alloc == [] && |s.q| == 1
    ensures PerformAll(s, [Take, Return(1), Take]).Ended? && PerformAll(s, [Take, Return(1), Take]).why == NoLba
  {
    var s1 := Perform(s, Take).s;
    assert InsertDesc(s.alloc, s.free[0]) == [s.free[0]];
    var s2 := Perform(s1, Return(1)).s;
    ReturnedConserves(s1.alloc, s1.free, 1);
    assert [Take, Return(1), Take][1..] == [Return(1), Take];
    assert [Return(1), Take][1..] == [Take];
    assert Perform(s2, Take) == Ended(s2, NoLba);
  }

  lemma SmallMod(a: nat, n: nat)
    requires a < n
    ensures a % n == a
  {
  }

  /** prep_chl_v: the set-up scan onto a new free list. */
  method PrepChannel(g: Geometry, table: Option<seq<Word>>, mask: Word, ch: nat) returns (list: BlkList, added: nat)
    requires g.Valid() && (table.Some? ==> TableFits(g, table.value))
    ensures list.Valid() && fresh(list) && fresh(list.footprint) && added == |list.contents|
    ensures list.contents == Blks(BlockScan(g, table, mask, ch, Normal(g)))
  {
    list := new BlkList();
    added := BuildFreeList(list, g, table, mask, ch);
  }

  lemma HasBlocks(g: Geometry)
    requires g.Valid()
    ensures ChannelBlocks(g) > 0
  {
    assert g.luns * g.planes > 0;
  }

  /** The full LBA queue and the free list of a new vSSD. */
  method NewPool(g: Geometry, table: Option<seq<Word>>, mask: Word, ch: nat)
    returns (queue: RingQueue, list: BlkList, added: nat)
    requires g.Valid() && (table.Some? ==> TableFits(g, table.value))
    ensures queue.Valid() && fresh(queue) && fresh(queue.elements) && queue.contents == Range(0, ChannelBlocks(g))
    ensures list.Valid() && fresh(list) && fresh(list.footprint) && added == |list.contents| <= ChannelBlocks(g)
    ensures list.contents == Blks(BlockScan(g, table, mask, ch, Normal(g)))
  {
    hide BlkList.Valid;
    hide RingQueue.Valid;
    BlocksFitLbas(g, table, mask, ch);
    hide BlockScan;
    var n := ChannelBlocks(g);
    queue := FillQueue(CHANNELS * n, 0, n);
    list, added := PrepChannel(g, table, mask, ch);
  }

  class Vssd {
    const maxAddr: nat
    const lbaQueue: RingQueue
    const freeList: BlkList
    const allocList: BlkList
    const mappingTable: array<Ppa>
    const validPages: array<nat>     // 32-bit counters
    const bitMap: array<bool>        // the page bitmaps of all blocks, block after block
    const junk: nat -> bool          // what malloc leaves in a fresh bitmap
    var freeBlockSz: int

    ghost predicate PoolValid()
      reads lbaQueue, lbaQueue.elements, freeList, freeList.footprint, allocList, allocList.footprint
    {
      && lbaQueue.Valid() && freeList.Valid() && allocList.Valid()
      && freeList != allocList && freeList.footprint !! allocList.footprint
      && forall i :: 0 <= i < |lbaQueue.contents| ==> 0 <= lbaQueue.contents[i] < maxAddr
    }

    ghost predicate Valid()
      reads lbaQueue, lbaQueue.elements, freeList, freeList.footprint, allocList, allocList.footprint
    {
      && PoolValid() && 0 < maxAddr
      && mappingTable.Length == maxAddr && validPages.Length == maxAddr && bitMap.Length == maxAddr * PAGES
    }

    /** alloc_regular_vssd for one channel, with prep_chl_v. size is the uninitialised
        value the block counter starts from. */
    constructor (g: Geometry, table: Option<seq<Word>>, mask: Word, ch: nat, junk: nat -> bool, size: int)
      requires g.Valid() && (table.Some? ==> TableFits(g, table.value))
      ensures Valid() && maxAddr == ChannelBlocks(g) && this.junk == junk
      ensures fresh(Pool()) && fresh(Pages())
      ensures lbaQueue.contents == Range(0, maxAddr)
      ensures freeList.contents == Blks(BlockScan(g, table, mask, ch, Normal(g))) && allocList.contents == []
      ensures |freeList.contents| <= |lbaQueue.contents|
      ensures freeBlockSz - |freeList.contents| == size + ChannelBlocks(g)
    {
      hide BlkList.Valid;
      hide RingQueue.Valid;
      hide BlockScan;
      hide ChannelBlocks;
      var n := ChannelBlocks(g);
      HasBlocks(g);
      var queue, list, added := NewPool(g, table, mask, ch);
      maxAddr := n;
      this.junk := junk;
      lbaQueue := queue;
      freeList := list;
      allocList := new BlkList();
      mappingTable := new Ppa[n](_ => Ppa(0));
      validPages := new nat[n](_ => 0);
      bitMap := new bool[n * PAGES];
      freeBlockSz := size + n + added;
    }

    /** The objects of the block lists and the LBA queue. */
    ghost function Pool(): set<object>
      reads lbaQueue, freeList, allocList
    {
      {lbaQueue, lbaQueue.elements, freeList, allocList} + freeList.footprint + allocList.footprint
    }

    ghost function Blocks(): Stock
      reads this, lbaQueue, freeList, allocList
    {
      Stock(lbaQueue.contents, freeList.contents, allocList.contents, freeBlockSz)
    }

    /** The page tables. */
    ghost function Pages(): set<object> {
      {mappingTable as object, validPages, bitMap}
    }

    /** The first half of alloc_block_v: a block leaves the free list, an LBA the queue. */
    method TakeBlock() returns (r: Alloc, ppa: Ppa)
      requires PoolValid()
      modifies this`freeBlockSz, Pool()
      ensures freeBlockSz == old(freeBlockSz) - 1
      ensures r == if old(freeList.contents) == [] then NoFreeBlock
                   else if old(lbaQueue.contents) == [] then NoLba
                   else Lba(old(lbaQueue.contents)[0])
      ensures r.Lba? ==>
                && PoolValid() && Pool() == old(Pool())
                && lbaQueue.contents == old(lbaQueue.contents)[1..]
                && ppa == old(freeList.contents)[0].ppa
                && freeList.contents == old(freeList.contents)[1..]
                && allocList.contents == InsertDesc(old(allocList.contents), old(freeList.contents)[0])
    {
      hide BlkList.Valid;
      hide RingQueue.Valid;
      ppa := UNMAPPED;
      var freeBlk := freeList.Pop();
      freeBlockSz := freeBlockSz - 1;
      if freeBlk == null {
        return NoFreeBlock, ppa;
      }
      ppa := freeBlk.ppa;
      ghost var queue := lbaQueue.contents;
      var lba := lbaQueue.Dequeue();
      if lba == -1 {
        return NoLba, ppa;
      }
      assert queue != [] && lba == queue[0] && lbaQueue.contents == queue[1..];
      assert freeBlk !in freeList.footprint && freeBlk !in allocList.footprint;
      var p := allocList.AddDesc(freeBlk);
      return Lba(lba), ppa;
    }

    /** The bitmap of a new block: malloc, then a memset that reaches 128 pages. */
    method NewBitMap(lba: nat)
      requires lba < maxAddr && bitMap.Length == maxAddr * PAGES
      modifies bitMap
      ensures forall s :: 0 <= s < bitMap.Length ==> bitMap[s] == NewBit(lba, s, old(bitMap[s]))
    {
      var base := lba * PAGES;
      forall s | base <= s < base + PAGES {
        bitMap[s] := s - base < SET_PAGES || junk(s);
      }
    }

    function NewBit(lba: nat, s: nat, before: bool): bool {
      if lba * PAGES <= s < lba * PAGES + PAGES then StartBit(junk, s) else before
    }

    /** The second half: the LBA is mapped, its pages count as valid, its bitmap is new. */
    method OpenBlock(lba: nat, ppa: Ppa)
      requires lba < maxAddr && mappingTable.Length == maxAddr && validPages.Length == maxAddr
      requires bitMap.Length == maxAddr * PAGES
      modifies mappingTable, validPages, bitMap
      ensures mappingTable[..] == old(mappingTable[..])[lba := ppa]
      ensures validPages[..] == old(validPages[..])[lba := PAGES]
      ensures forall s :: 0 <= s < bitMap.Length ==> bitMap[s] == NewBit(lba, s, old(bitMap[s]))
    {
      var lbaInd := lba % maxAddr;
      SmallMod(lba, maxAddr);
      mappingTable[lbaInd] := ppa;
      validPages[lbaInd] := PAGES;
      NewBitMap(lbaInd);
    }

    /** alloc_block_v: the most worn free block and the oldest free LBA are mapped to each
        other. */
    method AllocBlockV() returns (r: Alloc)
      requires Valid()
      modifies this`freeBlockSz, Pool(), Pages()
      ensures Perform(old(Blocks()), Take) == if r.Lba? then Now(Blocks()) else Ended(old(Blocks()), r)
      ensures freeBlockSz == old(freeBlockSz) - 1
      ensures r == if old(freeList.contents) == [] then NoFreeBlock
                   else if old(lbaQueue.contents) == [] then NoLba
                   else Lba(old(lbaQueue.contents)[0])
      ensures r.Lba? ==>
                && Valid() && Pool() == old(Pool())
                && lbaQueue.contents == old(lbaQueue.contents)[1..]
                && freeList.contents == old(freeList.contents)[1..]
                && allocList.contents == InsertDesc(old(allocList.contents), old(freeList.contents)[0])
                && mappingTable[..] == old(mappingTable[..])[r.lba := old(freeList.contents)[0].ppa]
                && validPages[..] == old(validPages[..])[r.lba := PAGES]
                && (forall s :: 0 <= s < bitMap.Length ==> bitMap[s] == NewBit(r.lba, s, old(bitMap[s])))
    {
      hide BlkList.Valid;
      hide RingQueue.Valid;
      var ppa;
      r, ppa := TakeBlock();
      if r.Lba? {
        OpenBlock(r.lba, ppa);
      }
    }

    /** invalidate_page: one valid page less (a 32-bit counter wraps), one bit flipped. */
    method InvalidatePage(slot: nat)
      requires 0 < maxAddr && validPages.Length == maxAddr && bitMap.Length == maxAddr * PAGES
      requires slot < maxAddr * PAGES
      modifies validPages, bitMap
      ensures var b := slot / PAGES;
              validPages[..] == old(validPages[..])[b := if old(validPages[b]) == 0 then 0xFFFF_FFFF
                                                         else old(validPages[b]) - 1]
      ensures bitMap[..] == old(bitMap[..])[slot := !old(bitMap[slot])]
    {
      var page := slot % PAGES;
      var lbaInd := (slot / PAGES) % maxAddr;
      SmallMod(slot / PAGES, maxAddr);
      validPages[lbaInd] := if validPages[lbaInd] == 0 then 0xFFFF_FFFF else validPages[lbaInd] - 1;
      bitMap[lbaInd * PAGES + page] := !bitMap[lbaInd * PAGES + page];
    }

    /** One round of the ret_blks_v loop. */
    method ReturnBlock() returns (ok: bool)
      requires PoolValid()
      modifies this`freeBlockSz, freeList, freeList.footprint, allocList, allocList.footprint
      ensures PoolValid() && Pool() == old(Pool()) && lbaQueue.contents == old(lbaQueue.contents)
      ensures freeList.footprint + allocList.footprint == old(freeList.footprint + allocList.footprint)
      ensures ok <==> old(allocList.contents) != []
      ensures !ok ==> Blocks() == old(Blocks())
      ensures ok ==> allocList.contents == old(allocList.contents)[1..]
      ensures ok ==> freeList.contents == InsertDesc(old(freeList.contents), old(allocList.contents)[0])
      ensures ok ==> freeBlockSz == old(freeBlockSz) + 1
    {
      hide BlkList.Valid;
      hide RingQueue.Valid;
      var block := allocList.Pop();
      if block == null {
        return false;
      }
      assert block !in freeList.footprint && block !in allocList.footprint;
      var p := freeList.AddDesc(block);
      freeBlockSz := freeBlockSz + 1;
      return true;
    }

    /** ret_blks_v, as far as the lists and the counter go. */
    method RetBlksV(lim: nat)
      requires PoolValid()
      modifies this`freeBlockSz, freeList, freeList.footprint, allocList, allocList.footprint
      ensures PoolValid() && Pool() == old(Pool())
      ensures Perform(old(Blocks()), Return(lim)) == Now(Blocks())
    {
      hide PoolValid;
      var cnt := 0;
      while cnt < lim
        invariant cnt <= lim && PoolValid() && Pool() == old(Pool())
        invariant freeList.footprint + allocList.footprint == old(freeList.footprint + allocList.footprint)
        invariant Returned(allocList.contents, freeList.contents, lim - cnt)
               == Returned(old(allocList.contents), old(freeList.contents), lim)
        invariant freeBlockSz - |freeList.contents| == old(freeBlockSz - |freeList.contents|)
        invariant lbaQueue.contents == old(lbaQueue.contents)
      {
        var ok := ReturnBlock();
        if !ok {
          return;
        }
        cnt := cnt + 1;
      }
    }
  }
}
