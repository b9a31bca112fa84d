/** The write path of the worker thread (vssd_code/rb_nexus.c:216-296): a log-structured
    flash translation layer whose tables are updated in place. */
module Ftl {
  import opened RingQueues
  import opened Vssds
  import opened History

  class Worker {
    const v: Vssd
    const mapping: array<nat>   // mapping_table: address to slot, 0 for unmapped
    const rev: array<nat>       // rev_mapping_table: slot to address
    const prep: nat             // read_prep
    var curLba: nat
    var curPage: nat
    ghost var hist: seq<nat>    // the addresses written so far
    ghost var passed: seq<nat>  // the slots handed to invalidate_page so far

    ghost function Base(): nat {
      prep * PAGES
    }

    ghost predicate Separate() {
      && mapping != rev && mapping != v.validPages && rev != v.validPages
      && 0 < prep && rev.Length == v.maxAddr * PAGES
    }

    /** The append pointer and the allocator follow the number of writes. */
    ghost predicate Placed()
      reads this, v.lbaQueue, v.freeList
    {
      && curLba == prep + |hist| / PAGES && curPage == |hist| % PAGES
      && curLba < v.maxAddr
      && v.lbaQueue.contents == Range(curLba + 1, v.maxAddr)
      && |v.freeList.contents| <= |v.lbaQueue.contents|
    }

    /** Every table entry, and the slots invalidated, are functions of the write history. */
    ghost predicate TablesOk()
      reads this, mapping, rev, v.validPages, v.bitMap
    {
      passed == GivenUp(hist, Base()) &&
      TablesHold(mapping[..], rev[..], v.validPages[..], v.bitMap[..], v.junk, hist, prep, curLba)
    }

    ghost predicate Valid()
      reads this, mapping, rev, v.Pages(), v.Pool(), v.lbaQueue, v.freeList, v.allocList
    {
      v.Valid() && Separate() && Placed() && TablesOk()
    }

    ghost predicate Ready()
      reads this, mapping, rev, v.Pool(), v.lbaQueue, v.freeList, v.allocList
    {
      && v.Valid() && Separate() && hist == passed == []
      && v.lbaQueue.contents == Range(0, v.maxAddr)
      && |v.freeList.contents| <= |v.lbaQueue.contents|
      && (forall a :: 0 <= a < mapping.Length ==> mapping[a] == 0)
      && (forall s :: 0 <= s < rev.Length ==> rev[s] == 0)
    }

    /** main hands the worker two tables of zeros; sectors is MAX_SECTOR. */
    constructor (v: Vssd, prep: nat, sectors: nat)
      requires v.Valid() && 0 < prep
      requires v.lbaQueue.contents == Range(0, v.maxAddr) && |v.freeList.contents| <= |v.lbaQueue.contents|
      ensures Ready() && this.v == v && this.prep == prep && mapping.Length == sectors
      ensures fresh(mapping) && fresh(rev)
    {
      this.v := v;
      this.prep := prep;
      mapping := new nat[sectors](_ => 0);
      rev := new nat[v.maxAddr * PAGES](_ => 0);
      curLba, curPage, hist, passed := 0, 0, [], [];
    }

    /** One read-prep block: LBA i. */
    method PrepBlock(ghost i: nat) returns (r: Alloc)
      requires v.Valid() && i <= v.maxAddr && v.lbaQueue.contents == Range(i, v.maxAddr)
      requires |v.freeList.contents| <= |v.lbaQueue.contents|
      modifies v`freeBlockSz, v.Pool(), v.Pages()
      ensures r == if |old(v.freeList.contents)| == 0 then NoFreeBlock else Lba(i)
      ensures r.Lba? ==>
                && i < v.maxAddr && v.Valid() && v.Pool() == old(v.Pool())
                && v.lbaQueue.contents == Range(i + 1, v.maxAddr)
                && |v.freeList.contents| == |old(v.freeList.contents)| - 1
                && v.validPages[..] == old(v.validPages[..])[i := PAGES]
                && (forall s :: 0 <= s < v.bitMap.Length ==> v.bitMap[s] == v.NewBit(i, s, old(v.bitMap[s])))
    {
      hide Vssd.PoolValid;
      r := v.AllocBlockV();
    }

    /** The loop that sets the read blocks aside. */
    method PrepReads() returns (ok: bool)
      requires Ready()
      modifies v`freeBlockSz, v.Pool(), v.Pages()
      ensures ok <==> |old(v.freeList.contents)| >= prep
      ensures ok ==>
                && v.Valid() && v.Pool() == old(v.Pool()) && prep <= v.maxAddr
                && v.lbaQueue.contents == Range(prep, v.maxAddr)
                && |v.freeList.contents| == |old(v.freeList.contents)| - prep
    {
      hide Vssd.PoolValid;
      hide Range;
      var i := 0;
      while i < prep
        invariant i <= prep && v.Valid() && v.Pool() == old(v.Pool())
        invariant i <= |old(v.freeList.contents)| <= v.maxAddr
        invariant v.lbaQueue.contents == Range(i, v.maxAddr)
        invariant |v.freeList.contents| == |old(v.freeList.contents)| - i
      {
        var r := PrepBlock(i);
        if r.NoFreeBlock? {
          return false;
        }
        i := i + 1;
      }
      return true;
    }

    /** The prologue of run_worker. The process exits if the free list runs out; it never
        exits for want of an LBA. */
    method Prepare() returns (ok: bool)
      requires Ready()
      modifies this, v`freeBlockSz, v.Pool(), v.Pages()
      ensures ok <==> |old(v.freeList.contents)| > prep
      ensures ok ==> Valid() && hist == []
    {
      hide Vssd.PoolValid;
      hide Range;
      hide TablesHold;
      ok := PrepReads();
      if !ok {
        return;
      }
      ok := OpenFirst();
    }

    /** The first block for writes: LBA prep. */
    method OpenFirst() returns (ok: bool)
      requires v.Valid() && Separate() && hist == passed == [] && prep <= v.maxAddr
      requires v.lbaQueue.contents == Range(prep, v.maxAddr)
      requires |v.freeList.contents| <= |v.lbaQueue.contents|
      requires forall a :: 0 <= a < mapping.Length ==> mapping[a] == 0
      requires forall s :: 0 <= s < rev.Length ==> rev[s] == 0
      modifies this`curLba, this`curPage, v`freeBlockSz, v.Pool(), v.Pages()
      ensures ok <==> |old(v.freeList.contents)| > 0
      ensures ok ==> Valid()
    {
      hide Vssd.PoolValid;
      hide Range;
      hide TablesHold;
      var r := PrepBlock(prep);
      if r.NoFreeBlock? {
        return false;
      }
      NewTablesOk(mapping[..], rev[..], v.validPages[..], v.bitMap[..], v.junk, prep);
      curLba, curPage := r.lba, 0;
      return true;
    }

    /** A superseded slot is invalidated and taken out of the reverse table. */
    method GiveUp(slot: nat)
      requires v.Valid() && Separate() && slot < rev.Length
      modifies this`passed, rev, v.validPages, v.bitMap
      ensures passed == old(passed) + [slot] && rev[..] == old(rev[..])[slot := 0]
      ensures var b := slot / PAGES;
              0 <= b < v.validPages.Length && (old(v.validPages[b]) > 0 ==>
                v.validPages[..] == old(v.validPages[..])[b := old(v.validPages[b]) - 1])
      ensures v.bitMap[..] == old(v.bitMap[..])[slot := !old(v.bitMap[slot])]
    {
      v.InvalidatePage(slot);
      passed := passed + [slot];
      rev[slot] := 0;
    }

    /** An address that is already mapped gives up its slot. */
    method Supersede(addr: nat)
      requires Valid() && addr < mapping.Length
      modifies this`passed, rev, v.validPages, v.bitMap
      ensures passed == GivenUp(hist + [addr], Base())
      ensures rev[..] == if Last(hist, addr) < 0 then old(rev[..]) else old(rev[..])[Base() + Last(hist, addr) := 0]
      ensures ValidOk(v.validPages[..], hist + [addr], prep, curLba)
      ensures BitsOk(v.bitMap[..], v.junk, hist + [addr], prep, curLba)
    {
      hide Vssd.PoolValid;
      hide MapOk;
      hide RevOk;
      hide ValidOk;
      hide BitsOk;
      SlotSuperseded(mapping[..], rev[..], v.validPages[..], v.bitMap[..], v.junk, hist, prep, curLba, addr);
      GivenUpAppend(hist, Base(), addr);
      hide TablesHold;
      hide GivenUp;
      if mapping[addr] != 0 {
        GiveUp(mapping[addr]);
      }
    }

    /** The new slot is recorded in both tables. */
    method Record(addr: nat)
      requires Separate() && addr < mapping.Length && curLba < v.maxAddr && curPage < PAGES
      modifies mapping, rev
      ensures mapping[..] == old(mapping[..])[addr := curLba * PAGES + curPage]
      ensures rev[..] == old(rev[..])[curLba * PAGES + curPage := addr]
    {
      mapping[addr] := curLba * PAGES + curPage;
      rev[curLba * PAGES + curPage] := addr;
    }

    /** The full block is written out and the next one opened. */
    method NextBlock() returns (ok: bool)
      requires v.Valid() && Separate() && TablesOk()
      requires |hist| == (curLba + 1 - prep) * PAGES && prep <= curLba < v.maxAddr
      requires v.lbaQueue.contents == Range(curLba + 1, v.maxAddr)
      requires |v.freeList.contents| <= |v.lbaQueue.contents|
      modifies this`curLba, this`curPage, v`freeBlockSz, v.Pool(), v.Pages()
      ensures ok <==> old(v.freeList.contents) != []
      ensures ok ==> Valid() && |v.freeList.contents| == |old(v.freeList.contents)| - 1
      ensures ok ==> v.Pool() == old(v.Pool())
    {
      hide Vssd.PoolValid;
      hide TablesHold;
      hide Range;
      var r := PrepBlock(curLba + 1);
      if r.NoFreeBlock? {
        return false;
      }
      NextTablesOk(mapping[..], rev[..], old(v.validPages[..]), v.validPages[..], old(v.bitMap[..]), v.bitMap[..],
                   v.junk, hist, prep, curLba);
      curLba := r.lba;
      curPage := 0;
      ok := true;
    }

    /** The tables of one page write: the old slot is given up, the new one recorded. */
    method Log(addr: nat)
      requires Valid() && addr < mapping.Length
      modifies this`hist, this`passed, this`curPage, mapping, rev, v.validPages, v.bitMap
      ensures hist == old(hist) + [addr] && curPage == old(curPage) + 1
      ensures v.Valid() && TablesOk()
    {
      hide Vssd.PoolValid;
      hide MapOk;
      hide RevOk;
      hide ValidOk;
      hide BitsOk;
      hide Range;
      hide GivenUp;
      MapStep(mapping[..], hist, Base(), addr);
      Supersede(addr);
      RevStep(old(rev[..]), rev[..], hist, Base(), addr);
      Record(addr);
      hist := hist + [addr];
      curPage := curPage + 1;
    }

    /** A page write. The process exits exactly when a block is full and no free one is
        left; otherwise every table is again what the history says. */
    method Write(addr: nat) returns (ok: bool)
      requires Valid() && addr < mapping.Length
      modifies this, mapping, rev, v`freeBlockSz, v.Pool(), v.Pages()
      ensures hist == old(hist) + [addr]
      ensures ok <==> |hist| % PAGES != 0 || old(v.freeList.contents) != []
      ensures ok ==> Valid()
      ensures ok ==> |v.freeList.contents| == |old(v.freeList.contents)| - (if |hist| % PAGES == 0 then 1 else 0)
      ensures v.Pool() == old(v.Pool()) || !ok
    {
      hide Vssd.Valid;
      hide TablesOk;
      hide Range;
      Log(addr);
      ok := true;
      if curPage == PAGES {
        ok := NextBlock();
      }
    }
  
    /** Any run of writes. It goes through exactly when the free list covers every block
        it fills, and then the tables hold what the whole history says. */
    method Run(addrs: seq<nat>) returns (ok: bool)
      requires Valid() && forall i :: 0 <= i < |addrs| ==> addrs[i] < mapping.Length
      modifies this, mapping, rev, v`freeBlockSz, v.Pool(), v.Pages()
      ensures ok <==> (old(|hist|) + |addrs|) / PAGES - old(|hist|) / PAGES <= |old(v.freeList.contents)|
      ensures ok ==> Valid() && hist == old(hist) + addrs
    {
      hide Vssd.Valid;
      hide TablesOk;
      hide Placed;
      var n := 0;
      while n < |addrs|
        invariant n <= |addrs| && Valid() && hist == old(hist) + addrs[..n]
        invariant v.Pool() == old(v.Pool())
        invariant |v.freeList.contents|
               == |old(v.freeList.contents)| - ((old(|hist|) + n) / PAGES - old(|hist|) / PAGES)
      {
        ok := Write(addrs[n]);
        assert old(hist) + addrs[..n] + [addrs[n]] == old(hist) + addrs[..n + 1];
        if !ok {
          FillsUp(old(|hist|) + n + 1, old(|hist|) + |addrs|);
          return;
        }
        FillsUp(old(|hist|) + n + 1, old(|hist|) + n + 1);
        n := n + 1;
      }
      assert addrs[..n] == addrs;
      return true;
    }
  }

  lemma FillsUp(n: nat, m: nat)
    requires 0 < n <= m
    ensures n / PAGES == (n - 1) / PAGES + (if n % PAGES == 0 then 1 else 0) && n / PAGES <= m / PAGES
  {
  }

  /** Over any run, invalidate_page is called for exactly the superseded slots, once each. */
  lemma InvalidatedOnce(w: Worker)
    requires w.Valid()
    ensures forall s :: s in w.passed <==> w.Base() <= s && Dead(w.hist, s - w.Base())
    ensures forall j, k :: 0 <= j < k < |w.passed| ==> w.passed[j] != w.passed[k]
  {
    GivenUpOnce(w.hist, w.Base());
  }
}
