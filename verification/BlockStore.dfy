/** The paged block store of vssd_code/channel.c:550-682: pages are read and written
    through an address register whose page field is stepped in place. */
module BlockStores {
  import opened Ppas

  datatype Status = Success | Error

  function Place(p: bv32, n: bv32): bv32 {
    p | (n << 10)
  }

  function Clear(p: bv32): bv32 {
    p & !PAGE_MASK
  }

  /** The address register at loop step i: block | page to begin with, then the page
      field is masked out and the next page number OR-ed in. */
  function StepAddr(ppa: bv32, pageId: int, i: nat): bv32 {
    if i == 0 then Place(ppa, Register(pageId))
    else Place(Clear(StepAddr(ppa, pageId, i - 1)), Register(pageId + i))
  }

  /** The address of one page of a block. */
  function PageAddr(ppa: bv32, page: nat): bv32 {
    Place(ppa, U32(page))
  }

  lemma PageFields(p: bv32, n: bv32)
    requires n < 256 && p & PAGE_MASK == 0
    ensures Clear(p) == p && Clear(Place(p, n)) == p
    ensures (Place(p, n) >> 10) & 0xFF == n
  {
  }

  /** Two page addresses coincide only for the same block and the same page. */
  lemma PageAddrInjective(p: bv32, i: nat, q: bv32, j: nat)
    requires IsBlockPpa(Ppa(p)) && IsBlockPpa(Ppa(q)) && i < PAGE_NUM && j < PAGE_NUM
    ensures PageAddr(p, i) == PageAddr(q, j) ==> p == q && i == j
  {
    U32Below(i);
    U32Below(j);
    U32Injective(i, j);
    PageFields(p, U32(i));
    PageFields(q, U32(j));
  }

  /** On a block address, step i visits page pageId + i of that very block. */
  lemma {:induction false} StepVisitsPage(ppa: bv32, pageId: nat, i: nat)
    requires IsBlockPpa(Ppa(ppa)) && pageId + i < PAGE_NUM
    ensures StepAddr(ppa, pageId, i) == PageAddr(ppa, pageId + i)
  {
    if i > 0 {
      StepVisitsPage(ppa, pageId, i - 1);
      U32Below(pageId + i - 1);
      PageFields(ppa, U32(pageId + i - 1));
    }
  }

  lemma PageCount()
    ensures U32(PAGE_NUM) == 256
  {
    U32Value(PAGE_NUM);
    Exactly256(U32(PAGE_NUM));
  }

  /** Wherever the loop starts, the update after page 255 carries into the block field: it
      names page 0 of block `b | 1`, so for an even block it leaves the block. */
  lemma LastUpdateSpills(ppa: bv32, pageId: nat)
    requires IsBlockPpa(Ppa(ppa)) && pageId <= PAGE_NUM
    ensures StepAddr(ppa, pageId, PAGE_NUM - pageId) == ppa | 0x40000
    ensures StepAddr(ppa, pageId, PAGE_NUM - pageId) == ppa <==> (ppa >> 18) & 1 == 1
  {
    PageCount();
    Spill(ppa);
    if pageId < PAGE_NUM {
      StepVisitsPage(ppa, pageId, PAGE_NUM - 1 - pageId);
      U32Below(PAGE_NUM - 1);
      PageFields(ppa, U32(PAGE_NUM - 1));
    }
  }

  predicate SameBlock(p: bv32, q: bv32) {
    p >> 18 == q >> 18
  }

  /** Beyond the 8 bits of the page field, n has no bit that the block number of p lacks. */
  predicate AddsNoBlockBit(p: bv32, n: bv32) {
    ((n >> 8) & 0x3FFF) & !(p >> 18) == 0
  }

  lemma StartBits(p: bv32, n: bv32)
    ensures SameBlock(Place(p, n), p) <==> AddsNoBlockBit(p, n)
  {
  }

  /** For every page number, negative ones included (they pass the range check), the loop
      starts in the block meant if and only if the page register adds no block bit. */
  lemma StartsInBlockIff(ppa: bv32, pageId: int)
    ensures SameBlock(StepAddr(ppa, pageId, 0), ppa) <==> AddsNoBlockBit(ppa, Register(pageId))
  {
    hide Register;
    hide Place;
    hide SameBlock;
    hide AddsNoBlockBit;
    FirstAddr(ppa, pageId);
    StartBits(ppa, Register(pageId));
  }

  /** Page numbers from -256 to -1 name the last block of the device. */
  lemma SmallNegativePage(ppa: bv32, pageId: int)
    requires -256 <= pageId < 0
    ensures StepAddr(ppa, pageId, 0) >> 18 == 0x3FFF
  {
    U32Value(-pageId);
    AtMost256(U32(-pageId));
    AllBlockBits(ppa, U32(-pageId));
  }

  /** From -256 to 255, a page number names a page of the block meant if and only if it is
      not negative or the block is the last one. */
  lemma SmallPageStartsInBlockIff(ppa: bv32, pageId: int)
    requires IsBlockPpa(Ppa(ppa)) && -256 <= pageId < PAGE_NUM
    ensures SameBlock(StepAddr(ppa, pageId, 0), ppa) <==> 0 <= pageId || ppa >> 18 == 0x3FFF
  {
    if pageId < 0 {
      SmallNegativePage(ppa, pageId);
    } else {
      FirstAddr(ppa, pageId);
      U32Below(pageId);
      InsideBlock(ppa, U32(pageId));
    }
  }

  lemma InsideBlock(p: bv32, n: bv32)
    requires n < 256
    ensures Place(p, n) >> 18 == p >> 18
  {
  }

  lemma AtMost256(n: bv32)
    requires 0 < n as int <= 256
    ensures 0 < n <= 256
  {
  }

  lemma AllBlockBits(p: bv32, n: bv32)
    requires 0 < n <= 256
    ensures Place(p, 0 - n) >> 18 == 0x3FFF
  {
  }

  lemma Exactly256(n: bv32)
    requires n as int == 256
    ensures n == 256
  {
  }

  lemma Spill(p: bv32)
    ensures Place(p, 256) == p | 0x40000
    ensures p | 0x40000 == p <==> (p >> 18) & 1 == 1
  {
  }

  lemma UndoNegation(u: bv32, w: bv32)
    requires w == u + 1
    ensures 0 - u == (0 - w) + 1
  {
  }

  /** pnum++ steps the register, below zero and above. */
  lemma {:induction false} NextPage(n: int)
    ensures Register(n + 1) == Register(n) + 1
  {
    if n < 0 {
      UndoNegation(U32(-n - 1), U32(-n));
    }
  }

  /** The address update at the end of a loop step. */
  lemma NextAddr(ppa: bv32, pageId: int, i: nat)
    ensures StepAddr(ppa, pageId, i + 1) == Place(Clear(StepAddr(ppa, pageId, i)), Register(pageId + i + 1))
  {
    hide Register;
    hide Place;
    hide Clear;
  }

  lemma FirstAddr(ppa: bv32, pageId: int)
    ensures StepAddr(ppa, pageId, 0) == Place(ppa, Register(pageId))
    ensures pageId == 0 ==> StepAddr(ppa, pageId, 0) == ppa
  {
  }

  lemma PageBits(ch: bv32, lun: bv32, blk: bv32, pl: bv32, page: bv32)
    requires ch < 16 && lun < 4 && blk < 0x4000 && pl < 4 && page < 256
    ensures var p := Place(Pack(ch, lun, blk, pl), page);
            && p & 0xF == ch && (p >> 4) & 3 == 0 && (p >> 6) & 3 == pl
            && (p >> 8) & 3 == lun && (p >> 10) & 0xFF == page && p >> 18 == blk
  {
  }

  /** The layout of an address, from bit 0 up: channel in 4 bits, EP in 2 (zero), plane in 2,
      LUN in 2, page in 8 and block in 14. */
  lemma AddressLayout(c: Coord, page: nat)
    requires InRange(c) && page < PAGE_NUM
    ensures var p := PageAddr(PpaOf(c).bits, page);
            && p & 0xF == U32(c.ch) && (p >> 4) & 3 == 0 && (p >> 6) & 3 == U32(c.pl)
            && (p >> 8) & 3 == U32(c.lun) && (p >> 10) & 0xFF == U32(page) && p >> 18 == U32(c.blk)
  {
    U32Below(c.ch);
    U32Below(c.lun);
    U32Below(c.blk);
    U32Below(c.pl);
    U32Below(page);
    PageBits(U32(c.ch), U32(c.lun), U32(c.blk), U32(c.pl), U32(page));
  }

  // ---------- specification of the loops ----------

  /** The device after the first n loop steps of a write. */
  function WritePages<T>(cells: map<Ppa, T>, ppa: bv32, pageId: int, buf: seq<T>, n: nat): map<Ppa, T>
    requires n <= |buf|
  {
    if n == 0 then cells
    else WritePages(cells, ppa, pageId, buf, n - 1)[Ppa(StepAddr(ppa, pageId, n - 1)) := buf[n - 1]]
  }

  lemma WritePagesNone<T>(cells: map<Ppa, T>, ppa: bv32, pageId: int, buf: seq<T>)
    ensures WritePages(cells, ppa, pageId, buf, 0) == cells
  {
  }

  lemma WritePagesStep<T>(cells: map<Ppa, T>, ppa: bv32, pageId: int, buf: seq<T>, n: nat)
    requires n < |buf|
    ensures WritePages(cells, ppa, pageId, buf, n + 1)
         == WritePages(cells, ppa, pageId, buf, n)[Ppa(StepAddr(ppa, pageId, n)) := buf[n]]
  {
    hide StepAddr;
  }

  /** What the device answers for an address: an unwritten cell reads as `blank`. */
  function Cell<T>(cells: map<Ppa, T>, blank: T, addr: bv32): T {
    if Ppa(addr) in cells then cells[Ppa(addr)] else blank
  }

  lemma {:induction false} WritePagesCell<T>(cells: map<Ppa, T>, ppa: bv32, pageId: nat, buf: seq<T>, n: nat,
                                             blank: T, q: bv32, page: nat)
    requires n <= |buf| && pageId + n <= PAGE_NUM && page < PAGE_NUM
    requires IsBlockPpa(Ppa(ppa)) && IsBlockPpa(Ppa(q))
    ensures Cell(WritePages(cells, ppa, pageId, buf, n), blank, PageAddr(q, page))
         == if q == ppa && pageId <= page < pageId + n then buf[page - pageId]
            else Cell(cells, blank, PageAddr(q, page))
  {
    if n > 0 {
      WritePagesCell(cells, ppa, pageId, buf, n - 1, blank, q, page);
      SamePage(ppa, pageId, n - 1, q, page);
      CellUpdate(WritePages(cells, ppa, pageId, buf, n - 1), blank, StepAddr(ppa, pageId, n - 1), buf[n - 1],
                 PageAddr(q, page));
    }
  }

  lemma SamePage(ppa: bv32, pageId: nat, i: nat, q: bv32, page: nat)
    requires IsBlockPpa(Ppa(ppa)) && IsBlockPpa(Ppa(q)) && pageId + i < PAGE_NUM && page < PAGE_NUM
    ensures PageAddr(q, page) == StepAddr(ppa, pageId, i) <==> q == ppa && page == pageId + i
  {
    StepVisitsPage(ppa, pageId, i);
    PageAddrInjective(q, page, ppa, pageId + i);
  }

  lemma CellUpdate<T>(cells: map<Ppa, T>, blank: T, at: bv32, value: T, addr: bv32)
    ensures Cell(cells[Ppa(at) := value], blank, addr) == if addr == at then value else Cell(cells, blank, addr)
  {
  }

  /** What the first n loop steps of a read bring back. */
  function ReadPages<T>(cells: map<Ppa, T>, blank: T, ppa: bv32, pageId: int, n: nat): (r: seq<T>)
    ensures |r| == n
  {
    if n == 0 then []
    else ReadPages(cells, blank, ppa, pageId, n - 1) + [Cell(cells, blank, StepAddr(ppa, pageId, n - 1))]
  }

  lemma {:induction false} ReadPagesAt<T>(cells: map<Ppa, T>, blank: T, ppa: bv32, pageId: nat, n: nat, k: nat)
    requires IsBlockPpa(Ppa(ppa)) && pageId + n <= PAGE_NUM && k < n
    ensures ReadPages(cells, blank, ppa, pageId, n)[k] == Cell(cells, blank, PageAddr(ppa, pageId + k))
  {
    if k < n - 1 {
      ReadPagesAt(cells, blank, ppa, pageId, n - 1, k);
    } else {
      StepVisitsPage(ppa, pageId, k);
    }
  }

  /** Out-of-range LBAs answer -1. */
  function AddrOf(table: seq<Ppa>, lba: nat): bv32 {
    (if lba < |table| then table[lba] else UNMAPPED).bits
  }

  lemma LastBlockBits(p: bv32, n: bv32)
    requires p >> 18 == 0x3FFF
    ensures Place(p, n) >> 18 == 0x3FFF && Clear(p) >> 18 == 0x3FFF
  {
  }

  /** Every access through an LBA outside the table is to the last block number. */
  lemma {:induction false} OutOfRangeNamesLastBlock(table: seq<Ppa>, lba: nat, pageId: int, i: nat)
    requires |table| <= lba
    ensures StepAddr(AddrOf(table, lba), pageId, i) >> 18 == 0x3FFF
  {
    hide Place;
    hide Clear;
    hide Register;
    if i == 0 {
      LastBlockBits(0xFFFF_FFFF, Register(pageId));
    } else {
      OutOfRangeNamesLastBlock(table, lba, pageId, i - 1);
      LastBlockBits(StepAddr(AddrOf(table, lba), pageId, i - 1), 0);
      LastBlockBits(Clear(StepAddr(AddrOf(table, lba), pageId, i - 1)), Register(pageId + i));
    }
  }

  // ---------- any run of writes refines a map from (LBA, page) to data ----------

  /** One call of write_data. */
  datatype Write<T> = Write(lba: nat, pageId: int, buf: seq<T>, hasBuf: bool, pageNum: int) {
    /** The request is neither refused nor empty. */
    predicate Goes() {
      hasBuf && 0 < pageNum <= PAGE_NUM - pageId
    }

    /** The buffer holds the pages asked for. */
    predicate Sized() {
      Goes() ==> pageNum <= |buf|
    }
  }

  ghost predicate AllSized<T>(ws: seq<Write<T>>) {
    forall i :: 0 <= i < |ws| ==> ws[i].Sized()
  }

  function WriteOne<T>(cells: map<Ppa, T>, table: seq<Ppa>, w: Write<T>): map<Ppa, T>
    requires w.Sized()
  {
    if w.Goes() then WritePages(cells, AddrOf(table, w.lba), w.pageId, w.buf, w.pageNum) else cells
  }

  function WriteAll<T>(cells: map<Ppa, T>, table: seq<Ppa>, ws: seq<Write<T>>): map<Ppa, T>
    requires AllSized(ws)
  {
    if ws == [] then cells
    else WriteOne(WriteAll(cells, table, ws[..|ws| - 1]), table, ws[|ws| - 1])
  }

  /** The reference: the last write of each page of each LBA. */
  ghost function Reference<T>(ws: seq<Write<T>>, blank: T, lba: nat, page: nat): T
    requires AllSized(ws)
  {
    if ws == [] then blank
    else
      var w := ws[|ws| - 1];
      if w.Goes() && w.lba == lba && w.pageId <= page < w.pageId + w.pageNum then w.buf[page - w.pageId]
      else Reference(ws[..|ws| - 1], blank, lba, page)
  }

  /** Distinct live LBAs name distinct blocks. */
  ghost predicate Separate(table: seq<Ppa>, live: set<nat>) {
    && (forall l :: l in live ==> l < |table| && IsBlockPpa(table[l]))
    && (forall l, m :: l in live && m in live && table[l] == table[m] ==> l == m)
  }

  ghost predicate OnLive<T>(ws: seq<Write<T>>, live: set<nat>) {
    forall i :: 0 <= i < |ws| ==> ws[i].lba in live && 0 <= ws[i].pageId
  }

  /** Through live LBAs the device cells are a map from (LBA, page) to data: every page reads
      as its last write left it. */
  lemma {:induction false} WritesRefineMap<T>(table: seq<Ppa>, live: set<nat>, ws: seq<Write<T>>, blank: T,
                                              lba: nat, page: nat)
    requires AllSized(ws) && Separate(table, live) && OnLive(ws, live) && lba in live && page < PAGE_NUM
    ensures Cell(WriteAll(map[], table, ws), blank, PageAddr(AddrOf(table, lba), page))
         == Reference(ws, blank, lba, page)
  {
    hide IsBlockPpa;
    if ws != [] {
      var w := ws[|ws| - 1];
      assert w.lba in live && 0 <= w.pageId && w.Sized();
      WritesRefineMap(table, live, ws[..|ws| - 1], blank, lba, page);
      if w.Goes() {
        WritePagesCell(WriteAll(map[], table, ws[..|ws| - 1]), AddrOf(table, w.lba), w.pageId, w.buf, w.pageNum,
                       blank, AddrOf(table, lba), page);
        assert AddrOf(table, w.lba) == AddrOf(table, lba) ==> table[w.lba] == table[lba];
      }
    }
  }

  class Store<T(==)> {
    const table: array<Ppa>   // mapping table: LBA to block address
    const blank: T
    var cells: map<Ppa, T>

    constructor (table: array<Ppa>, blank: T)
      ensures this.table == table && this.blank == blank && cells == map[]
    {
      this.table := table;
      this.blank := blank;
      cells := map[];
    }

    /** get_ppa_addr. */
    function GetPpaAddr(lba: nat): bv32
      reads table
    {
      AddrOf(table[..], lba)
    }

    /** The abstract store: page `page` of logical block `lba`. */
    function PageOf(lba: nat, page: nat): T
      reads this, table
    {
      Cell(cells, blank, PageAddr(GetPpaAddr(lba), page))
    }

    /** write_data. A missing buffer or a request past the last page changes nothing. */
    method WriteData(lba: nat, pageId: int, buf: seq<T>, hasBuf: bool, pageNum: int) returns (status: Status)
      requires hasBuf && pageNum <= PAGE_NUM - pageId ==> pageNum <= |buf|
      modifies this
      ensures status == (if hasBuf && pageNum <= PAGE_NUM - pageId then Success else Error)
      ensures cells == if status == Success && 0 < pageNum
                       then WritePages(old(cells), GetPpaAddr(lba), pageId, buf, pageNum)
                       else old(cells)
    {
      if !hasBuf {
        return Error;
      }
      var pnum := Register(pageId);
      var ppa := GetPpaAddr(lba);
      if pageNum > PAGE_NUM - pageId {
        return Error;
      }
      var paddr := Place(ppa, pnum);
      FirstAddr(ppa, pageId);
      hide Register;
      hide Place;
      hide Clear;
      hide StepAddr;
      WritePagesNone(old(cells), ppa, pageId, buf);
      hide WritePages;
      var i := 0;
      while i < pageNum
        invariant 0 <= i && (0 < pageNum ==> i <= pageNum)
        invariant pnum == Register(pageId + i) && paddr == StepAddr(ppa, pageId, i)
        invariant cells == if 0 < pageNum then WritePages(old(cells), ppa, pageId, buf, i) else old(cells)
      {
        cells := cells[Ppa(paddr) := buf[i]];
        WritePagesStep(old(cells), ppa, pageId, buf, i);
        NextPage(pageId + i);
        NextAddr(ppa, pageId, i);
        pnum := pnum + 1;
        paddr := Place(Clear(paddr), pnum);
        i := i + 1;
      }
      return Success;
    }

    /** read_data: the pages come back in order, nothing changes. */
    method ReadData(lba: nat, pageId: int, hasBuf: bool, pageNum: int) returns (status: Status, buf: seq<T>)
      ensures status == (if hasBuf && pageNum <= PAGE_NUM - pageId then Success else Error)
      ensures buf == if status == Success && 0 < pageNum
                     then ReadPages(cells, blank, GetPpaAddr(lba), pageId, pageNum) else []
    {
      buf := [];
      if !hasBuf {
        return Error, buf;
      }
      var paddr := GetPpaAddr(lba);
      ghost var ppa := paddr;
      var pnum := Register(pageId);
      if pageNum > PAGE_NUM - pageId {
        return Error, buf;
      }
      paddr := Place(paddr, pnum);
      FirstAddr(ppa, pageId);
      hide Register;
      hide Place;
      hide Clear;
      hide StepAddr;
      var i := 0;
      while i < pageNum
        invariant 0 <= i && (0 < pageNum ==> i <= pageNum)
        invariant pnum == Register(pageId + i) && paddr == StepAddr(ppa, pageId, i)
        invariant buf == ReadPages(cells, blank, ppa, pageId, i) && (pageNum <= 0 ==> i == 0)
      {
        buf := buf + [Cell(cells, blank, paddr)];
        NextPage(pageId + i);
        NextAddr(ppa, pageId, i);
        pnum := pnum + 1;
        paddr := Place(Clear(paddr), pnum);
        i := i + 1;
      }
      return Success, buf;
    }

    /** write_block: all pages from page 0. */
    method WriteBlock(lba: nat, buf: seq<T>, hasBuf: bool) returns (status: Status)
      requires hasBuf ==> |buf| == PAGE_NUM
      modifies this
      ensures status == (if hasBuf then Success else Error)
      ensures cells == if hasBuf then WritePages(old(cells), GetPpaAddr(lba), 0, buf, PAGE_NUM) else old(cells)
    {
      if !hasBuf {
        return Error;
      }
      var ppa := GetPpaAddr(lba);
      var pageNum := Register(0);
      var paddr := ppa;
      FirstAddr(ppa, 0);
      hide Register;
      hide Place;
      hide Clear;
      hide StepAddr;
      for i := 0 to PAGE_NUM
        invariant pageNum == Register(i) && paddr == StepAddr(ppa, 0, i)
        invariant cells == WritePages(old(cells), ppa, 0, buf, i)
      {
        cells := cells[Ppa(paddr) := buf[i]];
        NextPage(i);
        NextAddr(ppa, 0, i);
        pageNum := pageNum + 1;
        paddr := Place(Clear(paddr), pageNum);
      }
      return Success;
    }

    /** Any number of write_data calls. */
    method WriteMany(ws: seq<Write<T>>)
      requires AllSized(ws)
      modifies this
      ensures cells == WriteAll(old(cells), table[..], ws)
    {
      for i := 0 to |ws|
        invariant cells == WriteAll(old(cells), table[..], ws[..i])
      {
        var w := ws[i];
        assert w.Sized();
        var status := WriteData(w.lba, w.pageId, w.buf, w.hasBuf, w.pageNum);
        assert ws[..i + 1][..i] == ws[..i];
      }
      assert ws[..|ws|] == ws;
    }

    /** Write then read through the whole store: the pages written come back, and a
        page of the same or of any other allocated block that was not named keeps its
        content. */
    method WriteThenRead(lba: nat, pageId: nat, buf: seq<T>, other: nat, page: nat)
      returns (back: seq<T>, before: T, after: T)
      requires pageId + |buf| <= PAGE_NUM && page < PAGE_NUM
      requires IsBlockPpa(Ppa(GetPpaAddr(lba))) && IsBlockPpa(Ppa(GetPpaAddr(other)))
      requires other != lba ==> GetPpaAddr(other) != GetPpaAddr(lba)
      modifies this
      ensures back == buf
      ensures other != lba || !(pageId <= page < pageId + |buf|) ==> after == before
    {
      before := PageOf(other, page);
      ghost var was := cells;
      var status := WriteData(lba, pageId, buf, true, |buf|);
      after := PageOf(other, page);
      WritePagesCell(was, GetPpaAddr(lba), pageId, buf, |buf|, blank, GetPpaAddr(other), page);
      status, back := ReadData(lba, pageId, true, |buf|);
      forall i | 0 <= i < |buf| ensures back[i] == buf[i] {
        ReadPagesAt(cells, blank, GetPpaAddr(lba), pageId, |buf|, i);
        WritePagesCell(was, GetPpaAddr(lba), pageId, buf, |buf|, blank, GetPpaAddr(lba), pageId + i);
      }
    }
  }
}
