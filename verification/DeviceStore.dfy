/** Data on the whole device: channels are opened, blocks allocated and released (which
    erases them) and pages written, in any order (vssd_code/channel.c: 27-56, 179-519,
    657-682, the erases of 868-941). Whatever the order, a live LBA keeps what was written
    through it, and a newly allocated one reads blank. */
module DeviceStores {
  import opened Options
  import opened Ppas
  import opened RingQueues
  import opened BlkLists
  import opened BadBlocks
  import opened FreeScan
  import opened Allocator
  import opened Devices
  import opened BlockStores
  import opened Lookups
  import opened DeviceCalls

  /** The bookkeeping and the page cells; an absent cell reads as blank. */
  datatype Disk<T> = Disk(d: Device, cells: map<Ppa, T>)

  datatype Action<T> = Manage(c: Call) | Put(w: Write<T>)

  // ---------- erases ----------

  const PLANE_MASK: bv32 := 0xC0

  function PlaneZero(p: bv32): bv32 {
    p & !PLANE_MASK
  }

  /** The cells an erase of p clears: the pages of the block, or those of the block in every
      plane for a superblock. */
  predicate Erases(k: Kind, p: Ppa, cell: Ppa) {
    if k == Block then Clear(cell.bits) == p.bits else PlaneZero(Clear(cell.bits)) == p.bits
  }

  function Erase<T>(cells: map<Ppa, T>, k: Kind, p: Ppa): map<Ppa, T> {
    map a | a in cells && !Erases(k, p, a) :: cells[a]
  }

  ghost predicate ErasedByOpening(u: Setup, cell: Ppa) {
    || (exists p :: p in u.normal && Erases(Block, p, cell))
    || (exists p :: p in u.super && Erases(Superblock, p, cell))
  }

  ghost function EraseAll<T>(cells: map<Ppa, T>, u: Setup): map<Ppa, T> {
    map a | a in cells && !ErasedByOpening(u, a) :: cells[a]
  }

  // ---------- steps and runs ----------

  ghost function CellsAfter<T>(h: Hw, x: Disk<T>, c: Call): map<Ppa, T>
    requires h.Valid()
  {
    match c
    case Open(ch) => if ch in x.d.chans then x.cells else EraseAll(x.cells, SetupOf(h, ch))
    case On(ch, Alloc(k)) => x.cells
    case On(ch, Release(k, lba, count)) => if lba < |x.d.table| then Erase(x.cells, k, x.d.table[lba]) else x.cells
  }

  ghost predicate Allowed<T>(h: Hw, x: Disk<T>, a: Action<T>)
    requires h.Valid()
  {
    match a
    case Manage(c) => Legal(h, x.d, c)
    case Put(w) => w.Sized() && (w.Goes() ==> 0 <= w.pageId && IsLive(h, x.d, w.lba))
  }

  /** None when the action ends the program. */
  ghost function After<T>(h: Hw, x: Disk<T>, a: Action<T>): Option<Disk<T>>
    requires h.Valid() && Allowed(h, x, a)
  {
    match a
    case Put(w) => Some(Disk(x.d, WriteOne(x.cells, x.d.table, w)))
    case Manage(c) =>
      match Step(h, x.d, c)
      case Running(d) => Some(Disk(d, CellsAfter(h, x, c)))
      case _ => None
  }

  // ---------- the reference: a map from (LBA, page) to data ----------

  type Pages<T> = map<(int, int), T>

  function Look<T>(m: Pages<T>, blank: T, lba: int, page: int): T {
    if (lba, page) in m then m[(lba, page)] else blank
  }

  function WithPages<T>(m: Pages<T>, lba: int, pageId: int, buf: seq<T>, n: nat): Pages<T>
    requires n <= |buf|
  {
    if n == 0 then m else WithPages(m, lba, pageId, buf, n - 1)[(lba, pageId + n - 1) := buf[n - 1]]
  }

  function Forget<T>(m: Pages<T>, lba: int): Pages<T> {
    map x | x in m && x.0 != lba :: m[x]
  }

  /** A write sets its pages, an allocation makes its LBA blank, nothing else happens. */
  function ReferenceAfter<T>(d: Device, m: Pages<T>, a: Action<T>): Pages<T>
    requires a.Put? ==> a.w.Sized()
  {
    match a
    case Put(w) => if w.Goes() then WithPages(m, w.lba, w.pageId, w.buf, w.pageNum) else m
    case Manage(On(ch, Alloc(_))) =>
      if ch in d.chans && d.chans[ch].q != [] then Forget(m, d.chans[ch].q[0]) else m
    case Manage(_) => m
  }

  // ---------- the invariant ----------

  ghost predicate PagesMatch<T>(cells: map<Ppa, T>, blank: T, p: Ppa, m: Pages<T>, l: int) {
    forall i: nat :: i < PAGE_NUM ==> Cell(cells, blank, PageAddr(p.bits, i)) == Look(m, blank, l, i)
  }

  ghost predicate IsBlank<T>(cells: map<Ppa, T>, blank: T, p: Ppa) {
    forall i: nat :: i < PAGE_NUM ==> Cell(cells, blank, PageAddr(p.bits, i)) == blank
  }

  ghost predicate LiveOn(h: Hw, d: Device, ch: nat, l: nat)
    requires h.Valid()
  {
    ch in d.chans && Mapped(SetupOf(h, ch), d.chans[ch].q, l) && l < |d.table|
  }

  ghost predicate OnFree(c: Chan, p: Ppa) {
    exists b :: (b in c.normal.free || b in c.super.free) && b.ppa == p
  }

  /** A live LBA reads as the reference says. */
  ghost predicate LiveOk<T>(h: Hw, x: Disk<T>, m: Pages<T>, blank: T, ch: nat, l: nat)
    requires h.Valid()
  {
    LiveOn(h, x.d, ch, l) ==> PagesMatch(x.cells, blank, x.d.table[l], m, l)
  }

  /** A free block is blank. */
  ghost predicate FreeOk<T>(x: Disk<T>, blank: T, ch: nat, p: Ppa) {
    ch in x.d.chans && OnFree(x.d.chans[ch], p) ==> IsBlank(x.cells, blank, p)
  }

  ghost predicate Faithful<T>(h: Hw, x: Disk<T>, m: Pages<T>, blank: T)
    requires h.Valid()
  {
    AllLive(h, x, m, blank) && AllFree(x, blank)
  }

  ghost predicate AllLive<T>(h: Hw, x: Disk<T>, m: Pages<T>, blank: T)
    requires h.Valid()
  {
    forall ch: nat, l: nat :: LiveOk(h, x, m, blank, ch, l)
  }

  ghost predicate AllFree<T>(x: Disk<T>, blank: T) {
    forall ch: nat, p: Ppa :: FreeOk(x, blank, ch, p)
  }

  // ---------- which cells an erase reaches ----------

  lemma PlaneBits(ch: bv32, lun: bv32, blk: bv32, pl: bv32)
    requires ch < 16 && lun < 4 && blk < 0x4000 && pl < 4
    ensures PlaneZero(Pack(ch, lun, blk, pl)) == Pack(ch, lun, blk, 0)
  {
  }

  lemma PlaneZeroOf(c: Coord)
    requires InRange(c)
    ensures PlaneZero(PpaOf(c).bits) == PpaOf(c.(pl := 0)).bits
  {
    U32Below(c.ch);
    U32Below(c.lun);
    U32Below(c.blk);
    U32Below(c.pl);
    PlaneBits(U32(c.ch), U32(c.lun), U32(c.blk), U32(c.pl));
  }

  lemma ClearPage(p: Ppa, i: nat)
    requires IsBlockPpa(p) && i < PAGE_NUM
    ensures Clear(PageAddr(p.bits, i)) == p.bits
  {
    U32Below(i);
    PageFields(p.bits, U32(i));
  }

  /** A good block of some channel: the coordinate it was found at. */
  ghost predicate FoundAt(h: Hw, k: Kind, ch: nat, c: Coord)
    requires h.Valid()
  {
    && InRange(c) && c.ch == ch
    && (if k == Block then c.blk < Normal(h.g) else Normal(h.g) <= c.blk && c.pl == 0)
  }

  lemma Find(h: Hw, k: Kind, ch: nat, p: Ppa) returns (c: Coord)
    requires h.Valid() && ch < CHANNELS && p in SetupOf(h, ch).Of(k)
    ensures FoundAt(h, k, ch, c) && p == PpaOf(c)
  {
    BlockScanFacts(h.g, h.bad, h.mask, ch, Normal(h.g));
    SuperScanFacts(h.g, h.bad, h.mask, ch, h.g.blocks);
    var cs := if k == Block then Blocks(h, ch) else Superblocks(h, ch);
    hide PpaOf;
    c :| c in cs && p == PpaOf(c);
  }

  ghost predicate IsGood(h: Hw, ch: nat, k: Kind, p: Ppa)
    requires h.Valid()
  {
    ch < CHANNELS && p in SetupOf(h, ch).Of(k)
  }

  lemma BlockEraseReach(p: Ppa, q: Ppa, i: nat)
    requires IsBlockPpa(q) && i < PAGE_NUM
    ensures Erases(Block, p, Ppa(PageAddr(q.bits, i))) <==> p == q
  {
    ClearPage(q, i);
    hide IsBlockPpa;
    hide PageAddr;
    hide Clear;
  }

  /** A superblock erase reaches the same block in every plane, so an ordinary block is safe
      only because its number is below every superblock's. */
  lemma SuperEraseReach(c: Coord, c': Coord, i: nat)
    requires InRange(c) && InRange(c') && IsBlockPpa(PpaOf(c')) && i < PAGE_NUM
    ensures Erases(Superblock, PpaOf(c), Ppa(PageAddr(PpaOf(c').bits, i))) <==> c == c'.(pl := 0)
  {
    ClearPage(PpaOf(c'), i);
    PlaneZeroOf(c');
    hide PageAddr;
    hide Clear;
    hide PlaneZero;
    BlockAddressInjective(c, c'.(pl := 0));
    hide PpaOf;
    hide Unpack;
    hide IsBlockPpa;
  }

  /** An erase of one good block reaches no page of another, of any kind or channel. */
  lemma ErasesOnlyItself(h: Hw, k: Kind, ch: nat, p: Ppa, k': Kind, ch': nat, q: Ppa, i: nat)
    requires h.Valid() && i < PAGE_NUM && IsGood(h, ch, k, p) && IsGood(h, ch', k', q)
    ensures IsBlockPpa(q) && (Erases(k, p, Ppa(PageAddr(q.bits, i))) <==> p == q)
  {
    hide SetupOf;
    hide PpaOf;
    hide Unpack;
    hide IsBlockPpa;
    hide Erases;
    hide PageAddr;
    var c := Find(h, k, ch, p);
    var c' := Find(h, k', ch', q);
    BlockAddress(c');
    if k == Block {
      BlockEraseReach(p, q, i);
    } else {
      SuperEraseReach(c, c', i);
      BlockAddressInjective(c, c');
    }
  }

  lemma GoodIsBlock(h: Hw, ch: nat, k: Kind, p: Ppa)
    requires h.Valid() && IsGood(h, ch, k, p)
    ensures IsBlockPpa(p)
  {
    hide IsGood;
    hide Erases;
    ErasesOnlyItself(h, k, ch, p, k, ch, p, 0);
  }

  // ---------- live and free blocks ----------

  lemma LiveIsGood(h: Hw, d: Device, ch: nat, l: nat) returns (k: Kind)
    requires h.Valid() && DInv(h, d) && LiveOn(h, d, ch, l)
    ensures IsGood(h, ch, k, d.table[l])
  {
    hide DInv;
    hide Inv;
    hide Mapped;
    hide SetupOf;
    InvOf(h, d, ch);
    var u := SetupOf(h, ch);
    MappedIsGood(u, State(d.table, d.ers, d.chans[ch]), l);
    k := if d.table[l] in u.normal then Block else Superblock;
  }

  lemma FreeIsNamed(u: Setup, s: State, p: Ppa) returns (k: Kind)
    requires Inv(u, s) && OnFree(s.chan, p)
    ensures p in u.Of(k) && p in Bag(s.chan.Of(k).free)
  {
    hide Unpack;
    hide TableOk;
    hide QueueOk;
    hide CountsOk;
    var b :| (b in s.chan.normal.free || b in s.chan.super.free) && b.ppa == p;
    k := if b in s.chan.normal.free then Block else Superblock;
    BagHolds(s.chan.Of(k).free, b);
    AddressesApart(u, s.chan, p);
    hide ListsOk;
    hide Bag;
  }

  lemma FreeIsGood(h: Hw, d: Device, ch: nat, p: Ppa) returns (k: Kind)
    requires h.Valid() && DInv(h, d) && ch in d.chans && OnFree(d.chans[ch], p)
    ensures IsGood(h, ch, k, p) && p in Bag(d.chans[ch].Of(k).free)
  {
    hide DInv;
    hide Inv;
    hide OnFree;
    hide Bag;
    hide SetupOf;
    InvOf(h, d, ch);
    k := FreeIsNamed(SetupOf(h, ch), State(d.table, d.ers, d.chans[ch]), p);
  }

  lemma DistinctLive(h: Hw, d: Device, ch: nat, l: nat, ch': nat, l': nat)
    requires h.Valid() && DInv(h, d) && LiveOn(h, d, ch, l) && LiveOn(h, d, ch', l') && l != l'
    ensures d.table[l] != d.table[l']
  {
    hide DInv;
    hide SetupOf;
    hide Mapped;
    if l' < l {
      LowerEntry(h, d, ch, l, l');
    } else {
      LowerEntry(h, d, ch', l', l);
    }
  }

  lemma FreeIsNotUsed(u: Setup, s: State, l: nat, k: Kind, p: Ppa)
    requires Inv(u, s) && Mapped(u, s.chan.q, l) && p in Bag(s.chan.Of(k).free)
    ensures l < |s.table| && p != s.table[l]
  {
    MappedIsUsed(u, s, l);
    hide Unpack;
    hide TableOk;
    UsedOnce(u, s.chan, k, p);
  }

  lemma GoodIsNamed(h: Hw, ch: nat, k: Kind, p: Ppa)
    requires h.Valid() && IsGood(h, ch, k, p)
    ensures Unpack(p.bits).ch == U32(ch) && ch < CHANNELS
  {
    SetupValid(h, ch);
    hide Unpack;
  }

  lemma FreeIsNotLive(h: Hw, d: Device, ch: nat, l: nat, ch': nat, p: Ppa)
    requires h.Valid() && DInv(h, d) && LiveOn(h, d, ch, l) && ch' in d.chans && OnFree(d.chans[ch'], p)
    ensures p != d.table[l]
  {
    var k := LiveIsGood(h, d, ch, l);
    var k' := FreeIsGood(h, d, ch', p);
    GoodIsNamed(h, ch, k, d.table[l]);
    GoodIsNamed(h, ch', k', p);
    U32Injective(ch, ch');
    InvOf(h, d, ch);
    hide IsGood;
    hide SetupOf;
    hide Unpack;
    hide U32;
    hide OnFree;
    hide DInv;
    hide Inv;
    hide Bag;
    hide Mapped;
    if ch == ch' {
      FreeIsNotUsed(SetupOf(h, ch), State(d.table, d.ers, d.chans[ch]), l, k', p);
    }
  }

  // ---------- a write ----------

  lemma {:induction false} LookWithPages<T>(m: Pages<T>, lba: int, pageId: int, buf: seq<T>, n: nat, blank: T,
                                            l: int, i: int)
    requires n <= |buf|
    ensures Look(WithPages(m, lba, pageId, buf, n), blank, l, i)
         == if l == lba && pageId <= i < pageId + n then buf[i - pageId] else Look(m, blank, l, i)
  {
    if n > 0 {
      LookWithPages(m, lba, pageId, buf, n - 1, blank, l, i);
    }
  }

  lemma PagesWritten<T>(cells: map<Ppa, T>, blank: T, m: Pages<T>, w: Write<T>, p: Ppa, q: Ppa, l: nat)
    requires w.Sized() && w.Goes() && 0 <= w.pageId && IsBlockPpa(p) && IsBlockPpa(q) && (p == q <==> l == w.lba)
    requires PagesMatch(cells, blank, q, m, l)
    ensures PagesMatch(WritePages(cells, p.bits, w.pageId, w.buf, w.pageNum), blank, q,
                       WithPages(m, w.lba, w.pageId, w.buf, w.pageNum), l)
  {
    hide IsBlockPpa;
    hide PageAddr;
    hide WritePages;
    hide WithPages;
    hide Cell;
    hide Look;
    forall i: nat | i < PAGE_NUM
      ensures Cell(WritePages(cells, p.bits, w.pageId, w.buf, w.pageNum), blank, PageAddr(q.bits, i))
           == Look(WithPages(m, w.lba, w.pageId, w.buf, w.pageNum), blank, l, i)
    {
      WritePagesCell(cells, p.bits, w.pageId, w.buf, w.pageNum, blank, q.bits, i);
      LookWithPages(m, w.lba, w.pageId, w.buf, w.pageNum, blank, l, i);
    }
  }

  lemma BlankLeft<T>(cells: map<Ppa, T>, blank: T, w: Write<T>, p: Ppa, q: Ppa)
    requires w.Sized() && w.Goes() && 0 <= w.pageId && IsBlockPpa(p) && IsBlockPpa(q) && p != q
    requires IsBlank(cells, blank, q)
    ensures IsBlank(WritePages(cells, p.bits, w.pageId, w.buf, w.pageNum), blank, q)
  {
    hide IsBlockPpa;
    hide PageAddr;
    hide WritePages;
    hide Cell;
    forall i: nat | i < PAGE_NUM
      ensures Cell(WritePages(cells, p.bits, w.pageId, w.buf, w.pageNum), blank, PageAddr(q.bits, i)) == blank
    {
      WritePagesCell(cells, p.bits, w.pageId, w.buf, w.pageNum, blank, q.bits, i);
    }
  }

  /** The disk and the reference after a write that goes through. */
  ghost function Written<T>(x: Disk<T>, w: Write<T>): Disk<T>
    requires w.Sized() && w.Goes() && w.lba < |x.d.table|
  {
    x.(cells := WritePages(x.cells, x.d.table[w.lba].bits, w.pageId, w.buf, w.pageNum))
  }

  lemma WriteMatches<T>(h: Hw, x: Disk<T>, m: Pages<T>, blank: T, w: Write<T>, lw: nat, ch: nat, l: nat)
    requires h.Valid() && DInv(h, x.d) && w.Sized() && w.Goes() && 0 <= w.pageId && LiveOn(h, x.d, lw, w.lba)
    requires LiveOk(h, x, m, blank, ch, l)
    ensures LiveOk(h, Written(x, w), WithPages(m, w.lba, w.pageId, w.buf, w.pageNum), blank, ch, l)
  {
    if LiveOn(h, x.d, ch, l) {
      hide PagesMatch;
      hide WritePages;
      hide WithPages;
      hide IsBlockPpa;
      hide IsGood;
      hide DInv;
      hide Mapped;
      hide SetupOf;
      var k := LiveIsGood(h, x.d, lw, w.lba);
      var k' := LiveIsGood(h, x.d, ch, l);
      GoodIsBlock(h, lw, k, x.d.table[w.lba]);
      GoodIsBlock(h, ch, k', x.d.table[l]);
      if l != w.lba {
        DistinctLive(h, x.d, ch, l, lw, w.lba);
      }
      PagesWritten(x.cells, blank, m, w, x.d.table[w.lba], x.d.table[l], l);
    }
  }

  lemma WriteKeepsBlank<T>(h: Hw, x: Disk<T>, blank: T, w: Write<T>, lw: nat, ch: nat, q: Ppa)
    requires h.Valid() && DInv(h, x.d) && w.Sized() && w.Goes() && 0 <= w.pageId && LiveOn(h, x.d, lw, w.lba)
    requires FreeOk(x, blank, ch, q)
    ensures FreeOk(Written(x, w), blank, ch, q)
  {
    if ch in x.d.chans && OnFree(x.d.chans[ch], q) {
      hide IsBlank;
      hide WritePages;
      hide IsBlockPpa;
      hide IsGood;
      hide DInv;
      hide OnFree;
      hide Mapped;
      hide SetupOf;
      var k := LiveIsGood(h, x.d, lw, w.lba);
      var k' := FreeIsGood(h, x.d, ch, q);
      GoodIsBlock(h, lw, k, x.d.table[w.lba]);
      GoodIsBlock(h, ch, k', q);
      FreeIsNotLive(h, x.d, lw, w.lba, ch, q);
      BlankLeft(x.cells, blank, w, x.d.table[w.lba], q);
    }
  }

  lemma WriteKeepsFaith<T>(h: Hw, x: Disk<T>, m: Pages<T>, blank: T, w: Write<T>, lw: nat)
    requires h.Valid() && DInv(h, x.d) && Faithful(h, x, m, blank) && w.Sized() && w.Goes() && 0 <= w.pageId
    requires LiveOn(h, x.d, lw, w.lba)
    ensures Faithful(h, Written(x, w), WithPages(m, w.lba, w.pageId, w.buf, w.pageNum), blank)
  {
    hide DInv;
    hide LiveOk;
    hide FreeOk;
    hide Written;
    hide WithPages;
    forall ch: nat, l: nat
      ensures LiveOk(h, Written(x, w), WithPages(m, w.lba, w.pageId, w.buf, w.pageNum), blank, ch, l)
    {
      WriteMatches(h, x, m, blank, w, lw, ch, l);
    }
    forall ch: nat, q: Ppa ensures FreeOk(Written(x, w), blank, ch, q) {
      WriteKeepsBlank(h, x, blank, w, lw, ch, q);
    }
  }

  lemma PutKeepsFaith<T>(h: Hw, x: Disk<T>, m: Pages<T>, blank: T, w: Write<T>)
    requires h.Valid() && DInv(h, x.d) && Faithful(h, x, m, blank) && Allowed(h, x, Put(w))
    ensures Faithful(h, After(h, x, Put(w)).value, ReferenceAfter(x.d, m, Put(w)), blank)
  {
    if w.Goes() {
      var lw :| lw in x.d.chans && Mapped(SetupOf(h, lw), x.d.chans[lw].q, w.lba);
      MappedInTable(h, x.d, lw, w.lba);
      assert w.lba < |x.d.table|;
      hide DInv;
      hide LiveOn;
      hide Mapped;
      hide Faithful;
      hide WritePages;
      hide WithPages;
      WriteKeepsFaith(h, x, m, blank, w, lw);
    }
  }

  lemma MappedInTable(h: Hw, d: Device, ch: nat, l: nat)
    requires h.Valid() && DInv(h, d) && ch in d.chans && Mapped(SetupOf(h, ch), d.chans[ch].q, l)
    ensures LiveOn(h, d, ch, l)
  {
    assert Live(h, d, ch);
    hide DInv;
    MappedIsUsed(SetupOf(h, ch), State(d.table, d.ers, d.chans[ch]), l);
  }

  // ---------- an allocation ----------

  lemma ForgetOthers<T>(cells: map<Ppa, T>, blank: T, p: Ppa, m: Pages<T>, l: int, gone: int)
    requires PagesMatch(cells, blank, p, m, l) && l != gone
    ensures PagesMatch(cells, blank, p, Forget(m, gone), l)
  {
    forall i: nat | i < PAGE_NUM ensures Look(Forget(m, gone), blank, l, i) == Look(m, blank, l, i) {
    }
    hide PageAddr;
    hide Cell;
  }

  lemma ForgetIsBlank<T>(cells: map<Ppa, T>, blank: T, p: Ppa, m: Pages<T>, l: int)
    requires IsBlank(cells, blank, p)
    ensures PagesMatch(cells, blank, p, Forget(m, l), l)
  {
    forall i: nat | i < PAGE_NUM ensures Look(Forget(m, l), blank, l, i) == blank {
    }
    hide PageAddr;
    hide Cell;
  }

  /** What an allocation changes. */
  lemma AllocShape(d: Device, ch: nat, k: Kind, s: State, p: Ppa)
    requires ch in d.chans && AllocBlock(State(d.table, d.ers, d.chans[ch]), k) == Next(s)
    ensures var c := d.chans[ch];
            && c.q != [] && 0 <= c.q[0] < |d.table| && s.chan.q == c.q[1..] && c.Of(k).free != []
            && s.table == d.table[c.q[0] := c.Of(k).free[0].ppa] && OnFree(c, c.Of(k).free[0].ppa)
            && (OnFree(s.chan, p) ==> OnFree(c, p))
  {
    var c := d.chans[ch];
    assert c.Of(k).free[0] in c.Of(k).free;
    if OnFree(s.chan, p) {
      var b :| (b in s.chan.normal.free || b in s.chan.super.free) && b.ppa == p;
      assert b in c.normal.free || b in c.super.free;
    }
  }

  lemma AllocLive(h: Hw, d: Device, d': Device, ch: nat, ch': nat, l: nat)
    requires h.Valid() && DInv(h, d) && ch in d.chans && d.chans[ch].q != [] && 0 <= d.chans[ch].q[0] < |d.table|
    requires ch in d'.chans && d'.chans == d.chans[ch := d'.chans[ch]] && |d'.table| == |d.table|
    requires d'.chans[ch].q == d.chans[ch].q[1..] && LiveOn(h, d', ch', l)
    ensures (ch' == ch && l == d.chans[ch].q[0]) || (l != d.chans[ch].q[0] && LiveOn(h, d, ch', l))
  {
    InvOf(h, d, ch);
    hide DInv;
    hide TableOk;
    hide ListsOk;
    hide CountsOk;
    hide SetupOf;
    var q := d.chans[ch].q;
    assert InSlice(SetupOf(h, ch), q[0]);
    if ch' == ch {
      MappedAfterAlloc(SetupOf(h, ch), q, l);
    } else {
      SlicesApart(h, ch, ch', l);
    }
  }

  lemma AllocLiveOk<T>(h: Hw, x: Disk<T>, d': Device, m: Pages<T>, blank: T, ch: nat, p: Ppa, ch': nat, l: nat)
    requires h.Valid() && DInv(h, x.d) && Faithful(h, x, m, blank) && ch in x.d.chans && x.d.chans[ch].q != []
    requires 0 <= x.d.chans[ch].q[0] < |x.d.table| && OnFree(x.d.chans[ch], p)
    requires ch in d'.chans && d'.chans == x.d.chans[ch := d'.chans[ch]]
    requires d'.chans[ch].q == x.d.chans[ch].q[1..] && d'.table == x.d.table[x.d.chans[ch].q[0] := p]
    ensures LiveOk(h, Disk(d', x.cells), Forget(m, x.d.chans[ch].q[0]), blank, ch', l)
  {
    if LiveOn(h, d', ch', l) {
      AllocLive(h, x.d, d', ch, ch', l);
      assert LiveOk(h, x, m, blank, ch', l) && FreeOk(x, blank, ch, p);
      hide DInv;
      hide LiveOn;
      hide PagesMatch;
      hide IsBlank;
      hide Forget;
      hide OnFree;
      if l == x.d.chans[ch].q[0] {
        ForgetIsBlank(x.cells, blank, p, m, l);
      } else {
        ForgetOthers(x.cells, blank, x.d.table[l], m, l, x.d.chans[ch].q[0]);
      }
    }
  }

  lemma AllocFreeOk<T>(x: Disk<T>, blank: T, ch: nat, k: Kind, s: State, ch': nat, p: Ppa)
    requires ch in x.d.chans && AllocBlock(State(x.d.table, x.d.ers, x.d.chans[ch]), k) == Next(s)
    requires FreeOk(x, blank, ch', p)
    ensures FreeOk(Disk(Device(s.table, s.ers, x.d.chans[ch := s.chan]), x.cells), blank, ch', p)
  {
    AllocShape(x.d, ch, k, s, p);
    hide AllocBlock;
    hide OnFree;
    hide IsBlank;
  }

  lemma AllocKeepsFree<T>(x: Disk<T>, blank: T, ch: nat, k: Kind, s: State)
    requires ch in x.d.chans && AllocBlock(State(x.d.table, x.d.ers, x.d.chans[ch]), k) == Next(s) && AllFree(x, blank)
    ensures AllFree(Disk(Device(s.table, s.ers, x.d.chans[ch := s.chan]), x.cells), blank)
  {
    hide AllocBlock;
    hide FreeOk;
    var x' := Disk(Device(s.table, s.ers, x.d.chans[ch := s.chan]), x.cells);
    forall ch': nat, p: Ppa ensures FreeOk(x', blank, ch', p) {
      AllocFreeOk(x, blank, ch, k, s, ch', p);
    }
  }

  lemma AllocKeepsLive<T>(h: Hw, x: Disk<T>, m: Pages<T>, blank: T, ch: nat, k: Kind, s: State)
    requires h.Valid() && DInv(h, x.d) && Faithful(h, x, m, blank) && ch in x.d.chans
    requires AllocBlock(State(x.d.table, x.d.ers, x.d.chans[ch]), k) == Next(s)
    ensures x.d.chans[ch].q != []
    ensures AllLive(h, Disk(Device(s.table, s.ers, x.d.chans[ch := s.chan]), x.cells),
                    Forget(m, x.d.chans[ch].q[0]), blank)
  {
    var d' := Device(s.table, s.ers, x.d.chans[ch := s.chan]);
    AllocShape(x.d, ch, k, s, UNMAPPED);
    hide AllocBlock;
    hide DInv;
    hide OnFree;
    hide LiveOk;
    hide Faithful;
    hide Forget;
    var m' := Forget(m, x.d.chans[ch].q[0]);
    forall ch': nat, l: nat ensures LiveOk(h, Disk(d', x.cells), m', blank, ch', l) {
      AllocLiveOk(h, x, d', m, blank, ch, x.d.chans[ch].Of(k).free[0].ppa, ch', l);
    }
  }

  // ---------- a release ----------

  /** What a release changes. */
  lemma FreeShapeOf(d: Device, ch: nat, k: Kind, lba: nat, count: nat, s: State, p: Ppa)
    requires ch in d.chans && FreeBlock(State(d.table, d.ers, d.chans[ch]), k, lba, count) == Next(s)
    ensures lba < |d.table| && s.table == d.table[lba := UNMAPPED] && s.chan.q == d.chans[ch].q + [lba]
    ensures OnFree(s.chan, p) ==> OnFree(d.chans[ch], p) || p == d.table[lba]
  {
    var c := d.chans[ch];
    if OnFree(s.chan, p) {
      var b :| (b in s.chan.normal.free || b in s.chan.super.free) && b.ppa == p;
      var freed := Blk(d.table[lba], Wear(d.ers, k, d.table[lba], count));
      if b in InsertDesc(c.Of(k).free, freed) {
        InsertDescHolds(c.Of(k).free, freed, b);
      }
      hide InsertDesc;
      assert b in c.normal.free || b in c.super.free || b == freed;
    }
  }

  lemma FreeLive(h: Hw, d: Device, d': Device, ch: nat, lba: nat, ch': nat, l: nat)
    requires h.Valid() && DInv(h, d) && LiveOn(h, d, ch, lba)
    requires ch in d'.chans && d'.chans == d.chans[ch := d'.chans[ch]] && |d'.table| == |d.table|
    requires d'.chans[ch].q == d.chans[ch].q + [lba] && LiveOn(h, d', ch', l)
    ensures l != lba && LiveOn(h, d, ch', l)
  {
    InvOf(h, d, ch);
    hide DInv;
    hide TableOk;
    hide ListsOk;
    hide CountsOk;
    hide SetupOf;
    if ch' == ch {
      MappedAfterFree(SetupOf(h, ch), d.chans[ch].q, lba, l);
    } else {
      SlicesApart(h, ch, ch', l);
    }
  }

  /** Pages that an erase does not reach keep what they hold, those it reaches are blank. */
  lemma ErasePages<T>(cells: map<Ppa, T>, cells': map<Ppa, T>, blank: T, q: Ppa)
    requires forall i: nat :: i < PAGE_NUM ==>
               Cell(cells', blank, PageAddr(q.bits, i)) == Cell(cells, blank, PageAddr(q.bits, i))
    ensures forall m, l :: PagesMatch(cells, blank, q, m, l) ==> PagesMatch(cells', blank, q, m, l)
    ensures IsBlank(cells, blank, q) ==> IsBlank(cells', blank, q)
  {
    hide Cell;
    hide PageAddr;
  }

  lemma EraseLeaves<T>(h: Hw, cells: map<Ppa, T>, blank: T, k: Kind, ch: nat, p: Ppa, k': Kind, ch': nat, q: Ppa)
    requires h.Valid() && IsGood(h, ch, k, p) && IsGood(h, ch', k', q) && p != q
    ensures forall m, l :: PagesMatch(cells, blank, q, m, l) ==> PagesMatch(Erase(cells, k, p), blank, q, m, l)
    ensures IsBlank(cells, blank, q) ==> IsBlank(Erase(cells, k, p), blank, q)
  {
    forall i: nat | i < PAGE_NUM
      ensures Cell(Erase(cells, k, p), blank, PageAddr(q.bits, i)) == Cell(cells, blank, PageAddr(q.bits, i))
    {
      hide IsGood;
      hide PageAddr;
      hide Erases;
      ErasesOnlyItself(h, k, ch, p, k', ch', q, i);
    }
    ErasePages(cells, Erase(cells, k, p), blank, q);
  }

  lemma EraseBlanks<T>(h: Hw, cells: map<Ppa, T>, blank: T, k: Kind, ch: nat, p: Ppa)
    requires h.Valid() && IsGood(h, ch, k, p)
    ensures IsBlank(Erase(cells, k, p), blank, p)
  {
    forall i: nat | i < PAGE_NUM ensures Cell(Erase(cells, k, p), blank, PageAddr(p.bits, i)) == blank {
      hide IsGood;
      hide PageAddr;
      hide Erases;
      ErasesOnlyItself(h, k, ch, p, k, ch, p, i);
    }
  }

  lemma FreeLiveOk<T>(h: Hw, x: Disk<T>, d': Device, m: Pages<T>, blank: T, ch: nat, k: Kind, lba: nat,
      ch': nat, l: nat)
    requires h.Valid() && DInv(h, x.d) && Faithful(h, x, m, blank) && LiveOn(h, x.d, ch, lba)
    requires IsGood(h, ch, k, x.d.table[lba])
    requires ch in d'.chans && d'.chans == x.d.chans[ch := d'.chans[ch]]
    requires d'.chans[ch].q == x.d.chans[ch].q + [lba] && d'.table == x.d.table[lba := UNMAPPED]
    ensures LiveOk(h, Disk(d', Erase(x.cells, k, x.d.table[lba])), m, blank, ch', l)
  {
    if LiveOn(h, d', ch', l) {
      FreeLive(h, x.d, d', ch, lba, ch', l);
      assert LiveOk(h, x, m, blank, ch', l);
      hide PagesMatch;
      hide Erase;
      hide IsGood;
      hide DInv;
      hide Mapped;
      hide SetupOf;
      hide Faithful;
      var k' := LiveIsGood(h, x.d, ch', l);
      DistinctLive(h, x.d, ch, lba, ch', l);
      EraseLeaves(h, x.cells, blank, k, ch, x.d.table[lba], k', ch', x.d.table[l]);
    }
  }

  lemma FreeFreeOk<T>(h: Hw, x: Disk<T>, blank: T, ch: nat, k: Kind, lba: nat, ch': nat, q: Ppa)
    requires h.Valid() && DInv(h, x.d) && LiveOn(h, x.d, ch, lba) && IsGood(h, ch, k, x.d.table[lba])
    requires FreeOk(x, blank, ch', q) && ch' in x.d.chans
    requires OnFree(x.d.chans[ch'], q) || q == x.d.table[lba]
    ensures IsBlank(Erase(x.cells, k, x.d.table[lba]), blank, q)
  {
    hide Erase;
    hide IsGood;
    hide DInv;
    hide Mapped;
    hide SetupOf;
    hide IsBlank;
    hide OnFree;
    if q == x.d.table[lba] {
      EraseBlanks(h, x.cells, blank, k, ch, q);
    } else {
      var k' := FreeIsGood(h, x.d, ch', q);
      EraseLeaves(h, x.cells, blank, k, ch, x.d.table[lba], k', ch', q);
    }
  }

  lemma ReleaseFreeOk<T>(h: Hw, x: Disk<T>, d': Device, blank: T, ch: nat, k: Kind, lba: nat, ch': nat, q: Ppa)
    requires h.Valid() && DInv(h, x.d) && LiveOn(h, x.d, ch, lba) && IsGood(h, ch, k, x.d.table[lba])
    requires ch in x.d.chans && lba < |x.d.table|
    requires ch in d'.chans && d'.chans == x.d.chans[ch := d'.chans[ch]]
    requires OnFree(d'.chans[ch], q) ==> OnFree(x.d.chans[ch], q) || q == x.d.table[lba]
    requires FreeOk(x, blank, ch', q)
    ensures FreeOk(Disk(d', Erase(x.cells, k, x.d.table[lba])), blank, ch', q)
  {
    hide DInv;
    hide OnFree;
    hide IsGood;
    hide Erase;
    hide IsBlank;
    hide LiveOn;
    if ch' in d'.chans && OnFree(d'.chans[ch'], q) {
      FreeFreeOk(h, x, blank, ch, k, lba, ch', q);
    }
  }

  lemma ReleaseKeepsFree<T>(h: Hw, x: Disk<T>, blank: T, ch: nat, k: Kind, lba: nat, count: nat, s: State)
    requires h.Valid() && DInv(h, x.d) && AllFree(x, blank) && LiveOn(h, x.d, ch, lba)
    requires IsGood(h, ch, k, x.d.table[lba])
    requires FreeBlock(State(x.d.table, x.d.ers, x.d.chans[ch]), k, lba, count) == Next(s)
    ensures AllFree(Disk(Device(s.table, s.ers, x.d.chans[ch := s.chan]), Erase(x.cells, k, x.d.table[lba])), blank)
  {
    var d' := Device(s.table, s.ers, x.d.chans[ch := s.chan]);
    hide FreeBlock;
    hide DInv;
    hide OnFree;
    hide IsGood;
    hide Erase;
    hide FreeOk;
    assert ch in x.d.chans && lba < |x.d.table|;
    hide LiveOn;
    forall ch': nat, q: Ppa ensures FreeOk(Disk(d', Erase(x.cells, k, x.d.table[lba])), blank, ch', q) {
      FreeShapeOf(x.d, ch, k, lba, count, s, q);
      ReleaseFreeOk(h, x, d', blank, ch, k, lba, ch', q);
    }
  }

  lemma ReleaseKeepsLive<T>(h: Hw, x: Disk<T>, m: Pages<T>, blank: T, ch: nat, k: Kind, lba: nat, count: nat, s: State)
    requires h.Valid() && DInv(h, x.d) && Faithful(h, x, m, blank) && LiveOn(h, x.d, ch, lba)
    requires IsGood(h, ch, k, x.d.table[lba])
    requires FreeBlock(State(x.d.table, x.d.ers, x.d.chans[ch]), k, lba, count) == Next(s)
    ensures AllLive(h, Disk(Device(s.table, s.ers, x.d.chans[ch := s.chan]), Erase(x.cells, k,
        x.d.table[lba])), m, blank)
  {
    var d' := Device(s.table, s.ers, x.d.chans[ch := s.chan]);
    FreeShapeOf(x.d, ch, k, lba, count, s, UNMAPPED);
    hide FreeBlock;
    hide DInv;
    hide OnFree;
    hide IsGood;
    hide Erase;
    hide LiveOk;
    hide Faithful;
    assert ch in x.d.chans;
    hide LiveOn;
    forall ch': nat, l: nat ensures LiveOk(h, Disk(d', Erase(x.cells, k, x.d.table[lba])), m, blank, ch', l) {
      FreeLiveOk(h, x, d', m, blank, ch, k, lba, ch', l);
    }
  }

  // ---------- the opening of a channel ----------

  lemma NothingLiveYet(u: Setup, l: int)
    ensures !Mapped(u, Range(u.lo, u.lo + u.n), l)
  {
    if InSlice(u, l) {
      assert Range(u.lo, u.lo + u.n)[l - u.lo] == l;
    }
  }

  /** The live LBAs of the other channels stay as they are, the new channel has none. */
  lemma OpenLive(h: Hw, d: Device, ch: nat, ch': nat, l: nat)
    requires h.Valid() && DInv(h, d) && ch < CHANNELS && ch !in d.chans && LiveOn(h, Opened(h, d, ch), ch', l)
    ensures ch' != ch && LiveOn(h, d, ch', l) && Opened(h, d, ch).table[l] == d.table[l]
  {
    if ch' == ch {
      NothingLiveYet(SetupOf(h, ch), l);
    } else {
      InvOf(h, d, ch');
      OpenElsewhere(h, d.table, ch, ch');
    }
    hide Inv;
    hide Blocks;
    hide Superblocks;
    hide ChannelBlocks;
    hide CountersReset;
  }

  lemma OpenedSpares<T>(h: Hw, cells: map<Ppa, T>, blank: T, ch: nat, k': Kind, ch': nat, q: Ppa)
    requires h.Valid() && ch < CHANNELS && IsGood(h, ch', k', q) && ch != ch'
    ensures forall m, l :: PagesMatch(cells, blank, q, m, l) ==> PagesMatch(EraseAll(cells, SetupOf(h, ch)),
        blank, q, m, l)
    ensures IsBlank(cells, blank, q) ==> IsBlank(EraseAll(cells, SetupOf(h, ch)), blank, q)
  {
    var u := SetupOf(h, ch);
    forall i: nat | i < PAGE_NUM
      ensures Cell(EraseAll(cells, u), blank, PageAddr(q.bits, i)) == Cell(cells, blank, PageAddr(q.bits, i))
    {
      NotErasedByOpening(h, ch, k', ch', q, i);
      hide IsGood;
      hide PageAddr;
      hide SetupOf;
      hide ErasedByOpening;
    }
    ErasePages(cells, EraseAll(cells, u), blank, q);
  }

  lemma NotErasedByOpening(h: Hw, ch: nat, k': Kind, ch': nat, q: Ppa, i: nat)
    requires h.Valid() && ch < CHANNELS && IsGood(h, ch', k', q) && ch != ch' && i < PAGE_NUM
    ensures !ErasedByOpening(SetupOf(h, ch), Ppa(PageAddr(q.bits, i)))
  {
    var a := Ppa(PageAddr(q.bits, i));
    GoodIsNamed(h, ch', k', q);
    U32Injective(ch, ch');
    hide Unpack;
    hide U32;
    hide SetupOf;
    hide Erases;
    hide PageAddr;
    forall k: Kind, p | IsGood(h, ch, k, p) ensures !Erases(k, p, a) {
      GoodIsNamed(h, ch, k, p);
      ErasesOnlyItself(h, k, ch, p, k', ch', q, i);
    }
    forall p | p in SetupOf(h, ch).normal ensures !Erases(Block, p, a) {
      assert IsGood(h, ch, Block, p);
    }
    forall p | p in SetupOf(h, ch).super ensures !Erases(Superblock, p, a) {
      assert IsGood(h, ch, Superblock, p);
    }
  }

  lemma OpenedBlanks<T>(h: Hw, cells: map<Ppa, T>, blank: T, ch: nat, k: Kind, q: Ppa)
    requires h.Valid() && IsGood(h, ch, k, q)
    ensures IsBlank(EraseAll(cells, SetupOf(h, ch)), blank, q)
  {
    var u := SetupOf(h, ch);
    forall i: nat | i < PAGE_NUM ensures Cell(EraseAll(cells, u), blank, PageAddr(q.bits, i)) == blank {
      ErasesOnlyItself(h, k, ch, q, k, ch, q, i);
      hide SetupOf;
      hide Erases;
      hide PageAddr;
      assert ErasedByOpening(u, Ppa(PageAddr(q.bits, i)));
    }
  }

  lemma OpenLiveOk<T>(h: Hw, x: Disk<T>, m: Pages<T>, blank: T, ch: nat, ch': nat, l: nat)
    requires h.Valid() && DInv(h, x.d) && AllLive(h, x, m, blank) && ch < CHANNELS && ch !in x.d.chans
    ensures LiveOk(h, Disk(Opened(h, x.d, ch), EraseAll(x.cells, SetupOf(h, ch))), m, blank, ch', l)
  {
    if LiveOn(h, Opened(h, x.d, ch), ch', l) {
      OpenLive(h, x.d, ch, ch', l);
      assert LiveOk(h, x, m, blank, ch', l);
      hide DInv;
      hide PagesMatch;
      hide EraseAll;
      hide IsGood;
      hide Mapped;
      hide SetupOf;
      hide Opened;
      var k := LiveIsGood(h, x.d, ch', l);
      OpenedSpares(h, x.cells, blank, ch, k, ch', x.d.table[l]);
    }
  }

  lemma OpenFreeOk<T>(h: Hw, x: Disk<T>, blank: T, ch: nat, ch': nat, q: Ppa)
    requires h.Valid() && DInv(h, x.d) && AllFree(x, blank) && ch < CHANNELS && ch !in x.d.chans
    requires DInv(h, Opened(h, x.d, ch))
    ensures FreeOk(Disk(Opened(h, x.d, ch), EraseAll(x.cells, SetupOf(h, ch))), blank, ch', q)
  {
    var d' := Opened(h, x.d, ch);
    assert d'.chans == x.d.chans[ch := d'.chans[ch]];
    hide Opened;
    hide DInv;
    hide IsBlank;
    hide EraseAll;
    hide IsGood;
    hide SetupOf;
    hide OnFree;
    hide Bag;
    if ch' in d'.chans && OnFree(d'.chans[ch'], q) {
      assert FreeOk(x, blank, ch', q);
      var k := FreeIsGood(h, d', ch', q);
      if ch' == ch {
        OpenedBlanks(h, x.cells, blank, ch, k, q);
      } else {
        OpenedSpares(h, x.cells, blank, ch, k, ch', q);
      }
    }
  }

  lemma OpenKeepsLive<T>(h: Hw, x: Disk<T>, m: Pages<T>, blank: T, ch: nat)
    requires h.Valid() && DInv(h, x.d) && AllLive(h, x, m, blank) && ch < CHANNELS && ch !in x.d.chans
    ensures AllLive(h, Disk(Opened(h, x.d, ch), EraseAll(x.cells, SetupOf(h, ch))), m, blank)
  {
    var x' := Disk(Opened(h, x.d, ch), EraseAll(x.cells, SetupOf(h, ch)));
    forall ch': nat, l: nat ensures LiveOk(h, x', m, blank, ch', l) {
      hide DInv;
      hide AllLive;
      hide LiveOk;
      hide Opened;
      hide EraseAll;
      hide SetupOf;
      OpenLiveOk(h, x, m, blank, ch, ch', l);
    }
  }

  lemma OpenKeepsFree<T>(h: Hw, x: Disk<T>, blank: T, ch: nat)
    requires h.Valid() && DInv(h, x.d) && AllFree(x, blank) && ch < CHANNELS && ch !in x.d.chans
    ensures DInv(h, Opened(h, x.d, ch))
    ensures AllFree(Disk(Opened(h, x.d, ch), EraseAll(x.cells, SetupOf(h, ch))), blank)
  {
    OpenKeepsDInv(h, x.d, ch);
    var x' := Disk(Opened(h, x.d, ch), EraseAll(x.cells, SetupOf(h, ch)));
    forall ch': nat, q: Ppa ensures FreeOk(x', blank, ch', q) {
      hide DInv;
      hide AllFree;
      hide FreeOk;
      hide Opened;
      hide EraseAll;
      hide SetupOf;
      OpenFreeOk(h, x, blank, ch, ch', q);
    }
  }

  // ---------- every action, every run ----------

  lemma OpenKeepsFaith<T>(h: Hw, x: Disk<T>, m: Pages<T>, blank: T, ch: nat)
    requires h.Valid() && DInv(h, x.d) && Faithful(h, x, m, blank) && ch < CHANNELS
    ensures var x' := After(h, x, Manage(Open(ch)));
            x'.Some? && DInv(h, x'.value.d) && Faithful(h, x'.value, m, blank)
  {
    hide DInv;
    hide AllLive;
    hide AllFree;
    hide Opened;
    hide EraseAll;
    hide SetupOf;
    if ch !in x.d.chans {
      OpenKeepsLive(h, x, m, blank, ch);
      OpenKeepsFree(h, x, blank, ch);
    }
  }

  lemma AllocKeepsBoth<T>(h: Hw, x: Disk<T>, m: Pages<T>, blank: T, ch: nat, k: Kind, s: State)
    requires h.Valid() && DInv(h, x.d) && Faithful(h, x, m, blank) && ch in x.d.chans
    requires AllocBlock(State(x.d.table, x.d.ers, x.d.chans[ch]), k) == Next(s)
    ensures x.d.chans[ch].q != []
    ensures Faithful(h, Disk(Device(s.table, s.ers, x.d.chans[ch := s.chan]), x.cells),
                     Forget(m, x.d.chans[ch].q[0]), blank)
  {
    hide DInv;
    hide AllLive;
    hide AllFree;
    hide AllocBlock;
    hide Forget;
    AllocKeepsLive(h, x, m, blank, ch, k, s);
    AllocKeepsFree(x, blank, ch, k, s);
  }

  lemma AllocKeepsFaith<T>(h: Hw, x: Disk<T>, m: Pages<T>, blank: T, ch: nat, k: Kind)
    requires h.Valid() && DInv(h, x.d) && Faithful(h, x, m, blank) && Legal(h, x.d, On(ch, Alloc(k)))
    ensures var (a, x') := (Manage(On(ch, Alloc(k))), After(h, x, Manage(On(ch, Alloc(k)))));
            x'.Some? ==> DInv(h, x'.value.d) && Faithful(h, x'.value, ReferenceAfter(x.d, m, a), blank)
  {
    hide DInv;
    hide Faithful;
    hide AllocBlock;
    hide Forget;
    hide SetupOf;
    hide Mapped;
    StepKeepsDInv(h, x.d, On(ch, Alloc(k)));
    var r := AllocBlock(State(x.d.table, x.d.ers, x.d.chans[ch]), k);
    if r.Next? {
      AllocKeepsBoth(h, x, m, blank, ch, k, r.s);
    }
  }

  lemma ReleasedIsLive(h: Hw, d: Device, ch: nat, k: Kind, lba: nat, count: nat)
    requires h.Valid() && DInv(h, d) && Legal(h, d, On(ch, Release(k, lba, count)))
    ensures ch in d.chans && lba < |d.table| && LiveOn(h, d, ch, lba) && IsGood(h, ch, k, d.table[lba])
  {
    InvOf(h, d, ch);
    hide DInv;
    hide Inv;
    hide SetupOf;
    hide Mapped;
  }

  lemma ReleaseKeepsBoth<T>(h: Hw, x: Disk<T>, m: Pages<T>, blank: T, ch: nat, k: Kind, lba: nat, count: nat, s: State)
    requires h.Valid() && DInv(h, x.d) && Faithful(h, x, m, blank) && LiveOn(h, x.d, ch, lba)
    requires IsGood(h, ch, k, x.d.table[lba])
    requires FreeBlock(State(x.d.table, x.d.ers, x.d.chans[ch]), k, lba, count) == Next(s)
    ensures Faithful(h, Disk(Device(s.table, s.ers, x.d.chans[ch := s.chan]), Erase(x.cells, k,
        x.d.table[lba])), m, blank)
  {
    hide DInv;
    hide AllLive;
    hide AllFree;
    hide IsGood;
    hide Erase;
    hide FreeBlock;
    hide Mapped;
    hide SetupOf;
    ReleaseKeepsLive(h, x, m, blank, ch, k, lba, count, s);
    ReleaseKeepsFree(h, x, blank, ch, k, lba, count, s);
  }

  lemma ReleaseKeepsFaith<T>(h: Hw, x: Disk<T>, m: Pages<T>, blank: T, ch: nat, k: Kind, lba: nat, count: nat)
    requires h.Valid() && DInv(h, x.d) && Faithful(h, x, m, blank) && Legal(h, x.d, On(ch, Release(k, lba, count)))
    ensures var x' := After(h, x, Manage(On(ch, Release(k, lba, count))));
            x'.Some? ==> DInv(h, x'.value.d) && Faithful(h, x'.value, m, blank)
  {
    hide DInv;
    hide Faithful;
    hide Legal;
    hide LiveOn;
    hide IsGood;
    hide Erase;
    hide FreeBlock;
    StepKeepsDInv(h, x.d, On(ch, Release(k, lba, count)));
    ReleasedIsLive(h, x.d, ch, k, lba, count);
    var r := FreeBlock(State(x.d.table, x.d.ers, x.d.chans[ch]), k, lba, count);
    if r.Next? {
      ReleaseKeepsBoth(h, x, m, blank, ch, k, lba, count, r.s);
    }
  }

  lemma ActionKeepsFaith<T>(h: Hw, x: Disk<T>, m: Pages<T>, blank: T, a: Action<T>)
    requires h.Valid() && DInv(h, x.d) && Faithful(h, x, m, blank) && Allowed(h, x, a)
    ensures var x' := After(h, x, a);
            x'.Some? ==> DInv(h, x'.value.d) && Faithful(h, x'.value, ReferenceAfter(x.d, m, a), blank)
  {
    hide DInv;
    hide Faithful;
    hide Legal;
    match a
    case Put(w) => PutKeepsFaith(h, x, m, blank, w);
    case Manage(Open(ch)) =>
      OpenIsLegal(h, x.d, ch);
      OpenKeepsFaith(h, x, m, blank, ch);
    case Manage(On(ch, Alloc(k))) => AllocKeepsFaith(h, x, m, blank, ch, k);
    case Manage(On(ch, Release(k, lba, count))) => ReleaseKeepsFaith(h, x, m, blank, ch, k, lba, count);
  }

  lemma OpenIsLegal(h: Hw, d: Device, ch: nat)
    requires h.Valid() && Legal(h, d, Open(ch))
    ensures ch < CHANNELS
  {
  }

  /** The disk and the reference after a run of allowed actions, None when it is not one or
      ends early. */
  ghost function Play<T>(h: Hw, x: Disk<T>, m: Pages<T>, acts: seq<Action<T>>): Option<(Disk<T>, Pages<T>)>
    requires h.Valid()
    decreases |acts|
  {
    if acts == [] then Some((x, m))
    else if !Allowed(h, x, acts[0]) || After(h, x, acts[0]).None? then None
    else Play(h, After(h, x, acts[0]).value, ReferenceAfter(x.d, m, acts[0]), acts[1..])
  }

  lemma {:induction false} PlayKeepsFaith<T>(h: Hw, x: Disk<T>, m: Pages<T>, blank: T, acts: seq<Action<T>>)
    requires h.Valid() && DInv(h, x.d) && Faithful(h, x, m, blank) && Play(h, x, m, acts).Some?
    ensures var (x', m') := Play(h, x, m, acts).value;
            DInv(h, x'.d) && Faithful(h, x', m', blank)
    decreases |acts|
  {
    assert acts != [] ==> Allowed(h, x, acts[0]) && (acts[0].Put? ==> acts[0].w.Sized());
    hide DInv;
    hide Faithful;
    hide Allowed;
    hide After;
    hide ReferenceAfter;
    if acts != [] {
      ActionKeepsFaith(h, x, m, blank, acts[0]);
      PlayKeepsFaith(h, After(h, x, acts[0]).value, ReferenceAfter(x.d, m, acts[0]), blank, acts[1..]);
    }
  }

  /** Over any run of openings, allocations, releases and writes, on all channels, whatever
      the cells held before: a live LBA reads exactly what has been written through it since
      it was allocated, and blank where nothing has. */
  lemma DataSurvives<T>(h: Hw, cells: map<Ppa, T>, acts: seq<Action<T>>, blank: T, x: Disk<T>, m: Pages<T>,
                        ch: nat, l: nat, i: nat)
    requires h.Valid() && Play(h, Disk(UNSET, cells), map[], acts) == Some((x, m))
    requires LiveOn(h, x.d, ch, l) && i < PAGE_NUM
    ensures Cell(x.cells, blank, PageAddr(x.d.table[l].bits, i)) == Look(m, blank, l, i)
  {
    assert DInv(h, UNSET);
    assert Faithful(h, Disk(UNSET, cells), map[], blank);
    hide DInv;
    hide Play;
    hide Mapped;
    hide SetupOf;
    PlayKeepsFaith(h, Disk(UNSET, cells), map[], blank, acts);
    assert LiveOk(h, x, m, blank, ch, l);
  }

  // ---------- the same in terms of the cells alone ----------

  /** A disk some run of openings, allocations, releases and writes leads to. */
  ghost predicate Played<T(!new)>(h: Hw, x: Disk<T>, m: Pages<T>)
    requires h.Valid()
  {
    exists cells, acts :: Play(h, Disk(UNSET, cells), map[], acts) == Some((x, m))
  }

  lemma {:induction false} PlayAppend<T>(h: Hw, x: Disk<T>, m: Pages<T>, acts: seq<Action<T>>, a: Action<T>)
    requires h.Valid() && Play(h, x, m, acts).Some? && Allowed(h, Play(h, x, m, acts).value.0, a)
    requires After(h, Play(h, x, m, acts).value.0, a).Some?
    ensures var (y, n) := Play(h, x, m, acts).value;
            Play(h, x, m, acts + [a]) == Some((After(h, y, a).value, ReferenceAfter(y.d, n, a)))
    decreases |acts|
  {
    hide After;
    hide ReferenceAfter;
    if acts == [] {
      assert [] + [a] == [a] && [a][1..] == [];
    } else {
      assert (acts + [a])[0] == acts[0] && (acts + [a])[1..] == acts[1..] + [a];
      PlayAppend(h, After(h, x, acts[0]).value, ReferenceAfter(x.d, m, acts[0]), acts[1..], a);
    }
  }

  /** Such a disk may hold anything to begin with, and every allowed action that does not end the
      program leads to another one. */
  lemma PlayedGoesOn<T(!new)>(h: Hw, cells: map<Ppa, T>, x: Disk<T>, m: Pages<T>, a: Action<T>)
    requires h.Valid()
    ensures Played(h, Disk(UNSET, cells), map[])
    ensures Played(h, x, m) && Allowed(h, x, a) && After(h, x, a).Some? ==>
              (a.Put? ==> a.w.Sized()) && Played(h, After(h, x, a).value, ReferenceAfter(x.d, m, a))
  {
    assert Play(h, Disk(UNSET, cells), map[], []) == Some((Disk(UNSET, cells), map[]));
    hide Play;
    if Played(h, x, m) && Allowed(h, x, a) && After(h, x, a).Some? {
      var cs, acts :| Play(h, Disk(UNSET, cs), map[], acts) == Some((x, m));
      PlayAppend(h, Disk(UNSET, cs), map[], acts, a);
      assert a.Put? ==> a.w.Sized();
    }
    hide After;
    hide ReferenceAfter;
  }

  lemma PlayedIsFaithful<T(!new)>(h: Hw, x: Disk<T>, m: Pages<T>, blank: T)
    requires h.Valid() && Played(h, x, m)
    ensures DInv(h, x.d) && Faithful(h, x, m, blank)
  {
    var cells, acts :| Play(h, Disk(UNSET, cells), map[], acts) == Some((x, m));
    hide Play;
    assert DInv(h, UNSET);
    assert Faithful(h, Disk(UNSET, cells), map[], blank);
    hide DInv;
    hide Faithful;
    PlayKeepsFaith(h, Disk(UNSET, cells), map[], blank, acts);
  }

  lemma LiveReads<T>(h: Hw, x: Disk<T>, m: Pages<T>, blank: T, ch: nat, l: nat, i: nat)
    requires h.Valid() && Faithful(h, x, m, blank) && LiveOn(h, x.d, ch, l) && i < PAGE_NUM
    ensures Cell(x.cells, blank, PageAddr(x.d.table[l].bits, i)) == Look(m, blank, l, i)
  {
    hide LiveOn;
    hide Cell;
    hide Look;
    hide PageAddr;
    assert LiveOk(h, x, m, blank, ch, l);
  }

  /** What an LBA reads at a page. */
  function PageOf<T>(x: Disk<T>, blank: T, l: nat, i: nat): T
    requires l < |x.d.table|
  {
    Cell(x.cells, blank, PageAddr(x.d.table[l].bits, i))
  }

  /** While a block of the kind is free, an allocation makes the oldest waiting LBA live, and all
      its pages read blank, whatever the block held before. */
  lemma NewLbaReadsBlank<T(!new)>(h: Hw, x: Disk<T>, m: Pages<T>, blank: T, ch: nat, k: Kind, i: nat)
    requires h.Valid() && Played(h, x, m) && ch in x.d.chans && x.d.chans[ch].Of(k).free != [] && i < PAGE_NUM
    ensures var x' := After(h, x, Manage(On(ch, Alloc(k))));
            && x'.Some? && x.d.chans[ch].q != [] && var l := x.d.chans[ch].q[0];
            && l >= 0 && LiveOn(h, x'.value.d, ch, l) && IsLive(h, x'.value.d, l)
            && PageOf(x'.value, blank, l, i) == blank
  {
    hide Played;
    hide DInv;
    hide Faithful;
    hide Mapped;
    hide SetupOf;
    PlayedIsFaithful(h, x, m, blank);
    AllocMakesLive(h, x.d, ch, k);
    hide Step;
    var a: Action<T> := Manage(On(ch, Alloc(k)));
    ActionKeepsFaith(h, x, m, blank, a);
    LiveReads(h, After(h, x, a).value, ReferenceAfter(x.d, m, a), blank, ch, x.d.chans[ch].q[0], i);
  }

  lemma WriteGoesThrough<T>(h: Hw, x: Disk<T>, w: Write<T>)
    requires h.Valid() && IsLive(h, x.d, w.lba) && w.hasBuf && 0 <= w.pageId
    requires 0 < w.pageNum <= |w.buf| && w.pageId + w.pageNum <= 256
    ensures w.Goes() && w.Sized() && Allowed(h, x, Put(w)) && After(h, x, Put(w)).Some?
    ensures After(h, x, Put(w)).value.d == x.d
    ensures forall m: Pages<T> :: ReferenceAfter(x.d, m, Put(w)) == WithPages(m, w.lba, w.pageId, w.buf, w.pageNum)
  {
    hide IsLive;
    hide WriteOne;
    hide WithPages;
  }

  /** A write through a live LBA sets the pages it names, and every other page of that and of
      every other live LBA reads as before. */
  lemma WriteSetsItsPages<T(!new)>(h: Hw, x: Disk<T>, m: Pages<T>, blank: T, w: Write<T>, ch: nat, l: nat, i: nat)
    requires h.Valid() && Played(h, x, m) && IsLive(h, x.d, w.lba) && LiveOn(h, x.d, ch, l) && i < PAGE_NUM
    requires w.hasBuf && 0 <= w.pageId && 0 < w.pageNum <= |w.buf| && w.pageId + w.pageNum <= 256
    ensures var x' := After(h, x, Put(w));
            && x'.Some? && x'.value.d == x.d
            && PageOf(x'.value, blank, l, i)
            == if l == w.lba && w.pageId <= i < w.pageId + w.pageNum then w.buf[i - w.pageId]
               else PageOf(x, blank, l, i)
  {
    hide Played;
    hide DInv;
    hide Faithful;
    hide LiveOn;
    hide IsLive;
    hide Allowed;
    hide After;
    hide ReferenceAfter;
    hide WithPages;
    hide Look;
    hide Cell;
    hide PageAddr;
    PlayedIsFaithful(h, x, m, blank);
    WriteGoesThrough(h, x, w);
    LiveStays(h, x.d, After(h, x, Put(w)).value.d, ch, l);
    ActionKeepsFaith(h, x, m, blank, Put(w));
    LiveReads(h, x, m, blank, ch, l, i);
    LiveReads(h, After(h, x, Put(w)).value, ReferenceAfter(x.d, m, Put(w)), blank, ch, l, i);
    LookWithPages(m, w.lba, w.pageId, w.buf, w.pageNum, blank, l, i);
  }

  lemma LiveStays(h: Hw, d: Device, d': Device, ch: nat, l: nat)
    requires h.Valid() && LiveOn(h, d, ch, l) && d' == d
    ensures l < |d.table| && l < |d'.table|
  {
  }

  lemma QueuedIsNotLive(h: Hw, d: Device, ch: nat, l: nat, ch': nat)
    requires h.Valid() && DInv(h, d) && LiveOn(h, d, ch, l) && ch' in d.chans
    ensures l !in d.chans[ch'].q
  {
    InvOf(h, d, ch');
    if l in d.chans[ch'].q {
      assert InSlice(SetupOf(h, ch'), l);
      if ch != ch' {
        SlicesApart(h, ch, ch', l);
      }
    }
    hide Inv;
    hide DInv;
    hide SetupOf;
  }

  lemma SameLook<T>(d: Device, m: Pages<T>, c: Call, blank: T, l: nat, i: nat)
    requires forall ch :: ch in d.chans ==> l !in d.chans[ch].q
    ensures Look(ReferenceAfter(d, m, Manage(c)), blank, l, i) == Look(m, blank, l, i)
  {
  }

  /** No opening, allocation or release changes what an LBA reads that is live before and
      after, however many blocks are erased. */
  lemma CallsKeepData<T(!new)>(h: Hw, x: Disk<T>, m: Pages<T>, blank: T, c: Call, x': Disk<T>, ch: nat, l: nat, i: nat)
    requires h.Valid() && Played(h, x, m) && Legal(h, x.d, c) && After(h, x, Manage(c)) == Some(x')
    requires LiveOn(h, x.d, ch, l) && LiveOn(h, x'.d, ch, l) && i < PAGE_NUM
    ensures PageOf(x', blank, l, i) == PageOf(x, blank, l, i)
  {
    PlayedIsFaithful(h, x, m, blank);
    hide Played;
    hide DInv;
    hide Faithful;
    hide Legal;
    hide After;
    forall o | o in x.d.chans ensures l !in x.d.chans[o].q {
      QueuedIsNotLive(h, x.d, ch, l, o);
    }
    ActionKeepsFaith(h, x, m, blank, Manage(c));
    LiveReads(h, x, m, blank, ch, l, i);
    LiveReads(h, x', ReferenceAfter(x.d, m, Manage(c)), blank, ch, l, i);
    SameLook(x.d, m, c, blank, l, i);
    hide LiveOn;
    hide ReferenceAfter;
    hide Look;
  }
}
