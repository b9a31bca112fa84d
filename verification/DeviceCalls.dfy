/** What every call of the block allocator does to the whole device, and which devices the
    calls can reach (vssd_code/channel.c:27-56, 100-122, 179-519, 868-941). */
module DeviceCalls {
  import opened Options
  import opened Ppas
  import opened BlkLists
  import opened BadBlocks
  import opened FreeScan
  import opened Allocator
  import opened Devices
  import opened Lookups

  // ---------- opening a channel ----------

  /** skip_ppa accepts a block: the mask has its channel, and the bad-block table, if there
      is one, does not mark it. */
  predicate Accepted(h: Hw, c: Coord) {
    && c.lun < h.g.luns && c.blk < h.g.blocks && c.pl < h.g.planes && c.ch < 16 && c.ch in h.mask
    && (h.bad.Some? ==>
          var i := (h.g.blocks - 1 - c.blk) * h.g.luns + c.lun;
          0 <= i < |h.bad.value| && c.ch !in h.bad.value[i])
  }

  /** The LBAs of a channel. */
  function Lbas(h: Hw): nat {
    h.g.blocks * h.g.luns * h.g.planes
  }

  /** The list holds exactly the accepted blocks of the kind, each once, unworn: the last 100
      blocks of every LUN are superblocks, named by plane 0. */
  ghost predicate ListsGoodBlocks(h: Hw, ch: nat, k: Kind, free: seq<Blk>) {
    && (forall i, j :: 0 <= i < j < |free| ==> free[i] != free[j])
    && (forall b :: b in free <==> exists c :: IsFreeAt(h, ch, k, c, b))
  }

  predicate IsFreeAt(h: Hw, ch: nat, k: Kind, c: Coord, b: Blk) {
    && Accepted(h, c) && c.ch == ch && b == Blk(PpaOf(c), 0)
    && (if k == Block then c.blk + 100 < h.g.blocks else h.g.blocks <= c.blk + 100 && c.pl == 0)
  }

  /** A channel none of whose LBAs has been given out. */
  ghost predicate IsNew(h: Hw, ch: nat, c: Chan) {
    && |c.q| == Lbas(h) && (forall i :: 0 <= i < |c.q| ==> c.q[i] == ch * Lbas(h) + i)
    && c.normal.alloc == [] && c.super.alloc == []
    && ListsGoodBlocks(h, ch, Block, c.normal.free) && ListsGoodBlocks(h, ch, Superblock, c.super.free)
  }

  /** The first channel fills the table of all sixteen with the mark, a later one zeroes its slice. */
  ghost predicate TableOpened(h: Hw, ch: nat, table: seq<Ppa>, table': seq<Ppa>) {
    var n := Lbas(h);
    if table == [] then |table'| == 16 * n && forall l :: 0 <= l < |table'| ==> table'[l] == Ppa(0xFFFF_FFFF)
    else |table'| == |table|
         && forall l :: 0 <= l < |table| ==>
              table'[l] == if ch * n <= l < ch * n + n then Ppa(0) else table[l]
  }

  /** Everything but channel ch is as before. */
  ghost predicate OthersKept(d: Device, d': Device, ch: nat) {
    && d'.chans.Keys == d.chans.Keys + {ch}
    && (forall o :: o in d.chans && o != ch ==> d'.chans[o] == d.chans[o])
    && (forall p: Ppa :: p.bits & 0xF != U32(ch) ==> Count(d'.ers, p) == Count(d.ers, p))
  }

  lemma AcceptedIsUsable(h: Hw, c: Coord)
    requires h.Valid()
    ensures Usable(h.g, h.bad, h.mask, c) <==> Accepted(h, c)
  {
    if h.g.Has(c) {
      WordInTable(h.g, c.blk, c.lun);
    }
  }

  lemma LbasOf(h: Hw)
    requires h.Valid()
    ensures Lbas(h) == ChannelBlocks(h.g) > 0
  {
    assert h.g.blocks * h.g.luns * h.g.planes == h.g.blocks * (h.g.luns * h.g.planes);
    SliceFits(h, 0);
  }

  lemma ScanHolds(h: Hw, ch: nat, k: Kind, c: Coord)
    requires h.Valid()
    ensures c in (if k == Block then Blocks(h, ch) else Superblocks(h, ch)) <==> IsFreeAt(h, ch, k, c, Blk(PpaOf(c), 0))
  {
    hide PpaOf;
    AcceptedIsUsable(h, c);
    hide Accepted;
    hide Usable;
    BlockScanFacts(h.g, h.bad, h.mask, ch, Normal(h.g));
    SuperScanFacts(h.g, h.bad, h.mask, ch, h.g.blocks);
    hide BlockScan;
    hide SuperScan;
  }

  lemma BlksDistinct(cs: seq<Coord>)
    requires Distinct(cs) && forall c :: c in cs ==> InRange(c)
    ensures forall i, j :: 0 <= i < j < |cs| ==> Blks(cs)[i] != Blks(cs)[j]
  {
    hide PpaOf;
    hide InRange;
    forall i, j | 0 <= i < j < |cs| ensures Blks(cs)[i] != Blks(cs)[j] {
      BlockAddressInjective(cs[i], cs[j]);
    }
  }

  lemma BlksHolds(cs: seq<Coord>, b: Blk)
    ensures b in Blks(cs) <==> exists c :: c in cs && b == Blk(PpaOf(c), 0)
  {
    hide PpaOf;
    if b in Blks(cs) {
      var i :| 0 <= i < |cs| && Blks(cs)[i] == b;
      assert cs[i] in cs;
    }
    if c :| c in cs && b == Blk(PpaOf(c), 0) {
      var i :| 0 <= i < |cs| && cs[i] == c;
      assert Blks(cs)[i] == b;
    }
  }

  lemma ScanIsDistinct(h: Hw, ch: nat, k: Kind, cs: seq<Coord>)
    requires h.Valid() && cs == (if k == Block then Blocks(h, ch) else Superblocks(h, ch))
    ensures Distinct(cs) && forall c :: c in cs ==> InRange(c)
  {
    BlockScanFacts(h.g, h.bad, h.mask, ch, Normal(h.g));
    SuperScanFacts(h.g, h.bad, h.mask, ch, h.g.blocks);
  }

  lemma ScannedList(h: Hw, ch: nat, k: Kind, cs: seq<Coord>)
    requires h.Valid() && cs == (if k == Block then Blocks(h, ch) else Superblocks(h, ch))
    ensures ListsGoodBlocks(h, ch, k, Blks(cs))
  {
    ScanIsDistinct(h, ch, k, cs);
    BlksDistinct(cs);
    forall c ensures c in cs <==> IsFreeAt(h, ch, k, c, Blk(PpaOf(c), 0)) {
      ScanHolds(h, ch, k, c);
    }
    hide Blocks;
    hide Superblocks;
    hide PpaOf;
    hide InRange;
    hide Accepted;
    forall b ensures b in Blks(cs) <==> exists c :: IsFreeAt(h, ch, k, c, b) {
      BlksHolds(cs, b);
      if c :| IsFreeAt(h, ch, k, c, b) {
        assert c in cs;
      }
    }
  }

  lemma NewChannel(h: Hw, ch: nat)
    requires h.Valid()
    ensures IsNew(h, ch, NewChan(h, ch))
  {
    LbasOf(h);
    ScannedList(h, ch, Block, Blocks(h, ch));
    ScannedList(h, ch, Superblock, Superblocks(h, ch));
    hide Blocks;
    hide Superblocks;
    hide ListsGoodBlocks;
    hide Lbas;
    hide ChannelBlocks;
  }

  lemma NewTable(h: Hw, table: seq<Ppa>, ch: nat)
    requires h.Valid()
    ensures TableOpened(h, ch, table, TableWith(h, table, ch))
  {
    LbasOf(h);
    hide Lbas;
    hide ChannelBlocks;
    hide Blocks;
    hide Superblocks;
  }

  lemma ChannelBits(p: Ppa)
    ensures Unpack(p.bits).ch == p.bits & 0xF
  {
  }

  lemma NewCounters(ers: Counters, ch: nat, p: Ppa)
    ensures Count(CountersReset(ers, ch), p) == if p.bits & 0xF == U32(ch) then 0 else Count(ers, p)
  {
    ChannelBits(p);
    hide Unpack;
    hide U32;
  }

  /** Opening a channel that is not open queues all its LBAs in order, puts exactly its good
      blocks on the free lists, sets its slice of the table up, zeroes its erase counters, and
      leaves every other channel alone. Opening it again does nothing. */
  lemma OpenSetsUp(h: Hw, d: Device, ch: nat)
    requires h.Valid() && ch < CHANNELS
    ensures ch in d.chans ==> Step(h, d, Open(ch)) == Running(d)
    ensures ch !in d.chans ==>
              && Step(h, d, Open(ch)).Running?
              && var d' := Step(h, d, Open(ch)).d;
              && ch in d'.chans && IsNew(h, ch, d'.chans[ch]) && OthersKept(d, d', ch)
              && TableOpened(h, ch, d.table, d'.table)
              && forall p: Ppa :: p.bits & 0xF == U32(ch) ==> Count(d'.ers, p) == 0
  {
    NewChannel(h, ch);
    NewTable(h, d.table, ch);
    forall p: Ppa
      ensures Count(CountersReset(d.ers, ch), p) == if p.bits & 0xF == U32(ch) then 0 else Count(d.ers, p)
    {
      NewCounters(d.ers, ch, p);
    }
    hide NewChan;
    hide TableWith;
    hide CountersReset;
    hide IsNew;
    hide TableOpened;
    hide Count;
    hide U32;
  }

  // ---------- allocation and release ----------

  /** Channel ch is as before but for its queue and the lists of kind k. */
  ghost predicate OtherKindKept(c: Chan, c': Chan, k: Kind) {
    if k == Block then c'.super == c.super else c'.normal == c.normal
  }

  /** From s to s' the oldest waiting LBA was mapped to the first free block of kind k, which
      moved to the allocated list. */
  ghost predicate TookBlock(s: State, s': State, k: Kind) {
    && s.chan.q != [] && s.chan.Of(k).free != []
    && var l, b := s.chan.q[0], s.chan.Of(k).free[0];
    && 0 <= l < |s.table| && s'.table == s.table[l := b.ppa] && s'.ers == s.ers
    && s'.chan.q == s.chan.q[1..] && l !in s'.chan.q
    && s'.chan.Of(k).free == s.chan.Of(k).free[1..]
    && multiset(s'.chan.Of(k).alloc) == multiset(s.chan.Of(k).alloc) + multiset{b}
    && OtherKindKept(s.chan, s'.chan, k)
  }

  /** From s to s' an LBA came back: it waits behind all others, its entry holds the mark, and
      its block is free again, with one more erase counted in 8 bits. */
  ghost predicate GaveBlock(s: State, s': State, k: Kind, lba: nat, count: nat) {
    && lba < |s.table| && s'.table == s.table[lba := Ppa(0xFFFF_FFFF)] && s'.chan.q == s.chan.q + [lba]
    && var p := s.table[lba];
    && (exists was :: multiset(s.chan.Of(k).alloc) == multiset(s'.chan.Of(k).alloc) + multiset{Blk(p, was)})
    && var wear := if k == Block then (Count(s.ers, p) + 1) % 256 else count;
    && multiset(s'.chan.Of(k).free) == multiset(s.chan.Of(k).free) + multiset{Blk(p, wear)}
    && OtherKindKept(s.chan, s'.chan, k)
    && forall x: Ppa :: Count(s'.ers, x) ==
         if k == Block && Unpack(x.bits) == Unpack(p.bits) then (Count(s.ers, p) + 1) % 256 else Count(s.ers, x)
  }

  lemma AllocTookBlock(u: Setup, s: State, k: Kind)
    requires Inv(u, s) && s.chan.Of(k).free != []
    ensures AllocBlock(s, k).Next? && TookBlock(s, AllocBlock(s, k).s, k)
  {
    LbaAvailable(u, s);
    HeadInTable(u, s);
    MappedAfterAlloc(u, s.chan.q, s.chan.q[0]);
    InsertAscMultiset(s.chan.Of(k).alloc, s.chan.Of(k).free[0]);
    hide Setup.Valid;
    hide TableOk;
    hide ListsOk;
    hide CountsOk;
    hide InsertAsc;
  }

  lemma FreedMoves(l: Lists, p: Ppa, data: nat)
    requires Has(l, p)
    ensures exists was :: multiset(l.alloc) == multiset(Freed(l, p, data).alloc) + multiset{Blk(p, was)}
    ensures multiset(Freed(l, p, data).free) == multiset(l.free) + multiset{Blk(p, data)}
  {
    var i := IndexOf(l.alloc, p);
    RemoveAtMultiset(l.alloc, i);
    InsertDescMultiset(l.free, Blk(p, data));
    hide InsertDesc;
    hide RemoveAt;
    assert multiset(l.alloc) == multiset(RemoveAt(l.alloc, i)) + multiset{Blk(p, l.alloc[i].data)};
  }

  lemma ErasedCounts(ers: Counters, p: Ppa, x: Ppa)
    ensures Count(Erased(ers, p), x)
         == if Unpack(x.bits) == Unpack(p.bits) then (Count(ers, p) + 1) % 256 else Count(ers, x)
  {
    hide Unpack;
  }

  lemma FreeGaveBlock(s: State, k: Kind, lba: nat, count: nat)
    requires FreeBlock(s, k, lba, count).Next?
    ensures GaveBlock(s, FreeBlock(s, k, lba, count).s, k, lba, count)
  {
    hide Unpack;
    hide Count;
    hide Erased;
    hide Freed;
    hide Has;
    var p := s.table[lba];
    forall x: Ppa
      ensures Count(Erased(s.ers, p), x)
           == if Unpack(x.bits) == Unpack(p.bits) then (Count(s.ers, p) + 1) % 256 else Count(s.ers, x)
    {
      ErasedCounts(s.ers, p, x);
    }
    FreedMoves(s.chan.Of(k), p, Wear(s.ers, k, p, count));
  }

  /** The table and the counters, with the queue and lists of one channel. */
  function View(d: Device, ch: nat): State
    requires ch in d.chans
  {
    State(d.table, d.ers, d.chans[ch])
  }

  lemma NothingToTake(s: State, k: Kind)
    requires s.chan.Of(k).free == []
    ensures AllocBlock(s, k) == NoFreeBlock
  {
  }

  lemma TookKeepsCounters(s: State, s': State, k: Kind)
    requires TookBlock(s, s', k)
    ensures s'.ers == s.ers
  {
  }

  lemma OthersKeptBy(d: Device, d': Device, ch: nat, c: Chan)
    requires ch in d.chans && d'.chans == d.chans[ch := c]
    requires forall p: Ppa :: p.bits & 0xF != U32(ch) ==> Count(d'.ers, p) == Count(d.ers, p)
    ensures OthersKept(d, d', ch)
  {
    hide Count;
    hide U32;
  }

  /** An allocation ends the program exactly when no block is free; otherwise a block is taken. */
  lemma AllocTakes(h: Hw, d: Device, ch: nat, k: Kind)
    requires h.Valid() && DInv(h, d) && ch in d.chans
    ensures d.chans[ch].Of(k).free == [] ==> Step(h, d, On(ch, Alloc(k))) == OutOfBlocks(d, ch, k)
    ensures d.chans[ch].Of(k).free != [] ==>
              && Step(h, d, On(ch, Alloc(k))).Running?
              && var d' := Step(h, d, On(ch, Alloc(k))).d;
              && OthersKept(d, d', ch) && ch in d'.chans && TookBlock(View(d, ch), View(d', ch), k)
  {
    hide DInv;
    hide SetupOf;
    hide Inv;
    hide AllocBlock;
    hide TookBlock;
    hide OthersKept;
    InvOf(h, d, ch);
    var s := View(d, ch);
    if s.chan.Of(k).free != [] {
      AllocTookBlock(SetupOf(h, ch), s, k);
      var s' := AllocBlock(s, k).s;
      TookKeepsCounters(s, s', k);
      OthersKeptBy(d, Step(h, d, On(ch, Alloc(k))).d, ch, s'.chan);
    } else {
      NothingToTake(s, k);
    }
  }

  lemma OtherCounters(s: State, s': State, ch: nat, k: Kind, lba: nat, count: nat, x: Ppa)
    requires GaveBlock(s, s', k, lba, count) && Unpack(s.table[lba].bits).ch == U32(ch) && x.bits & 0xF != U32(ch)
    ensures Count(s'.ers, x) == Count(s.ers, x)
  {
    ChannelBits(x);
    hide Unpack;
    hide U32;
    hide Count;
  }

  lemma GoodIsOfChannel(h: Hw, ch: nat, k: Kind, p: Ppa)
    requires h.Valid() && ch < CHANNELS && p in SetupOf(h, ch).Of(k)
    ensures Unpack(p.bits).ch == U32(ch)
  {
    hide Unpack;
    hide U32;
    hide Blocks;
    hide Superblocks;
    SetupValid(h, ch);
  }

  lemma LegalRelease(h: Hw, d: Device, ch: nat, k: Kind, lba: nat, count: nat)
    requires h.Valid() && DInv(h, d) && Legal(h, d, On(ch, Release(k, lba, count)))
    ensures ch in d.chans && ch < CHANNELS && lba < |d.table| && d.table[lba] in SetupOf(h, ch).Of(k)
    ensures FreeBlock(View(d, ch), k, lba, count).Next?
  {
    hide DInv;
    hide Inv;
    hide SetupOf;
    hide Mapped;
    hide FreeBlock;
    InvOf(h, d, ch);
    FreeKeepsInv(SetupOf(h, ch), View(d, ch), k, lba, count);
  }

  /** A legal release always goes through and gives the block and the LBA back. */
  lemma ReleaseGives(h: Hw, d: Device, ch: nat, k: Kind, lba: nat, count: nat)
    requires h.Valid() && DInv(h, d) && Legal(h, d, On(ch, Release(k, lba, count)))
    ensures ch in d.chans && Step(h, d, On(ch, Release(k, lba, count))).Running?
    ensures var d' := Step(h, d, On(ch, Release(k, lba, count))).d;
            OthersKept(d, d', ch) && ch in d'.chans && GaveBlock(View(d, ch), View(d', ch), k, lba, count)
  {
    hide DInv;
    hide Legal;
    hide OthersKept;
    hide SetupOf;
    hide Unpack;
    hide U32;
    LegalRelease(h, d, ch, k, lba, count);
    GoodIsOfChannel(h, ch, k, d.table[lba]);
    var s := View(d, ch);
    FreeGaveBlock(s, k, lba, count);
    var s' := FreeBlock(s, k, lba, count).s;
    hide FreeBlock;
    forall x: Ppa | x.bits & 0xF != U32(ch) ensures Count(s'.ers, x) == Count(s.ers, x) {
      OtherCounters(s, s', ch, k, lba, count, x);
    }
    hide GaveBlock;
    hide Count;
    OthersKeptBy(d, Step(h, d, On(ch, Release(k, lba, count))).d, ch, s'.chan);
  }

  // ---------- which devices can be reached ----------

  lemma OpenOne(h: Hw, d: Device, ch: nat)
    requires h.Valid() && DInv(h, d) && ch < CHANNELS && ch !in d.chans
    ensures Legal(h, d, Open(ch)) && Step(h, d, Open(ch)).Running?
    ensures DInv(h, Step(h, d, Open(ch)).d) && Step(h, d, Open(ch)).d.chans.Keys == d.chans.Keys + {ch}
  {
    OpenSetsUp(h, d, ch);
    StepKeepsDInv(h, d, Open(ch));
    hide DInv;
    hide IsNew;
    hide TableOpened;
    hide Opened;
    hide Count;
    hide U32;
  }

  /** Any set of channels can be opened. */
  lemma {:induction false} OpenAll(h: Hw, d: Device, chs: set<nat>) returns (cs: seq<Call>)
    requires h.Valid() && DInv(h, d) && chs !! d.chans.Keys && forall ch :: ch in chs ==> ch < CHANNELS
    ensures AllLegal(h, d, cs) && Run(h, d, cs).Running? && Run(h, d, cs).d.chans.Keys == d.chans.Keys + chs
    decreases chs
  {
    hide DInv;
    hide Step;
    hide Legal;
    cs := [];
    if chs != {} {
      var ch :| ch in chs;
      OpenOne(h, d, ch);
      var rest := OpenAll(h, Step(h, d, Open(ch)).d, chs - {ch});
      cs := [Open(ch)] + rest;
      assert cs[1..] == rest;
      assert d.chans.Keys + {ch} + (chs - {ch}) == d.chans.Keys + chs;
    }
  }

  /** Every set of channels is the set of open channels of some reachable device. */
  lemma AnyChannelsCanBeOpen(h: Hw, chs: set<nat>) returns (d: Device)
    requires h.Valid() && forall ch :: ch in chs ==> ch < CHANNELS
    ensures Reachable(h, d) && d.chans.Keys == chs
  {
    assert DInv(h, UNSET);
    hide DInv;
    var cs := OpenAll(h, UNSET, chs);
    d := Run(h, UNSET, cs).d;
    hide AllLegal;
    hide Run;
  }

  /** Some live LBA of channel ch has address p. */
  ghost predicate InUse(h: Hw, d: Device, ch: nat, p: Ppa)
    requires h.Valid()
  {
    exists l: nat :: ch in d.chans && Mapped(SetupOf(h, ch), d.chans[ch].q, l) && l < |d.table| && d.table[l] == p
  }

  lemma TookMakesMapped(u: Setup, s: State, s': State, k: Kind)
    requires Inv(u, s) && TookBlock(s, s', k)
    ensures 0 <= s.chan.q[0] < |s'.table| && Mapped(u, s'.chan.q, s.chan.q[0])
    ensures s'.table[s.chan.q[0]] == s.chan.Of(k).free[0].ppa && s'.chan.Of(k).free == s.chan.Of(k).free[1..]
  {
    hide Setup.Valid;
    hide TableOk;
    hide ListsOk;
    hide CountsOk;
    assert InSlice(u, s.chan.q[0]);
  }

  /** With a free block an allocation goes through and makes the oldest waiting LBA live. */
  lemma AllocMakesLive(h: Hw, d: Device, ch: nat, k: Kind)
    requires h.Valid() && DInv(h, d) && ch in d.chans && d.chans[ch].Of(k).free != []
    ensures Step(h, d, On(ch, Alloc(k))).Running? && d.chans[ch].q != [] && d.chans[ch].q[0] >= 0
    ensures var (d', l) := (Step(h, d, On(ch, Alloc(k))).d, d.chans[ch].q[0]);
            && DInv(h, d') && ch in d'.chans && d'.chans[ch].Of(k).free == d.chans[ch].Of(k).free[1..]
            && Mapped(SetupOf(h, ch), d'.chans[ch].q, l) && l < |d'.table|
            && d'.table[l] == d.chans[ch].Of(k).free[0].ppa && IsLive(h, d', l)
  {
    hide DInv;
    hide Step;
    hide OthersKept;
    hide Inv;
    hide SetupOf;
    hide Mapped;
    AllocTakes(h, d, ch, k);
    StepKeepsDInv(h, d, On(ch, Alloc(k)));
    InvOf(h, d, ch);
    TookMakesMapped(SetupOf(h, ch), View(d, ch), View(Step(h, d, On(ch, Alloc(k))).d, ch), k);
    hide TookBlock;
  }

  lemma {:induction false} AllocMany(h: Hw, d: Device, ch: nat, k: Kind, n: nat) returns (cs: seq<Call>)
    requires h.Valid() && DInv(h, d) && ch in d.chans && n < |d.chans[ch].Of(k).free|
    ensures AllLegal(h, d, cs) && Run(h, d, cs).Running?
    ensures InUse(h, Run(h, d, cs).d, ch, d.chans[ch].Of(k).free[n].ppa)
    decreases n
  {
    hide DInv;
    hide Step;
    hide Mapped;
    hide SetupOf;
    AllocMakesLive(h, d, ch, k);
    var a := On(ch, Alloc(k));
    assert Legal(h, d, a);
    assert InUse(h, Step(h, d, a).d, ch, d.chans[ch].Of(k).free[0].ppa);
    hide InUse;
    hide Legal;
    if n == 0 {
      cs := [a];
      assert cs[1..] == [];
    } else {
      var rest := AllocMany(h, Step(h, d, a).d, ch, k, n - 1);
      cs := [a] + rest;
      assert cs[1..] == rest;
    }
  }

  lemma AfterOpening(h: Hw, ch: nat, cs: seq<Call>, d: Device)
    requires h.Valid() && ch < CHANNELS && Step(h, UNSET, Open(ch)) == Running(d) && AllLegal(h, d, cs)
    requires Run(h, d, cs).Running?
    ensures Reachable(h, Run(h, d, cs).d)
  {
    var all := [Open(ch)] + cs;
    assert all[1..] == cs;
    hide Step;
    assert AllLegal(h, UNSET, all) && Run(h, UNSET, all) == Run(h, d, cs);
  }

  /** Every good block, ordinary or super, is in use in some reachable device. */
  lemma EveryGoodBlockCanBeUsed(h: Hw, k: Kind, c: Coord) returns (d: Device)
    requires h.Valid() && IsFreeAt(h, c.ch, k, c, Blk(PpaOf(c), 0))
    ensures Reachable(h, d) && InUse(h, d, c.ch, PpaOf(c))
  {
    hide PpaOf;
    assert DInv(h, UNSET);
    OpenOne(h, UNSET, c.ch);
    OpenSetsUp(h, UNSET, c.ch);
    hide DInv;
    hide Step;
    hide OthersKept;
    hide TableOpened;
    hide Count;
    hide U32;
    var d0 := Step(h, UNSET, Open(c.ch)).d;
    var free := d0.chans[c.ch].Of(k).free;
    assert ListsGoodBlocks(h, c.ch, k, free);
    assert Blk(PpaOf(c), 0) in free;
    var n :| 0 <= n < |free| && free[n] == Blk(PpaOf(c), 0);
    hide IsNew;
    hide ListsGoodBlocks;
    hide InUse;
    var cs := AllocMany(h, d0, c.ch, k, n);
    AfterOpening(h, c.ch, cs, d0);
    d := Run(h, d0, cs).d;
  }

  lemma {:induction false} RunAppend(h: Hw, d: Device, cs: seq<Call>, c: Call)
    requires h.Valid() && AllLegal(h, d, cs) && Run(h, d, cs).Running? && Legal(h, Run(h, d, cs).d, c)
    ensures AllLegal(h, d, cs + [c]) && Run(h, d, cs + [c]) == Step(h, Run(h, d, cs).d, c)
    decreases |cs|
  {
    hide Step;
    hide Legal;
    if cs == [] {
      assert [] + [c] == [c] && [c][1..] == [];
    } else {
      assert (cs + [c])[0] == cs[0] && (cs + [c])[1..] == cs[1..] + [c];
      RunAppend(h, Step(h, d, cs[0]).d, cs[1..], c);
    }
  }

  /** Whatever a legal call leads to from a reachable device is reachable. */
  lemma ReachableGoesOn(h: Hw, d: Device, c: Call)
    requires h.Valid() && Reachable(h, d) && Legal(h, d, c) && Step(h, d, c).Running?
    ensures Reachable(h, Step(h, d, c).d)
  {
    var cs :| AllLegal(h, UNSET, cs) && Run(h, UNSET, cs) == Running(d);
    RunAppend(h, UNSET, cs, c);
    hide AllLegal;
    hide Run;
    hide Step;
    hide Legal;
  }

  // ---------- what the erase counters count ----------

  /** How often a run erases block p by releasing it. */
  function Erasures(h: Hw, d: Device, cs: seq<Call>, p: Ppa): nat
    requires h.Valid()
    decreases |cs|
  {
    if cs == [] then 0
    else
      (if Releases(d, cs[0], p) then 1 else 0)
      + match Step(h, d, cs[0])
        case Running(d') => Erasures(h, d', cs[1..], p)
        case _ => 0
  }

  predicate Releases(d: Device, c: Call, p: Ppa) {
    match c
    case On(_, Release(Block, lba, _)) => lba < |d.table| && d.table[lba] == p
    case _ => false
  }

  /** What is to be counted after a call. */
  function Counted(d: Device, c: Call, p: Ppa, e: nat): nat {
    if Releases(d, c, p) then e + 1 else e
  }

  /** While channel ch is open, the counter of p shows e in 8 bits. */
  ghost predicate Shows(d: Device, ch: nat, p: Ppa, e: nat) {
    if ch in d.chans then Count(d.ers, p) == e % 256 else e == 0
  }

  lemma NormalIsNamed(h: Hw, ch: nat, p: Ppa)
    requires h.Valid() && ch < CHANNELS && p in SetupOf(h, ch).normal
    ensures p.bits & 0xF == U32(ch) && Unpack(p.bits).ch == U32(ch)
  {
    SetupValid(h, ch);
    ChannelBits(p);
    hide Unpack;
    hide U32;
    hide Blocks;
    hide Superblocks;
  }

  /** No other good block shares the counter. */
  lemma CounterIsOwn(h: Hw, ch: nat, p: Ppa, ch': nat, p': Ppa)
    requires h.Valid() && ch < CHANNELS && ch' < CHANNELS && p in SetupOf(h, ch).normal && p' in SetupOf(h, ch').normal
    ensures Unpack(p.bits) == Unpack(p'.bits) ==> p == p'
  {
    NormalIsNamed(h, ch, p);
    NormalIsNamed(h, ch', p');
    U32Injective(ch, ch');
    SetupValid(h, ch);
    hide Unpack;
    hide U32;
    hide Blocks;
    hide Superblocks;
  }

  lemma OpenShows(h: Hw, d: Device, c: nat, ch: nat, p: Ppa, e: nat)
    requires h.Valid() && ch < CHANNELS && c < CHANNELS && p in SetupOf(h, ch).normal && Shows(d, ch, p, e)
    ensures Step(h, d, Open(c)).Running? && Shows(Step(h, d, Open(c)).d, ch, p, e)
  {
    OpenSetsUp(h, d, c);
    NormalIsNamed(h, ch, p);
    U32Injective(c, ch);
    hide Step;
    hide IsNew;
    hide TableOpened;
    hide SetupOf;
    hide Count;
    hide U32;
    hide Unpack;
  }

  lemma AllocShows(h: Hw, d: Device, c: nat, k: Kind, ch: nat, p: Ppa, e: nat)
    requires h.Valid() && DInv(h, d) && c in d.chans && Shows(d, ch, p, e)
    ensures Step(h, d, On(c, Alloc(k))).Running? ==> Shows(Step(h, d, On(c, Alloc(k))).d, ch, p, e)
  {
    AllocTakes(h, d, c, k);
    hide DInv;
    hide Step;
    hide Count;
    hide U32;
  }

  lemma GivenCounter(s: State, s': State, k: Kind, lba: nat, count: nat, p: Ppa)
    requires GaveBlock(s, s', k, lba, count)
    requires k == Block ==> Unpack(p.bits) == Unpack(s.table[lba].bits) ==> p == s.table[lba]
    ensures Count(s'.ers, p) == if k == Block && p == s.table[lba] then (Count(s.ers, p) + 1) % 256 else Count(s.ers, p)
  {
    hide Unpack;
    hide Count;
  }

  lemma ReleaseShows(h: Hw, d: Device, c: nat, k: Kind, lba: nat, count: nat, ch: nat, p: Ppa, e: nat)
    requires h.Valid() && DInv(h, d) && Legal(h, d, On(c, Release(k, lba, count)))
    requires ch < CHANNELS && p in SetupOf(h, ch).normal && Shows(d, ch, p, e)
    ensures var a := On(c, Release(k, lba, count));
            Step(h, d, a).Running? && Shows(Step(h, d, a).d, ch, p, Counted(d, a, p, e))
  {
    hide DInv;
    hide Legal;
    hide Step;
    hide SetupOf;
    hide Count;
    hide U32;
    hide Unpack;
    hide GaveBlock;
    ReleaseGives(h, d, c, k, lba, count);
    LegalRelease(h, d, c, k, lba, count);
    NormalIsNamed(h, ch, p);
    if k == Block {
      CounterIsOwn(h, ch, p, c, d.table[lba]);
      NormalIsNamed(h, c, d.table[lba]);
      U32Injective(c, ch);
    }
    GivenCounter(View(d, c), View(Step(h, d, On(c, Release(k, lba, count))).d, c), k, lba, count, p);
  }

  lemma CallShows(h: Hw, d: Device, c: Call, ch: nat, p: Ppa, e: nat)
    requires h.Valid() && DInv(h, d) && Legal(h, d, c) && Step(h, d, c).Running?
    requires ch < CHANNELS && p in SetupOf(h, ch).normal && Shows(d, ch, p, e)
    ensures Shows(Step(h, d, c).d, ch, p, Counted(d, c, p, e))
  {
    match c
    case Open(o) => OpenShows(h, d, o, ch, p, e);
    case On(o, Alloc(k)) => AllocShows(h, d, o, k, ch, p, e);
    case On(o, Release(k, lba, count)) => ReleaseShows(h, d, o, k, lba, count, ch, p, e);
    hide DInv;
    hide Step;
    hide Shows;
    hide SetupOf;
  }

  lemma {:induction false} RunShows(h: Hw, d: Device, cs: seq<Call>, ch: nat, p: Ppa, e: nat)
    requires h.Valid() && DInv(h, d) && AllLegal(h, d, cs) && Run(h, d, cs).Running?
    requires ch < CHANNELS && p in SetupOf(h, ch).normal && Shows(d, ch, p, e)
    ensures Shows(Run(h, d, cs).d, ch, p, e + Erasures(h, d, cs, p))
    decreases |cs|
  {
    hide DInv;
    hide Step;
    hide Shows;
    hide SetupOf;
    hide Legal;
    hide Releases;
    if cs != [] {
      StepKeepsDInv(h, d, cs[0]);
      CallShows(h, d, cs[0], ch, p, e);
      RunShows(h, Step(h, d, cs[0]).d, cs[1..], ch, p, Counted(d, cs[0], p, e));
    }
  }

  lemma NodeShows(u: Setup, s: State, b: Blk)
    requires Inv(u, s) && (b in s.chan.normal.free || b in s.chan.normal.alloc)
    ensures b.ppa in u.normal && b.data == Count(s.ers, b.ppa)
  {
    if b in s.chan.normal.free {
      BagHolds(s.chan.normal.free, b);
    } else {
      BagHolds(s.chan.normal.alloc, b);
    }
    hide Unpack;
    hide TableOk;
    AddressesApart(u, s.chan, b.ppa);
    hide Count;
    hide Bag;
  }

  lemma UnsetInOrder(h: Hw)
    requires h.Valid()
    ensures DInv(h, UNSET)
  {
  }

  /** Over any run, the wear every node of an open channel records is the number of times its
      block has been released, in 8 bits. */
  lemma WearCountsErasures(h: Hw, cs: seq<Call>, d: Device, ch: nat, b: Blk)
    requires h.Valid() && AllLegal(h, UNSET, cs) && Run(h, UNSET, cs) == Running(d) && ch in d.chans
    requires b in d.chans[ch].normal.free || b in d.chans[ch].normal.alloc
    ensures b.data == Erasures(h, UNSET, cs, b.ppa) % 256
  {
    hide AllLegal;
    hide Run;
    hide DInv;
    hide Inv;
    hide SetupOf;
    hide Count;
    hide Erasures;
    UnsetInOrder(h);
    RunKeepsDInv(h, UNSET, cs);
    InvOf(h, d, ch);
    NodeShows(SetupOf(h, ch), View(d, ch), b);
    RunShows(h, UNSET, cs, ch, b.ppa, 0);
  }
}
