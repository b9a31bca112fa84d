/** Between LBAs and blocks in a reachable device: get_lba_addr inverts get_ppa_addr, and
    distinct mapped LBAs never share a page (vssd_code/channel.c:147-175, 550-682). */
module Lookups {
  import opened Ppas
  import opened BadBlocks
  import opened FreeScan
  import opened Allocator
  import opened BlockStores
  import opened Devices

  // ---------- looking an LBA up by its block ----------

  /** r is the first LBA with this address, -1 when there is none. */
  ghost predicate FirstAt(table: seq<Ppa>, p: Ppa, r: int) {
    && -1 <= r < |table|
    && (r >= 0 ==> table[r] == p)
    && forall i :: 0 <= i < (if r < 0 then |table| else r) ==> table[i] != p
  }

  /** get_lba_addr. */
  method GetLbaAddr(table: array<Ppa>, ppa: Ppa) returns (lba: int)
    ensures FirstAt(table[..], ppa, lba)
  {
    lba := 0;
    while lba < table.Length
      invariant 0 <= lba <= table.Length
      invariant forall i :: 0 <= i < lba ==> table[i] != ppa
    {
      if table[lba] == ppa {
        return;
      }
      lba := lba + 1;
    }
    return -1;
  }

  lemma {:induction false} Owner(h: Hw, l: nat, c: nat) returns (ch: nat)
    requires h.Valid() && l < c * ChannelBlocks(h.g)
    ensures ch < c && InSlice(SetupOf(h, ch), l)
  {
    assert c * ChannelBlocks(h.g) == (c - 1) * ChannelBlocks(h.g) + ChannelBlocks(h.g);
    if l < (c - 1) * ChannelBlocks(h.g) {
      ch := Owner(h, l, c - 1);
    } else {
      ch := c - 1;
    }
  }

  lemma FreshIsQueued(u: Setup, table: seq<Ppa>, q: seq<int>, k: nat, l: int)
    requires FreshFrom(u, table, q, k) && InSlice(u, l) && u.lo + k <= l
    ensures l in q
  {
    assert q[l - u.lo - k] == l;
  }

  /** No lower LBA of the same slice holds the block of a mapped LBA. */
  lemma OwnSlice(u: Setup, s: State, l: int, m: int)
    requires ChanOk(u, s) && Mapped(u, s.chan.q, l) && InSlice(u, m) && m < l
    ensures s.table[m] != s.table[l]
  {
    MappedIsUsed(u, s, l);
    UsedIsNamed(u, s.chan, s.table[l]);
    hide Unpack;
    hide Setup.Valid;
    hide ListsOk;
    hide CountsOk;
    hide Used;
    if !Mapped(u, s.chan.q, m) {
      var k: nat :| FreshFrom(u, s.table, s.chan.q, k);
      if u.lo + k <= l {
        FreshIsQueued(u, s.table, s.chan.q, k, l);
      }
    }
  }

  lemma UsedIsNamed(u: Setup, c: Chan, p: Ppa)
    requires u.Valid() && ListsOk(u.normal, c.normal) && ListsOk(u.super, c.super) && p in Used(c)
    ensures p != UNMAPPED && Unpack(p.bits).ch == u.id
  {
    AddressesApart(u, c, p);
  }

  lemma ZeroIsChannelZero(ch: nat)
    requires ch < CHANNELS && Unpack(Ppa(0).bits).ch == U32(ch)
    ensures ch == 0
  {
    U32Injective(ch, 0);
  }

  /** A waiting or never opened LBA holds the unmapped mark or zero, a mapped one a block
      of its channel. */
  lemma HeldBy(h: Hw, d: Device, ch: nat, m: nat)
    requires h.Valid() && DInv(h, d) && d.table != [] && ch < CHANNELS && InSlice(SetupOf(h, ch), m)
    ensures m < |d.table|
    ensures d.table[m] == UNMAPPED || d.table[m] == Ppa(0) || Unpack(d.table[m].bits).ch == U32(ch)
  {
    hide Unpack;
    hide U32;
    hide ChannelBlocks;
    hide Blocks;
    hide Superblocks;
    if ch in d.chans {
      assert Live(h, d, ch);
      var s := State(d.table, d.ers, d.chans[ch]);
      HeldByLive(SetupOf(h, ch), s, m);
    } else {
      assert Idle(h, d, ch);
    }
  }

  lemma HeldByLive(u: Setup, s: State, m: nat)
    requires ChanOk(u, s) && InSlice(u, m)
    ensures m < |s.table|
    ensures s.table[m] == UNMAPPED || s.table[m] == Ppa(0) || Unpack(s.table[m].bits).ch == u.id
  {
    if Mapped(u, s.chan.q, m) {
      MappedIsUsed(u, s, m);
      UsedIsNamed(u, s.chan, s.table[m]);
    } else {
      hide Unpack;
      hide Inv;
      var k: nat :| FreshFrom(u, s.table, s.chan.q, k);
    }
  }

  /** In every reachable state get_lba_addr inverts get_ppa_addr on the LBAs that are
      mapped: even the block whose address is zero is found where it is. */
  lemma LookupInverts(h: Hw, d: Device, ch: nat, l: nat, r: int)
    requires h.Valid() && Reachable(h, d) && ch in d.chans && Mapped(SetupOf(h, ch), d.chans[ch].q, l) && l < |d.table|
    requires FirstAt(d.table, d.table[l], r)
    ensures r == l
  {
    ReachableIsConsistent(h, d);
    hide Reachable;
    hide Inv;
    forall m: nat | m < l ensures d.table[m] != d.table[l] {
      LowerEntry(h, d, ch, l, m);
    }
    hide DInv;
    hide SetupOf;
    hide ChanOk;
  }

  lemma LowerEntry(h: Hw, d: Device, ch: nat, l: nat, m: nat)
    requires h.Valid() && DInv(h, d) && ch in d.chans && Mapped(SetupOf(h, ch), d.chans[ch].q, l) && m < l < |d.table|
    ensures d.table[m] != d.table[l]
  {
    var (u, s) := (SetupOf(h, ch), State(d.table, d.ers, d.chans[ch]));
    assert Live(h, d, ch);
    var other := Owner(h, m, CHANNELS);
    HeldBy(h, d, other, m);
    MappedIsUsed(u, s, l);
    UsedIsNamed(u, s.chan, s.table[l]);
    U32Injective(ch, other);
    SliceOrder(h, ch, other, l, m);
    hide Unpack;
    hide U32;
    hide DInv;
    hide Inv;
    if other == ch {
      OwnSlice(u, s, l, m);
    } else if d.table[m] == d.table[l] {
      ZeroIsChannelZero(ch);
    }
  }

  lemma SliceOrder(h: Hw, ch: nat, other: nat, l: nat, m: nat)
    requires h.Valid() && InSlice(SetupOf(h, ch), l) && InSlice(SetupOf(h, other), m) && m < l
    ensures other <= ch
  {
    if ch < other {
      MulStep(ch, other, ChannelBlocks(h.g));
    }
  }

  lemma ScannedIsBlock(cs: seq<Coord>, ch: nat, p: Ppa)
    requires Names(cs, ch) && p in PpaSet(cs)
    ensures IsBlockPpa(p)
  {
    hide PpaOf;
    var c :| c in cs && p == PpaOf(c);
    BlockAddress(c);
  }

  lemma MappedIsBlock(h: Hw, d: Device, ch: nat, l: nat)
    requires h.Valid() && DInv(h, d) && ch in d.chans && Mapped(SetupOf(h, ch), d.chans[ch].q, l)
    ensures l < |d.table| && IsBlockPpa(d.table[l])
  {
    hide IsBlockPpa;
    assert Live(h, d, ch);
    hide DInv;
    MappedIsGood(SetupOf(h, ch), State(d.table, d.ers, d.chans[ch]), l);
    hide Inv;
    hide Mapped;
    NamedBlocks(h, ch);
    hide Blocks;
    hide Superblocks;
    hide PpaSet;
    var p := d.table[l];
    if p in SetupOf(h, ch).normal {
      ScannedIsBlock(Blocks(h, ch), ch, p);
    } else {
      ScannedIsBlock(Superblocks(h, ch), ch, p);
    }
  }

  lemma MappedIsGood(u: Setup, s: State, l: int)
    requires Inv(u, s) && Mapped(u, s.chan.q, l)
    ensures 0 <= l < |s.table| && (s.table[l] in u.normal || s.table[l] in u.super)
  {
    hide Unpack;
    MappedIsUsed(u, s, l);
    hide TableOk;
    AddressesApart(u, s.chan, s.table[l]);
  }

  lemma NamedBlocks(h: Hw, ch: nat)
    requires h.Valid() && ch < CHANNELS
    ensures Names(Blocks(h, ch), ch) && Names(Superblocks(h, ch), ch)
  {
    ScansDisjoint(h, ch);
  }

  /** In every reachable state two mapped LBAs, of one channel or of two, name two distinct
      blocks, so no write through one can reach a page of the other. */
  lemma MappedBlocksApart(h: Hw, d: Device, ch: nat, l: nat, other: nat, m: nat)
    requires h.Valid() && Reachable(h, d) && ch in d.chans && other in d.chans && l != m
    requires Mapped(SetupOf(h, ch), d.chans[ch].q, l) && Mapped(SetupOf(h, other), d.chans[other].q, m)
    ensures l < |d.table| && m < |d.table| && d.table[l] != d.table[m]
    ensures IsBlockPpa(d.table[l]) && IsBlockPpa(d.table[m])
    ensures forall i: nat, j: nat :: i < PAGE_NUM && j < PAGE_NUM ==>
              PageAddr(d.table[l].bits, i) != PageAddr(d.table[m].bits, j)
  {
    ReachableIsConsistent(h, d);
    hide Reachable;
    hide Inv;
    MappedIsBlock(h, d, ch, l);
    MappedIsBlock(h, d, other, m);
    hide IsBlockPpa;
    hide SetupOf;
    hide Mapped;
    if m < l {
      LowerEntry(h, d, ch, l, m);
    } else {
      LowerEntry(h, d, other, m, l);
    }
    hide DInv;
    forall i: nat, j: nat | i < PAGE_NUM && j < PAGE_NUM
      ensures PageAddr(d.table[l].bits, i) != PageAddr(d.table[m].bits, j)
    {
      PageAddrInjective(d.table[l].bits, i, d.table[m].bits, j);
    }
  }

  // ---------- the device as a map from (LBA, page) to data ----------

  /** An LBA that some channel has handed out and not taken back. */
  ghost predicate IsLive(h: Hw, d: Device, l: nat)
    requires h.Valid()
  {
    exists ch :: ch in d.chans && Mapped(SetupOf(h, ch), d.chans[ch].q, l)
  }

  ghost function LiveLbas(h: Hw, d: Device): set<nat>
    requires h.Valid()
  {
    set l: nat | l < |d.table| && IsLive(h, d, l)
  }

  lemma LiveIsBlock(h: Hw, d: Device, l: nat)
    requires h.Valid() && DInv(h, d) && IsLive(h, d, l)
    ensures l < |d.table| && IsBlockPpa(d.table[l])
  {
    var ch :| ch in d.chans && Mapped(SetupOf(h, ch), d.chans[ch].q, l);
    hide IsBlockPpa;
    hide SetupOf;
    hide Mapped;
    hide DInv;
    MappedIsBlock(h, d, ch, l);
  }

  lemma LiveApart(h: Hw, d: Device, l: nat, m: nat)
    requires h.Valid() && DInv(h, d) && IsLive(h, d, l) && m < l < |d.table|
    ensures d.table[m] != d.table[l]
  {
    var ch :| ch in d.chans && Mapped(SetupOf(h, ch), d.chans[ch].q, l);
    hide SetupOf;
    hide Mapped;
    hide DInv;
    LowerEntry(h, d, ch, l, m);
  }

  lemma LiveAreSeparate(h: Hw, d: Device)
    requires h.Valid() && Reachable(h, d)
    ensures Separate(d.table, LiveLbas(h, d))
  {
    ReachableIsConsistent(h, d);
    hide Reachable;
    hide Inv;
    hide DInv;
    hide IsLive;
    hide IsBlockPpa;
    forall l | l in LiveLbas(h, d) ensures l < |d.table| && IsBlockPpa(d.table[l]) {
      LiveIsBlock(h, d, l);
    }
    forall l, m | l in LiveLbas(h, d) && m in LiveLbas(h, d) && d.table[l] == d.table[m] ensures l == m {
      if m < l {
        LiveApart(h, d, l, m);
      } else if l < m {
        LiveApart(h, d, m, l);
      }
    }
  }

  /** In every reachable state the paged store over the mapping table refines a map from
      (LBA, page) to data: after any run of writes through live LBAs, of any channels, every
      page reads as the last write that named it left it. */
  lemma DeviceRefinesMap<T>(h: Hw, d: Device, ws: seq<Write<T>>, blank: T, lba: nat, page: nat)
    requires h.Valid() && Reachable(h, d)
    requires AllSized(ws) && OnLive(ws, LiveLbas(h, d)) && lba in LiveLbas(h, d) && page < PAGE_NUM
    ensures Cell(WriteAll(map[], d.table, ws), blank, PageAddr(AddrOf(d.table, lba), page))
         == Reference(ws, blank, lba, page)
  {
    LiveAreSeparate(h, d);
    hide Reachable;
    hide LiveLbas;
    WritesRefineMap(d.table, LiveLbas(h, d), ws, blank, lba, page);
  }
}
