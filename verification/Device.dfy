/** The whole device: one mapping table and one set of erase counters shared by channels
    that are opened one after the other and then allocate and free blocks in any order
    (vssd_code/channel.c: alloc_channel 30-57, init_mapping_table 100-122, and the
    operations of Allocator). */
module Devices {
  import opened Options
  import opened Ppas
  import opened RingQueues
  import opened BlkLists
  import opened BadBlocks
  import opened FreeScan
  import opened Allocator

  /** The hardware as the scanner and the command line left it. */
  datatype Hw = Hw(g: Geometry, bad: Option<seq<Word>>, mask: Word) {
    predicate Valid() {
      g.Valid() && (bad.Some? ==> TableFits(g, bad.value))
    }
  }

  /** The empty table is the null one, before any channel is opened. */
  datatype Device = Device(table: seq<Ppa>, ers: Counters, chans: map<nat, Chan>)

  datatype Call = Open(ch: nat) | On(ch: nat, op: Op)

  datatype Result = Running(d: Device) | OutOfBlocks(d: Device, ch: nat, k: Kind) | Failed

  // ---------- opening a channel ----------

  function PpaSet(cs: seq<Coord>): set<Ppa> {
    set c | c in cs :: PpaOf(c)
  }

  function Blocks(h: Hw, ch: nat): seq<Coord>
    requires h.Valid()
  {
    BlockScan(h.g, h.bad, h.mask, ch, Normal(h.g))
  }

  function Superblocks(h: Hw, ch: nat): seq<Coord>
    requires h.Valid()
  {
    SuperScan(h.g, h.bad, h.mask, ch, h.g.blocks)
  }

  function SetupOf(h: Hw, ch: nat): Setup
    requires h.Valid()
  {
    Setup(U32(ch), ch * ChannelBlocks(h.g), ChannelBlocks(h.g), PpaSet(Blocks(h, ch)), PpaSet(Superblocks(h, ch)))
  }

  function NewChan(h: Hw, ch: nat): Chan
    requires h.Valid()
  {
    var u := SetupOf(h, ch);
    Chan(Range(u.lo, u.lo + u.n), Lists(Blks(Blocks(h, ch)), []), Lists(Blks(Superblocks(h, ch)), []))
  }

  /** The first channel fills the whole table with the unmapped mark, a later one zeroes
      its own slice. */
  function TableWith(h: Hw, table: seq<Ppa>, ch: nat): seq<Ppa>
    requires h.Valid()
  {
    var u := SetupOf(h, ch);
    if table == [] then seq(CHANNELS * u.n, _ => UNMAPPED)
    else seq(|table|, i requires 0 <= i < |table| => if u.lo <= i < u.lo + u.n then Ppa(0) else table[i])
  }

  function CountersReset(ers: Counters, ch: nat): Counters {
    map f | f in ers && f.ch != U32(ch) :: ers[f]
  }

  function Opened(h: Hw, d: Device, ch: nat): Device
    requires h.Valid()
  {
    Device(TableWith(h, d.table, ch), CountersReset(d.ers, ch), d.chans[ch := NewChan(h, ch)])
  }

  // ---------- steps and runs ----------

  function OpOn(s: State, op: Op): Outcome {
    match op
    case Alloc(k) => AllocBlock(s, k)
    case Release(k, lba, count) => FreeBlock(s, k, lba, count)
  }

  function Step(h: Hw, d: Device, c: Call): Result
    requires h.Valid()
  {
    match c
    case Open(ch) => Running(if ch in d.chans then d else Opened(h, d, ch))
    case On(ch, op) =>
      if ch !in d.chans then Failed
      else match OpOn(State(d.table, d.ers, d.chans[ch]), op)
           case Next(s) => Running(Device(s.table, s.ers, d.chans[ch := s.chan]))
           case NoFreeBlock => OutOfBlocks(d, ch, op.k)
           case _ => Failed
  }

  function Run(h: Hw, d: Device, cs: seq<Call>): Result
    requires h.Valid()
    decreases |cs|
  {
    if cs == [] then Running(d)
    else match Step(h, d, cs[0])
         case Running(d') => Run(h, d', cs[1..])
         case r => r
  }

  /** What a caller owes: channels that exist, and to free only what it holds. */
  ghost predicate Legal(h: Hw, d: Device, c: Call)
    requires h.Valid()
  {
    match c
    case Open(ch) => ch < CHANNELS
    case On(ch, Alloc(_)) => ch in d.chans
    case On(ch, Release(k, lba, _)) =>
      && ch in d.chans && lba < |d.table|
      && Mapped(SetupOf(h, ch), d.chans[ch].q, lba) && d.table[lba] in SetupOf(h, ch).Of(k)
  }

  ghost predicate AllLegal(h: Hw, d: Device, cs: seq<Call>)
    requires h.Valid()
    decreases |cs|
  {
    cs == [] || (Legal(h, d, cs[0]) && (Step(h, d, cs[0]).Running? ==> AllLegal(h, Step(h, d, cs[0]).d, cs[1..])))
  }

  // ---------- the invariant ----------

  /** LBAs from lo + k on were never taken: they wait, in order, at the front of the queue,
      and only they can still hold a zero. */
  ghost predicate FreshFrom(u: Setup, table: seq<Ppa>, q: seq<int>, k: nat) {
    && u.lo + u.n <= |table|
    && k <= u.n && u.n - k <= |q|
    && (forall i :: 0 <= i < u.n - k ==> q[i] == u.lo + k + i)
    && (forall l :: InSlice(u, l) && l in q ==> table[l] == UNMAPPED || (table[l] == Ppa(0) && u.lo + k <= l))
  }

  ghost predicate Fresh(u: Setup, table: seq<Ppa>, q: seq<int>) {
    exists k :: FreshFrom(u, table, q, k)
  }

  ghost predicate ChanOk(u: Setup, s: State) {
    Inv(u, s) && Fresh(u, s.table, s.chan.q)
  }

  ghost predicate Untouched(u: Setup, table: seq<Ppa>) {
    u.lo + u.n <= |table| && forall l :: InSlice(u, l) ==> table[l] == UNMAPPED
  }

  /** An open channel meets its invariant, and its LBAs were given out in order. */
  ghost predicate Live(h: Hw, d: Device, ch: nat)
    requires h.Valid()
  {
    ch in d.chans && ch < CHANNELS && ChanOk(SetupOf(h, ch), State(d.table, d.ers, d.chans[ch]))
  }

  /** The slice of a channel that was never opened holds the unmapped mark. */
  ghost predicate Idle(h: Hw, d: Device, ch: nat)
    requires h.Valid()
  {
    Untouched(SetupOf(h, ch), d.table)
  }

  ghost predicate DInv(h: Hw, d: Device)
    requires h.Valid()
  {
    && (forall ch :: ch in d.chans ==> ch < CHANNELS && Live(h, d, ch))
    && (d.table == [] ==> d.chans == map[])
    && (d.table != [] ==> |d.table| == CHANNELS * ChannelBlocks(h.g))
    && (d.table != [] ==> forall ch :: 0 <= ch < CHANNELS && ch !in d.chans ==> Idle(h, d, ch))
  }

  // ---------- the set-up is what the scans found ----------

  lemma FirstOfScan(cs: seq<Coord>)
    requires cs != [] && Distinct(cs) && forall c :: c in cs ==> InRange(c)
    ensures PpaSet(cs) == {PpaOf(cs[0])} + PpaSet(cs[1..]) && PpaOf(cs[0]) !in PpaSet(cs[1..])
  {
    hide PpaOf;
    assert cs == [cs[0]] + cs[1..];
    forall c | c in cs[1..] ensures PpaOf(c) != PpaOf(cs[0]) {
      BlockAddressInjective(c, cs[0]);
    }
  }

  lemma BagOfFirst(s: seq<Blk>, p: Ppa, rest: set<Ppa>)
    requires s != [] && s[0].ppa == p && p !in rest && Bag(s[1..]) == multiset(rest)
    ensures Bag(s) == multiset({p} + rest) && |{p} + rest| == |rest| + 1
  {
  }

  lemma {:induction false} BagOfScan(cs: seq<Coord>)
    requires Distinct(cs) && forall c :: c in cs ==> InRange(c)
    ensures Bag(Blks(cs)) == multiset(PpaSet(cs)) && |PpaSet(cs)| == |cs|
  {
    hide PpaOf;
    hide InRange;
    if cs != [] {
      FirstOfScan(cs);
      assert Distinct(cs[1..]);
      hide Distinct;
      BagOfScan(cs[1..]);
      assert Blks(cs)[1..] == Blks(cs[1..]);
      BagOfFirst(Blks(cs), PpaOf(cs[0]), PpaSet(cs[1..]));
      hide PpaSet;
      hide Bag;
    }
  }

  lemma ScansDisjoint(h: Hw, ch: nat)
    requires h.Valid() && ch < CHANNELS
    ensures forall c :: c in Blocks(h, ch) || c in Superblocks(h, ch) ==> InRange(c) && c.ch == ch
    ensures forall c, d :: c in Blocks(h, ch) && d in Superblocks(h, ch) ==> c != d
    ensures Distinct(Blocks(h, ch)) && Distinct(Superblocks(h, ch))
  {
    BlockScanFacts(h.g, h.bad, h.mask, ch, Normal(h.g));
    SuperScanFacts(h.g, h.bad, h.mask, ch, h.g.blocks);
  }

  ghost predicate Names(cs: seq<Coord>, ch: nat) {
    forall c :: c in cs ==> InRange(c) && c.ch == ch
  }

  lemma Named(cs: seq<Coord>, ch: nat, p: Ppa)
    requires Names(cs, ch) && p in PpaSet(cs)
    ensures p != UNMAPPED && Unpack(p.bits).ch == U32(ch)
  {
    hide PpaOf;
    hide Unpack;
    var c :| c in cs && p == PpaOf(c);
    BlockAddress(c);
  }

  lemma NamedOnce(cs: seq<Coord>, ds: seq<Coord>, ch: nat, p: Ppa, q: Ppa)
    requires Names(cs, ch) && Names(ds, ch) && p in PpaSet(cs) && q in PpaSet(ds)
    requires Unpack(p.bits) == Unpack(q.bits)
    ensures p == q && exists c :: c in cs && c in ds
  {
    hide PpaOf;
    hide Unpack;
    var c :| c in cs && p == PpaOf(c);
    var d :| d in ds && q == PpaOf(d);
    BlockAddressInjective(c, d);
  }

  lemma SetupValid(h: Hw, ch: nat)
    requires h.Valid() && ch < CHANNELS
    ensures SetupOf(h, ch).Valid()
    ensures Bag(Blks(Blocks(h, ch))) == multiset(SetupOf(h, ch).normal)
    ensures Bag(Blks(Superblocks(h, ch))) == multiset(SetupOf(h, ch).super)
  {
    var (cs, ds) := (Blocks(h, ch), Superblocks(h, ch));
    ScansDisjoint(h, ch);
    BlocksFitLbas(h.g, h.bad, h.mask, ch);
    BagOfScan(cs);
    BagOfScan(ds);
    hide Unpack;
    hide Blocks;
    hide Superblocks;
    hide InRange;
    assert Names(cs, ch) && Names(ds, ch);
    forall p | p in PpaSet(cs) || p in PpaSet(ds) ensures p != UNMAPPED && Unpack(p.bits).ch == U32(ch) {
      Named(if p in PpaSet(cs) then cs else ds, ch, p);
    }
    forall p, q | p in PpaSet(cs) && q in PpaSet(cs) && Unpack(p.bits) == Unpack(q.bits) ensures p == q {
      NamedOnce(cs, cs, ch, p, q);
    }
    forall p | p in PpaSet(cs) ensures p !in PpaSet(ds) {
      if p in PpaSet(ds) {
        NamedOnce(cs, ds, ch, p, p);
      }
    }
    hide PpaSet;
  }

  // ---------- channels do not disturb each other ----------

  lemma SliceFits(h: Hw, ch: nat)
    requires h.Valid() && ch < CHANNELS
    ensures SetupOf(h, ch).lo + SetupOf(h, ch).n <= CHANNELS * ChannelBlocks(h.g)
    ensures ChannelBlocks(h.g) > 0
  {
    var g := h.g;
    assert g.luns * g.planes > 0;
    assert g.blocks * (g.luns * g.planes) > 0;
    MulStep(ch, CHANNELS, ChannelBlocks(g));
  }

  lemma SlicesApart(h: Hw, ch: nat, ch': nat, l: int)
    requires h.Valid() && ch != ch'
    ensures !(InSlice(SetupOf(h, ch), l) && InSlice(SetupOf(h, ch'), l))
  {
    if ch < ch' {
      MulStep(ch, ch', ChannelBlocks(h.g));
    } else {
      MulStep(ch', ch, ChannelBlocks(h.g));
    }
  }

  ghost predicate SameSlice(u: Setup, table: seq<Ppa>, table': seq<Ppa>) {
    |table| == |table'| && forall l :: InSlice(u, l) && 0 <= l < |table| ==> table'[l] == table[l]
  }

  ghost predicate SameCounters(id: bv32, ers: Counters, ers': Counters) {
    forall f: Fields :: f.ch == id ==> (f in ers <==> f in ers') && (f in ers ==> ers[f] == ers'[f])
  }

  lemma RecordedFrame(u: Setup, l: Lists, ers: Counters, ers': Counters)
    requires u.Valid() && ListsOk(u.normal, l) && SameCounters(u.id, ers, ers')
    requires Recorded(ers, l.free) && Recorded(ers, l.alloc)
    ensures Recorded(ers', l.free) && Recorded(ers', l.alloc)
  {
    hide Unpack;
    forall b | b in l.free || b in l.alloc ensures Count(ers, b.ppa) == Count(ers', b.ppa) {
      if b in l.free {
        BagHolds(l.free, b);
      } else {
        BagHolds(l.alloc, b);
      }
      assert b.ppa in Bag(l.free) + Bag(l.alloc);
      assert b.ppa in multiset(u.normal);
    }
  }

  lemma TableFrame(u: Setup, table: seq<Ppa>, table': seq<Ppa>, q: seq<int>, used: multiset<Ppa>)
    requires TableOk(u, table, q, used) && SameSlice(u, table, table')
    ensures TableOk(u, table', q, used)
  {
    forall l | Mapped(u, q, l) ensures table'[l] == table[l] {
    }
    hide Mapped;
    hide SameSlice;
    forall p | p in used ensures Reached(u, table', q, p) {
      assert Reached(u, table, q, p);
      var l :| Mapped(u, q, l) && table[l] == p;
      assert Mapped(u, q, l) && table'[l] == p;
    }
  }

  /** A channel whose slice and counters are left alone stays as it is. */
  lemma ChanFrame(u: Setup, s: State, s': State)
    requires ChanOk(u, s) && s'.chan == s.chan
    requires SameSlice(u, s.table, s'.table) && SameCounters(u.id, s.ers, s'.ers)
    ensures ChanOk(u, s')
  {
    var k: nat :| FreshFrom(u, s.table, s.chan.q, k);
    assert FreshFrom(u, s'.table, s.chan.q, k);
    TableFrame(u, s.table, s'.table, s.chan.q, Used(s.chan));
    hide FreshFrom;
    hide SameSlice;
    hide TableOk;
    RecordedFrame(u, s.chan.normal, s.ers, s'.ers);
  }

  // ---------- the zeroes of a slice ----------

  lemma FreshAfterAlloc(u: Setup, table: seq<Ppa>, q: seq<int>, p: Ppa)
    requires Queued(u, q) && q != [] && Fresh(u, table, q) && 0 <= q[0] < |table|
    ensures Fresh(u, table[q[0] := p], q[1..])
  {
    var k: nat :| FreshFrom(u, table, q, k);
    var k': nat := if k < u.n then k + 1 else k;
    assert q == [q[0]] + q[1..];
    assert FreshFrom(u, table[q[0] := p], q[1..], k');
  }

  lemma FreshAfterFree(u: Setup, table: seq<Ppa>, q: seq<int>, l: nat)
    requires Queued(u, q) && Fresh(u, table, q) && Mapped(u, q, l) && l < |table|
    ensures Fresh(u, table[l := UNMAPPED], q + [l])
  {
    var k: nat :| FreshFrom(u, table, q, k);
    assert FreshFrom(u, table[l := UNMAPPED], q + [l], k);
  }

  // ---------- what every call keeps ----------

  lemma NewCountsOk(h: Hw, ers: Counters, ch: nat)
    requires h.Valid() && ch < CHANNELS && forall f :: f in ers ==> f.ch != U32(ch)
    ensures Recorded(ers, Blks(Blocks(h, ch)))
  {
    ScansDisjoint(h, ch);
    hide Unpack;
    hide PpaOf;
    forall b | b in Blks(Blocks(h, ch)) ensures b.data == Count(ers, b.ppa) {
      var i :| 0 <= i < |Blks(Blocks(h, ch))| && Blks(Blocks(h, ch))[i] == b;
      BlockAddress(Blocks(h, ch)[i]);
    }
  }

  /** A whole queue maps nothing. */
  lemma NewQueueOk(u: Setup, table: seq<Ppa>)
    requires u.lo + u.n <= |table|
    requires forall l :: InSlice(u, l) ==> table[l] == UNMAPPED || table[l] == Ppa(0)
    ensures var q := Range(u.lo, u.lo + u.n);
            Queued(u, q) && TableOk(u, table, q, multiset{}) && Fresh(u, table, q)
  {
    var q := Range(u.lo, u.lo + u.n);
    assert FreshFrom(u, table, q, 0);
    forall l | InSlice(u, l) ensures l in q {
      assert q[l - u.lo] == l;
    }
  }

  lemma NewListsOk(blocks: set<Ppa>, free: seq<Blk>)
    requires Bag(free) == multiset(blocks) && Descending(free)
    ensures ListsOk(blocks, Lists(free, [])) && Bag([]) == multiset{}
  {
  }

  lemma NewInv(u: Setup, s: State, free: seq<Blk>, freeS: seq<Blk>)
    requires u.Valid() && Bag(free) == multiset(u.normal) && Bag(freeS) == multiset(u.super)
    requires Descending(free) && Descending(freeS) && Recorded(s.ers, free)
    requires s.chan == Chan(Range(u.lo, u.lo + u.n), Lists(free, []), Lists(freeS, []))
    requires u.lo + u.n <= |s.table|
    requires forall l :: InSlice(u, l) ==> s.table[l] == UNMAPPED || s.table[l] == Ppa(0)
    ensures ChanOk(u, s)
  {
    hide Unpack;
    hide Setup.Valid;
    hide InSlice;
    hide Fresh;
    hide Queued;
    hide TableOk;
    hide ListsOk;
    hide Bag;
    NewQueueOk(u, s.table);
    NewListsOk(u.normal, free);
    NewListsOk(u.super, freeS);
    assert Used(s.chan) == multiset{};
  }

  lemma NewChanOk(h: Hw, table: seq<Ppa>, ers: Counters, ch: nat)
    requires h.Valid() && ch < CHANNELS && SetupOf(h, ch).lo + SetupOf(h, ch).n <= |table|
    requires forall l :: InSlice(SetupOf(h, ch), l) ==> table[l] == UNMAPPED || table[l] == Ppa(0)
    requires forall f :: f in ers ==> f.ch != U32(ch)
    ensures ChanOk(SetupOf(h, ch), State(table, ers, NewChan(h, ch)))
  {
    hide ChanOk;
    hide Setup.Valid;
    SetupValid(h, ch);
    NewCountsOk(h, ers, ch);
    hide U32;
    hide Blocks;
    hide Superblocks;
    hide Bag;
    hide Recorded;
    NewInv(SetupOf(h, ch), State(table, ers, NewChan(h, ch)), Blks(Blocks(h, ch)), Blks(Superblocks(h, ch)));
  }

  lemma OpenTable(h: Hw, table: seq<Ppa>, ch: nat)
    requires h.Valid() && ch < CHANNELS && (table == [] || |table| == CHANNELS * ChannelBlocks(h.g))
    ensures var (u, table') := (SetupOf(h, ch), TableWith(h, table, ch));
            && |table'| == CHANNELS * ChannelBlocks(h.g) > 0 && u.lo + u.n <= |table'|
            && forall l :: InSlice(u, l) ==> table'[l] == UNMAPPED || table'[l] == Ppa(0)
  {
    SliceFits(h, ch);
    hide ChannelBlocks;
    hide Blocks;
    hide Superblocks;
  }

  lemma OpenElsewhere(h: Hw, table: seq<Ppa>, ch: nat, other: nat)
    requires h.Valid() && ch < CHANNELS && other < CHANNELS && other != ch
    requires table == [] || |table| == CHANNELS * ChannelBlocks(h.g)
    ensures table != [] ==> SameSlice(SetupOf(h, other), table, TableWith(h, table, ch))
    ensures table == [] ==> Untouched(SetupOf(h, other), TableWith(h, table, ch))
  {
    SliceFits(h, ch);
    SliceFits(h, other);
    forall l ensures !(InSlice(SetupOf(h, ch), l) && InSlice(SetupOf(h, other), l)) {
      SlicesApart(h, ch, other, l);
    }
    hide ChannelBlocks;
    hide Blocks;
    hide Superblocks;
  }

  lemma ResetElsewhere(ers: Counters, ch: nat, other: nat)
    requires ch < CHANNELS && other < CHANNELS && other != ch
    ensures SameCounters(U32(other), ers, CountersReset(ers, ch))
  {
    U32Injective(ch, other);
    hide U32;
  }

  lemma OpenOther(h: Hw, d: Device, ch: nat, other: nat)
    requires h.Valid() && ch < CHANNELS && other != ch && |d.table| == CHANNELS * ChannelBlocks(h.g) > 0
    requires Live(h, d, other)
    ensures Live(h, Opened(h, d, ch), other)
  {
    OpenElsewhere(h, d.table, ch, other);
    ResetElsewhere(d.ers, ch, other);
    var u := SetupOf(h, other);
    assert u.id == U32(other);
    hide SetupOf;
    hide U32;
    hide NewChan;
    hide TableWith;
    hide CountersReset;
    hide ChanOk;
    hide SameSlice;
    hide SameCounters;
    var d' := Opened(h, d, ch);
    ChanFrame(u, State(d.table, d.ers, d.chans[other]), State(d'.table, d'.ers, d.chans[other]));
  }

  lemma OpenIdle(h: Hw, d: Device, ch: nat, other: nat)
    requires h.Valid() && ch < CHANNELS && other < CHANNELS && other != ch
    requires d.table == [] || (|d.table| == CHANNELS * ChannelBlocks(h.g) && Idle(h, d, other))
    ensures Idle(h, Opened(h, d, ch), other)
  {
    OpenElsewhere(h, d.table, ch, other);
    hide SetupOf;
    hide TableWith;
  }

  lemma OpenNew(h: Hw, d: Device, ch: nat)
    requires h.Valid() && ch < CHANNELS && (d.table == [] || |d.table| == CHANNELS * ChannelBlocks(h.g))
    ensures Live(h, Opened(h, d, ch), ch)
  {
    OpenTable(h, d.table, ch);
    assert forall f :: f in CountersReset(d.ers, ch) ==> f.ch != U32(ch);
    hide SetupOf;
    hide U32;
    hide NewChan;
    hide TableWith;
    hide CountersReset;
    hide ChanOk;
    NewChanOk(h, TableWith(h, d.table, ch), CountersReset(d.ers, ch), ch);
  }

  lemma OpenShape(h: Hw, d: Device, ch: nat)
    requires h.Valid() && ch < CHANNELS && (d.table == [] || |d.table| == CHANNELS * ChannelBlocks(h.g))
    ensures Opened(h, d, ch).chans.Keys == d.chans.Keys + {ch}
    ensures |Opened(h, d, ch).table| == CHANNELS * ChannelBlocks(h.g) > 0
  {
    OpenTable(h, d.table, ch);
    hide NewChan;
    hide TableWith;
    hide CountersReset;
  }

  /** Opening a channel sets it up in order and leaves every other one alone. */
  lemma OpenKeepsDInv(h: Hw, d: Device, ch: nat)
    requires h.Valid() && DInv(h, d) && ch < CHANNELS && ch !in d.chans
    ensures DInv(h, Opened(h, d, ch))
  {
    hide Live;
    hide Idle;
    OpenShape(h, d, ch);
    OpenNew(h, d, ch);
    var d' := Opened(h, d, ch);
    hide Opened;
    forall other | other in d.chans ensures Live(h, d', other) {
      OpenOther(h, d, ch, other);
    }
    forall other | 0 <= other < CHANNELS && other !in d'.chans ensures Idle(h, d', other) {
      OpenIdle(h, d, ch, other);
    }
  }

  // ---------- one allocation or release ----------

  /** Nothing outside the slice and the counters of the channel changes. */
  ghost predicate StaysIn(u: Setup, s: State, s': State) {
    && |s.table| == |s'.table|
    && (forall l :: 0 <= l < |s.table| && !InSlice(u, l) ==> s'.table[l] == s.table[l])
    && (forall f: Fields :: f.ch != u.id ==> (f in s.ers <==> f in s'.ers) && (f in s.ers ==> s.ers[f] == s'.ers[f]))
  }

  lemma StepStaysIn(u: Setup, s: State, op: Op)
    requires u.Valid() && Queued(u, s.chan.q)
    requires op.Release? ==> Mapped(u, s.chan.q, op.lba) && op.lba < |s.table| && s.table[op.lba] in u.Of(op.k)
    ensures OpOn(s, op).Next? ==> StaysIn(u, s, OpOn(s, op).s)
  {
    hide Unpack;
    hide Taken;
    hide Freed;
    hide Has;
    hide Count;
    hide Wear;
    match op {
      case Alloc(k) =>
        assert s.chan.q != [] ==> InSlice(u, s.chan.q[0]);
      case Release(k, lba, count) =>
    }
  }

  lemma Elsewhere(h: Hw, ch: nat, s: State, s': State, other: nat)
    requires h.Valid() && ch < CHANNELS && other < CHANNELS && other != ch && StaysIn(SetupOf(h, ch), s, s')
    ensures SameSlice(SetupOf(h, other), s.table, s'.table)
    ensures SameCounters(SetupOf(h, other).id, s.ers, s'.ers)
  {
    U32Injective(ch, other);
    forall l ensures !(InSlice(SetupOf(h, ch), l) && InSlice(SetupOf(h, other), l)) {
      SlicesApart(h, ch, other, l);
    }
    hide U32;
    hide Blocks;
    hide Superblocks;
    hide InSlice;
  }

  lemma StepKeepsChan(u: Setup, s: State, op: Op)
    requires ChanOk(u, s)
    requires op.Release? ==> Mapped(u, s.chan.q, op.lba) && op.lba < |s.table| && s.table[op.lba] in u.Of(op.k)
    ensures match OpOn(s, op)
            case Next(s') => ChanOk(u, s')
            case NoFreeBlock => op.Alloc? && s.chan.Of(op.k).free == []
            case _ => false
  {
    hide TableOk;
    hide ListsOk;
    hide CountsOk;
    hide Setup.Valid;
    hide Taken;
    hide Freed;
    hide Has;
    hide Wear;
    hide Fresh;
    hide Mapped;
    hide Queued;
    match op {
      case Alloc(k) =>
        AllocKeepsInv(u, s, k);
        if AllocBlock(s, k).Next? {
          FreshAfterAlloc(u, s.table, s.chan.q, s.chan.Of(k).free[0].ppa);
        }
      case Release(k, lba, count) =>
        FreeKeepsInv(u, s, k, lba, count);
        FreshAfterFree(u, s.table, s.chan.q, lba);
    }
  }

  lemma StepOther(h: Hw, d: Device, d': Device, ch: nat, other: nat)
    requires h.Valid() && ch < CHANNELS && other < CHANNELS && other != ch && ch in d.chans && ch in d'.chans
    requires StaysIn(SetupOf(h, ch), State(d.table, d.ers, d.chans[ch]), State(d'.table, d'.ers, d'.chans[ch]))
    requires d'.chans == d.chans[ch := d'.chans[ch]]
    ensures Live(h, d, other) ==> Live(h, d', other)
    ensures Idle(h, d, other) ==> Idle(h, d', other)
  {
    var s, s' := State(d.table, d.ers, d.chans[ch]), State(d'.table, d'.ers, d'.chans[ch]);
    Elsewhere(h, ch, s, s', other);
    hide SetupOf;
    hide ChanOk;
    hide StaysIn;
    if Live(h, d, other) {
      ChanFrame(SetupOf(h, other), s.(chan := d.chans[other]), s'.(chan := d.chans[other]));
    }
  }

  lemma StepLive(h: Hw, d: Device, ch: nat, op: Op)
    requires h.Valid() && Live(h, d, ch) && Legal(h, d, On(ch, op))
    ensures match Step(h, d, On(ch, op))
            case Running(d') => Live(h, d', ch) && d'.chans.Keys == d.chans.Keys && |d'.table| == |d.table|
                                && ch in d'.chans && d'.chans == d.chans[ch := d'.chans[ch]]
                                && StaysIn(SetupOf(h, ch), State(d.table, d.ers, d.chans[ch]),
                                           State(d'.table, d'.ers, d'.chans[ch]))
            case OutOfBlocks(d', c, k) => d' == d && op == Alloc(k) && c == ch && d.chans[ch].Of(k).free == []
            case Failed => false
  {
    hide SetupOf;
    hide Mapped;
    hide Setup.Valid;
    hide TableOk;
    hide ListsOk;
    hide CountsOk;
    hide Queued;
    hide Fresh;
    hide OpOn;
    var u, s := SetupOf(h, ch), State(d.table, d.ers, d.chans[ch]);
    StepKeepsChan(u, s, op);
    StepStaysIn(u, s, op);
    assert OpOn(s, op).Next? ==> |OpOn(s, op).s.table| == |s.table|;
    hide StaysIn;
  }

  lemma StepKeepsOthers(h: Hw, d: Device, d': Device, ch: nat)
    requires h.Valid() && DInv(h, d) && ch in d.chans && Live(h, d', ch)
    requires ch in d'.chans && d'.chans == d.chans[ch := d'.chans[ch]] && |d'.table| == |d.table|
    requires StaysIn(SetupOf(h, ch), State(d.table, d.ers, d.chans[ch]), State(d'.table, d'.ers, d'.chans[ch]))
    ensures DInv(h, d')
  {
    hide Live;
    hide Idle;
    hide SetupOf;
    hide StaysIn;
    hide ChannelBlocks;
    forall other | 0 <= other < CHANNELS && other != ch
      ensures Live(h, d, other) ==> Live(h, d', other)
      ensures Idle(h, d, other) ==> Idle(h, d', other)
    {
      StepOther(h, d, d', ch, other);
    }
  }

  lemma InvOf(h: Hw, d: Device, ch: nat)
    requires h.Valid() && DInv(h, d) && ch in d.chans
    ensures ch < CHANNELS && Inv(SetupOf(h, ch), State(d.table, d.ers, d.chans[ch]))
  {
    assert Live(h, d, ch);
    hide Inv;
    hide DInv;
    hide SetupOf;
  }

  lemma OpenStepOk(h: Hw, d: Device, ch: nat)
    requires h.Valid() && DInv(h, d) && ch < CHANNELS
    ensures var r := Step(h, d, Open(ch));
            r.Running? && DInv(h, r.d) && r.d.chans.Keys == d.chans.Keys + {ch}
  {
    hide Opened;
    hide Live;
    hide Idle;
    hide ChannelBlocks;
    if ch !in d.chans {
      OpenKeepsDInv(h, d, ch);
      OpenShape(h, d, ch);
    }
    hide DInv;
  }

  lemma OnStepOk(h: Hw, d: Device, ch: nat, op: Op)
    requires h.Valid() && DInv(h, d) && Legal(h, d, On(ch, op))
    ensures match Step(h, d, On(ch, op))
            case Running(d') => DInv(h, d') && d'.chans.Keys == d.chans.Keys
            case OutOfBlocks(d', c, k) =>
              d' == d && op == Alloc(k) && c == ch && ch in d.chans && d.chans[ch].Of(k).free == []
            case Failed => false
  {
    hide SetupOf;
    hide StaysIn;
    hide OpOn;
    assert ch in d.chans && Live(h, d, ch);
    StepLive(h, d, ch, op);
    if Step(h, d, On(ch, op)).Running? {
      StepKeepsOthers(h, d, Step(h, d, On(ch, op)).d, ch);
    }
    hide DInv;
  }

  /** Every legal call keeps the whole device in order. The only way a call can end badly
      is an allocation from a channel whose free list is empty. */
  lemma StepKeepsDInv(h: Hw, d: Device, c: Call)
    requires h.Valid() && DInv(h, d) && Legal(h, d, c)
    ensures match Step(h, d, c)
            case Running(d') => DInv(h, d') && d'.chans.Keys == d.chans.Keys + (if c.Open? then {c.ch} else {})
            case OutOfBlocks(d', ch, k) =>
              d' == d && c == On(ch, Alloc(k)) && ch in d.chans && d.chans[ch].Of(k).free == []
            case Failed => false
  {
    hide DInv;
    hide Step;
    match c {
      case Open(ch) => OpenStepOk(h, d, ch);
      case On(ch, op) => OnStepOk(h, d, ch, op);
    }
    hide Legal;
  }

  /** Over any run of openings, allocations and releases the device stays in order. */
  lemma {:induction false} RunKeepsDInv(h: Hw, d: Device, cs: seq<Call>)
    requires h.Valid() && DInv(h, d) && AllLegal(h, d, cs)
    ensures match Run(h, d, cs)
            case Running(d') => DInv(h, d')
            case OutOfBlocks(d', ch, k) => DInv(h, d') && ch in d'.chans && d'.chans[ch].Of(k).free == []
            case Failed => false
    decreases |cs|
  {
    hide DInv;
    hide Step;
    hide Legal;
    if cs != [] {
      StepKeepsDInv(h, d, cs[0]);
      match Step(h, d, cs[0]) {
        case Running(d') => RunKeepsDInv(h, d', cs[1..]);
        case OutOfBlocks(_, _, _) =>
      }
    }
  }

  /** The device before any channel is opened. */
  const UNSET := Device([], map[], map[])

  ghost predicate Reachable(h: Hw, d: Device)
    requires h.Valid()
  {
    exists cs :: AllLegal(h, UNSET, cs) && Run(h, UNSET, cs) == Running(d)
  }

  /** In every reachable state LBAs, lists, table and counters of every open channel are
      consistent. */
  lemma ReachableIsConsistent(h: Hw, d: Device)
    requires h.Valid() && Reachable(h, d)
    ensures DInv(h, d)
    ensures forall ch :: ch in d.chans ==> Inv(SetupOf(h, ch), State(d.table, d.ers, d.chans[ch]))
  {
    var cs :| AllLegal(h, UNSET, cs) && Run(h, UNSET, cs) == Running(d);
    hide AllLegal;
    hide Run;
    assert DInv(h, UNSET);
    RunKeepsDInv(h, UNSET, cs);
    forall ch | ch in d.chans ensures Inv(SetupOf(h, ch), State(d.table, d.ers, d.chans[ch])) {
      assert Live(h, d, ch);
      hide Inv;
      hide DInv;
    }
  }

  /** No run of legal calls fails: neither an LBA nor a node is ever missing. */
  lemma RunNeverFails(h: Hw, cs: seq<Call>)
    requires h.Valid() && AllLegal(h, UNSET, cs)
    ensures !Run(h, UNSET, cs).Failed?
  {
    hide AllLegal;
    hide Run;
    assert DInv(h, UNSET);
    RunKeepsDInv(h, UNSET, cs);
  }
}
