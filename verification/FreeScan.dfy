/** The set-up loops that erase every good block of a channel and put it on the free list
    (erase_all_blk_chl, vssd_code/channel.c:868-941, and erase_all_blk_chl_v, 1010-1041). */
module FreeScan {
  import opened Options
  import opened Ppas
  import opened BlkLists
  import opened BadBlocks

  const RESERVED_SUPERBLK: nat := 100

  /** Where the superblocks begin. */
  function Normal(g: Geometry): nat {
    if g.blocks < RESERVED_SUPERBLK then 0 else g.blocks - RESERVED_SUPERBLK
  }

  predicate Usable(g: Geometry, table: Option<seq<Word>>, mask: Word, c: Coord)
    requires g.Valid() && (table.Some? ==> TableFits(g, table.value))
  {
    g.Has(c) && IsGoodPpa(g, table, mask, c)
  }

  // ---------- the blocks in the order the loops leave them on the list ----------

  function PlaneScan(g: Geometry, table: Option<seq<Word>>, mask: Word, ch: nat, blk: nat, lun: nat, n: nat,
                     tail: seq<Coord>): seq<Coord>
    requires g.Valid() && (table.Some? ==> TableFits(g, table.value))
  {
    if n == 0 then tail
    else
      var rest := PlaneScan(g, table, mask, ch, blk, lun, n - 1, tail);
      var c := Coord(ch, lun, blk, n - 1);
      if Usable(g, table, mask, c) then [c] + rest else rest
  }

  function LunScan(g: Geometry, table: Option<seq<Word>>, mask: Word, ch: nat, blk: nat, n: nat,
                   tail: seq<Coord>): seq<Coord>
    requires g.Valid() && (table.Some? ==> TableFits(g, table.value))
  {
    if n == 0 then tail
    else PlaneScan(g, table, mask, ch, blk, n - 1, g.planes, LunScan(g, table, mask, ch, blk, n - 1, tail))
  }

  function BlockScan(g: Geometry, table: Option<seq<Word>>, mask: Word, ch: nat, n: nat): seq<Coord>
    requires g.Valid() && (table.Some? ==> TableFits(g, table.value))
  {
    if n == 0 then [] else LunScan(g, table, mask, ch, n - 1, g.luns, BlockScan(g, table, mask, ch, n - 1))
  }

  /** One LUN after the other of superblock blk; a superblock is named by its plane 0. */
  function SuperLunScan(g: Geometry, table: Option<seq<Word>>, mask: Word, ch: nat, blk: nat, n: nat,
                        tail: seq<Coord>): seq<Coord>
    requires g.Valid() && (table.Some? ==> TableFits(g, table.value))
  {
    if n == 0 then tail
    else PlaneScan(g, table, mask, ch, blk, n - 1, 1, SuperLunScan(g, table, mask, ch, blk, n - 1, tail))
  }

  /** The superblocks below block n. */
  function SuperScan(g: Geometry, table: Option<seq<Word>>, mask: Word, ch: nat, n: nat): seq<Coord>
    requires g.Valid() && (table.Some? ==> TableFits(g, table.value))
  {
    if n <= Normal(g) then []
    else SuperLunScan(g, table, mask, ch, n - 1, g.luns, SuperScan(g, table, mask, ch, n - 1))
  }

  function Blks(cs: seq<Coord>): (s: seq<Blk>)
    ensures |s| == |cs|
    ensures forall i :: 0 <= i < |s| ==> s[i] == Blk(PpaOf(cs[i]), 0)
  {
    seq(|cs|, i requires 0 <= i < |cs| => Blk(PpaOf(cs[i]), 0))
  }

  ghost predicate Distinct<T>(s: seq<T>) {
    forall i, j :: 0 <= i < j < |s| ==> s[i] != s[j]
  }

  lemma {:induction false} PlaneScanFacts(g: Geometry, table: Option<seq<Word>>, mask: Word, ch: nat, blk: nat,
                                          lun: nat, n: nat, tail: seq<Coord>)
    requires g.Valid() && (table.Some? ==> TableFits(g, table.value))
    requires Distinct(tail) && forall c :: c in tail ==> c.blk != blk || c.lun != lun
    ensures var s := PlaneScan(g, table, mask, ch, blk, lun, n, tail);
            Distinct(s) && forall c :: c in s <==>
              c in tail || (Usable(g, table, mask, c) && c.ch == ch && c.blk == blk && c.lun == lun && c.pl < n)
  {
    if n > 0 {
      PlaneScanFacts(g, table, mask, ch, blk, lun, n - 1, tail);
    }
  }

  lemma {:induction false} LunScanFacts(g: Geometry, table: Option<seq<Word>>, mask: Word, ch: nat, blk: nat,
                                        n: nat, tail: seq<Coord>)
    requires g.Valid() && (table.Some? ==> TableFits(g, table.value))
    requires Distinct(tail) && forall c :: c in tail ==> c.blk != blk
    ensures var s := LunScan(g, table, mask, ch, blk, n, tail);
            Distinct(s) && forall c :: c in s <==>
              c in tail || (Usable(g, table, mask, c) && c.ch == ch && c.blk == blk && c.lun < n)
  {
    if n > 0 {
      LunScanFacts(g, table, mask, ch, blk, n - 1, tail);
      PlaneScanFacts(g, table, mask, ch, blk, n - 1, g.planes, LunScan(g, table, mask, ch, blk, n - 1, tail));
    }
  }

  /** The scan finds exactly the good blocks of the channel, each once. */
  lemma {:induction false} BlockScanFacts(g: Geometry, table: Option<seq<Word>>, mask: Word, ch: nat, n: nat)
    requires g.Valid() && (table.Some? ==> TableFits(g, table.value))
    ensures var s := BlockScan(g, table, mask, ch, n);
            Distinct(s) && forall c :: c in s <==> Usable(g, table, mask, c) && c.ch == ch && c.blk < n
  {
    hide IsGoodPpa;
    if n > 0 {
      BlockScanFacts(g, table, mask, ch, n - 1);
      LunScanFacts(g, table, mask, ch, n - 1, g.luns, BlockScan(g, table, mask, ch, n - 1));
    }
  }

  lemma {:induction false} SuperLunScanFacts(g: Geometry, table: Option<seq<Word>>, mask: Word, ch: nat, blk: nat,
                                             n: nat, tail: seq<Coord>)
    requires g.Valid() && (table.Some? ==> TableFits(g, table.value))
    requires Distinct(tail) && forall c :: c in tail ==> c.blk != blk
    ensures var s := SuperLunScan(g, table, mask, ch, blk, n, tail);
            Distinct(s) && forall c :: c in s <==>
              c in tail || (Usable(g, table, mask, c) && c.ch == ch && c.blk == blk && c.lun < n && c.pl == 0)
  {
    if n > 0 {
      SuperLunScanFacts(g, table, mask, ch, blk, n - 1, tail);
      PlaneScanFacts(g, table, mask, ch, blk, n - 1, 1, SuperLunScan(g, table, mask, ch, blk, n - 1, tail));
    }
  }

  /** The second scan finds exactly the good superblocks, each once. */
  lemma {:induction false} SuperScanFacts(g: Geometry, table: Option<seq<Word>>, mask: Word, ch: nat, n: nat)
    requires g.Valid() && (table.Some? ==> TableFits(g, table.value))
    ensures var s := SuperScan(g, table, mask, ch, n);
            Distinct(s) && forall c :: c in s <==>
              Usable(g, table, mask, c) && c.ch == ch && Normal(g) <= c.blk < n && c.pl == 0
  {
    hide IsGoodPpa;
    if n > Normal(g) {
      SuperScanFacts(g, table, mask, ch, n - 1);
      SuperLunScanFacts(g, table, mask, ch, n - 1, g.luns, SuperScan(g, table, mask, ch, n - 1));
    }
  }

  // ---------- how many blocks there can be ----------

  lemma {:induction false} PlaneScanSize(g: Geometry, table: Option<seq<Word>>, mask: Word, ch: nat, blk: nat,
                                         lun: nat, n: nat, tail: seq<Coord>)
    requires g.Valid() && (table.Some? ==> TableFits(g, table.value))
    ensures |PlaneScan(g, table, mask, ch, blk, lun, n, tail)| <= |tail| + n
  {
    if n > 0 {
      PlaneScanSize(g, table, mask, ch, blk, lun, n - 1, tail);
    }
  }

  lemma {:induction false} LunScanSize(g: Geometry, table: Option<seq<Word>>, mask: Word, ch: nat, blk: nat,
                                       n: nat, tail: seq<Coord>)
    requires g.Valid() && (table.Some? ==> TableFits(g, table.value))
    ensures |LunScan(g, table, mask, ch, blk, n, tail)| <= |tail| + n * g.planes
    ensures |SuperLunScan(g, table, mask, ch, blk, n, tail)| <= |tail| + n * g.planes
  {
    if n > 0 {
      LunScanSize(g, table, mask, ch, blk, n - 1, tail);
      PlaneScanSize(g, table, mask, ch, blk, n - 1, g.planes, LunScan(g, table, mask, ch, blk, n - 1, tail));
      PlaneScanSize(g, table, mask, ch, blk, n - 1, 1, SuperLunScan(g, table, mask, ch, blk, n - 1, tail));
      assert n * g.planes == (n - 1) * g.planes + g.planes;
    }
  }

  lemma {:induction false} BlockScanSize(g: Geometry, table: Option<seq<Word>>, mask: Word, ch: nat, n: nat)
    requires g.Valid() && (table.Some? ==> TableFits(g, table.value))
    ensures |BlockScan(g, table, mask, ch, n)| <= n * (g.luns * g.planes)
  {
    if n > 0 {
      BlockScanSize(g, table, mask, ch, n - 1);
      LunScanSize(g, table, mask, ch, n - 1, g.luns, BlockScan(g, table, mask, ch, n - 1));
      assert n * (g.luns * g.planes) == (n - 1) * (g.luns * g.planes) + g.luns * g.planes;
    }
  }

  lemma {:induction false} SuperScanSize(g: Geometry, table: Option<seq<Word>>, mask: Word, ch: nat, n: nat)
    requires g.Valid() && (table.Some? ==> TableFits(g, table.value))
    ensures n >= Normal(g) ==>
              |SuperScan(g, table, mask, ch, n)| <= n * (g.luns * g.planes) - Normal(g) * (g.luns * g.planes)
  {
    if n > Normal(g) {
      SuperScanSize(g, table, mask, ch, n - 1);
      LunScanSize(g, table, mask, ch, n - 1, g.luns, SuperScan(g, table, mask, ch, n - 1));
      assert n * (g.luns * g.planes) == (n - 1) * (g.luns * g.planes) + g.luns * g.planes;
    }
  }

  /** The LBAs of one channel (CHL_BLK_NUM). */
  function ChannelBlocks(g: Geometry): nat {
    g.blocks * (g.luns * g.planes)
  }

  /** Good normal blocks and superblocks together never exceed the channel's LBAs. */
  lemma BlocksFitLbas(g: Geometry, table: Option<seq<Word>>, mask: Word, ch: nat)
    requires g.Valid() && (table.Some? ==> TableFits(g, table.value))
    ensures |BlockScan(g, table, mask, ch, Normal(g))| + |SuperScan(g, table, mask, ch, g.blocks)| <= ChannelBlocks(g)
  {
    BlockScanSize(g, table, mask, ch, Normal(g));
    SuperScanSize(g, table, mask, ch, g.blocks);
  }

  /** The initial free list: exactly the addresses skip_ppa accepts, each once, unworn. */
  lemma InitialFreeList(g: Geometry, table: Option<seq<Word>>, mask: Word, ch: nat)
    requires g.Valid() && (table.Some? ==> TableFits(g, table.value))
    ensures var free := Blks(BlockScan(g, table, mask, ch, Normal(g)));
            && (forall i, j :: 0 <= i < j < |free| ==> free[i].ppa != free[j].ppa)
            && (forall b :: b in free <==> exists c :: Usable(g, table, mask, c) && c.ch == ch && c.blk < Normal(g)
                                                       && b == Blk(PpaOf(c), 0))
  {
    var cs := BlockScan(g, table, mask, ch, Normal(g));
    var free := Blks(cs);
    BlockScanFacts(g, table, mask, ch, Normal(g));
    forall i, j | 0 <= i < j < |free| ensures free[i].ppa != free[j].ppa {
      assert cs[i] in cs && cs[j] in cs;
      BlockAddressInjective(cs[i], cs[j]);
    }
    forall c | Usable(g, table, mask, c) && c.ch == ch && c.blk < Normal(g) ensures Blk(PpaOf(c), 0) in free {
      var i :| 0 <= i < |cs| && cs[i] == c;
      assert free[i] == Blk(PpaOf(c), 0);
    }
    forall b | b in free
      ensures exists c :: Usable(g, table, mask, c) && c.ch == ch && c.blk < Normal(g) && b == Blk(PpaOf(c), 0)
    {
      var i :| 0 <= i < |free| && free[i] == b;
      assert cs[i] in cs && b == Blk(PpaOf(cs[i]), 0);
    }
  }

  lemma PushFront(c: Coord, cs: seq<Coord>)
    ensures InsertDesc(Blks(cs), Blk(PpaOf(c), 0)) == Blks([c] + cs)
  {
    var s := Blks(cs);
    InsertDescAt(s, Blk(PpaOf(c), 0), 0);
    assert s[..0] + [Blk(PpaOf(c), 0)] + s[0..] == Blks([c] + cs);
  }

  /** A new unworn node for one erased block. */
  method AddNew(list: BlkList, ppa: Ppa)
    requires list.Valid()
    modifies list, list.footprint
    ensures list.Valid() && list.contents == InsertDesc(old(list.contents), Blk(ppa, 0))
    ensures fresh(list.footprint - old(list.footprint))
  {
    var node := new Node(ppa, 0);
    var p := list.AddDesc(node);
  }

  /** One plane: a good block becomes a new list node, a bad one is passed over. */
  method AddPlane(list: BlkList, g: Geometry, table: Option<seq<Word>>, mask: Word, c: Coord, ghost tail: seq<Coord>)
    returns (added: nat)
    requires g.Valid() && (table.Some? ==> TableFits(g, table.value))
    requires list.Valid() && list.contents == Blks(PlaneScan(g, table, mask, c.ch, c.blk, c.lun, c.pl, tail))
    modifies list, list.footprint
    ensures list.Valid()
    ensures list.contents == Blks(PlaneScan(g, table, mask, c.ch, c.blk, c.lun, c.pl + 1, tail))
    ensures fresh(list.footprint - old(list.footprint)) && |list.contents| == |old(list.contents)| + added
  {
    if Usable(g, table, mask, c) {
      AddNew(list, PpaOf(c));
      PushFront(c, PlaneScan(g, table, mask, c.ch, c.blk, c.lun, c.pl, tail));
      return 1;
    }
    return 0;
  }

  /** The plane loop of one (block, LUN). */
  method AddPlanes(list: BlkList, g: Geometry, table: Option<seq<Word>>, mask: Word, ch: nat, blk: nat, lun: nat,
                   planes: nat, ghost tail: seq<Coord>)
    returns (added: nat)
    requires g.Valid() && (table.Some? ==> TableFits(g, table.value))
    requires list.Valid() && list.contents == Blks(tail)
    modifies list, list.footprint
    ensures list.Valid() && list.contents == Blks(PlaneScan(g, table, mask, ch, blk, lun, planes, tail))
    ensures fresh(list.footprint - old(list.footprint)) && |list.contents| == |old(list.contents)| + added
  {
    hide BlkList.Valid;
    added := 0;
    for pl := 0 to planes
      invariant list.Valid() && list.contents == Blks(PlaneScan(g, table, mask, ch, blk, lun, pl, tail))
      invariant fresh(list.footprint - old(list.footprint)) && |list.contents| == |old(list.contents)| + added
    {
      var n := AddPlane(list, g, table, mask, Coord(ch, lun, blk, pl), tail);
      added := added + n;
    }
  }

  /** The LUN loop of one normal block. */
  method AddLuns(list: BlkList, g: Geometry, table: Option<seq<Word>>, mask: Word, ch: nat, blk: nat,
                   ghost tail: seq<Coord>)
    returns (added: nat)
    requires g.Valid() && (table.Some? ==> TableFits(g, table.value))
    requires list.Valid() && list.contents == Blks(tail)
    modifies list, list.footprint
    ensures list.Valid() && list.contents == Blks(LunScan(g, table, mask, ch, blk, g.luns, tail))
    ensures fresh(list.footprint - old(list.footprint)) && |list.contents| == |old(list.contents)| + added
  {
    hide BlkList.Valid;
    added := 0;
    for lun := 0 to g.luns
      invariant list.Valid() && list.contents == Blks(LunScan(g, table, mask, ch, blk, lun, tail))
      invariant fresh(list.footprint - old(list.footprint)) && |list.contents| == |old(list.contents)| + added
    {
      var n := AddPlanes(list, g, table, mask, ch, blk, lun, g.planes, LunScan(g, table, mask, ch, blk, lun, tail));
      added := added + n;
    }
  }

  /** The LUN loop of one superblock: one node each. */
  method AddSuperLuns(list: BlkList, g: Geometry, table: Option<seq<Word>>, mask: Word, ch: nat, blk: nat,
                   ghost tail: seq<Coord>)
    returns (added: nat)
    requires g.Valid() && (table.Some? ==> TableFits(g, table.value))
    requires list.Valid() && list.contents == Blks(tail)
    modifies list, list.footprint
    ensures list.Valid() && list.contents == Blks(SuperLunScan(g, table, mask, ch, blk, g.luns, tail))
    ensures fresh(list.footprint - old(list.footprint)) && |list.contents| == |old(list.contents)| + added
  {
    hide BlkList.Valid;
    added := 0;
    for lun := 0 to g.luns
      invariant list.Valid() && list.contents == Blks(SuperLunScan(g, table, mask, ch, blk, lun, tail))
      invariant fresh(list.footprint - old(list.footprint)) && |list.contents| == |old(list.contents)| + added
    {
      var n := AddPlanes(list, g, table, mask, ch, blk, lun, 1, SuperLunScan(g, table, mask, ch, blk, lun, tail));
      added := added + n;
    }
  }

  /** The set-up scan of the normal blocks of one channel onto an empty list. */
  method BuildFreeList(list: BlkList, g: Geometry, table: Option<seq<Word>>, mask: Word, ch: nat)
    returns (added: nat)
    requires g.Valid() && (table.Some? ==> TableFits(g, table.value))
    requires list.Valid() && list.contents == [] && list.footprint == {}
    modifies list
    ensures list.Valid() && list.contents == Blks(BlockScan(g, table, mask, ch, Normal(g)))
    ensures fresh(list.footprint) && added == |list.contents|
  {
    hide BlkList.Valid;
    added := 0;
    for blk := 0 to Normal(g)
      invariant list.Valid() && list.contents == Blks(BlockScan(g, table, mask, ch, blk))
      invariant fresh(list.footprint) && added == |list.contents|
    {
      var n := AddLuns(list, g, table, mask, ch, blk, BlockScan(g, table, mask, ch, blk));
      added := added + n;
    }
  }

  /** The second scan, over the reserved blocks, onto an empty superblock list. */
  method BuildSuperList(list: BlkList, g: Geometry, table: Option<seq<Word>>, mask: Word, ch: nat)
    returns (added: nat)
    requires g.Valid() && (table.Some? ==> TableFits(g, table.value))
    requires list.Valid() && list.contents == [] && list.footprint == {}
    modifies list
    ensures list.Valid() && list.contents == Blks(SuperScan(g, table, mask, ch, g.blocks))
    ensures fresh(list.footprint) && added == |list.contents|
  {
    hide BlkList.Valid;
    added := 0;
    for blk := Normal(g) to g.blocks
      invariant list.Valid() && list.contents == Blks(SuperScan(g, table, mask, ch, blk))
      invariant fresh(list.footprint) && added == |list.contents|
    {
      var n := AddSuperLuns(list, g, table, mask, ch, blk, SuperScan(g, table, mask, ch, blk));
      added := added + n;
    }
  }
}
