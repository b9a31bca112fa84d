/** The bad-block table of vssd_code/parser_nexus.c: its readers (363-442), the
    multi-level bulk erase (444-501) and the scanner that fills it (4203-4327). */
module BadBlocks {
  import opened Options
  import opened Ppas

  const CHANNELS: nat := 16

  /** A 16-bit channel word, as the set of its one-bits. The code only tests `1 << ch`,
      ORs it in and compares a word with zero. */
  type Word = set<nat>

  /** The geometry constants of a header that is not part of this model. */
  datatype Geometry = Geometry(blocks: nat, luns: nat, planes: nat) {
    predicate Valid() {
      0 < blocks <= MAX_BLOCKS && 0 < luns <= 4 && 0 < planes <= 4
    }

    predicate Has(c: Coord) {
      c.ch < CHANNELS && c.lun < luns && c.blk < blocks && c.pl < planes
    }

    /** Rows are stored from the last block down. */
    function Word(blk: nat, lun: nat): int {
      (blocks - 1 - blk) * luns + lun
    }
  }

  /** Words of distinct (block, LUN) pairs are distinct and inside the table. */
  lemma WordInTable(g: Geometry, blk: nat, lun: nat)
    requires g.Valid() && blk < g.blocks && lun < g.luns
    ensures 0 <= g.Word(blk, lun) < g.blocks * g.luns
  {
    var row := g.blocks - 1 - blk;
    assert row * g.luns <= (g.blocks - 1) * g.luns;
  }

  lemma MulStep(a: nat, b: nat, k: nat)
    requires a < b
    ensures a * k + k <= b * k
  {
    assert (a + 1) * k <= b * k;
  }

  lemma WordInjective(g: Geometry, blk: nat, lun: nat, blk': nat, lun': nat)
    requires g.Valid() && blk < g.blocks && lun < g.luns && blk' < g.blocks && lun' < g.luns
    requires g.Word(blk, lun) == g.Word(blk', lun')
    ensures blk == blk' && lun == lun'
  {
    var row := g.blocks - 1 - blk;
    var row' := g.blocks - 1 - blk';
    if row < row' {
      MulStep(row, row', g.luns);
    } else if row' < row {
      MulStep(row', row, g.luns);
    }
  }

  predicate TableFits(g: Geometry, table: seq<Word>) {
    && |table| == g.blocks * g.luns
    && forall i :: 0 <= i < |table| ==> forall ch :: ch in table[i] ==> ch < CHANNELS
  }

  function WordAt(g: Geometry, table: seq<Word>, blk: nat, lun: nat): Word
    requires g.Valid() && TableFits(g, table) && blk < g.blocks && lun < g.luns
  {
    WordInTable(g, blk, lun);
    table[g.Word(blk, lun)]
  }

  // ---------- the readers: skip_maskchannel, is_perfect_lun, skip_badblk, skip_ppa;
  // ---------- true stands for GOOD_PPA

  predicate MaskAllows(ch: nat, mask: Word)
  {
    ch in mask
  }

  predicate IsPerfectLun(g: Geometry, table: Option<seq<Word>>, blk: nat, lun: nat)
    requires g.Valid() && blk < g.blocks && lun < g.luns
    requires table.Some? ==> TableFits(g, table.value)
  {
    table.Some? ==> WordAt(g, table.value, blk, lun) == {}
  }

  predicate NotMarkedBad(g: Geometry, table: Option<seq<Word>>, c: Coord)
    requires g.Valid() && g.Has(c)
    requires table.Some? ==> TableFits(g, table.value)
  {
    table.Some? ==> c.ch !in WordAt(g, table.value, c.blk, c.lun)
  }

  predicate IsGoodPpa(g: Geometry, table: Option<seq<Word>>, mask: Word, c: Coord)
    requires g.Valid() && g.Has(c)
    requires table.Some? ==> TableFits(g, table.value)
  {
    NotMarkedBad(g, table, c) && MaskAllows(c.ch, mask)
  }

  /** A LUN is perfect if and only if no channel is marked for it. */
  lemma PerfectLunIsAllGood(g: Geometry, table: Option<seq<Word>>, blk: nat, lun: nat)
    requires g.Valid() && blk < g.blocks && lun < g.luns
    requires table.Some? ==> TableFits(g, table.value)
    ensures IsPerfectLun(g, table, blk, lun)
       <==> forall ch: nat :: ch < CHANNELS ==> NotMarkedBad(g, table, Coord(ch, lun, blk, 0))
  {
    if table.Some? {
      WordInTable(g, blk, lun);
      var w := WordAt(g, table.value, blk, lun);
      assert forall ch: nat :: ch < CHANNELS ==> (NotMarkedBad(g, table, Coord(ch, lun, blk, 0)) <==> ch !in w);
      if w != {} {
        var ch :| ch in w;
        assert !NotMarkedBad(g, table, Coord(ch, lun, blk, 0));
      }
    }
  }

  // ---------- bulk erase ----------

  /** The order in which one erase command steps through its PPA list: channel first,
      then plane, then LUN. */
  function Flat(g: Geometry, c: Coord): int {
    (c.lun * g.planes + c.pl) * CHANNELS + c.ch
  }

  /** The blocks a command starting at c with nlb + 1 PPAs erases. */
  ghost function Covered(g: Geometry, c: Coord, nlb: nat): set<Coord> {
    set ch: nat, lun: nat, pl: nat |
      ch < CHANNELS && lun < g.luns && pl < g.planes
      && Flat(g, c) <= Flat(g, Coord(ch, lun, c.blk, pl)) <= Flat(g, c) + nlb :: Coord(ch, lun, c.blk, pl)
  }

  lemma FlatOrder(g: Geometry, c: Coord, d: Coord)
    requires g.Valid() && g.Has(c) && g.Has(d)
    ensures c.lun < d.lun ==> Flat(g, c) < Flat(g, d)
    ensures c.lun == d.lun && c.pl < d.pl ==> Flat(g, c) < Flat(g, d)
    ensures c.lun == d.lun && c.pl == d.pl ==> Flat(g, d) - Flat(g, c) == d.ch - c.ch
  {
    if c.lun < d.lun {
      MulStep(c.lun, d.lun, g.planes);
    }
  }

  /** A single-PPA command erases one block ... */
  lemma CoversOne(g: Geometry, c: Coord)
    requires g.Valid() && g.Has(c)
    ensures Covered(g, c, 0) == {c}
  {
    forall d | d in Covered(g, c, 0) ensures d == c {
      FlatOrder(g, c, d);
      FlatOrder(g, d, c);
    }
    assert c == Coord(c.ch, c.lun, c.blk, c.pl);
  }

  /** ... one over all planes and channels exactly one LUN ... */
  lemma CoversLun(g: Geometry, blk: nat, lun: nat, d: Coord)
    requires g.Valid() && blk < g.blocks && lun < g.luns
    ensures d in Covered(g, Coord(0, lun, blk, 0), g.planes * CHANNELS - 1)
       <==> g.Has(d) && d.blk == blk && d.lun == lun
  {
    if g.Has(d) && d.blk == blk {
      assert d == Coord(d.ch, d.lun, blk, d.pl);
      if d.lun < lun {
        FlatOrder(g, d, Coord(0, lun, blk, 0));
      } else if d.lun > lun {
        MulStep(lun, d.lun, g.planes);
      }
    }
  }

  /** ... and one over all LUNs the whole block. */
  lemma CoversBlock(g: Geometry, blk: nat, d: Coord)
    requires g.Valid() && blk < g.blocks
    ensures d in Covered(g, Coord(0, 0, blk, 0), g.luns * g.planes * CHANNELS - 1)
       <==> g.Has(d) && d.blk == blk
  {
    if g.Has(d) && d.blk == blk {
      assert d == Coord(d.ch, d.lun, blk, d.pl);
      MulStep(d.lun, g.luns, g.planes);
    }
  }

  /** What the simple loop, one PPA at a time behind skip_ppa, would erase. */
  ghost predicate Wanted(g: Geometry, table: Option<seq<Word>>, mask: Word, blk: nat, c: Coord)
    requires g.Valid()
    requires table.Some? ==> TableFits(g, table.value)
  {
    g.Has(c) && c.blk == blk && IsGoodPpa(g, table, mask, c)
  }

  /** What the helper erases: perfect LUNs whole, whatever the channel mask says. */
  ghost predicate Bulk(g: Geometry, table: Option<seq<Word>>, mask: Word, blk: nat, c: Coord)
    requires g.Valid()
    requires table.Some? ==> TableFits(g, table.value)
  {
    g.Has(c) && c.blk == blk && (IsPerfectLun(g, table, blk, c.lun) || IsGoodPpa(g, table, mask, c))
  }

  /** The exact condition: the bulk erase erases just what the simple loop would, if
      and only if the mask has all channels or the block has no perfect LUN. */
  lemma BulkEraseIsExact(g: Geometry, table: Option<seq<Word>>, mask: Word, blk: nat)
    requires g.Valid() && blk < g.blocks
    requires table.Some? ==> TableFits(g, table.value)
    ensures (forall c :: Bulk(g, table, mask, blk, c) <==> Wanted(g, table, mask, blk, c))
       <==> || (forall ch: nat :: ch < CHANNELS ==> MaskAllows(ch, mask))
            || (forall lun: nat :: lun < g.luns ==> !IsPerfectLun(g, table, blk, lun))
  {
    forall c | Bulk(g, table, mask, blk, c) && IsPerfectLun(g, table, blk, c.lun)
      ensures NotMarkedBad(g, table, c)
    {
      PerfectLunIsAllGood(g, table, blk, c.lun);
      assert NotMarkedBad(g, table, Coord(c.ch, c.lun, blk, 0)) == NotMarkedBad(g, table, c);
    }
    if ch: nat, lun: nat :| ch < CHANNELS && !MaskAllows(ch, mask) && lun < g.luns && IsPerfectLun(g, table, blk, lun) {
      var c := Coord(ch, lun, blk, 0);
      assert Bulk(g, table, mask, blk, c) && !Wanted(g, table, mask, blk, c);
    }
  }

  /** The chip array behind the erase ioctl. */
  class Nand {
    ghost var erased: set<Coord>
    ghost const g: Geometry

    ghost constructor (g: Geometry)
      ensures this.g == g && erased == {}
    {
      this.g := g;
      erased := {};
    }

    /** ersppa_sync: one erase command. */
    method ErsPpaSync(c: Coord, nlb: nat)
      modifies this
      ensures erased == old(erased) + Covered(g, c, nlb)
    {
      erased := erased + Covered(g, c, nlb);
    }

    /** The slow path of one LUN: one command for every good channel and plane. */
    method EraseLunSlow(gm: Geometry, table: Option<seq<Word>>, mask: Word, blk: nat, lun: nat)
      requires gm == g && g.Valid() && blk < g.blocks && lun < g.luns
      requires table.Some? ==> TableFits(g, table.value)
      modifies this
      ensures forall c :: c in erased <==> c in old(erased) || (c.lun == lun && Wanted(g, table, mask, blk, c))
    {
      for ch := 0 to CHANNELS
        invariant forall c :: c in erased <==>
                    c in old(erased) || (c.lun == lun && c.ch < ch && Wanted(g, table, mask, blk, c))
      {
        var ppa := Coord(ch, lun, blk, 0);
        if IsGoodPpa(gm, table, mask, ppa) {
          ghost var before := erased;
          for pl := 0 to gm.planes
            invariant forall c :: c in erased <==>
                        c in before || (c.lun == lun && c.ch == ch && c.blk == blk && c.pl < pl)
          {
            CoversOne(g, Coord(ch, lun, blk, pl));
            ErsPpaSync(Coord(ch, lun, blk, pl), 0);
          }
        }
      }
    }

    /** erase_raidblock_helper. */
    method EraseRaidBlock(gm: Geometry, table: Option<seq<Word>>, mask: Word, blk: nat)
      requires gm == g && g.Valid() && blk < g.blocks
      requires table.Some? ==> TableFits(g, table.value)
      modifies this
      ensures forall c :: c in erased <==> c in old(erased) || Bulk(g, table, mask, blk, c)
    {
      var perfectBlock := true;
      var lun := 0;
      if table.Some? {
        while lun < gm.luns && perfectBlock
          invariant lun <= g.luns
          invariant perfectBlock <==> forall l: nat :: l < lun ==> IsPerfectLun(g, table, blk, l)
        {
          perfectBlock := IsPerfectLun(gm, table, blk, lun);
          lun := lun + 1;
        }
      }
      if table.None? || perfectBlock {
        forall c { CoversBlock(g, blk, c); }
        ErsPpaSync(Coord(0, 0, blk, 0), gm.luns * gm.planes * CHANNELS - 1);
        return;
      }
      for l := 0 to gm.luns
        invariant forall c :: c in erased <==> c in old(erased) || (c.lun < l && Bulk(g, table, mask, blk, c))
      {
        if IsPerfectLun(gm, table, blk, l) {
          forall c { CoversLun(g, blk, l, c); }
          ErsPpaSync(Coord(0, l, blk, 0), gm.planes * CHANNELS - 1);
        } else {
          EraseLunSlow(gm, table, mask, blk, l);
        }
      }
    }
  }

  // ---------- the scanner ----------

  datatype Flash = Toshiba | Micron

  /** One raw read of the byte the vendor marks, None when the device call fails:
      block, page and EP. */
  type RawRead = (Coord, nat, nat) -> Option<bv8>

  datatype Status = Good | Bad | Broken

  function ByteStatus(b: Option<bv8>): Status {
    if b.None? then Broken else if b.value != 0xFF then Bad else Good
  }

  /** The probe of one plane: it stops at the first byte that is not 0xFF. */
  function Probe(flash: Flash, read: RawRead, c: Coord): Status {
    match flash
    case Micron => ByteStatus(read(c, 0, 3))
    case Toshiba =>
      if ByteStatus(read(c, 0, 0)) != Good then ByteStatus(read(c, 0, 0))
      else if ByteStatus(read(c, 0, 3)) != Good then ByteStatus(read(c, 0, 3))
      else if ByteStatus(read(c, 255, 0)) != Good then ByteStatus(read(c, 255, 0))
      else ByteStatus(read(c, 255, 3))
  }

  /** The bytes the vendor marks, as (page, EP), in the order the scanner reads them. */
  function Markers(flash: Flash): seq<(nat, nat)> {
    match flash
    case Toshiba => [(0, 0), (0, 3), (255, 0), (255, 3)]
    case Micron => [(0, 3)]
  }

  /** Marker i of a plane is the first that does not read 0xFF. */
  ghost predicate StopsAt(flash: Flash, read: RawRead, c: Coord, i: nat) {
    && i < |Markers(flash)| && read(c, Markers(flash)[i].0, Markers(flash)[i].1) != Some(0xFF)
    && forall j :: 0 <= j < i ==> read(c, Markers(flash)[j].0, Markers(flash)[j].1) == Some(0xFF)
  }

  /** The first marker that is not 0xFF reads as another byte ... */
  ghost predicate MarkedBad(flash: Flash, read: RawRead, c: Coord) {
    exists i: nat :: StopsAt(flash, read, c, i) && read(c, Markers(flash)[i].0, Markers(flash)[i].1).Some?
  }

  /** ... or cannot be read. */
  ghost predicate Unreadable(flash: Flash, read: RawRead, c: Coord) {
    exists i: nat :: StopsAt(flash, read, c, i) && read(c, Markers(flash)[i].0, Markers(flash)[i].1).None?
  }

  /** The probe stops at the first marker that is not 0xFF and answers what it found there. */
  lemma ProbeStops(flash: Flash, read: RawRead, c: Coord, i: nat)
    requires StopsAt(flash, read, c, i)
    ensures Probe(flash, read, c)
         == if read(c, Markers(flash)[i].0, Markers(flash)[i].1).Some? then Bad else Broken
  {
    assert i == 0 || i == 1 || i == 2 || i == 3;
    assert i > 0 ==> read(c, Markers(flash)[0].0, Markers(flash)[0].1) == Some(0xFF);
    assert i > 1 ==> read(c, Markers(flash)[1].0, Markers(flash)[1].1) == Some(0xFF);
    assert i > 2 ==> read(c, Markers(flash)[2].0, Markers(flash)[2].1) == Some(0xFF);
  }

  lemma ProbePasses(flash: Flash, read: RawRead, c: Coord)
    requires Probe(flash, read, c) != Good
    ensures exists i: nat :: StopsAt(flash, read, c, i)
  {
    if StopsAt(flash, read, c, 0) || StopsAt(flash, read, c, 1) || StopsAt(flash, read, c, 2) {
    } else {
      assert StopsAt(flash, read, c, 3);
    }
  }

  lemma ProbeReadsMarkers(flash: Flash, read: RawRead, c: Coord)
    ensures Probe(flash, read, c) == Bad <==> MarkedBad(flash, read, c)
    ensures Probe(flash, read, c) == Broken <==> Unreadable(flash, read, c)
  {
    forall i: nat | StopsAt(flash, read, c, i)
      ensures Probe(flash, read, c)
           == if read(c, Markers(flash)[i].0, Markers(flash)[i].1).Some? then Bad else Broken
    {
      ProbeStops(flash, read, c, i);
    }
    if Probe(flash, read, c) != Good {
      ProbePasses(flash, read, c);
    }
    hide Probe;
    hide StopsAt;
  }

  /** Some plane of the block is marked bad on the channel. */
  ghost predicate HasBadPlane(g: Geometry, flash: Flash, read: RawRead, ch: nat, lun: nat, blk: nat) {
    exists pl: nat :: pl < g.planes && MarkedBad(flash, read, Coord(ch, lun, blk, pl))
  }

  ghost predicate HasUnreadablePlane(g: Geometry, flash: Flash, read: RawRead, ch: nat, lun: nat, blk: nat) {
    exists pl: nat :: pl < g.planes && Unreadable(flash, read, Coord(ch, lun, blk, pl))
  }

  /** The word of one (block, LUN): exactly the scanned channels with a bad plane. */
  ghost predicate WordOk(g: Geometry, flash: Flash, read: RawRead, mask: Word, blk: nat, lun: nat, word: Word) {
    forall ch: nat {:trigger ch in word} ::
      (ch in word <==> ch < CHANNELS && MaskAllows(ch, mask) && HasBadPlane(g, flash, read, ch, lun, blk))
  }

  ghost predicate WordReadable(g: Geometry, flash: Flash, read: RawRead, mask: Word, blk: nat, lun: nat) {
    forall ch: nat :: ch < CHANNELS && MaskAllows(ch, mask) ==>
      !HasUnreadablePlane(g, flash, read, ch, lun, blk)
  }

  /** The plane loop of one channel. */
  method ScanChannel(g: Geometry, flash: Flash, read: RawRead, ch: nat, lun: nat, blk: nat, word: Word)
    returns (ok: bool, word': Word)
    requires ch < CHANNELS
    ensures ok <==> !HasUnreadablePlane(g, flash, read, ch, lun, blk)
    ensures ok ==> word' == if HasBadPlane(g, flash, read, ch, lun, blk) then word + {ch} else word
  {
    word' := word;
    for pl := 0 to g.planes
      invariant forall p: nat :: p < pl ==> !Unreadable(flash, read, Coord(ch, lun, blk, p))
      invariant word' == if exists p: nat :: p < pl && MarkedBad(flash, read, Coord(ch, lun, blk, p))
                         then word + {ch} else word
    {
      ProbeReadsMarkers(flash, read, Coord(ch, lun, blk, pl));
      var status := Probe(flash, read, Coord(ch, lun, blk, pl));
      if status == Broken {
        return false, word';
      }
      if status == Bad {
        word' := word' + {ch};
      }
    }
    return true, word';
  }

  /** The channel loop of one (block, LUN). */
  method ScanWord(g: Geometry, flash: Flash, read: RawRead, mask: Word, blk: nat, lun: nat)
    returns (ok: bool, word: Word)
    ensures ok <==> WordReadable(g, flash, read, mask, blk, lun)
    ensures ok ==> WordOk(g, flash, read, mask, blk, lun, word)
  {
    word := {};
    for ch := 0 to CHANNELS
      invariant forall d: nat :: d < ch && MaskAllows(d, mask) ==>
                  !HasUnreadablePlane(g, flash, read, d, lun, blk)
      invariant forall d: nat {:trigger d in word} ::
                  (d in word <==> d < ch && MaskAllows(d, mask) && HasBadPlane(g, flash, read, d, lun, blk))
    {
      if MaskAllows(ch, mask) {
        ok, word := ScanChannel(g, flash, read, ch, lun, blk, word);
        if !ok {
          return;
        }
      }
    }
    ok := true;
  }

  ghost predicate RowsOk(g: Geometry, flash: Flash, read: RawRead, mask: Word, table: seq<Word>, from: nat)
    requires g.Valid() && TableFits(g, table)
  {
    forall blk: nat, lun: nat :: from <= blk < g.blocks && lun < g.luns ==>
      WordOk(g, flash, read, mask, blk, lun, WordAt(g, table, blk, lun))
  }

  ghost predicate BlockReadable(g: Geometry, flash: Flash, read: RawRead, mask: Word, blk: nat) {
    forall lun: nat :: lun < g.luns ==> WordReadable(g, flash, read, mask, blk, lun)
  }

  function Store(g: Geometry, table: seq<Word>, blk: nat, lun: nat, word: Word): (r: seq<Word>)
    requires g.Valid() && TableFits(g, table) && blk < g.blocks && lun < g.luns
    requires forall ch :: ch in word ==> ch < CHANNELS
    ensures TableFits(g, r)
  {
    WordInTable(g, blk, lun);
    table[g.Word(blk, lun) := word]
  }

  lemma StoredWord(g: Geometry, table: seq<Word>, blk: nat, lun: nat, word: Word, b: nat, l: nat)
    requires g.Valid() && TableFits(g, table) && blk < g.blocks && lun < g.luns && b < g.blocks && l < g.luns
    requires forall ch :: ch in word ==> ch < CHANNELS
    ensures WordAt(g, Store(g, table, blk, lun, word), b, l)
         == (if b == blk && l == lun then word else WordAt(g, table, b, l))
  {
    WordInTable(g, blk, lun);
    WordInTable(g, b, l);
    if g.Word(b, l) == g.Word(blk, lun) {
      WordInjective(g, b, l, blk, lun);
    }
  }

  /** The LUN loop of one block. */
  method ScanBlock(g: Geometry, flash: Flash, read: RawRead, mask: Word, blk: nat, table: seq<Word>)
    returns (ok: bool, table': seq<Word>)
    requires g.Valid() && TableFits(g, table) && blk < g.blocks
    ensures TableFits(g, table')
    ensures ok <==> BlockReadable(g, flash, read, mask, blk)
    ensures forall b: nat, l: nat :: b < g.blocks && l < g.luns && b != blk ==>
              WordAt(g, table', b, l) == WordAt(g, table, b, l)
    ensures ok ==> forall l: nat :: l < g.luns ==> WordOk(g, flash, read, mask, blk, l, WordAt(g, table', blk, l))
  {
    table' := table;
    for lun := 0 to g.luns
      invariant TableFits(g, table')
      invariant forall l: nat :: l < lun ==> WordReadable(g, flash, read, mask, blk, l)
      invariant forall b: nat, l: nat :: b < g.blocks && l < g.luns && b != blk ==>
                  WordAt(g, table', b, l) == WordAt(g, table, b, l)
      invariant forall l: nat :: l < lun ==> WordOk(g, flash, read, mask, blk, l, WordAt(g, table', blk, l))
    {
      var word;
      ok, word := ScanWord(g, flash, read, mask, blk, lun);
      if !ok {
        return;
      }
      forall b: nat, l: nat | b < g.blocks && l < g.luns
        ensures WordAt(g, Store(g, table', blk, lun, word), b, l)
             == (if b == blk && l == lun then word else WordAt(g, table', b, l))
      {
        StoredWord(g, table', blk, lun, word, b, l);
      }
      table' := Store(g, table', blk, lun, word);
    }
    ok := true;
  }

  /** Rows go from the last block down, LUN by LUN, and a word has a channel if and only if
      the channel is scanned and a plane of the block is marked bad there. */
  ghost predicate TellsOf(g: Geometry, flash: Flash, read: RawRead, mask: Word, table: seq<Word>,
                          blk: nat, lun: nat, ch: nat) {
    var i := (g.blocks - 1 - blk) * g.luns + lun;
    0 <= i < |table| && (ch in table[i] <==> ch < 16 && ch in mask && HasBadPlane(g, flash, read, ch, lun, blk))
  }

  ghost predicate Tells(g: Geometry, flash: Flash, read: RawRead, mask: Word, table: seq<Word>) {
    && |table| == g.blocks * g.luns
    && forall blk: nat, lun: nat, ch: nat ::
         blk < g.blocks && lun < g.luns ==> TellsOf(g, flash, read, mask, table, blk, lun, ch)
  }

  /** A table whose words agree with the probes tells the marked blocks. */
  lemma ScannedTableTells(g: Geometry, flash: Flash, read: RawRead, mask: Word, table: seq<Word>)
    requires g.Valid() && TableFits(g, table) && RowsOk(g, flash, read, mask, table, 0)
    ensures Tells(g, flash, read, mask, table)
  {
    hide HasBadPlane;
    forall blk: nat, lun: nat, ch: nat | blk < g.blocks && lun < g.luns
      ensures TellsOf(g, flash, read, mask, table, blk, lun, ch)
    {
      WordInTable(g, blk, lun);
      assert WordOk(g, flash, read, mask, blk, lun, WordAt(g, table, blk, lun));
    }
  }

  /** The scan of parse_badblock_cmdline: blocks from the last one down. It gives up, and
      writes no table, exactly when on a scanned channel the first marker of a plane that is
      not 0xFF cannot be read. */
  method Scan(g: Geometry, flash: Flash, read: RawRead, mask: Word) returns (r: Option<seq<Word>>)
    requires g.Valid()
    ensures r.Some? <==> forall blk: nat :: blk < g.blocks ==> BlockReadable(g, flash, read, mask, blk)
    ensures r.Some? ==> TableFits(g, r.value) && RowsOk(g, flash, read, mask, r.value, 0)
    ensures r.Some? ==> Tells(g, flash, read, mask, r.value)
  {
    var table := seq(g.blocks * g.luns, _ => {});
    for blk := g.blocks downto 0
      invariant TableFits(g, table) && RowsOk(g, flash, read, mask, table, blk)
      invariant forall b: nat :: blk <= b < g.blocks ==> BlockReadable(g, flash, read, mask, b)
    {
      var ok, table' := ScanBlock(g, flash, read, mask, blk, table);
      if !ok {
        return None;
      }
      table := table';
    }
    ScannedTableTells(g, flash, read, mask, table);
    return Some(table);
  }

  /** Scanner and readers agree: skip_badblk calls a block of a scanned channel bad if
      and only if some plane probe of that block, LUN and channel failed ... */
  lemma ReaderMatchesScan(g: Geometry, flash: Flash, read: RawRead, mask: Word, table: seq<Word>, c: Coord)
    requires g.Valid() && TableFits(g, table) && RowsOk(g, flash, read, mask, table, 0)
    requires g.Has(c) && MaskAllows(c.ch, mask)
    ensures NotMarkedBad(g, Some(table), c) <==> !HasBadPlane(g, flash, read, c.ch, c.lun, c.blk)
  {
    assert WordOk(g, flash, read, mask, c.blk, c.lun, WordAt(g, table, c.blk, c.lun));
  }

  /** ... and a LUN is perfect if and only if no scanned channel failed there. */
  lemma PerfectLunMatchesScan(g: Geometry, flash: Flash, read: RawRead, mask: Word, table: seq<Word>,
                              blk: nat, lun: nat)
    requires g.Valid() && TableFits(g, table) && RowsOk(g, flash, read, mask, table, 0)
    requires blk < g.blocks && lun < g.luns
    ensures IsPerfectLun(g, Some(table), blk, lun)
       <==> forall ch: nat :: ch < CHANNELS && MaskAllows(ch, mask) ==> !HasBadPlane(g, flash, read, ch, lun, blk)
  {
    var w := WordAt(g, table, blk, lun);
    assert WordOk(g, flash, read, mask, blk, lun, w);
    if ch: nat :| ch < CHANNELS && MaskAllows(ch, mask) && HasBadPlane(g, flash, read, ch, lun, blk) {
      assert ch in w;
    }
    if w != {} {
      var ch :| ch in w;
      assert MaskAllows(ch, mask) && HasBadPlane(g, flash, read, ch, lun, blk);
    }
  }

  /** End to end: on a scanned table skip_ppa accepts a block of a scanned channel if and only
      if the mask has the channel and no plane of the block is marked bad there. Without a
      table only the mask counts. */
  lemma SkipPpaReadsMarkers(g: Geometry, flash: Flash, read: RawRead, scanned: Word, table: seq<Word>, mask: Word,
                            c: Coord)
    requires g.Valid() && TableFits(g, table) && Tells(g, flash, read, scanned, table) && g.Has(c)
    ensures c.ch in scanned ==>
              (IsGoodPpa(g, Some(table), mask, c)
               <==> c.ch in mask && !HasBadPlane(g, flash, read, c.ch, c.lun, c.blk))
    ensures c.ch !in scanned ==> (IsGoodPpa(g, Some(table), mask, c) <==> c.ch in mask)
    ensures IsGoodPpa(g, None, mask, c) <==> c.ch in mask
  {
    WordInTable(g, c.blk, c.lun);
    assert TellsOf(g, flash, read, scanned, table, c.blk, c.lun, c.ch);
    hide HasBadPlane;
  }
}
