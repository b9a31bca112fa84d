/** What the tables of the flash translation layer must hold after a sequence of page
    writes (vssd_code/rb_nexus.c:272-287, vssd_code/vssd.c:152-167, 224-231): every entry
    is a function of the write history alone. */
module History {

  const PAGES: nat := 1024
  const SET_PAGES: nat := 128

  // ---------- the write history: h[i] is the address written by write i ----------

  /** Index of the last write to a, -1 if there is none. */
  function Last(h: seq<nat>, a: nat): (i: int)
    ensures -1 <= i < |h|
    ensures 0 <= i ==> h[i] == a
    ensures forall j :: i < j < |h| ==> h[j] != a
  {
    if h == [] then -1
    else if h[|h| - 1] == a then |h| - 1
    else Last(h[..|h| - 1], a)
  }

  /** Write i is still the latest one for its address. */
  predicate Latest(h: seq<nat>, i: nat)
    requires i < |h|
  {
    Last(h, h[i]) == i
  }

  /** Write i has been superseded. */
  predicate Dead(h: seq<nat>, i: int) {
    0 <= i < |h| && !Latest(h, i)
  }

  lemma LastAppend(h: seq<nat>, x: nat, a: nat)
    ensures Last(h + [x], a) == if x == a then |h| else Last(h, a)
  {
    assert (h + [x])[..|h|] == h;
  }

  lemma DeadAppend(h: seq<nat>, x: nat, i: int)
    ensures Dead(h + [x], i) <==> Dead(h, i) || (0 <= i && i == Last(h, x))
  {
    if 0 <= i < |h| {
      LastAppend(h, x, h[i]);
    } else if i == |h| {
      LastAppend(h, x, x);
    }
  }

  /** A superseded write stays superseded: no slot is ever revived. */
  lemma {:induction false} DeadForever(h: seq<nat>, more: seq<nat>, i: int)
    requires Dead(h, i)
    ensures Dead(h + more, i)
  {
    if more == [] {
      assert h + more == h;
    } else {
      var init := more[..|more| - 1];
      DeadForever(h, init, i);
      DeadAppend(h + init, more[|more| - 1], i);
      assert h + more == h + init + [more[|more| - 1]];
    }
  }

  /** The slots the history gives up, in the order in which it does; write i is in slot
      base + i. */
  function GivenUp(h: seq<nat>, base: nat): seq<nat> {
    if h == [] then []
    else
      var before := h[..|h| - 1];
      var i := Last(before, h[|h| - 1]);
      if i < 0 then GivenUp(before, base) else GivenUp(before, base) + [base + i]
  }

  lemma GivenUpAppend(h: seq<nat>, base: nat, a: nat)
    ensures GivenUp(h + [a], base)
         == if Last(h, a) < 0 then GivenUp(h, base) else GivenUp(h, base) + [base + Last(h, a)]
  {
    assert (h + [a])[..|h|] == h;
  }

  lemma NothingDeadYet()
    ensures forall i :: !Dead([], i)
  {
  }

  lemma LastIsAlive(h: seq<nat>, a: nat)
    ensures !Dead(h, Last(h, a))
  {
  }

  /** Each slot is given up at most once, when it still holds the latest write for its
      address, and the slots given up are exactly the superseded ones. */
  lemma {:induction false} GivenUpOnce(h: seq<nat>, base: nat)
    ensures forall s :: s in GivenUp(h, base) <==> base <= s && Dead(h, s - base)
    ensures forall j, k :: 0 <= j < k < |GivenUp(h, base)| ==> GivenUp(h, base)[j] != GivenUp(h, base)[k]
  {
    hide Dead;
    hide Last;
    if h == [] {
      NothingDeadYet();
    } else {
      var before, a := h[..|h| - 1], h[|h| - 1];
      assert h == before + [a];
      GivenUpOnce(before, base);
      GivenUpAppend(before, base, a);
      LastIsAlive(before, a);
      forall i ensures Dead(h, i) <==> Dead(before, i) || (0 <= i && i == Last(before, a)) {
        DeadAppend(before, a, i);
      }
      hide GivenUp;
      var slot := base + Last(before, a);
      assert slot - base == Last(before, a);
      assert slot >= base ==> slot !in GivenUp(before, base);
    }
  }

  // ---------- the tables; write i goes to slot base + i ----------

  /** mapping: the slot of the last write, 0 for an address never written. */
  ghost predicate MapOk(mapping: seq<nat>, h: seq<nat>, base: nat) {
    forall a :: 0 <= a < |mapping| ==> mapping[a] == if Last(h, a) < 0 then 0 else base + Last(h, a)
  }

  /** rev_mapping: the address of a live slot, 0 anywhere else. */
  ghost predicate RevOk(rev: seq<nat>, h: seq<nat>, base: nat) {
    forall s :: 0 <= s < |rev| ==>
      rev[s] == if base <= s < base + |h| && Latest(h, s - base) then h[s - base] else 0
  }

  /** Superseded writes among the n writes from lo on. */
  function DeadIn(h: seq<nat>, lo: int, n: nat): (d: nat)
    ensures d <= n
  {
    if n == 0 then 0 else DeadIn(h, lo, n - 1) + (if Dead(h, lo + n - 1) then 1 else 0)
  }

  /** The first of the writes that go to block b. */
  function First(prep: nat, b: nat): int {
    (b - prep) * PAGES
  }

  /** valid_pages_v of every block opened so far: 1024 less the superseded writes. */
  ghost predicate ValidOk(valid: seq<nat>, h: seq<nat>, prep: nat, top: nat) {
    forall b :: prep <= b <= top && b < |valid| ==>
      valid[b] == PAGES - DeadIn(h, First(prep, b), PAGES)
  }

  /** What the bitmap of a slot starts from: memset covers the first 128 pages only. */
  predicate StartBit(junk: nat -> bool, s: nat) {
    s % PAGES < SET_PAGES || junk(s)
  }

  /** bit_map_v: a bit has been flipped if and only if its write is superseded. */
  ghost predicate BitsOk(bits: seq<bool>, junk: nat -> bool, h: seq<nat>, prep: nat, top: nat) {
    forall s :: prep * PAGES <= s < (top + 1) * PAGES && s < |bits| ==>
      bits[s] == BitAt(junk, h, prep, s)
  }

  predicate BitAt(junk: nat -> bool, h: seq<nat>, prep: nat, s: nat) {
    StartBit(junk, s) != Dead(h, s - prep * PAGES)
  }

  lemma BitAppend(junk: nat -> bool, h: seq<nat>, prep: nat, s: nat, a: nat)
    ensures BitAt(junk, h + [a], prep, s)
        <==> BitAt(junk, h, prep, s) != (0 <= Last(h, a) && s == prep * PAGES + Last(h, a))
  {
    DeadAppend(h, a, s - prep * PAGES);
  }

  /** All four tables say what the history says, with block top open. */
  ghost predicate TablesHold(mapping: seq<nat>, rev: seq<nat>, valid: seq<nat>, bits: seq<bool>, junk: nat -> bool,
                             h: seq<nat>, prep: nat, top: nat) {
    && MapOk(mapping, h, prep * PAGES) && RevOk(rev, h, prep * PAGES)
    && ValidOk(valid, h, prep, top) && BitsOk(bits, junk, h, prep, top)
  }

  // ---------- one write keeps every table exact ----------

  lemma MapStep(mapping: seq<nat>, h: seq<nat>, base: nat, a: nat)
    requires MapOk(mapping, h, base) && a < |mapping|
    ensures MapOk(mapping[a := base + |h|], h + [a], base)
  {
    forall x: nat | x < |mapping| ensures Last(h + [a], x) == if a == x then |h| else Last(h, x) {
      LastAppend(h, a, x);
    }
  }

  lemma RevStep(rev: seq<nat>, rev': seq<nat>, h: seq<nat>, base: nat, a: nat)
    requires RevOk(rev, h, base) && base + |h| < |rev|
    requires rev' == if Last(h, a) < 0 then rev else rev[base + Last(h, a) := 0]
    ensures RevOk(rev'[base + |h| := a], h + [a], base)
  {
    forall i | 0 <= i <= |h| ensures Latest(h + [a], i) <==> i == |h| || (Latest(h, i) && i != Last(h, a)) {
      DeadAppend(h, a, i);
    }
  }

  lemma {:induction false} DeadInAppend(h: seq<nat>, a: nat, lo: int, n: nat)
    ensures DeadIn(h + [a], lo, n)
         == DeadIn(h, lo, n) + (if 0 <= Last(h, a) && lo <= Last(h, a) < lo + n then 1 else 0)
  {
    if n > 0 {
      DeadInAppend(h, a, lo, n - 1);
      DeadAppend(h, a, lo + n - 1);
      hide Dead;
    }
  }

  /** The block of a live slot still counts it, so the counter never underflows. */
  lemma {:induction false} NoUnderflow(h: seq<nat>, i: nat, lo: int, n: nat)
    requires lo <= i < lo + n && i < |h| && Latest(h, i)
    ensures DeadIn(h, lo, n) < n
  {
    if i < lo + n - 1 {
      NoUnderflow(h, i, lo, n - 1);
    }
  }

  /** The block whose page write p filled. */
  function BlockOf(prep: nat, p: nat): nat {
    prep + p / PAGES
  }

  lemma BlockOfSlot(prep: nat, p: nat, b: nat)
    requires prep <= b
    ensures (prep * PAGES + p) / PAGES == BlockOf(prep, p)
    ensures First(prep, b) <= p < First(prep, b) + PAGES <==> b == BlockOf(prep, p)
  {
  }

  /** Superseding a write takes one valid page from its block and none from the others. */
  lemma ValidStep(valid: seq<nat>, h: seq<nat>, prep: nat, top: nat, a: nat)
    requires ValidOk(valid, h, prep, top) && prep <= top < |valid|
    requires |h| <= First(prep, top) + PAGES
    ensures Last(h, a) < 0 ==> ValidOk(valid, h + [a], prep, top)
    ensures 0 <= Last(h, a) ==>
              var b := BlockOf(prep, Last(h, a));
              b <= top && valid[b] > 0 && ValidOk(valid[b := valid[b] - 1], h + [a], prep, top)
  {
    var p := Last(h, a);
    forall b: nat | prep <= b ensures DeadIn(h + [a], First(prep, b), PAGES)
      == DeadIn(h, First(prep, b), PAGES) + (if 0 <= p && b == BlockOf(prep, p) then 1 else 0)
    {
      DeadInAppend(h, a, First(prep, b), PAGES);
      if 0 <= p {
        BlockOfSlot(prep, p, b);
      }
    }
    if 0 <= p {
      BlockOfSlot(prep, p, BlockOf(prep, p));
      NoUnderflow(h, p, First(prep, BlockOf(prep, p)), PAGES);
    }
  }

  /** Superseding a write flips the bit of its slot and no other. */
  lemma BitsFlip(bits: seq<bool>, junk: nat -> bool, h: seq<nat>, prep: nat, top: nat, a: nat)
    requires BitsOk(bits, junk, h, prep, top) && 0 <= Last(h, a)
    requires prep * PAGES + |h| <= |bits|
    ensures var s := prep * PAGES + Last(h, a);
            BitsOk(bits[s := !bits[s]], junk, h + [a], prep, top)
  {
    var p := prep * PAGES + Last(h, a);
    hide BitAt;
    hide Last;
    forall s: nat | prep * PAGES <= s < (top + 1) * PAGES && s < |bits|
      ensures bits[p := !bits[p]][s] == BitAt(junk, h + [a], prep, s)
    {
      BitFlipped(bits, junk, h, prep, p, s, a);
    }
  }

  lemma BitFlipped(bits: seq<bool>, junk: nat -> bool, h: seq<nat>, prep: nat, p: nat, s: nat, a: nat)
    requires s < |bits| && p < |bits| && bits[s] == BitAt(junk, h, prep, s)
    requires 0 <= Last(h, a) && p == prep * PAGES + Last(h, a)
    ensures bits[p := !bits[p]][s] == BitAt(junk, h + [a], prep, s)
  {
    BitAppend(junk, h, prep, s, a);
  }

  lemma BitsKept(bits: seq<bool>, junk: nat -> bool, h: seq<nat>, prep: nat, top: nat, a: nat)
    requires BitsOk(bits, junk, h, prep, top) && Last(h, a) < 0
    ensures BitsOk(bits, junk, h + [a], prep, top)
  {
    var lo, hi := prep * PAGES, (top + 1) * PAGES;
    forall s: nat | lo <= s < hi && s < |bits| ensures bits[s] == BitAt(junk, h + [a], prep, s) {
      assert bits[s] == BitAt(junk, h, prep, s);
      BitAppend(junk, h, prep, s, a);
    }
  }

  lemma MapReads(mapping: seq<nat>, h: seq<nat>, base: nat, a: nat)
    requires MapOk(mapping, h, base) && a < |mapping|
    ensures mapping[a] == if Last(h, a) < 0 then 0 else base + Last(h, a)
  {
  }

  /** What a write to a does to the slot a had, if any. */
  lemma SlotSuperseded(mapping: seq<nat>, rev: seq<nat>, valid: seq<nat>, bits: seq<bool>, junk: nat -> bool,
                       h: seq<nat>, prep: nat, top: nat, a: nat)
    requires TablesHold(mapping, rev, valid, bits, junk, h, prep, top) && a < |mapping|
    requires 0 < prep <= top < |valid| && |h| <= First(prep, top) + PAGES && |bits| == |valid| * PAGES
    ensures mapping[a] == 0 ==>
              && Last(h, a) < 0 && ValidOk(valid, h + [a], prep, top) && BitsOk(bits, junk, h + [a], prep, top)
    ensures mapping[a] != 0 ==>
              && 0 <= Last(h, a) && mapping[a] == prep * PAGES + Last(h, a) && mapping[a] < |bits|
              && var b := mapping[a] / PAGES;
              && b <= top && valid[b] > 0 && ValidOk(valid[b := valid[b] - 1], h + [a], prep, top)
              && BitsOk(bits[mapping[a] := !bits[mapping[a]]], junk, h + [a], prep, top)
  {
    MapReads(mapping, h, prep * PAGES, a);
    hide MapOk;
    hide RevOk;
    ValidStep(valid, h, prep, top, a);
    hide ValidOk;
    hide BitsOk;
    if 0 <= Last(h, a) {
      BlockOfSlot(prep, Last(h, a), prep);
      SlotInTable(prep, Last(h, a), |h|, top, |valid|);
      BitsFlip(bits, junk, h, prep, top, a);
    } else {
      BitsKept(bits, junk, h, prep, top, a);
    }
    hide Last;
    hide BlockOf;
  }

  lemma SlotInTable(prep: nat, p: nat, n: nat, top: nat, blocks: nat)
    requires p < n <= First(prep, top) + PAGES && prep <= top < blocks
    ensures prep * PAGES + p < blocks * PAGES && prep * PAGES + n <= blocks * PAGES
  {
  }

  /** Before the first write, with block prep just opened. */
  lemma NewTablesOk(mapping: seq<nat>, rev: seq<nat>, valid: seq<nat>, bits: seq<bool>, junk: nat -> bool, prep: nat)
    requires forall a :: 0 <= a < |mapping| ==> mapping[a] == 0
    requires forall s :: 0 <= s < |rev| ==> rev[s] == 0
    requires prep < |valid| && valid[prep] == PAGES
    requires forall s :: prep * PAGES <= s < prep * PAGES + PAGES && s < |bits| ==> bits[s] == StartBit(junk, s)
    ensures TablesHold(mapping, rev, valid, bits, junk, [], prep, prep)
  {
    NothingDead([], First(prep, prep), PAGES);
  }

  /** Opening block top + 1: none of its writes has happened yet. */
  lemma NewBlockOk(valid: seq<nat>, valid': seq<nat>, h: seq<nat>, prep: nat, top: nat)
    requires ValidOk(valid, h, prep, top) && prep <= top && top + 1 < |valid|
    requires |h| <= First(prep, top + 1) && valid' == valid[top + 1 := PAGES]
    ensures ValidOk(valid', h, prep, top + 1)
  {
    NothingDead(h, First(prep, top + 1), PAGES);
  }

  lemma NewBitsOk(bits: seq<bool>, bits': seq<bool>, junk: nat -> bool, h: seq<nat>, prep: nat, top: nat)
    requires BitsOk(bits, junk, h, prep, top) && prep <= top && |h| <= First(prep, top + 1)
    requires |bits'| == |bits|
    requires forall s :: 0 <= s < |bits| ==>
               bits'[s] == if (top + 1) * PAGES <= s < (top + 1) * PAGES + PAGES then StartBit(junk, s) else bits[s]
    ensures BitsOk(bits', junk, h, prep, top + 1)
  {
  }

  /** A full block: opening the next one leaves every table exact. */
  lemma NextTablesOk(mapping: seq<nat>, rev: seq<nat>, valid: seq<nat>, valid': seq<nat>, bits: seq<bool>,
                     bits': seq<bool>, junk: nat -> bool, h: seq<nat>, prep: nat, top: nat)
    requires TablesHold(mapping, rev, valid, bits, junk, h, prep, top)
    requires prep <= top && top + 1 < |valid| && |h| <= First(prep, top + 1)
    requires valid' == valid[top + 1 := PAGES] && |bits'| == |bits|
    requires forall s :: 0 <= s < |bits| ==>
               bits'[s] == if (top + 1) * PAGES <= s < (top + 1) * PAGES + PAGES then StartBit(junk, s) else bits[s]
    ensures TablesHold(mapping, rev, valid', bits', junk, h, prep, top + 1)
  {
    NewBlockOk(valid, valid', h, prep, top);
    NewBitsOk(bits, bits', junk, h, prep, top);
    hide MapOk;
    hide RevOk;
    hide ValidOk;
    hide BitsOk;
  }

  lemma {:induction false} NothingDead(h: seq<nat>, lo: int, n: nat)
    requires |h| <= lo
    ensures DeadIn(h, lo, n) == 0
  {
    if n > 0 {
      NothingDead(h, lo, n - 1);
    }
  }

  // ---------- what the counters mean ----------

  /** The addresses whose current slot is among the n writes from lo on. */
  ghost function MappedIn(h: seq<nat>, lo: nat, n: nat): set<nat> {
    set a | a in h && lo <= Last(h, a) < lo + n
  }

  /** How many of the n writes from lo on have happened. */
  function Written(h: seq<nat>, lo: nat, n: nat): nat {
    if |h| <= lo then 0 else if |h| < lo + n then |h| - lo else n
  }

  lemma MappedInGrows(h: seq<nat>, lo: nat, n: nat)
    ensures lo + n < |h| && Latest(h, lo + n) ==>
              MappedIn(h, lo, n + 1) == MappedIn(h, lo, n) + {h[lo + n]} && h[lo + n] !in MappedIn(h, lo, n)
    ensures lo + n >= |h| || !Latest(h, lo + n) ==> MappedIn(h, lo, n + 1) == MappedIn(h, lo, n)
  {
  }

  lemma MappedInSize(h: seq<nat>, lo: nat, n: nat)
    ensures |MappedIn(h, lo, n + 1)| == |MappedIn(h, lo, n)| + (if lo + n < |h| && Latest(h, lo + n) then 1 else 0)
  {
    MappedInGrows(h, lo, n);
  }

  lemma {:induction false} DeadOrMapped(h: seq<nat>, lo: nat, n: nat)
    ensures DeadIn(h, lo, n) + |MappedIn(h, lo, n)| == Written(h, lo, n)
  {
    if n > 0 {
      DeadOrMapped(h, lo, n - 1);
      MappedInSize(h, lo, n - 1);
    } else {
      assert MappedIn(h, lo, 0) == {};
    }
  }

  /** valid_pages_v of a block is the number of addresses mapped into it plus its
      unwritten slots. */
  lemma ValidPagesMeaning(valid: seq<nat>, h: seq<nat>, prep: nat, top: nat, b: nat)
    requires ValidOk(valid, h, prep, top) && prep <= b <= top < |valid|
    ensures var lo := First(prep, b);
            valid[b] == |MappedIn(h, lo, PAGES)| + (PAGES - Written(h, lo, PAGES))
  {
    DeadOrMapped(h, First(prep, b), PAGES);
  }

  /** mapping and rev_mapping are inverse on the written addresses: no two addresses
      share a slot, and no slot is the unmapped mark 0. */
  lemma MappingIsInjective(mapping: seq<nat>, rev: seq<nat>, h: seq<nat>, base: nat, a: nat, a': nat)
    requires MapOk(mapping, h, base) && RevOk(rev, h, base) && 0 < base && base + |h| <= |rev|
    requires a < |mapping| && a' < |mapping|
    ensures mapping[a] != 0 <==> a in h
    ensures a in h ==> mapping[a] < |rev| && rev[mapping[a]] == a
    ensures a in h && a' in h && mapping[a] == mapping[a'] ==> a == a'
  {
  }

  /** What rev_mapping cannot tell: a written slot reads 0 if and only if it is
      superseded or holds address 0. */
  lemma ZeroIsAmbiguous(rev: seq<nat>, h: seq<nat>, base: nat, i: nat)
    requires RevOk(rev, h, base) && i < |h| && base + |h| <= |rev|
    ensures rev[base + i] == 0 <==> Dead(h, i) || h[i] == 0
  {
  }

  /** A bitmap bit tells a superseded page from a current one only where memset reached
      or malloc happened to leave a one; elsewhere it says the opposite. */
  lemma BitReadsValidity(bits: seq<bool>, junk: nat -> bool, h: seq<nat>, prep: nat, top: nat, s: nat)
    requires BitsOk(bits, junk, h, prep, top)
    requires prep * PAGES <= s < (top + 1) * PAGES && s < |bits|
    ensures (bits[s] <==> !Dead(h, s - prep * PAGES)) <==> s % PAGES < SET_PAGES || junk(s)
  {
    assert bits[s] == BitAt(junk, h, prep, s);
  }

  /** What the bitmap of a block is worth: its 1024 bits all tell the current pages from the
      superseded ones if and only if malloc left ones in all the bits memset does not reach. */
  lemma BitmapIsTrueIff(bits: seq<bool>, junk: nat -> bool, h: seq<nat>, prep: nat, top: nat, b: nat)
    requires BitsOk(bits, junk, h, prep, top) && prep <= b <= top && (b + 1) * PAGES <= |bits|
    ensures (forall s: nat :: b * PAGES <= s < (b + 1) * PAGES ==> (bits[s] <==> !Dead(h, s - prep * PAGES)))
       <==> (forall s: nat :: b * PAGES + SET_PAGES <= s < (b + 1) * PAGES ==> junk(s))
  {
    forall s: nat | b * PAGES <= s < (b + 1) * PAGES
      ensures (bits[s] <==> !Dead(h, s - prep * PAGES)) <==> s < b * PAGES + SET_PAGES || junk(s)
    {
      BitReadsValidity(bits, junk, h, prep, top, s);
      assert s % PAGES == s - b * PAGES;
    }
  }
}
