/** The block allocator of vssd_code/channel.c (alloc_block, free_block and their superblock
    twins, 179-519) as a state machine over the mapping table, the erase counters, and the
    LBA queue and block lists of one channel. */
module Allocator {
  import opened Ppas
  import opened BlkLists

  datatype Kind = Block | Superblock

  datatype Lists = Lists(free: seq<Blk>, alloc: seq<Blk>)

  datatype Chan = Chan(q: seq<int>, normal: Lists, super: Lists) {
    function Of(k: Kind): Lists {
      match k case Block => normal case Superblock => super
    }

    function With(q: seq<int>, k: Kind, l: Lists): Chan {
      match k case Block => Chan(q, l, super) case Superblock => Chan(q, normal, l)
    }
  }

  /** The erase counters; an absent one reads 0. */
  type Counters = map<Fields, nat>

  datatype State = State(table: seq<Ppa>, ers: Counters, chan: Chan)

  /** Every way a call ends: NoFreeBlock and NoLba end the process; Fault is an access
      outside the mapping table or the null dereference of free_block. */
  datatype Outcome = Next(s: State) | NoFreeBlock | NoLba | Fault

  datatype Op = Alloc(k: Kind) | Release(k: Kind, lba: nat, count: nat)

  /** What is fixed for a channel: its number in the address, its LBAs lo, ..., lo + n - 1
      and its good blocks. */
  datatype Setup = Setup(id: bv32, lo: nat, n: nat, normal: set<Ppa>, super: set<Ppa>) {
    function Of(k: Kind): set<Ppa> {
      match k case Block => normal case Superblock => super
    }

    ghost predicate Valid() {
      && normal !! super
      && |normal| + |super| <= n
      && (forall p :: p in normal || p in super ==> p != UNMAPPED && Unpack(p.bits).ch == id)
      && (forall p, p' :: p in normal && p' in normal && Unpack(p.bits) == Unpack(p'.bits) ==> p == p')
    }
  }

  // ---------- the operations ----------

  function Count(ers: Counters, p: Ppa): nat {
    if Unpack(p.bits) in ers then ers[Unpack(p.bits)] else 0
  }

  /** The 8-bit erase counter after one more erase. */
  function Erased(ers: Counters, p: Ppa): Counters {
    ers[Unpack(p.bits) := (Count(ers, p) + 1) % 256]
  }

  /** The lists once the first free block is allocated. */
  function Taken(l: Lists): Lists
    requires l.free != []
  {
    Lists(l.free[1..], InsertAsc(l.alloc, l.free[0]))
  }

  predicate Has(l: Lists, p: Ppa) {
    IndexOf(l.alloc, p) < |l.alloc|
  }

  /** The lists once the allocated block p is free again, with a new wear. */
  function Freed(l: Lists, p: Ppa, data: nat): Lists
    requires Has(l, p)
  {
    Lists(InsertDesc(l.free, Blk(p, data)), RemoveAt(l.alloc, IndexOf(l.alloc, p)))
  }

  /** alloc_block and alloc_superblock. */
  function AllocBlock(s: State, k: Kind): Outcome {
    var l := s.chan.Of(k);
    if l.free == [] then NoFreeBlock
    else if s.chan.q == [] then NoLba
    else if !(0 <= s.chan.q[0] < |s.table|) then Fault
    else
      Next(State(s.table[s.chan.q[0] := l.free[0].ppa], s.ers, s.chan.With(s.chan.q[1..], k, Taken(l))))
  }

  /** What a freed node records. The counter of a superblock is addressed in another way,
      so what it reads is a parameter. */
  function Wear(ers: Counters, k: Kind, p: Ppa, count: nat): nat {
    if k == Block then Count(Erased(ers, p), p) else count
  }

  /** free_block and free_superblock. */
  function FreeBlock(s: State, k: Kind, lba: nat, count: nat): Outcome {
    if lba >= |s.table| then Fault
    else
      var p := s.table[lba];
      var l := s.chan.Of(k);
      if !Has(l, p) then Fault
      else Next(State(s.table[lba := UNMAPPED], if k == Block then Erased(s.ers, p) else s.ers,
                      s.chan.With(s.chan.q + [lba], k, Freed(l, p, Wear(s.ers, k, p, count)))))
  }

  // ---------- the invariant ----------

  /** The addresses on a list, with multiplicity. */
  ghost function Bag(s: seq<Blk>): multiset<Ppa> {
    if s == [] then multiset{} else multiset{s[0].ppa} + Bag(s[1..])
  }

  ghost function Used(c: Chan): multiset<Ppa> {
    Bag(c.normal.alloc) + Bag(c.super.alloc)
  }

  ghost predicate InSlice(u: Setup, l: int) {
    u.lo <= l < u.lo + u.n
  }

  /** An LBA of the channel that is not waiting in the queue. */
  ghost predicate Mapped(u: Setup, q: seq<int>, l: int) {
    InSlice(u, l) && l !in q
  }

  /** Every LBA is in the queue once or mapped. */
  ghost predicate QueueOk(u: Setup, c: Chan) {
    && Queued(u, c.q)
    && |c.q| + |c.normal.alloc| + |c.super.alloc| == u.n
  }

  ghost predicate Queued(u: Setup, q: seq<int>) {
    && (forall i :: 0 <= i < |q| ==> InSlice(u, q[i]))
    && (forall i, j :: 0 <= i < j < |q| ==> q[i] != q[j])
  }

  /** Each good block is on exactly one of the two lists of its kind, once. */
  ghost predicate ListsOk(blocks: set<Ppa>, l: Lists) {
    && Bag(l.free) + Bag(l.alloc) == multiset(blocks)
    && Descending(l.free) && Ascending(l.alloc)
  }

  ghost predicate Reached(u: Setup, table: seq<Ppa>, q: seq<int>, p: Ppa)
    requires u.lo + u.n <= |table|
  {
    exists l :: Mapped(u, q, l) && table[l] == p
  }

  /** Mapped LBAs and allocated blocks correspond one to one. */
  ghost predicate TableOk(u: Setup, table: seq<Ppa>, q: seq<int>, used: multiset<Ppa>) {
    && u.lo + u.n <= |table|
    && (forall l :: Mapped(u, q, l) ==> table[l] in used)
    && (forall l, m :: Mapped(u, q, l) && Mapped(u, q, m) && table[l] == table[m] ==> l == m)
    && (forall p :: p in used ==> Reached(u, table, q, p))
  }

  ghost predicate Recorded(ers: Counters, s: seq<Blk>) {
    forall b :: b in s ==> b.data == Count(ers, b.ppa)
  }

  /** Every node of a normal block records the block's erase counter. */
  ghost predicate CountsOk(s: State) {
    Recorded(s.ers, s.chan.normal.free) && Recorded(s.ers, s.chan.normal.alloc)
  }

  ghost predicate Inv(u: Setup, s: State) {
    && u.Valid() && QueueOk(u, s.chan) && TableOk(u, s.table, s.chan.q, Used(s.chan)) && CountsOk(s)
    && ListsOk(u.normal, s.chan.normal) && ListsOk(u.super, s.chan.super)
  }

  // ---------- bags ----------

  lemma {:induction false} BagIn(s: seq<Blk>, p: Ppa)
    ensures p in Bag(s) <==> IndexOf(s, p) < |s|
    ensures |Bag(s)| == |s|
  {
    if s != [] {
      BagIn(s[1..], p);
    }
  }

  lemma {:induction false} BagHolds(s: seq<Blk>, b: Blk)
    requires b in s
    ensures b.ppa in Bag(s)
  {
    if s[0] != b {
      BagHolds(s[1..], b);
    }
  }

  lemma {:induction false} BagInsertDesc(s: seq<Blk>, b: Blk)
    ensures Bag(InsertDesc(s, b)) == Bag(s) + multiset{b.ppa}
  {
    if s != [] && s[0].data > b.data {
      BagInsertDesc(s[1..], b);
    }
  }

  lemma {:induction false} BagInsertAsc(s: seq<Blk>, b: Blk)
    ensures Bag(InsertAsc(s, b)) == Bag(s) + multiset{b.ppa}
  {
    if s != [] && s[0].data < b.data {
      BagInsertAsc(s[1..], b);
    }
  }

  lemma {:induction false} BagRemove(s: seq<Blk>, k: nat)
    requires k < |s|
    ensures Bag(s) == Bag(RemoveAt(s, k)) + multiset{s[k].ppa}
  {
    if k > 0 {
      BagRemove(s[1..], k - 1);
      assert RemoveAt(s, k) == [s[0]] + RemoveAt(s[1..], k - 1);
    } else {
      assert RemoveAt(s, 0) == s[1..];
    }
  }

  lemma HeadAllocated(blocks: set<Ppa>, l: Lists)
    requires ListsOk(blocks, l) && l.free != []
    ensures ListsOk(blocks, Taken(l)) && |Taken(l).alloc| == |l.alloc| + 1
    ensures Bag(Taken(l).alloc) == Bag(l.alloc) + multiset{l.free[0].ppa}
    ensures l.free[0].ppa in blocks && l.free[0].ppa !in Bag(l.alloc)
  {
    BagInsertAsc(l.alloc, l.free[0]);
    InsertAscSorted(l.alloc, l.free[0]);
    var p := l.free[0].ppa;
    assert multiset(blocks)[p] == Bag(l.free)[p] + Bag(l.alloc)[p];
  }

  lemma FoundReleased(blocks: set<Ppa>, l: Lists, p: Ppa, data: nat)
    requires ListsOk(blocks, l) && p in Bag(l.alloc)
    ensures Has(l, p) && ListsOk(blocks, Freed(l, p, data)) && |Freed(l, p, data).alloc| == |l.alloc| - 1
    ensures Bag(l.alloc) == Bag(Freed(l, p, data).alloc) + multiset{p}
    ensures Bag(l.alloc)[p] == 1 && p !in Bag(l.free) && p in blocks
  {
    var i := IndexOf(l.alloc, p);
    BagIn(l.alloc, p);
    BagRemove(l.alloc, i);
    RemoveAtSorted(l.alloc, i);
    BagInsertDesc(l.free, Blk(p, data));
    InsertDescSorted(l.free, Blk(p, data));
    assert multiset(blocks)[p] == Bag(l.free)[p] + Bag(l.alloc)[p];
    assert |Freed(l, p, data).alloc| == |l.alloc| - 1;
    hide RemoveAt;
    hide Ascending;
    hide Descending;
  }

  // ---------- one LBA leaves the queue, one comes back ----------

  lemma MappedAfterAlloc(u: Setup, q: seq<int>, m: int)
    requires q != [] && Queued(u, q)
    ensures Queued(u, q[1..])
    ensures Mapped(u, q[1..], m) <==> Mapped(u, q, m) || m == q[0]
  {
    assert q == [q[0]] + q[1..];
  }

  lemma MappedAfterFree(u: Setup, q: seq<int>, l: int, m: int)
    requires Queued(u, q) && Mapped(u, q, l)
    ensures Queued(u, q + [l])
    ensures Mapped(u, q + [l], m) <==> Mapped(u, q, m) && m != l
  {
    if Mapped(u, q, m) && m != l {
      assert forall i :: 0 <= i < |q + [l]| ==> (q + [l])[i] != m;
    }
  }

  lemma TableAfterAlloc(u: Setup, table: seq<Ppa>, q: seq<int>, used: multiset<Ppa>, p: Ppa)
    requires q != [] && Queued(u, q) && TableOk(u, table, q, used) && p !in used
    ensures InSlice(u, q[0]) && TableOk(u, table[q[0] := p], q[1..], used + multiset{p})
    ensures Queued(u, q[1..])
  {
    MappedAfterAlloc(u, q, 0);
    var l := q[0];
    var table', q', used' := table[l := p], q[1..], used + multiset{p};
    forall m ensures Mapped(u, q', m) <==> Mapped(u, q, m) || m == l {
      MappedAfterAlloc(u, q, m);
    }
    hide Mapped;
    hide Queued;
    forall x | x in used' ensures Reached(u, table', q', x) {
      if x == p {
        assert Mapped(u, q', l) && table'[l] == p;
      } else {
        assert Reached(u, table, q, x);
        var m :| Mapped(u, q, m) && table[m] == x;
        assert Mapped(u, q', m) && table'[m] == x;
      }
    }
  }

  lemma TableAfterFree(u: Setup, table: seq<Ppa>, q: seq<int>, used: multiset<Ppa>, l: nat)
    requires Queued(u, q) && TableOk(u, table, q, used) && Mapped(u, q, l) && used[table[l]] == 1
    ensures TableOk(u, table[l := UNMAPPED], q + [l], used - multiset{table[l]})
    ensures Queued(u, q + [l])
  {
    MappedAfterFree(u, q, l, 0);
    var table', q', used' := table[l := UNMAPPED], q + [l], used - multiset{table[l]};
    forall m ensures Mapped(u, q', m) <==> Mapped(u, q, m) && m != l {
      MappedAfterFree(u, q, l, m);
    }
    hide Mapped;
    hide Queued;
    forall x | x in used' ensures Reached(u, table', q', x) {
      assert Reached(u, table, q, x);
      var m :| Mapped(u, q, m) && table[m] == x;
      assert Mapped(u, q', m) && table'[m] == x;
    }
  }

  lemma RecordedInsert(ers: Counters, s: seq<Blk>, b: Blk)
    requires Recorded(ers, s) && b.data == Count(ers, b.ppa)
    ensures Recorded(ers, InsertDesc(s, b)) && Recorded(ers, InsertAsc(s, b))
  {
    hide Count;
    InsertDescMultiset(s, b);
    InsertAscMultiset(s, b);
    forall x | x in InsertDesc(s, b) || x in InsertAsc(s, b) ensures x in s || x == b {
      assert x in multiset(InsertDesc(s, b)) || x in multiset(InsertAsc(s, b));
    }
  }

  /** Erasing a block changes no other normal block's counter. */
  lemma RecordedElsewhere(u: Setup, ers: Counters, s: seq<Blk>, p: Ppa)
    requires u.Valid() && Recorded(ers, s) && p in u.normal && p !in Bag(s)
    requires forall x :: x in Bag(s) ==> x in u.normal
    ensures Recorded(Erased(ers, p), s)
  {
    hide Unpack;
    forall b | b in s ensures b.data == Count(Erased(ers, p), b.ppa) {
      BagHolds(s, b);
    }
  }

  lemma StillAllocated(l: Lists, p: Ppa, data: nat, b: Blk)
    requires Has(l, p) && b in Freed(l, p, data).alloc
    ensures b in l.alloc
  {
    RemoveAtMultiset(l.alloc, IndexOf(l.alloc, p));
    assert b in multiset(RemoveAt(l.alloc, IndexOf(l.alloc, p)));
  }

  /** Freeing a normal block leaves every node in step with its counter. */
  lemma CountsAfterFree(u: Setup, ers: Counters, l: Lists, p: Ppa)
    requires u.Valid() && Recorded(ers, l.free) && Recorded(ers, l.alloc)
    requires ListsOk(u.normal, l) && p in Bag(l.alloc)
    ensures Has(l, p)
    ensures var ers' := Erased(ers, p);
            var l' := Freed(l, p, Count(ers', p));
            Recorded(ers', l'.free) && Recorded(ers', l'.alloc)
  {
    hide Unpack;
    hide Count;
    hide Erased;
    var ers' := Erased(ers, p);
    FoundReleased(u.normal, l, p, Count(ers', p));
    var alloc := Freed(l, p, Count(ers', p)).alloc;
    forall x | x in Bag(l.free) || x in Bag(alloc) ensures x in u.normal {
      assert x in Bag(l.free) + Bag(l.alloc);
      assert x in multiset(u.normal);
    }
    forall b | b in alloc ensures b in l.alloc {
      StillAllocated(l, p, Count(ers', p), b);
    }
    hide RemoveAt;
    hide ListsOk;
    RecordedElsewhere(u, ers, l.free, p);
    RecordedElsewhere(u, ers, alloc, p);
    RecordedInsert(ers', l.free, Blk(p, Count(ers', p)));
  }

  // ---------- what every operation keeps ----------

  lemma AddressesApart(u: Setup, c: Chan, p: Ppa)
    requires u.Valid() && ListsOk(u.normal, c.normal) && ListsOk(u.super, c.super)
    ensures p in Bag(c.normal.free) || p in Bag(c.normal.alloc) <==> p in u.normal
    ensures p in Bag(c.super.free) || p in Bag(c.super.alloc) <==> p in u.super
    ensures !(p in u.normal && p in u.super)
  {
    assert p in multiset(u.normal) <==> p in Bag(c.normal.free) + Bag(c.normal.alloc);
    assert p in multiset(u.super) <==> p in Bag(c.super.free) + Bag(c.super.alloc);
  }

  /** "Cannot get LBA" is unreachable while any normal or superblock free node exists. */
  lemma LbaAvailable(u: Setup, s: State)
    requires Inv(u, s)
    ensures |s.chan.q| >= |s.chan.normal.free| + |s.chan.super.free|
    ensures s.chan.normal.free != [] || s.chan.super.free != [] ==> s.chan.q != []
  {
    BagIn(s.chan.normal.free, UNMAPPED);
    BagIn(s.chan.normal.alloc, UNMAPPED);
    BagIn(s.chan.super.free, UNMAPPED);
    BagIn(s.chan.super.alloc, UNMAPPED);
    assert |Bag(s.chan.normal.free) + Bag(s.chan.normal.alloc)| == |u.normal|;
    assert |Bag(s.chan.super.free) + Bag(s.chan.super.alloc)| == |u.super|;
  }

  lemma HeadInTable(u: Setup, s: State)
    requires Inv(u, s) && s.chan.q != []
    ensures 0 <= s.chan.q[0] < |s.table|
  {
    assert InSlice(u, s.chan.q[0]);
  }

  /** A free block is not in use, a block in use is used once. */
  lemma UsedOnce(u: Setup, c: Chan, k: Kind, p: Ppa)
    requires u.Valid() && ListsOk(u.normal, c.normal) && ListsOk(u.super, c.super)
    ensures p in Bag(c.Of(k).free) ==> p !in Used(c)
    ensures p in Used(c) ==> Used(c)[p] == 1
    ensures p in Used(c) && p in u.Of(k) ==> p in Bag(c.Of(k).alloc)
  {
    hide Unpack;
    AddressesApart(u, c, p);
    assert multiset(u.normal)[p] == Bag(c.normal.free)[p] + Bag(c.normal.alloc)[p];
    assert multiset(u.super)[p] == Bag(c.super.free)[p] + Bag(c.super.alloc)[p];
  }

  lemma ListsAfterAlloc(u: Setup, c: Chan, k: Kind, q: seq<int>)
    requires u.Valid() && ListsOk(u.normal, c.normal) && ListsOk(u.super, c.super) && c.Of(k).free != []
    ensures var c' := c.With(q, k, Taken(c.Of(k)));
            && ListsOk(u.normal, c'.normal) && ListsOk(u.super, c'.super)
            && Used(c') == Used(c) + multiset{c.Of(k).free[0].ppa} && c.Of(k).free[0].ppa !in Used(c)
    ensures |Taken(c.Of(k)).alloc| == |c.Of(k).alloc| + 1
  {
    hide Setup.Valid;
    hide Unpack;
    HeadAllocated(u.Of(k), c.Of(k));
    assert c.Of(k).free[0].ppa in Bag(c.Of(k).free);
    UsedOnce(u, c, k, c.Of(k).free[0].ppa);
    hide ListsOk;
    hide Taken;
    hide Bag;
  }

  lemma AllocKeepsCounts(u: Setup, s: State, k: Kind)
    requires Inv(u, s) && s.chan.Of(k).free != [] && s.chan.q != []
    requires AllocBlock(s, k).Next?
    ensures CountsOk(AllocBlock(s, k).s)
  {
    hide Unpack;
    hide TableOk;
    hide QueueOk;
    hide ListsOk;
    if k == Block {
      RecordedInsert(s.ers, s.chan.normal.alloc, s.chan.normal.free[0]);
    }
    hide Count;
  }

  lemma AllocKeepsTable(u: Setup, s: State, s': State, k: Kind, l: Lists, p: Ppa)
    requires QueueOk(u, s.chan) && TableOk(u, s.table, s.chan.q, Used(s.chan))
    requires s.chan.q != [] && 0 <= s.chan.q[0] < |s.table| && p !in Used(s.chan)
    requires s'.table == s.table[s.chan.q[0] := p] && s'.chan == s.chan.With(s.chan.q[1..], k, l)
    requires Used(s'.chan) == Used(s.chan) + multiset{p} && |l.alloc| == |s.chan.Of(k).alloc| + 1
    ensures QueueOk(u, s'.chan) && TableOk(u, s'.table, s'.chan.q, Used(s'.chan))
  {
    hide TableOk;
    hide Used;
    TableAfterAlloc(u, s.table, s.chan.q, Used(s.chan), p);
    hide Queued;
  }

  /** Allocation answers a block whenever one is free, and keeps the invariant. */
  lemma AllocKeepsInv(u: Setup, s: State, k: Kind)
    requires Inv(u, s)
    ensures match AllocBlock(s, k)
            case Next(s') => Inv(u, s')
            case NoFreeBlock => s.chan.Of(k).free == []
            case _ => false
  {
    hide Unpack;
    hide Setup.Valid;
    hide Taken;
    LbaAvailable(u, s);
    if s.chan.Of(k).free != [] {
      HeadInTable(u, s);
      ListsAfterAlloc(u, s.chan, k, s.chan.q[1..]);
      AllocKeepsCounts(u, s, k);
      hide ListsOk;
      hide CountsOk;
      AllocKeepsTable(u, s, AllocBlock(s, k).s, k, Taken(s.chan.Of(k)), s.chan.Of(k).free[0].ppa);
      hide QueueOk;
      hide TableOk;
      hide Used;
    }
  }

  lemma HeadIsMostWorn(blocks: set<Ppa>, l: Lists, b: Blk)
    requires ListsOk(blocks, l) && b in l.free
    ensures l.free[0] in l.free && b.data <= l.free[0].data && l.free[0].ppa in blocks
  {
    HeadAllocated(blocks, l);
  }

  /** The block allocated is a free one that no free block is more worn than. */
  lemma AllocTakesMostWorn(u: Setup, s: State, b: Blk)
    requires Inv(u, s) && s.chan.normal.free != [] && b in s.chan.normal.free
    ensures AllocBlock(s, Block).Next?
    ensures var p := AllocBlock(s, Block).s.table[s.chan.q[0]];
            p in u.normal && p !in Used(s.chan) && Count(s.ers, b.ppa) <= Count(s.ers, p)
  {
    hide Unpack;
    hide Setup.Valid;
    hide TableOk;
    hide QueueOk;
    hide Count;
    HeadIsMostWorn(u.normal, s.chan.normal, b);
    LbaAvailable(u, s);
    HeadInTable(u, s);
    ListsAfterAlloc(u, s.chan, Block, []);
    hide ListsOk;
    hide Taken;
    hide Bag;
    hide Used;
  }

  lemma ListsAfterFree(u: Setup, c: Chan, k: Kind, q: seq<int>, p: Ppa, data: nat)
    requires u.Valid() && ListsOk(u.normal, c.normal) && ListsOk(u.super, c.super)
    requires p in u.Of(k) && p in Used(c)
    ensures Has(c.Of(k), p)
    ensures var c' := c.With(q, k, Freed(c.Of(k), p, data));
            && ListsOk(u.normal, c'.normal) && ListsOk(u.super, c'.super)
            && Used(c') == Used(c) - multiset{p} && Used(c)[p] == 1
    ensures |Freed(c.Of(k), p, data).alloc| == |c.Of(k).alloc| - 1
  {
    hide Setup.Valid;
    hide Unpack;
    hide Has;
    UsedOnce(u, c, k, p);
    FoundReleased(u.Of(k), c.Of(k), p, data);
    hide ListsOk;
    hide Freed;
    hide Bag;
  }

  lemma FreeKeepsCounts(u: Setup, s: State, k: Kind, lba: nat, count: nat)
    requires Inv(u, s) && lba < |s.table| && s.table[lba] in u.Of(k) && s.table[lba] in Used(s.chan)
    requires FreeBlock(s, k, lba, count).Next?
    ensures CountsOk(FreeBlock(s, k, lba, count).s)
  {
    hide Unpack;
    hide TableOk;
    hide QueueOk;
    if k == Block {
      AddressesApart(u, s.chan, s.table[lba]);
      CountsAfterFree(u, s.ers, s.chan.normal, s.table[lba]);
    }
    hide ListsOk;
    hide Freed;
    hide Count;
    hide Erased;
    hide Recorded;
  }

  lemma MappedIsUsed(u: Setup, s: State, l: int)
    requires Inv(u, s) && Mapped(u, s.chan.q, l)
    ensures 0 <= l < |s.table| && s.table[l] in Used(s.chan)
  {
  }

  lemma FreeKeepsTable(u: Setup, s: State, s': State, k: Kind, lba: nat, l: Lists)
    requires QueueOk(u, s.chan) && TableOk(u, s.table, s.chan.q, Used(s.chan)) && Mapped(u, s.chan.q, lba)
    requires lba < |s.table| && s'.table == s.table[lba := UNMAPPED] && s'.chan == s.chan.With(s.chan.q + [lba], k, l)
    requires Used(s.chan)[s.table[lba]] == 1 && Used(s'.chan) == Used(s.chan) - multiset{s.table[lba]}
    requires |l.alloc| == |s.chan.Of(k).alloc| - 1
    ensures |s.chan.q| < u.n
    ensures QueueOk(u, s'.chan) && TableOk(u, s'.table, s'.chan.q, Used(s'.chan))
  {
    hide Mapped;
    hide TableOk;
    hide Used;
    TableAfterFree(u, s.table, s.chan.q, Used(s.chan), lba);
    hide Queued;
  }

  lemma FreeShape(s: State, k: Kind, lba: nat, count: nat)
    requires lba < |s.table| && Has(s.chan.Of(k), s.table[lba])
    ensures var p := s.table[lba];
            var r := FreeBlock(s, k, lba, count);
            r.Next? && r.s.table == s.table[lba := UNMAPPED]
            && r.s.chan == s.chan.With(s.chan.q + [lba], k, Freed(s.chan.Of(k), p, Wear(s.ers, k, p, count)))
  {
  }

  /** find_alloc_list never misses the block of a mapped LBA, the LBA queue has room for
      the LBA that comes back, and the invariant holds again. */
  lemma FreeKeepsInv(u: Setup, s: State, k: Kind, lba: nat, count: nat)
    requires Inv(u, s) && Mapped(u, s.chan.q, lba) && s.table[lba] in u.Of(k)
    ensures |s.chan.q| < u.n
    ensures match FreeBlock(s, k, lba, count)
            case Next(s') => Inv(u, s')
            case _ => false
  {
    hide Unpack;
    MappedIsUsed(u, s, lba);
    hide TableOk;
    hide ListsOk;
    hide CountsOk;
    hide QueueOk;
    hide Setup.Valid;
    hide Freed;
    hide Has;
    hide Wear;
    hide Mapped;
    hide Used;
    hide FreeBlock;
    var l := s.chan.Of(k);
    var p := s.table[lba];
    ListsAfterFree(u, s.chan, k, s.chan.q + [lba], p, Wear(s.ers, k, p, count));
    FreeShape(s, k, lba, count);
    FreeKeepsCounts(u, s, k, lba, count);
    FreeKeepsTable(u, s, FreeBlock(s, k, lba, count).s, k, lba, Freed(l, p, Wear(s.ers, k, p, count)));
  }
}
