/** Physical page addresses. From low to high bits: channel 4, EP 2, plane 2, LUN 2,
    page 8, block (vssd_code/channel.c:261-264 and 570-571, the address builders at
    889-893). The header that names the field widths is not part of this model. */
module Ppas {

  const PAGE_NUM: nat := 256
  const PAGE_MASK: bv32 := 0x3FC00
  const MAX_BLOCKS: nat := 0x4000

  /** A 32-bit address as a value of its own, so that it can index maps and multisets. */
  datatype Ppa = Ppa(bits: bv32)

  const UNMAPPED := Ppa(0xFFFF_FFFF)

  /** The 32-bit register holding the nonnegative int n, wrap-around included. */
  function U32(n: nat): bv32 {
    if n == 0 then 0 else U32(n - 1) + 1
  }

  /** The same for any int. */
  function Register(n: int): bv32 {
    if n < 0 then 0 - U32(-n) else U32(n)
  }

  lemma Below(x: bv32)
    requires x as int < 0x4000
    ensures x < 0x4000
  {
  }

  lemma SuccessorAtMost(x: bv32)
    requires x < 0x4000
    ensures (x + 1) as int <= x as int + 1
  {
  }

  lemma SuccessorAtLeast(x: bv32, y: bv32)
    requires x < 0x4000 && y == x + 1
    ensures y as int >= x as int + 1
  {
  }

  lemma Increment(x: bv32, y: bv32, n: int)
    requires x as int == n && n < 0x4000 && y == x + 1
    ensures y as int == n + 1
  {
    Below(x);
    SuccessorAtMost(x);
    SuccessorAtLeast(x, y);
  }

  lemma {:induction false} U32Value(n: nat)
    requires n <= 0x4000
    ensures U32(n) as int == n
  {
    if n > 0 {
      U32Value(n - 1);
      Increment(U32(n - 1), U32(n), n - 1);
    }
  }

  /** Small ints keep their bounds in the register ... */
  lemma U32Below(n: nat)
    requires n < 0x4000
    ensures U32(n) < 0x4000
    ensures n < 256 ==> U32(n) < 256
    ensures n < 16 ==> U32(n) < 16
    ensures n < 4 ==> U32(n) < 4
  {
    U32Value(n);
  }

  /** ... and stay distinct. */
  lemma U32Injective(m: nat, n: nat)
    requires m <= 0x4000 && n <= 0x4000
    ensures U32(m) == U32(n) ==> m == n
  {
    U32Value(m);
    U32Value(n);
  }

  /** One block of one plane: what a PPA with zero page and EP fields names. */
  datatype Coord = Coord(ch: nat, lun: nat, blk: nat, pl: nat)

  predicate InRange(c: Coord) {
    c.ch < 16 && c.lun < 4 && c.blk < MAX_BLOCKS && c.pl < 4
  }

  function Pack(ch: bv32, lun: bv32, blk: bv32, pl: bv32): bv32 {
    ch | (lun << 8) | (blk << 18) | (pl << 6)
  }

  /** The address builder of the erase loops. */
  function PpaOf(c: Coord): Ppa {
    Ppa(Pack(U32(c.ch), U32(c.lun), U32(c.blk), U32(c.pl)))
  }

  /** The four fields free_block extracts from an address; they index the erase counters. */
  datatype Fields = Fields(ch: bv32, lun: bv32, blk: bv32, pl: bv32)

  function Unpack(p: bv32): Fields {
    Fields(p & 0x0F, (p >> 8) & 0x03, (p >> 18) & 0xFFFF, (p >> 6) & 0x03)
  }

  /** A block address: its page and EP fields are zero. */
  predicate IsBlockPpa(ppa: Ppa) {
    ppa.bits & PAGE_MASK == 0 && ppa.bits & 0x30 == 0
  }

  lemma UnpackPack(ch: bv32, lun: bv32, blk: bv32, pl: bv32)
    requires ch < 16 && lun < 4 && blk < 0x4000 && pl < 4
    ensures Unpack(Pack(ch, lun, blk, pl)) == Fields(ch, lun, blk, pl)
    ensures IsBlockPpa(Ppa(Pack(ch, lun, blk, pl)))
    ensures Pack(ch, lun, blk, pl) & 0x30 != UNMAPPED.bits & 0x30
  {
  }

  /** Unpacking a block address gives the fields it was packed from; no block address
      is the unmapped mark. */
  lemma BlockAddress(c: Coord)
    requires InRange(c)
    ensures Unpack(PpaOf(c).bits) == Fields(U32(c.ch), U32(c.lun), U32(c.blk), U32(c.pl))
    ensures IsBlockPpa(PpaOf(c)) && PpaOf(c) != UNMAPPED
  {
    U32Below(c.ch);
    U32Below(c.lun);
    U32Below(c.blk);
    U32Below(c.pl);
    UnpackPack(U32(c.ch), U32(c.lun), U32(c.blk), U32(c.pl));
  }

  /** Distinct blocks have distinct addresses, and distinct erase counters. */
  lemma BlockAddressInjective(c: Coord, d: Coord)
    requires InRange(c) && InRange(d)
    ensures Unpack(PpaOf(c).bits) == Unpack(PpaOf(d).bits) ==> c == d
    ensures PpaOf(c) == PpaOf(d) ==> c == d
  {
    BlockAddress(c);
    BlockAddress(d);
    U32Injective(c.ch, d.ch);
    U32Injective(c.lun, d.lun);
    U32Injective(c.blk, d.blk);
    U32Injective(c.pl, d.pl);
  }
}
