/**
 The on-disk structures below kernel/fs.c as values: bitmap bits, 32-bit block
 numbers inside an indirect block, and who owns which block. The sizes are those
 of kernel/fs.h.
 */
module DiskImage {
  const BSIZE: nat := 1024
  const BPB: nat := 8192
  const NDIRECT: nat := 12
  const NINDIRECT: nat := 256
  const MAXFILE: nat := 268
  /** The places of an inode that can name a block: direct entries, the indirect block, its entries. */
  const NSLOT: nat := 269
  const U32: nat := 0x1_0000_0000

  type Byte = x: int | 0 <= x < 256

  // ---------------------------------------------------------------- bitmap bytes

  /** 1 << i */
  function Mask(i: nat): bv8
    requires i < 8
  {
    if i == 0 then 1 else if i == 1 then 2 else if i == 2 then 4 else if i == 3 then 8
    else if i == 4 then 16 else if i == 5 then 32 else if i == 6 then 64 else 128
  }

  predicate TestBit(x: bv8, i: nat)
    requires i < 8
  {
    x & Mask(i) != 0
  }

  function OrBit(x: bv8, i: nat): bv8
    requires i < 8
  {
    x | Mask(i)
  }

  function AndNotBit(x: bv8, i: nat): bv8
    requires i < 8
  {
    x & !Mask(i)
  }

  lemma ByteBits(x: bv8, i: nat, j: nat)
    requires i < 8 && j < 8
    ensures TestBit(OrBit(x, i), j) <==> i == j || TestBit(x, j)
    ensures TestBit(AndNotBit(x, i), j) <==> i != j && TestBit(x, j)
  {
    MaskBits(x, Mask(i), Mask(j));
  }

  /** For two masks of one bit each. */
  lemma MaskBits(x: bv8, a: bv8, b: bv8)
    requires b & (b - 1) == 0 && a & (a - 1) == 0
    ensures a != b ==> (x | a) & b == x & b && (x & !a) & b == x & b
    ensures (x | a) & a == a && (x & !a) & a == 0
  {
  }

  /** Is bit `bi` of a bitmap block set? */
  predicate Bit(block: seq<bv8>, bi: nat)
    requires bi / 8 < |block|
  {
    TestBit(block[bi / 8], bi % 8)
  }

  function SetBit(block: seq<bv8>, bi: nat): (r: seq<bv8>)
    requires bi / 8 < |block|
    ensures |r| == |block|
  {
    block[bi / 8 := OrBit(block[bi / 8], bi % 8)]
  }

  function ClearBit(block: seq<bv8>, bi: nat): (r: seq<bv8>)
    requires bi / 8 < |block|
    ensures |r| == |block|
  {
    block[bi / 8 := AndNotBit(block[bi / 8], bi % 8)]
  }

  /** Setting or clearing one bit changes that bit and no other. */
  lemma BitUpdate(block: seq<bv8>, bi: nat, bj: nat)
    requires bi / 8 < |block| && bj / 8 < |block|
    ensures Bit(SetBit(block, bi), bj) <==> bi == bj || Bit(block, bj)
    ensures Bit(ClearBit(block, bi), bj) <==> bi != bj && Bit(block, bj)
  {
    hide TestBit, OrBit, AndNotBit;
    ByteBits(block[bi / 8], bi % 8, bj % 8);
  }

  // ------------------------------------------------------ block numbers as bytes

  /** The j-th little-endian uint of a block, as `((uint*)bp->data)[j]`. */
  function Get32(b: seq<Byte>, j: nat): (r: nat)
    requires 4 * j + 4 <= |b|
    ensures r < U32
  {
    b[4 * j] as int + 256 * (b[4 * j + 1] as int) + 65536 * (b[4 * j + 2] as int) + 16777216 * (b[4 * j + 3] as int)
  }

  function Put32(b: seq<Byte>, j: nat, v: nat): (r: seq<Byte>)
    requires 4 * j + 4 <= |b| && v < U32
    ensures |r| == |b|
  {
    b[4 * j := v % 256][4 * j + 1 := v / 256 % 256][4 * j + 2 := v / 256 / 256 % 256][4 * j + 3 := v / 256 / 256 / 256]
  }

  lemma Digits(v: nat)
    ensures v == v % 256 + 256 * (v / 256 % 256) + 65536 * (v / 256 / 256 % 256) + 16777216 * (v / 256 / 256 / 256)
  {
    var q, r := v / 256, v / 256 / 256;
    assert v == 256 * q + v % 256;
    assert q == 256 * r + q % 256;
    assert r == 256 * (r / 256) + r % 256;
  }

  lemma Put32Get32(b: seq<Byte>, j: nat, v: nat, k: nat)
    requires 4 * j + 4 <= |b| && 4 * k + 4 <= |b| && v < U32
    ensures Get32(Put32(b, j, v), k) == if j == k then v else Get32(b, k)
  {
    if j == k {
      Digits(v);
    }
  }

  function Zeros(): (r: seq<Byte>)
    ensures |r| == BSIZE
    ensures forall k :: 0 <= k < BSIZE ==> r[k] == 0
  {
    seq(BSIZE, _ => 0)
  }

  // ------------------------------------------------------------- inodes and owners

  datatype Inode = Inode(typ: int, nlink: int, size: nat, addrs: seq<nat>)

  /** Marked blocks, block contents, and inodes. */
  datatype Image = Image(used: set<nat>, data: seq<seq<Byte>>, inode: seq<Inode>)

  ghost predicate Shape(m: Image) {
    && 1 <= |m.data| <= U32
    && (forall b :: 0 <= b < |m.data| ==> |m.data[b]| == BSIZE)
    && (forall i :: 0 <= i < |m.inode| ==> InodeShape(m, m.inode[i]))
  }

  ghost predicate InodeShape(m: Image, ip: Inode) {
    && |ip.addrs| == NDIRECT + 1
    && (forall k :: 0 <= k <= NDIRECT ==> ip.addrs[k] < |m.data|)
  }

  /** The block number in slot k of inode i: 0..11 direct, 12 the indirect block itself,
      13..268 the entries of the indirect block. */
  ghost function Slot(m: Image, i: nat, k: nat): nat
    requires Shape(m) && i < |m.inode| && k < NSLOT
  {
    var ip := m.inode[i];
    if k <= NDIRECT then ip.addrs[k]
    else if ip.addrs[NDIRECT] == 0 then 0
    else Get32(m.data[ip.addrs[NDIRECT]], k - NDIRECT - 1)
  }

  /** The slot that names file block bn. */
  function SlotOf(bn: nat): nat {
    if bn < NDIRECT then bn else bn + 1
  }

  datatype Owner = Owner(i: nat, k: nat)

  ghost predicate NamedBy(m: Image, o: Owner, b: nat)
    requires Shape(m)
  {
    o.i < |m.inode| && o.k < NSLOT && Slot(m, o.i, o.k) == b
  }

  /** The marked data blocks are exactly the blocks named by some slot, and each is
      named by one slot only: `owner` is the inverse of Slot. Blocks below `dstart`
      (boot block, super block, log, inodes, bitmap) are always marked. */
  ghost predicate Owned(m: Image, dstart: nat, owner: map<nat, Owner>) {
    && Shape(m)
    && 1 <= dstart <= |m.data|
    && (forall i, k {:trigger Slot(m, i, k)} :: 0 <= i < |m.inode| && 0 <= k < NSLOT && Slot(m, i, k) != 0
          ==> Slot(m, i, k) in owner && owner[Slot(m, i, k)] == Owner(i, k))
    && (forall b :: b in owner ==> dstart <= b < |m.data| && b in m.used && NamedBy(m, owner[b], b))
    && (forall b :: b in m.used ==> b < |m.data| && (b < dstart || b in owner))
    && (forall b :: 0 <= b < dstart ==> b in m.used)
  }

  /** Block b is allocated, zeroed and entered in a direct slot (or as the indirect block). */
  ghost function WithDirect(m: Image, i: nat, k: nat, b: nat): Image
    requires i < |m.inode| && k < |m.inode[i].addrs| && b < |m.data|
  {
    Image(m.used + {b}, m.data[b := Zeros()], m.inode[i := m.inode[i].(addrs := m.inode[i].addrs[k := b])])
  }

  lemma SlotsWithDirect(m: Image, dstart: nat, owner: map<nat, Owner>, i: nat, k: nat, b: nat, i2: nat, k2: nat)
    requires Owned(m, dstart, owner) && i < |m.inode| && k <= NDIRECT && Slot(m, i, k) == 0
    requires dstart <= b < |m.data| && b !in m.used && i2 < |m.inode| && k2 < NSLOT
    ensures Shape(WithDirect(m, i, k, b))
    ensures Slot(WithDirect(m, i, k, b), i2, k2) == if i2 == i && k2 == k then b else Slot(m, i2, k2)
  {
    var a := m.inode[i2].addrs[NDIRECT];
    assert a == Slot(m, i2, NDIRECT);
    assert b !in owner;
    assert a != 0 ==> a != b;
  }

  /** Allocation into an empty direct slot keeps every block owned once. */
  lemma DirectKeeps(m: Image, dstart: nat, owner: map<nat, Owner>, i: nat, k: nat, b: nat)
    requires Owned(m, dstart, owner) && i < |m.inode| && k <= NDIRECT && Slot(m, i, k) == 0
    requires dstart <= b < |m.data| && b !in m.used
    ensures Owned(WithDirect(m, i, k, b), dstart, owner[b := Owner(i, k)])
  {
    var m' := WithDirect(m, i, k, b);
    SlotsWithDirect(m, dstart, owner, i, k, b, i, k);
    forall i2, k2 | 0 <= i2 < |m'.inode| && 0 <= k2 < NSLOT
      ensures Slot(m', i2, k2) == if i2 == i && k2 == k then b else Slot(m, i2, k2)
    {
      SlotsWithDirect(m, dstart, owner, i, k, b, i2, k2);
    }
    assert b !in owner;
  }

  /** Block b is allocated, zeroed and entered in the indirect block of inode i. */
  ghost function WithEntry(m: Image, i: nat, j: nat, b: nat): Image
    requires Shape(m) && i < |m.inode| && j < NINDIRECT && b < |m.data| && m.inode[i].addrs[NDIRECT] != b
  {
    var a := m.inode[i].addrs[NDIRECT];
    m.(used := m.used + {b}, data := m.data[b := Zeros()][a := Put32(m.data[a], j, b)])
  }

  lemma SlotsWithEntry(m: Image, dstart: nat, owner: map<nat, Owner>, i: nat, j: nat, b: nat, i2: nat, k2: nat)
    requires Owned(m, dstart, owner) && i < |m.inode| && j < NINDIRECT && Slot(m, i, NDIRECT) != 0
    requires dstart <= b < |m.data| && b !in m.used && i2 < |m.inode| && k2 < NSLOT
    ensures m.inode[i].addrs[NDIRECT] != b && Shape(WithEntry(m, i, j, b))
    ensures Slot(WithEntry(m, i, j, b), i2, k2) == if i2 == i && k2 == NDIRECT + 1 + j then b else Slot(m, i2, k2)
  {
    var a, a2 := m.inode[i].addrs[NDIRECT], m.inode[i2].addrs[NDIRECT];
    assert a == Slot(m, i, NDIRECT) && a2 == Slot(m, i2, NDIRECT);
    assert b !in owner;
    if i2 == i && k2 > NDIRECT { Put32Get32(m.data[a], j, b, k2 - NDIRECT - 1); }
  }

  lemma EntryKeeps(m: Image, dstart: nat, owner: map<nat, Owner>, i: nat, j: nat, b: nat)
    requires Owned(m, dstart, owner) && i < |m.inode| && j < NINDIRECT && Slot(m, i, NDIRECT) != 0
    requires Slot(m, i, NDIRECT + 1 + j) == 0 && dstart <= b < |m.data| && b !in m.used
    ensures m.inode[i].addrs[NDIRECT] != b
    ensures Owned(WithEntry(m, i, j, b), dstart, owner[b := Owner(i, NDIRECT + 1 + j)])
  {
    SlotsWithEntry(m, dstart, owner, i, j, b, i, NDIRECT);
    var m' := WithEntry(m, i, j, b);
    forall i2, k2 | 0 <= i2 < |m'.inode| && 0 <= k2 < NSLOT
      ensures Slot(m', i2, k2) == if i2 == i && k2 == NDIRECT + 1 + j then b else Slot(m, i2, k2)
    {
      SlotsWithEntry(m, dstart, owner, i, j, b, i2, k2);
    }
    assert b !in owner;
  }

  /** Writing into a block that holds file data changes no slot. */
  lemma DataWriteKeeps(m: Image, dstart: nat, owner: map<nat, Owner>, a: nat, blk: seq<Byte>)
    requires Owned(m, dstart, owner) && a in owner && owner[a].k != NDIRECT && |blk| == BSIZE
    ensures Owned(m.(data := m.data[a := blk]), dstart, owner)
    ensures forall i, k :: 0 <= i < |m.inode| && 0 <= k < NSLOT ==>
              Slot(m.(data := m.data[a := blk]), i, k) == Slot(m, i, k)
  {
    var m' := m.(data := m.data[a := blk]);
    assert Shape(m');
    forall i, k | 0 <= i < |m.inode| && 0 <= k < NSLOT ensures Slot(m', i, k) == Slot(m, i, k) {
      assert m.inode[i].addrs[NDIRECT] == Slot(m, i, NDIRECT);
    }
  }
}
