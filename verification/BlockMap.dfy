/**
 What one call of bmap (kernel/fs.c) does to the disk image: which slots fill up,
 what stays as it was, and which blocks it logs.
 */
module BlockMap {
  import opened Common
  import opened DiskImage

  ghost function NonZero(a: nat): set<nat> {
    if a == 0 then {} else {a}
  }

  /** 1 if the slot was empty and is not any more. */
  ghost function Allocated(m: Image, m': Image, i: nat, k: nat): nat
    requires Shape(m) && Shape(m') && i < |m.inode| == |m'.inode| && k < NSLOT
  {
    if Slot(m, i, k) == 0 && Slot(m', i, k) != 0 then 1 else 0
  }

  /** Slot k of inode i, empty before, now names block b, zeroed and marked; no other
      slot, no file data and no other inode field differs. */
  ghost predicate OneSlot(m: Image, m': Image, owner: map<nat, Owner>, i: nat, k: nat, b: nat)
    requires Shape(m) && i < |m.inode| && k < NSLOT
  {
    && Shape(m')
    && |m'.inode| == |m.inode| && |m'.data| == |m.data|
    && 0 < b < |m.data| && b !in m.used && m'.used == m.used + {b}
    && Slot(m, i, k) == 0 && m'.data[b] == Zeros()
    && (forall x :: 0 <= x < |m.inode| ==> m'.inode[x].(addrs := []) == m.inode[x].(addrs := []))
    && (forall x, y :: 0 <= x < |m.inode| && 0 <= y < NSLOT ==>
          Slot(m', x, y) == if x == i && y == k then b else Slot(m, x, y))
    && (forall a :: a in owner && a < |m.data| && owner[a].k != NDIRECT ==> m'.data[a] == m.data[a])
  }

  lemma DirectIsOneSlot(m: Image, dstart: nat, owner: map<nat, Owner>, i: nat, k: nat, b: nat)
    requires Owned(m, dstart, owner) && i < |m.inode| && k <= NDIRECT && Slot(m, i, k) == 0
    requires dstart <= b < |m.data| && b !in m.used
    ensures OneSlot(m, WithDirect(m, i, k, b), owner, i, k, b)
  {
    var m' := WithDirect(m, i, k, b);
    SlotsWithDirect(m, dstart, owner, i, k, b, i, k);
    forall x, y | 0 <= x < |m.inode| && 0 <= y < NSLOT
      ensures Slot(m', x, y) == if x == i && y == k then b else Slot(m, x, y)
    {
      SlotsWithDirect(m, dstart, owner, i, k, b, x, y);
    }
  }

  lemma EntryIsOneSlot(m: Image, dstart: nat, owner: map<nat, Owner>, i: nat, j: nat, b: nat)
    requires Owned(m, dstart, owner) && i < |m.inode| && j < NINDIRECT && Slot(m, i, NDIRECT) != 0
    requires Slot(m, i, NDIRECT + 1 + j) == 0 && dstart <= b < |m.data| && b !in m.used
    ensures m.inode[i].addrs[NDIRECT] != b
    ensures OneSlot(m, WithEntry(m, i, j, b), owner, i, NDIRECT + 1 + j, b)
  {
    SlotsWithEntry(m, dstart, owner, i, j, b, i, NDIRECT);
    var m' := WithEntry(m, i, j, b);
    forall x, y | 0 <= x < |m.inode| && 0 <= y < NSLOT
      ensures Slot(m', x, y) == if x == i && y == NDIRECT + 1 + j then b else Slot(m, x, y)
    {
      SlotsWithEntry(m, dstart, owner, i, j, b, x, y);
    }
    assert m.inode[i].addrs[NDIRECT] == Slot(m, i, NDIRECT);
  }

  /** What bmap does: the file block's slot and the indirect slot may fill up, nothing else changes. */
  ghost predicate MappedAs(m: Image, m': Image, owner: map<nat, Owner>, i: nat, bn: nat, addr: nat)
    requires Shape(m) && i < |m.inode| && bn < MAXFILE
  {
    && Shape(m')
    && |m'.inode| == |m.inode| && |m'.data| == |m.data| && m.used <= m'.used
    && (forall x :: 0 <= x < |m.inode| ==> m'.inode[x].(addrs := []) == m.inode[x].(addrs := []))
    && (forall x, k :: 0 <= x < |m.inode| && 0 <= k < NSLOT
                       && (Slot(m, x, k) != 0 || x != i || (k != SlotOf(bn) && (k != NDIRECT || bn < NDIRECT)))
                       ==> Slot(m', x, k) == Slot(m, x, k))
    && Slot(m', i, SlotOf(bn)) == addr < |m.data|
    && (addr != 0 && Slot(m, i, SlotOf(bn)) == 0 ==> m'.data[addr] == Zeros())
    && (forall a :: a in owner && a < |m.data| && owner[a].k != NDIRECT ==> m'.data[a] == m.data[a])
  }

  lemma MappedSame(m: Image, owner: map<nat, Owner>, i: nat, bn: nat)
    requires Shape(m) && i < |m.inode| && bn < MAXFILE && Slot(m, i, SlotOf(bn)) < |m.data|
    ensures MappedAs(m, m, owner, i, bn, Slot(m, i, SlotOf(bn)))
  {
  }

  lemma MappedOne(m: Image, m': Image, owner: map<nat, Owner>, i: nat, bn: nat, b: nat)
    requires Shape(m) && i < |m.inode| && bn < MAXFILE && OneSlot(m, m', owner, i, SlotOf(bn), b)
    ensures MappedAs(m, m', owner, i, bn, b) && Slot(m', i, SlotOf(bn)) == b
    ensures Allocated(m, m', i, SlotOf(bn)) == 1
  {
  }

  /** First the indirect block alone is allocated. */
  lemma MappedIndirect(m: Image, m1: Image, owner: map<nat, Owner>, i: nat, bn: nat, b: nat)
    requires Shape(m) && i < |m.inode| && NDIRECT <= bn < MAXFILE && OneSlot(m, m1, owner, i, NDIRECT, b)
    ensures Slot(m, i, SlotOf(bn)) == Slot(m1, i, SlotOf(bn)) == 0
    ensures MappedAs(m, m1, owner, i, bn, 0) && Slot(m1, i, NDIRECT) == b && Allocated(m, m1, i, NDIRECT) == 1
  {
  }

  /** Then the data block. */
  lemma MappedTwo(m: Image, m1: Image, m2: Image, owner: map<nat, Owner>, i: nat, bn: nat, b1: nat, b2: nat)
    requires Shape(m) && i < |m.inode| && NDIRECT <= bn < MAXFILE && OneSlot(m, m1, owner, i, NDIRECT, b1)
    requires OneSlot(m1, m2, owner, i, SlotOf(bn), b2)
    ensures MappedAs(m, m2, owner, i, bn, b2)
    ensures Slot(m2, i, NDIRECT) == b1 && Allocated(m, m2, i, NDIRECT) == 1 && Allocated(m, m2, i, SlotOf(bn)) == 1
  {
  }

  lemma OneSlotFewer(m: Image, m': Image, owner: map<nat, Owner>, owner': map<nat, Owner>, i: nat, k: nat, b: nat)
    requires Shape(m) && i < |m.inode| && k < NSLOT && OneSlot(m, m', owner', i, k, b)
    requires forall a :: a in owner ==> a in owner' && owner'[a] == owner[a]
    ensures OneSlot(m, m', owner, i, k, b)
  {
  }

  ghost predicate Kept(owner: map<nat, Owner>, owner': map<nat, Owner>) {
    forall b :: b in owner ==> b in owner' && owner'[b] == owner[b]
  }

  /** bmap logs the data block, the indirect block and, for each allocation, one bitmap block. */
  ghost predicate BmapLogs(logged: set<nat>, logged': set<nat>, bms: set<nat>, m: Image, m': Image, i: nat, bn: nat,
      addr: nat)
    requires Shape(m) && Shape(m') && i < |m.inode| == |m'.inode| && bn < MAXFILE
  {
    && logged' <= logged + bms + NonZero(addr) + NonZero(Slot(m', i, NDIRECT))
    && |bms| <= Allocated(m, m', i, SlotOf(bn)) + Allocated(m, m', i, NDIRECT)
  }

  /** One allocation: the slot filled, its owner recorded, one bitmap block, the block
      itself and perhaps the indirect block logged. */
  ghost predicate Entered(m: Image, m': Image, owner: map<nat, Owner>, owner': map<nat, Owner>,
                          logged: set<nat>, logged': set<nat>, bms: set<nat>, i: nat, k: nat, b: nat)
    requires Shape(m) && i < |m.inode| && k < NSLOT
  {
    && OneSlot(m, m', owner, i, k, b)
    && b !in owner && owner' == owner[b := Owner(i, k)]
    && |bms| == 1
    && logged' <= logged + bms + {b} + (if k <= NDIRECT then {} else NonZero(Slot(m', i, NDIRECT)))
  }

  /** Everything bmap promises. */
  ghost predicate Bmapped(m: Image, m': Image, owner: map<nat, Owner>, owner': map<nat, Owner>,
                          logged: set<nat>, logged': set<nat>, bms: set<nat>, i: nat, bn: nat, addr: nat)
    requires Shape(m) && i < |m.inode| && bn < MAXFILE
  {
    && MappedAs(m, m', owner, i, bn, addr)
    && (Slot(m, i, SlotOf(bn)) != 0 ==> m' == m && owner' == owner && logged' == logged)
    && Kept(owner, owner')
    && BmapLogs(logged, logged', bms, m, m', i, bn, addr)
  }

  lemma BmappedSame(m: Image, owner: map<nat, Owner>, logged: set<nat>, i: nat, bn: nat)
    requires Shape(m) && i < |m.inode| && bn < MAXFILE && Slot(m, i, SlotOf(bn)) < |m.data|
    ensures Bmapped(m, m, owner, owner, logged, logged, {}, i, bn, Slot(m, i, SlotOf(bn)))
  {
    MappedSame(m, owner, i, bn);
  }

  lemma BmappedOne(m: Image, m': Image, owner: map<nat, Owner>, owner': map<nat, Owner>,
                   logged: set<nat>, logged': set<nat>, bms: set<nat>, i: nat, bn: nat, b: nat)
    requires Shape(m) && i < |m.inode| && bn < MAXFILE
    requires Entered(m, m', owner, owner', logged, logged', bms, i, SlotOf(bn), b)
    ensures Bmapped(m, m', owner, owner', logged, logged', bms, i, bn, b)
  {
    MappedOne(m, m', owner, i, bn, b);
  }

  lemma BmappedIndirect(m: Image, m1: Image, owner: map<nat, Owner>, owner1: map<nat, Owner>,
                        logged: set<nat>, logged1: set<nat>, bms: set<nat>, i: nat, bn: nat, b: nat)
    requires Shape(m) && i < |m.inode| && NDIRECT <= bn < MAXFILE
    requires Entered(m, m1, owner, owner1, logged, logged1, bms, i, NDIRECT, b)
    ensures Shape(m1) && |m1.inode| == |m.inode|
    ensures Slot(m1, i, SlotOf(bn)) == 0 && Slot(m1, i, NDIRECT) != 0
    ensures Bmapped(m, m1, owner, owner1, logged, logged1, bms, i, bn, 0)
  {
    MappedIndirect(m, m1, owner, i, bn, b);
  }

  lemma BmappedTwo(m: Image, m1: Image, m2: Image, owner: map<nat, Owner>, owner1: map<nat, Owner>, owner2: map<nat,
      Owner>,
                   logged: set<nat>, logged1: set<nat>, logged2: set<nat>, bms1: set<nat>, bms2: set<nat>,
                   i: nat, bn: nat, b1: nat, b2: nat)
    requires Shape(m) && i < |m.inode| && NDIRECT <= bn < MAXFILE
    requires Entered(m, m1, owner, owner1, logged, logged1, bms1, i, NDIRECT, b1)
    requires Entered(m1, m2, owner1, owner2, logged1, logged2, bms2, i, SlotOf(bn), b2)
    ensures Bmapped(m, m2, owner, owner2, logged, logged2, bms1 + bms2, i, bn, b2)
  {
    OneSlotFewer(m1, m2, owner, owner1, i, SlotOf(bn), b2);
    MappedTwo(m, m1, m2, owner, i, bn, b1, b2);
    UnionCard(bms1, bms2);
  }
}
