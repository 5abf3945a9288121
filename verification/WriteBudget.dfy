/**
 How many distinct blocks one writei logs (kernel/fs.c), counted over its loop: data
 blocks, the indirect block, one bitmap block per allocation, and the inode's block.
 */
module WriteBudget {
  import opened Common
  import opened DiskImage
  import opened BlockMap
  import opened FileBytes

  const MAXOPBLOCKS: nat := 10

  /** The chunk filewrite hands to writei in one transaction. */
  const MAXCHUNK: nat := ((MAXOPBLOCKS - 1 - 1 - 2) / 2) * BSIZE

  /** What has been logged after `it` turns: data blocks `ds`, bitmap blocks `bs` for
      `news` data allocations and perhaps the indirect block, and that block. */
  datatype Count = Count(ds: set<nat>, bs: set<nat>, news: nat, it: nat)

  ghost predicate Budget(m0: Image, m: Image, i: nat, off: nat, tot: nat, n: nat,
                         logged0: set<nat>, logged: set<nat>, c: Count)
    requires Shape(m0) && Shape(m) && i < |m0.inode| == |m.inode|
  {
    && tot <= n
    && logged <= logged0 + c.ds + c.bs + NonZero(Slot(m, i, NDIRECT))
    && (Slot(m0, i, NDIRECT) != 0 ==> Slot(m, i, NDIRECT) == Slot(m0, i, NDIRECT))
    && |c.ds| <= c.it
    && |c.bs| <= c.news + Allocated(m0, m, i, NDIRECT)
    // an unaligned first block lies below the file's size, so it was there already
    && c.news <= c.it - (if off % BSIZE != 0 && c.it > 0 then 1 else 0)
    && (c.it == 0 ==> tot == 0)
    && (c.it > 0 && tot < n ==> tot == c.it * BSIZE - off % BSIZE)
    && (c.it > 0 ==> (c.it - 1) * BSIZE < n + off % BSIZE)
  }

  lemma BudgetStart(m: Image, i: nat, off: nat, n: nat, logged: set<nat>)
    requires Shape(m) && i < |m.inode|
    ensures Budget(m, m, i, off, 0, n, logged, logged, Count({}, {}, 0, 0))
  {
  }

  /** The bmap of one turn. */
  lemma BudgetBmap(m0: Image, m: Image, m1: Image, owner: map<nat, Owner>, owner1: map<nat, Owner>, i: nat, off: nat,
      tot: nat, n: nat,
                   logged0: set<nat>, logged: set<nat>, logged1: set<nat>, bms: set<nat>, bn: nat, addr: nat, c: Count)
    requires Shape(m0) && Shape(m) && i < |m0.inode| == |m.inode| && bn < MAXFILE
    requires Budget(m0, m, i, off, tot, n, logged0, logged, c)
    requires Bmapped(m, m1, owner, owner1, logged, logged1, bms, i, bn, addr)
    ensures Shape(m1) && |m1.inode| == |m.inode|
    ensures addr == 0 ==> Budget(m0, m1, i, off, tot, n, logged0, logged1, c.(bs := c.bs + bms))
    ensures logged1 <= logged0 + c.ds + (c.bs + bms) + NonZero(addr) + NonZero(Slot(m1, i, NDIRECT))
    ensures Slot(m0, i, NDIRECT) != 0 ==> Slot(m1, i, NDIRECT) == Slot(m0, i, NDIRECT)
    ensures |c.bs + bms| <= c.news + Allocated(m, m1, i, SlotOf(bn)) + Allocated(m0, m1, i, NDIRECT)
  {
    UnionCard(c.bs, bms);
    assert Slot(m, i, NDIRECT) != 0 ==> Slot(m1, i, NDIRECT) == Slot(m, i, NDIRECT);
    assert addr == 0 ==> Allocated(m, m1, i, SlotOf(bn)) == 0;
  }

  /** The rest of a successful turn: the data block is logged and tot advances. */
  lemma BudgetTurn(m0: Image, m: Image, m1: Image, i: nat, off: nat, tot: nat, n: nat, mm: nat,
                   logged0: set<nat>, logged: set<nat>, logged1: set<nat>, bms: set<nat>, addr: nat, c: Count)
    requires Shape(m0) && Shape(m) && Shape(m1) && i < |m0.inode| == |m.inode| == |m1.inode|
    requires off + n <= MAXFILE * BSIZE && off <= m0.inode[i].size && tot < n
    requires Budget(m0, m, i, off, tot, n, logged0, logged, c) && Backed(m, i, Max(m0.inode[i].size, off + tot))
    requires mm == if n - tot < BSIZE - (off + tot) % BSIZE then n - tot else BSIZE - (off + tot) % BSIZE
    requires logged1 <= logged0 + c.ds + (c.bs + bms) + NonZero(addr) + NonZero(Slot(m1, i, NDIRECT)) && addr != 0
    requires Slot(m0, i, NDIRECT) != 0 ==> Slot(m1, i, NDIRECT) == Slot(m0, i, NDIRECT)
    requires |c.bs + bms| <= c.news + Allocated(m, m1, i, SlotOf((off + tot) / BSIZE)) + Allocated(m0, m1, i, NDIRECT)
    ensures Budget(m0, m1, i, off, tot + mm, n, logged0, logged1 + {addr},
                   Count(c.ds + {addr}, c.bs + bms, c.news + Allocated(m, m1, i, SlotOf((off + tot) / BSIZE)),
                       c.it + 1))
  {
    var bn := (off + tot) / BSIZE;
    if c.it == 0 && off % BSIZE != 0 {
      assert bn * BSIZE < off;
      assert Allocated(m, m1, i, SlotOf(bn)) == 0;
    }
    UnionCard(c.ds, {addr});
    Turns(off, tot, n, mm, c.it);
  }

  /** Storing into a data block changes no slot, so no count. */
  lemma BudgetData(m0: Image, m: Image, dstart: nat, owner: map<nat, Owner>, i: nat, off: nat, tot: nat, n: nat,
                   logged0: set<nat>, logged: set<nat>, c: Count, a: nat, blk: seq<Byte>)
    requires Shape(m0) && i < |m0.inode| == |m.inode| && Owned(m, dstart, owner)
    requires Budget(m0, m, i, off, tot, n, logged0, logged, c)
    requires a < |m.data| && |blk| == BSIZE && a in owner && owner[a].k != NDIRECT
    ensures Shape(m.(data := m.data[a := blk]))
    ensures Budget(m0, m.(data := m.data[a := blk]), i, off, tot, n, logged0, logged, c)
  {
    DataWriteKeeps(m, dstart, owner, a, blk);
  }

  lemma SlotOwner(m: Image, dstart: nat, owner: map<nat, Owner>, i: nat, bn: nat)
    requires Owned(m, dstart, owner) && i < |m.inode| && bn < MAXFILE && Slot(m, i, SlotOf(bn)) != 0
    ensures Slot(m, i, SlotOf(bn)) in owner && owner[Slot(m, i, SlotOf(bn))].k != NDIRECT
  {
  }

  /** Positions: every turn but the first starts on a block boundary. */
  lemma Turns(off: nat, tot: nat, n: nat, mm: nat, it: nat)
    requires tot < n && mm == if n - tot < BSIZE - (off + tot) % BSIZE then n - tot else BSIZE - (off + tot) % BSIZE
    requires it == 0 ==> tot == 0
    requires it > 0 ==> tot == it * BSIZE - off % BSIZE
    ensures tot + mm < n ==> tot + mm == (it + 1) * BSIZE - off % BSIZE
    ensures it * BSIZE < n + off % BSIZE
  {
    if it > 0 {
      assert off + tot == (off / BSIZE + it) * BSIZE;
      assert (off + tot) % BSIZE == 0;
    }
  }

  /** A whole writei of at most one chunk, with the inode's block at the end. */
  lemma WithinBudget(m0: Image, m: Image, i: nat, off: nat, tot: nat, n: nat,
                     logged0: set<nat>, logged: set<nat>, c: Count, iblock: nat)
    requires Shape(m0) && Shape(m) && i < |m0.inode| == |m.inode|
    requires Budget(m0, m, i, off, tot, n, logged0, logged, c) && n <= MAXCHUNK
    ensures |logged + {iblock} - logged0| <= MAXOPBLOCKS
  {
    assert c.it <= (if off % BSIZE != 0 then 4 else 3);
    var ind := NonZero(Slot(m, i, NDIRECT));
    var all := c.ds + c.bs + ind + {iblock};
    UnionCard(c.ds, c.bs);
    UnionCard(c.ds + c.bs, ind);
    UnionCard(c.ds + c.bs + ind, {iblock});
    SubsetCard(logged + {iblock} - logged0, all);
  }

  lemma BmappedMeans(m: Image, m': Image, owner: map<nat, Owner>, owner': map<nat, Owner>,
                     logged: set<nat>, logged': set<nat>, bms: set<nat>, i: nat, bn: nat, addr: nat)
    requires Shape(m) && i < |m.inode| && bn < MAXFILE
    requires Bmapped(m, m', owner, owner', logged, logged', bms, i, bn, addr)
    ensures MappedAs(m, m', owner, i, bn, addr) && Shape(m') && |m'.inode| == |m.inode|
    ensures Slot(m', i, SlotOf(bn)) == addr < |m'.data| && |m'.data[addr]| == BSIZE && Kept(owner, owner')
  {
  }

  lemma WroteBacked(m0: Image, m: Image, i: nat, off: nat, src: seq<Byte>, tot: nat)
    requires Shape(m0) && i < |m0.inode| && m0.inode[i].size <= MAXFILE * BSIZE && tot <= |src|
    requires off + |src| <= MAXFILE * BSIZE && Wrote(m0, m, i, off, src, tot)
    ensures Shape(m) && |m.inode| == |m0.inode| && Backed(m, i, Max(m0.inode[i].size, off + tot))
  {
  }

  /** How much of src the turn at tot takes. */
  function Piece(off: nat, n: nat, tot: nat): (r: nat)
    requires tot < n
    ensures 0 < r <= n - tot && (off + tot) % BSIZE + r <= BSIZE
  {
    if n - tot < BSIZE - (off + tot) % BSIZE then n - tot else BSIZE - (off + tot) % BSIZE
  }

  ghost function NextCount(c: Count, m: Image, m1: Image, i: nat, bn: nat, addr: nat, bms: set<nat>): Count
    requires Shape(m) && Shape(m1) && i < |m.inode| == |m1.inode| && bn < MAXFILE
  {
    Count(c.ds + {addr}, c.bs + bms, c.news + Allocated(m, m1, i, SlotOf(bn)), c.it + 1)
  }

  ghost function Patched(m: Image, a: nat, p: nat, s: seq<Byte>): (r: Image)
    requires Shape(m) && a < |m.data| && p + |s| <= BSIZE
    ensures |r.inode| == |m.inode|
  {
    m.(data := m.data[a := Patch(m.data[a], p, s)])
  }

  /** The state of the loop of writei after `tot` bytes. */
  ghost predicate Turned(m0: Image, m: Image, dstart: nat, owner: map<nat, Owner>, i: nat, off: nat, src: seq<Byte>,
      tot: nat,
                         logged0: set<nat>, logged: set<nat>, c: Count)
    requires Shape(m0) && i < |m0.inode| && m0.inode[i].size <= MAXFILE * BSIZE && off + |src| <= MAXFILE * BSIZE
  {
    && tot <= |src| && Shape(m) && |m.inode| == |m0.inode|
    && Owned(m, dstart, owner)
    && Wrote(m0, m, i, off, src, tot)
    && Budget(m0, m, i, off, tot, |src|, logged0, logged, c)
  }

  /** A turn that finds the disk full. */
  lemma TurnNone(m0: Image, m: Image, m1: Image, dstart: nat, owner: map<nat, Owner>, owner1: map<nat, Owner>,
                 i: nat, off: nat, src: seq<Byte>, tot: nat,
                 logged0: set<nat>, logged: set<nat>, logged1: set<nat>, bms: set<nat>, c: Count)
    requires Shape(m0) && i < |m0.inode| && off <= m0.inode[i].size <= MAXFILE * BSIZE
    requires tot < |src| && off + |src| <= MAXFILE * BSIZE && Owned(m, dstart, owner) && |m.inode| == |m0.inode|
    requires Wrote(m0, m, i, off, src, tot) && Budget(m0, m, i, off, tot, |src|, logged0, logged, c)
    requires Bmapped(m, m1, owner, owner1, logged, logged1, bms, i, (off + tot) / BSIZE, 0)
    ensures Shape(m1) && |m1.inode| == |m.inode| && Wrote(m0, m1, i, off, src, tot)
    ensures Budget(m0, m1, i, off, tot, |src|, logged0, logged1, c.(bs := c.bs + bms))
  {
    var bn := (off + tot) / BSIZE;
    BmappedMeans(m, m1, owner, owner1, logged, logged1, bms, i, bn, 0);
    WroteBmap(m0, m, m1, dstart, owner, i, off, src, tot, bn, 0);
    BudgetBmap(m0, m, m1, owner, owner1, i, off, tot, |src|, logged0, logged, logged1, bms, bn, 0, c);
  }

  /** A turn that writes its piece into block addr. */
  lemma TurnDone(m0: Image, m: Image, m1: Image, dstart: nat, owner: map<nat, Owner>, owner1: map<nat, Owner>,
                 i: nat, off: nat, src: seq<Byte>, tot: nat,
                 logged0: set<nat>, logged: set<nat>, logged1: set<nat>, bms: set<nat>, addr: nat, c: Count)
    requires Shape(m0) && Shape(m) && Shape(m1) && i < |m0.inode| && off <= m0.inode[i].size <= MAXFILE * BSIZE
    requires tot < |src| && off + |src| <= MAXFILE * BSIZE && |m.inode| == |m0.inode|
    requires Owned(m, dstart, owner) && Owned(m1, dstart, owner1)
    requires Wrote(m0, m, i, off, src, tot) && Budget(m0, m, i, off, tot, |src|, logged0, logged, c)
    requires |m1.inode| == |m.inode| && 0 < addr < |m1.data|
    requires Bmapped(m, m1, owner, owner1, logged, logged1, bms, i, (off + tot) / BSIZE, addr)
    ensures Turned(m0, Patched(m1, addr, (off + tot) % BSIZE, src[tot..tot + Piece(off, |src|, tot)]), dstart, owner1,
                   i, off, src, tot + Piece(off, |src|, tot), logged0, logged1 + {addr},
                   NextCount(c, m, m1, i, (off + tot) / BSIZE, addr, bms))
  {
    hide Owned, Wrote, Budget, Bmapped, MappedAs, Slot, Patch, Shape, NextCount;
    var bn, mm := (off + tot) / BSIZE, Piece(off, |src|, tot);
    BmappedMeans(m, m1, owner, owner1, logged, logged1, bms, i, bn, addr);
    WroteBmap(m0, m, m1, dstart, owner, i, off, src, tot, bn, addr);
    TurnBudget(m0, m, m1, owner, owner1, i, off, src, tot, logged0, logged, logged1, bms, addr, c);
    WroteBlock(m0, m1, dstart, owner1, i, off, src, tot, mm);
    SlotOwner(m1, dstart, owner1, i, bn);
    BudgetData(m0, m1, dstart, owner1, i, off, tot + mm, |src|, logged0, logged1 + {addr},
               NextCount(c, m, m1, i, bn, addr, bms), addr, Patch(m1.data[addr], (off + tot) % BSIZE,
                   src[tot..tot + mm]));
  }

  lemma TurnBudget(m0: Image, m: Image, m1: Image, owner: map<nat, Owner>, owner1: map<nat, Owner>,
                   i: nat, off: nat, src: seq<Byte>, tot: nat,
                   logged0: set<nat>, logged: set<nat>, logged1: set<nat>, bms: set<nat>, addr: nat, c: Count)
    requires Shape(m0) && Shape(m) && Shape(m1) && i < |m0.inode| == |m.inode|
    requires off <= m0.inode[i].size <= MAXFILE * BSIZE
    requires tot < |src| && off + |src| <= MAXFILE * BSIZE
    requires Wrote(m0, m, i, off, src, tot) && Budget(m0, m, i, off, tot, |src|, logged0, logged, c)
    requires Bmapped(m, m1, owner, owner1, logged, logged1, bms, i, (off + tot) / BSIZE, addr) && addr != 0
    ensures |m1.inode| == |m.inode|
    ensures Budget(m0, m1, i, off, tot + Piece(off, |src|, tot), |src|, logged0, logged1 + {addr},
                   NextCount(c, m, m1, i, (off + tot) / BSIZE, addr, bms))
  {
    hide Wrote, Budget, Bmapped, Slot;
    BudgetBmap(m0, m, m1, owner, owner1, i, off, tot, |src|, logged0, logged, logged1, bms, (off + tot) / BSIZE, addr,
        c);
    WroteBacked(m0, m, i, off, src, tot);
    BudgetTurn(m0, m, m1, i, off, tot, |src|, Piece(off, |src|, tot), logged0, logged, logged1, bms, addr, c);
  }

  // --------------------------------------------------------------- what must be logged

  /** Every block newly in use, and its bitmap block, has been logged. */
  ghost predicate Noted(used: set<nat>, used': set<nat>, logged: set<nat>, logged': set<nat>, bmapstart: nat) {
    && used <= used' && logged <= logged'
    && forall b :: b in used' && b !in used ==> b in logged' && bmapstart + b / BPB in logged'
  }

  lemma NotedTrans(u0: set<nat>, u1: set<nat>, u2: set<nat>, l0: set<nat>, l1: set<nat>, l2: set<nat>, bmapstart: nat)
    requires Noted(u0, u1, l0, l1, bmapstart) && Noted(u1, u2, l1, l2, bmapstart)
    ensures Noted(u0, u2, l0, l2, bmapstart)
  {
  }

  /** The blocks of file i that hold bytes off..off + tot have been logged. */
  ghost predicate Touched(m: Image, i: nat, off: nat, tot: nat, logged: set<nat>)
    requires Shape(m) && i < |m.inode|
  {
    forall bn :: off / BSIZE <= bn < MAXFILE && bn * BSIZE < off + tot && tot > 0 ==> Slot(m, i, SlotOf(bn)) in logged
  }

  /** A turn of writei: the blocks touched before are still the same, and logged. */
  lemma TouchedNext(m: Image, m1: Image, m2: Image, owner: map<nat, Owner>, i: nat, off: nat, tot: nat, mm: nat,
      addr: nat,
                    logged: set<nat>, logged': set<nat>)
    requires Shape(m) && i < |m.inode| && Touched(m, i, off, tot, logged) && logged <= logged' && addr in logged'
    requires off + tot <= MAXFILE * BSIZE && Backed(m, i, off + tot) && (off + tot) / BSIZE < MAXFILE
    requires (off + tot) % BSIZE + mm <= BSIZE
    requires MappedAs(m, m1, owner, i, (off + tot) / BSIZE, addr) && Shape(m2) && |m2.inode| == |m1.inode|
    requires forall k :: 0 <= k < NSLOT ==> Slot(m2, i, k) == Slot(m1, i, k)
    ensures Touched(m2, i, off, tot + mm, logged')
  {
    var b0 := (off + tot) / BSIZE;
    forall bn | off / BSIZE <= bn < MAXFILE && bn * BSIZE < off + (tot + mm) && tot + mm > 0
      ensures Slot(m2, i, SlotOf(bn)) in logged'
    {
      if bn != b0 {
        BlocksOfTurn(off, tot, mm, bn);
        assert Slot(m, i, SlotOf(bn)) in logged && Slot(m, i, SlotOf(bn)) != 0;
      }
    }
  }

  lemma BlocksOfTurn(off: nat, tot: nat, mm: nat, bn: nat)
    requires (off + tot) % BSIZE + mm <= BSIZE && off / BSIZE <= bn && bn * BSIZE < off + (tot + mm)
    requires bn != (off + tot) / BSIZE
    ensures tot > 0 && bn * BSIZE < off + tot
  {
  }

  lemma BackedLess(m: Image, i: nat, a: nat, b: nat)
    requires Shape(m) && i < |m.inode| && Backed(m, i, a) && b <= a
    ensures Backed(m, i, b)
  {
  }

  lemma TouchedNone(m: Image, i: nat, off: nat, logged: set<nat>)
    requires Shape(m) && i < |m.inode|
    ensures Touched(m, i, off, 0, logged)
  {
  }

  lemma WroteTop(m0: Image, m: Image, i: nat, off: nat, src: seq<Byte>, tot: nat)
    requires Shape(m0) && i < |m0.inode| && m0.inode[i].size <= MAXFILE * BSIZE && tot <= |src|
    requires off + |src| <= MAXFILE * BSIZE && Wrote(m0, m, i, off, src, tot)
    ensures Shape(m) && |m.inode| == |m0.inode| && Backed(m, i, off + tot)
  {
    WroteBacked(m0, m, i, off, src, tot);
    BackedLess(m, i, Max(m0.inode[i].size, off + tot), off + tot);
  }

  /** A turn without a block: what was touched is as before. */
  lemma TouchedSame(m: Image, m1: Image, owner: map<nat, Owner>, i: nat, off: nat, tot: nat, bn: nat, logged: set<nat>,
      logged': set<nat>,
                    used: set<nat>, used': set<nat>, bmapstart: nat)
    requires Shape(m) && i < |m.inode| && bn < MAXFILE && off + tot <= MAXFILE * BSIZE && Backed(m, i, off + tot)
    requires Touched(m, i, off, tot, logged)
    requires MappedAs(m, m1, owner, i, bn, 0) && Noted(used, used', logged, logged', bmapstart)
    ensures Shape(m1) && i < |m1.inode| && Touched(m1, i, off, tot + 0, logged')
  {
    forall b | off / BSIZE <= b < MAXFILE && b * BSIZE < off + tot && tot > 0
      ensures Slot(m1, i, SlotOf(b)) in logged'
    {
      assert Slot(m, i, SlotOf(b)) in logged && Slot(m, i, SlotOf(b)) != 0;
    }
  }

  /** A turn with one, the block written into. */
  lemma TouchedTurn(m: Image, m1: Image, m2: Image, owner: map<nat, Owner>, owner1: map<nat, Owner>, dstart: nat,
      i: nat, off: nat, tot: nat, mm: nat, addr: nat,
                    logged: set<nat>, logged1: set<nat>, used: set<nat>, used1: set<nat>, bmapstart: nat)
    requires Shape(m) && i < |m.inode| && Touched(m, i, off, tot, logged)
    requires Noted(used, used1, logged, logged1, bmapstart)
    requires off + tot <= MAXFILE * BSIZE && Backed(m, i, off + tot) && (off + tot) / BSIZE < MAXFILE
    requires (off + tot) % BSIZE + mm <= BSIZE
    requires MappedAs(m, m1, owner, i, (off + tot) / BSIZE, addr) && Owned(m1, dstart, owner1) && 0 < addr < |m1.data|
    requires m2 == m1.(data := m2.data) && |m2.data| == |m1.data| && |m2.data[addr]| == BSIZE
    requires m2.data == m1.data[addr := m2.data[addr]]
    ensures Shape(m2) && Touched(m2, i, off, tot + mm, logged1 + {addr})
    ensures Noted(used, used1, logged, logged1 + {addr}, bmapstart)
  {
    SlotOwner(m1, dstart, owner1, i, (off + tot) / BSIZE);
    DataWriteKeeps(m1, dstart, owner1, addr, m2.data[addr]);
    assert m2 == m1.(data := m1.data[addr := m2.data[addr]]);
    TouchedNext(m, m1, m2, owner, i, off, tot, mm, addr, logged, logged1 + {addr});
  }

  lemma KeptOwners(a: map<nat, Owner>, b: map<nat, Owner>, c: map<nat, Owner>)
    requires Kept(a, b) && Kept(b, c)
    ensures Kept(a, c)
  {
  }

  lemma TouchedResized(m: Image, i: nat, off: nat, tot: nat, size: nat, logged: set<nat>, more: set<nat>)
    requires Shape(m) && i < |m.inode| && Touched(m, i, off, tot, logged)
    ensures Shape(Resized(m, i, size)) && Touched(Resized(m, i, size), i, off, tot, logged + more)
  {
    hide Slot;
    ResizedBytes(m, i, size, i);
  }

  lemma NotedNone(used: set<nat>, logged: set<nat>, bmapstart: nat)
    ensures Noted(used, used, logged, logged, bmapstart)
  {
  }

  lemma NotedMore(used: set<nat>, used': set<nat>, logged: set<nat>, logged': set<nat>, more: set<nat>, bmapstart: nat)
    requires Noted(used, used', logged, logged', bmapstart)
    ensures Noted(used, used', logged, logged' + more, bmapstart)
  {
  }

  lemma KeptNone(owner: map<nat, Owner>)
    ensures Kept(owner, owner)
  {
  }
}
