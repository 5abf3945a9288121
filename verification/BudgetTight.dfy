/**
 The bound of filewrite's chunk (kernel/file.c) is exact: a write that begins inside the last
 direct block of a file logs MAXOPBLOCKS blocks when its four new blocks have their bits in
 four bitmap blocks.
 */
module BudgetTight {
  import opened Common
  import opened DiskImage
  import opened BlockMap
  import opened FileBytes
  import opened WriteBudget
  import opened FileSystem

  ghost function FreeBlocks(used: set<nat>, size: nat): set<nat> {
    set b | 0 <= b < size && b !in used
  }

  /** No two free blocks share a bitmap block. */
  ghost predicate Scattered(used: set<nat>, size: nat) {
    forall a: nat, b: nat :: a < b < size && a !in used && b !in used ==> a / BPB != b / BPB
  }

  /** With more than MAXOPBLOCKS free blocks the disk cannot fill up within the budget. */
  lemma NotFull(used: set<nat>, used': set<nat>, logged: set<nat>, bmapstart: nat, size: nat)
    requires Noted(used, used', {}, logged, bmapstart) && |logged| <= MAXOPBLOCKS < |FreeBlocks(used, size)|
    ensures exists x: nat :: x < size && x !in used'
  {
    if forall x: nat :: x < size ==> x in used' {
      forall b | b in FreeBlocks(used, size) ensures b in logged { }
      SubsetCard(FreeBlocks(used, size), logged);
    }
  }

  /** A block in a slot that was empty was free. */
  lemma NewInSlot(m: Image, m': Image, dstart: nat, owner: map<nat, Owner>, owner': map<nat, Owner>, i: nat, k: nat)
    requires Owned(m, dstart, owner) && Owned(m', dstart, owner') && Kept(owner, owner') && i < |m.inode| == |m'.inode|
    requires k < NSLOT
    requires Slot(m, i, k) == 0 && Slot(m', i, k) != 0
    ensures Slot(m', i, k) !in m.used && Slot(m', i, k) in m'.used && dstart <= Slot(m', i, k) < |m'.data|
  {
    hide Slot;
    var d := Slot(m', i, k);
    assert d in owner' && owner'[d] == Owner(i, k);
    assert d in owner ==> owner[d] == Owner(i, k) && NamedBy(m, owner[d], d);
  }

  /** Blocks in different slots differ. */
  lemma SlotsDiffer(m: Image, dstart: nat, owner: map<nat, Owner>, i: nat, k: nat, l: nat)
    requires Owned(m, dstart, owner) && i < |m.inode| && k < NSLOT && l < NSLOT && k != l && Slot(m, i, k) != 0
    requires Slot(m, i, l) != 0
    ensures Slot(m, i, k) != Slot(m, i, l)
  {
    hide Slot;
    assert owner[Slot(m, i, k)] == Owner(i, k) && owner[Slot(m, i, l)] == Owner(i, l);
  }

  lemma FourCard(a: nat, b: nat, c: nat, d: nat)
    requires a != b && a != c && a != d && b != c && b != d && c != d
    ensures |{a, b, c, d}| == 4
  {
  }

  lemma FiveCard(e: nat, a: nat, b: nat, c: nat, d: nat)
    requires e != a && e != b && e != c && e != d && a != b && a != c && a != d && b != c && b != d && c != d
    ensures |{e, a, b, c, d}| == 5
  {
    FourCard(a, b, c, d);
    assert {e, a, b, c, d} == {a, b, c, d} + {e};
  }

  /** The inode's block, bitmap blocks and data blocks are different ones. */
  lemma Layers(logged: set<nat>, files: set<nat>, maps: set<nat>, iblock: nat, dstart: nat)
    requires iblock < dstart && (forall x :: x in files ==> dstart <= x)
    requires forall x :: x in maps ==> iblock < x < dstart
    requires files <= logged && maps <= logged && iblock in logged
    ensures |logged| >= |files| + |maps| + 1
  {
    assert files !! maps && iblock !in files + maps;
    assert |files + maps + {iblock}| == |files| + |maps| + 1;
    SubsetCard(files + maps + {iblock}, logged);
  }

  /** Ten different blocks: the inode's, four of the file, the indirect one and four bitmaps. */
  lemma TenBlocks(logged: set<nat>, iblock: nat, dstart: nat, e: nat, a: nat, b: nat, c: nat, d: nat, p: nat, q: nat,
      r: nat, t: nat)
    requires iblock < p < dstart && iblock < q < dstart && iblock < r < dstart && iblock < t < dstart
    requires dstart <= e && dstart <= a && dstart <= b && dstart <= c && dstart <= d
    requires e != a && e != b && e != c && e != d && a != b && a != c && a != d && b != c && b != d && c != d
    requires p != q && p != r && p != t && q != r && q != t && r != t
    requires {e, a, b, c, d} <= logged && {p, q, r, t} <= logged && iblock in logged
    ensures |logged| >= 10
  {
    FiveCard(e, a, b, c, d);
    FourCard(p, q, r, t);
    Layers(logged, {e, a, b, c, d}, {p, q, r, t}, iblock, dstart);
  }

  /** The file ends inside its last direct block and has no indirect block. */
  ghost predicate AtTheEdge(m: Image, i: nat) {
    && Shape(m) && i < |m.inode| && (NDIRECT - 1) * BSIZE < m.inode[i].size < NDIRECT * BSIZE
         && Slot(m, i, NDIRECT) == 0
  }

  /** One whole chunk appended there. */
  method TightChunk(fs: FileSystem, i: nat, src: seq<Byte>) returns (r: int)
    requires fs.Valid() && FilesOk(fs.Img()) && i < |fs.inode| && |src| == MAXCHUNK && AtTheEdge(fs.Img(), i)
    requires fs.inodestart + i / IPB < fs.bmapstart && fs.bmapstart + fs.size / BPB < fs.dstart
    requires fs.logged == {} && Scattered(fs.used, fs.size) && |FreeBlocks(fs.used, fs.size)| > MAXOPBLOCKS
    modifies fs
    ensures r == MAXCHUNK && |fs.logged| == MAXOPBLOCKS
  {
    hide Owned, BitmapOk, FilesOk, Spliced, Touched, Noted, Kept, Slot, Scattered;
    ghost var m, owner, used, off := fs.Img(), fs.owner, fs.used, fs.inode[i].size;
    assert MAXCHUNK == 3072;
    r := fs.Writei(i, fs.inode[i].size, src);
    assert fs.logged - {} == fs.logged;
    NotFull(used, fs.used, fs.logged, fs.bmapstart, fs.size);
    assert src[..r] == src;
    Ten(m, fs.Img(), fs.dstart, owner, fs.owner, i, off, src, fs.logged, fs.bmapstart, fs.inodestart + i / IPB,
        fs.size);
  }

  lemma Ten(m: Image, m': Image, dstart: nat, owner: map<nat, Owner>, owner': map<nat, Owner>, i: nat, off: nat,
      src: seq<Byte>,
            logged: set<nat>, bmapstart: nat, iblock: nat, size: nat)
    requires Owned(m, dstart, owner) && Owned(m', dstart, owner') && Kept(owner, owner') && AtTheEdge(m, i)
    requires off == m.inode[i].size
    requires FilesOk(m) && |src| == MAXCHUNK && Spliced(m, m', i, off, src) && |m'.data| == |m.data| == size
    requires Touched(m', i, off, MAXCHUNK, logged) && iblock in logged && Noted(m.used, m'.used, {}, logged, bmapstart)
    requires Scattered(m.used, size) && iblock < bmapstart && bmapstart + size / BPB < dstart
    ensures |logged| >= 10
  {
    hide Owned, Slot, Noted, Touched, Scattered, Bitmap, Spliced, FilesOk;
    EdgeSlots(m, m', i, off, src, dstart, owner, owner');
    var e, a, b, c, d := Slot(m', i, 11), Slot(m', i, NDIRECT), Slot(m', i, SlotOf(12)), Slot(m', i, SlotOf(13)),
        Slot(m', i, SlotOf(14));
    LoggedSlots(m', i, off, logged);
    NewBlock(m, m', dstart, owner, owner', i, NDIRECT, logged, bmapstart);
    NewBlock(m, m', dstart, owner, owner', i, SlotOf(12), logged, bmapstart);
    NewBlock(m, m', dstart, owner, owner', i, SlotOf(13), logged, bmapstart);
    NewBlock(m, m', dstart, owner, owner', i, SlotOf(14), logged, bmapstart);
    InSlot(m', dstart, owner', i, 11);
    FiveDiffer(m', dstart, owner', i);
    var u, p := m.used, bmapstart;
    InMaps(p, size, dstart, a); InMaps(p, size, dstart, b); InMaps(p, size, dstart, c); InMaps(p, size, dstart, d);
    Apart(u, size, p, a, b); Apart(u, size, p, a, c); Apart(u, size, p, a, d);
    Apart(u, size, p, b, c); Apart(u, size, p, b, d); Apart(u, size, p, c, d);
    TenBlocks(logged, iblock, dstart, e, a, b, c, d, Bitmap(p, a), Bitmap(p, b), Bitmap(p, c), Bitmap(p, d));
  }

  /** The bitmap block of block b. */
  ghost function Bitmap(bmapstart: nat, b: nat): nat {
    bmapstart + b / BPB
  }

  lemma InMaps(bmapstart: nat, size: nat, dstart: nat, b: nat)
    requires b < size && bmapstart + size / BPB < dstart
    ensures bmapstart <= Bitmap(bmapstart, b) < dstart
  {
  }

  lemma Apart(used: set<nat>, size: nat, bmapstart: nat, a: nat, b: nat)
    requires Scattered(used, size) && a !in used && b !in used && a != b && a < size && b < size
    ensures Bitmap(bmapstart, a) != Bitmap(bmapstart, b)
  {
    assert a < b || b < a;
  }

  lemma InSlot(m: Image, dstart: nat, owner: map<nat, Owner>, i: nat, k: nat)
    requires Owned(m, dstart, owner) && i < |m.inode| && k < NSLOT && Slot(m, i, k) != 0
    ensures dstart <= Slot(m, i, k) < |m.data|
  {
    hide Slot;
  }

  lemma NewBlock(m: Image, m': Image, dstart: nat, owner: map<nat, Owner>, owner': map<nat, Owner>, i: nat, k: nat,
      logged: set<nat>, bmapstart: nat)
    requires Owned(m, dstart, owner) && Owned(m', dstart, owner') && Kept(owner, owner') && i < |m.inode| == |m'.inode|
    requires k < NSLOT
    requires Slot(m, i, k) == 0 && Slot(m', i, k) != 0 && Noted(m.used, m'.used, {}, logged, bmapstart)
    ensures var b := Slot(m', i, k); b !in m.used && dstart <= b < |m'.data| && b in logged && Bitmap(bmapstart, b) in logged
  {
    hide Owned, Slot, Kept;
    NewInSlot(m, m', dstart, owner, owner', i, k);
  }

  lemma FiveDiffer(m: Image, dstart: nat, owner: map<nat, Owner>, i: nat)
    requires Owned(m, dstart, owner) && i < |m.inode|
    requires Slot(m, i, 11) != 0 && Slot(m, i, NDIRECT) != 0 && Slot(m, i, SlotOf(12)) != 0
    requires Slot(m, i, SlotOf(13)) != 0 && Slot(m, i, SlotOf(14)) != 0
    ensures var e, a, b, c, d := Slot(m, i, 11), Slot(m, i, NDIRECT), Slot(m, i, SlotOf(12)), Slot(m, i, SlotOf(13)),
        Slot(m, i, SlotOf(14));
            e != a && e != b && e != c && e != d && a != b && a != c && a != d && b != c && b != d && c != d
  {
    hide Slot;
    forall k, l | 11 <= k < l <= 15 && Slot(m, i, k) != 0 && Slot(m, i, l) != 0 ensures Slot(m, i, k) != Slot(m, i, l) {
      SlotsDiffer(m, dstart, owner, i, k, l);
    }
  }

  lemma LoggedSlots(m: Image, i: nat, off: nat, logged: set<nat>)
    requires Shape(m) && i < |m.inode| && (NDIRECT - 1) * BSIZE < off < NDIRECT * BSIZE
    requires Touched(m, i, off, MAXCHUNK, logged)
    ensures Slot(m, i, 11) in logged && Slot(m, i, SlotOf(12)) in logged && Slot(m, i, SlotOf(13)) in logged
    ensures Slot(m, i, SlotOf(14)) in logged
  {
    hide Slot;
    assert MAXCHUNK == 3072 && SlotOf(11) == 11 && off / BSIZE == 11;
  }

  /** The last direct slot was there; the three behind it and the indirect one are new. */
  lemma EdgeSlots(m: Image, m': Image, i: nat, off: nat, src: seq<Byte>, dstart: nat, owner: map<nat, Owner>,
      owner': map<nat, Owner>)
    requires AtTheEdge(m, i) && off == m.inode[i].size && |src| == MAXCHUNK && FilesOk(m) && Spliced(m, m', i, off, src)
    requires Owned(m', dstart, owner')
    ensures |m'.inode| == |m.inode| && Shape(m')
    ensures Slot(m, i, SlotOf(12)) == Slot(m, i, SlotOf(13)) == Slot(m, i, SlotOf(14)) == 0
    ensures Slot(m', i, 11) != 0 && Slot(m', i, NDIRECT) != 0
    ensures Slot(m', i, SlotOf(12)) != 0 && Slot(m', i, SlotOf(13)) != 0 && Slot(m', i, SlotOf(14)) != 0
  {
    hide Slot, Content, FilesOk, Backed;
    assert MAXCHUNK == 3072 && SlotOf(11) == 11;
    SplicedSizeIs(m, m', i, off, src);
    NoneBehind(m, i);
    SlotNamed(m', i, 11);
    SlotNamed(m', i, 12);
    SlotNamed(m', i, 13);
    SlotNamed(m', i, 14);
  }

  /** Without an indirect block there are no blocks behind the direct ones. */
  lemma NoneBehind(m: Image, i: nat)
    requires AtTheEdge(m, i)
    ensures Slot(m, i, SlotOf(12)) == Slot(m, i, SlotOf(13)) == Slot(m, i, SlotOf(14)) == 0
  {
  }

  /** A file block below the size has a block, and so has the indirect block that names it. */
  lemma SlotNamed(m: Image, i: nat, bn: nat)
    requires Shape(m) && FilesOk(m) && i < |m.inode| && bn < MAXFILE && bn * BSIZE < m.inode[i].size
    ensures Slot(m, i, SlotOf(bn)) != 0 && (bn >= NDIRECT ==> Slot(m, i, NDIRECT) != 0)
  {
    assert Backed(m, i, m.inode[i].size);
  }

  lemma SplicedSizeIs(m: Image, m': Image, i: nat, off: nat, src: seq<Byte>)
    requires Shape(m) && i < |m.inode| && off == m.inode[i].size && Spliced(m, m', i, off, src)
    ensures m'.inode[i].size == off + |src|
  {
    assert |Content(m', i)| == m'.inode[i].size && |Content(m, i)| == off;
  }
}
