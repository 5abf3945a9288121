/**
 Blocks and files of kernel/fs.c, with operations taken one at a time. `data` holds
 the logical contents of every block (what the log layer shows), `inode` the
 in-memory inodes and `dinode` their copies on disk. `logged` collects the blocks
 passed to log_write.
 */
module FileSystem {
  import opened DiskImage
  import opened BlockMap
  import opened FileBytes
  import opened WriteBudget
  import opened Truncate

  /** The blocks of the disk: the free bitmap, and the contents of every block. */
  datatype Disk = Disk(bitmap: seq<seq<bv8>>, data: seq<seq<Byte>>)

  /** The bitmap blocks say of every block of the disk whether it is in `used`. */
  ghost predicate BitmapOk(bitmap: seq<seq<bv8>>, used: set<nat>, size: nat) {
    && |bitmap| * BPB >= size
    && (forall k :: 0 <= k < |bitmap| ==> |bitmap[k]| == BSIZE)
    && (forall b :: 0 <= b < size ==> (b in used <==> Bit(bitmap[b / BPB], b % BPB)))
    && (forall b :: b in used ==> b < size)
  }

  lemma MarkKeeps(bitmap: seq<seq<bv8>>, used: set<nat>, size: nat, b: nat)
    requires BitmapOk(bitmap, used, size) && b < size
    ensures BitmapOk(bitmap[b / BPB := SetBit(bitmap[b / BPB], b % BPB)], used + {b}, size)
    ensures BitmapOk(bitmap[b / BPB := ClearBit(bitmap[b / BPB], b % BPB)], used - {b}, size)
  {
    hide Bit, SetBit, ClearBit;
    forall x | 0 <= x < size && x / BPB == b / BPB
      ensures Bit(SetBit(bitmap[b / BPB], b % BPB), x % BPB) <==> x == b || x in used
      ensures Bit(ClearBit(bitmap[b / BPB], b % BPB), x % BPB) <==> x != b && x in used
    {
      BitUpdate(bitmap[b / BPB], b % BPB, x % BPB);
    }
  }

  /** Inodes per block. */
  const IPB: nat := 16

  /** bmap of a block below the file's size finds it and changes nothing. */
  lemma BmapOfBacked(m: Image, m': Image, owner: map<nat, Owner>, owner': map<nat, Owner>,
                     logged: set<nat>, logged': set<nat>, bms: set<nat>, i: nat, bn: nat, addr: nat, size: nat)
    requires Shape(m) && i < |m.inode| && bn < MAXFILE && Backed(m, i, size) && bn * BSIZE < size
    requires Bmapped(m, m', owner, owner', logged, logged', bms, i, bn, addr)
    ensures m' == m && owner' == owner && logged' == logged && addr == Slot(m, i, SlotOf(bn)) != 0 && addr < |m.data|
  {
  }

  lemma WroteSize(m0: Image, m: Image, i: nat, off: nat, src: seq<Byte>, tot: nat)
    requires Shape(m0) && i < |m0.inode| && m0.inode[i].size <= MAXFILE * BSIZE && tot <= |src|
    requires off + |src| <= MAXFILE * BSIZE && Wrote(m0, m, i, off, src, tot)
    ensures Shape(m) && |m.inode| == |m0.inode| && m.inode[i].size == m0.inode[i].size
  {
    assert m.inode[i].(addrs := []).size == m0.inode[i].(addrs := []).size;
  }

  lemma ResizedOwned(m: Image, dstart: nat, owner: map<nat, Owner>, i: nat, size: nat)
    requires Owned(m, dstart, owner) && i < |m.inode|
    ensures Shape(Resized(m, i, size)) && Owned(Resized(m, i, size), dstart, owner)
  {
    var m' := Resized(m, i, size);
    assert Shape(m');
    forall j, k | 0 <= j < |m.inode| && 0 <= k < NSLOT ensures Slot(m', j, k) == Slot(m, j, k) {
      ResizedBytes(m, i, size, j);
    }
  }

  /** File i has s spliced in at off; every other file is as it was. */
  ghost predicate Spliced(m: Image, m': Image, i: nat, off: nat, s: seq<Byte>)
    requires Shape(m) && i < |m.inode|
  {
    && Shape(m') && FilesOk(m') && |m'.inode| == |m.inode|
    && off <= m.inode[i].size <= MAXFILE * BSIZE
    && m'.inode[i].size <= MAXFILE * BSIZE
    && Content(m', i) == Splice(Content(m, i), off, s)
    && (forall j :: 0 <= j < |m.inode| && j != i ==> SameFile(m, m', j))
    && (forall j :: 0 <= j < |m.inode| ==> m'.inode[j].typ == m.inode[j].typ && m'.inode[j].nlink == m.inode[j].nlink)
  }

  /** Raising the size to what was written completes the write. */
  lemma WriteDone(m0: Image, m: Image, dstart: nat, owner: map<nat, Owner>, i: nat, off: nat, src: seq<Byte>, tot: nat)
    requires Shape(m0) && FilesOk(m0) && i < |m0.inode| && off <= m0.inode[i].size <= MAXFILE * BSIZE && tot <= |src|
    requires off + |src| <= MAXFILE * BSIZE && Wrote(m0, m, i, off, src, tot) && Owned(m, dstart, owner)
    ensures |m.inode| == |m0.inode| && m.inode[i].size == m0.inode[i].size
    ensures off + tot <= m.inode[i].size ==> Resized(m, i, Max(m0.inode[i].size, off + tot)) == m
    ensures var m' := Resized(m, i, Max(m0.inode[i].size, off + tot));
            && Shape(m') && Owned(m', dstart, owner) && FilesOk(m') && Spliced(m0, m', i, off, src[..tot])
            && Confined(m0, m', i, off, |src|)
  {
    WroteContent(m0, m, i, off, src, tot);
    WroteSize(m0, m, i, off, src, tot);
    ResizedOwned(m, dstart, owner, i, Max(m0.inode[i].size, off + tot));
    ResizedBytes(m, i, Max(m0.inode[i].size, off + tot), i);
    forall j | 0 <= j < |m0.inode| ensures Backed(m0, j, m0.inode[j].size) { }
  }

  lemma FileFits(m: Image, i: nat)
    requires Shape(m) && FilesOk(m) && i < |m.inode|
    ensures Backed(m, i, m.inode[i].size) && m.inode[i].size <= MAXFILE * BSIZE
  {
  }

  /** A piece of a block is a piece of the file. */
  lemma BlockIsContent(m: Image, i: nat, pos: nat, mm: nat)
    requires Shape(m) && i < |m.inode| && m.inode[i].size <= MAXFILE * BSIZE && pos + mm <= m.inode[i].size
    requires pos % BSIZE + mm <= BSIZE && pos < m.inode[i].size
    requires 0 < Slot(m, i, SlotOf(pos / BSIZE)) < |m.data|
    ensures m.data[Slot(m, i, SlotOf(pos / BSIZE))][pos % BSIZE..pos % BSIZE + mm] == Content(m, i)[pos..pos + mm]
  {
    hide Slot;
    var p := m.data[Slot(m, i, SlotOf(pos / BSIZE))][pos % BSIZE..pos % BSIZE + mm];
    var c := Content(m, i)[pos..pos + mm];
    forall y | 0 <= y < mm ensures p[y] == c[y] {
      PieceInBlock(pos, mm, pos + y);
      assert c[y] == ByteAt(m, i, pos + y);
    }
  }

  lemma MetadataMarked(m: Image, dstart: nat, owner: map<nat, Owner>)
    requires Owned(m, dstart, owner)
    ensures 1 <= dstart <= |m.data| && forall x :: 0 <= x < dstart ==> x in m.used
  {
  }

  lemma FreeIsUnowned(m: Image, dstart: nat, owner: map<nat, Owner>, b: nat)
    requires Owned(m, dstart, owner) && b !in m.used
    ensures b !in owner
  {
  }

  lemma NoIndirect(m: Image, i: nat, bn: nat)
    requires Shape(m) && i < |m.inode| && NDIRECT <= bn < MAXFILE && m.inode[i].addrs[NDIRECT] == 0
    ensures Slot(m, i, NDIRECT) == Slot(m, i, SlotOf(bn)) == 0
  {
  }

  /** The type of an inode bears on neither blocks nor bytes. */
  lemma TypeKeeps(m0: Image, m: Image, dstart: nat, owner: map<nat, Owner>, i: nat, t: int)
    requires Shape(m0) && Owned(m, dstart, owner) && FilesOk(m) && i < |m.inode| == |m0.inode|
    ensures var m' := m.(inode := m.inode[i := m.inode[i].(typ := t)]);
            && Shape(m') && Owned(m', dstart, owner) && FilesOk(m')
            && forall j :: 0 <= j < |m.inode| && SameFile(m0, m, j) ==> SameFile(m0, m', j)
  {
    var m' := m.(inode := m.inode[i := m.inode[i].(typ := t)]);
    assert Shape(m');
    forall j, k | 0 <= j < |m.inode| && 0 <= k < NSLOT ensures Slot(m', j, k) == Slot(m, j, k) { }
    forall j | 0 <= j < |m.inode|
      ensures Backed(m', j, m'.inode[j].size) && Content(m', j) == Content(m, j)
    {
      assert Backed(m, j, m.inode[j].size);
      SameBytes(m, m', j);
    }
  }

  lemma SameBytes(m: Image, m': Image, j: nat)
    requires Shape(m) && Shape(m') && j < |m.inode| == |m'.inode| && m'.data == m.data
    requires m'.inode[j].size == m.inode[j].size <= MAXFILE * BSIZE && m'.inode[j].addrs == m.inode[j].addrs
    ensures Content(m', j) == Content(m, j)
  {
    hide Get32;
    forall x | 0 <= x < m.inode[j].size ensures ByteAt(m', j, x) == ByteAt(m, j, x) {
      assert Slot(m', j, SlotOf(x / BSIZE)) == Slot(m, j, SlotOf(x / BSIZE));
    }
  }

  lemma Adjacent(c: seq<Byte>, i: nat, j: nat, k: nat)
    requires i <= j <= k <= |c|
    ensures c[i..j] + c[j..k] == c[i..k]
  {
  }

  /** The bitmap mkfs writes: the first n blocks marked. */
  method MarkFirst(n: nat, size: nat) returns (bitmap: seq<seq<bv8>>, ghost used: set<nat>)
    requires n <= size
    ensures BitmapOk(bitmap, used, size) && forall b :: b in used <==> 0 <= b < n
  {
    hide Bit, SetBit;
    bitmap, used := seq(size / BPB + 1, _ => seq(BSIZE, _ => 0)), {};
    NothingMarked(bitmap, size);
    for i := 0 to n
      invariant BitmapOk(bitmap, used, size) && forall b :: b in used <==> 0 <= b < i
    {
      MarkKeeps(bitmap, used, size, i);
      bitmap, used := bitmap[i / BPB := SetBit(bitmap[i / BPB], i % BPB)], used + {i};
    }
  }

  lemma NothingMarked(bitmap: seq<seq<bv8>>, size: nat)
    requires |bitmap| * BPB >= size && forall k :: 0 <= k < |bitmap| ==> |bitmap[k]| == BSIZE
    requires forall k, j :: 0 <= k < |bitmap| && 0 <= j < BSIZE ==> bitmap[k][j] == 0
    ensures BitmapOk(bitmap, {}, size)
  {
  }

  /** Without blocks in any slot and nothing but the metadata marked, no block has an owner. */
  lemma EmptyOwned(m: Image, dstart: nat)
    requires Shape(m) && 1 <= dstart <= |m.data| && forall b :: b in m.used <==> 0 <= b < dstart
    requires forall i, k :: 0 <= i < |m.inode| && 0 <= k <= NDIRECT ==> m.inode[i].addrs[k] == 0
    ensures Owned(m, dstart, map[])
  {
  }

  class FileSystem {
    const size: nat
    const dstart: nat
    const bmapstart: nat
    const inodestart: nat
    var disk: Disk
    var inode: seq<Inode>
    var dinode: seq<Inode>
    ghost var used: set<nat>
    ghost var owner: map<nat, Owner>
    ghost var logged: set<nat>

    ghost function Img(): Image
      reads this`used, this`disk, this`inode
    {
      Image(used, disk.data, inode)
    }

    ghost predicate Valid()
      reads this
    {
      && |disk.data| == size
      && |dinode| == |inode|
      && BitmapOk(disk.bitmap, used, size)
      && Shape(Img())
      && Owned(Img(), dstart, owner)
    }

    /** The image mkfs starts from: dstart blocks of metadata, the others free, n unused inodes. */
    constructor (size: nat, dstart: nat, bmapstart: nat, inodestart: nat, n: nat)
      requires 1 <= dstart <= size <= U32
      ensures Valid() && FilesOk(Img()) && |inode| == n && owner == map[] && logged == {}
      ensures (forall b :: b in used <==> 0 <= b < dstart) && dinode == inode
      ensures this.size == size && this.dstart == dstart && this.bmapstart == bmapstart && this.inodestart == inodestart
      ensures forall i :: 0 <= i < n ==> inode[i] == Inode(0, 0, 0, seq(NDIRECT + 1, _ => 0))
    {
      this.size, this.dstart, this.bmapstart, this.inodestart := size, dstart, bmapstart, inodestart;
      var bitmap;
      ghost var first;
      bitmap, first := MarkFirst(dstart, size);
      disk := Disk(bitmap, seq(size, _ => Zeros()));
      inode := seq(n, _ => Inode(0, 0, 0, seq(NDIRECT + 1, _ => 0)));
      dinode := seq(n, _ => Inode(0, 0, 0, seq(NDIRECT + 1, _ => 0)));
      used, owner, logged := first, map[], {};
      new;
      EmptyOwned(Img(), dstart);
    }

    /** balloc: mark and zero the lowest free block; 0 when every block is marked. */
    method Balloc() returns (b: nat)
      requires Valid()
      modifies this`disk, this`used, this`logged
      ensures BitmapOk(disk.bitmap, used, size)
      ensures b == 0 ==> (forall x :: 0 <= x < size ==> x in used)
      ensures b == 0 ==> disk == old(disk) && used == old(used) && logged == old(logged)
      ensures b != 0 ==> dstart <= b < size && b !in old(used) && (forall x :: 0 <= x < b ==> x in old(used))
      ensures b != 0 ==> used == old(used) + {b} && disk.data == old(disk).data[b := Zeros()]
      ensures b != 0 ==> logged == old(logged) + {bmapstart + b / BPB, b}
    {
      hide Owned, Shape, Bit, SetBit;
      MetadataMarked(Img(), dstart, owner);
      b := FirstFree();
      if b < size {
        MarkKeeps(disk.bitmap, used, size, b);
        disk := disk.(bitmap := disk.bitmap[b / BPB := SetBit(disk.bitmap[b / BPB], b % BPB)]);
        used := used + {b};
        disk := disk.(data := disk.data[b := Zeros()]);
        logged := logged + {bmapstart + b / BPB, b};
      } else {
        b := 0;
      }
    }

    /** The scan of balloc, bitmap block by bitmap block and bit by bit. */
    method FirstFree() returns (b: nat)
      requires BitmapOk(disk.bitmap, used, size)
      ensures b < size ==> b !in used
      ensures forall x :: 0 <= x < b && x < size ==> x in used
    {
      hide Bit;
      var base := 0;
      while base < size
        invariant base % BPB == 0 && (forall x :: 0 <= x < base && x < size ==> x in used)
      {
        var bi := 0;
        while bi < BPB && base + bi < size
          invariant 0 <= bi <= BPB && (forall x :: 0 <= x < base + bi && x < size ==> x in used)
        {
          b := base + bi;
          assert b / BPB == base / BPB && b % BPB == bi;
          if !Bit(disk.bitmap[base / BPB], bi) {
            return;
          }
          bi := bi + 1;
        }
        base := base + BPB;
      }
      b := size;
    }

    /** bfree: panics exactly when the block is already free. */
    method Bfree(b: nat) returns (ok: bool)
      requires BitmapOk(disk.bitmap, used, size) && b < size
      modifies this`disk, this`used, this`logged
      ensures BitmapOk(disk.bitmap, used, size)
      ensures ok <==> b in old(used)
      ensures disk.data == old(disk).data
      ensures ok ==> used == old(used) - {b} && logged == old(logged) + {bmapstart + b / BPB}
      ensures !ok ==> disk == old(disk) && used == old(used) && logged == old(logged)
    {
      hide Bit, ClearBit;
      var bi := b % BPB;
      ok := Bit(disk.bitmap[b / BPB], bi);
      if ok {
        MarkKeeps(disk.bitmap, used, size, b);
        disk := disk.(bitmap := disk.bitmap[b / BPB := ClearBit(disk.bitmap[b / BPB], bi)]);
        used := used - {b};
        logged := logged + {bmapstart + b / BPB};
      }
    }

    /** balloc, then ip->addrs[k] = b. */
    method AllocDirect(i: nat, k: nat) returns (b: nat, ghost bms: set<nat>)
      requires Valid() && i < |inode| && k <= NDIRECT && Slot(Img(), i, k) == 0
      modifies this`disk, this`inode, this`used, this`owner, this`logged
      ensures Valid() && |inode| == old(|inode|)
      ensures b == 0 ==> Img() == old(Img()) && owner == old(owner) && logged == old(logged)
      ensures b == 0 ==> forall x :: 0 <= x < size ==> x in used
      ensures b != 0 ==> Entered(old(Img()), Img(), old(owner), owner, old(logged), logged, bms, i, k, b)
      ensures Noted(old(used), used, old(logged), logged, bmapstart)
    {
      hide Owned, OneSlot, BitmapOk;
      b := Balloc();
      bms := {bmapstart + b / BPB};
      if b != 0 {
        DirectKeeps(old(Img()), dstart, owner, i, k, b);
        DirectIsOneSlot(old(Img()), dstart, owner, i, k, b);
        FreeIsUnowned(old(Img()), dstart, owner, b);
        inode := inode[i := inode[i].(addrs := inode[i].addrs[k := b])];
        owner := owner[b := Owner(i, k)];
        assert Img() == WithDirect(old(Img()), i, k, b);
      }
    }

    /** balloc, then a[j] = b in the indirect block and log_write of that. */
    method AllocEntry(i: nat, j: nat) returns (b: nat, ghost bms: set<nat>)
      requires Valid() && i < |inode| && j < NINDIRECT
      requires Slot(Img(), i, NDIRECT) != 0 && Slot(Img(), i, NDIRECT + 1 + j) == 0
      modifies this`disk, this`used, this`owner, this`logged
      ensures Valid()
      ensures b == 0 ==> Img() == old(Img()) && owner == old(owner) && logged == old(logged)
      ensures b == 0 ==> forall x :: 0 <= x < size ==> x in used
      ensures b != 0 ==> Entered(old(Img()), Img(), old(owner), owner, old(logged), logged, bms, i, NDIRECT + 1 + j, b)
      ensures Noted(old(used), used, old(logged), logged, bmapstart)
    {
      hide Owned, BitmapOk, OneSlot, Shape, Slot, Zeros;
      b := Balloc();
      bms := {bmapstart + b / BPB};
      if b != 0 {
        EnterEntry(i, j, b, old(Img()));
      }
    }

    /** a[j] = b for a block just allocated, and log_write of the indirect block. */
    method EnterEntry(i: nat, j: nat, b: nat, ghost m: Image)
      requires Owned(m, dstart, owner) && i < |m.inode| && j < NINDIRECT && Slot(m, i, NDIRECT) != 0
      requires Slot(m, i, NDIRECT + 1 + j) == 0 && dstart <= b < |m.data| && b !in m.used
      requires Img() == Image(m.used + {b}, m.data[b := Zeros()], m.inode)
      modifies this`disk, this`owner, this`logged
      ensures disk.bitmap == old(disk).bitmap && |disk.data| == |old(disk).data|
      ensures OneSlot(m, Img(), old(owner), i, NDIRECT + 1 + j, b) && b !in old(owner)
      ensures owner == old(owner)[b := Owner(i, NDIRECT + 1 + j)] && Shape(Img()) && Owned(Img(), dstart, owner)
      ensures logged == old(logged) + NonZero(Slot(Img(), i, NDIRECT))
    {
      EntryKeeps(m, dstart, owner, i, j, b);
      EntryIsOneSlot(m, dstart, owner, i, j, b);
      var a := inode[i].addrs[NDIRECT];
      disk := disk.(data := disk.data[a := Put32(disk.data[a], j, b)]);
      owner := owner[b := Owner(i, NDIRECT + 1 + j)];
      logged := logged + {a};
      assert Img() == WithEntry(m, i, j, b);
    }

    lemma SlotsInRange(i: nat)
      requires Valid() && i < |inode|
      ensures forall k :: 0 <= k < NSLOT ==> Slot(Img(), i, k) < size
    {
    }

    /** bmap: the disk block of file block bn, allocated (and zeroed) if missing, through
        the indirect block if need be; 0 only when the disk is full. */
    method Bmap(i: nat, bn: nat) returns (addr: nat, ghost bms: set<nat>)
      requires Valid() && i < |inode| && bn < MAXFILE
      modifies this`disk, this`inode, this`used, this`owner, this`logged
      ensures Valid() && |inode| == old(|inode|)
      ensures Bmapped(old(Img()), Img(), old(owner), owner, old(logged), logged, bms, i, bn, addr)
      ensures addr == 0 ==> forall x :: 0 <= x < size ==> x in used
      ensures old(Slot(Img(), i, SlotOf(bn))) != 0 ==> disk == old(disk)
      ensures Noted(old(used), used, old(logged), logged, bmapstart)
    {
      hide Owned, BitmapOk, Bmapped, Entered;
      SlotsInRange(i);
      BmappedSame(Img(), owner, logged, i, bn);
      bms := {};
      if bn < NDIRECT {
        addr := inode[i].addrs[bn];
        if addr == 0 {
          addr, bms := AllocDirect(i, bn);
          if addr == 0 { bms := {}; } else {
            BmappedOne(old(Img()), Img(), old(owner), owner, old(logged), logged, bms, i, bn, addr);
          }
        }
      } else if inode[i].addrs[NDIRECT] == 0 {
        addr, bms := BmapFresh(i, bn);
      } else {
        addr := Get32(disk.data[inode[i].addrs[NDIRECT]], bn - NDIRECT);
        if addr == 0 {
          addr, bms := AllocEntry(i, bn - NDIRECT);
          if addr == 0 { bms := {}; } else {
            BmappedOne(old(Img()), Img(), old(owner), owner, old(logged), logged, bms, i, bn, addr);
          }
        }
      }
    }

    /** bmap beyond the direct blocks of a file that has no indirect block yet. */
    method BmapFresh(i: nat, bn: nat) returns (addr: nat, ghost bms: set<nat>)
      requires Valid() && i < |inode| && NDIRECT <= bn < MAXFILE && inode[i].addrs[NDIRECT] == 0
      modifies this`disk, this`inode, this`used, this`owner, this`logged
      ensures Valid() && |inode| == old(|inode|)
      ensures Bmapped(old(Img()), Img(), old(owner), owner, old(logged), logged, bms, i, bn, addr)
      ensures addr == 0 ==> forall x :: 0 <= x < size ==> x in used
      ensures Noted(old(used), used, old(logged), logged, bmapstart)
    {
      hide Owned, BitmapOk, Bmapped, Entered, Slot;
      NoIndirect(Img(), i, bn);
      BmappedSame(Img(), owner, logged, i, bn);
      addr, bms := AllocDirect(i, NDIRECT);
      if addr == 0 { bms := {}; } else {
        ghost var m1, b1, owner1, logged1 := Img(), addr, owner, logged;
        BmappedIndirect(old(Img()), m1, old(owner), owner1, old(logged), logged1, bms, i, bn, b1);
        ghost var more;
        addr, more := AllocEntry(i, bn - NDIRECT);
        if addr != 0 {
          BmappedTwo(old(Img()), m1, Img(), old(owner), owner1, owner, old(logged), logged1, logged, bms, more, i, bn,
              b1, addr);
          bms := bms + more;
        }
      }
    }

    /** iupdate: copy the in-memory inode to disk and log its block. */
    method Iupdate(i: nat)
      requires i < |inode| == |dinode|
      modifies this`dinode, this`logged
      ensures dinode == old(dinode)[i := inode[i]] && logged == old(logged) + {inodestart + i / IPB}
    {
      dinode := dinode[i := inode[i]];
      logged := logged + {inodestart + i / IPB};
    }

    /** One turn of readi: the block is mapped already, so bmap changes nothing. */
    method ReadTurn(i: nat, pos: nat, mm: nat) returns (piece: seq<Byte>)
      requires Valid() && i < |inode| && Backed(Img(), i, inode[i].size) && inode[i].size <= MAXFILE * BSIZE
      requires 0 < mm && pos + mm <= inode[i].size && pos % BSIZE + mm <= BSIZE
      modifies this`disk, this`inode, this`used, this`owner, this`logged
      ensures Valid() && disk == old(disk) && inode == old(inode) && used == old(used) && owner == old(owner)
      ensures logged == old(logged)
      ensures piece == Content(Img(), i)[pos..pos + mm]
    {
      hide Owned, BitmapOk, Bmapped, Slot, Content;
      ghost var m := Img();
      assert pos / BSIZE < MAXFILE && pos / BSIZE * BSIZE < inode[i].size;
      var addr, bms := Bmap(i, pos / BSIZE);
      BmapOfBacked(m, Img(), old(owner), owner, old(logged), logged, bms, i, pos / BSIZE, addr, m.inode[i].size);
      BlockIsContent(m, i, pos, mm);
      piece := disk.data[addr][pos % BSIZE..pos % BSIZE + mm];
    }

    /** readi: the bytes of the file from off on, as many as there are; it changes nothing. */
    method Readi(i: nat, off: nat, n: nat) returns (r: seq<Byte>)
      requires Valid() && FilesOk(Img()) && i < |inode| && off < U32 && n < U32
      modifies this`disk, this`inode, this`used, this`owner, this`logged
      ensures disk == old(disk) && inode == old(inode) && used == old(used) && owner == old(owner)
      ensures logged == old(logged)
      ensures Img() == old(Img()) && inode[i].size <= MAXFILE * BSIZE
      ensures r == if off > inode[i].size || off + n >= U32 then []
                   else if off + n > inode[i].size then Content(Img(), i)[off..]
                   else Content(Img(), i)[off..off + n]
    {
      hide Owned, BitmapOk, FilesOk, Shape, Content, Backed, Piece;
      FileFits(Img(), i);
      r := [];
      if off > inode[i].size || (off + n) % U32 < off {
        return;
      }
      var n := if off + n > inode[i].size then inode[i].size - off else n;
      var tot := 0;
      ghost var c := Content(Img(), i);
      while tot < n
        invariant tot <= n && Valid() && inode == old(inode) && disk == old(disk) && owner == old(owner)
        invariant used == old(used)
        invariant logged == old(logged)
        invariant r == c[off..off + tot]
      {
        var mm := Piece(off, n, tot);
        var piece := ReadTurn(i, off + tot, mm);
        Adjacent(c, off, off + tot, off + tot + mm);
        r := r + piece;
        tot := tot + mm;
      }
      assert off + n == inode[i].size ==> c[off..off + n] == c[off..];
    }

    /** One turn of writei: map the block, patch it, log it. It stops when the disk is full. */
    method WriteTurn(i: nat, off: nat, src: seq<Byte>, tot: nat, ghost m0: Image, ghost logged0: set<nat>,
        ghost c: Count)
      returns (mm: nat, ghost c': Count)
      requires Valid() && i < |inode| && |m0.inode| == |inode| && Shape(m0)
      requires off <= m0.inode[i].size <= MAXFILE * BSIZE
      requires tot < |src| && off + |src| <= MAXFILE * BSIZE
      requires Wrote(m0, Img(), i, off, src, tot) && Budget(m0, Img(), i, off, tot, |src|, logged0, logged, c)
      requires Touched(Img(), i, off, tot, logged)
      modifies this`disk, this`inode, this`used, this`owner, this`logged
      ensures Valid() && |inode| == old(|inode|) && tot + mm <= |src|
      ensures Noted(old(used), used, old(logged), logged, bmapstart) && Kept(old(owner), owner)
      ensures Touched(Img(), i, off, tot + mm, logged)
      ensures Wrote(m0, Img(), i, off, src, tot + mm)
      ensures Budget(m0, Img(), i, off, tot + mm, |src|, logged0, logged, c')
      ensures mm == 0 ==> forall x :: 0 <= x < size ==> x in used
    {
      hide Owned, BitmapOk, Bmapped, Wrote, Budget, Slot, Noted, Kept, Touched, MappedAs;
      var pos := off + tot;
      ghost var m, owner0 := Img(), owner;
      WroteTop(m0, m, i, off, src, tot);
      var addr, bms := Bmap(i, pos / BSIZE);
      ghost var m1, logged1 := Img(), logged;
      BmappedMeans(m, m1, owner0, owner, old(logged), logged1, bms, i, pos / BSIZE, addr);
      if addr == 0 {
        TurnNone(m0, m, Img(), dstart, owner0, owner, i, off, src, tot, logged0, old(logged), logged, bms, c);
        mm, c' := 0, c.(bs := c.bs + bms);
        TouchedSame(m, m1, owner0, i, off, tot, pos / BSIZE, old(logged), logged, old(used), used, bmapstart);
      } else {
        mm := Piece(off, |src|, tot);
        TurnDone(m0, m, Img(), dstart, owner0, owner, i, off, src, tot, logged0, old(logged), logged, bms, addr, c);
        c' := NextCount(c, m, Img(), i, pos / BSIZE, addr, bms);
        disk := disk.(data := disk.data[addr := Patch(disk.data[addr], pos % BSIZE, src[tot..tot + mm])]);
        logged := logged + {addr};
        TouchedTurn(m, m1, Img(), owner0, owner, dstart, i, off, tot, mm, addr, old(logged), logged1, old(used), used,
            bmapstart);
      }
    }

    /** writei: splice src into the file at off, or the prefix of it that fits on the disk.
        It refuses a start beyond the end of the file, a 32-bit overflow and a file too large. */
    method Writei(i: nat, off: nat, src: seq<Byte>) returns (r: int)
      requires Valid() && FilesOk(Img()) && i < |inode| && off < U32 && |src| < U32
      modifies this`disk, this`inode, this`dinode, this`used, this`owner, this`logged
      ensures Valid() && FilesOk(Img()) && |inode| == old(|inode|)
      ensures r == -1 <==> off > old(inode[i].size) || off + |src| >= U32 || off + |src| > MAXFILE * BSIZE
      ensures r == -1 ==> Img() == old(Img()) && dinode == old(dinode) && logged == old(logged)
      ensures r != -1 ==> 0 <= r <= |src| && Spliced(old(Img()), Img(), i, off, src[..r])
      ensures r != -1 ==> Confined(old(Img()), Img(), i, off, |src|)
      ensures r != -1 && r < |src| ==> forall x :: 0 <= x < size ==> x in used
      ensures r != -1 ==> dinode == old(dinode)[i := inode[i]]
      ensures r != -1 && |src| <= MAXCHUNK ==> |logged - old(logged)| <= MAXOPBLOCKS
      ensures Noted(old(used), used, old(logged), logged, bmapstart) && Kept(old(owner), owner)
      ensures r != -1 ==> Touched(Img(), i, off, r, logged) && inodestart + i / IPB in logged
    {
      hide Owned, BitmapOk, Wrote, Budget, FilesOk, Spliced, Shape, Backed, Noted, Kept, Touched, Confined;
      ghost var m0, logged0 := Img(), logged;
      NotedNone(used, logged, bmapstart);
      KeptNone(owner);
      FileFits(m0, i);
      if off > inode[i].size || (off + |src|) % U32 < off {
        return -1;
      }
      if off + |src| > MAXFILE * BSIZE {
        return -1;
      }
      var tot, c := WriteLoop(i, off, src);
      WriteDone(m0, Img(), dstart, owner, i, off, src, tot);
      if |src| <= MAXCHUNK {
        WithinBudget(m0, Img(), i, off, tot, |src|, logged0, logged, c, inodestart + i / IPB);
      }
      TouchedResized(Img(), i, off, tot, Max(inode[i].size, off + tot), logged, {inodestart + i / IPB});
      NotedMore(old(used), used, logged0, logged, {inodestart + i / IPB}, bmapstart);
      if off + tot > inode[i].size {
        inode := inode[i := inode[i].(size := off + tot)];
      }
      Iupdate(i);
      r := tot;
    }

    /** The loop of writei. */
    method WriteLoop(i: nat, off: nat, src: seq<Byte>) returns (tot: nat, ghost c: Count)
      requires Valid() && i < |inode| && off <= inode[i].size && Backed(Img(), i, inode[i].size)
      requires off + |src| <= MAXFILE * BSIZE && inode[i].size <= MAXFILE * BSIZE
      modifies this`disk, this`inode, this`used, this`owner, this`logged
      ensures tot <= |src| && Valid() && |inode| == old(|inode|)
      ensures Wrote(old(Img()), Img(), i, off, src, tot)
      ensures Budget(old(Img()), Img(), i, off, tot, |src|, old(logged), logged, c)
      ensures tot < |src| ==> forall x :: 0 <= x < size ==> x in used
      ensures Noted(old(used), used, old(logged), logged, bmapstart) && Kept(old(owner), owner)
      ensures Touched(Img(), i, off, tot, logged)
    {
      hide Owned, BitmapOk, Wrote, Budget, Shape, Backed, Noted, Kept, Touched;
      ghost var m0, logged0 := Img(), logged;
      TouchedNone(m0, i, off, logged);
      NotedNone(used, logged, bmapstart);
      KeptNone(owner);
      WroteNothing(m0, i, off, src);
      BudgetStart(m0, i, off, |src|, logged);
      c := Count({}, {}, 0, 0);
      tot := 0;
      while tot < |src|
        invariant tot <= |src| && Valid() && |inode| == |m0.inode|
        invariant Wrote(m0, Img(), i, off, src, tot) && Budget(m0, Img(), i, off, tot, |src|, logged0, logged, c)
        invariant Noted(old(used), used, old(logged), logged, bmapstart) && Kept(old(owner), owner)
        invariant Touched(Img(), i, off, tot, logged)
      {
        ghost var u1, l1, o1 := used, logged, owner;
        var mm;
        mm, c := WriteTurn(i, off, src, tot, m0, logged0, c);
        NotedTrans(old(used), u1, used, old(logged), l1, logged, bmapstart);
        KeptOwners(old(owner), o1, owner);
        if mm == 0 {
          break;
        }
        tot := tot + mm;
      }
    }

    /** Free what the n-th slot of the inode names, if anything. */
    method FreeSlot(i: nat, b: nat, n: nat, ghost m0: Image)
      requires BitmapOk(disk.bitmap, used, size) && Owned(m0, dstart, owner) && i < |m0.inode| && n < NSLOT
      requires |m0.data| == size
      requires Unrank(n) < NSLOT && b == Slot(m0, i, Unrank(n)) && used == m0.used - Freed(owner, i, n)
      modifies this`disk, this`used, this`logged
      ensures BitmapOk(disk.bitmap, used, size) && disk.data == old(disk.data)
      ensures used == m0.used - Freed(owner, i, n + 1)
      ensures LogsBitmap(old(logged), logged)
    {
      hide Owned, BitmapOk, Slot, Freed;
      FreeStep(m0, dstart, owner, i, n);
      if b != 0 {
        var ok := Bfree(b);
        assert ok; // "freeing free block" cannot happen
      }
    }

    /** Only bitmap blocks were logged between the two. */
    ghost predicate LogsBitmap(logged0: set<nat>, logged1: set<nat>) {
      forall x :: x in logged1 && x !in logged0 ==> bmapstart <= x <= bmapstart + size / BPB
    }

    /** The first loop of itrunc. */
    method FreeDirect(i: nat)
      requires Valid() && i < |inode|
      modifies this`disk, this`inode, this`used, this`logged
      ensures BitmapOk(disk.bitmap, used, size) && disk.data == old(disk.data)
      ensures used == old(used) - Freed(owner, i, NDIRECT)
      ensures inode == old(inode)[i := old(inode[i]).(addrs := Cleared(old(inode[i].addrs), NDIRECT))]
      ensures LogsBitmap(old(logged), logged)
    {
      hide Owned, BitmapOk, Freed, Cleared, FilesOk;
      ghost var m0 := Img();
      FreedNone(owner, i);
      ClearedSteps(inode[i].addrs, 0);
      var k := 0;
      while k < NDIRECT
        invariant k <= NDIRECT && BitmapOk(disk.bitmap, used, size) && disk.data == m0.data
        invariant used == m0.used - Freed(owner, i, k)
        invariant inode == m0.inode[i := m0.inode[i].(addrs := Cleared(m0.inode[i].addrs, k))]
        invariant LogsBitmap(old(logged), logged)
      {
        ClearedSteps(m0.inode[i].addrs, k);
        FreeSlot(i, inode[i].addrs[k], k, m0);
        if inode[i].addrs[k] != 0 {
          inode := inode[i := inode[i].(addrs := inode[i].addrs[k := 0])];
        }
        k := k + 1;
      }
    }

    /** The second loop of itrunc: the entries of the indirect block, which stay as they are. */
    method FreeEntries(i: nat, a: seq<Byte>, ghost m0: Image)
      requires BitmapOk(disk.bitmap, used, size) && Owned(m0, dstart, owner) && i < |m0.inode| && |m0.data| == size
      requires Slot(m0, i, NDIRECT) != 0 && a == m0.data[Slot(m0, i, NDIRECT)] && |a| == BSIZE
      requires used == m0.used - Freed(owner, i, NDIRECT)
      modifies this`disk, this`used, this`logged
      ensures BitmapOk(disk.bitmap, used, size) && disk.data == old(disk.data)
      ensures used == m0.used - Freed(owner, i, NSLOT - 1)
      ensures LogsBitmap(old(logged), logged)
    {
      hide Owned, BitmapOk, Freed, Get32;
      var j := 0;
      while j < NINDIRECT
        invariant j <= NINDIRECT && BitmapOk(disk.bitmap, used, size) && disk.data == old(disk.data)
        invariant used == m0.used - Freed(owner, i, NDIRECT + j)
        invariant LogsBitmap(old(logged), logged)
      {
        FreeSlot(i, Get32(a, j), NDIRECT + j, m0);
        j := j + 1;
      }
    }

    /** itrunc: frees exactly the blocks of inode i, each of which is still marked. */
    method Itrunc(i: nat)
      requires Valid() && FilesOk(Img()) && i < |inode|
      modifies this`disk, this`inode, this`dinode, this`used, this`owner, this`logged
      ensures Valid() && FilesOk(Img()) && |inode| == old(|inode|)
      ensures Img() == Truncated(old(Img()), old(owner), i) && owner == Disowned(old(owner), i)
      ensures Content(Img(), i) == [] && forall j :: 0 <= j < |inode| && j != i ==> SameFile(old(Img()), Img(), j)
      ensures dinode == old(dinode)[i := inode[i]]
      ensures LogsBitmap(old(logged) + {inodestart + i / IPB}, logged)
    {
      hide Owned, BitmapOk, Freed, Cleared, NoAddrs, FilesOk, Content, SameFile;
      ghost var m0 := Img();
      TruncatedOwned(m0, dstart, owner, i);
      TruncatedFiles(m0, owner, i);
      FreeDirect(i);
      ClearedSteps(m0.inode[i].addrs, NDIRECT);
      if inode[i].addrs[NDIRECT] != 0 {
        FreeEntries(i, disk.data[inode[i].addrs[NDIRECT]], m0);
        FreeSlot(i, inode[i].addrs[NDIRECT], NSLOT - 1, m0);
        inode := inode[i := inode[i].(addrs := inode[i].addrs[NDIRECT := 0])];
      } else {
        FreedDirectOnly(m0, dstart, owner, i);
        assert inode[i].addrs == inode[i].addrs[NDIRECT := 0];
      }
      inode := inode[i := inode[i].(size := 0)];
      owner := Disowned(owner, i);
      assert Img() == Truncated(m0, old(owner), i);
      Iupdate(i);
    }

    /** What iput does with the last reference to an inode without links: the inode and
        all its blocks are free afterwards, in memory and on disk. */
    method FreeInode(i: nat)
      requires Valid() && FilesOk(Img()) && i < |inode|
      modifies this`disk, this`inode, this`dinode, this`used, this`owner, this`logged
      ensures Valid() && FilesOk(Img()) && |inode| == old(|inode|)
      ensures used == old(used) - Freed(old(owner), i, NSLOT) && owner == Disowned(old(owner), i)
      ensures inode[i].typ == 0 && inode[i].size == 0 && inode[i].addrs == NoAddrs() && dinode[i] == inode[i]
      ensures inode == old(inode)[i := inode[i]] && inode[i].nlink == old(inode[i].nlink)
      ensures forall j :: 0 <= j < |inode| && j != i ==> SameFile(old(Img()), Img(), j) && dinode[j] == old(dinode[j])
      ensures LogsBitmap(old(logged) + {inodestart + i / IPB}, logged)
    {
      hide Owned, BitmapOk, Freed, NoAddrs, FilesOk, SameFile, Shape;
      ghost var m0 := Img();
      Itrunc(i);
      TypeKeeps(m0, Img(), dstart, owner, i, 0);
      inode := inode[i := inode[i].(typ := 0)];
      Iupdate(i);
    }
  }
}
