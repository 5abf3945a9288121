/**
 A file as a byte sequence over the disk image, and what one turn of the loop in
 writei (kernel/fs.c) does to it.
 */
module FileBytes {
  import opened DiskImage
  import opened BlockMap

  /** Byte x of inode i's blocks, 0 where no block is allocated. */
  ghost function ByteAt(m: Image, i: nat, x: nat): Byte
    requires Shape(m) && i < |m.inode| && x < MAXFILE * BSIZE
  {
    var a := Slot(m, i, SlotOf(x / BSIZE));
    if a == 0 || a >= |m.data| then 0 else m.data[a][x % BSIZE]
  }

  /** Every block below `len` bytes is allocated. */
  ghost predicate Backed(m: Image, i: nat, len: nat)
    requires Shape(m) && i < |m.inode|
  {
    && len <= MAXFILE * BSIZE
    && (forall bn :: 0 <= bn < MAXFILE && bn * BSIZE < len ==> Slot(m, i, SlotOf(bn)) != 0)
  }

  ghost predicate FilesOk(m: Image)
    requires Shape(m)
  {
    forall i :: 0 <= i < |m.inode| ==> Backed(m, i, m.inode[i].size)
  }

  /** The file as its readers see it. */
  ghost function Content(m: Image, i: nat): (r: seq<Byte>)
    requires Shape(m) && i < |m.inode| && m.inode[i].size <= MAXFILE * BSIZE
    ensures |r| == m.inode[i].size
  {
    seq(m.inode[i].size, x requires 0 <= x < m.inode[i].size => ByteAt(m, i, x))
  }

  ghost predicate SameFile(m: Image, m': Image, j: nat)
    requires Shape(m) && Shape(m') && j < |m.inode| == |m'.inode|
  {
    && m'.inode[j].size == m.inode[j].size <= MAXFILE * BSIZE
    && Content(m', j) == Content(m, j)
  }

  /** c with s put in at off, growing it if s reaches beyond the end. */
  function Splice(c: seq<Byte>, off: nat, s: seq<Byte>): (r: seq<Byte>)
    requires off <= |c|
    ensures |r| == if off + |s| <= |c| then |c| else off + |s|
  {
    c[..off] + s + (if off + |s| <= |c| then c[off + |s|..] else [])
  }

  /** A block with s put in at byte p. */
  function Patch(blk: seq<Byte>, p: nat, s: seq<Byte>): (r: seq<Byte>)
    requires p + |s| <= |blk|
    ensures |r| == |blk|
  {
    blk[..p] + s + blk[p + |s|..]
  }

  lemma PatchAt(blk: seq<Byte>, p: nat, s: seq<Byte>, y: nat)
    requires p + |s| <= |blk| && y < |blk|
    ensures Patch(blk, p, s)[y] == if p <= y < p + |s| then s[y - p] else blk[y]
  {
  }

  /** bmap changes no byte that was backed before. */
  lemma BmapKeepsBytes(m: Image, m': Image, dstart: nat, owner: map<nat, Owner>, i: nat, bn: nat, addr: nat, j: nat,
      x: nat)
    requires Owned(m, dstart, owner) && i < |m.inode| && bn < MAXFILE && MappedAs(m, m', owner, i, bn, addr)
    requires j < |m.inode| && x < MAXFILE * BSIZE && Slot(m, j, SlotOf(x / BSIZE)) != 0
    ensures Slot(m', j, SlotOf(x / BSIZE)) != 0 && ByteAt(m', j, x) == ByteAt(m, j, x)
  {
    var a := Slot(m, j, SlotOf(x / BSIZE));
    assert a in owner && owner[a].k != NDIRECT;
  }

  /** Writing a file's block changes the bytes of that block of that file only. */
  lemma WriteBytes(m: Image, dstart: nat, owner: map<nat, Owner>, i: nat, bn: nat, blk: seq<Byte>, j: nat, x: nat)
    requires Owned(m, dstart, owner) && i < |m.inode| && bn < MAXFILE && |blk| == BSIZE
    requires Slot(m, i, SlotOf(bn)) != 0 && j < |m.inode| && x < MAXFILE * BSIZE
    ensures Slot(m, i, SlotOf(bn)) < |m.data|
    ensures var m' := m.(data := m.data[Slot(m, i, SlotOf(bn)) := blk]);
            Shape(m') && ByteAt(m', j, x) == if j == i && x / BSIZE == bn then blk[x % BSIZE] else ByteAt(m, j, x)
  {
    var a := Slot(m, i, SlotOf(bn));
    assert a in owner && owner[a] == Owner(i, SlotOf(bn));
    DataWriteKeeps(m, dstart, owner, a, blk);
    var m' := m.(data := m.data[a := blk]);
    assert Slot(m', j, SlotOf(x / BSIZE)) == Slot(m, j, SlotOf(x / BSIZE));
  }

  /** Slot k is for a block that holds some of the n bytes at off, or for the indirect block they need. */
  predicate InSpan(k: nat, off: nat, n: nat) {
    if k == NDIRECT then off + n > NDIRECT * BSIZE
    else
      var bn := if k < NDIRECT then k else k - 1;
      off / BSIZE <= bn && bn * BSIZE < off + n
  }

  /** A block is entered only in an empty slot, and only for those bytes. */
  ghost predicate Confined(m0: Image, m: Image, i: nat, off: nat, n: nat)
    requires Shape(m0) && Shape(m) && i < |m0.inode| == |m.inode|
  {
    forall k :: 0 <= k < NSLOT && (Slot(m0, i, k) != 0 || !InSpan(k, off, n)) ==> Slot(m, i, k) == Slot(m0, i, k)
  }

  lemma SpanOfTurn(off: nat, tot: nat, n: nat)
    requires tot < n
    ensures InSpan(SlotOf((off + tot) / BSIZE), off, n)
    ensures (off + tot) / BSIZE >= NDIRECT ==> InSpan(NDIRECT, off, n)
  {
  }

  /** What writei has done once `tot` bytes are in: nothing but those bytes differs. */
  ghost predicate Wrote(m0: Image, m: Image, i: nat, off: nat, src: seq<Byte>, tot: nat)
    requires Shape(m0) && i < |m0.inode| && m0.inode[i].size <= MAXFILE * BSIZE && tot <= |src|
    requires off + |src| <= MAXFILE * BSIZE
  {
    && Shape(m)
    && |m.inode| == |m0.inode|
    && (forall j :: 0 <= j < |m.inode| ==> m.inode[j].(addrs := []) == m0.inode[j].(addrs := []))
    && (forall j, k :: 0 <= j < |m.inode| && j != i && 0 <= k < NSLOT ==> Slot(m, j, k) == Slot(m0, j, k))
    && (forall j, x :: 0 <= j < |m.inode| && j != i && 0 <= x < MAXFILE * BSIZE && Slot(m0, j, SlotOf(x / BSIZE)) != 0
          ==> ByteAt(m, j, x) == ByteAt(m0, j, x))
    && Backed(m, i, Max(m0.inode[i].size, off + tot))
    && (forall x :: 0 <= x < Max(m0.inode[i].size, off + tot) ==>
          ByteAt(m, i, x) == if off <= x < off + tot then src[x - off] else ByteAt(m0, i, x))
    && Confined(m0, m, i, off, |src|)
  }

  function Max(a: nat, b: nat): nat {
    if a < b then b else a
  }

  lemma WroteNothing(m: Image, i: nat, off: nat, src: seq<Byte>)
    requires Shape(m) && i < |m.inode| && Backed(m, i, m.inode[i].size) && off <= m.inode[i].size
    requires off + |src| <= MAXFILE * BSIZE
    ensures Wrote(m, m, i, off, src, 0)
  {
  }

  lemma ConfinedBmap(m0: Image, m: Image, m1: Image, owner: map<nat, Owner>, i: nat, off: nat, tot: nat, n: nat,
                     bn: nat, addr: nat)
    requires Shape(m0) && Shape(m) && i < |m0.inode| == |m.inode| && tot < n && bn == (off + tot) / BSIZE < MAXFILE
    requires Confined(m0, m, i, off, n) && MappedAs(m, m1, owner, i, bn, addr)
    ensures Confined(m0, m1, i, off, n)
  {
    hide InSpan, Slot;
    SpanOfTurn(off, tot, n);
  }

  lemma WroteBmap(m0: Image, m: Image, m1: Image, dstart: nat, owner: map<nat, Owner>,
                  i: nat, off: nat, src: seq<Byte>, tot: nat, bn: nat, addr: nat)
    requires Shape(m0) && i < |m0.inode| && m0.inode[i].size <= MAXFILE * BSIZE && tot <= |src|
    requires off + |src| <= MAXFILE * BSIZE && bn == (off + tot) / BSIZE < MAXFILE && tot < |src|
    requires Wrote(m0, m, i, off, src, tot) && Owned(m, dstart, owner) && MappedAs(m, m1, owner, i, bn, addr)
    ensures Wrote(m0, m1, i, off, src, tot)
  {
    hide Confined, Slot, Get32;
    ConfinedBmap(m0, m, m1, owner, i, off, tot, |src|, bn, addr);
    var len := Max(m0.inode[i].size, off + tot);
    forall x | 0 <= x < len ensures ByteAt(m1, i, x) == ByteAt(m, i, x) {
      assert x / BSIZE < MAXFILE && x / BSIZE * BSIZE < len;
      BmapKeepsBytes(m, m1, dstart, owner, i, bn, addr, i, x);
    }
    forall j, x | 0 <= j < |m.inode| && j != i && 0 <= x < MAXFILE * BSIZE && Slot(m0, j, SlotOf(x / BSIZE)) != 0
      ensures ByteAt(m1, j, x) == ByteAt(m0, j, x)
    {
      BmapKeepsBytes(m, m1, dstart, owner, i, bn, addr, j, x);
    }
  }

  /** Byte arithmetic of one turn: the piece lies within file block bn. */
  lemma PieceInBlock(pos: nat, mm: nat, x: nat)
    requires pos % BSIZE + mm <= BSIZE && pos <= x < pos + mm
    ensures x / BSIZE == pos / BSIZE && x % BSIZE == pos % BSIZE + (x - pos)
  {
  }

  lemma WroteBlock(m0: Image, m: Image, dstart: nat, owner: map<nat, Owner>,
                   i: nat, off: nat, src: seq<Byte>, tot: nat, mm: nat)
    requires Shape(m0) && i < |m0.inode| && m0.inode[i].size <= MAXFILE * BSIZE && tot + mm <= |src|
    requires off + |src| <= MAXFILE * BSIZE && mm > 0 && (off + tot) % BSIZE + mm <= BSIZE
    requires Wrote(m0, m, i, off, src, tot) && Owned(m, dstart, owner) && off <= m0.inode[i].size
    requires Slot(m, i, SlotOf((off + tot) / BSIZE)) != 0
    ensures Slot(m, i, SlotOf((off + tot) / BSIZE)) < |m.data|
    ensures var a := Slot(m, i, SlotOf((off + tot) / BSIZE));
            var m' := m.(data := m.data[a := Patch(m.data[a], (off + tot) % BSIZE, src[tot..tot + mm])]);
            Owned(m', dstart, owner) && Wrote(m0, m', i, off, src, tot + mm)
  {
    hide Patch, Get32, Slot, InSpan;
    var pos, bn := off + tot, (off + tot) / BSIZE;
    var a := Slot(m, i, SlotOf(bn));
    assert a in owner && owner[a] == Owner(i, SlotOf(bn));
    var blk := Patch(m.data[a], pos % BSIZE, src[tot..tot + mm]);
    var m' := m.(data := m.data[a := blk]);
    DataWriteKeeps(m, dstart, owner, a, blk);
    var len, len' := Max(m0.inode[i].size, pos), Max(m0.inode[i].size, pos + mm);
    forall b | 0 <= b < MAXFILE && b * BSIZE < len' ensures Slot(m', i, SlotOf(b)) != 0 {
      if b * BSIZE >= len {
        PieceInBlock(pos, mm, b * BSIZE);
        assert b == bn;
      }
    }
    forall x | 0 <= x < len'
      ensures ByteAt(m', i, x) == if off <= x < pos + mm then src[x - off] else ByteAt(m0, i, x)
    {
      WriteBytes(m, dstart, owner, i, bn, blk, i, x);
      if pos <= x < pos + mm {
        PieceInBlock(pos, mm, x);
        PatchAt(m.data[a], pos % BSIZE, src[tot..tot + mm], x % BSIZE);
      } else {
        assert x < len;
        assert ByteAt(m, i, x) == if off <= x < pos then src[x - off] else ByteAt(m0, i, x);
        if x / BSIZE == bn {
          PatchAt(m.data[a], pos % BSIZE, src[tot..tot + mm], x % BSIZE);
          assert ByteAt(m, i, x) == m.data[a][x % BSIZE];
        }
      }
    }
    forall j, x | 0 <= j < |m.inode| && j != i && 0 <= x < MAXFILE * BSIZE && Slot(m0, j, SlotOf(x / BSIZE)) != 0
      ensures ByteAt(m', j, x) == ByteAt(m0, j, x)
    {
      WriteBytes(m, dstart, owner, i, bn, blk, j, x);
    }
  }

  /** The same image with another size for inode i. */
  ghost function Resized(m: Image, i: nat, size: nat): Image
    requires i < |m.inode|
  {
    m.(inode := m.inode[i := m.inode[i].(size := size)])
  }

  lemma ResizedBytes(m: Image, i: nat, size: nat, j: nat)
    requires Shape(m) && i < |m.inode| && j < |m.inode|
    ensures Shape(Resized(m, i, size))
    ensures forall k :: 0 <= k < NSLOT ==> Slot(Resized(m, i, size), j, k) == Slot(m, j, k)
    ensures forall x :: 0 <= x < MAXFILE * BSIZE ==> ByteAt(Resized(m, i, size), j, x) == ByteAt(m, j, x)
  {
    var m' := Resized(m, i, size);
    assert Shape(m');
    forall k | 0 <= k < NSLOT ensures Slot(m', j, k) == Slot(m, j, k) { }
    forall x | 0 <= x < MAXFILE * BSIZE ensures ByteAt(m', j, x) == ByteAt(m, j, x) {
      assert Slot(m', j, SlotOf(x / BSIZE)) == Slot(m, j, SlotOf(x / BSIZE));
    }
  }

  lemma WroteOther(m0: Image, m: Image, i: nat, off: nat, src: seq<Byte>, tot: nat, size: nat, j: nat)
    requires Shape(m0) && FilesOk(m0) && i < |m0.inode| && off <= m0.inode[i].size && tot <= |src|
    requires off + |src| <= MAXFILE * BSIZE && Wrote(m0, m, i, off, src, tot)
    requires j < |m0.inode| && j != i
    ensures Shape(Resized(m, i, size)) && Resized(m, i, size).inode[j].size == m0.inode[j].size
    ensures Backed(Resized(m, i, size), j, m0.inode[j].size)
    ensures Content(Resized(m, i, size), j) == Content(m0, j)
  {
    ResizedBytes(m, i, size, j);
    assert m.inode[j].(addrs := []).size == m0.inode[j].(addrs := []).size;
    assert Backed(m0, j, m0.inode[j].size);
    forall x | 0 <= x < m0.inode[j].size ensures ByteAt(m, j, x) == ByteAt(m0, j, x) {
      assert x / BSIZE * BSIZE < m0.inode[j].size;
    }
  }

  lemma WroteOwn(m0: Image, m: Image, i: nat, off: nat, src: seq<Byte>, tot: nat)
    requires Shape(m0) && i < |m0.inode| && off <= m0.inode[i].size <= MAXFILE * BSIZE && tot <= |src|
    requires off + |src| <= MAXFILE * BSIZE && Wrote(m0, m, i, off, src, tot)
    ensures var m' := Resized(m, i, Max(m0.inode[i].size, off + tot));
            && Shape(m') && Backed(m', i, m'.inode[i].size)
            && Content(m', i) == Splice(Content(m0, i), off, src[..tot])
  {
    hide Slot;
    var size := Max(m0.inode[i].size, off + tot);
    ResizedBytes(m, i, size, i);
    var c, d := Content(Resized(m, i, size), i), Splice(Content(m0, i), off, src[..tot]);
    assert |c| == |d|;
    forall x | 0 <= x < size ensures c[x] == d[x] {
      assert c[x] == ByteAt(m, i, x);
    }
  }

  /** Setting the size afterwards gives exactly the spliced file, and leaves the others. */
  lemma WroteContent(m0: Image, m: Image, i: nat, off: nat, src: seq<Byte>, tot: nat)
    requires Shape(m0) && FilesOk(m0) && i < |m0.inode| && off <= m0.inode[i].size && tot <= |src|
    requires off + |src| <= MAXFILE * BSIZE && Wrote(m0, m, i, off, src, tot)
    ensures var m' := Resized(m, i, Max(m0.inode[i].size, off + tot));
            && Shape(m') && FilesOk(m')
            && Content(m', i) == Splice(Content(m0, i), off, src[..tot])
            && (forall j :: 0 <= j < |m0.inode| && j != i ==>
                  m'.inode[j].size == m0.inode[j].size && Content(m', j) == Content(m0, j))
  {
    assert Backed(m0, i, m0.inode[i].size);
    WroteOwn(m0, m, i, off, src, tot);
    var size := Max(m0.inode[i].size, off + tot);
    forall j | 0 <= j < |m0.inode| && j != i
      ensures Resized(m, i, size).inode[j].size == m0.inode[j].size
      ensures Backed(Resized(m, i, size), j, m0.inode[j].size)
      ensures Content(Resized(m, i, size), j) == Content(m0, j)
    {
      WroteOther(m0, m, i, off, src, tot, size, j);
    }
  }
}
