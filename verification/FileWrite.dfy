/**
 The chunked write of kernel/file.c: one log operation per chunk, the file offset
 advanced by what writei took.
 */
module FileWrite {
  import opened DiskImage
  import opened FileBytes
  import opened WriteBudget
  import opened FileSystem

  /** Two splices in a row are one splice of the concatenation. */
  lemma SpliceTwice(c: seq<Byte>, off: nat, s: seq<Byte>, t: seq<Byte>)
    requires off <= |c|
    ensures Splice(Splice(c, off, s), off + |s|, t) == Splice(c, off, s + t)
  {
  }

  lemma TwoPieces(src: seq<Byte>, w: nat, r: nat)
    requires w + r <= |src|
    ensures src[..w + r] == src[..w] + src[w..][..r]
  {
  }

  /** A write followed by another at the offset it reached. */
  lemma SplicedTwice(m: Image, m1: Image, m2: Image, i: nat, off: nat, src: seq<Byte>, w: nat, r: nat)
    requires Shape(m) && i < |m.inode| && w + r <= |src|
    requires Spliced(m, m1, i, off, src[..w]) && Shape(m1) && i < |m1.inode|
    requires Spliced(m1, m2, i, off + w, src[w..][..r])
    ensures Spliced(m, m2, i, off, src[..w + r])
  {
    hide FilesOk, Splice, ByteAt, Shape;
    TwoPieces(src, w, r);
    SpliceTwice(Content(m, i), off, src[..w], src[w..][..r]);
    forall j | 0 <= j < |m.inode| && j != i ensures SameFile(m, m2, j) {
      assert SameFile(m, m1, j) && SameFile(m1, m2, j);
    }
  }

  lemma SplicedNothing(m: Image, i: nat, off: nat)
    requires Shape(m) && FilesOk(m) && i < |m.inode| && off <= m.inode[i].size
    ensures Spliced(m, m, i, off, [])
  {
    assert Splice(Content(m, i), off, []) == Content(m, i);
    forall j | 0 <= j < |m.inode| ensures Backed(m, j, m.inode[j].size) { }
  }

  lemma SplicedSize(m: Image, m': Image, i: nat, off: nat, s: seq<Byte>)
    requires Shape(m) && i < |m.inode| && Spliced(m, m', i, off, s)
    ensures |m'.inode| == |m.inode| && off + |s| <= m'.inode[i].size <= MAXFILE * BSIZE
  {
    assert |Content(m', i)| == m'.inode[i].size;
  }

  /** How filewrite left things after w bytes: spliced in, unless the offset was beyond the end. */
  ghost predicate WroteTo(m: Image, m': Image, i: nat, off: nat, s: seq<Byte>)
    requires Shape(m) && i < |m.inode|
  {
    if off <= m.inode[i].size then Spliced(m, m', i, off, s) else m' == m && s == []
  }

  class File {
    const inum: nat
    var off: nat
    constructor (inum: nat)
      ensures this.inum == inum && off == 0
    {
      this.inum := inum;
      off := 0;
    }
  }

  /** One begin_op ... end_op of filewrite; `op` is what it logged. */
  method WriteChunk(fs: FileSystem, f: File, s: seq<Byte>) returns (r: int, ghost op: set<nat>)
    requires fs.Valid() && FilesOk(fs.Img()) && f.inum < |fs.inode| && f.off < U32 && |s| <= MAXCHUNK
    modifies fs, f`off
    ensures fs.Valid() && FilesOk(fs.Img()) && |fs.inode| == old(|fs.inode|)
    ensures r == -1 <==> old(f.off > fs.inode[f.inum].size || f.off + |s| > MAXFILE * BSIZE)
    ensures r == -1 ==> f.off == old(f.off) && fs.Img() == old(fs.Img())
    ensures r != -1 ==> 0 <= r <= |s| && f.off == old(f.off) + r
    ensures r != -1 ==> Spliced(old(fs.Img()), fs.Img(), f.inum, old(f.off), s[..r])
    ensures r != -1 && r < |s| ==> forall x :: 0 <= x < fs.size ==> x in fs.used
    ensures |op| <= MAXOPBLOCKS
  {
    hide FilesOk, Spliced, DiskImage.Owned, BitmapOk, Shape;
    fs.logged := {}; // begin_op
    r := fs.Writei(f.inum, f.off, s);
    if r > 0 {
      f.off := f.off + r;
    }
    op := fs.logged;
    assert r != -1 ==> op - {} == op;
  }

  /** filewrite of an inode: `w` bytes are written, all of them exactly when it returns |src|.
      It stops short only when the disk is full, the offset lies beyond the end of the
      file or the file would grow too large, and no operation logs more than MAXOPBLOCKS blocks. */
  method Filewrite(fs: FileSystem, f: File, src: seq<Byte>) returns (ret: int, ghost w: nat, ghost ops: seq<set<nat>>)
    requires fs.Valid() && FilesOk(fs.Img()) && f.inum < |fs.inode| && f.off < U32 && |src| < 0x8000_0000
    modifies fs, f`off
    ensures fs.Valid() && FilesOk(fs.Img()) && |fs.inode| == old(|fs.inode|)
    ensures w <= |src| && f.off == old(f.off) + w && ret == if w == |src| then |src| else -1
    ensures WroteTo(old(fs.Img()), fs.Img(), f.inum, old(f.off), src[..w])
    ensures w < |src| ==> (forall x :: 0 <= x < fs.size ==> x in fs.used)
                          || old(f.off > fs.inode[f.inum].size) || old(f.off) + |src| > MAXFILE * BSIZE
    ensures forall k :: 0 <= k < |ops| ==> |ops[k]| <= MAXOPBLOCKS
  {
    hide FilesOk, Spliced, DiskImage.Owned, BitmapOk, Shape;
    ghost var m0 := fs.Img();
    if f.off <= fs.inode[f.inum].size {
      SplicedNothing(m0, f.inum, f.off);
    }
    var i := 0;
    w, ops := 0, [];
    while i < |src|
      invariant i == w <= |src| && f.off == old(f.off) + w && f.off < U32
      invariant fs.Valid() && FilesOk(fs.Img()) && |fs.inode| == |m0.inode|
      invariant WroteTo(m0, fs.Img(), f.inum, old(f.off), src[..w])
      invariant forall k :: 0 <= k < |ops| ==> |ops[k]| <= MAXOPBLOCKS
    {
      var n1 := if |src| - i > MAXCHUNK then MAXCHUNK else |src| - i;
      ghost var m1 := fs.Img();
      if old(f.off) <= m0.inode[f.inum].size {
        SplicedSize(m0, m1, f.inum, old(f.off), src[..w]);
      }
      var r, op := WriteChunk(fs, f, src[i..i + n1]);
      ops := ops + [op];
      if r != -1 {
        assert src[i..i + n1][..r] == src[i..][..r];
        SplicedTwice(m0, m1, fs.Img(), f.inum, old(f.off), src, w, r);
        SplicedSize(m0, fs.Img(), f.inum, old(f.off), src[..w + r]);
        w := w + r;
      }
      if r != n1 {
        break;
      }
      i := i + r;
    }
    ret := if i == |src| then |src| else -1;
  }
}
