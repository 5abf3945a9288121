/**
 The write-ahead log (kernel/log.c) over the buffer cache. `logical` is what each block
 holds as far as the file system is concerned: the last contents that were logged,
 or written through. The invariant says that every buffer nobody is changing shows
 it, and that the disk shows it too except for the blocks logged and pinned.
 */
module Log {
  import opened CrashLog
  import opened BufferCache

  /** Unlocked buffers, and every block not logged, hold the logical contents. */
  ghost predicate Coherent(buf: seq<Buf>, disk: Disk, logical: Disk, logged: seq<int>) {
    && |disk| == |logical|
    && (forall i :: 0 <= i < |buf| && buf[i].valid && buf[i].holder == 0 && buf[i].blockno < |logical|
                    ==> buf[i].data == logical[buf[i].blockno])
    && (forall b :: 0 <= b < |disk| && b !in logged ==> disk[b] == logical[b])
  }

  /** Each logged block sits in its own buffer, which is pinned once; no other buffer is pinned. */
  ghost predicate Pinned(buf: seq<Buf>, pins: seq<nat>, logged: seq<int>, at: seq<nat>) {
    && |at| == |logged|
    && |pins| == |buf|
    && (forall k :: 0 <= k < |at| ==> at[k] < |buf| && buf[at[k]].dev == ROOTDEV && buf[at[k]].blockno == logged[k])
    && (forall i :: 0 <= i < |pins| ==> pins[i] == if i in at then 1 else 0)
  }

  /** A pending block has a buffer. */
  lemma PendingCached(buf: seq<Buf>, pins: seq<nat>, logged: seq<int>, at: seq<nat>, b: nat)
    requires Pinned(buf, pins, logged, at) && b in logged
    ensures exists i :: 0 <= i < |buf| && buf[i].Caches(b)
  {
    var k :| 0 <= k < |logged| && logged[k] == b;
    assert buf[at[k]].Caches(b);
  }

  /** A block that is not cached, or cached but not yet read, is not pending. */
  lemma NotPending(buf: seq<Buf>, refs: seq<nat>, pins: seq<nat>, disk: Disk, slot: seq<nat>, logged: seq<int>,
      at: seq<nat>, b: nat)
    requires BufsOk(buf, refs, pins, disk, slot) && Pinned(buf, pins, logged, at)
    requires forall j :: 0 <= j < |buf| && buf[j].Caches(b) ==> !buf[j].valid
    ensures b !in logged
  {
    if b in logged {
      var k :| 0 <= k < |logged| && logged[k] == b;
      assert buf[at[k]].Caches(b);
    }
  }

  /** The buffer that caches a pending block is the pinned one. */
  lemma PinnedHere(buf: seq<Buf>, refs: seq<nat>, pins: seq<nat>, disk: Disk, slot: seq<nat>, logged: seq<int>,
      at: seq<nat>, i: nat)
    requires BufsOk(buf, refs, pins, disk, slot) && Pinned(buf, pins, logged, at)
    requires i < |buf| && buf[i].dev == ROOTDEV && buf[i].blockno in logged
    ensures pins[i] == 1
  {
    var k :| 0 <= k < |logged| && logged[k] == buf[i].blockno;
    assert at[k] == i;
  }

  /** Taking over one unpinned or already caching buffer for block `b` keeps the pending blocks in place. */
  lemma TakeOver(buf: seq<Buf>, pins: seq<nat>, logged: seq<int>, at: seq<nat>, i: nat, x: Buf)
    requires Pinned(buf, pins, logged, at) && i < |buf|
    requires x.dev == ROOTDEV && (buf[i].Caches(x.blockno) || pins[i] == 0)
    ensures Pinned(buf[i := x], pins, logged, at)
  {
    forall k | 0 <= k < |at| && at[k] == i ensures buf[i].Caches(x.blockno) {
      assert i in at;
    }
  }

  /** A held buffer's contents may become the block's logical contents once it is pending. */
  lemma LogKeepsCoherent(buf: seq<Buf>, refs: seq<nat>, pins: seq<nat>, disk: Disk, slot: seq<nat>, logical: Disk,
                         logged: seq<int>, logged': seq<int>, i: nat)
    requires BufsOk(buf, refs, pins, disk, slot) && Coherent(buf, disk, logical, logged)
    requires i < |buf| && buf[i].dev == ROOTDEV && buf[i].holder != 0
    requires buf[i].blockno in logged' && forall b :: b in logged ==> b in logged'
    ensures Coherent(buf, disk, logical[buf[i].blockno := buf[i].data], logged')
  {
  }

  lemma PinOne(buf: seq<Buf>, pins: seq<nat>, logged: seq<int>, at: seq<nat>, i: nat)
    requires Pinned(buf, pins, logged, at) && i < |buf| && buf[i].dev == ROOTDEV && buf[i].blockno !in logged
    ensures Pinned(buf[i := buf[i].(refcnt := buf[i].refcnt + 1)], pins[i := pins[i] + 1],
                   logged + [buf[i].blockno], at + [i])
  {
    assert i !in at;
  }

  lemma UnpinFirst(buf: seq<Buf>, pins: seq<nat>, logged: seq<int>, at: seq<nat>)
    requires Pinned(buf, pins, logged, at) && logged != [] && logged[0] !in logged[1..] && buf[at[0]].refcnt > 0
    ensures pins[at[0]] == 1
    ensures Pinned(buf[at[0] := buf[at[0]].(refcnt := buf[at[0]].refcnt - 1)], pins[at[0] := 0], logged[1..], at[1..])
  {
    forall k | 1 <= k < |at| ensures at[k] != at[0] {
      assert logged[1..][k - 1] == logged[k];
    }
    forall i | 0 <= i < |pins| && i != at[0] ensures i in at <==> i in at[1..] {
      if i in at { var k :| 0 <= k < |at| && at[k] == i; assert at[1..][k - 1] == i; }
    }
  }

  lemma CoherentButRefs(buf: seq<Buf>, buf': seq<Buf>, disk: Disk, logical: Disk, logged: seq<int>)
    requires Coherent(buf, disk, logical, logged) && |buf| == |buf'|
    requires forall j :: 0 <= j < |buf| ==> buf'[j].(refcnt := 0) == buf[j].(refcnt := 0)
    ensures Coherent(buf', disk, logical, logged)
  {
    forall j | 0 <= j < |buf|
      ensures buf'[j].valid == buf[j].valid && buf'[j].holder == buf[j].holder
      ensures buf'[j].blockno == buf[j].blockno && buf'[j].data == buf[j].data
    {
      assert buf'[j].(refcnt := 0).data == buf[j].(refcnt := 0).data;
    }
  }

  /** What a transaction would write: the logical contents of its blocks. */
  ghost function Pending(logical: Disk, dst: seq<int>): (r: seq<Block>)
    requires forall i :: 0 <= i < |dst| ==> 0 <= dst[i] < |logical|
  {
    seq(|dst|, i requires 0 <= i < |dst| => logical[dst[i]])
  }

  class Log {
    const cache: Bcache
    const l: Layout
    const logsize: nat
    /** The in-memory header: log.lh.n and log.lh.block[]. */
    var n: nat
    var block: seq<int>
    var outstanding: int
    ghost var logical: Disk
    ghost var logged: seq<int>
    ghost var at: seq<nat>

    ghost predicate Inv()
      reads this, cache
    {
      && l.Valid()
      && l.cap == (if logsize < l.nlog then logsize else l.nlog - 1)
      && |block| == logsize
      && n <= l.cap
      && l.Targets(block[..n])
      && cache.Valid()
      && l.DiskOk(cache.disk)
      && l.DiskOk(logical)
      && Coherent(cache.buf, cache.disk, logical, logged)
      && Pinned(cache.buf, cache.pins, logged, at)
    }

    /** Exactly the blocks of the in-memory header are pending. */
    ghost predicate Synced()
      reads this, cache
    {
      Inv() && logged == block[..n]
    }

    /** Between commits: and the header on disk is empty. */
    ghost predicate Steady()
      reads this, cache
    {
      Synced() && logical[l.start][0] == 0
    }

    /** initlog at boot, before recovery: nothing is pending and the disk is what it is. */
    constructor (cache: Bcache, l: Layout, logsize: nat)
      requires l.Valid() && cache.Valid() && l.DiskOk(cache.disk)
      requires l.cap == if logsize < l.nlog then logsize else l.nlog - 1
      requires forall i :: 0 <= i < cache.nbuf ==> cache.buf[i].holder == 0 && cache.pins[i] == 0
      ensures this.cache == cache && this.l == l && this.logsize == logsize
      ensures Synced() && n == 0 && outstanding == 0 && logical == cache.disk
    {
      this.cache, this.l, this.logsize := cache, l, logsize;
      n, outstanding, block := 0, 0, seq(logsize, _ => 0);
      logical, logged, at := cache.disk, [], [];
    }

    /** bread: whatever is cached, the caller sees the last logical contents. */
    method Bread(b: nat, pid: nat) returns (ok: bool, i: nat)
      requires Inv() && b < l.size && pid != 0
      requires forall j :: 0 <= j < cache.nbuf && cache.buf[j].Caches(b) ==> cache.buf[j].holder == 0
      modifies cache`buf, cache`refs, cache`slot
      ensures Inv()
      ensures ok ==> i < cache.nbuf && cache.buf[i].Caches(b) && cache.buf[i].valid && cache.buf[i].holder == pid
      ensures ok ==> cache.buf[i].data == logical[b]
      ensures ok ==> cache.refs == old(cache.refs)[i := old(cache.refs[i]) + 1]
      ensures ok ==> forall j :: 0 <= j < cache.nbuf && j != i ==> cache.buf[j] == old(cache.buf[j])
      ensures ok ==> old(cache.buf[i].holder) == 0
      ensures !ok <==> forall j :: 0 <= j < cache.nbuf ==> !old(cache.buf[j].Caches(b)) && old(cache.buf[j].refcnt) > 0
      ensures !ok ==> cache.buf == old(cache.buf) && cache.refs == old(cache.refs)
    {
      hide Traced, Linked, Recency;
      ok, i := cache.Bread(ROOTDEV, b, pid);
      if ok {
        if !(old(cache.buf[i].Caches(b)) && old(cache.buf[i].valid)) {
          NotPending(old(cache.buf), old(cache.refs), cache.pins, cache.disk, old(cache.slot), logged, at, b);
        }
        TakeOver(old(cache.buf), cache.pins, logged, at, i, cache.buf[i]);
      }
    }

    /** A store into the buffer followed by bwrite: disk and logical contents both follow. */
    method WriteThrough(i: nat, pid: nat, data: Block)
      requires Inv() && i < cache.nbuf && pid != 0 && cache.buf[i].holder == pid
      requires cache.buf[i].dev == ROOTDEV && cache.buf[i].valid && |data| == l.words
      modifies this`logical, cache`buf, cache`disk, cache`writes
      ensures Inv()
      ensures cache.buf == old(cache.buf)[i := old(cache.buf[i]).(data := data)]
      ensures cache.disk == old(cache.disk)[cache.buf[i].blockno := data]
      ensures cache.writes == old(cache.writes) + [Write(cache.buf[i].blockno, data)]
      ensures logical == old(logical)[cache.buf[i].blockno := data]
    {
      hide Traced, Linked, Recency;
      cache.Store(i, pid, data);
      var ok := cache.Bwrite(i, pid);
      logical := logical[cache.buf[i].blockno := data];
    }

    /** brelse of a buffer whose changes, if any, were logged or written through. */
    method Brelse(i: nat, pid: nat)
      requires Inv() && i < cache.nbuf && pid != 0 && cache.buf[i].holder == pid
      requires cache.buf[i].valid && cache.buf[i].dev == ROOTDEV
      requires cache.buf[i].data == logical[cache.buf[i].blockno]
      modifies cache`buf, cache`refs, cache`next, cache`prev, cache`ring, cache`pos, cache`stamp, cache`now
      ensures Inv()
      ensures cache.refs == old(cache.refs)[i := old(cache.refs[i]) - 1]
      ensures cache.buf == old(cache.buf)[i := old(cache.buf[i]).(holder := 0, refcnt := old(cache.buf[i].refcnt) - 1)]
    {
      hide Traced, Linked, Recency;
      if cache.buf[i].blockno in logged {
        PinnedHere(cache.buf, cache.refs, cache.pins, cache.disk, cache.slot, logged, at, i);
      }
      var ok := cache.Unlock(i, pid);
      cache.Unref(i);
    }

    /** log_write: the caller's buffer becomes the block's logical contents. It panics
        exactly when the log is full, even for a block already in it, or outside an operation. */
    method LogWrite(i: nat, pid: nat) returns (ok: bool)
      requires Steady() && i < cache.nbuf && pid != 0 && cache.buf[i].holder == pid
      requires cache.buf[i].valid && cache.buf[i].dev == ROOTDEV
      requires |cache.buf[i].data| == l.words && !l.InLog(cache.buf[i].blockno)
      modifies this`n, this`block, this`logical, this`logged, this`at, cache`buf, cache`pins
      ensures Steady()
      ensures ok <==> old(n) < l.cap && outstanding >= 1
      ensures !ok ==> n == old(n) && block == old(block) && logical == old(logical) && cache.buf == old(cache.buf)
      ensures ok ==> logical == old(logical)[cache.buf[i].blockno := cache.buf[i].data]
      ensures ok ==> block[..n] == if old(cache.buf[i].blockno) in old(block[..n]) then old(block[..n])
                                   else old(block[..n]) + [old(cache.buf[i].blockno)]
      ensures forall j :: 0 <= j < cache.nbuf ==>
                cache.buf[j].(refcnt := 0) == old(cache.buf[j]).(refcnt := 0)
    {
      hide Traced, Linked, Recency;
      ok := !(n >= logsize || n >= l.nlog - 1) && outstanding >= 1;
      if ok {
        var k := LogIndex(cache.buf[i].blockno);
        if k == n {
          Append(i, pid);
        } else {
          LogKeepsCoherent(cache.buf, cache.refs, cache.pins, cache.disk, cache.slot, logical, logged, logged, i);
          block := block[k := cache.buf[i].blockno];
          assert block == old(block);
          logical := logical[cache.buf[i].blockno := cache.buf[i].data];
        }
      }
    }

    /** The absorption scan: where the block already is in the header, or n. */
    method LogIndex(b: int) returns (k: nat)
      requires n <= |block|
      ensures k <= n && (k < n <==> b in block[..n]) && (k < n ==> block[k] == b)
    {
      k := 0;
      while k < n
        invariant 0 <= k <= n && b !in block[..k]
      {
        if block[k] == b { break; }
        k := k + 1;
      }
      assert k < n ==> block[..n][k] == b;
    }

    /** A new block enters the header and its buffer is pinned. */
    method Append(i: nat, pid: nat)
      requires Steady() && i < cache.nbuf && pid != 0 && cache.buf[i].holder == pid && n < l.cap
      requires cache.buf[i].valid && cache.buf[i].dev == ROOTDEV && cache.buf[i].blockno !in block[..n]
      requires |cache.buf[i].data| == l.words && !l.InLog(cache.buf[i].blockno)
      modifies this`n, this`block, this`logical, this`logged, this`at, cache`buf, cache`pins
      ensures Steady() && block[..n] == old(block[..n]) + [cache.buf[i].blockno]
      ensures logical == old(logical)[cache.buf[i].blockno := cache.buf[i].data]
      ensures cache.buf == old(cache.buf)[i := old(cache.buf[i]).(refcnt := old(cache.buf[i].refcnt) + 1)]
    {
      hide Traced, Linked, Recency, Coherent, Pinned;
      var b := cache.buf[i].blockno;
      LogKeepsCoherent(cache.buf, cache.refs, cache.pins, cache.disk, cache.slot, logical, logged, logged + [b], i);
      PinOne(cache.buf, cache.pins, logged, at, i);
      block := block[n := b];
      cache.Bpin(i, pid);
      n := n + 1;
      assert block[..n] == old(block[..n]) + [b];
      logical, logged, at := logical[b := cache.buf[i].data], logged + [b], at + [i];
      CoherentButRefs(old(cache.buf), cache.buf, cache.disk, logical, logged);
    }

    /** bunpin of the first pending block's buffer, once the disk has its contents. */
    method Unpin(i: nat, pid: nat)
      requires Inv() && i < cache.nbuf && pid != 0 && cache.buf[i].holder == pid
      requires logged != [] && cache.buf[i].Caches(logged[0]) && cache.disk[logged[0]] == logical[logged[0]]
      requires logged[0] !in logged[1..]
      modifies this`logged, this`at, cache`buf, cache`pins
      ensures Inv() && logged == old(logged)[1..]
      ensures cache.buf == old(cache.buf)[i := old(cache.buf[i]).(refcnt := old(cache.buf[i].refcnt) - 1)]
      ensures forall k :: 0 <= k < cache.nbuf ==> cache.pins[k] <= old(cache.pins[k])
    {
      hide Traced, Linked, Recency;
      assert at[0] == i;
      UnpinFirst(cache.buf, cache.pins, logged, at);
      cache.Bunpin(i, pid);
      logged, at := logged[1..], at[1..];
      assert forall b :: b in old(logged) <==> b == old(logged[0]) || b in logged;
      CoherentButRefs(old(cache.buf), cache.buf, cache.disk, logical, logged);
    }

    /** The loop of write_head over the header block's words. */
    method FillHeader(h: Block) returns (hb: Block)
      requires n <= |block| && n < |h|
      ensures hb == PutHeader(h, block[..n])
    {
      hb := h[0 := n];
      for k := 0 to n
        invariant |hb| == |h| && hb[0] == n
        invariant forall j :: 0 <= j < k ==> hb[1 + j] == block[j]
        invariant forall j :: 1 + k <= j < |h| ==> hb[j] == h[j]
      {
        hb := hb[1 + k := block[k]];
      }
    }
  }

  /** After a commit the disk itself holds the logical contents, with an empty log. */
  lemma QuiescentIsClean(lg: Log)
    requires lg.Steady() && lg.n == 0
    ensures Clean(lg.l, lg.cache.disk, lg.logical)
  {
  }

  /** The transaction in memory carries the disk to the logical contents. */
  lemma PendingIsLogical(l: Layout, disk: Disk, logical: Disk, dst: seq<int>)
    requires l.Valid() && l.Targets(dst) && |disk| == |logical| == l.size
    requires forall b :: 0 <= b < l.size && b !in dst ==> disk[b] == logical[b]
    ensures Update(disk, dst, Pending(logical, dst)) == logical
  {
    var data := Pending(logical, dst);
    assert InstallWrites(dst, data)[..|dst|] == InstallWrites(dst, data) && dst[..|dst|] == dst;
    InstallPrefix(l, disk, dst, data, |dst|);
    forall b | 0 <= b < l.size ensures Update(disk, dst, data)[b] == logical[b] {
      if b in dst { var i :| 0 <= i < |dst| && dst[i] == b; }
    }
  }

  /** A crash after any number of Commit's disk writes, in any state of the running
      system: recovery finds the last committed contents or the logical ones, the
      second exactly once the header has been written. */
  lemma CommitIsAtomic(lg: Log, k: nat)
    requires lg.Steady()
    requires k <= |CommitWrites(lg.l, lg.logical[lg.l.start], lg.block[..lg.n], Pending(lg.logical, lg.block[..lg.n]))|
    ensures Recoverable(lg.l,
              Apply(lg.cache.disk, CommitWrites(lg.l, lg.logical[lg.l.start], lg.block[..lg.n],
                                                Pending(lg.logical, lg.block[..lg.n]))[..k]),
              if k <= lg.n then lg.cache.disk else lg.logical)
  {
    hide Traced, Linked, Recency, Pinned, BufsOk;
    var l, d, dst := lg.l, lg.cache.disk, lg.block[..lg.n];
    assert l.start !in dst;
    CommitPrefix(l, d, d, dst, Pending(lg.logical, dst), k);
    PendingIsLogical(l, d, lg.logical, dst);
  }
}
