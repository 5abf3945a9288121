/**
 The buffer cache (kernel/bio.c). Buffers are numbered 0 .. nbuf-1 and `nbuf` stands
 for the list head, so `next` and `prev` are the pointer fields of all nodes.

 Each method is what the code does between taking and dropping one lock; a run of
 several processes is any sequence of these calls, so what every method keeps holds
 in every interleaving.
 */
module BufferCache {
  import opened CrashLog

  const ROOTDEV: nat := 1

  /** `holder` is the pid owning the buffer's sleep lock, 0 when it is free. */
  datatype Buf = Buf(dev: nat, blockno: nat, valid: bool, holder: nat, refcnt: nat, data: Block) {
    predicate Caches(b: nat) {
      dev == ROOTDEV && blockno == b
    }

    /** Reference accounting, and: a buffer that differs from the disk is locked or pinned. */
    ghost predicate Ok(refs: nat, pins: nat, disk: Disk) {
      && refcnt == refs + pins
      && (holder != 0 ==> refs > 0)
      && (dev == ROOTDEV || (dev == 0 && refcnt == 0 && !valid))
      && (dev == ROOTDEV ==> blockno < |disk|)
      && (valid && holder == 0 && pins == 0 ==> data == disk[blockno])
      && (pins > 0 ==> valid)
    }
  }

  // ------------------------------------------------------- the doubly linked list

  /** `pos` is the inverse of `ring`: the sequence holds every node 0..|ring|-1 once. */
  ghost predicate Listing(ring: seq<nat>, pos: seq<nat>) {
    && |pos| == |ring|
    && (forall k {:trigger ring[k]} :: 0 <= k < |ring| ==> ring[k] < |ring| && pos[ring[k]] == k)
    && (forall i {:trigger pos[i]} :: 0 <= i < |ring| ==> pos[i] < |ring| && ring[pos[i]] == i)
  }

  /** `next` and `prev` form one cycle through all nodes in the order of `ring`,
      whose last node is the list head. */
  ghost predicate Linked(next: seq<nat>, prev: seq<nat>, ring: seq<nat>, pos: seq<nat>) {
    var n := |ring| - 1;
    && Listing(ring, pos)
    && |next| == |prev| == |ring| >= 1
    && ring[n] == n
    && (forall i {:trigger next[i]} :: 0 <= i <= n ==> next[i] == ring[if pos[i] == n then 0 else pos[i] + 1])
    && (forall i {:trigger prev[i]} :: 0 <= i <= n ==> prev[i] == ring[if pos[i] == 0 then n else pos[i] - 1])
  }

  /** The node order with buffer `b` moved to the front. */
  ghost function ToFront(ring: seq<nat>, p: nat): (r: seq<nat>)
    requires p < |ring|
    ensures |r| == |ring|
  {
    seq(|ring|, k requires 0 <= k < |ring| =>
      if k == 0 then ring[p] else if k <= p then ring[k - 1] else ring[k])
  }

  ghost function ToFrontPos(pos: seq<nat>, b: nat): (r: seq<nat>)
    requires b < |pos|
    ensures |r| == |pos|
  {
    seq(|pos|, i requires 0 <= i < |pos| =>
      if i == b then 0 else if pos[i] < pos[b] then pos[i] + 1 else pos[i])
  }

  /** `next` after the six pointer stores of `brelse` on node `b`. */
  function Next(next: seq<nat>, prev: seq<nat>, b: nat): (r: seq<nat>)
    requires |next| == |prev| && b < |next| && prev[b] < |next|
    ensures |r| == |next|
  {
    var n := |next| - 1;
    var out := next[prev[b] := next[b]];
    out[b := out[n]][n := b]
  }

  /** `prev` after the same stores; the fifth goes through the head's unlinked `next`. */
  function Prev(next: seq<nat>, prev: seq<nat>, b: nat): (r: seq<nat>)
    requires |next| == |prev| && b < |next| && prev[b] < |next| && next[b] < |next|
    requires next[|next| - 1] < |next|
    ensures |r| == |prev|
  {
    var n := |next| - 1;
    var out := next[prev[b] := next[b]];
    prev[next[b] := prev[b]][b := n][out[n] := b]
  }

  lemma FrontListing(ring: seq<nat>, pos: seq<nat>, b: nat)
    requires Listing(ring, pos) && b < |ring| - 1 && ring[|ring| - 1] == |ring| - 1
    ensures Listing(ToFront(ring, pos[b]), ToFrontPos(pos, b))
    ensures ToFront(ring, pos[b])[|ring| - 1] == |ring| - 1
    ensures forall i :: 0 <= i < |ring| ==> ToFrontPos(pos, b)[i] < |ring|
  {
  }

  lemma NextAt(next: seq<nat>, prev: seq<nat>, ring: seq<nat>, pos: seq<nat>, b: nat, x: nat)
    requires Linked(next, prev, ring, pos) && b < |ring| - 1 && x < |ring|
    ensures prev[b] < |next|
    ensures var q := ToFrontPos(pos, b)[x];
            && q < |ring|
            && Next(next, prev, b)[x] == ToFront(ring, pos[b])[if q == |ring| - 1 then 0 else q + 1]
  {
    var n, p := |ring| - 1, pos[b];
    assert ring[p] == b && pos[n] == n;
    if x != b && x != n && !(p > 0 && pos[x] == p - 1) {
      assert prev[b] != x;
      assert Next(next, prev, b)[x] == next[x];
    }
  }

  lemma PrevAt(next: seq<nat>, prev: seq<nat>, ring: seq<nat>, pos: seq<nat>, b: nat, x: nat)
    requires Linked(next, prev, ring, pos) && b < |ring| - 1 && x < |ring|
    ensures prev[b] < |next| && next[b] < |next|
    ensures var q := ToFrontPos(pos, b)[x];
            && q < |ring|
            && Prev(next, prev, b)[x] == ToFront(ring, pos[b])[if q == 0 then |ring| - 1 else q - 1]
  {
    var n, p := |ring| - 1, pos[b];
    assert ring[p] == b && pos[n] == n;
    var first := next[prev[b] := next[b]][n];
    assert first == if p == 0 then ring[1] else ring[0];
    if x != b && x != first && x != next[b] {
      assert Prev(next, prev, b)[x] == prev[x];
      assert pos[x] != p + 1;
    }
  }

  /** The pointer stores of brelse keep one cycle over all nodes, `b` now in front. */
  lemma UnlinkKeepsCycle(next: seq<nat>, prev: seq<nat>, ring: seq<nat>, pos: seq<nat>, b: nat)
    requires Linked(next, prev, ring, pos) && b < |ring| - 1
    ensures prev[b] < |next| && next[b] < |next|
    ensures Linked(Next(next, prev, b), Prev(next, prev, b), ToFront(ring, pos[b]), ToFrontPos(pos, b))
  {
    hide LinkAt, Next, Prev, ToFront, ToFrontPos, Listing, Linked;
    Neighbours(next, prev, ring, pos, b);
    FrontListing(ring, pos, b);
    forall x | 0 <= x < |ring|
      ensures LinkAt(Next(next, prev, b), Prev(next, prev, b), ToFront(ring, pos[b]), ToFrontPos(pos, b), x)
    {
      LinkAtKept(next, prev, ring, pos, b, x);
    }
    LinkedFrom(Next(next, prev, b), Prev(next, prev, b), ToFront(ring, pos[b]), ToFrontPos(pos, b));
  }

  /** Node x has the neighbours its place in ring gives it. */
  ghost predicate LinkAt(next: seq<nat>, prev: seq<nat>, ring: seq<nat>, pos: seq<nat>, x: nat)
  {
    && |next| == |prev| == |ring| == |pos| && x < |ring| && pos[x] < |ring|
    && next[x] == ring[if pos[x] == |ring| - 1 then 0 else pos[x] + 1]
    && prev[x] == ring[if pos[x] == 0 then |ring| - 1 else pos[x] - 1]
  }

  lemma LinkAtKept(next: seq<nat>, prev: seq<nat>, ring: seq<nat>, pos: seq<nat>, b: nat, x: nat)
    requires Linked(next, prev, ring, pos) && b < |ring| - 1 && x < |ring|
    ensures prev[b] < |next| && next[b] < |next|
    ensures LinkAt(Next(next, prev, b), Prev(next, prev, b), ToFront(ring, pos[b]), ToFrontPos(pos, b), x)
  {
    NextAt(next, prev, ring, pos, b, x);
    PrevAt(next, prev, ring, pos, b, x);
  }

  lemma LinkedFrom(next: seq<nat>, prev: seq<nat>, ring: seq<nat>, pos: seq<nat>)
    requires |next| == |prev| == |ring| == |pos| >= 1 && ring[|ring| - 1] == |ring| - 1 && Listing(ring, pos)
    requires forall x :: 0 <= x < |ring| ==> LinkAt(next, prev, ring, pos, x)
    ensures Linked(next, prev, ring, pos)
  {
    forall x | 0 <= x < |ring|
      ensures next[x] == ring[if pos[x] == |ring| - 1 then 0 else pos[x] + 1]
      ensures prev[x] == ring[if pos[x] == 0 then |ring| - 1 else pos[x] - 1]
    {
      assert LinkAt(next, prev, ring, pos, x);
    }
  }

  /** A linked buffer is not its own neighbour. */
  lemma Neighbours(next: seq<nat>, prev: seq<nat>, ring: seq<nat>, pos: seq<nat>, b: nat)
    requires Linked(next, prev, ring, pos) && b < |ring| - 1
    ensures |next| == |prev| == |ring| == |pos| && Listing(ring, pos) && pos[b] < |ring|
    ensures ring[|ring| - 1] == |ring| - 1
    ensures next[b] < |ring| && prev[b] < |ring| && next[|next| - 1] < |ring| && next[b] != b && prev[b] != b
  {
    assert ring[pos[b]] == b;
  }

  /** The list is ordered by when each buffer's count last fell to zero. */
  ghost predicate Recency(ring: seq<nat>, stamp: seq<nat>, now: nat) {
    && |stamp| == |ring| - 1
    && (forall i :: 0 <= i < |stamp| ==> stamp[i] < now)
    && (forall k :: 0 <= k < |stamp| ==> ring[k] < |stamp|)
    && (forall j, k :: 0 <= j < k < |stamp| ==> stamp[ring[j]] > stamp[ring[k]])
  }

  lemma FrontIsNewest(ring: seq<nat>, pos: seq<nat>, stamp: seq<nat>, now: nat, b: nat)
    requires Listing(ring, pos) && |ring| > 0 && ring[|ring| - 1] == |ring| - 1 && b < |ring| - 1
    requires Recency(ring, stamp, now)
    ensures Recency(ToFront(ring, pos[b]), stamp[b := now], now + 1)
  {
    var r, st := ToFront(ring, pos[b]), stamp[b := now];
    forall j, k | 0 <= j < k < |stamp| ensures st[r[j]] > st[r[k]] {
      assert r[k] != b by { assert ring[pos[b]] == b; }
    }
  }

  // --------------------------------------------------------------- the cache

  /** The disk is what the recorded writes made of it. */
  ghost predicate Traced(boot: Disk, writes: seq<Write>, disk: Disk) {
    disk == Apply(boot, writes)
  }

  lemma TraceOne(boot: Disk, writes: seq<Write>, disk: Disk, w: Write)
    requires Traced(boot, writes, disk) && w.b < |disk|
    ensures Traced(boot, writes + [w], disk[w.b := w.data])
  {
    assert (writes + [w])[..|writes|] == writes;
  }

  lemma DropRef(buf: seq<Buf>, refs: seq<nat>, pins: seq<nat>, disk: Disk, slot: seq<nat>, i: nat)
    requires BufsOk(buf, refs, pins, disk, slot) && i < |buf| && refs[i] > 0
    requires buf[i].holder != 0 ==> refs[i] > 1
    ensures buf[i].refcnt > 0
    ensures BufsOk(buf[i := buf[i].(refcnt := buf[i].refcnt - 1)], refs[i := refs[i] - 1], pins, disk, slot)
  {
  }

  /** Every buffer is accounted for, and `slot` names the one buffer that may cache each block. */
  ghost predicate BufsOk(buf: seq<Buf>, refs: seq<nat>, pins: seq<nat>, disk: Disk, slot: seq<nat>) {
    && |buf| == |refs| == |pins|
    && |slot| == |disk|
    && (forall i :: 0 <= i < |buf| ==> buf[i].Ok(refs[i], pins[i], disk))
    && (forall i :: 0 <= i < |buf| && buf[i].dev == ROOTDEV ==> slot[buf[i].blockno] == i)
  }

  /** No two buffers hold the same block of the root device. */
  lemma NoBlockTwice(c: Bcache, i: nat, j: nat)
    requires c.Valid() && i < j < c.nbuf && c.buf[i].dev == c.buf[j].dev == ROOTDEV
    ensures c.buf[i].blockno != c.buf[j].blockno
  {
  }

  /** A buffer that shows something else than the disk is referenced, so it is never recycled. */
  lemma DirtyIsReferenced(c: Bcache, i: nat)
    requires c.Valid() && i < c.nbuf && c.buf[i].valid
    requires c.buf[i].data != c.disk[c.buf[i].blockno]
    ensures c.buf[i].refcnt > 0
  {
  }

  class Bcache {
    const nbuf: nat
    var buf: seq<Buf>
    var next: seq<nat>
    var prev: seq<nat>
    var disk: Disk
    /** The disk at boot, and every single-block write issued since, in order. */
    ghost const boot: Disk
    ghost var writes: seq<Write>
    /** The list as a sequence of nodes, most recently released first. */
    ghost var ring: seq<nat>
    ghost var pos: seq<nat>
    /** When each buffer's count last fell to zero. */
    ghost var stamp: seq<nat>
    ghost var now: nat
    /** How many references from bget the processes have, and how often each buffer is pinned. */
    var refs: seq<nat>
    ghost var pins: seq<nat>
    ghost var slot: seq<nat>

    ghost predicate ListOk()
      reads this`next, this`prev, this`ring, this`pos, this`stamp, this`now
    {
      && |ring| == nbuf + 1
      && Linked(next, prev, ring, pos)
      && Recency(ring, stamp, now)
    }

    ghost predicate Valid()
      reads this
    {
      && ListOk()
      && |buf| == nbuf
      && Traced(boot, writes, disk)
      && BufsOk(buf, refs, pins, disk, slot)
    }

    /** binit: link the buffers in at the head, one after the other. */
    constructor (nbuf: nat, disk: Disk)
      ensures Valid() && this.nbuf == nbuf && this.disk == disk && writes == []
      ensures forall i :: 0 <= i < nbuf ==> buf[i].refcnt == 0 && refs[i] == 0 && pins[i] == 0
      ensures forall k :: 0 <= k < nbuf ==> ring[k] == nbuf - 1 - k
    {
      this.nbuf := nbuf;
      this.disk, this.boot := disk, disk;
      buf := seq(nbuf, _ => Buf(0, 0, false, 0, 0, []));
      writes := [];
      now := nbuf;
      stamp := seq(nbuf, i => i);
      refs := seq(nbuf, _ => 0);
      pins := seq(nbuf, _ => 0);
      slot := seq(|disk|, _ => 0);
      var nx: seq<nat> := seq(nbuf + 1, _ => nbuf);
      var pv: seq<nat> := seq(nbuf + 1, _ => nbuf);
      for b := 0 to nbuf
        invariant |nx| == |pv| == nbuf + 1
        invariant nx[nbuf] == if b == 0 then nbuf else b - 1
        invariant pv[nbuf] == if b == 0 then nbuf else 0
        invariant forall i :: 0 <= i < b ==> nx[i] == if i == 0 then nbuf else i - 1
        invariant forall i :: 0 <= i < b ==> pv[i] == if i == b - 1 then nbuf else i + 1
      {
        nx := nx[b := nx[nbuf]];
        pv := pv[b := nbuf];
        pv := pv[nx[nbuf] := b];
        nx := nx[nbuf := b];
      }
      next, prev := nx, pv;
      ring := seq(nbuf + 1, k requires 0 <= k <= nbuf => if k == nbuf then nbuf else nbuf - 1 - k);
      pos := seq(nbuf + 1, k requires 0 <= k <= nbuf => if k == nbuf then nbuf else nbuf - 1 - k);
    }

    /** bget under bcache.lock: a hit takes a reference, a miss recycles the least
        recently released unused buffer; it panics exactly when neither exists. */
    method Bget(dev: nat, blockno: nat) returns (ok: bool, i: nat)
      requires Valid() && dev == ROOTDEV && blockno < |disk|
      modifies this`buf, this`refs, this`slot
      ensures Valid()
      ensures ok ==> i < nbuf && refs == old(refs)[i := old(refs[i]) + 1]
      ensures ok && old(buf[i].Caches(blockno)) ==>
                buf == old(buf)[i := old(buf[i]).(refcnt := old(buf[i].refcnt) + 1)]
      ensures ok && !old(buf[i].Caches(blockno)) ==>
                && (forall j :: 0 <= j < nbuf ==> !old(buf[j].Caches(blockno)))
                && old(buf[i].refcnt) == 0
                && (forall j :: 0 <= j < nbuf && old(buf[j].refcnt) == 0 ==> stamp[i] <= stamp[j])
                && buf == old(buf)[i := Buf(dev, blockno, false, 0, 1, old(buf[i].data))]
      ensures !ok <==> forall j :: 0 <= j < nbuf ==> !old(buf[j].Caches(blockno)) && old(buf[j].refcnt) > 0
      ensures !ok ==> buf == old(buf) && refs == old(refs)
    {
      hide Traced, Linked, Recency;
      ok, i := FindCached(dev, blockno);
      if ok {
        buf := buf[i := buf[i].(refcnt := buf[i].refcnt + 1)];
        refs := refs[i := refs[i] + 1];
      } else {
        ok, i := FindUnused();
        if ok {
          buf := buf[i := buf[i].(dev := dev, blockno := blockno, valid := false, refcnt := 1)];
          refs := refs[i := refs[i] + 1];
          slot := slot[blockno := i];
        }
      }
    }

    /** The forward scan: is the block already cached? */
    method FindCached(dev: nat, blockno: nat) returns (ok: bool, i: nat)
      requires Valid() && dev == ROOTDEV
      ensures ok ==> i < nbuf && buf[i].Caches(blockno)
      ensures !ok ==> forall j :: 0 <= j < nbuf ==> !buf[j].Caches(blockno)
    {
      ghost var k := 0;
      i := next[nbuf];
      while i != nbuf
        invariant 0 <= k <= nbuf && i == ring[k]
        invariant forall j :: 0 <= j < nbuf && pos[j] < k ==> !buf[j].Caches(blockno)
        decreases nbuf - k
      {
        if buf[i].dev == dev && buf[i].blockno == blockno {
          return true, i;
        }
        i := next[i];
        k := k + 1;
      }
      ok, i := false, 0;
    }

    /** The backward scan: the first unused buffer found is the one unused for longest. */
    method FindUnused() returns (ok: bool, i: nat)
      requires Valid()
      ensures ok ==> i < nbuf && buf[i].refcnt == 0
      ensures ok ==> forall j :: 0 <= j < nbuf && buf[j].refcnt == 0 ==> stamp[i] <= stamp[j]
      ensures !ok ==> forall j :: 0 <= j < nbuf ==> buf[j].refcnt > 0
    {
      ghost var k := nbuf;
      i := prev[nbuf];
      while i != nbuf
        invariant 0 <= k <= nbuf && i == if k == 0 then nbuf else ring[k - 1]
        invariant forall j :: 0 <= j < nbuf && k <= pos[j] ==> buf[j].refcnt > 0
        decreases k
      {
        if buf[i].refcnt == 0 {
          forall j | 0 <= j < nbuf && buf[j].refcnt == 0 ensures stamp[i] <= stamp[j] {
            assert ring[pos[j]] == j && pos[j] <= k - 1;
          }
          return true, i;
        }
        i := prev[i];
        k := k - 1;
      }
      ok, i := false, 0;
    }

    /** acquiresleep on a buffer the process has a reference to, once the lock is free. */
    method Lock(i: nat, pid: nat)
      requires Valid() && i < nbuf && buf[i].holder == 0 && pid != 0 && refs[i] > 0
      modifies this`buf
      ensures Valid() && buf == old(buf)[i := old(buf[i]).(holder := pid)]
    {
      hide Traced, Linked, Recency;
      buf := buf[i := buf[i].(holder := pid)];
    }

    /** The rest of bread: read the block unless the buffer already holds it. */
    method Fill(i: nat, pid: nat)
      requires Valid() && i < nbuf && pid != 0 && buf[i].holder == pid && buf[i].dev == ROOTDEV
      modifies this`buf
      ensures Valid()
      ensures buf == old(buf)[i := old(buf[i]).(valid := true, data :=
                if old(buf[i].valid) then old(buf[i].data) else disk[old(buf[i].blockno)])]
    {
      hide Traced, Linked, Recency;
      if !buf[i].valid {
        buf := buf[i := buf[i].(data := disk[buf[i].blockno])];
        buf := buf[i := buf[i].(valid := true)];
      }
    }

    /** bread, when nobody else holds the buffer's lock. */
    method Bread(dev: nat, blockno: nat, pid: nat) returns (ok: bool, i: nat)
      requires Valid() && dev == ROOTDEV && blockno < |disk| && pid != 0
      requires forall j :: 0 <= j < nbuf && buf[j].Caches(blockno) ==> buf[j].holder == 0
      modifies this`buf, this`refs, this`slot
      ensures Valid()
      ensures ok ==> i < nbuf && refs == old(refs)[i := old(refs[i]) + 1]
      ensures ok ==> old(buf[i].holder) == 0
      ensures ok ==> old(buf[i].Caches(blockno))
                     || (old(buf[i].refcnt) == 0 && forall j :: 0 <= j < nbuf ==> !old(buf[j].Caches(blockno)))
      ensures ok ==> buf == old(buf)[i := Buf(dev, blockno, true, pid, old(buf[i].refcnt) + 1,
                       if old(buf[i].Caches(blockno)) && old(buf[i].valid) then old(buf[i].data) else disk[blockno])]
      ensures !ok <==> forall j :: 0 <= j < nbuf ==> !old(buf[j].Caches(blockno)) && old(buf[j].refcnt) > 0
      ensures !ok ==> buf == old(buf) && refs == old(refs)
    {
      hide Traced, Linked, Recency;
      ok, i := Bget(dev, blockno);
      if ok {
        Lock(i, pid);
        Fill(i, pid);
      }
    }

    /** A store into b->data by the lock's holder. */
    method Store(i: nat, pid: nat, data: Block)
      requires Valid() && i < nbuf && pid != 0 && buf[i].holder == pid
      modifies this`buf
      ensures Valid() && buf == old(buf)[i := old(buf[i]).(data := data)]
    {
      hide Traced, Linked, Recency;
      buf := buf[i := buf[i].(data := data)];
    }

    /** bwrite: panics unless the caller holds the buffer. */
    method Bwrite(i: nat, pid: nat) returns (ok: bool)
      requires Valid() && i < nbuf && pid != 0
      modifies this`disk, this`writes
      ensures Valid() && ok == (buf[i].holder == pid) && |disk| == |old(disk)|
      ensures ok ==> disk == old(disk)[buf[i].blockno := buf[i].data]
      ensures ok ==> writes == old(writes) + [Write(buf[i].blockno, buf[i].data)]
      ensures !ok ==> disk == old(disk) && writes == old(writes)
    {
      ok := buf[i].holder == pid;
      if ok {
        TraceOne(boot, writes, disk, Write(buf[i].blockno, buf[i].data));
        hide Linked, Recency, Traced;
        disk := disk[buf[i].blockno := buf[i].data];
        writes := writes + [Write(buf[i].blockno, buf[i].data)];
      }
    }

    /** The first half of brelse, releasesleep: panics unless the caller holds the lock.
        What the caller owes is that a changed buffer was written or logged. */
    method Unlock(i: nat, pid: nat) returns (ok: bool)
      requires Valid() && i < nbuf && pid != 0
      requires buf[i].holder == pid && pins[i] == 0 && buf[i].valid ==> buf[i].data == disk[buf[i].blockno]
      modifies this`buf
      ensures Valid() && ok == (old(buf[i].holder) == pid)
      ensures buf == if ok then old(buf)[i := old(buf[i]).(holder := 0)] else old(buf)
    {
      hide Traced, Linked, Recency;
      ok := buf[i].holder == pid;
      if ok {
        buf := buf[i := buf[i].(holder := 0)];
      }
    }

    /** The second half of brelse, when the caller no longer holds the lock (and whoever
        does has a reference of its own): drop the reference, and on the last one move the
        buffer to the most recently used end of the list. */
    method Unref(i: nat)
      requires Valid() && i < nbuf && refs[i] > 0 && (buf[i].holder != 0 ==> refs[i] > 1)
      modifies this`buf, this`refs, this`next, this`prev, this`ring, this`pos, this`stamp, this`now
      ensures Valid()
      ensures refs == old(refs)[i := old(refs[i]) - 1]
      ensures buf == old(buf)[i := old(buf[i]).(refcnt := old(buf[i].refcnt) - 1)]
      ensures old(buf[i].refcnt) > 1 ==> ring == old(ring) && stamp == old(stamp)
      ensures old(buf[i].refcnt) == 1 ==> ring == ToFront(old(ring), old(pos[i]))
      ensures old(buf[i].refcnt) == 1 ==> forall j :: 0 <= j < nbuf && j != i ==> stamp[j] == old(stamp[j]) < stamp[i]
    {
      hide Traced, Linked, Recency;
      DropRef(buf, refs, pins, disk, slot, i);
      buf := buf[i := buf[i].(refcnt := buf[i].refcnt - 1)];
      refs := refs[i := refs[i] - 1];
      if buf[i].refcnt == 0 {
        MoveToFront(i);
      }
    }

    method MoveToFront(i: nat)
      requires ListOk() && i < nbuf
      modifies this`next, this`prev, this`ring, this`pos, this`stamp, this`now
      ensures ListOk() && ring == ToFront(old(ring), old(pos[i]))
      ensures forall j :: 0 <= j < nbuf && j != i ==> stamp[j] == old(stamp[j]) < stamp[i]
    {
      hide Linked, Listing, ToFront, ToFrontPos;
      var nx, pv := next, prev;
      Neighbours(next, prev, ring, pos, i);
      UnlinkKeepsCycle(next, prev, ring, pos, i);
      FrontIsNewest(ring, pos, stamp, now, i);
      pv := pv[nx[i] := pv[i]];
      nx := nx[pv[i] := nx[i]];
      nx := nx[i := nx[nbuf]];
      pv := pv[i := nbuf];
      pv := pv[nx[nbuf] := i];
      nx := nx[nbuf := i];
      assert nx == Next(next, prev, i);
      assert pv == Prev(next, prev, i);
      next, prev := nx, pv;
      ring, pos := ToFront(ring, pos[i]), ToFrontPos(pos, i);
      stamp, now := stamp[i := now], now + 1;
    }

    method Bpin(i: nat, pid: nat)
      requires Valid() && i < nbuf && pid != 0 && buf[i].holder == pid && buf[i].valid && buf[i].dev == ROOTDEV
      modifies this`buf, this`pins
      ensures Valid() && pins == old(pins)[i := old(pins[i]) + 1]
      ensures buf == old(buf)[i := old(buf[i]).(refcnt := old(buf[i].refcnt) + 1)]
    {
      hide Traced, Linked, Recency;
      buf := buf[i := buf[i].(refcnt := buf[i].refcnt + 1)];
      pins := pins[i := pins[i] + 1];
    }

    method Bunpin(i: nat, pid: nat)
      requires Valid() && i < nbuf && pid != 0 && buf[i].holder == pid && pins[i] > 0
      modifies this`buf, this`pins
      ensures Valid() && pins == old(pins)[i := old(pins[i]) - 1]
      ensures buf == old(buf)[i := old(buf[i]).(refcnt := old(buf[i].refcnt) - 1)]
    {
      hide Traced, Linked, Recency;
      buf := buf[i := buf[i].(refcnt := buf[i].refcnt - 1)];
      pins := pins[i := pins[i] - 1];
    }
  }
}
