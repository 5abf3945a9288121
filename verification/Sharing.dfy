/**
 What processes that share the buffer cache (kernel/bio.c) may rely on: a buffer to which
 a process has a reference stays with its block, and stays as it is while locked.
 */
module Sharing {
  import opened Common
  import opened CrashLog
  import opened BufferCache
  import opened LogModule = Log

  // ----------------------------------------------------------- what the others can change

  /** Nobody but `me` has changes in a buffer that are not the block's logical contents. */
  ghost predicate Shown(buf: seq<Buf>, logical: Disk, me: nat) {
    forall i :: 0 <= i < |buf| && buf[i].valid && buf[i].holder != me && buf[i].blockno < |logical|
      ==> buf[i].data == logical[buf[i].blockno]
  }

  /** `r` references are enough for mine, if any, and that of another lock holder. */
  ghost predicate CountedAt(x: Buf, r: nat, mine: bool, me: nat) {
    && r >= (if mine then 1 else 0) + (if x.holder != 0 && x.holder != me then 1 else 0)
    && (x.holder == me ==> mine)
  }

  /** `hold` are the buffers to which `me` has a reference. */
  ghost predicate Counted(buf: seq<Buf>, refs: seq<nat>, hold: set<nat>, me: nat) {
    && |refs| == |buf| && (forall i :: i in hold ==> i < |buf|)
    && forall i :: 0 <= i < |buf| ==> CountedAt(buf[i], refs[i], i in hold, me)
  }

  /** A buffer to which `me` has a reference stays with its block, and as it is while locked by `me`. */
  ghost predicate KeptAt(x: Buf, y: Buf, me: nat) {
    && y.dev == x.dev && y.blockno == x.blockno
    && (x.holder == me ==> y == x.(refcnt := y.refcnt))
    && (x.holder != me ==> y.holder != me)
  }

  ghost predicate Kept(buf: seq<Buf>, buf': seq<Buf>, hold: set<nat>, me: nat) {
    |buf'| == |buf| && forall i :: i in hold && i < |buf| ==> KeptAt(buf[i], buf'[i], me)
  }

  lemma KeptTrans(a: seq<Buf>, b: seq<Buf>, c: seq<Buf>, hold: set<nat>, me: nat)
    requires Kept(a, b, hold, me) && Kept(b, c, hold, me)
    ensures Kept(a, c, hold, me)
  {
    forall i | i in hold && i < |a| ensures KeptAt(a[i], c[i], me) {
      assert KeptAt(a[i], b[i], me) && KeptAt(b[i], c[i], me);
    }
  }

  /** One buffer changes hands. */
  lemma Touch(buf: seq<Buf>, refs: seq<nat>, pins: seq<nat>, disk: Disk, logical: Disk, logged: seq<int>, at: seq<nat>,
              hold: set<nat>, me: nat, i: nat, x: Buf, r: nat)
    requires Coherent(buf, disk, logical, logged) && Pinned(buf, pins, logged, at) && Shown(buf, logical, me)
    requires Counted(buf, refs, hold, me)
    requires me != 0 && i < |buf| && x.dev == ROOTDEV && (buf[i].Caches(x.blockno) || pins[i] == 0)
    requires CountedAt(x, r, i in hold, me)
    requires x.valid && x.holder != me && x.blockno < |logical| ==> x.data == logical[x.blockno]
    ensures Coherent(buf[i := x], disk, logical, logged) && Pinned(buf[i := x], pins, logged, at)
    ensures Shown(buf[i := x], logical, me) && Counted(buf[i := x], refs[i := r], hold, me)
  {
    TakeOver(buf, pins, logged, at, i, x);
    forall j | 0 <= j < |buf| ensures CountedAt(buf[i := x][j], refs[i := r][j], j in hold, me) {
      assert CountedAt(buf[j], refs[j], j in hold, me);
    }
  }

  /** What is known of one buffer. */
  lemma At(buf: seq<Buf>, refs: seq<nat>, pins: seq<nat>, disk: Disk, slot: seq<nat>, logical: Disk, logged: seq<int>,
      at: seq<nat>,
           hold: set<nat>, me: nat, i: nat)
    requires BufsOk(buf, refs, pins, disk, slot) && Coherent(buf, disk, logical, logged)
    requires Pinned(buf, pins, logged, at)
    requires Shown(buf, logical, me) && Counted(buf, refs, hold, me) && i < |buf|
    ensures CountedAt(buf[i], refs[i], i in hold, me) && buf[i].Ok(refs[i], pins[i], disk) && |disk| == |logical|
    ensures buf[i].dev == ROOTDEV && !buf[i].valid ==> disk[buf[i].blockno] == logical[buf[i].blockno]
    ensures buf[i].dev == ROOTDEV && pins[i] == 0 ==> disk[buf[i].blockno] == logical[buf[i].blockno]
    ensures buf[i].dev == ROOTDEV && buf[i].valid && buf[i].holder != me ==> buf[i].data == logical[buf[i].blockno]
  {
    if buf[i].dev == ROOTDEV && buf[i].blockno in logged { PinnedHere(buf, refs, pins, disk, slot, logged, at, i); }
  }

  lemma KeptButOne(buf: seq<Buf>, hold: set<nat>, me: nat, i: nat, x: Buf)
    requires i < |buf| && (i in hold ==> KeptAt(buf[i], x, me))
    ensures Kept(buf, buf[i := x], hold, me)
  {
  }

  /** `me` has no reference to a buffer of block b. */
  lemma StillNot(buf: seq<Buf>, buf': seq<Buf>, hold: set<nat>, me: nat, b: nat)
    requires Kept(buf, buf', hold, me) && forall x :: x in hold ==> x < |buf| && !buf[x].Caches(b)
    ensures forall x :: x in hold ==> x < |buf'| && !buf'[x].Caches(b)
  {
    forall x | x in hold ensures !buf'[x].Caches(b) { assert KeptAt(buf[x], buf'[x], me); }
  }

  lemma HoldRange(buf: seq<Buf>, refs: seq<nat>, hold: set<nat>, me: nat)
    requires Counted(buf, refs, hold, me)
    ensures |refs| == |buf| && forall i :: i in hold ==> i < |buf|
  {
  }

  lemma KeptOne(buf: seq<Buf>, buf': seq<Buf>, hold: set<nat>, me: nat, i: nat)
    requires Kept(buf, buf', hold, me) && i in hold && i < |buf|
    ensures |buf'| == |buf| && KeptAt(buf[i], buf'[i], me)
  {
  }

  lemma KeptLess(buf: seq<Buf>, buf': seq<Buf>, hold: set<nat>, more: set<nat>, me: nat)
    requires Kept(buf, buf', more, me) && hold <= more
    ensures Kept(buf, buf', hold, me)
  {
  }

  lemma KeptElse(buf: seq<Buf>, buf': seq<Buf>, hold: set<nat>, me: nat, i: nat)
    requires i !in hold && |buf'| == |buf| && forall j :: 0 <= j < |buf| && j != i ==> buf'[j] == buf[j]
    ensures Kept(buf, buf', hold, me)
  {
  }

  /** A buffer that is not pinned anew keeps its block in place; the count is no concern. */
  lemma TouchOnly(buf: seq<Buf>, pins: seq<nat>, disk: Disk, logical: Disk, logged: seq<int>, at: seq<nat>, me: nat,
      i: nat, x: Buf)
    requires Coherent(buf, disk, logical, logged) && Pinned(buf, pins, logged, at) && Shown(buf, logical, me)
    requires i < |buf| && x == buf[i].(refcnt := x.refcnt)
    ensures Coherent(buf[i := x], disk, logical, logged) && Pinned(buf[i := x], pins, logged, at)
    ensures Shown(buf[i := x], logical, me)
  {
  }

  /** A buffer locked by `me` and its block change together. */
  lemma ShownWrite(buf: seq<Buf>, refs: seq<nat>, pins: seq<nat>, disk: Disk, slot: seq<nat>, logical: Disk, me: nat,
      i: nat, x: Buf, b: nat, data: Block)
    requires BufsOk(buf, refs, pins, disk, slot) && Shown(buf, logical, me) && i < |buf| && buf[i].Caches(b)
    requires b < |logical| == |disk| && x.holder == me
    ensures Shown(buf[i := x], logical[b := data], me)
  {
    forall j | 0 <= j < |buf| && j != i && buf[j].valid
      ensures buf[j].blockno != b
    {
      assert buf[j].Ok(refs[j], pins[j], disk);
    }
  }

  lemma CountedSame(buf: seq<Buf>, refs: seq<nat>, hold: set<nat>, me: nat, i: nat, x: Buf)
    requires Counted(buf, refs, hold, me) && i < |buf| && x.holder == buf[i].holder
    ensures Counted(buf[i := x], refs, hold, me)
  {
    forall j | 0 <= j < |buf|
      ensures CountedAt(buf[i := x][j], refs[j], j in hold, me)
    {
      assert CountedAt(buf[j], refs[j], j in hold, me);
    }
  }

  lemma ShownRefs(buf: seq<Buf>, logical: Disk, me: nat, i: nat, x: Buf)
    requires Shown(buf, logical, me) && i < |buf| && x == buf[i].(refcnt := x.refcnt)
    ensures Shown(buf[i := x], logical, me)
  {
  }

  ghost predicate Unused(refs: seq<nat>, pins: seq<nat>, i: nat) {
    i < |refs| == |pins| && refs[i] == pins[i] == 0
  }

  /** Buffers i and j have d references more, the others as many as before. */
  ghost predicate RefsBy(refs: seq<nat>, refs': seq<nat>, i: nat, j: nat, d: int) {
    |refs'| == |refs| && forall k :: 0 <= k < |refs| ==> refs'[k] == refs[k] + (if k == i then d else 0) + (if k == j then d else 0)
  }

  lemma HaveLocked(buf: seq<Buf>, logical: Disk, hold: set<nat>, me: nat, i: nat, a: nat, b: nat)
    requires hold == {} + {i} && Have(buf, logical, i, a, me) && a != b
    ensures hold == {i} && i < |buf| && buf[i].holder == me && forall x :: x in hold ==> !buf[x].Caches(b)
  {
  }

  /** No lock is held by anybody but `me`. */
  ghost predicate Unlocked(buf: seq<Buf>, me: nat) {
    forall k :: 0 <= k < |buf| ==> buf[k].holder == 0 || buf[k].holder == me
  }

  /** Two buffers taken, one after the other. */
  lemma TwoTaken(b0: seq<Buf>, b1: seq<Buf>, b2: seq<Buf>, r0: seq<nat>, r1: seq<nat>, r2: seq<nat>, me: nat, i: nat,
      j: nat)
    requires Unlocked(b0, me) && OneRef(b0, b1, r0, r1, i, 1) && OneRef(b1, b2, r1, r2, j, 1) && i != j
    requires b2[i].holder == b2[j].holder == me
    ensures Unlocked(b2, me) && RefsBy(r0, r2, i, j, 1)
  {
  }

  /** Two buffers given back, after buffer j changed. */
  lemma TwoGiven(b: seq<Buf>, b0: seq<Buf>, b1: seq<Buf>, b2: seq<Buf>, r0: seq<nat>, r1: seq<nat>, r2: seq<nat>,
      me: nat, i: nat, j: nat)
    requires Unlocked(b, me) && i != j && j < |b| == |b0| && b0 == b[j := b0[j]] && OneRef(b0, b1, r0, r1, i, -1)
    requires OneRef(b1, b2, r1, r2, j, -1)
    requires b1[i].holder == b2[j].holder == 0
    ensures Unlocked(b2, me) && RefsBy(r0, r2, i, j, -1)
  {
  }

  /** The second block takes the contents of the first. */
  lemma Stored(buf: seq<Buf>, logical: Disk, hold: set<nat>, i: nat, a: nat, j: nat, b: nat, me: nat, y: Buf)
    requires HaveTwo(buf, logical, hold, i, a, j, b, me) && a != b
    requires y == buf[j].(data := logical[a], refcnt := y.refcnt)
    ensures HaveTwo(buf[j := y], logical[b := logical[a]], hold, i, a, j, b, me)
  {
  }

  lemma GaveFirst(buf: seq<Buf>, buf': seq<Buf>, logical: Disk, hold: set<nat>, i: nat, a: nat, j: nat, b: nat, me: nat)
    requires HaveTwo(buf, logical, hold, i, a, j, b, me) && Kept(buf, buf', hold - {i}, me)
    ensures hold - {i} == {j} && Have(buf', logical, j, b, me)
  {
    assert j in hold - {i} && KeptAt(buf[j], buf'[j], me);
  }

  /** With the locks of `b0` all his, buffer i taken, `me` finds another unused one if there were two. */
  lemma StillSpare(b0: seq<Buf>, b1: seq<Buf>, r0: seq<nat>, r1: seq<nat>, pins: seq<nat>, disk: Disk, slot: seq<nat>,
      me: nat, i: nat)
    requires BufsOk(b1, r1, pins, disk, slot) && Unlocked(b0, me) && OneRef(b0, b1, r0, r1, i, 1) && b1[i].holder == me
    requires exists x: nat, y: nat :: Unused(r0, pins, x) && Unused(r0, pins, y) && x != y
    ensures exists k :: 0 <= k < |b1| && b1[k].refcnt == 0
  {
    var x: nat, y: nat :| Unused(r0, pins, x) && Unused(r0, pins, y) && x != y;
    var k := if x == i then y else x;
    assert b1[k].Ok(r1[k], pins[k], disk);
  }

  lemma OneTaken(b0: seq<Buf>, b1: seq<Buf>, r0: seq<nat>, r1: seq<nat>, me: nat, i: nat)
    requires Unlocked(b0, me) && OneRef(b0, b1, r0, r1, i, 1) && b1[i].holder == me
    ensures Unlocked(b1, me)
  {
  }

  /** An unused buffer, or two. */
  ghost predicate SpareIn(refs: seq<nat>, pins: seq<nat>, two: bool) {
    if two then exists i: nat, j: nat :: Unused(refs, pins, i) && Unused(refs, pins, j) && i != j
    else exists i: nat :: Unused(refs, pins, i)
  }

  /** An unused buffer keeps bget from its panic. */
  lemma SpareFree(buf: seq<Buf>, refs: seq<nat>, pins: seq<nat>, disk: Disk, slot: seq<nat>, two: bool)
    requires BufsOk(buf, refs, pins, disk, slot) && SpareIn(refs, pins, two)
    ensures exists k :: 0 <= k < |buf| && buf[k].refcnt == 0
  {
    var x: nat :| Unused(refs, pins, x);
    assert buf[x].Ok(refs[x], pins[x], disk);
  }

  lemma SpareFewer(refs: seq<nat>, pins: seq<nat>, pins': seq<nat>, two: bool)
    requires SpareIn(refs, pins, two) && Fewer(pins, pins')
    ensures SpareIn(refs, pins', two)
  {
    if two {
      var x: nat, y: nat :| Unused(refs, pins, x) && Unused(refs, pins, y) && x != y;
      assert Unused(refs, pins', x) && Unused(refs, pins', y);
    } else {
      var x: nat :| Unused(refs, pins, x);
      assert Unused(refs, pins', x);
    }
  }

  lemma NobodyWaits(buf: seq<Buf>, me: nat, i: nat, waits: bool)
    requires Unlocked(buf, me) && (waits ==> i < |buf| && buf[i].holder != 0 && buf[i].holder != me)
    ensures !waits
  {
  }

  lemma Swapped(buf: seq<Buf>, logical: Disk, hold: set<nat>, i: nat, a: nat, j: nat, b: nat, me: nat)
    requires HaveTwo(buf, logical, hold, i, a, j, b, me)
    ensures HaveTwo(buf, logical, hold, j, b, i, a, me)
  {
  }

  lemma RefsSwap(refs: seq<nat>, refs': seq<nat>, i: nat, j: nat)
    requires RefsBy(refs, refs', i, j, -1)
    ensures RefsBy(refs, refs', j, i, -1)
  {
  }

  lemma RefsBack(r0: seq<nat>, r1: seq<nat>, r2: seq<nat>, i: nat, j: nat)
    requires RefsBy(r0, r1, i, j, 1) && RefsBy(r1, r2, i, j, -1)
    ensures r2 == r0
  {
  }

  ghost predicate First(logged: seq<int>, b: nat) {
    logged != [] && logged[0] == b && b !in logged[1..]
  }

  /** One block written through: to the disk, and as its logical contents. */
  ghost predicate Wrote(l0: Disk, l1: Disk, d0: Disk, d1: Disk, w0: seq<Write>, w1: seq<Write>, b: nat, data: Block) {
    b < |l0| == |d0| && l1 == l0[b := data] && d1 == d0[b := data] && w1 == w0 + [Write(b, data)]
  }

  ghost predicate Fewer(pins: seq<nat>, pins': seq<nat>) {
    |pins'| == |pins| && forall k :: 0 <= k < |pins| ==> pins'[k] <= pins[k]
  }

  ghost predicate AllBusy(buf: seq<Buf>) {
    forall k :: 0 <= k < |buf| ==> buf[k].refcnt > 0
  }

  ghost predicate CachedIn(buf: seq<Buf>, b: nat) {
    exists j :: 0 <= j < |buf| && buf[j].Caches(b)
  }

  /** Every block from lo up to hi is cached. */
  ghost predicate AllCached(buf: seq<Buf>, lo: nat, hi: nat) {
    forall b :: lo <= b < hi ==> CachedIn(buf, b)
  }

  /** Every buffer is for the block it was for. */
  ghost predicate SameBlocks(b0: seq<Buf>, b1: seq<Buf>) {
    |b1| == |b0| && forall j :: 0 <= j < |b0| ==> b1[j].dev == b0[j].dev && b1[j].blockno == b0[j].blockno
  }

  lemma SameBlocksSelf(buf: seq<Buf>)
    ensures SameBlocks(buf, buf)
  {
  }

  lemma SameBlocksTrans(b0: seq<Buf>, b1: seq<Buf>, b2: seq<Buf>)
    requires SameBlocks(b0, b1) && SameBlocks(b1, b2)
    ensures SameBlocks(b0, b2)
  {
  }

  lemma SameBlocksOne(b0: seq<Buf>, b1: seq<Buf>, i: nat)
    requires i < |b0| == |b1| && b1 == b0[i := b1[i]] && b1[i].dev == b0[i].dev && b1[i].blockno == b0[i].blockno
    ensures SameBlocks(b0, b1)
  {
  }

  lemma PendingIsCached(buf: seq<Buf>, pins: seq<nat>, logged: seq<int>, at: seq<nat>, b: nat)
    requires Pinned(buf, pins, logged, at) && b in logged
    ensures CachedIn(buf, b)
  {
    PendingCached(buf, pins, logged, at, b);
  }

  lemma SameBlocksCache(b0: seq<Buf>, b1: seq<Buf>, b: nat)
    requires SameBlocks(b0, b1)
    ensures CachedIn(b0, b) <==> CachedIn(b1, b)
  {
    if CachedIn(b0, b) {
      var j :| 0 <= j < |b0| && b0[j].Caches(b);
      assert b1[j].Caches(b);
    }
    if CachedIn(b1, b) {
      var j :| 0 <= j < |b1| && b1[j].Caches(b);
      assert b0[j].Caches(b);
    }
  }

  lemma SameCached(b0: seq<Buf>, b1: seq<Buf>, lo: nat, hi: nat)
    requires SameBlocks(b0, b1)
    ensures AllCached(b0, lo, hi) <==> AllCached(b1, lo, hi)
  {
    hide CachedIn, SameBlocks;
    forall b: nat ensures CachedIn(b0, b) <==> CachedIn(b1, b) { SameBlocksCache(b0, b1, b); }
  }

  /** All buffers are in use, or one is spare. */
  lemma BusyOrSpare(buf: seq<Buf>, refs: seq<nat>, pins: seq<nat>, disk: Disk, slot: seq<nat>)
    requires BufsOk(buf, refs, pins, disk, slot)
    ensures AllBusy(buf) <==> !SpareIn(refs, pins, false)
  {
    if SpareIn(refs, pins, false) { SpareFree(buf, refs, pins, disk, slot, false); }
    if !AllBusy(buf) {
      var k :| 0 <= k < |buf| && buf[k].refcnt == 0;
      assert buf[k].Ok(refs[k], pins[k], disk);
      assert Unused(refs, pins, k);
    }
  }

  /** Left alone (`quiet`), k copies into the log so far: they change nothing in the cache if their
      blocks were cached, and with all buffers in use those were cached. `now`: still alone. */
  ghost predicate Hits(quiet: bool, now: bool, b0: seq<Buf>, b1: seq<Buf>, r0: seq<nat>, r1: seq<nat>, lo: nat,
      k: nat)
  {
    && (quiet && AllCached(b0, lo, lo + k) ==> now && r1 == r0 && SameBlocks(b0, b1))
    && (quiet && AllBusy(b0) ==> AllCached(b0, lo, lo + k))
  }

  lemma HitsNone(quiet: bool, b0: seq<Buf>, r0: seq<nat>, lo: nat)
    ensures Hits(quiet, quiet, b0, b0, r0, r0, lo, 0)
  {
  }

  lemma HitsAll(quiet: bool, now: bool, b0: seq<Buf>, b1: seq<Buf>, r0: seq<nat>, r1: seq<nat>, lo: nat, k: nat)
    requires Hits(quiet, now, b0, b1, r0, r1, lo, k)
    ensures quiet && AllCached(b0, lo, lo + k) ==> now && r1 == r0 && SameBlocks(b0, b1)
    ensures quiet && AllBusy(b0) ==> AllCached(b0, lo, lo + k)
  {
  }

  lemma AllCachedLess(buf: seq<Buf>, lo: nat, mid: nat, hi: nat)
    requires mid <= hi
    ensures AllCached(buf, lo, hi) ==> AllCached(buf, lo, mid)
  {
  }

  /** The next copy: with its block cached it is one more hit, without and no buffer unused it fails. */
  lemma HitsNext(quiet: bool, now: bool, now': bool, b0: seq<Buf>, b1: seq<Buf>, b2: seq<Buf>, r0: seq<nat>,
      r1: seq<nat>, r2: seq<nat>, lo: nat, k: nat, done: bool, none: bool)
    requires Hits(quiet, now, b0, b1, r0, r1, lo, k) && (r1 == r0 ==> (AllBusy(b0) <==> AllBusy(b1)))
    requires now && CachedIn(b1, lo + k) ==> done && now' && r2 == r1 && SameBlocks(b1, b2)
    requires now && AllBusy(b1) && !CachedIn(b1, lo + k) ==> none && !done
    ensures done ==> Hits(quiet, now', b0, b2, r0, r2, lo, k + 1)
    ensures !done && quiet ==> !AllCached(b0, lo, lo + k + 1) && (AllBusy(b0) ==> none)
  {
    hide CachedIn, SameBlocks, AllBusy;
    if quiet && AllCached(b0, lo, lo + k) {
      SameBlocksCache(b0, b1, lo + k);
      if CachedIn(b1, lo + k) { SameBlocksTrans(b0, b1, b2); }
    }
  }

  /** One buffer taken, changed and given back. */
  lemma OneBack(b0: seq<Buf>, b1: seq<Buf>, b2: seq<Buf>, b3: seq<Buf>, r0: seq<nat>, r1: seq<nat>, r2: seq<nat>,
      me: nat, i: nat)
    requires Unlocked(b0, me) && OneRef(b0, b1, r0, r1, i, 1) && |b2| == |b1| && b2 == b1[i := b2[i]]
    requires OneRef(b2, b3, r1, r2, i, -1) && b3[i].holder == 0
    ensures Unlocked(b3, me) && r2 == r0
  {
  }

  lemma RefThenLock(b0: seq<Buf>, b1: seq<Buf>, b2: seq<Buf>, r0: seq<nat>, r1: seq<nat>, i: nat)
    requires OneRef(b0, b1, r0, r1, i, 1) && |b2| == |b1| && i < |b2| && b2 == b1[i := b2[i]]
    ensures OneRef(b0, b2, r0, r1, i, 1)
  {
  }

  lemma KeptSelf(buf: seq<Buf>, hold: set<nat>, me: nat)
    ensures Kept(buf, buf, hold, me)
  {
  }

  /** `me` has block b in the buffer, locked and read. */
  ghost predicate Locked(x: Buf, b: nat, me: nat) {
    x.Caches(b) && x.valid && x.holder == me
  }

  /** And the buffer shows the block's logical contents. */
  ghost predicate Have(buf: seq<Buf>, logical: Disk, i: nat, b: nat, me: nat) {
    i < |buf| && Locked(buf[i], b, me) && b < |logical| && buf[i].data == logical[b]
  }

  /** `me` has two blocks and nothing else. */
  ghost predicate HaveTwo(buf: seq<Buf>, logical: Disk, hold: set<nat>, i: nat, a: nat, j: nat, b: nat, me: nat) {
    i != j && hold == {i, j} && Have(buf, logical, i, a, me) && Have(buf, logical, j, b, me)
  }

  lemma PairTaken(buf: seq<Buf>, buf': seq<Buf>, logical: Disk, hold: set<nat>, i: nat, a: nat, j: nat, b: nat, me: nat)
    requires Have(buf, logical, i, a, me) && Have(buf', logical, j, b, me) && Kept(buf, buf', {i}, me) && j !in {i}
    requires hold == {i} + {j}
    ensures HaveTwo(buf', logical, hold, i, a, j, b, me) && buf'[i].holder == buf'[j].holder == me
  {
    assert KeptAt(buf[i], buf'[i], me);
  }

  /** Only buffer i has changed, and has d references more. */
  ghost predicate OneRef(buf: seq<Buf>, buf': seq<Buf>, refs: seq<nat>, refs': seq<nat>, i: nat, d: int) {
    && |buf| == |buf'| == |refs| == |refs'| && i < |buf| && refs'[i] == refs[i] + d
    && (forall j :: 0 <= j < |buf| && j != i ==> buf'[j] == buf[j])
    && (forall j :: 0 <= j < |buf| && j != i ==> refs'[j] == refs[j])
  }

  /** A reference more for `me`. */
  lemma Gain(buf: seq<Buf>, refs: seq<nat>, hold: set<nat>, me: nat, i: nat, x: Buf)
    requires Counted(buf, refs, hold, me) && i < |buf| && i !in hold && x.holder == buf[i].holder
    ensures Counted(buf[i := x], refs[i := refs[i] + 1], hold + {i}, me)
  {
    forall j | 0 <= j < |buf| ensures CountedAt(buf[i := x][j], refs[i := refs[i] + 1][j], j in hold + {i}, me) {
      assert CountedAt(buf[j], refs[j], j in hold, me);
    }
  }

  /** And one less, once the lock is given up. */
  lemma Lose(buf: seq<Buf>, refs: seq<nat>, hold: set<nat>, me: nat, i: nat, x: Buf)
    requires Counted(buf, refs, hold, me) && i in hold && i < |buf| && x.holder == buf[i].holder != me
    ensures refs[i] >= 1 && Counted(buf[i := x], refs[i := refs[i] - 1], hold - {i}, me)
  {
    assert CountedAt(buf[i], refs[i], true, me);
    forall j | 0 <= j < |buf| ensures CountedAt(buf[i := x][j], refs[i := refs[i] - 1][j], j in hold - {i}, me) {
      assert CountedAt(buf[j], refs[j], j in hold, me);
    }
  }

  // ------------------------------------------------------------------- what the loops write

  /** The first k blocks of dst have been copied into the log. */
  ghost predicate Logged(l: Layout, l0: Disk, l1: Disk, dst: seq<int>, w0: seq<Write>, w1: seq<Write>, k: nat) {
    && l.Valid() && |l0| == |l1| == l.size && l.Targets(dst) && k <= |dst|
    && w1 == w0 + LogWrites(l.start, Pending(l0, dst))[..k]
    && (forall b :: 0 <= b < l.size && (b == l.start || !l.InLog(b)) ==> l1[b] == l0[b])
    && (forall m :: 0 <= m < k ==> l1[l.start + 1 + m] == l0[dst[m]])
  }

  lemma LoggedNone(l: Layout, l0: Disk, dst: seq<int>, w0: seq<Write>)
    requires l.Valid() && |l0| == l.size && l.Targets(dst)
    ensures Logged(l, l0, l0, dst, w0, w0, 0)
  {
  }

  lemma LoggedNext(l: Layout, l0: Disk, l1: Disk, l2: Disk, d1: Disk, d2: Disk, dst: seq<int>, w0: seq<Write>,
      w1: seq<Write>, w2: seq<Write>, k: nat)
    requires Logged(l, l0, l1, dst, w0, w1, k) && k < |dst|
    requires Wrote(l1, l2, d1, d2, w1, w2, l.start + 1 + k, l1[dst[k]])
    ensures Logged(l, l0, l2, dst, w0, w2, k + 1)
  {
    var ws := LogWrites(l.start, Pending(l0, dst));
    assert ws[..k + 1] == ws[..k] + [ws[k]];
  }

  /** The first k blocks of the log have been copied home. */
  ghost predicate Installed(l: Layout, l0: Disk, l1: Disk, dst: seq<int>, w0: seq<Write>, w1: seq<Write>, k: nat) {
    && l.Valid() && |l0| == |l1| == l.size && l.Targets(dst) && k <= |dst|
    && w1 == w0 + InstallWrites(dst, l0[l.start + 1..l.start + 1 + |dst|])[..k]
    && (forall b :: 0 <= b < l.size && l.InLog(b) ==> l1[b] == l0[b])
    && (Current(l, l0, dst) ==> l1 == l0)
  }

  /** The log holds what the home blocks should. */
  ghost predicate Current(l: Layout, l0: Disk, dst: seq<int>)
    requires l.Valid() && |l0| == l.size && l.Targets(dst)
  {
    forall m :: 0 <= m < |dst| ==> l0[l.start + 1 + m] == l0[dst[m]]
  }

  lemma InstalledNone(l: Layout, l0: Disk, dst: seq<int>, w0: seq<Write>)
    requires l.Valid() && |l0| == l.size && l.Targets(dst)
    ensures Installed(l, l0, l0, dst, w0, w0, 0)
  {
  }

  lemma InstalledNext(l: Layout, l0: Disk, l1: Disk, l2: Disk, d1: Disk, d2: Disk, dst: seq<int>, w0: seq<Write>,
      w1: seq<Write>, w2: seq<Write>, k: nat)
    requires Installed(l, l0, l1, dst, w0, w1, k) && k < |dst|
    requires Wrote(l1, l2, d1, d2, w1, w2, dst[k], l1[l.start + 1 + k])
    ensures Installed(l, l0, l2, dst, w0, w2, k + 1)
  {
    var ws := InstallWrites(dst, l0[l.start + 1..l.start + 1 + |dst|]);
    assert ws[..k + 1] == ws[..k] + [ws[k]];
    if Current(l, l0, dst) { assert l0[l.start + 1 + k] == l0[dst[k]]; }
  }

  /** The next target is the first of those left, and is not met again. */
  lemma NextTarget(l: Layout, dst: seq<int>, k: nat)
    requires l.Targets(dst) && k < |dst|
    ensures First(dst[k..], dst[k]) && dst[k..][1..] == dst[k + 1..]
  {
    forall m | 1 <= m < |dst[k..]| ensures dst[k..][m] != dst[k] { }
  }

  // --------------------------------------------------------------------- commit and recovery

  /** The first k writes of the commit of dst, on a system with logical contents l0. */
  ghost predicate Committing(l: Layout, l0: Disk, dst: seq<int>, w0: seq<Write>, w1: seq<Write>, k: nat) {
    && l.Valid() && l.DiskOk(l0) && l.Targets(dst) && k <= |CommitWrites(l, l0[l.start], dst, Pending(l0, dst))|
    && w1 == w0 + CommitWrites(l, l0[l.start], dst, Pending(l0, dst))[..k]
  }

  /** After the header write: homes as before, log and header those of the transaction. */
  ghost predicate HeadWritten(l: Layout, l0: Disk, l1: Disk, dst: seq<int>) {
    && l.Valid() && l.DiskOk(l0) && |l1| == l.size && l.Targets(dst) && Current(l, l1, dst)
    && l1[l.start] == PutHeader(l0[l.start], dst) && l1[l.start + 1..l.start + 1 + |dst|] == Pending(l0, dst)
    && SameHomes(l, l0, l1)
  }

  lemma SameStart(l: Layout, l0: Disk, l1: Disk, dst: seq<int>, w0: seq<Write>, w1: seq<Write>, k: nat)
    requires Logged(l, l0, l1, dst, w0, w1, k)
    ensures |l1| == |l0| == l.size && l.start < l.size && l1[l.start] == l0[l.start] && SameHomes(l, l0, l1)
  {
  }

  /** No block outside the log has changed. */
  ghost predicate SameHomes(l: Layout, l0: Disk, l1: Disk) {
    |l1| == |l0| == l.size && forall b :: 0 <= b < l.size && !l.InLog(b) ==> l1[b] == l0[b]
  }

  lemma CommittingLog(l: Layout, l0: Disk, l1: Disk, dst: seq<int>, w0: seq<Write>, w1: seq<Write>, k: nat)
    requires dst != [] && l.DiskOk(l0) && Logged(l, l0, l1, dst, w0, w1, k)
    ensures Committing(l, l0, dst, w0, w1, k)
  {
    var ws := CommitWrites(l, l0[l.start], dst, Pending(l0, dst));
    assert ws[..k] == LogWrites(l.start, Pending(l0, dst))[..k];
  }

  lemma HeadIsWritten(l: Layout, l0: Disk, l1: Disk, l2: Disk, d1: Disk, d2: Disk, dst: seq<int>, w0: seq<Write>,
      w1: seq<Write>, w2: seq<Write>)
    requires l.DiskOk(l0) && Logged(l, l0, l1, dst, w0, w1, |dst|)
    requires Wrote(l1, l2, d1, d2, w1, w2, l.start, PutHeader(l0[l.start], dst))
    ensures HeadWritten(l, l0, l2, dst) && SameHomes(l, l0, l2)
  {
  }

  lemma CommittingHead(l: Layout, l0: Disk, l1: Disk, l2: Disk, d1: Disk, d2: Disk, dst: seq<int>, w0: seq<Write>,
      w1: seq<Write>, w2: seq<Write>)
    requires dst != [] && l.DiskOk(l0) && Logged(l, l0, l1, dst, w0, w1, |dst|)
    requires Wrote(l1, l2, d1, d2, w1, w2, l.start, PutHeader(l0[l.start], dst))
    ensures Committing(l, l0, dst, w0, w2, |dst| + 1)
  {
    var ws, logs := CommitWrites(l, l0[l.start], dst, Pending(l0, dst)), LogWrites(l.start, Pending(l0, dst));
    assert logs[..|dst|] == logs;
    assert ws[..|dst| + 1] == logs + [Write(l.start, PutHeader(l0[l.start], dst))];
  }

  lemma CommittingInstall(l: Layout, l0: Disk, l2: Disk, l3: Disk, dst: seq<int>, w0: seq<Write>, w2: seq<Write>,
      w3: seq<Write>, k: nat)
    requires dst != [] && HeadWritten(l, l0, l2, dst) && Committing(l, l0, dst, w0, w2, |dst| + 1)
    requires Installed(l, l2, l3, dst, w2, w3, k)
    ensures Committing(l, l0, dst, w0, w3, |dst| + 1 + k) && l3 == l2 && SameHomes(l, l0, l3)
  {
    hide CommitWrites, InstallWrites, PutHeader, Pending;
    InstallPart(l, l0[l.start], dst, Pending(l0, dst), k);
  }

  lemma InstallPart(l: Layout, h: Block, dst: seq<int>, data: seq<Block>, k: nat)
    requires dst != [] && |dst| == |data| < |h| && k <= |dst| && forall i :: 0 <= i < |dst| ==> 0 <= dst[i]
    ensures |dst| + 1 + k <= |CommitWrites(l, h, dst, data)|
    ensures CommitWrites(l, h, dst, data)[..|dst| + 1 + k] == CommitWrites(l, h, dst, data)[..|dst| + 1]
        + InstallWrites(dst, data)[..k]
  {
  }

  lemma CommittingClear(l: Layout, l0: Disk, l3: Disk, l4: Disk, d3: Disk, d4: Disk, dst: seq<int>, w0: seq<Write>,
      w3: seq<Write>, w4: seq<Write>)
    requires dst != [] && HeadWritten(l, l0, l3, dst) && Committing(l, l0, dst, w0, w3, 2 * |dst| + 1)
    requires Wrote(l3, l4, d3, d4, w3, w4, l.start, PutHeader(l3[l.start], []))
    ensures Committing(l, l0, dst, w0, w4, 2 * |dst| + 2) && l4[l.start][0] == 0
    ensures 2 * |dst| + 2 == |CommitWrites(l, l0[l.start], dst, Pending(l0, dst))|
    ensures SameHomes(l, l0, l4)
  {
    hide CommitWrites, Pending, Current;
    ClearPart(l, l0[l.start], dst, Pending(l0, dst));
    assert PutHeader(l3[l.start], []) == PutHeader(l0[l.start], dst)[0 := 0];
  }

  lemma ClearPart(l: Layout, h: Block, dst: seq<int>, data: seq<Block>)
    requires dst != [] && |dst| == |data| < |h| && forall i :: 0 <= i < |dst| ==> 0 <= dst[i]
    ensures |CommitWrites(l, h, dst, data)| == 2 * |dst| + 2
    ensures CommitWrites(l, h, dst, data)[..2 * |dst| + 2] == CommitWrites(l, h, dst, data)[..2 * |dst| + 1]
        + [Write(l.start, PutHeader(h, dst)[0 := 0])]
  {
  }

  lemma NothingToCommit(l: Layout, l0: Disk, dst: seq<int>, w0: seq<Write>)
    requires l.Valid() && l.DiskOk(l0) && dst == []
    ensures Committing(l, l0, dst, w0, w0, 0) && SameHomes(l, l0, l0)
    ensures |CommitWrites(l, l0[l.start], dst, Pending(l0, dst))| == 0
  {
  }

  /** What a commit has written when it stops is a step of the disk's life. */
  lemma CommitIsStep(l: Layout, l0: Disk, dst: seq<int>, boot: Disk, w0: seq<Write>, w1: seq<Write>, d0: Disk,
      d1: Disk, k: nat)
    requires Committing(l, l0, dst, w0, w1, k) && Traced(boot, w0, d0) && Traced(boot, w1, d1)
    requires l.DiskOk(d0) && d0[l.start] == l0[l.start] && d0[l.start][0] == 0
    ensures Step(l, State(d0, true), CrashCommit(dst, Pending(l0, dst), k), State(d1, false))
    ensures k == |CommitWrites(l, l0[l.start], dst, Pending(l0, dst))| ==>
              Step(l, State(d0, true), Event.Commit(dst, Pending(l0, dst)), State(d1, true))
  {
    var ws := CommitWrites(l, l0[l.start], dst, Pending(l0, dst));
    ApplyConcat(boot, w0, ws[..k]);
    assert k == |ws| ==> ws[..k] == ws;
    assert l.Dst(d0) == [];
  }

  /** The first k writes of a recovery from disk d0. */
  ghost predicate Recovering(l: Layout, d0: Disk, w0: seq<Write>, w1: seq<Write>, k: nat) {
    && l.Valid() && l.DiskOk(d0) && l.HeaderOk(d0) && k <= |RecoverWrites(l, d0)|
         && w1 == w0 + RecoverWrites(l, d0)[..k]
  }

  lemma RecoveringNone(l: Layout, d0: Disk, w0: seq<Write>)
    requires l.Valid() && l.DiskOk(d0) && l.HeaderOk(d0)
    ensures Recovering(l, d0, w0, w0, 0)
  {
  }

  /** With nothing pending, the logical contents are the disk. */
  lemma NothingPending(d0: Disk, buf: seq<Buf>, l0: Disk)
    requires Coherent(buf, d0, l0, [])
    ensures l0 == d0
  {
  }

  /** The header block is never pending. */
  lemma HeaderOnDisk(d0: Disk, buf: seq<Buf>, l0: Disk, l: Layout, dst: seq<int>)
    requires l.Valid() && l.Targets(dst) && |d0| == l.size && Coherent(buf, d0, l0, dst)
    ensures |l0| == l.size && d0[l.start] == l0[l.start]
  {
  }

  lemma StartKept(l: Layout, d0: Disk, l1: Disk, w0: seq<Write>, w1: seq<Write>, k: nat)
    requires l.Valid() && l.DiskOk(d0) && l.HeaderOk(d0) && Installed(l, d0, l1, l.Dst(d0), w0, w1, k)
    ensures |l1| == l.size && l1[l.start] == d0[l.start]
  {
  }

  lemma SpareMore(refs: seq<nat>, pins: seq<nat>)
    ensures SpareIn(refs, pins, true) ==> SpareIn(refs, pins, false)
  {
  }

  lemma RecoveringInstall(l: Layout, d0: Disk, l1: Disk, w0: seq<Write>, w1: seq<Write>, k: nat)
    requires l.Valid() && l.DiskOk(d0) && l.HeaderOk(d0) && Installed(l, d0, l1, l.Dst(d0), w0, w1, k)
    ensures Recovering(l, d0, w0, w1, k)
  {
    assert RecoverWrites(l, d0)[..k] == InstallWrites(l.Dst(d0), d0[l.start + 1..l.start + 1 + |l.Dst(d0)|])[..k];
  }

  lemma RecoveringClear(l: Layout, d0: Disk, l1: Disk, l2: Disk, d1: Disk, d2: Disk, w0: seq<Write>, w1: seq<Write>,
      w2: seq<Write>)
    requires l.Valid() && l.DiskOk(d0) && l.HeaderOk(d0) && Installed(l, d0, l1, l.Dst(d0), w0, w1, |l.Dst(d0)|)
    requires Wrote(l1, l2, d1, d2, w1, w2, l.start, PutHeader(d0[l.start], []))
    ensures Recovering(l, d0, w0, w2, |RecoverWrites(l, d0)|) && l2[l.start][0] == 0
  {
    var ws, dst := RecoverWrites(l, d0), l.Dst(d0);
    RecoveringInstall(l, d0, l1, w0, w1, |dst|);
    assert ws[..|ws|] == ws[..|dst|] + [Write(l.start, d0[l.start][0 := 0])];
    assert PutHeader(d0[l.start], []) == d0[l.start][0 := 0];
  }

  lemma RecoverIsStep(l: Layout, boot: Disk, w0: seq<Write>, w1: seq<Write>, d0: Disk, d1: Disk, k: nat)
    requires Recovering(l, d0, w0, w1, k) && Traced(boot, w0, d0) && Traced(boot, w1, d1)
    ensures Step(l, State(d0, false), CrashRecover(k), State(d1, false))
    ensures k == |RecoverWrites(l, d0)| ==> Step(l, State(d0, false), Recover, State(d1, true))
  {
    var ws := RecoverWrites(l, d0);
    ApplyConcat(boot, w0, ws[..k]);
    assert k == |ws| ==> ws[..k] == ws;
  }

  // ------------------------------------------------------------------ when bget finds no buffer

  ghost function PinnedSet(pins: seq<nat>): set<nat> {
    set i | 0 <= i < |pins| && pins[i] > 0
  }

  /** Buffers that processes have references to and that are not pinned. */
  ghost function HeldSet(refs: seq<nat>, pins: seq<nat>): set<nat> {
    set i | 0 <= i < |refs| && i < |pins| && refs[i] > 0 && pins[i] == 0
  }

  /** Pending blocks are in buffers of their own. */
  lemma AtDistinct(buf: seq<Buf>, pins: seq<nat>, logged: seq<int>, at: seq<nat>)
    requires Pinned(buf, pins, logged, at) && forall i, j :: 0 <= i < j < |logged| ==> logged[i] != logged[j]
    ensures |PinnedSet(pins)| == |logged|
  {
    forall i, j | 0 <= i < j < |at| ensures at[i] != at[j] { assert logged[i] != logged[j]; }
    ElemsCard(at);
    assert PinnedSet(pins) == Elems(at);
  }

  /** bget panics on a block that is not cached exactly when the pending blocks and the other
      buffers in use are all there are. */
  lemma NoBuffersIff(lg: Log)
    requires lg.Inv() && forall i, j :: 0 <= i < j < |lg.logged| ==> lg.logged[i] != lg.logged[j]
    ensures |lg.logged| + |HeldSet(lg.cache.refs, lg.cache.pins)| <= lg.cache.nbuf
    ensures AllBusy(lg.cache.buf) <==> |lg.logged| + |HeldSet(lg.cache.refs, lg.cache.pins)| == lg.cache.nbuf
  {
    hide Traced, Linked, Recency, Coherent;
    var c := lg.cache;
    var p, h := PinnedSet(c.pins), HeldSet(c.refs, c.pins);
    AtDistinct(c.buf, c.pins, lg.logged, lg.at);
    BelowCard(p + h, c.nbuf);
    assert |p + h| == |p| + |h| by { assert p !! h; }
    forall i: nat | i < c.nbuf
      ensures i in p + h <==> c.buf[i].refcnt > 0
    {
      assert c.buf[i].Ok(c.refs[i], c.pins[i], c.disk);
    }
  }

  /** NBUF is LOGSIZE (kernel/param.h), and a log of LOGSIZE blocks holds one fewer beside its
      header: with that log full, one more buffer in use by anybody leaves none for a commit. */
  lemma FullLogTakesAll(lg: Log, i: nat)
    requires lg.Synced() && lg.n + 1 == lg.cache.nbuf && i in HeldSet(lg.cache.refs, lg.cache.pins)
    ensures AllBusy(lg.cache.buf)
  {
    hide AllBusy;
    NoBuffersIff(lg);
  }
}
