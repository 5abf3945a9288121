/**
 commit (kernel/log.c) by process `me`, with the other processes using the buffer cache
 meanwhile. Operations have all ended, so the others only read: they take buffers, lock
 them, fill them and give them back, between any two steps of the commit.
 */
module Commit {
  import opened CrashLog
  import opened BufferCache
  import opened LogModule = Log
  import opened Sharing

  /** A step of another process in bread or brelse. */
  datatype Op = Get(b: nat) | Lock(i: nat, pid: nat) | Fill(i: nat, pid: nat) | Unlock(i: nat, pid: nat) | Unref(i: nat)

  /** Done, or: waiting for a buffer another process has locked; stopped by the panic of bget. */
  datatype Outcome = Done | Waiting | NoBuffers

  /** Why a commit does not go on: another process holds the lock of a buffer it has a reference
      to, or every buffer is in use. */
  ghost predicate Why(st: Outcome, buf: seq<Buf>, hold: set<nat>, me: nat) {
    && (st == NoBuffers ==> AllBusy(buf))
    && (st == Waiting ==> exists i :: i in hold && i < |buf| && buf[i].holder != 0 && buf[i].holder != me)
  }

  /** bget of block b: one more reference to a buffer that is then for b, or, with every buffer in
      use and none for b, nothing. */
  ghost predicate GotOne(buf: seq<Buf>, refs: seq<nat>, buf': seq<Buf>, refs': seq<nat>, b: nat) {
    if AllBusy(buf) && !CachedIn(buf, b) then buf' == buf && refs' == refs
    else |refs| == |buf| == |buf'| && exists i :: 0 <= i < |buf| && GotAt(buf, refs, buf', refs', b, i)
  }

  ghost predicate GotAt(buf: seq<Buf>, refs: seq<nat>, buf': seq<Buf>, refs': seq<nat>, b: nat, i: nat)
    requires i < |refs| == |buf| == |buf'|
  {
    buf'[i].Caches(b) && refs' == refs[i := refs[i] + 1] && buf' == buf[i := buf'[i]]
  }

  function Filled(x: Buf, disk: Disk): Buf {
    x.(valid := true, data := if x.valid || x.blockno >= |disk| then x.data else disk[x.blockno])
  }

  /** The step `op` was taken, if it could be. */
  ghost predicate Acted(op: Op, size: nat, buf: seq<Buf>, refs: seq<nat>, buf': seq<Buf>, refs': seq<nat>, disk: Disk,
      hold: set<nat>, me: nat)
  {
    && |refs| == |buf|
    && match op
       case Get(b) => if b < size then GotOne(buf, refs, buf', refs', b) else buf' == buf && refs' == refs
       case Lock(i, pid) =>
         && refs' == refs
         && buf' == (if i < |buf| && buf[i].dev == ROOTDEV && buf[i].holder == 0 && pid != 0 && pid != me
                         && refs[i] > (if i in hold then 1 else 0)
                     then buf[i := buf[i].(holder := pid)] else buf)
       case Fill(i, pid) =>
         && refs' == refs
         && buf' == (if Theirs(buf, i, pid, me) then buf[i := Filled(buf[i], disk)] else buf)
       case Unlock(i, pid) =>
         && refs' == refs
         && buf' == (if Theirs(buf, i, pid, me) then buf[i := buf[i].(holder := 0)] else buf)
       case Unref(i) =>
         refs' == (if i < |buf| && buf[i].dev == ROOTDEV && refs[i] > (if i in hold then 1 else 0)
                       + (if buf[i].holder != 0 && buf[i].holder != me then 1 else 0)
                   then refs[i := refs[i] - 1] else refs)
  }

  /** The steps `ops` were taken one after the other. */
  ghost predicate ActedAll(ops: seq<Op>, size: nat, buf: seq<Buf>, refs: seq<nat>, buf': seq<Buf>, refs': seq<nat>,
      disk: Disk, hold: set<nat>, me: nat)
    decreases |ops|
  {
    if ops == [] then buf' == buf && refs' == refs
    else
      var n := |ops| - 1;
      exists b1, r1 ::
        && ActedAll(ops[..n], size, buf, refs, b1, r1, disk, hold, me)
        && Acted(ops[n], size, b1, r1, buf', refs', disk, hold, me)
  }

  lemma ActedNext(ops: seq<Op>, k: nat, size: nat, buf: seq<Buf>, refs: seq<nat>, b1: seq<Buf>, r1: seq<nat>,
      buf': seq<Buf>, refs': seq<nat>, disk: Disk, hold: set<nat>, me: nat)
    requires k < |ops| && ActedAll(ops[..k], size, buf, refs, b1, r1, disk, hold, me)
    requires Acted(ops[k], size, b1, r1, buf', refs', disk, hold, me)
    ensures ActedAll(ops[..k + 1], size, buf, refs, buf', refs', disk, hold, me)
  {
    hide Acted;
    assert ops[..k + 1][..k] == ops[..k];
  }

  /** The batches after the first n. */
  function Later(others: seq<seq<Op>>, n: nat): seq<seq<Op>> {
    if |others| <= n then [] else others[n..]
  }

  predicate Theirs(buf: seq<Buf>, i: nat, pid: nat, me: nat) {
    i < |buf| && buf[i].dev == ROOTDEV && buf[i].holder == pid && pid != 0 && pid != me
  }

  class Committer {
    const lg: Log
    const me: nat
    var hold: set<nat>
    /** What the other processes do, batch by batch, at the points where they can. */
    var others: seq<seq<Op>>

    ghost predicate Live()
      reads this, lg, lg.cache
    {
      && lg.Inv() && me != 0
      && Shown(lg.cache.buf, lg.logical, me) && Counted(lg.cache.buf, lg.cache.refs, hold, me)
    }

    ghost predicate NoOthers()
      reads this`others
    {
      forall i :: 0 <= i < |others| ==> others[i] == []
    }

    /** bget has no buffer for block b: none caches it and every one is in use. */
    ghost predicate NoneFor(b: nat)
      reads lg.cache
    {
      AllBusy(lg.cache.buf) && !CachedIn(lg.cache.buf, b)
    }

    /** The log blocks a commit uses are cached, from the m-th on; the 0-th is the header. */
    ghost predicate LogCached(m: nat)
      reads lg, lg.cache
    {
      AllCached(lg.cache.buf, lg.l.start + m, lg.l.start + 1 + lg.n)
    }

    /** No operation is in progress and `me` holds no buffer. */
    constructor (lg: Log, me: nat, others: seq<seq<Op>>)
      requires lg.Inv() && me != 0 && Shown(lg.cache.buf, lg.logical, me)
      requires forall i :: 0 <= i < lg.cache.nbuf ==> lg.cache.buf[i].holder != me
      ensures Live() && this.lg == lg && this.me == me && this.others == others && hold == {}
    {
      this.lg, this.me, this.others, hold := lg, me, others, {};
      new;
      hide Traced, Linked, Recency, Coherent, Pinned, Shown;
    }

    /** The other processes' bget; a panic there leaves nothing to prove. */
    method OtherGet(b: nat)
      requires Live() && b < lg.l.size
      modifies lg.cache`buf, lg.cache`refs, lg.cache`slot
      ensures Live() && Kept(old(lg.cache.buf), lg.cache.buf, hold, me)
      ensures GotOne(old(lg.cache.buf), old(lg.cache.refs), lg.cache.buf, lg.cache.refs, b)
    {
      hide Traced, Linked, Recency, Coherent, Pinned, Shown, Counted;
      var c := lg.cache;
      ghost var buf, refs := c.buf, c.refs;
      var ok, i := c.Bget(ROOTDEV, b);
      if ok {
        At(buf, refs, c.pins, c.disk, old(c.slot), lg.logical, lg.logged, lg.at, hold, me, i);
        assert c.buf == buf[i := c.buf[i]];
        Touch(buf, refs, c.pins, c.disk, lg.logical, lg.logged, lg.at, hold, me, i, c.buf[i], c.refs[i]);
        KeptButOne(buf, hold, me, i, c.buf[i]);
        assert GotAt(buf, refs, c.buf, c.refs, b, i);
      }
    }

    method OtherLock(i: nat, pid: nat)
      requires Live() && i < lg.cache.nbuf && lg.cache.buf[i].holder == 0 && pid != 0 && pid != me
      requires lg.cache.buf[i].dev == ROOTDEV && lg.cache.refs[i] > if i in hold then 1 else 0
      modifies lg.cache`buf
      ensures Live() && Kept(old(lg.cache.buf), lg.cache.buf, hold, me)
      ensures lg.cache.buf == old(lg.cache.buf)[i := old(lg.cache.buf)[i].(holder := pid)]
    {
      hide Traced, Linked, Recency, Coherent, Pinned, Shown, Counted;
      var c := lg.cache;
      ghost var buf := c.buf;
      At(buf, c.refs, c.pins, c.disk, c.slot, lg.logical, lg.logged, lg.at, hold, me, i);
      c.Lock(i, pid);
      Touch(buf, c.refs, c.pins, c.disk, lg.logical, lg.logged, lg.at, hold, me, i, c.buf[i], c.refs[i]);
      assert c.refs[i := c.refs[i]] == c.refs;
      KeptButOne(buf, hold, me, i, c.buf[i]);
    }

    method OtherFill(i: nat, pid: nat)
      requires Live() && i < lg.cache.nbuf && lg.cache.buf[i].holder == pid && pid != 0 && pid != me
      requires lg.cache.buf[i].dev == ROOTDEV
      modifies lg.cache`buf
      ensures Live() && Kept(old(lg.cache.buf), lg.cache.buf, hold, me)
      ensures lg.cache.buf == old(lg.cache.buf)[i := Filled(old(lg.cache.buf)[i], lg.cache.disk)]
    {
      hide Traced, Linked, Recency, Coherent, Pinned, Shown, Counted;
      var c := lg.cache;
      ghost var buf := c.buf;
      At(buf, c.refs, c.pins, c.disk, c.slot, lg.logical, lg.logged, lg.at, hold, me, i);
      c.Fill(i, pid);
      Touch(buf, c.refs, c.pins, c.disk, lg.logical, lg.logged, lg.at, hold, me, i, c.buf[i], c.refs[i]);
      assert c.refs[i := c.refs[i]] == c.refs;
      KeptButOne(buf, hold, me, i, c.buf[i]);
    }

    method OtherUnlock(i: nat, pid: nat)
      requires Live() && i < lg.cache.nbuf && lg.cache.buf[i].holder == pid && pid != 0 && pid != me
      requires lg.cache.buf[i].dev == ROOTDEV
      modifies lg.cache`buf
      ensures Live() && Kept(old(lg.cache.buf), lg.cache.buf, hold, me)
      ensures lg.cache.buf == old(lg.cache.buf)[i := old(lg.cache.buf)[i].(holder := 0)]
    {
      hide Traced, Linked, Recency, Coherent, Pinned, Shown, Counted;
      var c := lg.cache;
      ghost var buf := c.buf;
      At(buf, c.refs, c.pins, c.disk, c.slot, lg.logical, lg.logged, lg.at, hold, me, i);
      var ok := c.Unlock(i, pid);
      Touch(buf, c.refs, c.pins, c.disk, lg.logical, lg.logged, lg.at, hold, me, i, c.buf[i], c.refs[i]);
      assert c.refs[i := c.refs[i]] == c.refs;
      KeptButOne(buf, hold, me, i, c.buf[i]);
    }

    method OtherUnref(i: nat)
      requires Live() && i < lg.cache.nbuf && lg.cache.buf[i].dev == ROOTDEV
      requires lg.cache.refs[i] > (if i in hold then 1 else 0)
          + (if lg.cache.buf[i].holder != 0 && lg.cache.buf[i].holder != me then 1 else 0)
      modifies lg.cache`buf, lg.cache`refs, lg.cache`next, lg.cache`prev, lg.cache`ring, lg.cache`pos, lg.cache`stamp,
        lg.cache`now
      ensures Live() && Kept(old(lg.cache.buf), lg.cache.buf, hold, me)
      ensures lg.cache.refs == old(lg.cache.refs)[i := old(lg.cache.refs)[i] - 1]
    {
      hide Traced, Linked, Recency, Coherent, Pinned, Shown, Counted;
      var c := lg.cache;
      ghost var buf, refs := c.buf, c.refs;
      At(buf, c.refs, c.pins, c.disk, c.slot, lg.logical, lg.logged, lg.at, hold, me, i);
      c.Unref(i);
      Touch(buf, refs, c.pins, c.disk, lg.logical, lg.logged, lg.at, hold, me, i, c.buf[i], c.refs[i]);
      KeptButOne(buf, hold, me, i, c.buf[i]);
    }

    /** Another process has a reference to buffer i, beside that of the lock's holder if `unlocked`. */
    predicate TheirRef(i: nat, unlocked: bool)
      requires i < |lg.cache.buf| == |lg.cache.refs|
      reads this, lg.cache
    {
      lg.cache.refs[i] > (if i in hold then 1 else 0)
          + (if unlocked && lg.cache.buf[i].holder != 0 && lg.cache.buf[i].holder != me then 1 else 0)
    }

    predicate TheirLock(i: nat, pid: nat)
      requires i < |lg.cache.buf|
      reads this, lg.cache
    {
      lg.cache.buf[i].holder == pid && pid != 0 && pid != me
    }

    /** A step of another process, if it can be taken. */
    method OtherStep(op: Op)
      requires Live()
      modifies lg.cache`buf, lg.cache`refs, lg.cache`slot, lg.cache`next, lg.cache`prev, lg.cache`ring, lg.cache`pos,
        lg.cache`stamp, lg.cache`now
      ensures Live() && Kept(old(lg.cache.buf), lg.cache.buf, hold, me)
      ensures Acted(op, lg.l.size, old(lg.cache.buf), old(lg.cache.refs), lg.cache.buf, lg.cache.refs, lg.cache.disk, hold, me)
    {
      hide Traced, Linked, Recency, Coherent, Pinned, Shown, Counted, Kept, GotOne, Filled;
      var c := lg.cache;
      KeptSelf(c.buf, hold, me);
      match op {
        case Get(b) =>
          if b < lg.l.size { OtherGet(b); }
        case Lock(i, pid) =>
          if i < c.nbuf && c.buf[i].dev == ROOTDEV && c.buf[i].holder == 0 && pid != 0 && pid != me
              && TheirRef(i, false) {
            OtherLock(i, pid);
          }
        case Fill(i, pid) =>
          if i < c.nbuf && c.buf[i].dev == ROOTDEV && TheirLock(i, pid) { OtherFill(i, pid); }
        case Unlock(i, pid) =>
          if i < c.nbuf && c.buf[i].dev == ROOTDEV && TheirLock(i, pid) { OtherUnlock(i, pid); }
        case Unref(i) =>
          if i < c.nbuf && c.buf[i].dev == ROOTDEV && TheirRef(i, true) { OtherUnref(i); }
      }
    }

    /** The other processes' next batch of steps. */
    method Others()
      requires Live()
      modifies this`others
      modifies lg.cache`buf, lg.cache`refs, lg.cache`slot, lg.cache`next, lg.cache`prev, lg.cache`ring, lg.cache`pos,
        lg.cache`stamp, lg.cache`now
      ensures Live() && Kept(old(lg.cache.buf), lg.cache.buf, hold, me)
      ensures old(NoOthers()) ==> NoOthers() && lg.cache.buf == old(lg.cache.buf) && lg.cache.refs == old(lg.cache.refs)
      ensures others == Later(old(others), 1)
      ensures ActedAll(if old(others) == [] then [] else old(others)[0], lg.l.size, old(lg.cache.buf),
          old(lg.cache.refs), lg.cache.buf, lg.cache.refs, lg.cache.disk, hold, me)
    {
      hide Traced, Linked, Recency, Coherent, Pinned, Shown, Counted, BufsOk, Kept, Acted;
      KeptSelf(lg.cache.buf, hold, me);
      if others != [] {
        var batch := others[0];
        others := others[1..];
        assert old(NoOthers()) ==> batch == [] && forall k :: 0 <= k < |others| ==> others[k] == old(others)[k + 1];
        for k := 0 to |batch|
          invariant Live() && Kept(old(lg.cache.buf), lg.cache.buf, hold, me) && others == old(others)[1..]
          invariant k == 0 ==> lg.cache.buf == old(lg.cache.buf) && lg.cache.refs == old(lg.cache.refs)
          invariant ActedAll(batch[..k], lg.l.size, old(lg.cache.buf), old(lg.cache.refs), lg.cache.buf,
              lg.cache.refs, lg.cache.disk, hold, me)
        {
          ghost var buf, refs := lg.cache.buf, lg.cache.refs;
          OtherStep(batch[k]);
          KeptTrans(old(lg.cache.buf), buf, lg.cache.buf, hold, me);
          ActedNext(batch, k, lg.l.size, old(lg.cache.buf), old(lg.cache.refs), buf, refs, lg.cache.buf, lg.cache.refs,
              lg.cache.disk, hold, me);
        }
        assert batch[..|batch|] == batch;
      }
    }

    /** Something is pending, every buffer is in use, and a log block or the header is not cached. */
    ghost predicate RunsOut()
      reads lg, lg.cache
    {
      lg.n > 0 && AllBusy(lg.cache.buf) && !LogCached(0)
    }

    // ------------------------------------------------------------------- the committer's steps

    /** bread of a block `me` does not have, the others at work before and after its bget. */
    method Take(b: nat) returns (st: Outcome, i: nat)
      requires Live() && b < lg.l.size && forall x :: x in hold ==> !lg.cache.buf[x].Caches(b)
      modifies this
      modifies lg.cache`buf, lg.cache`refs, lg.cache`slot, lg.cache`next, lg.cache`prev, lg.cache`ring, lg.cache`pos,
        lg.cache`stamp, lg.cache`now
      ensures Live() && Kept(old(lg.cache.buf), lg.cache.buf, old(hold), me)
      ensures st == Done ==> i !in old(hold) && hold == old(hold) + {i} && Have(lg.cache.buf, lg.logical, i, b, me)
      ensures Why(st, lg.cache.buf, hold, me)
      ensures (st == NoBuffers ==> forall j :: 0 <= j < lg.cache.nbuf ==> !lg.cache.buf[j].Caches(b))
      ensures old(NoOthers()) ==> NoOthers()
      ensures old(NoOthers()) && st == Done ==> OneRef(old(lg.cache.buf), lg.cache.buf, old(lg.cache.refs),
          lg.cache.refs, i, 1)
      ensures old(NoOthers()) && st == Waiting ==> i < |old(lg.cache.buf)| && old(lg.cache.buf)[i].holder != 0
      ensures old(NoOthers()) && st == Waiting ==> old(lg.cache.buf)[i].holder != me
      ensures old(NoOthers()) && st == NoBuffers ==> lg.cache.buf == old(lg.cache.buf)
      ensures old(NoOthers()) ==> (st == NoBuffers <==> old(NoneFor(b)))
      ensures old(NoOthers() && CachedIn(lg.cache.buf, b)) ==> SameBlocks(old(lg.cache.buf), lg.cache.buf)
      ensures others == Later(old(others), if st == NoBuffers then 1 else 2)
    {
      hide Traced, Linked, Recency, Coherent, Pinned, Shown, Counted, Kept, OneRef, BufsOk, SameBlocks;
      Others();
      ghost var buf, refs := lg.cache.buf, lg.cache.refs;
      HoldRange(buf, lg.cache.refs, hold, me);
      StillNot(old(lg.cache.buf), buf, hold, me, b);
      var ok;
      ok, i := Reference(b);
      KeptTrans(old(lg.cache.buf), buf, lg.cache.buf, old(hold), me);
      if !ok {
        return NoBuffers, 0;
      }
      ghost var buf1, refs1 := lg.cache.buf, lg.cache.refs;
      assert hold - {i} == old(hold);
      st := Wait(i, b);
      if old(NoOthers()) {
        RefThenLock(buf, buf1, lg.cache.buf, refs, refs1, i);
        SameBlocksOne(buf1, lg.cache.buf, i);
        if CachedIn(buf, b) { SameBlocksTrans(buf, buf1, lg.cache.buf); }
      }
      KeptTrans(old(lg.cache.buf), buf1, lg.cache.buf, old(hold), me);
    }

    /** The rest of bread: wait for the lock, then read. */
    method Wait(i: nat, b: nat) returns (st: Outcome)
      requires Live() && i in hold && i < |lg.cache.buf| && lg.cache.buf[i].holder != me && lg.cache.buf[i].Caches(b)
      requires b < lg.l.size
      modifies this`others
      modifies lg.cache`buf, lg.cache`refs, lg.cache`slot, lg.cache`next, lg.cache`prev, lg.cache`ring, lg.cache`pos,
        lg.cache`stamp, lg.cache`now
      ensures Live() && Kept(old(lg.cache.buf), lg.cache.buf, hold - {i}, me) && i < |lg.cache.buf| && st != NoBuffers
      ensures st == Waiting ==> lg.cache.buf[i].holder != 0 && lg.cache.buf[i].holder != me
      ensures st == Done ==> Locked(lg.cache.buf[i], b, me) && lg.cache.buf[i].data == lg.logical[b]
      ensures old(NoOthers()) ==> NoOthers() && lg.cache.refs == old(lg.cache.refs)
      ensures old(NoOthers()) ==> (st == Done <==> old(lg.cache.buf)[i].holder == 0)
      ensures old(NoOthers()) ==> |lg.cache.buf| == |old(lg.cache.buf)|
      ensures old(NoOthers()) ==> lg.cache.buf == old(lg.cache.buf)[i := lg.cache.buf[i]]
      ensures lg.cache.buf[i].Caches(b) && others == Later(old(others), 1)
    {
      hide Traced, Linked, Recency, Coherent, Pinned, Shown, Counted, Kept;
      Others();
      ghost var buf := lg.cache.buf;
      KeptOne(old(lg.cache.buf), buf, hold, me, i);
      KeptLess(old(lg.cache.buf), buf, hold - {i}, hold, me);
      if lg.cache.buf[i].holder != 0 {
        return Waiting;
      }
      Acquire(i, b);
      KeptElse(buf, lg.cache.buf, hold - {i}, me, i);
      KeptTrans(old(lg.cache.buf), buf, lg.cache.buf, hold - {i}, me);
      st := Done;
    }

    /** acquiresleep, and the read unless the buffer is valid. */
    method Acquire(i: nat, b: nat)
      requires Live() && i in hold && i < |lg.cache.buf| && lg.cache.buf[i].holder == 0 && lg.cache.buf[i].Caches(b)
      requires b < lg.l.size
      modifies lg.cache`buf
      ensures Live() && |lg.cache.buf| == |old(lg.cache.buf)| && Locked(lg.cache.buf[i], b, me)
      ensures lg.cache.buf[i].data == lg.logical[b]
      ensures lg.cache.buf == old(lg.cache.buf)[i := lg.cache.buf[i]]
    {
      hide Traced, Linked, Recency, Coherent, Pinned, Shown, Counted;
      var c := lg.cache;
      ghost var buf := c.buf;
      At(buf, c.refs, c.pins, c.disk, c.slot, lg.logical, lg.logged, lg.at, hold, me, i);
      c.Lock(i, me);
      c.Fill(i, me);
      Touch(buf, c.refs, c.pins, c.disk, lg.logical, lg.logged, lg.at, hold, me, i, c.buf[i], c.refs[i]);
      assert c.refs[i := c.refs[i]] == c.refs && buf[i := c.buf[i]] == c.buf;
    }

    /** bget */
    method Reference(b: nat) returns (ok: bool, i: nat)
      requires Live() && b < lg.l.size && forall x :: x in hold ==> !lg.cache.buf[x].Caches(b)
      modifies this`hold, lg.cache`buf, lg.cache`refs, lg.cache`slot
      ensures Live() && Kept(old(lg.cache.buf), lg.cache.buf, old(hold), me)
      ensures ok ==> i !in old(hold) && hold == old(hold) + {i} && i < |lg.cache.buf| && lg.cache.buf[i].Caches(b)
      ensures ok ==> lg.cache.buf[i].holder != me
      ensures ok ==> OneRef(old(lg.cache.buf), lg.cache.buf, old(lg.cache.refs), lg.cache.refs, i, 1)
      ensures ok ==> i < |old(lg.cache.buf)| && lg.cache.buf[i].holder == old(lg.cache.buf)[i].holder
      ensures !ok <==> forall j :: 0 <= j < lg.cache.nbuf ==> !old(lg.cache.buf)[j].Caches(b) && old(lg.cache.buf)[j].refcnt > 0
      ensures !ok ==> lg.cache.buf == old(lg.cache.buf) && hold == old(hold)
      ensures old(CachedIn(lg.cache.buf, b)) ==> SameBlocks(old(lg.cache.buf), lg.cache.buf)
    {
      hide Traced, Linked, Recency, Coherent, Pinned, Shown, Counted;
      var c := lg.cache;
      ghost var buf, refs := c.buf, c.refs;
      KeptSelf(c.buf, hold, me);
      ok, i := c.Bget(ROOTDEV, b);
      if ok {
        At(buf, refs, c.pins, c.disk, old(c.slot), lg.logical, lg.logged, lg.at, hold, me, i);
        assert c.buf == buf[i := c.buf[i]];
        Touch(buf, refs, c.pins, c.disk, lg.logical, lg.logged, lg.at, hold, me, i, c.buf[i], c.refs[i]);
        KeptButOne(buf, hold, me, i, c.buf[i]);
        Gain(buf, refs, hold, me, i, c.buf[i]);
        hold := hold + {i};
      }
    }

    /** brelse of a buffer that shows its block's logical contents. */
    method Give(i: nat)
      requires Live() && i in hold && i < |lg.cache.buf| && lg.cache.buf[i].holder == me && lg.cache.buf[i].valid
      requires lg.cache.buf[i].dev == ROOTDEV
      requires lg.cache.buf[i].blockno < |lg.logical| && lg.cache.buf[i].data == lg.logical[lg.cache.buf[i].blockno]
      modifies this
      modifies lg.cache`buf, lg.cache`refs, lg.cache`slot, lg.cache`next, lg.cache`prev, lg.cache`ring, lg.cache`pos,
        lg.cache`stamp, lg.cache`now
      ensures Live() && hold == old(hold) - {i} && Kept(old(lg.cache.buf), lg.cache.buf, hold, me)
      ensures old(NoOthers()) ==> NoOthers()
      ensures old(NoOthers()) ==> OneRef(old(lg.cache.buf), lg.cache.buf, old(lg.cache.refs), lg.cache.refs, i, -1)
      ensures old(NoOthers()) ==> lg.cache.buf[i].holder == 0 && SameBlocks(old(lg.cache.buf), lg.cache.buf)
      ensures others == Later(old(others), 1)
    {
      hide Traced, Linked, Recency, Coherent, Pinned, Shown, Counted, Kept;
      Release(i);
      ghost var buf, h := lg.cache.buf, hold - {i};
      KeptElse(old(lg.cache.buf), buf, h, me, i);
      Others();
      KeptOne(buf, lg.cache.buf, hold, me, i);
      KeptLess(buf, lg.cache.buf, h, hold, me);
      KeptTrans(old(lg.cache.buf), buf, lg.cache.buf, h, me);
      buf := lg.cache.buf;
      Drop(i);
      KeptElse(buf, lg.cache.buf, h, me, i);
      KeptTrans(old(lg.cache.buf), buf, lg.cache.buf, h, me);
    }

    /** releasesleep */
    method Release(i: nat)
      requires Live() && i in hold && i < |lg.cache.buf| && lg.cache.buf[i].holder == me && lg.cache.buf[i].valid
      requires lg.cache.buf[i].dev == ROOTDEV
      requires lg.cache.buf[i].blockno < |lg.logical| && lg.cache.buf[i].data == lg.logical[lg.cache.buf[i].blockno]
      modifies lg.cache`buf
      ensures Live() && lg.cache.buf == old(lg.cache.buf)[i := old(lg.cache.buf)[i].(holder := 0)]
    {
      hide Traced, Linked, Recency, Coherent, Pinned, Shown, Counted;
      var c := lg.cache;
      ghost var buf := c.buf;
      At(buf, c.refs, c.pins, c.disk, c.slot, lg.logical, lg.logged, lg.at, hold, me, i);
      var ok := c.Unlock(i, me);
      Touch(buf, c.refs, c.pins, c.disk, lg.logical, lg.logged, lg.at, hold, me, i, c.buf[i], c.refs[i]);
      assert c.refs[i := c.refs[i]] == c.refs;
    }

    /** The reference goes. */
    method Drop(i: nat)
      requires Live() && i in hold && i < |lg.cache.buf| && lg.cache.buf[i].holder != me
      requires lg.cache.buf[i].dev == ROOTDEV
      modifies this`hold
      modifies lg.cache`buf, lg.cache`refs, lg.cache`next, lg.cache`prev, lg.cache`ring, lg.cache`pos, lg.cache`stamp,
        lg.cache`now
      ensures Live() && hold == old(hold) - {i}
      ensures OneRef(old(lg.cache.buf), lg.cache.buf, old(lg.cache.refs), lg.cache.refs, i, -1)
      ensures lg.cache.buf == old(lg.cache.buf)[i := old(lg.cache.buf)[i].(refcnt := lg.cache.buf[i].refcnt)]
    {
      hide Traced, Linked, Recency, Coherent, Pinned, Shown, Counted;
      var c := lg.cache;
      ghost var buf, refs := c.buf, c.refs;
      At(buf, refs, c.pins, c.disk, c.slot, lg.logical, lg.logged, lg.at, hold, me, i);
      c.Unref(i);
      Lose(buf, refs, hold, me, i, c.buf[i]);
      hold := hold - {i};
      TouchOnly(buf, c.pins, c.disk, lg.logical, lg.logged, lg.at, me, i, c.buf[i]);
    }

    /** A store into a locked buffer and bwrite. */
    method Store(i: nat, b: nat, data: Block)
      requires Live() && i in hold && i < |lg.cache.buf| && Locked(lg.cache.buf[i], b, me) && b < lg.l.size
      requires |data| == lg.l.words
      modifies lg`logical, lg.cache`buf, lg.cache`disk, lg.cache`writes
      ensures Live() && lg.cache.buf == old(lg.cache.buf)[i := old(lg.cache.buf)[i].(data := data)]
      ensures lg.logical == old(lg.logical)[b := data] && lg.cache.disk == old(lg.cache.disk)[b := data]
      ensures lg.cache.writes == old(lg.cache.writes) + [Write(b, data)]
    {
      hide Traced, Linked, Recency, Coherent, Pinned, Shown, Counted;
      var c := lg.cache;
      ghost var x := c.buf[i].(data := data);
      ShownWrite(c.buf, c.refs, c.pins, c.disk, c.slot, lg.logical, me, i, x, b, data);
      CountedSame(c.buf, c.refs, hold, me, i, x);
      lg.WriteThrough(i, me, data);
    }

    /** bunpin of the buffer of the first pending block. */
    method Unpin(i: nat)
      requires Live() && i in hold && i < |lg.cache.buf| && lg.logged != [] && lg.logged[0] >= 0
      requires Locked(lg.cache.buf[i], lg.logged[0], me)
      requires lg.logged[0] < |lg.logical| && lg.cache.disk[lg.logged[0]] == lg.logical[lg.logged[0]]
      requires lg.logged[0] !in lg.logged[1..]
      modifies lg`logged, lg`at, lg.cache`buf, lg.cache`pins
      ensures Live() && lg.logged == old(lg.logged)[1..]
      ensures lg.cache.buf == old(lg.cache.buf)[i := old(lg.cache.buf)[i].(refcnt := lg.cache.buf[i].refcnt)]
      ensures |lg.cache.pins| == |old(lg.cache.pins)|
      ensures forall k :: 0 <= k < |lg.cache.pins| ==> lg.cache.pins[k] <= old(lg.cache.pins)[k]
    {
      hide Traced, Linked, Recency, Coherent, Pinned, Shown, Counted;
      ghost var buf := lg.cache.buf;
      lg.Unpin(i, me);
      CountedSame(buf, lg.cache.refs, hold, me, i, lg.cache.buf[i]);
      ShownRefs(buf, lg.logical, me, i, lg.cache.buf[i]);
    }

    // ----------------------------------------------------------------------- copies

    /** The others are idle and hold no lock. */
    ghost predicate Alone()
      reads this, lg, lg.cache
    {
      NoOthers() && Unlocked(lg.cache.buf, me)
    }

    /** Enough unused buffers for a copy between two blocks, `two` if both may miss. */
    ghost predicate Spare(two: bool)
      reads lg, lg.cache
    {
      SpareIn(lg.cache.refs, lg.cache.pins, two)
    }

    /** Two breads in a row, as both copy loops do: a log block, then a home block. */
    method TakeTwo(a: nat, b: nat) returns (st: Outcome, i: nat, j: nat)
      requires Live() && hold == {} && a < lg.l.size && b < lg.l.size && a != b
      modifies this
      modifies lg.cache`buf, lg.cache`refs, lg.cache`slot, lg.cache`next, lg.cache`prev, lg.cache`ring, lg.cache`pos,
        lg.cache`stamp, lg.cache`now
      ensures Live() && Why(st, lg.cache.buf, hold, me)
      ensures st == Done ==> HaveTwo(lg.cache.buf, lg.logical, hold, i, a, j, b, me)
      ensures old(Alone() && Spare(b !in lg.logged)) ==> st == Done
      ensures old(Alone()) && st == Done ==> Alone() && RefsBy(old(lg.cache.refs), lg.cache.refs, i, j, 1)
      ensures old(NoOthers() && NoneFor(a)) ==> st == NoBuffers
      ensures old(Alone() && CachedIn(lg.cache.buf, a) && CachedIn(lg.cache.buf, b)) ==> st == Done
      ensures old(Alone() && CachedIn(lg.cache.buf, a) && CachedIn(lg.cache.buf, b)) ==>
                SameBlocks(old(lg.cache.buf), lg.cache.buf)
    {
      hide Traced, Linked, Recency, Coherent, Pinned, Shown, Counted, Kept, Have, HaveTwo, OneRef, RefsBy, BufsOk,
        Unlocked, SameBlocks;
      var c := lg.cache;
      ghost var miss, buf0, refs0 := b !in lg.logged, c.buf, c.refs;
      if Spare(miss) { SpareFree(buf0, refs0, c.pins, c.disk, c.slot, miss); }
      j := 0;
      st, i := Take(a);
      if st != Done {
        if old(Alone()) { NobodyWaits(buf0, me, i, st == Waiting); }
        return;
      }
      HaveLocked(c.buf, lg.logical, hold, me, i, a, b);
      ghost var buf, refs := c.buf, c.refs;
      if !miss { PendingCached(buf, c.pins, lg.logged, lg.at, b); }
      if old(Alone()) {
        OneTaken(buf0, buf, refs0, refs, me, i);
        if miss && old(Spare(true)) { StillSpare(buf0, buf, refs0, refs, c.pins, c.disk, c.slot, me, i); }
        if CachedIn(buf0, a) { SameBlocksCache(buf0, buf, b); }
      }
      st, j := Take(b);
      if old(Alone()) && CachedIn(buf0, a) && CachedIn(buf0, b) { SameBlocksTrans(buf0, buf, c.buf); }
      if st == Done {
        PairTaken(buf, c.buf, lg.logical, hold, i, a, j, b, me);
        if old(Alone()) { TwoTaken(buf0, buf, c.buf, refs0, refs, c.refs, me, i, j); }
      } else if old(Alone()) {
        NobodyWaits(buf, me, j, st == Waiting);
      }
    }

    /** The copy itself: memmove, bwrite, bunpin if asked for, and two brelses. */
    method PutBack(i: nat, a: nat, j: nat, b: nat, unpin: bool)
      requires Live() && HaveTwo(lg.cache.buf, lg.logical, hold, i, a, j, b, me) && a != b && a < lg.l.size
      requires b < lg.l.size
      requires unpin ==> First(lg.logged, b)
      modifies this, lg`logical, lg`logged, lg`at, lg.cache
      ensures Live() && hold == {} && lg.logged == if unpin then old(lg.logged)[1..] else old(lg.logged)
      ensures Wrote(old(lg.logical), lg.logical, old(lg.cache.disk), lg.cache.disk, old(lg.cache.writes),
          lg.cache.writes, b, old(lg.logical)[a])
      ensures Fewer(old(lg.cache.pins), lg.cache.pins) && (!unpin ==> lg.cache.pins == old(lg.cache.pins))
      ensures old(Alone()) ==> Alone() && RefsBy(old(lg.cache.refs), lg.cache.refs, i, j, -1)
      ensures old(Alone()) ==> SameBlocks(old(lg.cache.buf), lg.cache.buf)
    {
      hide Traced, Linked, Recency, Coherent, Pinned, Shown, Counted, Kept, OneRef, RefsBy, BufsOk, Unlocked,
        SameBlocks;
      var c := lg.cache;
      Store(j, b, c.buf[i].data);
      if unpin { Unpin(j); }
      Stored(old(c.buf), old(lg.logical), hold, i, a, j, b, me, c.buf[j]);
      ghost var buf, h, refs := c.buf, hold, c.refs;
      assert buf == old(c.buf)[j := buf[j]];
      Give(i);
      GaveFirst(buf, c.buf, lg.logical, h, i, a, j, b, me);
      ghost var buf1, refs1 := c.buf, c.refs;
      Give(j);
      if old(Alone()) {
        TwoGiven(old(c.buf), buf, buf1, c.buf, refs, refs1, c.refs, me, i, j);
        SameBlocksOne(old(c.buf), buf, j);
        SameBlocksTrans(old(c.buf), buf, buf1);
        SameBlocksTrans(old(c.buf), buf1, c.buf);
      }
    }

    /** One turn of a copy loop between log block a and home block b, home if `back`. */
    method Copy(a: nat, b: nat, back: bool, unpin: bool) returns (st: Outcome)
      requires Live() && hold == {} && a != b && a < lg.l.size && b < lg.l.size
      requires (unpin ==> back && First(lg.logged, b))
      modifies this, lg`logical, lg`logged, lg`at, lg.cache
      ensures Live() && (st == Done ==> hold == {}) && Why(st, lg.cache.buf, hold, me)
      ensures lg.logged == if unpin && st == Done then old(lg.logged)[1..] else old(lg.logged)
      ensures st == Done ==> Wrote(old(lg.logical), lg.logical, old(lg.cache.disk), lg.cache.disk,
          old(lg.cache.writes), lg.cache.writes,
                                   if back then b else a, old(lg.logical)[if back then a else b])
      ensures st != Done ==> lg.logical == old(lg.logical) && lg.cache.disk == old(lg.cache.disk)
      ensures st != Done ==> lg.cache.writes == old(lg.cache.writes)
      ensures Fewer(old(lg.cache.pins), lg.cache.pins) && (!unpin ==> lg.cache.pins == old(lg.cache.pins))
      ensures old(Alone() && Spare(b !in lg.logged)) ==> st == Done && Alone() && lg.cache.refs == old(lg.cache.refs)
      ensures old(NoOthers() && NoneFor(a)) ==> st == NoBuffers
      ensures old(Alone() && CachedIn(lg.cache.buf, a) && CachedIn(lg.cache.buf, b)) ==> st == Done && Alone()
      ensures old(Alone() && CachedIn(lg.cache.buf, a) && CachedIn(lg.cache.buf, b)) ==>
                lg.cache.refs == old(lg.cache.refs) && SameBlocks(old(lg.cache.buf), lg.cache.buf)
    {
      hide Traced, Linked, Recency, Coherent, Pinned, Shown, Counted, Kept, OneRef, RefsBy, BufsOk, Unlocked, HaveTwo,
        Wrote, SameBlocks;
      var i, j;
      ghost var refs, buf := lg.cache.refs, lg.cache.buf;
      st, i, j := TakeTwo(a, b);
      if st != Done { return; }
      ghost var refs1, buf1 := lg.cache.refs, lg.cache.buf;
      if back {
        PutBack(i, a, j, b, unpin);
        if old(Alone()) { RefsBack(refs, refs1, lg.cache.refs, i, j); }
      } else {
        Swapped(lg.cache.buf, lg.logical, hold, i, a, j, b, me);
        PutBack(j, b, i, a, unpin);
        if old(Alone()) { RefsSwap(refs1, lg.cache.refs, j, i); RefsBack(refs, refs1, lg.cache.refs, i, j); }
      }
      if old(Alone()) && CachedIn(buf, a) && CachedIn(buf, b) { SameBlocksTrans(buf, buf1, lg.cache.buf); }
    }

    // ------------------------------------------------------------------------- the loops

    /** write_head: the in-memory header over the header block, written. */
    method WriteHead() returns (st: Outcome)
      requires Live() && hold == {}
      modifies this, lg`logical, lg.cache
      ensures Live() && (st == Done ==> hold == {}) && Why(st, lg.cache.buf, hold, me)
      ensures lg.cache.pins == old(lg.cache.pins)
      ensures st == Done ==> Wrote(old(lg.logical), lg.logical, old(lg.cache.disk), lg.cache.disk,
          old(lg.cache.writes), lg.cache.writes,
                                   lg.l.start, PutHeader(old(lg.logical)[lg.l.start], lg.block[..lg.n]))
      ensures st != Done ==> lg.logical == old(lg.logical) && lg.cache.disk == old(lg.cache.disk)
      ensures st != Done ==> lg.cache.writes == old(lg.cache.writes)
      ensures old(Alone() && Spare(false)) ==> st == Done && Alone() && lg.cache.refs == old(lg.cache.refs)
      ensures old(Alone() && CachedIn(lg.cache.buf, lg.l.start)) ==> st == Done && Alone()
      ensures old(Alone() && CachedIn(lg.cache.buf, lg.l.start)) ==> SameBlocks(old(lg.cache.buf), lg.cache.buf)
      ensures old(NoOthers() && NoneFor(lg.l.start)) ==> st == NoBuffers
    {
      hide Traced, Linked, Recency, Coherent, Pinned, Shown, Counted, Kept, OneRef, BufsOk, Unlocked, SameBlocks;
      var c := lg.cache;
      ghost var buf, refs := c.buf, c.refs;
      if Spare(false) { SpareFree(buf, refs, c.pins, c.disk, c.slot, false); }
      var i;
      st, i := Take(lg.l.start);
      if st != Done {
        if old(Alone()) { NobodyWaits(buf, me, i, st == Waiting); }
        return;
      }
      ghost var buf1, refs1 := c.buf, c.refs;
      var hb := lg.FillHeader(c.buf[i].data);
      Store(i, lg.l.start, hb);
      ghost var buf2 := c.buf;
      Give(i);
      if old(Alone()) {
        OneBack(buf, buf1, buf2, c.buf, refs, refs1, c.refs, me, i);
        SameBlocksOne(buf1, buf2, i);
        if CachedIn(buf, lg.l.start) {
          SameBlocksTrans(buf, buf1, buf2);
          SameBlocksTrans(buf, buf2, c.buf);
        }
      }
    }

    /** One turn of write_log. */
    method LogOne(k: nat, ghost l0: Disk, ghost w0: seq<Write>, ghost quiet: bool, ghost b0: seq<Buf>,
        ghost r0: seq<nat>) returns (st: Outcome)
      requires Live() && hold == {} && lg.Synced() && k < lg.n
      requires Logged(lg.l, l0, lg.logical, lg.block[..lg.n], w0, lg.cache.writes, k)
      requires Hits(quiet, Alone(), b0, lg.cache.buf, r0, lg.cache.refs, lg.l.start + 1, k)
      requires AllBusy(b0) <==> !SpareIn(r0, lg.cache.pins, false)
      modifies this, lg`logical, lg`logged, lg`at, lg.cache
      ensures Live() && lg.Synced() && (st == Done ==> hold == {}) && Why(st, lg.cache.buf, hold, me)
      ensures lg.cache.pins == old(lg.cache.pins)
      ensures Logged(lg.l, l0, lg.logical, lg.block[..lg.n], w0, lg.cache.writes, if st == Done then k + 1 else k)
      ensures st == Done ==> Hits(quiet, Alone(), b0, lg.cache.buf, r0, lg.cache.refs, lg.l.start + 1, k + 1)
      ensures st != Done && quiet ==> !AllCached(b0, lg.l.start + 1, lg.l.start + 1 + lg.n)
      ensures st != Done && quiet && AllBusy(b0) ==> st == NoBuffers
      ensures old(Alone() && Spare(false)) ==> st == Done && Alone() && lg.cache.refs == old(lg.cache.refs)
      ensures old(NoOthers() && NoneFor(lg.l.start + 1 + k)) ==> st == NoBuffers
    {
      hide Traced, Linked, Recency, Coherent, Pinned, Shown, Counted, BufsOk, Unlocked, Logged, Wrote, SameBlocks,
        CachedIn, AllBusy, SpareIn, AllCached, Hits;
      var c, a := lg.cache, lg.l.start + 1 + k;
      ghost var l1, d1, w1, b1, r1, now := lg.logical, c.disk, c.writes, c.buf, c.refs, Alone();
      assert lg.logged[k] == lg.block[k];
      BusyOrSpare(b1, r1, c.pins, d1, c.slot);
      PendingIsCached(b1, c.pins, lg.logged, lg.at, lg.block[k]);
      st := Copy(a, lg.block[k], false, false);
      HitsNext(quiet, now, Alone(), b0, b1, c.buf, r0, r1, c.refs, a - k, k, st == Done, st == NoBuffers);
      if st == Done {
        LoggedNext(lg.l, l0, l1, lg.logical, d1, c.disk, lg.block[..lg.n], w0, w1, c.writes, k);
      } else {
        AllCachedLess(b0, a - k, a + 1, a - k + lg.n);
      }
    }

    /** write_log: every pending block from its buffer into the log; k blocks when it stops. */
    method WriteLog() returns (st: Outcome, k: nat)
      requires Live() && hold == {} && lg.Synced()
      modifies this, lg`logical, lg`logged, lg`at, lg.cache
      ensures Live() && lg.Synced() && (st == Done ==> hold == {} && k == lg.n) && Why(st, lg.cache.buf, hold, me)
      ensures Logged(lg.l, old(lg.logical), lg.logical, lg.block[..lg.n], old(lg.cache.writes), lg.cache.writes, k)
      ensures old(Alone() && Spare(false)) ==> st == Done && Alone() && Spare(false)
      ensures old(Alone() && Spare(false)) ==> lg.cache.refs == old(lg.cache.refs)
      ensures old(lg.n > 0 && NoOthers() && NoneFor(lg.l.start + 1)) ==> st == NoBuffers && k == 0
      ensures old(Alone() && LogCached(1)) ==> st == Done && Alone() && SameBlocks(old(lg.cache.buf), lg.cache.buf)
      ensures old(Alone() && LogCached(1)) ==> AllBusy(lg.cache.buf) == old(AllBusy(lg.cache.buf))
      ensures old(Alone() && AllBusy(lg.cache.buf) && !LogCached(1)) ==> st == NoBuffers
    {
      hide Traced, Linked, Recency, Coherent, Pinned, Shown, Counted, BufsOk, Unlocked, Logged, Wrote, SameBlocks,
        CachedIn, AllBusy, SpareIn, AllCached, Hits;
      var c := lg.cache;
      ghost var lo := lg.l.start + 1;
      LoggedNone(lg.l, lg.logical, lg.block[..lg.n], c.writes);
      ghost var b0, quiet := c.buf, Alone();
      BusyOrSpare(b0, c.refs, c.pins, c.disk, c.slot);
      HitsNone(quiet, b0, c.refs, lo);
      st, k := Done, 0;
      while k < lg.n
        invariant Live() && lg.Synced() && hold == {} && k <= lg.n && st == Done && c.pins == old(c.pins)
        invariant Logged(lg.l, old(lg.logical), lg.logical, lg.block[..lg.n], old(c.writes), c.writes, k)
        invariant old(Alone() && Spare(false)) ==> Alone() && c.refs == old(c.refs)
        invariant k == 0 ==> c.buf == b0 && others == old(others)
        invariant k > 0 ==> !old(NoOthers() && NoneFor(lo))
        invariant Hits(quiet, Alone(), b0, c.buf, old(c.refs), c.refs, lo, k)
        decreases lg.n - k
      {
        st := LogOne(k, old(lg.logical), old(c.writes), quiet, b0, old(c.refs));
        if st != Done { return; }
        k := k + 1;
      }
      BusyOrSpare(c.buf, c.refs, c.pins, c.disk, c.slot);
      HitsAll(quiet, Alone(), b0, c.buf, old(c.refs), c.refs, lo, k);
    }

    /** One turn of install_trans. `b0`: the buffers when it started, if every log block was cached. */
    method InstallOne(k: nat, recovering: bool, ghost l0: Disk, ghost w0: seq<Write>, ghost hits: bool,
        ghost b0: seq<Buf>) returns (st: Outcome)
      requires Live() && hold == {} && k < lg.n
      requires lg.logged == if recovering then [] else lg.block[..lg.n][k..]
      requires Installed(lg.l, l0, lg.logical, lg.block[..lg.n], w0, lg.cache.writes, k)
      requires hits ==> !recovering && Alone() && SameBlocks(b0, lg.cache.buf) && CachedIn(b0, lg.l.start + 1 + k)
      modifies this, lg`logical, lg`logged, lg`at, lg.cache
      ensures Live() && (st == Done ==> hold == {}) && Why(st, lg.cache.buf, hold, me)
      ensures lg.logged == if recovering then [] else lg.block[..lg.n][if st == Done then k + 1 else k..]
      ensures Installed(lg.l, l0, lg.logical, lg.block[..lg.n], w0, lg.cache.writes, if st == Done then k + 1 else k)
      ensures old(Alone() && Spare(recovering)) ==> st == Done && Alone() && Spare(recovering)
      ensures old(Alone() && Spare(recovering)) ==> lg.cache.refs == old(lg.cache.refs)
      ensures hits ==> st == Done && Alone() && SameBlocks(b0, lg.cache.buf)
    {
      hide Traced, Linked, Recency, Coherent, Pinned, Shown, Counted, BufsOk, Unlocked, Installed, Wrote, SpareIn,
        Fewer, First, SameBlocks, CachedIn;
      var c, a := lg.cache, lg.l.start + 1 + k;
      ghost var l1, d1, w1, dst, pins, b1 := lg.logical, c.disk, c.writes, lg.block[..lg.n], c.pins, c.buf;
      NextTarget(lg.l, dst, k);
      if hits {
        PendingIsCached(b1, pins, lg.logged, lg.at, lg.logged[0]);
        SameBlocksCache(b0, b1, a);
      }
      st := Copy(a, lg.block[k], true, !recovering);
      if st != Done { return; }
      if hits { SameBlocksTrans(b0, b1, c.buf); }
      if old(Alone() && Spare(recovering)) { SpareFewer(c.refs, pins, c.pins, recovering); }
      InstalledNext(lg.l, l0, l1, lg.logical, d1, c.disk, dst, w0, w1, c.writes, k);
    }

    /** install_trans: the log blocks to their homes, unpinned unless `recovering`. */
    method InstallTrans(recovering: bool) returns (st: Outcome, k: nat)
      requires Live() && hold == {} && (if recovering then lg.logged == [] else lg.Synced())
      modifies this, lg`logical, lg`logged, lg`at, lg.cache
      ensures Live() && k <= lg.n && lg.logged == (if recovering then [] else lg.block[..lg.n][k..])
      ensures (st == Done ==> hold == {} && k == lg.n) && Why(st, lg.cache.buf, hold, me)
      ensures Installed(lg.l, old(lg.logical), lg.logical, lg.block[..lg.n], old(lg.cache.writes), lg.cache.writes, k)
      ensures old(Alone() && Spare(recovering)) ==> st == Done && Alone() && Spare(recovering)
      ensures old(Alone() && Spare(recovering)) ==> lg.cache.refs == old(lg.cache.refs)
      ensures !recovering && old(Alone() && LogCached(1)) ==>
                st == Done && Alone() && SameBlocks(old(lg.cache.buf), lg.cache.buf)
    {
      hide Traced, Linked, Recency, Coherent, Pinned, Shown, Counted, BufsOk, Unlocked, Installed, Wrote, SpareIn,
        SameBlocks, CachedIn;
      InstalledNone(lg.l, lg.logical, lg.block[..lg.n], lg.cache.writes);
      ghost var b0, hits := lg.cache.buf, !recovering && Alone() && LogCached(1);
      SameBlocksSelf(b0);
      st, k := Done, 0;
      while k < lg.n
        invariant Live() && hold == {} && st == Done && k <= lg.n
        invariant lg.logged == (if recovering then [] else lg.block[..lg.n][k..])
        invariant Installed(lg.l, old(lg.logical), lg.logical, lg.block[..lg.n], old(lg.cache.writes), lg.cache.writes,
            k)
        invariant old(Alone() && Spare(recovering)) ==> Alone() && lg.cache.refs == old(lg.cache.refs)
        invariant old(Alone() && Spare(recovering)) ==> Spare(recovering)
        invariant hits ==> Alone() && SameBlocks(b0, lg.cache.buf)
        decreases lg.n - k
      {
        st := InstallOne(k, recovering, old(lg.logical), old(lg.cache.writes), hits, b0);
        if st != Done { return; }
        k := k + 1;
      }
    }

    /** log.lh.n = 0, and write_head. */
    method ClearLog() returns (st: Outcome)
      requires Live() && hold == {} && lg.logged == []
      modifies this, lg`n, lg`logical, lg.cache
      ensures Live() && lg.n == 0 && lg.Synced() && (st == Done ==> hold == {}) && Why(st, lg.cache.buf, hold, me)
      ensures st == Done ==> Wrote(old(lg.logical), lg.logical, old(lg.cache.disk), lg.cache.disk,
          old(lg.cache.writes), lg.cache.writes,
                                   lg.l.start, PutHeader(old(lg.logical)[lg.l.start], []))
      ensures st != Done ==> lg.logical == old(lg.logical) && lg.cache.writes == old(lg.cache.writes)
      ensures old(Alone() && Spare(false)) ==> st == Done && Alone()
      ensures old(Alone() && CachedIn(lg.cache.buf, lg.l.start)) ==> st == Done && Alone()
    {
      hide Traced, Linked, Recency, Coherent, Pinned, Shown, Counted, BufsOk, Unlocked, Wrote, CachedIn;
      lg.n := 0;
      assert lg.block[..0] == [];
      st := WriteHead();
    }

    /** The second half of a commit, once the header names its blocks. */
    method Finish(ghost l0: Disk, ghost w0: seq<Write>, ghost dst: seq<int>) returns (st: Outcome, ghost k: nat)
      requires Live() && hold == {} && lg.Synced() && dst == lg.block[..lg.n] && dst != []
      requires HeadWritten(lg.l, l0, lg.logical, dst) && Committing(lg.l, l0, dst, w0, lg.cache.writes, |dst| + 1)
      modifies this, lg`n, lg`logical, lg`logged, lg`at, lg.cache
      ensures Live() && Why(st, lg.cache.buf, hold, me) && Committing(lg.l, l0, dst, w0, lg.cache.writes, k)
      ensures st == Done ==> lg.Steady() && lg.n == 0 && hold == {}
      ensures st == Done ==> k == |CommitWrites(lg.l, l0[lg.l.start], dst, Pending(l0, dst))|
      ensures SameHomes(lg.l, l0, lg.logical)
      ensures old(Alone() && Spare(false)) ==> st == Done && Alone()
      ensures old(Alone() && LogCached(0)) ==> st == Done && Alone()
    {
      hide Traced, Linked, Recency, Coherent, Pinned, Shown, Counted, BufsOk, Unlocked, Wrote, Committing, HeadWritten,
        Installed, SpareIn, SameHomes, SameBlocks, CachedIn;
      ghost var l2, w2, b2 := lg.logical, lg.cache.writes, lg.cache.buf;
      var m;
      st, m := InstallTrans(false);
      CommittingInstall(lg.l, l0, l2, lg.logical, dst, w0, w2, lg.cache.writes, m);
      k := |dst| + 1 + m;
      if st != Done { return; }
      assert lg.block[..lg.n][lg.n..] == [];
      ghost var d3, w3 := lg.cache.disk, lg.cache.writes;
      if old(Alone() && LogCached(0)) { SameBlocksCache(b2, lg.cache.buf, lg.l.start); }
      st := ClearLog();
      if st != Done { return; }
      CommittingClear(lg.l, l0, l2, lg.logical, d3, lg.cache.disk, dst, w0, w3, lg.cache.writes);
      k := k + 1;
    }

    /** The writes of a commit, in order: it stops after k of them, all of them if Done. */
    method WriteAll() returns (st: Outcome, ghost k: nat)
      requires Live() && hold == {} && lg.Steady()
      modifies this, lg`n, lg`logical, lg`logged, lg`at, lg.cache
      ensures Live() && Why(st, lg.cache.buf, hold, me)
      ensures Committing(lg.l, old(lg.logical), old(lg.block[..lg.n]), old(lg.cache.writes), lg.cache.writes, k)
      ensures st == Done ==> lg.Steady() && lg.n == 0 && hold == {}
      ensures st == Done ==> k == |CommitWrites(lg.l, old(lg.logical)[lg.l.start], old(lg.block[..lg.n]),
          Pending(old(lg.logical), old(lg.block[..lg.n])))|
      ensures SameHomes(lg.l, old(lg.logical), lg.logical)
      ensures old(Alone() && Spare(false)) ==> st == Done && Alone()
      ensures old(lg.n > 0 && NoOthers() && NoneFor(lg.l.start + 1)) ==> st == NoBuffers && k == 0
      ensures old(Alone()) ==> st == if old(RunsOut()) then NoBuffers else Done
    {
      hide Traced, Linked, Recency, Coherent, Pinned, Shown, Counted, BufsOk, Unlocked, Wrote, Committing, HeadWritten,
        Logged, SpareIn, SameHomes, SameBlocks, CachedIn, AllBusy;
      ghost var l0, w0, dst, b0 := lg.logical, lg.cache.writes, lg.block[..lg.n], lg.cache.buf;
      BusyOrSpare(b0, lg.cache.refs, lg.cache.pins, lg.cache.disk, lg.cache.slot);
      if lg.n == 0 {
        NothingToCommit(lg.l, l0, dst, w0);
        return Done, 0;
      }
      st, k := WriteLog();
      CommittingLog(lg.l, l0, lg.logical, dst, w0, lg.cache.writes, k);
      SameStart(lg.l, l0, lg.logical, dst, w0, lg.cache.writes, k);
      if st != Done { return; }
      ghost var l1, d1, w1, b1 := lg.logical, lg.cache.disk, lg.cache.writes, lg.cache.buf;
      ghost var hits := old(Alone() && LogCached(1));
      if hits { SameBlocksCache(b0, b1, lg.l.start); }
      st := WriteHead();
      if st != Done { return; }
      if hits && CachedIn(b1, lg.l.start) {
        SameBlocksTrans(b0, b1, lg.cache.buf);
        SameCached(b0, lg.cache.buf, lg.l.start, lg.l.start + 1 + lg.n);
      }
      HeadIsWritten(lg.l, l0, l1, lg.logical, d1, lg.cache.disk, dst, w0, w1, lg.cache.writes);
      CommittingHead(lg.l, l0, l1, lg.logical, d1, lg.cache.disk, dst, w0, w1, lg.cache.writes);
      st, k := Finish(l0, w0, dst);
    }

    /** commit, once every operation has ended: whatever the others read meanwhile, it stops
        only while another process has a buffer it needs or when bget finds none unused, and
        what it has written by then is a prefix of the whole. */
    method Commit() returns (st: Outcome, ghost k: nat)
      requires Live() && hold == {} && lg.Steady()
      modifies this, lg`n, lg`logical, lg`logged, lg`at, lg.cache
      ensures Live() && Why(st, lg.cache.buf, hold, me) && SameHomes(lg.l, old(lg.logical), lg.logical)
      ensures Step(lg.l, State(old(lg.cache.disk), true),
          CrashCommit(old(lg.block[..lg.n]), Pending(old(lg.logical), old(lg.block[..lg.n])), k), State(lg.cache.disk, false))
      ensures st == Done ==> lg.Steady() && lg.n == 0 && hold == {}
      ensures st == Done ==> Step(lg.l, State(old(lg.cache.disk), true),
          Event.Commit(old(lg.block[..lg.n]), Pending(old(lg.logical), old(lg.block[..lg.n]))), State(lg.cache.disk, true))
      ensures old(Alone() && Spare(false)) ==> st == Done && Alone()
      ensures old(lg.n > 0 && NoOthers() && NoneFor(lg.l.start + 1)) ==> st == NoBuffers && k == 0
      ensures old(Alone()) ==> st == if old(RunsOut()) then NoBuffers else Done
    {
      hide Traced, Linked, Recency, Coherent, Pinned, Shown, Counted, BufsOk, Unlocked, Committing, SameHomes, SpareIn,
        Step, CommitWrites;
      ghost var l0, w0, dst, d0 := lg.logical, lg.cache.writes, lg.block[..lg.n], lg.cache.disk;
      HeaderOnDisk(d0, lg.cache.buf, l0, lg.l, dst);
      st, k := WriteAll();
      CommitIsStep(lg.l, l0, dst, lg.cache.boot, w0, lg.cache.writes, d0, lg.cache.disk, k);
    }

    /** read_head: load the on-disk header into memory. */
    method ReadHead() returns (st: Outcome)
      requires Live() && hold == {} && lg.logged == [] && lg.l.HeaderOk(lg.logical)
      modifies this, lg`n, lg`block
      modifies lg.cache`buf, lg.cache`refs, lg.cache`slot, lg.cache`next, lg.cache`prev, lg.cache`ring, lg.cache`pos,
        lg.cache`stamp, lg.cache`now
      ensures Live() && Why(st, lg.cache.buf, hold, me)
      ensures (st == Done ==> hold == {} && lg.block[..lg.n] == lg.l.Dst(lg.logical))
      ensures old(Alone() && Spare(true)) ==> st == Done && Alone() && Spare(true)
    {
      hide Traced, Linked, Recency, Coherent, Pinned, Shown, Counted, Kept, OneRef, BufsOk, Unlocked, SpareIn;
      var c := lg.cache;
      ghost var buf, refs := c.buf, c.refs;
      if Spare(true) { SpareFree(buf, refs, c.pins, c.disk, c.slot, true); }
      var i;
      st, i := Take(lg.l.start);
      if st != Done {
        if old(Alone()) { NobodyWaits(buf, me, i, st == Waiting); }
        return;
      }
      ghost var buf1, refs1 := c.buf, c.refs;
      LoadHeader(c.buf[i].data);
      Give(i);
      if old(Alone()) { OneBack(buf, buf1, buf1, c.buf, refs, refs1, c.refs, me, i); }
    }

    /** The assignments of read_head. */
    method LoadHeader(h: Block)
      requires Live() && lg.logged == [] && lg.l.HeaderOk(lg.logical) && h == lg.logical[lg.l.start]
      modifies lg`n, lg`block
      ensures Live() && lg.block[..lg.n] == lg.l.Dst(lg.logical)
    {
      hide Traced, Linked, Recency, Coherent, Pinned, Shown, Counted, BufsOk;
      var m, bl := h[0], lg.block;
      for k := 0 to m
        invariant |bl| == lg.logsize && forall j :: 0 <= j < k ==> bl[j] == h[1 + j]
      {
        bl := bl[k := h[1 + k]];
      }
      assert bl[..m] == lg.l.Dst(lg.logical);
      lg.n, lg.block := m, bl;
    }

    /** recover_from_log on a freshly booted cache: replay whatever the header names, then
        empty it. Two unused buffers are enough for it never to panic. */
    method RecoverFromLog() returns (st: Outcome, ghost k: nat)
      requires Live() && hold == {} && lg.logged == [] && lg.n == 0 && lg.l.HeaderOk(lg.cache.disk)
      modifies this, lg`n, lg`block, lg`logical, lg`logged, lg`at, lg.cache
      ensures Live() && Why(st, lg.cache.buf, hold, me)
      ensures Step(lg.l, State(old(lg.cache.disk), false), CrashRecover(k), State(lg.cache.disk, false))
      ensures st == Done ==> lg.Steady() && lg.n == 0 && hold == {}
      ensures st == Done ==> Step(lg.l, State(old(lg.cache.disk), false), Recover, State(lg.cache.disk, true))
      ensures old(Alone() && Spare(true)) ==> st == Done && Alone()
    {
      hide Traced, Linked, Recency, Coherent, Pinned, Shown, Counted, BufsOk, Unlocked, Recovering, Installed, SpareIn,
        Step, Wrote, RecoverWrites;
      ghost var d0, w0 := lg.cache.disk, lg.cache.writes;
      NothingPending(d0, lg.cache.buf, lg.logical);
      RecoveringNone(lg.l, d0, w0);
      RecoverIsStep(lg.l, lg.cache.boot, w0, w0, d0, d0, 0);
      k := 0;
      st := ReadHead();
      if st != Done { return; }
      st, k := InstallTrans(true);
      RecoveringInstall(lg.l, d0, lg.logical, w0, lg.cache.writes, k);
      RecoverIsStep(lg.l, lg.cache.boot, w0, lg.cache.writes, d0, lg.cache.disk, k);
      if st != Done { return; }
      ghost var l1, d1, w1 := lg.logical, lg.cache.disk, lg.cache.writes;
      SpareMore(lg.cache.refs, lg.cache.pins);
      StartKept(lg.l, d0, l1, w0, w1, k);
      st := ClearLog();
      if st != Done {
        RecoverIsStep(lg.l, lg.cache.boot, w0, lg.cache.writes, d0, lg.cache.disk, k);
        return;
      }
      RecoveringClear(lg.l, d0, l1, lg.logical, d1, lg.cache.disk, w0, w1, lg.cache.writes);
      k := |RecoverWrites(lg.l, d0)|;
      RecoverIsStep(lg.l, lg.cache.boot, w0, lg.cache.writes, d0, lg.cache.disk, k);
    }
  }
}
