/**
 Processes between begin_op and end_op (kernel/log.c): they change blocks only in buffers they
 hold, log what they changed before they let go of it, and the last one to end commits.
 */
module Operations {
  import opened CrashLog
  import opened BufferCache
  import opened LogModule = Log
  import opened Sharing
  import opened Commit

  /** Only processes inside an operation have unlogged changes in a buffer. */
  ghost predicate Disciplined(buf: seq<Buf>, logical: Disk, inop: set<nat>) {
    forall i :: 0 <= i < |buf| && buf[i].valid && buf[i].holder !in inop && buf[i].blockno < |logical|
      ==> buf[i].data == logical[buf[i].blockno]
  }

  /** One buffer changes; it may differ from its block only in the hands of an operation. */
  lemma OneBuffer(buf: seq<Buf>, logical: Disk, inop: set<nat>, i: nat, x: Buf)
    requires Disciplined(buf, logical, inop) && i < |buf|
    requires x.valid && x.holder !in inop && x.blockno < |logical| ==> x.data == logical[x.blockno]
    ensures Disciplined(buf[i := x], logical, inop)
  {
  }

  /** A logged buffer becomes its block's contents; no other buffer has that block. */
  lemma OneBlock(buf: seq<Buf>, buf': seq<Buf>, refs: seq<nat>, pins: seq<nat>, disk: Disk, slot: seq<nat>,
      logical: Disk,
      inop: set<nat>, i: nat)
    requires Disciplined(buf, logical, inop) && BufsOk(buf, refs, pins, disk, slot) && |disk| == |logical| && i < |buf|
    requires buf[i].dev == ROOTDEV && |buf'| == |buf|
    requires forall j :: 0 <= j < |buf| ==> buf'[j] == buf[j].(refcnt := buf'[j].refcnt)
    ensures buf[i].blockno < |logical| && Disciplined(buf', logical[buf[i].blockno := buf[i].data], inop)
  {
    assert buf[i].Ok(refs[i], pins[i], disk);
    forall j | 0 <= j < |buf| && j != i && buf[j].valid ensures buf[j].blockno != buf[i].blockno {
      assert buf[j].Ok(refs[j], pins[j], disk);
    }
  }

  /** A process that holds no buffer has nothing left to log. */
  lemma NothingLeft(buf: seq<Buf>, logical: Disk, inop: set<nat>, pid: nat)
    requires Disciplined(buf, logical, inop) && forall i :: 0 <= i < |buf| ==> buf[i].holder != pid
    ensures Disciplined(buf, logical, inop - {pid})
  {
  }

  lemma AllShown(buf: seq<Buf>, logical: Disk, me: nat)
    requires Disciplined(buf, logical, {})
    ensures Shown(buf, logical, me)
  {
  }

  lemma BackFromCommit(buf: seq<Buf>, refs: seq<nat>, logical: Disk, me: nat)
    requires Shown(buf, logical, me) && Counted(buf, refs, {}, me)
    ensures Disciplined(buf, logical, {})
  {
    forall i | 0 <= i < |buf| ensures buf[i].holder != me { assert CountedAt(buf[i], refs[i], i in {}, me); }
  }

  /** The other processes take no step. */
  ghost predicate Idle(others: seq<seq<Op>>) {
    forall i :: 0 <= i < |others| ==> others[i] == []
  }

  /** A process other than pid has a buffer locked. */
  ghost predicate HeldBySome(buf: seq<Buf>, pid: nat) {
    exists i :: 0 <= i < |buf| && buf[i].holder != 0 && buf[i].holder != pid
  }

  /** Something is pending, every buffer is in use, and the header at `start` or one of the n log
      blocks behind it is not cached. */
  ghost predicate RunsOut(buf: seq<Buf>, start: nat, n: nat) {
    n > 0 && AllBusy(buf) && exists b :: start <= b <= start + n && !CachedIn(buf, b)
  }

  class Session {
    const lg: Log
    /** The processes inside an operation. */
    ghost var inop: set<nat>

    ghost predicate Working()
      reads this, lg, lg.cache
    {
      && lg.Steady() && 0 !in inop && lg.outstanding == |inop|
      && Disciplined(lg.cache.buf, lg.logical, inop)
    }

    /** After recovery: nothing is in progress and every buffer shows its block. */
    constructor (lg: Log)
      requires lg.Steady() && lg.outstanding == 0 && Disciplined(lg.cache.buf, lg.logical, {})
      ensures Working() && this.lg == lg && inop == {}
    {
      this.lg, inop := lg, {};
    }

    /** begin_op, once there is room. */
    method BeginOp(pid: nat)
      requires Working() && pid != 0 && pid !in inop
      modifies this, lg`outstanding
      ensures Working() && inop == old(inop) + {pid} && lg.outstanding == old(lg.outstanding) + 1
    {
      hide Traced, Linked, Recency, Coherent, Pinned, BufsOk;
      lg.outstanding := lg.outstanding + 1;
      inop := inop + {pid};
    }

    /** bread, inside an operation or not, when the buffer's lock is free. */
    method Bread(b: nat, pid: nat) returns (ok: bool, i: nat)
      requires Working() && b < lg.l.size && pid != 0
      requires forall j :: 0 <= j < lg.cache.nbuf && lg.cache.buf[j].Caches(b) ==> lg.cache.buf[j].holder == 0
      modifies lg.cache`buf, lg.cache`refs, lg.cache`slot
      ensures Working()
      ensures ok ==> i < lg.cache.nbuf && lg.cache.buf[i].Caches(b) && lg.cache.buf[i].valid
      ensures ok ==> lg.cache.buf[i].holder == pid && lg.cache.buf[i].data == lg.logical[b]
      ensures ok ==> lg.cache.buf == old(lg.cache.buf)[i := lg.cache.buf[i]]
      ensures ok ==> lg.cache.refs == old(lg.cache.refs)[i := old(lg.cache.refs[i]) + 1]
      ensures !ok <==> old(AllBusy(lg.cache.buf) && !CachedIn(lg.cache.buf, b))
      ensures !ok ==> lg.cache.buf == old(lg.cache.buf)
    {
      hide Traced, Linked, Recency, Coherent, Pinned, BufsOk, Disciplined;
      ghost var buf := lg.cache.buf;
      ok, i := lg.Bread(b, pid);
      if ok {
        assert lg.cache.buf == buf[i := lg.cache.buf[i]];
        OneBuffer(buf, lg.logical, inop, i, lg.cache.buf[i]);
      }
    }

    /** A change to a block by an operation, in a buffer it holds. */
    method Modify(i: nat, pid: nat, data: Block)
      requires Working() && pid in inop && i < lg.cache.nbuf && lg.cache.buf[i].holder == pid
      modifies lg.cache`buf
      ensures Working() && lg.cache.buf == old(lg.cache.buf)[i := old(lg.cache.buf)[i].(data := data)]
    {
      hide Traced, Linked, Recency, Pinned, Disciplined;
      ghost var buf := lg.cache.buf;
      PinsKept(buf, lg.cache.pins, lg.logged, lg.at, i, data);
      lg.cache.Store(i, pid, data);
      OneBuffer(buf, lg.logical, inop, i, lg.cache.buf[i]);
    }

    /** log_write. */
    method LogWrite(i: nat, pid: nat) returns (ok: bool)
      requires Working() && pid in inop && i < lg.cache.nbuf && lg.cache.buf[i].holder == pid && lg.cache.buf[i].valid
      requires lg.cache.buf[i].dev == ROOTDEV && |lg.cache.buf[i].data| == lg.l.words
      requires !lg.l.InLog(lg.cache.buf[i].blockno)
      modifies lg`n, lg`block, lg`logical, lg`logged, lg`at, lg.cache`buf, lg.cache`pins
      ensures Working() && (ok <==> old(lg.n) < lg.l.cap)
      ensures ok ==> lg.logical == old(lg.logical)[lg.cache.buf[i].blockno := lg.cache.buf[i].data]
      ensures ok ==> lg.block[..lg.n] == if old(lg.cache.buf[i].blockno) in old(lg.block[..lg.n]) then old(lg.block[..lg.n])
                                         else old(lg.block[..lg.n]) + [old(lg.cache.buf[i].blockno)]
      ensures !ok ==> lg.n == old(lg.n) && lg.logical == old(lg.logical) && lg.cache.buf == old(lg.cache.buf)
    {
      hide Traced, Linked, Recency, Coherent, Pinned, Disciplined;
      var c := lg.cache;
      ghost var buf, pins, logical := c.buf, c.pins, lg.logical;
      InOp(inop, pid);
      ok := lg.LogWrite(i, pid);
      if ok {
        forall j | 0 <= j < |buf| ensures c.buf[j] == buf[j].(refcnt := c.buf[j].refcnt) {
          SameButRefs(buf[j], c.buf[j]);
        }
        OneBlock(buf, c.buf, c.refs, pins, c.disk, c.slot, logical, inop, i);
      }
    }

    /** brelse of a buffer whose changes, if any, have been logged. */
    method Brelse(i: nat, pid: nat)
      requires Working() && pid != 0 && i < lg.cache.nbuf && lg.cache.buf[i].holder == pid && lg.cache.buf[i].valid
      requires lg.cache.buf[i].dev == ROOTDEV && lg.cache.buf[i].data == lg.logical[lg.cache.buf[i].blockno]
      modifies lg.cache`buf, lg.cache`refs, lg.cache`next, lg.cache`prev, lg.cache`ring, lg.cache`pos,
        lg.cache`stamp, lg.cache`now
      ensures Working()
      ensures lg.cache.refs == old(lg.cache.refs)[i := old(lg.cache.refs[i]) - 1]
      ensures lg.cache.buf == old(lg.cache.buf)[i := old(lg.cache.buf[i]).(holder := 0,
          refcnt := old(lg.cache.buf[i].refcnt) - 1)]
    {
      hide Traced, Linked, Recency, Coherent, Pinned, Disciplined;
      ghost var buf := lg.cache.buf;
      lg.Brelse(i, pid);
      OneBuffer(buf, lg.logical, inop, i, lg.cache.buf[i]);
    }

    /** end_op by a process that holds no buffer. The last operation commits, while other
        processes, `others`, go on reading. */
    method EndOp(pid: nat, others: seq<seq<Op>>) returns (st: Outcome, ghost k: nat)
      requires Working() && pid in inop && forall i :: 0 <= i < lg.cache.nbuf ==> lg.cache.buf[i].holder != pid
      modifies this, lg`outstanding, lg`n, lg`logical, lg`logged, lg`at, lg.cache
      ensures inop == old(inop) - {pid} && SameHomes(lg.l, old(lg.logical), lg.logical)
      ensures inop != {} ==> st == Done && Working() && lg.logical == old(lg.logical)
      ensures inop != {} ==> lg.cache.writes == old(lg.cache.writes) && lg.cache.buf == old(lg.cache.buf)
      ensures inop != {} ==> lg.n == old(lg.n) && lg.block == old(lg.block) && lg.cache.disk == old(lg.cache.disk)
      ensures inop == {} && st == Done ==> Working() && lg.n == 0 && Clean(lg.l, lg.cache.disk, lg.logical)
      ensures inop == {} ==>
                Step(lg.l, State(old(lg.cache.disk), true),
                     CrashCommit(old(lg.block[..lg.n]), Pending(old(lg.logical), old(lg.block[..lg.n])), k),
                     State(lg.cache.disk, false))
      ensures st == NoBuffers ==> inop == {} && forall i :: 0 <= i < |lg.cache.buf| ==> lg.cache.buf[i].refcnt > 0
      ensures st == Waiting ==> inop == {} && HeldBySome(lg.cache.buf, pid)
      ensures inop == {} && Idle(others) && old(forall i :: 0 <= i < lg.cache.nbuf ==> lg.cache.buf[i].holder == 0) ==>
                st == if old(RunsOut(lg.cache.buf, lg.l.start, lg.n)) then NoBuffers else Done
      ensures inop == {} && Idle(others)
                && old(lg.n > 0 && AllBusy(lg.cache.buf) && !CachedIn(lg.cache.buf, lg.l.start + 1)) ==>
                st == NoBuffers && k == 0
    {
      hide Traced, Linked, Recency, Coherent, Pinned, BufsOk, Disciplined, Shown, Counted, SameHomes, Step, CachedIn;
      NothingLeft(lg.cache.buf, lg.logical, inop, pid);
      SameSelf(lg.l, lg.logical);
      lg.outstanding := lg.outstanding - 1;
      inop := inop - {pid};
      st, k := Done, 0;
      if lg.outstanding == 0 {
        OneFewer(old(inop), pid);
        AllShown(lg.cache.buf, lg.logical, pid);
        var c := new Committer(lg, pid, others);
        st, k := c.Commit();
        if st == Done {
          BackFromCommit(lg.cache.buf, lg.cache.refs, lg.logical, pid);
          QuiescentIsClean(lg);
        }
      }
    }
  }

  lemma OneFewer(inop: set<nat>, pid: nat)
    requires pid in inop && |inop| == 1
    ensures inop - {pid} == {}
  {
    assert |inop| == |inop - {pid}| + 1 by { assert inop == (inop - {pid}) + {pid}; }
  }

  lemma InOp(inop: set<nat>, pid: nat)
    requires pid in inop
    ensures |inop| >= 1
  {
    assert inop == (inop - {pid}) + {pid};
  }

  lemma SameButRefs(x: Buf, y: Buf)
    requires y.(refcnt := 0) == x.(refcnt := 0)
    ensures y == x.(refcnt := y.refcnt)
  {
    assert y.(refcnt := 0).data == x.(refcnt := 0).data && y.(refcnt := 0).valid == x.(refcnt := 0).valid;
  }

  lemma SameSelf(l: Layout, logical: Disk)
    requires |logical| == l.size
    ensures SameHomes(l, logical, logical)
  {
  }

  /** The contents of a held buffer are no concern of the pins. */
  lemma PinsKept(buf: seq<Buf>, pins: seq<nat>, logged: seq<int>, at: seq<nat>, i: nat, data: Block)
    requires Pinned(buf, pins, logged, at) && i < |buf|
    ensures Pinned(buf[i := buf[i].(data := data)], pins, logged, at)
  {
  }
}
