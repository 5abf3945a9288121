/**
 Scheduling, sleep and wakeup (kernel/proc.c, kernel/spinlock.c) as steps of many CPUs.
 A step is one lock operation, one write of a process's state, or one swtch. Every
 channel has a condition that is tested and changed under a spin lock: its own, as in
 kernel/sleeplock.c, or one shared with other channels, as the two of a pipe.
 */
module Sched {
  import opened Common

  datatype PState = UNUSED | RUNNABLE | RUNNING | SLEEPING | ZOMBIE

  /** Why a process gave up its CPU. */
  datatype Why = Sleep | Yield | Fork | Exit

  /** Where a process's kernel thread is. */
  datatype Pc =
    | Dead
    | Free                              // holds none of the locks
    | Reacquire                         // at the end of sleep, wants the channel's lock again
    | HasLk                             // holds the channel's lock
    | SleepLocked                       // in sleep: holds both locks
    | SleepReleased                     // in sleep: has released the channel's lock
    | SleepSet                          // in sleep: state is SLEEPING
    | YieldLocked | YieldSet
    | ExitLocked | ExitSet
    | Out(why: Why)                     // in swtch, off the CPU
    | In(why: Why)                      // back from swtch, still holding its own lock
    | Waking(q: nat)                    // in wakeup, next process q
    | WakingLocked(q: nat)              // in wakeup, holds the lock of q
    | KillLocked(q: nat)                // in kill, holds the lock of q

  /** lock: the CPU holding p->lock; on: the CPU executing the process; ch: the channel it uses. */
  datatype Proc = Proc(state: PState, pc: Pc, lock: Option<nat>, on: Option<nat>, ch: nat)

  /** Where a CPU's scheduler is: between processes, holding a process's lock before or
      after running it, or suspended in swtch while the process runs. */
  datatype SPc = Idle | Got(p: nat) | Suspended(p: nat) | Back(p: nat)

  /** cur: c->proc; noff: depth of push_off. */
  datatype Cpu = Cpu(spc: SPc, cur: Option<nat>, noff: int)

  /** lk: the CPUs holding the channels' locks; lockOf: the lock of a channel; cond: its condition. */
  datatype State = State(proc: seq<Proc>, cpu: seq<Cpu>, lk: seq<Option<nat>>, lockOf: seq<nat>, cond: seq<bool>)

  datatype Event =
    | SAcquire(c: nat, p: nat) | SSkip(c: nat) | SRun(c: nat) | SDone(c: nat)
    | AcquireLk(p: nat, ch: nat) | Turn(p: nat, ch: nat) | ReleaseLk(p: nat) | SetFalse(p: nat) | SetTrue(p: nat)
    | WakeSelf(p: nat) | WakeLock(p: nat) | WakeUnlock(p: nat) | WakeDone(p: nat)
    | SleepLock(p: nat) | SleepRelease(p: nat) | SleepState(p: nat)
    | YieldLock(p: nat) | YieldState(p: nat) | ExitLock(p: nat) | ExitState(p: nat)
    | Switch(p: nat) | Resume(p: nat)
    | KillLock(p: nat, q: nat) | KillDone(p: nat)
    | NewProc(p: nat, q: nat) | Reap(p: nat, q: nat)

  // ---------------------------------------------------------------------------- steps

  predicate Chan(s: State, ch: nat) {
    ch < |s.lockOf| == |s.cond| && s.lockOf[ch] < |s.lk|
  }

  /** The holder of the lock of a channel. */
  function Lk(s: State, ch: nat): Option<nat>
    requires Chan(s, ch)
  {
    s.lk[s.lockOf[ch]]
  }

  /** The process may take a step: it is executing, at this point. */
  ghost predicate At(s: State, p: nat, pc: Pc) {
    p < |s.proc| && s.proc[p].pc == pc && s.proc[p].on.Some? && s.proc[p].on.value < |s.cpu|
        && Chan(s, s.proc[p].ch)
  }

  ghost predicate LockFree(s: State, q: nat) {
    q < |s.proc| && s.proc[q].lock == None
  }

  predicate OnChannel(e: Event) {
    e.AcquireLk? || e.Turn? || e.ReleaseLk? || e.SetFalse? || e.SetTrue? || e.WakeSelf? || e.WakeDone?
        || e.SleepRelease?
  }

  predicate OnOwn(e: Event) {
    e.SleepLock? || e.SleepState? || e.YieldLock? || e.YieldState? || e.ExitLock? || e.ExitState? || e.Resume?
  }

  predicate OnOther(e: Event) {
    e.WakeLock? || e.WakeUnlock? || e.KillLock? || e.KillDone?
  }

  predicate OnTable(e: Event) {
    e.NewProc? || e.Reap?
  }

  predicate OnSched(e: Event) {
    e.SAcquire? || e.SSkip? || e.SRun? || e.SDone? || e.Switch?
  }

  // What the code before a step establishes, and for acquire that the lock is free.

  ghost predicate SchedReady(s: State, e: Event)
    requires OnSched(e)
  {
    match e
    case SAcquire(c, p) => c < |s.cpu| && s.cpu[c].spc == Idle && LockFree(s, p)
    case SSkip(c) => c < |s.cpu| && s.cpu[c].spc.Got? && s.cpu[c].spc.p < |s.proc|
        && s.proc[s.cpu[c].spc.p].state != RUNNABLE
    case SRun(c) => c < |s.cpu| && s.cpu[c].spc.Got? && s.cpu[c].spc.p < |s.proc|
        && s.proc[s.cpu[c].spc.p].state == RUNNABLE
    case SDone(c) => c < |s.cpu| && s.cpu[c].spc.Back? && s.cpu[c].spc.p < |s.proc|
    case Switch(p) => At(s, p, SleepSet) || At(s, p, YieldSet) || At(s, p, ExitSet)
  }

  ghost predicate ChannelReady(s: State, e: Event)
    requires OnChannel(e)
  {
    match e
    case AcquireLk(p, ch) => (At(s, p, Free) || (At(s, p, Reacquire) && ch == s.proc[p].ch))
        && Chan(s, ch) && Lk(s, ch) == None
    case Turn(p, ch) => At(s, p, HasLk) && Chan(s, ch) && s.lockOf[ch] == s.lockOf[s.proc[p].ch]
    case ReleaseLk(p) => At(s, p, HasLk)
    case SetFalse(p) => At(s, p, HasLk)
    case SetTrue(p) => At(s, p, HasLk)
    case WakeSelf(p) => At(s, p, Waking(p))
    case WakeDone(p) => At(s, p, Waking(|s.proc|))
    case SleepRelease(p) => At(s, p, SleepLocked)
  }

  ghost predicate OwnReady(s: State, e: Event)
    requires OnOwn(e)
  {
    match e
    case SleepLock(p) => At(s, p, HasLk) && !s.cond[s.proc[p].ch] && LockFree(s, p)
    case SleepState(p) => At(s, p, SleepReleased)
    case YieldLock(p) => At(s, p, Free) && LockFree(s, p)
    case YieldState(p) => At(s, p, YieldLocked)
    case ExitLock(p) => At(s, p, Free) && LockFree(s, p)
    case ExitState(p) => At(s, p, ExitLocked)
    case Resume(p) => p < |s.proc| && s.proc[p].pc.In? && At(s, p, s.proc[p].pc)
  }

  ghost predicate OtherReady(s: State, e: Event)
    requires OnOther(e)
  {
    match e
    case WakeLock(p) => p < |s.proc| && s.proc[p].pc.Waking? && At(s, p, s.proc[p].pc) && s.proc[p].pc.q != p
        && LockFree(s, s.proc[p].pc.q)
    case WakeUnlock(p) => p < |s.proc| && s.proc[p].pc.WakingLocked? && At(s, p, s.proc[p].pc)
        && s.proc[p].pc.q < |s.proc|
    case KillLock(p, q) => At(s, p, Free) && LockFree(s, q)
    case KillDone(p) => p < |s.proc| && s.proc[p].pc.KillLocked? && At(s, p, s.proc[p].pc) && s.proc[p].pc.q < |s.proc|
  }

  ghost predicate TableReady(s: State, e: Event)
    requires OnTable(e)
  {
    match e
    case NewProc(p, q) => At(s, p, Free) && LockFree(s, q) && s.proc[q].state == UNUSED
    case Reap(p, q) => At(s, p, Free) && LockFree(s, q) && s.proc[q].state == ZOMBIE
  }

  ghost predicate Enabled(s: State, e: Event) {
    && (OnChannel(e) ==> ChannelReady(s, e))
    && (OnOwn(e) ==> OwnReady(s, e))
    && (OnOther(e) ==> OtherReady(s, e))
    && (OnTable(e) ==> TableReady(s, e))
    && (OnSched(e) ==> SchedReady(s, e))
  }

  function Put(s: State, p: nat, r: Proc): State
    requires p < |s.proc|
  {
    s.(proc := s.proc[p := r])
  }

  function PutCpu(s: State, c: nat, k: Cpu): State
    requires c < |s.cpu|
  {
    s.(cpu := s.cpu[c := k])
  }

  /** push_off and pop_off of the CPU that executes p. */
  function Nest(s: State, p: nat, d: int): State
    requires p < |s.proc| && s.proc[p].on.Some? && s.proc[p].on.value < |s.cpu|
  {
    var c := s.proc[p].on.value;
    PutCpu(s, c, s.cpu[c].(noff := s.cpu[c].noff + d))
  }

  /** wakeup and kill make a sleeping process runnable. */
  function Woken(r: Proc): Proc {
    if r.state == SLEEPING then r.(state := RUNNABLE) else r
  }

  /** A process takes its own lock. */
  ghost function OwnLock(s: State, p: nat, pc: Pc): State
    requires p < |s.proc| && s.proc[p].on.Some? && s.proc[p].on.value < |s.cpu|
  {
    Nest(Put(s, p, s.proc[p].(lock := s.proc[p].on, pc := pc)), p, 1)
  }

  /** The scheduler takes or drops a process's lock. */
  function SchedLock(s: State, c: nat, p: nat, lock: Option<nat>, spc: SPc, cur: Option<nat>, d: int): State
    requires c < |s.cpu| && p < |s.proc|
  {
    PutCpu(Put(s, p, s.proc[p].(lock := lock)), c, Cpu(spc, cur, s.cpu[c].noff + d))
  }

  /** Steps of the scheduler, and sched giving the CPU back to it. */
  ghost function NextSched(s: State, e: Event): (s': State)
    requires Enabled(s, e) && OnSched(e)
    ensures |s'.proc| == |s.proc|
  {
    match e
    case SAcquire(c, p) => SchedLock(s, c, p, Some(c), Got(p), s.cpu[c].cur, 1)
    case SSkip(c) => SchedLock(s, c, s.cpu[c].spc.p, None, Idle, s.cpu[c].cur, -1)
    case SDone(c) => SchedLock(s, c, s.cpu[c].spc.p, None, Idle, None, -1)
    case SRun(c) =>
      var p := s.cpu[c].spc.p;
      var pc := if s.proc[p].pc.Out? then In(s.proc[p].pc.why) else s.proc[p].pc;
      PutCpu(Put(s, p, s.proc[p].(state := RUNNING, pc := pc, on := Some(c))), c,
          s.cpu[c].(spc := Suspended(p), cur := Some(p)))
    case Switch(p) =>
      var why := if s.proc[p].pc == SleepSet then Sleep else if s.proc[p].pc == YieldSet then Yield else Exit;
      var c := s.proc[p].on.value;
      PutCpu(Put(s, p, s.proc[p].(pc := Out(why), on := None)), c, s.cpu[c].(spc := Back(p)))
  }

  /** Steps that take or drop a channel's lock, turn to another channel of that lock, change the
      condition, or move on in wakeup. */
  ghost function NextChannel(s: State, e: Event): (s': State)
    requires Enabled(s, e) && OnChannel(e)
    ensures |s'.proc| == |s.proc|
  {
    match e
    case AcquireLk(p, ch) => Nest(Put(s, p, s.proc[p].(pc := HasLk, ch := ch)), p,
        1).(lk := s.lk[s.lockOf[ch] := s.proc[p].on])
    case Turn(p, ch) => Put(s, p, s.proc[p].(ch := ch))
    case ReleaseLk(p) => Nest(Put(s, p, s.proc[p].(pc := Free)), p, -1).(lk := s.lk[s.lockOf[s.proc[p].ch] := None])
    case SetFalse(p) => s.(cond := s.cond[s.proc[p].ch := false])
    case SetTrue(p) => Put(s, p, s.proc[p].(pc := Waking(0))).(cond := s.cond[s.proc[p].ch := true])
    case WakeSelf(p) => Put(s, p, s.proc[p].(pc := Waking(p + 1)))
    case WakeDone(p) => Put(s, p, s.proc[p].(pc := HasLk))
    case SleepRelease(p) => Nest(Put(s, p, s.proc[p].(pc := SleepReleased)), p,
        -1).(lk := s.lk[s.lockOf[s.proc[p].ch] := None])
  }

  /** Steps that take or drop the process's own lock or change its state under it. */
  ghost function NextOwn(s: State, e: Event): (s': State)
    requires Enabled(s, e) && OnOwn(e)
    ensures |s'.proc| == |s.proc|
  {
    match e
    case SleepLock(p) => OwnLock(s, p, SleepLocked)
    case SleepState(p) => Put(s, p, s.proc[p].(pc := SleepSet, state := SLEEPING))
    case YieldLock(p) => OwnLock(s, p, YieldLocked)
    case YieldState(p) => Put(s, p, s.proc[p].(pc := YieldSet, state := RUNNABLE))
    case ExitLock(p) => OwnLock(s, p, ExitLocked)
    case ExitState(p) => Put(s, p, s.proc[p].(pc := ExitSet, state := ZOMBIE))
    case Resume(p) =>
      var pc := if s.proc[p].pc.why == Sleep then Reacquire else Free;
      Nest(Put(s, p, s.proc[p].(lock := None, pc := pc)), p, -1)
  }

  /** Steps of wakeup and kill on the process they visit. */
  ghost function NextOther(s: State, e: Event): (s': State)
    requires Enabled(s, e) && OnOther(e)
    ensures |s'.proc| == |s.proc|
  {
    match e
    case WakeLock(p) =>
      var q := s.proc[p].pc.q;
      Nest(Put(Put(s, q, s.proc[q].(lock := s.proc[p].on)), p, s.proc[p].(pc := WakingLocked(q))), p, 1)
    case WakeUnlock(p) =>
      var q := s.proc[p].pc.q;
      var r := if s.proc[q].ch == s.proc[p].ch then Woken(s.proc[q]) else s.proc[q];
      Nest(Put(Put(s, q, r.(lock := None)), p, s.proc[p].(pc := Waking(q + 1))), p, -1)
    case KillLock(p, q) =>
      var s1 := Put(s, p, s.proc[p].(pc := KillLocked(q)));
      Nest(Put(s1, q, s1.proc[q].(lock := s.proc[p].on)), p, 1)
    case KillDone(p) =>
      var q := s.proc[p].pc.q;
      var s1 := Put(s, p, s.proc[p].(pc := Free));
      Nest(Put(s1, q, Woken(s1.proc[q]).(lock := None)), p, -1)
  }

  /** kfork makes a table entry runnable, kwait frees one. */
  ghost function NextTable(s: State, e: Event): (s': State)
    requires Enabled(s, e) && OnTable(e)
    ensures |s'.proc| == |s.proc|
  {
    var (state, pc) := if e.NewProc? then (RUNNABLE, Out(Fork)) else (UNUSED, Dead);
    Put(s, e.q, Proc(state, pc, None, None, s.proc[e.q].ch))
  }

  ghost function Next(s: State, e: Event): State
    requires Enabled(s, e)
  {
    if OnChannel(e) then NextChannel(s, e)
    else if OnOwn(e) then NextOwn(s, e)
    else if OnOther(e) then NextOther(s, e)
    else if OnTable(e) then NextTable(s, e)
    else NextSched(s, e)
  }

  // ------------------------------------------------------------------------- invariant

  /** Points at which a process holds its own lock. */
  predicate OwnHeld(pc: Pc) {
    pc.SleepLocked? || pc.SleepReleased? || pc.SleepSet? || pc.YieldLocked? || pc.YieldSet? || pc.ExitLocked?
        || pc.ExitSet? || pc.In?
  }

  /** Points at which it holds its channel's lock. */
  predicate LkHeld(pc: Pc) {
    pc.HasLk? || pc.SleepLocked? || pc.Waking? || pc.WakingLocked?
  }

  /** Points at which it holds the lock of q. */
  predicate OtherHeld(pc: Pc, q: nat) {
    pc == WakingLocked(q) || pc == KillLocked(q)
  }

  function B(b: bool): int {
    if b then 1 else 0
  }

  /** How many locks it holds. */
  function Locks(pc: Pc): int {
    B(OwnHeld(pc)) + B(LkHeld(pc)) + B(pc.WakingLocked? || pc.KillLocked?)
  }

  predicate Off(pc: Pc) {
    pc == Dead || pc.Out?
  }

  /** What p->state is at a point of the code; a sleeper may have been made runnable. */
  predicate StateFits(pc: Pc, st: PState) {
    match pc
    case Dead => st == UNUSED
    case SleepSet => st == SLEEPING
    case YieldSet => st == RUNNABLE
    case ExitSet => st == ZOMBIE
    case Out(why) => if why == Exit then st == ZOMBIE else st == RUNNABLE || (why == Sleep && st == SLEEPING)
    case _ => st == RUNNING
  }

  /** The thread on CPU c holds the lock of q. */
  ghost predicate Holds(s: State, c: nat, q: nat) {
    c < |s.cpu| &&
    match s.cpu[c].spc
    case Idle => false
    case Got(p) => p == q
    case Back(p) => p == q
    case Suspended(p) => p < |s.proc| && ((p == q && OwnHeld(s.proc[p].pc)) || OtherHeld(s.proc[p].pc, q))
  }

  ghost predicate ProcOk(s: State, p: nat)
    requires p < |s.proc|
  {
    var r := s.proc[p];
    && StateFits(r.pc, r.state) && Chan(s, r.ch)
    && (r.on == None <==> Off(r.pc))
    && (r.on.Some? ==> r.on.value < |s.cpu| && s.cpu[r.on.value].spc == Suspended(p))
    && (r.lock.Some? ==> Holds(s, r.lock.value, p))
    && (LkHeld(r.pc) ==> Lk(s, r.ch) == r.on)
    && (r.pc.Waking? ==> r.pc.q <= |s.proc|)
    && ((r.pc.WakingLocked? || r.pc.KillLocked?) ==> r.pc.q < |s.proc|)
    && (r.pc.WakingLocked? ==> r.pc.q != p)
  }

  ghost predicate CpuOk(s: State, c: nat)
    requires c < |s.cpu|
  {
    var k := s.cpu[c];
    match k.spc
    case Idle => k.cur == None && k.noff == 0
    case Got(p) => p < |s.proc| && k.cur == None && k.noff == 1 && s.proc[p].lock == Some(c)
    case Back(p) => p < |s.proc| && k.cur == Some(p) && k.noff == 1 && s.proc[p].lock == Some(c) && s.proc[p].on == None
    case Suspended(p) =>
      && p < |s.proc| && k.cur == Some(p) && s.proc[p].on == Some(c) && k.noff == Locks(s.proc[p].pc)
      && (OwnHeld(s.proc[p].pc) ==> s.proc[p].lock == Some(c))
      && ((s.proc[p].pc.WakingLocked? || s.proc[p].pc.KillLocked?) ==> s.proc[p].pc.q < |s.proc| && s.proc[s.proc[p].pc.q].lock == Some(c))
  }

  /** The holder of lock l uses one of its channels. */
  ghost predicate LkOk(s: State, l: nat)
    requires l < |s.lk|
  {
    s.lk[l].Some? ==>
      && s.lk[l].value < |s.cpu| && s.cpu[s.lk[l].value].spc.Suspended?
      && s.cpu[s.lk[l].value].spc.p < |s.proc|
      && var w := s.proc[s.cpu[s.lk[l].value].spc.p]; LkHeld(w.pc) && w.ch < |s.lockOf| && s.lockOf[w.ch] == l
  }

  /** Process p is asleep on its channel, or on its way there past the test of the condition. */
  ghost predicate Waits(s: State, p: nat)
    requires p < |s.proc|
  {
    s.proc[p].pc == SleepReleased || s.proc[p].pc == SleepSet
        || (s.proc[p].pc == Out(Sleep) && s.proc[p].state == SLEEPING)
  }

  /** Somebody is in wakeup on this channel and has not passed p yet. */
  ghost predicate Coming(s: State, ch: nat, p: nat)
    requires Chan(s, ch)
  {
    && Lk(s, ch).Some? && Lk(s, ch).value < |s.cpu| && s.cpu[Lk(s, ch).value].spc.Suspended?
    && var w := s.cpu[Lk(s, ch).value].spc.p;
       && w < |s.proc| && (s.proc[w].pc.Waking? || s.proc[w].pc.WakingLocked?) && s.proc[w].pc.q <= p
       && s.proc[w].ch == ch
  }

  ghost predicate WakeOk(s: State, p: nat)
    requires p < |s.proc|
  {
    Chan(s, s.proc[p].ch) ==>
      && (s.proc[p].pc == SleepLocked ==> !s.cond[s.proc[p].ch])
      && (Waits(s, p) && s.cond[s.proc[p].ch] ==> Coming(s, s.proc[p].ch, p))
      && (s.proc[p].pc.Waking? || s.proc[p].pc.WakingLocked? ==> s.cond[s.proc[p].ch])
  }

  ghost predicate Inv(s: State) {
    && |s.lockOf| == |s.cond|
    && (forall p :: 0 <= p < |s.proc| ==> ProcOk(s, p))
    && (forall c :: 0 <= c < |s.cpu| ==> CpuOk(s, c))
    && (forall l :: 0 <= l < |s.lk| ==> LkOk(s, l))
    && (forall p :: 0 <= p < |s.proc| ==> WakeOk(s, p))
  }

  // ------------------------------------------------------------------ what it gives

  /** A process is executed by at most one CPU; if it is RUNNING, by exactly one, whose c->proc it is. */
  lemma SingleExecution(s: State, p: nat, c1: nat, c2: nat)
    requires Inv(s) && p < |s.proc| && c1 < |s.cpu| && c2 < |s.cpu|
    ensures s.cpu[c1].spc == Suspended(p) && s.cpu[c2].spc == Suspended(p) ==> c1 == c2
    ensures s.proc[p].state == RUNNING ==> s.proc[p].on.Some? && s.proc[p].on.value < |s.cpu|
                                           && s.cpu[s.proc[p].on.value].spc == Suspended(p)
                                                && s.cpu[s.proc[p].on.value].cur == Some(p)
  {
    assert ProcOk(s, p) && CpuOk(s, c1) && CpuOk(s, c2);
    if s.proc[p].on.Some? {
      assert CpuOk(s, s.proc[p].on.value);
    }
  }

  /** With the channel's lock free, nobody sleeps on a channel whose condition holds. */
  lemma NoLostWakeup(s: State, p: nat)
    requires Inv(s) && p < |s.proc| && s.proc[p].state == SLEEPING
    ensures Chan(s, s.proc[p].ch) && (Lk(s, s.proc[p].ch) == None ==> !s.cond[s.proc[p].ch])
  {
    assert ProcOk(s, p) && WakeOk(s, p);
  }

  /** A zombie whose lock can be taken has left its CPU. */
  lemma ZombieIsOff(s: State, p: nat)
    requires Inv(s) && p < |s.proc| && s.proc[p].state == ZOMBIE && s.proc[p].lock == None
    ensures s.proc[p].on == None
  {
    assert ProcOk(s, p);
    if s.proc[p].on.Some? {
      assert CpuOk(s, s.proc[p].on.value);
    }
  }

  /** The checks at which the kernel would panic: releasing a lock not held, popping an empty
      nesting, and in sched the own lock not held, further locks held or the state unchanged. */
  ghost predicate Checks(s: State, e: Event)
    requires Enabled(s, e)
  {
    match e
    case SSkip(c) => s.proc[s.cpu[c].spc.p].lock == Some(c) && s.cpu[c].noff >= 1
    case SDone(c) => s.proc[s.cpu[c].spc.p].lock == Some(c) && s.cpu[c].noff >= 1
    case ReleaseLk(p) => Lk(s, s.proc[p].ch) == s.proc[p].on && s.cpu[s.proc[p].on.value].noff >= 1
    case SleepRelease(p) => Lk(s, s.proc[p].ch) == s.proc[p].on && s.cpu[s.proc[p].on.value].noff >= 1
    case WakeUnlock(p) => s.proc[s.proc[p].pc.q].lock == s.proc[p].on && s.cpu[s.proc[p].on.value].noff >= 1
    case KillDone(p) => s.proc[s.proc[p].pc.q].lock == s.proc[p].on && s.cpu[s.proc[p].on.value].noff >= 1
    case Resume(p) => s.proc[p].lock == s.proc[p].on && s.cpu[s.proc[p].on.value].noff >= 1
    case Switch(p) => s.proc[p].lock == s.proc[p].on && s.cpu[s.proc[p].on.value].noff == 1
        && s.proc[p].state != RUNNING
    case _ => true
  }

  predicate Takes(e: Event) {
    e.SAcquire? || e.AcquireLk? || e.WakeLock? || e.SleepLock? || e.YieldLock? || e.ExitLock? || e.KillLock?
        || e.NewProc? || e.Reap?
  }

  /** The thread of the event is about to acquire a lock on CPU c, and `held` is the lock's holder. */
  ghost predicate Acquiring(s: State, e: Event, c: nat, held: Option<nat>) {
    match e
    case SAcquire(k, p) => k == c < |s.cpu| && s.cpu[c].spc == Idle && p < |s.proc| && held == s.proc[p].lock
    case AcquireLk(p, ch) => (At(s, p, Free) || (At(s, p, Reacquire) && ch == s.proc[p].ch))
        && s.proc[p].on == Some(c) && Chan(s, ch) && held == Lk(s, ch)
    case WakeLock(p) => p < |s.proc| && s.proc[p].pc.Waking? && At(s, p, s.proc[p].pc) && s.proc[p].pc.q != p
        && s.proc[p].on == Some(c) && s.proc[p].pc.q < |s.proc| && held == s.proc[s.proc[p].pc.q].lock
    case SleepLock(p) => At(s, p, HasLk) && s.proc[p].on == Some(c) && held == s.proc[p].lock
    case YieldLock(p) => At(s, p, Free) && s.proc[p].on == Some(c) && held == s.proc[p].lock
    case ExitLock(p) => At(s, p, Free) && s.proc[p].on == Some(c) && held == s.proc[p].lock
    case KillLock(p, q) => At(s, p, Free) && s.proc[p].on == Some(c) && q < |s.proc| && held == s.proc[q].lock
    case NewProc(p, q) => At(s, p, Free) && s.proc[p].on == Some(c) && q < |s.proc| && held == s.proc[q].lock
    case Reap(p, q) => At(s, p, Free) && s.proc[p].on == Some(c) && q < |s.proc| && held == s.proc[q].lock
    case _ => false
  }

  /** Every step that takes a lock waits until nobody holds it. */
  lemma TakesFree(s: State, e: Event)
    requires Enabled(s, e) && Takes(e)
    ensures exists c :: 0 <= c < |s.cpu| && Acquiring(s, e, c, None)
  {
    var c := if e.SAcquire? then e.c else s.proc[e.p].on.value;
    assert Acquiring(s, e, c, None);
  }

  /** acquire never finds the lock held by its own CPU. */
  lemma NoSelfDeadlock(s: State, e: Event, c: nat, held: Option<nat>)
    requires Inv(s) && Acquiring(s, e, c, held)
    ensures held != Some(c)
  {
    if e.SAcquire? {
      assert CpuOk(s, c) && ProcOk(s, e.p);
    } else {
      assert ProcOk(s, e.p);
      if e.AcquireLk? { assert LkOk(s, s.lockOf[e.ch]); }
      else if e.WakeLock? { assert ProcOk(s, s.proc[e.p].pc.q); }
      else if e.KillLock? || e.NewProc? || e.Reap? { assert ProcOk(s, e.q); }
    }
  }

  lemma Running(s: State, p: nat)
    requires Inv(s) && p < |s.proc| && s.proc[p].on.Some? && s.proc[p].on.value < |s.cpu|
    ensures ProcOk(s, p) && CpuOk(s, s.proc[p].on.value)
  {
  }

  lemma SwitchChecks(s: State, e: Event)
    requires Inv(s) && Enabled(s, e) && e.Switch?
    ensures Checks(s, e)
  {
    hide Inv, Holds;
    Running(s, e.p);
  }

  lemma ReleaseChecks(s: State, e: Event)
    requires Inv(s) && Enabled(s, e) && !e.SAcquire? && !e.SSkip? && !e.SRun? && !e.SDone? && !e.Switch?
    ensures Checks(s, e)
  {
    hide Inv, Holds, StateFits;
    Running(s, e.p);
  }

  lemma NoPanic(s: State, e: Event)
    requires Inv(s) && Enabled(s, e)
    ensures Checks(s, e)
  {
    hide Inv, ProcOk;
    if e.Switch? {
      SwitchChecks(s, e);
    } else if e.SSkip? || e.SDone? {
      CpuIs(s, e.c);
    } else if !e.SAcquire? && !e.SRun? {
      ReleaseChecks(s, e);
    }
  }

  lemma CpuIs(s: State, c: nat)
    requires Inv(s) && c < |s.cpu|
    ensures CpuOk(s, c)
  {
  }

  // ------------------------------------------------------------------ every step keeps it

  /** Everything but the wakeup part. */
  ghost predicate Structure(s: State) {
    && |s.lockOf| == |s.cond|
    && (forall p :: 0 <= p < |s.proc| ==> ProcOk(s, p))
    && (forall c :: 0 <= c < |s.cpu| ==> CpuOk(s, c))
    && (forall l :: 0 <= l < |s.lk| ==> LkOk(s, l))
  }

  predicate Busy(pc: Pc) {
    pc.WakingLocked? || pc.KillLocked?
  }

  /** The process p on CPU c goes from one point to another, taking or dropping its own lock
      or its channel's. */
  ghost predicate Local(s: State, s': State, p: nat, c: nat) {
    && p < |s.proc| && c < |s.cpu| && s.proc[p].on == Some(c) && |s.lk| == |s'.lk| && |s.cond| == |s'.cond|
    && s'.lockOf == s.lockOf
    && |s'.proc| == |s.proc| && s'.proc == s.proc[p := s'.proc[p]] && s'.proc[p].on == s.proc[p].on
    && var r, r' := s.proc[p], s'.proc[p];
       && s'.cpu == s.cpu[c := s.cpu[c].(noff := s.cpu[c].noff + Locks(r'.pc) - Locks(r.pc))]
       && !Off(r'.pc) && !Busy(r.pc) && !Busy(r'.pc) && StateFits(r'.pc, r'.state) && Chan(s, r.ch) && Chan(s, r'.ch)
       && (r'.pc.Waking? ==> r'.pc.q <= |s.proc|)
       && r'.lock == (if OwnHeld(r'.pc) then r.on else if OwnHeld(r.pc) then None else r.lock)
       && (OwnHeld(r'.pc) && !OwnHeld(r.pc) ==> r.lock == None)
       && LocalLk(s, s', r, r')
  }

  ghost predicate LocalLk(s: State, s': State, r: Proc, r': Proc)
    requires |s.lk| == |s'.lk| && Chan(s, r.ch) && Chan(s, r'.ch)
  {
    if LkHeld(r.pc) then
      if LkHeld(r'.pc) then s'.lk == s.lk && s.lockOf[r'.ch] == s.lockOf[r.ch]
      else s'.lk == s.lk[s.lockOf[r.ch] := None] && r'.ch == r.ch
    else if LkHeld(r'.pc) then Lk(s, r'.ch) == None && s'.lk == s.lk[s.lockOf[r'.ch] := r.on]
    else s'.lk == s.lk && r'.ch == r.ch
  }

  lemma LocalKeeps(s: State, s': State, p: nat, c: nat)
    requires Structure(s) && Local(s, s', p, c)
    ensures Structure(s')
  {
    hide StateFits, OwnHeld, Locks;
    assert ProcOk(s, p) && CpuOk(s, c);
    forall x | 0 <= x < |s'.proc| ensures ProcOk(s', x) {
      assert ProcOk(s, x);
    }
    forall x | 0 <= x < |s'.cpu| ensures CpuOk(s', x) {
      assert CpuOk(s, x);
    }
    forall x | 0 <= x < |s'.lk| ensures LkOk(s', x) {
      assert LkOk(s, x);
    }
  }

  /** p takes or drops the lock of q, and may wake it when it drops it. */
  ghost predicate Touches(s: State, s': State, p: nat, c: nat, q: nat, take: bool) {
    && p < |s.proc| && q < |s.proc| && c < |s.cpu| && s.proc[p].on == Some(c)
    && s'.lk == s.lk && s'.lockOf == s.lockOf && s'.cond == s.cond && |s'.proc| == |s.proc|
    && s'.cpu == s.cpu[c := s.cpu[c].(noff := s.cpu[c].noff + if take then 1 else -1)]
    && (forall x :: 0 <= x < |s.proc| && x != p && x != q ==> s'.proc[x] == s.proc[x])
    && var pc, pc' := s.proc[p].pc, s'.proc[p].pc;
       && (if take then !Busy(pc) && OtherHeld(pc', q) && s.proc[q].lock == None && s'.proc[q].lock == Some(c)
           else OtherHeld(pc, q) && !Busy(pc') && s'.proc[q].lock == None)
       && LkHeld(pc') == LkHeld(pc) && !OwnHeld(pc) && !OwnHeld(pc') && !Off(pc') && StateFits(pc', RUNNING)
       && (pc'.Waking? ==> pc'.q <= |s.proc|) && (pc'.WakingLocked? ==> q != p)
       && s'.proc[p].on == s.proc[p].on && s'.proc[p].ch == s.proc[p].ch && s'.proc[p].state == s.proc[p].state
       && (q != p ==> s'.proc[p].lock == s.proc[p].lock && s'.proc[q].pc == s.proc[q].pc)
       && (q != p ==> s'.proc[q].on == s.proc[q].on && s'.proc[q].ch == s.proc[q].ch)
       && (q != p ==> s'.proc[q].state == s.proc[q].state || (!take && s'.proc[q].state == RUNNABLE && s.proc[q].state == SLEEPING))
  }

  lemma TouchKeepsActor(s: State, s': State, p: nat, c: nat, q: nat, take: bool)
    requires Structure(s) && Touches(s, s', p, c, q, take) && p != q
    ensures ProcOk(s', p)
  {
    hide Structure, LkOk, Locks;
    Actor(s, p);
    Seen(s, c, q, p);
  }

  lemma TouchKeepsOther(s: State, s': State, p: nat, c: nat, q: nat, take: bool, x: nat)
    requires Structure(s) && Touches(s, s', p, c, q, take) && x < |s.proc| && x != q && x != p
    ensures ProcOk(s', x)
  {
    hide Structure, LkOk, Locks, StateFits, Off, LkHeld;
    Actor(s, p);
    Seen(s, c, q, x);
    Seen(s, c, p, q);
  }

  lemma TouchKeepsTouched(s: State, s': State, p: nat, c: nat, q: nat, take: bool)
    requires Structure(s) && Touches(s, s', p, c, q, take)
    ensures ProcOk(s', q)
  {
    hide Structure, LkOk, Locks;
    Actor(s, p);
    Seen(s, c, p, q);
    if !take && q != p {
      WokenFits(s, c, q);
    }
  }

  lemma Seen(s: State, c: nat, q: nat, x: nat)
    requires Structure(s) && c < |s.cpu| && x < |s.proc| && q < |s.proc|
    ensures ProcOk(s, x) && ProcOk(s, q) && CpuOk(s, c)
  {
  }

  /** A sleeping process whose lock somebody else holds is off its CPU, so it may be made runnable. */
  lemma WokenFits(s: State, c: nat, q: nat)
    requires Structure(s) && q < |s.proc| && (s.proc[q].on.Some? ==> s.proc[q].lock != s.proc[q].on)
    ensures s.proc[q].state == SLEEPING ==> StateFits(s.proc[q].pc, RUNNABLE)
  {
    assert ProcOk(s, q);
    assert s.proc[q].on.Some? ==> CpuOk(s, s.proc[q].on.value);
  }

  lemma TouchKeepsCpu(s: State, s': State, p: nat, c: nat, q: nat, take: bool, x: nat)
    requires Structure(s) && Touches(s, s', p, c, q, take) && x < |s.cpu|
    ensures CpuOk(s', x)
  {
    hide Structure, LkOk, StateFits;
    Actor(s, p);
    Seen(s, c, p, q);
    Seen(s, x, p, q);
  }

  lemma TouchKeeps(s: State, s': State, p: nat, c: nat, q: nat, take: bool)
    requires Structure(s) && Touches(s, s', p, c, q, take)
    ensures Structure(s')
  {
    hide ProcOk, CpuOk, StateFits, OwnHeld, Off;
    forall x | 0 <= x < |s'.proc| ensures ProcOk(s', x) {
      if x == q { TouchKeepsTouched(s, s', p, c, q, take); }
      else if x == p { TouchKeepsActor(s, s', p, c, q, take); }
      else { TouchKeepsOther(s, s', p, c, q, take, x); }
    }
    forall x | 0 <= x < |s'.cpu| ensures CpuOk(s', x) {
      TouchKeepsCpu(s, s', p, c, q, take, x);
    }
    forall x | 0 <= x < |s'.lk| ensures LkOk(s', x) {
      assert LkOk(s, x);
    }
  }

  lemma SchedKeepsProc(s: State, e: Event, x: nat)
    requires Structure(s) && Enabled(s, e) && (e.SAcquire? || e.SSkip? || e.SDone?) && x < |s.proc|
    ensures ProcOk(NextSched(s, e), x)
  {
    hide Structure, StateFits, LkHeld, Off, LkOk, OwnHeld;
    Seen(s, e.c, x, x);
  }

  lemma SchedKeepsCpu(s: State, e: Event, x: nat)
    requires Structure(s) && Enabled(s, e) && (e.SAcquire? || e.SSkip? || e.SDone?) && x < |s.cpu|
    ensures CpuOk(NextSched(s, e), x)
  {
    hide Structure, StateFits, LkHeld, Off, LkOk, OwnHeld;
    SeenCpu(s, e.c, x);
  }

  lemma SeenCpu(s: State, c: nat, x: nat)
    requires Structure(s) && c < |s.cpu| && x < |s.cpu|
    ensures CpuOk(s, c) && CpuOk(s, x)
    ensures s.cpu[c].spc != Idle && s.cpu[c].spc.p < |s.proc| ==> ProcOk(s, s.cpu[c].spc.p)
  {
  }

  lemma SchedKeeps(s: State, e: Event)
    requires Structure(s) && Enabled(s, e) && (e.SAcquire? || e.SSkip? || e.SDone?)
    ensures Structure(NextSched(s, e))
  {
    hide ProcOk, CpuOk, LkHeld;
    var s' := NextSched(s, e);
    forall x | 0 <= x < |s'.proc| ensures ProcOk(s', x) {
      SchedKeepsProc(s, e, x);
    }
    forall x | 0 <= x < |s'.cpu| ensures CpuOk(s', x) {
      SchedKeepsCpu(s, e, x);
    }
    forall x | 0 <= x < |s'.lk| ensures LkOk(s', x) {
      assert LkOk(s, x);
    }
  }

  /** A runnable process whose lock the scheduler holds executes nowhere. */
  lemma RunnableIsOff(s: State, c: nat, p: nat)
    requires Structure(s) && c < |s.cpu| && s.cpu[c].spc == Got(p) && p < |s.proc| && s.proc[p].state == RUNNABLE
    ensures s.proc[p].on == None
  {
    assert ProcOk(s, p) && CpuOk(s, c);
    assert s.proc[p].on.Some? ==> CpuOk(s, s.proc[p].on.value);
  }

  lemma UnlockedIsOff(s: State, q: nat)
    requires Structure(s) && q < |s.proc| && s.proc[q].lock == None
    requires (s.proc[q].state == UNUSED || s.proc[q].state == ZOMBIE)
    ensures s.proc[q].on == None
  {
    assert ProcOk(s, q);
    assert s.proc[q].on.Some? ==> CpuOk(s, s.proc[q].on.value);
  }

  lemma RunKeepsProc(s: State, e: Event, x: nat)
    requires Structure(s) && Enabled(s, e) && e.SRun? && x < |s.proc|
    ensures ProcOk(NextSched(s, e), x)
  {
    hide Structure, LkOk, Locks;
    RunnableIsOff(s, e.c, s.cpu[e.c].spc.p);
    Seen(s, e.c, x, s.cpu[e.c].spc.p);
  }

  lemma RunKeepsCpu(s: State, e: Event, x: nat)
    requires Structure(s) && Enabled(s, e) && e.SRun? && x < |s.cpu|
    ensures CpuOk(NextSched(s, e), x)
  {
    hide Structure, LkOk;
    RunnableIsOff(s, e.c, s.cpu[e.c].spc.p);
    SeenCpu(s, e.c, x);
  }

  lemma RunKeeps(s: State, e: Event)
    requires Structure(s) && Enabled(s, e) && e.SRun?
    ensures Structure(NextSched(s, e))
  {
    hide ProcOk, StateFits, OwnHeld;
    var s' := NextSched(s, e);
    forall x | 0 <= x < |s'.proc| ensures ProcOk(s', x) {
      RunKeepsProc(s, e, x);
    }
    forall x | 0 <= x < |s'.cpu| ensures CpuOk(s', x) {
      RunKeepsCpu(s, e, x);
    }
    assert CpuOk(s, e.c);
    RunnableIsOff(s, e.c, s.cpu[e.c].spc.p);
    forall x | 0 <= x < |s'.lk| ensures LkOk(s', x) {
      assert LkOk(s, x);
      assert s.lk[x].Some? ==> CpuOk(s, s.lk[x].value);
    }
  }

  lemma SwitchKeepsProc(s: State, e: Event, x: nat)
    requires Structure(s) && Enabled(s, e) && e.Switch? && x < |s.proc|
    ensures ProcOk(NextSched(s, e), x)
  {
    hide Structure, LkOk, Locks;
    Actor(s, e.p);
    Seen(s, s.proc[e.p].on.value, x, e.p);
  }

  lemma SwitchKeepsCpu(s: State, e: Event, x: nat)
    requires Structure(s) && Enabled(s, e) && e.Switch? && x < |s.cpu|
    ensures CpuOk(NextSched(s, e), x)
  {
    hide Structure, LkOk, StateFits;
    Actor(s, e.p);
    Seen(s, x, e.p, e.p);
    SeenCpu(s, s.proc[e.p].on.value, x);
  }

  lemma SwitchKeeps(s: State, e: Event)
    requires Structure(s) && Enabled(s, e) && e.Switch?
    ensures Structure(NextSched(s, e))
  {
    hide CpuOk, StateFits, OwnHeld;
    var s' := NextSched(s, e);
    assert ProcOk(s, e.p);
    forall x | 0 <= x < |s'.proc| ensures ProcOk(s', x) {
      SwitchKeepsProc(s, e, x);
    }
    forall x | 0 <= x < |s'.cpu| ensures CpuOk(s', x) {
      SwitchKeepsCpu(s, e, x);
    }
    forall x | 0 <= x < |s'.lk| ensures LkOk(s', x) {
      assert LkOk(s, x);
    }
  }

  lemma TableKeepsProc(s: State, e: Event, x: nat)
    requires Structure(s) && Enabled(s, e) && OnTable(e) && x < |s.proc|
    ensures ProcOk(NextTable(s, e), x)
  {
    hide Structure, LkOk, Locks, CpuOk;
    UnlockedIsOff(s, e.q);
    Seen(s, s.proc[e.p].on.value, e.q, x);
  }

  lemma TableKeeps(s: State, e: Event)
    requires Structure(s) && Enabled(s, e) && OnTable(e)
    ensures Structure(NextTable(s, e))
  {
    hide StateFits, OwnHeld, Locks;
    var s', q := NextTable(s, e), e.q;
    UnlockedIsOff(s, q);
    forall x | 0 <= x < |s'.proc| ensures ProcOk(s', x) {
      TableKeepsProc(s, e, x);
    }
    forall x | 0 <= x < |s'.cpu| ensures CpuOk(s', x) {
      assert CpuOk(s, x);
    }
    forall x | 0 <= x < |s'.lk| ensures LkOk(s', x) {
      assert LkOk(s, x);
      assert s.lk[x].Some? ==> CpuOk(s, s.lk[x].value);
    }
  }

  lemma Unchanged(s: State, p: nat, c: nat)
    requires p < |s.proc| && c < |s.cpu|
    ensures s.proc[p := s.proc[p]] == s.proc && s.cpu[c := s.cpu[c].(noff := s.cpu[c].noff)] == s.cpu
  {
  }

  lemma AcquireIsLocal(s: State, e: Event)
    requires Structure(s) && Enabled(s, e) && e.AcquireLk?
    ensures Local(s, NextChannel(s, e), e.p, s.proc[e.p].on.value)
  {
    hide Structure, Holds, LkOk;
    Actor(s, e.p);
  }

  lemma ReleaseIsLocal(s: State, e: Event)
    requires Structure(s) && Enabled(s, e) && e.ReleaseLk?
    ensures Local(s, NextChannel(s, e), e.p, s.proc[e.p].on.value)
  {
    hide Structure, Holds, LkOk;
    Actor(s, e.p);
  }

  lemma SleepReleaseIsLocal(s: State, e: Event)
    requires Structure(s) && Enabled(s, e) && e.SleepRelease?
    ensures Local(s, NextChannel(s, e), e.p, s.proc[e.p].on.value)
  {
    hide Structure, Holds, LkOk;
    Actor(s, e.p);
  }

  /** What is known of a process that executes. */
  lemma Actor(s: State, p: nat)
    requires Structure(s) && p < |s.proc| && s.proc[p].on.Some?
    ensures s.proc[p].on.value < |s.cpu| && !Off(s.proc[p].pc) && StateFits(s.proc[p].pc, s.proc[p].state)
    ensures OwnHeld(s.proc[p].pc) ==> s.proc[p].lock == s.proc[p].on
    ensures s.proc[p].pc.Waking? ==> s.proc[p].pc.q <= |s.proc|
    ensures s.proc[p].pc.WakingLocked? ==> s.proc[p].pc.q != p
    ensures !OwnHeld(s.proc[p].pc) && !Busy(s.proc[p].pc) ==> s.proc[p].lock != s.proc[p].on
    ensures Busy(s.proc[p].pc) ==> s.proc[p].pc.q < |s.proc| && s.proc[s.proc[p].pc.q].lock == s.proc[p].on
  {
    assert ProcOk(s, p) && CpuOk(s, s.proc[p].on.value);
  }

  lemma ChannelMoveIsLocal(s: State, e: Event)
    requires Structure(s) && Enabled(s, e) && (e.Turn? || e.SetFalse? || e.SetTrue? || e.WakeSelf? || e.WakeDone?)
    ensures Local(s, NextChannel(s, e), e.p, s.proc[e.p].on.value)
  {
    hide Structure, Holds, LkOk, ProcOk, CpuOk;
    Actor(s, e.p);
    Unchanged(s, e.p, s.proc[e.p].on.value);
  }

  lemma OwnLockIsLocal(s: State, e: Event)
    requires Structure(s) && Enabled(s, e) && (e.SleepLock? || e.YieldLock? || e.ExitLock?)
    ensures Local(s, NextOwn(s, e), e.p, s.proc[e.p].on.value)
  {
    hide Structure, Holds, LkOk, ProcOk, CpuOk;
    Actor(s, e.p);
  }

  lemma SleepStateIsLocal(s: State, e: Event)
    requires Structure(s) && Enabled(s, e) && e.SleepState?
    ensures Local(s, NextOwn(s, e), e.p, s.proc[e.p].on.value)
  {
    hide Structure, Holds, LkOk;
    Actor(s, e.p);
    Unchanged(s, e.p, s.proc[e.p].on.value);
  }

  lemma OtherStateIsLocal(s: State, e: Event)
    requires Structure(s) && Enabled(s, e) && (e.YieldState? || e.ExitState?)
    ensures Local(s, NextOwn(s, e), e.p, s.proc[e.p].on.value)
  {
    hide Structure, Holds, LkOk, ProcOk, CpuOk;
    Actor(s, e.p);
    Unchanged(s, e.p, s.proc[e.p].on.value);
  }

  lemma ResumeIsLocal(s: State, e: Event)
    requires Structure(s) && Enabled(s, e) && e.Resume?
    ensures Local(s, NextOwn(s, e), e.p, s.proc[e.p].on.value)
  {
    hide Structure, Holds, LkOk;
    Actor(s, e.p);
  }

  function Visited(s: State, e: Event): nat
    requires OnOther(e) && e.p < |s.proc|
  {
    if e.KillLock? then e.q
    else if s.proc[e.p].pc.Waking? || s.proc[e.p].pc.WakingLocked? || s.proc[e.p].pc.KillLocked? then s.proc[e.p].pc.q
        else 0
  }

  lemma WakeTouches(s: State, e: Event)
    requires Structure(s) && Enabled(s, e) && (e.WakeLock? || e.WakeUnlock?)
    ensures Touches(s, NextOther(s, e), e.p, s.proc[e.p].on.value, Visited(s, e), e.WakeLock?)
  {
    hide Structure, Holds, LkOk, ProcOk, CpuOk;
    Actor(s, e.p);
  }

  lemma KillLockTouches(s: State, e: Event)
    requires Structure(s) && Enabled(s, e) && e.KillLock?
    ensures Touches(s, NextOther(s, e), e.p, s.proc[e.p].on.value, e.q, true)
  {
    hide Structure, Holds, LkOk, ProcOk, CpuOk;
    Actor(s, e.p);
  }

  lemma KillDoneTouches(s: State, e: Event)
    requires Structure(s) && Enabled(s, e) && e.KillDone?
    ensures Touches(s, NextOther(s, e), e.p, s.proc[e.p].on.value, s.proc[e.p].pc.q, false)
  {
    hide Structure, Holds, LkOk, ProcOk, CpuOk;
    Actor(s, e.p);
  }

  lemma OtherKeeps(s: State, e: Event)
    requires Structure(s) && Enabled(s, e) && OnOther(e)
    ensures Structure(NextOther(s, e))
  {
    hide Structure, NextOther, Touches;
    if e.WakeLock? || e.WakeUnlock? {
      WakeTouches(s, e);
      TouchKeeps(s, NextOther(s, e), e.p, s.proc[e.p].on.value, Visited(s, e), e.WakeLock?);
    } else {
      if e.KillLock? { KillLockTouches(s, e); } else { KillDoneTouches(s, e); }
      TouchKeeps(s, NextOther(s, e), e.p, s.proc[e.p].on.value, Visited(s, e), e.KillLock?);
    }
  }

  lemma StructureKept(s: State, e: Event)
    requires Structure(s) && Enabled(s, e)
    ensures Structure(Next(s, e))
  {
    hide Structure, NextChannel, NextOwn, NextOther, NextTable, NextSched, Local, Touches;
    if OnChannel(e) {
      if e.AcquireLk? { AcquireIsLocal(s, e); }
      else if e.ReleaseLk? { ReleaseIsLocal(s, e); }
      else if e.SleepRelease? { SleepReleaseIsLocal(s, e); }
      else { ChannelMoveIsLocal(s, e); }
      LocalKeeps(s, NextChannel(s, e), e.p, s.proc[e.p].on.value);
    } else if OnOwn(e) {
      if e.SleepLock? || e.YieldLock? || e.ExitLock? { OwnLockIsLocal(s, e); }
          else if e.Resume? { ResumeIsLocal(s, e); }
      else if e.SleepState? { SleepStateIsLocal(s, e); } else { OtherStateIsLocal(s, e); }
      LocalKeeps(s, NextOwn(s, e), e.p, s.proc[e.p].on.value);
    } else if OnOther(e) {
      OtherKeeps(s, e);
    } else if e.SRun? {
      RunKeeps(s, e);
    } else if e.Switch? {
      SwitchKeeps(s, e);
    } else if OnTable(e) {
      TableKeeps(s, e);
    } else {
      SchedKeeps(s, e);
    }
  }

  // ------------------------------------------------------------------- wakeups are not lost

  /** The process that holds a channel's lock. */
  lemma Holder(s: State, l: nat)
    requires Structure(s) && l < |s.lk| && s.lk[l].Some?
    ensures s.lk[l].value < |s.cpu| && s.cpu[s.lk[l].value].spc.Suspended?
    ensures var w := s.cpu[s.lk[l].value].spc.p;
            w < |s.proc| && s.proc[w].on == s.lk[l] && LkHeld(s.proc[w].pc) && Chan(s, s.proc[w].ch)
                && s.lockOf[s.proc[w].ch] == l
  {
    assert LkOk(s, l) && CpuOk(s, s.lk[l].value) && ProcOk(s, s.cpu[s.lk[l].value].spc.p);
  }

  lemma HolderIs(s: State, p: nat)
    requires Structure(s) && p < |s.proc| && LkHeld(s.proc[p].pc)
    ensures Chan(s, s.proc[p].ch) && s.proc[p].on.Some? && Lk(s, s.proc[p].ch) == s.proc[p].on
    ensures s.proc[p].on.value < |s.cpu| && s.cpu[s.proc[p].on.value].spc == Suspended(p)
  {
    assert ProcOk(s, p);
  }

  lemma ChannelLockWakes(s: State, e: Event, x: nat)
    requires Structure(s) && Enabled(s, e) && (e.ReleaseLk? || e.SleepRelease?) && x < |s.proc|
    requires WakeOk(s, x) && WakeOk(s, e.p)
    ensures WakeOk(NextChannel(s, e), x)
  {
    hide Structure, StateFits, OwnHeld, ProcOk, CpuOk, LkOk;
    Channel(s, x);
    HolderIs(s, e.p);
    if x != e.p { NotBoth(s, e.p, x); }
  }

  lemma AcquireWakes(s: State, e: Event, x: nat)
    requires Structure(s) && Enabled(s, e) && e.AcquireLk? && x < |s.proc| && WakeOk(s, x)
    ensures WakeOk(NextChannel(s, e), x)
  {
    hide Structure, StateFits, OwnHeld, ProcOk, CpuOk, LkOk;
    Channel(s, x);
  }

  lemma ChannelMoveWakes(s: State, e: Event, x: nat)
    requires Structure(s) && Enabled(s, e) && (e.Turn? || e.SetFalse? || e.SetTrue? || e.WakeSelf? || e.WakeDone?)
    requires x < |s.proc| && WakeOk(s, x)
    ensures WakeOk(NextChannel(s, e), x)
  {
    hide Structure, StateFits, OwnHeld;
    Channel(s, x);
    HolderIs(s, e.p);
    if x != e.p { NotBoth(s, e.p, x); }
  }

  /** Two processes do not both hold a channel's lock. */
  lemma NotBoth(s: State, p: nat, x: nat)
    requires Structure(s) && p < |s.proc| && x < |s.proc| && LkHeld(s.proc[p].pc) && p != x
    ensures Chan(s, s.proc[x].ch) && Chan(s, s.proc[p].ch)
    ensures LkHeld(s.proc[x].pc) ==> s.lockOf[s.proc[x].ch] != s.lockOf[s.proc[p].ch]
  {
    assert ProcOk(s, p) && ProcOk(s, x);
  }

  lemma SleepWakes(s: State, e: Event, x: nat)
    requires Structure(s) && Enabled(s, e) && (e.SleepLock? || e.SleepState?) && x < |s.proc| && WakeOk(s, x)
    ensures WakeOk(NextOwn(s, e), x)
  {
    hide Structure, StateFits, OwnHeld;
    Channel(s, x);
    if e.SleepLock? { HolderIs(s, e.p); }
  }

  /** Points outside sleep and wakeup. */
  predicate Plain(pc: Pc) {
    pc == Dead || pc == Free || pc == Reacquire || pc == YieldLocked || pc == YieldSet || pc == ExitLocked
        || pc == ExitSet || pc.In? || pc.KillLocked? || (pc.Out? && pc.why != Sleep)
  }

  ghost predicate SameWait(r: Proc, r': Proc) {
    && r'.ch == r.ch && (r'.pc == r.pc || (Plain(r.pc) && Plain(r'.pc)))
    && (r'.state == SLEEPING ==> r.state == SLEEPING)
  }

  /** A step outside sleep and wakeup: no lock, condition, sleeper or wakeup is concerned. */
  ghost predicate Calm(s: State, s': State) {
    && s'.lk == s.lk && s'.lockOf == s.lockOf && s'.cond == s.cond && |s'.proc| == |s.proc| && |s'.cpu| == |s.cpu|
    && (forall c :: 0 <= c < |s.cpu| ==> s'.cpu[c].spc == s.cpu[c].spc)
    && (forall x :: 0 <= x < |s.proc| ==> SameWait(s.proc[x], s'.proc[x]))
  }

  lemma CalmWakes(s: State, s': State, x: nat)
    requires Calm(s, s') && x < |s.proc| && WakeOk(s, x)
    ensures WakeOk(s', x)
  {
    assert SameWait(s.proc[x], s'.proc[x]);
    if Chan(s, s.proc[x].ch) && Coming(s, s.proc[x].ch, x) {
      var w := s.cpu[Lk(s, s.proc[x].ch).value].spc.p;
      assert SameWait(s.proc[w], s'.proc[w]);
    }
  }

  lemma OwnLockIsCalm(s: State, e: Event)
    requires Enabled(s, e) && (e.YieldLock? || e.ExitLock? || e.Resume?)
    ensures Calm(s, NextOwn(s, e))
  {
  }

  lemma OwnStateIsCalm(s: State, e: Event)
    requires Enabled(s, e) && (e.YieldState? || e.ExitState?)
    ensures Calm(s, NextOwn(s, e))
  {
  }

  lemma WakeLockWakes(s: State, e: Event, x: nat)
    requires Structure(s) && Enabled(s, e) && e.WakeLock? && x < |s.proc| && WakeOk(s, x)
    ensures WakeOk(NextOther(s, e), x)
  {
    hide Structure, StateFits, OwnHeld, ProcOk, CpuOk, LkOk;
    Channel(s, x);
    HolderIs(s, e.p);
  }

  lemma WakeUnlockWakes(s: State, e: Event, x: nat)
    requires Structure(s) && Enabled(s, e) && e.WakeUnlock? && x < |s.proc| && WakeOk(s, x)
    ensures WakeOk(NextOther(s, e), x)
  {
    hide Structure, StateFits, OwnHeld;
    Channel(s, x);
    Actor(s, e.p);
    HolderIs(s, e.p);
    VisitedIsOut(s, e.p, s.proc[e.p].pc.q);
  }

  lemma KillIsCalm(s: State, e: Event)
    requires Enabled(s, e) && (e.KillLock? || e.KillDone?)
    ensures Calm(s, NextOther(s, e))
  {
  }

  /** The process whose lock wakeup holds is not on its way to sleep. */
  lemma VisitedIsOut(s: State, p: nat, q: nat)
    requires Structure(s) && p < |s.proc| && q < |s.proc| && s.proc[p].pc == WakingLocked(q) && s.proc[p].on.Some?
    ensures s.proc[q].pc != SleepReleased && s.proc[q].pc != SleepSet
  {
    Actor(s, p);
    assert ProcOk(s, q) && ProcOk(s, p);
    assert s.proc[q].on.Some? ==> CpuOk(s, s.proc[q].on.value);
  }

  lemma SchedWakes(s: State, e: Event, x: nat)
    requires Structure(s) && Enabled(s, e) && (e.SAcquire? || e.SSkip? || e.SDone?) && x < |s.proc| && WakeOk(s, x)
    ensures WakeOk(NextSched(s, e), x)
  {
    hide Structure, OwnHeld, StateFits;
    Channel(s, x);
  }

  lemma SwtchWakes(s: State, e: Event, x: nat)
    requires Structure(s) && Enabled(s, e) && (e.SRun? || e.Switch?) && x < |s.proc| && WakeOk(s, x)
    ensures WakeOk(NextSched(s, e), x)
  {
    hide Structure, OwnHeld, CpuOk;
    Channel(s, x);
    if e.Switch? { Seen(s, s.proc[e.p].on.value, e.p, x); }
    else { RunnableIsOff(s, e.c, s.cpu[e.c].spc.p); Seen(s, e.c, s.cpu[e.c].spc.p, x); }
  }

  lemma TableIsCalm(s: State, e: Event)
    requires Structure(s) && Enabled(s, e) && OnTable(e)
    ensures Calm(s, NextTable(s, e))
  {
    hide Structure, OwnHeld;
    UnlockedIsOff(s, e.q);
    Seen(s, s.proc[e.p].on.value, e.q, e.p);
  }

  /** Every step keeps the invariant. */
  lemma StepKeeps(s: State, e: Event)
    requires Inv(s) && Enabled(s, e)
    ensures Inv(Next(s, e))
  {
    hide WakeOk, ProcOk, CpuOk, LkOk, NextChannel, NextOwn, NextOther, NextTable, NextSched, Calm;
    assert Structure(s);
    StructureKept(s, e);
    var s' := Next(s, e);
    SameSize(s, e);
    forall x | 0 <= x < |s'.proc| ensures WakeOk(s', x) {
      if e.AcquireLk? { AcquireWakes(s, e, x); }
      else if e.ReleaseLk? || e.SleepRelease? {
        InTable(s, e);
        ChannelLockWakes(s, e, x);
      }
      else if OnChannel(e) { ChannelMoveWakes(s, e, x); }
      else if e.SleepLock? || e.SleepState? { SleepWakes(s, e, x); }
      else if OnOwn(e) {
        if e.YieldState? || e.ExitState? { OwnStateIsCalm(s, e); } else { OwnLockIsCalm(s, e); }
        CalmWakes(s, s', x);
      }
      else if e.WakeLock? { WakeLockWakes(s, e, x); }
      else if e.WakeUnlock? { WakeUnlockWakes(s, e, x); }
      else if OnOther(e) { KillIsCalm(s, e); CalmWakes(s, s', x); }
      else if OnTable(e) { TableIsCalm(s, e); CalmWakes(s, s', x); }
      else if e.SRun? || e.Switch? { SwtchWakes(s, e, x); }
      else { SchedWakes(s, e, x); }
    }
  }

  lemma InTable(s: State, e: Event)
    requires Enabled(s, e) && OnChannel(e)
    ensures e.p < |s.proc|
  {
  }

  lemma SameSize(s: State, e: Event)
    requires Enabled(s, e)
    ensures |Next(s, e).proc| == |s.proc|
  {
    hide Enabled, NextChannel, NextOwn, NextOther, NextTable, NextSched;
  }

  // ------------------------------------------------------------------------ whole runs

  /** Before the first step: no process executes, every lock is free. */
  ghost predicate Boot(s: State) {
    && |s.lockOf| == |s.cond| && (forall l :: 0 <= l < |s.lk| ==> s.lk[l] == None)
    && (forall c :: 0 <= c < |s.cpu| ==> s.cpu[c] == Cpu(Idle, None, 0))
    && (forall p :: 0 <= p < |s.proc| ==> Asleep(s.proc[p]) && Chan(s, s.proc[p].ch))
  }

  /** Unused, or waiting for its first time slice. */
  predicate Asleep(r: Proc) {
    r.lock == None && r.on == None && ((r.state == UNUSED && r.pc == Dead)
        || (r.state == RUNNABLE && r.pc == Out(Fork)))
  }

  /** The states of a run of these events, each enabled when it happens. */
  ghost predicate Run(s: State, es: seq<Event>, s': State)
    decreases |es|
  {
    if es == [] then s' == s else Enabled(s, es[0]) && Run(Next(s, es[0]), es[1..], s')
  }

  lemma {:induction false} RunKeepsInv(s: State, es: seq<Event>, s': State)
    requires Inv(s) && Run(s, es, s')
    ensures Inv(s')
    decreases |es|
  {
    if es != [] {
      StepKeeps(s, es[0]);
      RunKeepsInv(Next(s, es[0]), es[1..], s');
    }
  }

  /** Two CPUs execute the same process. */
  ghost predicate Executes(s: State, c1: nat, c2: nat)
    requires c1 < |s.cpu| && c2 < |s.cpu|
  {
    s.cpu[c1].spc.Suspended? && s.cpu[c2].spc == s.cpu[c1].spc
  }

  /** Over every interleaving from boot: single execution, no panic in lock hand-over, no lost wakeup. */
  lemma Safety(s: State, es: seq<Event>, s': State)
    requires Boot(s) && Run(s, es, s')
    ensures Inv(s')
    ensures forall e :: Enabled(s', e) ==> Checks(s', e)
    ensures forall e, c, held :: c >= 0 && Acquiring(s', e, c, held) ==> held != Some(c)
    ensures forall p :: 0 <= p < |s'.proc| && s'.proc[p].state == SLEEPING ==>
              Chan(s', s'.proc[p].ch) && (Lk(s', s'.proc[p].ch) == None ==> !s'.cond[s'.proc[p].ch])
    ensures forall c1, c2 :: 0 <= c1 < |s'.cpu| && 0 <= c2 < |s'.cpu| && Executes(s', c1, c2) ==> c1 == c2
  {
    BootInv(s);
    RunKeepsInv(s, es, s');
    forall e | Enabled(s', e) ensures Checks(s', e) { NoPanic(s', e); }
    forall e, c, held | c >= 0 && Acquiring(s', e, c, held) ensures held != Some(c) {
      NoSelfDeadlock(s', e, c, held);
    }
    forall p | 0 <= p < |s'.proc| && s'.proc[p].state == SLEEPING
      ensures Chan(s', s'.proc[p].ch) && (Lk(s', s'.proc[p].ch) == None ==> !s'.cond[s'.proc[p].ch])
    {
      NoLostWakeup(s', p);
    }
    forall c1, c2 | 0 <= c1 < |s'.cpu| && 0 <= c2 < |s'.cpu| && Executes(s', c1, c2) ensures c1 == c2 {
      assert CpuOk(s', c1);
      SingleExecution(s', s'.cpu[c1].spc.p, c1, c2);
    }
  }

  /** Inside sleep: from taking its own lock to the end of taking its channel's lock again. */
  predicate InSleep(pc: Pc) {
    pc == SleepLocked || pc == SleepReleased || pc == SleepSet || pc == Out(Sleep) || pc == In(Sleep) || pc == Reacquire
  }

  /** A process leaves sleep only by taking the lock of the channel it slept on, which it then holds;
      it goes into sleep only with that lock. */
  ghost predicate SleepStep(s: State, e: Event, s': State, p: nat)
    requires p < |s.proc| == |s'.proc|
  {
    && (InSleep(s.proc[p].pc) ==> s'.proc[p].ch == s.proc[p].ch)
    && (InSleep(s.proc[p].pc) && !InSleep(s'.proc[p].pc) ==>
          && e == AcquireLk(p, s.proc[p].ch) && Chan(s', s.proc[p].ch)
          && Lk(s', s.proc[p].ch) == s.proc[p].on != None)
    && (!InSleep(s.proc[p].pc) && InSleep(s'.proc[p].pc) ==>
          Chan(s, s.proc[p].ch) && Lk(s, s.proc[p].ch) == s.proc[p].on != None && !s.cond[s.proc[p].ch])
  }

  lemma ChannelSleeps(s: State, e: Event, p: nat)
    requires Enabled(s, e) && OnChannel(e) && p < |s.proc|
    ensures SleepStep(s, e, NextChannel(s, e), p)
  {
  }

  lemma OwnSleeps(s: State, e: Event, p: nat)
    requires Inv(s) && Enabled(s, e) && OnOwn(e) && p < |s.proc|
    ensures SleepStep(s, e, NextOwn(s, e), p)
  {
    hide Inv, Holds;
    ProcIs(s, p);
  }

  lemma WakeupSleeps(s: State, e: Event, p: nat)
    requires Enabled(s, e) && (e.WakeLock? || e.WakeUnlock?) && p < |s.proc|
    ensures SleepStep(s, e, NextOther(s, e), p)
  {
    hide Chan;
  }

  lemma KillSleeps(s: State, e: Event, p: nat)
    requires Enabled(s, e) && (e.KillLock? || e.KillDone?) && p < |s.proc|
    ensures SleepStep(s, e, NextOther(s, e), p)
  {
    hide Chan;
  }

  lemma TableSleeps(s: State, e: Event, p: nat)
    requires Inv(s) && Enabled(s, e) && OnTable(e) && p < |s.proc|
    ensures SleepStep(s, e, NextTable(s, e), p)
  {
    hide Inv, Holds;
    ProcIs(s, p);
    OffTable(s, e.q);
  }

  lemma SchedSleeps(s: State, e: Event, p: nat)
    requires Inv(s) && Enabled(s, e) && OnSched(e) && p < |s.proc|
    ensures SleepStep(s, e, NextSched(s, e), p)
  {
    hide Inv, Holds;
    ProcIs(s, p);
    if e.SRun? { CpuIs(s, e.c); ProcIs(s, s.cpu[e.c].spc.p); }
  }

  lemma SleepHoldsStep(s: State, e: Event, p: nat)
    requires Inv(s) && Enabled(s, e) && p < |s.proc|
    ensures |Next(s, e).proc| == |s.proc| && SleepStep(s, e, Next(s, e), p)
  {
    hide Inv, Enabled, SleepStep, NextChannel, NextOwn, NextOther, NextTable, NextSched;
    SameSize(s, e);
    if OnChannel(e) { ChannelSleeps(s, e, p); }
    else if OnOwn(e) { OwnSleeps(s, e, p); }
    else if e.WakeLock? || e.WakeUnlock? { WakeupSleeps(s, e, p); }
    else if e.KillLock? || e.KillDone? { KillSleeps(s, e, p); }
    else if OnTable(e) { TableSleeps(s, e, p); }
    else { SchedSleeps(s, e, p); }
  }

  lemma ProcIs(s: State, p: nat)
    requires Inv(s) && p < |s.proc|
    ensures ProcOk(s, p)
  {
  }

  lemma OffTable(s: State, q: nat)
    requires Inv(s) && q < |s.proc| && s.proc[q].lock == None
    requires s.proc[q].state == UNUSED || s.proc[q].state == ZOMBIE
    ensures !InSleep(s.proc[q].pc)
  {
    assert ProcOk(s, q);
  }

  /** Over any part of a run: whoever is inside sleep at its start and outside at its end has taken
      the lock of its channel on the way. */
  lemma {:induction false} SleepHolds(s: State, es: seq<Event>, s': State, p: nat)
    requires Inv(s) && Run(s, es, s') && p < |s.proc| && InSleep(s.proc[p].pc)
    ensures |s'.proc| == |s.proc| && (!InSleep(s'.proc[p].pc) ==> AcquireLk(p, s.proc[p].ch) in es)
    decreases |es|
  {
    hide Inv, InSleep;
    if es != [] {
      SleepHoldsStep(s, es[0], p);
      StepKeeps(s, es[0]);
      var s1 := Next(s, es[0]);
      if InSleep(s1.proc[p].pc) {
        SleepHolds(s1, es[1..], s', p);
      } else {
        RunSize(s1, es[1..], s');
      }
    }
  }

  /** The step is wakeup on x's channel, or kill, at x. */
  ghost predicate Rouses(s: State, e: Event, x: nat) {
    && (e.WakeUnlock? || e.KillDone?) && e.p < |s.proc| && x < |s.proc|
    && (s.proc[e.p].pc == KillLocked(x) || (s.proc[e.p].pc == WakingLocked(x) && s.proc[e.p].ch == s.proc[x].ch))
  }

  /** The life of a table entry: what p->state can become, and by whose step. */
  ghost predicate LifeStep(s: State, e: Event, x: nat, st: PState)
    requires x < |s.proc|
  {
    match s.proc[x].state
    case UNUSED => st == if e.NewProc? && e.q == x then RUNNABLE else UNUSED
    case RUNNABLE => st == if e.SRun? && e.c < |s.cpu| && s.cpu[e.c].spc == Got(x) then RUNNING else RUNNABLE
    case RUNNING => st == if e == YieldState(x) then RUNNABLE else if e == SleepState(x) then SLEEPING
        else if e == ExitState(x) then ZOMBIE else RUNNING
    case SLEEPING => st == if Rouses(s, e, x) then RUNNABLE else SLEEPING
    case ZOMBIE => st == if e.Reap? && e.q == x then UNUSED else ZOMBIE
  }

  lemma ChannelLives(s: State, e: Event, x: nat)
    requires Enabled(s, e) && OnChannel(e) && x < |s.proc|
    ensures LifeStep(s, e, x, NextChannel(s, e).proc[x].state)
  {
  }

  lemma TableLives(s: State, e: Event, x: nat)
    requires Enabled(s, e) && OnTable(e) && x < |s.proc|
    ensures LifeStep(s, e, x, NextTable(s, e).proc[x].state)
  {
  }

  lemma OwnLives(s: State, e: Event, x: nat)
    requires Inv(s) && Enabled(s, e) && OnOwn(e) && x < |s.proc|
    ensures LifeStep(s, e, x, NextOwn(s, e).proc[x].state)
  {
    hide Inv, Holds;
    ProcIs(s, x);
  }

  lemma OtherLives(s: State, e: Event, x: nat)
    requires Inv(s) && Enabled(s, e) && OnOther(e) && x < |s.proc|
    ensures LifeStep(s, e, x, NextOther(s, e).proc[x].state)
  {
    hide Inv, Holds;
    ProcIs(s, e.p);
  }

  lemma SchedLives(s: State, e: Event, x: nat)
    requires Inv(s) && Enabled(s, e) && OnSched(e) && x < |s.proc|
    ensures LifeStep(s, e, x, NextSched(s, e).proc[x].state)
  {
    hide Inv, Holds, ProcOk;
  }

  lemma LifeCycle(s: State, e: Event, x: nat)
    requires Inv(s) && Enabled(s, e) && x < |s.proc|
    ensures |Next(s, e).proc| == |s.proc| && LifeStep(s, e, x, Next(s, e).proc[x].state)
  {
    hide Inv, Enabled, LifeStep, NextChannel, NextOwn, NextOther, NextTable, NextSched;
    SameSize(s, e);
    if OnChannel(e) { ChannelLives(s, e, x); }
    else if OnTable(e) { TableLives(s, e, x); }
    else if OnOwn(e) { OwnLives(s, e, x); }
    else if OnOther(e) { OtherLives(s, e, x); }
    else { SchedLives(s, e, x); }
  }

  /** Some step of the run rouses x. */
  ghost predicate Roused(s: State, es: seq<Event>, x: nat)
    decreases |es|
  {
    es != [] && Enabled(s, es[0]) && (Rouses(s, es[0], x) || Roused(Next(s, es[0]), es[1..], x))
  }

  /** Over any run: a sleeper is still asleep, on the same channel, until a wakeup on that channel or a
      kill reaches it. */
  lemma {:induction false} SleepsOn(s: State, es: seq<Event>, s': State, x: nat)
    requires Inv(s) && Run(s, es, s') && x < |s.proc| && s.proc[x].state == SLEEPING && !Roused(s, es, x)
    ensures |s'.proc| == |s.proc| && s'.proc[x].state == SLEEPING && s'.proc[x].ch == s.proc[x].ch
    decreases |es|
  {
    hide Inv, Enabled, Rouses, InSleep;
    if es != [] {
      LifeCycle(s, es[0], x);
      SleepHoldsStep(s, es[0], x);
      AsleepIn(s, x);
      StepKeeps(s, es[0]);
      SleepsOn(Next(s, es[0]), es[1..], s', x);
    }
  }

  lemma AsleepIn(s: State, x: nat)
    requires Inv(s) && x < |s.proc| && s.proc[x].state == SLEEPING
    ensures InSleep(s.proc[x].pc)
  {
    assert ProcOk(s, x);
  }

  /** wakeup misses nobody: of the processes it has passed none is asleep on its channel or on the way
      there, although they were free to go to sleep behind its back. */
  lemma WakeupReaches(s: State, p: nat, x: nat)
    requires Inv(s) && p < |s.proc| && s.proc[p].pc.Waking? && x < s.proc[p].pc.q && x < |s.proc|
    ensures s.proc[x].ch == s.proc[p].ch ==> !Waits(s, x) && s.proc[x].state != SLEEPING
  {
    assert ProcOk(s, p) && WakeOk(s, p) && ProcOk(s, x) && WakeOk(s, x);
    assert CpuOk(s, s.proc[p].on.value);
  }

  lemma {:induction false} RunSize(s: State, es: seq<Event>, s': State)
    requires Run(s, es, s')
    ensures |s'.proc| == |s.proc|
    decreases |es|
  {
    if es != [] {
      SameSize(s, es[0]);
      RunSize(Next(s, es[0]), es[1..], s');
    }
  }

  lemma BootInv(s: State)
    requires Boot(s)
    ensures Inv(s)
  {
  }

  lemma Channel(s: State, x: nat)
    requires Structure(s) && x < |s.proc|
    ensures |s.lockOf| == |s.cond| && Chan(s, s.proc[x].ch)
    ensures Lk(s, s.proc[x].ch).Some? ==>
              && Lk(s, s.proc[x].ch).value < |s.cpu| && s.cpu[Lk(s, s.proc[x].ch).value].spc.Suspended?
              && var w := s.cpu[Lk(s, s.proc[x].ch).value].spc.p;
                 w < |s.proc| && s.proc[w].on == Lk(s, s.proc[x].ch) && LkHeld(s.proc[w].pc)
                     && Chan(s, s.proc[w].ch) && s.lockOf[s.proc[w].ch] == s.lockOf[s.proc[x].ch]
  {
    assert ProcOk(s, x);
    if Lk(s, s.proc[x].ch).Some? { Holder(s, s.lockOf[s.proc[x].ch]); }
  }
}
