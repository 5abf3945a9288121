/**
 fork, exit, reparent and wait (kernel/proc.c) as steps under wait_lock. Sleeping on a
 channel and giving up wait_lock is one step, as sleep promises.
 */
module ExitWait {
  import opened Common

  /** LIVE stands for RUNNABLE, RUNNING and sleeping on other channels, ASLEEP for sleeping in wait. */
  datatype PS = UNUSED | USED | LIVE | ASLEEP | ZOMBIE

  datatype Pc =
    | Run
    | Alloced(np: nat)                 // fork has a new table entry
    | Adopting(np: nat)                // holds wait_lock, np->parent is set
    | Adopted(np: nat)                 // wait_lock released, np not runnable yet
    | Exiting(k: nat)                  // in reparent, next entry k
    | ExitWake(k: nat)                 // in reparent, entry k given to init, about to wake it
    | Notified                         // in exit, has woken its parent
    | Scan(k: nat, kids: bool)         // in wait, next entry k
    | Rescan                           // in wait, back from sleep or about to be
    | Gone

  /** id tells incarnations of a table entry apart; off: has left its CPU for good. */
  datatype Proc = Proc(st: PS, parent: Option<nat>, pc: Pc, off: bool, id: nat, maker: nat)

  datatype Reaping = Reaping(id: nat, reaper: nat)

  /** lock: who holds wait_lock; home: the table entry of every incarnation so far. */
  datatype State = State(proc: seq<Proc>, lock: Option<nat>, init: nat, home: seq<nat>, reaped: seq<Reaping>)

  datatype Event =
    | Alloc(p: nat, np: nat) | ForkLock(p: nat) | ForkUnlock(p: nat) | ForkDone(p: nat) | ForkFail(p: nat)
    | ExitLock(p: nat) | Reparent(p: nat) | WakeInit(p: nat) | Notify(p: nat) | Die(p: nat) | Leave(p: nat)
    | WaitLock(p: nat) | Look(p: nat) | Copyfail(p: nat) | Return(p: nat, killed: bool) | Sleep(p: nat) | Kill(p: nat)

  ghost predicate At(s: State, p: nat) {
    p < |s.proc| && s.proc[p].st == LIVE
  }

  ghost predicate Enabled(s: State, e: Event) {
    if e.Leave? then e.p < |s.proc| && s.proc[e.p].st == ZOMBIE
    else if e.Kill? then e.p < |s.proc|
    else
      && At(s, e.p)
      && var pc := s.proc[e.p].pc;
         match e
         case Alloc(p, np) => pc == Run && np < |s.proc| && s.proc[np].st == UNUSED
         case ForkLock(p) => pc.Alloced? && pc.np < |s.proc| && s.lock == None
         case ForkUnlock(p) => pc.Adopting?
         case ForkDone(p) => pc.Adopted? && pc.np < |s.proc|
         case ForkFail(p) => pc.Alloced? && pc.np < |s.proc|
         case ExitLock(p) => pc == Run && p != s.init && s.lock == None
         case Reparent(p) => pc.Exiting? && pc.k < |s.proc| && s.init < |s.proc|
         case WakeInit(p) => pc.ExitWake? && s.init < |s.proc|
         case Notify(p) => pc == Exiting(|s.proc|)
         case Die(p) => pc == Notified
         case WaitLock(p) => (pc == Run || pc == Rescan) && s.lock == None
         // wait takes the child's lock first; Sched.ZombieIsOff: a zombie whose lock is free has left its CPU
         case Look(p) => pc.Scan? && pc.k < |s.proc|
             && (s.proc[pc.k].parent == Some(p) && s.proc[pc.k].st == ZOMBIE ==> s.proc[pc.k].off)
         case Copyfail(p) => pc.Scan? && pc.k < |s.proc| && s.proc[pc.k].parent == Some(p)
             && s.proc[pc.k].st == ZOMBIE && s.proc[pc.k].off
         case Return(p, killed) => pc.Scan? && pc.k == |s.proc| && (!pc.kids || killed)
         case Sleep(p) => pc.Scan? && pc.k == |s.proc| && pc.kids
  }

  function Put(s: State, p: nat, r: Proc): State
    requires p < |s.proc|
  {
    s.(proc := s.proc[p := r])
  }

  function Go(s: State, p: nat, pc: Pc): State
    requires p < |s.proc|
  {
    Put(s, p, s.proc[p].(pc := pc))
  }

  /** wakeup(chan) where chan is the address of entry q: only q itself sleeps there, in wait. */
  function Wakeup(s: State, q: nat): State {
    if q < |s.proc| && s.proc[q].st == ASLEEP then Put(s, q, s.proc[q].(st := LIVE)) else s
  }

  /** freeproc */
  function Freed(r: Proc): Proc {
    r.(st := UNUSED, parent := None, pc := Gone, off := false)
  }

  predicate InFork(e: Event) {
    e.Alloc? || e.ForkLock? || e.ForkUnlock? || e.ForkDone? || e.ForkFail?
  }

  ghost function NextFork(s: State, e: Event): State
    requires Enabled(s, e) && InFork(e)
  {
    var p := e.p;
    var pc := s.proc[p].pc;
    match e
    case Alloc(_, np) => Go(Put(s, np, Proc(USED, None, Gone, false, |s.home|, p)), p,
        Alloced(np)).(home := s.home + [np])
    case ForkLock(_) => Go(Put(s, pc.np, s.proc[pc.np].(parent := Some(p))), p, Adopting(pc.np)).(lock := Some(p))
    case ForkUnlock(_) => Go(s, p, Adopted(pc.np)).(lock := None)
    case ForkDone(_) => Go(Put(s, pc.np, s.proc[pc.np].(st := LIVE, pc := Run)), p, Run)
    case ForkFail(_) => Go(Put(s, pc.np, Freed(s.proc[pc.np])), p, Run)
  }

  predicate InExit(e: Event) {
    e.ExitLock? || e.Reparent? || e.WakeInit? || e.Notify? || e.Die? || e.Leave?
  }

  ghost function NextExit(s: State, e: Event): State
    requires Enabled(s, e) && InExit(e)
  {
    var p := e.p;
    var pc := s.proc[p].pc;
    match e
    case ExitLock(_) => Go(s, p, Exiting(0)).(lock := Some(p))
    case Reparent(_) =>
      if s.proc[pc.k].parent == Some(p) then
        var s1 := Go(s, p, ExitWake(pc.k));
        Put(s1, pc.k, s1.proc[pc.k].(parent := Some(s.init)))
      else Go(s, p, Exiting(pc.k + 1))
    case WakeInit(_) => Wakeup(Go(s, p, Exiting(pc.k + 1)), s.init)
    case Notify(_) => Go(if s.proc[p].parent.Some? then Wakeup(s, s.proc[p].parent.value) else s, p, Notified)
    case Die(_) => Put(s, p, s.proc[p].(st := ZOMBIE, pc := Gone, off := false)).(lock := None)
    case Leave(_) => Put(s, p, s.proc[p].(off := true))
  }

  predicate InWait(e: Event) {
    e.WaitLock? || e.Look? || e.Copyfail? || e.Return? || e.Sleep? || e.Kill?
  }

  ghost function NextWait(s: State, e: Event): State
    requires Enabled(s, e) && InWait(e)
  {
    var p := e.p;
    var pc := s.proc[p].pc;
    match e
    case WaitLock(_) => Go(s, p, Scan(0, false)).(lock := Some(p))
    case Look(_) =>
      var k := pc.k;
      if s.proc[k].parent != Some(p) then Go(s, p, Scan(k + 1, pc.kids))
      else if s.proc[k].st != ZOMBIE then Go(s, p, Scan(k + 1, true))
      else Put(Go(s, p, Run), k, Freed(s.proc[k])).(lock := None,
          reaped := s.reaped + [Reaping(s.proc[k].id, s.proc[p].id)])
    case Copyfail(_) => Go(s, p, Run).(lock := None)
    case Return(_, _) => Go(s, p, Run).(lock := None)
    case Sleep(_) => Put(s, p, s.proc[p].(pc := Rescan, st := ASLEEP)).(lock := None)
    case Kill(_) => Wakeup(s, p)
  }

  /** kwait finds a zombie child. */
  ghost predicate Reaps(s: State, e: Event)
    requires Enabled(s, e) && e.Look?
  {
    var k := s.proc[e.p].pc.k;
    s.proc[k].parent == Some(e.p) && s.proc[k].st == ZOMBIE
  }

  /** reparent finds a child. */
  ghost predicate Adopts(s: State, e: Event)
    requires Enabled(s, e) && e.Reparent?
  {
    s.proc[s.proc[e.p].pc.k].parent == Some(e.p)
  }

  ghost function Next(s: State, e: Event): State
    requires Enabled(s, e)
  {
    if InFork(e) then NextFork(s, e) else if InExit(e) then NextExit(s, e) else NextWait(s, e)
  }

  // ------------------------------------------------------------------------- invariant

  predicate HasLock(pc: Pc) {
    pc.Adopting? || pc.Exiting? || pc.ExitWake? || pc == Notified || pc.Scan?
  }

  predicate Alive(st: PS) {
    st == LIVE || st == ASLEEP
  }

  /** The parent is somebody who can still wait. */
  ghost predicate ParentOk(s: State, p: nat)
    requires p < |s.proc|
  {
    match s.proc[p].st
    case UNUSED => s.proc[p].parent == None
    case USED =>
      && s.proc[p].maker < |s.proc| && s.proc[s.proc[p].maker].st == LIVE
      && var pc := s.proc[s.proc[p].maker].pc;
         if s.proc[p].parent == None then pc == Alloced(p) else s.proc[p].parent == Some(s.proc[p].maker) && (pc == Adopting(p) || pc == Adopted(p))
    case _ =>
      p == s.init || (s.proc[p].parent.Some? && s.proc[p].parent.value < |s.proc|
          && Alive(s.proc[s.proc[p].parent.value].st))
  }

  /** No child at a position below k. */
  ghost predicate NoKids(s: State, p: nat, k: nat) {
    forall x :: 0 <= x < k && x < |s.proc| ==> s.proc[x].parent != Some(p)
  }

  /** No zombie child at a position below k, and `kids` tells whether there is a child. */
  ghost predicate Scanned(s: State, p: nat, k: nat, kids: bool) {
    && (forall x :: 0 <= x < k && x < |s.proc| && s.proc[x].parent == Some(p) ==> s.proc[x].st != ZOMBIE && kids)
  }

  /** Who holds wait_lock, and whom a forking process has made. */
  ghost predicate PcLocal(s: State, p: nat)
    requires p < |s.proc|
  {
    var r := s.proc[p];
    && (HasLock(r.pc) ==> s.lock == Some(p))
    && (!r.pc.Gone? ==> Alive(r.st)) && (r.pc.Gone? ==> !Alive(r.st)) && (r.st == ASLEEP ==> r.pc == Rescan)
    && match r.pc
       case Alloced(np) => np < |s.proc| && s.proc[np].st == USED && s.proc[np].maker == p && s.proc[np].parent == None
       case Adopting(np) => np < |s.proc| && s.proc[np].st == USED && s.proc[np].maker == p
           && s.proc[np].parent == Some(p)
       case Adopted(np) => np < |s.proc| && s.proc[np].st == USED && s.proc[np].maker == p
           && s.proc[np].parent == Some(p)
       case _ => true
  }

  /** How far a scan of the table has come. */
  ghost predicate PcScan(s: State, p: nat)
    requires p < |s.proc|
  {
    var r := s.proc[p];
    match r.pc
    case Exiting(k) => p != s.init && k <= |s.proc| && NoKids(s, p, k)
    case ExitWake(k) => p != s.init && k < |s.proc| && NoKids(s, p, k + 1) && s.proc[k].parent == Some(s.init)
    case Notified => p != s.init && NoKids(s, p, |s.proc|)
        && (r.parent.Some? && r.parent.value < |s.proc| ==> s.proc[r.parent.value].st == LIVE)
    case Scan(k, kids) => k <= |s.proc| && Scanned(s, p, k, kids)
    case _ => true
  }

  ghost predicate PcOk(s: State, p: nat)
    requires p < |s.proc|
  {
    PcLocal(s, p) && PcScan(s, p)
  }

  /** A wait that counts on a child has seen one. */
  ghost predicate KidOk(s: State, p: nat)
    requires p < |s.proc|
  {
    s.proc[p].pc.Scan? && s.proc[p].pc.kids ==> exists x :: 0 <= x < |s.proc| && s.proc[x].parent == Some(p)
  }

  /** Entry k is about to be announced to init, which it was just given to. */
  ghost predicate Announced(s: State, q: nat, k: nat) {
    q == s.init && s.lock.Some? && s.lock.value < |s.proc| && s.proc[s.lock.value].pc == ExitWake(k)
  }

  /** A sleeping parent has no zombie child, except on the way to being woken. */
  ghost predicate WakeOk(s: State, k: nat)
    requires k < |s.proc|
  {
    s.proc[k].st == ZOMBIE && s.proc[k].parent.Some? && s.proc[k].parent.value < |s.proc| ==>
      s.proc[s.proc[k].parent.value].st == LIVE || Announced(s, s.proc[k].parent.value, k)
  }

  /** An incarnation in the table has not been reaped. */
  ghost predicate IdOk(s: State, p: nat)
    requires p < |s.proc|
  {
    s.proc[p].st != UNUSED ==>
      && s.proc[p].id < |s.home| && s.home[s.proc[p].id] == p
      && forall i :: 0 <= i < |s.reaped| ==> s.reaped[i].id != s.proc[p].id
  }

  ghost predicate Inv(s: State) {
    && s.init < |s.proc| && Alive(s.proc[s.init].st)
    && (s.lock.Some? ==> s.lock.value < |s.proc| && HasLock(s.proc[s.lock.value].pc))
    && (forall p :: 0 <= p < |s.proc| ==> ParentOk(s, p))
    && (forall p :: 0 <= p < |s.proc| ==> PcOk(s, p))
    && (forall p :: 0 <= p < |s.proc| ==> WakeOk(s, p))
    && (forall p :: 0 <= p < |s.proc| ==> IdOk(s, p))
    && (forall p :: 0 <= p < |s.proc| ==> KidOk(s, p))
    && (forall i, j :: 0 <= i < j < |s.reaped| ==> s.reaped[i].id != s.reaped[j].id)
    && (forall i :: 0 <= i < |s.reaped| ==> s.reaped[i].id < |s.home|)
  }

  // ------------------------------------------------------------------ every step keeps it

  /** The other table entry a step concerns. */
  function Target(s: State, e: Event): nat {
    if e.Alloc? then e.np
    else if e.p < |s.proc| && (s.proc[e.p].pc.Alloced? || s.proc[e.p].pc.Adopting? || s.proc[e.p].pc.Adopted?)
        then s.proc[e.p].pc.np
    else if e.p < |s.proc| && (s.proc[e.p].pc.Exiting? || s.proc[e.p].pc.ExitWake? || s.proc[e.p].pc.Scan?)
        then s.proc[e.p].pc.k
    else e.p
  }

  /** What is known of the processes a step looks at. */
  lemma Facts(s: State, e: Event, x: nat)
    requires Inv(s) && Enabled(s, e) && x < |s.proc|
    ensures e.p < |s.proc| && ParentOk(s, e.p) && PcOk(s, e.p) && WakeOk(s, e.p) && IdOk(s, e.p)
    ensures ParentOk(s, x) && PcOk(s, x) && WakeOk(s, x) && IdOk(s, x)
    ensures Target(s, e) < |s.proc| ==> ParentOk(s, Target(s, e)) && PcOk(s, Target(s, e)) && IdOk(s, Target(s, e))
    ensures forall i :: 0 <= i < |s.reaped| ==> s.reaped[i].id < |s.home|
    ensures s.init < |s.proc| && Alive(s.proc[s.init].st) && PcOk(s, s.init)
    ensures s.lock.Some? ==> s.lock.value < |s.proc| && HasLock(s.proc[s.lock.value].pc) && PcOk(s, s.lock.value)
  {
  }

  lemma AllocKeepsParent(s: State, e: Event, x: nat)
    requires Inv(s) && Enabled(s, e) && e.Alloc? && x < |s.proc|
    ensures ParentOk(NextFork(s, e), x)
  {
    hide Inv, WakeOk, IdOk, PcScan;
    Facts(s, e, x);
  }

  lemma ForkLockKeepsParent(s: State, e: Event, x: nat)
    requires Inv(s) && Enabled(s, e) && (e.ForkLock? || e.ForkUnlock?) && x < |s.proc|
    ensures ParentOk(NextFork(s, e), x)
  {
    hide Inv, WakeOk, IdOk, PcScan;
    Facts(s, e, x);
  }

  lemma ForkDoneKeepsParent(s: State, e: Event, x: nat)
    requires Inv(s) && Enabled(s, e) && e.ForkDone? && x < |s.proc|
    ensures ParentOk(NextFork(s, e), x)
  {
    hide Inv, WakeOk, IdOk, PcScan;
    Facts(s, e, x);
  }

  lemma ForkFailKeepsParent(s: State, e: Event, x: nat)
    requires Inv(s) && Enabled(s, e) && e.ForkFail? && x < |s.proc|
    ensures ParentOk(NextFork(s, e), x)
  {
    hide Inv, WakeOk, IdOk, PcScan;
    Facts(s, e, x);
  }

  lemma ExitLockKeepsParent(s: State, e: Event, x: nat)
    requires Inv(s) && Enabled(s, e) && (e.ExitLock? || e.Leave?) && x < |s.proc|
    ensures ParentOk(NextExit(s, e), x)
  {
    hide Inv, WakeOk, IdOk, PcScan;
    Facts(s, e, x);
  }

  lemma SkipKeepsParent(s: State, e: Event, x: nat)
    requires Inv(s) && Enabled(s, e) && e.Reparent? && !Adopts(s, e) && x < |s.proc|
    ensures ParentOk(NextExit(s, e), x)
  {
    hide Inv, WakeOk, IdOk, PcScan;
    Facts(s, e, x);
  }

  lemma AdoptKeepsParent(s: State, e: Event, x: nat)
    requires Inv(s) && Enabled(s, e) && e.Reparent? && Adopts(s, e) && x < |s.proc|
    ensures ParentOk(NextExit(s, e), x)
  {
    hide Inv, WakeOk, IdOk, PcScan;
    Facts(s, e, x);
  }

  lemma WakeInitKeepsParent(s: State, e: Event, x: nat)
    requires Inv(s) && Enabled(s, e) && e.WakeInit? && x < |s.proc|
    ensures ParentOk(NextExit(s, e), x)
  {
    hide Inv, WakeOk, IdOk, PcScan;
    Facts(s, e, x);
  }

  lemma NotifyKeepsParent(s: State, e: Event, x: nat)
    requires Inv(s) && Enabled(s, e) && e.Notify? && x < |s.proc|
    ensures ParentOk(NextExit(s, e), x)
  {
    hide Inv, WakeOk, IdOk, PcScan;
    Facts(s, e, x);
  }

  lemma DieKeepsParent(s: State, e: Event, x: nat)
    requires Inv(s) && Enabled(s, e) && e.Die? && x < |s.proc|
    ensures ParentOk(NextExit(s, e), x)
  {
    hide Inv, WakeOk, IdOk, Scanned;
    Facts(s, e, x);
  }

  lemma WaitLockKeepsParent(s: State, e: Event, x: nat)
    requires Inv(s) && Enabled(s, e) && e.WaitLock? && x < |s.proc|
    ensures ParentOk(NextWait(s, e), x)
  {
    hide Inv, WakeOk, IdOk, PcScan;
    Facts(s, e, x);
  }

  lemma ReturnKeepsParent(s: State, e: Event, x: nat)
    requires Inv(s) && Enabled(s, e) && (e.Copyfail? || e.Return?) && x < |s.proc|
    ensures ParentOk(NextWait(s, e), x)
  {
    hide Inv, WakeOk, IdOk, PcScan;
    Facts(s, e, x);
  }

  lemma PassKeepsParent(s: State, e: Event, x: nat)
    requires Inv(s) && Enabled(s, e) && e.Look? && !Reaps(s, e) && x < |s.proc|
    ensures ParentOk(NextWait(s, e), x)
  {
    hide Inv, WakeOk, IdOk, PcScan;
    Facts(s, e, x);
  }

  lemma ReapKeepsParent(s: State, e: Event, x: nat)
    requires Inv(s) && Enabled(s, e) && e.Look? && Reaps(s, e) && x < |s.proc|
    ensures ParentOk(NextWait(s, e), x)
  {
    hide Inv, WakeOk, IdOk, PcScan;
    Facts(s, e, x);
  }

  lemma SleepKeepsParent(s: State, e: Event, x: nat)
    requires Inv(s) && Enabled(s, e) && (e.Sleep? || e.Kill?) && x < |s.proc|
    ensures ParentOk(NextWait(s, e), x)
  {
    hide Inv, WakeOk, IdOk, PcScan;
    Facts(s, e, x);
  }

  lemma AllocKeepsLocal(s: State, e: Event, x: nat)
    requires Inv(s) && Enabled(s, e) && e.Alloc? && x < |s.proc|
    ensures PcLocal(NextFork(s, e), x)
  {
    hide Inv, WakeOk, IdOk, PcScan;
    Facts(s, e, x);
  }

  lemma AllocKeepsScan(s: State, e: Event, x: nat)
    requires Inv(s) && Enabled(s, e) && e.Alloc? && x < |s.proc|
    ensures PcScan(NextFork(s, e), x)
  {
    hide Inv, WakeOk, IdOk, ParentOk;
    Facts(s, e, x);
  }

  lemma ForkLockKeepsLocal(s: State, e: Event, x: nat)
    requires Inv(s) && Enabled(s, e) && (e.ForkLock? || e.ForkUnlock?) && x < |s.proc|
    ensures PcLocal(NextFork(s, e), x)
  {
    hide Inv, WakeOk, IdOk, PcScan;
    Facts(s, e, x);
  }

  lemma ForkLockKeepsScan(s: State, e: Event, x: nat)
    requires Inv(s) && Enabled(s, e) && (e.ForkLock? || e.ForkUnlock?) && x < |s.proc|
    ensures PcScan(NextFork(s, e), x)
  {
    hide Inv, WakeOk, IdOk, ParentOk;
    Facts(s, e, x);
  }

  lemma ForkDoneKeepsLocal(s: State, e: Event, x: nat)
    requires Inv(s) && Enabled(s, e) && e.ForkDone? && x < |s.proc|
    ensures PcLocal(NextFork(s, e), x)
  {
    hide Inv, WakeOk, IdOk, PcScan;
    Facts(s, e, x);
  }

  lemma ForkDoneKeepsScan(s: State, e: Event, x: nat)
    requires Inv(s) && Enabled(s, e) && e.ForkDone? && x < |s.proc|
    ensures PcScan(NextFork(s, e), x)
  {
    hide Inv, WakeOk, IdOk, ParentOk;
    Facts(s, e, x);
  }

  lemma ForkFailKeepsLocal(s: State, e: Event, x: nat)
    requires Inv(s) && Enabled(s, e) && e.ForkFail? && x < |s.proc|
    ensures PcLocal(NextFork(s, e), x)
  {
    hide Inv, WakeOk, IdOk, PcScan;
    Facts(s, e, x);
  }

  lemma ForkFailKeepsScan(s: State, e: Event, x: nat)
    requires Inv(s) && Enabled(s, e) && e.ForkFail? && x < |s.proc|
    ensures PcScan(NextFork(s, e), x)
  {
    hide Inv, WakeOk, IdOk, ParentOk;
    Facts(s, e, x);
  }

  lemma ExitLockKeepsLocal(s: State, e: Event, x: nat)
    requires Inv(s) && Enabled(s, e) && (e.ExitLock? || e.Leave?) && x < |s.proc|
    ensures PcLocal(NextExit(s, e), x)
  {
    hide Inv, WakeOk, IdOk, PcScan;
    Facts(s, e, x);
  }

  lemma ExitLockKeepsScan(s: State, e: Event, x: nat)
    requires Inv(s) && Enabled(s, e) && (e.ExitLock? || e.Leave?) && x < |s.proc|
    ensures PcScan(NextExit(s, e), x)
  {
    hide Inv, WakeOk, IdOk, ParentOk;
    Facts(s, e, x);
  }

  lemma SkipKeepsLocal(s: State, e: Event, x: nat)
    requires Inv(s) && Enabled(s, e) && e.Reparent? && !Adopts(s, e) && x < |s.proc|
    ensures PcLocal(NextExit(s, e), x)
  {
    hide Inv, WakeOk, IdOk, PcScan;
    Facts(s, e, x);
  }

  lemma AdoptKeepsLocal(s: State, e: Event, x: nat)
    requires Inv(s) && Enabled(s, e) && e.Reparent? && Adopts(s, e) && x < |s.proc|
    ensures PcLocal(NextExit(s, e), x)
  {
    hide Inv, WakeOk, IdOk, PcScan;
    Facts(s, e, x);
  }

  lemma ReparentKeepsScan(s: State, e: Event, x: nat)
    requires Inv(s) && Enabled(s, e) && e.Reparent? && x < |s.proc|
    ensures PcScan(NextExit(s, e), x)
  {
    hide Inv, WakeOk, IdOk, ParentOk;
    Facts(s, e, x);
  }

  lemma WakeInitKeepsLocal(s: State, e: Event, x: nat)
    requires Inv(s) && Enabled(s, e) && e.WakeInit? && x < |s.proc|
    ensures PcLocal(NextExit(s, e), x)
  {
    hide Inv, WakeOk, IdOk, PcScan;
    Facts(s, e, x);
  }

  lemma WakeInitKeepsScan(s: State, e: Event, x: nat)
    requires Inv(s) && Enabled(s, e) && e.WakeInit? && x < |s.proc|
    ensures PcScan(NextExit(s, e), x)
  {
    hide Inv, WakeOk, IdOk, ParentOk;
    Facts(s, e, x);
  }

  lemma NotifyKeepsLocal(s: State, e: Event, x: nat)
    requires Inv(s) && Enabled(s, e) && e.Notify? && x < |s.proc|
    ensures PcLocal(NextExit(s, e), x)
  {
    hide Inv, WakeOk, IdOk, PcScan;
    Facts(s, e, x);
  }

  lemma NotifyKeepsScan(s: State, e: Event, x: nat)
    requires Inv(s) && Enabled(s, e) && e.Notify? && x < |s.proc|
    ensures PcScan(NextExit(s, e), x)
  {
    hide Inv, WakeOk, IdOk;
    Facts(s, e, x);
  }

  lemma DieKeepsLocal(s: State, e: Event, x: nat)
    requires Inv(s) && Enabled(s, e) && e.Die? && x < |s.proc|
    ensures PcLocal(NextExit(s, e), x)
  {
    hide Inv, WakeOk, IdOk, PcScan;
    Facts(s, e, x);
  }

  lemma DieKeepsScan(s: State, e: Event, x: nat)
    requires Inv(s) && Enabled(s, e) && e.Die? && x < |s.proc|
    ensures PcScan(NextExit(s, e), x)
  {
    hide Inv, WakeOk, IdOk, ParentOk;
    Facts(s, e, x);
  }

  lemma WaitLockKeepsLocal(s: State, e: Event, x: nat)
    requires Inv(s) && Enabled(s, e) && e.WaitLock? && x < |s.proc|
    ensures PcLocal(NextWait(s, e), x)
  {
    hide Inv, WakeOk, IdOk, PcScan;
    Facts(s, e, x);
  }

  lemma WaitLockKeepsScan(s: State, e: Event, x: nat)
    requires Inv(s) && Enabled(s, e) && e.WaitLock? && x < |s.proc|
    ensures PcScan(NextWait(s, e), x)
  {
    hide Inv, WakeOk, IdOk, ParentOk, PcLocal;
    if x != e.p {
      Scans(s, x);
      assert NextWait(s, e).proc[x] == s.proc[x];
    }
  }

  lemma Scans(s: State, x: nat)
    requires Inv(s) && x < |s.proc|
    ensures PcScan(s, x)
  {
    assert PcOk(s, x);
  }

  lemma ReturnKeepsLocal(s: State, e: Event, x: nat)
    requires Inv(s) && Enabled(s, e) && (e.Copyfail? || e.Return?) && x < |s.proc|
    ensures PcLocal(NextWait(s, e), x)
  {
    hide Inv, WakeOk, IdOk, PcScan;
    Facts(s, e, x);
  }

  lemma ReturnKeepsScan(s: State, e: Event, x: nat)
    requires Inv(s) && Enabled(s, e) && (e.Copyfail? || e.Return?) && x < |s.proc|
    ensures PcScan(NextWait(s, e), x)
  {
    hide Inv, WakeOk, IdOk, ParentOk;
    Facts(s, e, x);
  }

  lemma PassKeepsLocal(s: State, e: Event, x: nat)
    requires Inv(s) && Enabled(s, e) && e.Look? && !Reaps(s, e) && x < |s.proc|
    ensures PcLocal(NextWait(s, e), x)
  {
    hide Inv, WakeOk, IdOk, PcScan;
    Facts(s, e, x);
  }

  lemma ReapKeepsLocal(s: State, e: Event, x: nat)
    requires Inv(s) && Enabled(s, e) && e.Look? && Reaps(s, e) && x < |s.proc|
    ensures PcLocal(NextWait(s, e), x)
  {
    hide Inv, WakeOk, IdOk, PcScan;
    Facts(s, e, x);
  }

  lemma PassKeepsScan(s: State, e: Event, x: nat)
    requires Inv(s) && Enabled(s, e) && e.Look? && !Reaps(s, e) && x < |s.proc|
    ensures PcScan(NextWait(s, e), x)
  {
    hide Inv, WakeOk, IdOk, ParentOk;
    Facts(s, e, x);
  }

  lemma ReapKeepsScan(s: State, e: Event, x: nat)
    requires Inv(s) && Enabled(s, e) && e.Look? && Reaps(s, e) && x < |s.proc|
    ensures PcScan(NextWait(s, e), x)
  {
    hide Inv, WakeOk, IdOk, ParentOk;
    Facts(s, e, x);
  }

  lemma SleepKeepsLocal(s: State, e: Event, x: nat)
    requires Inv(s) && Enabled(s, e) && (e.Sleep? || e.Kill?) && x < |s.proc|
    ensures PcLocal(NextWait(s, e), x)
  {
    hide Inv, WakeOk, IdOk, PcScan;
    Facts(s, e, x);
  }

  lemma SleepKeepsScan(s: State, e: Event, x: nat)
    requires Inv(s) && Enabled(s, e) && (e.Sleep? || e.Kill?) && x < |s.proc|
    ensures PcScan(NextWait(s, e), x)
  {
    hide Inv, WakeOk, IdOk, ParentOk;
    Facts(s, e, x);
  }

  lemma ForkKeepsWake(s: State, e: Event, x: nat)
    requires Inv(s) && Enabled(s, e) && (e.Alloc? || e.ForkLock? || e.ForkUnlock?) && x < |s.proc|
    ensures WakeOk(NextFork(s, e), x)
  {
    hide Inv, IdOk, Scanned, NoKids;
    Facts(s, e, x);
  }

  lemma BornKeepsWake(s: State, e: Event, x: nat)
    requires Inv(s) && Enabled(s, e) && (e.ForkDone? || e.ForkFail?) && x < |s.proc|
    ensures WakeOk(NextFork(s, e), x)
  {
    hide Inv, IdOk, Scanned, NoKids;
    Facts(s, e, x);
  }

  lemma ReparentKeepsWake(s: State, e: Event, x: nat)
    requires Inv(s) && Enabled(s, e) && (e.ExitLock? || e.Reparent?) && x < |s.proc|
    ensures WakeOk(NextExit(s, e), x)
  {
    hide Inv, IdOk, Scanned, NoKids;
    Facts(s, e, x);
  }

  lemma WakeInitKeepsWake(s: State, e: Event, x: nat)
    requires Inv(s) && Enabled(s, e) && e.WakeInit? && x < |s.proc|
    ensures WakeOk(NextExit(s, e), x)
  {
    hide Inv, IdOk, Scanned, NoKids, ParentOk;
    Facts(s, e, x);
  }

  lemma DieKeepsWake(s: State, e: Event, x: nat)
    requires Inv(s) && Enabled(s, e) && (e.Notify? || e.Die? || e.Leave?) && x < |s.proc|
    ensures WakeOk(NextExit(s, e), x)
  {
    hide Inv, IdOk, Scanned;
    Facts(s, e, x);
  }

  lemma LookKeepsWake(s: State, e: Event, x: nat)
    requires Inv(s) && Enabled(s, e) && (e.WaitLock? || e.Look? || e.Copyfail? || e.Return?) && x < |s.proc|
    ensures WakeOk(NextWait(s, e), x)
  {
    hide Inv, IdOk, Scanned, NoKids;
    Facts(s, e, x);
  }

  lemma SleepKeepsWake(s: State, e: Event, x: nat)
    requires Inv(s) && Enabled(s, e) && (e.Sleep? || e.Kill?) && x < |s.proc|
    ensures WakeOk(NextWait(s, e), x)
  {
    hide Inv, IdOk, NoKids;
    Facts(s, e, x);
  }

  lemma ForkKeepsId(s: State, e: Event, x: nat)
    requires Inv(s) && Enabled(s, e) && InFork(e) && x < |s.proc|
    ensures IdOk(NextFork(s, e), x)
  {
    hide Inv, WakeOk, ParentOk, Scanned, NoKids;
    Facts(s, e, x);
  }

  lemma ExitKeepsId(s: State, e: Event, x: nat)
    requires Inv(s) && Enabled(s, e) && InExit(e) && x < |s.proc|
    ensures IdOk(NextExit(s, e), x)
  {
    hide Inv, WakeOk, ParentOk, PcOk;
    Facts(s, e, x);
  }

  lemma WaitKeepsId(s: State, e: Event, x: nat)
    requires Inv(s) && Enabled(s, e) && InWait(e) && x < |s.proc|
    ensures IdOk(NextWait(s, e), x)
  {
    hide Inv, WakeOk, ParentOk, PcOk;
    Facts(s, e, x);
  }

  lemma KeepsParent(s: State, e: Event, x: nat)
    requires Inv(s) && Enabled(s, e) && x < |s.proc|
    ensures x < |Next(s, e).proc| && ParentOk(Next(s, e), x)
  {
    hide Inv, ParentOk, NextFork, NextExit, NextWait;
    SameSize(s, e);
    if e.Alloc? { AllocKeepsParent(s, e, x); }
    else if e.ForkLock? || e.ForkUnlock? { ForkLockKeepsParent(s, e, x); }
    else if e.ForkDone? { ForkDoneKeepsParent(s, e, x); }
    else if e.ForkFail? { ForkFailKeepsParent(s, e, x); }
    else if e.ExitLock? || e.Leave? { ExitLockKeepsParent(s, e, x); }
    else if e.Reparent? { if Adopts(s, e) { AdoptKeepsParent(s, e, x); } else { SkipKeepsParent(s, e, x); } }
    else if e.WakeInit? { WakeInitKeepsParent(s, e, x); }
    else if e.Notify? { NotifyKeepsParent(s, e, x); }
    else if e.Die? { DieKeepsParent(s, e, x); }
    else if e.WaitLock? { WaitLockKeepsParent(s, e, x); }
    else if e.Copyfail? || e.Return? { ReturnKeepsParent(s, e, x); }
    else if e.Look? { if Reaps(s, e) { ReapKeepsParent(s, e, x); } else { PassKeepsParent(s, e, x); } }
    else { SleepKeepsParent(s, e, x); }
  }

  lemma ReparentKeepsPc(s: State, e: Event, x: nat)
    requires Inv(s) && Enabled(s, e) && e.Reparent? && x < |s.proc|
    ensures PcLocal(NextExit(s, e), x) && PcScan(NextExit(s, e), x)
  {
    hide Inv, PcLocal, PcScan, NextExit;
    if Adopts(s, e) { AdoptKeepsLocal(s, e, x); } else { SkipKeepsLocal(s, e, x); }
    ReparentKeepsScan(s, e, x);
  }

  lemma LookKeepsPc(s: State, e: Event, x: nat)
    requires Inv(s) && Enabled(s, e) && e.Look? && x < |s.proc|
    ensures PcLocal(NextWait(s, e), x) && PcScan(NextWait(s, e), x)
  {
    hide Inv, PcLocal, PcScan, NextWait;
    if Reaps(s, e) {
      ReapKeepsLocal(s, e, x);
      ReapKeepsScan(s, e, x);
    } else {
      PassKeepsLocal(s, e, x);
      PassKeepsScan(s, e, x);
    }
  }

  lemma KeepsPc(s: State, e: Event, x: nat)
    requires Inv(s) && Enabled(s, e) && x < |s.proc|
    ensures x < |Next(s, e).proc| && PcOk(Next(s, e), x)
  {
    hide Inv, PcLocal, PcScan, NextFork, NextExit, NextWait;
    SameSize(s, e);
    if e.Alloc? { AllocKeepsLocal(s, e, x); AllocKeepsScan(s, e, x); }
    else if e.ForkLock? || e.ForkUnlock? { ForkLockKeepsLocal(s, e, x); ForkLockKeepsScan(s, e, x); }
    else if e.ForkDone? { ForkDoneKeepsLocal(s, e, x); ForkDoneKeepsScan(s, e, x); }
    else if e.ForkFail? { ForkFailKeepsLocal(s, e, x); ForkFailKeepsScan(s, e, x); }
    else if e.ExitLock? || e.Leave? { ExitLockKeepsLocal(s, e, x); ExitLockKeepsScan(s, e, x); }
    else if e.Reparent? { ReparentKeepsPc(s, e, x); }
    else if e.WakeInit? { WakeInitKeepsLocal(s, e, x); WakeInitKeepsScan(s, e, x); }
    else if e.Notify? { NotifyKeepsLocal(s, e, x); NotifyKeepsScan(s, e, x); }
    else if e.Die? { DieKeepsLocal(s, e, x); DieKeepsScan(s, e, x); }
    else if e.WaitLock? { WaitLockKeepsLocal(s, e, x); WaitLockKeepsScan(s, e, x); }
    else if e.Copyfail? || e.Return? { ReturnKeepsLocal(s, e, x); ReturnKeepsScan(s, e, x); }
    else if e.Look? { LookKeepsPc(s, e, x); }
    else { SleepKeepsLocal(s, e, x); SleepKeepsScan(s, e, x); }
  }

  lemma SameSize(s: State, e: Event)
    requires Enabled(s, e)
    ensures |Next(s, e).proc| == |s.proc| && Next(s, e).init == s.init
  {
  }

  /** The parts of the invariant that are not about one process. */
  ghost predicate Rest(s: State) {
    && s.init < |s.proc| && Alive(s.proc[s.init].st)
    && (s.lock.Some? ==> s.lock.value < |s.proc| && HasLock(s.proc[s.lock.value].pc))
  }

  lemma ForkKeepsRest(s: State, e: Event)
    requires Inv(s) && Enabled(s, e) && InFork(e)
    ensures Rest(NextFork(s, e))
  {
    hide Inv, WakeOk, IdOk, Scanned, NoKids;
    Facts(s, e, e.p);
  }

  lemma ExitKeepsRest(s: State, e: Event)
    requires Inv(s) && Enabled(s, e) && InExit(e)
    ensures Rest(NextExit(s, e))
  {
    hide Inv, WakeOk, IdOk, Scanned, NoKids, ParentOk;
    Facts(s, e, e.p);
  }

  lemma WaitKeepsRest(s: State, e: Event)
    requires Inv(s) && Enabled(s, e) && InWait(e)
    ensures Rest(NextWait(s, e))
  {
    hide Inv, WakeOk, IdOk, PcScan, ParentOk;
    Facts(s, e, e.p);
  }

  lemma KeepsRest(s: State, e: Event)
    requires Inv(s) && Enabled(s, e)
    ensures Rest(Next(s, e))
  {
    hide Inv, Rest, NextFork, NextExit, NextWait;
    if InFork(e) { ForkKeepsRest(s, e); } else if InExit(e) { ExitKeepsRest(s, e); } else { WaitKeepsRest(s, e); }
  }

  lemma KeepsReaped(s: State, e: Event)
    requires Inv(s) && Enabled(s, e)
    ensures var s' := Next(s, e);
            && (forall i, j :: 0 <= i < j < |s'.reaped| ==> s'.reaped[i].id != s'.reaped[j].id)
            && (forall i :: 0 <= i < |s'.reaped| ==> s'.reaped[i].id < |s'.home|)
  {
    hide ParentOk, PcOk, WakeOk;
    if e.Look? { assert IdOk(s, s.proc[e.p].pc.k); }
  }

  /** While x scans, it has wait_lock, and a child keeps its parent. */
  lemma ParentStays(s: State, e: Event, x: nat, c: nat)
    requires Inv(s) && Enabled(s, e) && x < |s.proc| && s.proc[x].pc.Scan? && c < |s.proc| && e.p != x
    ensures c < |Next(s, e).proc| && (s.proc[c].parent == Some(x) ==> Next(s, e).proc[c].parent == Some(x))
  {
    hide Inv, WakeOk, IdOk, PcScan;
    Facts(s, e, x);
  }

  lemma OwnScan(s: State, e: Event, x: nat)
    requires Inv(s) && Enabled(s, e) && x < |s.proc| && e.p == x && Next(s, e).proc[x].pc.Scan?
    requires |Next(s, e).proc| == |s.proc| && Next(s, e).proc[x].pc.kids
    ensures s.proc[x].pc.Scan?
    ensures s.proc[x].pc.kids || (s.proc[x].pc.k < |s.proc| && s.proc[s.proc[x].pc.k].parent == Some(x))
    ensures forall c :: 0 <= c < |s.proc| ==> Next(s, e).proc[c].parent == s.proc[c].parent
  {
    hide Inv, WakeOk, IdOk, PcScan;
    Facts(s, e, x);
  }

  lemma KeepsKid(s: State, e: Event, x: nat)
    requires Inv(s) && Enabled(s, e) && x < |s.proc|
    ensures x < |Next(s, e).proc| && KidOk(Next(s, e), x)
  {
    hide Inv, Enabled, NextFork, NextExit, NextWait;
    var s' := Next(s, e);
    SameSize(s, e);
    KidIs(s, x);
    if s'.proc[x].pc.Scan? && s'.proc[x].pc.kids {
      if e.p == x {
        OwnScan(s, e, x);
        assert !s.proc[x].pc.kids ==> s.proc[s.proc[x].pc.k].parent == Some(x);
        var c :| 0 <= c < |s.proc| && s.proc[c].parent == Some(x);
        assert s'.proc[c].parent == Some(x);
      } else {
        OthersScan(s, e, x);
        var c :| 0 <= c < |s.proc| && s.proc[c].parent == Some(x);
        ParentStays(s, e, x, c);
      }
    }
  }

  lemma KidIs(s: State, x: nat)
    requires Inv(s) && x < |s.proc|
    ensures KidOk(s, x)
  {
  }

  lemma ForkScan(s: State, e: Event, x: nat)
    requires Inv(s) && Enabled(s, e) && InFork(e) && x < |s.proc| && e.p != x
    requires |NextFork(s, e).proc| == |s.proc| && NextFork(s, e).proc[x].pc.Scan?
    ensures s.proc[x].pc == NextFork(s, e).proc[x].pc
  {
    hide Inv, PcScan, ParentOk;
    Own(s, e, x);
  }

  lemma ExitScan(s: State, e: Event, x: nat)
    requires Enabled(s, e) && InExit(e) && x < |s.proc| && e.p != x
    requires |NextExit(s, e).proc| == |s.proc| && NextExit(s, e).proc[x].pc.Scan?
    ensures s.proc[x].pc == NextExit(s, e).proc[x].pc
  {
  }

  lemma WaitScan(s: State, e: Event, x: nat)
    requires Enabled(s, e) && InWait(e) && x < |s.proc| && e.p != x
    requires |NextWait(s, e).proc| == |s.proc| && NextWait(s, e).proc[x].pc.Scan?
    ensures s.proc[x].pc == NextWait(s, e).proc[x].pc
  {
  }

  lemma OthersScan(s: State, e: Event, x: nat)
    requires Inv(s) && Enabled(s, e) && x < |s.proc| && e.p != x && |Next(s, e).proc| == |s.proc|
    requires Next(s, e).proc[x].pc.Scan?
    ensures s.proc[x].pc == Next(s, e).proc[x].pc
  {
    hide Inv, NextFork, NextExit, NextWait, Enabled;
    if InFork(e) { ForkScan(s, e, x); } else if InExit(e) { ExitScan(s, e, x); } else { WaitScan(s, e, x); }
  }

  /** Every step keeps the invariant. */
  lemma StepKeeps(s: State, e: Event)
    requires Inv(s) && Enabled(s, e)
    ensures Inv(Next(s, e))
  {
    hide ParentOk, PcOk, WakeOk, IdOk, KidOk, NextFork, NextExit, NextWait, Enabled;
    var s' := Next(s, e);
    SameSize(s, e);
    KeepsRest(s, e);
    KeepsReaped(s, e);
    forall x | 0 <= x < |s'.proc| ensures ParentOk(s', x) { KeepsParent(s, e, x); }
    forall x | 0 <= x < |s'.proc| ensures PcOk(s', x) { KeepsPc(s, e, x); }
    forall x | 0 <= x < |s'.proc| ensures WakeOk(s', x) {
      if e.ForkDone? || e.ForkFail? { BornKeepsWake(s, e, x); }
      else if InFork(e) { ForkKeepsWake(s, e, x); }
      else if e.Notify? || e.Die? || e.Leave? { DieKeepsWake(s, e, x); }
      else if e.WakeInit? { WakeInitKeepsWake(s, e, x); }
      else if InExit(e) { ReparentKeepsWake(s, e, x); }
      else if e.Sleep? || e.Kill? { SleepKeepsWake(s, e, x); }
      else { LookKeepsWake(s, e, x); }
    }
    forall x | 0 <= x < |s'.proc| ensures KidOk(s', x) { KeepsKid(s, e, x); }
    forall x | 0 <= x < |s'.proc| ensures IdOk(s', x) {
      if InFork(e) { ForkKeepsId(s, e, x); } else if InExit(e) { ExitKeepsId(s, e, x); } else { WaitKeepsId(s, e, x); }
    }
  }

  // ---------------------------------------------------------------------------- whole runs

  /** One process, init, and an otherwise empty table. */
  ghost predicate Boot(s: State) {
    && s.init < |s.proc| && s.lock == None && s.reaped == [] && s.home == [s.init]
    && s.proc[s.init] == Proc(LIVE, None, Run, false, 0, 0)
    && forall p :: 0 <= p < |s.proc| && p != s.init ==> s.proc[p].st == UNUSED && s.proc[p].parent == None && s.proc[p].pc == Gone
  }

  ghost predicate Runs(s: State, es: seq<Event>, s': State)
    decreases |es|
  {
    if es == [] then s' == s else Enabled(s, es[0]) && Runs(Next(s, es[0]), es[1..], s')
  }

  lemma {:induction false} RunKeeps(s: State, es: seq<Event>, s': State)
    requires Inv(s) && Runs(s, es, s')
    ensures Inv(s')
    decreases |es|
  {
    if es != [] {
      StepKeeps(s, es[0]);
      RunKeeps(Next(s, es[0]), es[1..], s');
    }
  }

  /** Over every run: each process that has begun and is not init has a parent that can still
      wait; no parent sleeps in wait with a zombie child while wait_lock is free; no
      incarnation is reaped twice. */
  lemma ParentsCanReap(s: State, es: seq<Event>, s': State, p: nat)
    requires Boot(s) && Runs(s, es, s') && p < |s'.proc|
    ensures s'.proc[p].st in {LIVE, ASLEEP, ZOMBIE} && p != s'.init ==>
              s'.proc[p].parent.Some? && s'.proc[p].parent.value < |s'.proc|
                  && Alive(s'.proc[s'.proc[p].parent.value].st)
    ensures s'.lock == None && s'.proc[p].st == ZOMBIE ==>
              s'.proc[p].parent.Some? && s'.proc[p].parent.value < |s'.proc|
                  && s'.proc[s'.proc[p].parent.value].st == LIVE
    ensures forall i, j :: 0 <= i < j < |s'.reaped| ==> s'.reaped[i].id != s'.reaped[j].id
  {
    hide PcScan, IdOk, Boot, Runs;
    BootInv(s);
    RunKeeps(s, es, s');
    assert ParentOk(s', p) && PcOk(s', p) && WakeOk(s', p);
  }

  lemma BootInv(s: State)
    requires Boot(s)
    ensures Inv(s)
  {
  }

  /** A reaping step: the child's current parent takes a zombie, under wait_lock. That the zombie
      has left its CPU is what Sched.ZombieIsOff says of a zombie whose lock could be taken. */
  lemma ReapedByParent(s: State, e: Event)
    requires Inv(s) && Enabled(s, e) && |Next(s, e).reaped| != |s.reaped|
    ensures e.Look? && s.lock == Some(e.p) && s.proc[e.p].pc.Scan? && s.proc[e.p].pc.k < |s.proc|
    ensures var c := s.proc[s.proc[e.p].pc.k];
            c.parent == Some(e.p) && c.st == ZOMBIE && Next(s, e).reaped == s.reaped + [Reaping(c.id, s.proc[e.p].id)]
  {
    assert PcOk(s, e.p);
  }

  /** Some process is a child of p. */
  ghost predicate HasChild(s: State, p: nat) {
    exists x :: 0 <= x < |s.proc| && s.proc[x].parent == Some(p)
  }

  /** Over every run: a wait that is not killed and has found no zombie returns exactly when there
      is no child, and sleeps only if there is one. */
  lemma NoChildLeft(s: State, es: seq<Event>, s': State, p: nat)
    requires Boot(s) && Runs(s, es, s')
    ensures Enabled(s', Return(p, false)) ==> !HasChild(s', p)
    ensures Enabled(s', Sleep(p)) ==> HasChild(s', p)
    ensures p < |s'.proc| && s'.proc[p].st == LIVE && s'.proc[p].pc.Scan? && s'.proc[p].pc.k == |s'.proc| ==>
              (Enabled(s', Return(p, false)) <==> !HasChild(s', p)) && (Enabled(s', Sleep(p)) <==> HasChild(s', p))
  {
    hide Boot, Runs;
    BootInv(s);
    RunKeeps(s, es, s');
    if p < |s'.proc| { assert PcOk(s', p) && KidOk(s', p); }
  }

  // ----------------------------------------------------------- states and parents over runs

  /** wakeup is called on the address of x: by a child that exits, for init after an adoption, by kill. */
  ghost predicate Rouses(s: State, e: Event, x: nat) {
    && e.p < |s.proc|
    && ((e.Notify? && s.proc[e.p].parent == Some(x)) || (e.WakeInit? && x == s.init) || e == Kill(x))
  }

  /** What p->state of entry x can become, and by whose step. */
  ghost predicate LifeStep(s: State, e: Event, x: nat, st: PS)
    requires x < |s.proc| && Enabled(s, e) && e.p < |s.proc|
  {
    match s.proc[x].st
    case UNUSED => st == if e.Alloc? && e.np == x then USED else UNUSED
    case USED => st == if e.ForkDone? && s.proc[e.p].pc == Adopted(x) then LIVE
        else if e.ForkFail? && s.proc[e.p].pc == Alloced(x) then UNUSED else USED
    case LIVE => st == if e == Sleep(x) then ASLEEP else if e == Die(x) then ZOMBIE else LIVE
    case ASLEEP => st == if Rouses(s, e, x) then LIVE else ASLEEP
    case ZOMBIE => st == if e.Look? && Reaps(s, e) && s.proc[e.p].pc.k == x then UNUSED else ZOMBIE
  }

  /** Who the parent of entry x can become, and by whose step. */
  ghost predicate KinStep(s: State, e: Event, x: nat, parent: Option<nat>)
    requires x < |s.proc| && Enabled(s, e) && e.p < |s.proc|
  {
    if e.ForkLock? && s.proc[e.p].pc == Alloced(x) then s.proc[x].st == USED && parent == Some(e.p)
    else if e.Reparent? && s.proc[e.p].pc == Exiting(x) && s.proc[x].parent == Some(e.p) then parent == Some(s.init)
    else if e.Look? && Reaps(s, e) && s.proc[e.p].pc.k == x then parent == None
    else parent == s.proc[x].parent
  }

  /** The incarnation in entry x changes only when fork takes the entry, and is then a new one. */
  ghost predicate BornStep(s: State, e: Event, x: nat, s': State)
    requires x < |s.proc| == |s'.proc|
  {
    && s.home <= s'.home
    && s'.proc[x].id == (if e.Alloc? && e.np == x then |s.home| else s.proc[x].id)
    && (e.Alloc? && e.np == x ==> s.proc[x].st == UNUSED && |s'.home| == |s.home| + 1)
  }

  lemma ForkLives(s: State, e: Event, x: nat)
    requires Inv(s) && Enabled(s, e) && InFork(e) && x < |s.proc|
    ensures e.p < |s.proc| == |NextFork(s, e).proc| && LifeStep(s, e, x, NextFork(s, e).proc[x].st)
  {
    hide Inv, PcScan, ParentOk;
    Own(s, e, x);
  }

  lemma ForkKin(s: State, e: Event, x: nat)
    requires Inv(s) && Enabled(s, e) && InFork(e) && x < |s.proc|
    ensures e.p < |s.proc| == |NextFork(s, e).proc| && KinStep(s, e, x, NextFork(s, e).proc[x].parent)
    ensures BornStep(s, e, x, NextFork(s, e))
  {
    hide Inv, PcScan;
    Own(s, e, x);
  }

  lemma ExitLives(s: State, e: Event, x: nat)
    requires Inv(s) && Enabled(s, e) && InExit(e) && !e.WakeInit? && !e.Notify? && x < |s.proc|
    ensures e.p < |s.proc| == |NextExit(s, e).proc| && LifeStep(s, e, x, NextExit(s, e).proc[x].st)
  {
    hide Inv, PcScan, ParentOk;
    Own(s, e, x);
  }

  lemma RouseLives(s: State, e: Event, x: nat)
    requires Inv(s) && Enabled(s, e) && (e.WakeInit? || e.Notify?) && x < |s.proc|
    ensures e.p < |s.proc| == |NextExit(s, e).proc| && LifeStep(s, e, x, NextExit(s, e).proc[x].st)
  {
    hide Inv, PcScan, ParentOk;
    Own(s, e, x);
  }

  lemma ExitKin(s: State, e: Event, x: nat)
    requires Inv(s) && Enabled(s, e) && InExit(e) && x < |s.proc|
    ensures e.p < |s.proc| == |NextExit(s, e).proc| && KinStep(s, e, x, NextExit(s, e).proc[x].parent)
    ensures BornStep(s, e, x, NextExit(s, e))
  {
    hide Inv, PcScan;
    Own(s, e, x);
  }

  lemma WaitLives(s: State, e: Event, x: nat)
    requires Inv(s) && Enabled(s, e) && InWait(e) && x < |s.proc|
    ensures e.p < |s.proc| == |NextWait(s, e).proc| && LifeStep(s, e, x, NextWait(s, e).proc[x].st)
  {
    hide Inv, PcScan, ParentOk;
    Own(s, e, x);
  }

  lemma WaitKin(s: State, e: Event, x: nat)
    requires Inv(s) && Enabled(s, e) && InWait(e) && x < |s.proc|
    ensures e.p < |s.proc| == |NextWait(s, e).proc| && KinStep(s, e, x, NextWait(s, e).proc[x].parent)
    ensures BornStep(s, e, x, NextWait(s, e))
  {
    hide Inv, PcScan;
    Own(s, e, x);
  }

  lemma Own(s: State, e: Event, x: nat)
    requires Inv(s) && Enabled(s, e) && x < |s.proc|
    ensures e.p < |s.proc| && PcLocal(s, e.p) && ParentOk(s, x) && s.init < |s.proc|
  {
    assert PcOk(s, e.p) && ParentOk(s, x);
  }

  lemma LifeCycle(s: State, e: Event, x: nat)
    requires Inv(s) && Enabled(s, e) && x < |s.proc|
    ensures e.p < |s.proc| == |Next(s, e).proc| && LifeStep(s, e, x, Next(s, e).proc[x].st)
    ensures KinStep(s, e, x, Next(s, e).proc[x].parent) && BornStep(s, e, x, Next(s, e))
  {
    hide Inv, LifeStep, KinStep, BornStep, NextFork, NextExit, NextWait;
    if InFork(e) { ForkLives(s, e, x); ForkKin(s, e, x); }
    else if InExit(e) {
      if e.WakeInit? || e.Notify? { RouseLives(s, e, x); } else { ExitLives(s, e, x); }
      ExitKin(s, e, x);
    }
    else { WaitLives(s, e, x); WaitKin(s, e, x); }
  }

  /** Entry x holds an incarnation no older than n. */
  ghost predicate Since(s: State, x: nat, n: nat) {
    x < |s.proc| && n <= |s.home| && (s.proc[x].st == UNUSED || s.proc[x].id >= n)
  }

  lemma {:induction false} YoungerLater(s: State, es: seq<Event>, s': State, x: nat, n: nat)
    requires Inv(s) && Runs(s, es, s') && Since(s, x, n)
    ensures Since(s', x, n)
    decreases |es|
  {
    hide Inv, Enabled;
    if es != [] {
      LifeCycle(s, es[0], x);
      StepKeeps(s, es[0]);
      YoungerLater(Next(s, es[0]), es[1..], s', x, n);
    }
  }

  /** Over every run: as long as a process is in the table its parent is the one it had, or init. */
  lemma {:induction false} ParentOrInit(s: State, es: seq<Event>, s': State, x: nat)
    requires Inv(s) && Runs(s, es, s') && x < |s.proc| && s.proc[x].st in {LIVE, ASLEEP, ZOMBIE}
    ensures x < |s'.proc| && s'.init == s.init
    ensures s'.proc[x].st != UNUSED && s'.proc[x].id == s.proc[x].id ==>
              s'.proc[x].parent == s.proc[x].parent || s'.proc[x].parent == Some(s.init)
    decreases |es|
  {
    hide Inv, Enabled;
    if es != [] {
      LifeCycle(s, es[0], x);
      SameSize(s, es[0]);
      StepKeeps(s, es[0]);
      Born(s, x);
      var s1 := Next(s, es[0]);
      if s1.proc[x].st == UNUSED {
        YoungerLater(s1, es[1..], s', x, s.proc[x].id + 1);
        RunInit(s1, es[1..], s');
      } else {
        ParentOrInit(s1, es[1..], s', x);
      }
    }
  }

  lemma Born(s: State, x: nat)
    requires Inv(s) && x < |s.proc| && s.proc[x].st != UNUSED
    ensures s.proc[x].id < |s.home|
  {
    assert IdOk(s, x);
  }

  lemma {:induction false} RunInit(s: State, es: seq<Event>, s': State)
    requires Runs(s, es, s')
    ensures |s'.proc| == |s.proc| && s'.init == s.init
    decreases |es|
  {
    if es != [] {
      SameSize(s, es[0]);
      RunInit(Next(s, es[0]), es[1..], s');
    }
  }
}
