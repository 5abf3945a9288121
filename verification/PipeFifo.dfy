/**
 Pipes (kernel/pipe.c): readers and writers take steps under the pipe's lock, in any
 order. `appended` and `removed` are the bytes that have gone in and come out.
 */
module PipeFifo {
  import opened Common

  const PIPESIZE: nat := 512
  const U32: nat := 0x1_0000_0000

  type Byte = x: int | 0 <= x < 256

  /** Where a process is. The points with a lock are Writing, Testing and Reading. */
  datatype Pc =
    | Idle
    | Writing(rest: seq<Byte>, dirty: bool)   // dirty: bytes appended since the last wakeup of readers
    | WAsleep(rest: seq<Byte>)                // asleep on &nwrite
    | WWant(rest: seq<Byte>)                  // woken, wants the lock
    | Testing(n: nat)                         // piperead, before the copy
    | RAsleep(n: nat)                         // asleep on &nread
    | RWant(n: nat)
    | Reading(n: nat, took: bool)             // piperead, copying

  datatype Pipe = Pipe(data: seq<Byte>, nread: nat, nwrite: nat, readopen: bool, writeopen: bool)

  datatype State = State(pi: Pipe, pc: seq<Pc>, lock: Option<nat>, appended: seq<Byte>, removed: seq<Byte>)

  datatype Event =
    | WStart(p: nat, bytes: seq<Byte>) | WByte(p: nat) | WFull(p: nat) | WEnd(p: nat) | WWake(p: nat)
    | WClosed(p: nat) | WKilled(p: nat)
    | RStart(p: nat, n: nat) | RSleep(p: nat) | RKilled(p: nat) | RGo(p: nat) | RByte(p: nat) | REnd(p: nat) | RWake(p: nat)
    | CloseWrite | CloseRead | Kill(p: nat)

  predicate Full(pi: Pipe) {
    pi.nwrite == (pi.nread + PIPESIZE) % U32
  }

  predicate Nothing(pi: Pipe) {
    pi.nread == pi.nwrite
  }

  predicate IsWriter(pc: Pc) {
    pc.Writing? || pc.WAsleep? || pc.WWant?
  }

  predicate IsReader(pc: Pc) {
    pc.Testing? || pc.RAsleep? || pc.RWant? || pc.Reading?
  }

  ghost predicate Enabled(s: State, e: Event) {
    // an end is closed with its last reference, so nobody is using it
    if e.CloseWrite? then s.lock == None && forall p :: 0 <= p < |s.pc| ==> !IsWriter(s.pc[p])
    else if e.CloseRead? then s.lock == None && forall p :: 0 <= p < |s.pc| ==> !IsReader(s.pc[p])
    else
      && e.p < |s.pc|
      && var pc := s.pc[e.p];
         match e
         case WStart(_, _) => pc == Idle && s.lock == None && s.pi.writeopen
         case WByte(_) => pc.Writing? && pc.rest != [] && s.pi.readopen && !Full(s.pi) && |s.pi.data| == PIPESIZE
         case WFull(_) => pc.Writing? && pc.rest != [] && s.pi.readopen && Full(s.pi)
         case WEnd(_) => pc.Writing? && pc.rest == []
         case WWake(_) => pc.WWant? && s.lock == None
         case WClosed(_) => pc.Writing? && pc.rest != [] && !s.pi.readopen
         case WKilled(_) => pc.Writing? && pc.rest != []
         case RStart(_, _) => pc == Idle && s.lock == None && s.pi.readopen
         case RSleep(_) => pc.Testing? && Nothing(s.pi) && s.pi.writeopen
         case RKilled(_) => pc.Testing? && Nothing(s.pi) && s.pi.writeopen
         case RGo(_) => pc.Testing? && !(Nothing(s.pi) && s.pi.writeopen)
         case RByte(_) => pc.Reading? && pc.n > 0 && !Nothing(s.pi) && |s.pi.data| == PIPESIZE
         case REnd(_) => pc.Reading? && (pc.n == 0 || Nothing(s.pi))
         case RWake(_) => pc.RWant? && s.lock == None
         case Kill(_) => true
  }

  /** wakeup(&nread) */
  function WakeReaders(pcs: seq<Pc>): (r: seq<Pc>)
    ensures |r| == |pcs|
  {
    seq(|pcs|, k requires 0 <= k < |pcs| => if pcs[k].RAsleep? then RWant(pcs[k].n) else pcs[k])
  }

  /** wakeup(&nwrite) */
  function WakeWriters(pcs: seq<Pc>): (r: seq<Pc>)
    ensures |r| == |pcs|
  {
    seq(|pcs|, k requires 0 <= k < |pcs| => if pcs[k].WAsleep? then WWant(pcs[k].rest) else pcs[k])
  }

  ghost function Next(s: State, e: Event): State
    requires Enabled(s, e)
  {
    match e
    case WStart(p, bytes) => s.(pc := s.pc[p := Writing(bytes, false)], lock := Some(p))
    case WByte(p) =>
      var pi := s.pi;
      s.(pi := pi.(data := pi.data[pi.nwrite % PIPESIZE := s.pc[p].rest[0]], nwrite := (pi.nwrite + 1) % U32),
         pc := s.pc[p := Writing(s.pc[p].rest[1..], true)], appended := s.appended + [s.pc[p].rest[0]])
    case WFull(p) => s.(pc := WakeReaders(s.pc)[p := WAsleep(s.pc[p].rest)], lock := None)
    case WEnd(p) => s.(pc := WakeReaders(s.pc)[p := Idle], lock := None)
    case WWake(p) => s.(pc := s.pc[p := Writing(s.pc[p].rest, false)], lock := Some(p))
    case WClosed(p) => s.(pc := s.pc[p := Idle], lock := None)
    case WKilled(p) => s.(pc := s.pc[p := Idle], lock := None)
    case RStart(p, n) => s.(pc := s.pc[p := Testing(n)], lock := Some(p))
    case RSleep(p) => s.(pc := s.pc[p := RAsleep(s.pc[p].n)], lock := None)
    case RKilled(p) => s.(pc := s.pc[p := Idle], lock := None)
    case RGo(p) => s.(pc := s.pc[p := Reading(s.pc[p].n, false)])
    case RByte(p) =>
      s.(pi := s.pi.(nread := (s.pi.nread + 1) % U32), pc := s.pc[p := Reading(s.pc[p].n - 1, true)],
         removed := s.removed + [s.pi.data[s.pi.nread % PIPESIZE]])
    case REnd(p) => s.(pc := WakeWriters(s.pc)[p := Idle], lock := None)
    case RWake(p) => s.(pc := s.pc[p := Testing(s.pc[p].n)], lock := Some(p))
    case CloseWrite => s.(pi := s.pi.(writeopen := false), pc := WakeReaders(s.pc))
    case CloseRead => s.(pi := s.pi.(readopen := false), pc := WakeWriters(s.pc))
    case Kill(p) =>
      s.(pc := s.pc[p := if s.pc[p].RAsleep? then RWant(s.pc[p].n) else if s.pc[p].WAsleep? then WWant(s.pc[p].rest)
          else s.pc[p]])
  }

  // ------------------------------------------------------------------------- invariant

  predicate HasLock(pc: Pc) {
    pc.Writing? || pc.Testing? || pc.Reading?
  }

  /** The ring holds, in order, what has gone in and not come out. */
  ghost predicate RingOk(s: State) {
    && |s.pi.data| == PIPESIZE
    && |s.removed| <= |s.appended| <= |s.removed| + PIPESIZE
    && s.removed == s.appended[..|s.removed|]
    && s.pi.nread == |s.removed| % U32 && s.pi.nwrite == |s.appended| % U32
    && forall k :: |s.removed| <= k < |s.appended| ==> s.pi.data[k % PIPESIZE] == s.appended[k]
  }

  ghost predicate PcOk(s: State, p: nat)
    requires p < |s.pc|
  {
    && (HasLock(s.pc[p]) ==> s.lock == Some(p))
    && (s.pc[p].Writing? && s.pc[p].dirty ==> !Nothing(s.pi))
    && (s.pc[p].Reading? && s.pc[p].took ==> !Full(s.pi))
    && (s.pc[p].Reading? && !s.pc[p].took ==> !(Nothing(s.pi) && s.pi.writeopen))
    && (IsReader(s.pc[p]) ==> s.pi.readopen)
    && (IsWriter(s.pc[p]) ==> s.pi.writeopen)
  }

  ghost predicate LockOk(s: State) {
    && (s.lock.Some? ==> s.lock.value < |s.pc| && HasLock(s.pc[s.lock.value]))
    && forall p :: 0 <= p < |s.pc| ==> PcOk(s, p)
  }

  /** A writer holds the lock and has appended since it last woke the readers. */
  ghost predicate AboutToWakeReaders(s: State) {
    s.lock.Some? && s.lock.value < |s.pc| && s.pc[s.lock.value].Writing? && s.pc[s.lock.value].dirty
  }

  ghost predicate AboutToWakeWriters(s: State) {
    s.lock.Some? && s.lock.value < |s.pc| && s.pc[s.lock.value].Reading? && s.pc[s.lock.value].took
  }

  /** A reader sleeps on an empty pipe, unless a writer is about to wake it; a writer on a full
      one, unless a reader is about to wake it. */
  ghost predicate SleepOk(s: State, p: nat)
    requires p < |s.pc|
  {
    && (s.pc[p].RAsleep? ==> s.pi.writeopen && (Nothing(s.pi) || AboutToWakeReaders(s)))
    && (s.pc[p].WAsleep? ==> s.pi.readopen && (Full(s.pi) || AboutToWakeWriters(s)))
  }

  ghost predicate Inv(s: State) {
    RingOk(s) && LockOk(s) && forall p :: 0 <= p < |s.pc| ==> SleepOk(s, p)
  }

  // ------------------------------------------------------- counters that wrap around

  lemma Wrapped(k: nat)
    ensures k % U32 % PIPESIZE == k % PIPESIZE && (k % U32 + 1) % U32 == (k + 1) % U32
  {
    assert k == U32 * (k / U32) + k % U32;
    assert U32 * (k / U32) == PIPESIZE * (0x80_0000 * (k / U32));
    assert k % PIPESIZE == (PIPESIZE * (0x80_0000 * (k / U32)) + k % U32) % PIPESIZE;
  }

  /** The tests on wrapped counters mean what they say. */
  lemma CountersMean(s: State)
    requires RingOk(s)
    ensures Full(s.pi) <==> |s.appended| == |s.removed| + PIPESIZE
    ensures Nothing(s.pi) <==> |s.appended| == |s.removed|
    ensures |s.removed| <= |s.appended| <= |s.removed| + PIPESIZE
  {
    WrapDistance(|s.removed|, |s.appended| - |s.removed|);
  }

  lemma WrapDistance(r: nat, d: nat)
    requires d <= PIPESIZE
    ensures (r + d) % U32 == (r % U32 + PIPESIZE) % U32 <==> d == PIPESIZE
    ensures (r + d) % U32 == r % U32 <==> d == 0
  {
    var q, m := r / U32, r % U32;
    assert r == U32 * q + m;
    assert (r + d) % U32 == if m + d < U32 then m + d else m + d - U32;
  }

  // ------------------------------------------------------------------ every step keeps it

  lemma AppendKeeps(s: State, e: Event)
    requires RingOk(s) && Enabled(s, e) && e.WByte?
    ensures RingOk(Next(s, e))
  {
    CountersMean(s);
    var s', n := Next(s, e), |s.appended|;
    Wrapped(n);
    forall k | |s.removed| <= k < n ensures s'.pi.data[k % PIPESIZE] == s'.appended[k] {
      OtherPlace(k, n);
    }
  }

  /** Fewer than PIPESIZE apart means different places in the ring. */
  lemma OtherPlace(k: nat, n: nat)
    requires k < n < k + PIPESIZE
    ensures k % PIPESIZE != n % PIPESIZE
  {
  }

  lemma RemoveKeeps(s: State, e: Event)
    requires RingOk(s) && Enabled(s, e) && e.RByte?
    ensures RingOk(Next(s, e))
  {
    CountersMean(s);
    Wrapped(|s.removed|);
    var n := |s.removed|;
    assert s.appended[..n + 1] == s.appended[..n] + [s.appended[n]];
  }

  lemma RingKept(s: State, e: Event)
    requires RingOk(s) && Enabled(s, e)
    ensures RingOk(Next(s, e))
  {
    if e.WByte? {
      AppendKeeps(s, e);
    } else if e.RByte? {
      RemoveKeeps(s, e);
    }
  }

  lemma PcKept(s: State, e: Event, x: nat)
    requires RingOk(s) && LockOk(s) && Enabled(s, e) && x < |s.pc|
    ensures x < |Next(s, e).pc| && PcOk(Next(s, e), x)
  {
    hide RingOk;
    RingKept(s, e);
    CountersMean(s);
    CountersMean(Next(s, e));
    assert PcOk(s, x);
    if !e.CloseWrite? && !e.CloseRead? { assert PcOk(s, e.p); }
  }

  lemma LockKept(s: State, e: Event)
    requires RingOk(s) && LockOk(s) && Enabled(s, e)
    ensures LockOk(Next(s, e))
  {
    hide RingOk, PcOk;
    SameLength(s, e);
    HolderKept(s, e);
    forall x | 0 <= x < |s.pc| ensures PcOk(Next(s, e), x) {
      PcKept(s, e, x);
    }
  }

  lemma HolderKept(s: State, e: Event)
    requires LockOk(s) && Enabled(s, e)
    ensures var s' := Next(s, e); s'.lock.Some? ==> s'.lock.value < |s'.pc| && HasLock(s'.pc[s'.lock.value])
  {
    if !e.CloseWrite? && !e.CloseRead? { assert PcOk(s, e.p); }
  }

  /** The one step after which a reader may sleep on a pipe with bytes in it: a writer that was
      killed returns without waking the sleeping readers of what it appended. */
  ghost predicate Abandons(s: State, e: Event)
    requires Enabled(s, e)
  {
    e.WKilled? && s.pc[e.p].dirty && exists p :: 0 <= p < |s.pc| && s.pc[p].RAsleep?
  }

  lemma SleepKept(s: State, e: Event, x: nat)
    requires Inv(s) && Enabled(s, e) && !Abandons(s, e) && x < |s.pc|
    ensures x < |Next(s, e).pc| && SleepOk(Next(s, e), x)
  {
    hide RingOk;
    RingKept(s, e);
    CountersMean(s);
    CountersMean(Next(s, e));
    assert SleepOk(s, x) && PcOk(s, x);
    if !e.CloseWrite? && !e.CloseRead? { assert PcOk(s, e.p); }
  }

  /** Every other step keeps the invariant. */
  lemma StepKeeps(s: State, e: Event)
    requires Inv(s) && Enabled(s, e) && !Abandons(s, e)
    ensures Inv(Next(s, e))
  {
    hide RingOk, LockOk, SleepOk;
    RingKept(s, e);
    LockKept(s, e);
    SameLength(s, e);
    forall x | 0 <= x < |Next(s, e).pc| ensures SleepOk(Next(s, e), x) {
      SleepKept(s, e, x);
    }
  }

  lemma SameLength(s: State, e: Event)
    requires Enabled(s, e)
    ensures |Next(s, e).pc| == |s.pc|
  {
  }

  /** A reader asleep with the lock free and bytes in the pipe. */
  ghost predicate Stranded(s: State) {
    s.lock == None && !Nothing(s.pi) && exists p :: 0 <= p < |s.pc| && s.pc[p].RAsleep?
  }

  /** A killed writer strands a reader exactly when it has appended since it last woke the
      readers and one of them sleeps. */
  lemma KillStrandsIff(s: State, e: Event)
    requires Inv(s) && Enabled(s, e) && e.WKilled?
    ensures Stranded(Next(s, e)) <==> s.pc[e.p].dirty && exists p :: 0 <= p < |s.pc| && s.pc[p].RAsleep?
  {
    var s' := Next(s, e);
    if exists p :: 0 <= p < |s.pc| && s.pc[p].RAsleep? {
      var p :| 0 <= p < |s.pc| && s.pc[p].RAsleep?;
      assert SleepOk(s, p) && PcOk(s, e.p);
      assert s'.pc[p].RAsleep?;
    }
    if Stranded(s') {
      var p :| 0 <= p < |s'.pc| && s'.pc[p].RAsleep?;
      assert s.pc[p].RAsleep? && SleepOk(s, p) && PcOk(s, e.p);
    }
  }

  // ---------------------------------------------------------------------------- whole runs

  ghost predicate Fresh(s: State) {
    && |s.pi.data| == PIPESIZE && s.pi.nread == s.pi.nwrite == 0 && s.pi.readopen && s.pi.writeopen
    && s.appended == s.removed == [] && s.lock == None && forall p :: 0 <= p < |s.pc| ==> s.pc[p] == Idle
  }

  ghost predicate Runs(s: State, es: seq<Event>, s': State)
    decreases |es|
  {
    if es == [] then s' == s else Enabled(s, es[0]) && Runs(Next(s, es[0]), es[1..], s')
  }

  /** No writer was killed with bytes it had not announced to a reader asleep. */
  ghost predicate Orderly(s: State, es: seq<Event>)
    decreases |es|
  {
    es != [] && Enabled(s, es[0]) ==> !Abandons(s, es[0]) && Orderly(Next(s, es[0]), es[1..])
  }

  /** First in, first out, in every run, kills included: what has come out is a prefix of what
      has gone in, and at most PIPESIZE bytes are in between. */
  lemma {:induction false} Fifo(s: State, es: seq<Event>, s': State)
    requires RingOk(s) && Runs(s, es, s')
    ensures RingOk(s') && s'.removed <= s'.appended && |s'.appended| - |s'.removed| <= PIPESIZE
    decreases |es|
  {
    if es != [] {
      RingKept(s, es[0]);
      Fifo(Next(s, es[0]), es[1..], s');
    }
  }

  lemma {:induction false} RunKeeps(s: State, es: seq<Event>, s': State)
    requires Inv(s) && Runs(s, es, s') && Orderly(s, es)
    ensures Inv(s')
    decreases |es|
  {
    if es != [] {
      StepKeeps(s, es[0]);
      RunKeeps(Next(s, es[0]), es[1..], s');
    }
  }

  // -------------------------------------------------------------------- one write, one read

  predicate By(e: Event, p: nat) {
    !e.CloseWrite? && !e.CloseRead? && e.p == p
  }

  /** The bytes that went in by the steps of p, in order. */
  ghost function Put(s: State, es: seq<Event>, p: nat): seq<Byte>
    decreases |es|
  {
    if es == [] || !Enabled(s, es[0]) || |Next(s, es[0]).appended| < |s.appended| then []
    else
      (if By(es[0], p) then Next(s, es[0]).appended[|s.appended|..] else []) + Put(Next(s, es[0]), es[1..], p)
  }

  /** The bytes that came out by the steps of p, in order. */
  ghost function Got(s: State, es: seq<Event>, p: nat): seq<Byte>
    decreases |es|
  {
    if es == [] || !Enabled(s, es[0]) || |Next(s, es[0]).removed| < |s.removed| then []
    else (if By(es[0], p) then Next(s, es[0]).removed[|s.removed|..] else []) + Got(Next(s, es[0]), es[1..], p)
  }

  /** Only steps of the writer at work put bytes in, only steps of the reader at work take some out. */
  lemma OnlyTheirs(s: State, e: Event)
    requires Enabled(s, e)
    ensures s.appended <= Next(s, e).appended && s.removed <= Next(s, e).removed
    ensures Next(s, e).appended != s.appended ==> !e.CloseWrite? && !e.CloseRead? && s.pc[e.p].Writing?
    ensures Next(s, e).removed != s.removed ==> !e.CloseWrite? && !e.CloseRead? && s.pc[e.p].Reading?
  {
  }

  ghost function Rest(pc: Pc): seq<Byte> {
    if pc.Writing? || pc.WAsleep? || pc.WWant? then pc.rest else []
  }

  ghost function Wanted(pc: Pc): nat {
    if pc.Testing? || pc.RAsleep? || pc.RWant? || pc.Reading? then pc.n else 0
  }

  /** No write of p starts. */
  predicate NoStart(es: seq<Event>, p: nat) {
    forall i :: 0 <= i < |es| ==> !(es[i].WStart? && es[i].p == p) && !(es[i].RStart? && es[i].p == p)
  }

  /** One step of a writer, or around it: what it puts in comes off the front of what is left. */
  lemma PutStep(s: State, e: Event, p: nat)
    requires Enabled(s, e) && p < |s.pc| && IsWriter(s.pc[p]) && !(e.WStart? && e.p == p)
    ensures |Next(s, e).pc| == |s.pc| && s.appended <= Next(s, e).appended
    ensures var put := if By(e, p) then Next(s, e).appended[|s.appended|..] else [];
            if IsWriter(Next(s, e).pc[p]) then put + Rest(Next(s, e).pc[p]) == Rest(s.pc[p])
            else put == [] && !IsReader(Next(s, e).pc[p]) && (e == WEnd(p) ==> Rest(s.pc[p]) == [])
    ensures e == WEnd(p) ==> !IsWriter(Next(s, e).pc[p])
  {
  }

  lemma {:induction false} PutRest(s: State, es: seq<Event>, s': State, p: nat)
    requires Runs(s, es, s') && p < |s.pc| && IsWriter(s.pc[p]) && NoStart(es, p)
    ensures |s'.pc| == |s.pc| && Put(s, es, p) <= Rest(s.pc[p])
    ensures IsWriter(s'.pc[p]) ==> Put(s, es, p) + Rest(s'.pc[p]) == Rest(s.pc[p])
    ensures WEnd(p) in es ==> Put(s, es, p) == Rest(s.pc[p])
    decreases |es|
  {
    hide Next, Enabled, Rest, By;
    if es != [] {
      var s1 := Next(s, es[0]);
      PutStep(s, es[0], p);
      assert NoStart(es[1..], p);
      if IsWriter(s1.pc[p]) {
        PutRest(s1, es[1..], s', p);
      } else {
        PutDone(s1, es[1..], s', p);
      }
    }
  }

  /** Once it is done a writer puts nothing more in. */
  lemma {:induction false} PutDone(s: State, es: seq<Event>, s': State, p: nat)
    requires Runs(s, es, s') && p < |s.pc| && !IsWriter(s.pc[p]) && NoStart(es, p)
    ensures |s'.pc| == |s.pc| && Put(s, es, p) == [] && !IsWriter(s'.pc[p]) && WEnd(p) !in es
    decreases |es|
  {
    hide Next, Enabled, By;
    if es != [] {
      DoneStep(s, es[0], p);
      assert NoStart(es[1..], p);
      PutDone(Next(s, es[0]), es[1..], s', p);
    }
  }

  lemma DoneStep(s: State, e: Event, p: nat)
    requires Enabled(s, e) && p < |s.pc| && !IsWriter(s.pc[p]) && !(e.WStart? && e.p == p)
    ensures |Next(s, e).pc| == |s.pc| && !IsWriter(Next(s, e).pc[p]) && e != WEnd(p)
    ensures s.appended <= Next(s, e).appended && (By(e, p) ==> Next(s, e).appended == s.appended)
  {
  }

  /** A write from its start on, whatever others do meanwhile and however often it sleeps: what it
      has put in is a prefix of its bytes, the rest is still to come, and a write that has
      ended has put in all of them. */
  lemma WriteIsWhole(s: State, es: seq<Event>, s': State, p: nat, bytes: seq<Byte>)
    requires Enabled(s, WStart(p, bytes)) && Runs(Next(s, WStart(p, bytes)), es, s') && NoStart(es, p)
    ensures |s'.pc| == |s.pc| && Put(s, [WStart(p, bytes)] + es, p) <= bytes
    ensures IsWriter(s'.pc[p]) ==> Put(s, [WStart(p, bytes)] + es, p) + Rest(s'.pc[p]) == bytes
    ensures WEnd(p) in es ==> Put(s, [WStart(p, bytes)] + es, p) == bytes
  {
    hide Runs;
    var e := WStart(p, bytes);
    assert ([e] + es)[1..] == es && Put(s, [e] + es, p) == Put(Next(s, e), es, p);
    PutRest(Next(s, e), es, s', p);
  }

  lemma GotStep(s: State, e: Event, p: nat)
    requires Enabled(s, e) && p < |s.pc| && IsReader(s.pc[p]) && !(e.RStart? && e.p == p)
    ensures |Next(s, e).pc| == |s.pc| && s.removed <= Next(s, e).removed
    ensures var got := if By(e, p) then Next(s, e).removed[|s.removed|..] else [];
            if IsReader(Next(s, e).pc[p]) then |got| + Wanted(Next(s, e).pc[p]) == Wanted(s.pc[p])
            else got == [] && !IsWriter(Next(s, e).pc[p])
    ensures e == REnd(p) ==> !IsReader(Next(s, e).pc[p]) && (Wanted(s.pc[p]) == 0 || Nothing(Next(s, e).pi))
  {
  }

  lemma {:induction false} GotRest(s: State, es: seq<Event>, s': State, p: nat)
    requires Runs(s, es, s') && p < |s.pc| && IsReader(s.pc[p]) && NoStart(es, p)
    ensures |s'.pc| == |s.pc| && |Got(s, es, p)| <= Wanted(s.pc[p])
    ensures IsReader(s'.pc[p]) ==> |Got(s, es, p)| + Wanted(s'.pc[p]) == Wanted(s.pc[p])
    decreases |es|
  {
    hide Next, Enabled, Wanted, By;
    if es != [] {
      var s1 := Next(s, es[0]);
      GotStep(s, es[0], p);
      assert NoStart(es[1..], p);
      if IsReader(s1.pc[p]) {
        GotRest(s1, es[1..], s', p);
      } else {
        GotDone(s1, es[1..], s', p);
      }
    }
  }

  lemma {:induction false} GotDone(s: State, es: seq<Event>, s': State, p: nat)
    requires Runs(s, es, s') && p < |s.pc| && !IsReader(s.pc[p]) && NoStart(es, p)
    ensures |s'.pc| == |s.pc| && Got(s, es, p) == [] && !IsReader(s'.pc[p])
    decreases |es|
  {
    hide Next, Enabled, By;
    if es != [] {
      GotDoneStep(s, es[0], p);
      assert NoStart(es[1..], p);
      GotDone(Next(s, es[0]), es[1..], s', p);
    }
  }

  lemma GotDoneStep(s: State, e: Event, p: nat)
    requires Enabled(s, e) && p < |s.pc| && !IsReader(s.pc[p]) && !(e.RStart? && e.p == p)
    ensures |Next(s, e).pc| == |s.pc| && !IsReader(Next(s, e).pc[p])
    ensures s.removed <= Next(s, e).removed && (By(e, p) ==> Next(s, e).removed == s.removed)
  {
  }

  /** A read from its start on: it never takes more than it asked for, and while it goes on the rest
      is still to come. */
  lemma ReadIsWhole(s: State, es: seq<Event>, s': State, p: nat, n: nat)
    requires Enabled(s, RStart(p, n)) && Runs(Next(s, RStart(p, n)), es, s') && NoStart(es, p)
    ensures |s'.pc| == |s.pc| && |Got(s, [RStart(p, n)] + es, p)| <= n
    ensures IsReader(s'.pc[p]) ==> |Got(s, [RStart(p, n)] + es, p)| + Wanted(s'.pc[p]) == n
  {
    hide Runs;
    var e := RStart(p, n);
    assert ([e] + es)[1..] == es && Got(s, [e] + es, p) == Got(Next(s, e), es, p);
    GotRest(Next(s, e), es, s', p);
  }

  /** A read ends with all it asked for or an empty pipe; without a byte only if it asked for none
      or there are no writers. */
  lemma ReadEnds(s: State, p: nat)
    requires Inv(s) && Enabled(s, REnd(p))
    ensures Wanted(s.pc[p]) == 0 || |s.appended| == |s.removed|
    ensures !s.pc[p].took ==> Wanted(s.pc[p]) == 0 || !s.pi.writeopen
  {
    hide RingOk;
    CountersMean(s);
    assert PcOk(s, p);
  }

  /** What a writer at work does next, kills apart, told by what has gone in and come out: it ends when
      all is in, fails without readers, sleeps on a full pipe and else puts in a byte. */
  lemma WriterMoves(s: State, p: nat)
    requires Inv(s) && p < |s.pc| && s.pc[p].Writing?
    ensures Enabled(s, WEnd(p)) <==> s.pc[p].rest == []
    ensures Enabled(s, WClosed(p)) <==> s.pc[p].rest != [] && !s.pi.readopen
    ensures Enabled(s, WFull(p)) <==> s.pc[p].rest != [] && s.pi.readopen && |s.appended| == |s.removed| + PIPESIZE
    ensures Enabled(s, WByte(p)) <==> s.pc[p].rest != [] && s.pi.readopen && |s.appended| < |s.removed| + PIPESIZE
  {
    CountersMean(s);
  }

  /** A reader sleeps on an empty pipe with writers; else it takes bytes while it wants some and there
      are some, and ends. */
  lemma ReaderMoves(s: State, p: nat)
    requires Inv(s) && p < |s.pc| && (s.pc[p].Testing? || s.pc[p].Reading?)
    ensures s.pc[p].Testing? ==> (Enabled(s, RSleep(p)) <==> |s.appended| == |s.removed| && s.pi.writeopen)
                                 && (Enabled(s, RGo(p)) <==> !Enabled(s, RSleep(p)))
    ensures s.pc[p].Reading? ==> (Enabled(s, RByte(p)) <==> s.pc[p].n > 0 && |s.appended| > |s.removed|)
                                 && (Enabled(s, REnd(p)) <==> !Enabled(s, RByte(p)))
  {
    CountersMean(s);
  }

  /** With the lock free no reader sleeps on a pipe with bytes in it or without writers, and no
      writer on a pipe with room or without readers. */
  lemma NobodyStranded(s: State, es: seq<Event>, s': State, p: nat)
    requires Fresh(s) && Runs(s, es, s') && Orderly(s, es) && p < |s'.pc| && s'.lock == None
    ensures s'.pc[p].RAsleep? ==> |s'.appended| == |s'.removed| && s'.pi.writeopen
    ensures s'.pc[p].WAsleep? ==> |s'.appended| == |s'.removed| + PIPESIZE && s'.pi.readopen
  {
    hide RingOk;
    FreshInv(s);
    RunKeeps(s, es, s');
    CountersMean(s');
    assert SleepOk(s', p);
  }

  lemma FreshInv(s: State)
    requires Fresh(s)
    ensures Inv(s)
  {
  }

  /** A run with a kill after which a reader sleeps on a pipe with a byte in it. */
  lemma KillLosesWakeup(s: State)
    requires Fresh(s) && |s.pc| >= 2
    ensures exists es, s' :: Runs(s, es, s') && Stranded(s')
  {
    hide RingOk;
    FreshInv(s);
    var s1 := Next(s, RStart(0, 1));
    var s2 := Next(s1, RSleep(0));
    var s3 := Next(s2, WStart(1, [7, 8]));
    var s4 := Next(s3, WByte(1));
    var s5 := Next(s4, WKilled(1));
    RunOne(s4, WKilled(1), [], s5);
    RunOne(s3, WByte(1), [WKilled(1)], s5);
    RunOne(s2, WStart(1, [7, 8]), [WByte(1), WKilled(1)], s5);
    RunOne(s1, RSleep(0), [WStart(1, [7, 8]), WByte(1), WKilled(1)], s5);
    RunOne(s, RStart(0, 1), [RSleep(0), WStart(1, [7, 8]), WByte(1), WKilled(1)], s5);
    assert s5.pc[0].RAsleep?;
  }

  lemma RunOne(s: State, e: Event, es: seq<Event>, s': State)
    requires Enabled(s, e) && Runs(Next(s, e), es, s')
    ensures Runs(s, [e] + es, s')
  {
    assert ([e] + es)[1..] == es;
  }
}
