/**
 begin_op, end_op and log_write (kernel/log.c) as steps of many processes. Each step
 is one critical section under log.lock; the commit itself runs without the lock,
 between the end_op that starts it and the step that clears `committing`.
 */
module GroupCommit {

  /** Sizes: an operation may add `maxop` blocks, the header holds `logsize`, and the
      on-disk log has `nlog` blocks including the header. */
  datatype Config = Config(maxop: nat, logsize: nat, nlog: int) {
    /** LOGSIZE is a whole number of operations (kernel/param.h). */
    ghost predicate Valid() {
      1 <= maxop <= logsize && logsize % maxop == 0
    }

    /** The two guards of log_write that panic with "too big a transaction". */
    predicate TooBig(n: nat) {
      n >= logsize || n >= nlog - 1
    }
  }

  /** A process outside any operation, or inside one that has appended `used` blocks. */
  datatype Op = Idle | Running(used: nat)

  /** The shared log state, what each process is doing, and who sleeps in begin_op. */
  datatype State = State(
    outstanding: int,
    committing: bool,
    block: seq<nat>,
    ops: seq<Op>,
    sleeping: set<nat>,
    panicked: bool)

  datatype Event =
    | BeginOp(p: nat)
    | LogWrite(p: nat, b: nat)
    | EndOp(p: nat)
    | CommitDone
    | Awake(p: nat)

  ghost predicate Init(s: State) {
    && s.outstanding == 0 && !s.committing && s.block == [] && s.sleeping == {} && !s.panicked
    && (forall p :: 0 <= p < |s.ops| ==> s.ops[p] == Idle)
  }

  predicate NoRoom(c: Config, s: State) {
    |s.block| + (s.outstanding + 1) * c.maxop > c.logsize
  }

  /** What each process may do, and what the code then does. A process uses at most
      `maxop` appends per operation; a panic stops the run. */
  ghost predicate Step(c: Config, s: State, e: Event, t: State) {
    && !s.panicked
    && match e
       case BeginOp(p) =>
         // the first try, or the retry after a wakeup
         && p < |s.ops| && s.ops[p].Idle? && p !in s.sleeping
         && t == (if s.committing || NoRoom(c, s) then s.(sleeping := s.sleeping + {p})
                  else s.(outstanding := s.outstanding + 1, ops := s.ops[p := Running(0)]))
       case LogWrite(p, b) =>
         && p < |s.ops| && s.ops[p].Running?
         && (b !in s.block ==> s.ops[p].used < c.maxop)
         && t == (if c.TooBig(|s.block|) || s.outstanding < 1 then s.(panicked := true)
                  else if b in s.block then s
                  else s.(block := s.block + [b], ops := s.ops[p := Running(s.ops[p].used + 1)]))
       case EndOp(p) =>
         && p < |s.ops| && s.ops[p].Running?
         && t == EndOp1(s.(outstanding := s.outstanding - 1, ops := s.ops[p := Idle]))
       case CommitDone =>
         && s.committing
         && t == s.(block := [], committing := false, sleeping := {})
       case Awake(p) =>
         // kill() makes a sleeper runnable; it will look again
         && p in s.sleeping
         && t == s.(sleeping := s.sleeping - {p})
  }

  /** The rest of end_op once outstanding has been decremented. */
  function EndOp1(s: State): State {
    if s.committing then s.(panicked := true)
    else if s.outstanding == 0 then s.(committing := true)
    else s.(sleeping := {})
  }

  ghost predicate Run(c: Config, ss: seq<State>, es: seq<Event>)
    decreases |es|
  {
    && |ss| == |es| + 1
    && (if es == [] then Init(ss[0])
        else Run(c, ss[..|es|], es[..|es| - 1]) && Step(c, ss[|es| - 1], es[|es| - 1], ss[|es|]))
  }

  /** How many operations are in progress. */
  ghost function Active(ops: seq<Op>): nat {
    if ops == [] then 0 else (if ops[|ops| - 1].Running? then 1 else 0) + Active(ops[..|ops| - 1])
  }

  /** Log blocks they may still append. */
  ghost function Unused(c: Config, ops: seq<Op>): int {
    if ops == [] then 0 else Left(c, ops[|ops| - 1]) + Unused(c, ops[..|ops| - 1])
  }

  ghost function Left(c: Config, op: Op): int {
    if op.Running? then c.maxop - op.used else 0
  }

  lemma {:induction false} Update(c: Config, ops: seq<Op>, p: nat, op: Op)
    requires p < |ops|
    ensures Unused(c, ops[p := op]) == Unused(c, ops) - Left(c, ops[p]) + Left(c, op)
    ensures Active(ops[p := op]) == Active(ops) - (if ops[p].Running? then 1 else 0) + (if op.Running? then 1 else 0)
    decreases |ops|
  {
    var n := |ops| - 1;
    if p == n {
      assert ops[p := op][..n] == ops[..n];
    } else {
      assert ops[p := op][..n] == ops[..n][p := op];
      Update(c, ops[..n], p, op);
    }
  }

  lemma {:induction false} Bounds(c: Config, ops: seq<Op>)
    requires forall p :: 0 <= p < |ops| && ops[p].Running? ==> ops[p].used <= c.maxop
    ensures 0 <= Unused(c, ops) <= Active(ops) * c.maxop
    ensures forall p :: 0 <= p < |ops| ==> Left(c, ops[p]) <= Unused(c, ops)
    ensures forall p :: 0 <= p < |ops| && ops[p].Running? ==> Active(ops) > 0
    decreases |ops|
  {
    if ops != [] {
      var n := |ops| - 1;
      Bounds(c, ops[..n]);
      assert forall p :: 0 <= p < n ==> ops[..n][p] == ops[p];
      assert Active(ops) * c.maxop == Active(ops[..n]) * c.maxop + (if ops[n].Running? then c.maxop else 0);
    }
  }

  // ------------------------------------------------------------ what every step keeps

  ghost predicate Inv(c: Config, s: State) {
    && s.outstanding == Active(s.ops)
    && (forall p :: 0 <= p < |s.ops| && s.ops[p].Running? ==> s.ops[p].used <= c.maxop)
    && (s.committing ==> Active(s.ops) == 0)
    && (!s.committing && Active(s.ops) == 0 && !s.panicked ==> s.block == [])
    && |s.block| + Unused(c, s.ops) <= c.logsize
    && (s.sleeping != {} && !s.panicked ==> s.committing || NoRoom(c, s))
  }

  lemma BeginKeeps(c: Config, s: State, p: nat, t: State)
    requires c.Valid() && Inv(c, s) && Step(c, s, BeginOp(p), t)
    ensures Inv(c, t)
  {
    Bounds(c, s.ops);
    Update(c, s.ops, p, Running(0));
    assert (s.outstanding + 1) * c.maxop == Active(s.ops) * c.maxop + c.maxop;
  }

  lemma WriteKeeps(c: Config, s: State, p: nat, b: nat, t: State)
    requires c.Valid() && Inv(c, s) && Step(c, s, LogWrite(p, b), t)
    ensures Inv(c, t)
  {
    Bounds(c, s.ops);
    Update(c, s.ops, p, Running(s.ops[p].used + 1));
  }

  lemma StepKeeps(c: Config, s: State, e: Event, t: State)
    requires c.Valid() && Inv(c, s) && Step(c, s, e, t)
    ensures Inv(c, t)
  {
    match e
    case BeginOp(p) => BeginKeeps(c, s, p, t);
    case LogWrite(p, b) => WriteKeeps(c, s, p, b, t);
    case EndOp(p) =>
      Bounds(c, s.ops);
      Update(c, s.ops, p, Idle);
    case CommitDone => Bounds(c, s.ops);
    case Awake(p) =>
  }

  lemma {:induction false} InitKeeps(c: Config, ops: seq<Op>)
    requires forall p :: 0 <= p < |ops| ==> ops[p] == Idle
    ensures Active(ops) == 0 && Unused(c, ops) == 0
  {
    if ops != [] { InitKeeps(c, ops[..|ops| - 1]); }
  }

  lemma {:induction false} RunKeeps(c: Config, ss: seq<State>, es: seq<Event>)
    requires c.Valid() && Run(c, ss, es)
    ensures Inv(c, ss[|es|])
    decreases |es|
  {
    if es == [] {
      InitKeeps(c, ss[0].ops);
    } else {
      RunKeeps(c, ss[..|es|], es[..|es| - 1]);
      StepKeeps(c, ss[|es| - 1], es[|es| - 1], ss[|es|]);
    }
  }

  // -------------------------------------------------------------------- what it is for

  /** While a commit runs no operation is in progress, so no log_write can happen and
      nobody else can start a commit. */
  lemma CommitRunsAlone(c: Config, ss: seq<State>, es: seq<Event>, e: Event, t: State)
    requires c.Valid() && Run(c, ss, es) && ss[|es|].committing && Step(c, ss[|es|], e, t)
    ensures ss[|es|].outstanding == 0
    ensures !e.LogWrite? && !e.EndOp?
    ensures t.block == ss[|es|].block || e.CommitDone?
  {
    RunKeeps(c, ss, es);
    Bounds(c, ss[|es|].ops);
  }

  /** The blocks logged and all budgets still open fit the log, so a log_write that
      appends never finds it full, and no step but a log_write ever panics. */
  lemma BudgetHolds(c: Config, ss: seq<State>, es: seq<Event>, e: Event, t: State)
    requires c.Valid() && Run(c, ss, es) && Step(c, ss[|es|], e, t)
    ensures |ss[|es|].block| + Unused(c, ss[|es|].ops) <= c.logsize
    ensures e.LogWrite? && e.b !in ss[|es|].block ==> |ss[|es|].block| < c.logsize
    ensures t.panicked ==> e.LogWrite? && c.TooBig(|ss[|es|].block|)
  {
    RunKeeps(c, ss, es);
    Bounds(c, ss[|es|].ops);
  }

  /** Nobody sleeps in begin_op while it could go on, and while anybody sleeps there is
      a commit or an operation in progress whose end wakes them. */
  lemma NoLostWakeup(c: Config, ss: seq<State>, es: seq<Event>)
    requires c.Valid() && Run(c, ss, es) && !ss[|es|].panicked && ss[|es|].sleeping != {}
    ensures ss[|es|].committing || NoRoom(c, ss[|es|])
    ensures ss[|es|].committing || ss[|es|].outstanding > 0
  {
    RunKeeps(c, ss, es);
  }

  /** What is logged gets committed: while blocks are pending, an operation is in progress or a
      commit runs, and every block logged is among them until a commit has ended. */
  lemma LoggedIsCommitted(c: Config, ss: seq<State>, es: seq<Event>)
    requires c.Valid() && Run(c, ss, es) && !ss[|es|].panicked
    ensures ss[|es|].block != [] ==> ss[|es|].committing || ss[|es|].outstanding > 0
    ensures forall n :: 0 <= n < |es| && es[n].LogWrite? && (forall k :: n < k < |es| ==> es[k] != CommitDone) ==>
              es[n].b in ss[|es|].block
  {
    RunKeeps(c, ss, es);
    forall n | 0 <= n < |es| && es[n].LogWrite? && (forall k :: n < k < |es| ==> es[k] != CommitDone)
      ensures es[n].b in ss[|es|].block
    {
      LoggedStays(c, ss, es, n);
    }
  }

  lemma {:induction false} LoggedStays(c: Config, ss: seq<State>, es: seq<Event>, n: nat)
    requires Run(c, ss, es) && n < |es| && es[n].LogWrite? && !ss[|es|].panicked
    requires forall k :: n < k < |es| ==> es[k] != CommitDone
    ensures es[n].b in ss[|es|].block
    decreases |es|
  {
    var m := |es| - 1;
    if n < m { LoggedStays(c, ss[..|es|], es[..m], n); }
  }

  // --------------------------------------------------- exactly when log_write can panic

  ghost predicate Reaches(c: Config, s: State) {
    exists ss: seq<State>, es: seq<Event> :: Run(c, ss, es) && ss[|es|] == s
  }

  lemma Extend(c: Config, s: State, e: Event, t: State)
    requires Reaches(c, s) && Step(c, s, e, t)
    ensures Reaches(c, t)
  {
    var ss: seq<State>, es: seq<Event> :| Run(c, ss, es) && ss[|es|] == s;
    var ss', es' := ss + [t], es + [e];
    assert ss'[..|es'|] == ss && es'[..|es'| - 1] == es;
    assert Run(c, ss', es') && ss'[|es'|] == t;
  }

  /** The state with k operations begun, where m blocks were logged one process after the other. */
  ghost function Filled(c: Config, n: nat, k: nat, m: nat): State {
    State(k, false, seq(m, i requires 0 <= i < m => i),
          seq(n, p requires 0 <= p < n => if p < k then Running(Share(c, p, m)) else Idle), {}, false)
  }

  ghost function Share(c: Config, p: nat, m: nat): nat {
    if m <= p * c.maxop then 0 else if m >= (p + 1) * c.maxop then c.maxop else m - p * c.maxop
  }

  lemma {:induction false} Admit(c: Config, n: nat, k: nat)
    requires c.Valid() && k <= n && k * c.maxop <= c.logsize
    ensures Reaches(c, Filled(c, n, k, 0))
    decreases k
  {
    var t := Filled(c, n, k, 0);
    if k == 0 {
      assert Init(t);
      var es: seq<Event> := [];
      assert Run(c, [t], es) && [t][|es|] == t;
    } else {
      Monotone(k - 1, k, c.maxop);
      Admit(c, n, k - 1);
      var s := Filled(c, n, k - 1, 0);
      assert t.ops == s.ops[k - 1 := Running(0)];
      Extend(c, s, BeginOp(k - 1), t);
    }
  }

  lemma Monotone(a: nat, b: nat, x: nat)
    requires a <= b
    ensures a * x <= b * x
  {
    assert (b - a) * x >= 0;
    assert b * x == a * x + (b - a) * x;
  }

  /** Exactly one process appends the m-th block. */
  lemma Appender(c: Config, m: nat, p: nat, k: nat)
    requires c.Valid() && 0 < m <= c.logsize && p == (m - 1) / c.maxop && k * c.maxop == c.logsize
    ensures p < k && Share(c, p, m - 1) < c.maxop && Share(c, p, m) == Share(c, p, m - 1) + 1
    ensures forall q: nat :: q != p ==> Share(c, q, m) == Share(c, q, m - 1)
  {
    Euclid(m - 1, c.maxop);
    if p >= k { Monotone(k, p, c.maxop); }
    forall q: nat | q != p ensures Share(c, q, m) == Share(c, q, m - 1) {
      if q < p { Monotone(q + 1, p, c.maxop); } else { Monotone(p + 1, q, c.maxop); }
    }
  }

  lemma Euclid(a: nat, x: nat)
    requires x > 0
    ensures (a / x) * x <= a < (a / x + 1) * x
  {
  }

  lemma FilledNext(c: Config, n: nat, k: nat, m: nat)
    requires c.Valid() && k <= n && k * c.maxop == c.logsize && 0 < m <= c.logsize && !c.TooBig(m - 1)
    ensures Step(c, Filled(c, n, k, m - 1), LogWrite((m - 1) / c.maxop, m - 1), Filled(c, n, k, m))
  {
    hide Share;
    var s, t, p := Filled(c, n, k, m - 1), Filled(c, n, k, m), (m - 1) / c.maxop;
    Appender(c, m, p, k);
    assert t.block == s.block + [m - 1];
    assert t.ops == s.ops[p := Running(s.ops[p].used + 1)];
    assert m - 1 !in s.block;
  }

  /** With every operation admitted, any number of blocks up to LOGSIZE can be logged. */
  lemma {:induction false} Fill(c: Config, n: nat, k: nat, m: nat)
    requires c.Valid() && k <= n && k * c.maxop == c.logsize && m <= c.logsize && (m > 0 ==> !c.TooBig(m - 1))
    ensures Reaches(c, Filled(c, n, k, m))
    decreases m
  {
    hide Filled, Step, Reaches;
    if m == 0 {
      Admit(c, n, k);
    } else {
      Fill(c, n, k, m - 1);
      FilledNext(c, n, k, m);
      Extend(c, Filled(c, n, k, m - 1), LogWrite((m - 1) / c.maxop, m - 1), Filled(c, n, k, m));
    }
  }

  /** Some run has an appending log_write panic. */
  ghost predicate AppendCanPanic(c: Config) {
    exists s: State, p: nat, b: nat, t: State ::
      Reaches(c, s) && b !in s.block && Step(c, s, LogWrite(p, b), t) && t.panicked
  }

  lemma AppendPanics(c: Config)
    requires c.Valid() && c.nlog <= c.logsize
    ensures AppendCanPanic(c)
  {
    var m: nat := if c.nlog <= 1 then 0 else c.nlog - 1;
    var k, p := c.logsize / c.maxop, m / c.maxop;
    Whole(c.logsize, c.maxop);
    Fill(c, k, k, m);
    Appender(c, m + 1, p, k);
    FullPanics(c, k, m, p, m);
  }

  /** With m blocks logged and no room for more, any log_write panics. */
  lemma FullPanics(c: Config, k: nat, m: nat, p: nat, b: nat)
    requires Reaches(c, Filled(c, k, k, m)) && c.TooBig(m) && p < k && (b >= m ==> Share(c, p, m) < c.maxop)
    ensures var s := Filled(c, k, k, m);
            Reaches(c, s) && (b in s.block <==> b < m) && Step(c, s, LogWrite(p, b), s.(panicked := true))
  {
    hide Reaches;
    var s := Filled(c, k, k, m);
    if b < m { assert s.block[b] == b; }
  }

  lemma Whole(a: nat, x: nat)
    requires x > 0 && a % x == 0
    ensures a / x * x == a
  {
  }

  lemma AppendFits(c: Config, s: State, p: nat, b: nat, t: State)
    requires c.Valid() && c.nlog > c.logsize && Reaches(c, s) && b !in s.block && Step(c, s, LogWrite(p, b), t)
    ensures !t.panicked
  {
    var ss: seq<State>, es: seq<Event> :| Run(c, ss, es) && ss[|es|] == s;
    BudgetHolds(c, ss, es, LogWrite(p, b), t);
  }

  /** An appending log_write can panic in some run exactly when the on-disk log is not
      larger than LOGSIZE, as is the case for the image mkfs builds. */
  lemma AppendPanicIff(c: Config)
    requires c.Valid()
    ensures AppendCanPanic(c) <==> c.nlog <= c.logsize
  {
    hide Reaches, Step;
    if c.nlog <= c.logsize {
      AppendPanics(c);
    } else {
      forall s: State, p: nat, b: nat, t: State | Reaches(c, s) && b !in s.block && Step(c, s, LogWrite(p, b), t)
        ensures !t.panicked
      {
        AppendFits(c, s, p, b, t);
      }
    }
  }

  /** How many blocks a transaction can hold. */
  function Cap(c: Config): int {
    if c.nlog - 1 < c.logsize then c.nlog - 1 else c.logsize
  }

  /** Some run has a log_write panic for a block already in the log, which needs no room. */
  ghost predicate AbsorbCanPanic(c: Config) {
    exists s: State, p: nat, b: nat, t: State ::
      Reaches(c, s) && b in s.block && Step(c, s, LogWrite(p, b), t) && t.panicked
  }

  lemma AbsorbPanics(c: Config)
    requires c.Valid() && c.nlog >= 2
    ensures AbsorbCanPanic(c)
  {
    var k, m := c.logsize / c.maxop, Cap(c);
    Whole(c.logsize, c.maxop);
    Fill(c, k, k, m);
    FullPanics(c, k, m, 0, 0);
  }

  lemma {:induction false} BlockFits(c: Config, ss: seq<State>, es: seq<Event>)
    requires c.Valid() && Run(c, ss, es)
    ensures ss[|es|].block == [] || |ss[|es|].block| <= Cap(c)
    decreases |es|
  {
    if es != [] {
      BlockFits(c, ss[..|es|], es[..|es| - 1]);
    }
  }

  /** The guard stands before the absorption scan, so such a panic is possible unless the log
      has no room for any block. */
  lemma AbsorbPanicIff(c: Config)
    requires c.Valid()
    ensures AbsorbCanPanic(c) <==> c.nlog >= 2
  {
    hide Step;
    if c.nlog >= 2 {
      AbsorbPanics(c);
    } else if AbsorbCanPanic(c) {
      var s: State, p: nat, b: nat, t: State :| Reaches(c, s) && b in s.block && Step(c, s, LogWrite(p, b), t)
          && t.panicked;
      var ss: seq<State>, es: seq<Event> :| Run(c, ss, es) && ss[|es|] == s;
      BlockFits(c, ss, es);
    }
  }

  /** In any run a log_write of a block already logged panics exactly when the log is full. */
  lemma AbsorbPanicsWhenFull(c: Config, ss: seq<State>, es: seq<Event>, p: nat, b: nat, t: State)
    requires c.Valid() && Run(c, ss, es) && Step(c, ss[|es|], LogWrite(p, b), t) && b in ss[|es|].block
    ensures t.panicked <==> |ss[|es|].block| == Cap(c)
  {
    RunKeeps(c, ss, es);
    Bounds(c, ss[|es|].ops);
    BlockFits(c, ss, es);
  }
}
