/**
 The redo log as it lies on disk: which single-block writes a commit and a
 recovery issue, and what every crash between two of them leaves behind.

 A block is a sequence of words; the header block holds the count in word 0 and
 the home block numbers in the words after it, as `struct logheader` does.
 */
module CrashLog {

  type Block = seq<int>
  type Disk = seq<Block>

  datatype Write = Write(b: nat, data: Block)

  /** Where the log lies: header block `start`, then copies up to `start + nlog`;
      a transaction holds at most `cap` blocks. */
  datatype Layout = Layout(start: nat, nlog: nat, cap: nat, size: nat, words: nat) {
    ghost predicate Valid() {
      && cap < nlog
      && cap < words
      && start + nlog <= size
    }

    predicate InLog(b: int) {
      start <= b < start + nlog
    }

    /** Block numbers a transaction may hold: on the disk, outside the log, each once. */
    ghost predicate Targets(dst: seq<int>) {
      && |dst| <= cap
      && (forall i :: 0 <= i < |dst| ==> 0 <= dst[i] < size && !InLog(dst[i]))
      && (forall i, j :: 0 <= i < j < |dst| ==> dst[i] != dst[j])
    }

    ghost predicate DiskOk(d: Disk) {
      && |d| == size
      && (forall b :: 0 <= b < size ==> |d[b]| == words)
    }

    ghost predicate HeaderOk(d: Disk)
      requires Valid() && DiskOk(d)
    {
      && 0 <= d[start][0] <= cap
      && Targets(Dst(d))
    }

    /** The home block numbers named by the on-disk header. */
    function Dst(d: Disk): (r: seq<int>)
      requires start < |d| && |d[start]| > 0
      ensures 0 <= d[start][0] < |d[start]| ==> |r| == d[start][0]
    {
      if 0 <= d[start][0] < |d[start]| then d[start][1..1 + d[start][0]] else []
    }
  }

  function ApplyOne(d: Disk, w: Write): Disk {
    if w.b < |d| then d[w.b := w.data] else d
  }

  /** The disk after the writes `ws` reached it in order. */
  function Apply(d: Disk, ws: seq<Write>): (r: Disk)
    ensures |r| == |d|
    decreases |ws|
  {
    if ws == [] then d else ApplyOne(Apply(d, ws[..|ws| - 1]), ws[|ws| - 1])
  }

  /** Copies of the transaction's blocks into the log area. */
  function LogWrites(start: nat, data: seq<Block>): seq<Write> {
    seq(|data|, i requires 0 <= i < |data| => Write(start + 1 + i, data[i]))
  }

  /** Copies of the log blocks to their home locations. */
  function InstallWrites(dst: seq<int>, data: seq<Block>): seq<Write>
    requires |dst| == |data| && forall i :: 0 <= i < |dst| ==> 0 <= dst[i]
  {
    seq(|dst|, i requires 0 <= i < |dst| => Write(dst[i], data[i]))
  }

  /** The header block after `write_head`: only the count and the first entries change. */
  function PutHeader(h: Block, dst: seq<int>): (r: Block)
    requires |dst| < |h|
    ensures |r| == |h|
  {
    [|dst|] + dst + h[1 + |dst|..]
  }

  /** Everything `commit` writes, in order. */
  function CommitWrites(l: Layout, h: Block, dst: seq<int>, data: seq<Block>): seq<Write>
    requires |dst| == |data| < |h|
    requires forall i :: 0 <= i < |dst| ==> 0 <= dst[i]
  {
    if dst == [] then []
    else
      LogWrites(l.start, data) + [Write(l.start, PutHeader(h, dst))]
      + InstallWrites(dst, data) + [Write(l.start, PutHeader(h, dst)[0 := 0])]
  }

  /** Everything `recover_from_log` writes when it boots from disk `d`. */
  function RecoverWrites(l: Layout, d: Disk): seq<Write>
    requires l.start < |d| && |d[l.start]| > 0 && |d| >= l.start + 1 + |l.Dst(d)|
    requires forall i :: 0 <= i < |l.Dst(d)| ==> 0 <= l.Dst(d)[i]
  {
    InstallWrites(l.Dst(d), d[l.start + 1..l.start + 1 + |l.Dst(d)|])
    + [Write(l.start, d[l.start][0 := 0])]
  }

  // ---------------------------------------------------------------- meaning

  /** Replaying the log found on `d` yields exactly the home contents `home`. */
  ghost predicate Recoverable(l: Layout, d: Disk, home: Disk)
    requires l.Valid()
  {
    && l.DiskOk(d)
    && l.HeaderOk(d)
    && Replays(l, d, l.Dst(d), home)
  }

  /** Each target's copy in the log, and each other block itself, holds `home`. */
  ghost predicate Replays(l: Layout, d: Disk, dst: seq<int>, home: Disk)
    requires l.Valid() && l.Targets(dst)
  {
    && |d| == |home| == l.size
    && (forall i :: 0 <= i < |dst| ==> d[l.start + 1 + i] == home[dst[i]])
    && (forall b :: 0 <= b < l.size && !l.InLog(b) && b !in dst ==> d[b] == home[b])
  }

  /** The log is empty and the home blocks hold `home` themselves. */
  ghost predicate Clean(l: Layout, d: Disk, home: Disk)
    requires l.Valid()
  {
    && l.DiskOk(d)
    && d[l.start][0] == 0
    && |home| == l.size
    && (forall b :: 0 <= b < l.size && !l.InLog(b) ==> d[b] == home[b])
  }

  lemma CleanIsRecoverable(l: Layout, d: Disk, home: Disk)
    requires l.Valid() && Clean(l, d, home)
    ensures Recoverable(l, d, home)
  {
  }

  /** `d'` is `d` with the first `k` blocks of a transaction put in place. */
  ghost predicate Placed(l: Layout, d: Disk, dst: seq<int>, data: seq<Block>, k: nat, d': Disk)
    requires |dst| == |data| && k <= |dst| && |d| == l.size
    requires forall i :: 0 <= i < |dst| ==> 0 <= dst[i] < l.size
  {
    && |d'| == l.size
    && (forall i :: 0 <= i < k ==> d'[dst[i]] == data[i])
    && (forall b :: 0 <= b < l.size && b !in dst[..k] ==> d'[b] == d[b])
  }

  /** The home contents with all of a transaction's blocks replaced. */
  ghost function Update(home: Disk, dst: seq<int>, data: seq<Block>): (r: Disk)
    requires |dst| == |data|
    requires forall i :: 0 <= i < |dst| ==> 0 <= dst[i]
    ensures |r| == |home|
  {
    Apply(home, InstallWrites(dst, data))
  }

  // ------------------------------------------------------------ write lists

  lemma {:induction false} ApplyShape(l: Layout, d: Disk, ws: seq<Write>)
    requires l.DiskOk(d)
    requires forall i :: 0 <= i < |ws| ==> |ws[i].data| == l.words
    ensures l.DiskOk(Apply(d, ws))
  {
    if ws != [] { ApplyShape(l, d, ws[..|ws| - 1]); }
  }

  lemma {:induction false} ApplyConcat(d: Disk, a: seq<Write>, b: seq<Write>)
    ensures Apply(d, a + b) == Apply(Apply(d, a), b)
    decreases |b|
  {
    if b == [] {
      assert a + b == a;
    } else {
      assert (a + b)[..|a + b| - 1] == a + b[..|b| - 1];
      ApplyConcat(d, a, b[..|b| - 1]);
    }
  }

  /** The first `k` installs put the first `k` blocks in place and touch nothing else. */
  lemma {:induction false} InstallPrefix(l: Layout, d: Disk, dst: seq<int>, data: seq<Block>, k: nat)
    requires |d| == l.size && |dst| == |data| && k <= |dst|
    requires forall i :: 0 <= i < |dst| ==> 0 <= dst[i] < l.size
    requires forall i, j :: 0 <= i < j < |dst| ==> dst[i] != dst[j]
    ensures Placed(l, d, dst, data, k, Apply(d, InstallWrites(dst, data)[..k]))
    decreases k
  {
    if k > 0 {
      InstallPrefix(l, d, dst, data, k - 1);
      assert InstallWrites(dst, data)[..k][..k - 1] == InstallWrites(dst, data)[..k - 1];
      assert dst[..k] == dst[..k - 1] + [dst[k - 1]];
    }
  }

  /** The log copies of a transaction fill the log area and touch nothing else. */
  lemma {:induction false} LogPrefix(l: Layout, d: Disk, data: seq<Block>, k: nat)
    requires l.Valid() && |d| == l.size && |data| <= l.cap && k <= |data|
    ensures var d' := Apply(d, LogWrites(l.start, data)[..k]);
            && (forall i :: 0 <= i < k ==> d'[l.start + 1 + i] == data[i])
            && (forall b :: 0 <= b < l.size && (b == l.start || !l.InLog(b)) ==> d'[b] == d[b])
    decreases k
  {
    if k > 0 {
      LogPrefix(l, d, data, k - 1);
      assert LogWrites(l.start, data)[..k][..k - 1] == LogWrites(l.start, data)[..k - 1];
    }
  }

  // ------------------------------------------------------ one crash, one boot

  /** Installing any part of a replayable log keeps it replayable to the same contents. */
  lemma InstallKeeps(l: Layout, d: Disk, dst: seq<int>, data: seq<Block>, home: Disk, k: nat, d': Disk)
    requires l.Valid() && l.Targets(dst) && Replays(l, d, dst, home) && |dst| == |data| && k <= |dst|
    requires forall i :: 0 <= i < |dst| ==> data[i] == d[l.start + 1 + i]
    requires Placed(l, d, dst, data, k, d')
    ensures Replays(l, d', dst, home) && d'[l.start] == d[l.start]
    ensures k == |dst| ==> forall b :: 0 <= b < l.size && !l.InLog(b) ==> d'[b] == home[b]
  {
    forall b | 0 <= b < l.size && l.InLog(b) ensures d'[b] == d[b] {
      assert b !in dst[..k];
    }
    forall b | 0 <= b < l.size && !l.InLog(b) && (b !in dst || k == |dst|)
      ensures d'[b] == home[b]
    {
      if b in dst { var i :| 0 <= i < |dst| && dst[i] == b; }
    }
  }

  lemma LogBlocksSized(l: Layout, d: Disk, data: seq<Block>)
    requires l.Valid() && l.DiskOk(d) && |data| <= l.cap && data == d[l.start + 1..l.start + 1 + |data|]
    ensures forall i :: 0 <= i < |data| ==> |data[i]| == l.words
  {
  }

  lemma InstallSized(l: Layout, dst: seq<int>, data: seq<Block>, k: nat)
    requires |dst| == |data| && k <= |dst| && forall i :: 0 <= i < |dst| ==> 0 <= dst[i]
    requires forall i :: 0 <= i < |data| ==> |data[i]| == l.words
    ensures forall i :: 0 <= i < k ==> |InstallWrites(dst, data)[..k][i].data| == l.words
  {
  }

  lemma TargetsFit(l: Layout, dst: seq<int>)
    requires l.Valid() && l.Targets(dst)
    ensures l.start + 1 + |dst| <= l.size && |dst| <= l.cap && forall i :: 0 <= i < |dst| ==> 0 <= dst[i] < l.size
    ensures forall i, j :: 0 <= i < j < |dst| ==> dst[i] != dst[j]
  {
  }

  /** Installing the first k blocks of the log, on the disk. */
  lemma InstallOnDisk(l: Layout, d: Disk, dst: seq<int>, data: seq<Block>, home: Disk, k: nat)
    requires l.Valid() && l.DiskOk(d) && l.Targets(dst) && Replays(l, d, dst, home) && k <= |dst|
    requires data == d[l.start + 1..l.start + 1 + |dst|]
    requires forall i :: 0 <= i < |dst| ==> |data[i]| == l.words && 0 <= dst[i]
    ensures var e := Apply(d, InstallWrites(dst, data)[..k]);
            && l.DiskOk(e) && Replays(l, e, dst, home) && e[l.start] == d[l.start]
            && (k == |dst| ==> forall b :: 0 <= b < l.size && !l.InLog(b) ==> e[b] == home[b])
  {
    hide Replays, Placed, Apply, Layout.Targets;
    TargetsFit(l, dst);
    var ws := InstallWrites(dst, data)[..k];
    InstallPrefix(l, d, dst, data, k);
    InstallSized(l, dst, data, k);
    ApplyShape(l, d, ws);
    InstallKeeps(l, d, dst, data, home, k, Apply(d, ws));
  }

  lemma RecoverInstall(l: Layout, d: Disk, home: Disk, k: nat)
    requires l.Valid() && Recoverable(l, d, home) && k <= |l.Dst(d)|
    ensures var d' := Apply(d, RecoverWrites(l, d)[..k]);
            && Recoverable(l, d', home)
            && d'[l.start] == d[l.start]
            && (k == |l.Dst(d)| ==> forall b :: 0 <= b < l.size && !l.InLog(b) ==> d'[b] == home[b])
  {
    hide Replays, Apply, Layout.Targets;
    var dst := l.Dst(d);
    TargetsFit(l, dst);
    var data := d[l.start + 1..l.start + 1 + |dst|];
    LogBlocksSized(l, d, data);
    assert RecoverWrites(l, d)[..k] == InstallWrites(dst, data)[..k];
    InstallOnDisk(l, d, dst, data, home, k);
    SameHeader(l, d, Apply(d, InstallWrites(dst, data)[..k]), home);
  }

  lemma SameHeader(l: Layout, d: Disk, e: Disk, home: Disk)
    requires l.Valid() && l.DiskOk(d) && l.DiskOk(e) && e[l.start] == d[l.start] && l.HeaderOk(d)
    requires Replays(l, e, l.Dst(d), home)
    ensures Recoverable(l, e, home)
  {
    hide Replays;
    assert l.Dst(e) == l.Dst(d);
  }

  /** A crash anywhere inside a recovery leaves a disk that recovers to the same
      home contents, and a recovery that completes leaves a clean one. */
  lemma RecoverPrefix(l: Layout, d: Disk, home: Disk, k: nat)
    requires l.Valid() && Recoverable(l, d, home) && k <= |RecoverWrites(l, d)|
    ensures Recoverable(l, Apply(d, RecoverWrites(l, d)[..k]), home)
    ensures k == |RecoverWrites(l, d)| ==> Clean(l, Apply(d, RecoverWrites(l, d)[..k]), home)
  {
    var n := |l.Dst(d)|;
    if k <= n {
      RecoverInstall(l, d, home, k);
    } else {
      RecoverInstall(l, d, home, n);
      RecoverLast(l, d, k);
      ClearedIsClean(l, Apply(d, RecoverWrites(l, d)[..n]), home);
    }
  }

  /** The last write of a recovery clears the count in the header. */
  lemma RecoverLast(l: Layout, d: Disk, k: nat)
    requires l.Valid() && l.DiskOk(d) && l.HeaderOk(d) && k == |l.Dst(d)| + 1
    ensures k == |RecoverWrites(l, d)|
    ensures Apply(d, RecoverWrites(l, d)[..k]) == Apply(d, RecoverWrites(l, d)[..k - 1])[l.start := d[l.start][0 := 0]]
  {
    var ws := RecoverWrites(l, d);
    assert ws[..k][..k - 1] == ws[..k - 1] && ws[k - 1] == Write(l.start, d[l.start][0 := 0]);
  }

  lemma ClearedIsClean(l: Layout, d: Disk, home: Disk)
    requires l.Valid() && l.DiskOk(d) && |home| == l.size
    requires forall b :: 0 <= b < l.size && !l.InLog(b) ==> d[b] == home[b]
    ensures Clean(l, d[l.start := d[l.start][0 := 0]], home) && Recoverable(l, d[l.start := d[l.start][0 := 0]], home)
  {
    CleanIsRecoverable(l, d[l.start := d[l.start][0 := 0]], home);
  }

  lemma HeaderRoundTrip(l: Layout, c: Disk, h: Block, dst: seq<int>)
    requires l.Valid() && l.start < |c| && |h| == l.words && |dst| <= l.cap
    requires c[l.start] == PutHeader(h, dst)
    ensures l.Dst(c) == dst
  {
  }

  /** With the copies in the log, every target reads as the transaction wants it. */
  lemma LoggedReplays(l: Layout, d: Disk, home: Disk, dst: seq<int>, data: seq<Block>, c: Disk)
    requires l.Valid() && |d| == |home| == |c| == l.size && l.Targets(dst) && |dst| == |data|
    requires forall b :: 0 <= b < l.size && !l.InLog(b) ==> c[b] == d[b] == home[b]
    requires forall i :: 0 <= i < |dst| ==> c[l.start + 1 + i] == data[i]
    ensures Replays(l, c, dst, Update(home, dst, data))
  {
    var iw := InstallWrites(dst, data);
    assert iw[..|dst|] == iw && dst[..|dst|] == dst;
    InstallPrefix(l, home, dst, data, |dst|);
  }

  /** The disk right after the header write: the new transaction is replayable. */
  lemma Committed(l: Layout, d: Disk, home: Disk, dst: seq<int>, data: seq<Block>, c: Disk)
    requires l.Valid() && Clean(l, d, home) && TxnOk(l, dst, data)
    requires c == Apply(d, LogWrites(l.start, data))[l.start := PutHeader(d[l.start], dst)]
    ensures Recoverable(l, c, Update(home, dst, data))
    ensures l.Dst(c) == dst && c[l.start + 1..l.start + 1 + |dst|] == data
  {
    hide Update, Replays;
    var ws := LogWrites(l.start, data);
    assert ws[..|dst|] == ws;
    ApplyShape(l, d, ws);
    HeaderRoundTrip(l, c, d[l.start], dst);
    LogPrefix(l, d, data, |dst|);
    LoggedReplays(l, d, home, dst, data, c);
  }

  /** Until the header write, a commit has changed nothing a recovery looks at. */
  lemma BeforeCommit(l: Layout, d: Disk, home: Disk, data: seq<Block>, k: nat)
    requires l.Valid() && Clean(l, d, home) && k <= |data| <= l.cap
    requires forall i :: 0 <= i < |data| ==> |data[i]| == l.words
    ensures Recoverable(l, Apply(d, LogWrites(l.start, data)[..k]), home)
  {
    LogPrefix(l, d, data, k);
    ApplyShape(l, d, LogWrites(l.start, data)[..k]);
    CleanIsRecoverable(l, Apply(d, LogWrites(l.start, data)[..k]), home);
  }

  lemma CleanShape(l: Layout, d: Disk, home: Disk)
    requires l.Valid() && Clean(l, d, home)
    ensures l.DiskOk(d) && |d[l.start]| == l.words
  {
  }

  /** A transaction without blocks changes nothing. */
  lemma EmptyCommit(l: Layout, d: Disk, home: Disk, dst: seq<int>, data: seq<Block>)
    requires l.Valid() && Clean(l, d, home) && dst == [] && data == []
    ensures Apply(d, []) == d && Update(home, dst, data) == home && Recoverable(l, d, home)
  {
    assert InstallWrites(dst, data) == [];
    CleanIsRecoverable(l, d, home);
  }

  /** A crash after the first `k` writes of a commit recovers to the old home
      contents exactly up to the header write, and to the new ones from it on. */
  lemma CommitPrefix(l: Layout, d: Disk, home: Disk, dst: seq<int>, data: seq<Block>, k: nat)
    requires l.Valid() && Clean(l, d, home) && TxnOk(l, dst, data)
    requires k <= |CommitWrites(l, d[l.start], dst, data)|
    ensures var d' := Apply(d, CommitWrites(l, d[l.start], dst, data)[..k]);
            && Recoverable(l, d', if k <= |dst| then home else Update(home, dst, data))
            && (k == |CommitWrites(l, d[l.start], dst, data)| ==> Clean(l, d', Update(home, dst, data)))
  {
    hide Recoverable, Clean, Apply, Update;
    CleanShape(l, d, home);
    var n := |dst|;
    var ws := CommitWrites(l, d[l.start], dst, data);
    var logs := LogWrites(l.start, data);
    if n == 0 {
      EmptyCommit(l, d, home, dst, data);
      assert ws[..k] == [];
    } else if k <= n {
      assert ws[..k] == logs[..k];
      BeforeCommit(l, d, home, data, k);
    } else {
      AfterCommit(l, d, home, dst, data, k - n - 1);
      assert ws[..k] == (logs + [Write(l.start, PutHeader(d[l.start], dst))])
          + TailWrites(l, d[l.start], dst, data)[..k - n - 1];
    }
  }

  /** What a commit writes after its header. */
  function TailWrites(l: Layout, h: Block, dst: seq<int>, data: seq<Block>): seq<Write>
    requires |dst| == |data| < |h|
    requires forall i :: 0 <= i < |dst| ==> 0 <= dst[i]
  {
    InstallWrites(dst, data) + [Write(l.start, PutHeader(h, dst)[0 := 0])]
  }

  lemma SameTail(l: Layout, c: Disk, h: Block, dst: seq<int>, data: seq<Block>)
    requires |dst| == |data| < |h| && (forall i :: 0 <= i < |dst| ==> 0 <= dst[i])
    requires l.start + 1 + |dst| <= |c| && c[l.start] == PutHeader(h, dst)
    requires l.Dst(c) == dst && c[l.start + 1..l.start + 1 + |dst|] == data
    ensures RecoverWrites(l, c) == TailWrites(l, h, dst, data)
  {
  }

  /** From the header write on, the rest of a commit is what a recovery would do. */
  lemma AfterCommit(l: Layout, d: Disk, home: Disk, dst: seq<int>, data: seq<Block>, k: nat)
    requires l.Valid() && Clean(l, d, home) && TxnOk(l, dst, data)
    requires k <= |TailWrites(l, d[l.start], dst, data)|
    ensures var d' := Apply(d, LogWrites(l.start, data) + [Write(l.start, PutHeader(d[l.start], dst))]
                               + TailWrites(l, d[l.start], dst, data)[..k]);
            && Recoverable(l, d', Update(home, dst, data))
            && (k == |TailWrites(l, d[l.start], dst, data)| ==> Clean(l, d', Update(home, dst, data)))
  {
    var logs, hw := LogWrites(l.start, data), Write(l.start, PutHeader(d[l.start], dst));
    var c := Apply(d, logs + [hw]);
    assert (logs + [hw])[..|logs|] == logs;
    Committed(l, d, home, dst, data, c);
    SameTail(l, c, d[l.start], dst, data);
    ApplyConcat(d, logs + [hw], RecoverWrites(l, c)[..k]);
    RecoverPrefix(l, c, Update(home, dst, data), k);
  }

  // ------------------------------------------------------------- whole runs

  /** What can happen to the disk: a commit or a recovery, completed or cut off
      after `k` of its block writes. */
  datatype Event =
    | Commit(dst: seq<int>, data: seq<Block>)
    | CrashCommit(dst: seq<int>, data: seq<Block>, k: nat)
    | Recover
    | CrashRecover(k: nat)

  datatype State = State(disk: Disk, up: bool)

  ghost predicate TxnOk(l: Layout, dst: seq<int>, data: seq<Block>) {
    && l.Targets(dst)
    && |dst| == |data|
    && (forall i :: 0 <= i < |data| ==> |data[i]| == l.words)
  }

  /** Commits happen on a running system; after a crash only recoveries do. */
  ghost predicate Step(l: Layout, s: State, e: Event, t: State)
    requires l.Valid()
  {
    && l.DiskOk(s.disk)
    && l.HeaderOk(s.disk)
    && match e
       case Commit(dst, data) =>
         && s.up && TxnOk(l, dst, data)
         && t == State(Apply(s.disk, CommitWrites(l, s.disk[l.start], dst, data)), true)
       case CrashCommit(dst, data, k) =>
         && s.up && TxnOk(l, dst, data)
         && k <= |CommitWrites(l, s.disk[l.start], dst, data)|
         && t == State(Apply(s.disk, CommitWrites(l, s.disk[l.start], dst, data)[..k]), false)
       case Recover =>
         && !s.up
         && t == State(Apply(s.disk, RecoverWrites(l, s.disk)), true)
       case CrashRecover(k) =>
         && !s.up && k <= |RecoverWrites(l, s.disk)|
         && t == State(Apply(s.disk, RecoverWrites(l, s.disk)[..k]), false)
  }

  ghost predicate Run(l: Layout, ss: seq<State>, es: seq<Event>)
    requires l.Valid()
    decreases |es|
  {
    && |ss| == |es| + 1
    && (es != [] ==> Run(l, ss[..|es|], es[..|es| - 1])
                     && Step(l, ss[|es| - 1], es[|es| - 1], ss[|es|]))
  }

  /** The reference: home contents change by whole transactions, those whose header
      write reached the disk, and by nothing else. */
  ghost function Abstract(l: Layout, home: Disk, es: seq<Event>): (r: Disk)
    ensures |r| == |home|
    decreases |es|
  {
    if es == [] then home else AbstractStep(l, Abstract(l, home, es[..|es| - 1]), es[|es| - 1])
  }

  ghost function AbstractStep(l: Layout, h: Disk, e: Event): (r: Disk)
    ensures |r| == |h|
  {
    match e
    case Commit(dst, data) => if TxnOk(l, dst, data) then Update(h, dst, data) else h
    case CrashCommit(dst, data, k) => if TxnOk(l, dst, data) && k > |dst| then Update(h, dst, data) else h
    case _ => h
  }

  ghost predicate Agrees(l: Layout, s: State, home: Disk)
    requires l.Valid()
  {
    && Recoverable(l, s.disk, home)
    && (s.up ==> Clean(l, s.disk, home))
  }

  lemma StepAgrees(l: Layout, s: State, e: Event, t: State, h: Disk)
    requires l.Valid() && Step(l, s, e, t) && Agrees(l, s, h)
    ensures Agrees(l, t, AbstractStep(l, h, e))
  {
    match e
    case Commit(dst, data) =>
      var ws := CommitWrites(l, s.disk[l.start], dst, data);
      assert ws[..|ws|] == ws;
      CommitPrefix(l, s.disk, h, dst, data, |ws|);
      CleanIsRecoverable(l, t.disk, Update(h, dst, data));
    case CrashCommit(dst, data, k) =>
      CommitPrefix(l, s.disk, h, dst, data, k);
    case Recover =>
      var ws := RecoverWrites(l, s.disk);
      assert ws[..|ws|] == ws;
      RecoverPrefix(l, s.disk, h, |ws|);
    case CrashRecover(k) =>
      RecoverPrefix(l, s.disk, h, k);
  }

  /** Crash atomicity and durability over every run: however commits and recoveries
      crash, the disk always replays to the whole-transaction reference, and whenever
      the system is up the home blocks are that reference. */
  lemma {:induction false} CrashAtomicity(l: Layout, home: Disk, ss: seq<State>, es: seq<Event>)
    requires l.Valid() && Run(l, ss, es) && Agrees(l, ss[0], home)
    ensures Agrees(l, ss[|es|], Abstract(l, home, es))
    decreases |es|
  {
    if es != [] {
      var n := |es| - 1;
      CrashAtomicity(l, home, ss[..n + 1], es[..n]);
      StepAgrees(l, ss[n], es[n], ss[n + 1], Abstract(l, home, es[..n]));
    }
  }
}
