/**
 fork as a transaction on physical memory (kernel/proc.c): the child gets a copy of the
 parent's memory, or exactly the pages are free that were free before. What exec shares
 with it, a page held on the side, is here too.
 */
module ForkExec {
  import opened PageTable
  import opened Frames
  import opened Vm
  import opened UserMemory
  import opened Lifecycle
  import opened ProcMemory

  // ------------------------------------------------------------ with one page held on the side

  lemma AllocIntact(m0: Mem, m1: Mem, p: nat, r: nat)
    requires Frame(m0, Forget(m1, p), r, 0, 0) && p < |m0.role| && m0.role[p].Free? && m1.role == m0.role[p := Held]
    ensures Intact(m0, Forget(m1, p))
  {
    hide EntryOf;
  }

  lemma ForgetIntact(m1: Mem, m2: Mem, p: nat)
    requires Intact(m1, m2) && p < |m1.role| && m1.role[p] == Held
    ensures m2.role[p] == Held && Intact(Forget(m1, p), Forget(m2, p))
  {
    hide EntryOf;
    forall x: nat, w: nat | IsRoot(Forget(m1, p).role, x) ensures EntryOf(m2.page, x, w) == EntryOf(m1.page, x, w) {
      assert IsRoot(m1.role, x);
    }
  }

  lemma ForgetNew(m1: Mem, m2: Mem, p: nat, r: nat)
    requires OnlyNew(m1, m2, r) && p < |m1.role| && m1.role[p] == Held
    ensures m2.role[p] == Held && OnlyNew(Forget(m1, p), Forget(m2, p), r)
  {
    hide EntryOf;
    forall x: nat, w: nat | IsRoot(Forget(m1, p).role, x) && x != r
      ensures EntryOf(m2.page, x, w) == EntryOf(m1.page, x, w)
    {
      assert IsRoot(m1.role, x);
    }
  }

  lemma FreedIntact(m2: Mem, m3: Mem, p: nat, r: nat)
    requires Frame(Forget(m2, p), m3, r, 0, 0) && p < |m2.role| == |m3.role| && m3.role == m2.role[p := m3.role[p]]
    requires m3.role[p].Free?
    ensures Intact(Forget(m2, p), m3)
  {
    hide EntryOf;
  }

  lemma ForgetOk(m: Mem, p: nat)
    requires TablesOk(m.page, m.role) && p < |m.role| && m.role[p] == Held
    ensures TablesOk(Forget(m, p).page, Forget(m, p).role)
  {
    TablesSized(m.page, m.role);
    LooseKeeps(m.page, m.role, p, m.page[p], Free(0));
    assert m.page[p := m.page[p]] == m.page;
  }

  lemma FreshProc(m: Mem, r: nat, tramp: nat, trap: nat)
    requires Fresh(m, r, tramp, trap) && V(tramp) && V(trap)
    ensures ProcSpace(m, r, 0)
  {
  }

  /** A space other than the one worked on, and what a space has above user memory, stay. */
  lemma ProcSpaceKept(m: Mem, m': Mem, r: nat, lo: nat, hi: nat, x: nat, n: nat, n': nat)
    requires Frame(m, m', r, lo, hi) && ProcSpace(m, x, n) && hi <= TRAPFRAME
    requires if x == r then Space(m', x, n') else n' == n
    ensures ProcSpace(m', x, n')
  {
    hide EntryOf, V;
    assert RoleFrame(m.role[x], m'.role[x], r, lo, hi);
  }

  lemma ForgetProc(m: Mem, m': Mem, p: nat, x: nat, n: nat, r: nat)
    requires ProcSpace(m, x, n) && p < |m.role| && m.role[p] == Held && Frame(Forget(m, p), m', r, 0, 0)
    ensures ProcSpace(m', x, n)
  {
    hide EntryOf, V;
    ProcSpaceKept(Forget(m, p), m', r, 0, 0, x, n, n);
  }

  // ------------------------------------------------------------------------------- fork

  /** The memory side of fork: allocproc and uvmcopy; c is the child's page table, 0 on failure. */
  method Fork(k: Kernel, r: nat, sz: nat, trampoline: nat) returns (c: nat, tf: nat)
    requires k.Valid() && ProcSpace(k.Now(), r, PgUp(sz)) && |k.role| <= TRAPFRAME
    modifies k
    ensures k.Valid()
    ensures c == 0 ==> Intact(old(k.Now()), k.Now())
    ensures c != 0 ==> ProcSpace(k.Now(), c, PgUp(sz)) && Copied(old(k.Now()), k.Now(), r, c, PgUp(sz))
    ensures c != 0 ==> tf < |k.role| && k.role[tf] == Held && OnlyNew(old(k.Now()), Forget(k.Now(), tf), c)
    ensures c != 0 ==> Tops(k.Now(), c, trampoline, tf)
    ensures c != 0 <==> |old(k.free)| >= 4 + Cost(TopTables(), 0, PgUp(sz))
  {
    hide ChainOk, TablesOk, Frame, EntryOf, V, OnlyNew, Intact, Fresh, Copied, Pte, Tables, TopTables, Ways, Tops;
    ghost var m0 := k.Now();
    ChainFacts(k.ram.page, k.role, k.first, k.freelist, k.free);
    IntactSelf(m0);
    c := 0;
    tf := k.AllocFilled(Fill(5), r);
    if tf == 0 {
      return;
    }
    ghost var m1 := k.Now();
    AllocIntact(m0, m1, tf, r);
    c := ProcPagetable(k, trampoline, tf);
    ghost var m2 := k.Now();
    if c == 0 {
      ForgetIntact(m1, m2, tf);
      IntactSize(m1, m2);
      k.FreeHeld(tf, r);
      FreedIntact(m2, k.Now(), tf, r);
      IntactTrans(m0, Forget(m1, tf), Forget(m2, tf));
      IntactTrans(m0, Forget(m2, tf), k.Now());
      return;
    }
    NewSize(m1, m2, c);
    c := ForkCopy(k, r, sz, c, tf, trampoline, m0, m1);
  }

  lemma IntactSize(m: Mem, m': Mem)
    requires Intact(m, m')
    ensures |m.role| == |m'.role| == |m.page| == |m'.page|
  {
  }

  lemma NewSize(m: Mem, m': Mem, r: nat)
    requires OnlyNew(m, m', r)
    ensures |m.role| == |m'.role| == |m.page| == |m'.page|
  {
  }

  /** The spaces that were there before the new one came. */
  lemma NewElsewhere(m: Mem, m': Mem, r: nat, x: nat, n: nat)
    requires OnlyNew(m, m', r) && ProcSpace(m, x, n) && r < |m.role|
    ensures x != r && ProcSpace(m', x, n)
  {
    hide EntryOf, V;
  }

  lemma AllocProc(m0: Mem, m1: Mem, p: nat, x: nat, n: nat, r: nat)
    requires Frame(m0, Forget(m1, p), r, 0, 0) && p < |m0.role| && m0.role[p].Free? && m1.role == m0.role[p := Held]
    requires ProcSpace(m0, x, n)
    ensures ProcSpace(m1, x, n)
  {
    hide EntryOf, V;
    ProcSpaceKept(m0, Forget(m1, p), r, 0, 0, x, n, n);
  }

  /** fork from uvmcopy on: the copy, or freeproc of the child. */
  method ForkCopy(k: Kernel, r: nat, sz: nat, child: nat, tf: nat, trampoline: nat, ghost m0: Mem,
      ghost m1: Mem) returns (c: nat)
    requires k.Valid() && TablesOk(m1.page, m1.role) && |k.role| <= TRAPFRAME && k.first <= tf < |m1.role|
    requires m1.role[tf] == Held
    requires Frame(m0, Forget(m1, tf), r, 0, 0) && tf < |m0.role| && m0.role[tf].Free? && m1.role == m0.role[tf := Held]
    requires ProcSpace(m0, r, PgUp(sz)) && OnlyNew(m1, k.Now(), child) && child != 0
    requires Fresh(k.Now(), child, Pte(trampoline, PTE_R + PTE_X), Pte(tf, PTE_R + PTE_W))
    requires Tables(k.role, child) == TopTables()
    modifies k
    ensures k.Valid() && (c == 0 || c == child) && (c != 0 <==> |old(k.free)| >= Cost(TopTables(), 0, PgUp(sz)))
    ensures c == 0 ==> Intact(m0, k.Now())
    ensures c != 0 ==> ProcSpace(k.Now(), c, PgUp(sz)) && Copied(m0, k.Now(), r, c, PgUp(sz))
    ensures c != 0 ==> tf < |k.role| && k.role[tf] == Held && OnlyNew(m0, Forget(k.Now(), tf), c)
    ensures c != 0 ==> Tops(k.Now(), c, trampoline, tf)
  {
    hide ChainOk, TablesOk, Frame, EntryOf, V, OnlyNew, Intact, Fresh, Copied, Pte, Tables, TopTables, Cost, Tops;
    ghost var m2 := k.Now();
    c := child;
    PteFields(trampoline, PTE_R + PTE_X);
    PteFields(tf, PTE_R + PTE_W);
    FreshProc(m2, c, Pte(trampoline, PTE_R + PTE_X), Pte(tf, PTE_R + PTE_W));
    FreshTops(m2, c, trampoline, tf);
    AllocProc(m0, m1, tf, r, PgUp(sz), r);
    NewSize(m1, m2, c);
    NewElsewhere(m1, m2, c, r, PgUp(sz));
    var ok := Uvmcopy(k, r, c, sz);
    ghost var m3 := k.Now();
    OnlyNewFrame(m1, m2, m3, c, 0, if ok then PgUp(sz) else 0);
    ForgetNew(m1, m3, tf, c);
    AllocIntact(m0, m1, tf, r);
    NewSize(m1, m3, c);
    if ok {
      ProcSpaceKept(m2, m3, c, 0, PgUp(sz), c, 0, PgUp(sz));
      TopsKept(m2, m3, c, 0, PgUp(sz), trampoline, tf);
      CopiedSame(m0, m1, m2, m3, tf, r, c, PgUp(sz));
      IntactThenNew(m0, Forget(m1, tf), Forget(m3, tf), c);
    } else {
      ProcSpaceKept(m2, m3, c, 0, 0, c, 0, 0);
      k.FreeHeld(tf, c);
      ghost var m4 := k.Now();
      ForgetProc(m3, m4, tf, c, 0, c);
      ForgetOk(m1, tf);
      OnlyNewFrame(Forget(m1, tf), Forget(m3, tf), m4, c, 0, 0);
      ProcFreepagetable(k, c, 0);
      BuiltAndDropped(Forget(m1, tf), m4, k.Now(), c);
      IntactTrans(m0, Forget(m1, tf), k.Now());
      c := 0;
    }
  }

  lemma IntactThenNew(m: Mem, m1: Mem, m2: Mem, r: nat)
    requires Intact(m, m1) && OnlyNew(m1, m2, r) && r < |m.role|
    ensures OnlyNew(m, m2, r)
  {
    hide EntryOf;
    forall x: nat, w: nat | IsRoot(m.role, x) && x != r ensures EntryOf(m2.page, x, w) == EntryOf(m.page, x, w) {
      assert IsRoot(m1.role, x);
    }
  }

  /** The parent's pages did not change before the copy was taken. */
  lemma CopiedSame(m0: Mem, m1: Mem, m2: Mem, m3: Mem, tf: nat, r: nat, c: nat, n: nat)
    requires Copied(m2, m3, r, c, n) && OnlyNew(m1, m2, c) && Frame(m0, Forget(m1, tf), r, 0, 0)
    requires tf < |m0.role| && m0.role[tf].Free? && m1.role == m0.role[tf := Held] && ProcSpace(m0, r, n)
    requires c < |m1.role|
    requires TablesOk(m1.page, m1.role)
    ensures Copied(m0, m3, r, c, n)
  {
    hide EntryOf, V, Ppn, Flags, Holds, TablesOk;
    forall w | 0 <= w < n ensures CopyOf(m0, m3, r, c, w) {
      assert CopyOf(m2, m3, r, c, w);
      SamePage(m0, m1, m2, tf, r, c, n, w);
    }
  }

  lemma SamePage(m0: Mem, m1: Mem, m2: Mem, tf: nat, r: nat, c: nat, n: nat, w: nat)
    requires OnlyNew(m1, m2, c) && Frame(m0, Forget(m1, tf), r, 0, 0) && w < n && ProcSpace(m0, r, n) && c < |m1.role|
    requires tf < |m0.role| && m0.role[tf].Free? && m1.role == m0.role[tf := Held] && TablesOk(m1.page, m1.role)
    ensures EntryOf(m2.page, r, w) == EntryOf(m0.page, r, w)
    ensures Ppn(EntryOf(m0.page, r, w)) < |m0.page| == |m2.page|
    ensures m2.page[Ppn(EntryOf(m0.page, r, w))] == m0.page[Ppn(EntryOf(m0.page, r, w))]
  {
    hide EntryOf, V, Ppn, TablesOk, Vpn;
    AllocProc(m0, m1, tf, r, n, r);
    OwnPage(m1, r, w);
    assert EntryOf(m1.page, r, w) == EntryOf(m0.page, r, w);
    var p := Ppn(EntryOf(m0.page, r, w));
    assert Precious(m0.role[p], r, 0, 0);
  }
}
