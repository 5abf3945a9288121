/**
 Page accounting of processes: page tables with trampoline and trapframe, growproc,
 fork and exec (kernel/proc.c, kernel/exec.c, kernel/vm.c).
 */
module ProcMemory {
  import opened PageTable
  import opened Frames
  import opened Vm
  import opened UserMemory
  import opened Lifecycle

  /** Nothing mapped but, perhaps, trampoline and trapframe. */
  ghost predicate Fresh(m: Mem, r: nat, tramp: nat, trap: nat) {
    IsRoot(m.role, r) && forall w: nat :: EntryOf(m.page, r, w) == if w == TRAMPOLINE then tramp
        else if w == TRAPFRAME then trap else 0
  }

  /** A process's space: n user pages, trampoline and trapframe, nothing above. */
  ghost predicate ProcSpace(m: Mem, r: nat, n: nat) {
    && Space(m, r, n)
    && V(EntryOf(m.page, r, TRAMPOLINE)) && V(EntryOf(m.page, r, TRAPFRAME))
    && forall w: nat :: MAXVPN <= w ==> EntryOf(m.page, r, w) == 0
  }

  /** The two pages above user memory, with their permissions. */
  ghost predicate Tops(m: Mem, r: nat, trampoline: nat, trapframe: nat) {
    && EntryOf(m.page, r, TRAMPOLINE) == Pte(trampoline, PTE_R + PTE_X)
    && EntryOf(m.page, r, TRAPFRAME) == Pte(trapframe, PTE_R + PTE_W)
  }

  lemma TopsKept(m: Mem, m': Mem, r: nat, lo: nat, hi: nat, trampoline: nat, trapframe: nat)
    requires Frame(m, m', r, lo, hi) && hi <= TRAPFRAME && IsRoot(m.role, r) && Tops(m, r, trampoline, trapframe)
    ensures Tops(m', r, trampoline, trapframe)
  {
    hide EntryOf, Pte;
  }

  lemma FreshTops(m: Mem, r: nat, trampoline: nat, trapframe: nat)
    requires Fresh(m, r, Pte(trampoline, PTE_R + PTE_X), Pte(trapframe, PTE_R + PTE_W))
    ensures Tops(m, r, trampoline, trapframe) && IsRoot(m.role, r)
  {
    hide EntryOf, Pte;
  }

  lemma FreshKept(m: Mem, m': Mem, r: nat, tramp: nat, trap: nat)
    requires Fresh(m, r, tramp, trap) && Frame(m, m', r, 0, 0)
    ensures Fresh(m', r, tramp, trap)
  {
    hide EntryOf;
    assert RoleFrame(m.role[r], m'.role[r], r, 0, 0);
  }

  lemma FreshMapped(m: Mem, m': Mem, r: nat, tramp: nat, trap: nat, v: nat)
    requires Fresh(m, r, tramp, trap) && Frame(m, m', r, v, v + 1) && (v == TRAMPOLINE || v == TRAPFRAME)
    ensures v == TRAMPOLINE ==> Fresh(m', r, EntryOf(m'.page, r, v), trap)
    ensures v == TRAPFRAME ==> Fresh(m', r, tramp, EntryOf(m'.page, r, v))
  {
    hide EntryOf;
    assert RoleFrame(m.role[r], m'.role[r], r, v, v + 1);
  }

  lemma IntactSelf(m: Mem)
    requires |m.page| == |m.role|
    ensures Intact(m, m)
  {
  }

  lemma IntactTrans(m: Mem, m1: Mem, m2: Mem)
    requires Intact(m, m1) && Intact(m1, m2)
    ensures Intact(m, m2)
  {
    hide EntryOf;
    forall x: nat, w: nat | IsRoot(m.role, x) ensures EntryOf(m2.page, x, w) == EntryOf(m.page, x, w) {
      assert IsRoot(m1.role, x);
    }
  }

  /** uvmfree of a space without user memory, trampoline and trapframe gone. */
  method FreeFresh(k: Kernel, r: nat, ghost m0: Mem)
    requires k.Valid() && Fresh(k.Now(), r, 0, 0) && TablesOk(m0.page, m0.role) && OnlyNew(m0, k.Now(), r)
    modifies k
    ensures k.Valid() && Intact(m0, k.Now())
  {
    hide ChainOk, TablesOk, EntryOf, OnlyNew, Dropped, Intact;
    ghost var m := k.Now();
    Uvmfree(k, r, 0);
    BuiltAndDropped(m0, m, k.Now(), r);
  }

  /** proc_pagetable: trampoline and trapframe only; on failure every page is back. */
  method ProcPagetable(k: Kernel, trampoline: nat, trapframe: nat) returns (r: nat)
    requires k.Valid()
    modifies k
    ensures k.Valid() && (r == 0 ==> Intact(old(k.Now()), k.Now()))
    ensures r != 0 ==> Fresh(k.Now(), r, Pte(trampoline, PTE_R + PTE_X), Pte(trapframe, PTE_R + PTE_W))
    ensures r != 0 ==> OnlyNew(old(k.Now()), k.Now(), r)
    ensures r != 0 <==> |old(k.free)| >= 3
    ensures r != 0 ==> |old(k.free)| == |k.free| + 3 && Tables(k.role, r) == TopTables()
  {
    hide ChainOk, TablesOk, Frame, EntryOf, OnlyNew, Intact, V, Pte, Fresh, Tables, Way, TopTables, Spent;
    TopTablesAre();
    ghost var m0 := k.Now();
    ChainFacts(k.ram.page, k.role, k.first, k.freelist, k.free);
    IntactSelf(m0);
    r := Uvmcreate(k);
    if r == 0 {
      return 0;
    }
    ghost var m1 := k.Now();
    assert Way(TRAMPOLINE) - {} == TopTables() && {} + Way(TRAMPOLINE) == TopTables() && Way(TRAPFRAME) - TopTables() == {};
    BlankFresh(m1, r);
    var ok := k.MapPage(r, TRAMPOLINE, trampoline, PTE_R + PTE_X);
    ghost var m2 := k.Now();
    if !ok {
      FreshKept(m1, m2, r, 0, 0);
      OnlyNewFrame(m0, m1, m2, r, 0, 0);
      FreeFresh(k, r, m0);
      return 0;
    }
    WayDone(|old(k.free)| - 1, |k.free|, {}, TRAMPOLINE);
    PteFields(trampoline, PTE_R + PTE_X);
    FreshMapped(m1, m2, r, 0, 0, TRAMPOLINE);
    OnlyNewFrame(m0, m1, m2, r, TRAMPOLINE, TRAMPOLINE + 1);
    r := MapTrapframe(k, r, trapframe, m0);
  }

  /** The tables for trampoline and trapframe. */
  ghost function TopTables(): set<Slot> {
    {MidAt(255), LowAt(255, 511)}
  }

  lemma TopTablesAre()
    ensures Way(TRAMPOLINE) == Way(TRAPFRAME) == TopTables() && |TopTables()| == 2
  {
    assert TopTables() == {MidAt(255)} + {LowAt(255, 511)};
  }

  lemma BlankFresh(m: Mem, r: nat)
    requires IsRoot(m.role, r) && Blank(m, r)
    ensures Fresh(m, r, 0, 0) && !V(EntryOf(m.page, r, TRAMPOLINE))
  {
  }

  /** The second mapping of proc_pagetable, with its own way back. */
  method MapTrapframe(k: Kernel, r: nat, trapframe: nat, ghost m0: Mem) returns (r': nat)
    requires k.Valid() && TablesOk(m0.page, m0.role) && OnlyNew(m0, k.Now(), r) && r != 0
    requires Fresh(k.Now(), r, EntryOf(k.ram.page, r, TRAMPOLINE), 0) && V(EntryOf(k.ram.page, r, TRAMPOLINE))
    modifies k
    ensures k.Valid() && (r' == 0 ==> Intact(m0, k.Now())) && (r' != 0 ==> r' == r && OnlyNew(m0, k.Now(), r))
    ensures r' != 0 ==> Fresh(k.Now(), r, EntryOf(old(k.ram).page, r, TRAMPOLINE), Pte(trapframe, PTE_R + PTE_W))
    ensures r' != 0 <==> |old(k.free)| >= |Way(TRAPFRAME) - old(Tables(k.role, r))|
    ensures r' != 0 ==> Tables(k.role, r) == old(Tables(k.role, r)) + Way(TRAPFRAME)
    ensures r' != 0 ==> |old(k.free)| == |k.free| + |Way(TRAPFRAME) - old(Tables(k.role, r))|
  {
    hide ChainOk, TablesOk, Frame, EntryOf, OnlyNew, Intact, V, Pte, Tables, Way, Spent;
    ghost var m2 := k.Now();
    ghost var tramp := EntryOf(k.ram.page, r, TRAMPOLINE);
    ZeroNotV();
    var ok := k.MapPage(r, TRAPFRAME, trapframe, PTE_R + PTE_W);
    ghost var m3 := k.Now();
    if ok {
      WayDone(|old(k.free)|, |k.free|, old(Tables(k.role, r)), TRAPFRAME);
      FreshMapped(m2, m3, r, tramp, 0, TRAPFRAME);
      OnlyNewFrame(m0, m2, m3, r, TRAPFRAME, TRAPFRAME + 1);
      r' := r;
    } else {
      FreshKept(m2, m3, r, tramp, 0);
      OnlyNewFrame(m0, m2, m3, r, 0, 0);
      k.Uvmunmap(r, TRAMPOLINE, 1, false);
      FreshMapped(m3, k.Now(), r, tramp, 0, TRAMPOLINE);
      OnlyNewFrame(m0, m3, k.Now(), r, TRAMPOLINE, TRAMPOLINE + 1);
      FreeFresh(k, r, m0);
      r' := 0;
    }
  }

  /** proc_freepagetable: all of the space is free, nothing else has changed. */
  method ProcFreepagetable(k: Kernel, r: nat, sz: nat)
    requires k.Valid() && ProcSpace(k.Now(), r, PgUp(sz))
    modifies k
    ensures k.Valid() && Dropped(old(k.Now()), k.Now(), r)
  {
    hide ChainOk, TablesOk, Frame, EntryOf, Dropped, V;
    ghost var m := k.Now();
    k.Uvmunmap(r, TRAMPOLINE, 1, false);
    ghost var m1 := k.Now();
    FrameEntries(m, m1, r, TRAMPOLINE);
    k.Uvmunmap(r, TRAPFRAME, 1, false);
    ghost var m2 := k.Now();
    FrameEntries(m1, m2, r, TRAPFRAME);
    FrameWiden(m, m1, r, TRAMPOLINE, TRAMPOLINE + 1, TRAPFRAME, MAXVPN);
    FrameWiden(m1, m2, r, TRAPFRAME, TRAPFRAME + 1, TRAPFRAME, MAXVPN);
    FrameSame(m, m1, m2, r, TRAPFRAME, MAXVPN);
    assert Space(m2, r, PgUp(sz));
    Uvmfree(k, r, sz);
    DroppedAfter(m, m2, k.Now(), r, TRAPFRAME, MAXVPN);
  }

  // ---------------------------------------------------------------------------- uvmcopy

  /** Page w of space n is a copy, with the same flags, of what page w of space o was in m0. */
  ghost predicate CopyOf(m0: Mem, m: Mem, o: nat, n: nat, w: nat) {
    var e := EntryOf(m0.page, o, w);
    Ppn(e) < |m0.page| && Holds(m, n, w, m0.page[Ppn(e)], Flags(e))
  }

  ghost predicate Copied(m0: Mem, m: Mem, o: nat, n: nat, hi: nat) {
    forall w :: 0 <= w < hi ==> CopyOf(m0, m, o, n, w)
  }

  lemma LeafFlags(e: nat)
    requires IsLeaf(e)
    ensures Flags(e) < 1024 && Flags(e) / 2 % 8 != 0
  {
    var q, t := e / 1024, e % 1024 / 2;
    assert e / 2 == 8 * (64 * q) + t;
    Mod8(64 * q, t);
  }

  lemma Mod8(m: nat, t: nat)
    ensures (8 * m + t) % 8 == t % 8
  {
  }

  /** What the parent maps at i is what it mapped in the beginning. */
  lemma ParentPage(m0: Mem, m: Mem, o: nat, n: nat, hi: nat, i: nat)
    requires TablesOk(m0.page, m0.role) && Frame(m0, m, n, 0, hi) && o != n && IsRoot(m0.role, o) && i < TRAPFRAME
    requires V(EntryOf(m0.page, o, i))
    ensures EntryOf(m.page, o, i) == EntryOf(m0.page, o, i) && IsLeaf(EntryOf(m.page, o, i))
    ensures Ppn(EntryOf(m.page, o, i)) < |m.page| == |m0.page|
    ensures m.page[Ppn(EntryOf(m.page, o, i))] == m0.page[Ppn(EntryOf(m.page, o, i))]
  {
    hide TablesOk, V, Ppn, EntryOf, Vpn;
    OwnPage(m0, o, i);
    assert Precious(m0.role[Ppn(EntryOf(m0.page, o, i))], n, 0, hi);
  }

  /** One turn of uvmcopy. */
  method CopyOne(k: Kernel, o: nat, n: nat, i: nat, ghost m0: Mem) returns (ok: bool)
    requires k.Valid() && TablesOk(m0.page, m0.role) && Frame(m0, k.Now(), n, 0, i) && o != n && IsRoot(m0.role, o)
    requires IsRoot(k.role, o)
    requires i < TRAPFRAME && V(EntryOf(m0.page, o, i)) && Space(k.Now(), n, i) && |k.role| <= TRAPFRAME
    requires Copied(m0, k.Now(), o, n, i)
    modifies k
    ensures k.Valid() && |k.role| == |old(k.role)|
    ensures ok ==> Frame(m0, k.Now(), n, 0, i + 1) && Space(k.Now(), n, i + 1) && Copied(m0, k.Now(), o, n, i + 1)
    ensures !ok ==> Frame(m0, k.Now(), n, 0, i) && Space(k.Now(), n, i)
    ensures ok <==> |old(k.free)| >= 1 + |Way(i) - old(Tables(k.role, n))|
    ensures ok ==> |old(k.free)| == |k.free| + 1 + |Way(i) - old(Tables(k.role, n))|
    ensures ok ==> Tables(k.role, n) == old(Tables(k.role, n)) + Way(i)
  {
    hide ChainOk, TablesOk, Frame, EntryOf, V, Ppn, Holds, Flags, IsLeaf, Tables, Way, Spent;
    ghost var m := k.Now();
    ChainFacts(k.ram.page, k.role, k.first, k.freelist, k.free);
    ParentPage(m0, m, o, n, i, i);
    ZeroNotV();
    var q := k.Walk(o, i, false);
    var pte := Word(k.ram.page, q, Px0(i));
    LeafFlags(pte);
    ok := GrowOne(k, n, i, k.ram.page[Ppn(pte)], Flags(pte));
    if ok {
      FrameTrans(m0, m, k.Now(), n, 0, i, i + 1);
      forall w | 0 <= w < i ensures CopyOf(m0, k.Now(), o, n, w) {
        assert CopyOf(m0, m, o, n, w);
        HoldsKept(m, k.Now(), n, i, i + 1, n, w, m0.page[Ppn(EntryOf(m0.page, o, w))], Flags(EntryOf(m0.page, o, w)));
      }
    } else {
      FrameWiden(m, k.Now(), n, 0, 0, 0, i);
      FrameSame(m0, m, k.Now(), n, 0, i);
      SpaceKept(m, k.Now(), n, 0, 0, n, i);
    }
  }

  /** uvmcopy: the child gets a copy of every user page, or none and all pages back. */
  method Uvmcopy(k: Kernel, o: nat, n: nat, sz: nat) returns (ok: bool)
    requires k.Valid() && Space(k.Now(), o, PgUp(sz)) && Space(k.Now(), n, 0) && o != n && |k.role| <= TRAPFRAME
    modifies k
    ensures k.Valid() && |k.role| == |old(k.role)|
    ensures ok ==> Space(k.Now(), n, PgUp(sz)) && Copied(old(k.Now()), k.Now(), o, n, PgUp(sz))
    ensures ok ==> Frame(old(k.Now()), k.Now(), n, 0, PgUp(sz))
    ensures !ok ==> Space(k.Now(), n, 0) && Frame(old(k.Now()), k.Now(), n, 0, 0)
    ensures ok <==> |old(k.free)| >= Cost(old(Tables(k.role, n)), 0, PgUp(sz))
  {
    hide ChainOk, TablesOk, Frame, EntryOf, V, Copied, Tables, Way, Ways, Cost;
    ghost var m0, t0 := k.Now(), Tables(k.role, n);
    CostNone(t0, 0);
    ChainFacts(k.ram.page, k.role, k.first, k.freelist, k.free);
    FrameSelf(m0, n, 0, 0);
    CopiedNone(m0, o, n);
    var i := 0;
    while i * PGSIZE < sz
      invariant 0 <= i <= PgUp(sz) && k.Valid() && |k.role| == |m0.role| && Space(k.Now(), n, i)
      invariant Frame(m0, k.Now(), n, 0, i) && Copied(m0, k.Now(), o, n, i)
      invariant Tables(k.role, n) == t0 + Ways(0, i) && |old(k.free)| == |k.free| + Cost(t0, 0, i)
      decreases PgUp(sz) - i
    {
      CostNext(t0, 0, i, PgUp(sz));
      SpaceKept(m0, k.Now(), n, 0, i, o, PgUp(sz));
      ok := CopyOne(k, o, n, i, m0);
      if !ok {
        ghost var m := k.Now();
        k.Uvmunmap(n, 0, i, true);
        FrameSame(m0, m, k.Now(), n, 0, i);
        SpaceShrunk(m, k.Now(), n, 0, i);
        Undone(m0, k.Now(), n, 0, i);
        return false;
      }
      i := i + 1;
    }
    ok := true;
  }

  lemma CopiedNone(m: Mem, o: nat, n: nat)
    ensures Copied(m, m, o, n, 0)
  {
  }

  // ---------------------------------------------------------------------------- growproc

  const U64: nat := 0x1_0000_0000_0000_0000

  /** growproc: sz + n in 64-bit arithmetic. A failed attempt keeps size, mapping and user
      pages; shrinking below zero wraps around and changes nothing. */
  method Growproc(k: Kernel, r: nat, sz: nat, n: int) returns (ret: int, sz': nat)
    requires k.Valid() && Space(k.Now(), r, PgUp(sz)) && |k.role| <= TRAPFRAME && -0x8000_0000 <= n < 0x8000_0000
    modifies k
    ensures k.Valid() && (ret == 0 || ret == -1) && Space(k.Now(), r, PgUp(sz'))
    ensures ret == -1 ==> n > 0 && sz' == sz && Frame(old(k.Now()), k.Now(), r, 0, 0)
    ensures ret == 0 ==> sz' == if sz + n < 0 then sz else sz + n
    ensures ret == 0 && n > 0 ==> Frame(old(k.Now()), k.Now(), r, PgUp(sz), PgUp(sz'))
    ensures ret == 0 && n > 0 ==> Zeroed(k.Now(), r, PgUp(sz), PgUp(sz'), PTE_R + PTE_U + PTE_W)
    ensures ret == 0 && n <= 0 ==> Frame(old(k.Now()), k.Now(), r, PgUp(sz'), PgUp(sz))
    ensures n > 0 ==> (ret == 0 <==> |old(k.free)| >= Cost(old(Tables(k.role, r)), PgUp(sz), PgUp(sz + n)))
    ensures ret == 0 && n <= 0 ==> |k.free| == |old(k.free)| + PgUp(sz) - PgUp(sz')
  {
    hide ChainOk, TablesOk, Frame, EntryOf, V, Zeroed, Tables, Cost, Ways, Spent;
    ghost var m0 := k.Now();
    ChainFacts(k.ram.page, k.role, k.first, k.freelist, k.free);
    SizeFits(m0, r, sz);
    ret, sz' := 0, sz;
    if n > 0 {
      sz' := Uvmalloc(k, r, sz, sz + n, PTE_W);
      if sz' == 0 {
        return -1, sz;
      }
    } else if n < 0 {
      sz' := Uvmdealloc(k, r, sz, (sz + n) % U64);
    } else {
      FrameSelf(m0, r, PgUp(sz), PgUp(sz));
    }
  }

  lemma SizeFits(m: Mem, r: nat, sz: nat)
    requires Space(m, r, PgUp(sz))
    ensures sz < MAXVPN * PGSIZE
  {
  }
}
