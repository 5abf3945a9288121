/**
 User address spaces: growing, shrinking, copying and freeing them (kernel/vm.c), and
 the callers that undo a failed attempt (kernel/proc.c, kernel/exec.c).
 */
module UserMemory {
  import opened Common
  import opened PageTable
  import opened Frames
  import opened Vm

  const PGSIZE: nat := 4096

  /** PGROUNDUP(sz) / PGSIZE */
  function PgUp(sz: nat): nat {
    (sz + PGSIZE - 1) / PGSIZE
  }

  /** User memory of space r is exactly its first n pages. */
  ghost predicate Space(m: Mem, r: nat, n: nat) {
    && IsRoot(m.role, r) && n <= TRAPFRAME
    && (forall w :: 0 <= w < n ==> V(EntryOf(m.page, r, w)))
    && (forall w :: n <= w < TRAPFRAME ==> EntryOf(m.page, r, w) == 0)
  }

  // --------------------------------------------------------- as many pages as there are

  /** The physical pages behind the first n virtual pages. */
  ghost function Behind(m: Mem, r: nat, n: nat): set<nat> {
    if n == 0 then {} else Behind(m, r, n - 1) + {Ppn(EntryOf(m.page, r, n - 1))}
  }

  /** A mapped user page has a page of its own. */
  lemma OwnPage(m: Mem, r: nat, w: nat)
    requires TablesOk(m.page, m.role) && IsRoot(m.role, r) && w < TRAPFRAME && V(EntryOf(m.page, r, w))
    ensures var p := Ppn(EntryOf(m.page, r, w));
            p < |m.role| && m.role[p].Data? && m.role[p].r == r && VpnOf(m.role[p]) == w
    ensures IsLeaf(EntryOf(m.page, r, w))
  {
    hide V, Ppn, Pte, IsLeaf, Px0, Px1, Px2, Vpn;
    ZeroNotV();
    LeafPath(m.page, m.role, r, Px2(w), Px1(w));
    var q := Ppn(Word(m.page, Ppn(Word(m.page, r, Px2(w))), Px1(w)));
    assert PageOk(m.page, m.role, q);
    UserVpn(w);
  }

  lemma BehindIn(m: Mem, r: nat, n: nat, p: nat)
    requires TablesOk(m.page, m.role) && IsRoot(m.role, r) && n <= TRAPFRAME
    requires forall w :: 0 <= w < n ==> V(EntryOf(m.page, r, w))
    requires p in Behind(m, r, n)
    ensures p < |m.role| && m.role[p].Data? && m.role[p].r == r && VpnOf(m.role[p]) < n
  {
    OwnPage(m, r, n - 1);
    if p != Ppn(EntryOf(m.page, r, n - 1)) {
      BehindIn(m, r, n - 1, p);
    }
  }

  lemma {:induction false} BehindCard(m: Mem, r: nat, n: nat)
    requires TablesOk(m.page, m.role) && IsRoot(m.role, r) && n <= TRAPFRAME
    requires forall w :: 0 <= w < n ==> V(EntryOf(m.page, r, w))
    ensures |Behind(m, r, n)| == n
  {
    hide V, Ppn, EntryOf, TablesOk, Vpn;
    if n > 0 {
      BehindCard(m, r, n - 1);
      var p := Ppn(EntryOf(m.page, r, n - 1));
      OwnPage(m, r, n - 1);
      if p in Behind(m, r, n - 1) {
        BehindIn(m, r, n - 1, p);
      }
    }
  }

  /** Mapped user pages are distinct physical pages, so a space that still has a page to
      map has not come near the end of user memory. */
  lemma RoomLeft(m: Mem, r: nat, n: nat, p: nat)
    requires TablesOk(m.page, m.role) && Space(m, r, n) && p < |m.role| && m.role[p] == Held
    ensures n < |m.role|
  {
    hide V, Ppn, EntryOf, TablesOk, Vpn;
    BehindCard(m, r, n);
    var s := Behind(m, r, n) + {p};
    forall x | x in s ensures x < |m.role| {
      if x != p { BehindIn(m, r, n, x); }
    }
    if p in Behind(m, r, n) { BehindIn(m, r, n, p); }
    BelowCard(s, |m.role|);
  }

  // ------------------------------------------------------------------ growing and shrinking

  /** A space keeps its size under what happens elsewhere. */
  lemma SpaceKept(m: Mem, m': Mem, r: nat, lo: nat, hi: nat, x: nat, n: nat)
    requires Frame(m, m', r, lo, hi) && Space(m, x, n) && (x != r || lo == hi)
    ensures Space(m', x, n)
  {
    hide EntryOf, V;
    assert RoleFrame(m.role[x], m'.role[x], r, lo, hi);
  }

  lemma SpaceGrown(m: Mem, m': Mem, r: nat, n: nat)
    requires Frame(m, m', r, n, n + 1) && Space(m, r, n) && n < TRAPFRAME && V(EntryOf(m'.page, r, n))
    ensures Space(m', r, n + 1)
  {
    hide EntryOf, V;
    assert RoleFrame(m.role[r], m'.role[r], r, n, n + 1);
  }

  lemma SpaceShrunk(m: Mem, m': Mem, r: nat, lo: nat, n: nat)
    requires Frame(m, m', r, lo, n) && Space(m, r, n) && lo <= n
    requires forall w :: lo <= w < n ==> EntryOf(m'.page, r, w) == 0
    ensures Space(m', r, lo)
  {
    hide EntryOf, V;
    assert RoleFrame(m.role[r], m'.role[r], r, lo, n);
  }

  /** The page at w holds c and has these flags. */
  ghost predicate Holds(m: Mem, r: nat, w: nat, c: seq<nat>, perm: nat) {
    var p := Ppn(EntryOf(m.page, r, w));
    EntryOf(m.page, r, w) == Pte(p, perm) && p < |m.page| && m.page[p] == c
  }

  ghost predicate HoldsZero(m: Mem, r: nat, w: nat, perm: nat) {
    Holds(m, r, w, ZeroPage(), perm)
  }

  ghost predicate Zeroed(m: Mem, r: nat, lo: nat, hi: nat, perm: nat) {
    forall w :: lo <= w < hi ==> HoldsZero(m, r, w, perm)
  }

  lemma HoldsKept(m: Mem, m': Mem, r: nat, lo: nat, hi: nat, x: nat, w: nat, c: seq<nat>, perm: nat)
    requires TablesOk(m.page, m.role) && IsRoot(m.role, x) && w < TRAPFRAME && V(EntryOf(m.page, x, w))
    requires Holds(m, x, w, c, perm)
    requires Frame(m, m', r, lo, hi) && !(x == r && lo <= w < hi)
    ensures Holds(m', x, w, c, perm)
  {
    hide TablesOk, V, Ppn, Pte, Vpn, EntryOf;
    OwnPage(m, x, w);
    var p := Ppn(EntryOf(m.page, x, w));
    assert Precious(m.role[p], r, lo, hi);
  }

  /** One turn of uvmalloc, with the page filled with c: a new page at the end of the space, or nothing but tables. */
  method GrowOne(k: Kernel, r: nat, n: nat, c: seq<nat>, perm: nat) returns (ok: bool)
    requires k.Valid() && Space(k.Now(), r, n) && |k.role| <= TRAPFRAME && |c| == 512 && perm < 1024
    requires perm / 2 % 8 != 0
    modifies k
    ensures k.Valid() && |k.role| == |old(k.role)|
    ensures ok ==> Frame(old(k.Now()), k.Now(), r, n, n + 1) && Space(k.Now(), r, n + 1)
    ensures ok ==> Holds(k.Now(), r, n, c, perm)
    ensures !ok ==> Frame(old(k.Now()), k.Now(), r, 0, 0)
    ensures ok <==> |old(k.free)| >= 1 + |Way(n) - old(Tables(k.role, r))|
    ensures ok ==> |old(k.free)| == |k.free| + 1 + |Way(n) - old(Tables(k.role, r))|
    ensures ok ==> Tables(k.role, r) == old(Tables(k.role, r)) + Way(n)
    ensures !ok ==> Spent(|old(k.free)|, |k.free|, old(Tables(k.role, r)), Tables(k.role, r))
  {
    hide ChainOk, TablesOk, Frame, V, Ppn, Pte, EntryOf, Tables, Way;
    ghost var m0 := k.Now();
    ChainFacts(k.ram.page, k.role, k.first, k.freelist, k.free);
    var mem := k.AllocFilled(c, r);
    if mem == 0 {
      SpentNone(|k.free|, Tables(k.role, r));
      FrameSelf(m0, r, 0, 0);
      return false;
    }
    ghost var m1 := k.Now();
    SpaceAlloc(m0, m1, r, n, mem);
    RoomLeft(m1, r, n, mem);
    ZeroNotV();
    ok := k.MapPage(r, n, mem, perm);
    ghost var m2 := k.Now();
    if !ok {
      FrameHeld(m1, m2, r, mem);
      FrameForget(m1, m2, mem, r);
      FrameSame(m0, Forget(m1, mem), Forget(m2, mem), r, 0, 0);
      k.FreeHeld(mem, r);
      FrameSame(m0, Forget(m2, mem), k.Now(), r, 0, 0);
    } else {
      FrameWiden(m0, Forget(m1, mem), r, 0, 0, n, n + 1);
      FrameSame(m0, Forget(m1, mem), m2, r, n, n + 1);
      WayDone(|old(k.free)| - 1, |k.free|, old(Tables(k.role, r)), n);
      PteFields(mem, perm);
      SpaceGrown(m0, m2, r, n);
    }
    FrameSize(m0, k.Now(), r, if ok then n else 0, if ok then n + 1 else 0);
  }

  lemma FrameSize(m: Mem, m': Mem, r: nat, lo: nat, hi: nat)
    requires Frame(m, m', r, lo, hi)
    ensures |m.role| == |m'.role|
  {
  }

  lemma SpaceAlloc(m0: Mem, m1: Mem, r: nat, n: nat, p: nat)
    requires Space(m0, r, n) && p < |m0.role| && m0.role[p].Free? && m1.role == m0.role[p := Held]
    requires Frame(m0, Forget(m1, p), r, 0, 0)
    ensures Space(m1, r, n)
  {
    hide EntryOf, V;
    SpaceKept(m0, Forget(m1, p), r, 0, 0, r, n);
  }

  /** uvmdealloc: the space shrinks to newsz, its pages are free. */
  method Uvmdealloc(k: Kernel, r: nat, oldsz: nat, newsz: nat) returns (sz: nat)
    requires k.Valid() && Space(k.Now(), r, PgUp(oldsz))
    modifies k
    ensures k.Valid() && sz == (if newsz >= oldsz then oldsz else newsz)
    ensures Space(k.Now(), r, PgUp(sz)) && Frame(old(k.Now()), k.Now(), r, PgUp(sz), PgUp(oldsz))
    ensures PgUp(sz) <= PgUp(oldsz)
    ensures |k.free| == |old(k.free)| + PgUp(oldsz) - PgUp(sz) && Tables(k.role, r) == old(Tables(k.role, r))
  {
    hide ChainOk, TablesOk, Frame, V, Ppn, Pte, EntryOf, Tables;
    ghost var m0 := k.Now();
    ChainFacts(k.ram.page, k.role, k.first, k.freelist, k.free);
    if newsz >= oldsz {
      FrameSelf(m0, r, PgUp(oldsz), PgUp(oldsz));
      return oldsz;
    }
    FrameSelf(m0, r, PgUp(newsz), PgUp(oldsz));
    if PgUp(newsz) < PgUp(oldsz) {
      k.Uvmunmap(r, PgUp(newsz), PgUp(oldsz) - PgUp(newsz), true);
      SpaceShrunk(m0, k.Now(), r, PgUp(newsz), PgUp(oldsz));
    }
    sz := newsz;
  }

  /** uvmalloc: grow to newsz with zeroed pages, or leave the space as it was, 0 in that case. */
  method Uvmalloc(k: Kernel, r: nat, oldsz: nat, newsz: nat, xperm: nat) returns (sz: nat)
    requires k.Valid() && Space(k.Now(), r, PgUp(oldsz)) && |k.role| <= TRAPFRAME
    requires xperm in {0, PTE_W, PTE_X, PTE_W + PTE_X}
    modifies k
    ensures k.Valid() && |k.role| == |old(k.role)|
    ensures newsz < oldsz ==> sz == oldsz && k.Now() == old(k.Now())
    ensures newsz >= oldsz ==> sz == newsz || sz == 0
    ensures newsz >= oldsz && sz == newsz ==> PgUp(oldsz) <= PgUp(newsz) && Space(k.Now(), r, PgUp(newsz))
    ensures newsz >= oldsz && sz == newsz ==> Frame(old(k.Now()), k.Now(), r, PgUp(oldsz), PgUp(newsz))
    ensures newsz >= oldsz && sz == newsz ==> Zeroed(k.Now(), r, PgUp(oldsz), PgUp(newsz), PTE_R + PTE_U + xperm)
    ensures newsz >= oldsz && sz != newsz ==> Space(k.Now(), r, PgUp(oldsz)) && Frame(old(k.Now()), k.Now(), r, 0, 0)
    ensures newsz >= oldsz ==>
              (sz == newsz <==> |old(k.free)| >= Cost(old(Tables(k.role, r)), PgUp(oldsz), PgUp(newsz)))
    ensures newsz >= oldsz && sz == newsz ==>
              && |old(k.free)| == |k.free| + Cost(old(Tables(k.role, r)), PgUp(oldsz), PgUp(newsz))
              && Tables(k.role, r) == old(Tables(k.role, r)) + Ways(PgUp(oldsz), PgUp(newsz))
    ensures newsz >= oldsz && sz != newsz ==> Spent(|old(k.free)|, |k.free|, old(Tables(k.role, r)), Tables(k.role, r))
  {
    hide ChainOk, TablesOk, Frame, V, Ppn, Pte, EntryOf, Holds, Tables, Ways, Cost, Spent, Way;
    if newsz < oldsz {
      return oldsz;
    }
    ghost var m0 := k.Now();
    ChainFacts(k.ram.page, k.role, k.first, k.freelist, k.free);
    var lo, perm := PgUp(oldsz), PTE_R + PTE_U + xperm;
    FrameSelf(m0, r, lo, lo);
    ghost var t0 := Tables(k.role, r);
    CostNone(t0, lo);
    var a := lo;
    while a * PGSIZE < newsz
      invariant lo <= a <= PgUp(newsz) && k.Valid() && |k.role| == |m0.role| && Space(k.Now(), r, a)
      invariant Frame(m0, k.Now(), r, lo, a)
      invariant Zeroed(k.Now(), r, lo, a, perm)
      invariant Tables(k.role, r) == t0 + Ways(lo, a) && |old(k.free)| == |k.free| + Cost(t0, lo, a)
      decreases PgUp(newsz) - a
    {
      ghost var m, f, t := k.Now(), |k.free|, Tables(k.role, r);
      CostNext(t0, lo, a, PgUp(newsz));
      var ok := GrowOne(k, r, a, ZeroPage(), perm);
      if !ok {
        ghost var m1 := k.Now();
        CostBack(|old(k.free)|, f, |k.free|, t0, Tables(k.role, r), lo, a);
        SpaceKept(m, m1, r, 0, 0, r, a);
        FrameWiden(m, m1, r, 0, 0, lo, a);
        FrameSame(m0, m, m1, r, lo, a);
        assert PgUp(a * PGSIZE) == a && PgUp(lo * PGSIZE) == lo;
        var _ := Uvmdealloc(k, r, a * PGSIZE, lo * PGSIZE);
        FrameSame(m0, m1, k.Now(), r, lo, a);
        Undone(m0, k.Now(), r, lo, a);
        return 0;
      }
      FrameTrans(m0, m, k.Now(), r, lo, a, a + 1);
      forall w | lo <= w < a ensures HoldsZero(k.Now(), r, w, perm) {
        assert HoldsZero(m, r, w, perm);
        HoldsKept(m, k.Now(), r, a, a + 1, r, w, ZeroPage(), perm);
      }
      a := a + 1;
    }
    sz := newsz;
  }

  /** What growing from lo to hi pages takes with tables t there: the pages, and the tables missing. */
  ghost function Cost(t: set<Slot>, lo: nat, hi: nat): int {
    hi - lo + |Ways(lo, hi) - t|
  }

  lemma CostNone(t: set<Slot>, lo: nat)
    ensures Cost(t, lo, lo) == 0 && t + Ways(lo, lo) == t
  {
  }

  lemma CostNext(t: set<Slot>, lo: nat, a: nat, hi: nat)
    requires lo <= a < hi
    ensures Cost(t, lo, a + 1) == Cost(t, lo, a) + 1 + |Way(a) - (t + Ways(lo, a))| <= Cost(t, lo, hi)
    ensures t + Ways(lo, a) + Way(a) == t + Ways(lo, a + 1)
  {
    hide Way;
    var more := Way(a) - (t + Ways(lo, a));
    assert Ways(lo, a + 1) - t == (Ways(lo, a) - t) + more;
    CostMonotone(t, lo, a + 1, hi);
  }

  lemma {:induction false} CostMonotone(t: set<Slot>, lo: nat, a: nat, hi: nat)
    requires lo <= a <= hi
    ensures Cost(t, lo, a) <= Cost(t, lo, hi) && Ways(lo, a) <= Ways(lo, hi)
    decreases hi
  {
    hide Way;
    if a < hi {
      CostMonotone(t, lo, a, hi - 1);
      var u, w := Ways(lo, hi - 1) - t, Ways(lo, hi) - t;
      assert w == u + (w - u);
    }
  }

  /** A failed attempt after a - lo pages, when those are free again. */
  lemma CostBack(f0: nat, f: nat, f': nat, t0: set<Slot>, t': set<Slot>, lo: nat, a: nat)
    requires f0 == f + Cost(t0, lo, a) && Spent(f, f', t0 + Ways(lo, a), t') && lo <= a
    ensures Spent(f0, f' + a - lo, t0, t')
  {
    hide Ways;
    assert t' - t0 == (Ways(lo, a) - t0) + (t' - (t0 + Ways(lo, a)));
  }

  /** Grown and shrunk back: the space is what it was, and the pages are free again. */
  lemma Undone(m0: Mem, m: Mem, r: nat, lo: nat, hi: nat)
    requires TablesOk(m0.page, m0.role) && TablesOk(m.page, m.role) && Frame(m0, m, r, lo, hi) && lo <= hi <= TRAPFRAME
    requires Space(m0, r, lo) && Space(m, r, lo)
    ensures Frame(m0, m, r, 0, 0) && |m.role| == |m0.role|
  {
    hide TablesOk, EntryOf, V;
    Restored(m0, m, r, lo, hi);
  }
}
