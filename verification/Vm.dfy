/**
 Physical pages (kernel/kalloc.c) and address spaces (kernel/vm.c). Addresses are
 page numbers; the free list runs through the first word of the free pages.
 */
module Vm {
  import opened PageTable
  import opened Frames

  datatype Ram = Ram(page: Pages)

  // --------------------------------------------------------------------- the free list

  /** `free` is the list from its end: freelist is its last element, 0 ends the chain. Pages
      below `first` belong to the kernel image. */
  ghost predicate ChainOk(page: Pages, role: seq<Role>, first: nat, freelist: nat, free: seq<nat>) {
    && 1 <= first && Sized(page, role)
    && freelist == Top(free)
    && (forall n :: 0 <= n < |free| ==> first <= free[n] < |role| && role[free[n]] == Free(n))
    && (forall n :: 0 <= n < |free| ==> NextOk(page, free, n))
    && (forall p :: 0 <= p < |role| && role[p].Free? ==> role[p].pos < |free| && free[role[p].pos] == p)
    && (forall p :: 0 <= p < first && p < |role| ==> role[p] == Held)
  }

  ghost predicate NextOk(page: Pages, free: seq<nat>, n: nat)
    requires n < |free|
  {
    Word(page, free[n], 0) == if n == 0 then 0 else free[n - 1]
  }

  function Top(free: seq<nat>): nat {
    if free == [] then 0 else free[|free| - 1]
  }

  lemma PopKeeps(page: Pages, role: seq<Role>, first: nat, freelist: nat, free: seq<nat>, c: seq<nat>)
    requires ChainOk(page, role, first, freelist, free) && freelist != 0 && |c| == 512
    ensures free != [] && first <= freelist < |role| == |page| && role[freelist] == Free(|free| - 1)
    ensures free[..|free| - 1] + [freelist] == free
    ensures ChainOk(page[freelist := c], role[freelist := Held], first, Word(page, freelist, 0), free[..|free| - 1])
  {
    var n, page', free' := |free| - 1, page[freelist := c], free[..|free| - 1];
    assert role[free[n]] == Free(n) && NextOk(page, free, n);
    forall x | 0 <= x < n ensures NextOk(page', free', x) {
      assert NextOk(page, free, x) && role[free[x]] == Free(x);
    }
  }

  lemma PushKeeps(page: Pages, role: seq<Role>, first: nat, freelist: nat, free: seq<nat>, p: nat, c: seq<nat>)
    requires ChainOk(page, role, first, freelist, free) && first <= p < |role| && !role[p].Free?
    requires |c| == 512 && c[0] == freelist
    ensures ChainOk(page[p := c], role[p := Free(|free|)], first, p, free + [p])
  {
    var page', free' := page[p := c], free + [p];
    forall x | 0 <= x < |free'| ensures NextOk(page', free', x) {
      if x < |free| {
        assert NextOk(page, free, x) && role[free[x]] == Free(x);
      }
    }
  }

  lemma ChainFacts(page: Pages, role: seq<Role>, first: nat, freelist: nat, free: seq<nat>)
    requires ChainOk(page, role, first, freelist, free)
    ensures freelist == 0 <==> free == []
    ensures |page| == |role| && (forall p :: 0 <= p < |page| ==> |page[p]| == 512)
    ensures forall p :: 0 <= p < first && p < |role| ==> role[p] == Held
  {
  }

  /** The free list does not look at pages that are not free. */
  lemma ChainFrame(page: Pages, role: seq<Role>, page': Pages, role': seq<Role>, first: nat, freelist: nat,
      free: seq<nat>)
    requires ChainOk(page, role, first, freelist, free) && Sized(page', role') && |role'| == |role|
    requires forall p :: 0 <= p < |role| ==> (role[p].Free? <==> role'[p].Free?) && (role[p].Free? ==> role'[p] == role[p] && page'[p] == page[p])
    requires forall p :: 0 <= p < first && p < |role| ==> role'[p] == Held
    ensures ChainOk(page', role', first, freelist, free)
  {
    forall x | 0 <= x < |free| ensures NextOk(page', free, x) {
      assert NextOk(page, free, x) && role[free[x]] == Free(x);
    }
  }

  /** Every address space maps what it mapped. */
  ghost predicate SameViews(page: Pages, role: seq<Role>, page': Pages) {
    forall r, i, j, k :: IsRoot(role, r) ==> Leaf(page', r, i, j, k) == Leaf(page, r, i, j, k)
  }

  /** A page taken from the free list and linked in as a table. */
  lemma LinkFrames(m: Mem, p: nat, page': Pages, what: Role, q: nat)
    requires |m.page| == |m.role| && p < |m.role| && m.role[p].Free? && (what.Mid? || what.Low?) && |page'| == |m.page|
    requires q < |m.role| && IsTable(m.role[q])
    requires (forall x :: 0 <= x < |m.role| && x != p && x != q ==> page'[x] == m.page[x])
    requires SameViews(m.page, m.role, page')
    ensures Frame(m, Mem(page', m.role[p := what]), what.r, 0, 0)
  {
    hide Leaf;
  }

  /** walk has come down to this level. */
  ghost predicate AtLevel(role: seq<Role>, pt: nat, r: nat, v: nat, level: nat) {
    && IsRoot(role, r) && pt < |role| && level <= 2
    && role[pt] == (if level == 2 then Root else if level == 1 then Mid(r, Px2(v)) else Low(r, Px2(v), Px1(v)))
    && (level == 2 ==> pt == r)
  }

  function Px(level: nat, v: nat): nat {
    if level == 2 then Px2(v) else if level == 1 then Px1(v) else Px0(v)
  }

  /** A valid entry of a table leads one level down. */
  lemma Descend(page: Pages, role: seq<Role>, pt: nat, r: nat, v: nat, level: nat)
    requires TablesOk(page, role) && AtLevel(role, pt, r, v, level) && level > 0 && V(Word(page, pt, Px(level, v)))
    ensures AtLevel(role, Ppn(Word(page, pt, Px(level, v))), r, v, level - 1)
  {
    hide V, Ppn, Pte, Px2, Px1, Px0;
    assert PageOk(page, role, pt);
  }

  /** The table for the next level, linked in where there was none. */
  lemma LinkLevel(page: Pages, role: seq<Role>, pt: nat, r: nat, v: nat, level: nat, p: nat, idx: nat)
    requires TablesOk(page, role) && AtLevel(role, pt, r, v, level) && level > 0 && v < MAXVPN && idx == Px(level, v)
    requires !V(Word(page, pt, idx)) && p < |role| && role[p] == Held
    ensures p != pt && idx < 512 && pt < |page| && |page[pt]| == 512
    ensures var page' := Put(page[p := ZeroPage()], pt, idx, Pte(p, 0));
            var role' := role[p := if level == 2 then Mid(r, Px2(v)) else Low(r, Px2(v), Px1(v))];
            TablesOk(page', role') && AtLevel(role', p, r, v, level - 1) && SameViews(page, role, page')
  {
    hide V, Ppn, Pte, TablesOk, Px2, Px1, Px0, Leaf;
    PxRange(v);
    TablesSized(page, role);
    if level == 2 {
      LinkMid(page, role, r, idx, p);
    } else {
      LinkLow(page, role, pt, idx, p);
    }
  }

  lemma TablesSized(page: Pages, role: seq<Role>)
    requires TablesOk(page, role)
    ensures |page| == |role| && forall p :: 0 <= p < |page| ==> |page[p]| == 512
  {
  }

  /** At the lowest level the entry of v is there. */
  lemma EntryAt(m: Mem, q: nat, r: nat, v: nat)
    requires TablesOk(m.page, m.role) && AtLevel(m.role, q, r, v, 0)
    ensures EntryOf(m.page, r, v) == Word(m.page, q, Px0(v))
  {
    hide V, Ppn, Pte, Px0, Px1, Px2, Leaf, TablesOk;
    LowUnique(m.page, m.role, q, r, Px2(v), Px1(v));
  }

  /** A missing table means a missing entry. */
  lemma NoEntry(m: Mem, pt: nat, r: nat, v: nat, level: nat)
    requires TablesOk(m.page, m.role) && AtLevel(m.role, pt, r, v, level) && level > 0
    requires !V(Word(m.page, pt, Px(level, v)))
    ensures EntryOf(m.page, r, v) == 0
  {
    hide Ppn, Pte, Px0, Px1, Px2;
    assert PageOk(m.page, m.role, pt);
    PteFields(pt, 0);
  }

  /** The same, with page p counted as free. */
  ghost function Forget(m: Mem, p: nat): Mem {
    if p < |m.role| then m.(role := m.role[p := Free(0)]) else m
  }

  /** User memory by virtual page number. */
  lemma UserVpn(v: nat)
    ensures User(Px2(v), Px1(v), Px0(v)) <==> v < TRAPFRAME
    ensures Vpn(Px2(v), Px1(v), Px0(v)) == v
  {
    PxInverse(v, Px2(v), Px1(v), Px0(v));
  }

  /** Changing the entry of v leaves the entries of all other virtual pages alone. */
  lemma EntryEffect(m: Mem, q: nat, r: nat, v: nat, e: nat, role': seq<Role>)
    requires TablesOk(m.page, m.role) && AtLevel(m.role, q, r, v, 0) && v < MAXVPN
    requires q < |m.page| && |m.page[q]| == 512 && Px0(v) < 512
    requires SameTables(m.page, m.role, Put(m.page, q, Px0(v), e), role')
    ensures forall x: nat, w: nat :: IsRoot(m.role, x) ==>
              EntryOf(Put(m.page, q, Px0(v), e), x, w) == if x == r && w == v then e else EntryOf(m.page, x, w)
  {
    hide V, Ppn, Pte, Leaf, TablesOk, SameTables, Px0, Px1, Px2, Vpn;
    LeafEffect(m.page, m.role, q, Px0(v), e, role');
    var page' := Put(m.page, q, Px0(v), e);
    forall x: nat, w: nat | IsRoot(m.role, x)
      ensures EntryOf(page', x, w) == if x == r && w == v then e else EntryOf(m.page, x, w)
    {
      UserVpn(v);
      UserVpn(w);
    }
  }

  /** mappages of one page. */
  lemma MapFrames(m: Mem, q: nat, r: nat, v: nat, e: nat)
    requires TablesOk(m.page, m.role) && AtLevel(m.role, q, r, v, 0) && v < MAXVPN && !V(Word(m.page, q, Px0(v)))
    requires IsLeaf(e)
    requires v < TRAPFRAME ==> Ppn(e) < |m.role| && m.role[Ppn(e)] == Held
    ensures q < |m.page| && |m.page[q]| == 512 && Px0(v) < 512
    ensures var m' := Mem(Put(m.page, q, Px0(v), e), if v < TRAPFRAME then m.role[Ppn(e) := Data(r, Px2(v), Px1(v),
        Px0(v))] else m.role);
            && TablesOk(m'.page, m'.role) && EntryOf(m'.page, r, v) == e && |m'.page| == |m.page|
            && Frame(if v < TRAPFRAME then Forget(m, Ppn(e)) else m, m', r, v, v + 1)
  {
    hide V, Ppn, Pte, Leaf, TablesOk, SameTables, Px0, Px1, Px2, Vpn, User, IsLeaf, EntryOf;
    PxRange(v);
    UserVpn(v);
    TablesSized(m.page, m.role);
    MapKeeps(m.page, m.role, q, Px0(v), e);
    var role' := if v < TRAPFRAME then m.role[Ppn(e) := Data(r, Px2(v), Px1(v), Px0(v))] else m.role;
    EntryEffect(m, q, r, v, e, role');
  }

  /** uvmunmap of one page: if it is user memory, the page behind it is the caller's. */
  lemma UnmapFrames(m: Mem, q: nat, r: nat, v: nat)
    requires TablesOk(m.page, m.role) && AtLevel(m.role, q, r, v, 0) && v < MAXVPN && V(Word(m.page, q, Px0(v)))
    ensures q < |m.page| && |m.page[q]| == 512 && Px0(v) < 512
    ensures v < TRAPFRAME ==> Ppn(Word(m.page, q, Px0(v))) < |m.role|
    ensures v < TRAPFRAME ==> m.role[Ppn(Word(m.page, q, Px0(v)))] == Data(r, Px2(v), Px1(v), Px0(v))
    ensures var t := Ppn(Word(m.page, q, Px0(v)));
            var m' := Mem(Put(m.page, q, Px0(v), 0), if v < TRAPFRAME then m.role[t := Held] else m.role);
            && TablesOk(m'.page, m'.role) && EntryOf(m'.page, r, v) == 0 && |m'.page| == |m.page|
            && Frame(m, if v < TRAPFRAME then Forget(m', t) else m', r, v, v + 1)
  {
    hide V, Ppn, Pte, Leaf, TablesOk, SameTables, Px0, Px1, Px2, Vpn, User, IsLeaf, EntryOf;
    PxRange(v);
    UserVpn(v);
    TablesSized(m.page, m.role);
    UnmapKeeps(m.page, m.role, q, Px0(v));
    var t := Ppn(Word(m.page, q, Px0(v)));
    var role' := if v < TRAPFRAME then m.role[t := Held] else m.role;
    EntryEffect(m, q, r, v, 0, role');
  }

  lemma NoTables(page: Pages, role: seq<Role>)
    requires Sized(page, role) && forall p :: 0 <= p < |role| ==> role[p].Free? || role[p].Held?
    ensures TablesOk(page, role)
  {
  }

  /** A page is free exactly when it is on the list, and it is on it once. */
  lemma FreeOnce(page: Pages, role: seq<Role>, first: nat, freelist: nat, free: seq<nat>, p: nat, i: nat, j: nat)
    requires ChainOk(page, role, first, freelist, free) && p < |role| && i < |free| && j < |free|
    ensures role[p].Free? <==> p in free
    ensures free[i] == free[j] ==> i == j
  {
  }

  /** memset(p, b, PGSIZE). */
  function Fill(b: nat): (c: seq<nat>)
    ensures |c| == 512
  {
    seq(512, _ => b * 0x0101_0101_0101_0101)
  }

  // ----------------------------------------------------------------- the tables of a space

  /** A table below the root, by the part of the address that leads to it. */
  datatype Slot = MidAt(i: nat) | LowAt(i: nat, j: nat)

  ghost predicate TableOf(what: Role, r: nat) {
    (what.Mid? || what.Low?) && what.r == r
  }

  ghost function SlotOf(what: Role): Slot
    requires what.Mid? || what.Low?
  {
    if what.Mid? then MidAt(what.i) else LowAt(what.i, what.j)
  }

  /** The tables space r has. */
  ghost function Tables(role: seq<Role>, r: nat): set<Slot> {
    set p | 0 <= p < |role| && TableOf(role[p], r) :: SlotOf(role[p])
  }

  /** The table a walk to v comes to below this level. */
  ghost function Below(v: nat, level: nat): Slot {
    if level == 2 then MidAt(Px2(v)) else LowAt(Px2(v), Px1(v))
  }

  /** The tables on the way to virtual page v. */
  ghost function Way(v: nat): set<Slot> {
    {Below(v, 2), Below(v, 1)}
  }

  /** The tables on the way to some page from lo up to hi. */
  ghost function Ways(lo: nat, hi: nat): set<Slot> {
    if lo >= hi then {} else Ways(lo, hi - 1) + Way(hi - 1)
  }

  /** From f free pages and tables t, as many pages as there are new tables have been taken. */
  ghost predicate Spent(f: nat, f': nat, t: set<Slot>, t': set<Slot>) {
    t <= t' && f == f' + |t' - t|
  }

  lemma SpentTrans(f: nat, f1: nat, f2: nat, t: set<Slot>, t1: set<Slot>, t2: set<Slot>)
    requires Spent(f, f1, t, t1) && Spent(f1, f2, t1, t2)
    ensures Spent(f, f2, t, t2)
  {
    assert t2 - t == (t1 - t) + (t2 - t1);
  }

  /** Pages that are no tables may become something else that is none. */
  lemma TablesSame(role: seq<Role>, role': seq<Role>, r: nat)
    requires |role'| == |role|
    requires forall p :: 0 <= p < |role| ==> role'[p] == role[p] || (!TableOf(role[p], r) && !TableOf(role'[p], r))
    ensures Tables(role', r) == Tables(role, r)
  {
  }

  lemma TablesMore(role: seq<Role>, r: nat, p: nat, what: Role)
    requires p < |role| && !TableOf(role[p], r) && TableOf(what, r)
    ensures Tables(role[p := what], r) == Tables(role, r) + {SlotOf(what)}
  {
    var role' := role[p := what];
    assert role'[p] == what;
    forall x | x in Tables(role, r) ensures x in Tables(role', r) {
      var q :| 0 <= q < |role| && TableOf(role[q], r) && SlotOf(role[q]) == x;
      assert role'[q] == role[q];
    }
  }

  /** The table below is there exactly when the entry says so. */
  lemma BelowPresent(page: Pages, role: seq<Role>, pt: nat, r: nat, v: nat, level: nat)
    requires TablesOk(page, role) && AtLevel(role, pt, r, v, level) && level > 0
    ensures V(Word(page, pt, Px(level, v))) <==> Below(v, level) in Tables(role, r)
  {
    hide V, Ppn, Pte, Px2, Px1, Px0, IsLeaf;
    if V(Word(page, pt, Px(level, v))) {
      Descend(page, role, pt, r, v, level);
      var q := Ppn(Word(page, pt, Px(level, v)));
      assert TableOf(role[q], r) && SlotOf(role[q]) == Below(v, level);
    }
    if Below(v, level) in Tables(role, r) {
      var q :| 0 <= q < |role| && TableOf(role[q], r) && SlotOf(role[q]) == Below(v, level);
      assert PageOk(page, role, q) && PageOk(page, role, pt);
      PteFields(q, 0);
      PteFields(pt, 0);
    }
  }

  lemma SpentOne(f: nat, t: set<Slot>, x: Slot)
    requires x !in t && f > 0
    ensures Spent(f, f - 1, t, t + {x})
  {
    assert t + {x} - t == {x};
  }

  lemma SpentNone(f: nat, t: set<Slot>)
    ensures Spent(f, f, t, t)
  {
    assert t - t == {};
  }

  /** The two levels of a walk: it gets through exactly if there are pages for the missing tables. */
  lemma WayDone(f: nat, f': nat, t: set<Slot>, v: nat)
    requires Spent(f, f', t, t + Way(v))
    ensures f == f' + |Way(v) - t|
  {
    assert t + Way(v) - t == Way(v) - t;
  }

  lemma WayShort(f: nat, t: set<Slot>, t': set<Slot>, v: nat, x: Slot)
    requires Spent(f, 0, t, t') && t' <= t + Way(v) && x in Way(v) && x !in t'
    ensures f < |Way(v) - t|
  {
    var d := Way(v) - t;
    assert t' - t <= d && x in d && x !in t' - t;
    assert d == (t' - t) + (d - (t' - t));
  }

  class Kernel {
    const first: nat
    var ram: Ram
    var freelist: nat
    ghost var free: seq<nat>
    ghost var role: seq<Role>

    ghost function Now(): Mem
      reads this
    {
      Mem(ram.page, role)
    }

    ghost predicate Chain()
      reads this
    {
      ChainOk(ram.page, role, first, freelist, free)
    }

    ghost predicate Valid()
      reads this
    {
      Chain() && TablesOk(ram.page, role)
    }

    /** kinit: every page from `first` on is put on the free list. */
    constructor (first: nat, pages: Pages)
      requires 1 <= first <= |pages| && forall p :: 0 <= p < |pages| ==> |pages[p]| == 512
      ensures this.first == first && Valid() && |role| == |pages| && |free| == |pages| - first
      ensures forall p :: first <= p < |role| ==> role[p].Free?
    {
      this.first := first;
      ram := Ram(pages);
      freelist := 0;
      free := [];
      role := seq(|pages|, _ => Held);
      new;
      var p := first;
      while p < |pages|
        invariant first <= p <= |pages| && this.first == first && Chain() && |role| == |pages| && |free| == p - first
        invariant forall x :: first <= x < p ==> role[x].Free?
        invariant forall x :: p <= x < |role| ==> role[x] == Held
      {
        Kfree(p);
        p := p + 1;
      }
      NoTables(ram.page, role);
    }

    /** kfree of a page that is not free: it comes first on the list. */
    method Kfree(p: nat)
      requires Chain() && first <= p < |role| && !role[p].Free?
      modifies this
      ensures Chain() && free == old(free) + [p] && role == old(role)[p := Free(|old(free)|)]
      ensures |ram.page| == |old(ram.page)|
      ensures (forall x :: 0 <= x < |ram.page| && x != p ==> ram.page[x] == old(ram.page)[x])
    {
      hide ChainOk, Fill;
      ChainFacts(ram.page, role, first, freelist, free);
      var c: seq<nat> := Fill(1)[0 := freelist];
      PushKeeps(ram.page, role, first, freelist, free, p, c);
      ram := Ram(ram.page[p := c]);
      freelist := p;
      role := role[p := Free(|free|)];
      free := free + [p];
    }

    /** kalloc: the first page of the list, held by the caller; 0 when there is none. */
    method Kalloc() returns (p: nat)
      requires Valid()
      modifies this
      ensures Valid() && (p == 0 <==> old(free) == [])
      ensures p == 0 ==> ram == old(ram) && role == old(role) && free == old(free)
      ensures p != 0 ==> first <= p < |old(role)| && old(role)[p].Free? && role == old(role)[p := Held]
                         && free + [p] == old(free) && |ram.page| == |old(ram).page| == |role|
                         && (forall x :: 0 <= x < |ram.page| && x != p ==> ram.page[x] == old(ram).page[x])
      ensures SameViews(old(ram).page, old(role), ram.page)
    {
      hide ChainOk, TablesOk, Fill, Leaf;
      ChainFacts(ram.page, role, first, freelist, free);
      p := freelist;
      if p != 0 {
        PopKeeps(ram.page, role, first, freelist, free, Fill(5));
        LooseKeeps(ram.page, role, p, Fill(5), Held);
        freelist := Word(ram.page, p, 0);
        ram := Ram(ram.page[p := Fill(5)]);
        role := role[p := Held];
        free := free[..|free| - 1];
      }
    }

    /** One level of walk. */
    method WalkLevel(r: nat, v: nat, pt: nat, level: nat, alloc: bool) returns (next: nat)
      requires Valid() && AtLevel(role, pt, r, v, level) && level > 0 && v < MAXVPN
      modifies this
      ensures Valid() && Frame(old(Now()), Now(), r, 0, 0)
      ensures next != 0 ==> AtLevel(role, next, r, v, level - 1)
      ensures next == 0 ==> !V(Word(ram.page, pt, Px(level, v))) && (alloc ==> free == [])
      ensures !alloc || next == 0 ==> ram == old(ram) && role == old(role) && free == old(free)
      ensures next == 0 ==> Below(v, level) !in Tables(role, r)
      ensures alloc && next != 0 ==> Tables(role, r) == old(Tables(role, r)) + {Below(v, level)}
      ensures Spent(|old(free)|, |free|, old(Tables(role, r)), Tables(role, r))
    {
      hide ChainOk, TablesOk, Frame, V, Ppn, Pte, Px, Px0, Px1, Px2, Leaf, Tables, Spent, Below;
      ChainFacts(ram.page, role, first, freelist, free);
      FrameSelf(Now(), r, 0, 0);
      BelowPresent(ram.page, role, pt, r, v, level);
      SpentNone(|free|, Tables(role, r));
      var idx := Px(level, v);
      var e := Word(ram.page, pt, idx);
      if V(e) {
        Descend(ram.page, role, pt, r, v, level);
        NotNull(ram.page, role, first, freelist, free, Ppn(e));
        next := Ppn(e);
      } else if !alloc {
        next := 0;
      } else {
        next := Kalloc();
        if next != 0 {
          TablesSame(old(role), role, r);
          SpentOne(|old(free)|, Tables(role, r), Below(v, level));
          Link(r, v, pt, level, next, idx, old(Now()));
        }
      }
    }

    /** Zero the new table and enter it. */
    method Link(r: nat, v: nat, pt: nat, level: nat, p: nat, idx: nat, ghost m0: Mem)
      requires Valid() && AtLevel(role, pt, r, v, level) && level > 0 && v < MAXVPN && idx == Px(level, v)
      requires first <= p < |role| && role[p] == Held && !V(Word(ram.page, pt, idx))
      requires |m0.page| == |m0.role| == |role| && m0.role[p].Free? && role == m0.role[p := Held]
      requires forall x :: 0 <= x < |role| && x != p ==> ram.page[x] == m0.page[x]
      requires SameViews(m0.page, m0.role, ram.page)
      modifies this`ram, this`role
      ensures Valid() && AtLevel(role, p, r, v, level - 1) && Frame(m0, Now(), r, 0, 0)
      ensures Tables(role, r) == old(Tables(role, r)) + {Below(v, level)}
    {
      hide ChainOk, TablesOk, Frame, V, Ppn, Pte, Px, Px0, Px1, Px2, Leaf, Tables;
      ChainFacts(ram.page, role, first, freelist, free);
      TablesMore(role, r, p, if level == 2 then Mid(r, Px2(v)) else Low(r, Px2(v), Px1(v)));
      LinkLevel(ram.page, role, pt, r, v, level, p, idx);
      var page1 := Put(ram.page[p := ZeroPage()], pt, idx, Pte(p, 0));
      ghost var what := if level == 2 then Mid(r, Px2(v)) else Low(r, Px2(v), Px1(v));
      TablesSized(page1, role[p := what]);
      ChainFrame(ram.page, role, page1, role[p := what], first, freelist, free);
      LinkFrames(m0, p, page1, what, pt);
      assert m0.role[p := what] == role[p := what];
      ram := Ram(page1);
      role := role[p := what];
    }

    /** walk: the lowest table for v, with its missing tables made if `alloc`; 0 if there is none. */
    method Walk(r: nat, v: nat, alloc: bool) returns (q: nat)
      requires Valid() && IsRoot(role, r) && v < MAXVPN
      modifies this
      ensures Valid() && Frame(old(Now()), Now(), r, 0, 0)
      ensures q != 0 ==> AtLevel(role, q, r, v, 0) && EntryOf(ram.page, r, v) == Word(ram.page, q, Px0(v))
      ensures q == 0 ==> EntryOf(ram.page, r, v) == 0 && (alloc ==> free == [])
      ensures !alloc ==> ram == old(ram) && role == old(role) && free == old(free)
      ensures EntryOf(ram.page, r, v) == EntryOf(old(ram).page, r, v)
      ensures alloc ==> (q != 0 <==> |old(free)| >= |Way(v) - old(Tables(role, r))|)
      ensures alloc && q != 0 ==> Tables(role, r) == old(Tables(role, r)) + Way(v)
      ensures Tables(role, r) <= old(Tables(role, r)) + Way(v)
      ensures Spent(|old(free)|, |free|, old(Tables(role, r)), Tables(role, r))
    {
      hide ChainOk, TablesOk, Frame, V, Ppn, Pte, Px0, Px1, Px2, EntryOf, Leaf, Tables, Spent, Below;
      ChainFacts(ram.page, role, first, freelist, free);
      FrameSelf(Now(), r, 0, 0);
      ghost var t0 := Tables(role, r);
      SpentNone(|free|, t0);
      var pt, level := r, 2;
      while level > 0
        invariant 0 <= level <= 2 && Valid() && AtLevel(role, pt, r, v, level)
        invariant Frame(old(Now()), Now(), r, 0, 0)
        invariant !alloc ==> ram == old(ram) && role == old(role) && free == old(free)
        invariant Spent(|old(free)|, |free|, t0, Tables(role, r)) && Tables(role, r) <= t0 + Way(v)
        invariant alloc && level <= 1 ==> t0 <= Tables(role, r) && Below(v, 2) in Tables(role, r)
        invariant alloc && level == 0 ==> Below(v, 1) in Tables(role, r)
      {
        ghost var m, f, t := Now(), |free|, Tables(role, r);
        var next := WalkLevel(r, v, pt, level, alloc);
        FrameSame(old(Now()), m, Now(), r, 0, 0);
        SpentTrans(|old(free)|, f, |free|, t0, t, Tables(role, r));
        if next == 0 {
          if alloc { WayShort(|old(free)|, t0, Tables(role, r), v, Below(v, level)); }
          NoEntry(Now(), pt, r, v, level);
          FrameEntry(old(Now()), Now(), r, 0, 0, v);
          return 0;
        }
        pt, level := next, level - 1;
      }
      q := pt;
      if alloc {
        assert Tables(role, r) == t0 + Way(v);
        WayDone(|old(free)|, |free|, t0, v);
      }
      NotNull(ram.page, role, first, freelist, free, q);
      EntryAt(Now(), q, r, v);
      FrameEntry(old(Now()), Now(), r, 0, 0, v);
    }

    /** mappages of one page. User memory is a page the caller holds. */
    method MapPage(r: nat, v: nat, p: nat, perm: nat) returns (ok: bool)
      requires Valid() && IsRoot(role, r) && v < MAXVPN && !V(EntryOf(ram.page, r, v))
      requires perm < 1024 && perm / 2 % 8 != 0 && (v < TRAPFRAME ==> first <= p < |role| && role[p] == Held)
      modifies this
      ensures Valid() && (!ok ==> free == [] && Frame(old(Now()), Now(), r, 0, 0))
      ensures ok ==> EntryOf(ram.page, r, v) == Pte(p, perm)
      ensures ok ==> Frame(if v < TRAPFRAME then Forget(old(Now()), p) else old(Now()), Now(), r, v, v + 1)
      ensures ok && v < TRAPFRAME ==> |ram.page| == |old(ram).page| && p < |ram.page| && ram.page[p] == old(ram).page[p]
      ensures ok <==> |old(free)| >= |Way(v) - old(Tables(role, r))|
      ensures ok ==> Tables(role, r) == old(Tables(role, r)) + Way(v)
      ensures Tables(role, r) <= old(Tables(role, r)) + Way(v)
      ensures Spent(|old(free)|, |free|, old(Tables(role, r)), Tables(role, r))
    {
      hide ChainOk, TablesOk, Frame, V, Ppn, Pte, Px0, Px1, Px2, EntryOf, Leaf, IsLeaf, Word, Tables, Spent, Way;
      ChainFacts(ram.page, role, first, freelist, free);
      var q := Walk(r, v, true);
      if q == 0 {
        return false;
      }
      FrameHeld(old(Now()), Now(), r, p);
      PteFields(p, perm);
      MapFrames(Now(), q, r, v, Pte(p, perm));
      ghost var m := Now();
      ram := Ram(Put(ram.page, q, Px0(v), Pte(p, perm)));
      if v < TRAPFRAME {
        role := role[p := Data(r, Px2(v), Px1(v), Px0(v))];
        TablesSame(m.role, role, r);
        FrameForget(old(Now()), m, p, r);
        FrameWiden(Forget(old(Now()), p), Forget(m, p), r, 0, 0, v, v + 1);
        FrameSame(Forget(old(Now()), p), Forget(m, p), Now(), r, v, v + 1);
      } else {
        FrameWiden(old(Now()), m, r, 0, 0, v, v + 1);
        FrameSame(old(Now()), m, Now(), r, v, v + 1);
      }
      TablesSized(ram.page, role);
      ChainFacts(m.page, m.role, first, freelist, free);
      ChainFrame(m.page, m.role, ram.page, role, first, freelist, free);
      ok := true;
    }

    /** One turn of uvmunmap: with `dofree` the page behind the entry goes to the free list. */
    method UnmapPage(r: nat, v: nat, dofree: bool)
      requires Valid() && IsRoot(role, r) && v < MAXVPN && V(EntryOf(ram.page, r, v)) && (dofree <==> v < TRAPFRAME)
      modifies this
      ensures Valid() && EntryOf(ram.page, r, v) == 0 && Frame(old(Now()), Now(), r, v, v + 1)
      ensures !dofree ==> role == old(role) && free == old(free)
      ensures |free| == |old(free)| + (if dofree then 1 else 0) && Tables(role, r) == old(Tables(role, r))
    {
      hide ChainOk, TablesOk, Frame, V, Ppn, Pte, Px0, Px1, Px2, EntryOf, Leaf, IsLeaf, Word, Tables;
      ChainFacts(ram.page, role, first, freelist, free);
      var q := Walk(r, v, false);
      ZeroNotV();
      var e := Word(ram.page, q, Px0(v));
      UnmapFrames(Now(), q, r, v);
      ghost var m := Now();
      if dofree {
        NotNull(ram.page, role, first, freelist, free, Ppn(e));
        Kfree(Ppn(e));
        TablesSame(m.role, role, r);
        ChainFacts(ram.page, role, first, freelist, free);
        UnmapFree(m, Now(), q, Px0(v), Ppn(e), r, v);
      }
      ghost var m1 := Now();
      ram := Ram(Put(ram.page, q, Px0(v), 0));
      TablesSized(ram.page, role);
      ChainFrame(m1.page, m1.role, ram.page, role, first, freelist, free);
    }

    /** kalloc, and the page filled with c: what the caller holds then counts as free for nobody. */
    method AllocFilled(c: seq<nat>, ghost r: nat) returns (p: nat)
      requires Valid() && |c| == 512
      modifies this
      ensures Valid() && (p == 0 <==> old(free) == [])
      ensures p == 0 ==> Now() == old(Now()) && free == old(free)
      ensures p != 0 ==> first <= p < |role| == |ram.page| == |old(role)| && role == old(role)[p := Held]
      ensures p != 0 ==> old(role)[p].Free? && ram.page[p] == c
      ensures p != 0 ==> Frame(old(Now()), Forget(Now(), p), r, 0, 0) && free + [p] == old(free)
      ensures Tables(role, r) == old(Tables(role, r))
    {
      hide ChainOk, TablesOk, Frame, SameViews, Tables;
      ChainFacts(ram.page, role, first, freelist, free);
      p := Kalloc();
      if p != 0 {
        ghost var m := Now();
        FillKeeps(old(Now()), m, p, c, r);
        TablesSame(old(role), role, r);
        ram := Ram(ram.page[p := c]);
        TablesSized(ram.page, role);
        ChainFacts(m.page, m.role, first, freelist, free);
        ChainFrame(m.page, m.role, ram.page, role, first, freelist, free);
      }
    }

    /** kfree of a page the caller holds. */
    method FreeHeld(p: nat, ghost r: nat)
      requires Valid() && first <= p < |role| && role[p] == Held
      modifies this
      ensures Valid() && Frame(Forget(old(Now()), p), Now(), r, 0, 0)
      ensures |role| == |old(role)| && role[p].Free? && role == old(role)[p := role[p]] && free == old(free) + [p]
      ensures Tables(role, r) == old(Tables(role, r))
    {
      hide ChainOk, TablesOk, Frame, Tables;
      ChainFacts(ram.page, role, first, freelist, free);
      Kfree(p);
      TablesSame(old(role), role, r);
      ChainFacts(ram.page, role, first, freelist, free);
      FreeKeeps(old(Now()), Now(), p, r);
    }

    /** uvmunmap of n pages from v on. */
    method Uvmunmap(r: nat, v: nat, n: nat, dofree: bool)
      requires Valid() && IsRoot(role, r) && v + n <= MAXVPN && (dofree ==> v + n <= TRAPFRAME)
      requires (!dofree ==> TRAPFRAME <= v)
      requires forall w :: v <= w < v + n ==> V(EntryOf(ram.page, r, w))
      modifies this
      ensures Valid() && Frame(old(Now()), Now(), r, v, v + n) && IsRoot(role, r)
      ensures forall w :: v <= w < v + n ==> EntryOf(ram.page, r, w) == 0
      ensures !dofree ==> role == old(role) && free == old(free)
      ensures |free| == |old(free)| + (if dofree then n else 0) && Tables(role, r) == old(Tables(role, r))
    {
      hide ChainOk, TablesOk, Frame, V, Ppn, Pte, Px0, Px1, Px2, EntryOf, Leaf, IsLeaf, Word, Tables;
      ChainFacts(ram.page, role, first, freelist, free);
      FrameSelf(Now(), r, v, v);
      var a := v;
      while a < v + n
        invariant v <= a <= v + n && Valid() && IsRoot(role, r) && Frame(old(Now()), Now(), r, v, a)
        invariant forall w :: v <= w < a ==> EntryOf(ram.page, r, w) == 0
        invariant forall w :: a <= w < v + n ==> V(EntryOf(ram.page, r, w))
        invariant !dofree ==> role == old(role) && free == old(free)
        invariant |free| == |old(free)| + (if dofree then a - v else 0) && Tables(role, r) == old(Tables(role, r))
      {
        ghost var m := Now();
        UnmapPage(r, a, dofree);
        FrameEntries(m, Now(), r, a);
        FrameTrans(old(Now()), m, Now(), r, v, a, a + 1);
        a := a + 1;
      }
    }
  }

  lemma FillKeeps(m0: Mem, m: Mem, p: nat, c: seq<nat>, r: nat)
    requires |m0.page| == |m0.role| && p < |m0.role| && m0.role[p].Free? && TablesOk(m.page, m.role) && |c| == 512
    requires m.role == m0.role[p := Held] && |m.page| == |m0.page|
    requires (forall x :: 0 <= x < |m.page| && x != p ==> m.page[x] == m0.page[x])
    requires SameViews(m0.page, m0.role, m.page)
    ensures TablesOk(m.page[p := c], m.role)
    ensures Frame(m0, Forget(Mem(m.page[p := c], m.role), p), r, 0, 0)
  {
    hide TablesOk, Leaf;
    LooseKeeps(m.page, m.role, p, c, Held);
    assert m.role[p := Held] == m.role;
    forall x: nat, w: nat | IsRoot(m0.role, x) ensures EntryOf(m.page[p := c], x, w) == EntryOf(m0.page, x, w) {
      assert IsRoot(m.role, x);
    }
  }

  lemma FreeKeeps(m: Mem, m': Mem, p: nat, r: nat)
    requires TablesOk(m.page, m.role) && p < |m.role| == |m.page| && m.role[p] == Held
    requires |m'.page| == |m.page| == |m'.role| && |m'.page[p]| == 512
    requires m'.role == m.role[p := m'.role[p]] && m'.role[p].Free?
    requires (forall x :: 0 <= x < |m.page| && x != p ==> m'.page[x] == m.page[x])
    ensures TablesOk(m'.page, m'.role) && Frame(Forget(m, p), m', r, 0, 0)
  {
    hide TablesOk, Leaf;
    LooseKeeps(m.page, m.role, p, m'.page[p], m'.role[p]);
    assert m.page[p := m'.page[p]] == m'.page;
    forall x: nat, w: nat | IsRoot(Forget(m, p).role, x) ensures EntryOf(m'.page, x, w) == EntryOf(m.page, x, w) {
      assert IsRoot(m.role, x);
    }
  }

  lemma ZeroNotV()
    ensures !V(0)
  {
  }

  /** Freeing the page first and clearing the entry after gives the same state as the other way round. */
  lemma UnmapFree(m: Mem, m1: Mem, q: nat, k: nat, t: nat, r: nat, v: nat)
    requires q < |m.page| && |m.page[q]| == 512 && k < 512 && t < |m.role| == |m.page| == |m1.page| == |m1.role|
    requires q < |m.role|
    requires m.role[q].Low? && m.role[t].Data? && |m1.page[t]| == 512
    requires (forall x :: 0 <= x < |m.page| && x != t ==> m1.page[x] == m.page[x])
    requires m1.role == m.role[t := m1.role[t]] && m1.role[t].Free? && IsRoot(m.role, r) && v < MAXVPN
    requires TablesOk(Put(m.page, q, k, 0), m.role[t := Held]) && EntryOf(Put(m.page, q, k, 0), r, v) == 0
    requires Frame(m, Forget(Mem(Put(m.page, q, k, 0), m.role[t := Held]), t), r, v, v + 1)
    ensures |m1.page[q]| == 512 && TablesOk(Put(m1.page, q, k, 0), m1.role)
    ensures EntryOf(Put(m1.page, q, k, 0), r, v) == 0
    ensures Frame(m, Mem(Put(m1.page, q, k, 0), m1.role), r, v, v + 1)
  {
    hide TablesOk, V, Ppn, Leaf, Word;
    var page2 := Put(m.page, q, k, 0);
    LooseKeeps(page2, m.role[t := Held], t, m1.page[t], m1.role[t]);
    assert Put(m1.page, q, k, 0) == page2[t := m1.page[t]];
    assert m.role[t := Held][t := m1.role[t]] == m1.role;
    ForgetFrame(m, page2, t, m1.page[t], m1.role[t], r, v);
  }

  lemma ForgetFrame(m: Mem, page2: Pages, t: nat, c: seq<nat>, what: Role, r: nat, v: nat)
    requires t < |m.role| == |m.page| == |page2| && what.Free? && m.role[t].Data? && IsRoot(m.role, r) && |c| == 512
    requires Frame(m, Forget(Mem(page2, m.role[t := Held]), t), r, v, v + 1)
    requires forall x, i, j, k :: IsRoot(m.role[t := Held], x) ==> Leaf(page2[t := c], x, i, j, k) == Leaf(page2, x, i,
        j, k)
    ensures Frame(m, Mem(page2[t := c], m.role[t := Held][t := what]), r, v, v + 1)
  {
    hide Leaf;
    var m1 := Forget(Mem(page2, m.role[t := Held]), t);
    var m2 := Mem(page2[t := c], m.role[t := Held][t := what]);
    assert RoleFrame(m.role[t], m1.role[t], r, v, v + 1);
    forall p | 0 <= p < |m.role| ensures RoleFrame(m.role[p], m2.role[p], r, v, v + 1) {
      assert RoleFrame(m.role[p], m1.role[p], r, v, v + 1);
    }
    forall x: nat, w: nat | IsRoot(m.role, x) && !(x == r && v <= w < v + 1)
      ensures EntryOf(m2.page, x, w) == EntryOf(m.page, x, w)
    {
      assert IsRoot(m.role[t := Held], x);
      assert EntryOf(m1.page, x, w) == EntryOf(m.page, x, w);
    }
  }

  lemma FrameEntries(m: Mem, m': Mem, r: nat, v: nat)
    requires Frame(m, m', r, v, v + 1) && IsRoot(m.role, r)
    ensures IsRoot(m'.role, r) && forall w: nat :: w != v ==> EntryOf(m'.page, r, w) == EntryOf(m.page, r, w)
  {
    hide EntryOf;
    assert RoleFrame(m.role[r], m'.role[r], r, v, v + 1);
  }

  lemma FrameEntry(m: Mem, m': Mem, r: nat, lo: nat, hi: nat, v: nat)
    requires Frame(m, m', r, lo, hi) && IsRoot(m.role, r) && !(lo <= v < hi)
    ensures EntryOf(m'.page, r, v) == EntryOf(m.page, r, v) && IsRoot(m'.role, r)
  {
    assert RoleFrame(m.role[r], m'.role[r], r, lo, hi);
  }

  /** A page the kernel holds stays as it is. */
  lemma FrameHeld(m: Mem, m': Mem, r: nat, p: nat)
    requires Frame(m, m', r, 0, 0)
    ensures |m.role| == |m'.role| == |m.page| == |m'.page|
    ensures p < |m.role| && m.role[p] == Held ==> m'.role[p] == Held && m'.page[p] == m.page[p]
  {
    if p < |m.role| {
      assert RoleFrame(m.role[p], m'.role[p], r, 0, 0);
    }
  }

  lemma FrameForget(m: Mem, m': Mem, p: nat, r: nat)
    requires Frame(m, m', r, 0, 0) && p < |m.role| && m.role[p] == Held
    ensures Frame(Forget(m, p), Forget(m', p), r, 0, 0)
  {
    hide EntryOf;
    forall x | 0 <= x < |m.role| ensures RoleFrame(Forget(m, p).role[x], Forget(m', p).role[x], r, 0, 0) {
      assert RoleFrame(m.role[x], m'.role[x], r, 0, 0);
    }
  }

  /** Table pages lie outside the kernel image. */
  lemma NotNull(page: Pages, role: seq<Role>, first: nat, freelist: nat, free: seq<nat>, p: nat)
    requires ChainOk(page, role, first, freelist, free) && p < |role| && role[p] != Held
    ensures first <= p && p != 0
  {
  }
}
