/**
 Whole life of an address space: what was built for it is given back, on every path
 of fork and exec (kernel/vm.c, kernel/proc.c, kernel/exec.c).
 */
module Lifecycle {
  import opened PageTable
  import opened Frames
  import opened Vm
  import opened TableTree
  import opened UserMemory

  /** Page p is part of space r: its root, a table or user memory. */
  ghost predicate Belongs(what: Role, p: nat, r: nat) {
    || (what.Root? && p == r)
    || ((what.Mid? || what.Low? || what.Data?) && what.r == r)
  }

  /** Same use and same contents of everything that is not free, same views. */
  ghost predicate Rest(m: Mem, m': Mem, r: nat) {
    && |m.page| == |m.role| == |m'.page| == |m'.role|
    && (forall p :: 0 <= p < |m.role| && (m.role[p].Held? || m.role[p].Data?) && !Belongs(m.role[p], p, r) ==> m'.page[p] == m.page[p])
    && (forall x: nat, w: nat :: IsRoot(m.role, x) && x != r ==> EntryOf(m'.page, x, w) == EntryOf(m.page, x, w))
  }

  /** Since m, space r has come into being and nothing else has happened. */
  ghost predicate OnlyNew(m: Mem, m': Mem, r: nat) {
    && Rest(m, m', r) && (r < |m.role| ==> m.role[r].Free?)
    && forall p :: 0 <= p < |m.role| ==>
         m'.role[p] == m.role[p] || (m.role[p].Free? && (m'.role[p].Free? || Belongs(m'.role[p], p, r)))
  }

  /** Since m, space r has gone and nothing else has happened. */
  ghost predicate Dropped(m: Mem, m': Mem, r: nat) {
    && Rest(m, m', r)
    && forall p :: 0 <= p < |m.role| ==>
         if Belongs(m.role[p], p, r) then m'.role[p].Free? else m'.role[p] == m.role[p] || (m.role[p].Free? && m'.role[p].Free?)
  }

  /** The same pages are free, and all others are as they were. */
  ghost predicate Intact(m: Mem, m': Mem) {
    && |m.page| == |m.role| == |m'.page| == |m'.role|
    && (forall p :: 0 <= p < |m.role| ==> m'.role[p] == m.role[p] || (m.role[p].Free? && m'.role[p].Free?))
    && (forall p :: 0 <= p < |m.role| && (m.role[p].Held? || m.role[p].Data?) ==> m'.page[p] == m.page[p])
    && (forall x: nat, w: nat :: IsRoot(m.role, x) ==> EntryOf(m'.page, x, w) == EntryOf(m.page, x, w))
  }

  /** What is not a root has no tables and no memory. */
  lemma NothingOf(m: Mem, r: nat, p: nat)
    requires TablesOk(m.page, m.role) && !IsRoot(m.role, r) && p < |m.role|
    ensures !Belongs(m.role[p], p, r)
  {
    assert PageOk(m.page, m.role, p);
  }

  /** Built and torn down: every page is back. */
  lemma BuiltAndDropped(m: Mem, m1: Mem, m2: Mem, r: nat)
    requires TablesOk(m.page, m.role) && OnlyNew(m, m1, r) && Dropped(m1, m2, r)
    ensures Intact(m, m2)
  {
    hide EntryOf, TablesOk;
    forall p | 0 <= p < |m.role| ensures !Belongs(m.role[p], p, r) {
      NothingOf(m, r, p);
    }
  }

  lemma OnlyNewFrame(m: Mem, m1: Mem, m2: Mem, r: nat, lo: nat, hi: nat)
    requires TablesOk(m.page, m.role) && OnlyNew(m, m1, r) && Frame(m1, m2, r, lo, hi)
    ensures OnlyNew(m, m2, r)
  {
    hide EntryOf, Vpn, TablesOk;
    forall p | 0 <= p < |m.role|
      ensures m2.role[p] == m.role[p] || (m.role[p].Free? && (m2.role[p].Free? || Belongs(m2.role[p], p, r)))
    {
      assert RoleFrame(m1.role[p], m2.role[p], r, lo, hi);
      NothingOf(m, r, p);
    }
    forall x: nat, w: nat | IsRoot(m.role, x) && x != r ensures EntryOf(m2.page, x, w) == EntryOf(m.page, x, w) {
      assert IsRoot(m1.role, x);
    }
  }

  /** Every entry of the space is empty. */
  ghost predicate Blank(m: Mem, r: nat) {
    forall w: nat :: EntryOf(m.page, r, w) == 0
  }

  /** uvmcreate: an empty space. */
  method Uvmcreate(k: Kernel) returns (r: nat)
    requires k.Valid()
    modifies k
    ensures k.Valid() && (r == 0 ==> k.Now() == old(k.Now()))
    ensures r != 0 ==> IsRoot(k.role, r) && Blank(k.Now(), r) && OnlyNew(old(k.Now()), k.Now(), r)
    ensures |k.role| == |old(k.role)| && (r == 0 <==> old(k.free) == [])
    ensures r != 0 ==> |old(k.free)| == |k.free| + 1 && Tables(k.role, r) == {}
  {
    hide ChainOk, TablesOk, Frame, EntryOf, OnlyNew;
    r := k.AllocFilled(ZeroPage(), 0);
    if r != 0 {
      ghost var m := k.Now();
      NoTablesYet(m, r);
      Created(old(k.Now()), m, r);
      ChainFacts(k.ram.page, k.role, k.first, k.freelist, k.free);
      ChainFrame(k.ram.page, k.role, k.ram.page, k.role[r := Root], k.first, k.freelist, k.free);
      k.role := k.role[r := Root];
    }
  }

  lemma NoTablesYet(m: Mem, r: nat)
    requires TablesOk(m.page, m.role) && r < |m.role| && !IsRoot(m.role, r)
    ensures Tables(m.role[r := Root], r) == {}
  {
    hide TablesOk;
    var role' := m.role[r := Root];
    forall p | 0 <= p < |role'| ensures !TableOf(role'[p], r) { NothingOf(m, r, p); }
  }

  lemma Created(m0: Mem, m: Mem, r: nat)
    requires TablesOk(m.page, m.role) && r < |m.role| == |m.page| == |m0.role| && m0.role[r].Free?
    requires m.role == m0.role[r := Held] && m.page[r] == ZeroPage()
    requires Frame(m0, Forget(m, r), 0, 0, 0)
    ensures TablesOk(m.page, m.role[r := Root]) && Sized(m.page, m.role[r := Root]) && IsRoot(m.role[r := Root], r)
    ensures Blank(Mem(m.page, m.role[r := Root]), r) && OnlyNew(m0, Mem(m.page, m.role[r := Root]), r)
  {
    hide TablesOk, Leaf;
    NewRoot(m.page, m.role, r);
    TablesSized(m.page, m.role);
    assert m.page[r := ZeroPage()] == m.page;
    var m' := Mem(m.page, m.role[r := Root]);
    assert |m'.role| == |m0.role|;
    forall p | 0 <= p < |m0.role|
      ensures m'.role[p] == m0.role[p] || (m0.role[p].Free? && (m'.role[p].Free? || Belongs(m'.role[p], p, r)))
    {
    }
  }

  /** An empty space has no leaves. */
  lemma BlankNoLeaves(m: Mem, r: nat)
    requires TablesOk(m.page, m.role) && IsRoot(m.role, r) && Blank(m, r)
    ensures NoLeaves(m, r)
    ensures forall p :: 0 <= p < |m.role| && m.role[p].Data? ==> m.role[p].r != r
  {
    hide Ppn, Pte, Px0, Px1, Px2, User, IsLeaf, Vpn;
    forall x, k: nat | 0 <= x < |m.role| && m.role[x].Low? && Under(m.role, x, r) ensures !V(Word(m.page, x, k)) {
      var i, j := m.role[x].i, m.role[x].j;
      LowUnique(m.page, m.role, x, r, i, j);
      assert Leaf(m.page, r, i, j, k) == Word(m.page, x, k);
      if j < 512 && k < 512 {
        PxInverse(Vpn(i, j, k), i, j, k);
        assert EntryOf(m.page, r, Vpn(i, j, k)) == Leaf(m.page, r, i, j, k);
      } else if V(Word(m.page, x, k)) {
        LeafRange(m.page, r, i, j, k);
      }
    }
    forall p | 0 <= p < |m.role| && m.role[p].Data? ensures m.role[p].r != r {
      DataEntry(m, p);
    }
  }

  /** uvmfree of a space whose user memory has been unmapped: freewalk of the root. */
  method FreeTree(k: Kernel, r: nat)
    requires k.Valid() && IsRoot(k.role, r) && Blank(k.Now(), r)
    modifies k
    ensures k.Valid() && Dropped(old(k.Now()), k.Now(), r)
  {
    hide ChainOk, TablesOk, EntryOf, NoLeaves, Dropped;
    ghost var m := k.Now();
    ChainFacts(k.ram.page, k.role, k.first, k.freelist, k.free);
    BlankNoLeaves(m, r);
    Freewalk(k, r, m);
    ChainFacts(k.ram.page, k.role, k.first, k.freelist, k.free);
    TreeDropped(m, k.Now(), r);
  }

  lemma TreeDropped(m: Mem, m': Mem, r: nat)
    requires TablesOk(m.page, m.role) && IsRoot(m.role, r) && Cut(m, m, m', r) && Sized(m'.page, m'.role)
    requires forall p :: 0 <= p < |m.role| && m.role[p].Data? ==> m.role[p].r != r
    ensures TablesOk(m'.page, m'.role) && Dropped(m, m', r)
  {
    hide TablesOk, Leaf;
    forall x | 0 <= x < |m.role| ensures InTree(m.role, x, r) <==> Under(m.role, x, r) { }
    TreeGone(m.page, m.role, m'.page, m'.role, r);
  }

  lemma DroppedAfter(m: Mem, m1: Mem, m2: Mem, r: nat, lo: nat, hi: nat)
    requires Frame(m, m1, r, lo, hi) && Dropped(m1, m2, r)
    ensures Dropped(m, m2, r)
  {
    hide EntryOf, Vpn;
    forall p | 0 <= p < |m.role|
      ensures if Belongs(m.role[p], p, r) then m2.role[p].Free? else m2.role[p] == m.role[p] || (m.role[p].Free? && m2.role[p].Free?)
      ensures (m.role[p].Held? || m.role[p].Data?) && !Belongs(m.role[p], p, r) ==> m2.page[p] == m.page[p]
    {
      assert RoleFrame(m.role[p], m1.role[p], r, lo, hi);
    }
    forall x: nat, w: nat | IsRoot(m.role, x) && x != r ensures EntryOf(m2.page, x, w) == EntryOf(m.page, x, w) {
      assert RoleFrame(m.role[x], m1.role[x], r, lo, hi);
    }
  }

  /** uvmfree: unmap and free the user memory, then the tables. */
  method Uvmfree(k: Kernel, r: nat, sz: nat)
    requires k.Valid() && Space(k.Now(), r, PgUp(sz))
    requires (forall w: nat :: TRAPFRAME <= w ==> EntryOf(k.ram.page, r, w) == 0)
    modifies k
    ensures k.Valid() && Dropped(old(k.Now()), k.Now(), r) && |k.role| == |old(k.role)|
  {
    hide ChainOk, TablesOk, EntryOf, Dropped, Frame, V;
    ghost var m := k.Now();
    ChainFacts(k.ram.page, k.role, k.first, k.freelist, k.free);
    FrameSelf(m, r, 0, PgUp(sz));
    if sz > 0 {
      k.Uvmunmap(r, 0, PgUp(sz), true);
    }
    ghost var m1 := k.Now();
    NowBlank(m, m1, r, PgUp(sz));
    FreeTree(k, r);
    DroppedAfter(m, m1, k.Now(), r, 0, PgUp(sz));
    DroppedSize(m, k.Now(), r);
  }

  lemma DroppedSize(m: Mem, m': Mem, r: nat)
    requires Dropped(m, m', r)
    ensures |m.role| == |m'.role|
  {
  }

  lemma NowBlank(m: Mem, m1: Mem, r: nat, n: nat)
    requires Space(m, r, n) && (forall w: nat :: TRAPFRAME <= w ==> EntryOf(m.page, r, w) == 0)
    requires Frame(m, m1, r, 0, n) && forall w :: 0 <= w < n ==> EntryOf(m1.page, r, w) == 0
    ensures IsRoot(m1.role, r) && Blank(m1, r)
  {
    hide EntryOf, V;
    assert RoleFrame(m.role[r], m1.role[r], r, 0, n);
  }
}
