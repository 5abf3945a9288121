/**
 What an operation on one address space may change: `Frame` is kept by every step of
 the operations in kernel/vm.c and composes.
 */
module Frames {
  import opened PageTable

  datatype Mem = Mem(page: Pages, role: seq<Role>)

  /** The virtual page of a user page. */
  function VpnOf(what: Role): nat
    requires what.Data?
  {
    Vpn(what.i, what.j, what.k)
  }

  /** User memory of space r between lo and hi. */
  ghost predicate Inside(what: Role, r: nat, lo: nat, hi: nat) {
    what.Data? && what.r == r && lo <= VpnOf(what) < hi
  }

  /** A free page may become a table of r or user memory of r in the range; user memory in
      the range may become free; everything else stays what it is. */
  ghost predicate RoleFrame(a: Role, b: Role, r: nat, lo: nat, hi: nat) {
    || a == b
    || ((a.Free? || Inside(a, r, lo, hi)) && (b.Free? || Inside(b, r, lo, hi) || ((b.Mid? || b.Low?) && b.r == r)))
  }

  /** Pages whose contents matter to somebody else. */
  ghost predicate Precious(what: Role, r: nat, lo: nat, hi: nat) {
    what.Held? || (what.Data? && !Inside(what, r, lo, hi))
  }

  ghost predicate RolesFrame(m: Mem, m': Mem, r: nat, lo: nat, hi: nat) {
    && |m.page| == |m.role| == |m'.page| == |m'.role|
    && (forall p :: 0 <= p < |m.role| ==> RoleFrame(m.role[p], m'.role[p], r, lo, hi))
    && (forall p :: 0 <= p < |m.role| && Precious(m.role[p], r, lo, hi) ==> m'.page[p] == m.page[p])
  }

  /** Outside the range every address space maps what it mapped. */
  ghost predicate ViewsFrame(m: Mem, m': Mem, r: nat, lo: nat, hi: nat) {
    forall x: nat, w: nat :: IsRoot(m.role, x) && !(x == r && lo <= w < hi) ==> EntryOf(m'.page, x, w) == EntryOf(m.page, x, w)
  }

  ghost predicate Frame(m: Mem, m': Mem, r: nat, lo: nat, hi: nat) {
    RolesFrame(m, m', r, lo, hi) && ViewsFrame(m, m', r, lo, hi)
  }

  lemma FrameSelf(m: Mem, r: nat, lo: nat, hi: nat)
    requires |m.page| == |m.role|
    ensures Frame(m, m, r, lo, hi)
  {
  }

  /** Frames compose, over a range that covers both. */
  lemma FrameTrans(m: Mem, m1: Mem, m2: Mem, r: nat, lo: nat, mid: nat, hi: nat)
    requires Frame(m, m1, r, lo, mid) && Frame(m1, m2, r, mid, hi) && lo <= mid <= hi
    ensures Frame(m, m2, r, lo, hi)
  {
    hide EntryOf, Vpn;
    forall x: nat, w: nat | IsRoot(m.role, x) && !(x == r && lo <= w < hi)
      ensures EntryOf(m2.page, x, w) == EntryOf(m.page, x, w)
    {
      assert RoleFrame(m.role[x], m1.role[x], r, lo, mid);
    }
    forall p | 0 <= p < |m.role| ensures RoleFrame(m.role[p], m2.role[p], r, lo, hi) {
      assert RoleFrame(m.role[p], m1.role[p], r, lo, mid) && RoleFrame(m1.role[p], m2.role[p], r, mid, hi);
    }
    forall p | 0 <= p < |m.role| && Precious(m.role[p], r, lo, hi) ensures m2.page[p] == m.page[p] {
      assert RoleFrame(m.role[p], m1.role[p], r, lo, mid);
      assert Precious(m1.role[p], r, mid, hi);
    }
  }

  lemma FrameSame(m: Mem, m1: Mem, m2: Mem, r: nat, lo: nat, hi: nat)
    requires Frame(m, m1, r, lo, hi) && Frame(m1, m2, r, lo, hi)
    ensures Frame(m, m2, r, lo, hi)
  {
    hide EntryOf, Vpn;
    forall x: nat, w: nat | IsRoot(m.role, x) && !(x == r && lo <= w < hi)
      ensures EntryOf(m2.page, x, w) == EntryOf(m.page, x, w)
    {
      assert RoleFrame(m.role[x], m1.role[x], r, lo, hi);
    }
    forall p | 0 <= p < |m.role| ensures RoleFrame(m.role[p], m2.role[p], r, lo, hi) {
      assert RoleFrame(m.role[p], m1.role[p], r, lo, hi) && RoleFrame(m1.role[p], m2.role[p], r, lo, hi);
    }
    forall p | 0 <= p < |m.role| && Precious(m.role[p], r, lo, hi) ensures m2.page[p] == m.page[p] {
      assert RoleFrame(m.role[p], m1.role[p], r, lo, hi);
    }
  }

  lemma FrameWiden(m: Mem, m': Mem, r: nat, lo: nat, hi: nat, lo': nat, hi': nat)
    requires Frame(m, m', r, lo, hi) && (lo == hi || lo' <= lo <= hi <= hi')
    ensures Frame(m, m', r, lo', hi')
  {
    hide EntryOf, Vpn;
    forall p | 0 <= p < |m.role| ensures RoleFrame(m.role[p], m'.role[p], r, lo', hi') {
      assert RoleFrame(m.role[p], m'.role[p], r, lo, hi);
    }
  }

  /** A range with nothing mapped before and after was not changed at all: all its pages are
      back on the free list, and only tables have been added. */
  lemma Restored(m: Mem, m': Mem, r: nat, lo: nat, hi: nat)
    requires TablesOk(m.page, m.role) && TablesOk(m'.page, m'.role) && IsRoot(m.role, r) && Frame(m, m', r, lo, hi)
    requires hi <= TRAPFRAME
    requires forall w :: lo <= w < hi ==> EntryOf(m.page, r, w) == 0 && EntryOf(m'.page, r, w) == 0
    ensures Frame(m, m', r, 0, 0)
  {
    hide V, Ppn, Pte, Vpn, EntryOf, TablesOk;
    forall p | 0 <= p < |m.role| ensures !Inside(m.role[p], r, lo, hi) && !Inside(m'.role[p], r, lo, hi) {
      if Inside(m.role[p], r, lo, hi) { DataEntry(m, p); }
      if Inside(m'.role[p], r, lo, hi) { DataEntry(m', p); }
    }
    forall p | 0 <= p < |m.role| ensures RoleFrame(m.role[p], m'.role[p], r, 0, 0) {
      assert RoleFrame(m.role[p], m'.role[p], r, lo, hi);
    }
  }

  /** A user page is mapped where its role says. */
  lemma DataEntry(m: Mem, p: nat)
    requires TablesOk(m.page, m.role) && p < |m.role| && m.role[p].Data?
    ensures VpnOf(m.role[p]) < TRAPFRAME && IsRoot(m.role, m.role[p].r)
    ensures V(EntryOf(m.page, m.role[p].r, VpnOf(m.role[p])))
    ensures Ppn(EntryOf(m.page, m.role[p].r, VpnOf(m.role[p]))) == p
    ensures EntryOf(m.page, m.role[p].r, VpnOf(m.role[p])) != 0
  {
    assert PageOk(m.page, m.role, p);
    var what := m.role[p];
    LeafRange(m.page, what.r, what.i, what.j, what.k);
    PxInverse(VpnOf(what), what.i, what.j, what.k);
  }

  lemma LeafRange(page: Pages, r: nat, i: nat, j: nat, k: nat)
    requires V(Leaf(page, r, i, j, k)) && forall p :: 0 <= p < |page| ==> |page[p]| == 512
    ensures j < 512 && k < 512
  {
  }
}
