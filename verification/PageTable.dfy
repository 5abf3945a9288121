/**
 Sv39 page tables (kernel/vm.c, kernel/riscv.h) as values. Memory is a sequence of
 512-word pages indexed by physical page number; virtual pages are numbered too.
 `role` says what every page is used for.
 */
module PageTable {
  // ----------------------------------------------------------------------- page table entries

  const MAXVPN: nat := 0x400_0000
  const TRAMPOLINE: nat := MAXVPN - 1
  const TRAPFRAME: nat := MAXVPN - 2

  const PTE_V: nat := 1
  const PTE_R: nat := 2
  const PTE_W: nat := 4
  const PTE_X: nat := 8
  const PTE_U: nat := 16

  predicate V(e: nat) {
    e % 2 == 1
  }

  /** PTE2PA, as a page number. */
  function Ppn(e: nat): nat {
    e / 1024
  }

  function Flags(e: nat): nat {
    e % 1024
  }

  /** Some of R, W, X is set. */
  predicate IsLeaf(e: nat) {
    V(e) && e / 2 % 8 != 0
  }

  /** PA2PTE(pa) | perm | PTE_V */
  function Pte(p: nat, perm: nat): nat {
    p * 1024 + (if V(perm) then perm else perm + 1)
  }

  lemma PteFields(p: nat, perm: nat)
    requires perm < 1024
    ensures V(Pte(p, perm)) && Ppn(Pte(p, perm)) == p && Flags(Pte(p, perm)) == if V(perm) then perm else perm + 1
    ensures IsLeaf(Pte(p, perm)) <==> perm / 2 % 8 != 0
  {
    var low := if V(perm) then perm else perm + 1;
    var e := p * 1024 + low;
    assert low < 1024 && low % 2 == 1 && low / 2 == perm / 2;
    assert e == 2 * (p * 512 + low / 2) + 1;
    assert e / 2 == p * 512 + low / 2 && e % 2 == 1;
    assert e / 2 % 8 == (8 * (p * 64) + low / 2) % 8 == low / 2 % 8;
    assert e / 1024 == p && e % 1024 == low;
  }

  // PX(level, va) for the three levels.
  function Px2(v: nat): nat { v / 0x4_0000 }
  function Px1(v: nat): nat { v / 512 % 512 }
  function Px0(v: nat): nat { v % 512 }

  /** The page with these indices. */
  function Vpn(i: nat, j: nat, k: nat): nat { i * 0x4_0000 + j * 512 + k }

  /** Below MAXVA the three indices are in range and determine the page. */
  lemma PxInverse(v: nat, i: nat, j: nat, k: nat)
    requires j < 512 && k < 512
    ensures Px1(v) < 512 && Px0(v) < 512 && (v < MAXVPN ==> Px2(v) < 256)
    ensures Px2(v) == i && Px1(v) == j && Px0(v) == k <==> v == Vpn(i, j, k)
  {
    assert v / 512 / 512 == v / 0x4_0000;
    assert Vpn(i, j, k) / 512 == i * 512 + j;
  }

  lemma PxRange(v: nat)
    requires v < MAXVPN
    ensures Px2(v) < 256 && Px1(v) < 512 && Px0(v) < 512
  {
  }

  // ----------------------------------------------------------------------------- the tree

  type Pages = seq<seq<nat>>

  function Word(page: Pages, p: nat, i: nat): nat {
    if p < |page| && i < |page[p]| then page[p][i] else 0
  }

  /** The entry with these indices, 0 where the tree has no table for it. */
  function Leaf(page: Pages, r: nat, i: nat, j: nat, k: nat): nat {
    var e2 := Word(page, r, i);
    if !V(e2) then 0
    else
      var e1 := Word(page, Ppn(e2), j);
      if !V(e1) then 0 else Word(page, Ppn(e1), k)
  }

  /** The entry of virtual page v, as walk finds it. */
  function EntryOf(page: Pages, r: nat, v: nat): nat {
    Leaf(page, r, Px2(v), Px1(v), Px0(v))
  }

  /** What a page is: on the free list (at a position), part of the tree below root r,
      user memory of r, or held by the kernel for something else. */
  datatype Role =
    | Free(pos: nat)
    | Root
    | Mid(r: nat, i: nat)
    | Low(r: nat, i: nat, j: nat)
    | Data(r: nat, i: nat, j: nat, k: nat)
    | Held

  /** Entry e refers to a table page with this role. */
  ghost predicate Child(role: seq<Role>, e: nat, what: Role) {
    e == Pte(Ppn(e), 0) && Ppn(e) < |role| && role[Ppn(e)] == what
  }

  ghost predicate IsRoot(role: seq<Role>, r: nat) {
    r < |role| && role[r] == Root
  }

  /** Addresses below TRAPFRAME are user memory. */
  predicate User(i: nat, j: nat, k: nat) {
    Vpn(i, j, k) < TRAPFRAME
  }

  /** A leaf of user memory refers to a page of its own; trampoline and trapframe do not belong to the tree. */
  ghost predicate LeafOk(role: seq<Role>, e: nat, r: nat, i: nat, j: nat, k: nat) {
    IsLeaf(e) && (User(i, j, k) ==> Ppn(e) < |role| && role[Ppn(e)] == Data(r, i, j, k))
  }

  ghost predicate RootOk(page: Pages, role: seq<Role>, p: nat) {
    forall i: nat :: V(Word(page, p, i)) ==> Child(role, Word(page, p, i), Mid(p, i))
  }

  ghost predicate MidOk(page: Pages, role: seq<Role>, p: nat, r: nat, i: nat) {
    && IsRoot(role, r) && Word(page, r, i) == Pte(p, 0)
    && forall j: nat :: V(Word(page, p, j)) ==> Child(role, Word(page, p, j), Low(r, i, j))
  }

  ghost predicate LowOk(page: Pages, role: seq<Role>, p: nat, r: nat, i: nat, j: nat) {
    && IsRoot(role, r) && V(Word(page, r, i))
    && Child(role, Word(page, r, i), Mid(r, i)) && Word(page, Ppn(Word(page, r, i)), j) == Pte(p, 0)
    && forall k: nat :: V(Word(page, p, k)) ==> LeafOk(role, Word(page, p, k), r, i, j, k)
  }

  ghost predicate DataOk(page: Pages, role: seq<Role>, p: nat, r: nat, i: nat, j: nat, k: nat) {
    User(i, j, k) && IsRoot(role, r) && V(Leaf(page, r, i, j, k)) && Ppn(Leaf(page, r, i, j, k)) == p
  }

  ghost predicate PageOk(page: Pages, role: seq<Role>, p: nat)
    requires p < |role|
  {
    match role[p]
    case Root => RootOk(page, role, p)
    case Mid(r, i) => MidOk(page, role, p, r, i)
    case Low(r, i, j) => LowOk(page, role, p, r, i, j)
    case Data(r, i, j, k) => DataOk(page, role, p, r, i, j, k)
    case _ => true
  }

  ghost predicate Sized(page: Pages, role: seq<Role>) {
    |page| == |role| && forall p :: 0 <= p < |page| ==> |page[p]| == 512
  }

  /** Every page-table page and every user page is referred to by exactly the place its role names. */
  ghost predicate TablesOk(page: Pages, role: seq<Role>) {
    && Sized(page, role)
    && forall p :: 0 <= p < |role| ==> PageOk(page, role, p)
  }

  // -------------------------------------------------------------------------- updates

  function Put(page: Pages, p: nat, i: nat, e: nat): Pages
    requires p < |page| && i < |page[p]|
  {
    var c: seq<nat> := page[p][i := e];
    page[p := c]
  }

  function ZeroPage(): (z: seq<nat>)
    ensures |z| == 512 && forall i :: 0 <= i < 512 ==> z[i] == 0
  {
    seq(512, _ => 0)
  }

  /** The tables on the way to a leaf. */
  lemma LeafPath(page: Pages, role: seq<Role>, r: nat, i: nat, j: nat)
    requires TablesOk(page, role) && IsRoot(role, r)
    ensures V(Word(page, r, i)) ==> Child(role, Word(page, r, i), Mid(r, i))
    ensures V(Word(page, r, i)) && V(Word(page, Ppn(Word(page, r, i)), j))
            ==> Child(role, Word(page, Ppn(Word(page, r, i)), j), Low(r, i, j))
  {
    hide V, Ppn, Pte, IsLeaf;
    assert PageOk(page, role, r);
    if V(Word(page, r, i)) {
      assert PageOk(page, role, Ppn(Word(page, r, i)));
    }
  }

  /** There is one Low page for (i, j), and the leaves with these indices are in it. */
  lemma LowUnique(page: Pages, role: seq<Role>, q: nat, r: nat, i: nat, j: nat)
    requires TablesOk(page, role) && q < |role| && role[q] == Low(r, i, j)
    ensures IsRoot(role, r) && forall k: nat :: Leaf(page, r, i, j, k) == Word(page, q, k)
    ensures forall x :: 0 <= x < |role| && role[x] == Low(r, i, j) ==> x == q
  {
    hide V, Ppn, Pte, IsLeaf;
    PteFields(q, 0);
    assert PageOk(page, role, q);
    forall x | 0 <= x < |role| && role[x] == Low(r, i, j) ensures x == q {
      PteFields(x, 0);
      assert PageOk(page, role, x);
    }
  }

  predicate IsTable(role: Role) {
    role.Root? || role.Mid? || role.Low?
  }

  /** Two consistent states with the same table words and, apart from one page that is
      not a table, the same roles: what has to be looked at is that page and the leaves. */
  ghost predicate SameTables(page: Pages, role: seq<Role>, page': Pages, role': seq<Role>) {
    && |page| == |role| == |role'| && Sized(page', role')
    && (forall x :: 0 <= x < |role| && (role[x].Root? || role[x].Mid?) ==> page'[x] == page[x] && role'[x] == role[x])
    && (forall x :: 0 <= x < |role| && role[x].Low? ==> role'[x] == role[x])
    && (forall x :: 0 <= x < |role| && IsTable(role'[x]) ==> IsTable(role[x]))
  }

  /** Tables above the lowest level stay consistent, and so do the links to the lowest level. */
  lemma UpperKept(page: Pages, role: seq<Role>, page': Pages, role': seq<Role>, x: nat)
    requires TablesOk(page, role) && SameTables(page, role, page', role') && x < |role|
    ensures role[x].Root? || role[x].Mid? ==> PageOk(page', role', x)
    ensures role[x].Low? ==> IsRoot(role', role[x].r) && V(Word(page', role[x].r, role[x].i))
                             && Child(role', Word(page', role[x].r, role[x].i), Mid(role[x].r, role[x].i))
                             && Word(page', Ppn(Word(page', role[x].r, role[x].i)), role[x].j) == Pte(x, 0)
  {
    hide V, Ppn, Pte, IsLeaf;
    assert PageOk(page, role, x);
    match role[x] {
      case Root => assert RootOk(page', role', x);
      case Mid(r, i) => assert MidOk(page', role', x, r, i);
      case _ =>
    }
  }

  /** A leaf is found along the same tables. */
  lemma LeafKept(page: Pages, role: seq<Role>, page': Pages, role': seq<Role>, r: nat, i: nat, j: nat, k: nat)
    requires TablesOk(page, role) && SameTables(page, role, page', role') && IsRoot(role, r)
    requires forall q :: 0 <= q < |role| && role[q] == Low(r, i, j) ==> Word(page', q, k) == Word(page, q, k)
    ensures Leaf(page', r, i, j, k) == Leaf(page, r, i, j, k)
  {
    hide V, Ppn, Pte, IsLeaf;
    LeafPath(page, role, r, i, j);
  }

  /** Every leaf of Low page x is right. */
  ghost predicate LeavesOk(page: Pages, role: seq<Role>, x: nat, r: nat, i: nat, j: nat) {
    forall k: nat :: V(Word(page, x, k)) ==> LeafOk(role, Word(page, x, k), r, i, j, k)
  }

  /** With the tables unchanged, it remains to look at leaves and user pages. */
  lemma TablesKept(page: Pages, role: seq<Role>, page': Pages, role': seq<Role>)
    requires TablesOk(page, role) && SameTables(page, role, page', role')
    requires forall x :: 0 <= x < |role| && role[x].Low? ==> LeavesOk(page', role', x, role[x].r, role[x].i, role[x].j)
    requires forall x :: 0 <= x < |role| && role'[x].Data? ==> PageOk(page', role', x)
    ensures TablesOk(page', role')
  {
    hide V, Ppn, Pte, IsLeaf, Child, LeafOk, DataOk;
    forall x | 0 <= x < |role| ensures PageOk(page', role', x) {
      UpperKept(page, role, page', role', x);
      if role[x].Low? {
        assert LeavesOk(page', role', x, role[x].r, role[x].i, role[x].j);
      }
    }
  }

  /** Pages that are not part of any tree. */
  ghost predicate Loose(role: Role) {
    role.Free? || role.Held?
  }

  /** No tree looks at a page outside all trees. */
  lemma LooseKeeps(page: Pages, role: seq<Role>, p: nat, c: seq<nat>, what: Role)
    requires TablesOk(page, role) && p < |role| && Loose(role[p]) && Loose(what) && |c| == 512
    ensures TablesOk(page[p := c], role[p := what])
    ensures forall r, i, j, k :: IsRoot(role, r) ==> Leaf(page[p := c], r, i, j, k) == Leaf(page, r, i, j, k)
  {
    hide V, Ppn, Pte, IsLeaf, User, Child;
    var page', role' := page[p := c], role[p := what];
    assert SameTables(page, role, page', role');
    forall r, i, j, k | IsRoot(role, r) ensures Leaf(page', r, i, j, k) == Leaf(page, r, i, j, k) {
      LeafKept(page, role, page', role', r, i, j, k);
    }
    forall x | 0 <= x < |role| && role[x].Low? ensures LeavesOk(page', role', x, role[x].r, role[x].i, role[x].j) {
      assert PageOk(page, role, x);
      forall k: nat | V(Word(page', x, k))
        ensures LeafOk(role', Word(page', x, k), role[x].r, role[x].i, role[x].j, k)
      {
        assert LeafOk(role, Word(page, x, k), role[x].r, role[x].i, role[x].j, k);
      }
    }
    forall x | 0 <= x < |role| && role'[x].Data? ensures PageOk(page', role', x) {
      assert PageOk(page, role, x);
    }
    TablesKept(page, role, page', role');
  }

  /** Writing one word of a Low page changes the leaf with its indices and no other. */
  lemma LeafEffect(page: Pages, role: seq<Role>, q: nat, k: nat, e: nat, role': seq<Role>)
    requires TablesOk(page, role) && q < |role| && role[q].Low? && k < 512
    requires SameTables(page, role, Put(page, q, k, e), role')
    ensures forall r, i, j, k' :: IsRoot(role, r) ==>
              (Leaf(Put(page, q, k, e), r, i, j, k') == if role[q] == Low(r, i, j) && k' == k then e
                  else Leaf(page, r, i, j, k'))
  {
    hide V, Ppn, Pte, IsLeaf, LeafOk;
    var page' := Put(page, q, k, e);
    forall r, i, j, k' | IsRoot(role, r)
      ensures Leaf(page', r, i, j, k') == if role[q] == Low(r, i, j) && k' == k then e else Leaf(page, r, i, j, k')
    {
      if role[q] == Low(r, i, j) {
        LowUnique(page, role, q, r, i, j);
        PteFields(q, 0);
        assert PageOk(page, role, q);
        assert Word(page', r, i) == Word(page, r, i);
        var m := Ppn(Word(page, r, i));
        assert role[m] == Mid(r, i) by { LeafPath(page, role, r, i, j); }
        assert Word(page', m, j) == Word(page, m, j) == Pte(q, 0);
      } else {
        LeafKept(page, role, page', role', r, i, j, k');
      }
    }
  }

  /** The role of the page behind a user leaf changes with the leaf. */
  ghost function WithRole(role: seq<Role>, i: nat, j: nat, k: nat, t: nat, what: Role): (r: seq<Role>)
    ensures |r| == |role|
  {
    if User(i, j, k) && t < |role| then role[t := what] else role
  }

  /** Leaves other than (q, k) keep pointing to pages of their own. */
  lemma OtherLeaves(page: Pages, role: seq<Role>, q: nat, k: nat, e: nat, t: nat, what: Role, x: nat, k': nat)
    requires TablesOk(page, role) && q < |role| && role[q].Low? && k < 512 && x < |role| && role[x].Low?
    requires t < |role| && (role[t] == Held || role[t] == Data(role[q].r, role[q].i, role[q].j, k))
    requires (x != q || k' != k) && V(Word(page, x, k'))
    ensures Word(Put(page, q, k, e), x, k') == Word(page, x, k')
    ensures LeafOk(role[t := what], Word(page, x, k'), role[x].r, role[x].i, role[x].j, k')
  {
    hide V, Ppn, Pte, IsLeaf, User;
    assert PageOk(page, role, x);
    assert LeafOk(role, Word(page, x, k'), role[x].r, role[x].i, role[x].j, k');
    LowUnique(page, role, q, role[q].r, role[q].i, role[q].j);
  }

  /** mappages: an empty leaf filled. User memory comes from a page held for it. */
  lemma MapKeeps(page: Pages, role: seq<Role>, q: nat, k: nat, e: nat)
    requires TablesOk(page, role) && q < |role| && role[q].Low? && k < 512 && !V(Word(page, q, k)) && IsLeaf(e)
    requires User(role[q].i, role[q].j, k) ==> Ppn(e) < |role| && role[Ppn(e)] == Held
    ensures var role' := WithRole(role, role[q].i, role[q].j, k, Ppn(e), Data(role[q].r, role[q].i, role[q].j, k));
            TablesOk(Put(page, q, k, e), role') && SameTables(page, role, Put(page, q, k, e), role')
  {
    hide V, Ppn, Pte, Child, User, Leaf;
    var page', t := Put(page, q, k, e), Ppn(e);
    var role' := WithRole(role, role[q].i, role[q].j, k, t, Data(role[q].r, role[q].i, role[q].j, k));
    assert SameTables(page, role, page', role');
    LeafEffect(page, role, q, k, e, role');
    LowUnique(page, role, q, role[q].r, role[q].i, role[q].j);
    forall x | 0 <= x < |role| && role[x].Low? ensures LeavesOk(page', role', x, role[x].r, role[x].i, role[x].j) {
      assert PageOk(page, role, x);
      forall k': nat | V(Word(page', x, k'))
        ensures LeafOk(role', Word(page', x, k'), role[x].r, role[x].i, role[x].j, k')
      {
        if x != q || k' != k {
          assert Word(page', x, k') == Word(page, x, k');
          assert LeafOk(role, Word(page, x, k'), role[x].r, role[x].i, role[x].j, k');
          if User(role[q].i, role[q].j, k) {
            OtherLeaves(page, role, q, k, e, t, Data(role[q].r, role[q].i, role[q].j, k), x, k');
          }
        } else {
          assert Word(page', x, k') == e;
        }
      }
    }
    forall x | 0 <= x < |role| && role'[x].Data? ensures PageOk(page', role', x) {
      assert PageOk(page, role, x);
      LeafIsV(e);
    }
    TablesKept(page, role, page', role');
  }

  lemma LeafIsV(e: nat)
    requires IsLeaf(e)
    ensures V(e)
  {
  }

  /** uvmunmap: a leaf cleared; its user page is held by the caller afterwards. */
  lemma UnmapKeeps(page: Pages, role: seq<Role>, q: nat, k: nat)
    requires TablesOk(page, role) && q < |role| && role[q].Low? && k < 512 && V(Word(page, q, k))
    ensures User(role[q].i, role[q].j, k) ==> Ppn(Word(page, q, k)) < |role|
    ensures User(role[q].i, role[q].j, k) ==> role[Ppn(Word(page, q, k))] == Data(role[q].r, role[q].i, role[q].j, k)
    ensures var role' := WithRole(role, role[q].i, role[q].j, k, Ppn(Word(page, q, k)), Held);
            TablesOk(Put(page, q, k, 0), role') && SameTables(page, role, Put(page, q, k, 0), role')
  {
    hide Ppn, Pte, Child, User, Leaf;
    var page', t := Put(page, q, k, 0), Ppn(Word(page, q, k));
    var role' := WithRole(role, role[q].i, role[q].j, k, t, Held);
    assert PageOk(page, role, q);
    assert LeafOk(role, Word(page, q, k), role[q].r, role[q].i, role[q].j, k);
    assert SameTables(page, role, page', role');
    LeafEffect(page, role, q, k, 0, role');
    LowUnique(page, role, q, role[q].r, role[q].i, role[q].j);
    forall x | 0 <= x < |role| && role[x].Low? ensures LeavesOk(page', role', x, role[x].r, role[x].i, role[x].j) {
      assert PageOk(page, role, x);
      forall k': nat | V(Word(page', x, k'))
        ensures LeafOk(role', Word(page', x, k'), role[x].r, role[x].i, role[x].j, k')
      {
        assert x != q || k' != k;
        assert Word(page', x, k') == Word(page, x, k');
        if User(role[q].i, role[q].j, k) {
          OtherLeaves(page, role, q, k, 0, t, Held, x, k');
        }
      }
    }
    forall x | 0 <= x < |role| && role'[x].Data? ensures PageOk(page', role', x) {
      assert PageOk(page, role, x);
    }
    TablesKept(page, role, page', role');
  }

  /** uvmclear: other flags for the same page. */
  lemma FlagsKeep(page: Pages, role: seq<Role>, q: nat, k: nat, e: nat)
    requires TablesOk(page, role) && q < |role| && role[q].Low? && k < 512 && V(Word(page, q, k))
    requires IsLeaf(e) && Ppn(e) == Ppn(Word(page, q, k))
    ensures TablesOk(Put(page, q, k, e), role) && SameTables(page, role, Put(page, q, k, e), role)
  {
    hide V, Ppn, Pte, Child, User, Leaf;
    var page' := Put(page, q, k, e);
    assert SameTables(page, role, page', role);
    LeafEffect(page, role, q, k, e, role);
    LowUnique(page, role, q, role[q].r, role[q].i, role[q].j);
    LeafIsV(e);
    forall x | 0 <= x < |role| && role[x].Low? ensures LeavesOk(page', role, x, role[x].r, role[x].i, role[x].j) {
      assert PageOk(page, role, x);
      forall k': nat | V(Word(page', x, k'))
        ensures LeafOk(role, Word(page', x, k'), role[x].r, role[x].i, role[x].j, k')
      {
        assert LeafOk(role, Word(page, x, k'), role[x].r, role[x].i, role[x].j, k');
      }
    }
    forall x | 0 <= x < |role| && role[x].Data? ensures PageOk(page', role, x) {
      assert PageOk(page, role, x);
    }
    TablesKept(page, role, page', role);
  }

  // ----------------------------------------------------------------- new table pages

  /** A zeroed page becomes the table for index i of root r. */
  lemma LinkMid(page: Pages, role: seq<Role>, r: nat, i: nat, p: nat)
    requires TablesOk(page, role) && IsRoot(role, r) && i < 512 && !V(Word(page, r, i)) && p < |role| && role[p] == Held
    ensures var page' := Put(page[p := ZeroPage()], r, i, Pte(p, 0)); var role' := role[p := Mid(r, i)];
            && TablesOk(page', role')
            && forall r1, i1, j1, k1 :: IsRoot(role, r1) ==> Leaf(page', r1, i1, j1, k1) == Leaf(page, r1, i1, j1, k1)
  {
    hide Ppn, Pte, User, IsLeaf;
    PteFields(p, 0);
    var page', role' := Put(page[p := ZeroPage()], r, i, Pte(p, 0)), role[p := Mid(r, i)];
    forall r1, i1, j1, k1 | IsRoot(role, r1) ensures Leaf(page', r1, i1, j1, k1) == Leaf(page, r1, i1, j1, k1) {
      LeafPath(page, role, r1, i1, j1);
    }
    forall x | 0 <= x < |role| ensures PageOk(page', role', x) {
      assert PageOk(page, role, x);
      PteFields(x, 0);
      match role'[x] {
        case Root => assert RootOk(page', role', x);
        case Mid(r1, i1) => assert MidOk(page', role', x, r1, i1);
        case Low(r1, i1, j1) =>
          forall k: nat | V(Word(page', x, k)) ensures LeafOk(role', Word(page', x, k), r1, i1, j1, k) {
            assert LeafOk(role, Word(page, x, k), r1, i1, j1, k);
          }
          assert LowOk(page', role', x, r1, i1, j1);
        case _ =>
      }
    }
  }

  /** A zeroed page becomes the table for index j of mid-level table m. */
  lemma LinkLow(page: Pages, role: seq<Role>, m: nat, j: nat, p: nat)
    requires TablesOk(page, role) && m < |role| && role[m].Mid? && j < 512 && !V(Word(page, m, j)) && p < |role|
    requires role[p] == Held
    ensures var page' := Put(page[p := ZeroPage()], m, j,
        Pte(p, 0)); var role' := role[p := Low(role[m].r, role[m].i, j)];
            && TablesOk(page', role')
            && forall r1, i1, j1, k1 :: IsRoot(role, r1) ==> Leaf(page', r1, i1, j1, k1) == Leaf(page, r1, i1, j1, k1)
  {
    hide Ppn, Pte, User, IsLeaf;
    PteFields(p, 0);
    PteFields(m, 0);
    assert PageOk(page, role, m);
    var page', role' := Put(page[p := ZeroPage()], m, j, Pte(p, 0)), role[p := Low(role[m].r, role[m].i, j)];
    forall r1, i1, j1, k1 | IsRoot(role, r1) ensures Leaf(page', r1, i1, j1, k1) == Leaf(page, r1, i1, j1, k1) {
      LeafPath(page, role, r1, i1, j1);
    }
    forall x | 0 <= x < |role| ensures PageOk(page', role', x) {
      assert PageOk(page, role, x);
      PteFields(x, 0);
      match role'[x] {
        case Root => assert RootOk(page', role', x);
        case Mid(r1, i1) => assert MidOk(page', role', x, r1, i1);
        case Low(r1, i1, j1) =>
          forall k: nat | V(Word(page', x, k)) ensures LeafOk(role', Word(page', x, k), r1, i1, j1, k) {
            assert LeafOk(role, Word(page, x, k), r1, i1, j1, k);
          }
          assert LowOk(page', role', x, r1, i1, j1);
        case _ =>
      }
    }
  }

  /** Nothing is mapped. */
  ghost predicate Empty(page: Pages, r: nat) {
    forall i, j, k :: Leaf(page, r, i, j, k) == 0
  }

  /** A zeroed page becomes the root of an empty address space. */
  lemma NewRoot(page: Pages, role: seq<Role>, p: nat)
    requires TablesOk(page, role) && p < |role| && role[p] == Held
    ensures TablesOk(page[p := ZeroPage()], role[p := Root])
    ensures Empty(page[p := ZeroPage()], p)
    ensures forall r, i, j, k :: IsRoot(role, r) ==> Leaf(page[p := ZeroPage()], r, i, j, k) == Leaf(page, r, i, j, k)
  {
    hide Ppn, Pte, User, IsLeaf;
    LooseKeeps(page, role, p, ZeroPage(), Held);
    assert role[p := Held] == role;
    var page', role' := page[p := ZeroPage()], role[p := Root];
    forall x | 0 <= x < |role| ensures PageOk(page', role', x) {
      assert PageOk(page', role, x);
      match role'[x] {
        case Root => assert RootOk(page', role', x);
        case Mid(r1, i1) => assert MidOk(page', role', x, r1, i1);
        case Low(r1, i1, j1) =>
          forall k: nat | V(Word(page', x, k)) ensures LeafOk(role', Word(page', x, k), r1, i1, j1, k) {
            assert LeafOk(role, Word(page', x, k), r1, i1, j1, k);
          }
          assert LowOk(page', role', x, r1, i1, j1);
        case _ =>
      }
    }
  }

  // ---------------------------------------------------------------- removing a whole tree

  /** Page x is a table of the tree below r. */
  ghost predicate InTree(role: seq<Role>, x: nat, r: nat)
    requires x < |role|
  {
    x == r || ((role[x].Mid? || role[x].Low?) && role[x].r == r)
  }

  /** freewalk: without user pages below r, dropping all its tables leaves the others consistent. */
  lemma TreeGone(page: Pages, role: seq<Role>, page': Pages, role': seq<Role>, r: nat)
    requires TablesOk(page, role) && IsRoot(role, r) && Sized(page', role') && |role'| == |role|
    requires forall x :: 0 <= x < |role| && role[x].Data? ==> role[x].r != r
    requires forall x :: 0 <= x < |role| && InTree(role, x, r) ==> Loose(role'[x])
    requires forall x :: 0 <= x < |role| && !InTree(role, x, r) ==> role'[x] == role[x] && page'[x] == page[x]
    ensures TablesOk(page', role')
    ensures forall r1, i, j, k :: IsRoot(role, r1) && r1 != r ==> Leaf(page', r1, i, j, k) == Leaf(page, r1, i, j, k)
  {
    hide V, Ppn, Pte, User, IsLeaf;
    forall r1, i, j, k | IsRoot(role, r1) && r1 != r ensures Leaf(page', r1, i, j, k) == Leaf(page, r1, i, j, k) {
      LeafPath(page, role, r1, i, j);
    }
    forall x | 0 <= x < |role| ensures PageOk(page', role', x) {
      assert PageOk(page, role, x);
      if !InTree(role, x, r) {
        match role[x] {
          case Root => assert RootOk(page', role', x);
          case Mid(r1, i1) => assert MidOk(page', role', x, r1, i1);
          case Low(r1, i1, j1) =>
            forall k: nat | V(Word(page', x, k)) ensures LeafOk(role', Word(page', x, k), r1, i1, j1, k) {
              assert LeafOk(role, Word(page, x, k), r1, i1, j1, k);
            }
            assert LowOk(page', role', x, r1, i1, j1);
          case _ =>
        }
      }
    }
  }
}
