/**
 freewalk (kernel/vm.c): the recursion over a page-table tree without leaves, described
 against the tree it started from.
 */
module TableTree {
  import opened PageTable
  import opened Frames
  import opened Vm

  /** Page x is p or a table below p. */
  ghost predicate Under(role: seq<Role>, x: nat, p: nat)
    requires x < |role| && p < |role|
  {
    || x == p
    || (role[p].Root? && (role[x].Mid? || role[x].Low?) && role[x].r == p)
    || (role[p].Mid? && role[x].Low? && role[x].r == role[p].r && role[x].i == role[p].i)
  }

  /** Through which entry of p a table below it is reached. */
  ghost function Via(role: seq<Role>, x: nat, p: nat): nat
    requires x < |role| && p < |role| && Under(role, x, p) && x != p
  {
    if role[p].Root? then role[x].i else role[x].j
  }

  ghost predicate NoLeaves(m: Mem, p: nat)
    requires p < |m.role|
  {
    forall x, k: nat :: 0 <= x < |m.role| && m.role[x].Low? && Under(m.role, x, p) ==> !V(Word(m.page, x, k))
  }

  function Height(what: Role): nat {
    if what.Root? then 2 else if what.Mid? then 1 else 0
  }

  /** The table behind a valid entry, and which tables lie below it. */
  lemma Below(m: Mem, p: nat, i: nat)
    requires TablesOk(m.page, m.role) && p < |m.role| && IsTable(m.role[p]) && NoLeaves(m, p) && V(Word(m.page, p, i))
    ensures !m.role[p].Low? && !IsLeaf(Word(m.page, p, i))
    ensures var c := Ppn(Word(m.page, p, i));
            && c < |m.role| && c != p && IsTable(m.role[c]) && Height(m.role[c]) < Height(m.role[p])
                 && Under(m.role, c, p)
            && NoLeaves(m, c)
            && forall x :: 0 <= x < |m.role| ==> (Under(m.role, x, c) <==> x != p && Under(m.role, x, p) && Via(m.role, x, p) == i)
  {
    hide V, Ppn, Pte, IsLeaf, User;
    assert PageOk(m.page, m.role, p);
    var c := Ppn(Word(m.page, p, i));
    PteFields(c, 0);
    assert PageOk(m.page, m.role, c);
    forall x | 0 <= x < |m.role|
      ensures Under(m.role, x, c) <==> x != p && Under(m.role, x, p) && Via(m.role, x, p) == i
    {
      assert PageOk(m.page, m.role, x);
      PteFields(x, 0);
    }
  }

  /** An invalid entry has no table below it. */
  lemma NoneVia(m: Mem, p: nat, i: nat, x: nat)
    requires TablesOk(m.page, m.role) && p < |m.role| && IsTable(m.role[p]) && x < |m.role| && Under(m.role, x, p)
    requires x != p
    ensures Via(m.role, x, p) < 512 && V(Word(m.page, p, Via(m.role, x, p)))
  {
    hide Ppn, Pte, IsLeaf, User;
    assert PageOk(m.page, m.role, x);
    PteFields(x, 0);
    PteFields(p, 0);
    assert PageOk(m.page, m.role, p);
    if m.role[p].Root? && m.role[x].Low? {
      assert V(Word(m.page, p, m.role[x].i));
    }
  }

  /** The tree below p is still as it was in m0. */
  ghost predicate Untouched(m0: Mem, m: Mem, p: nat) {
    && |m0.page| == |m0.role| == |m.role| == |m.page| && p < |m0.role|
    && forall x :: 0 <= x < |m0.role| && Under(m0.role, x, p) ==> m.role[x] == m0.role[x] && m.page[x] == m0.page[x]
  }

  /** All of the tree below p is free, and nothing else has changed since `m`. */
  ghost predicate Cut(m0: Mem, m: Mem, m': Mem, p: nat) {
    && |m0.role| == |m.role| == |m.page| == |m'.role| == |m'.page| && p < |m0.role|
    && forall x :: 0 <= x < |m0.role| ==>
         if Under(m0.role, x, p) then m'.role[x].Free? else m'.role[x] == m.role[x] && m'.page[x] == m.page[x]
  }

  /** The same while the loop over the entries of p is at i. */
  ghost predicate Pruned(m0: Mem, m: Mem, m': Mem, p: nat, i: nat) {
    && |m0.page| == |m0.role| == |m.role| == |m.page| == |m'.role| == |m'.page| && p < |m0.role|
    && m'.role[p] == m0.role[p] && (forall j: nat :: i <= j ==> Word(m'.page, p, j) == Word(m0.page, p, j))
    && forall x :: 0 <= x < |m0.role| && x != p ==>
         if !Under(m0.role, x, p) then m'.role[x] == m.role[x] && m'.page[x] == m.page[x]
         else if Via(m0.role, x, p) < i then m'.role[x].Free?
         else m'.role[x] == m0.role[x] && m'.page[x] == m0.page[x]
  }

  lemma PruneStart(m0: Mem, m: Mem, p: nat)
    requires Untouched(m0, m, p)
    ensures Pruned(m0, m, m, p, 0)
  {
    assert Under(m0.role, p, p);
  }

  lemma PruneSkip(m0: Mem, m: Mem, m': Mem, p: nat, i: nat)
    requires TablesOk(m0.page, m0.role) && Pruned(m0, m, m', p, i) && IsTable(m0.role[p]) && !V(Word(m'.page, p, i))
    ensures Pruned(m0, m, m', p, i + 1)
  {
    hide V, TablesOk;
    forall x | 0 <= x < |m0.role| && x != p && Under(m0.role, x, p) ensures Via(m0.role, x, p) != i {
      NoneVia(m0, p, i, x);
    }
  }

  /** The child's tree is untouched so far. */
  lemma PruneDown(m0: Mem, m: Mem, m': Mem, p: nat, i: nat)
    requires TablesOk(m0.page, m0.role) && Pruned(m0, m, m', p, i) && IsTable(m0.role[p]) && NoLeaves(m0, p)
    requires V(Word(m'.page, p, i))
    ensures !IsLeaf(Word(m'.page, p, i)) && Untouched(m0, m', Ppn(Word(m'.page, p, i)))
  {
    hide V, TablesOk, Ppn, IsLeaf, NoLeaves;
    Below(m0, p, i);
  }

  /** The child's tree cut and its entry cleared. */
  lemma PruneChild(m0: Mem, m: Mem, m1: Mem, m2: Mem, p: nat, i: nat)
    requires TablesOk(m0.page, m0.role) && Pruned(m0, m, m1, p, i) && IsTable(m0.role[p]) && NoLeaves(m0, p)
    requires V(Word(m1.page, p, i)) && Cut(m0, m1, m2, Ppn(Word(m1.page, p, i)))
    requires i < 512 && |m2.page[p]| == 512
    ensures m2.role[p] == m0.role[p] && Pruned(m0, m, Mem(Put(m2.page, p, i, 0), m2.role), p, i + 1)
  {
    hide V, TablesOk, Ppn, IsLeaf, NoLeaves;
    Below(m0, p, i);
  }

  lemma PruneEnd(m0: Mem, m: Mem, m1: Mem, m2: Mem, p: nat)
    requires TablesOk(m0.page, m0.role) && Pruned(m0, m, m1, p, 512) && IsTable(m0.role[p])
    requires |m2.role| == |m1.role| == |m2.page| && m2.role == m1.role[p := m2.role[p]] && m2.role[p].Free?
    requires forall x :: 0 <= x < |m2.page| && x != p ==> m2.page[x] == m1.page[x]
    ensures Cut(m0, m, m2, p)
  {
    hide V, TablesOk;
    forall x | 0 <= x < |m0.role| && Under(m0.role, x, p) ensures m2.role[x].Free? {
      if x != p { NoneVia(m0, p, 0, x); }
    }
  }

  /** freewalk: every table from p down is freed; the panic on a leaf is out of reach. */
  method Freewalk(k: Kernel, p: nat, ghost m0: Mem)
    requires k.Chain() && TablesOk(m0.page, m0.role) && Untouched(m0, k.Now(), p) && IsTable(m0.role[p])
    requires NoLeaves(m0, p)
    modifies k
    ensures k.Chain() && Cut(m0, old(k.Now()), k.Now(), p)
    decreases Height(m0.role[p])
  {
    hide ChainOk, TablesOk, V, Ppn, IsLeaf, NoLeaves, Pruned, Cut, Untouched;
    ghost var m := k.Now();
    Start(m0, m, p);
    PruneStart(m0, m, p);
    var i := 0;
    while i < 512
      invariant 0 <= i <= 512 && k.Chain() && Pruned(m0, m, k.Now(), p, i)
    {
      ghost var m1 := k.Now();
      var pte := Word(k.ram.page, p, i);
      if V(pte) {
        PruneDown(m0, m, m1, p, i);
        if IsLeaf(pte) {
          assert false; // panic("freewalk: leaf")
        }
        Child(m0, m, m1, p, i);
        Freewalk(k, Ppn(pte), m0);
        ClearEntry(k, p, i, m0, m, m1);
      } else {
        PruneSkip(m0, m, m1, p, i);
      }
      i := i + 1;
    }
    ghost var m1 := k.Now();
    Finish(m0, m, m1, p);
    NotNull(k.ram.page, k.role, k.first, k.freelist, k.free, p);
    k.Kfree(p);
    ChainFacts(k.ram.page, k.role, k.first, k.freelist, k.free);
    PruneEnd(m0, m, m1, k.Now(), p);
  }

  lemma Start(m0: Mem, m: Mem, p: nat)
    requires Untouched(m0, m, p)
    ensures p < |m0.role| == |m.role| && m.role[p] == m0.role[p]
  {
    assert Under(m0.role, p, p);
  }

  lemma Finish(m0: Mem, m: Mem, m': Mem, p: nat)
    requires Pruned(m0, m, m', p, 512)
    ensures p < |m0.role| == |m'.role| && m'.role[p] == m0.role[p]
  {
  }

  lemma Child(m0: Mem, m: Mem, m1: Mem, p: nat, i: nat)
    requires TablesOk(m0.page, m0.role) && Pruned(m0, m, m1, p, i) && IsTable(m0.role[p]) && NoLeaves(m0, p)
    requires V(Word(m1.page, p, i))
    ensures Ppn(Word(m1.page, p, i)) < |m0.role| && IsTable(m0.role[Ppn(Word(m1.page, p, i))])
    ensures NoLeaves(m0, Ppn(Word(m1.page, p, i)))
    ensures Height(m0.role[Ppn(Word(m1.page, p, i))]) < Height(m0.role[p])
  {
    hide V, TablesOk, Ppn, IsLeaf, NoLeaves;
    Below(m0, p, i);
  }

  /** pagetable[i] = 0 after the child is gone. */
  method ClearEntry(k: Kernel, p: nat, i: nat, ghost m0: Mem, ghost m: Mem, ghost m1: Mem)
    requires k.Chain() && TablesOk(m0.page, m0.role) && Pruned(m0, m, m1, p, i) && IsTable(m0.role[p])
    requires NoLeaves(m0, p) && i < 512
    requires V(Word(m1.page, p, i)) && Cut(m0, m1, k.Now(), Ppn(Word(m1.page, p, i)))
    modifies k`ram
    ensures k.Chain() && Pruned(m0, m, k.Now(), p, i + 1)
  {
    hide ChainOk, TablesOk, V, Ppn, IsLeaf, NoLeaves, Pruned, Cut;
    ChainFacts(k.ram.page, k.role, k.first, k.freelist, k.free);
    Sizes(m0, m, m1, k.Now(), p, i);
    PruneChild(m0, m, m1, k.Now(), p, i);
    var page := Put(k.ram.page, p, i, 0);
    ChainFrame(k.ram.page, k.role, page, k.role, k.first, k.freelist, k.free);
    k.ram := Ram(page);
  }

  lemma Sizes(m0: Mem, m: Mem, m1: Mem, m2: Mem, p: nat, i: nat)
    requires Pruned(m0, m, m1, p, i) && Cut(m0, m1, m2, Ppn(Word(m1.page, p, i)))
    ensures p < |m0.role| == |m2.role| == |m2.page|
  {
  }
}
