/**
 Any sequence of mappages and uvmunmap calls on a page table behaves like updates of a
 finite map from virtual pages to entries (kernel/vm.c).
 */
module PageMap {
  import opened PageTable
  import opened Frames
  import opened Vm

  /** What a caller asks for: map a fresh page, or unmap. */
  datatype Op = Map(v: nat, perm: nat) | Unmap(v: nat)

  ghost predicate Legal(op: Op) {
    op.v < TRAPFRAME && (op.Map? ==> op.perm < 1024 && op.perm / 2 % 8 != 0)
  }

  /** The three-level tree of r and the map agree everywhere. */
  ghost predicate Agrees(m: Mem, r: nat, view: map<nat, nat>) {
    && IsRoot(m.role, r)
    && (forall v: nat :: EntryOf(m.page, r, v) == if v in view then view[v] else 0)
    && (forall v :: v in view ==> V(view[v]))
  }

  /** The map after an operation: unmapped, mapped to page p, or, if it failed, unchanged. An
      operation the code refuses by a panic leaves the map alone. */
  ghost function Update(view: map<nat, nat>, op: Op, ok: bool, p: nat): map<nat, nat> {
    match op
    case Map(v, perm) => if ok && v !in view then view[v := Pte(p, perm)] else view
    case Unmap(v) => view - {v}
  }

  /** An unmap succeeds exactly on a mapped page, a map only on another; a map that fails on such
      a page has found no free page but the one it gives back. */
  ghost predicate Explained(view: map<nat, nat>, op: Op, ok: bool, left: nat) {
    && (op.Unmap? ==> (ok <==> op.v in view))
    && (op.Map? ==> (ok ==> op.v !in view) && (!ok ==> op.v in view || left <= 1))
  }

  lemma AgreesKept(m: Mem, m': Mem, r: nat, view: map<nat, nat>)
    requires Agrees(m, r, view) && Frame(m, m', r, 0, 0)
    ensures Agrees(m', r, view)
  {
    hide EntryOf, V;
    assert RoleFrame(m.role[r], m'.role[r], r, 0, 0);
  }

  lemma AgreesAt(m: Mem, m': Mem, r: nat, view: map<nat, nat>, v: nat)
    requires Agrees(m, r, view) && Frame(m, m', r, v, v + 1)
    ensures EntryOf(m'.page, r, v) == 0 ==> Agrees(m', r, view - {v})
    ensures V(EntryOf(m'.page, r, v)) ==> Agrees(m', r, view[v := EntryOf(m'.page, r, v)])
  {
    hide EntryOf, V;
    assert RoleFrame(m.role[r], m'.role[r], r, v, v + 1);
  }

  /** One operation. */
  method Apply(k: Kernel, r: nat, op: Op, ghost view: map<nat, nat>) returns (ok: bool, p: nat)
    requires k.Valid() && Agrees(k.Now(), r, view) && Legal(op)
    modifies k
    ensures k.Valid() && Agrees(k.Now(), r, Update(view, op, ok, p))
    ensures Explained(view, op, ok, |k.free|) && (op.Map? && ok ==> p in old(k.free))
  {
    hide ChainOk, TablesOk, Frame, EntryOf, V, Pte;
    ghost var m0 := k.Now();
    ChainFacts(k.ram.page, k.role, k.first, k.freelist, k.free);
    ZeroNotV();
    p := 0;
    var q := k.Walk(r, op.v, false);
    var mapped := q != 0 && V(Word(k.ram.page, q, Px0(op.v)));
    match op {
      case Unmap(v) =>
        ok := mapped;
        if mapped {
          k.UnmapPage(r, v, true);
          AgreesAt(m0, k.Now(), r, view, v);
        } else {
          assert view - {v} == view;
        }
      case Map(v, perm) =>
        ok := false;
        if !mapped {
          p := k.AllocFilled(ZeroPage(), r);
          if p != 0 {
            ok := MapHeld(k, r, v, p, perm, m0, view);
          }
        }
    }
  }

  /** mappages of the page just allocated, freed again on failure. */
  method MapHeld(k: Kernel, r: nat, v: nat, p: nat, perm: nat, ghost m0: Mem, ghost view: map<nat,
      nat>) returns (ok: bool)
    requires k.Valid() && Agrees(m0, r, view) && v !in view && v < TRAPFRAME && perm < 1024 && perm / 2 % 8 != 0
    requires k.first <= p < |k.role| == |m0.role| && k.role == m0.role[p := Held] && m0.role[p].Free?
    requires Frame(m0, Forget(k.Now(), p), r, 0, 0)
    modifies k
    ensures k.Valid() && Agrees(k.Now(), r, if ok then view[v := Pte(p, perm)] else view) && (!ok ==> |k.free| == 1)
  {
    hide ChainOk, TablesOk, Frame, EntryOf, V, Pte;
    ghost var m1 := k.Now();
    ZeroNotV();
    AgreesKept(m0, Forget(m1, p), r, view);
    ok := k.MapPage(r, v, p, perm);
    ghost var m2 := k.Now();
    if ok {
      PteFields(p, perm);
      AgreesAt(Forget(m1, p), m2, r, view, v);
    } else {
      FrameHeld(m1, m2, r, p);
      FrameForget(m1, m2, p, r);
      k.FreeHeld(p, r);
      AgreesKept(Forget(m1, p), Forget(m2, p), r, view);
      AgreesKept(Forget(m2, p), k.Now(), r, view);
    }
  }

  /** The map after a sequence of operations with these outcomes. */
  ghost function After(view: map<nat, nat>, ops: seq<Op>, oks: seq<bool>, ps: seq<nat>): map<nat, nat>
    requires |ops| == |oks| == |ps|
  {
    if ops == [] then view
    else
      var n := |ops| - 1;
      Update(After(view, ops[..n], oks[..n], ps[..n]), ops[n], oks[n], ps[n])
  }

  ghost predicate ExplainedAt(view: map<nat, nat>, ops: seq<Op>, oks: seq<bool>, ps: seq<nat>, left: seq<nat>, i: nat) {
    && i < |left| && i < |ops| && i < |oks| && i < |ps|
    && Explained(After(view, ops[..i], oks[..i], ps[..i]), ops[i], oks[i], left[i])
  }

  lemma ExplainedKept(view: map<nat, nat>, ops: seq<Op>, oks: seq<bool>, ps: seq<nat>, left: seq<nat>, ok: bool,
      p: nat, l: nat, i: nat)
    requires |oks| == |ps| == |left| < |ops| && i <= |oks|
    requires i < |oks| ==> ExplainedAt(view, ops, oks, ps, left, i)
    requires Explained(After(view, ops[..|oks|], oks, ps), ops[|oks|], ok, l)
    ensures ExplainedAt(view, ops, oks + [ok], ps + [p], left + [l], i)
  {
    assert (oks + [ok])[..i] == oks[..i] && (ps + [p])[..i] == ps[..i];
    assert oks[..|oks|] == oks && ps[..|ps|] == ps;
  }

  /** Any number of operations: the tree is the map they make; left[i] pages are free after the
      i-th. */
  method Run(k: Kernel, r: nat, ops: seq<Op>, ghost view: map<nat, nat>) returns (oks: seq<bool>, ps: seq<nat>,
      ghost left: seq<nat>)
    requires k.Valid() && Agrees(k.Now(), r, view) && forall i :: 0 <= i < |ops| ==> Legal(ops[i])
    modifies k
    ensures k.Valid() && |oks| == |ps| == |ops| && Agrees(k.Now(), r, After(view, ops, oks, ps))
    ensures forall i :: 0 <= i < |ops| ==> ExplainedAt(view, ops, oks, ps, left, i)
  {
    hide Agrees, Update, Explained, ExplainedAt, After;
    oks, ps, left := [], [], [];
    AfterNone(view);
    var i := 0;
    while i < |ops|
      invariant 0 <= i <= |ops| && |oks| == |ps| == |left| == i && k.Valid()
      invariant Agrees(k.Now(), r, After(view, ops[..i], oks, ps))
      invariant forall j :: 0 <= j < i ==> ExplainedAt(view, ops, oks, ps, left, j)
    {
      ghost var now := After(view, ops[..i], oks, ps);
      var ok, p := Apply(k, r, ops[i], now);
      AfterOne(view, ops[..i], oks, ps, ops[i], ok, p);
      assert ops[..i + 1] == ops[..i] + [ops[i]];
      forall j | 0 <= j <= i ensures ExplainedAt(view, ops, oks + [ok], ps + [p], left + [|k.free|], j) {
        ExplainedKept(view, ops, oks, ps, left, ok, p, |k.free|, j);
      }
      oks, ps, left, i := oks + [ok], ps + [p], left + [|k.free|], i + 1;
    }
    assert ops[..i] == ops;
  }

  lemma AfterNone(view: map<nat, nat>)
    ensures After(view, [], [], []) == view
  {
  }

  lemma AfterOne(view: map<nat, nat>, ops: seq<Op>, oks: seq<bool>, ps: seq<nat>, op: Op, ok: bool, p: nat)
    requires |ops| == |oks| == |ps|
    ensures After(view, ops + [op], oks + [ok], ps + [p]) == Update(After(view, ops, oks, ps), op, ok, p)
  {
    var n := |ops|;
    assert (ops + [op])[..n] == ops && (oks + [ok])[..n] == oks && (ps + [p])[..n] == ps;
  }
}
