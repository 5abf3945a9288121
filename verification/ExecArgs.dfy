/**
 The arguments of a new program (kernel/exec.c): exec pushes the strings on the new stack, 16-byte
 aligned, and below them the array of pointers to them that main gets as argv.
 */
module ExecArgs {
  import opened PageTable
  import opened Frames
  import opened Vm
  import opened UserMemory
  import opened UserBytes
  import opened Lifecycle
  import opened ProcMemory
  import opened UserCopy

  const MAXARG: nat := 32

  type Bytes = seq<Octet>

  function Down16(x: int): int {
    x - x % 16
  }

  /** The stack pointer after i strings. */
  function Sp(args: seq<Bytes>, top: int, i: nat): int
    requires i <= |args|
  {
    if i == 0 then top else Down16(Sp(args, top, i - 1) - (|args[i - 1]| + 1))
  }

  /** Where the array of pointers is. */
  function Argv(args: seq<Bytes>, top: int): int {
    Down16(Sp(args, top, |args|) - 8 * (|args| + 1))
  }

  /** There are not too many arguments, and all of it fits into the stack page. */
  ghost predicate ArgsFit(args: seq<Bytes>, top: int) {
    |args| < MAXARG && Argv(args, top) >= top - PGSIZE
  }

  lemma {:induction false} SpDown(args: seq<Bytes>, top: int, i: nat, j: nat)
    requires i <= j <= |args|
    ensures Sp(args, top, j) <= Sp(args, top, i) && Argv(args, top) <= Sp(args, top, |args|)
    ensures i < j ==> Sp(args, top, i + 1) + |args[i]| + 1 <= Sp(args, top, i)
    decreases j
  {
    if i < j { SpDown(args, top, i, j - 1); }
  }

  lemma ArgvBelow(args: seq<Bytes>, top: int)
    ensures Argv(args, top) % 16 == 0 && Argv(args, top) + 8 * (|args| + 1) <= Sp(args, top, |args|)
  {
    hide Sp;
  }

  /** Words as the bytes they are in memory. */
  function Words(ws: seq<nat>): (bs: Bytes)
    ensures |bs| == 8 * |ws|
  {
    seq<Octet>(8 * |ws|, i requires 0 <= i < 8 * |ws| => Unpack(ws[i / 8], i % 8))
  }

  function Pointer(args: seq<Bytes>, top: int, j: nat): nat
    requires j < |args|
  {
    if Sp(args, top, j + 1) < 0 then 0 else Sp(args, top, j + 1)
  }

  /** ustack after i strings. */
  function Pointers(args: seq<Bytes>, top: int, i: nat): seq<nat>
    requires i <= |args|
  {
    seq(i, j requires 0 <= j < i => Pointer(args, top, j))
  }

  /** The first i strings are where their pointers point, each with its NUL. */
  ghost predicate Pushed(m: Mem, r: nat, args: seq<Bytes>, top: int, i: nat)
    requires i <= |args|
  {
    forall j :: 0 <= j < i ==> Has(m, r, Pointer(args, top, j), args[j] + [0])
  }

  /** The 8-byte word at address a. */
  ghost function WordIn(m: Mem, r: nat, a: nat): nat {
    Pack(seq<Octet>(8, k requires 0 <= k < 8 => ByteIn(m, r, a + k)))
  }

  /** What main finds: sp is aligned and in the stack page, argv[j] points to string j with its NUL, and
      a null pointer ends the array. */
  ghost predicate Started(m: Mem, r: nat, args: seq<Bytes>, sp: int, top: nat) {
    && 0 <= sp && top - PGSIZE <= sp && sp % 16 == 0 && sp + 8 * (|args| + 1) <= top
    && (forall j :: 0 <= j < |args| ==> Leads(m, r, WordIn(m, r, sp + 8 * j), args[j], top))
    && WordIn(m, r, sp + 8 * |args|) == 0
  }

  ghost predicate Leads(m: Mem, r: nat, a: nat, s: Bytes, top: nat) {
    a + |s| + 1 <= top && Has(m, r, a, s + [0])
  }

  lemma {:induction false} PackUnpack(w: nat, bs: seq<Octet>)
    requires (forall k :: 0 <= k < |bs| ==> bs[k] == Unpack(w, k)) && w < Power(|bs|)
    ensures Pack(bs) == w
    decreases |bs|
  {
    if bs != [] {
      forall k | 0 <= k < |bs[1..]| ensures bs[1..][k] == Unpack(w / 256, k) {
        assert bs[k + 1] == Unpack(w, k + 1);
      }
      PackUnpack(w / 256, bs[1..]);
      assert bs[0] == Unpack(w, 0);
    }
  }

  function Power(n: nat): nat {
    if n == 0 then 1 else 256 * Power(n - 1)
  }

  lemma Words64(w: nat)
    requires w < 0x1_0000_0000_0000_0000
    ensures w < Power(8)
  {
    assert Power(4) == 0x1_0000_0000;
    assert Power(6) == 65536 * Power(4);
    assert Power(8) == 65536 * Power(6);
  }

  /** A word of an array in memory. */
  lemma WordOf(m: Mem, r: nat, va: nat, ws: seq<nat>, j: nat)
    requires Has(m, r, va, Words(ws)) && j < |ws| && ws[j] < 0x1_0000_0000_0000_0000
    ensures WordIn(m, r, va + 8 * j) == ws[j]
  {
    hide ByteIn, Pack;
    var bs := seq<Octet>(8, k requires 0 <= k < 8 => ByteIn(m, r, va + 8 * j + k));
    forall k | 0 <= k < 8 ensures bs[k] == Unpack(ws[j], k) {
      var i := 8 * j + k;
      assert i / 8 == j && i % 8 == k;
      assert ByteIn(m, r, va + i) == Words(ws)[va + i - va];
    }
    Words64(ws[j]);
    PackUnpack(ws[j], bs);
  }

  /** Strings and pointers pushed are what main finds. */
  lemma IsStarted(m: Mem, r: nat, args: seq<Bytes>, n: nat)
    requires n <= TRAPFRAME && ArgsFit(args, n * PGSIZE) && Argv(args, n * PGSIZE) >= 0
    requires Pushed(m, r, args, n * PGSIZE, |args|)
    requires Has(m, r, Argv(args, n * PGSIZE), Words(Pointers(args, n * PGSIZE, |args|) + [0]))
    ensures Started(m, r, args, Argv(args, n * PGSIZE), n * PGSIZE)
  {
    hide Has, Words, WordIn, Sp, Argv, Pushed;
    var top, sp := n * PGSIZE, Argv(args, n * PGSIZE);
    ArgvBelow(args, top);
    var ws := Pointers(args, top, |args|) + [0];
    SpStart(args, top);
    SpDown(args, top, 0, |args|);
    forall j | 0 <= j < |args| ensures Leads(m, r, WordIn(m, r, sp + 8 * j), args[j], top) {
      assert ws[j] == Pointer(args, top, j);
      PointerLeads(m, r, args, top, sp, ws, j);
    }
    WordOf(m, r, sp, ws, |args|);
  }

  lemma PointerLeads(m: Mem, r: nat, args: seq<Bytes>, top: nat, sp: nat, ws: seq<nat>, j: nat)
    requires j < |args| <= |ws| && ws[j] == Pointer(args, top, j) && Has(m, r, sp, Words(ws))
    requires 0 <= Argv(args, top) && top <= TRAPFRAME * PGSIZE && Pushed(m, r, args, top, |args|)
    ensures Leads(m, r, WordIn(m, r, sp + 8 * j), args[j], top)
  {
    hide Has, Words, WordIn, Sp, Argv, Down16;
    SpStart(args, top);
    SpDown(args, top, j, |args|);
    SpDown(args, top, j + 1, |args|);
    SpDown(args, top, 0, j);
    WordOf(m, r, sp, ws, j);
  }

  ghost predicate KeptBelow(m: Mem, m': Mem, r: nat, lim: nat) {
    forall a :: 0 <= a < lim ==> ByteIn(m', r, a) == ByteIn(m, r, a)
  }

  lemma HasKept(m: Mem, m': Mem, r: nat, va: nat, bs: Bytes, n: nat, a: nat, cs: Bytes)
    requires Written(m, m', r, va, bs, n) && va + |bs| <= a && a + |cs| <= n * PGSIZE && Has(m, r, a, cs)
    ensures Has(m', r, a, cs)
  {
    hide ByteIn;
  }

  lemma BelowKept(m0: Mem, m: Mem, m': Mem, r: nat, va: nat, bs: Bytes, n: nat, lim: nat)
    requires KeptBelow(m0, m, r, lim) && Written(m, m', r, va, bs, n) && lim <= va && lim <= n * PGSIZE
    ensures KeptBelow(m0, m', r, lim)
  {
    hide ByteIn;
  }

  /** A push leaves the strings above it alone. */
  lemma PushedKept(m: Mem, m': Mem, r: nat, args: seq<Bytes>, i: nat, va: nat, bs: Bytes, n: nat)
    requires i <= |args| && Pushed(m, r, args, n * PGSIZE, i) && Written(m, m', r, va, bs, n)
    requires 0 <= va && va + |bs| <= Sp(args, n * PGSIZE, i)
    ensures Pushed(m', r, args, n * PGSIZE, i)
  {
    hide Has, Written, Sp;
    forall j | 0 <= j < i ensures Has(m', r, Pointer(args, n * PGSIZE, j), args[j] + [0]) {
      SpDown(args, n * PGSIZE, j, i);
      SpDown(args, n * PGSIZE, j + 1, i);
      SpDown(args, n * PGSIZE, 0, j);
      SpStart(args, n * PGSIZE);
      HasKept(m, m', r, va, bs, n, Pointer(args, n * PGSIZE, j), args[j] + [0]);
    }
  }

  lemma SpStart(args: seq<Bytes>, top: int)
    ensures Sp(args, top, 0) == top
  {
  }

  /** copyout into the stack page, which cannot fail. */
  method Push(k: Kernel, r: nat, va: nat, bs: Bytes, ghost n: nat, ghost trampoline: nat, ghost trapframe: nat)
    requires k.Valid() && ProcSpace(k.Now(), r, n) && Tops(k.Now(), r, trampoline, trapframe) && n >= 1
    requires Reach(k.Now(), r, (n - 1) * PGSIZE) && (n - 1) * PGSIZE <= va && va + |bs| <= n * PGSIZE
    modifies k
    ensures k.Valid() && k.free == old(k.free) && OnlyUser(old(k.Now()), k.Now(), r)
    ensures Written(old(k.Now()), k.Now(), r, va, bs, n)
  {
    hide ChainOk, TablesOk, Written, OnlyUser, ProcSpace, Tops, Reach;
    ghost var m := k.Now();
    var ok, done := Copyout(k, r, va, bs, n, trampoline, trapframe);
    forall a | va <= a < va + |bs| ensures Reach(m, r, a) {
      PageOfByte(n - 1, a, n);
      PageOfByte(n - 1, (n - 1) * PGSIZE, n);
      ReachPage(m, r, (n - 1) * PGSIZE, a);
    }
    assert ok && bs[..done] == bs;
  }

  /** The strings and the pointers: succeeds exactly if all of it fits into the stack page. */
  method PushArgs(k: Kernel, r: nat, args: seq<Bytes>, n: nat, ghost trampoline: nat, ghost trapframe: nat)
    returns (ok: bool, sp: int)
    requires k.Valid() && ProcSpace(k.Now(), r, n) && Tops(k.Now(), r, trampoline, trapframe) && n >= 1
    requires Reach(k.Now(), r, (n - 1) * PGSIZE) && |args| != MAXARG
    modifies k
    ensures k.Valid() && k.free == old(k.free) && OnlyUser(old(k.Now()), k.Now(), r)
    ensures ok <==> ArgsFit(args, n * PGSIZE)
    ensures KeptBelow(old(k.Now()), k.Now(), r, (n - 1) * PGSIZE)
    ensures ok ==> sp == Argv(args, n * PGSIZE) && Started(k.Now(), r, args, sp, n * PGSIZE)
  {
    hide ChainOk, TablesOk, Written, OnlyUser, ProcSpace, Tops, Reach, Has, Pushed, KeptBelow, Words, Pointers, Sp,
      Started;
    var top, base := n * PGSIZE, (n - 1) * PGSIZE;
    ghost var m := k.Now();
    var argc, ustack := 0, [];
    ok, sp := false, top;
    SpStart(args, top);
    TablesSized(m.page, m.role);
    Nothing(m, r, args, top, base);
    while argc < |args|
      invariant argc <= |args| && argc <= MAXARG && k.Valid() && k.free == old(k.free) && OnlyUser(m, k.Now(), r) && !ok
      invariant sp == Sp(args, top, argc) && base <= sp <= top && ustack == Pointers(args, top, argc)
      invariant Pushed(k.Now(), r, args, top, argc) && KeptBelow(m, k.Now(), r, base)
    {
      if argc >= MAXARG {
        return;
      }
      SpNext(args, top, argc);
      var sp1 := Down16(sp - (|args[argc]| + 1));
      if sp1 < base {
        return;
      }
      ghost var m1 := k.Now();
      Same(m, m1, r, n, trampoline, trapframe);
      Push(k, r, sp1, args[argc] + [0], n, trampoline, trapframe);
      PushedNext(m1, k.Now(), r, args, argc, n);
      BelowKept(m, m1, k.Now(), r, sp1, args[argc] + [0], n, base);
      OnlyUserTwice(m, m1, k.Now(), r);
      ustack := ustack + [sp1];
      sp, argc := sp1, argc + 1;
    }
    sp := Down16(sp - 8 * (argc + 1));
    if sp < base {
      return;
    }
    ghost var m1 := k.Now();
    Same(m, m1, r, n, trampoline, trapframe);
    var words := Words(ustack + [0]);
    PointersSize(args, top, argc);
    Push(k, r, sp, words, n, trampoline, trapframe);
    PushedKept(m1, k.Now(), r, args, argc, sp, words, n);
    BelowKept(m, m1, k.Now(), r, sp, words, n, base);
    OnlyUserTwice(m, m1, k.Now(), r);
    WrittenHas(m1, k.Now(), r, sp, words, n);
    SpaceSize(m, r, n);
    IsStarted(k.Now(), r, args, n);
    ok := true;
  }

  lemma Nothing(m: Mem, r: nat, args: seq<Bytes>, top: int, lim: nat)
    requires |m.page| == |m.role|
    ensures Pushed(m, r, args, top, 0) && KeptBelow(m, m, r, lim) && Pointers(args, top, 0) == [] && OnlyUser(m, m, r)
  {
    OnlyUserSelf(m, r);
  }

  lemma SpNext(args: seq<Bytes>, top: int, i: nat)
    requires i < |args|
    ensures Sp(args, top, i + 1) == Down16(Sp(args, top, i) - (|args[i]| + 1))
    ensures Argv(args, top) <= Sp(args, top, i + 1)
    ensures Sp(args, top, i + 1) >= 0 ==> Pointers(args, top, i + 1) == Pointers(args, top, i) + [Sp(args, top, i + 1)]
  {
    SpDown(args, top, i + 1, |args|);
  }

  lemma SpaceSize(m: Mem, r: nat, n: nat)
    requires ProcSpace(m, r, n)
    ensures n <= TRAPFRAME
  {
  }

  lemma PointersSize(args: seq<Bytes>, top: int, i: nat)
    requires i <= |args|
    ensures |Pointers(args, top, i)| == i
  {
  }

  lemma PushedNext(m: Mem, m': Mem, r: nat, args: seq<Bytes>, i: nat, n: nat)
    requires i < |args| && Pushed(m, r, args, n * PGSIZE, i) && 0 <= Sp(args, n * PGSIZE, i + 1)
    requires Written(m, m', r, Sp(args, n * PGSIZE, i + 1), args[i] + [0], n)
    ensures Pushed(m', r, args, n * PGSIZE, i + 1)
  {
    hide Has, Written, Sp;
    var va := Sp(args, n * PGSIZE, i + 1);
    SpDown(args, n * PGSIZE, i, i + 1);
    SpDown(args, n * PGSIZE, 0, i);
    SpStart(args, n * PGSIZE);
    PushedKept(m, m', r, args, i, va, args[i] + [0], n);
    WrittenHas(m, m', r, va, args[i] + [0], n);
  }

  /** Pushing does not change what the process can reach. */
  lemma Same(m: Mem, m': Mem, r: nat, n: nat, trampoline: nat, trapframe: nat)
    requires OnlyUser(m, m', r) && ProcSpace(m, r, n) && Tops(m, r, trampoline, trapframe) && n >= 1
    ensures ProcSpace(m', r, n) && Tops(m', r, trampoline, trapframe)
    ensures Reach(m', r, (n - 1) * PGSIZE) <==> Reach(m, r, (n - 1) * PGSIZE)
  {
    hide EntryOf, V, Pte;
    SameReach(m, m', r, (n - 1) * PGSIZE);
  }
}
