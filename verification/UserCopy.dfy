/**
 Copies between the kernel and a process (kernel/vm.c: walkaddr, copyout, copyin): byte by
 byte through the page table, across page boundaries, up to the first page that the
 process cannot reach itself.
 */
module UserCopy {
  import opened PageTable
  import opened Frames
  import opened Vm
  import opened UserMemory
  import opened UserBytes
  import opened Lifecycle
  import opened ProcMemory

  predicate UserBit(e: nat) { e / PTE_U % 2 == 1 }

  lemma Digit16(q: nat, f: nat)
    ensures (32 * q + f) / 16 % 2 == f / 16 % 2
  {
    assert (32 * q + f) / 16 == 2 * q + f / 16;
  }

  /** The process itself can reach byte a. */
  ghost predicate Reach(m: Mem, r: nat, a: nat) {
    var e := EntryOf(m.page, r, a / PGSIZE);
    a / PGSIZE < MAXVPN && V(e) && UserBit(e)
  }

  ghost predicate Reaches(m: Mem, r: nat, va: nat, len: nat) {
    forall a :: va <= a < va + len ==> Reach(m, r, a)
  }

  /** The bytes from va on are bs. */
  ghost predicate Has(m: Mem, r: nat, va: nat, bs: seq<Octet>) {
    forall a :: va <= a < va + |bs| ==> ByteIn(m, r, a) == bs[a - va]
  }

  /** Trampoline and trapframe are not for the user: what the process can reach is its memory. */
  lemma ReachIsMemory(m: Mem, r: nat, n: nat, trampoline: nat, trapframe: nat, a: nat)
    requires ProcSpace(m, r, n) && Tops(m, r, trampoline, trapframe) && Reach(m, r, a)
    ensures a / PGSIZE < n && a < n * PGSIZE
  {
    hide EntryOf;
    Digit16(trampoline * 32, PTE_R + PTE_X + 1);
    Digit16(trapframe * 32, PTE_R + PTE_W + 1);
  }

  /** A page is reachable as a whole. */
  lemma ReachPage(m: Mem, r: nat, a: nat, b: nat)
    requires a / PGSIZE == b / PGSIZE
    ensures Reach(m, r, a) <==> Reach(m, r, b)
  {
  }

  /** walkaddr */
  method Walkaddr(k: Kernel, r: nat, v: nat) returns (p: nat)
    requires k.Valid() && IsRoot(k.role, r)
    modifies k
    ensures k.Valid() && k.Now() == old(k.Now()) && k.free == old(k.free)
    ensures p == if v < MAXVPN && V(EntryOf(k.ram.page, r, v))
        && UserBit(EntryOf(k.ram.page, r, v)) then Ppn(EntryOf(k.ram.page, r, v)) else 0
  {
    hide ChainOk, TablesOk, Frame, EntryOf, V, Ppn, UserBit;
    if v >= MAXVPN {
      return 0;
    }
    ZeroNotV();
    var q := k.Walk(r, v, false);
    if q == 0 {
      return 0;
    }
    var pte := Word(k.ram.page, q, Px0(v));
    if !V(pte) || !UserBit(pte) {
      return 0;
    }
    p := Ppn(pte);
  }

  /** n bytes of a page from byte off on. */
  function Slice(c: seq<nat>, off: nat, n: nat): (bs: seq<Octet>)
    requires |c| == 512 && off + n <= PGSIZE
    ensures |bs| == n
  {
    seq<Octet>(n, i requires 0 <= i < n => ByteAt(c, off + i))
  }

  lemma SliceHas(m: Mem, r: nat, va: nat, p: nat, n: nat)
    requires p == Ppn(EntryOf(m.page, r, va / PGSIZE)) < |m.page| && |m.page[p]| == 512 && va % PGSIZE + n <= PGSIZE
    ensures Has(m, r, va, Slice(m.page[p], va % PGSIZE, n))
  {
    hide EntryOf, Ppn, ByteAt;
    forall a | va <= a < va + n ensures ByteIn(m, r, a) == ByteAt(m.page[p], va % PGSIZE + (a - va)) {
      PageOfByte(va / PGSIZE, a, 0);
    }
  }

  lemma HasMore(m: Mem, r: nat, va: nat, bs: seq<Octet>, cs: seq<Octet>)
    requires Has(m, r, va, bs) && Has(m, r, va + |bs|, cs)
    ensures Has(m, r, va, bs + cs)
  {
    hide ByteIn;
  }

  /** What has been written can be read. */
  lemma WrittenHas(m: Mem, m': Mem, r: nat, va: nat, bs: seq<Octet>, n: nat)
    requires Written(m, m', r, va, bs, n) && va + |bs| <= n * PGSIZE
    ensures Has(m', r, va, bs)
  {
    hide ByteIn;
  }

  /** Two readings of the same bytes agree. */
  lemma HasOnce(m: Mem, r: nat, va: nat, bs: seq<Octet>, cs: seq<Octet>)
    requires Has(m, r, va, bs) && Has(m, r, va, cs) && |bs| == |cs|
    ensures bs == cs
  {
    hide ByteIn;
    forall i | 0 <= i < |bs| ensures bs[i] == cs[i] {
      assert ByteIn(m, r, va + i) == bs[va + i - va] && ByteIn(m, r, va + i) == cs[va + i - va];
    }
  }

  /** How many of len bytes from va on lie in the first page. */
  function InPage(va: nat, len: nat): (n: nat)
    requires len > 0
    ensures 0 < n <= len && va % PGSIZE + n <= PGSIZE && (n < len ==> (va + n) % PGSIZE == 0)
    ensures forall a :: va <= a < va + n ==> a / PGSIZE == va / PGSIZE
  {
    var n := PGSIZE - va % PGSIZE;
    if n > len then len else n
  }

  /** One step of a copy has reached its page. */
  lemma ReachesMore(m: Mem, r: nat, va: nat, i: nat, len: nat)
    requires i < len && Reaches(m, r, va, i) && Reach(m, r, va + i)
    ensures Reaches(m, r, va, i + InPage(va + i, len - i))
  {
    forall a | va <= a < va + i + InPage(va + i, len - i) ensures Reach(m, r, a) {
      if a >= va + i { ReachPage(m, r, va + i, a); }
    }
  }

  lemma SameReach(m: Mem, m': Mem, r: nat, a: nat)
    requires OnlyUser(m, m', r) && IsRoot(m.role, r)
    ensures Reach(m', r, a) <==> Reach(m, r, a)
  {
    hide EntryOf;
  }

  lemma SameProc(m: Mem, m': Mem, r: nat, n: nat)
    requires OnlyUser(m, m', r) && ProcSpace(m, r, n)
    ensures ProcSpace(m', r, n)
  {
    hide EntryOf, V;
  }

  /** copyout: succeeds exactly if the process can reach all the bytes, and has then written them; else
      those before the first page it cannot reach. No other byte of any process changes. */
  method Copyout(k: Kernel, r: nat, dst: nat, src: seq<Octet>, ghost n: nat, ghost trampoline: nat,
      ghost trapframe: nat)
    returns (ok: bool, ghost done: nat)
    requires k.Valid() && ProcSpace(k.Now(), r, n) && Tops(k.Now(), r, trampoline, trapframe)
    modifies k
    ensures k.Valid() && k.free == old(k.free) && OnlyUser(old(k.Now()), k.Now(), r)
    ensures ok <==> Reaches(old(k.Now()), r, dst, |src|)
    ensures done <= |src| && Reaches(old(k.Now()), r, dst, done) && (ok ==> done == |src|)
    ensures !ok ==> done < |src| && !Reach(old(k.Now()), r, dst + done)
    ensures Written(old(k.Now()), k.Now(), r, dst, src[..done], n)
  {
    hide ChainOk, TablesOk, EntryOf, V, Ppn, UserBit, Written, OnlyUser, ByteIn, ProcSpace, Tops, Reach, InPage;
    var i := 0;
    done := 0;
    ghost var m := k.Now();
    TablesSized(m.page, m.role);
    OnlyUserSelf(m, r);
    WrittenNothing(m, r, dst, n);
    assert src[..0] == [];
    SpaceOf(m, r, n);
    while i < |src|
      invariant 0 <= i <= |src| && done == i && k.Valid() && k.free == old(k.free) && OnlyUser(m, k.Now(), r)
      invariant Reaches(m, r, dst, i) && Written(m, k.Now(), r, dst, src[..i], n)
    {
      ghost var m1 := k.Now();
      SameProc(m, m1, r, n);
      SpaceOf(m1, r, n);
      var v, off := (dst + i) / PGSIZE, (dst + i) % PGSIZE;
      var pa := Walkaddr(k, r, v);
      OnPage(k, r, dst + i, pa, n);
      SameReach(m, m1, r, dst + i);
      if Reach(m, r, dst + i) { ReachIsMemory(m, r, n, trampoline, trapframe, dst + i); }
      if pa == 0 {
        return false, i;
      }
      var len := InPage(dst + i, |src| - i);
      InPageFits(dst + i, |src| - i);
      WritePage(k, r, v, pa, off, src[i..i + len], n);
      assert v * PGSIZE + off == dst + i && src[..i + len] == src[..i] + src[i..i + len];
      WrittenNext(m, m1, k.Now(), r, dst, src[..i], src[i..i + len], n);
      OnlyUserTwice(m, m1, k.Now(), r);
      ReachesMore(m, r, dst, i, |src|);
      i := i + len;
      done := i;
    }
    assert src[..|src|] == src;
    ok := true;
  }

  /** copyin: succeeds exactly if the process can reach all the bytes, and gives them. */
  method Copyin(k: Kernel, r: nat, src: nat, len: nat, ghost n: nat, ghost trampoline: nat, ghost trapframe: nat)
    returns (ok: bool, bs: seq<Octet>)
    requires k.Valid() && ProcSpace(k.Now(), r, n) && Tops(k.Now(), r, trampoline, trapframe)
    modifies k
    ensures k.Valid() && k.free == old(k.free) && k.Now() == old(k.Now())
    ensures ok <==> Reaches(k.Now(), r, src, len)
    ensures Has(k.Now(), r, src, bs) && (if ok then |bs| == len else |bs| < len && !Reach(k.Now(), r, src + |bs|))
  {
    hide ChainOk, TablesOk, EntryOf, V, Ppn, UserBit, ByteIn, ProcSpace, Tops, Reach, InPage, Slice, Has;
    ghost var m := k.Now();
    SpaceOf(m, r, n);
    bs := [];
    HasNothing(m, r, src);
    while |bs| < len
      invariant |bs| <= len && k.Valid() && k.free == old(k.free) && k.Now() == m
      invariant Reaches(m, r, src, |bs|) && Has(m, r, src, bs)
    {
      var a := src + |bs|;
      var pa := Walkaddr(k, r, a / PGSIZE);
      OnPage(k, r, a, pa, n);
      if Reach(m, r, a) { ReachIsMemory(m, r, n, trampoline, trapframe, a); }
      if pa == 0 {
        return false, bs;
      }
      OwnPage(m, r, a / PGSIZE);
      TablesSized(m.page, m.role);
      InPageFits(a, len - |bs|);
      var piece := Slice(k.ram.page[pa], a % PGSIZE, InPage(a, len - |bs|));
      SliceHas(m, r, a, pa, InPage(a, len - |bs|));
      HasMore(m, r, src, bs, piece);
      ReachesMore(m, r, src, |bs|, len);
      bs := bs + piece;
    }
    ok := true;
  }

  /** copyinstr: the string at src if it ends within max bytes that the process can reach, else an error. */
  method Copyinstr(k: Kernel, r: nat, src: nat, max: nat, ghost n: nat, ghost trampoline: nat, ghost trapframe: nat)
    returns (ok: bool, s: seq<Octet>)
    requires k.Valid() && ProcSpace(k.Now(), r, n) && Tops(k.Now(), r, trampoline, trapframe)
    modifies k
    ensures k.Valid() && k.free == old(k.free) && k.Now() == old(k.Now())
    ensures Has(k.Now(), r, src, s) && 0 !in s && Reaches(k.Now(), r, src, |s|)
    ensures ok ==> |s| < max && Has(k.Now(), r, src, s + [0]) && Reach(k.Now(), r, src + |s|)
    ensures !ok ==> |s| == max || (|s| < max && !Reach(k.Now(), r, src + |s|))
  {
    hide ChainOk, TablesOk, EntryOf, V, Ppn, UserBit, ByteIn, ProcSpace, Tops, Reach, InPage, Slice, Has;
    ghost var m := k.Now();
    SpaceOf(m, r, n);
    s := [];
    HasNothing(m, r, src);
    while |s| < max
      invariant |s| <= max && k.Valid() && k.free == old(k.free) && k.Now() == m
      invariant Reaches(m, r, src, |s|) && Has(m, r, src, s) && 0 !in s
    {
      var a := src + |s|;
      var pa := Walkaddr(k, r, a / PGSIZE);
      OnPage(k, r, a, pa, n);
      if Reach(m, r, a) { ReachIsMemory(m, r, n, trampoline, trapframe, a); }
      if pa == 0 {
        return false, s;
      }
      OwnPage(m, r, a / PGSIZE);
      TablesSized(m.page, m.role);
      InPageFits(a, max - |s|);
      var piece := Slice(k.ram.page[pa], a % PGSIZE, InPage(a, max - |s|));
      SliceHas(m, r, a, pa, InPage(a, max - |s|));
      HasMore(m, r, src, s, piece);
      ReachesMore(m, r, src, |s|, max);
      var z := Zero(piece);
      if z < |piece| {
        HasLess(m, r, src, s + piece, |s| + z + 1);
        HasLess(m, r, src, s + piece, |s| + z);
        assert (s + piece)[..|s| + z + 1] == s + piece[..z] + [0] && (s + piece)[..|s| + z] == s + piece[..z];
        assert Reach(m, r, src + (|s| + z));
        return true, s + piece[..z];
      }
      s := s + piece;
    }
    ok := false;
  }

  /** The inner loop of copyinstr: up to the first NUL. */
  method Zero(bs: seq<Octet>) returns (z: nat)
    ensures z <= |bs| && 0 !in bs[..z] && (z < |bs| ==> bs[z] == 0)
  {
    z := 0;
    while z < |bs|
      invariant z <= |bs| && 0 !in bs[..z]
    {
      if bs[z] == 0 {
        return;
      }
      assert bs[..z + 1] == bs[..z] + [bs[z]];
      z := z + 1;
    }
  }

  lemma HasLess(m: Mem, r: nat, va: nat, bs: seq<Octet>, n: nat)
    requires Has(m, r, va, bs) && n <= |bs|
    ensures Has(m, r, va, bs[..n])
  {
    hide ByteIn;
  }

  lemma HasNothing(m: Mem, r: nat, va: nat)
    ensures Has(m, r, va, [])
  {
  }

  /** What copyout has written, copyin reads back. */
  lemma RoundTrip(m: Mem, m': Mem, r: nat, va: nat, src: seq<Octet>, back: seq<Octet>, n: nat, trampoline: nat,
                  trapframe: nat)
    requires ProcSpace(m, r, n) && Tops(m, r, trampoline, trapframe) && Reaches(m, r, va, |src|)
    requires Written(m, m', r, va, src, n) && Has(m', r, va, back) && |back| == |src|
    ensures back == src
  {
    hide ProcSpace, Tops, Written, Reach, Has;
    if src != [] {
      ReachIsMemory(m, r, n, trampoline, trapframe, va + |src| - 1);
      WrittenHas(m, m', r, va, src, n);
      HasOnce(m', r, va, src, back);
    }
  }

  lemma InPageFits(va: nat, len: nat)
    requires len > 0
    ensures 0 < InPage(va, len) <= len && va % PGSIZE + InPage(va, len) <= PGSIZE
  {
  }

  lemma SpaceOf(m: Mem, r: nat, n: nat)
    requires ProcSpace(m, r, n)
    ensures Space(m, r, n) && IsRoot(m.role, r)
  {
  }

  /** walkaddr finds a page exactly for what the process can reach. */
  lemma OnPage(k: Kernel, r: nat, a: nat, pa: nat, n: nat)
    requires k.Valid() && Space(k.Now(), r, n)
    requires pa == if a / PGSIZE < MAXVPN && V(EntryOf(k.ram.page, r, a / PGSIZE))
        && UserBit(EntryOf(k.ram.page, r, a / PGSIZE)) then Ppn(EntryOf(k.ram.page, r, a / PGSIZE)) else 0
    ensures a / PGSIZE < n ==> (pa != 0 <==> Reach(k.Now(), r, a))
    ensures pa != 0 ==> Reach(k.Now(), r, a) && pa == Ppn(EntryOf(k.ram.page, r, a / PGSIZE))
  {
    hide ChainOk, TablesOk, EntryOf, V, Ppn, UserBit;
    if a / PGSIZE < n {
      OwnPage(k.Now(), r, a / PGSIZE);
      NotNull(k.ram.page, k.role, k.first, k.freelist, k.free, Ppn(EntryOf(k.ram.page, r, a / PGSIZE)));
    }
  }
}
