/**
 The memory side of exec (kernel/exec.c): the new image is what the program headers ask for,
 and exec fails exactly when a header is refused, the arguments do not fit or there are
 not enough free pages; a failed exec leaves the pages free that were free before it.
 */
module ExecImage {
  import opened PageTable
  import opened Frames
  import opened Vm
  import opened UserMemory
  import opened UserBytes
  import opened UserCopy
  import opened ExecArgs
  import opened Lifecycle
  import opened ProcMemory
  import opened ForkExec

  // ------------------------------------------------------------------------ what exec is asked

  /** A program header, whether reading it succeeds, and what the file has of its filesz bytes. */
  datatype Segment = Segment(readable: bool, load: bool, vaddr: nat, memsz: nat, filesz: nat, x: bool, w: bool,
    bytes: seq<Octet>)

  /** What fits into the 64 bits of a header, and no more bytes than the header asks for. */
  predicate Header(ph: Segment) {
    ph.vaddr < U64 && ph.memsz < U64 && |ph.bytes| <= ph.filesz
  }

  /** The end of the image after the first i headers. */
  function SizeAt(prog: seq<Segment>, i: nat): nat
    requires i <= |prog|
  {
    if i == 0 then 0
    else
      var sz, ph := SizeAt(prog, i - 1), prog[i - 1];
      if ph.load && ph.vaddr + ph.memsz > sz then ph.vaddr + ph.memsz else sz
  }

  /** Header i does not make exec fail: it can be read, and if it is to be loaded, its bytes fit
      into its memory, its addresses do not wrap around, it starts on a page, it is not empty at
      address 0, and its bytes can be read. */
  ghost predicate Accepted(prog: seq<Segment>, i: nat)
    requires i < |prog|
  {
    var ph := prog[i];
    ph.readable && (ph.load ==> ph.filesz <= ph.memsz && ph.vaddr + ph.memsz < U64 && ph.vaddr % PGSIZE == 0
                                && SizeAt(prog, i + 1) > 0 && |ph.bytes| == ph.filesz)
  }

  /** The byte at address a after the first i headers: of the last segment that has one there, else 0. */
  function ProgByte(prog: seq<Segment>, i: nat, a: nat): Octet
    requires i <= |prog|
  {
    if i == 0 then 0
    else
      var ph := prog[i - 1];
      if ph.load && ph.vaddr <= a < ph.vaddr + |ph.bytes| then ph.bytes[a - ph.vaddr] else ProgByte(prog, i - 1, a)
  }

  /** Nothing is loaded above the end of the image. */
  lemma {:induction false} ProgByteAbove(prog: seq<Segment>, i: nat, a: nat)
    requires i <= |prog| && AllAccepted(prog, i) && a >= SizeAt(prog, i)
    ensures ProgByte(prog, i, a) == 0
    decreases i
  {
    if i > 0 {
      assert Accepted(prog, i - 1);
      SizeGrows(prog, i - 1, i);
      ProgByteAbove(prog, i - 1, a);
    }
  }

  predicate ReadBit(e: nat) { e / PTE_R % 2 == 1 }
  predicate WriteBit(e: nat) { e / PTE_W % 2 == 1 }
  predicate ExecBit(e: nat) { e / PTE_X % 2 == 1 }

  /** Virtual page v is there, readable by the user, and writable and executable as told. */
  ghost predicate SegPage(m: Mem, r: nat, v: nat, x: bool, w: bool) {
    var e := EntryOf(m.page, r, v);
    V(e) && ReadBit(e) && UserBit(e) && (WriteBit(e) <==> w) && (ExecBit(e) <==> x)
  }

  ghost predicate Zero(m: Mem, r: nat, v: nat) {
    Ppn(EntryOf(m.page, r, v)) < |m.page| && m.page[Ppn(EntryOf(m.page, r, v))] == ZeroPage()
  }

  /** The first n pages hold what the first i headers put there, byte by byte. */
  ghost predicate Filled(m: Mem, r: nat, prog: seq<Segment>, i: nat, n: nat)
    requires i <= |prog|
  {
    forall a :: 0 <= a < n * PGSIZE ==> ByteIn(m, r, a) == ProgByte(prog, i, a)
  }

  /** The pages each of the first i headers added are as that header says. */
  ghost predicate Loaded(m: Mem, r: nat, prog: seq<Segment>, i: nat)
    requires i <= |prog|
  {
    forall j, v :: 0 <= j < i && PgUp(SizeAt(prog, j)) <= v < PgUp(SizeAt(prog, j + 1)) ==>
      SegPage(m, r, v, prog[j].x, prog[j].w)
  }

  /** At the top, a page out of the user's reach below a page of stack. */
  ghost predicate Stack(m: Mem, r: nat, n: nat) {
    n >= 2 && !UserBit(EntryOf(m.page, r, n - 2)) && SegPage(m, r, n - 1, false, true)
  }

  /** All user pages may be accessed by the user. */
  ghost predicate UserPages(m: Mem, r: nat, n: nat) {
    forall w :: 0 <= w < n ==> UserBit(EntryOf(m.page, r, w))
  }

  // ------------------------------------------------------------------------------- counting

  /** Of f0 free pages f are left: the others are root and tables of a space with n user pages,
      and those pages. */
  ghost predicate Tally(f0: nat, f: nat, t: set<Slot>, n: nat) {
    t == TopTables() + Ways(0, n) && f0 == f + Image(n)
  }

  /** The pages a process's space with n user pages is made of. */
  ghost function Image(n: nat): nat {
    3 + n + |Ways(0, n) - TopTables()|
  }

  lemma TallyStart(f: nat)
    requires f >= 3
    ensures Tally(f, f - 3, TopTables(), 0)
  {
    assert TopTables() + Ways(0, 0) == TopTables() && Ways(0, 0) - TopTables() == {};
  }

  lemma {:induction false} WaysSplit(lo: nat, a: nat, b: nat)
    requires lo <= a <= b
    ensures Ways(lo, b) == Ways(lo, a) + Ways(a, b)
    decreases b
  {
    hide Way;
    if a < b { WaysSplit(lo, a, b - 1); }
  }

  /** Growing an image from a to b pages succeeds exactly if there were pages for all of it. */
  lemma TallyGrow(f0: nat, f: nat, t: set<Slot>, a: nat, b: nat)
    requires Tally(f0, f, t, a) && a <= b
    ensures f >= Cost(t, a, b) <==> f0 >= Image(b)
    ensures f >= Cost(t, a, b) ==> Tally(f0, f - Cost(t, a, b), t + Ways(a, b), b)
  {
    hide Ways, Way, TopTables;
    WaysSplit(0, a, b);
    var top := TopTables();
    assert Ways(0, b) - top == (Ways(0, a) - top) + (Ways(a, b) - t);
  }

  lemma ImageMonotone(a: nat, b: nat)
    requires a <= b
    ensures Image(a) <= Image(b)
  {
    CostMonotone(TopTables(), 0, a, b);
  }

  lemma {:induction false} SizeGrows(prog: seq<Segment>, i: nat, j: nat)
    requires i <= j <= |prog|
    ensures SizeAt(prog, i) <= SizeAt(prog, j)
    decreases j
  {
    if i < j { SizeGrows(prog, i, j - 1); }
  }

  // ------------------------------------------------------------------------- entries and pages

  // Digits of a number of the form 1024 p + f.
  lemma Digit2(q: nat, f: nat)
    ensures (4 * q + f) / 2 % 2 == f / 2 % 2
  {
    assert (4 * q + f) / 2 == 2 * q + f / 2;
  }

  lemma Digit4(q: nat, f: nat)
    ensures (8 * q + f) / 4 % 2 == f / 4 % 2
  {
    assert (8 * q + f) / 4 == 2 * q + f / 4;
  }

  lemma Digit8(q: nat, f: nat)
    ensures (16 * q + f) / 8 % 2 == f / 8 % 2
  {
    assert (16 * q + f) / 8 == 2 * q + f / 8;
  }

  /** What flags2perm and uvmalloc make of a header's flags. */
  lemma PteBits(p: nat, x: bool, w: bool)
    ensures var e := Pte(p, PTE_R + PTE_U + (if x then PTE_X else 0) + (if w then PTE_W else 0));
            V(e) && Ppn(e) == p && ReadBit(e) && UserBit(e) && (WriteBit(e) <==> w) && (ExecBit(e) <==> x)
  {
    var perm := PTE_R + PTE_U + (if x then PTE_X else 0) + (if w then PTE_W else 0);
    PteFields(p, perm);
    FlagBits(p, perm + 1);
  }

  lemma FlagBits(p: nat, f: nat)
    ensures var e := p * 1024 + f;
            && e / PTE_R % 2 == f / PTE_R % 2 && e / PTE_W % 2 == f / PTE_W % 2
            && e / PTE_X % 2 == f / PTE_X % 2 && e / PTE_U % 2 == f / PTE_U % 2
  {
    Digit2(p * 256, f);
    Digit4(p * 128, f);
    Digit8(p * 64, f);
    Digit16(p * 32, f);
  }

  lemma ZeroedPages(m: Mem, r: nat, lo: nat, hi: nat, x: bool, w: bool)
    requires Zeroed(m, r, lo, hi, PTE_R + PTE_U + (if x then PTE_X else 0) + (if w then PTE_W else 0))
    ensures forall v :: lo <= v < hi ==> SegPage(m, r, v, x, w) && Zero(m, r, v)
  {
    hide EntryOf, Ppn, Pte, V, ReadBit, WriteBit, ExecBit, UserBit;
    forall v | lo <= v < hi ensures SegPage(m, r, v, x, w) && Zero(m, r, v) {
      assert HoldsZero(m, r, v, PTE_R + PTE_U + (if x then PTE_X else 0) + (if w then PTE_W else 0));
      PteBits(Ppn(EntryOf(m.page, r, v)), x, w);
    }
  }

  /** A page stays what it is while something else changes. */
  lemma SegPageKept(m: Mem, m': Mem, r: nat, lo: nat, hi: nat, v: nat, x: bool, w: bool)
    requires TablesOk(m.page, m.role) && IsRoot(m.role, r) && Frame(m, m', r, lo, hi) && SegPage(m, r, v, x, w)
    requires v < TRAPFRAME && !(lo <= v < hi)
    ensures SegPage(m', r, v, x, w)
  {
    hide TablesOk, V, Ppn, EntryOf, Vpn, ReadBit, WriteBit, ExecBit, UserBit;
    OwnPage(m, r, v);
    FrameEntry(m, m', r, lo, hi, v);
    assert Precious(m.role[Ppn(EntryOf(m.page, r, v))], r, lo, hi);
  }

  ghost predicate Mapped(m: Mem, r: nat, n: nat) {
    IsRoot(m.role, r) && n <= TRAPFRAME && forall w :: 0 <= w < n ==> V(EntryOf(m.page, r, w))
  }

  /** Pages above the ones filled are changed. */
  lemma FilledKept(m: Mem, m': Mem, r: nat, lo: nat, hi: nat, prog: seq<Segment>, i: nat, n: nat)
    requires TablesOk(m.page, m.role) && Mapped(m, r, n) && Frame(m, m', r, lo, hi) && i <= |prog| && n <= lo
    requires Filled(m, r, prog, i, n)
    ensures Filled(m', r, prog, i, n)
  {
    hide TablesOk, Frame, EntryOf, V, ByteIn, ProgByte;
    forall a | 0 <= a < n * PGSIZE ensures ByteIn(m', r, a) == ProgByte(prog, i, a) {
      PageOfByte(0, a, n);
      BytesKept(m, m', r, lo, hi, a);
    }
  }

  /** The image grows by zeroed pages. */
  lemma FilledGrown(m: Mem, r: nat, prog: seq<Segment>, i: nat, n: nat, n': nat)
    requires i <= |prog| && AllAccepted(prog, i) && PgUp(SizeAt(prog, i)) <= n <= n' && Filled(m, r, prog, i, n)
    requires forall v :: n <= v < n' ==> Zero(m, r, v)
    ensures Filled(m, r, prog, i, n')
  {
    hide EntryOf, ByteIn, ProgByte, SizeAt, Accepted;
    forall a | 0 <= a < n' * PGSIZE ensures ByteIn(m, r, a) == ProgByte(prog, i, a) {
      PageOfByte(0, a, n');
      if a >= n * PGSIZE {
        assert Zero(m, r, a / PGSIZE);
        ZeroByte(m, r, a);
        ProgByteAbove(prog, i, a);
      }
    }
  }

  /** A segment is loaded on top of the earlier ones. */
  lemma FilledNext(m: Mem, m': Mem, r: nat, prog: seq<Segment>, i: nat, n: nat)
    requires i < |prog| && Filled(m, r, prog, i, n)
    requires if prog[i].load then Written(m, m', r, prog[i].vaddr, prog[i].bytes, n) else m' == m
    ensures Filled(m', r, prog, i + 1, n)
  {
    hide ByteIn;
  }

  lemma LoadedSame(m: Mem, m': Mem, r: nat, prog: seq<Segment>, i: nat)
    requires OnlyUser(m, m', r) && IsRoot(m.role, r) && i <= |prog| && Loaded(m, r, prog, i)
    ensures Loaded(m', r, prog, i)
  {
    hide EntryOf, V, ReadBit, WriteBit, ExecBit, UserBit, PgUp, SizeAt;
    forall j, v | 0 <= j < i && PgUp(SizeAt(prog, j)) <= v < PgUp(SizeAt(prog, j + 1))
      ensures SegPage(m', r, v, prog[j].x, prog[j].w)
    {
      assert SegPage(m, r, v, prog[j].x, prog[j].w);
    }
  }

  lemma LoadedKept(m: Mem, m': Mem, r: nat, lo: nat, hi: nat, prog: seq<Segment>, i: nat)
    requires TablesOk(m.page, m.role) && IsRoot(m.role, r) && Frame(m, m', r, lo, hi) && i <= |prog|
    requires Loaded(m, r, prog, i) && PgUp(SizeAt(prog, i)) <= lo <= TRAPFRAME
    ensures Loaded(m', r, prog, i)
  {
    hide TablesOk, Frame, SegPage, PgUp;
    forall j, v | 0 <= j < i && PgUp(SizeAt(prog, j)) <= v < PgUp(SizeAt(prog, j + 1))
      ensures SegPage(m', r, v, prog[j].x, prog[j].w)
    {
      SizeGrows(prog, j + 1, i);
      PgUpGrows(SizeAt(prog, j + 1), SizeAt(prog, i));
      assert SegPage(m, r, v, prog[j].x, prog[j].w);
      SegPageKept(m, m', r, lo, hi, v, prog[j].x, prog[j].w);
    }
  }

  lemma PgUpGrows(a: nat, b: nat)
    requires a <= b
    ensures PgUp(a) <= PgUp(b)
  {
  }

  /** loadseg: the bytes the file has go to their addresses, and it succeeds if that is all of them. It
      finds every page it fills: its panic is out of reach. */
  method Loadseg(k: Kernel, r: nat, va: nat, sz: nat, bytes: seq<Octet>, n: nat) returns (ok: bool)
    requires k.Valid() && Space(k.Now(), r, n) && UserPages(k.Now(), r, n) && va % PGSIZE == 0 && PgUp(va + sz) <= n
    requires |bytes| <= sz
    modifies k
    ensures k.Valid() && k.free == old(k.free) && OnlyUser(old(k.Now()), k.Now(), r)
    ensures Written(old(k.Now()), k.Now(), r, va, bytes, n) && (ok <==> |bytes| == sz)
  {
    hide ChainOk, TablesOk, EntryOf, V, Ppn, UserBit, PgUp, Written, OnlyUser, ByteIn, Space, UserPages, Reach;
    var i := 0;
    ghost var m := k.Now();
    TablesSized(m.page, m.role);
    OnlyUserSelf(m, r);
    WrittenNothing(m, r, va, n);
    SameSpace(m, m, r, n);
    assert bytes[..0] == [];
    ok := true;
    while i < sz && ok
      invariant 0 <= i && i % PGSIZE == 0 && k.Valid() && k.free == old(k.free) && OnlyUser(m, k.Now(), r)
      invariant Written(m, k.Now(), r, va, bytes[..Lesser(i, |bytes|)], n)
      invariant ok <==> Lesser(i, sz) <= |bytes|
    {
      PageWithin(va, i, sz, n);
      SameSpace(m, k.Now(), r, n);
      var v := (va + i) / PGSIZE;
      var pa := Walkaddr(k, r, v);
      ghost var m1 := k.Now();
      OnPage(k, r, va + i, pa, n);
      Reachable(m1, r, va + i, n);
      assert pa != 0; // "loadseg: address should exist" cannot happen
      var want := if sz - i < PGSIZE then sz - i else PGSIZE;
      var got := Lesser(want, |bytes| - i);
      WritePage(k, r, v, pa, 0, bytes[i..i + got], n);
      assert v * PGSIZE == va + i && bytes[..i + got] == bytes[..i] + bytes[i..i + got];
      WrittenNext(m, m1, k.Now(), r, va, bytes[..i], bytes[i..i + got], n);
      OnlyUserTwice(m, m1, k.Now(), r);
      ok := got == want;
      i := i + PGSIZE;
    }
    assert bytes[..|bytes|] == bytes;
  }

  function Lesser(a: nat, b: nat): nat {
    if a < b then a else b
  }

  lemma SameSpace(m: Mem, m': Mem, r: nat, n: nat)
    requires OnlyUser(m, m', r) && Space(m, r, n) && UserPages(m, r, n)
    ensures Space(m', r, n) && UserPages(m', r, n) && IsRoot(m'.role, r)
  {
    hide EntryOf, V, UserBit;
  }

  lemma Reachable(m: Mem, r: nat, a: nat, n: nat)
    requires Space(m, r, n) && UserPages(m, r, n) && a / PGSIZE < n
    ensures Reach(m, r, a)
  {
    hide EntryOf, V, UserBit;
  }

  lemma PageWithin(va: nat, i: nat, sz: nat, n: nat)
    requires i < sz && PgUp(va + sz) <= n
    ensures (va + i) / PGSIZE < n
  {
  }

  /** Memory when exec began, and the two pages that every space has above user memory. */
  datatype Start = Start(m: Mem, trampoline: nat, trapframe: nat)

  /** What exec has built so far. */
  ghost predicate Building(g: Start, m: Mem, r: nat, n: nat) {
    Built(g, m, r, n) && UserPages(m, r, n)
  }

  ghost predicate Built(g: Start, m: Mem, r: nat, n: nat) {
    OnlyNew(g.m, m, r) && ProcSpace(m, r, n) && Tops(m, r, g.trampoline, g.trapframe)
  }

  lemma StartBuilding(g: Start, m: Mem, r: nat)
    requires Fresh(m, r, Pte(g.trampoline, PTE_R + PTE_X), Pte(g.trapframe, PTE_R + PTE_W)) && OnlyNew(g.m, m, r)
    ensures Building(g, m, r, PgUp(0)) && |m.role| == |g.m.role|
  {
    hide EntryOf, V, Pte;
    PteFields(g.trampoline, PTE_R + PTE_X);
    PteFields(g.trapframe, PTE_R + PTE_W);
    FreshProc(m, r, Pte(g.trampoline, PTE_R + PTE_X), Pte(g.trapframe, PTE_R + PTE_W));
  }

  lemma SegUser(m: Mem, r: nat, n: nat, lo: nat, hi: nat, x: bool, w: bool)
    requires UserPages(m, r, lo) && n == hi && forall v :: lo <= v < hi ==> SegPage(m, r, v, x, w)
    ensures UserPages(m, r, n)
  {
    hide EntryOf, V, Ppn, ReadBit, WriteBit, ExecBit, UserBit;
    forall v | 0 <= v < n ensures UserBit(EntryOf(m.page, r, v)) {
      if v >= lo { assert SegPage(m, r, v, x, w); }
    }
  }

  /** uvmalloc in a space that exec is building. */
  lemma BuildingGrown(g: Start, m: Mem, m': Mem, r: nat, lo: nat, hi: nat, x: bool, w: bool)
    requires TablesOk(g.m.page, g.m.role) && Building(g, m, r, lo) && Frame(m, m', r, lo, hi) && lo <= hi
    requires Space(m', r, hi) && forall v :: lo <= v < hi ==> SegPage(m', r, v, x, w)
    ensures Building(g, m', r, hi)
  {
    hide TablesOk, EntryOf, V, OnlyNew, UserBit, SegPage;
    OnlyNewFrame(g.m, m, m', r, lo, hi);
    ProcSpaceKept(m, m', r, lo, hi, r, lo, hi);
    TopsKept(m, m', r, lo, hi, g.trampoline, g.trapframe);
    forall v | 0 <= v < lo ensures UserBit(EntryOf(m'.page, r, v)) {
      FrameEntry(m, m', r, lo, hi, v);
    }
    SegUser(m', r, hi, lo, hi, x, w);
  }

  lemma BuildingKept(g: Start, m: Mem, m': Mem, r: nat, n: nat)
    requires TablesOk(g.m.page, g.m.role) && Building(g, m, r, n) && Frame(m, m', r, 0, 0) && Space(m', r, n)
    ensures Building(g, m', r, n)
  {
    hide TablesOk, EntryOf, V, OnlyNew, UserBit;
    OnlyNewFrame(g.m, m, m', r, 0, 0);
    ProcSpaceKept(m, m', r, 0, 0, r, n, n);
    TopsKept(m, m', r, 0, 0, g.trampoline, g.trapframe);
    forall w | 0 <= w < n ensures UserBit(EntryOf(m'.page, r, w)) {
      FrameEntry(m, m', r, 0, 0, w);
    }
  }

  /** uvmalloc for a segment or the stack. */
  method Extend(k: Kernel, r: nat, sz: nat, newsz: nat, x: bool, w: bool, ghost g: Start, ghost f0: nat)
    returns (ok: bool)
    requires k.Valid() && TablesOk(g.m.page, g.m.role) && Building(g, k.Now(), r, PgUp(sz)) && |k.role| <= TRAPFRAME
    requires Tally(f0, |k.free|, Tables(k.role, r), PgUp(sz)) && sz <= newsz && newsz > 0
    modifies k
    ensures k.Valid() && |k.role| == |old(k.role)| && IsRoot(old(k.role), r)
    ensures ok <==> f0 >= Image(PgUp(newsz))
    ensures ok ==> Building(g, k.Now(), r, PgUp(newsz)) && Tally(f0, |k.free|, Tables(k.role, r), PgUp(newsz))
    ensures ok ==> PgUp(sz) <= PgUp(newsz) && Frame(old(k.Now()), k.Now(), r, PgUp(sz), PgUp(newsz))
    ensures ok ==> forall v :: PgUp(sz) <= v < PgUp(newsz) ==> SegPage(k.Now(), r, v, x, w) && Zero(k.Now(), r, v)
    ensures !ok ==> Building(g, k.Now(), r, PgUp(sz))
  {
    hide ChainOk, TablesOk, Frame, EntryOf, V, OnlyNew, UserPages, Zeroed, Tables, Ways, Cost, Tally, Image, SegPage,
      PgUp, Spent, Ppn, Tops, Zero;
    ghost var m, t := k.Now(), Tables(k.role, r);
    PgUpGrows(sz, newsz);
    TallyGrow(f0, |k.free|, t, PgUp(sz), PgUp(newsz));
    var perm: nat := (if x then PTE_X else 0) + (if w then PTE_W else 0);
    var sz1 := Uvmalloc(k, r, sz, newsz, perm);
    ok := sz1 != 0;
    if ok {
      ZeroedPages(k.Now(), r, PgUp(sz), PgUp(newsz), x, w);
      BuildingGrown(g, m, k.Now(), r, PgUp(sz), PgUp(newsz), x, w);
    } else {
      BuildingKept(g, m, k.Now(), r, PgUp(sz));
    }
  }

  lemma LoadedNext(m: Mem, r: nat, prog: seq<Segment>, i: nat)
    requires i < |prog| && Loaded(m, r, prog, i)
    requires forall v :: PgUp(SizeAt(prog, i)) <= v < PgUp(SizeAt(prog, i + 1)) ==>
               SegPage(m, r, v, prog[i].x, prog[i].w)
    ensures Loaded(m, r, prog, i + 1)
  {
    hide SegPage, PgUp;
  }

  /** One turn of the loop over the program headers; false is `goto bad`. */
  method ExecSegment(k: Kernel, r: nat, sz: nat, prog: seq<Segment>, i: nat, ghost g: Start, ghost f0: nat)
    returns (ok: bool, sz': nat)
    requires k.Valid() && TablesOk(g.m.page, g.m.role) && Building(g, k.Now(), r, PgUp(sz)) && |k.role| <= TRAPFRAME
    requires i < |prog| && Header(prog[i]) && sz == SizeAt(prog, i) && AllAccepted(prog, i)
    requires Loaded(k.Now(), r, prog, i) && Filled(k.Now(), r, prog, i, PgUp(sz))
    requires Tally(f0, |k.free|, Tables(k.role, r), PgUp(sz))
    modifies k
    ensures k.Valid() && |k.role| == |old(k.role)| && Building(g, k.Now(), r, PgUp(sz'))
    ensures ok <==> Accepted(prog, i) && f0 >= Image(PgUp(SizeAt(prog, i + 1)))
    ensures ok ==> sz' == SizeAt(prog, i + 1) && Loaded(k.Now(), r, prog, i + 1)
    ensures ok ==> Filled(k.Now(), r, prog, i + 1, PgUp(sz'))
    ensures ok ==> Tally(f0, |k.free|, Tables(k.role, r), PgUp(sz'))
  {
    hide ChainOk, TablesOk, Frame, EntryOf, V, OnlyNew, UserPages, Tables, Tally, Image, SegPage, PgUp, Loaded, Filled,
      Written, OnlyUser, Building, AllAccepted;
    var ph := prog[i];
    sz' := sz;
    TallyRoom(f0, |k.free|, Tables(k.role, r), PgUp(sz));
    if !ph.readable {
      return false, sz;
    }
    if !ph.load {
      LoadedNext(k.Now(), r, prog, i);
      FilledNext(k.Now(), k.Now(), r, prog, i, PgUp(sz));
      return true, sz;
    }
    if ph.memsz < ph.filesz || (ph.vaddr + ph.memsz) % U64 < ph.vaddr || ph.vaddr % PGSIZE != 0 {
      Wraps(ph.vaddr, ph.memsz);
      return false, sz;
    }
    Wraps(ph.vaddr, ph.memsz);
    ok, sz' := Grow(k, r, sz, prog, i, g, f0);
    if ok {
      ghost var m := k.Now();
      PgUpGrows(ph.vaddr + ph.filesz, sz');
      BuildingSpace(g, m, r, PgUp(sz'));
      ok := Loadseg(k, r, ph.vaddr, ph.filesz, ph.bytes, PgUp(sz'));
      BuildingLoaded(g, m, k.Now(), r, PgUp(sz'));
      LoadedSame(m, k.Now(), r, prog, i + 1);
      FilledNext(m, k.Now(), r, prog, i, PgUp(sz'));
    }
  }

  lemma BuildingSpace(g: Start, m: Mem, r: nat, n: nat)
    requires Building(g, m, r, n)
    ensures Space(m, r, n) && UserPages(m, r, n) && IsRoot(m.role, r) && n <= TRAPFRAME
  {
  }

  lemma BuildingLoaded(g: Start, m: Mem, m': Mem, r: nat, n: nat)
    requires TablesOk(g.m.page, g.m.role) && TablesOk(m.page, m.role) && Building(g, m, r, n) && OnlyUser(m, m', r)
    ensures Building(g, m', r, n) && m'.role == m.role
  {
    hide TablesOk, EntryOf, V, OnlyNew, UserBit, Built;
    BuildingSpace(g, m, r, n);
    SameSpace(m, m', r, n);
    BuiltSame(g, m, m', r, n);
  }

  /** Writing user memory of the new space. */
  lemma BuiltSame(g: Start, m: Mem, m': Mem, r: nat, n: nat)
    requires TablesOk(g.m.page, g.m.role) && TablesOk(m.page, m.role) && Built(g, m, r, n) && OnlyUser(m, m', r)
    ensures Built(g, m', r, n) && m'.role == m.role
  {
    hide TablesOk, EntryOf, V, OnlyNew, Pte;
    OnlyUserFrame(m, m', r);
    OnlyNewFrame(g.m, m, m', r, 0, TRAPFRAME);
    SameProc(m, m', r, n);
  }

  lemma Wraps(v: nat, n: nat)
    requires v < U64 && n < U64
    ensures (v + n) % U64 < v <==> v + n >= U64
  {
  }

  lemma TallyRoom(f0: nat, f: nat, t: set<Slot>, n: nat)
    requires Tally(f0, f, t, n)
    ensures f0 >= Image(n)
  {
  }

  /** The uvmalloc of a load segment: a size of 0 counts as failure. */
  method Grow(k: Kernel, r: nat, sz: nat, prog: seq<Segment>, i: nat, ghost g: Start, ghost f0: nat)
    returns (ok: bool, sz': nat)
    requires k.Valid() && TablesOk(g.m.page, g.m.role) && Building(g, k.Now(), r, PgUp(sz)) && |k.role| <= TRAPFRAME
    requires i < |prog| && prog[i].load && sz == SizeAt(prog, i) && Loaded(k.Now(), r, prog, i)
    requires AllAccepted(prog, i) && Filled(k.Now(), r, prog, i, PgUp(sz))
    requires Tally(f0, |k.free|, Tables(k.role, r), PgUp(sz))
    modifies k
    ensures k.Valid() && |k.role| == |old(k.role)| && Building(g, k.Now(), r, PgUp(sz'))
    ensures ok <==> SizeAt(prog, i + 1) > 0 && f0 >= Image(PgUp(SizeAt(prog, i + 1)))
    ensures ok ==> sz' == SizeAt(prog, i + 1) && Loaded(k.Now(), r, prog, i + 1)
    ensures ok ==> Filled(k.Now(), r, prog, i, PgUp(sz'))
    ensures ok ==> Tally(f0, |k.free|, Tables(k.role, r), PgUp(sz'))
  {
    hide ChainOk, TablesOk, Frame, EntryOf, V, OnlyNew, UserPages, Tables, Tally, Image, SegPage, PgUp, Loaded, Filled,
      AllAccepted, Zero;
    var end := prog[i].vaddr + prog[i].memsz;
    sz' := sz;
    TallyRoom(f0, |k.free|, Tables(k.role, r), PgUp(sz));
    if end <= sz {
      LoadedNext(k.Now(), r, prog, i);
      ok := sz != 0;
      return;
    }
    ghost var m := k.Now();
    ok := Extend(k, r, sz, end, prog[i].x, prog[i].w, g, f0);
    if ok {
      LoadedKept(m, k.Now(), r, PgUp(sz), PgUp(end), prog, i);
      FilledKept(m, k.Now(), r, PgUp(sz), PgUp(end), prog, i, PgUp(sz));
      FilledGrown(k.Now(), r, prog, i, PgUp(sz), PgUp(end));
      LoadedNext(k.Now(), r, prog, i);
      sz' := end;
    }
  }

  /** uvmclear: the page stays mapped, out of the user's reach. */
  method Uvmclear(k: Kernel, r: nat, v: nat)
    requires k.Valid() && IsRoot(k.role, r) && v < TRAPFRAME && V(EntryOf(k.ram.page, r, v))
    modifies k
    ensures k.Valid() && Frame(old(k.Now()), k.Now(), r, v, v + 1) && k.role == old(k.role)
    ensures EntryOf(k.ram.page, r, v) == Cleared(EntryOf(old(k.ram).page, r, v))
  {
    hide ChainOk, TablesOk, Frame, EntryOf, V, Ppn, Cleared, IsLeaf, Word, Px0;
    ChainFacts(k.ram.page, k.role, k.first, k.freelist, k.free);
    ZeroNotV();
    OwnPage(k.Now(), r, v);
    var q := k.Walk(r, v, false);
    var pte := Word(k.ram.page, q, Px0(v));
    ClearedFields(pte);
    ClearFrames(k.Now(), q, r, v, Cleared(pte));
    ghost var m := k.Now();
    k.ram := Ram(Put(k.ram.page, q, Px0(v), Cleared(pte)));
    TablesSized(k.ram.page, k.role);
    ChainFrame(m.page, m.role, k.ram.page, k.role, k.first, k.freelist, k.free);
  }

  /** pte & ~PTE_U */
  function Cleared(e: nat): nat {
    if UserBit(e) then e - PTE_U else e
  }

  lemma ClearedFields(e: nat)
    requires IsLeaf(e)
    ensures IsLeaf(Cleared(e)) && Ppn(Cleared(e)) == Ppn(e) && !UserBit(Cleared(e)) && V(Cleared(e))
  {
    hide Ppn, UserBit, V;
    var q, f := e / 32, e % 32;
    LowBits(q, f);
    if UserBit(e) {
      LowBits(q, f - 16);
      assert e - 16 == 32 * q + (f - 16) && (f - 16) % 16 == f % 16 && (f - 16) % 2 == f % 2;
    }
  }

  lemma LowBits(q: nat, f: nat)
    requires f < 32
    ensures V(32 * q + f) <==> f % 2 == 1
    ensures UserBit(32 * q + f) <==> f >= 16
    ensures (32 * q + f) / 2 % 8 == f % 16 / 2
    ensures Ppn(32 * q + f) == q / 32
  {
    Digit16(q, f);
    assert (32 * q + f) / 2 == 8 * (2 * q) + f / 2;
    Mod8(2 * q, f / 2);
  }

  lemma ClearFrames(m: Mem, q: nat, r: nat, v: nat, e: nat)
    requires TablesOk(m.page, m.role) && AtLevel(m.role, q, r, v, 0) && v < TRAPFRAME && V(Word(m.page, q, Px0(v)))
    requires IsLeaf(e) && Ppn(e) == Ppn(Word(m.page, q, Px0(v)))
    ensures q < |m.page| && |m.page[q]| == 512 && Px0(v) < 512
    ensures var m' := Mem(Put(m.page, q, Px0(v), e), m.role);
            TablesOk(m'.page, m'.role) && EntryOf(m'.page, r, v) == e && |m'.page| == |m.page|
                && Frame(m, m', r, v, v + 1)
  {
    hide V, Ppn, Pte, Leaf, TablesOk, SameTables, Px0, Px1, Px2, Vpn, User, IsLeaf, EntryOf;
    PxRange(v);
    TablesSized(m.page, m.role);
    FlagsKeep(m.page, m.role, q, Px0(v), e);
    EntryEffect(m, q, r, v, e, m.role);
  }

  lemma GuardKept(g: Start, m: Mem, m': Mem, r: nat, n: nat)
    requires TablesOk(g.m.page, g.m.role) && TablesOk(m.page, m.role) && Built(g, m, r, n + 2)
    requires Frame(m, m', r, n, n + 1) && SegPage(m, r, n + 1, false, true)
    requires EntryOf(m'.page, r, n) == Cleared(EntryOf(m.page, r, n))
    ensures Built(g, m', r, n + 2) && Stack(m', r, n + 2)
  {
    hide TablesOk, EntryOf, V, OnlyNew, UserBit, Cleared, IsLeaf, Ppn, Vpn, SegPage;
    OwnPage(m, r, n);
    ClearedFields(EntryOf(m.page, r, n));
    OnlyNewFrame(g.m, m, m', r, n, n + 1);
    assert Space(m', r, n + 2) by {
      forall w: nat | w != n ensures EntryOf(m'.page, r, w) == EntryOf(m.page, r, w) {
        FrameEntry(m, m', r, n, n + 1, w);
      }
    }
    ProcSpaceKept(m, m', r, n, n + 1, r, n + 2, n + 2);
    TopsKept(m, m', r, n, n + 1, g.trampoline, g.trapframe);
    SegPageKept(m, m', r, n, n + 1, n + 1, false, true);
  }

  /** The two stack pages of exec. */
  method ExecStack(k: Kernel, r: nat, sz: nat, prog: seq<Segment>, ghost g: Start, ghost f0: nat)
    returns (ok: bool, sz': nat)
    requires k.Valid() && TablesOk(g.m.page, g.m.role) && Building(g, k.Now(), r, PgUp(sz)) && |k.role| <= TRAPFRAME
    requires sz == SizeAt(prog, |prog|) && Loaded(k.Now(), r, prog, |prog|)
    requires Filled(k.Now(), r, prog, |prog|, PgUp(sz))
    requires Tally(f0, |k.free|, Tables(k.role, r), PgUp(sz))
    modifies k
    ensures k.Valid() && Built(g, k.Now(), r, PgUp(sz')) && (ok <==> f0 >= Image(PgUp(sz) + 2))
    ensures ok ==> sz' == (PgUp(sz) + 2) * PGSIZE && PgUp(sz') == PgUp(sz) + 2
    ensures ok ==> Stack(k.Now(), r, PgUp(sz')) && Loaded(k.Now(), r, prog, |prog|)
    ensures ok ==> Filled(k.Now(), r, prog, |prog|, PgUp(sz))
  {
    hide ChainOk, TablesOk, Frame, EntryOf, V, OnlyNew, UserPages, Tables, Tally, Image, SegPage, PgUp, UserBit, Ppn,
      IsLeaf, Cleared, Loaded, Stack, Tops, Filled, Zero;
    var n := PgUp(sz);
    sz' := n * PGSIZE;
    Pages(n);
    Pages(n + 2);
    ghost var m := k.Now();
    ok := Extend(k, r, sz', sz' + 2 * PGSIZE, false, true, g, f0);
    if ok {
      sz' := sz' + 2 * PGSIZE;
      ghost var m1 := k.Now();
      LoadedKept(m, m1, r, n, n + 2, prog, |prog|);
      FilledKept(m, m1, r, n, n + 2, prog, |prog|, n);
      Uvmclear(k, r, n);
      LoadedKept(m1, k.Now(), r, n, n + 1, prog, |prog|);
      FewerPages(m1, r, n, n + 2);
      FilledKept(m1, k.Now(), r, n, n + 1, prog, |prog|, n);
      GuardKept(g, m1, k.Now(), r, n);
    }
  }

  lemma Pages(n: nat)
    ensures PgUp(n * PGSIZE) == n
  {
  }

  /** The old space has gone and the new one has come; nothing else has changed. */
  ghost predicate Replaced(m: Mem, m': Mem, r: nat, nr: nat) {
    exists m1 :: OnlyNew(m, m1, nr) && Dropped(m1, m', r)
  }

  ghost predicate AllAccepted(prog: seq<Segment>, n: nat)
    requires n <= |prog|
  {
    forall i :: 0 <= i < n ==> Accepted(prog, i)
  }

  /** exec on memory: the image the program headers ask for, byte by byte, and the arguments on its stack;
      or an error, exactly if a header is refused, the arguments do not fit or memory runs out. */
  method Exec(k: Kernel, r: nat, sz: nat, trampoline: nat, trapframe: nat, prog: seq<Segment>, args: seq<Bytes>)
    returns (ok: bool, nr: nat, nsz: nat, sp: int)
    requires k.Valid() && ProcSpace(k.Now(), r, PgUp(sz)) && |k.role| <= TRAPFRAME
    requires (forall i :: 0 <= i < |prog| ==> Header(prog[i])) && |args| != MAXARG
    modifies k
    ensures k.Valid()
    ensures ok <==> AllAccepted(prog, |prog|) && |old(k.free)| >= Image(PgUp(SizeAt(prog, |prog|)) + 2)
                    && ArgsFit(args, (PgUp(SizeAt(prog, |prog|)) + 2) * PGSIZE)
    ensures !ok ==> nr == r && nsz == sz && Intact(old(k.Now()), k.Now())
    ensures ok ==> nsz == (PgUp(SizeAt(prog, |prog|)) + 2) * PGSIZE && ProcSpace(k.Now(), nr, PgUp(nsz))
    ensures ok ==> Loaded(k.Now(), nr, prog, |prog|) && Stack(k.Now(), nr, PgUp(nsz))
    ensures ok ==> Filled(k.Now(), nr, prog, |prog|, PgUp(SizeAt(prog, |prog|)))
    ensures ok ==> sp == Argv(args, nsz) && Started(k.Now(), nr, args, sp, nsz)
    ensures ok ==> Tops(k.Now(), nr, trampoline, trapframe)
    ensures ok ==> nr != r && Replaced(old(k.Now()), k.Now(), r, nr)
  {
    hide ChainOk, TablesOk, EntryOf, V, OnlyNew, Intact, Dropped, Building, Fresh, Pte, PgUp, Stack, UserPages, Frame,
      Tables, Tally, Image, Loaded, Accepted, TopTables, SizeAt, Filled, Started, ArgsFit, Argv, OnlyUser, Tops;
    ghost var m0, f0 := k.Now(), |k.free|;
    ghost var g := Start(m0, trampoline, trapframe);
    ok, nr, nsz, sp := false, r, sz, 0;
    Enough(prog);
    var t := ProcPagetable(k, trampoline, trapframe);
    if t == 0 {
      return;
    }
    StartBuilding(g, k.Now(), t);
    Begin(k.Now(), t, prog, f0);
    var good, sz1 := Segments(k, t, prog, g, f0);
    assert Built(g, k.Now(), t, PgUp(sz1)) by { BuiltIs(g, k.Now(), t, PgUp(sz1)); }
    if good {
      good, sz1 := ExecStack(k, t, sz1, prog, g, f0);
    }
    if good {
      good, sp := Arguments(k, t, sz1, prog, args, g);
    }
    ghost var m := k.Now();
    if !good {
      ProcFreepagetable(k, t, sz1);
      BuiltAndDropped(m0, m, k.Now(), t);
      return;
    }
    NewElsewhere(m0, m, t, r, PgUp(sz));
    ghost var n := PgUp(sz1);
    ProcFreepagetable(k, r, sz);
    DroppedElsewhere(m, k.Now(), r, t, n, prog);
    DroppedBytes(m, k.Now(), r, t, n, prog, PgUp(SizeAt(prog, |prog|)));
    DroppedArgs(m, k.Now(), r, t, n, args, sp);
    DroppedTops(m, k.Now(), r, t, trampoline, trapframe);
    ok, nr, nsz := true, t, sz1;
  }

  /** Pushing the arguments on the stack of a new image. */
  method Arguments(k: Kernel, t: nat, sz: nat, prog: seq<Segment>, args: seq<Bytes>, ghost g: Start)
    returns (good: bool, sp: int)
    requires k.Valid() && TablesOk(g.m.page, g.m.role) && Built(g, k.Now(), t, PgUp(sz)) && |args| != MAXARG
    requires PgUp(sz) == PgUp(SizeAt(prog, |prog|)) + 2 && sz == PgUp(sz) * PGSIZE && Stack(k.Now(), t, PgUp(sz))
    requires Loaded(k.Now(), t, prog, |prog|) && Filled(k.Now(), t, prog, |prog|, PgUp(SizeAt(prog, |prog|)))
    modifies k
    ensures k.Valid() && k.free == old(k.free) && k.role == old(k.role) && Built(g, k.Now(), t, PgUp(sz))
    ensures good <==> ArgsFit(args, sz)
    ensures good ==> sp == Argv(args, sz) && Started(k.Now(), t, args, sp, sz) && Stack(k.Now(), t, PgUp(sz))
    ensures good ==> Loaded(k.Now(), t, prog, |prog|)
    ensures good ==> Filled(k.Now(), t, prog, |prog|, PgUp(SizeAt(prog, |prog|)))
  {
    hide ChainOk, TablesOk, EntryOf, V, OnlyNew, PgUp, Loaded, SizeAt, Filled, ArgsFit, Argv, OnlyUser, Tops, SegPage,
      UserBit, Started, KeptBelow, ProcSpace;
    ghost var m := k.Now();
    StackReach(m, t, PgUp(sz));
    good, sp := PushArgs(k, t, args, sz / PGSIZE, g.trampoline, g.trapframe);
    BuiltSame(g, m, k.Now(), t, PgUp(sz));
    StackSame(m, k.Now(), t, PgUp(sz));
    LoadedSame(m, k.Now(), t, prog, |prog|);
    FilledBelow(m, k.Now(), t, prog, PgUp(SizeAt(prog, |prog|)));
  }

  lemma StackReach(m: Mem, r: nat, n: nat)
    requires Stack(m, r, n) && ProcSpace(m, r, n)
    ensures Reach(m, r, (n - 1) * PGSIZE) && n * PGSIZE / PGSIZE == n && IsRoot(m.role, r)
  {
    hide EntryOf, V, UserBit, ReadBit, WriteBit, ExecBit;
  }

  lemma StackSame(m: Mem, m': Mem, r: nat, n: nat)
    requires Stack(m, r, n) && OnlyUser(m, m', r) && IsRoot(m.role, r)
    ensures Stack(m', r, n)
  {
    hide EntryOf, V, UserBit, ReadBit, WriteBit, ExecBit;
  }

  lemma FilledBelow(m: Mem, m': Mem, r: nat, prog: seq<Segment>, n: nat)
    requires Filled(m, r, prog, |prog|, n) && KeptBelow(m, m', r, (n + 1) * PGSIZE)
    ensures Filled(m', r, prog, |prog|, n)
  {
    hide ByteIn, ProgByte;
  }

  /** The loop over the program headers. */
  method Segments(k: Kernel, t: nat, prog: seq<Segment>, ghost g: Start, ghost f0: nat) returns (good: bool, sz1: nat)
    requires k.Valid() && TablesOk(g.m.page, g.m.role) && |k.role| <= TRAPFRAME
    requires Building(g, k.Now(), t, PgUp(0)) && Tally(f0, |k.free|, Tables(k.role, t), PgUp(0))
    requires forall i :: 0 <= i < |prog| ==> Header(prog[i])
    modifies k
    ensures k.Valid() && |k.role| == |old(k.role)| && Building(g, k.Now(), t, PgUp(sz1))
    ensures good <==> AllAccepted(prog, |prog|) && f0 >= Image(PgUp(SizeAt(prog, |prog|)))
    ensures good ==> sz1 == SizeAt(prog, |prog|) && Loaded(k.Now(), t, prog, |prog|)
    ensures good ==> Filled(k.Now(), t, prog, |prog|, PgUp(sz1))
    ensures good ==> Tally(f0, |k.free|, Tables(k.role, t), PgUp(sz1))
  {
    hide ChainOk, TablesOk, Building, PgUp, Tables, Tally, Image, Loaded, Accepted, SizeAt, Filled;
    Nothing(k.Now(), t, prog);
    TallyRoom(f0, |k.free|, Tables(k.role, t), PgUp(0));
    var i := 0;
    good, sz1 := true, 0;
    while i < |prog|
      invariant 0 <= i <= |prog| && good && k.Valid() && |k.role| == |old(k.role)|
      invariant sz1 == SizeAt(prog, i) && Building(g, k.Now(), t, PgUp(sz1)) && Loaded(k.Now(), t, prog, i)
      invariant Filled(k.Now(), t, prog, i, PgUp(sz1))
      invariant Tally(f0, |k.free|, Tables(k.role, t), PgUp(sz1)) && AllAccepted(prog, i)
    {
      good, sz1 := ExecSegment(k, t, sz1, prog, i, g, f0);
      if !good {
        NotEnough(prog, i);
        return;
      }
      i := i + 1;
    }
    TallyRoom(f0, |k.free|, Tables(k.role, t), PgUp(sz1));
  }

  lemma Nothing(m: Mem, r: nat, prog: seq<Segment>)
    ensures SizeAt(prog, 0) == 0 && Loaded(m, r, prog, 0) && Filled(m, r, prog, 0, PgUp(0))
  {
  }

  /** What a part of the image needs, all of it needs. */
  lemma NotEnough(prog: seq<Segment>, i: nat)
    requires i < |prog|
    ensures Image(PgUp(SizeAt(prog, i + 1))) <= Image(PgUp(SizeAt(prog, |prog|)))
  {
    hide PgUp, Image, SizeAt;
    SizeGrows(prog, i + 1, |prog|);
    PgUpGrows(SizeAt(prog, i + 1), SizeAt(prog, |prog|));
    ImageMonotone(PgUp(SizeAt(prog, i + 1)), PgUp(SizeAt(prog, |prog|)));
  }

  lemma Enough(prog: seq<Segment>)
    ensures var n := PgUp(SizeAt(prog, |prog|)); 3 <= Image(n) <= Image(n + 2)
  {
    hide PgUp;
    ImageMonotone(PgUp(SizeAt(prog, |prog|)), PgUp(SizeAt(prog, |prog|)) + 2);
  }

  lemma Begin(m: Mem, r: nat, prog: seq<Segment>, f0: nat)
    requires f0 >= 3
    ensures Tally(f0, f0 - 3, TopTables(), PgUp(0))
  {
    TallyStart(f0);
  }

  lemma BuiltIs(g: Start, m: Mem, r: nat, n: nat)
    requires Building(g, m, r, n)
    ensures Built(g, m, r, n)
  {
  }

  lemma FewerPages(m: Mem, r: nat, n: nat, n': nat)
    requires ProcSpace(m, r, n') && n <= n'
    ensures Mapped(m, r, n)
  {
  }

  lemma DroppedBytes(m: Mem, m': Mem, r: nat, x: nat, n: nat, prog: seq<Segment>, n1: nat)
    requires TablesOk(m.page, m.role) && Dropped(m, m', r) && x != r && ProcSpace(m, x, n) && n1 <= n
    requires Filled(m, x, prog, |prog|, n1)
    ensures Filled(m', x, prog, |prog|, n1)
  {
    hide EntryOf, V, TablesOk, Dropped, ProcSpace, ByteIn, ProgByte;
    forall a | 0 <= a < n1 * PGSIZE ensures ByteIn(m', x, a) == ByteIn(m, x, a) {
      DroppedByte(m, m', r, x, n, a);
    }
  }

  lemma DroppedArgs(m: Mem, m': Mem, r: nat, x: nat, n: nat, args: seq<Bytes>, sp: int)
    requires TablesOk(m.page, m.role) && Dropped(m, m', r) && x != r && ProcSpace(m, x, n)
    requires Started(m, x, args, sp, n * PGSIZE)
    ensures Started(m', x, args, sp, n * PGSIZE)
  {
    hide EntryOf, V, TablesOk, Dropped, ProcSpace, ByteIn, WordIn;
    forall a | 0 <= a < n * PGSIZE ensures ByteIn(m', x, a) == ByteIn(m, x, a) {
      DroppedByte(m, m', r, x, n, a);
    }
    forall j | 0 <= j <= |args| ensures WordIn(m', x, sp + 8 * j) == WordIn(m, x, sp + 8 * j) {
      SameWord(m, m', x, sp + 8 * j);
    }
    forall j | 0 <= j < |args| ensures Leads(m', x, WordIn(m', x, sp + 8 * j), args[j], n * PGSIZE) {
      assert Leads(m, x, WordIn(m, x, sp + 8 * j), args[j], n * PGSIZE);
    }
  }

  lemma SameWord(m: Mem, m': Mem, r: nat, a: nat)
    requires forall k :: a <= k < a + 8 ==> ByteIn(m', r, k) == ByteIn(m, r, k)
    ensures WordIn(m', r, a) == WordIn(m, r, a)
  {
    hide ByteIn, Pack;
    var s, s' := seq<Octet>(8, k requires 0 <= k < 8 => ByteIn(m, r, a + k)),
        seq<Octet>(8, k requires 0 <= k < 8 => ByteIn(m', r, a + k));
    assert s == s';
  }

  lemma DroppedByte(m: Mem, m': Mem, r: nat, x: nat, n: nat, a: nat)
    requires TablesOk(m.page, m.role) && Dropped(m, m', r) && x != r && ProcSpace(m, x, n) && a < n * PGSIZE
    ensures ByteIn(m', x, a) == ByteIn(m, x, a)
  {
    hide EntryOf, V, TablesOk, Ppn, ByteAt;
    PageOfByte(0, a, n);
    OwnPage(m, x, a / PGSIZE);
  }

  lemma DroppedTops(m: Mem, m': Mem, r: nat, x: nat, trampoline: nat, trapframe: nat)
    requires Dropped(m, m', r) && x != r && IsRoot(m.role, x) && Tops(m, x, trampoline, trapframe)
    ensures Tops(m', x, trampoline, trapframe)
  {
    hide EntryOf, Pte;
  }

  lemma DroppedElsewhere(m: Mem, m': Mem, r: nat, x: nat, n: nat, prog: seq<Segment>)
    requires TablesOk(m.page, m.role) && Dropped(m, m', r) && x != r && ProcSpace(m, x, n) && Stack(m, x, n)
    requires Loaded(m, x, prog, |prog|) && PgUp(SizeAt(prog, |prog|)) <= n
    ensures ProcSpace(m', x, n) && Stack(m', x, n) && Loaded(m', x, prog, |prog|)
  {
    hide EntryOf, V, TablesOk, Ppn, ReadBit, WriteBit, ExecBit, UserBit, SizeAt, PgUp;
    forall v, xx, w | 0 <= v < n && SegPage(m, x, v, xx, w) ensures SegPage(m', x, v, xx, w) {
      OwnPage(m, x, v);
    }
    forall j, v | 0 <= j < |prog| && PgUp(SizeAt(prog, j)) <= v < PgUp(SizeAt(prog, j + 1))
      ensures SegPage(m', x, v, prog[j].x, prog[j].w)
    {
      SizeGrows(prog, j + 1, |prog|);
      PgUpGrows(SizeAt(prog, j + 1), SizeAt(prog, |prog|));
      assert SegPage(m, x, v, prog[j].x, prog[j].w);
    }
  }
}
