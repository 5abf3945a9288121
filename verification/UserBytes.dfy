/**
 User memory as bytes: a page holds 512 little-endian words of 8 bytes, and a byte of a
 process is found through its page table. Writing into a user page changes those bytes
 and no others, because no two virtual pages share a physical one.
 */
module UserBytes {
  import opened PageTable
  import opened Frames
  import opened Vm
  import opened UserMemory

  type Octet = x: nat | x < 256

  function Pack(bs: seq<Octet>): nat {
    if bs == [] then 0 else bs[0] + 256 * Pack(bs[1..])
  }

  function Unpack(w: nat, k: nat): Octet {
    if k == 0 then w % 256 else Unpack(w / 256, k - 1)
  }

  lemma {:induction false} UnpackPack(bs: seq<Octet>, k: nat)
    requires k < |bs|
    ensures Unpack(Pack(bs), k) == bs[k]
    decreases k
  {
    if k > 0 {
      assert Pack(bs) / 256 == Pack(bs[1..]);
      UnpackPack(bs[1..], k - 1);
    }
  }

  lemma {:induction false} UnpackZero(k: nat)
    ensures Unpack(0, k) == 0
    decreases k
  {
    if k > 0 { UnpackZero(k - 1); }
  }

  /** Byte a of a page. */
  function ByteAt(c: seq<nat>, a: nat): Octet
    requires |c| == 512 && a < PGSIZE
  {
    Unpack(c[a / 8], a % 8)
  }

  function OverlayByte(c: seq<nat>, off: nat, bs: seq<Octet>, a: nat): Octet
    requires |c| == 512 && a < PGSIZE
  {
    if off <= a < off + |bs| then bs[a - off] else ByteAt(c, a)
  }

  function OverlayWord(c: seq<nat>, off: nat, bs: seq<Octet>, j: nat): seq<Octet>
    requires |c| == 512 && j < 512
  {
    seq<Octet>(8, k requires 0 <= k < 8 => OverlayByte(c, off, bs, 8 * j + k))
  }

  /** memmove: the page with bs written at byte off. */
  function Overlay(c: seq<nat>, off: nat, bs: seq<Octet>): (r: seq<nat>)
    requires |c| == 512
    ensures |r| == 512
  {
    seq(512, j requires 0 <= j < 512 => Pack(OverlayWord(c, off, bs, j)))
  }

  lemma OverlayAt(c: seq<nat>, off: nat, bs: seq<Octet>, a: nat)
    requires |c| == 512 && a < PGSIZE
    ensures ByteAt(Overlay(c, off, bs), a) == OverlayByte(c, off, bs, a)
  {
    UnpackPack(OverlayWord(c, off, bs, a / 8), a % 8);
    assert 8 * (a / 8) + a % 8 == a;
  }

  /** Byte a of the user memory of space r. */
  ghost function ByteIn(m: Mem, r: nat, a: nat): Octet {
    var p := Ppn(EntryOf(m.page, r, a / PGSIZE));
    if p < |m.page| && |m.page[p]| == 512 then ByteAt(m.page[p], a % PGSIZE) else 0
  }

  /** bs has been written at address va of r; the rest of its first n pages is as it was. */
  ghost predicate Written(m: Mem, m': Mem, r: nat, va: nat, bs: seq<Octet>, n: nat) {
    forall a :: 0 <= a < n * PGSIZE ==>
      ByteIn(m', r, a) == if va <= a < va + |bs| then bs[a - va] else ByteIn(m, r, a)
  }

  /** Every space maps what it mapped, and only user memory of r may hold something else. */
  ghost predicate OnlyUser(m: Mem, m': Mem, r: nat) {
    && m'.role == m.role && |m'.page| == |m.page| == |m.role|
    && (forall p :: 0 <= p < |m.role| && !(m.role[p].Data? && m.role[p].r == r) ==> m'.page[p] == m.page[p])
    && forall x: nat, w: nat :: IsRoot(m.role, x) ==> EntryOf(m'.page, x, w) == EntryOf(m.page, x, w)
  }

  lemma OnlyUserSelf(m: Mem, r: nat)
    requires |m.page| == |m.role|
    ensures OnlyUser(m, m, r)
  {
  }

  lemma OnlyUserTwice(m: Mem, m1: Mem, m2: Mem, r: nat)
    requires OnlyUser(m, m1, r) && OnlyUser(m1, m2, r)
    ensures OnlyUser(m, m2, r)
  {
    hide EntryOf;
  }

  lemma OnlyUserFrame(m: Mem, m': Mem, r: nat)
    requires TablesOk(m.page, m.role) && OnlyUser(m, m', r)
    ensures Frame(m, m', r, 0, TRAPFRAME)
  {
    hide EntryOf, Vpn, LeafOk, V;
    forall p | 0 <= p < |m.role| && m.role[p].Data? ensures VpnOf(m.role[p]) < TRAPFRAME {
      assert PageOk(m.page, m.role, p);
    }
  }

  /** No tree looks at user memory. */
  lemma DataKeeps(page: Pages, role: seq<Role>, p: nat, c: seq<nat>)
    requires TablesOk(page, role) && p < |role| && role[p].Data? && |c| == 512
    ensures p < |page| && TablesOk(page[p := c], role)
    ensures forall r, i, j, k :: IsRoot(role, r) ==> Leaf(page[p := c], r, i, j, k) == Leaf(page, r, i, j, k)
  {
    hide V, Ppn, Pte, IsLeaf, User, Child;
    TablesSized(page, role);
    var page' := page[p := c];
    assert SameTables(page, role, page', role);
    forall r, i, j, k | IsRoot(role, r) ensures Leaf(page', r, i, j, k) == Leaf(page, r, i, j, k) {
      LeafKept(page, role, page', role, r, i, j, k);
    }
    forall x | 0 <= x < |role| && role[x].Low? ensures LeavesOk(page', role, x, role[x].r, role[x].i, role[x].j) {
      assert PageOk(page, role, x);
      forall k: nat | V(Word(page', x, k))
        ensures LeafOk(role, Word(page', x, k), role[x].r, role[x].i, role[x].j, k)
      {
        assert LeafOk(role, Word(page, x, k), role[x].r, role[x].i, role[x].j, k);
      }
    }
    forall x | 0 <= x < |role| && role[x].Data? ensures PageOk(page', role, x) {
      assert PageOk(page, role, x);
    }
    TablesKept(page, role, page', role);
  }

  lemma DataOnly(m: Mem, r: nat, v: nat, c: seq<nat>)
    requires TablesOk(m.page, m.role) && IsRoot(m.role, r) && v < TRAPFRAME && V(EntryOf(m.page, r, v)) && |c| == 512
    ensures var p := Ppn(EntryOf(m.page, r, v));
            && p < |m.role| == |m.page| && m.role[p].Data?
            && var m' := Mem(m.page[p := c], m.role);
               TablesOk(m'.page, m'.role) && OnlyUser(m, m', r)
  {
    hide V, Ppn, Pte, Leaf, TablesOk, Px0, Px1, Px2, Vpn;
    TablesSized(m.page, m.role);
    OwnPage(m, r, v);
    DataKeeps(m.page, m.role, Ppn(EntryOf(m.page, r, v)), c);
  }

  /** Two pages of a space lie in two pages of memory. */
  lemma Apart(m: Mem, r: nat, v: nat, w: nat)
    requires TablesOk(m.page, m.role) && IsRoot(m.role, r) && v < TRAPFRAME && w < TRAPFRAME && v != w
    requires V(EntryOf(m.page, r, v)) && V(EntryOf(m.page, r, w))
    ensures Ppn(EntryOf(m.page, r, v)) != Ppn(EntryOf(m.page, r, w))
  {
    hide V, Ppn, EntryOf, TablesOk, Vpn;
    OwnPage(m, r, v);
    OwnPage(m, r, w);
  }

  lemma PageOfByte(v: nat, a: nat, n: nat)
    ensures v * PGSIZE <= a < v * PGSIZE + PGSIZE <==> a / PGSIZE == v
    ensures a / PGSIZE == v ==> a % PGSIZE == a - v * PGSIZE
    ensures a < n * PGSIZE ==> a / PGSIZE < n
  {
  }

  /** The effect on the bytes of writing into one page. */
  lemma PageWritten(m: Mem, r: nat, v: nat, off: nat, bs: seq<Octet>, n: nat)
    requires TablesOk(m.page, m.role) && Space(m, r, n) && v < n && off + |bs| <= PGSIZE
    ensures var p := Ppn(EntryOf(m.page, r, v));
            && p < |m.page| == |m.role| && |m.page[p]| == 512
            && Written(m, Mem(m.page[p := Overlay(m.page[p], off, bs)], m.role), r, v * PGSIZE + off, bs, n)
  {
    hide V, Ppn, EntryOf, TablesOk, Vpn, ByteAt, Overlay;
    var p := Ppn(EntryOf(m.page, r, v));
    TablesSized(m.page, m.role);
    OwnPage(m, r, v);
    var c, va := Overlay(m.page[p], off, bs), v * PGSIZE + off;
    DataOnly(m, r, v, c);
    var m' := Mem(m.page[p := c], m.role);
    forall a | 0 <= a < n * PGSIZE
      ensures ByteIn(m', r, a) == if va <= a < va + |bs| then bs[a - va] else ByteIn(m, r, a)
    {
      PageOfByte(v, a, n);
      if a / PGSIZE == v {
        OverlayAt(m.page[p], off, bs, a % PGSIZE);
      } else {
        Apart(m, r, v, a / PGSIZE);
      }
    }
  }

  lemma WrittenNext(m0: Mem, m1: Mem, m2: Mem, r: nat, va: nat, bs: seq<Octet>, cs: seq<Octet>, n: nat)
    requires Written(m0, m1, r, va, bs, n) && Written(m1, m2, r, va + |bs|, cs, n)
    ensures Written(m0, m2, r, va, bs + cs, n)
  {
    hide ByteIn;
  }

  lemma WrittenNothing(m: Mem, r: nat, va: nat, n: nat)
    ensures Written(m, m, r, va, [], n)
  {
    hide ByteIn;
  }

  /** Bytes outside the pages that an operation works on. */
  lemma BytesKept(m: Mem, m': Mem, r: nat, lo: nat, hi: nat, a: nat)
    requires TablesOk(m.page, m.role) && IsRoot(m.role, r) && Frame(m, m', r, lo, hi)
    requires a / PGSIZE < TRAPFRAME && !(lo <= a / PGSIZE < hi) && V(EntryOf(m.page, r, a / PGSIZE))
    ensures ByteIn(m', r, a) == ByteIn(m, r, a)
  {
    hide V, Ppn, EntryOf, TablesOk, Vpn, ByteAt;
    OwnPage(m, r, a / PGSIZE);
    FrameEntry(m, m', r, lo, hi, a / PGSIZE);
    assert Precious(m.role[Ppn(EntryOf(m.page, r, a / PGSIZE))], r, lo, hi);
  }

  lemma ZeroByte(m: Mem, r: nat, a: nat)
    requires Ppn(EntryOf(m.page, r, a / PGSIZE)) < |m.page|
    requires m.page[Ppn(EntryOf(m.page, r, a / PGSIZE))] == ZeroPage()
    ensures ByteIn(m, r, a) == 0
  {
    UnpackZero(a % PGSIZE % 8);
  }

  /** memmove into one page of user memory. */
  method WritePage(k: Kernel, r: nat, v: nat, p: nat, off: nat, bs: seq<Octet>, ghost n: nat)
    requires k.Valid() && Space(k.Now(), r, n) && v < n && p == Ppn(EntryOf(k.ram.page, r, v)) && off + |bs| <= PGSIZE
    modifies k`ram
    ensures k.Valid() && OnlyUser(old(k.Now()), k.Now(), r)
    ensures Written(old(k.Now()), k.Now(), r, v * PGSIZE + off, bs, n)
  {
    hide ChainOk, TablesOk, EntryOf, V, Ppn, Overlay, Written;
    ghost var m := k.Now();
    PageWritten(m, r, v, off, bs, n);
    DataOnly(m, r, v, Overlay(m.page[p], off, bs));
    k.ram := Ram(k.ram.page[p := Overlay(k.ram.page[p], off, bs)]);
    TablesSized(k.ram.page, k.role);
    ChainFacts(m.page, m.role, k.first, k.freelist, k.free);
    ChainFrame(m.page, m.role, k.ram.page, k.role, k.first, k.freelist, k.free);
  }
}
