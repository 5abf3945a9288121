/**
 malloc and free of user/umalloc.c. Addresses count header-sized units; 0 is the null
 pointer and `base` the static header, below everything sbrk returns.
 */
module Malloc {
  import opened FreeList

  /** The outcome of sbrk: failure, or memory `gap` units above what was there. */
  datatype Sbrk = Fails | Grows(gap: nat, junk: seq<Header>)

  /** New units behind the old ones, handed out as one block. */
  ghost function Extended(h: Heap, gap: seq<Header>, block: seq<Header>, nu: nat): Heap
    requires |block| == nu && nu >= 1
  {
    var hp := |h.mem| + |gap|;
    Heap((h.mem + gap + block)[hp := Header(block[0].ptr, nu)], h.list, h.live[hp := nu],
         h.mark + seq(|gap|, _ => Outside) + seq(nu, _ => InLive(hp)))
  }

  lemma ExtendedAt(h: Heap, gap: seq<Header>, block: seq<Header>, nu: nat, u: nat)
    requires |block| == nu && nu >= 1 && |h.mark| == |h.mem| && u < |h.mem| + |gap| + nu
    ensures var h', hp := Extended(h, gap, block, nu), |h.mem| + |gap|;
            && |h'.mem| == |h'.mark| == hp + nu
            && (u < |h.mem| ==> h'.mem[u] == h.mem[u] && h'.mark[u] == h.mark[u])
            && (|h.mem| <= u < hp ==> h'.mark[u] == Outside)
            && (hp <= u ==> h'.mark[u] == InLive(hp))
            && h'.mem[hp].size == nu
  {
  }

  lemma ExtendedOk(h: Heap, base: nat, gap: seq<Header>, block: seq<Header>, nu: nat)
    requires HeapOk(h, base) && |block| == nu && nu >= 1
    ensures HeapOk(Extended(h, gap, block, nu), base)
  {
    hide LinkOk, MarkOk, Extended;
    var h', hp := Extended(h, gap, block, nu), |h.mem| + |gap|;
    ExtendedAt(h, gap, block, nu, hp);
    ExtendedParts(h, gap, block, nu);
    forall i | 0 <= i < |h.list| ensures LinkOk(h', i) {
      ExtendedLink(h, base, gap, block, nu, i);
    }
    forall u | 0 <= u < |h'.mark| ensures MarkOk(h', u) {
      ExtendedMark(h, base, gap, block, nu, u);
    }
    forall a | a in h.live ensures h'.mem[a] == h.mem[a] {
      ExtendedAt(h, gap, block, nu, a);
    }
    BaseBelow(h, base);
  }

  lemma BaseBelow(h: Heap, base: nat)
    requires ListOk(h, base)
    ensures base < |h.mem|
  {
    assert LinkOk(h, 0);
  }

  lemma ExtendedParts(h: Heap, gap: seq<Header>, block: seq<Header>, nu: nat)
    requires |block| == nu && nu >= 1
    ensures Extended(h, gap, block, nu).list == h.list
    ensures Extended(h, gap, block, nu).live == h.live[|h.mem| + |gap| := nu]
  {
  }

  lemma ExtendedLink(h: Heap, base: nat, gap: seq<Header>, block: seq<Header>, nu: nat, i: nat)
    requires HeapOk(h, base) && |block| == nu && nu >= 1 && i < |h.list|
    ensures LinkOk(Extended(h, gap, block, nu), i)
  {
    assert LinkOk(h, i);
    ExtendedAt(h, gap, block, nu, h.list[i]);
  }

  lemma ExtendedMark(h: Heap, base: nat, gap: seq<Header>, block: seq<Header>, nu: nat, u: nat)
    requires HeapOk(h, base) && |block| == nu && nu >= 1 && u < |h.mem| + |gap| + nu
    ensures u < |Extended(h, gap, block, nu).mark| && MarkOk(Extended(h, gap, block, nu), u)
  {
    hide Extended;
    var h', hp := Extended(h, gap, block, nu), |h.mem| + |gap|;
    ExtendedAt(h, gap, block, nu, u);
    ExtendedParts(h, gap, block, nu);
    forall a | a in h.list ensures Size(h', a) == Size(h, a) && a + Size(h, a) <= |h.mem| {
      var i :| 0 <= i < |h.list| && h.list[i] == a;
      assert LinkOk(h, i);
      ExtendedAt(h, gap, block, nu, a);
    }
    if u < |h.mem| {
      assert MarkOk(h, u);
    }
  }

  /** How far position q is from position f, going round the list. */
  function Left(n: nat, f: nat, q: nat): nat
    requires f < n && q < n
  {
    if q <= f then f - q else f + n - q
  }

  lemma Closer(n: nat, f: nat, q: nat)
    requires f < n && q < n && q != f
    ensures Left(n, f, Next(n, q)) == Left(n, f, q) - 1
  {
  }

  /** The same units belong to somebody. */
  ghost predicate SameUnits(mark: seq<Mark>, mark': seq<Mark>) {
    |mark'| == |mark| && forall u :: 0 <= u < |mark| ==> (mark'[u].Outside? <==> mark[u].Outside?)
  }

  lemma JoinedSame(h: Heap, base: nat, bp: nat, t: nat)
    requires HeapOk(h, base) && bp in h.live && Slot(h, t, bp)
    ensures SameUnits(h.mark, Marked(h.mark, StartJoined(h, bp, t), SizeJoined(h, bp, t),
        InFree(StartJoined(h, bp, t))))
  {
    hide HeapOk, StartJoined, SizeJoined, Marked;
    forall u | 0 <= u < |h.mark|
      ensures In(u, StartJoined(h, bp, t), SizeJoined(h, bp, t)) ==> !h.mark[u].Outside?
    {
      JoinedUnits(h, base, bp, t, u);
    }
  }

  /** Link reading: the header at position i. */
  lemma LinkAt(h: Heap, base: nat, i: nat)
    requires ListOk(h, base) && i < |h.list|
    ensures h.list[i] < |h.mem| && h.mem[h.list[i]].ptr == h.list[Next(|h.list|, i)]
    ensures h.list[0] == base && Sorted(h.list) && (i == 0 <==> h.mem[h.list[i]].size == 0)
  {
    assert LinkOk(h, i);
  }

  /** The scan of free stops exactly at the block's place in the list. */
  lemma StopsAt(h: Heap, base: nat, bp: nat, t: nat, i: nat)
    requires ListOk(h, base) && Slot(h, t, bp) && i < |h.list| && bp !in h.list && base < bp
    ensures var p, next := h.list[i], h.list[Next(|h.list|, i)];
            (bp > p && bp < next) || (p >= next && (bp > p || bp < next)) <==> i == t
  {
  }

  /** Units to get from sbrk for a request of nu. */
  function Core(nu: nat): nat {
    if nu < 4096 then 4096 else nu
  }

  /** Units for a request of nbytes, header included. */
  function Units(nbytes: nat): (n: nat)
    ensures n >= 1 && 16 * (n - 1) >= nbytes && 16 * (n - 1) < nbytes + 16
  {
    (nbytes + 15) / 16 + 1
  }

  /** An int parameter receives the low 32 bits of its argument. */
  function AsInt(x: nat): int {
    var m := x % 0x1_0000_0000;
    if m < 0x8000_0000 then m else m - 0x1_0000_0000
  }

  /** The units that sbrk(nu * sizeof(Header)) adds to the process. */
  function Obtained(nu: nat): nat {
    if AsInt(16 * nu) >= 0 then AsInt(16 * nu) / 16 else 0
  }

  /** malloc takes a uint. Its block has as many units as morecore writes into the header
      exactly up to this request; beyond it the argument of sbrk does not fit an int. */
  lemma CoreIsObtainedIff(nbytes: nat)
    requires nbytes < 0x1_0000_0000
    ensures Obtained(Core(Units(nbytes))) >= Core(Units(nbytes)) <==> nbytes <= 2_147_483_616
    ensures nbytes <= 2_147_483_616 <==> 16 * Core(Units(nbytes)) < 0x8000_0000
  {
    var nu := Core(Units(nbytes));
    assert nu <= 0x1000_0001;
    if nbytes <= 2_147_483_616 {
      assert 16 * nu < 0x8000_0000;
    } else {
      assert 0x8000_0000 <= 16 * nu <= 0x1_0000_0010;
    }
  }

  /** malloc(4294967280) asks sbrk for 0 bytes, which succeeds, and calls that 2^28 units. */
  lemma HugeRequest()
    ensures Units(4_294_967_280) == 0x1000_0000 && AsInt(16 * Core(Units(4_294_967_280))) == 0
  {
  }

  /** n more units belong to somebody, above a gap. */
  ghost predicate Grown(mark: seq<Mark>, mark': seq<Mark>, gap: nat, n: nat) {
    |mark'| == |mark| + gap + n
    && forall u :: 0 <= u < |mark'| ==> (mark'[u].Outside? <==> if u < |mark| then mark[u].Outside?
         else u < |mark| + gap)
  }

  lemma SameSelf(mark: seq<Mark>)
    ensures SameUnits(mark, mark)
  {
  }

  lemma SameTrans(m0: seq<Mark>, m1: seq<Mark>, m2: seq<Mark>)
    requires SameUnits(m0, m1) && SameUnits(m1, m2)
    ensures SameUnits(m0, m2)
  {
  }

  lemma GrownTo(m0: seq<Mark>, m1: seq<Mark>, m2: seq<Mark>, gap: nat, n: nat)
    requires Grown(m0, m1, gap, n) && SameUnits(m1, m2)
    ensures Grown(m0, m2, gap, n)
  {
  }

  lemma GrownFrom(m0: seq<Mark>, m1: seq<Mark>, m2: seq<Mark>, gap: nat, n: nat)
    requires SameUnits(m0, m1) && Grown(m1, m2, gap, n)
    ensures Grown(m0, m2, gap, n)
  {
  }

  lemma GrownAfter(h: Heap, gap: seq<Header>, block: seq<Header>, n: nat, mark: seq<Mark>)
    requires |block| == n && n >= 1 && |h.mark| == |h.mem| && SameUnits(Extended(h, gap, block, n).mark, mark)
    ensures Grown(h.mark, mark, |gap|, n)
  {
    forall u | 0 <= u < |mark|
      ensures mark[u].Outside? <==> if u < |h.mark| then h.mark[u].Outside? else u < |h.mark| + |gap|
    {
      ExtendedAt(h, gap, block, n, u);
    }
  }

  lemma ExtendedMem(h: Heap, gap: seq<Header>, block: seq<Header>, n: nat, junk: seq<Header>)
    requires |block| == n && n >= 1 && junk == gap + block
    ensures |h.mem| + |gap| < |h.mem + junk|
    ensures (h.mem + junk)[|h.mem| + |gap| := Header((h.mem + junk)[|h.mem| + |gap|].ptr, n)] == Extended(h, gap,
        block, n).mem
  {
    assert h.mem + junk == h.mem + gap + block;
  }

  lemma NotYetLive(h: Heap, base: nat, hp: nat)
    requires HeapOk(h, base) && hp >= |h.mem|
    ensures hp !in h.live
  {
  }

  /** The first malloc makes a list of the static header alone. */
  lemma FirstOk(h: Heap, base: nat)
    requires h.live == map[] && 1 <= base < |h.mem| == |h.mark|
    requires forall u :: 0 <= u < |h.mark| ==> h.mark[u] == Outside
    ensures HeapOk(Heap(h.mem[base := Header(base, 0)], [base], h.live, h.mark), base)
  {
    var h' := Heap(h.mem[base := Header(base, 0)], [base], h.live, h.mark);
    assert LinkOk(h', 0);
  }

  lemma TookSame(h: Heap, base: nat, i: nat, n: nat)
    requires HeapOk(h, base) && 1 <= i < |h.list| && 1 <= n <= Size(h, h.list[i])
    ensures SameUnits(h.mark, Marked(h.mark, h.list[i] + (Size(h, h.list[i]) - n), n,
        InLive(h.list[i] + (Size(h, h.list[i]) - n))))
  {
    hide LinkOk, Marked;
    var a := h.list[i];
    assert a in h.list;
    forall u | 0 <= u < |h.mark| && In(u, a + (Size(h, a) - n), n) ensures !h.mark[u].Outside? {
      assert MarkOk(h, u);
    }
  }

  /** Blocks at distance d or more from position f are too small. */
  ghost predicate CheckedTo(h: Heap, f: nat, d: nat, n: nat) {
    f < |h.list| && forall k :: 0 <= k < |h.list| && Left(|h.list|, f, k) >= d ==> Size(h, h.list[k]) < n
  }

  lemma CheckedNext(h: Heap, f: nat, q: nat, n: nat)
    requires f < |h.list| && q < |h.list| && CheckedTo(h, f, Left(|h.list|, f, q) + 1, n) && Size(h, h.list[q]) < n
    ensures CheckedTo(h, f, Left(|h.list|, f, q), n)
  {
  }

  lemma AllSmall(h: Heap, f: nat, k: nat, n: nat)
    requires f < |h.list| && CheckedTo(h, f, Left(|h.list|, f, f), n) && k < |h.list|
    ensures Size(h, h.list[k]) < n
  {
  }

  /** Some free block has n units. */
  ghost predicate Fitting(h: Heap, n: nat) {
    exists j :: 0 <= j < |h.list| && Size(h, h.list[j]) >= n
  }

  lemma FitsAt(h: Heap, q: nat, n: nat)
    requires q < |h.list| && Size(h, h.list[q]) >= n
    ensures Fitting(h, n)
  {
  }

  lemma NoneFits(h: Heap, f: nat, n: nat)
    requires f < |h.list| && CheckedTo(h, f, Left(|h.list|, f, f), n)
    ensures !Fitting(h, n)
  {
    forall k: nat | k < |h.list| ensures Size(h, h.list[k]) < n { AllSmall(h, f, k, n); }
  }

  lemma StartChecked(h: Heap, f: nat, n: nat)
    requires f < |h.list|
    ensures CheckedTo(h, f, Left(|h.list|, f, Next(|h.list|, f)) + 1, n)
  {
  }

  lemma SortedOnce(list: seq<nat>, f: nat, q: nat)
    requires Sorted(list) && f < |list| && q < |list| && list[f] == list[q]
    ensures f == q
  {
  }

  /** What belongs to the heap since it was m: the same, or with what sbrk gave. */
  ghost predicate Belongs(m: seq<Mark>, m': seq<Mark>, sbrk: Sbrk, nunits: nat, cores: nat) {
    && (cores == 0 ==> SameUnits(m, m'))
    && (cores == 1 ==> sbrk.Grows? && Grown(m, m', sbrk.gap, Core(nunits)))
  }

  lemma BelongsStill(m0: seq<Mark>, m1: seq<Mark>, m2: seq<Mark>, sbrk: Sbrk, nunits: nat, cores: nat)
    requires Belongs(m0, m1, sbrk, nunits, cores) && SameUnits(m1, m2)
    ensures Belongs(m0, m2, sbrk, nunits, cores)
  {
    hide SameUnits, Grown;
    if cores == 0 { SameTrans(m0, m1, m2); }
    if cores == 1 { GrownTo(m0, m1, m2, sbrk.gap, Core(nunits)); }
  }

  lemma BelongsMore(m0: seq<Mark>, m1: seq<Mark>, m2: seq<Mark>, sbrk: Sbrk, nunits: nat)
    requires Belongs(m0, m1, sbrk, nunits, 0) && sbrk.Grows? && Grown(m1, m2, sbrk.gap, Core(nunits))
    ensures Belongs(m0, m2, sbrk, nunits, 1)
  {
    hide SameUnits, Grown;
    GrownFrom(m0, m1, m2, sbrk.gap, Core(nunits));
  }

  lemma BelongsSelf(m: seq<Mark>, sbrk: Sbrk, nunits: nat)
    ensures Belongs(m, m, sbrk, nunits, 0)
  {
  }

  /** Words the allocator must leave alone: memory that is not of the heap, and what lies behind the
      header of a block handed out. The static header at base is its own. */
  ghost predicate Theirs(mark: seq<Mark>, base: nat, u: nat)
    requires u < |mark|
  {
    u != base && (mark[u].Outside? || (mark[u].InLive? && mark[u] != InLive(u)))
  }

  ghost predicate Kept(mark: seq<Mark>, base: nat, mem: seq<Header>, mem': seq<Header>) {
    && |mark| == |mem| <= |mem'|
    && forall u :: 0 <= u < |mem| && Theirs(mark, base, u) ==> mem'[u] == mem[u]
  }

  lemma KeptNow(h: Heap, base: nat)
    requires HeapOk(h, base)
    ensures Kept(h.mark, base, h.mem, h.mem)
  {
  }

  lemma KeptTwice(mark: seq<Mark>, base: nat, m0: seq<Header>, m1: seq<Header>, m2: seq<Header>)
    requires Kept(mark, base, m0, m1) && |m0| == |m1| && Kept(mark, base, m1, m2)
    ensures Kept(mark, base, m0, m2)
  {
  }

  /** A header, or a unit of a free block, is no word of theirs. */
  lemma NotTheirs(h: Heap, base: nat, v: nat)
    requires HeapOk(h, base) && v < |h.mem| && (v in h.list || v in h.live || h.mark[v].InFree?)
    ensures !Theirs(h.mark, base, v)
  {
    hide LinkOk, MarkOk;
    if v in h.live { MarkOfLive(h, base, v); }
    if v in h.list {
      var i := Where(h.list, v);
      if i > 0 { MarkOfFree(h, base, i); }
    }
  }

  /** The tail of a free block is of that block. */
  lemma TailMark(h: Heap, base: nat, i: nat, b: nat)
    requires HeapOk(h, base) && 1 <= i < |h.list| && h.list[i] <= b < h.list[i] + Size(h, h.list[i])
    ensures b < |h.mem| && h.mark[b].InFree?
  {
    assert LinkOk(h, i);
    assert MarkOk(h, b);
    assert h.list[i] in h.list;
  }

  /** Writing two words that are not theirs. */
  lemma KeptBut(h: Heap, base: nat, v: nat, w: nat, mem': seq<Header>)
    requires |h.mark| == |h.mem| == |mem'|
    requires v < |h.mem| && !Theirs(h.mark, base, v) && w < |h.mem| && !Theirs(h.mark, base, w)
    requires forall u :: 0 <= u < |h.mem| && u != v && u != w ==> mem'[u] == h.mem[u]
    ensures Kept(h.mark, base, h.mem, mem')
  {
    hide Theirs;
  }

  /** morecore: what sbrk adds, and then what free writes into the larger heap. */
  lemma KeptGrown(h: Heap, base: nat, gap: seq<Header>, block: seq<Header>, nu: nat, mem': seq<Header>)
    requires HeapOk(h, base) && |block| == nu && nu >= 1
    requires var h1 := Extended(h, gap, block, nu); Kept(h1.mark, base, h1.mem, mem')
    ensures Kept(h.mark, base, h.mem, mem')
  {
    hide HeapOk, Extended;
    Unfold(h, base);
    var h1 := Extended(h, gap, block, nu);
    forall u | 0 <= u < |h.mem| && Theirs(h.mark, base, u) ensures u < |mem'| && mem'[u] == h.mem[u] {
      ExtendedAt(h, gap, block, nu, u);
      assert Theirs(h1.mark, base, u);
    }
    ExtendedAt(h, gap, block, nu, |h.mem|);
  }

  /** While the blocks handed out stay, their words stay theirs. */
  lemma KeptOn(h: Heap, h1: Heap, base: nat, sbrk: Sbrk, nunits: nat, cores: nat, mem': seq<Header>)
    requires HeapOk(h, base) && HeapOk(h1, base) && h1.live == h.live && cores <= 1
    requires Belongs(h.mark, h1.mark, sbrk, nunits, cores)
    requires Kept(h.mark, base, h.mem, h1.mem) && Kept(h1.mark, base, h1.mem, mem')
    ensures Kept(h.mark, base, h.mem, mem')
  {
    hide ListOk, LiveOk;
    forall u | 0 <= u < |h.mem| && Theirs(h.mark, base, u) ensures Theirs(h1.mark, base, u) {
      assert MarkOk(h, u) && MarkOk(h1, u);
    }
  }

  // ------------------------------------------------------------------ the loop of malloc

  /** The loop is at position q, with predecessor i: it started from position f, where freep is, of the
      list of h; every block it has passed is too small. `cores` counts the calls of morecore since the
      heap was h0; after one, the block at `big` is large enough. */
  ghost predicate Scanning(h0: Heap, h: Heap, base: nat, freep: nat, f: nat, i: nat, q: nat, prevp: nat, p: nat,
      nunits: nat, cores: nat, big: nat, sbrk: Sbrk)
  {
    && HeapOk(h, base) && freep != 0 && f < |h.list| && h.list[f] == freep && h.live == h0.live && cores <= 1
    && i < |h.list| && prevp == h.list[i] && q == Next(|h.list|, i) && p == h.list[q]
    && CheckedTo(h, f, Left(|h.list|, f, q) + 1, nunits)
    && (cores == 1 ==> big < |h.list| && Size(h, h.list[big]) >= nunits)
    && Belongs(h0.mark, h.mark, sbrk, nunits, cores) && Kept(h0.mark, base, h0.mem, h.mem)
    && (if cores == 0 then h == h0 else sbrk.Grows? && !Fitting(h0, nunits))
  }

  lemma ScanStart(h: Heap, base: nat, freep: nat, f: nat, nunits: nat, sbrk: Sbrk)
    requires HeapOk(h, base) && freep != 0 && f < |h.list| && h.list[f] == freep
    ensures Scanning(h, h, base, freep, f, f, Next(|h.list|, f), freep, h.list[Next(|h.list|, f)], nunits, 0, 0, sbrk)
  {
    hide HeapOk, CheckedTo, Left, Belongs, Kept, Fitting;
    KeptNow(h, base);
    BelongsSelf(h.mark, sbrk, nunits);
    StartChecked(h, f, nunits);
  }

  /** What the next turn looks at. */
  lemma ScanAt(h0: Heap, h: Heap, base: nat, freep: nat, f: nat, i: nat, q: nat, prevp: nat, p: nat, nunits: nat,
      cores: nat, big: nat, sbrk: Sbrk)
    requires Scanning(h0, h, base, freep, f, i, q, prevp, p, nunits, cores, big, sbrk) && nunits >= 1
    ensures HeapOk(h, base) && freep != 0 && h.live == h0.live && cores <= 1 && f < |h.list| && q < |h.list|
    ensures p == h.list[q] < |h.mem| && Size(h, p) == h.mem[p].size && h.mem[p].ptr == h.list[Next(|h.list|, q)]
    ensures Size(h, p) >= nunits ==> 1 <= q && h.list[q - 1] == prevp
  {
    hide CheckedTo, Left, Belongs, Kept, Fitting, MarkOk;
    assert LinkOk(h, q);
  }

  lemma ScanFits(h0: Heap, h: Heap, base: nat, freep: nat, f: nat, i: nat, q: nat, prevp: nat, p: nat, nunits: nat,
      cores: nat, big: nat, sbrk: Sbrk, mem': seq<Header>, mark': seq<Mark>)
    requires Scanning(h0, h, base, freep, f, i, q, prevp, p, nunits, cores, big, sbrk) && HeapOk(h0, base)
    requires Size(h, p) >= nunits && SameUnits(h.mark, mark') && Kept(h.mark, base, h.mem, mem')
    ensures Belongs(h0.mark, mark', sbrk, nunits, cores) && Kept(h0.mark, base, h0.mem, mem')
    ensures (cores == 0 <==> Fitting(h0, nunits)) && (cores == 1 ==> sbrk.Grows?)
  {
    hide HeapOk, CheckedTo, Left, Belongs, Kept, SameUnits, Fitting;
    FitsAt(h, q, nunits);
    KeptOn(h0, h, base, sbrk, nunits, cores, mem');
    BelongsStill(h0.mark, h.mark, mark', sbrk, nunits, cores);
  }

  /** Back where it started: no block is large enough, so there has been no morecore yet. */
  lemma ScanFull(h0: Heap, h: Heap, base: nat, freep: nat, f: nat, i: nat, q: nat, prevp: nat, p: nat, nunits: nat,
      cores: nat, big: nat, sbrk: Sbrk)
    requires Scanning(h0, h, base, freep, f, i, q, prevp, p, nunits, cores, big, sbrk)
    requires Size(h, p) < nunits && p == freep
    ensures cores == 0 && h == h0 && !Fitting(h0, nunits)
    ensures Belongs(h0.mark, h.mark, sbrk, nunits, 0) && Kept(h0.mark, base, h0.mem, h.mem)
  {
    hide HeapOk, CheckedTo, Left, Belongs, Kept, Fitting;
    Unfold(h, base);
    CheckedNext(h, f, q, nunits);
    SortedOnce(h.list, f, q);
    if cores == 1 { AllSmall(h, f, big, nunits); }
    NoneFits(h, f, nunits);
  }

  lemma ScanStep(h0: Heap, h: Heap, base: nat, freep: nat, f: nat, i: nat, q: nat, prevp: nat, p: nat, nunits: nat,
      cores: nat, big: nat, sbrk: Sbrk)
    requires Scanning(h0, h, base, freep, f, i, q, prevp, p, nunits, cores, big, sbrk)
    requires Size(h, p) < nunits && p != freep
    ensures var q' := Next(|h.list|, q);
            && Scanning(h0, h, base, freep, f, q, q', p, h.list[q'], nunits, cores, big, sbrk)
            && Left(|h.list|, f, q') < Left(|h.list|, f, q)
  {
    hide HeapOk, CheckedTo, Belongs, Kept, Fitting;
    CheckedNext(h, f, q, nunits);
    Closer(|h.list|, f, q);
  }

  /** After morecore the scan starts again, from the new freep. */
  lemma ScanMore(h0: Heap, h: Heap, base: nat, freep: nat, f: nat, nunits: nat, big: nat, sbrk: Sbrk)
    requires HeapOk(h0, base) && HeapOk(h, base) && freep != 0 && f < |h.list| && h.list[f] == freep
    requires h.live == h0.live && sbrk.Grows? && !Fitting(h0, nunits) && big < |h.list|
    requires Size(h, h.list[big]) >= nunits && Grown(h0.mark, h.mark, sbrk.gap, Core(nunits))
    requires Kept(h0.mark, base, h0.mem, h.mem)
    ensures Scanning(h0, h, base, freep, f, f, Next(|h.list|, f), freep, h.list[Next(|h.list|, f)], nunits, 1, big, sbrk)
  {
    hide HeapOk, CheckedTo, Left, Belongs, Kept, Grown, Fitting, SameUnits, Core;
    BelongsSelf(h0.mark, sbrk, nunits);
    BelongsMore(h0.mark, h0.mark, h.mark, sbrk, nunits);
    StartChecked(h, f, nunits);
  }

  class Allocator {
    const base: nat
    var mem: seq<Header>
    var freep: nat
    ghost var list: seq<nat>
    ghost var live: map<nat, nat>
    ghost var mark: seq<Mark>

    ghost function Now(): Heap
      reads this
    {
      Heap(mem, list, live, mark)
    }

    /** Before the first malloc there is no list; afterwards freep is on it. */
    ghost predicate Valid()
      reads this
    {
      if freep == 0 then live == map[] && 1 <= base < |mem| == |mark|
          && forall u :: 0 <= u < |mark| ==> mark[u] == Outside
      else HeapOk(Now(), base) && freep in list
    }

    /** A program before its first malloc: no list, and none of its memory belongs to the heap. */
    constructor (base: nat, mem: seq<Header>)
      requires 1 <= base < |mem|
      ensures Valid() && freep == 0 && live == map[] && this.base == base && this.mem == mem
    {
      this.base, this.mem, freep := base, mem, 0;
      list, live, mark := [], map[], seq(|mem|, _ => Outside);
    }

    /** free: the block joins the list at its place by address, coalesced with its neighbours. */
    method Free(bp: nat) returns (ghost k: nat)
      requires Valid() && bp in live
      modifies this
      ensures Valid() && freep != 0 && live == old(live) - {bp} && SameUnits(old(mark), mark) && |mem| == |old(mem)|
      ensures k < |list| && Size(Now(), list[k]) >= old(live)[bp]
      ensures Kept(old(mark), base, old(mem), mem)
    {
      hide HeapOk, Joins, SameUnits, Kept;
      ghost var h := Now();
      ghost var t := PlaceOf(h, base, bp);
      ghost var i: nat := Where(list, freep);
      var p: nat := freep;
      Unfold(h, base);
      LinkAt(h, base, i);
      StopsAt(h, base, bp, t, i);
      while !(bp > p && bp < mem[p].ptr)
        invariant 0 <= i < |list| && p == list[i] && Now() == h && p < |mem|
        invariant mem[p].ptr == list[Next(|list|, i)]
        invariant (bp > p && bp < mem[p].ptr) || (p >= mem[p].ptr && (bp > p || bp < mem[p].ptr)) <==> i == t
        decreases Left(|list|, t, i)
      {
        if p >= mem[p].ptr && (bp > p || bp < mem[p].ptr) {
          break;
        }
        Closer(|list|, t, i);
        p, i := mem[p].ptr, Next(|list|, i);
        LinkAt(h, base, i);
        StopsAt(h, base, bp, t, i);
      }
      k := Join(bp, p, t);
    }

    /** The end of free: write the headers. */
    method Join(bp: nat, p: nat, ghost t: nat) returns (ghost k: nat)
      requires HeapOk(Now(), base) && bp in live && Slot(Now(), t, bp) && p == list[t]
      modifies this
      ensures HeapOk(Now(), base) && freep == p && freep in list && freep != 0 && live == old(live) - {bp}
      ensures SameUnits(old(mark), mark) && |mem| == |old(mem)|
      ensures k < |list| && Size(Now(), list[k]) >= old(live)[bp]
      ensures Kept(old(mark), base, old(mem), mem)
    {
      hide HeapOk, Joins, SameUnits, Kept, Theirs, StartJoined, SizeJoined, FirstJoined, EndJoined, Spliced, Marked;
      ghost var h := Now();
      FreeJoins(h, base, bp, t);
      JoinFacts(h, base, bp, t);
      JoinedSame(h, base, bp, t);
      var s := mem[p].ptr;
      if bp + mem[bp].size == s {
        mem := mem[bp := Header(mem[s].ptr, mem[bp].size + mem[s].size)];
      } else {
        mem := mem[bp := Header(s, mem[bp].size)];
      }
      if p + mem[p].size == bp {
        mem := mem[p := Header(mem[bp].ptr, mem[p].size + mem[bp].size)];
      } else {
        mem := mem[p := Header(bp, mem[p].size)];
      }
      assert mem == FreedMem(h, bp, t);
      Unfold(h, base);
      NotTheirs(h, base, bp);
      NotTheirs(h, base, p);
      KeptBut(h, base, bp, p, mem);
      ghost var i, j, x, z := FirstJoined(h, bp, t), EndJoined(h, bp, t), StartJoined(h, bp, t), SizeJoined(h, bp, t);
      JoinedOk(h, base, bp, i, j, x, z, mem);
      list := Spliced(list, i, j, x);
      live := live - {bp};
      mark := Marked(mark, x, z, InFree(x));
      freep := p;
      k := i;
      JoinedIn(h, base, bp, t, mem);
    }

    /** What a program writes into its block, past the header, disturbs nothing. */
    method Store(a: nat, off: nat, word: Header)
      requires Valid() && a in live && 1 <= off < live[a]
      modifies this`mem
      ensures Valid() && |mem| == |old(mem)| && mem == old(mem)[a + off := word]
    {
      hide HeapOk;
      PayloadKeeps(Now(), base, a, off, word);
      mem := mem[a + off := word];
    }

    /** morecore: a block of at least nu units joins the list, unless sbrk fails. */
    method Morecore(nu: nat, sbrk: Sbrk) returns (p: nat, ghost k: nat)
      requires Valid() && freep != 0 && nu >= 1 && (sbrk.Grows? ==> |sbrk.junk| == sbrk.gap + Core(nu))
      modifies this
      ensures Valid() && freep != 0 && live == old(live)
      ensures p == 0 <==> sbrk.Fails?
      ensures p == 0 ==> Now() == old(Now()) && freep == old(freep)
      ensures p != 0 ==> p == freep && k < |list| && Size(Now(), list[k]) >= nu
      ensures p != 0 ==> Grown(old(mark), mark, sbrk.gap, Core(nu))
      ensures Kept(old(mark), base, old(mem), mem)
    {
      hide HeapOk, Extended, SameUnits, Kept;
      k := 0;
      KeptNow(Now(), base);
      if sbrk.Fails? {
        return 0, 0;
      }
      var n := if nu < 4096 then 4096 else nu;
      ghost var gap, block := sbrk.junk[..sbrk.gap], sbrk.junk[sbrk.gap..];
      ghost var h := Now();
      Unfold(h, base);
      ExtendedOk(h, base, gap, block, n);
      ExtendedMem(h, gap, block, n, sbrk.junk);
      var hp := |mem| + sbrk.gap;
      mem := mem + sbrk.junk;
      mem := mem[hp := Header(mem[hp].ptr, n)];
      ghost var h1 := Extended(h, gap, block, n);
      list, live, mark := h1.list, h1.live, h1.mark;
      ExtendedParts(h, gap, block, n);
      assert Now() == h1;
      NotYetLive(h, base, hp);
      k := Free(hp);
      assert live == h.live[hp := n] - {hp} == h.live;
      GrownAfter(h, gap, block, n, mark);
      KeptGrown(h, base, gap, block, n, mem);
      p := freep;
    }

    /** Hand out n units of the block at position i of the list, whose predecessor is prevp. */
    method Take(p: nat, prevp: nat, n: nat, ghost i: nat) returns (a: nat)
      requires HeapOk(Now(), base) && 1 <= i < |list| && list[i] == p && list[i - 1] == prevp
      requires 1 <= n <= Size(Now(), p)
      modifies this
      ensures HeapOk(Now(), base) && freep == prevp && freep in list && freep != 0
      ensures a !in old(live) && live == old(live)[a := n] && a > 0 && |mem| == |old(mem)| && SameUnits(old(mark), mark)
      ensures Kept(old(mark), base, old(mem), mem)
    {
      hide HeapOk, SameUnits, Marked, Without, Kept, Theirs;
      ghost var h := Now();
      Unfold(h, base);
      LinkAt(h, base, i);
      LinkAt(h, base, i - 1);
      FreeFits(h, base, i);
      TookSame(h, base, i, n);
      if mem[p].size == n {
        TookWholeOk(h, base, i);
        mem := mem[prevp := Header(mem[p].ptr, mem[prevp].size)];
        a := p;
        list := Without(list, i);
        mark := Marked(mark, p, n, InLive(p));
        WithoutMember(h.list, i, prevp);
        NotTheirs(h, base, prevp);
        KeptBut(h, base, prevp, prevp, mem);
      } else {
        TookTailOk(h, base, i, n);
        TailIsFree(h, base, i, p + (Size(h, p) - n));
        mem := mem[p := Header(mem[p].ptr, mem[p].size - n)];
        a := p + mem[p].size;
        mem := mem[a := Header(mem[a].ptr, n)];
        mark := Marked(mark, a, n, InLive(a));
        TailMark(h, base, i, a);
        NotTheirs(h, base, a);
        NotTheirs(h, base, p);
        KeptBut(h, base, p, a, mem);
      }
      live := live[a := n];
      freep := prevp;
    }

    /** malloc of a request that fits sbrk's int: a block of its own of enough units, 0 only if
        sbrk fails. At most one morecore; `cores` counts them. */
    method Malloc(nbytes: nat, sbrk: Sbrk) returns (r: nat, ghost cores: nat)
      requires Valid() && nbytes <= 2_147_483_616
      requires sbrk.Grows? ==> |sbrk.junk| == sbrk.gap + Core(Units(nbytes))
      modifies this
      ensures Valid() && freep != 0 && cores <= 1
      ensures r == 0 ==> sbrk.Fails? && live == old(live) && SameUnits(old(mark), mark)
      ensures r != 0 ==> r - 1 !in old(live) && live == old(live)[r - 1 := Units(nbytes)]
      ensures r != 0 && cores == 0 ==> SameUnits(old(mark), mark)
      ensures r != 0 && cores == 1 ==> sbrk.Grows? && Grown(old(mark), mark, sbrk.gap, Core(Units(nbytes)))
      ensures r != 0 && cores == 0 <==> old(freep != 0 && Fitting(Now(), Units(nbytes)))
      ensures r == 0 <==> sbrk.Fails? && !old(freep != 0 && Fitting(Now(), Units(nbytes)))
      ensures Kept(old(mark), base, old(mem), mem)
    {
      hide HeapOk, SameUnits, Grown, Kept;
      var nunits := Units(nbytes);
      ghost var mem0 := mem;
      SameSelf(mark);
      if freep == 0 {
        FirstOk(Now(), base);
        KeptBut(Now(), base, base, base, mem[base := Header(base, 0)]);
        mem := mem[base := Header(base, 0)];
        freep := base;
        list := [base];
      } else {
        KeptNow(Now(), base);
      }
      ghost var mark0, mem1 := mark, mem;
      r, cores := Search(nunits, sbrk);
      KeptTwice(mark0, base, mem0, mem1, mem);
    }

    /** The loop of malloc. */
    method Search(nunits: nat, sbrk: Sbrk) returns (r: nat, ghost cores: nat)
      requires Valid() && freep != 0 && nunits >= 1 && (sbrk.Grows? ==> |sbrk.junk| == sbrk.gap + Core(nunits))
      modifies this
      ensures Valid() && freep != 0 && cores <= 1
      ensures r == 0 ==> sbrk.Fails? && live == old(live) && cores == 0
      ensures r != 0 ==> r - 1 !in old(live) && live == old(live)[r - 1 := nunits]
      ensures Belongs(old(mark), mark, sbrk, nunits, cores)
      ensures r != 0 && cores == 0 <==> old(Fitting(Now(), nunits))
      ensures r == 0 <==> sbrk.Fails? && !old(Fitting(Now(), nunits))
      ensures Kept(old(mark), base, old(mem), mem)
    {
      hide HeapOk, ListOk, LiveOk, SameUnits, Grown, Left, Core, Belongs, Fitting, Kept, Scanning;
      ghost var h0 := Now();
      cores := 0;
      ghost var big: nat := 0;
      ghost var f: nat := Where(list, freep);
      Unfold(h0, base);
      LinkAt(h0, base, f);
      var prevp: nat := freep;
      var p: nat := mem[prevp].ptr;
      ghost var q: nat := Next(|list|, f);
      ghost var i: nat := f;
      ScanStart(h0, base, freep, f, nunits, sbrk);
      while true
        invariant freep in list && f < |list| && q < |list|
        invariant Scanning(h0, Now(), base, freep, f, i, q, prevp, p, nunits, cores, big, sbrk)
        decreases 1 - cores, Left(|list|, f, q)
      {
        ghost var h, was := Now(), freep;
        ScanAt(h0, h, base, freep, f, i, q, prevp, p, nunits, cores, big, sbrk);
        if mem[p].size >= nunits {
          var a := Take(p, prevp, nunits, q);
          ScanFits(h0, h, base, was, f, i, q, prevp, p, nunits, cores, big, sbrk, mem, mark);
          return a + 1, cores;
        }
        if p == freep {
          ScanFull(h0, h, base, freep, f, i, q, prevp, p, nunits, cores, big, sbrk); // the second lap finds a block
          p, big := Morecore(nunits, sbrk);
          if p == 0 {
            return 0, cores;
          }
          cores := 1;
          f := Where(list, freep);
          q := f;
          ScanMore(h0, Now(), base, freep, f, nunits, big, sbrk);
        } else {
          ScanStep(h0, h, base, freep, f, i, q, prevp, p, nunits, cores, big, sbrk);
        }
        Unfold(Now(), base);
        LinkAt(Now(), base, q);
        prevp, i := p, q;
        p, q := mem[p].ptr, Next(|list|, q);
      }
    }
  }

  /** No header lies inside a block handed out. */
  lemma PayloadApart(h: Heap, base: nat, a: nat, off: nat)
    requires HeapOk(h, base) && a in h.live && 1 <= off < h.live[a]
    ensures a + off < |h.mem| && (forall i :: 0 <= i < |h.list| ==> h.list[i] != a + off)
    ensures forall b :: b in h.live ==> b != a + off
  {
    var u := a + off;
    assert MarkOk(h, u);
    forall i | 0 <= i < |h.list| ensures h.list[i] != u {
      assert LinkOk(h, i);
      if i > 0 { MarkOfFree(h, base, i); }
    }
    forall b | b in h.live ensures b != u { MarkOfLive(h, base, b); }
  }

  lemma PayloadKeeps(h: Heap, base: nat, a: nat, off: nat, word: Header)
    requires HeapOk(h, base) && a in h.live && 1 <= off < h.live[a]
    ensures a + off < |h.mem| && HeapOk(h.(mem := h.mem[a + off := word]), base)
  {
    hide MarkOk, LinkOk;
    PayloadApart(h, base, a, off);
    var h' := h.(mem := h.mem[a + off := word]);
    forall i | 0 <= i < |h.list| ensures LinkOk(h', i) { SameLink(h, h', i); }
    forall v | 0 <= v < |h.mark| ensures MarkOk(h', v) { SameMark(h, h', base, v); }
  }

  lemma SameLink(h: Heap, h': Heap, i: nat)
    requires i < |h.list| && LinkOk(h, i) && h' == h.(mem := h'.mem) && |h'.mem| == |h.mem|
    requires forall k :: 0 <= k < |h.list| && h.list[k] < |h.mem| ==> h'.mem[h.list[k]] == h.mem[h.list[k]]
    ensures LinkOk(h', i)
  {
  }

  lemma SameMark(h: Heap, h': Heap, base: nat, v: nat)
    requires v < |h.mark| && MarkOk(h, v) && h' == h.(mem := h'.mem) && |h'.mem| == |h.mem|
    requires forall k :: 0 <= k < |h.list| && h.list[k] < |h.mem| ==> h'.mem[h.list[k]] == h.mem[h.list[k]]
    ensures MarkOk(h', v)
  {
    forall a | a in h.list ensures Size(h', a) == Size(h, a) { var k :| 0 <= k < |h.list| && h.list[k] == a; }
  }

  lemma PlaceOf(h: Heap, base: nat, bp: nat) returns (t: nat)
    requires HeapOk(h, base) && bp in h.live
    ensures Slot(h, t, bp) && bp !in h.list && base < bp
  {
    hide LinkOk;
    forall i | 0 <= i < |h.list| ensures h.list[i] != bp {
      NotHeader(h, base, i);
    }
    t := SlotExists(h, base, bp, |h.list|);
  }

  lemma Where(list: seq<nat>, a: nat) returns (i: nat)
    requires a in list
    ensures i < |list| && list[i] == a
  {
    i :| 0 <= i < |list| && list[i] == a;
  }

  lemma Unfold(h: Heap, base: nat)
    requires HeapOk(h, base)
    ensures ListOk(h, base) && LiveOk(h, base) && |h.mem| == |h.mark|
  {
  }

  /** What the comparisons in free mean. */
  lemma JoinFacts(h: Heap, base: nat, bp: nat, t: nat)
    requires HeapOk(h, base) && bp in h.live && Slot(h, t, bp)
    ensures bp < |h.mem| && h.list[t] < |h.mem| && h.list[t] != bp && h.mem[h.list[t]].ptr < |h.mem|
    ensures h.mem[h.list[t]].ptr != bp
    ensures Upper(h, bp, t) <==> bp + h.mem[bp].size == h.mem[h.list[t]].ptr
    ensures Lower(h, bp, t) <==> h.list[t] + h.mem[h.list[t]].size == bp
    ensures h.list[t] > 0 && h.mem[bp].size == h.live[bp]
    ensures 1 <= FirstJoined(h, bp, t) <= EndJoined(h, bp, t) <= |h.list|
  {
    hide MarkOk;
    JoinedRange(h, base, bp, t);
    Fits(h, base, bp, t);
    assert LinkOk(h, t);
    assert LinkOk(h, Next(|h.list|, t));
  }

  /** The new list holds freep, and the joined block is at least as large as the one given back. */
  lemma JoinedIn(h: Heap, base: nat, bp: nat, t: nat, mem': seq<Header>)
    requires HeapOk(h, base) && bp in h.live && Slot(h, t, bp)
    requires Joins(h, bp, FirstJoined(h, bp, t), EndJoined(h, bp, t), StartJoined(h, bp, t), SizeJoined(h, bp, t), mem')
    ensures var h' := Joined(h, bp, FirstJoined(h, bp, t), EndJoined(h, bp, t), StartJoined(h, bp, t), SizeJoined(h,
        bp, t), mem');
            && h.list[t] in h'.list
            && FirstJoined(h, bp, t) < |h'.list| && Size(h', h'.list[FirstJoined(h, bp, t)]) >= h.live[bp]
  {
    hide LinkOk, MarkOk, Spliced, Marked;
    var i, j, x, z := FirstJoined(h, bp, t), EndJoined(h, bp, t), StartJoined(h, bp, t), SizeJoined(h, bp, t);
    SplicedAt(h.list, i, j, x, i);
    assert h.list[t] in h.list;
    JoinedMember(h, base, bp, i, j, x, z, mem', h.list[t]);
  }
}
