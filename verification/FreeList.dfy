/**
 The heap of user/umalloc.c as values: header-sized units, the circular address-ordered
 free list, and the blocks handed out. `mark` says for every unit which block it is in.
 */
module FreeList {
  datatype Header = Header(ptr: nat, size: nat)

  /** Outside: not obtained from sbrk. */
  datatype Mark = Outside | InFree(a: nat) | InLive(a: nat)

  /** list holds the free blocks by address, starting with the static header; live the
      blocks handed out with their sizes, header included. */
  datatype Heap = Heap(mem: seq<Header>, list: seq<nat>, live: map<nat, nat>, mark: seq<Mark>)

  function Next(n: nat, i: nat): nat
    requires i < n
  {
    if i + 1 < n then i + 1 else 0
  }

  function Size(h: Heap, a: nat): nat {
    if a < |h.mem| then h.mem[a].size else 0
  }

  /** The list is circular, and between two neighbours there is a gap: they are not adjacent. */
  ghost predicate LinkOk(h: Heap, i: nat)
    requires i < |h.list|
  {
    && h.list[i] < |h.mem|
    && h.mem[h.list[i]].ptr == h.list[Next(|h.list|, i)]
    && (i + 1 < |h.list| ==> h.list[i] + Size(h, h.list[i]) < h.list[i + 1])
    && h.list[i] + Size(h, h.list[i]) <= |h.mem|
    && (i == 0 <==> Size(h, h.list[i]) == 0)
  }

  ghost predicate Sorted(list: seq<nat>) {
    forall i, j :: 0 <= i < j < |list| ==> list[i] < list[j]
  }

  ghost predicate ListOk(h: Heap, base: nat) {
    && |h.list| >= 1 && h.list[0] == base && base >= 1 && Sorted(h.list)
    && forall i :: 0 <= i < |h.list| ==> LinkOk(h, i)
  }

  /** Blocks handed out lie behind the static header and know their size. */
  ghost predicate LiveOk(h: Heap, base: nat) {
    forall a :: a in h.live ==> base < a && a + h.live[a] <= |h.mem| && h.live[a] >= 1 && h.mem[a].size == h.live[a]
  }

  /** Each unit is in the block its mark names and in no other. */
  ghost predicate MarkOk(h: Heap, u: nat)
    requires u < |h.mark|
  {
    && (forall a :: a in h.list && a <= u < a + Size(h, a) ==> h.mark[u] == InFree(a))
    && (forall a :: a in h.live && a <= u < a + h.live[a] ==> h.mark[u] == InLive(a))
    && (h.mark[u].InFree? ==> h.mark[u].a in h.list && h.mark[u].a <= u < h.mark[u].a + Size(h, h.mark[u].a))
    && (h.mark[u].InLive? ==> h.mark[u].a in h.live && h.mark[u].a <= u < h.mark[u].a + h.live[h.mark[u].a])
  }

  ghost predicate HeapOk(h: Heap, base: nat) {
    && |h.mark| == |h.mem| && ListOk(h, base) && LiveOk(h, base)
    && forall u :: 0 <= u < |h.mark| ==> MarkOk(h, u)
  }

  /** A block handed out overlaps no free block and no other block handed out. */
  lemma Disjoint(h: Heap, base: nat, a: nat, b: nat, u: nat)
    requires HeapOk(h, base) && a in h.live && a <= u < a + h.live[a] && u < |h.mem|
    ensures b in h.live && b <= u < b + h.live[b] ==> b == a
    ensures b in h.list ==> !(b <= u < b + Size(h, b))
  {
    assert MarkOk(h, u);
  }

  /** Where in the list a block handed out belongs: its neighbours end before it and begin after it. */
  ghost predicate Slot(h: Heap, t: nat, bp: nat) {
    && t < |h.list| && h.list[t] < bp && (t + 1 < |h.list| ==> bp < h.list[t + 1])
  }

  lemma {:induction false} SlotExists(h: Heap, base: nat, bp: nat, n: nat) returns (t: nat)
    requires ListOk(h, base) && base < bp && bp !in h.list && 1 <= n <= |h.list| && (n < |h.list| ==> bp < h.list[n])
    ensures Slot(h, t, bp)
  {
    if h.list[n - 1] < bp {
      t := n - 1;
    } else {
      t := SlotExists(h, base, bp, n - 1);
    }
  }

  /** A block handed out does not reach into its neighbours. */
  lemma Fits(h: Heap, base: nat, bp: nat, t: nat)
    requires HeapOk(h, base) && bp in h.live && Slot(h, t, bp)
    ensures h.list[t] + Size(h, h.list[t]) <= bp
    ensures t + 1 < |h.list| ==> bp + h.live[bp] <= h.list[t + 1]
    ensures bp !in h.list && bp + h.live[bp] <= |h.mem|
  {
    assert LinkOk(h, t);
    assert MarkOk(h, bp);
    if t + 1 < |h.list| {
      var s := h.list[t + 1];
      assert LinkOk(h, t + 1);
      assert MarkOk(h, s);
    }
  }

  // ---------------------------------------------------------------- blocks put together

  /** u lies in the block of length z at x. */
  predicate In(u: nat, x: nat, z: nat) {
    x <= u < x + z
  }

  ghost function Marked(mark: seq<Mark>, x: nat, z: nat, m: Mark): (r: seq<Mark>)
    ensures |r| == |mark|
    ensures forall u :: 0 <= u < |mark| ==> r[u] == if In(u, x, z) then m else mark[u]
  {
    seq(|mark|, u requires 0 <= u < |mark| => if In(u, x, z) then m else mark[u])
  }

  function At(mem: seq<Header>, a: nat): Header {
    if a < |mem| then mem[a] else Header(0, 0)
  }

  /** list with positions i..j replaced by x. */
  function Spliced(list: seq<nat>, i: nat, j: nat, x: nat): (r: seq<nat>)
    requires i <= j <= |list|
    ensures |r| == |list| - (j - i) + 1
  {
    list[..i] + [x] + list[j..]
  }

  lemma SplicedAt(list: seq<nat>, i: nat, j: nat, x: nat, k: nat)
    requires i <= j <= |list| && k < |list| - (j - i) + 1
    ensures Spliced(list, i, j, x)[k] == if k < i then list[k] else if k == i then x else list[k - i - 1 + j]
  {
  }

  lemma SplicedSorted(list: seq<nat>, i: nat, j: nat, x: nat)
    requires Sorted(list) && 1 <= i <= j <= |list| && list[i - 1] < x && (j < |list| ==> x < list[j])
    ensures Sorted(Spliced(list, i, j, x))
  {
    hide Spliced;
    var r := Spliced(list, i, j, x);
    forall k, l | 0 <= k < l < |r| ensures r[k] < r[l] {
      SplicedAt(list, i, j, x, k);
      SplicedAt(list, i, j, x, l);
      assert k < i ==> list[k] <= list[i - 1];
      assert l > i ==> list[j] <= list[l - i - 1 + j];
    }
  }

  /** The block bp and the free blocks at positions i..j of the list become one free block
      of length z at x; the headers in mem' say so. */
  ghost predicate Joins(h: Heap, bp: nat, i: nat, j: nat, x: nat, z: nat, mem': seq<Header>) {
    && bp in h.live && 1 <= i <= j <= |h.list| && |mem'| == |h.mem| && z >= 1 && x + z <= |h.mem|
    && h.list[i - 1] + Size(h, h.list[i - 1]) < x && (j < |h.list| ==> x + z < h.list[j])
    && (forall k :: i <= k < j ==> In(h.list[k], x, z))
    && (forall u :: 0 <= u < |h.mark| ==> (In(u, x, z) <==> h.mark[u] == InLive(bp) || (h.mark[u].InFree? && In(h.mark[u].a, x, z))))
    && At(mem', x) == Header(if j < |h.list| then h.list[j] else h.list[0], z)
    && At(mem', h.list[i - 1]) == Header(x, Size(h, h.list[i - 1]))
    && (forall k :: 0 <= k < |h.list| && !(i - 1 <= k < j) ==> At(mem', h.list[k]) == At(h.mem, h.list[k]))
    && (forall a :: a in h.live && a != bp ==> At(mem', a).size == At(h.mem, a).size)
  }

  ghost function Joined(h: Heap, bp: nat, i: nat, j: nat, x: nat, z: nat, mem': seq<Header>): Heap
    requires i <= j <= |h.list|
  {
    Heap(mem', Spliced(h.list, i, j, x), h.live - {bp}, Marked(h.mark, x, z, InFree(x)))
  }

  lemma JoinedLink(h: Heap, base: nat, bp: nat, i: nat, j: nat, x: nat, z: nat, mem': seq<Header>, k: nat)
    requires ListOk(h, base) && Joins(h, bp, i, j, x, z, mem') && k < |h.list| - (j - i) + 1
    ensures LinkOk(Joined(h, bp, i, j, x, z, mem'), k)
  {
    hide Spliced, Marked, Sorted;
    var h' := Joined(h, bp, i, j, x, z, mem');
    SplicedAt(h.list, i, j, x, k);
    SplicedAt(h.list, i, j, x, Next(|h'.list|, k));
    if k < i {
      assert LinkOk(h, k);
    } else if k > i {
      assert LinkOk(h, k - i - 1 + j);
    }
  }

  lemma JoinedList(h: Heap, base: nat, bp: nat, i: nat, j: nat, x: nat, z: nat, mem': seq<Header>)
    requires ListOk(h, base) && Joins(h, bp, i, j, x, z, mem')
    ensures ListOk(Joined(h, bp, i, j, x, z, mem'), base)
  {
    hide LinkOk, Marked, Spliced, Sorted;
    var h' := Joined(h, bp, i, j, x, z, mem');
    SplicedSorted(h.list, i, j, x);
    SplicedAt(h.list, i, j, x, 0);
    forall k | 0 <= k < |h'.list| ensures LinkOk(h', k) {
      JoinedLink(h, base, bp, i, j, x, z, mem', k);
    }
  }

  /** Members of the new list: x, and the old ones that were not absorbed. */
  lemma JoinedMember(h: Heap, base: nat, bp: nat, i: nat, j: nat, x: nat, z: nat, mem': seq<Header>, a: nat)
    requires ListOk(h, base) && Joins(h, bp, i, j, x, z, mem')
    ensures a in Spliced(h.list, i, j, x) <==> a == x || (a in h.list && !In(a, x, z))
    ensures a in h.list && !In(a, x, z) ==> Size(Joined(h, bp, i, j, x, z, mem'), a) == Size(h, a)
    ensures Size(Joined(h, bp, i, j, x, z, mem'), x) == z
  {
    hide LinkOk, Marked, Spliced;
    var r := Spliced(h.list, i, j, x);
    SplicedAt(h.list, i, j, x, i);
    if a in h.list && !In(a, x, z) {
      var k :| 0 <= k < |h.list| && h.list[k] == a;
      assert k < i || k >= j;
      SplicedAt(h.list, i, j, x, if k < i then k else k - j + 1 + i);
    }
    if a in r && a != x {
      var k :| 0 <= k < |r| && r[k] == a;
      SplicedAt(h.list, i, j, x, k);
      assert k < i ==> h.list[k] <= h.list[i - 1];
      assert k > i ==> h.list[j] <= h.list[k - i - 1 + j];
    }
  }

  lemma JoinedMark(h: Heap, base: nat, bp: nat, i: nat, j: nat, x: nat, z: nat, mem': seq<Header>, u: nat)
    requires HeapOk(h, base) && Joins(h, bp, i, j, x, z, mem') && u < |h.mark|
    ensures MarkOk(Joined(h, bp, i, j, x, z, mem'), u)
  {
    hide ListOk, LiveOk, Spliced, Size, Marked;
    var h' := Joined(h, bp, i, j, x, z, mem');
    assert MarkOk(h, u);
    JoinedMember(h, base, bp, i, j, x, z, mem', x);
    forall a | a in h'.list && a <= u < a + Size(h', a) ensures h'.mark[u] == InFree(a) {
      JoinedMember(h, base, bp, i, j, x, z, mem', a);
    }
    if h.mark[u].InFree? {
      JoinedMember(h, base, bp, i, j, x, z, mem', h.mark[u].a);
    }
  }

  /** free: the block is in the list, joined with what was adjacent to it. */
  lemma JoinedOk(h: Heap, base: nat, bp: nat, i: nat, j: nat, x: nat, z: nat, mem': seq<Header>)
    requires HeapOk(h, base) && Joins(h, bp, i, j, x, z, mem')
    ensures HeapOk(Joined(h, bp, i, j, x, z, mem'), base)
  {
    hide ListOk, MarkOk, Spliced, Marked;
    JoinedList(h, base, bp, i, j, x, z, mem');
    forall u | 0 <= u < |h.mark| ensures MarkOk(Joined(h, bp, i, j, x, z, mem'), u) {
      JoinedMark(h, base, bp, i, j, x, z, mem', u);
    }
  }

  // ------------------------------------------------------------------------------ free

  /** The block at position t ends where bp begins. */
  ghost predicate Lower(h: Heap, bp: nat, t: nat)
    requires t < |h.list|
  {
    h.list[t] + Size(h, h.list[t]) == bp
  }

  /** bp ends where the next block begins. */
  ghost predicate Upper(h: Heap, bp: nat, t: nat) {
    t + 1 < |h.list| && bp + Size(h, bp) == h.list[t + 1]
  }

  ghost function FirstJoined(h: Heap, bp: nat, t: nat): nat
    requires t < |h.list|
  {
    if Lower(h, bp, t) then t else t + 1
  }

  ghost function EndJoined(h: Heap, bp: nat, t: nat): nat {
    if Upper(h, bp, t) then t + 2 else t + 1
  }

  ghost function StartJoined(h: Heap, bp: nat, t: nat): nat
    requires t < |h.list|
  {
    if Lower(h, bp, t) then h.list[t] else bp
  }

  ghost function SizeJoined(h: Heap, bp: nat, t: nat): nat
    requires t < |h.list|
  {
    (if Lower(h, bp, t) then Size(h, h.list[t]) else 0) + Size(h, bp)
        + (if Upper(h, bp, t) then Size(h, h.list[t + 1]) else 0)
  }

  lemma JoinedRange(h: Heap, base: nat, bp: nat, t: nat)
    requires HeapOk(h, base) && bp in h.live && Slot(h, t, bp)
    ensures var i, j, x, z := FirstJoined(h, bp, t), EndJoined(h, bp, t), StartJoined(h, bp, t), SizeJoined(h, bp, t);
            && 1 <= i <= j <= |h.list| && z >= 1 && x + z <= |h.mem|
            && h.list[i - 1] + Size(h, h.list[i - 1]) < x && (j < |h.list| ==> x + z < h.list[j])
            && (forall k :: i <= k < j ==> In(h.list[k], x, z))
  {
    Fits(h, base, bp, t);
    assert LinkOk(h, t);
    if t > 0 { assert LinkOk(h, t - 1); }
    if t + 1 < |h.list| { assert LinkOk(h, t + 1); }
  }

  /** The free blocks in it are those it was joined with. */
  lemma JoinedWith(h: Heap, base: nat, bp: nat, t: nat, a: nat)
    requires HeapOk(h, base) && bp in h.live && Slot(h, t, bp) && a in h.list
    requires In(a, StartJoined(h, bp, t), SizeJoined(h, bp, t))
    ensures (Lower(h, bp, t) && a == h.list[t]) || (Upper(h, bp, t) && a == h.list[t + 1])
  {
    Fits(h, base, bp, t);
    assert LinkOk(h, t);
    if t > 0 { assert LinkOk(h, t - 1); }
    if t + 1 < |h.list| { assert LinkOk(h, t + 1); }
  }

  lemma JoinedUnits(h: Heap, base: nat, bp: nat, t: nat, u: nat)
    requires HeapOk(h, base) && bp in h.live && Slot(h, t, bp) && u < |h.mark|
    ensures var x, z := StartJoined(h, bp, t), SizeJoined(h, bp, t);
            In(u, x, z) <==> h.mark[u] == InLive(bp) || (h.mark[u].InFree? && In(h.mark[u].a, x, z))
  {
    hide ListOk, LinkOk;
    JoinedRange(h, base, bp, t);
    Fits(h, base, bp, t);
    assert MarkOk(h, u);
    assert h.list[t] in h.list;
    if t + 1 < |h.list| { assert h.list[t + 1] in h.list; }
    if h.mark[u].InFree? && In(h.mark[u].a, StartJoined(h, bp, t), SizeJoined(h, bp, t)) {
      JoinedWith(h, base, bp, t, h.mark[u].a);
    }
  }

  /** The headers after free, as the code writes them. */
  ghost function FreedMem(h: Heap, bp: nat, t: nat): seq<Header>
    requires t < |h.list| && h.list[t] < |h.mem| && bp < |h.mem|
  {
    var p := h.list[t];
    var s := At(h.mem, p).ptr;
    var mem1 := h.mem[bp := if Upper(h, bp, t) then Header(At(h.mem, s).ptr, Size(h, bp) + Size(h, s))
        else Header(s, Size(h, bp))];
    mem1[p := if Lower(h, bp, t) then Header(mem1[bp].ptr, Size(h, p) + mem1[bp].size) else Header(bp, Size(h, p))]
  }

  /** The joined block and its predecessor have the right headers. */
  lemma FreedHeaders(h: Heap, base: nat, bp: nat, t: nat)
    requires HeapOk(h, base) && bp in h.live && Slot(h, t, bp)
    ensures h.list[t] < |h.mem| && bp < |h.mem|
    ensures var i, j, x, z := FirstJoined(h, bp, t), EndJoined(h, bp, t), StartJoined(h, bp, t), SizeJoined(h, bp, t);
            && 1 <= i <= j <= |h.list|
            && At(FreedMem(h, bp, t), x) == Header(if j < |h.list| then h.list[j] else h.list[0], z)
            && At(FreedMem(h, bp, t), h.list[i - 1]) == Header(x, Size(h, h.list[i - 1]))
  {
    hide MarkOk;
    Fits(h, base, bp, t);
    assert LinkOk(h, t);
    if t > 0 { assert LinkOk(h, t - 1); }
    if t + 1 < |h.list| { assert LinkOk(h, t + 1); }
  }

  lemma FreeJoins(h: Heap, base: nat, bp: nat, t: nat)
    requires HeapOk(h, base) && bp in h.live && Slot(h, t, bp)
    ensures h.list[t] < |h.mem| && bp < |h.mem|
    ensures Joins(h, bp, FirstJoined(h, bp, t), EndJoined(h, bp, t), StartJoined(h, bp, t), SizeJoined(h, bp, t),
        FreedMem(h, bp, t))
  {
    hide HeapOk, LinkOk, Lower, Upper, StartJoined, SizeJoined, Size, At;
    JoinedRange(h, base, bp, t);
    FreedHeaders(h, base, bp, t);
    FreeKeepsHeaders(h, base, bp, t);
    forall u | 0 <= u < |h.mark|
      ensures In(u, StartJoined(h, bp, t), SizeJoined(h, bp, t)) <==>
              h.mark[u] == InLive(bp) || (h.mark[u].InFree?
                  && In(h.mark[u].a, StartJoined(h, bp, t), SizeJoined(h, bp, t)))
    {
      JoinedUnits(h, base, bp, t, u);
    }
  }

  /** Only the headers of bp and of its predecessor are written. */
  lemma FreeKeepsHeaders(h: Heap, base: nat, bp: nat, t: nat)
    requires HeapOk(h, base) && bp in h.live && Slot(h, t, bp)
    ensures h.list[t] < |h.mem| && bp < |h.mem|
    ensures forall k :: 0 <= k < |h.list| && k != t ==> At(FreedMem(h, bp, t), h.list[k]) == At(h.mem, h.list[k])
    ensures forall a :: a in h.live && a != bp ==> At(FreedMem(h, bp, t), a) == At(h.mem, a)
  {
    Fits(h, base, bp, t);
    assert LinkOk(h, t);
    forall a | a in h.live ensures a != h.list[t] {
      assert MarkOk(h, a);
      assert h.list[t] in h.list;
    }
  }

  // ---------------------------------------------------------------------------- malloc

  function Without(list: seq<nat>, i: nat): (r: seq<nat>)
    requires i < |list|
    ensures |r| == |list| - 1
  {
    list[..i] + list[i + 1..]
  }

  lemma WithoutAt(list: seq<nat>, i: nat, k: nat)
    requires i < |list| && k < |list| - 1
    ensures Without(list, i)[k] == if k < i then list[k] else list[k + 1]
  {
  }

  lemma WithoutMember(list: seq<nat>, i: nat, a: nat)
    requires i < |list| && Sorted(list)
    ensures a in Without(list, i) <==> a in list && a != list[i]
  {
    hide Without;
    if a in list && a != list[i] {
      var k :| 0 <= k < |list| && list[k] == a;
      WithoutAt(list, i, if k < i then k else k - 1);
    }
    if a in Without(list, i) {
      var k :| 0 <= k < |list| - 1 && Without(list, i)[k] == a;
      WithoutAt(list, i, k);
    }
  }

  /** malloc takes the whole free block at position i. */
  ghost function TookWhole(h: Heap, i: nat): Heap
    requires 1 <= i < |h.list| && h.list[i - 1] < |h.mem|
  {
    var a := h.list[i];
    Heap(h.mem[h.list[i - 1] := Header(At(h.mem, a).ptr, Size(h, h.list[i - 1]))], Without(h.list, i),
         h.live[a := Size(h, a)], Marked(h.mark, a, Size(h, a), InLive(a)))
  }

  lemma WithoutSorted(list: seq<nat>, i: nat)
    requires Sorted(list) && i < |list|
    ensures Sorted(Without(list, i))
  {
    hide Without;
    var r := Without(list, i);
    forall k, l | 0 <= k < l < |r| ensures r[k] < r[l] {
      WithoutAt(list, i, k);
      WithoutAt(list, i, l);
    }
  }

  lemma TookWholeLink(h: Heap, base: nat, i: nat, k: nat)
    requires ListOk(h, base) && 1 <= i < |h.list| && h.list[i - 1] < |h.mem| && k < |h.list| - 1
    ensures LinkOk(TookWhole(h, i), k)
  {
    hide Without, Marked;
    WithoutAt(h.list, i, k);
    WithoutAt(h.list, i, Next(|h.list| - 1, k));
    assert LinkOk(h, if k < i then k else k + 1);
    assert k == i - 1 ==> LinkOk(h, i);
  }

  lemma TookWholeList(h: Heap, base: nat, i: nat)
    requires ListOk(h, base) && 1 <= i < |h.list|
    ensures h.list[i - 1] < |h.mem| && ListOk(TookWhole(h, i), base)
  {
    hide Without, Marked, Sorted;
    assert LinkOk(h, i - 1);
    var h' := TookWhole(h, i);
    WithoutAt(h.list, i, 0);
    WithoutSorted(h.list, i);
    forall k | 0 <= k < |h'.list| ensures LinkOk(h', k) {
      TookWholeLink(h, base, i, k);
    }
  }

  lemma TookWholeMark(h: Heap, base: nat, i: nat, u: nat)
    requires HeapOk(h, base) && 1 <= i < |h.list| && h.list[i - 1] < |h.mem| && u < |h.mark|
    ensures MarkOk(TookWhole(h, i), u)
  {
    hide Without, Marked, LinkOk, LiveOk;
    var h', a := TookWhole(h, i), h.list[i];
    assert MarkOk(h, u);
    assert a in h.list;
    forall b ensures b in h'.list <==> b in h.list && b != a {
      WithoutMember(h.list, i, b);
    }
    MarkOfFree(h, base, i);
  }

  /** A block handed out starts on no free block. */
  lemma MarkOfLive(h: Heap, base: nat, a: nat)
    requires HeapOk(h, base) && a in h.live
    ensures a < |h.mark| && h.mark[a] == InLive(a)
  {
    assert MarkOk(h, a);
  }

  lemma MarkOfFree(h: Heap, base: nat, i: nat)
    requires HeapOk(h, base) && 1 <= i < |h.list|
    ensures h.list[i] < |h.mark| && h.mark[h.list[i]] == InFree(h.list[i]) && h.list[i] !in h.live && base < h.list[i]
  {
    assert LinkOk(h, i);
    assert MarkOk(h, h.list[i]);
    assert h.list[i] in h.list;
    if h.list[i] in h.live { MarkOfLive(h, base, h.list[i]); }
  }

  lemma TookWholeOk(h: Heap, base: nat, i: nat)
    requires HeapOk(h, base) && 1 <= i < |h.list|
    ensures h.list[i - 1] < |h.mem| && HeapOk(TookWhole(h, i), base) && h.list[i] !in h.live
  {
    hide ListOk, MarkOk, Without, Marked;
    TookWholeList(h, base, i);
    MarkOfFree(h, base, i);
    NotHeader(h, base, i - 1);
    FreeFits(h, base, i);
    forall u | 0 <= u < |h.mark| ensures MarkOk(TookWhole(h, i), u) {
      TookWholeMark(h, base, i, u);
    }
  }

  /** List headers are not headers of blocks handed out. */
  lemma NotHeader(h: Heap, base: nat, i: nat)
    requires HeapOk(h, base) && i < |h.list|
    ensures h.list[i] !in h.live
  {
    if i > 0 {
      MarkOfFree(h, base, i);
    }
  }

  lemma FreeFits(h: Heap, base: nat, i: nat)
    requires ListOk(h, base) && 1 <= i < |h.list|
    ensures Size(h, h.list[i]) >= 1 && h.list[i] + Size(h, h.list[i]) <= |h.mem|
  {
    assert LinkOk(h, i);
  }

  /** malloc takes the tail, n units, of the free block at position i. */
  ghost function TookTail(h: Heap, i: nat, n: nat): Heap
    requires i < |h.list| && 1 <= n < Size(h, h.list[i]) && h.list[i] + Size(h, h.list[i]) <= |h.mem|
  {
    var a := h.list[i];
    var b := a + (Size(h, a) - n);
    Heap(h.mem[a := Header(h.mem[a].ptr, Size(h, a) - n)][b := Header(h.mem[b].ptr, n)], h.list,
         h.live[b := n], Marked(h.mark, b, n, InLive(b)))
  }

  lemma TookTailOk(h: Heap, base: nat, i: nat, n: nat)
    requires HeapOk(h, base) && 1 <= i < |h.list| && 1 <= n < Size(h, h.list[i])
    ensures h.list[i] + Size(h, h.list[i]) <= |h.mem| && HeapOk(TookTail(h, i, n), base)
  {
    hide LinkOk, MarkOk, Marked;
    FreeFits(h, base, i);
    var a := h.list[i];
    TailIsFree(h, base, i, a + (Size(h, a) - n));
    forall k | 0 <= k < |h.list| ensures LinkOk(TookTail(h, i, n), k) {
      TookTailLink(h, base, i, n, k);
    }
    NotHeader(h, base, i);
    forall u | 0 <= u < |h.mark| ensures MarkOk(TookTail(h, i, n), u) {
      TookTailMark(h, base, i, n, u);
    }
  }

  lemma TookTailLink(h: Heap, base: nat, i: nat, n: nat, k: nat)
    requires HeapOk(h, base) && 1 <= i < |h.list| && 1 <= n < Size(h, h.list[i])
    requires h.list[i] + Size(h, h.list[i]) <= |h.mem| && k < |h.list|
    ensures LinkOk(TookTail(h, i, n), k)
  {
    hide MarkOk, LiveOk, Marked;
    var a := h.list[i];
    TailIsFree(h, base, i, a + (Size(h, a) - n));
    assert LinkOk(h, k);
  }

  lemma TookTailMark(h: Heap, base: nat, i: nat, n: nat, u: nat)
    requires HeapOk(h, base) && 1 <= i < |h.list| && 1 <= n < Size(h, h.list[i])
    requires h.list[i] + Size(h, h.list[i]) <= |h.mem| && u < |h.mark|
    ensures MarkOk(TookTail(h, i, n), u)
  {
    hide LiveOk, LinkOk, ListOk, Marked;
    var a := h.list[i];
    assert a in h.list;
    TailIsFree(h, base, i, a + (Size(h, a) - n));
    assert MarkOk(h, u);
  }

  lemma TailIsFree(h: Heap, base: nat, i: nat, b: nat)
    requires HeapOk(h, base) && 1 <= i < |h.list| && h.list[i] < b < h.list[i] + Size(h, h.list[i])
    ensures b !in h.list && b !in h.live && b < |h.mem|
  {
    assert LinkOk(h, i);
    assert MarkOk(h, b);
    assert h.list[i] in h.list;
  }
}
