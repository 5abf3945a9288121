/**
 Conservation in user/umalloc.c: the sizes of the free blocks and of the blocks handed
 out add up to the units obtained from sbrk.
 */
module HeapUnits {
  import opened FreeList

  ghost function Span(a: nat, z: nat): set<nat> {
    if z == 0 then {} else Span(a, z - 1) + {a + z - 1}
  }

  lemma {:induction false} SpanIs(a: nat, z: nat)
    ensures |Span(a, z)| == z && forall u: nat :: u in Span(a, z) <==> In(u, a, z)
  {
    if z > 0 {
      SpanIs(a, z - 1);
    }
  }

  /** The units marked as somebody's. */
  ghost function Owned(mark: seq<Mark>): set<nat> {
    if mark == [] then {}
    else
      var n := |mark| - 1;
      Owned(mark[..n]) + (if mark[n].Outside? then {} else {n})
  }

  lemma {:induction false} OwnedIs(mark: seq<Mark>)
    ensures forall u: nat :: u in Owned(mark) <==> u < |mark| && !mark[u].Outside?
  {
    if mark != [] {
      OwnedIs(mark[..|mark| - 1]);
    }
  }

  // ------------------------------------------------------------------------ free blocks

  ghost function SumFree(h: Heap, k: nat): nat
    requires k <= |h.list|
  {
    if k == 0 then 0 else SumFree(h, k - 1) + Size(h, h.list[k - 1])
  }

  ghost function FreeUnits(h: Heap, k: nat): set<nat>
    requires k <= |h.list|
  {
    if k == 0 then {} else FreeUnits(h, k - 1) + Span(h.list[k - 1], Size(h, h.list[k - 1]))
  }

  /** The units of a free block are those marked with it. */
  lemma FreeMark(h: Heap, base: nat, i: nat, u: nat)
    requires HeapOk(h, base) && i < |h.list|
    ensures In(u, h.list[i], Size(h, h.list[i])) <==> u < |h.mark| && h.mark[u] == InFree(h.list[i])
  {
    assert LinkOk(h, i);
    assert h.list[i] in h.list;
    if u < |h.mark| {
      assert MarkOk(h, u);
    }
  }

  ghost predicate FreeBefore(h: Heap, k: nat, u: nat)
    requires k <= |h.list|
  {
    u < |h.mark| && h.mark[u].InFree? && InPrefix(h.list, k, h.mark[u].a)
  }

  ghost predicate InPrefix(list: seq<nat>, k: nat, a: nat)
    requires k <= |list|
  {
    a in list[..k]
  }

  lemma PrefixStep(list: seq<nat>, k: nat)
    requires 1 <= k <= |list|
    ensures forall a :: InPrefix(list, k, a) <==> InPrefix(list, k - 1, a) || a == list[k - 1]
  {
    assert list[..k] == list[..k - 1] + [list[k - 1]];
  }

  lemma PrefixEnds(list: seq<nat>)
    ensures forall a :: !InPrefix(list, 0, a) && (InPrefix(list, |list|, a) <==> a in list)
  {
    assert list[..|list|] == list;
  }

  lemma {:induction false} FreeUnitsIs(h: Heap, base: nat, k: nat)
    requires HeapOk(h, base) && k <= |h.list|
    ensures |FreeUnits(h, k)| == SumFree(h, k)
    ensures forall u: nat :: u in FreeUnits(h, k) <==> FreeBefore(h, k, u)
  {
    hide HeapOk, Span, InPrefix, Size;
    PrefixEnds(h.list);
    if k > 0 {
      FreeUnitsIs(h, base, k - 1);
      FreeUnitsStep(h, base, k, FreeUnits(h, k - 1));
    }
  }

  lemma FreeUnitsStep(h: Heap, base: nat, k: nat, f: set<nat>)
    requires HeapOk(h, base) && 1 <= k <= |h.list| && forall u: nat :: u in f <==> FreeBefore(h, k - 1, u)
    ensures var s := f + Span(h.list[k - 1], Size(h, h.list[k - 1]));
            |s| == |f| + Size(h, h.list[k - 1]) && forall u: nat :: u in s <==> FreeBefore(h, k, u)
  {
    hide HeapOk, Span, InPrefix, Size, In;
    var a, z := h.list[k - 1], Size(h, h.list[k - 1]);
    SpanIs(a, z);
    OnceInList(h, base, k - 1);
    PrefixStep(h.list, k);
    forall u: nat ensures u in Span(a, z) <==> u < |h.mark| && h.mark[u] == InFree(a) {
      FreeMark(h, base, k - 1, u);
    }
    assert f !! Span(a, z);
  }

  lemma OnceInList(h: Heap, base: nat, j: nat)
    requires HeapOk(h, base) && j < |h.list|
    ensures !InPrefix(h.list, j, h.list[j])
  {
  }

  // ----------------------------------------------------------------- blocks handed out

  ghost function Pick(live: map<nat, nat>): (a: nat)
    requires live != map[]
    ensures a in live
  {
    assert live.Keys != {};
    var a :| a in live.Keys;
    a
  }

  ghost function SumLive(live: map<nat, nat>): nat
    decreases |live|
  {
    if live == map[] then 0 else live[Pick(live)] + SumLive(live - {Pick(live)})
  }

  ghost function LiveUnits(live: map<nat, nat>): set<nat>
    decreases |live|
  {
    if live == map[] then {} else Span(Pick(live), live[Pick(live)]) + LiveUnits(live - {Pick(live)})
  }

  lemma LiveMark(h: Heap, base: nat, a: nat, u: nat)
    requires HeapOk(h, base) && a in h.live
    ensures In(u, a, h.live[a]) <==> u < |h.mark| && h.mark[u] == InLive(a)
  {
    if u < |h.mark| {
      assert MarkOk(h, u);
    }
  }

  ghost predicate LiveIn(h: Heap, live: map<nat, nat>, u: nat) {
    u < |h.mark| && h.mark[u].InLive? && h.mark[u].a in live
  }

  lemma {:induction false} LiveUnitsIs(h: Heap, base: nat, live: map<nat, nat>)
    requires HeapOk(h, base) && forall a :: a in live ==> a in h.live && live[a] == h.live[a]
    ensures |LiveUnits(live)| == SumLive(live)
    ensures forall u: nat :: u in LiveUnits(live) <==> LiveIn(h, live, u)
    decreases |live|
  {
    hide HeapOk, Span;
    if live != map[] {
      var a := Pick(live);
      var rest := live - {a};
      LiveUnitsIs(h, base, rest);
      SpanIs(a, live[a]);
      forall u: nat ensures u in Span(a, live[a]) <==> u < |h.mark| && h.mark[u] == InLive(a) {
        LiveMark(h, base, a, u);
      }
      assert Span(a, live[a]) !! LiveUnits(rest);
      forall u: nat ensures u in LiveUnits(live) <==> LiveIn(h, live, u) {
        assert u in LiveUnits(live) <==> u in Span(a, live[a]) || u in LiveUnits(rest);
      }
    }
  }

  /** Nothing is lost: every unit from sbrk is in a free block or in one handed out, once. */
  lemma Conservation(h: Heap, base: nat)
    requires HeapOk(h, base)
    ensures SumFree(h, |h.list|) + SumLive(h.live) == |Owned(h.mark)|
  {
    hide HeapOk, FreeUnits, LiveUnits, SumFree, SumLive, Owned, InPrefix;
    FreeUnitsIs(h, base, |h.list|);
    LiveUnitsIs(h, base, h.live);
    OwnedIs(h.mark);
    var f, l := FreeUnits(h, |h.list|), LiveUnits(h.live);
    PrefixEnds(h.list);
    forall u: nat ensures u in Owned(h.mark) <==> u in f || u in l {
      if u < |h.mark| { MarkedSomewhere(h, base, u); }
    }
    assert f + l == Owned(h.mark);
    assert f !! l;
  }

  lemma MarkedSomewhere(h: Heap, base: nat, u: nat)
    requires HeapOk(h, base) && u < |h.mark|
    ensures h.mark[u].InFree? ==> h.mark[u].a in h.list
    ensures h.mark[u].InLive? ==> h.mark[u].a in h.live
  {
    assert MarkOk(h, u);
  }
}
