/**
 Descriptors of the virtio disk driver (kernel/virtio_disk.c): allocation, chains and
 their release. Queue size and field names follow VIRTIO 1.1, sections 2.6 and 5.2.
 */
module Virtio {
  /** The part of a descriptor that links it: VRING_DESC_F_NEXT and next. */
  datatype Desc = Desc(more: bool, next: nat)

  /** head and the two descriptors behind it. */
  datatype Chain = Chain(d0: nat, d1: nat, d2: nat)

  ghost predicate Distinct(c: Chain, n: nat) {
    c.d0 < n && c.d1 < n && c.d2 < n && c.d0 != c.d1 && c.d1 != c.d2 && c.d0 != c.d2
  }

  /** The descriptors are linked as virtio_disk_rw links them. */
  ghost predicate Linked(desc: seq<Desc>, c: Chain) {
    Distinct(c, |desc|) && desc[c.d0] == Desc(true, c.d1) && desc[c.d1] == Desc(true, c.d2) && !desc[c.d2].more
  }

  ghost predicate InChain(c: Chain, i: nat) {
    i == c.d0 || i == c.d1 || i == c.d2
  }

  class Queue {
    var free: seq<bool>
    var desc: seq<Desc>

    ghost predicate Valid()
      reads this
    {
      |free| == |desc|
    }

    /** virtio_disk_init: every descriptor is free. */
    constructor (n: nat)
      ensures Valid() && |free| == n && forall k :: 0 <= k < n ==> free[k]
    {
      free, desc := seq(n, _ => true), seq(n, _ => Desc(false, 0));
    }

    /** alloc_desc: the lowest free descriptor, now taken; -1 when there is none. */
    method AllocDesc() returns (i: int)
      requires Valid()
      modifies this`free
      ensures Valid() && -1 <= i < |free|
      ensures i == -1 ==> free == old(free) && forall k :: 0 <= k < |free| ==> !free[k]
      ensures i >= 0 ==> old(free)[i] && free == old(free)[i := false] && forall k :: 0 <= k < i ==> !old(free)[k]
    {
      i := 0;
      while i < |free|
        invariant 0 <= i <= |free| && free == old(free) && forall k :: 0 <= k < i ==> !free[k]
      {
        if free[i] {
          free := free[i := false];
          return;
        }
        i := i + 1;
      }
      i := -1;
    }

    /** free_desc: false for its two panics. */
    method FreeDesc(i: nat) returns (ok: bool)
      requires Valid()
      modifies this
      ensures Valid() && (ok <==> i < |old(free)| && !old(free)[i])
      ensures !ok ==> free == old(free) && desc == old(desc)
      ensures ok ==> |free| == |old(free)| && free == old(free)[i := true] && desc == old(desc)[i := Desc(false, 0)]
    {
      ok := i < |free| && !free[i];
      if ok {
        desc := desc[i := Desc(false, 0)];
        free := free[i := true];
      }
    }

    /** alloc3_desc: three different descriptors that were free, or none and free[] as before. */
    method Alloc3() returns (ok: bool, c: Chain)
      requires Valid()
      modifies this
      ensures Valid() && |free| == |old(free)|
      ensures !ok ==> free == old(free) && forall x :: Distinct(x, |free|) ==> !(free[x.d0] && free[x.d1] && free[x.d2])
      ensures ok ==> Distinct(c, |free|) && desc == old(desc)
      ensures ok ==> (forall k :: 0 <= k < |free| ==> (InChain(c, k) ==> old(free)[k]) && free[k] == (old(free)[k] && !InChain(c, k)))
    {
      var d0 := AllocDesc();
      if d0 < 0 {
        return false, Chain(0, 0, 0);
      }
      var d1 := AllocDesc();
      if d1 < 0 {
        var ok0 := FreeDesc(d0);
        assert ok0 && free == old(free);
        return false, Chain(0, 0, 0);
      }
      var d2 := AllocDesc();
      if d2 < 0 {
        var ok0 := FreeDesc(d0);
        var ok1 := FreeDesc(d1);
        assert ok0 && ok1 && free == old(free);
        return false, Chain(0, 0, 0);
      }
      return true, Chain(d0, d1, d2);
    }

    /** free_chain: frees the three descriptors of the chain and no other; no panic. */
    method FreeChain(head: nat, ghost c: Chain) returns (ok: bool)
      requires Valid() && Linked(desc, c) && c.d0 == head && forall k :: 0 <= k < |free| && InChain(c, k) ==> !free[k]
      modifies this
      ensures Valid() && ok && |free| == |old(free)|
      ensures forall k :: 0 <= k < |free| ==> free[k] == (old(free)[k] || InChain(c, k))
      ensures forall k :: 0 <= k < |desc| ==> desc[k] == if InChain(c, k) then Desc(false, 0) else old(desc)[k]
    {
      var i := head;
      ghost var left := 3;
      ok := true;
      while true
        invariant Valid() && |free| == |old(free)| && 1 <= left <= 3 && ok
        invariant i == if left == 3 then c.d0 else if left == 2 then c.d1 else c.d2
        invariant forall k :: 0 <= k < |free| ==> free[k] == (old(free)[k] || (k == c.d0 && left < 3) || (k == c.d1 && left < 2))
        invariant forall k :: 0 <= k < |desc| ==> desc[k] == if (k == c.d0 && left < 3)
            || (k == c.d1 && left < 2) then Desc(false, 0) else old(desc)[k]
        decreases left
      {
        var more, next := desc[i].more, desc[i].next;
        ok := FreeDesc(i);
        if !more {
          return;
        }
        i := next;
        left := left - 1;
      }
    }
  }
}
