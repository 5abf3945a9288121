/**
 What itrunc (kernel/fs.c) frees: the blocks an inode owns, taken in the order of its
 loops. The inode's image names freed blocks while the loops run, so the state is
 described against the image it started from.
 */
module Truncate {
  import opened DiskImage
  import opened FileBytes

  /** The order of itrunc: direct slots, entries of the indirect block, that block itself. */
  function Rank(k: nat): nat {
    if k < NDIRECT then k else if k == NDIRECT then NSLOT - 1 else k - 1
  }

  function Unrank(n: nat): nat {
    if n < NDIRECT then n else if n == NSLOT - 1 then NDIRECT else n + 1
  }

  /** The blocks of inode i among its first n slots in that order. */
  ghost function Freed(owner: map<nat, Owner>, i: nat, n: nat): set<nat> {
    set b | b in owner && owner[b].i == i && Rank(owner[b].k) < n
  }

  /** The owners left once inode i has nothing. */
  ghost function Disowned(owner: map<nat, Owner>, i: nat): map<nat, Owner> {
    map b | b in owner && owner[b].i != i :: owner[b]
  }

  function NoAddrs(): (r: seq<nat>)
    ensures |r| == NDIRECT + 1
    ensures forall k :: 0 <= k <= NDIRECT ==> r[k] == 0
  {
    seq(NDIRECT + 1, _ => 0)
  }

  ghost function Truncated(m: Image, owner: map<nat, Owner>, i: nat): Image
    requires i < |m.inode|
  {
    Image(m.used - Freed(owner, i, NSLOT), m.data, m.inode[i := m.inode[i].(addrs := NoAddrs(), size := 0)])
  }

  /** addrs with its first n direct entries cleared. */
  function Cleared(addrs: seq<nat>, n: nat): (r: seq<nat>)
    ensures |r| == |addrs|
  {
    seq(|addrs|, k requires 0 <= k < |addrs| => if k < n then 0 else addrs[k])
  }

  lemma ClearedSteps(addrs: seq<nat>, n: nat)
    requires n < |addrs|
    ensures Cleared(addrs, 0) == addrs
    ensures Cleared(addrs, n)[n] == addrs[n]
    ensures Cleared(addrs, n + 1) == if addrs[n] == 0 then Cleared(addrs, n) else Cleared(addrs, n)[n := 0]
    ensures |addrs| == NDIRECT + 1 ==> Cleared(addrs, NDIRECT)[NDIRECT := 0] == NoAddrs()
  {
  }

  /** Without an indirect block there is nothing to free beyond the direct entries. */
  lemma FreedDirectOnly(m: Image, dstart: nat, owner: map<nat, Owner>, i: nat)
    requires Owned(m, dstart, owner) && i < |m.inode| && Slot(m, i, NDIRECT) == 0
    ensures Freed(owner, i, NSLOT) == Freed(owner, i, NDIRECT)
  {
    forall b | b in owner && owner[b].i == i ensures Rank(owner[b].k) < NDIRECT {
      assert NamedBy(m, owner[b], b);
    }
  }

  lemma FreedNone(owner: map<nat, Owner>, i: nat)
    ensures Freed(owner, i, 0) == {}
  {
  }

  /** The next slot: empty, or a block that is still marked. */
  lemma FreeStep(m: Image, dstart: nat, owner: map<nat, Owner>, i: nat, n: nat)
    requires Owned(m, dstart, owner) && i < |m.inode| && n < NSLOT
    ensures Unrank(n) < NSLOT
    ensures var b := Slot(m, i, Unrank(n));
            && b < |m.data|
            && (b == 0 ==> Freed(owner, i, n + 1) == Freed(owner, i, n))
            && (b != 0 ==> b in m.used - Freed(owner, i, n) && dstart <= b < |m.data| && Freed(owner, i, n + 1) == Freed(owner, i, n) + {b})
  {
    var k := Unrank(n);
    var b := Slot(m, i, k);
    forall x | x in owner && owner[x].i == i && Rank(owner[x].k) == n ensures x == b && b != 0 {
      assert NamedBy(m, owner[x], x);
      assert owner[x].k == k;
    }
    if b != 0 {
      assert b in owner && owner[b] == Owner(i, k);
    }
  }

  /** itrunc leaves every remaining block with its one owner, and no block of inode i marked. */
  lemma TruncatedOwned(m: Image, dstart: nat, owner: map<nat, Owner>, i: nat)
    requires Owned(m, dstart, owner) && i < |m.inode|
    ensures Shape(Truncated(m, owner, i)) && Owned(Truncated(m, owner, i), dstart, Disowned(owner, i))
  {
    var m' := Truncated(m, owner, i);
    assert Shape(m');
    forall x, k | 0 <= x < |m.inode| && 0 <= k < NSLOT ensures Slot(m', x, k) == if x == i then 0 else Slot(m, x, k) {
    }
    forall b | b in Disowned(owner, i) ensures NamedBy(m', owner[b], b) && b in m'.used {
      assert NamedBy(m, owner[b], b);
    }
  }

  /** The file is empty; the others keep their bytes. */
  lemma TruncatedFiles(m: Image, owner: map<nat, Owner>, i: nat)
    requires Shape(m) && FilesOk(m) && i < |m.inode| && Shape(Truncated(m, owner, i))
    ensures FilesOk(Truncated(m, owner, i)) && Content(Truncated(m, owner, i), i) == []
    ensures forall j :: 0 <= j < |m.inode| && j != i ==> SameFile(m, Truncated(m, owner, i), j)
  {
    var m' := Truncated(m, owner, i);
    forall j | 0 <= j < |m.inode| && j != i
      ensures Backed(m', j, m'.inode[j].size) && SameFile(m, m', j)
    {
      assert Backed(m, j, m.inode[j].size);
      forall k | 0 <= k < NSLOT ensures Slot(m', j, k) == Slot(m, j, k) { }
      forall x | 0 <= x < m.inode[j].size ensures ByteAt(m', j, x) == ByteAt(m, j, x) {
        assert Slot(m', j, SlotOf(x / BSIZE)) == Slot(m, j, SlotOf(x / BSIZE));
      }
    }
    assert Backed(m', i, 0);
  }
}
