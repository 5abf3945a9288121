/**
 The inode table of kernel/fs.c: iget, idup, ilock, iput as atomic steps under
 itable.lock, and who holds a reference. A handle stands for one outstanding
 pointer returned by iget or idup.
 */
module InodeTable {
  datatype Id = Id(dev: nat, inum: nat)
  datatype Handle = Handle(pid: nat, n: nat)
  datatype Entry = Entry(id: Id, ref: nat, valid: bool)

  datatype Type = Free | Dir | Other
  datatype Dirent = Dirent(inum: nat, name: string)
  datatype Dinode = Dinode(typ: Type, nlink: nat, entries: seq<Dirent>)

  /** The inodes of the file system; a number not in the map has type 0. */
  type Volume = map<Id, Dinode>

  function TypeOf(vol: Volume, id: Id): Type {
    if id in vol then vol[id].typ else Free
  }

  /** Unlinked: an inode iput would free with its last reference. */
  predicate Unlinked(vol: Volume, id: Id) {
    id !in vol || vol[id].nlink == 0
  }

  /** One link less. */
  function Fewer(vol: Volume, id: Id): Volume {
    if Unlinked(vol, id) then vol else vol[id := vol[id].(nlink := vol[id].nlink - 1)]
  }

  /** Every inode in use has a link. */
  ghost predicate Linked(vol: Volume) {
    forall id :: id in vol && vol[id].typ != Free ==> vol[id].nlink > 0
  }

  /** What has been read from disk was in use there. */
  ghost predicate Typed(entry: seq<Entry>, vol: Volume) {
    forall k :: 0 <= k < |entry| && entry[k].ref > 0 && entry[k].valid ==> TypeOf(vol, entry[k].id) != Free
  }

  ghost function Holders(held: map<Handle, nat>, k: nat): set<Handle> {
    set h | h in held && held[h] == k
  }

  /** ref counts the outstanding handles, and an inode has one entry: `at` finds it. */
  ghost predicate TableOk(entry: seq<Entry>, held: map<Handle, nat>, at: map<Id, nat>) {
    && (forall h :: h in held ==> held[h] < |entry|)
    && (forall k :: 0 <= k < |entry| ==> entry[k].ref == |Holders(held, k)|)
    && (forall k :: 0 <= k < |entry| && entry[k].ref > 0 ==> entry[k].id in at && at[entry[k].id] == k)
  }

  lemma AtMostOneEntry(entry: seq<Entry>, held: map<Handle, nat>, at: map<Id, nat>, j: nat, k: nat)
    requires TableOk(entry, held, at) && j < |entry| && k < |entry|
    requires entry[j].ref > 0 && entry[k].ref > 0 && entry[j].id == entry[k].id
    ensures j == k
  {
  }

  lemma OnlyEntry(entry: seq<Entry>, held: map<Handle, nat>, at: map<Id, nat>, h: Handle)
    requires TableOk(entry, held, at) && h in held
    ensures held[h] < |entry|
    ensures forall j :: 0 <= j < |entry| && j != held[h] && entry[j].ref > 0 ==> entry[j].id != entry[held[h]].id
  {
    HolderCounts(entry, held, at, h);
  }

  lemma HolderCounts(entry: seq<Entry>, held: map<Handle, nat>, at: map<Id, nat>, h: Handle)
    requires TableOk(entry, held, at) && h in held
    ensures held[h] < |entry| && entry[held[h]].ref > 0
  {
    assert h in Holders(held, held[h]);
  }

  lemma HoldersAdd(held: map<Handle, nat>, h: Handle, k: nat, j: nat)
    requires h !in held
    ensures |Holders(held[h := k], j)| == |Holders(held, j)| + (if j == k then 1 else 0)
  {
    if j == k {
      assert Holders(held[h := k], j) == Holders(held, j) + {h};
    } else {
      assert Holders(held[h := k], j) == Holders(held, j);
    }
  }

  lemma HoldersDrop(held: map<Handle, nat>, h: Handle, j: nat)
    requires h in held
    ensures |Holders(held - {h}, j)| == |Holders(held, j)| - (if j == held[h] then 1 else 0)
  {
    if j == held[h] {
      assert Holders(held, j) == Holders(held - {h}, j) + {h};
    } else {
      assert Holders(held, j) == Holders(held - {h}, j);
    }
  }

  /** Handle h is the only one on its entry. */
  ghost predicate LastOf(held: map<Handle, nat>, h: Handle)
    requires h in held
  {
    forall g :: g in held && held[g] == held[h] ==> g == h
  }

  lemma OneIsLast(entry: seq<Entry>, held: map<Handle, nat>, at: map<Id, nat>, h: Handle)
    requires TableOk(entry, held, at) && h in held
    ensures held[h] < |entry| && (entry[held[h]].ref == 1 <==> LastOf(held, h))
  {
    var hs := Holders(held, held[h]);
    assert h in hs;
    if LastOf(held, h) { assert hs == {h}; }
    if |hs| == 1 {
      assert |hs - {h}| == 0;
      forall g | g in held && held[g] == held[h] ensures g == h { assert g !in hs - {h} && g in hs; }
    }
  }

  /** In use and without links, and nobody has a handle on it through an entry that was read: no
      iput will ever free it. */
  ghost predicate Orphan(entry: seq<Entry>, held: map<Handle, nat>, vol: Volume, id: Id) {
    && id in vol && vol[id].typ != Free && vol[id].nlink == 0
    && !exists h :: h in held && held[h] < |entry| && entry[held[h]].id == id && entry[held[h]].valid
  }

  /** One more handle on an entry in use. */
  lemma TakeKeeps(entry: seq<Entry>, held: map<Handle, nat>, at: map<Id, nat>, h: Handle, k: nat)
    requires TableOk(entry, held, at) && k < |entry| && entry[k].ref > 0 && h !in held
    ensures TableOk(entry[k := entry[k].(ref := entry[k].ref + 1)], held[h := k], at)
  {
    forall j | 0 <= j < |entry| ensures |Holders(held[h := k], j)| == |Holders(held, j)| + (if j == k then 1 else 0) {
      HoldersAdd(held, h, k, j);
    }
  }

  /** An unused entry recycled for an inode that has none. */
  lemma RecycleKeeps(entry: seq<Entry>, held: map<Handle, nat>, at: map<Id, nat>, h: Handle, k: nat, id: Id)
    requires TableOk(entry, held, at) && k < |entry| && entry[k].ref == 0 && h !in held
    requires forall j :: 0 <= j < |entry| && entry[j].ref > 0 ==> entry[j].id != id
    ensures TableOk(entry[k := Entry(id, 1, false)], held[h := k], at[id := k])
  {
    forall j | 0 <= j < |entry| ensures |Holders(held[h := k], j)| == |Holders(held, j)| + (if j == k then 1 else 0) {
      HoldersAdd(held, h, k, j);
    }
  }

  lemma DropKeeps(entry: seq<Entry>, held: map<Handle, nat>, at: map<Id, nat>, h: Handle)
    requires TableOk(entry, held, at) && h in held
    ensures held[h] < |entry| && entry[held[h]].ref > 0
    ensures TableOk(entry[held[h] := entry[held[h]].(ref := entry[held[h]].ref - 1)], held - {h}, at)
  {
    HolderCounts(entry, held, at, h);
    forall j | 0 <= j < |entry|
      ensures |Holders(held - {h}, j)| == |Holders(held, j)| - (if j == held[h] then 1 else 0)
    {
      HoldersDrop(held, h, j);
    }
  }

  lemma ValidKeeps(entry: seq<Entry>, held: map<Handle, nat>, at: map<Id, nat>, k: nat, v: bool)
    requires TableOk(entry, held, at) && k < |entry|
    ensures TableOk(entry[k := entry[k].(valid := v)], held, at)
  {
  }
  /** What process `me` holds. */
  ghost function Mine(held: map<Handle, nat>, me: nat): map<Handle, nat> {
    map h | h in held && h.pid == me :: held[h]
  }

  lemma MineAdd(held: map<Handle, nat>, me: nat, h: Handle, k: nat)
    ensures Mine(held[h := k], me) == if h.pid == me then Mine(held, me)[h := k] else Mine(held, me) - {h}
    ensures h !in held ==> Mine(held, me) - {h} == Mine(held, me)
  {
  }

  lemma MineDrop(held: map<Handle, nat>, me: nat, h: Handle)
    ensures Mine(held - {h}, me) == Mine(held, me) - {h}
    ensures h.pid != me ==> Mine(held, me) - {h} == Mine(held, me)
  {
  }

  /** Entries that `mine` refers to still stand for the same inodes. */
  ghost predicate SameIds(mine: map<Handle, nat>, entry: seq<Entry>, entry': seq<Entry>) {
    |entry| == |entry'| && forall h :: h in mine ==> mine[h] < |entry| && entry'[mine[h]].id == entry[mine[h]].id
  }

  /** A held entry is not recycled, so nobody's inodes change under them. */
  lemma IdsKept(entry: seq<Entry>, held: map<Handle, nat>, at: map<Id, nat>, entry': seq<Entry>, me: nat)
    requires TableOk(entry, held, at) && |entry'| == |entry|
    requires forall j :: 0 <= j < |entry| && entry[j].ref > 0 ==> entry'[j].id == entry[j].id
    ensures SameIds(Mine(held, me), entry, entry')
  {
    forall h | h in Mine(held, me) ensures held[h] < |entry| && entry'[held[h]].id == entry[held[h]].id {
      HolderCounts(entry, held, at, h);
    }
  }

  lemma SameIdsTrans(mine: map<Handle, nat>, e0: seq<Entry>, e1: seq<Entry>, e2: seq<Entry>)
    requires SameIds(mine, e0, e1) && SameIds(mine, e1, e2)
    ensures SameIds(mine, e0, e2)
  {
  }

  /** A step another process may take. */
  datatype Op = Get(h: Handle, id: Id) | Dup(from: Handle, h: Handle) | Put(h: Handle)

  /** The step of a process other than `me` was taken, if it could be. */
  ghost predicate Did(op: Op, me: nat, locked: set<Handle>, entry: seq<Entry>, held: map<Handle, nat>,
      entry': seq<Entry>, held': map<Handle, nat>)
  {
    match op
    case Get(h, id) =>
      if h.pid == me || h in held then held' == held && entry' == entry
      else if h in held' then held' == held[h := held'[h]] && held'[h] < |entry'| && entry'[held'[h]].id == id
      else held' == held && entry' == entry && forall j :: 0 <= j < |entry| ==> entry[j].ref > 0 && entry[j].id != id
    case Dup(from, h) => held' == if from in held && h.pid != me && h !in held then held[h := held[from]] else held
    case Put(h) => held' == if h in held && h.pid != me && h !in locked then held - {h} else held
  }

  /** One after the other. */
  ghost predicate DidAll(ops: seq<Op>, me: nat, locked: set<Handle>, entry: seq<Entry>, held: map<Handle, nat>,
      entry': seq<Entry>, held': map<Handle, nat>)
    decreases |ops|
  {
    if ops == [] then entry' == entry && held' == held
    else
      var n := |ops| - 1;
      exists e, h :: DidAll(ops[..n], me, locked, entry, held, e, h) && Did(ops[n], me, locked, e, h, entry', held')
  }

  lemma DidNext(ops: seq<Op>, i: nat, me: nat, locked: set<Handle>, entry: seq<Entry>, held: map<Handle, nat>,
      e: seq<Entry>, h: map<Handle, nat>, entry': seq<Entry>, held': map<Handle, nat>)
    requires i < |ops| && DidAll(ops[..i], me, locked, entry, held, e, h)
    requires Did(ops[i], me, locked, e, h, entry', held')
    ensures DidAll(ops[..i + 1], me, locked, entry, held, entry', held')
  {
    hide Did;
    assert ops[..i + 1][..i] == ops[..i];
  }

  /** A step any process may take. */
  datatype Call = Step(op: Op) | Lock(h: Handle) | Unlock(h: Handle) | Unlink(h: Handle)

  /** More handles, on entries that stay what they are while in use: no new orphans. */
  lemma OrphanGot(entry: seq<Entry>, entry': seq<Entry>, held: map<Handle, nat>, held': map<Handle, nat>,
      at: map<Id, nat>, vol: Volume, h: Handle)
    requires TableOk(entry, held, at) && |entry'| == |entry|
    requires forall g :: g in held ==> g in held' && held'[g] == held[g]
    requires forall j :: 0 <= j < |entry| && entry[j].ref > 0 ==> entry'[j].id == entry[j].id
    requires forall j :: 0 <= j < |entry| && entry[j].ref > 0 ==> entry'[j].valid == entry[j].valid
    ensures forall id :: Orphan(entry', held', vol, id) ==> Orphan(entry, held, vol, id)
  {
    forall g | g in held ensures held[g] < |entry| && entry[held[g]].ref > 0 { HolderCounts(entry, held, at, g); }
  }

  /** The last handle on an entry that was read frees the inode if it has no links. */
  lemma OrphanPut(entry: seq<Entry>, entry': seq<Entry>, held: map<Handle, nat>, held': map<Handle, nat>,
      at: map<Id, nat>, vol: Volume, vol': Volume, h: Handle)
    requires TableOk(entry, held, at) && h in held && |entry'| == |entry| && held' == held - {h}
    requires held[h] < |entry| && entry'[held[h]].id == entry[held[h]].id
    requires forall j :: 0 <= j < |entry| && j != held[h] ==> entry'[j] == entry[j]
    requires vol' == if LastOf(held, h) && entry[held[h]].valid && Unlinked(vol, entry[held[h]].id)
                     then vol[entry[held[h]].id := Dinode(Free, 0, [])] else vol
    requires entry'[held[h]].valid <==> entry[held[h]].valid && !(LastOf(held, h) && Unlinked(vol, entry[held[h]].id))
    ensures forall id :: Orphan(entry', held', vol', id) ==> Orphan(entry, held, vol, id)
  {
    var k := held[h];
    var other := if LastOf(held, h) then h else var f :| f in held && held[f] == k && f != h; f;
    forall id, g | g in held && held[g] < |entry| && entry[held[g]].id == id && entry[held[g]].valid
      ensures (id in vol' && vol'[id].typ == Free) || (id in vol && vol[id].nlink > 0)
          || exists f :: f in held' && held'[f] < |entry'| && entry'[held'[f]].id == id && entry'[held'[f]].valid
    {
      var f := if held[g] == k then other else g;
      assert f != h ==> f in held' && held'[f] == held[g];
    }
  }

  class ITable {
    var entry: seq<Entry>
    var vol: Volume
    var held: map<Handle, nat>
    ghost var at: map<Id, nat>
    var locked: set<Handle>

    ghost predicate Valid()
      reads this
    {
      TableOk(entry, held, at) && Typed(entry, vol)
    }

    /** iinit: nobody has a reference. */
    constructor (n: nat, vol: Volume)
      ensures Valid() && |entry| == n && held == map[] && locked == {} && this.vol == vol
      ensures forall k :: 0 <= k < n ==> entry[k].ref == 0 && !entry[k].valid
    {
      entry, held, at, locked := seq(n, _ => Entry(Id(0, 0), 0, false)), map[], map[], {};
      this.vol := vol;
      new;
      assert forall k :: 0 <= k < n ==> Holders(held, k) == {};
    }

    /** iget: k is the entry of the inode, one reference richer; -1 stands for the panic
        when every entry is in use by another inode. */
    method Iget(id: Id, h: Handle) returns (k: int)
      requires Valid() && h !in held
      modifies this`entry, this`held, this`at
      ensures Valid() && |entry| == |old(entry)|
      ensures k == -1 ==> entry == old(entry) && held == old(held)
                          && forall j :: 0 <= j < |entry| ==> entry[j].ref > 0 && entry[j].id != id
      ensures k != -1 ==> 0 <= k < |entry| && held == old(held)[h := k] && entry[k].id == id
      ensures k != -1 ==> entry[k].ref == old(entry)[k].ref + 1
      ensures k != -1 ==> forall j :: 0 <= j < |entry| && j != k ==> entry[j] == old(entry)[j]
      ensures k != -1 && old(entry)[k].ref > 0 ==> entry[k] == old(entry)[k].(ref := entry[k].ref)
      ensures k != -1 && old(entry)[k].ref == 0 ==> !entry[k].valid
      ensures k != -1 && old(entry)[k].ref == 0 ==>
                forall j :: 0 <= j < |entry| && old(entry)[j].ref > 0 ==> old(entry)[j].id != id
    {
      hide TableOk;
      var empty := -1;
      var i := 0;
      while i < |entry|
        invariant 0 <= i <= |entry| && -1 <= empty < i
        invariant forall j :: 0 <= j < i && entry[j].ref > 0 ==> entry[j].id != id
        invariant empty != -1 ==> entry[empty].ref == 0
        invariant empty == -1 ==> forall j :: 0 <= j < i ==> entry[j].ref > 0
      {
        if entry[i].ref > 0 && entry[i].id == id {
          TakeKeeps(entry, held, at, h, i);
          entry := entry[i := entry[i].(ref := entry[i].ref + 1)];
          held := held[h := i];
          return i;
        }
        if empty == -1 && entry[i].ref == 0 {
          empty := i;
        }
        i := i + 1;
      }
      if empty == -1 {
        return -1;
      }
      RecycleKeeps(entry, held, at, h, empty, id);
      entry := entry[empty := Entry(id, 1, false)];
      held := held[h := empty];
      at := at[id := empty];
      k := empty;
    }

    /** idup, by somebody who holds a reference already. */
    method Idup(k: nat, from: Handle, h: Handle)
      requires Valid() && from in held && held[from] == k && h !in held
      modifies this`entry, this`held
      ensures Valid() && k < |entry| == |old(entry)|
      ensures entry == old(entry)[k := old(entry)[k].(ref := old(entry)[k].ref + 1)] && held == old(held)[h := k]
    {
      hide TableOk;
      HolderCounts(entry, held, at, from);
      TakeKeeps(entry, held, at, h, k);
      entry := entry[k := entry[k].(ref := entry[k].ref + 1)];
      held := held[h := k];
    }

    /** ilock of a held inode; false stands for the panic on an inode of type 0. */
    method Ilock(k: nat, h: Handle) returns (ok: bool)
      requires Valid() && h in held && held[h] == k && h !in locked
      modifies this`entry, this`locked
      ensures Valid() && k < |entry| == |old(entry)| && locked == old(locked) + {h}
      ensures ok ==> entry == old(entry)[k := old(entry)[k].(valid := true)]
      ensures !ok ==> entry == old(entry)
      ensures ok <==> TypeOf(vol, entry[k].id) != Free
    {
      hide TableOk;
      HolderCounts(entry, held, at, h);
      ok := true;
      locked := locked + {h};
      if !entry[k].valid {
        ok := TypeOf(vol, entry[k].id) != Free;
        if ok {
          ValidKeeps(entry, held, at, k, true);
          entry := entry[k := entry[k].(valid := true)];
        }
      }
    }

    method Iunlock(h: Handle)
      requires h in locked
      modifies this`locked
      ensures locked == old(locked) - {h}
    {
      locked := locked - {h};
    }

    /** iput: one reference less; the last one frees an inode without links. */
    method Iput(k: nat, h: Handle)
      requires Valid() && h in held && held[h] == k && h !in locked
      modifies this`entry, this`vol, this`held
      ensures Valid() && k < |entry| == |old(entry)| && held == old(held) - {h}
      ensures entry[k].id == old(entry)[k].id && entry[k].ref == old(entry)[k].ref - 1
      ensures forall j :: 0 <= j < |entry| && j != k ==> entry[j] == old(entry)[j]
      ensures vol == if old(LastOf(held, h) && entry[k].valid && Unlinked(vol, entry[k].id))
                     then old(vol)[entry[k].id := Dinode(Free, 0, [])] else old(vol)
      ensures entry[k].valid <==> old(entry[k].valid && !(LastOf(held, h) && Unlinked(vol, entry[k].id)))
      ensures Linked(old(vol)) ==> vol == old(vol)
    {
      hide TableOk;
      OnlyEntry(entry, held, at, h);
      DropKeeps(entry, held, at, h);
      OneIsLast(entry, held, at, h);
      ghost var e := entry;
      if entry[k].ref == 1 && entry[k].valid && Unlinked(vol, entry[k].id) {
        vol := vol[entry[k].id := Dinode(Free, 0, [])];
        entry := entry[k := entry[k].(valid := false)];
      }
      ValidKeeps(e[k := e[k].(ref := e[k].ref - 1)], held - {h}, at, k, entry[k].valid);
      entry := entry[k := entry[k].(ref := entry[k].ref - 1)];
      held := held - {h};
      assert entry == e[k := e[k].(ref := e[k].ref - 1)][k := e[k].(ref := e[k].ref - 1).(valid := entry[k].valid)];
    }

    /** The end of unlink: an inode that is locked loses a link. */
    method Unlink(k: nat, h: Handle)
      requires Valid() && h in held && held[h] == k && h in locked && k < |entry| && entry[k].valid
      requires !Unlinked(vol, entry[k].id)
      modifies this`vol
      ensures Valid() && vol == Fewer(old(vol), entry[k].id)
    {
      vol := vol[entry[k].id := vol[entry[k].id].(nlink := vol[entry[k].id].nlink - 1)];
    }

    /** A step of any process, if it can be taken. It leaves no inode behind that nobody will free. */
    method Take(c: Call)
      requires Valid()
      modifies this
      ensures Valid() && forall id :: Orphan(entry, held, vol, id) ==> old(Orphan(entry, held, vol, id))
      ensures c.Step? ==> locked == old(locked) && Did(c.op, c.op.h.pid + 1, locked, old(entry), old(held), entry, held)
      ensures !c.Step? ==> held == old(held) && |entry| == |old(entry)|
      ensures c.Lock? ==> vol == old(vol) && locked == if c.h in held then old(locked) + {c.h} else old(locked)
      ensures c.Lock? && c.h in held && c.h !in old(locked) ==>
                held[c.h] < |entry| && (entry[held[c.h]].valid || TypeOf(vol, entry[held[c.h]].id) == Free)
      ensures c.Unlock? ==> vol == old(vol) && entry == old(entry) && locked == old(locked) - {c.h}
      ensures c.Unlink? ==> entry == old(entry) && locked == old(locked)
      ensures c.Unlink? && c.h in held && c.h in locked && held[c.h] < |entry| && entry[held[c.h]].valid ==>
                vol == old(Fewer(vol, entry[held[c.h]].id))
    {
      hide TableOk, Typed;
      match c {
        case Lock(h) =>
          if h in held && h !in locked {
            HolderCounts(entry, held, at, h);
            var _ := Ilock(held[h], h);
          }
        case Unlock(h) =>
          if h in locked { Iunlock(h); }
        case Unlink(h) =>
          if h in held && h in locked {
            HolderCounts(entry, held, at, h);
            if entry[held[h]].valid && !Unlinked(vol, entry[held[h]].id) { Unlink(held[h], h); }
          }
        case Step(op) => TakeStep(op);
      }
    }

    method TakeStep(op: Op)
      requires Valid()
      modifies this`entry, this`vol, this`held, this`at
      ensures Valid() && forall id :: Orphan(entry, held, vol, id) ==> old(Orphan(entry, held, vol, id))
      ensures Did(op, op.h.pid + 1, locked, old(entry), old(held), entry, held)
    {
      hide TableOk, Typed;
      match op {
        case Get(h, id) =>
          if h !in held {
            var k := Iget(id, h);
            OrphanGot(old(entry), entry, old(held), held, old(at), vol, h);
          }
        case Dup(from, h) =>
          if from in held && h !in held {
            Idup(held[from], from, h);
            OrphanGot(old(entry), entry, old(held), held, old(at), vol, h);
          }
        case Put(h) =>
          if h in held && h !in locked {
            Iput(held[h], h);
            OrphanPut(old(entry), entry, old(held), held, old(at), old(vol), vol, h);
          }
      }
    }

    /** Any steps of any processes. */
    method Run(cs: seq<Call>)
      requires Valid()
      modifies this
      ensures Valid() && forall id :: Orphan(entry, held, vol, id) ==> old(Orphan(entry, held, vol, id))
    {
      hide TableOk, Typed, Orphan;
      for i := 0 to |cs|
        invariant Valid() && forall id :: Orphan(entry, held, vol, id) ==> old(Orphan(entry, held, vol, id))
      {
        Take(cs[i]);
      }
    }

    method OtherStep(me: nat, op: Op)
      requires Valid()
      modifies this`entry, this`vol, this`held, this`at
      ensures Valid() && Mine(held, me) == Mine(old(held), me) && SameIds(Mine(held, me), old(entry), entry)
      ensures Linked(old(vol)) ==> vol == old(vol)
      ensures Did(op, me, locked, old(entry), old(held), entry, held)
    {
      hide TableOk, Typed, Linked, SameIds, Mine;
      match op {
        case Get(h, id) =>
          if h.pid != me && h !in held {
            var k := Iget(id, h);
            if k != -1 { MineAdd(old(held), me, h, k); }
          }
        case Dup(from, h) =>
          if from in held && h.pid != me && h !in held {
            Idup(held[from], from, h);
            MineAdd(old(held), me, h, old(held)[from]);
          }
        case Put(h) =>
          if h in held && h.pid != me && h !in locked {
            Iput(held[h], h);
            MineDrop(old(held), me, h);
          }
      }
      IdsKept(old(entry), old(held), old(at), entry, me);
    }

    /** Steps of other processes, in any order and number. Process `me` keeps its
        references, and they keep standing for the same inodes. */
    method Others(me: nat, ops: seq<Op>)
      requires Valid()
      modifies this`entry, this`vol, this`held, this`at
      ensures Valid() && Mine(held, me) == Mine(old(held), me) && SameIds(Mine(held, me), old(entry), entry)
      ensures Linked(old(vol)) ==> vol == old(vol)
      ensures ops == [] ==> held == old(held)
      ensures DidAll(ops, me, locked, old(entry), old(held), entry, held)
    {
      hide TableOk, Typed, Linked, SameIds, Mine, Did;
      IdsKept(entry, held, at, entry, me);
      for i := 0 to |ops|
        invariant Valid() && Mine(held, me) == Mine(old(held), me) && SameIds(Mine(held, me), old(entry), entry)
        invariant Linked(old(vol)) ==> vol == old(vol)
        invariant i == 0 ==> held == old(held)
        invariant DidAll(ops[..i], me, locked, old(entry), old(held), entry, held)
      {
        ghost var e, h := entry, held;
        OtherStep(me, ops[i]);
        SameIdsTrans(Mine(held, me), old(entry), e, entry);
        DidNext(ops, i, me, locked, old(entry), old(held), e, h, entry, held);
      }
      assert ops[..|ops|] == ops;
    }
  }
}
