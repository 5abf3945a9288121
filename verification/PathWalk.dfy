/**
 skipelem, dirlookup and namex of kernel/fs.c. Paths are strings without the
 terminating NUL. Between any two steps on the inode table other processes may take
 any number of steps: `others` lists them.
 */
module PathWalk {
  import opened Common
  import opened InodeTable

  const DIRSIZ: nat := 14
  const ROOT: Id := Id(1, 1)

  // ------------------------------------------------------------------- path elements

  /** The length of the run of characters before the first slash. */
  function Run(s: string): (n: nat)
    ensures n <= |s| && (forall i :: 0 <= i < n ==> s[i] != '/') && (n < |s| ==> s[n] == '/')
  {
    if s == [] || s[0] == '/' then 0 else 1 + Run(s[1..])
  }

  /** The names in a path, in order, each as long as it was written. */
  function Elements(s: string): (es: seq<string>)
    ensures forall i :: 0 <= i < |es| ==> es[i] != "" && '/' !in es[i]
    decreases |s|
  {
    if s == "" then []
    else if s[0] == '/' then Elements(s[1..])
    else [s[..Run(s)]] + Elements(s[Run(s)..])
  }

  /** The path that names `es`. */
  function Join(es: seq<string>): string {
    if es == [] then "" else "/" + es[0] + Join(es[1..])
  }

  lemma RunOf(e: string, rest: string)
    requires '/' !in e && (rest == "" || rest[0] == '/')
    ensures Run(e + rest) == |e|
  {
    if e == "" {
      assert e + rest == rest;
    } else {
      assert (e + rest)[1..] == e[1..] + rest;
      RunOf(e[1..], rest);
    }
  }

  /** Splitting undoes joining. */
  lemma {:induction false} ElementsOfJoin(es: seq<string>)
    requires forall i :: 0 <= i < |es| ==> es[i] != "" && '/' !in es[i]
    ensures Elements(Join(es)) == es
  {
    if es != [] {
      var rest := Join(es[1..]);
      var s := es[0] + rest;
      assert Join(es) == "/" + s;
      assert Join(es)[1..] == s;
      RunOf(es[0], rest);
      assert s[..|es[0]|] == es[0] && s[|es[0]|..] == rest;
      ElementsOfJoin(es[1..]);
    }
  }

  /** What the name buffer holds after an element was copied into it. */
  function Clip(e: string): string {
    if |e| >= DIRSIZ then e[..DIRSIZ] else e
  }

  predicate AllSlash(s: string) {
    forall i :: 0 <= i < |s| ==> s[i] == '/'
  }

  predicate NoSlash(s: string) {
    forall i :: 0 <= i < |s| ==> s[i] != '/'
  }

  lemma {:induction false} SkipSlashes(a: string, t: string)
    requires AllSlash(a)
    ensures Elements(a + t) == Elements(t)
  {
    if a == "" {
      assert a + t == t;
    } else {
      assert (a + t)[1..] == a[1..] + t;
      SkipSlashes(a[1..], t);
    }
  }

  lemma FirstElement(e: string, t: string)
    requires e != "" && NoSlash(e) && (t == "" || t[0] == '/')
    ensures Elements(e + t) == [e] + Elements(t)
  {
    RunOf(e, t);
    assert (e + t)[..|e|] == e && (e + t)[|e|..] == t;
  }

  lemma NothingLeft(t: string)
    requires t == "" || t[0] != '/'
    ensures t == "" <==> Elements(t) == []
  {
  }

  /** Slashes, an element, slashes, and the rest. */
  lemma SplitAt(a: string, e: string, b: string, rest: string)
    requires AllSlash(a) && e != "" && NoSlash(e) && AllSlash(b)
    requires rest == "" || (b != "" && rest[0] != '/')
    ensures Elements(a + e + b + rest) == [e] + Elements(rest)
    ensures rest == "" <==> Elements(rest) == []
  {
    hide Elements;
    assert a + e + b + rest == a + (e + (b + rest));
    SkipSlashes(a, e + (b + rest));
    FirstElement(e, b + rest);
    SkipSlashes(b, rest);
    NothingLeft(rest);
  }

  lemma OnlySlashes(path: string)
    requires AllSlash(path)
    ensures Elements(path) == []
  {
    assert path + "" == path;
    SkipSlashes(path, "");
  }

  lemma Pieces(path: string, s: nat, e: nat, i: nat)
    requires s < e <= i <= |path| && (forall j :: 0 <= j < s ==> path[j] == '/')
    requires (forall j :: s <= j < e ==> path[j] != '/') && (forall j :: e <= j < i ==> path[j] == '/')
    requires i < |path| ==> e < i && path[i] != '/'
    ensures path == path[..s] + path[s..e] + path[e..i] + path[i..]
    ensures AllSlash(path[..s]) && NoSlash(path[s..e]) && path[s..e] != "" && AllSlash(path[e..i])
    ensures path[i..] == "" || (path[e..i] != "" && path[i..][0] != '/')
  {
  }

  lemma ClipOf(path: string, s: nat, e: nat)
    requires s <= e <= |path|
    ensures Clip(path[s..e]) == if e - s >= DIRSIZ then path[s..s + DIRSIZ] else path[s..e]
  {
  }

  lemma Skipped(path: string, s: nat, e: nat, i: nat)
    requires s < e <= i <= |path| && (forall j :: 0 <= j < s ==> path[j] == '/')
    requires (forall j :: s <= j < e ==> path[j] != '/') && (forall j :: e <= j < i ==> path[j] == '/')
    requires i < |path| ==> e < i && path[i] != '/'
    ensures Elements(path) != [] && Elements(path[i..]) == Elements(path)[1..]
    ensures Clip(Elements(path)[0]) == if e - s >= DIRSIZ then path[s..s + DIRSIZ] else path[s..e]
    ensures path[i..] == "" <==> Elements(path[i..]) == []
  {
    hide Elements, Run, Clip, AllSlash, NoSlash;
    Pieces(path, s, e, i);
    ClipOf(path, s, e);
    var rest := path[i..];
    SplitAt(path[..s], path[s..e], path[e..i], rest);
    assert ([path[s..e]] + Elements(rest))[1..] == Elements(rest);
  }

  /** skipelem: the next element and the path after it; false for the null pointer. */
  method Skipelem(path: string) returns (more: bool, rest: string, name: string)
    ensures more <==> Elements(path) != []
    ensures more ==> name == Clip(Elements(path)[0]) && Elements(rest) == Elements(path)[1..]
    ensures more ==> |rest| < |path| && (rest == "" <==> Elements(rest) == [])
  {
    hide Elements, Run, Clip;
    var i := 0;
    while i < |path| && path[i] == '/'
      invariant i <= |path| && forall j :: 0 <= j < i ==> path[j] == '/'
    {
      i := i + 1;
    }
    rest, name := "", "";
    if i == |path| {
      OnlySlashes(path);
      return false, rest, name;
    }
    var s := i;
    while i < |path| && path[i] != '/'
      invariant s <= i <= |path| && forall j :: s <= j < i ==> path[j] != '/'
    {
      i := i + 1;
    }
    var len := i - s;
    name := if len >= DIRSIZ then path[s..s + DIRSIZ] else path[s..s + len];
    while i < |path| && path[i] == '/'
      invariant s + len <= i <= |path| && (i == s + len < |path| ==> path[i] == '/')
      invariant forall j :: s + len <= j < i ==> path[j] == '/'
    {
      i := i + 1;
    }
    Skipped(path, s, s + len, i);
    rest := path[i..];
    more := true;
  }

  // ------------------------------------------------------------------- walking a path

  /** The inode number of the first used entry with this name. */
  function Lookup(es: seq<Dirent>, name: string): Option<nat> {
    if es == [] then None
    else if es[0].inum != 0 && es[0].name == name then Some(es[0].inum)
    else Lookup(es[1..], name)
  }

  /** Where a path leads: to the inode of its last element, or, for `parent`, to the
      directory that holds that element. */
  function Walk(vol: Volume, id: Id, es: seq<string>, parent: bool): Option<Id>
    decreases |es|
  {
    if es == [] then
      if parent then None else Some(id)
    else if TypeOf(vol, id) != Dir then None
    else if parent && |es| == 1 then Some(id)
    else
      var n := Lookup(vol[id].entries, Clip(es[0]));
      if n == None then None else Walk(vol, Id(id.dev, n.value), es[1..], parent)
  }

  datatype Outcome = Panic | Gone | Stop | Next(k: nat)

  /** What one element of the path leads to. */
  function Element(vol: Volume, id: Id, name: string, stop: bool): Option<Id> {
    if TypeOf(vol, id) != Dir then None
    else if stop then Some(id)
    else
      var n := Lookup(vol[id].entries, name);
      if n == None then None else Some(Id(id.dev, n.value))
  }

  /** Entry i is in use, has this name, and no entry before it is and does. */
  ghost predicate FirstUse(es: seq<Dirent>, name: string, i: nat) {
    && i < |es| && es[i].inum != 0 && es[i].name == name
    && forall j :: 0 <= j < i ==> !(es[j].inum != 0 && es[j].name == name)
  }

  /** A name is looked up to the number of the first entry in use with that name, if there is one. */
  lemma LookupIs(es: seq<Dirent>, name: string, n: nat)
    ensures Lookup(es, name) == Some(n) <==> exists i: nat :: FirstUse(es, name, i) && es[i].inum == n
    ensures Lookup(es, name) == None <==> forall i :: 0 <= i < |es| ==> !(es[i].inum != 0 && es[i].name == name)
  {
    if i: nat :| FirstUse(es, name, i) {
      LookupFrom(es, i, name);
      assert es[i..][0] == es[i];
      forall j: nat | FirstUse(es, name, j) ensures j == i { }
    } else {
      NoUse(es, name, |es|);
      LookupFrom(es, |es|, name);
    }
  }

  lemma {:induction false} NoUse(es: seq<Dirent>, name: string, n: nat)
    requires n <= |es| && forall i: nat :: !FirstUse(es, name, i)
    ensures forall j :: 0 <= j < n ==> !(es[j].inum != 0 && es[j].name == name)
  {
    if n > 0 {
      NoUse(es, name, n - 1);
      assert !FirstUse(es, name, n - 1);
    }
  }

  /** `ids` goes along the names: each is a directory in which the next name leads to the next. */
  ghost predicate Trail(vol: Volume, es: seq<string>, ids: seq<Id>) {
    && |ids| == |es| + 1
    && forall k :: 0 <= k < |es| ==> TrailStep(vol, es, ids, k)
  }

  ghost predicate TrailStep(vol: Volume, es: seq<string>, ids: seq<Id>, k: nat)
    requires k < |es| && |ids| == |es| + 1
  {
    && TypeOf(vol, ids[k]) == Dir && ids[k + 1].dev == ids[k].dev
    && Lookup(vol[ids[k]].entries, Clip(es[k])) == Some(ids[k + 1].inum)
  }

  /** A path leads to the end of its trail; for its parent, the last name is left out and what the
      others lead to must be a directory. */
  lemma {:induction false} WalkIs(vol: Volume, id: Id, es: seq<string>, x: Id)
    ensures Walk(vol, id, es, false) == Some(x) <==>
            exists ids :: Trail(vol, es, ids) && ids[0] == id && ids[|es|] == x
    ensures Walk(vol, id, es, true) == Some(x) <==>
            es != [] && Walk(vol, id, es[..|es| - 1], false) == Some(x) && TypeOf(vol, x) == Dir
    decreases |es|
  {
    hide Lookup, Clip;
    if es == [] {
      if Walk(vol, id, es, false) == Some(x) { assert Trail(vol, es, [id]); }
    } else {
      var n := if TypeOf(vol, id) == Dir then Lookup(vol[id].entries, Clip(es[0])) else None;
      if n.Some? {
        WalkIs(vol, Id(id.dev, n.value), es[1..], x);
        assert |es| > 1 ==> es[1..][..|es| - 2] == es[..|es| - 1][1..];
      }
      TrailFront(vol, id, es, x);
    }
  }

  lemma TrailFront(vol: Volume, id: Id, es: seq<string>, x: Id)
    requires es != []
    ensures var n := if TypeOf(vol, id) == Dir then Lookup(vol[id].entries, Clip(es[0])) else None;
            (exists ids :: Trail(vol, es, ids) && ids[0] == id && ids[|es|] == x) <==>
            n.Some? && exists ids :: Trail(vol, es[1..], ids) && ids[0] == Id(id.dev, n.value) && ids[|es| - 1] == x
  {
    hide Lookup, Clip;
    var n := if TypeOf(vol, id) == Dir then Lookup(vol[id].entries, Clip(es[0])) else None;
    if ids :| Trail(vol, es, ids) && ids[0] == id && ids[|es|] == x {
      assert TrailStep(vol, es, ids, 0);
      var rest := ids[1..];
      forall k | 0 <= k < |es[1..]| ensures TrailStep(vol, es[1..], rest, k) { assert TrailStep(vol, es, ids, k + 1); }
      assert Trail(vol, es[1..], rest) && rest[0] == Id(id.dev, n.value) && rest[|es| - 1] == x;
    }
    if n.Some? {
      if rest :| Trail(vol, es[1..], rest) && rest[0] == Id(id.dev, n.value) && rest[|es| - 1] == x {
        var ids := [id] + rest;
        forall k | 0 <= k < |es| ensures TrailStep(vol, es, ids, k) {
          if k > 0 { assert TrailStep(vol, es[1..], rest, k - 1); }
        }
        assert Trail(vol, es, ids) && ids[0] == id && ids[|es|] == x;
      }
    }
  }

  lemma LookupFrom(es: seq<Dirent>, i: nat, name: string)
    requires i <= |es| && forall j :: 0 <= j < i ==> !(es[j].inum != 0 && es[j].name == name)
    ensures Lookup(es, name) == Lookup(es[i..], name)
  {
    if i > 0 {
      assert es[1..][i - 1..] == es[i..];
      LookupFrom(es[1..], i - 1, name);
    }
  }

  /** The scan of dirlookup. */
  method Scan(es: seq<Dirent>, name: string) returns (r: Option<nat>)
    ensures r == Lookup(es, name)
    ensures r.Some? ==> exists i: nat :: FirstUse(es, name, i) && es[i].inum == r.value
  {
    var i := 0;
    while i < |es|
      invariant i <= |es| && forall j :: 0 <= j < i ==> !(es[j].inum != 0 && es[j].name == name)
    {
      if es[i].inum != 0 && es[i].name == name {
        LookupFrom(es, i, name);
        assert FirstUse(es, name, i);
        return Some(es[i].inum);
      }
      i := i + 1;
    }
    LookupFrom(es, |es|, name);
    r := None;
  }

  /** Process `me` ends with h2 in place of h, with h, or with neither. */
  ghost predicate Handed(mine: map<Handle, nat>, mine': map<Handle, nat>, h: Handle, h2: Handle, out: Outcome) {
    match out
    case Panic => true
    case Gone => mine' == mine - {h}
    case Stop => mine' == mine
    case Next(k) => mine' == (mine - {h})[h2 := k]
  }

  /** iput, with steps of others before it. */
  method Release(t: ITable, me: nat, k: nat, h: Handle, ops: seq<Op>)
    requires t.Valid() && h !in t.locked && h in t.held && t.held[h] == k && h.pid == me
    modifies t
    ensures t.Valid() && t.locked == old(t.locked)
    ensures Mine(t.held, me) == Mine(old(t.held), me) - {h} && (ops == [] ==> t.held == old(t.held) - {h})
    ensures SameIds(Mine(t.held, me), old(t.entry), t.entry)
    ensures Linked(old(t.vol)) ==> t.vol == old(t.vol)
  {
    hide TableOk, Typed, Linked, SameIds;
    t.Others(me, ops);
    ghost var e, held, at := t.entry, t.held, t.at;
    assert h in Mine(held, me);
    t.Iput(k, h);
    MineDrop(held, me, h);
    IdsKept(e, held, at, t.entry, me);
    SameIdsLess(Mine(held, me), Mine(t.held, me), old(t.entry), e, t.entry);
  }

  /** iunlockput. */
  method Iunlockput(t: ITable, me: nat, k: nat, h: Handle, ops: seq<Op>)
    requires t.Valid() && h in t.locked && h in t.held && t.held[h] == k && h.pid == me
    modifies t
    ensures t.Valid() && t.locked == old(t.locked) - {h}
    ensures Mine(t.held, me) == Mine(old(t.held), me) - {h} && (ops == [] ==> t.held == old(t.held) - {h})
    ensures SameIds(Mine(t.held, me), old(t.entry), t.entry)
    ensures Linked(old(t.vol)) ==> t.vol == old(t.vol)
  {
    hide TableOk, Typed, Linked, SameIds, Mine;
    t.Iunlock(h);
    Release(t, me, k, h, ops);
  }

  lemma SameIdsLess(mine: map<Handle, nat>, mine': map<Handle, nat>, e0: seq<Entry>, e1: seq<Entry>, e2: seq<Entry>)
    requires SameIds(mine, e0, e1) && SameIds(mine, e1, e2)
    requires forall h :: h in mine' ==> h in mine && mine'[h] == mine[h]
    ensures SameIds(mine', e0, e2)
  {
  }

  /** Every entry of the table is in use. */
  ghost predicate FullTable(entry: seq<Entry>) {
    forall j :: 0 <= j < |entry| ==> entry[j].ref > 0
  }

  /** Handle h is on an inode of type 0. */
  ghost predicate OnFree(entry: seq<Entry>, held: map<Handle, nat>, vol: Volume, h: Handle) {
    h in held && held[h] < |entry| && TypeOf(vol, entry[held[h]].id) == Free
  }

  /** dirlookup in the locked directory of handle h: a new handle h2 on the inode found. */
  method Dirlookup(t: ITable, me: nat, k: nat, h: Handle, name: string, h2: Handle, ops: seq<Op>) returns (out: Outcome)
    requires t.Valid() && h in t.held && t.held[h] == k && h.pid == h2.pid == me && h2 !in t.held
    requires k < |t.entry| && TypeOf(t.vol, t.entry[k].id) == Dir
    modifies t`entry, t`vol, t`held, t`at
    ensures t.Valid() && out != Stop
    ensures out == Gone ==> Mine(t.held, me) == Mine(old(t.held), me) && (ops == [] ==> t.held == old(t.held))
    ensures out.Next? ==> Mine(t.held, me) == Mine(old(t.held), me)[h2 := out.k]
    ensures out.Next? ==> (ops == [] ==> t.held == old(t.held)[h2 := out.k])
    ensures SameIds(Mine(old(t.held), me), old(t.entry), t.entry)
    ensures Linked(old(t.vol)) ==> t.vol == old(t.vol)
    ensures out == Gone ==> Element(old(t.vol), old(t.entry)[k].id, name, false) == None
    ensures out == Panic ==> FullTable(t.entry)
    ensures out.Next? ==> out.k < |t.entry|
    ensures out.Next? ==> Element(old(t.vol), old(t.entry)[k].id, name, false) == Some(t.entry[out.k].id)
  {
    hide TableOk, Typed, Linked, SameIds;
    var dev := t.entry[k].id.dev;
    var n := Scan(t.vol[t.entry[k].id].entries, name);
    assert h in Mine(t.held, me) && h2 !in Mine(t.held, me);
    t.Others(me, ops);
    if n == None {
      return Gone;
    }
    assert h2 !in t.held by { assert h2 !in Mine(t.held, me); }
    ghost var e, held, at := t.entry, t.held, t.at;
    var r := t.Iget(Id(dev, n.value), h2);
    IdsKept(e, held, at, t.entry, me);
    SameIdsTrans(Mine(held, me), old(t.entry), e, t.entry);
    if r == -1 {
      return Panic;
    }
    MineAdd(held, me, h2, r);
    out := Next(r);
  }

  /** The turn for one name led where Element says. */
  ghost predicate Leads(vol: Volume, entry: seq<Entry>, entry': seq<Entry>, k: nat, name: string, stop: bool,
      out: Outcome)
    requires k < |entry|
  {
    match out
    case Panic => true
    case Gone => Element(vol, entry[k].id, name, stop) == None
    case Stop => stop && k < |entry'| && Element(vol, entry[k].id, name, stop) == Some(entry'[k].id)
    case Next(k2) => !stop && k2 < |entry'| && Element(vol, entry[k].id, name, stop) == Some(entry'[k2].id)
  }

  lemma StillMine(held: map<Handle, nat>, held': map<Handle, nat>, me: nat, h: Handle, entry: seq<Entry>,
      entry': seq<Entry>)
    requires Mine(held', me) == Mine(held, me) && h.pid == me && SameIds(Mine(held, me), entry, entry')
    ensures h in held' <==> h in held
    ensures h in held ==> held'[h] == held[h] < |entry| == |entry'| && entry'[held[h]].id == entry[held[h]].id
  {
    assert h in held <==> h in Mine(held, me);
    assert h in held' <==> h in Mine(held', me);
  }

  /** ilock, with steps of others before it. */
  method Lock(t: ITable, me: nat, k: nat, h: Handle, ops: seq<Op>) returns (ok: bool)
    requires t.Valid() && h in t.held && t.held[h] == k && h.pid == me && h !in t.locked
    modifies t
    ensures t.Valid() && t.locked == old(t.locked) + {h}
    ensures Mine(t.held, me) == Mine(old(t.held), me) && SameIds(Mine(t.held, me), old(t.entry), t.entry)
    ensures ops == [] ==> t.held == old(t.held)
    ensures Linked(old(t.vol)) ==> t.vol == old(t.vol)
    ensures ok <==> !OnFree(t.entry, t.held, t.vol, h)
  {
    hide TableOk, Typed, Linked, SameIds, Mine;
    t.Others(me, ops);
    StillMine(old(t.held), t.held, me, h, old(t.entry), t.entry);
    ghost var e := t.entry;
    ok := t.Ilock(k, h);
    IdsKept(e, t.held, t.at, e, me);
    IdsKept(e, t.held, t.at, t.entry, me);
    SameIdsTrans(Mine(t.held, me), old(t.entry), e, t.entry);
  }

  /** One turn of the loop of namex, for one name of the path. */
  method WalkStep(t: ITable, me: nat, k: nat, h: Handle, name: string, stop: bool, h2: Handle, others: seq<seq<Op>>)
    returns (out: Outcome)
    requires t.Valid() && h in t.held && t.held[h] == k < |t.entry| && h.pid == h2.pid == me && h2 !in t.held
    requires h !in t.locked
    requires |others| == 3
    modifies t
    ensures t.Valid() && (out == Stop ==> stop)
    ensures out == Panic ==> FullTable(t.entry) || OnFree(t.entry, t.held, t.vol, h)
    ensures out != Panic ==> t.locked == old(t.locked) && Handed(Mine(old(t.held), me), Mine(t.held, me), h, h2, out)
    ensures out != Panic && others == [[], [], []] ==> Handed(old(t.held), t.held, h, h2, out)
    ensures Linked(old(t.vol)) ==> t.vol == old(t.vol) && Leads(t.vol, old(t.entry), t.entry, k, name, stop, out)
  {
    hide TableOk, Typed, Linked, SameIds, Mine, Lookup;
    var ok := Lock(t, me, k, h, others[0]);
    StillMine(old(t.held), t.held, me, h, old(t.entry), t.entry);
    StillMine(old(t.held), t.held, me, h2, old(t.entry), t.entry);
    if !ok {
      return Panic;
    }
    ghost var held1, entry1, vol1 := t.held, t.entry, t.vol;
    if TypeOf(t.vol, t.entry[k].id) != Dir {
      Iunlockput(t, me, k, h, others[1]);
      return Gone;
    }
    if stop {
      t.Iunlock(h);
      return Stop;
    }
    out := Dirlookup(t, me, k, h, name, h2, others[1]);
    if out == Panic {
      return;
    }
    ghost var held2, entry2 := t.held, t.entry;
    DirHeld(held1, held2, me, h, h2, k, entry1, entry2, out);
    Iunlockput(t, me, k, h, others[2]);
    if out.Next? {
      DirDone(Mine(held1, me), Mine(held2, me), Mine(t.held, me), h, h2, out.k, entry2, t.entry);
      assert others == [[], [], []] ==> t.held == (held1 - {h})[h2 := out.k];
    }
  }

  lemma DirHeld(held1: map<Handle, nat>, held2: map<Handle, nat>, me: nat, h: Handle, h2: Handle, k: nat,
                entry1: seq<Entry>, entry2: seq<Entry>, out: Outcome)
    requires h in held1 && h2 !in held1 && h.pid == h2.pid == me && held1[h] == k
    requires SameIds(Mine(held1, me), entry1, entry2)
    requires out == Gone ==> Mine(held2, me) == Mine(held1, me)
    requires out.Next? ==> Mine(held2, me) == Mine(held1, me)[h2 := out.k]
    requires out == Gone || out.Next?
    ensures h in held2 && held2[h] == k < |entry1| == |entry2| && entry1[k].id == entry2[k].id
  {
    assert h in Mine(held1, me);
    assert h in Mine(held2, me);
  }

  lemma DirDone(mine1: map<Handle, nat>, mine2: map<Handle, nat>, mine3: map<Handle, nat>, h: Handle, h2: Handle,
      k2: nat,
                entry2: seq<Entry>, entry3: seq<Entry>)
    requires h != h2 && mine2 == mine1[h2 := k2] && mine3 == mine2 - {h} && SameIds(mine3, entry2, entry3)
    ensures mine3 == (mine1 - {h})[h2 := k2] && k2 < |entry2| == |entry3| && entry3[k2].id == entry2[k2].id
  {
    assert h2 in mine3;
  }

  datatype Result = Stopped | NotFound | Found(k: nat, h: Handle)

  function Steps(others: seq<seq<Op>>, i: nat): (r: seq<seq<Op>>)
    ensures |r| == 3
  {
    if i + 3 <= |others| then others[i..i + 3] else [[], [], []]
  }

  /** The inode namex starts from: the root, or the directory of handle cwd. */
  method Start(t: ITable, me: nat, path: string, cwd: Handle, h: Handle) returns (k: int, ghost id: Id)
    requires t.Valid() && cwd in t.held && cwd.pid == h.pid == me && h !in t.held
    modifies t
    ensures t.Valid() && t.vol == old(t.vol) && t.locked == old(t.locked) && -1 <= k
    ensures t.held == if k == -1 then old(t.held) else old(t.held)[h := k]
    ensures cwd in old(t.held) && old(t.held)[cwd] < |old(t.entry)|
    ensures id == if path != "" && path[0] == '/' then ROOT else old(t.entry)[old(t.held)[cwd]].id
    ensures k != -1 ==> 0 <= k < |t.entry| && t.entry[k].id == id
    ensures path == "" || path[0] != '/' ==> k != -1
    ensures k == -1 ==> FullTable(t.entry)
  {
    hide TableOk;
    HolderCounts(t.entry, t.held, t.at, cwd);
    if path != "" && path[0] == '/' {
      id := ROOT;
      k := t.Iget(ROOT, h);
    } else {
      id := t.entry[t.held[cwd]].id;
      k := t.held[cwd];
      t.Idup(t.held[cwd], cwd, h);
    }
  }

  /** Nobody else takes a step. */
  predicate Quiet(others: seq<seq<Op>>) {
    forall i :: 0 <= i < |others| ==> others[i] == []
  }

  lemma QuietSteps(others: seq<seq<Op>>, i: nat)
    requires Quiet(others)
    ensures Steps(others, i) == [[], [], []]
  {
  }

  /** A handle number `me` has not used. */
  ghost predicate Unused(held: map<Handle, nat>, me: nat, base: nat) {
    forall h :: h in held && h.pid == me ==> h.n < base
  }

  /** The current handle of the walk. */
  lemma Carry(held: map<Handle, nat>, held': map<Handle, nat>, me: nat, base: nat, h: Handle, k: nat, h2: Handle)
    requires Unused(held, me, base) && h.pid == h2.pid == me && base <= h.n < h2.n
    requires Mine(held', me) == Mine(held, me)[h := k]
    ensures h in held' && held'[h] == k && h2 !in held' && h !in held
    ensures Mine(held', me) - {h} == Mine(held, me)
  {
    assert h in Mine(held', me);
    assert h2 !in Mine(held', me);
  }

  lemma CarryAll(held: map<Handle, nat>, h: Handle, k: nat)
    requires h !in held
    ensures held[h := k] - {h} == held
  {
  }

  lemma UnusedHandle(held: map<Handle, nat>, me: nat, h: Handle)
    requires Unused(held, me, h.n) && h.pid == me
    ensures h !in held
  {
  }

  /** The result of namex is where the path leads. */
  ghost predicate Arrives(vol: Volume, cwd: Id, path: string, parent: bool, entry: seq<Entry>, r: Result) {
    var id := if path != "" && path[0] == '/' then ROOT else cwd;
    match r
    case Stopped => true
    case NotFound => Walk(vol, id, Elements(path), parent) == None
    case Found(k, _) => k < |entry| && Walk(vol, id, Elements(path), parent) == Some(entry[k].id)
  }

  lemma WalkTurn(vol: Volume, entry1: seq<Entry>, entry2: seq<Entry>, k: nat, p: string, rest: string, parent: bool,
      out: Outcome)
    requires k < |entry1| && Elements(p) != [] && Elements(rest) == Elements(p)[1..]
    requires (rest == "" <==> Elements(rest) == [])
    requires Leads(vol, entry1, entry2, k, Clip(Elements(p)[0]), parent && rest == "", out)
    ensures out == Gone ==> Walk(vol, entry1[k].id, Elements(p), parent) == None
    ensures out == Stop ==> k < |entry2| && Walk(vol, entry1[k].id, Elements(p), parent) == Some(entry2[k].id)
    ensures out.Next? ==> out.k < |entry2|
                          && Walk(vol, entry1[k].id, Elements(p), parent) == Walk(vol, entry2[out.k].id,
                               Elements(rest), parent)
  {
    hide Elements, Lookup, Clip;
  }

  lemma WalkEnd(vol: Volume, id: Id, parent: bool)
    ensures Walk(vol, id, [], parent) == if parent then None else Some(id)
  {
  }

  /** namex over the whole path: on return, process `me` holds one reference more, on the
      inode returned, or as many as before; it holds no lock. Without unlinked inodes the
      inode is the one Walk finds. `Stopped` is a panic. */
  method Namex(t: ITable, me: nat, base: nat, path: string, parent: bool, cwd: Handle, others: seq<seq<Op>>)
    returns (r: Result, name: string)
    requires t.Valid() && cwd in t.held && cwd.pid == me && Unused(t.held, me, base)
    requires forall h :: h in t.locked ==> h.pid != me
    modifies t
    ensures t.Valid() && old(t.held)[cwd] < |old(t.entry)|
    ensures r != Stopped ==> t.locked == old(t.locked)
    ensures r == Stopped ==> FullTable(t.entry)
                             || exists h :: h !in old(t.held) && h.pid == me && OnFree(t.entry, t.held, t.vol, h)
    ensures r == NotFound ==> Mine(t.held, me) == Mine(old(t.held), me) && (Quiet(others) ==> t.held == old(t.held))
    ensures r.Found? ==> r.h !in old(t.held) && Mine(t.held, me) == Mine(old(t.held), me)[r.h := r.k]
                         && (Quiet(others) ==> t.held == old(t.held)[r.h := r.k])
    ensures Linked(old(t.vol)) ==> t.vol == old(t.vol)
    ensures Linked(old(t.vol)) ==> Arrives(t.vol, old(t.entry)[old(t.held)[cwd]].id, path, parent, t.entry, r)
    ensures r.Found? && parent ==> Elements(path) != [] && name == Clip(Elements(path)[|Elements(path)| - 1])
  {
    hide TableOk, Typed, Linked, SameIds, Mine, Lookup, Element, Leads, Elements, Clip, Unused, Walk, Quiet;
    name := "";
    var h := Handle(me, base);
    UnusedHandle(t.held, me, h);
    var k, id := Start(t, me, path, cwd, h);
    if k == -1 {
      return Stopped, name;
    }
    MineAdd(old(t.held), me, h, k);
    var p, i := path, 0;
    ghost var es := Elements(path);
    while true
      invariant t.Valid() && t.locked == old(t.locked) && h == Handle(me, base + i) && 0 <= k
      invariant Mine(t.held, me) == Mine(old(t.held), me)[h := k] && (Quiet(others) ==> t.held == old(t.held)[h := k])
      invariant Linked(old(t.vol)) ==> t.vol == old(t.vol) && k < |t.entry|
      invariant Linked(old(t.vol)) ==> Walk(t.vol, id, es, parent) == Walk(t.vol, t.entry[k].id, Elements(p), parent)
      invariant Elements(p) != [] ==> es != [] && Elements(p)[|Elements(p)| - 1] == es[|es| - 1]
      decreases |p|
    {
      var more, rest, nm := Skipelem(p);
      name := nm;
      var h2 := Handle(me, base + i + 1);
      Carry(old(t.held), t.held, me, base, h, k, h2);
      HolderCounts(t.entry, t.held, t.at, h);
      if !more {
        break;
      }
      ghost var held1, entry1 := t.held, t.entry;
      if Quiet(others) { QuietSteps(others, 3 * i); CarryAll(old(t.held), h, k); }
      var out := WalkStep(t, me, k, h, nm, parent && rest == "", h2, Steps(others, 3 * i));
      if Linked(old(t.vol)) {
        WalkTurn(t.vol, entry1, t.entry, k, p, rest, parent, out);
      }
      match out {
        case Panic => return Stopped, name;
        case Gone => return NotFound, name;
        case Stop => return Found(k, h), name;
        case Next(k2) => k, h := k2, h2;
      }
      p, i := rest, i + 1;
    }
    WalkEnd(t.vol, t.entry[k].id, parent);
    if parent {
      if Quiet(others) { QuietSteps(others, 3 * i); CarryAll(old(t.held), h, k); }
      Release(t, me, k, h, Steps(others, 3 * i)[0]);
      return NotFound, name;
    }
    r := Found(k, h);
  }
}
