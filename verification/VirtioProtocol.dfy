/**
 Driver, device and interrupt handler of the virtio disk (kernel/virtio_disk.c) as steps
 in any order. Ring indices are 16 bits wide; the unbounded counters beside them are
 what they count. The queue rules are those of VIRTIO 1.1, section 2.6.
 */
module VirtioProtocol {
  import opened Common
  import opened Virtio

  const U16: nat := 0x1_0000

  /** Queued: entry k of the available ring; Completed: entry u of the used ring; Seen: the
      handler has cleared b->disk. */
  datatype Phase = Queued(k: nat) | Taken | Completed(u: nat) | Seen

  datatype Req = Req(c: Chain, b: nat, id: nat, phase: Phase)

  /** free, desc, status, info, aring, aidx, seen and busy (b->disk) are the driver's; uring,
      uidx and dev the device's. The rest records history: requests in flight, the owner of
      each descriptor, the holder of each buffer, what the indices count, the head of every
      request ever made, and those reported finished, in order. */
  datatype State = State(
    n: nat, free: seq<bool>, desc: seq<Desc>, status: seq<nat>, info: seq<Option<nat>>, busy: set<nat>,
    aring: seq<nat>, aidx: nat, dev: nat, uring: seq<nat>, uidx: nat, seen: nat,
    req: map<nat, Req>, owner: seq<Option<nat>>, holder: map<nat, nat>,
    ac: nat, dc: nat, uc: nat, sc: nat, home: seq<nat>, finished: seq<nat>)

  datatype Event = Submit(c: Chain, b: nat) | Take | Complete(h: nat) | Intr | Finish(h: nat)

  ghost predicate Sized(s: State) {
    && 1 <= s.n <= 0x8000 && U16 % s.n == 0
    && |s.free| == |s.desc| == |s.status| == |s.info| == |s.aring| == |s.uring| == |s.owner| == s.n
  }

  /** The caller of virtio_disk_rw holds the buffer's lock, so b has no other request. The
      device completes what it has taken, in any order. */
  ghost predicate Enabled(s: State, e: Event) {
    && Sized(s)
    && match e
       case Submit(c, b) => Distinct(c, s.n) && s.free[c.d0] && s.free[c.d1] && s.free[c.d2] && b !in s.holder
       case Take => s.dev != s.aidx
       case Complete(h) => h in s.req && s.req[h].phase == Taken && h < s.n
       case Intr => s.seen != s.uidx
       case Finish(h) => h in s.req && h < s.n && s.req[h].b !in s.busy
  }

  function Set3<T>(a: seq<T>, c: Chain, x: T, y: T, z: T): (r: seq<T>)
    requires c.d0 < |a| && c.d1 < |a| && c.d2 < |a|
    ensures |r| == |a| && forall i :: 0 <= i < |a| && !InChain(c, i) ==> r[i] == a[i]
    ensures Distinct(c, |a|) ==> r[c.d0] == x && r[c.d1] == y && r[c.d2] == z
  {
    a[c.d0 := x][c.d1 := y][c.d2 := z]
  }

  /** virtio_disk_rw up to the notification. */
  ghost function Submitted(s: State, c: Chain, b: nat): State
    requires Sized(s) && Distinct(c, s.n)
  {
    s.(free := Set3(s.free, c, false, false, false),
       desc := Set3(s.desc, c, Desc(true, c.d1), Desc(true, c.d2), Desc(false, 0)),
       status := s.status[c.d0 := 0xff], info := s.info[c.d0 := Some(b)], busy := s.busy + {b},
       aring := s.aring[s.aidx % s.n := c.d0], aidx := (s.aidx + 1) % U16,
       req := s.req[c.d0 := Req(c, b, s.ac, Queued(s.ac))], holder := s.holder[b := c.d0],
       owner := Set3(s.owner, c, Some(c.d0), Some(c.d0), Some(c.d0)),
       ac := s.ac + 1, home := s.home + [c.d0])
  }

  /** The handler's loop body for the entry at used_idx. */
  ghost function Handled(s: State): State
    requires Sized(s)
  {
    var h := s.uring[s.seen % s.n];
    s.(seen := (s.seen + 1) % U16, sc := s.sc + 1, req := WithPhase(s.req, h, Seen),
       busy := if h < s.n && s.info[h].Some? then s.busy - {s.info[h].value} else s.busy,
       finished := s.finished + (if h in s.req then [s.req[h].id] else []))
  }

  /** virtio_disk_rw after its wait. */
  ghost function Finished(s: State, h: nat): State
    requires Sized(s) && h in s.req && h < s.n
  {
    var c := s.req[h].c;
    if !Distinct(c, s.n) then s else
    s.(free := Set3(s.free, c, true, true, true), desc := Set3(s.desc, c, Desc(false, 0), Desc(false, 0),
        Desc(false, 0)),
       info := s.info[h := None], req := s.req - {h}, holder := s.holder - {s.req[h].b},
       owner := Set3(s.owner, c, None, None, None))
  }

  function WithPhase(req: map<nat, Req>, h: nat, p: Phase): map<nat, Req> {
    if h in req then req[h := req[h].(phase := p)] else req
  }

  ghost function Taking(s: State): State
    requires Sized(s)
  {
    s.(dev := (s.dev + 1) % U16, dc := s.dc + 1, req := WithPhase(s.req, s.aring[s.dev % s.n], Taken))
  }

  ghost function Completing(s: State, h: nat): State
    requires Sized(s) && h < s.n
  {
    s.(status := s.status[h := 0], uring := s.uring[s.uidx % s.n := h], uidx := (s.uidx + 1) % U16,
       uc := s.uc + 1, req := WithPhase(s.req, h, Completed(s.uc)))
  }

  ghost function Next(s: State, e: Event): State
    requires Enabled(s, e)
  {
    match e
    case Submit(c, b) => Submitted(s, c, b)
    case Take => Taking(s)
    case Complete(h) => Completing(s, h)
    case Intr => Handled(s)
    case Finish(h) => Finished(s, h)
  }

  // ------------------------------------------------------------------------- invariant

  /** A request owns its linked descriptors and its buffer, and stands in one ring or none. */
  ghost predicate ReqOk(s: State, h: nat)
    requires Sized(s) && h in s.req
  {
    var r := s.req[h];
    && r.c.d0 == h && Linked(s.desc, r.c)
    && s.owner[r.c.d0] == Some(h) && s.owner[r.c.d1] == Some(h) && s.owner[r.c.d2] == Some(h)
    && r.b in s.holder && s.holder[r.b] == h && s.info[h] == Some(r.b)
    && r.id < |s.home| && s.home[r.id] == h
    && (r.phase == Seen <==> r.id in s.finished) && (r.phase == Seen <==> r.b !in s.busy)
    && (r.phase.Queued? ==> r.phase.k == r.id && s.dc <= r.id < s.ac && s.aring[r.id % s.n] == h)
    && (r.phase.Completed? ==> s.sc <= r.phase.u < s.uc && s.uring[r.phase.u % s.n] == h && s.status[h] == 0)
  }

  /** A descriptor is free or belongs to the chain of one request. */
  ghost predicate DescOk(s: State, d: nat)
    requires Sized(s) && d < s.n
  {
    && (s.free[d] <==> s.owner[d] == None)
    && (s.owner[d].Some? ==> s.owner[d].value in s.req && InChain(s.req[s.owner[d].value].c, d))
  }

  ghost predicate AvailOk(s: State, k: nat)
    requires Sized(s)
  {
    var h := s.aring[k % s.n]; h in s.req && s.req[h].phase == Queued(k)
  }

  ghost predicate UsedOk(s: State, u: nat)
    requires Sized(s)
  {
    var h := s.uring[u % s.n]; h in s.req && s.req[h].phase == Completed(u)
  }

  /** A request ever made has been reported finished or is in flight. */
  ghost predicate IdOk(s: State, id: nat)
    requires id < |s.home|
  {
    id in s.finished || (s.home[id] in s.req && s.req[s.home[id]].id == id)
  }

  ghost predicate HolderOk(s: State, b: nat)
    requires b in s.holder
  {
    s.holder[b] in s.req && s.req[s.holder[b]].b == b
  }

  ghost predicate NoRepeats(a: seq<nat>) {
    forall i, j :: 0 <= i < j < |a| ==> a[i] != a[j]
  }

  ghost predicate CountsOk(s: State) {
    && s.aidx == s.ac % U16 && s.dev == s.dc % U16 && s.uidx == s.uc % U16 && s.seen == s.sc % U16
    && s.dc <= s.ac <= s.dc + s.n && s.sc <= s.uc <= s.sc + s.n && |s.home| == s.ac
    && NoRepeats(s.finished) && forall i :: 0 <= i < |s.finished| ==> s.finished[i] < s.ac
  }

  ghost predicate Inv(s: State) {
    && Sized(s) && CountsOk(s)
    && (forall h :: h in s.req ==> ReqOk(s, h))
    && (forall d :: 0 <= d < s.n ==> DescOk(s, d))
    && RingsOk(s) && HistoryOk(s)
  }

  /** What is pending in the rings is queued or completed. */
  ghost predicate RingsOk(s: State)
    requires Sized(s)
  {
    (forall k :: s.dc <= k < s.ac ==> AvailOk(s, k)) && forall u :: s.sc <= u < s.uc ==> UsedOk(s, u)
  }

  ghost predicate HistoryOk(s: State) {
    (forall id :: 0 <= id < |s.home| ==> IdOk(s, id)) && forall b :: b in s.holder ==> HolderOk(s, b)
  }

  /** After virtio_disk_init: every descriptor free, both rings empty. */
  ghost predicate Init(s: State) {
    && Sized(s) && (forall d :: 0 <= d < s.n ==> s.free[d] && s.owner[d] == None)
    && s.busy == {} && s.req == map[] && s.holder == map[] && s.home == [] && s.finished == []
    && s.aidx == s.dev == s.uidx == s.seen == s.ac == s.dc == s.uc == s.sc == 0
  }

  // ------------------------------------------------------------- entries are not overwritten

  /** The heads named by ring entries lo..hi. */
  ghost function Heads(ring: seq<nat>, lo: nat, hi: nat): set<nat>
    requires |ring| > 0 && lo <= hi
    decreases hi - lo
  {
    if lo == hi then {} else Heads(ring, lo, hi - 1) + {ring[(hi - 1) % |ring|]}
  }

  lemma {:induction false} HeadsAre(ring: seq<nat>, lo: nat, hi: nat, h: nat)
    requires |ring| > 0 && lo <= hi
    ensures h in Heads(ring, lo, hi) <==> exists k :: lo <= k < hi && ring[k % |ring|] == h
    decreases hi - lo
  {
    if lo < hi {
      HeadsAre(ring, lo, hi - 1, h);
      if exists k :: lo <= k < hi && ring[k % |ring|] == h {
        var k :| lo <= k < hi && ring[k % |ring|] == h;
      }
    }
  }

  lemma {:induction false} HeadsCard(ring: seq<nat>, lo: nat, hi: nat)
    requires |ring| > 0 && lo <= hi && forall j, k :: lo <= j < k < hi ==> ring[j % |ring|] != ring[k % |ring|]
    ensures |Heads(ring, lo, hi)| == hi - lo
    decreases hi - lo
  {
    if lo < hi {
      HeadsCard(ring, lo, hi - 1);
      HeadsAre(ring, lo, hi - 1, ring[(hi - 1) % |ring|]);
    }
  }

  /** Entries naming different descriptors, none of them h, are fewer than n. */
  lemma RoomInRing(ring: seq<nat>, lo: nat, hi: nat, h: nat)
    requires |ring| > 0 && lo <= hi && h < |ring|
    requires forall j, k :: lo <= j < k < hi ==> ring[j % |ring|] != ring[k % |ring|]
    requires forall k :: lo <= k < hi ==> ring[k % |ring|] < |ring| && ring[k % |ring|] != h
    ensures hi - lo < |ring|
  {
    HeadsCard(ring, lo, hi);
    var a := Heads(ring, lo, hi);
    forall x | x in a ensures x < |ring| && x != h { HeadsAre(ring, lo, hi, x); }
    BelowCard(a + {h}, |ring|);
    assert |a + {h}| == |a| + 1;
  }

  /** A free descriptor leaves room in the available ring. */
  lemma AvailRoom(s: State, d: nat)
    requires Inv(s) && d < s.n && s.free[d]
    ensures s.ac - s.dc < s.n
  {
    forall k | s.dc <= k < s.ac ensures s.aring[k % s.n] < s.n && s.aring[k % s.n] != d {
      assert AvailOk(s, k);
      assert ReqOk(s, s.aring[k % s.n]) && DescOk(s, d);
    }
    forall j, k | s.dc <= j < k < s.ac ensures s.aring[j % s.n] != s.aring[k % s.n] {
      assert AvailOk(s, j) && AvailOk(s, k);
    }
    RoomInRing(s.aring, s.dc, s.ac, d);
  }

  /** A request the device is working on leaves room in the used ring. */
  lemma UsedRoom(s: State, h: nat)
    requires Inv(s) && h in s.req && s.req[h].phase == Taken && h < s.n
    ensures s.uc - s.sc < s.n
  {
    forall u | s.sc <= u < s.uc ensures s.uring[u % s.n] < s.n && s.uring[u % s.n] != h {
      assert UsedOk(s, u);
      assert ReqOk(s, s.uring[u % s.n]);
    }
    forall j, k | s.sc <= j < k < s.uc ensures s.uring[j % s.n] != s.uring[k % s.n] {
      assert UsedOk(s, j) && UsedOk(s, k);
    }
    RoomInRing(s.uring, s.sc, s.uc, h);
  }

  // ----------------------------------------------------------------- indices that wrap around

  lemma ModUnique(n: nat, q: nat, r: nat)
    requires r < n
    ensures (n * q + r) % n == r
  {
    var x := n * q + r;
    var e := x / n - q;
    assert n * e == r - x % n by { assert x == n * (x / n) + x % n; }
    if e != 0 { Spread(n, e); }
  }

  lemma Spread(n: int, e: int)
    requires n >= 0 && e != 0
    ensures n * e >= n || n * e <= -n
  {
  }

  lemma SlotOf(n: nat, m: nat, q: nat, r: nat)
    requires n >= 1
    ensures ((n * m) * q + r) % n == r % n
  {
    var t := r / n;
    assert (n * m) * q == n * (m * q) && r == n * t + r % n;
    assert n * (m * q) + n * t == n * (m * q + t);
    ModUnique(n, m * q + t, r % n);
  }

  /** A slot found from the 16-bit index is the slot of the count. */
  lemma Wraps(k: nat, n: nat)
    requires n >= 1 && U16 % n == 0
    ensures k % U16 % n == k % n && (k % U16 + 1) % U16 == (k + 1) % U16
  {
    SlotOf(n, U16 / n, k / U16, k % U16);
    assert U16 == n * (U16 / n);
  }

  /** Two counts less than n apart have different slots. */
  lemma SlotsDiffer(j: nat, k: nat, n: nat)
    requires j < k < j + n
    ensures j % n != k % n
  {
    if j % n == k % n {
      var e := k / n - j / n;
      assert k - j == n * e;
      Spread(n, if e == 0 then 1 else e);
    }
  }

  /** The 16-bit indices are equal exactly when nothing is pending. */
  lemma IndexTells(lo: nat, hi: nat, n: nat)
    requires lo <= hi <= lo + n && n <= 0x8000
    ensures lo % U16 == hi % U16 <==> lo == hi
  {
    if lo < hi { SlotsDiffer(lo, hi, U16); }
  }

  // ------------------------------------------------------------------------------- steps

  lemma SubmitCounts(s: State, c: Chain, b: nat)
    requires Inv(s) && Enabled(s, Submit(c, b))
    ensures CountsOk(Submitted(s, c, b)) && Sized(Submitted(s, c, b)) && s.ac - s.dc < s.n
    ensures s.aidx % s.n == s.ac % s.n && c.d0 !in s.req
  {
    AvailRoom(s, c.d0);
    Wraps(s.ac, s.n);
    assert DescOk(s, c.d0);
    assert c.d0 in s.req ==> ReqOk(s, c.d0);
  }

  /** What Inv says of one request, and of the descriptors of a chain. */
  lemma InvReq(s: State, h: nat)
    requires Inv(s) && h in s.req
    ensures Sized(s) && ReqOk(s, h) && |s.home| == s.ac && forall k :: 0 <= k < |s.finished| ==> s.finished[k] < s.ac
  {
  }

  lemma FreeUnowned(s: State, c: Chain)
    requires Inv(s) && Distinct(c, s.n) && s.free[c.d0] && s.free[c.d1] && s.free[c.d2]
    ensures s.owner[c.d0] == s.owner[c.d1] == s.owner[c.d2] == None
  {
    assert DescOk(s, c.d0) && DescOk(s, c.d1) && DescOk(s, c.d2);
  }

  lemma SubmitOld(s: State, c: Chain, b: nat, h: nat)
    requires Inv(s) && Enabled(s, Submit(c, b)) && h in s.req
    ensures Sized(Submitted(s, c, b)) && h in Submitted(s, c, b).req && ReqOk(Submitted(s, c, b), h)
  {
    hide Inv, CountsOk;
    SubmitCounts(s, c, b);
    InvReq(s, h);
    FreeUnowned(s, c);
    if s.req[h].phase.Queued? { SlotsDiffer(s.req[h].id, s.ac, s.n); }
  }

  lemma SubmitNew(s: State, c: Chain, b: nat)
    requires Inv(s) && Enabled(s, Submit(c, b))
    ensures Sized(Submitted(s, c, b)) && ReqOk(Submitted(s, c, b), c.d0)
  {
    hide DescOk, RingsOk, HistoryOk;
    SubmitCounts(s, c, b);
  }

  lemma SubmitRings(s: State, c: Chain, b: nat)
    requires Inv(s) && Enabled(s, Submit(c, b)) && Sized(Submitted(s, c, b))
    ensures RingsOk(Submitted(s, c, b))
  {
    hide ReqOk, DescOk, HistoryOk;
    var t := Submitted(s, c, b);
    SubmitCounts(s, c, b);
    forall k | t.dc <= k < t.ac ensures AvailOk(t, k) {
      if k < s.ac {
        assert AvailOk(s, k);
        SlotsDiffer(k, s.ac, s.n);
      }
    }
    forall u | t.sc <= u < t.uc ensures UsedOk(t, u) { assert UsedOk(s, u); }
  }

  lemma SubmitRest(s: State, c: Chain, b: nat)
    requires Inv(s) && Enabled(s, Submit(c, b)) && Sized(Submitted(s, c, b))
    ensures HistoryOk(Submitted(s, c, b)) && forall d :: 0 <= d < s.n ==> DescOk(Submitted(s, c, b), d)
  {
    hide ReqOk, RingsOk;
    var t := Submitted(s, c, b);
    SubmitCounts(s, c, b);
    forall id | 0 <= id < |t.home| ensures IdOk(t, id) { if id < s.ac { assert IdOk(s, id); } }
    forall x | x in t.holder ensures HolderOk(t, x) { if x != b { assert HolderOk(s, x); } }
    forall d | 0 <= d < s.n ensures DescOk(t, d) { assert DescOk(s, d); }
  }

  lemma SubmitKeeps(s: State, c: Chain, b: nat)
    requires Inv(s) && Enabled(s, Submit(c, b))
    ensures Inv(Submitted(s, c, b))
  {
    hide ReqOk, DescOk, RingsOk, HistoryOk, CountsOk;
    SubmitCounts(s, c, b);
    forall h | h in Submitted(s, c, b).req ensures ReqOk(Submitted(s, c, b), h) {
      if h in s.req { SubmitOld(s, c, b, h); } else { SubmitNew(s, c, b); }
    }
    SubmitRings(s, c, b);
    SubmitRest(s, c, b);
  }

  /** The device finds the oldest request it has not taken. */
  lemma TakeFinds(s: State)
    requires Inv(s) && Enabled(s, Take)
    ensures s.dc < s.ac && s.aring[s.dev % s.n] == s.aring[s.dc % s.n] && AvailOk(s, s.dc)
    ensures s.req[s.aring[s.dc % s.n]].id == s.dc && CountsOk(Taking(s))
  {
    Wraps(s.dc, s.n);
    assert AvailOk(s, s.dc) && ReqOk(s, s.aring[s.dc % s.n]);
  }

  lemma TakeReqs(s: State, h: nat)
    requires Inv(s) && Enabled(s, Take) && h in s.req
    ensures Sized(Taking(s)) && h in Taking(s).req && ReqOk(Taking(s), h)
  {
    hide DescOk, RingsOk, HistoryOk;
    TakeFinds(s);
    assert ReqOk(s, h) && ReqOk(s, s.aring[s.dc % s.n]);
  }

  lemma TakeKeeps(s: State)
    requires Inv(s) && Enabled(s, Take)
    ensures Inv(Taking(s))
  {
    hide ReqOk, CountsOk;
    var t := Taking(s);
    TakeFinds(s);
    forall h | h in t.req ensures ReqOk(t, h) { TakeReqs(s, h); }
    PhaseRest(s, t, s.aring[s.dc % s.n], Taken);
    forall k | t.dc <= k < t.ac ensures AvailOk(t, k) { assert AvailOk(s, k); }
    forall u | t.sc <= u < t.uc ensures UsedOk(t, u) { assert UsedOk(s, u); }
  }

  /** A request that changes its phase leaves descriptors and history as they were. */
  lemma PhaseRest(s: State, t: State, h: nat, p: Phase)
    requires Inv(s) && Sized(t) && t.req == WithPhase(s.req, h, p)
    requires t.n == s.n && t.free == s.free && t.owner == s.owner && t.home == s.home && t.holder == s.holder
    requires forall id :: id in s.finished ==> id in t.finished
    ensures HistoryOk(t) && forall d :: 0 <= d < t.n ==> DescOk(t, d)
  {
    hide ReqOk, RingsOk, CountsOk;
    forall id | 0 <= id < |t.home| ensures IdOk(t, id) { assert IdOk(s, id); }
    forall x | x in t.holder ensures HolderOk(t, x) { assert HolderOk(s, x); }
    forall d | 0 <= d < t.n ensures DescOk(t, d) { assert DescOk(s, d); }
  }

  lemma CompleteCounts(s: State, h0: nat)
    requires Inv(s) && Enabled(s, Complete(h0))
    ensures s.uc - s.sc < s.n && s.uidx % s.n == s.uc % s.n && CountsOk(Completing(s, h0)) && Sized(Completing(s, h0))
  {
    UsedRoom(s, h0);
    Wraps(s.uc, s.n);
  }

  lemma CompleteReqs(s: State, h0: nat, h: nat)
    requires Inv(s) && Enabled(s, Complete(h0)) && h in s.req
    ensures Sized(Completing(s, h0)) && h in Completing(s, h0).req && ReqOk(Completing(s, h0), h)
  {
    hide DescOk, RingsOk, HistoryOk;
    CompleteCounts(s, h0);
    assert ReqOk(s, h);
    if s.req[h].phase.Completed? { SlotsDiffer(s.req[h].phase.u, s.uc, s.n); }
  }

  lemma CompleteRings(s: State, h0: nat)
    requires Inv(s) && Enabled(s, Complete(h0)) && Sized(Completing(s, h0))
    ensures RingsOk(Completing(s, h0))
  {
    hide ReqOk, DescOk, HistoryOk;
    var t := Completing(s, h0);
    CompleteCounts(s, h0);
    forall k | t.dc <= k < t.ac ensures AvailOk(t, k) { assert AvailOk(s, k); }
    forall u | t.sc <= u < t.uc ensures UsedOk(t, u) {
      if u < s.uc {
        assert UsedOk(s, u);
        SlotsDiffer(u, s.uc, s.n);
      }
    }
  }

  lemma CompleteKeeps(s: State, h0: nat)
    requires Inv(s) && Enabled(s, Complete(h0))
    ensures Inv(Completing(s, h0))
  {
    hide ReqOk, DescOk, RingsOk, HistoryOk, CountsOk;
    CompleteCounts(s, h0);
    forall h | h in Completing(s, h0).req ensures ReqOk(Completing(s, h0), h) { CompleteReqs(s, h0, h); }
    CompleteRings(s, h0);
    PhaseRest(s, Completing(s, h0), h0, Completed(s.uc));
  }

  /** What the handler reads at used_idx: a completed request, status 0, its own buffer, still
      waited for and not yet reported. No panic. */
  lemma HandlerFinds(s: State)
    requires Inv(s) && Enabled(s, Intr)
    ensures s.sc < s.uc && s.uring[s.seen % s.n] == s.uring[s.sc % s.n] && UsedOk(s, s.sc)
    ensures var h := s.uring[s.sc % s.n]; h < s.n && s.status[h] == 0 && s.info[h] == Some(s.req[h].b)
    ensures var r := s.req[s.uring[s.sc % s.n]]; r.b in s.busy && r.id !in s.finished && r.id < s.ac
  {
    Wraps(s.sc, s.n);
    assert UsedOk(s, s.sc) && ReqOk(s, s.uring[s.sc % s.n]);
  }

  lemma HandlerCounts(s: State)
    requires Inv(s) && Enabled(s, Intr)
    ensures CountsOk(Handled(s)) && Sized(Handled(s))
  {
    hide ReqOk, DescOk, RingsOk, HistoryOk;
    HandlerFinds(s);
    Wraps(s.sc, s.n);
  }

  lemma HandlerReqs(s: State, h: nat)
    requires Inv(s) && Enabled(s, Intr) && h in s.req
    ensures Sized(Handled(s)) && h in Handled(s).req && ReqOk(Handled(s), h)
  {
    hide DescOk, RingsOk, HistoryOk, CountsOk;
    HandlerFinds(s);
    assert ReqOk(s, h) && ReqOk(s, s.uring[s.sc % s.n]);
  }

  lemma HandlerRings(s: State)
    requires Inv(s) && Enabled(s, Intr) && Sized(Handled(s))
    ensures RingsOk(Handled(s))
  {
    hide ReqOk, DescOk, HistoryOk;
    var t := Handled(s);
    HandlerFinds(s);
    forall k | t.dc <= k < t.ac ensures AvailOk(t, k) { assert AvailOk(s, k); }
    forall u | t.sc <= u < t.uc ensures UsedOk(t, u) { assert UsedOk(s, u); }
  }

  lemma HandlerKeeps(s: State)
    requires Inv(s) && Enabled(s, Intr)
    ensures Inv(Handled(s))
  {
    hide ReqOk, DescOk, RingsOk, HistoryOk, CountsOk;
    HandlerCounts(s);
    HandlerFinds(s);
    forall h | h in Handled(s).req ensures ReqOk(Handled(s), h) { HandlerReqs(s, h); }
    HandlerRings(s);
    PhaseRest(s, Handled(s), s.uring[s.sc % s.n], Seen);
  }

  /** A waiter leaves its loop only when its request has been reported. */
  lemma FinishFinds(s: State, h0: nat)
    requires Inv(s) && Enabled(s, Finish(h0))
    ensures var r := s.req[h0]; Linked(s.desc, r.c) && r.phase == Seen && r.id in s.finished && r.id < |s.home|
    ensures var r := s.req[h0]; r.c.d0 == h0 && s.home[r.id] == h0 && r.b in s.holder && s.holder[r.b] == h0
    ensures OwnsChain(s.owner, h0, s.req[h0].c) && Sized(Finished(s, h0))
  {
    hide RingsOk, HistoryOk, CountsOk;
    assert ReqOk(s, h0);
    ChainOwned(s, h0);
  }

  lemma FinishReqs(s: State, h0: nat, h: nat)
    requires Inv(s) && Enabled(s, Finish(h0)) && h in s.req && h != h0
    ensures Sized(Finished(s, h0)) && h in Finished(s, h0).req && ReqOk(Finished(s, h0), h)
  {
    hide Inv;
    FinishFinds(s, h0);
    InvReq(s, h);
  }

  lemma FinishRings(s: State, h0: nat)
    requires Inv(s) && Enabled(s, Finish(h0)) && Sized(Finished(s, h0))
    ensures RingsOk(Finished(s, h0)) && CountsOk(Finished(s, h0))
  {
    hide DescOk, ReqOk, HistoryOk;
    var t := Finished(s, h0);
    FinishFinds(s, h0);
    forall k | t.dc <= k < t.ac ensures AvailOk(t, k) { assert AvailOk(s, k); }
    forall u | t.sc <= u < t.uc ensures UsedOk(t, u) { assert UsedOk(s, u); }
  }

  lemma FinishRest(s: State, h0: nat)
    requires Inv(s) && Enabled(s, Finish(h0)) && Sized(Finished(s, h0))
    ensures HistoryOk(Finished(s, h0)) && forall d :: 0 <= d < s.n ==> DescOk(Finished(s, h0), d)
  {
    hide RingsOk, ReqOk, CountsOk;
    var t := Finished(s, h0);
    FinishFinds(s, h0);
    forall id | 0 <= id < |t.home| ensures IdOk(t, id) { assert IdOk(s, id); }
    forall x | x in t.holder ensures HolderOk(t, x) { assert HolderOk(s, x); }
    forall d | 0 <= d < s.n ensures DescOk(t, d) { assert DescOk(s, d); }
  }

  lemma FinishKeeps(s: State, h0: nat)
    requires Inv(s) && Enabled(s, Finish(h0))
    ensures Inv(Finished(s, h0))
  {
    hide ReqOk, DescOk, RingsOk, HistoryOk, CountsOk;
    FinishFinds(s, h0);
    forall h | h in Finished(s, h0).req ensures ReqOk(Finished(s, h0), h) { FinishReqs(s, h0, h); }
    FinishRings(s, h0);
    FinishRest(s, h0);
  }

  lemma StepKeeps(s: State, e: Event)
    requires Inv(s) && Enabled(s, e)
    ensures Inv(Next(s, e))
  {
    hide Inv, Submitted, Taking, Completing, Handled, Finished;
    match e
    case Submit(c, b) => SubmitKeeps(s, c, b);
    case Take => TakeKeeps(s);
    case Complete(h) => CompleteKeeps(s, h);
    case Intr => HandlerKeeps(s);
    case Finish(h) => FinishKeeps(s, h);
  }

  // -------------------------------------------------------------------------------- runs

  ghost predicate Run(trace: seq<State>, events: seq<Event>) {
    && |trace| == |events| + 1 && Init(trace[0])
    && forall i :: 0 <= i < |events| ==> Enabled(trace[i], events[i]) && trace[i + 1] == Next(trace[i], events[i])
  }

  lemma {:induction false} RunKeeps(trace: seq<State>, events: seq<Event>, i: nat)
    requires Run(trace, events) && i < |trace|
    ensures Inv(trace[i])
  {
    if i > 0 {
      RunKeeps(trace, events, i - 1);
      StepKeeps(trace[i - 1], events[i - 1]);
    }
  }

  /** In every reachable state a descriptor is free or in the chain of exactly one request, and
      the chains of two requests have none in common. */
  lemma Partition(trace: seq<State>, events: seq<Event>, i: nat, d: nat)
    requires Run(trace, events) && i < |trace| && d < trace[i].n
    ensures Sized(trace[i])
    ensures trace[i].free[d] <==> forall h :: h in trace[i].req ==> !InChain(trace[i].req[h].c, d)
    ensures forall h, x :: h in trace[i].req && x in trace[i].req && InChain(trace[i].req[h].c, d) && InChain(trace[i].req[x].c, d) ==> h == x
  {
    RunKeeps(trace, events, i);
    var s := trace[i];
    assert DescOk(s, d);
    forall h | h in s.req && InChain(s.req[h].c, d) ensures s.owner[d] == Some(h) { assert ReqOk(s, h); }
  }

  /** No panic and no wrong entry in any run: the device takes the oldest request not taken,
      the handler finds a request completed with status 0 and its own waiting buffer, and the
      waiter that leaves its loop has been reported, with a chain free_chain accepts. */
  lemma NoPanic(trace: seq<State>, events: seq<Event>, i: nat)
    requires Run(trace, events) && i < |events|
    ensures Sized(trace[i])
    ensures events[i].Take? ==> var h := trace[i].aring[trace[i].dev % trace[i].n];
              h in trace[i].req && trace[i].req[h].id == trace[i].dc && trace[i].req[h].phase == Queued(trace[i].dc)
    ensures events[i].Intr? ==> var h := trace[i].uring[trace[i].seen % trace[i].n];
              h in trace[i].req && h < trace[i].n && trace[i].req[h].phase.Completed? && trace[i].status[h] == 0
              && trace[i].info[h] == Some(trace[i].req[h].b) && trace[i].req[h].b in trace[i].busy
    ensures events[i].Finish? ==> var h := events[i].h;
              trace[i].req[h].phase == Seen && Linked(trace[i].desc, trace[i].req[h].c)
              && forall d :: 0 <= d < trace[i].n && InChain(trace[i].req[h].c, d) ==> !trace[i].free[d]
  {
    RunKeeps(trace, events, i);
    var s := trace[i];
    assert Enabled(s, events[i]);
    match events[i]
    case Take => TakeFinds(s);
    case Intr => HandlerFinds(s);
    case Finish(h) =>
      assert ReqOk(s, h);
      forall d | 0 <= d < s.n && InChain(s.req[h].c, d) ensures !s.free[d] { assert DescOk(s, d); }
    case _ =>
  }

  /** Request id has been made and not been reported. */
  ghost predicate InFlight(s: State, id: nat) {
    exists h :: h in s.req && s.req[h].id == id && s.req[h].phase != Seen
  }

  /** Every request is reported finished at most once, and when none is in flight each request
      ever made has been reported exactly once. */
  lemma CompletesOnce(trace: seq<State>, events: seq<Event>, i: nat)
    requires Run(trace, events) && i < |trace|
    ensures NoRepeats(trace[i].finished)
    ensures forall k :: 0 <= k < |trace[i].finished| ==> trace[i].finished[k] < trace[i].ac
    ensures forall id :: 0 <= id < trace[i].ac ==> id in trace[i].finished || InFlight(trace[i], id)
  {
    RunKeeps(trace, events, i);
    var s := trace[i];
    forall id | 0 <= id < s.ac
      ensures id in s.finished || InFlight(s, id)
    {
      assert IdOk(s, id);
      if id !in s.finished { assert ReqOk(s, s.home[id]); }
    }
  }

  /** The handler's loop and the device's see an entry exactly when one is pending, though
      their indices wrap around. */
  lemma NothingMissed(trace: seq<State>, events: seq<Event>, i: nat)
    requires Run(trace, events) && i < |trace|
    ensures trace[i].seen != trace[i].uidx <==> exists h :: h in trace[i].req && trace[i].req[h].phase.Completed?
    ensures trace[i].dev != trace[i].aidx <==> exists h :: h in trace[i].req && trace[i].req[h].phase.Queued?
  {
    RunKeeps(trace, events, i);
    var s := trace[i];
    IndexTells(s.sc, s.uc, s.n);
    IndexTells(s.dc, s.ac, s.n);
    if s.sc < s.uc { assert UsedOk(s, s.sc); }
    if s.dc < s.ac { assert AvailOk(s, s.dc); }
    forall h | h in s.req
      ensures (s.req[h].phase.Completed? ==> s.sc < s.uc) && (s.req[h].phase.Queued? ==> s.dc < s.ac)
    {
      assert ReqOk(s, h);
    }
  }

  // ------------------------------------------------------------------------ conservation

  /** The descriptors owned by the requests. */
  ghost function Owned(owner: seq<Option<nat>>, req: map<nat, Req>): set<nat> {
    set d | 0 <= d < |owner| && owner[d].Some? && owner[d].value in req
  }

  /** The three descriptors of a chain, and no others, are owned by its request. */
  ghost predicate OwnsChain(owner: seq<Option<nat>>, h: nat, c: Chain) {
    Distinct(c, |owner|) && forall d :: 0 <= d < |owner| ==> (owner[d] == Some(h) <==> InChain(c, d))
  }

  lemma {:induction false} OwnedCard(owner: seq<Option<nat>>, req: map<nat, Req>)
    requires forall h :: h in req ==> OwnsChain(owner, h, req[h].c)
    ensures |Owned(owner, req)| == 3 * |req|
    decreases |req|
  {
    if req == map[] {
      assert Owned(owner, req) == {};
    } else {
      var h :| h in req;
      var rest := req - {h};
      forall x | x in rest ensures OwnsChain(owner, x, rest[x].c) { assert OwnsChain(owner, x, req[x].c); }
      OwnedCard(owner, rest);
      assert rest.Keys == req.Keys - {h};
      OwnedOne(owner, req, h);
    }
  }

  lemma OwnedOne(owner: seq<Option<nat>>, req: map<nat, Req>, h: nat)
    requires h in req && OwnsChain(owner, h, req[h].c)
    ensures |Owned(owner, req)| == |Owned(owner, req - {h})| + 3
  {
    var c, a := req[h].c, Owned(owner, req - {h});
    assert owner[c.d0] == owner[c.d1] == owner[c.d2] == Some(h);
    assert Owned(owner, req) == a + {c.d0} + {c.d1} + {c.d2};
    assert c.d0 !in a && c.d1 !in a && c.d2 !in a;
  }

  ghost function FreeSet(free: seq<bool>): set<nat> {
    set d | 0 <= d < |free| && free[d]
  }

  lemma {:induction false} Count(a: set<nat>, b: set<nat>, n: nat)
    requires a !! b && forall d: nat :: d in a || d in b <==> d < n
    ensures |a| + |b| == n
  {
    if n == 0 {
      assert a == {} && b == {};
    } else {
      var x := n - 1;
      Count(a - {x}, b - {x}, x);
      if x in a { assert b - {x} == b; } else { assert a - {x} == a; }
    }
  }

  /** Free descriptors and three for each request in flight are all there are. */
  lemma Conservation(trace: seq<State>, events: seq<Event>, i: nat)
    requires Run(trace, events) && i < |trace|
    ensures |FreeSet(trace[i].free)| + 3 * |trace[i].req| == trace[i].n
  {
    RunKeeps(trace, events, i);
    var s := trace[i];
    forall h | h in s.req ensures OwnsChain(s.owner, h, s.req[h].c) { ChainOwned(s, h); }
    OwnedCard(s.owner, s.req);
    var a, b := FreeSet(s.free), Owned(s.owner, s.req);
    forall d: nat ensures (d in a || d in b <==> d < s.n) && !(d in a && d in b) {
      assert d < s.n ==> DescOk(s, d);
    }
    Count(a, b, s.n);
  }

  lemma ChainOwned(s: State, h: nat)
    requires Inv(s) && h in s.req
    ensures OwnsChain(s.owner, h, s.req[h].c)
  {
    assert ReqOk(s, h);
    forall d | 0 <= d < s.n ensures s.owner[d] == Some(h) <==> InChain(s.req[h].c, d) { assert DescOk(s, d); }
  }

  // ------------------------------------------------------------- the driver's own routines

  /** What Virtio.Queue.Alloc3 does to free[] is what Submitted does to it. */
  lemma SubmitIsAlloc3(s: State, c: Chain, b: nat, free': seq<bool>)
    requires Sized(s) && Distinct(c, s.n) && |free'| == s.n
    requires forall k :: 0 <= k < s.n ==> (InChain(c, k) ==> s.free[k]) && free'[k] == (s.free[k] && !InChain(c, k))
    ensures Enabled(s, Submit(c, b)) <==> b !in s.holder
    ensures Submitted(s, c, b).free == free' && Linked(Submitted(s, c, b).desc, c)
  {
    assert InChain(c, c.d0) && InChain(c, c.d1) && InChain(c, c.d2);
    var f := Submitted(s, c, b).free;
    forall k | 0 <= k < s.n ensures f[k] == free'[k] { }
  }

  /** In every reachable state the release of a request meets what Virtio.Queue.FreeChain asks
      for, and what that leaves is what Finished says. */
  lemma FinishIsFreeChain(s: State, h: nat, free': seq<bool>, desc': seq<Desc>)
    requires Inv(s) && Enabled(s, Finish(h)) && |free'| == |desc'| == s.n
    requires forall k :: 0 <= k < s.n ==> free'[k] == (s.free[k] || InChain(s.req[h].c, k))
    requires forall k :: 0 <= k < s.n ==> desc'[k] == if InChain(s.req[h].c, k) then Desc(false, 0) else s.desc[k]
    ensures Linked(s.desc, s.req[h].c) && s.req[h].c.d0 == h
    ensures forall k :: 0 <= k < s.n && InChain(s.req[h].c, k) ==> !s.free[k]
    ensures Finished(s, h).free == free' && Finished(s, h).desc == desc'
  {
    hide RingsOk, HistoryOk, CountsOk, ReqOk;
    FinishFinds(s, h);
    var c, t := s.req[h].c, Finished(s, h);
    assert InChain(c, c.d0) && InChain(c, c.d1) && InChain(c, c.d2);
    forall k | 0 <= k < s.n ensures (InChain(c, k) ==> !s.free[k]) && t.free[k] == free'[k] && t.desc[k] == desc'[k] {
      assert DescOk(s, k);
    }
  }
}
