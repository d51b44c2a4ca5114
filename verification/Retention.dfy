/** Bounded oldest-first retention: Expunge of internal/db/retention.go.

A pass deletes at most one batch; passes repeated with the same policy amount to
one deletion of the oldest rows. */
module Retention {
  import opened Prelude
  import opened Trips
  import opened Sorting

  const BATCH := 100
  const SECOND := 1_000_000_000
  const DAY := 86400 * SECOND
  const MAX_AGE_DAYS := 106751

  datatype Policy = Never | AgeDays(days: int) | Age(ns: int) | Count(keep: int) | Size(bytes: int)

  // ----- the order of retention -----

  predicate Eligible(t: Trip) { t.status == Completed || t.status == Abandoned }

  function Retained(t: Trip): int {
    if t.endedAt != 0 then t.endedAt else if t.startedAt != 0 then t.startedAt else t.createdAt
  }

  predicate Older(a: Trip, b: Trip) {
    Retained(a) < Retained(b) || (Retained(a) == Retained(b) && Before(a.id, b.id))
  }

  function EligibleIds(trips: Table): set<string> { set id | id in trips && Eligible(trips[id]) }

  function By(trips: Table): Order<string> {
    (a, b) => a in trips && b in trips && Older(trips[a], trips[b])
  }

  lemma OlderTransitive(a: Trip, b: Trip, c: Trip)
    requires Older(a, b) && Older(b, c)
    ensures Older(a, c)
  {
    if Retained(a) == Retained(b) == Retained(c) {
      BeforeTransitive(a.id, b.id, c.id);
    }
  }

  lemma OlderOrders(a: Trip, b: Trip)
    ensures Older(a, b) ==> !Older(b, a)
    ensures a.id != b.id ==> Older(a, b) || Older(b, a)
  {
    BeforeTotal(a.id, b.id);
    if Before(a.id, b.id) { BeforeAsymmetric(a.id, b.id); }
  }

  lemma OrdersRows(trips: Table, ids: set<string>)
    requires ids <= trips.Keys && Keyed(trips)
    ensures IsOrder(By(trips), ids)
  {
    var lt := By(trips);
    forall a, b | a in ids && b in ids ensures (lt(a, b) ==> !lt(b, a)) && (a != b ==> lt(a, b) || lt(b, a)) {
      OlderOrders(trips[a], trips[b]);
    }
    forall a, b, c | a in ids && b in ids && c in ids && lt(a, b) && lt(b, c) ensures lt(a, c) {
      OlderTransitive(trips[a], trips[b], trips[c]);
    }
  }

  // ORDER BY retained time, id.
  function Ordered(trips: Table, ids: set<string>): seq<string>
    requires ids <= trips.Keys && Keyed(trips)
  {
    OrdersRows(trips, ids);
    Sorted(By(trips), ids)
  }

  // ----- one pass -----

  // Whether the database can give pages back, and whether it is still over the
  // limit of a size policy after trying.
  datatype Disk = Disk(incremental: bool, over: bool)

  datatype Failure = ClockUnset | NegativeValue | VacuumRequired

  datatype Result = Deleted(trips: int) | Err(failure: Failure)

  function Take<T>(s: seq<T>, n: nat): seq<T> { if |s| <= n then s else s[..n] }

  function Newer(s: seq<string>): (r: seq<string>)
    ensures |r| == |s|
  {
    if s == [] then [] else Newer(s[1..]) + [s[0]]
  }

  // Rows older than this Unix second are due; time before `now` in whole seconds, rounded down.
  function AgeCutoff(p: Policy, nowNs: int): Option<int> {
    match p
    case Age(ns) => if ns <= 0 then None else Some((nowNs - ns) / SECOND)
    case AgeDays(days) => if days <= 0 || days > MAX_AGE_DAYS then None else Some((nowNs - days * DAY) / SECOND)
    case _ => None
  }

  function DueBefore(trips: Table, cutoff: int): set<string> {
    set id | id in trips && Eligible(trips[id]) && Retained(trips[id]) < cutoff
  }

  // OFFSET `keep` in the newest-first order.
  function Beyond(oldestFirst: seq<string>, keep: int): seq<string> {
    if 0 <= keep <= |oldestFirst| then Newer(oldestFirst)[keep..] else []
  }

  lemma BeyondListed(s: seq<string>, keep: int)
    ensures SetOf(Beyond(s, keep)) <= SetOf(s)
  {
    NewerSame(s);
    assert forall id :: id in Beyond(s, keep) ==> id in Newer(s);
  }

  // The rows beyond the newest `keep`, oldest first again.
  function BeyondNewest(trips: Table, keep: int): seq<string>
    requires Keyed(trips)
  {
    var closed := Ordered(trips, EligibleIds(trips));
    OrdersRows(trips, EligibleIds(trips));
    BeyondListed(closed, keep);
    Ordered(trips, SetOf(Beyond(closed, keep)))
  }

  // The selection each policy makes, before the limit on its size.
  function Selected(trips: Table, p: Policy, nowNs: int): seq<string>
    requires Keyed(trips)
  {
    match p
    case Never => []
    case Age(_) => if AgeCutoff(p, nowNs).None? then [] else Ordered(trips, DueBefore(trips, AgeCutoff(p, nowNs).value))
    case AgeDays(_) => if AgeCutoff(p, nowNs).None? then []
        else Ordered(trips, DueBefore(trips, AgeCutoff(p, nowNs).value))
    case Count(keep) => BeyondNewest(trips, keep)
    case Size(_) => Ordered(trips, EligibleIds(trips))
  }

  lemma {:induction false} NewerSame(s: seq<string>)
    ensures |Newer(s)| == |s|
    ensures forall id :: id in Newer(s) <==> id in s
    ensures forall k :: 0 <= k < |s| ==> Newer(s)[k] == s[|s| - 1 - k]
  {
    if s != [] {
      NewerSame(s[1..]);
    }
  }

  function Refusal(p: Policy, nowNs: int, disk: Disk): Option<Failure> {
    if (p.Age? || p.AgeDays?) && nowNs / SECOND < TRUSTED then Some(ClockUnset)
    else if (p.Count? && p.keep < 0) || (p.Size? && p.bytes < 0) then Some(NegativeValue)
    else if p.Size? && !disk.incremental then Some(VacuumRequired)
    else None
  }

  function Batch(trips: Table, p: Policy, nowNs: int, disk: Disk): seq<string>
    requires Keyed(trips)
  {
    if Refusal(p, nowNs, disk).Some? || (p.Size? && !disk.over) then [] else Take(Selected(trips, p, nowNs), BATCH)
  }

  // DELETE ... WHERE id = ? AND the row is closed.
  function Removed(db: Db, id: string): Db {
    if id in db.trips && Eligible(db.trips[id]) then Exec(db, Delete(id)) else db
  }

  function AllRemoved(db: Db, ids: seq<string>): Db {
    if ids == [] then db else Removed(AllRemoved(db, ids[..|ids| - 1]), ids[|ids| - 1])
  }

  method Expunge(store: TripStore, p: Policy, nowNs: int, disk: Disk) returns (r: Result)
    requires Keyed(store.trips)
    modifies store
    ensures Refusal(p, nowNs, disk).Some? ==> r == Err(Refusal(p, nowNs, disk).value)
    ensures Refusal(p, nowNs, disk).None? ==> r == Deleted(|old(Batch(store.trips, p, nowNs, disk))|)
    ensures store.View() == old(AllRemoved(store.View(), Batch(store.trips, p, nowNs, disk)))
  {
    if p.Never? { return Deleted(0); }
    if (p.Age? || p.AgeDays?) && nowNs / SECOND < TRUSTED { return Err(ClockUnset); }
    if (p.Count? && p.keep < 0) || (p.Size? && p.bytes < 0) { return Err(NegativeValue); }
    if p.Size? {
      if !disk.incremental { return Err(VacuumRequired); }
      if !disk.over { return Deleted(0); }
    }
    var ids := Take(Selected(store.trips, p, nowNs), BATCH);
    var i := 0;
    while i < |ids|
      invariant 0 <= i <= |ids|
      invariant store.View() == AllRemoved(old(store.View()), ids[..i])
    {
      var id := ids[i];
      if id in store.trips && Eligible(store.trips[id]) {
        store.DeleteTrip(id);
      }
      assert ids[..i + 1][..i] == ids[..i];
      i := i + 1;
    }
    assert ids[..|ids|] == ids;
    r := Deleted(|ids|);
  }

  // ----- a pass removes the oldest rows -----

  // The closed rows, oldest first.
  function Closed(trips: Table): seq<string>
    requires Keyed(trips)
  {
    Ordered(trips, EligibleIds(trips))
  }

  // How many rows the policy wants gone.
  function Quota(trips: Table, p: Policy, nowNs: int, disk: Disk): nat
    requires Keyed(trips)
  {
    if Refusal(p, nowNs, disk).Some? then 0
    else
      match p
      case Never => 0
      case Count(keep) => Max(0, |Closed(trips)| - keep)
      case Size(_) => if disk.over then |Closed(trips)| else 0
      case _ => if AgeCutoff(p, nowNs).None? then 0 else |Ordered(trips, DueBefore(trips, AgeCutoff(p, nowNs).value))|
  }

  lemma DueComeFirst(trips: Table, cutoff: int)
    requires Keyed(trips)
    ensures Ordered(trips, DueBefore(trips, cutoff)) <= Closed(trips)
  {
    OrdersRows(trips, EligibleIds(trips));
    forall x, y | x in DueBefore(trips, cutoff) && y in EligibleIds(trips) && y !in DueBefore(trips, cutoff)
      ensures By(trips)(x, y)
    {
      assert Retained(trips[x]) < cutoff <= Retained(trips[y]);
      assert Older(trips[x], trips[y]);
    }
    LowerFirst(By(trips), EligibleIds(trips), DueBefore(trips, cutoff));
  }

  lemma BeyondAt(s: seq<string>, keep: int, i: nat)
    requires 0 <= keep <= |s| && i < |s| - keep
    ensures |Beyond(s, keep)| == |s| - keep && Beyond(s, keep)[i] == s[|s| - keep - 1 - i]
  {
    NewerSame(s);
  }

  lemma BeyondIsOldest(s: seq<string>, keep: int)
    requires keep >= 0
    ensures SetOf(Beyond(s, keep)) == SetOf(s[..Max(0, |s| - keep)])
  {
    var a, b := Beyond(s, keep), s[..Max(0, |s| - keep)];
    forall id | id in a ensures id in b {
      var i :| 0 <= i < |a| && a[i] == id;
      BeyondAt(s, keep, i);
      assert b[|b| - 1 - i] == id;
    }
    forall id | id in b ensures id in a {
      var i :| 0 <= i < |b| && b[i] == id;
      BeyondAt(s, keep, |b| - 1 - i);
    }
  }

  lemma FirstOnes(trips: Table, k: nat)
    requires Keyed(trips) && k <= |Closed(trips)|
    ensures SetOf(Closed(trips)[..k]) <= EligibleIds(trips)
    ensures Ordered(trips, SetOf(Closed(trips)[..k])) == Closed(trips)[..k]
    ensures Ordered(trips, EligibleIds(trips) - SetOf(Closed(trips)[..k])) == Closed(trips)[k..]
  {
    OrdersRows(trips, EligibleIds(trips));
    SortedSplit(By(trips), EligibleIds(trips), k);
  }

  lemma BeyondComeFirst(trips: Table, keep: int)
    requires Keyed(trips) && keep >= 0
    ensures BeyondNewest(trips, keep) == Closed(trips)[..Max(0, |Closed(trips)| - keep)]
  {
    BeyondIsOldest(Closed(trips), keep);
    FirstOnes(trips, Max(0, |Closed(trips)| - keep));
  }

  // Every policy's batch is an oldest-first prefix of the closed rows, of at most
  // BATCH rows and no more than the policy wants gone.
  lemma BatchIsOldest(trips: Table, p: Policy, nowNs: int, disk: Disk)
    requires Keyed(trips)
    ensures Quota(trips, p, nowNs, disk) <= |Closed(trips)|
    ensures Batch(trips, p, nowNs, disk) == Closed(trips)[..Min(BATCH, Quota(trips, p, nowNs, disk))]
  {
    var s := Closed(trips);
    if Refusal(p, nowNs, disk).None? {
      match p
      case Never =>
      case Count(keep) =>
        BeyondComeFirst(trips, keep);
      case Size(_) =>
      case _ =>
        if AgeCutoff(p, nowNs).Some? {
          DueComeFirst(trips, AgeCutoff(p, nowNs).value);
        }
    }
  }

  // ----- what a removal leaves -----

  // Exactly these rows and their points are gone.
  ghost predicate Lacks(after: Db, db: Db, gone: set<string>) {
    && after.trips == db.trips - gone
    && forall id :: PointsLeft(after, db, gone, id)
  }

  predicate PointsLeft(after: Db, db: Db, gone: set<string>, id: string) {
    PointsOf(after.points, id) == if id in gone then [] else PointsOf(db.points, id)
  }

  lemma {:induction false} RemovedLacks(db: Db, ids: seq<string>)
    requires SetOf(ids) <= EligibleIds(db.trips)
    ensures Lacks(AllRemoved(db, ids), db, SetOf(ids))
  {
    if ids == [] {
      assert SetOf(ids) == {} && db.trips - {} == db.trips;
    } else {
      var n := |ids| - 1;
      var before, gone := AllRemoved(db, ids[..n]), SetOf(ids[..n]);
      assert ids == ids[..n] + [ids[n]];
      assert SetOf(ids) == gone + {ids[n]};
      assert ids[n] in EligibleIds(db.trips);
      RemovedLacks(db, ids[..n]);
      OneLess(db, before, gone, ids[n]);
    }
  }

  lemma OneLess(db: Db, before: Db, gone: set<string>, id: string)
    requires Lacks(before, db, gone) && gone <= db.trips.Keys && id in db.trips && Eligible(db.trips[id])
    ensures Lacks(Removed(before, id), db, gone + {id})
  {
    if id in gone {
      assert gone + {id} == gone;
    } else {
      assert before.trips - {id} == db.trips - (gone + {id});
      forall x ensures PointsLeft(Removed(before, id), db, gone + {id}, x) {
        assert PointsLeft(before, db, gone, x);
        PointsOneLess(db, before, gone, id, x);
      }
    }
  }

  lemma PointsOneLess(db: Db, before: Db, gone: set<string>, id: string, x: string)
    requires PointsLeft(before, db, gone, x) && id in before.trips && Eligible(before.trips[id])
    ensures PointsLeft(Removed(before, id), db, gone + {id}, x)
  {
    PointsWithout(before.points, id, x);
  }

  lemma OrderKept(trips: Table, gone: set<string>, ids: set<string>)
    requires Keyed(trips) && ids <= trips.Keys && ids !! gone
    ensures Keyed(trips - gone) && Ordered(trips - gone, ids) == Ordered(trips, ids)
  {
    OrdersRows(trips, ids);
    OrdersRows(trips - gone, ids);
    SortedAgree(By(trips - gone), By(trips), ids);
  }

  // Removing the k oldest leaves the others in order.
  lemma Survivors(db: Db, k: nat)
    requires Keyed(db.trips) && k <= |Closed(db.trips)|
    ensures
      var after := AllRemoved(db, Closed(db.trips)[..k]);
      && Lacks(after, db, SetOf(Closed(db.trips)[..k])) && Keyed(after.trips)
      && Closed(after.trips) == Closed(db.trips)[k..]
  {
    var all := EligibleIds(db.trips);
    FirstOnes(db.trips, k);
    var gone := SetOf(Closed(db.trips)[..k]);
    RemovedLacks(db, Closed(db.trips)[..k]);
    OrderKept(db.trips, gone, all - gone);
    assert EligibleIds(db.trips - gone) == all - gone;
  }

  // ... and the policy wants that many fewer.
  lemma QuotaLeft(db: Db, p: Policy, nowNs: int, disk: Disk, k: nat)
    requires Keyed(db.trips) && k <= |Closed(db.trips)|
    ensures
      var after := AllRemoved(db, Closed(db.trips)[..k]);
      Keyed(after.trips) && Quota(after.trips, p, nowNs, disk) == Max(0, Quota(db.trips, p, nowNs, disk) - k)
  {
    var after := AllRemoved(db, Closed(db.trips)[..k]).trips;
    Survivors(db, k);
    assert |Closed(after)| == |Closed(db.trips)| - k;
    if AgeCutoff(p, nowNs).Some? {
      DueLeft(db, AgeCutoff(p, nowNs).value, k);
    }
    QuotaLess(db.trips, after, p, nowNs, disk, k);
  }

  lemma QuotaLess(trips: Table, after: Table, p: Policy, nowNs: int, disk: Disk, k: nat)
    requires Keyed(trips) && Keyed(after) && |Closed(after)| == |Closed(trips)| - k
    requires AgeCutoff(p, nowNs).Some? ==>
               |Ordered(after, DueBefore(after, AgeCutoff(p, nowNs).value))|
               == Max(0, |Ordered(trips, DueBefore(trips, AgeCutoff(p, nowNs).value))| - k)
    ensures Quota(after, p, nowNs, disk) == Max(0, Quota(trips, p, nowNs, disk) - k)
  {
  }

  lemma DueLeft(db: Db, cutoff: int, k: nat)
    requires Keyed(db.trips) && k <= |Closed(db.trips)|
    ensures
      var after := AllRemoved(db, Closed(db.trips)[..k]);
      var due := |Ordered(db.trips, DueBefore(db.trips, cutoff))|;
      Keyed(after.trips) && |Ordered(after.trips, DueBefore(after.trips, cutoff))| == Max(0, due - k)
  {
    var due := Ordered(db.trips, DueBefore(db.trips, cutoff));
    DueComeFirst(db.trips, cutoff);
    Survivors(db, k);
    if k <= |due| {
      assert due[..k] == Closed(db.trips)[..k];
      DueWithout(db.trips, cutoff, k);
    } else {
      NoneDue(db.trips, cutoff, k);
    }
  }

  lemma NoneDue(trips: Table, cutoff: int, k: nat)
    requires Keyed(trips) && |Ordered(trips, DueBefore(trips, cutoff))| <= k <= |Closed(trips)|
    ensures
      var left := trips - SetOf(Closed(trips)[..k]);
      Keyed(left) && DueBefore(left, cutoff) == {} && Ordered(left, {}) == []
  {
    var gone := Closed(trips)[..k];
    DueGone(trips, cutoff, gone);
    assert forall id :: id in DueBefore(trips, cutoff) ==> OlderThan(trips, id, cutoff);
  }

  lemma DueWithout(trips: Table, cutoff: int, k: nat)
    requires Keyed(trips) && k <= |Ordered(trips, DueBefore(trips, cutoff))|
    ensures
      var s := Ordered(trips, DueBefore(trips, cutoff));
      var left := trips - SetOf(s[..k]);
      Keyed(left) && Ordered(left, DueBefore(left, cutoff)) == s[k..]
  {
    var due := DueBefore(trips, cutoff);
    OrdersRows(trips, due);
    SortedSplit(By(trips), due, k);
    var gone := SetOf(Ordered(trips, due)[..k]);
    OrderKept(trips, gone, due - gone);
    assert DueBefore(trips - gone, cutoff) == due - gone;
  }

  // ----- passes repeated -----

  function Pass(db: Db, p: Policy, nowNs: int, disk: Disk): (after: Db)
    requires Keyed(db.trips)
    ensures Keyed(after.trips)
  {
    BatchIsOldest(db.trips, p, nowNs, disk);
    Survivors(db, Min(BATCH, Quota(db.trips, p, nowNs, disk)));
    AllRemoved(db, Batch(db.trips, p, nowNs, disk))
  }

  // What a pass finds: the clock, and what it measures of the database.
  datatype Reading = Reading(nowNs: int, disk: Disk)

  function Passes(db: Db, p: Policy, rs: seq<Reading>): (after: Db)
    requires Keyed(db.trips)
    ensures Keyed(after.trips)
  {
    if rs == [] then db
    else
      var n := |rs| - 1;
      Pass(Passes(db, p, rs[..n]), p, rs[n].nowNs, rs[n].disk)
  }

  function Wanted(trips: Table, p: Policy, r: Reading): nat
    requires Keyed(trips)
  {
    Quota(trips, p, r.nowNs, r.disk)
  }

  // How many rows the passes remove: each as many as are wanted by then, but no
  // more than a batch.
  function Progress(trips: Table, p: Policy, rs: seq<Reading>): nat
    requires Keyed(trips)
  {
    if rs == [] then 0
    else
      var n := |rs| - 1;
      var before := Progress(trips, p, rs[..n]);
      before + Min(BATCH, Max(0, Wanted(trips, p, rs[n]) - before))
  }

  lemma {:induction false} ProgressAtMost(trips: Table, p: Policy, rs: seq<Reading>)
    requires Keyed(trips)
    ensures Progress(trips, p, rs) <= |Closed(trips)|
  {
    if rs != [] {
      var n := |rs| - 1;
      ProgressAtMost(trips, p, rs[..n]);
      BatchIsOldest(trips, p, rs[n].nowNs, rs[n].disk);
    }
  }

  // The clock does not go back between passes.
  predicate Advancing(rs: seq<Reading>) {
    |rs| < 2 || (Advancing(rs[..|rs| - 1]) && rs[|rs| - 2].nowNs <= rs[|rs| - 1].nowNs)
  }

  // No pass wants fewer rows gone than the one before.
  predicate Growing(trips: Table, p: Policy, rs: seq<Reading>)
    requires Keyed(trips)
  {
    |rs| < 2 ||
    (var n := |rs| - 1; Growing(trips, p, rs[..n]) && Wanted(trips, p, rs[n - 1]) <= Wanted(trips, p, rs[n]))
  }

  lemma CutoffAdvances(p: Policy, early: int, late: int)
    requires early <= late && AgeCutoff(p, early).Some?
    ensures AgeCutoff(p, late).Some? && AgeCutoff(p, early).value <= AgeCutoff(p, late).value
  {
    match p
    case Age(ns) => SecondsAdvance(early - ns, late - ns);
    case AgeDays(days) => SecondsAdvance(early - days * DAY, late - days * DAY);
  }

  lemma SecondsAdvance(early: int, late: int)
    requires early <= late
    ensures early / SECOND <= late / SECOND
  {
  }

  lemma DueGrows(trips: Table, early: int, late: int)
    requires Keyed(trips) && early <= late
    ensures Ordered(trips, DueBefore(trips, early)) <= Ordered(trips, DueBefore(trips, late))
  {
    var few, more := DueBefore(trips, early), DueBefore(trips, late);
    OrdersRows(trips, more);
    forall x, y | x in few && y in more && y !in few ensures By(trips)(x, y) {
      assert Retained(trips[x]) < early <= Retained(trips[y]);
      assert Older(trips[x], trips[y]);
    }
    LowerFirst(By(trips), more, few);
  }

  // As time passes a policy wants no fewer rows gone, if it measures the same.
  lemma QuotaGrows(trips: Table, p: Policy, early: Reading, late: Reading)
    requires Keyed(trips) && early.nowNs <= late.nowNs && (p.Size? ==> early.disk == late.disk)
    ensures Wanted(trips, p, early) <= Wanted(trips, p, late)
  {
    SecondsAdvance(early.nowNs, late.nowNs);
    if (p.Age? || p.AgeDays?) && AgeCutoff(p, early.nowNs).Some? {
      CutoffAdvances(p, early.nowNs, late.nowNs);
      DueGrows(trips, AgeCutoff(p, early.nowNs).value, AgeCutoff(p, late.nowNs).value);
    }
  }

  // So under an advancing clock only a size policy can come to want fewer.
  lemma {:induction false} AdvancingGrows(trips: Table, p: Policy, rs: seq<Reading>)
    requires Keyed(trips) && Advancing(rs) && !p.Size?
    ensures Growing(trips, p, rs)
  {
    if |rs| > 1 {
      var n := |rs| - 1;
      AdvancingGrows(trips, p, rs[..n]);
      QuotaGrows(trips, p, rs[n - 1], rs[n]);
    }
  }

  lemma {:induction false} ProgressWanted(trips: Table, p: Policy, rs: seq<Reading>)
    requires Keyed(trips) && Growing(trips, p, rs) && rs != []
    ensures Progress(trips, p, rs) <= Wanted(trips, p, rs[|rs| - 1])
  {
    var n := |rs| - 1;
    if n > 0 {
      ProgressWanted(trips, p, rs[..n]);
    } else {
      assert Progress(trips, p, rs[..0]) == 0;
    }
  }

  lemma OnePassMore(before: nat, first: nat, quota: nat, k: nat)
    requires Min(BATCH * k, first) <= before && first <= quota
    ensures Min(BATCH * (k + 1), first) <= before + Min(BATCH, Max(0, quota - before))
  {
  }

  lemma {:induction false} FirstWanted(trips: Table, p: Policy, rs: seq<Reading>)
    requires Keyed(trips) && Growing(trips, p, rs) && rs != []
    ensures Wanted(trips, p, rs[0]) <= Wanted(trips, p, rs[|rs| - 1])
  {
    if |rs| > 1 {
      FirstWanted(trips, p, rs[..|rs| - 1]);
    }
  }

  lemma {:induction false} ProgressMade(trips: Table, p: Policy, rs: seq<Reading>)
    requires Keyed(trips) && Growing(trips, p, rs) && rs != []
    ensures Min(BATCH * |rs|, Wanted(trips, p, rs[0])) <= Progress(trips, p, rs)
  {
    var n := |rs| - 1;
    if n > 0 {
      ProgressMade(trips, p, rs[..n]);
    }
    FirstWanted(trips, p, rs);
    OnePassMore(Progress(trips, p, rs[..n]), Wanted(trips, p, rs[0]), Wanted(trips, p, rs[n]), n);
  }

  // While the policy wants the same rows gone, k passes remove that many or k batches.
  lemma {:induction false} ProgressSteady(trips: Table, p: Policy, rs: seq<Reading>, quota: nat)
    requires Keyed(trips) && forall r :: r in rs ==> Wanted(trips, p, r) == quota
    ensures Progress(trips, p, rs) == Min(BATCH * |rs|, quota)
  {
    if rs != [] {
      var n := |rs| - 1;
      assert rs[n] in rs && forall r :: r in rs[..n] ==> r in rs;
      ProgressSteady(trips, p, rs[..n], quota);
    }
  }

  lemma {:induction false} FirstBeforeLast(rs: seq<Reading>)
    requires Advancing(rs) && rs != []
    ensures rs[0].nowNs <= rs[|rs| - 1].nowNs
  {
    if |rs| > 1 {
      FirstBeforeLast(rs[..|rs| - 1]);
    }
  }

  lemma {:induction false} RemovedJoin(db: Db, a: seq<string>, b: seq<string>)
    ensures AllRemoved(AllRemoved(db, a), b) == AllRemoved(db, a + b)
  {
    if b == [] {
      assert a + b == a;
    } else {
      RemovedJoin(db, a, b[..|b| - 1]);
      assert (a + b)[..|a + b| - 1] == a + b[..|b| - 1];
    }
  }

  lemma Glue<T>(s: seq<T>, m: nat, b: nat)
    requires m + b <= |s|
    ensures s[..m] + s[m..][..b] == s[..m + b]
  {
  }

  // The batch that follows the removal of the m oldest.
  lemma BatchAfter(db: Db, p: Policy, nowNs: int, disk: Disk, m: nat)
    requires Keyed(db.trips) && m <= |Closed(db.trips)|
    ensures
      var d, k := AllRemoved(db, Closed(db.trips)[..m]), Min(BATCH, Max(0, Quota(db.trips, p, nowNs, disk) - m));
      && Keyed(d.trips) && m + k <= Max(m, |Closed(db.trips)|)
      && Batch(d.trips, p, nowNs, disk) == Closed(db.trips)[m..][..k]
  {
    Survivors(db, m);
    QuotaLeft(db, p, nowNs, disk, m);
    BatchIsOldest(db.trips, p, nowNs, disk);
    BatchIsOldest(AllRemoved(db, Closed(db.trips)[..m]).trips, p, nowNs, disk);
  }

  lemma Extends(s: seq<string>, gone: seq<string>, batch: seq<string>, next: seq<string>)
    requires |gone| <= |next| <= |s| && gone == s[..|gone|] && next == s[..|next|]
    requires batch == s[|gone|..][..|next| - |gone|]
    ensures gone + batch == next
  {
    Glue(s, |gone|, |next| - |gone|);
  }

  // The pass that follows the removal of the oldest rows `gone`.
  lemma {:induction false} PassAfter(db: Db, p: Policy, nowNs: int, disk: Disk, gone: seq<string>, next: seq<string>)
    requires Keyed(db.trips) && |gone| <= |next| <= |Closed(db.trips)|
    requires gone == Closed(db.trips)[..|gone|] && next == Closed(db.trips)[..|next|]
    requires |next| == |gone| + Min(BATCH, Max(0, Quota(db.trips, p, nowNs, disk) - |gone|))
    ensures Keyed(AllRemoved(db, gone).trips)
    ensures Pass(AllRemoved(db, gone), p, nowNs, disk) == AllRemoved(db, next)
  {
    BatchAfter(db, p, nowNs, disk, |gone|);
    var batch := Batch(AllRemoved(db, gone).trips, p, nowNs, disk);
    Extends(Closed(db.trips), gone, batch, next);
    RemovedJoin(db, gone, batch);
  }

  // Repeated passes, each with its own clock and its own measurement of the database,
  // are one deletion of the oldest rows.
  lemma {:induction false} PassesAreOneDeletion(db: Db, p: Policy, rs: seq<Reading>) returns (gone: seq<string>)
    requires Keyed(db.trips)
    ensures |gone| == Progress(db.trips, p, rs) <= |Closed(db.trips)|
    ensures gone == Closed(db.trips)[..|gone|]
    ensures Passes(db, p, rs) == AllRemoved(db, gone)
  {
    if rs == [] {
      gone := [];
    } else {
      var n := |rs| - 1;
      ProgressAtMost(db.trips, p, rs);
      gone := Closed(db.trips)[..Progress(db.trips, p, rs)];
      var before := PassesAreOneDeletion(db, p, rs[..n]);
      PassAfter(db, p, rs[n].nowNs, rs[n].disk, before, gone);
    }
  }

  // What passes remove is gone with its points; everything else is as it was,
  // and no open row is ever touched.
  lemma PassesKeepTheRest(db: Db, p: Policy, rs: seq<Reading>) returns (gone: seq<string>)
    requires Keyed(db.trips)
    ensures |gone| == Progress(db.trips, p, rs) <= |Closed(db.trips)|
    ensures gone == Closed(db.trips)[..|gone|] && SetOf(gone) <= EligibleIds(db.trips)
    ensures Lacks(Passes(db, p, rs), db, SetOf(gone))
    ensures Closed(Passes(db, p, rs).trips) == Closed(db.trips)[|gone|..]
    ensures forall id :: id in db.trips && db.trips[id].status == Recording ==>
              id in Passes(db, p, rs).trips && Passes(db, p, rs).trips[id] == db.trips[id]
  {
    gone := PassesAreOneDeletion(db, p, rs);
    FirstOnes(db.trips, |gone|);
    Survivors(db, |gone|);
  }

  // A count policy leaves the newest `keep` closed rows, or all but a batch for
  // each pass while it is still on its way.
  lemma {:induction false} CountPasses(db: Db, keep: nat, rs: seq<Reading>) returns (left: nat)
    requires Keyed(db.trips)
    ensures left == Max(Min(keep, |Closed(db.trips)|), |Closed(db.trips)| - BATCH * |rs|) <= |Closed(db.trips)|
    ensures Closed(Passes(db, Count(keep), rs).trips) == Closed(db.trips)[|Closed(db.trips)| - left..]
  {
    var gone := PassesKeepTheRest(db, Count(keep), rs);
    ProgressSteady(db.trips, Count(keep), rs, Max(0, |Closed(db.trips)| - keep));
    left := |Closed(db.trips)| - |gone|;
  }

  // The passes that found the database still over its limit.
  function Overs(rs: seq<Reading>): nat {
    if rs == [] then 0
    else
      var d := rs[|rs| - 1].disk;
      Overs(rs[..|rs| - 1]) + if d.incremental && d.over then 1 else 0
  }

  // A size policy removes a batch for each pass that finds the database over its
  // limit, and nothing in the others.
  lemma SizePasses(db: Db, bytes: nat, rs: seq<Reading>) returns (left: nat)
    requires Keyed(db.trips)
    ensures left == Max(0, |Closed(db.trips)| - BATCH * Overs(rs)) <= |Closed(db.trips)|
    ensures Closed(Passes(db, Size(bytes), rs).trips) == Closed(db.trips)[|Closed(db.trips)| - left..]
  {
    var gone := PassesKeepTheRest(db, Size(bytes), rs);
    SizeProgress(db.trips, bytes, rs);
    left := |Closed(db.trips)| - |gone|;
  }

  lemma {:induction false} SizeProgress(trips: Table, bytes: nat, rs: seq<Reading>)
    requires Keyed(trips)
    ensures Progress(trips, Size(bytes), rs) == Min(BATCH * Overs(rs), |Closed(trips)|)
  {
    if rs != [] {
      SizeProgress(trips, bytes, rs[..|rs| - 1]);
    }
  }

  predicate OlderThan(trips: Table, id: string, cutoff: int) {
    id in trips && Eligible(trips[id]) && Retained(trips[id]) < cutoff
  }

  // Enough passes of an age policy remove every row that was too old at the first of
  // them and none that is young enough at the last.
  lemma AgePasses(db: Db, p: Policy, rs: seq<Reading>)
    requires Keyed(db.trips) && Advancing(rs) && rs != []
    requires Refusal(p, rs[0].nowNs, rs[0].disk).None? && AgeCutoff(p, rs[0].nowNs).Some?
    requires BATCH * |rs| >= |Closed(db.trips)|
    ensures AgeCutoff(p, rs[|rs| - 1].nowNs).Some?
    ensures
      var first, last := AgeCutoff(p, rs[0].nowNs).value, AgeCutoff(p, rs[|rs| - 1].nowNs).value;
      var after := Passes(db, p, rs).trips;
      && (forall id :: OlderThan(db.trips, id, first) ==> id !in after)
      && (forall id :: id in db.trips && !OlderThan(db.trips, id, last) ==> id in after && after[id] == db.trips[id])
      && (forall id :: id in after ==> id in db.trips)
  {
    var n := |rs| - 1;
    var gone := PassesKeepTheRest(db, p, rs);
    FirstBeforeLast(rs);
    StillServed(p, rs[0], rs[n]);
    AgeProgress(db.trips, p, rs);
    DueGone(db.trips, AgeCutoff(p, rs[0].nowNs).value, gone);
    GoneDue(db.trips, AgeCutoff(p, rs[n].nowNs).value, gone);
  }

  lemma AgeProgress(trips: Table, p: Policy, rs: seq<Reading>)
    requires Keyed(trips) && Advancing(rs) && rs != [] && BATCH * |rs| >= |Closed(trips)|
    requires Refusal(p, rs[0].nowNs, rs[0].disk).None? && AgeCutoff(p, rs[0].nowNs).Some?
    requires Refusal(p, rs[|rs| - 1].nowNs, rs[|rs| - 1].disk).None? && AgeCutoff(p, rs[|rs| - 1].nowNs).Some?
    ensures
      var first, last := AgeCutoff(p, rs[0].nowNs).value, AgeCutoff(p, rs[|rs| - 1].nowNs).value;
      |Ordered(trips, DueBefore(trips, first))| <= Progress(trips, p, rs)
          <= |Ordered(trips, DueBefore(trips, last))|
  {
    AdvancingGrows(trips, p, rs);
    ProgressMade(trips, p, rs);
    ProgressWanted(trips, p, rs);
    QuotaIsDue(trips, p, rs[0].nowNs, rs[0].disk);
    QuotaIsDue(trips, p, rs[|rs| - 1].nowNs, rs[|rs| - 1].disk);
    DueComeFirst(trips, AgeCutoff(p, rs[0].nowNs).value);
  }

  // An age policy that is not refused wants exactly the rows before its cutoff gone.
  lemma QuotaIsDue(trips: Table, p: Policy, nowNs: int, disk: Disk)
    requires Keyed(trips) && Refusal(p, nowNs, disk).None? && AgeCutoff(p, nowNs).Some?
    ensures Quota(trips, p, nowNs, disk) == |Ordered(trips, DueBefore(trips, AgeCutoff(p, nowNs).value))|
  {
  }

  lemma StillServed(p: Policy, early: Reading, late: Reading)
    requires early.nowNs <= late.nowNs && Refusal(p, early.nowNs, early.disk).None?
    requires AgeCutoff(p, early.nowNs).Some?
    ensures Refusal(p, late.nowNs, late.disk).None? && AgeCutoff(p, late.nowNs).Some?
  {
    SecondsAdvance(early.nowNs, late.nowNs);
    CutoffAdvances(p, early.nowNs, late.nowNs);
  }

  lemma DueGone(trips: Table, cutoff: int, gone: seq<string>)
    requires Keyed(trips) && |gone| <= |Closed(trips)| && gone == Closed(trips)[..|gone|]
    requires |Ordered(trips, DueBefore(trips, cutoff))| <= |gone|
    ensures forall id :: OlderThan(trips, id, cutoff) ==> id in gone
  {
    var due := DueBefore(trips, cutoff);
    DueComeFirst(trips, cutoff);
    OrdersRows(trips, due);
    var first := Ordered(trips, due);
    assert first <= gone && SetOf(first) == due;
    forall id | OlderThan(trips, id, cutoff) ensures id in gone {
      assert id in SetOf(first);
      var k :| 0 <= k < |first| && first[k] == id;
      assert gone[k] == id;
    }
  }

  lemma GoneDue(trips: Table, cutoff: int, gone: seq<string>)
    requires Keyed(trips) && |gone| <= |Closed(trips)| && gone == Closed(trips)[..|gone|]
    requires |gone| <= |Ordered(trips, DueBefore(trips, cutoff))|
    ensures forall id :: id in gone ==> OlderThan(trips, id, cutoff)
  {
    var due := DueBefore(trips, cutoff);
    DueComeFirst(trips, cutoff);
    OrdersRows(trips, due);
    var last := Ordered(trips, due);
    assert gone <= last && SetOf(last) == due;
    forall id | id in gone ensures OlderThan(trips, id, cutoff) {
      var k :| 0 <= k < |gone| && gone[k] == id;
      assert last[k] == id && id in SetOf(last);
    }
  }

  // ----- what a policy promises, told by the rows alone -----

  // The instant from which a row's age counts: its end, else its start, else its creation.
  predicate AgesFrom(t: Trip, at: int) {
    || (t.endedAt != 0 && at == t.endedAt)
    || (t.endedAt == 0 && t.startedAt != 0 && at == t.startedAt)
    || (t.endedAt == 0 && t.startedAt == 0 && at == t.createdAt)
  }

  predicate IsGone(after: Db, id: string) { id !in after.trips && PointsOf(after.points, id) == [] }

  predicate IsKept(after: Db, db: Db, id: string) {
    && id in db.trips && id in after.trips && after.trips[id] == db.trips[id]
    && PointsOf(after.points, id) == PointsOf(db.points, id)
  }

  lemma GoneOrKept(db: Db, p: Policy, rs: seq<Reading>, id: string)
    requires Keyed(db.trips) && id in db.trips
    ensures
      var after := Passes(db, p, rs);
      && (id in after.trips ==> IsKept(after, db, id)) && (id !in after.trips ==> IsGone(after, id))
      && (db.trips[id].status == Recording ==> id in after.trips)
  {
    var gone := PassesKeepTheRest(db, p, rs);
    assert PointsLeft(Passes(db, p, rs), db, SetOf(gone), id);
  }

  lemma ClosedAtMost(trips: Table)
    requires Keyed(trips)
    ensures |Closed(trips)| <= |trips|
  {
    OrdersRows(trips, EligibleIds(trips));
    ChainSize(By(trips), Closed(trips));
    SubsetSize(EligibleIds(trips), trips.Keys);
  }

  lemma {:induction false} SubsetSize(a: set<string>, b: set<string>)
    requires a <= b
    ensures |a| <= |b|
  {
    if a != {} {
      var x :| x in a;
      SubsetSize(a - {x}, b - {x});
    }
  }

  lemma WholeDays(nowNs: int, days: int)
    requires 0 < days <= 106751
    ensures AgeCutoff(AgeDays(days), nowNs) == Some(nowNs / 1_000_000_000 - days * 86400)
  {
    assert days * DAY == days * 86400 * 1_000_000_000;
  }

  // What AgePasses says of the row id, which ages from `at`.
  lemma CutoffPasses(db: Db, p: Policy, rs: seq<Reading>, id: string, at: int)
    requires Keyed(db.trips) && Advancing(rs) && rs != [] && 100 * |rs| >= |db.trips|
    requires Refusal(p, rs[0].nowNs, rs[0].disk).None? && AgeCutoff(p, rs[0].nowNs).Some?
    requires id in db.trips && AgesFrom(db.trips[id], at)
    ensures AgeCutoff(p, rs[|rs| - 1].nowNs).Some?
    ensures
      var after := Passes(db, p, rs);
      var first, last := AgeCutoff(p, rs[0].nowNs).value, AgeCutoff(p, rs[|rs| - 1].nowNs).value;
      && (db.trips[id].status != Recording && at < first ==> IsGone(after, id))
      && (db.trips[id].status == Recording || at >= last ==> IsKept(after, db, id))
  {
    ClosedAtMost(db.trips);
    AgePasses(db, p, rs);
    GoneOrKept(db, p, rs, id);
    var first, last := AgeCutoff(p, rs[0].nowNs).value, AgeCutoff(p, rs[|rs| - 1].nowNs).value;
    assert db.trips[id].status != Recording && at < first ==> OlderThan(db.trips, id, first);
    assert at >= last ==> !OlderThan(db.trips, id, last);
  }

  // Enough passes of a policy of whole days remove every closed row, and its points, whose
  // age in whole seconds is more than that many days at the first of them, and keep every
  // row whose age is no more at the last.
  lemma AgeDaysPasses(db: Db, days: int, rs: seq<Reading>, id: string, at: int)
    requires Keyed(db.trips) && Advancing(rs) && rs != [] && 0 < days <= 106751
    requires rs[0].nowNs / 1_000_000_000 >= TRUSTED && 100 * |rs| >= |db.trips|
    requires id in db.trips && AgesFrom(db.trips[id], at)
    ensures
      var after := Passes(db, AgeDays(days), rs);
      var first, last := rs[0].nowNs / 1_000_000_000, rs[|rs| - 1].nowNs / 1_000_000_000;
      && (db.trips[id].status != Recording && first - at > days * 86400 ==> IsGone(after, id))
      && (db.trips[id].status == Recording || last - at <= days * 86400 ==> IsKept(after, db, id))
  {
    WholeDays(rs[0].nowNs, days);
    WholeDays(rs[|rs| - 1].nowNs, days);
    assert Refusal(AgeDays(days), rs[0].nowNs, rs[0].disk).None?;
    CutoffPasses(db, AgeDays(days), rs, id, at);
  }

  lemma WholeSeconds(nowNs: int, ns: int, at: int)
    ensures at < (nowNs - ns) / 1_000_000_000 <==> nowNs - (at + 1) * 1_000_000_000 >= ns
  {
  }

  // The same of an age in nanoseconds: a row is due once the second from which it ages
  // has been over for that long.
  lemma AgeNsPasses(db: Db, ns: int, rs: seq<Reading>, id: string, at: int)
    requires Keyed(db.trips) && Advancing(rs) && rs != [] && ns > 0
    requires rs[0].nowNs / 1_000_000_000 >= TRUSTED && 100 * |rs| >= |db.trips|
    requires id in db.trips && AgesFrom(db.trips[id], at)
    ensures
      var after := Passes(db, Age(ns), rs);
      var first, last := rs[0].nowNs - (at + 1) * 1_000_000_000, rs[|rs| - 1].nowNs - (at + 1) * 1_000_000_000;
      && (db.trips[id].status != Recording && first >= ns ==> IsGone(after, id))
      && (db.trips[id].status == Recording || last < ns ==> IsKept(after, db, id))
  {
    CutoffPasses(db, Age(ns), rs, id, at);
    WholeSeconds(rs[0].nowNs, ns, at);
    WholeSeconds(rs[|rs| - 1].nowNs, ns, at);
  }

  lemma ListedBefore(trips: Table, k: nat, x: string, y: string)
    requires Keyed(trips) && k <= |Closed(trips)|
    requires x in Closed(trips)[..k] && y in EligibleIds(trips) && y !in Closed(trips)[..k]
    ensures x in trips && Older(trips[x], trips[y])
  {
    var s := Closed(trips);
    OrdersRows(trips, EligibleIds(trips));
    assert y in SetOf(s) && s == s[..k] + s[k..];
    Across(By(trips), s, k, x, y);
  }

  // Whatever the policy and the readings, no row goes before an older one: a row that is
  // gone was older than any closed row left, or as old with a smaller id.
  lemma OldestGoFirst(db: Db, p: Policy, rs: seq<Reading>, x: string, y: string, atX: int, atY: int)
    requires Keyed(db.trips) && x in db.trips && y in db.trips && db.trips[y].status != Recording
    requires x !in Passes(db, p, rs).trips && y in Passes(db, p, rs).trips
    requires AgesFrom(db.trips[x], atX) && AgesFrom(db.trips[y], atY)
    ensures atX < atY || (atX == atY && Before(x, y))
  {
    var gone := PassesKeepTheRest(db, p, rs);
    assert x in SetOf(gone) && y !in SetOf(gone);
    ListedBefore(db.trips, |gone|, x, y);
  }

  // A pass is refused exactly for an age under an unset clock, a negative number to keep,
  // or a size without incremental vacuum; a refused pass, and one of a size policy that
  // is met, changes nothing.
  lemma RefusedExactly(db: Db, p: Policy, nowNs: int, disk: Disk)
    requires Keyed(db.trips)
    ensures Refusal(p, nowNs, disk) ==
              match p
              case Never => None
              case AgeDays(_) => if nowNs / 1_000_000_000 < 1577836800 then Some(ClockUnset) else None
              case Age(_) => if nowNs / 1_000_000_000 < 1577836800 then Some(ClockUnset) else None
              case Count(keep) => if keep < 0 then Some(NegativeValue) else None
              case Size(bytes) =>
                if bytes < 0 then Some(NegativeValue) else if !disk.incremental then Some(VacuumRequired) else None
    ensures Refusal(p, nowNs, disk).Some? || p.Never? || (p.Size? && !disk.over) ==> Pass(db, p, nowNs, disk) == db
  {
  }
}
