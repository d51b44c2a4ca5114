/** Paging through completed trips: internal/db/history.go over the sequence
numbers internal/db/db.go gives to trips as they complete.

A walk reads page after page while the tables change in between. */
module History {
  import opened Prelude
  import opened Trips

  // ----- sequence numbers -----

  // The trips table with trip_history_order, sequence number to trip id.  `last`
  // is the largest number ever given: AUTOINCREMENT does not give one twice.
  datatype Catalog = Catalog(db: Db, order: map<nat, string>, last: nat)

  predicate IsCompleted(db: Db, id: string) { id in db.trips && db.trips[id].status == Completed }

  function NumberNext(c: Catalog, id: string): Catalog {
    Catalog(c.db, c.order[c.last + 1 := id], c.last + 1)
  }

  // One statement, with the completion trigger (which ignores a trip already
  // numbered) and the cascade of a deletion.
  function Happen(c: Catalog, s: Statement): Catalog {
    match s
    case InsertTrip(t) => if t.id in c.db.trips then c else c.(db := Exec(c.db, s))
    case Finish(id, _, _, _, _, _) =>
      var d := c.(db := Exec(c.db, s));
      if id in c.db.trips && !IsCompleted(c.db, id) && id !in c.order.Values then NumberNext(d, id) else d
    case Delete(id) => Catalog(Exec(c.db, s), map n | n in c.order && c.order[n] != id :: c.order[n], c.last)
    case _ => c.(db := Exec(c.db, s))
  }

  function AllHappen(c: Catalog, ss: seq<Statement>): Catalog {
    if ss == [] then c else Happen(AllHappen(c, ss[..|ss| - 1]), ss[|ss| - 1])
  }

  // Trips are inserted open.
  predicate Sensible(s: Statement) { s.InsertTrip? ==> s.trip.status == Recording }

  predicate AllSensible(ss: seq<Statement>) { forall s :: s in ss ==> Sensible(s) }

  // Distinct numbers up to `last` for distinct existing trips.
  ghost predicate Numbered(c: Catalog) {
    && Keyed(c.db.trips)
    && (forall n :: n in c.order ==> 1 <= n <= c.last && c.order[n] in c.db.trips)
    && (forall m, n :: m in c.order && n in c.order && c.order[m] == c.order[n] ==> m == n)
  }

  // Every completed trip has a number.
  ghost predicate Covered(c: Catalog) {
    forall id :: IsCompleted(c.db, id) ==> exists n :: n in c.order && c.order[n] == id
  }

  lemma HappenNumbered(c: Catalog, s: Statement)
    requires Numbered(c) && Sensible(s)
    ensures Numbered(Happen(c, s))
  {
  }

  lemma HappenCovered(c: Catalog, s: Statement)
    requires Numbered(c) && Covered(c) && Sensible(s)
    ensures Covered(Happen(c, s))
  {
    var d := Happen(c, s);
    forall id | IsCompleted(d.db, id) ensures exists n :: n in d.order && d.order[n] == id {
      if IsCompleted(c.db, id) {
        var n :| n in c.order && c.order[n] == id;
        assert n in d.order && d.order[n] == id;
      } else if id in c.order.Values {
        var n :| n in c.order && c.order[n] == id;
        assert n in d.order && d.order[n] == id;
      } else {
        assert d.order[d.last] == id;
      }
    }
  }

  // Numbers given before keep their meaning: none is given again.
  lemma {:induction false} NumbersKept(c: Catalog, ss: seq<Statement>)
    requires Numbered(c) && AllSensible(ss)
    ensures
      var d := AllHappen(c, ss);
      && Numbered(d) && c.last <= d.last
      && forall n :: n in d.order && n <= c.last ==> n in c.order && d.order[n] == c.order[n]
  {
    if ss != [] {
      var n := |ss| - 1;
      assert ss[n] in ss;
      NumbersKept(c, ss[..n]);
      HappenNumbered(AllHappen(c, ss[..n]), ss[n]);
    }
  }

  // ----- pages -----

  datatype Cursor = Cursor(version: int, snapshot: int, before: int, profile: string)

  // A request carries no cursor, one that does not decode, or a decoded one.
  datatype Raw = Absent | Garbled | Decoded(cursor: Cursor)

  datatype Row = Row(number: nat, trip: Trip)

  datatype Page = Page(rows: seq<Row>, next: Option<Cursor>)

  datatype Failure = InvalidRequest | InvalidCursor

  datatype Result<+T> = Ok(value: T) | Err(failure: Failure)

  const DEFAULT_LIMIT := 20
  const MAX_LIMIT := 50
  const MAX_PROFILE := 128

  predicate Fits(t: Trip, profile: string) { t.status == Completed && (profile == "" || t.profile == profile) }

  predicate Wanted(c: Catalog, profile: string, id: string) { id in c.db.trips && Fits(c.db.trips[id], profile) }

  predicate Visible(c: Catalog, n: nat, profile: string) {
    n in c.order && Wanted(c, profile, c.order[n])
  }

  predicate Descending(rows: seq<Row>, below: int) {
    rows == [] || (rows[0].number < below && Descending(rows[1..], rows[0].number))
  }

  // The visible rows numbered below a bound, newest first.
  function Rows(c: Catalog, below: nat, profile: string): (rows: seq<Row>)
    ensures Descending(rows, below)
  {
    if below == 0 then []
    else if Visible(c, below - 1, profile)
    then [Row(below - 1, c.db.trips[c.order[below - 1]])] + Rows(c, below - 1, profile)
    else
      var rows := Rows(c, below - 1, profile);
      Widened(rows, below - 1, below);
      rows
  }

  lemma Widened(rows: seq<Row>, below: int, bound: int)
    requires Descending(rows, below) && below <= bound
    ensures Descending(rows, bound)
  {
  }

  // MAX(seq), or 0 for an empty table.
  function Newest(c: Catalog, n: nat): (m: nat)
    ensures m <= n && (m == 0 || m in c.order) && forall k: nat :: m < k <= n ==> k !in c.order
  {
    if n == 0 || n in c.order then n else Newest(c, n - 1)
  }

  predicate Accepted(cur: Cursor, profile: string) {
    cur.version == 1 && cur.profile == profile && cur.snapshot >= 1 && 1 <= cur.before <= cur.snapshot
  }

  function StartOf(c: Catalog, profile: string, raw: Raw): Option<Cursor> {
    match raw
    case Absent => Some(Cursor(1, Newest(c, c.last), Newest(c, c.last) + 1, profile))
    case Garbled => None
    case Decoded(cur) => if Accepted(cur, profile) then Some(cur) else None
  }

  function LimitOf(limit: int): int { if limit == 0 then DEFAULT_LIMIT else limit }

  predicate Servable(profile: string, limit: int) { 1 <= LimitOf(limit) <= MAX_LIMIT && |profile| <= MAX_PROFILE }

  // The rows a cursor still covers.
  function Remaining(c: Catalog, cur: Cursor): seq<Row>
    requires cur.before >= 0 && cur.snapshot >= 0
  {
    Rows(c, Min(cur.before, cur.snapshot + 1), cur.profile)
  }

  function PageOf(c: Catalog, profile: string, raw: Raw, limit: int): Result<Page> {
    if !Servable(profile, limit) then Err(InvalidRequest)
    else
      match StartOf(c, profile, raw)
      case None => Err(InvalidCursor)
      case Some(cur) =>
        var rows, n := Remaining(c, cur), LimitOf(limit);
        Ok(if |rows| <= n then Page(rows, None)
           else Page(rows[..n], Some(Cursor(1, cur.snapshot, rows[n - 1].number, profile))))
  }

  method ListHistory(c: Catalog, profile: string, raw: Raw, limit: int) returns (r: Result<Page>)
    requires Numbered(c)
    ensures r == PageOf(c, profile, raw, limit)
  {
    var n := LimitOf(limit);
    if n < 1 || n > MAX_LIMIT || |profile| > MAX_PROFILE { return Err(InvalidRequest); }
    var cur;
    match raw {
      case Absent =>
        var newest := Newest(c, c.last);
        cur := Cursor(1, newest, newest + 1, profile);
      case Garbled => return Err(InvalidCursor);
      case Decoded(given) =>
        if !Accepted(given, profile) { return Err(InvalidCursor); }
        cur := given;
    }
    if cur.snapshot == 0 {
      assert !Visible(c, 0, profile);
      return Ok(Page([], None));
    }
    var all := Remaining(c, cur);
    var rows := if |all| <= n + 1 then all else all[..n + 1];
    var page, lastNumber := Page([], None), 0;
    var i := 0;
    while i < |rows|
      invariant 0 <= i <= |rows| && i <= n && page == Page(rows[..i], None)
      invariant i > 0 ==> lastNumber == rows[i - 1].number
    {
      if |page.rows| == n {
        page := page.(next := Some(Cursor(1, cur.snapshot, lastNumber, profile)));
        break;
      }
      page := page.(rows := page.rows + [rows[i]]);
      lastNumber := rows[i].number;
      i := i + 1;
    }
    assert rows[..|rows|] == rows && rows[..Min(n, |rows|)] == all[..Min(n, |rows|)];
    return Ok(page);
  }

  lemma {:induction false} DescendingAt(rows: seq<Row>, below: int, i: nat)
    requires Descending(rows, below) && i < |rows|
    ensures rows[i].number < below && Descending(rows[i + 1..], rows[i].number) && Descending(rows[..i + 1], below)
  {
    if i > 0 {
      DescendingAt(rows[1..], rows[0].number, i - 1);
      assert rows[1..][i..] == rows[i + 1..] && rows[1..][..i] == rows[..i + 1][1..];
    } else {
      assert rows[..1][1..] == [];
    }
  }

  lemma {:induction false} DescendingJoin(a: seq<Row>, b: seq<Row>, below: int)
    requires a != [] && Descending(a, below) && Descending(b, a[|a| - 1].number)
    ensures Descending(a + b, below)
  {
    assert (a + b)[1..] == a[1..] + b;
    if |a| > 1 {
      DescendingJoin(a[1..], b, a[0].number);
    } else {
      assert a[1..] + b == b;
    }
  }

  // A page that says there is more hands out a cursor that will be accepted and
  // that covers strictly less.
  lemma NextAccepted(c: Catalog, profile: string, raw: Raw, limit: int)
    requires Numbered(c) && PageOf(c, profile, raw, limit).Ok? && PageOf(c, profile, raw, limit).value.next.Some?
    ensures
      var page, cur := PageOf(c, profile, raw, limit).value, StartOf(c, profile, raw).value;
      var next := page.next.value;
      && Accepted(next, profile) && next.before < cur.before && next.snapshot == cur.snapshot
      && page.rows == Remaining(c, cur)[..|page.rows|] && |page.rows| >= 1
      && page.rows[|page.rows| - 1].number == next.before
  {
    var cur := StartOf(c, profile, raw).value;
    var rows, n := Remaining(c, cur), LimitOf(limit);
    DescendingAt(rows, Min(cur.before, cur.snapshot + 1), n - 1);
    RowsVisible(c, Min(cur.before, cur.snapshot + 1), profile);
    assert rows[n - 1] in rows;
  }

  // ----- which rows -----

  lemma {:induction false} RowsVisible(c: Catalog, below: nat, profile: string)
    ensures forall r :: r in Rows(c, below, profile) ==>
              r.number < below && Visible(c, r.number, profile) && r.trip == c.db.trips[c.order[r.number]]
  {
    if below > 0 {
      RowsVisible(c, below - 1, profile);
    }
  }

  ghost predicate Lists(rows: seq<Row>, n: nat) { exists i :: 0 <= i < |rows| && rows[i].number == n }

  lemma {:induction false} RowsComplete(c: Catalog, below: nat, profile: string, n: nat)
    requires n < below && Visible(c, n, profile)
    ensures Lists(Rows(c, below, profile), n)
  {
    var rows := Rows(c, below, profile);
    if n == below - 1 {
      assert rows[0].number == n;
    } else {
      RowsComplete(c, below - 1, profile, n);
      var rest := Rows(c, below - 1, profile);
      var i :| 0 <= i < |rest| && rest[i].number == n;
      assert Visible(c, below - 1, profile) ==> rows[i + 1] == rest[i];
    }
  }

  // ----- walks -----

  // What happens between page k and the next.
  type Changes = nat -> seq<Statement>

  type Limits = nat -> int

  ghost predicate Possible(changes: Changes) { forall k :: AllSensible(changes(k)) }

  ghost predicate AlwaysServable(profile: string, limits: Limits) { forall k :: Servable(profile, limits(k)) }

  // Nothing removes a trip from view.
  predicate Spares(ss: seq<Statement>, id: string) { Delete(id) !in ss && Abandon(id) !in ss }

  ghost predicate NeverRemoved(changes: Changes, id: string) { forall k :: Spares(changes(k), id) }

  function BoundOf(c: Catalog, profile: string, raw: Raw): int {
    if StartOf(c, profile, raw).Some? then StartOf(c, profile, raw).value.before else 0
  }

  // Follow the cursors to the end.
  ghost function Walk(c: Catalog, profile: string, raw: Raw, limits: Limits, changes: Changes, k: nat): seq<Row>
    requires Numbered(c) && Possible(changes)
    decreases BoundOf(c, profile, raw)
  {
    match PageOf(c, profile, raw, limits(k))
    case Err(_) => []
    case Ok(page) =>
      if page.next.None? then page.rows
      else
        NextAccepted(c, profile, raw, limits(k));
        NumbersKept(c, changes(k));
        page.rows + Walk(AllHappen(c, changes(k)), profile, Decoded(page.next.value), limits, changes, k + 1)
  }

  // The row shows the trip that has its number.
  predicate Known(c: Catalog, r: Row) { r.number in c.order && c.order[r.number] == r.trip.id }

  lemma RowsKnown(c: Catalog, below: nat, profile: string)
    requires Numbered(c)
    ensures forall r :: r in Rows(c, below, profile) ==> Known(c, r) && Fits(r.trip, profile)
  {
    RowsVisible(c, below, profile);
  }

  lemma PageSound(c: Catalog, profile: string, raw: Raw, limit: int)
    requires Numbered(c) && PageOf(c, profile, raw, limit).Ok?
    ensures
      var rows, cur := PageOf(c, profile, raw, limit).value.rows, StartOf(c, profile, raw).value;
      && Descending(rows, Min(cur.before, cur.snapshot + 1))
      && forall r :: r in rows ==> Known(c, r) && Fits(r.trip, profile)
  {
    var cur := StartOf(c, profile, raw).value;
    var below := Min(cur.before, cur.snapshot + 1);
    var rows := Remaining(c, cur);
    RowsKnown(c, below, profile);
    if PageOf(c, profile, raw, limit).value.next.Some? {
      DescendingAt(rows, below, LimitOf(limit) - 1);
    }
  }

  lemma KnownThen(c: Catalog, ss: seq<Statement>, rows: seq<Row>, below: int)
    requires Numbered(c) && AllSensible(ss) && Descending(rows, below) && below <= c.last + 1
    requires forall r :: r in rows ==> Known(AllHappen(c, ss), r)
    ensures forall r :: r in rows ==> Known(c, r)
  {
    NumbersKept(c, ss);
    forall r | r in rows ensures Known(c, r) {
      var i :| 0 <= i < |rows| && rows[i] == r;
      DescendingAt(rows, below, i);
    }
  }

  lemma NextStarts(c: Catalog, profile: string, raw: Raw, limits: Limits, changes: Changes, k: nat)
    requires Numbered(c) && Possible(changes)
    requires PageOf(c, profile, raw, limits(k)).Ok? && PageOf(c, profile, raw, limits(k)).value.next.Some?
    requires StartOf(c, profile, raw).value.snapshot <= c.last
    ensures
      var page, d := PageOf(c, profile, raw, limits(k)).value, AllHappen(c, changes(k));
      var next := page.next.value;
      && Numbered(d) && StartOf(d, profile, Decoded(next)) == Some(next)
      && next.snapshot <= c.last <= d.last && Min(next.before, next.snapshot + 1) == next.before <= c.last
      && BoundOf(d, profile, Decoded(next)) < BoundOf(c, profile, raw)
      && page.rows != [] && page.rows[|page.rows| - 1].number == next.before
  {
    NextAccepted(c, profile, raw, limits(k));
    NumbersKept(c, changes(k));
  }

  // The pages together are strictly descending, and hold only trips numbered when
  // the walk began, under the id they had then.
  lemma {:induction false} WalkSound(c: Catalog, profile: string, raw: Raw, limits: Limits, changes: Changes, k: nat)
    requires Numbered(c) && Possible(changes)
    requires StartOf(c, profile, raw).Some? && StartOf(c, profile, raw).value.snapshot <= c.last
    ensures
      var walk, cur := Walk(c, profile, raw, limits, changes, k), StartOf(c, profile, raw).value;
      && Descending(walk, Min(cur.before, cur.snapshot + 1))
      && forall r :: r in walk ==> Known(c, r) && Fits(r.trip, profile)
    decreases BoundOf(c, profile, raw)
  {
    var page := PageOf(c, profile, raw, limits(k));
    if page.Ok? {
      var cur := StartOf(c, profile, raw).value;
      PageSound(c, profile, raw, limits(k));
      if page.value.next.Some? {
        NextStarts(c, profile, raw, limits, changes, k);
        var d, next := AllHappen(c, changes(k)), page.value.next.value;
        WalkSound(d, profile, Decoded(next), limits, changes, k + 1);
        var rest := Walk(d, profile, Decoded(next), limits, changes, k + 1);
        DescendingJoin(page.value.rows, rest, Min(cur.before, cur.snapshot + 1));
        KnownThen(c, changes(k), rest, next.before);
      }
    }
  }

  lemma VisibleAfter(c: Catalog, s: Statement, profile: string, n: nat)
    requires Numbered(c) && Sensible(s) && Visible(c, n, profile) && s != Delete(c.order[n]) && s != Abandon(c.order[n])
    ensures Visible(Happen(c, s), n, profile) && Happen(c, s).order[n] == c.order[n]
  {
  }

  lemma {:induction false} StaysVisible(c: Catalog, ss: seq<Statement>, profile: string, n: nat)
    requires Numbered(c) && AllSensible(ss) && Visible(c, n, profile) && Spares(ss, c.order[n])
    ensures Visible(AllHappen(c, ss), n, profile) && AllHappen(c, ss).order[n] == c.order[n]
  {
    if ss != [] {
      var m := |ss| - 1;
      StaysVisible(c, ss[..m], profile, n);
      NumbersKept(c, ss[..m]);
      assert ss[m] in ss;
      VisibleAfter(AllHappen(c, ss[..m]), ss[m], profile, n);
    }
  }

  // A visible row is on the page or below its next cursor.
  lemma OnPageOrBelow(c: Catalog, profile: string, raw: Raw, limit: int, n: nat)
    requires Numbered(c) && Servable(profile, limit) && StartOf(c, profile, raw).Some? && Visible(c, n, profile)
    requires n < Min(BoundOf(c, profile, raw), StartOf(c, profile, raw).value.snapshot + 1)
    ensures
      var page := PageOf(c, profile, raw, limit).value;
      Lists(page.rows, n) || (page.next.Some? && n < page.next.value.before)
  {
    var cur := StartOf(c, profile, raw).value;
    var below := Min(cur.before, cur.snapshot + 1);
    var page, rows := PageOf(c, profile, raw, limit).value, Remaining(c, cur);
    RowsComplete(c, below, profile, n);
    if page.next.Some? {
      Split(rows, below, LimitOf(limit), n);
    }
  }

  lemma Split(rows: seq<Row>, below: int, m: nat, n: nat)
    requires Descending(rows, below) && Lists(rows, n) && 1 <= m <= |rows|
    ensures Lists(rows[..m], n) || n < rows[m - 1].number
  {
    var i :| 0 <= i < |rows| && rows[i].number == n;
    if i < m {
      assert rows[..m][i].number == n;
    } else {
      DescendingAt(rows, below, m - 1);
      assert rows[m..][i - m] == rows[i];
      DescendingAt(rows[m..], rows[m - 1].number, i - m);
    }
  }

  lemma ListsJoin(a: seq<Row>, b: seq<Row>, n: nat)
    requires Lists(a, n) || Lists(b, n)
    ensures Lists(a + b, n)
  {
    if Lists(a, n) {
      var i :| 0 <= i < |a| && a[i].number == n;
      assert (a + b)[i].number == n;
    } else {
      var i :| 0 <= i < |b| && b[i].number == n;
      assert (a + b)[|a| + i].number == n;
    }
  }

  // Between two pages a visible trip that is not removed stays ahead of the walk.
  lemma StillAhead(c: Catalog, profile: string, raw: Raw, limits: Limits, changes: Changes, k: nat, n: nat)
    requires Numbered(c) && Possible(changes) && NeverRemovedAt(c, changes, n)
    requires PageOf(c, profile, raw, limits(k)).Ok? && PageOf(c, profile, raw, limits(k)).value.next.Some?
    requires Visible(c, n, profile) && n < PageOf(c, profile, raw, limits(k)).value.next.value.before
    ensures
      var d, next := AllHappen(c, changes(k)), PageOf(c, profile, raw, limits(k)).value.next.value;
      && Numbered(d) && Visible(d, n, profile) && NeverRemovedAt(d, changes, n)
      && StartOf(d, profile, Decoded(next)) == Some(next) && n < Min(next.before, next.snapshot + 1)
      && BoundOf(d, profile, Decoded(next)) < BoundOf(c, profile, raw)
  {
    NextAccepted(c, profile, raw, limits(k));
    NumbersKept(c, changes(k));
    StaysVisible(c, changes(k), profile, n);
  }

  ghost predicate NeverRemovedAt(c: Catalog, changes: Changes, n: nat) {
    n in c.order && NeverRemoved(changes, c.order[n])
  }

  // A trip in view that nothing removes is on one of the pages.
  lemma {:induction false} WalkComplete(c: Catalog, profile: string, raw: Raw, limits: Limits, changes: Changes, k: nat,
      n: nat)
    requires Numbered(c) && Possible(changes) && AlwaysServable(profile, limits)
    requires StartOf(c, profile, raw).Some?
    requires n < Min(BoundOf(c, profile, raw), StartOf(c, profile, raw).value.snapshot + 1)
    requires Visible(c, n, profile) && NeverRemovedAt(c, changes, n)
    ensures Lists(Walk(c, profile, raw, limits, changes, k), n)
    decreases BoundOf(c, profile, raw)
  {
    OnPageOrBelow(c, profile, raw, limits(k), n);
    var page := PageOf(c, profile, raw, limits(k)).value;
    if page.next.Some? {
      var d, next := AllHappen(c, changes(k)), Decoded(page.next.value);
      NumbersKept(c, changes(k));
      if !Lists(page.rows, n) {
        StillAhead(c, profile, raw, limits, changes, k, n);
        WalkComplete(d, profile, next, limits, changes, k + 1, n);
      }
      ListsJoin(page.rows, Walk(d, profile, next, limits, changes, k + 1), n);
    }
  }

  ghost predicate Returns(rows: seq<Row>, id: string) { exists i :: 0 <= i < |rows| && rows[i].trip.id == id }

  lemma DistinctTrips(c: Catalog, walk: seq<Row>, below: int, i: int, j: int)
    requires Numbered(c) && Descending(walk, below) && 0 <= i < j < |walk|
    requires forall r :: r in walk ==> Known(c, r)
    ensures walk[i].trip.id != walk[j].trip.id
  {
    DescendingAt(walk, below, i);
    assert walk[i + 1..][j - i - 1] == walk[j];
    DescendingAt(walk[i + 1..], walk[i].number, j - i - 1);
    assert walk[i] in walk && walk[j] in walk;
  }

  lemma WalkReturns(c: Catalog, profile: string, limits: Limits, changes: Changes, id: string)
    requires Numbered(c) && Covered(c) && Possible(changes) && AlwaysServable(profile, limits)
    requires Wanted(c, profile, id) && NeverRemoved(changes, id)
    ensures Returns(Walk(c, profile, Absent, limits, changes, 0), id)
  {
    var walk := Walk(c, profile, Absent, limits, changes, 0);
    assert IsCompleted(c.db, id);
    var n :| n in c.order && c.order[n] == id;
    WalkComplete(c, profile, Absent, limits, changes, 0, n);
    WalkSound(c, profile, Absent, limits, changes, 0);
    var i :| 0 <= i < |walk| && walk[i].number == n;
    assert walk[i] in walk;
  }

  // A walk from the first page, with any changes between pages: newest first, no
  // trip twice, none completed after the first page, and every matching trip
  // completed by then and not removed since.
  lemma HistoryWalk(c: Catalog, profile: string, limits: Limits, changes: Changes)
    requires Numbered(c) && Covered(c) && Possible(changes) && AlwaysServable(profile, limits)
    ensures
      var walk := Walk(c, profile, Absent, limits, changes, 0);
      && Descending(walk, c.last + 1)
      && (forall i, j :: 0 <= i < j < |walk| ==> walk[i].trip.id != walk[j].trip.id)
      && (forall r :: r in walk ==> Known(c, r) && Fits(r.trip, profile))
      && (forall id :: Wanted(c, profile, id) && NeverRemoved(changes, id) ==> Returns(walk, id))
  {
    var walk := Walk(c, profile, Absent, limits, changes, 0);
    WalkSound(c, profile, Absent, limits, changes, 0);
    Widened(walk, Newest(c, c.last) + 1, c.last + 1);
    forall i, j | 0 <= i < j < |walk| ensures walk[i].trip.id != walk[j].trip.id {
      DistinctTrips(c, walk, c.last + 1, i, j);
    }
    forall id | Wanted(c, profile, id) && NeverRemoved(changes, id) ensures Returns(walk, id) {
      WalkReturns(c, profile, limits, changes, id);
    }
  }

  lemma CutUp(c: Catalog, profile: string, raw: Raw, limit: int)
    requires Numbered(c) && PageOf(c, profile, raw, limit).Ok? && PageOf(c, profile, raw, limit).value.next.Some?
    ensures
      var page := PageOf(c, profile, raw, limit).value;
      && page.next.value.before >= 0 && page.next.value.snapshot >= 0
      && Remaining(c, StartOf(c, profile, raw).value) == page.rows + Remaining(c, page.next.value)
  {
    NextAccepted(c, profile, raw, limit);
    var cur := StartOf(c, profile, raw).value;
    var rows, n := Remaining(c, cur), LimitOf(limit);
    RowsBelow(c, Min(cur.before, cur.snapshot + 1), profile, n);
    assert rows == rows[..n] + rows[n..];
  }

  // With no change between pages, paging is one query cut up.
  lemma {:induction false} QuietWalk(c: Catalog, profile: string, raw: Raw, limits: Limits, changes: Changes, k: nat)
    requires Numbered(c) && StartOf(c, profile, raw).Some?
    requires AlwaysServable(profile, limits) && forall j :: changes(j) == []
    ensures Walk(c, profile, raw, limits, changes, k) == Remaining(c, StartOf(c, profile, raw).value)
    decreases BoundOf(c, profile, raw)
  {
    var page := PageOf(c, profile, raw, limits(k)).value;
    if page.next.Some? {
      NextAccepted(c, profile, raw, limits(k));
      QuietWalk(c, profile, Decoded(page.next.value), limits, changes, k + 1);
      CutUp(c, profile, raw, limits(k));
    }
  }

  lemma {:induction false} RowsBelow(c: Catalog, below: nat, profile: string, n: nat)
    requires 0 < n <= |Rows(c, below, profile)|
    ensures Rows(c, below, profile)[n..] == Rows(c, Rows(c, below, profile)[n - 1].number, profile)
  {
    if !Visible(c, below - 1, profile) {
      RowsBelow(c, below - 1, profile, n);
    } else if n > 1 {
      RowsBelow(c, below - 1, profile, n - 1);
      assert Rows(c, below, profile)[n..] == Rows(c, below - 1, profile)[n - 1..];
    }
  }

  // ----- back-fill -----

  // Completed earlier: by end, then start, then id.
  predicate Earlier(a: Trip, b: Trip) {
    a.endedAt < b.endedAt
    || (a.endedAt == b.endedAt && (a.startedAt < b.startedAt || (a.startedAt == b.startedAt && Before(a.id, b.id))))
  }

  // The completed trips without a number, earliest first.
  ghost predicate IsBacklog(c: Catalog, ids: seq<string>) {
    && (forall id :: id in ids <==> IsCompleted(c.db, id) && id !in c.order.Values)
    && (forall i, j :: 0 <= i < j < |ids| ==>
          ids[i] in c.db.trips && ids[j] in c.db.trips && Earlier(c.db.trips[ids[i]], c.db.trips[ids[j]]))
  }

  function Backfilled(c: Catalog, ids: seq<string>): Catalog {
    if ids == [] then c else NumberNext(Backfilled(c, ids[..|ids| - 1]), ids[|ids| - 1])
  }

  lemma {:induction false} BackfilledNumbers(c: Catalog, ids: seq<string>)
    ensures
      var d := Backfilled(c, ids);
      && d.db == c.db && d.last == c.last + |ids|
      && (forall n :: n in d.order <==> n in c.order || c.last < n <= d.last)
      && (forall n :: n in c.order && n <= c.last ==> d.order[n] == c.order[n])
      && (forall i :: 0 <= i < |ids| ==> d.order[c.last + 1 + i] == ids[i])
  {
    if ids != [] {
      BackfilledNumbers(c, ids[..|ids| - 1]);
    }
  }

  lemma NewNumber(c: Catalog, ids: seq<string>, n: nat)
    requires Numbered(c) && IsBacklog(c, ids) && n in Backfilled(c, ids).order && n > c.last
    ensures n - c.last - 1 < |ids| && Backfilled(c, ids).order[n] == ids[n - c.last - 1]
    ensures ids[n - c.last - 1] in ids
  {
    BackfilledNumbers(c, ids);
    assert Backfilled(c, ids).order[c.last + 1 + (n - c.last - 1)] == ids[n - c.last - 1];
  }

  lemma NumbersDistinct(c: Catalog, ids: seq<string>, m: nat, n: nat)
    requires Numbered(c) && IsBacklog(c, ids) && m < n && m in Backfilled(c, ids).order && n in Backfilled(c, ids).order
    ensures Backfilled(c, ids).order[m] != Backfilled(c, ids).order[n]
    ensures
      var d := Backfilled(c, ids);
      c.last < m ==>
        d.order[m] in c.db.trips && d.order[n] in c.db.trips && Earlier(c.db.trips[d.order[m]], c.db.trips[d.order[n]])
  {
    BackfilledNumbers(c, ids);
    if n > c.last {
      NewNumber(c, ids, n);
      if m > c.last {
        NewNumber(c, ids, m);
        EarlierIrreflexive(c.db.trips[ids[n - c.last - 1]]);
      } else {
        assert c.order[m] in c.order.Values;
      }
    }
  }

  // Migrating a database numbers every completed trip, in the order they were
  // completed and after those numbered before, whose numbers stay.
  lemma BackfillCovers(c: Catalog, ids: seq<string>)
    requires Numbered(c) && IsBacklog(c, ids)
    ensures
      var d := Backfilled(c, ids);
      && Numbered(d) && Covered(d) && d.db == c.db
      && (forall n :: n in c.order ==> n in d.order && d.order[n] == c.order[n])
      && (forall m, n :: m in d.order && c.last < m < n && n in d.order ==>
                           Earlier(c.db.trips[d.order[m]], c.db.trips[d.order[n]]))
  {
    BackfilledNumbers(c, ids);
    var d := Backfilled(c, ids);
    forall n | n in d.order ensures 1 <= n <= d.last && d.order[n] in d.db.trips {
      if n > c.last { NewNumber(c, ids, n); }
    }
    forall m, n | m in d.order && n in d.order && m < n
      ensures d.order[m] != d.order[n] && (c.last < m ==> Earlier(c.db.trips[d.order[m]], c.db.trips[d.order[n]]))
    {
      NumbersDistinct(c, ids, m, n);
    }
    BackfillComplete(c, ids);
  }

  lemma BackfillComplete(c: Catalog, ids: seq<string>)
    requires Numbered(c) && IsBacklog(c, ids)
    ensures Covered(Backfilled(c, ids))
  {
    BackfilledNumbers(c, ids);
    var d := Backfilled(c, ids);
    forall id | IsCompleted(c.db, id) ensures exists n :: n in d.order && d.order[n] == id {
      if id in ids {
        var i :| 0 <= i < |ids| && ids[i] == id;
        assert d.order[c.last + 1 + i] == id;
      } else {
        var n :| n in c.order && c.order[n] == id;
        assert d.order[n] == id;
      }
    }
  }

  lemma EarlierIrreflexive(t: Trip)
    ensures !Earlier(t, t)
  {
    if Before(t.id, t.id) {
      BeforeAsymmetric(t.id, t.id);
    }
  }

  // ----- what a reader asked for -----

  // A page for a profile holds completed trips of that profile alone.
  lemma PageFiltered(c: Catalog, profile: string, raw: Raw, limit: int)
    requires Numbered(c) && PageOf(c, profile, raw, limit).Ok?
    ensures forall r :: r in PageOf(c, profile, raw, limit).value.rows ==>
              r.trip.status == Completed && (profile == "" || r.trip.profile == profile)
  {
    PageSound(c, profile, raw, limit);
  }

  predicate Requested(c: Catalog, profile: string, id: string) {
    id in c.db.trips && c.db.trips[id].status == Completed && (profile == "" || c.db.trips[id].profile == profile)
  }

  // A walk for a profile returns completed trips of that profile alone, and every one
  // that was completed and numbered when the walk began and is not removed meanwhile.
  lemma WalkFiltered(c: Catalog, profile: string, limits: Limits, changes: Changes, id: string)
    requires Numbered(c) && Covered(c) && Possible(changes) && AlwaysServable(profile, limits)
    ensures
      var walk := Walk(c, profile, Absent, limits, changes, 0);
      && (forall r :: r in walk ==> r.trip.status == Completed && (profile == "" || r.trip.profile == profile))
      && (Requested(c, profile, id) && NeverRemoved(changes, id) ==> Returns(walk, id))
  {
    HistoryWalk(c, profile, limits, changes);
    WalkSound(c, profile, Absent, limits, changes, 0);
    var walk := Walk(c, profile, Absent, limits, changes, 0);
    assert forall r :: r in walk ==> Fits(r.trip, profile);
  }

  // ----- which requests are served, and how much they get -----

  // A request is invalid exactly if it asks for a negative number of rows or more than
  // 50, or names a profile of more than 128 characters; without a number it asks for 20.
  // A page has as many rows, or all that remain.
  lemma PageExactly(c: Catalog, profile: string, raw: Raw, limit: int)
    ensures PageOf(c, profile, raw, limit) == Err(InvalidRequest) <==> !(0 <= limit <= 50 && |profile| <= 128)
    ensures PageOf(c, profile, raw, limit).Ok? ==>
              var page, most := PageOf(c, profile, raw, limit).value, if limit == 0 then 20 else limit;
              |page.rows| <= most && (page.next.Some? ==> |page.rows| == most)
  {
  }

  // A cursor is refused exactly if it does not decode, was handed out for another
  // profile, is of another version, or points outside its snapshot.
  lemma CursorExactly(c: Catalog, profile: string, raw: Raw, limit: int)
    requires 0 <= limit <= 50 && |profile| <= 128
    ensures PageOf(c, profile, raw, limit) == Err(InvalidCursor) <==>
              match raw
              case Absent => false
              case Garbled => true
              case Decoded(cur) =>
                cur.profile != profile || cur.version != 1 || cur.before < 1 || cur.before > cur.snapshot
  {
  }
}
