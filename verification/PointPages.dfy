/** Paging through the points of one completed trip: HistoryPoints of
internal/db/history.go, while other trips are recorded, completed and removed. */
module PointPages {
  import opened Prelude
  import opened Trips

  // The completed trips, and the points by id.  Ids ascend and none is given twice.
  datatype Table = Table(completed: set<string>, points: map<nat, Point>, last: nat)

  // The recorder writes points only to its own open trip.
  datatype Change = Record(point: Point) | Complete(id: string) | Remove(id: string)

  function Changed(t: Table, ch: Change): Table {
    match ch
    case Record(p) => if p.trip in t.completed then t else Table(t.completed, t.points[t.last + 1 := p], t.last + 1)
    case Complete(id) => t.(completed := t.completed + {id})
    case Remove(id) =>
      Table(t.completed - {id}, map n | n in t.points && t.points[n].trip != id :: t.points[n], t.last)
  }

  function AllChanged(t: Table, chs: seq<Change>): Table {
    if chs == [] then t else Changed(AllChanged(t, chs[..|chs| - 1]), chs[|chs| - 1])
  }

  ghost predicate Ascending(t: Table) { forall n :: n in t.points ==> 1 <= n <= t.last }

  // ----- pages -----

  datatype Row = Row(id: nat, point: Point)

  datatype Page = Page(points: seq<Row>, nextAfter: nat)

  datatype Result<+T> = Ok(value: T) | NotFound | InvalidRequest

  const DEFAULT_LIMIT := 100
  const MAX_LIMIT := 256
  const ID_LENGTH := 32

  predicate IsHex(ch: char) { '0' <= ch <= '9' || 'a' <= ch <= 'f' || 'A' <= ch <= 'F' }

  predicate ValidId(id: string) { |id| == ID_LENGTH && forall i :: 0 <= i < |id| ==> IsHex(id[i]) }

  predicate Owns(t: Table, id: string, n: nat) { n in t.points && t.points[n].trip == id }

  // The trip's points above an id, ascending.
  function Rows(t: Table, id: string, above: nat): (rows: seq<Row>)
    ensures forall r :: r in rows ==> above < r.id <= t.last && Owns(t, id, r.id) && r.point == t.points[r.id]
    decreases t.last - above
  {
    if above >= t.last then []
    else if Owns(t, id, above + 1) then [Row(above + 1, t.points[above + 1])] + Rows(t, id, above + 1)
    else Rows(t, id, above + 1)
  }

  function LimitOf(limit: int): int { if limit == 0 then DEFAULT_LIMIT else limit }

  predicate Servable(limit: int) { 1 <= LimitOf(limit) <= MAX_LIMIT }

  function PageOf(t: Table, id: string, after: int, limit: int): Result<Page> {
    if !ValidId(id) then NotFound
    else if after < 0 || !Servable(limit) then InvalidRequest
    else if id !in t.completed then NotFound
    else
      var rows, n := Rows(t, id, after), LimitOf(limit);
      Ok(if |rows| <= n then Page(rows, 0) else Page(rows[..n], rows[n - 1].id))
  }

  // The left join: a completed trip without points yields one row of nulls.
  function Joined(t: Table, id: string, after: nat): seq<Option<Row>> {
    if id !in t.completed then []
    else
      var rows := Rows(t, id, after);
      if rows == [] then [None] else seq(|rows|, i requires 0 <= i < |rows| => Some(rows[i]))
  }

  method HistoryPoints(t: Table, id: string, after: int, limit: int) returns (r: Result<Page>)
    requires Ascending(t)
    ensures r == PageOf(t, id, after, limit)
  {
    if !ValidId(id) { return NotFound; }
    var n := LimitOf(limit);
    if after < 0 || n < 1 || n > MAX_LIMIT { return InvalidRequest; }
    var all := Joined(t, id, after);
    var rows := if |all| <= n + 1 then all else all[..n + 1];
    ghost var wanted := Rows(t, id, after);
    var page, found, i := Page([], 0), false, 0;
    while i < |rows|
      invariant 0 <= i <= |rows| && i <= n && found == (i > 0)
      invariant page.nextAfter == 0
      invariant wanted == [] ==> i == 0 && page.points == []
      invariant wanted != [] ==> page.points == wanted[..i]
    {
      found := true;
      if rows[i].None? { break; }
      if |page.points| == n {
        page := page.(nextAfter := page.points[|page.points| - 1].id);
        break;
      }
      page := page.(points := page.points + [rows[i].value]);
      i := i + 1;
    }
    assert wanted[..|wanted|] == wanted;
    if !found { return NotFound; }
    return Ok(page);
  }

  // ----- walks -----

  type Changes = nat -> seq<Change>

  type Limits = nat -> int

  ghost predicate AlwaysServable(limits: Limits) { forall k :: Servable(limits(k)) }

  ghost predicate NeverRemoved(changes: Changes, id: string) { forall k :: Remove(id) !in changes(k) }

  // A completed trip's points stay as they are until it is removed.
  ghost predicate SamePoints(t: Table, u: Table, id: string) {
    && Ascending(t) && Ascending(u) && t.last <= u.last && id in u.completed
    && forall n: nat :: (Owns(t, id, n) <==> Owns(u, id, n)) && (Owns(t, id, n) ==> t.points[n] == u.points[n])
  }

  lemma {:induction false} PointsStay(t: Table, chs: seq<Change>, id: string)
    requires Ascending(t) && id in t.completed
    ensures Ascending(AllChanged(t, chs))
    ensures Remove(id) !in chs ==> SamePoints(t, AllChanged(t, chs), id)
  {
    if chs != [] {
      var n := |chs| - 1;
      assert chs[n] in chs;
      PointsStay(t, chs[..n], id);
    }
  }

  lemma {:induction false} SameRows(t: Table, u: Table, id: string, above: nat)
    requires SamePoints(t, u, id)
    ensures Rows(t, id, above) == Rows(u, id, above)
    decreases u.last - above
  {
    if above < u.last {
      SameRows(t, u, id, above + 1);
      assert Owns(t, id, above + 1) ==> above < t.last;
    }
  }

  lemma {:induction false} RowsAfter(t: Table, id: string, above: nat, n: nat)
    requires 0 < n <= |Rows(t, id, above)|
    ensures Rows(t, id, above)[n..] == Rows(t, id, Rows(t, id, above)[n - 1].id)
    decreases t.last - above
  {
    if !Owns(t, id, above + 1) {
      RowsAfter(t, id, above + 1, n);
    } else if n > 1 {
      RowsAfter(t, id, above + 1, n - 1);
      assert Rows(t, id, above)[n..] == Rows(t, id, above + 1)[n - 1..];
    }
  }

  lemma NextPage(t: Table, id: string, after: int, limit: int, chs: seq<Change>)
    requires Ascending(t) && PageOf(t, id, after, limit).Ok?
    ensures
      var page, u := PageOf(t, id, after, limit).value, AllChanged(t, chs);
      && Ascending(u) && page.points <= Rows(t, id, after)
      && (page.nextAfter == 0 ==> page.points == Rows(t, id, after))
      && (page.nextAfter > 0 && Remove(id) !in chs ==>
            id in u.completed && page.points != [] && Rows(t, id, after) == page.points + Rows(u, id, page.nextAfter))
  {
    var page, rows := PageOf(t, id, after, limit).value, Rows(t, id, after);
    PointsStay(t, chs, id);
    if page.nextAfter > 0 && Remove(id) !in chs {
      RowsAfter(t, id, after, LimitOf(limit));
      SameRows(t, AllChanged(t, chs), id, page.nextAfter);
      assert rows == rows[..LimitOf(limit)] + rows[LimitOf(limit)..];
    }
  }

  // A removed trip is not completed again: ids are given out once.
  predicate NotAgain(chs: seq<Change>, id: string) { Complete(id) !in chs || Remove(id) !in chs }

  ghost predicate NeverAgain(changes: Changes, id: string) {
    NeverRemoved(changes, id) || forall k :: Complete(id) !in changes(k)
  }

  lemma {:induction false} StaysAway(t: Table, chs: seq<Change>, id: string)
    requires NotAgain(chs, id) && id in t.completed
    ensures id in AllChanged(t, chs).completed <==> Remove(id) !in chs
  {
    if chs != [] {
      var n := |chs| - 1;
      assert chs == chs[..n] + [chs[n]];
      StaysAway(t, chs[..n], id);
      assert chs[n] in chs;
    }
  }

  // How much of the trip there is still to read.
  ghost function Left(t: Table, id: string, after: nat): nat {
    if id in t.completed then |Rows(t, id, after)| + 1 else 0
  }

  lemma NextShorter(t: Table, id: string, after: int, limit: int, chs: seq<Change>)
    requires Ascending(t) && NotAgain(chs, id)
    requires PageOf(t, id, after, limit).Ok? && PageOf(t, id, after, limit).value.nextAfter > 0
    ensures
      var page, u := PageOf(t, id, after, limit).value, AllChanged(t, chs);
      Ascending(u) && Left(u, id, page.nextAfter) < Left(t, id, after)
  {
    NextPage(t, id, after, limit, chs);
    StaysAway(t, chs, id);
  }

  // Follow the pages until one has no successor or is refused.
  ghost function Walk(t: Table, id: string, after: nat, limits: Limits, changes: Changes, k: nat): seq<Row>
    requires Ascending(t) && NeverAgain(changes, id)
    decreases Left(t, id, after)
  {
    match PageOf(t, id, after, limits(k))
    case Ok(page) =>
      if page.nextAfter == 0 then page.points
      else
        assert NotAgain(changes(k), id);
        NextShorter(t, id, after, limits(k), changes(k));
        page.points + Walk(AllChanged(t, changes(k)), id, page.nextAfter, limits, changes, k + 1)
    case _ => []
  }

  // Once the trip is removed the next page is not found.
  lemma RemovedNotFound(t: Table, id: string, after: nat, limits: Limits, changes: Changes, k: nat)
    requires Ascending(t) && NeverAgain(changes, id) && id !in t.completed
    ensures Walk(t, id, after, limits, changes, k) == []
    ensures ValidId(id) && Servable(limits(k)) ==> PageOf(t, id, after, limits(k)) == NotFound
  {
  }

  // If the trip is removed meanwhile, the walk returns an initial part of its points.
  lemma {:induction false} WalkIsPrefix(t: Table, id: string, after: nat, limits: Limits, changes: Changes, k: nat)
    requires Ascending(t) && NeverAgain(changes, id)
    ensures Walk(t, id, after, limits, changes, k) <= Rows(t, id, after)
    decreases Left(t, id, after)
  {
    if PageOf(t, id, after, limits(k)).Ok? && PageOf(t, id, after, limits(k)).value.nextAfter > 0 {
      var page, u := PageOf(t, id, after, limits(k)).value, AllChanged(t, changes(k));
      assert NotAgain(changes(k), id);
      NextPage(t, id, after, limits(k), changes(k));
      NextShorter(t, id, after, limits(k), changes(k));
      if Remove(id) in changes(k) {
        StaysAway(t, changes(k), id);
        RemovedNotFound(u, id, page.nextAfter, limits, changes, k + 1);
        assert page.points + [] == page.points;
      } else {
        WalkIsPrefix(u, id, page.nextAfter, limits, changes, k + 1);
        PrefixJoin(page.points, Walk(u, id, page.nextAfter, limits, changes, k + 1), Rows(u, id, page.nextAfter));
      }
    } else if PageOf(t, id, after, limits(k)).Ok? {
      NextPage(t, id, after, limits(k), changes(k));
    }
  }

  lemma PrefixJoin(a: seq<Row>, b: seq<Row>, c: seq<Row>)
    requires b <= c
    ensures a + b <= a + c
  {
    assert a + c == a + b + c[|b|..];
  }

  ghost predicate Walkable(t: Table, id: string) { Ascending(t) && ValidId(id) && id in t.completed }

  // Either a page is the whole rest, or the next one has exactly what it left.
  lemma WalkStep(t: Table, id: string, after: nat, limits: Limits, changes: Changes, k: nat)
    returns (page: seq<Row>, more: bool, next: nat, u: Table)
    requires Walkable(t, id) && AlwaysServable(limits) && NeverRemoved(changes, id)
    ensures Walkable(u, id)
    ensures !more ==> Walk(t, id, after, limits, changes, k) == Rows(t, id, after)
    ensures more ==> |Rows(u, id, next)| < |Rows(t, id, after)|
    ensures more ==> Rows(t, id, after) == page + Rows(u, id, next)
    ensures more ==> Walk(t, id, after, limits, changes, k) == page + Walk(u, id, next, limits, changes, k + 1)
  {
    assert Servable(limits(k)) && Remove(id) !in changes(k) && NotAgain(changes(k), id);
    NextPage(t, id, after, limits(k), changes(k));
    PointsStay(t, changes(k), id);
    var first := PageOf(t, id, after, limits(k)).value;
    page, more, next, u := first.points, first.nextAfter > 0, first.nextAfter, AllChanged(t, changes(k));
  }

  // Whatever happens to other trips between pages, the walk returns the points
  // the trip had when it began, each once and in order.
  lemma {:induction false} PointsWalk(t: Table, id: string, after: nat, limits: Limits, changes: Changes, k: nat)
    requires Walkable(t, id) && AlwaysServable(limits) && NeverRemoved(changes, id)
    ensures Walk(t, id, after, limits, changes, k) == Rows(t, id, after)
    decreases |Rows(t, id, after)|
  {
    var page, more, next, u := WalkStep(t, id, after, limits, changes, k);
    if more {
      PointsWalk(u, id, next, limits, changes, k + 1);
    }
  }

  lemma {:induction false} RowsAscend(t: Table, id: string, above: nat)
    ensures
      var rows := Rows(t, id, above);
      && (forall i, j :: 0 <= i < j < |rows| ==> rows[i].id < rows[j].id)
      && (forall n :: above < n <= t.last && Owns(t, id, n) ==> Row(n, t.points[n]) in rows)
    decreases t.last - above
  {
    if above < t.last {
      RowsAscend(t, id, above + 1);
      var rest := Rows(t, id, above + 1);
      forall i, j | 0 <= i < j < |Rows(t, id, above)| ensures Rows(t, id, above)[i].id < Rows(t, id, above)[j].id {
        if Owns(t, id, above + 1) {
          assert rest[j - 1] in rest;
        }
      }
    }
  }

  // ----- which requests are served, and how much they get -----

  // The answer in every case: not found without a 32-digit hexadecimal id or a completed
  // trip; invalid for a negative marker or a number of rows below 0 or above 256; and
  // otherwise as many rows as asked for, 100 if nothing was said, or all that remain.
  lemma PageExactly(t: Table, id: string, after: int, limit: int)
    ensures
      var r, hex := PageOf(t, id, after, limit), |id| == 32 && forall i :: 0 <= i < |id| ==> IsHex(id[i]);
      && (r.NotFound? <==> !hex || (after >= 0 && 0 <= limit <= 256 && id !in t.completed))
      && (r.InvalidRequest? <==> hex && !(after >= 0 && 0 <= limit <= 256))
      && (r.Ok? ==>
            var most := if limit == 0 then 100 else limit;
            |r.value.points| <= most && (r.value.nextAfter > 0 ==> |r.value.points| == most))
  {
  }
}
