/** The trips and trip_points tables of internal/db/trips.go and points.go.  Each
SQL statement is one atomic step on the database value. */
module Trips {
  import opened Prelude

  datatype Status = Recording | Completed | Abandoned

  datatype Trip = Trip(id: string, profile: string, status: Status, startedAt: int, endedAt: int, activeStartedAt: int,
                       startOdometer: int, endOdometer: int, distanceM: int, durationS: int, maxSpeed: real,
                       createdAt: int)

  datatype Place = Place(lat: real, lon: real)

  datatype Point = Point(trip: string, at: int, place: Place, speed: real, course: real, odometer: int)

  // The trips table by primary key.
  type Table = map<string, Trip>

  predicate Keyed(trips: Table) { forall id :: id in trips ==> trips[id].id == id }

  datatype Db = Db(trips: Table, points: seq<Point>)

  datatype Statement =
    | InsertTrip(trip: Trip)
    | InsertPoints(points: seq<Point>)
    | CloseInterval(id: string, now: int)      // PauseTrip, and the first half of CompleteTripAt
    | DiscardInterval(id: string)
    | OpenInterval(id: string, now: int)       // ResumeTrip
    | CheckpointInterval(id: string, now: int)
    | Finish(id: string, now: int, endOdometer: int, distanceM: int, durationS: int, maxSpeed: real)
    | Abandon(id: string)
    | Delete(id: string)

  // Seconds of the open interval that are over at `now`.
  function Elapsed(t: Trip, now: int): int {
    if t.activeStartedAt > 0 && now > t.activeStartedAt then now - t.activeStartedAt else 0
  }

  function PointsOf(points: seq<Point>, id: string): seq<Point> {
    if points == [] then []
    else PointsOf(points[..|points| - 1], id) + if points[|points| - 1].trip == id then [points[|points| - 1]] else []
  }

  function WithoutTrip(points: seq<Point>, id: string): seq<Point> {
    if points == [] then []
    else
      WithoutTrip(points[..|points| - 1], id)
      + if points[|points| - 1].trip == id then [] else [points[|points| - 1]]
  }

  predicate IsOpen(db: Db, id: string) { id in db.trips && db.trips[id].status == Recording }

  function Exec(db: Db, s: Statement): Db {
    match s
    case InsertTrip(t) => db.(trips := db.trips[t.id := t])
    case InsertPoints(ps) => db.(points := db.points + ps)
    case CloseInterval(id, now) =>
      if !IsOpen(db, id) then db
      else
        var t := db.trips[id];
        db.(trips := db.trips[id := t.(durationS := t.durationS + Elapsed(t, now), activeStartedAt := 0)])
    case DiscardInterval(id) =>
      if !IsOpen(db, id) then db else db.(trips := db.trips[id := db.trips[id].(activeStartedAt := 0)])
    case OpenInterval(id, now) =>
      if !IsOpen(db, id) then db
      else
        var t := db.trips[id];
        db.(trips := db.trips[id := if t.activeStartedAt == 0 then t.(activeStartedAt := now) else t])
    case CheckpointInterval(id, now) =>
      if !IsOpen(db, id) then db
      else
        var t := db.trips[id];
        db.(trips := db.trips[id := t.(durationS := t.durationS + Elapsed(t, now),
                                       activeStartedAt := if t.activeStartedAt > 0 then now else 0)])
    case Finish(id, now, endOdometer, distanceM, durationS, maxSpeed) =>
      if id !in db.trips then db
      else
        db.(trips := db.trips[id := db.trips[id].(status := Completed, endedAt := now, endOdometer := endOdometer,
                                                  distanceM := distanceM, durationS := durationS,
                                                  maxSpeed := maxSpeed)])
    case Abandon(id) =>
      if id !in db.trips then db
      else db.(trips := db.trips[id := db.trips[id].(status := Abandoned, activeStartedAt := 0)])
    case Delete(id) =>
      Db(db.trips - {id}, if id in db.trips then WithoutTrip(db.points, id) else db.points)
  }

  function ExecAll(db: Db, ss: seq<Statement>): Db {
    if ss == [] then db else Exec(ExecAll(db, ss[..|ss| - 1]), ss[|ss| - 1])
  }

  lemma ExecOne(db: Db, ss: seq<Statement>, s: Statement)
    ensures ExecAll(db, ss + [s]) == Exec(ExecAll(db, ss), s)
  {
    assert (ss + [s])[..|ss|] == ss;
  }

  lemma {:induction false} PointsAppend(a: seq<Point>, b: seq<Point>, id: string)
    ensures PointsOf(a + b, id) == PointsOf(a, id) + PointsOf(b, id)
  {
    if b == [] {
      assert a + b == a;
    } else {
      assert (a + b)[..|a| + |b| - 1] == a + b[..|b| - 1];
      PointsAppend(a, b[..|b| - 1], id);
    }
  }

  lemma {:induction false} PointsAllOf(ps: seq<Point>, id: string)
    requires forall p :: p in ps ==> p.trip == id
    ensures PointsOf(ps, id) == ps
  {
    if ps != [] {
      assert ps == ps[..|ps| - 1] + [ps[|ps| - 1]];
      PointsAllOf(ps[..|ps| - 1], id);
    }
  }

  // Cascade delete takes exactly the points of the deleted trip.
  lemma {:induction false} PointsWithout(points: seq<Point>, id: string, other: string)
    ensures PointsOf(WithoutTrip(points, id), other) == if other == id then [] else PointsOf(points, other)
  {
    if points != [] {
      var init, last := points[..|points| - 1], points[|points| - 1];
      PointsWithout(init, id, other);
      var kept := WithoutTrip(init, id);
      if last.trip == id {
        assert WithoutTrip(points, id) == kept;
      } else {
        assert WithoutTrip(points, id) == kept + [last];
        PointsLast(kept, last, other);
      }
    }
  }

  lemma PointsLast(points: seq<Point>, last: Point, id: string)
    ensures PointsOf(points + [last], id) == PointsOf(points, id) + if last.trip == id then [last] else []
  {
    assert (points + [last])[..|points|] == points;
  }

  lemma {:induction false} WithoutMembers(points: seq<Point>, id: string)
    ensures forall p :: p in WithoutTrip(points, id) ==> p in points && p.trip != id
  {
    if points != [] {
      WithoutMembers(points[..|points| - 1], id);
    }
  }

  function Row(db: Db, id: string): Option<Trip> { if id in db.trips then Some(db.trips[id]) else None }

  // The two statements of CompleteTripAt; the second writes what the first left.
  function Completion(db: Db, id: string, endOdometer: int, maxSpeed: real, now: int): seq<Statement> {
    var row := Row(Exec(db, CloseInterval(id, now)), id);
    if row.None? then [CloseInterval(id, now)]
    else
      [CloseInterval(id, now),
       Finish(id, now, endOdometer, Max(0, endOdometer - row.value.startOdometer), row.value.durationS, maxSpeed)]
  }

  class TripStore {
    var trips: map<string, Trip>
    var points: seq<Point>

    function View(): Db
      reads this
    {
      Db(trips, points)
    }

    constructor (db: Db)
      ensures View() == db
    {
      trips, points := db.trips, db.points;
    }

    // The primary key refuses an id that is taken, and the insert may fail otherwise.
    method CreateTrip(id: string, profile: string, odometer: int, now: int, insertOk: bool) returns (trip: Option<Trip>)
      modifies this
      ensures trip == if id in old(trips) || !insertOk then None
                      else Some(Trip(id, profile, Recording, now, 0, now, odometer, 0, 0, 0, 0.0, now))
      ensures View() == if trip.None? then old(View()) else Exec(old(View()), InsertTrip(trip.value))
    {
      if id in trips || !insertOk {
        return None;
      }
      var t := Trip(id, profile, Recording, now, 0, now, odometer, 0, 0, 0, 0.0, now);
      trips := trips[id := t];
      trip := Some(t);
    }

    method AddPoints(ps: seq<Point>)
      modifies this`points
      ensures View() == Exec(old(View()), InsertPoints(ps))
    {
      points := points + ps;
    }

    method PauseTrip(id: string, now: int) returns (trip: Option<Trip>)
      modifies this`trips
      ensures View() == Exec(old(View()), CloseInterval(id, now)) && trip == Row(View(), id)
    {
      if id in trips && trips[id].status == Recording {
        var t := trips[id];
        var elapsed := if t.activeStartedAt > 0 && now > t.activeStartedAt then now - t.activeStartedAt else 0;
        trips := trips[id := t.(durationS := t.durationS + elapsed, activeStartedAt := 0)];
      }
      trip := GetTrip(id);
    }

    method DiscardActiveTripInterval(id: string) returns (trip: Option<Trip>)
      modifies this`trips
      ensures View() == Exec(old(View()), DiscardInterval(id)) && trip == Row(View(), id)
    {
      if id in trips && trips[id].status == Recording {
        trips := trips[id := trips[id].(activeStartedAt := 0)];
      }
      trip := GetTrip(id);
    }

    method ResumeTrip(id: string, now: int) returns (trip: Option<Trip>)
      modifies this`trips
      ensures View() == Exec(old(View()), OpenInterval(id, now)) && trip == Row(View(), id)
    {
      if id in trips && trips[id].status == Recording {
        var t := trips[id];
        trips := trips[id := t.(activeStartedAt := if t.activeStartedAt == 0 then now else t.activeStartedAt)];
      }
      trip := GetTrip(id);
    }

    method CheckpointTrip(id: string, now: int) returns (trip: Option<Trip>)
      modifies this`trips
      ensures View() == Exec(old(View()), CheckpointInterval(id, now)) && trip == Row(View(), id)
    {
      if id in trips && trips[id].status == Recording {
        var t := trips[id];
        var elapsed := if t.activeStartedAt > 0 && now > t.activeStartedAt then now - t.activeStartedAt else 0;
        trips := trips[id := t.(durationS := t.durationS + elapsed,
                                activeStartedAt := if t.activeStartedAt > 0 then now else 0)];
      }
      trip := GetTrip(id);
    }

    method CompleteTripAt(id: string, endOdometer: int, maxSpeed: real, now: int) returns (trip: Option<Trip>)
      modifies this`trips
      ensures View() == ExecAll(old(View()), Completion(old(View()), id, endOdometer, maxSpeed, now))
      ensures trip == Row(View(), id)
    {
      ghost var before := View();
      ExecOne(before, [], CloseInterval(id, now));
      assert [] + [CloseInterval(id, now)] == [CloseInterval(id, now)];
      trip := PauseTrip(id, now);
      if trip.None? {
        return;
      }
      var distance := endOdometer - trip.value.startOdometer;
      if distance < 0 {
        distance := 0;
      }
      var t := trip.value.(status := Completed, endedAt := now, endOdometer := endOdometer,
                           distanceM := distance, maxSpeed := maxSpeed);
      ghost var finish := Finish(id, now, endOdometer, distance, t.durationS, maxSpeed);
      ExecOne(before, [CloseInterval(id, now)], finish);
      assert [CloseInterval(id, now)] + [finish] == [CloseInterval(id, now), finish];
      trips := trips[id := t];
      trip := Some(t);
    }

    method AbandonTrip(id: string)
      modifies this`trips
      ensures View() == Exec(old(View()), Abandon(id))
    {
      if id in trips {
        trips := trips[id := trips[id].(status := Abandoned, activeStartedAt := 0)];
      }
    }

    method DeleteTrip(id: string)
      modifies this
      ensures View() == Exec(old(View()), Delete(id))
    {
      if id in trips {
        points := WithoutTrip(points, id);
      }
      trips := trips - {id};
    }

    method GetTrip(id: string) returns (trip: Option<Trip>)
      ensures trip == Row(View(), id)
    {
      trip := if id in trips then Some(trips[id]) else None;
    }

    method GetRecordingTrip() returns (trip: Option<Trip>)
      ensures trip.None? ==> forall id :: id in trips ==> trips[id].status != Recording
      ensures trip.Some? ==> exists id :: id in trips && trips[id] == trip.value && trip.value.status == Recording
    {
      var open := set id | id in trips && trips[id].status == Recording;
      if open == {} {
        assert forall id :: id in trips && trips[id].status == Recording ==> id in open;
        return None;
      }
      var id :| id in open;
      trip := Some(trips[id]);
    }
  }
}
