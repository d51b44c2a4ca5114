/** The trip recorder of internal/recorder/recorder.go.

What an operation does is a plan: the SQL statements it executes in order, the
recorder it leaves, and the completion events it publishes last.  A crash is
then a prefix of a plan's statements. */
module Recorders {
  import opened Prelude
  import opened Trips

  const MIN_TRIP_DISTANCE := 100
  const FLUSH_AT := 10
  const MIN_POINT_DISTANCE := 5.0

  type Metric = (Place, Place) -> real

  datatype Rec = Rec(current: Option<Trip>, lastPlace: Option<Place>, buffer: seq<Point>, maxSpeed: real)

  const IDLE := Rec(None, None, [], 0.0)

  datatype Event = TripCompleted(id: string, profile: string, distanceM: int, durationS: int)

  datatype Plan = Plan(statements: seq<Statement>, rec: Rec, events: seq<Event>)

  predicate Collecting(r: Rec) { r.current.Some? && r.current.value.activeStartedAt > 0 }

  // An interval is open, even one opened by a clock before 1970.
  predicate Timing(r: Rec) { r.current.Some? && r.current.value.activeStartedAt != 0 }

  // The database's answers an operation depends on: whether an insert of points
  // commits.
  datatype Call =
    | Start(id: string, profile: string, odometer: int, now: int, insertOk: bool)
    | Pause(now: int, insertOk: bool)
    | Resume(now: int)
    | Checkpoint(now: int)
    | End(odometer: int, now: int, insertOk: bool)
    | Add(point: Point, insertOk: bool)
    | Flush(insertOk: bool)

  function NewTrip(id: string, profile: string, odometer: int, now: int): Trip {
    Trip(id, profile, Recording, now, 0, now, odometer, 0, 0, 0, 0.0, now)
  }

  function Stay(r: Rec): Plan { Plan([], r, []) }

  function FlushFirst(r: Rec): seq<Statement> { if r.buffer != [] then [InsertPoints(r.buffer)] else [] }

  function StartPlan(r: Rec, db: Db, id: string, profile: string, odometer: int, now: int, insertOk: bool): Plan {
    if r.current.Some? || id in db.trips || !insertOk then Stay(r)
    else
      var t := NewTrip(id, profile, odometer, now);
      Plan([InsertTrip(t)], Rec(Some(t), None, [], 0.0), [])
  }

  // Adopt the row as the database now has it.
  function Adopted(r: Rec, row: Option<Trip>): Rec {
    if row.Some? then r.(current := row, lastPlace := None) else r
  }

  function PausePlan(r: Rec, db: Db, now: int, insertOk: bool): Plan {
    if !Timing(r) || (r.buffer != [] && !insertOk) then Stay(r)
    else
      var id := r.current.value.id;
      var ss := FlushFirst(r) + [CloseInterval(id, now)];
      Plan(ss, Adopted(r.(buffer := []), Row(ExecAll(db, ss), id)), [])
  }

  function ResumePlan(r: Rec, db: Db, now: int): Plan {
    if r.current.None? || r.current.value.activeStartedAt > 0 then Stay(r)
    else
      var id := r.current.value.id;
      var ss := [OpenInterval(id, now)];
      Plan(ss, Adopted(r, Row(ExecAll(db, ss), id)), [])
  }

  function CheckpointPlan(r: Rec, db: Db, now: int): Plan {
    if !Timing(r) then Stay(r)
    else
      var id := r.current.value.id;
      var ss := [CheckpointInterval(id, now)];
      var row := Row(ExecAll(db, ss), id);
      Plan(ss, if row.Some? then r.(current := row) else r, [])
  }

  function EndPlan(r: Rec, db: Db, odometer: int, now: int, insertOk: bool): Plan {
    if r.current.None? then Stay(r)
    else
      var id := r.current.value.id;
      if odometer - r.current.value.startOdometer < MIN_TRIP_DISTANCE then
        Plan([Delete(id)], Rec(None, None, [], r.maxSpeed), [])
      else if r.buffer != [] && !insertOk then Stay(r)
      else
        var first := FlushFirst(r);
        var ss := first + Completion(ExecAll(db, first), id, odometer, r.maxSpeed, now);
        EndAfter(r, id, ss, Row(ExecAll(db, ss), id))
  }

  // The completed row is read back for the announcement.
  function EndAfter(r: Rec, id: string, ss: seq<Statement>, row: Option<Trip>): Plan {
    if row.None? then Plan(ss, r.(buffer := []), [])
    else
      Plan(ss, Rec(None, None, [], r.maxSpeed),
           [TripCompleted(id, row.value.profile, row.value.distanceM, row.value.durationS)])
  }

  predicate Accepts(r: Rec, p: Point, dist: Metric) {
    Timing(r) && (r.lastPlace.Some? ==> dist(r.lastPlace.value, p.place) >= MIN_POINT_DISTANCE)
  }

  // The point as recorded: it belongs to the current trip.
  function Tagged(r: Rec, p: Point): Point
    requires r.current.Some?
  {
    p.(trip := r.current.value.id)
  }

  function AddPlan(r: Rec, p: Point, insertOk: bool, dist: Metric): Plan {
    if !Accepts(r, p, dist) then Stay(r)
    else
      var buffer := r.buffer + [Tagged(r, p)];
      var s := Rec(r.current, Some(p.place), buffer, if p.speed > r.maxSpeed then p.speed else r.maxSpeed);
      if |buffer| >= FLUSH_AT && insertOk then Plan([InsertPoints(buffer)], s.(buffer := []), []) else Stay(s)
  }

  function FlushPlan(r: Rec, insertOk: bool): Plan {
    if r.buffer != [] && r.current.Some? && insertOk then Plan([InsertPoints(r.buffer)], r.(buffer := []), [])
    else Stay(r)
  }

  function PlanOf(r: Rec, db: Db, call: Call, dist: Metric): Plan {
    match call
    case Start(id, profile, odometer, now, insertOk) => StartPlan(r, db, id, profile, odometer, now, insertOk)
    case Pause(now, insertOk) => PausePlan(r, db, now, insertOk)
    case Resume(now) => ResumePlan(r, db, now)
    case Checkpoint(now) => CheckpointPlan(r, db, now)
    case End(odometer, now, insertOk) => EndPlan(r, db, odometer, now, insertOk)
    case Add(p, insertOk) => AddPlan(r, p, insertOk, dist)
    case Flush(insertOk) => FlushPlan(r, insertOk)
  }

  // Recovery takes an open row that the database found, if it found one.
  predicate Found(db: Db, row: Option<Trip>) {
    if row.Some? then exists id :: id in db.trips && db.trips[id] == row.value && row.value.status == Recording
    else forall id :: id in db.trips ==> db.trips[id].status != Recording
  }

  function RecoverScript(t: Trip, mode: Mode, now: int): seq<Statement> {
    (if t.activeStartedAt != 0 then [DiscardInterval(t.id)] else [])
    + match mode
      case Ready => [OpenInterval(t.id, now)]
      case Paused => []
      case Over => [Abandon(t.id)]
  }

  function RecoverPlan(r: Rec, db: Db, found: Option<Trip>, mode: Mode, now: int): Plan {
    if found.None? then Stay(r)
    else
      var ss := RecoverScript(found.value, mode, now);
      RecoverAfter(r, found.value, mode, ss, ExecAll(db, ss))
  }

  // The row is read again only when something was written.
  function RecoverAfter(r: Rec, t: Trip, mode: Mode, ss: seq<Statement>, after: Db): Plan {
    var row := if ss == [] then Some(t) else Row(after, t.id);
    if row.None? || mode == Over then Plan(ss, r, [])
    else Plan(ss, Rec(row, None, r.buffer, row.value.maxSpeed), [])
  }

  class Recorder {
    const store: TripStore
    const dist: Metric
    var currentTrip: Option<Trip>
    var lastPlace: Option<Place>
    var pointBuffer: seq<Point>
    var maxSpeed: real
    ghost var events: seq<Event>

    ghost function View(): Rec
      reads this
    {
      Rec(currentTrip, lastPlace, pointBuffer, maxSpeed)
    }

    constructor (store: TripStore, dist: Metric)
      ensures this.store == store && this.dist == dist
      ensures View() == IDLE && events == []
    {
      this.store, this.dist := store, dist;
      currentTrip, lastPlace, pointBuffer, maxSpeed, events := None, None, [], 0.0, [];
    }

    // The plan was followed to the end.
    twostate predicate Followed(plan: Plan)
      reads this, store
    {
      && View() == plan.rec
      && store.View() == ExecAll(old(store.View()), plan.statements)
      && events == old(events) + plan.events
    }

    method StartTrip(id: string, profile: string, odometer: int, now: int, insertOk: bool) returns (ok: bool)
      modifies this, store
      ensures Followed(StartPlan(old(View()), old(store.View()), id, profile, odometer, now, insertOk))
      ensures ok <==> old(currentTrip).Some? || (id !in old(store.trips) && insertOk)
    {
      if currentTrip.Some? {
        return true;
      }
      var trip := store.CreateTrip(id, profile, odometer, now, insertOk);
      if trip.None? {
        return false;
      }
      ExecOne(old(store.View()), [], InsertTrip(trip.value));
      assert [] + [InsertTrip(trip.value)] == [InsertTrip(trip.value)];
      currentTrip, maxSpeed, pointBuffer, lastPlace := trip, 0.0, [], None;
      return true;
    }

    // Write out the buffer if there is one and the insert commits.
    method WriteBuffer(insertOk: bool) returns (ok: bool)
      modifies this`pointBuffer, store
      ensures ok <==> pointBuffer == []
      ensures ok <==> old(pointBuffer) == [] || insertOk
      ensures !ok ==> View() == old(View()) && store.View() == old(store.View())
      ensures ok ==> View() == old(View()).(buffer := [])
      ensures ok ==> store.View() == ExecAll(old(store.View()), FlushFirst(old(View())))
    {
      if pointBuffer == [] {
        return true;
      }
      if !insertOk {
        return false;
      }
      ExecOne(store.View(), [], InsertPoints(pointBuffer));
      assert [] + [InsertPoints(pointBuffer)] == [InsertPoints(pointBuffer)];
      store.AddPoints(pointBuffer);
      pointBuffer := [];
      return true;
    }

    method PauseTrip(now: int, insertOk: bool)
      modifies this, store
      ensures Followed(PausePlan(old(View()), old(store.View()), now, insertOk))
    {
      if currentTrip.None? || currentTrip.value.activeStartedAt == 0 {
        return;
      }
      ExecOne(store.View(), FlushFirst(View()), CloseInterval(currentTrip.value.id, now));
      var ok := WriteBuffer(insertOk);
      if !ok {
        return;
      }
      var trip := store.PauseTrip(currentTrip.value.id, now);
      if trip.Some? {
        currentTrip, lastPlace := trip, None;
      }
    }

    method ResumeTrip(now: int)
      modifies this, store
      ensures Followed(ResumePlan(old(View()), old(store.View()), now))
    {
      if currentTrip.None? || currentTrip.value.activeStartedAt > 0 {
        return;
      }
      ghost var s := OpenInterval(currentTrip.value.id, now);
      ExecOne(store.View(), [], s);
      assert [] + [s] == [s];
      var trip := store.ResumeTrip(currentTrip.value.id, now);
      if trip.Some? {
        currentTrip, lastPlace := trip, None;
      }
    }

    method OnCheckpoint(now: int)
      modifies this, store
      ensures Followed(CheckpointPlan(old(View()), old(store.View()), now))
    {
      if currentTrip.None? || currentTrip.value.activeStartedAt == 0 {
        return;
      }
      ghost var s := CheckpointInterval(currentTrip.value.id, now);
      ExecOne(store.View(), [], s);
      assert [] + [s] == [s];
      var trip := store.CheckpointTrip(currentTrip.value.id, now);
      if trip.Some? {
        currentTrip := trip;
      }
    }

    method Discard()
      requires currentTrip.Some?
      modifies this, store
      ensures Followed(Plan([Delete(old(currentTrip).value.id)], Rec(None, None, [], old(maxSpeed)), []))
    {
      ghost var s := Delete(currentTrip.value.id);
      ExecOne(store.View(), [], s);
      assert [] + [s] == [s];
      pointBuffer := [];
      store.DeleteTrip(currentTrip.value.id);
      currentTrip, lastPlace := None, None;
    }

    method EndTrip(odometer: int, now: int, insertOk: bool)
      modifies this, store
      ensures Followed(EndPlan(old(View()), old(store.View()), odometer, now, insertOk))
    {
      if currentTrip.None? {
        return;
      }
      var id := currentTrip.value.id;
      var distance := odometer - currentTrip.value.startOdometer;
      if distance < MIN_TRIP_DISTANCE {
        // Too short to be announced.
        Discard();
        return;
      }
      ghost var db, r := store.View(), View();
      var ok := WriteBuffer(insertOk);
      if !ok {
        return;
      }
      ghost var middle := store.View();
      var trip := store.CompleteTripAt(id, odometer, maxSpeed, now);
      ExecAppend(db, FlushFirst(r), Completion(middle, id, odometer, r.maxSpeed, now));
      if trip.None? {
        return;
      }
      events := events + [TripCompleted(id, trip.value.profile, trip.value.distanceM, trip.value.durationS)];
      currentTrip, lastPlace := None, None;
    }

    method AddPoint(p: Point, insertOk: bool)
      modifies this, store
      ensures Followed(AddPlan(old(View()), p, insertOk, dist))
    {
      if currentTrip.None? || currentTrip.value.activeStartedAt == 0 {
        return;
      }
      if lastPlace.Some? && !(dist(lastPlace.value, p.place) >= MIN_POINT_DISTANCE) {
        return;
      }
      if p.speed > maxSpeed {
        maxSpeed := p.speed;
      }
      pointBuffer := pointBuffer + [p.(trip := currentTrip.value.id)];
      lastPlace := Some(p.place);
      if |pointBuffer| >= FLUSH_AT {
        var ok := WriteBuffer(insertOk);
      }
    }

    method FlushPoints(insertOk: bool)
      modifies this, store
      ensures Followed(FlushPlan(old(View()), insertOk))
    {
      if |pointBuffer| > 0 && currentTrip.Some? {
        var ok := WriteBuffer(insertOk);
      }
    }

    // Startup: take up the open row, if there is one, as the vehicle state demands.
    method RecoverFromState(state: string, now: int) returns (ghost found: Option<Trip>)
      modifies this, store
      ensures Found(old(store.View()), found)
      ensures Followed(RecoverPlan(old(View()), old(store.View()), found, ModeOf(state), now))
    {
      var trip := store.GetRecordingTrip();
      found := trip;
      if trip.Some? {
        RecoverTrip(trip.value, ModeOf(state), now);
      }
    }

    method RecoverTrip(t: Trip, mode: Mode, now: int)
      modifies this, store
      ensures Followed(RecoverPlan(old(View()), old(store.View()), Some(t), mode, now))
    {
      RecoverRuns(store.View(), t, mode, now);
      var trip := Some(t);
      if t.activeStartedAt != 0 {
        trip := store.DiscardActiveTripInterval(t.id);
      }
      match mode {
        case Ready =>
          trip := store.ResumeTrip(t.id, now);
        case Paused =>
        case Over =>
          store.AbandonTrip(t.id);
          return;
      }
      if trip.Some? {
        currentTrip, maxSpeed, lastPlace := trip, trip.value.maxSpeed, None;
      }
    }
  }

  // The recovery script, statement by statement.
  lemma RecoverRuns(db: Db, t: Trip, mode: Mode, now: int)
    ensures
      var middle := if t.activeStartedAt != 0 then Exec(db, DiscardInterval(t.id)) else db;
      ExecAll(db, RecoverScript(t, mode, now)) ==
        match mode
        case Ready => Exec(middle, OpenInterval(t.id, now))
        case Paused => middle
        case Over => Exec(middle, Abandon(t.id))
  {
    var first := if t.activeStartedAt != 0 then [DiscardInterval(t.id)] else [];
    ExecOne(db, [], DiscardInterval(t.id));
    assert [] + [DiscardInterval(t.id)] == [DiscardInterval(t.id)];
    match mode
    case Ready => ExecOne(db, first, OpenInterval(t.id, now));
    case Paused => assert first + [] == first;
    case Over => ExecOne(db, first, Abandon(t.id));
  }

  lemma {:induction false} ExecAppend(db: Db, a: seq<Statement>, b: seq<Statement>)
    ensures ExecAll(db, a + b) == ExecAll(ExecAll(db, a), b)
  {
    if b == [] {
      assert a + b == a;
    } else {
      assert (a + b)[..|a| + |b| - 1] == a + b[..|b| - 1];
      ExecAppend(db, a, b[..|b| - 1]);
    }
  }
}
