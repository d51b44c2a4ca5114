/** What becomes of a position: which reach the points of the ride, and with which
odometer reading. */
module Positions {
  import opened Prelude
  import opened Trips
  import opened Handlers
  import opened CounterModel
  import Recorders
  import RideRuns
  import opened AppRuns

  // The ride is being timed, the scooter moves at 5 km/h or more, and the place is 5 m
  // or more from the last one taken in this ready interval.
  predicate IsTaken(s: AppState, p: Point, dist: Recorders.Metric) {
    && s.rec.current.Some? && s.rec.current.value.activeStartedAt > 0 && p.speed >= 5.0
    && (s.rec.lastPlace.Some? ==> dist(s.rec.lastPlace.value, p.place) >= 5.0)
  }

  // The points of the open ride, stored and waiting.
  function RidePoints(s: AppState): seq<Point>
    requires s.rec.current.Some?
  {
    PointsOf(s.db.points, s.rec.current.value.id) + s.rec.buffer
  }

  lemma FlushedPoints(db: Db, buffer: seq<Point>, id: string)
    requires forall p :: p in buffer ==> p.trip == id
    ensures ExecAll(db, [InsertPoints(buffer)]) == Db(db.trips, db.points + buffer)
    ensures PointsOf(db.points + buffer, id) == PointsOf(db.points, id) + buffer
  {
    RideRuns.OneStatement(InsertPoints(buffer), db, {});
    RideRuns.FlushMoves(db, buffer, id);
  }

  // What the recorder does with a point it accepts.
  lemma PointAdded(r: Recorders.Rec, db: Db, p: Point, insertOk: bool, dist: Recorders.Metric)
    requires RideRuns.InStep(r, db) && Recorders.Accepts(r, p, dist)
    ensures
      var plan := Recorders.AddPlan(r, p, insertOk, dist);
      var id, after := r.current.value.id, ExecAll(db, plan.statements);
      && plan.events == [] && plan.rec.current == r.current && plan.rec.lastPlace == Some(p.place)
      && plan.rec.maxSpeed == (if p.speed > r.maxSpeed then p.speed else r.maxSpeed)
      && PointsOf(after.points, id) + plan.rec.buffer == PointsOf(db.points, id) + r.buffer + [p.(trip := id)]
  {
    var id := r.current.value.id;
    var buffer := r.buffer + [Recorders.Tagged(r, p)];
    FlushedPoints(db, buffer, id);
    assert PointsOf(db.points, id) + r.buffer + [Recorders.Tagged(r, p)] == PointsOf(db.points, id) + buffer;
    assert PointsOf(db.points, id) + buffer + [] == PointsOf(db.points, id) + buffer;
  }

  // A position is recorded exactly if it is taken: as one more point of the open ride,
  // with the handlers' last odometer reading; otherwise nothing changes.
  lemma PositionRecorded(s: AppState, c: Clock, p: Point, insertOk: bool, used: set<string>, dist: Recorders.Metric)
    requires Lockstep(s, used)
    ensures
      var t := Handle(s, c, Gps(p, insertOk), dist);
      if IsTaken(s, p, dist) then
        && t.rec.current == s.rec.current && t.rec.lastPlace == Some(p.place)
        && t.rec.maxSpeed == (if p.speed > s.rec.maxSpeed then p.speed else s.rec.maxSpeed)
        && RidePoints(t) == RidePoints(s) + [p.(trip := s.rec.current.value.id, odometer := s.lastOdo)]
        && t == s.(rec := t.rec, db := t.db)
      else t == s
  {
    assert s.events + [] == s.events;
    if IsTaken(s, p, dist) {
      PointAdded(s.rec, s.db, p.(odometer := s.lastOdo), insertOk, dist);
    }
  }

  // ----- the odometer reading -----

  function LastRead(odometer: int, ins: seq<Timed>): int {
    if ins == [] then odometer
    else
      match ins[|ins| - 1].input
      case OdometerUpdate(v, _, _, _) => if v >= 0 then v else LastRead(odometer, ins[..|ins| - 1])
      case VehicleState(state, engine, _, _, _, _, _) =>
        if ModeOf(state) != Ready && engine.Some? then engine.value else LastRead(odometer, ins[..|ins| - 1])
      case _ => LastRead(odometer, ins[..|ins| - 1])
  }

  lemma HandleReads(s: AppState, c: Clock, i: Input, dist: Recorders.Metric)
    ensures
      Handle(s, c, i, dist).lastOdo ==
        match i
        case OdometerUpdate(v, _, _, _) => if v >= 0 then v else s.lastOdo
        case VehicleState(state, engine, _, _, _, _, _) =>
          if ModeOf(state) != Ready && engine.Some? then engine.value else s.lastOdo
        case _ => s.lastOdo
  {
  }

  // The handlers' odometer is the last reading they were given: the last update that was
  // not negative, or the last live reading taken as the vehicle stopped.
  lemma {:induction false} OdometerIsLastRead(s: AppState, ins: seq<Timed>, dist: Recorders.Metric)
    ensures Run(s, ins, dist).lastOdo == LastRead(s.lastOdo, ins)
  {
    if ins != [] {
      var n := |ins| - 1;
      OdometerIsLastRead(s, ins[..n], dist);
      HandleReads(Run(s, ins[..n], dist), ins[n].clock, ins[n].input, dist);
    }
  }

  // ----- places and storage -----

  // A ready state that starts timing the open trip forgets the last place, so the first
  // position of a ready interval is taken wherever it is.
  lemma IntervalForgetsPlace(s: AppState, c: Clock, i: Input, used: set<string>, dist: Recorders.Metric)
    requires Lockstep(s, used) && Possible(c, i, used) && i.VehicleState? && ModeOf(i.state) == Ready && i.publishOk
    requires s.rec.current.Some? && s.rec.current.value.activeStartedAt == 0
    ensures
      var t := Handle(s, c, i, dist);
      && t.rec.lastPlace.None? && forall p: Point :: p.speed >= 5.0 ==> IsTaken(t, p, dist)
  {
    var t := Noted(s, c, i.state, i.engine);
    NotedKeeps(s, c, i.state, i.engine, used);
    CallOnTrip(t, Recorders.Resume(c.unix), dist);
    RideRuns.OneStatement(OpenInterval(t.rec.current.value.id, c.unix), t.db, {});
  }
}
