/** Whether a trip goes on being timed after the vehicle has stopped.  It does exactly
until a stop both reaches the recorder and finds the buffered points writable. */
module Overruns {
  import opened Prelude
  import opened Trips
  import opened Handlers
  import opened CounterModel
  import CounterRuns
  import Recorders
  import RideRuns
  import opened AppRuns
  import Served

  // The vehicle is not ready and its trip is being timed.
  predicate IsOverrun(s: AppState) { s.mode != Ready && Recorders.Timing(s.rec) }

  // The odometer a lock would end the trip with.
  function OdometerAt(s: AppState, i: Input): int
    requires i.VehicleState?
  {
    if i.engine.Some? then i.engine.value else s.lastOdo
  }

  // The stop takes effect: its counter is published, and the waiting points are
  // written or the trip is too short to need them.
  predicate TakesEffect(s: AppState, i: Input) {
    && i.VehicleState? && ModeOf(i.state) != Ready && i.publishOk
    && (s.rec.buffer == [] || i.insertOk
        || (ModeOf(i.state) == Over && s.rec.current.Some?
            && OdometerAt(s, i) - s.rec.current.value.startOdometer < Recorders.MIN_TRIP_DISTANCE))
  }

  predicate IsReadyState(i: Input) { i.VehicleState? && ModeOf(i.state) == Ready }

  lemma StopTimes(s: AppState, c: Clock, i: Input, used: set<string>, dist: Recorders.Metric)
    requires Lockstep(s, used) && Possible(c, i, used) && i.VehicleState? && ModeOf(i.state) != Ready
    ensures Recorders.Timing(Handle(s, c, i, dist).rec) <==> Recorders.Timing(s.rec) && !TakesEffect(s, i)
  {
    var t := Noted(s, c, i.state, i.engine);
    NotedKeeps(s, c, i.state, i.engine, used);
    if i.publishOk {
      if ModeOf(i.state) == Paused {
        CallOnTrip(t, Recorders.Pause(c.unix, i.insertOk), dist);
      } else {
        EndTimes(t.rec, t.db, t.lastOdo, c.unix, i.insertOk, used);
      }
    }
  }

  lemma EndTimes(r: Recorders.Rec, db: Db, odometer: int, now: int, insertOk: bool, used: set<string>)
    requires RideRuns.InStep(r, db) && Keyed(db.trips) && RideRuns.OneOpen(db) && db.trips.Keys <= used
    ensures
      var written := r.buffer == [] || insertOk;
      Recorders.Timing(Recorders.EndPlan(r, db, odometer, now, insertOk).rec) <==>
        Recorders.Timing(r) && !written
        && odometer - r.current.value.startOdometer >= Recorders.MIN_TRIP_DISTANCE
  {
    if r.current.Some? {
      RideRuns.EndInStep(r, db, odometer, now, insertOk, used);
    }
  }

  lemma OtherTimes(s: AppState, c: Clock, i: Input, used: set<string>, dist: Recorders.Metric)
    requires Lockstep(s, used) && Possible(c, i, used) && !i.VehicleState? && s.mode != Ready
    ensures Recorders.Timing(Handle(s, c, i, dist).rec) <==> Recorders.Timing(s.rec)
  {
    match i
    case Tick(insertOk) =>
      CallOnTrip(s, Recorders.Flush(insertOk), dist);
      CalledRecordable(s, Recorders.Flush(insertOk), used, dist);
      CallOnTrip(Called(s, Recorders.Flush(insertOk), dist), Recorders.Checkpoint(c.unix), dist);
    case Gps(p, insertOk) => CallOnTrip(s, Recorders.Add(p.(odometer := s.lastOdo), insertOk), dist);
    case _ =>
  }

  // An event after which the vehicle is not ready leaves its trip timed exactly if it
  // was, and the event is not a stop that takes effect.
  lemma EventOverruns(s: AppState, c: Clock, i: Input, used: set<string>, dist: Recorders.Metric)
    requires Lockstep(s, used) && Possible(c, i, used)
    requires !IsReadyState(i) && (s.mode == Ready ==> i.VehicleState?)
    ensures Handle(s, c, i, dist).mode != Ready
    ensures IsOverrun(Handle(s, c, i, dist)) <==> Recorders.Timing(s.rec) && !TakesEffect(s, i)
  {
    Served.ModeAfter(s, c, i, used, dist);
    if i.VehicleState? {
      StopTimes(s, c, i, used, dist);
    } else {
      OtherTimes(s, c, i, used, dist);
    }
  }

  predicate NeverReady(ins: seq<Timed>) { forall t :: t in ins ==> !IsReadyState(t.input) }

  predicate AnyTakesEffect(s: AppState, ins: seq<Timed>, dist: Recorders.Metric) {
    ins != [] &&
    (var n := |ins| - 1;
     AnyTakesEffect(s, ins[..n], dist) || TakesEffect(Run(s, ins[..n], dist), ins[n].input))
  }

  // From the moment the vehicle stops until it is ready again, its trip is timed if and
  // only if it was before and no stop has taken effect.
  lemma {:induction false} OverrunsExactly(s: AppState, ins: seq<Timed>, used: set<string>, dist: Recorders.Metric)
    requires Lockstep(s, used) && AllPossible(ins, used) && NeverReady(ins)
    requires s.mode == Ready ==> ins != [] && ins[0].input.VehicleState?
    ensures Run(s, ins, dist).mode != Ready
    ensures IsOverrun(Run(s, ins, dist)) <==> Recorders.Timing(s.rec) && !AnyTakesEffect(s, ins, dist)
  {
    if ins != [] {
      var n := |ins| - 1;
      assert ins[n] in ins && forall t :: t in ins[..n] ==> t in ins;
      if n > 0 || s.mode != Ready {
        OverrunsExactly(s, ins[..n], used, dist);
      } else {
        assert ins[..n] == [];
      }
      RunLockstep(s, ins[..n], used, dist);
      EventOverruns(Run(s, ins[..n], dist), ins[n].clock, ins[n].input, UsedIn(ins[..n], used), dist);
    }
  }

  // Every stop is published and can write its points.
  predicate AllStop(ins: seq<Timed>) {
    forall t :: t in ins && t.input.VehicleState? && ModeOf(t.input.state) != Ready ==>
      t.input.publishOk && t.input.insertOk
  }

  // Then no trip is timed while the vehicle is not ready.
  lemma {:induction false} StopsWhenWritten(s: AppState, ins: seq<Timed>, used: set<string>, dist: Recorders.Metric)
    requires Lockstep(s, used) && AllPossible(ins, used) && AllStop(ins) && !IsOverrun(s)
    ensures !IsOverrun(Run(s, ins, dist))
  {
    if ins != [] {
      var n := |ins| - 1;
      assert ins[n] in ins && forall t :: t in ins[..n] ==> t in ins;
      StopsWhenWritten(s, ins[..n], used, dist);
      RunLockstep(s, ins[..n], used, dist);
      var before := Run(s, ins[..n], dist);
      Served.ModeAfter(before, ins[n].clock, ins[n].input, UsedIn(ins[..n], used), dist);
      if Run(s, ins, dist).mode != Ready {
        EventOverruns(before, ins[n].clock, ins[n].input, UsedIn(ins[..n], used), dist);
      }
    }
  }

  // Startup times no trip of a vehicle that is not ready.
  lemma BootStops(counter: State, db: Db, events: seq<Recorders.Event>, found: Option<Trip>, c: Clock, b: Boot,
                  used: set<string>, dist: Recorders.Metric)
    requires RideRuns.Safe(db, events, used) && Recorders.Found(db, found)
    ensures !IsOverrun(Booted(counter, db, events, found, c, b, dist))
  {
    RideRuns.RecoverInStep(db, found, ModeOf(b.state), c.unix, used);
  }

  // While it lasts, every tick counts the pause into the trip; the counter, which is
  // not active, counts nothing.
  lemma OverrunIsCounted(s: AppState, c: Clock, insertOk: bool, used: set<string>, dist: Recorders.Metric)
    requires Lockstep(s, used) && c.unix > 0 && IsOverrun(s)
    ensures
      var t := Handle(s, c, Tick(insertOk), dist);
      && t.rec.current.Some?
      && t.rec.current.value.durationS == s.rec.current.value.durationS + Elapsed(s.rec.current.value, c.unix)
      && Shown(t.counter.row, c.unix) == s.counter.row.durationS
  {
    CallOnTrip(s, Recorders.Flush(insertOk), dist);
    CalledRecordable(s, Recorders.Flush(insertOk), used, dist);
    CallOnTrip(Called(s, Recorders.Flush(insertOk), dist), Recorders.Checkpoint(c.unix), dist);
  }

  // ----- it can happen -----

  const LATER := Clock(TRUSTED + 60, 0)

  const POINT := Point("", 0, Place(0.0, 0.0), 10.0, 0.0, 0)

  function Riding(dist: Recorders.Metric): AppState {
    Booted(State(FirstRow(Served.NOON, None), map[]), Db(map[], []), [], None, Served.NOON,
           Boot(Some(1000), [], "ready-to-drive", "a", "", true), dist)
  }

  lemma RidingState(dist: Recorders.Metric)
    ensures
      var s := Riding(dist);
      && Lockstep(s, {"a"}) && s.mode == Ready
      && s.rec == Recorders.Rec(Some(Recorders.NewTrip("a", "", 1000, TRUSTED)), None, [], 0.0)
  {
    BootLocksteps(State(FirstRow(Served.NOON, None), map[]), Db(map[], []), [], None, Served.NOON,
                  Boot(Some(1000), [], "ready-to-drive", "a", "", true), {}, dist);
    assert {} + {"a"} == {"a"};
  }

  function WithPoint(dist: Recorders.Metric): AppState { Handle(Riding(dist), Served.NOON, Gps(POINT, true), dist) }

  lemma PointWaits(dist: Recorders.Metric)
    ensures
      var s := WithPoint(dist);
      && Lockstep(s, {"a"}) && s.mode == Ready && s.rec.buffer != []
      && s.rec.current == Some(Recorders.NewTrip("a", "", 1000, TRUSTED))
  {
    RidingState(dist);
    HandleKeeps(Riding(dist), Served.NOON, Gps(POINT, true), {"a"}, dist);
    assert {"a"} + {} == {"a"};
  }

  const PARKING := VehicleState("parked", None, "b", "", false, true, true)

  lemma ParkingOverruns(s: AppState, dist: Recorders.Metric)
    requires Lockstep(s, {"a"}) && s.mode == Ready && s.rec.buffer != []
    requires s.rec.current == Some(Recorders.NewTrip("a", "", 1000, TRUSTED))
    ensures
      var t := Handle(s, Served.NOON, PARKING, dist);
      && Lockstep(t, {"a", "b"}) && IsOverrun(t) && t.rec.current == s.rec.current
  {
    EventOverruns(s, Served.NOON, PARKING, {"a"}, dist);
    HandleKeeps(s, Served.NOON, PARKING, {"a"}, dist);
    assert {"a"} + {"b"} == {"a", "b"};
    CallOnTrip(Noted(s, Served.NOON, PARKING.state, None), Recorders.Pause(TRUSTED, false), dist);
  }

  // A point waits in memory, the vehicle is parked while it cannot be written, and a
  // minute later a tick counts the minute that the counter does not.
  lemma OverrunIsReached(dist: Recorders.Metric)
    ensures
      var s := Run(Riding(dist), [Timed(Served.NOON, Gps(POINT, true)), Timed(Served.NOON, PARKING)], dist);
      var t := Handle(s, LATER, Tick(false), dist);
      && IsOverrun(s) && t.rec.current.Some? && t.rec.current.value.durationS == 60
      && Shown(t.counter.row, LATER.unix) == s.counter.row.durationS
  {
    var first, second := Timed(Served.NOON, Gps(POINT, true)), Timed(Served.NOON, PARKING);
    assert [first, second][..1] == [first] && [first][..0] == [];
    PointWaits(dist);
    ParkingOverruns(WithPoint(dist), dist);
    var s := Handle(WithPoint(dist), Served.NOON, PARKING, dist);
    assert Run(Riding(dist), [first], dist) == WithPoint(dist);
    assert Run(Riding(dist), [first, second], dist) == s;
    OverrunIsCounted(s, LATER, false, {"a", "b"}, dist);
  }

  // A lock whose counter cannot be published leaves the ride open, and timed.
  lemma UnheardLockKeepsRide(dist: Recorders.Metric)
    ensures
      var s := Handle(Riding(dist), LATER, VehicleState("stand-by", None, "b", "", true, true, false), dist);
      s.mode == Over && s.rec == Riding(dist).rec && IsOverrun(s)
  {
    RidingState(dist);
  }
}
