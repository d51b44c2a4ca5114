/** What a death can cost.  Ticks make durable what the counter and the open trip show,
so a restart falls short of what was shown by no more than the time since the last
tick. */
module Durable {
  import opened Prelude
  import opened Trips
  import opened Handlers
  import opened CounterModel
  import CounterRuns
  import Recorders
  import RideRuns
  import opened AppRuns

  // The clock can be trusted and does not go back.
  predicate Clocked(since: int, ins: seq<Timed>) {
    ins == [] ||
    (var n := |ins| - 1;
     Clocked(since, ins[..n]) && LastTime(since, ins[..n]) <= ins[n].clock.unix && Trustworthy(ins[n].clock))
  }

  function LastTime(since: int, ins: seq<Timed>): int { if ins == [] then since else ins[|ins| - 1].clock.unix }

  function LastTick(since: int, ins: seq<Timed>): int {
    if ins == [] then since
    else if ins[|ins| - 1].input.Tick? then ins[|ins| - 1].clock.unix
    else LastTick(since, ins[..|ins| - 1])
  }

  // The time a trip shows.
  function Ridden(t: Trip, now: int): int { t.durationS + Elapsed(t, now) }

  // ----- one tick -----

  // After a tick the counter's row holds what the counter showed.
  lemma TickStoresCounter(s: AppState, c: Clock, insertOk: bool, dist: Recorders.Metric)
    requires Consistent(s.counter.row)
    ensures
      var t := Handle(s, c, Tick(insertOk), dist).counter.row;
      && t.durationS == Shown(s.counter.row, c.unix) && t.distanceM == s.counter.row.distanceM
      && (Trustworthy(c) ==> Shown(t, c.unix) == t.durationS)
  {
    CounterHears(s, c, Tick(insertOk), dist);
  }

  // And the open trip's row what the trip showed.
  lemma TickStoresTrip(s: AppState, c: Clock, insertOk: bool, used: set<string>, dist: Recorders.Metric)
    requires Lockstep(s, used) && c.unix > 0 && s.rec.current.Some?
    ensures
      var t, id := Handle(s, c, Tick(insertOk), dist), s.rec.current.value.id;
      && IsOpen(t.db, id) && t.db.trips[id].durationS == Ridden(s.rec.current.value, c.unix)
      && Ridden(t.db.trips[id], c.unix) == t.db.trips[id].durationS
  {
    HandleKeeps(s, c, Tick(insertOk), used, dist);
    CallOnTrip(s, Recorders.Flush(insertOk), dist);
    CalledRecordable(s, Recorders.Flush(insertOk), used, dist);
    CallOnTrip(Called(s, Recorders.Flush(insertOk), dist), Recorders.Checkpoint(c.unix), dist);
  }

  // ----- the counter over a run -----

  predicate CountsSince(r: Row, from: int) { r.active && r.readyStartedAt != 0 ==> from <= r.readyStartedAt }

  lemma OpCounts(s: State, c: Clock, op: Op, from: int)
    requires CountsSince(s.row, from) && from <= c.unix && Trustworthy(c)
    ensures CountsSince(Apply(s, c, op).row, from)
    ensures op.Checkpoint? ==> CountsSince(Apply(s, c, op).row, c.unix)
  {
  }

  lemma {:induction false} RunCounts(s: AppState, ins: seq<Timed>, since: int, dist: Recorders.Metric)
    requires CountsSince(s.counter.row, since) && Clocked(since, ins)
    ensures LastTick(since, ins) <= LastTime(since, ins)
    ensures CountsSince(Run(s, ins, dist).counter.row, LastTick(since, ins))
  {
    if ins != [] {
      var n := |ins| - 1;
      RunCounts(s, ins[..n], since, dist);
      var before, c, i := Run(s, ins[..n], dist), ins[n].clock, ins[n].input;
      CounterHears(before, c, i, dist);
      if Heard(before, i).Some? {
        OpCounts(before.counter, c, Heard(before, i).value, LastTick(since, ins[..n]));
      }
    }
  }

  // The service dies at `now` and starts again, after any outage: unless the startup
  // opens a session that is due for a reset, the counter shows what it showed, less at
  // most the time since the last tick.
  lemma CounterLosesLittle(s: AppState, ins: seq<Timed>, since: int, now: int, used: set<string>, found: Option<Trip>,
                           c: Clock, b: Boot, dist: Recorders.Metric)
    requires Lockstep(s, used) && AllPossible(ins, used)
    requires CountsSince(s.counter.row, since) && Clocked(since, ins) && LastTime(since, ins) <= now
    requires BootSettings(b.settings) && (b.odometer.Some? ==> b.odometer.value >= 0)
    ensures
      var t := Run(s, ins, dist);
      var r := Booted(t.counter, t.db, t.events, found, c, b, dist).counter.row;
      r.generation == t.counter.row.generation ==>
        Shown(t.counter.row, now) - (now - LastTick(since, ins)) <= Shown(r, c.unix) <= Shown(t.counter.row, now)
  {
    var t := Run(s, ins, dist);
    RunLockstep(s, ins, used, dist);
    RunCounts(s, ins, since, dist);
    BootAddsNoTime(t.counter, t.db, t.events, found, c, b, dist);
  }

  // ----- the open trip over a run -----

  predicate RidesSince(r: Recorders.Rec, from: int) {
    r.current.Some? && r.current.value.activeStartedAt > 0 ==> from <= r.current.value.activeStartedAt
  }

  lemma StateRides(s: AppState, c: Clock, i: Input, used: set<string>, from: int, dist: Recorders.Metric)
    requires Lockstep(s, used) && Possible(c, i, used) && i.VehicleState?
    requires RidesSince(s.rec, from) && from <= c.unix
    ensures RidesSince(Handle(s, c, i, dist).rec, from)
  {
    var t := Noted(s, c, i.state, i.engine);
    NotedKeeps(s, c, i.state, i.engine, used);
    if i.publishOk {
      match ModeOf(i.state)
      case Ready =>
        if t.rec.current.Some? {
          CallOnTrip(t, Recorders.Resume(c.unix), dist);
        } else {
          StartedKeeps(t, c, i.id, i.profile, i.startOk, used, dist);
        }
      case Paused => CallOnTrip(t, Recorders.Pause(c.unix, i.insertOk), dist);
      case Over => EndOnTrip(t.rec, t.db, t.lastOdo, c.unix, i.insertOk);
    }
  }

  lemma EventRides(s: AppState, c: Clock, i: Input, used: set<string>, from: int, dist: Recorders.Metric)
    requires Lockstep(s, used) && Possible(c, i, used) && RidesSince(s.rec, from) && from <= c.unix
    ensures RidesSince(Handle(s, c, i, dist).rec, from)
    ensures i.Tick? ==> RidesSince(Handle(s, c, i, dist).rec, c.unix)
  {
    match i
    case VehicleState(_, _, _, _, _, _, _) => StateRides(s, c, i, used, from, dist);
    case OdometerUpdate(v, id, profile, startOk) =>
      if v >= 0 && s.pending && s.rec.current.None? {
        var t := Counted(s.(lastOdo := v, odoKnown := true, pending := false), c, Odometer(v));
        StartedKeeps(t, c, id, profile, startOk, used, dist);
      }
    case Tick(insertOk) =>
      CallOnTrip(s, Recorders.Flush(insertOk), dist);
      CalledRecordable(s, Recorders.Flush(insertOk), used, dist);
      CallOnTrip(Called(s, Recorders.Flush(insertOk), dist), Recorders.Checkpoint(c.unix), dist);
    case Gps(p, insertOk) => CallOnTrip(s, Recorders.Add(p.(odometer := s.lastOdo), insertOk), dist);
    case CounterCall(op) =>
  }

  lemma {:induction false} RunRides(s: AppState, ins: seq<Timed>, used: set<string>, since: int, dist: Recorders.Metric)
    requires Lockstep(s, used) && AllPossible(ins, used) && RidesSince(s.rec, since) && Clocked(since, ins)
    ensures LastTick(since, ins) <= LastTime(since, ins)
    ensures RidesSince(Run(s, ins, dist).rec, LastTick(since, ins))
  {
    if ins != [] {
      var n := |ins| - 1;
      RunRides(s, ins[..n], used, since, dist);
      RunLockstep(s, ins[..n], used, dist);
      EventRides(Run(s, ins[..n], dist), ins[n].clock, ins[n].input, UsedIn(ins[..n], used),
                 LastTick(since, ins[..n]), dist);
    }
  }

  // The same of the open trip: the row that a restart takes up shows what the trip
  // showed, less at most the time since the last tick.
  lemma TripLosesLittle(s: AppState, ins: seq<Timed>, since: int, now: int, used: set<string>, found: Option<Trip>,
                        c: Clock, b: Boot, dist: Recorders.Metric)
    requires Lockstep(s, used) && AllPossible(ins, used) && RidesSince(s.rec, since) && Clocked(since, ins)
    requires LastTime(since, ins) <= now && Run(s, ins, dist).rec.current.Some?
    requires Recorders.Found(Run(s, ins, dist).db, found) && ModeOf(b.state) != Over
    ensures
      var t := Run(s, ins, dist);
      var r := Booted(t.counter, t.db, t.events, found, c, b, dist).rec.current;
      && r.Some? && r.value.id == t.rec.current.value.id
      && Ridden(t.rec.current.value, now) - (now - LastTick(since, ins)) <= Ridden(r.value, c.unix)
           <= Ridden(t.rec.current.value, now)
  {
    var t := Run(s, ins, dist);
    RunLockstep(s, ins, used, dist);
    RunRides(s, ins, used, since, dist);
    FoundIsOpen(t, UsedIn(ins, used), found);
    RideRuns.RecoverInStep(t.db, found, ModeOf(b.state), c.unix, UsedIn(ins, used));
  }

  // Recovery finds the open trip, as it stands in the process.
  lemma FoundIsOpen(s: AppState, used: set<string>, found: Option<Trip>)
    requires Lockstep(s, used) && s.rec.current.Some? && Recorders.Found(s.db, found)
    ensures found == s.rec.current
  {
    var id := s.rec.current.value.id;
    assert IsOpen(s.db, id);
    if found.Some? {
      assert IsOpen(s.db, found.value.id);
    }
  }

  // ----- points -----

  // A tick that can write leaves no point of the ride in memory only.
  lemma TickStoresPoints(s: AppState, c: Clock, used: set<string>, dist: Recorders.Metric)
    requires Lockstep(s, used) && c.unix > 0 && s.rec.current.Some?
    ensures
      var t, id := Handle(s, c, Tick(true), dist), s.rec.current.value.id;
      && t.rec.buffer == [] && PointsOf(t.db.points, id) == PointsOf(s.db.points, id) + s.rec.buffer
  {
    var id := s.rec.current.value.id;
    var t := Called(s, Recorders.Flush(true), dist);
    FlushWrites(s.rec, s.db);
    CallOnTrip(s, Recorders.Flush(true), dist);
    CalledRecordable(s, Recorders.Flush(true), used, dist);
    CheckpointLeaves(t.rec, t.db, c.unix);
  }

  lemma FlushWrites(r: Recorders.Rec, db: Db)
    requires RideRuns.InStep(r, db) && r.current.Some?
    ensures
      var plan, id := Recorders.FlushPlan(r, true), r.current.value.id;
      && plan.rec == r.(buffer := []) && ExecAll(db, plan.statements).trips == db.trips
      && PointsOf(ExecAll(db, plan.statements).points, id) == PointsOf(db.points, id) + r.buffer
  {
    var id := r.current.value.id;
    RideRuns.OneStatement(InsertPoints(r.buffer), db, {});
    RideRuns.FlushMoves(db, r.buffer, id);
    assert PointsOf(db.points, id) + [] == PointsOf(db.points, id);
  }

  lemma CheckpointLeaves(r: Recorders.Rec, db: Db, now: int)
    ensures
      var plan := Recorders.CheckpointPlan(r, db, now);
      plan.rec.buffer == r.buffer && ExecAll(db, plan.statements).points == db.points
  {
    if r.current.Some? {
      RideRuns.OneStatement(CheckpointInterval(r.current.value.id, now), db, {});
    }
  }

  // Positions since the last tick that could write.
  function Unwritten(ins: seq<Timed>): nat {
    if ins == [] then 0
    else
      match ins[|ins| - 1].input
      case Tick(insertOk) => if insertOk then 0 else Unwritten(ins[..|ins| - 1])
      case Gps(_, _) => Unwritten(ins[..|ins| - 1]) + 1
      case _ => Unwritten(ins[..|ins| - 1])
  }

  lemma EventBuffers(s: AppState, c: Clock, i: Input, used: set<string>, dist: Recorders.Metric)
    requires Lockstep(s, used) && Possible(c, i, used)
    ensures
      var waiting := |Handle(s, c, i, dist).rec.buffer|;
      waiting <= if i.Gps? then |s.rec.buffer| + 1 else if i.Tick? && i.tinsertOk then 0 else |s.rec.buffer|
  {
    match i
    case Tick(insertOk) =>
      var t := Called(s, Recorders.Flush(insertOk), dist);
      CheckpointLeaves(t.rec, t.db, c.unix);
    case VehicleState(_, _, _, _, _, _, _) => StateBuffers(s, c, i, used, dist);
    case _ =>
  }

  lemma StateBuffers(s: AppState, c: Clock, i: Input, used: set<string>, dist: Recorders.Metric)
    requires Lockstep(s, used) && Possible(c, i, used) && i.VehicleState?
    ensures |Handle(s, c, i, dist).rec.buffer| <= |s.rec.buffer|
  {
    var t := Noted(s, c, i.state, i.engine);
    NotedKeeps(s, c, i.state, i.engine, used);
    PauseBuffers(t.rec, t.db, c.unix, i.insertOk);
    EndBuffers(t.rec, t.db, t.lastOdo, c.unix, i.insertOk);
    ResumeBuffers(t.rec, t.db, c.unix);
  }

  lemma PauseBuffers(r: Recorders.Rec, db: Db, now: int, insertOk: bool)
    ensures |Recorders.PausePlan(r, db, now, insertOk).rec.buffer| <= |r.buffer|
  {
  }

  lemma ResumeBuffers(r: Recorders.Rec, db: Db, now: int)
    ensures |Recorders.ResumePlan(r, db, now).rec.buffer| <= |r.buffer|
  {
  }

  lemma EndBuffers(r: Recorders.Rec, db: Db, odometer: int, now: int, insertOk: bool)
    ensures |Recorders.EndPlan(r, db, odometer, now, insertOk).rec.buffer| <= |r.buffer|
  {
  }

  // A death costs no more points than there were positions since the last tick that
  // could write.
  lemma {:induction false} PointsLoseLittle(s: AppState, ins: seq<Timed>, used: set<string>, dist: Recorders.Metric)
    requires Lockstep(s, used) && AllPossible(ins, used) && s.rec.buffer == []
    ensures |Run(s, ins, dist).rec.buffer| <= Unwritten(ins)
  {
    if ins != [] {
      var n := |ins| - 1;
      PointsLoseLittle(s, ins[..n], used, dist);
      RunLockstep(s, ins[..n], used, dist);
      EventBuffers(Run(s, ins[..n], dist), ins[n].clock, ins[n].input, UsedIn(ins[..n], used), dist);
    }
  }
}
