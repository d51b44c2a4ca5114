/** The maximum speed of a ride: that of the points taken since the ride was started or
last taken up by a restart. */
module TopSpeed {
  import opened Prelude
  import opened Trips
  import opened Recorders
  import opened RideRuns

  function Fastest(marks: seq<Mark>): real {
    if marks == [] then 0.0
    else
      var top, speed := Fastest(marks[..|marks| - 1]), marks[|marks| - 1].point.speed;
      if speed > top then speed else top
  }

  lemma {:induction false} FastestIsGreatest(marks: seq<Mark>)
    ensures forall m :: m in marks ==> m.point.speed <= Fastest(marks)
    ensures Fastest(marks) == 0.0 || exists m :: m in marks && m.point.speed == Fastest(marks)
  {
    if marks != [] {
      FastestIsGreatest(marks[..|marks| - 1]);
      assert marks[|marks| - 1] in marks;
      assert forall m :: m in marks[..|marks| - 1] ==> m in marks;
    }
  }

  // An open row has no maximum speed yet.
  ghost predicate Unmeasured(db: Db) { forall id :: IsOpen(db, id) ==> db.trips[id].maxSpeed == 0.0 }

  predicate InsertsUnmeasured(s: Statement) { s.InsertTrip? ==> s.trip.maxSpeed == 0.0 }

  lemma {:induction false} StaysUnmeasured(db: Db, ss: seq<Statement>)
    requires Unmeasured(db) && forall s :: s in ss ==> InsertsUnmeasured(s)
    ensures Unmeasured(ExecAll(db, ss))
  {
    if ss != [] {
      var n := |ss| - 1;
      assert ss[n] in ss && forall s :: s in ss[..n] ==> s in ss;
      StaysUnmeasured(db, ss[..n]);
      var before := ExecAll(db, ss[..n]);
      forall id | IsOpen(Exec(before, ss[n]), id) ensures Exec(before, ss[n]).trips[id].maxSpeed == 0.0 {
        assert IsOpen(before, id) || ss[n].InsertTrip?;
      }
    }
  }

  lemma PlanUnmeasured(r: Rec, db: Db, call: Call, dist: Metric)
    ensures forall s :: s in PlanOf(r, db, call, dist).statements ==> InsertsUnmeasured(s)
  {
    match call
    case Pause(now, insertOk) => PauseUnmeasured(r, db, now, insertOk);
    case End(odometer, now, insertOk) => EndUnmeasured(r, db, odometer, now, insertOk);
    case _ =>
  }

  lemma PauseUnmeasured(r: Rec, db: Db, now: int, insertOk: bool)
    ensures forall s :: s in PausePlan(r, db, now, insertOk).statements ==> InsertsUnmeasured(s)
  {
  }

  lemma EndUnmeasured(r: Rec, db: Db, odometer: int, now: int, insertOk: bool)
    ensures forall s :: s in EndPlan(r, db, odometer, now, insertOk).statements ==> InsertsUnmeasured(s)
  {
    if r.current.Some? {
      CompletionUnmeasured(ExecAll(db, FlushFirst(r)), r.current.value.id, odometer, r.maxSpeed, now);
    }
  }

  lemma CompletionUnmeasured(db: Db, id: string, odometer: int, maxSpeed: real, now: int)
    ensures forall s :: s in Completion(db, id, odometer, maxSpeed, now) ==> InsertsUnmeasured(s)
  {
  }

  predicate Measures(w: World) {
    w.rec.Some? && w.rec.value.current.Some? ==> w.rec.value.maxSpeed == Fastest(w.accepted)
  }

  lemma AddMeasures(w: World, p: Point, insertOk: bool, dist: Metric)
    requires Measures(w) && Legal(w, Do(Add(p, insertOk)), dist)
    ensures Measures(NextWorld(w, Do(Add(p, insertOk)), dist))
  {
    if Accepts(w.rec.value, p, dist) {
      var marks := w.accepted + [Mark(Tagged(w.rec.value, p), w.interval)];
      assert marks[..|w.accepted|] == w.accepted;
    }
  }

  // The other calls neither take points nor change the speed kept.
  lemma SpeedKept(r: Rec, db: Db, call: Call, dist: Metric)
    requires !call.Start? && !call.Add?
    ensures
      var s := PlanOf(r, db, call, dist).rec;
      s.maxSpeed == r.maxSpeed && (s.current.Some? ==> r.current.Some?)
  {
    match call
    case End(odometer, now, insertOk) => EndSpeed(r, db, odometer, now, insertOk);
    case Pause(now, insertOk) => PauseSpeed(r, db, now, insertOk);
    case _ =>
  }

  lemma PauseSpeed(r: Rec, db: Db, now: int, insertOk: bool)
    ensures
      var s := PausePlan(r, db, now, insertOk).rec;
      s.maxSpeed == r.maxSpeed && (s.current.Some? ==> r.current.Some?)
  {
  }

  lemma DoMeasures(w: World, call: Call, dist: Metric)
    requires Sound(w) && Measures(w) && Legal(w, Do(call), dist)
    ensures Measures(NextWorld(w, Do(call), dist))
  {
    match call
    case Add(p, insertOk) => AddMeasures(w, p, insertOk, dist);
    case Start(_, _, _, _, _) =>
    case _ => SpeedKept(w.rec.value, w.db, call, dist);
  }

  lemma EndSpeed(r: Rec, db: Db, odometer: int, now: int, insertOk: bool)
    ensures EndPlan(r, db, odometer, now, insertOk).rec.maxSpeed == r.maxSpeed
    ensures EndPlan(r, db, odometer, now, insertOk).rec.current.Some? ==> r.current.Some?
  {
  }

  lemma ScriptUnmeasured(t: Trip, mode: Mode, now: int)
    ensures forall s :: s in RecoverScript(t, mode, now) ==> InsertsUnmeasured(s)
  {
  }

  lemma RecoverSpeed(db: Db, t: Trip, mode: Mode, now: int)
    requires IsOpen(db, t.id) && db.trips[t.id] == t && t.maxSpeed == 0.0
    ensures
      var plan := RecoverPlan(IDLE, db, Some(t), mode, now);
      plan.statements == RecoverScript(t, mode, now) && (plan.rec.current.Some? ==> plan.rec.maxSpeed == 0.0)
  {
    RecoverWrites(db, t, mode, now, {});
    RecoveredPlan(t, mode, now, RecoverScript(t, mode, now), ExecAll(db, RecoverScript(t, mode, now)));
  }

  // A restart forgets the speeds measured before it.
  lemma RestartForgets(w: World, mode: Mode, now: int, found: Option<Trip>, dist: Metric)
    requires Sound(w) && Unmeasured(w.db) && Legal(w, Restart(mode, now, found), dist)
    ensures
      var r := NextWorld(w, Restart(mode, now, found), dist).rec.value;
      r.current.Some? ==> r.maxSpeed == 0.0
    ensures Unmeasured(NextWorld(w, Restart(mode, now, found), dist).db)
  {
    if found.Some? {
      assert IsOpen(w.db, found.value.id);
      RecoverSpeed(w.db, found.value, mode, now);
      ScriptUnmeasured(found.value, mode, now);
    }
    StaysUnmeasured(w.db, RecoverPlan(IDLE, w.db, found, mode, now).statements);
  }

  lemma StepMeasures(w: World, step: Step, dist: Metric)
    requires Sound(w) && Unmeasured(w.db) && Measures(w) && Legal(w, step, dist)
    ensures Unmeasured(NextWorld(w, step, dist).db) && Measures(NextWorld(w, step, dist))
  {
    match step
    case Do(call) =>
      DoMeasures(w, call, dist);
      PlanUnmeasured(w.rec.value, w.db, call, dist);
      StaysUnmeasured(w.db, PlanOf(w.rec.value, w.db, call, dist).statements);
    case Die(call, k) =>
      PlanUnmeasured(w.rec.value, w.db, call, dist);
      StaysUnmeasured(w.db, PlanOf(w.rec.value, w.db, call, dist).statements[..k]);
    case Restart(mode, now, found) => RestartForgets(w, mode, now, found, dist);
    case DieRestarting(mode, now, found, k) =>
      if found.Some? {
        assert IsOpen(w.db, found.value.id);
        RecoverSpeed(w.db, found.value, mode, now);
        ScriptUnmeasured(found.value, mode, now);
      }
      StaysUnmeasured(w.db, RecoverPlan(IDLE, w.db, found, mode, now).statements[..k]);
    case Expunge(id) => StaysUnmeasured(w.db, [Delete(id)]); OneStatement(Delete(id), w.db, w.used);
  }

  lemma {:induction false} RunMeasures(steps: seq<Step>, dist: Metric)
    requires LegalRun(steps, dist)
    ensures Unmeasured(RunWorld(steps, dist).db) && Measures(RunWorld(steps, dist))
  {
    if steps != [] {
      RunMeasures(steps[..|steps| - 1], dist);
      RunSound(steps[..|steps| - 1], dist);
      StepMeasures(RunWorld(steps[..|steps| - 1], dist), steps[|steps| - 1], dist);
    }
  }

  // A completed ride's maximum speed is the fastest of the points taken since it was
  // started or last taken up; so it is that of all its points if and only if no point
  // from before the last restart is faster.
  lemma CompletedTopSpeed(steps: seq<Step>, dist: Metric, odometer: int, now: int, insertOk: bool)
    requires LegalRun(steps, dist) && RunWorld(steps, dist).rec.Some? && RunWorld(steps, dist).rec.value.current.Some?
    ensures
      var w := RunWorld(steps, dist);
      var id := w.rec.value.current.value.id;
      var after := NextWorld(w, Do(End(odometer, now, insertOk)), dist);
      id in after.db.trips && after.db.trips[id].status == Completed ==>
        && after.db.trips[id].maxSpeed == Fastest(w.accepted)
        && ((forall p :: p in PointsOf(after.db.points, id) ==> p.speed <= after.db.trips[id].maxSpeed)
            <==> forall p :: p in w.base ==> p.speed <= Fastest(w.accepted))
  {
    RunMeasures(steps, dist);
    RunSound(steps, dist);
    EndedRidePoints(steps, dist, odometer, now, insertOk);
    var w := RunWorld(steps, dist);
    EndInStep(w.rec.value, w.db, odometer, now, insertOk, w.used);
    FastestIsGreatest(w.accepted);
    PointsInMarks(w.accepted);
  }

  lemma {:induction false} PointsInMarks(marks: seq<Mark>)
    ensures forall p :: p in PointsIn(marks) <==> exists m :: m in marks && m.point == p
  {
    if marks != [] {
      PointsInMarks(marks[..|marks| - 1]);
      assert forall m :: m in marks <==> m in marks[..|marks| - 1] || m == marks[|marks| - 1];
    }
  }
}
