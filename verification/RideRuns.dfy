/** Whole lives of the trip recorder: calls, crashes between SQL statements,
restarts, and retention deleting closed rows. */
module RideRuns {
  import opened Prelude
  import opened Trips
  import opened Recorders

  // A point accepted since this process took up the trip, and the ready interval in
  // which it was accepted.
  datatype Mark = Mark(point: Point, interval: nat)

  // rec is absent while the process is down.  The last fields only keep books:
  // ids ever given out, points of the open trip found stored at restart, points
  // accepted since, and whether every insert so far committed.
  datatype World = World(db: Db, rec: Option<Rec>, events: seq<Event>,
                         used: set<string>, base: seq<Point>, accepted: seq<Mark>, healthy: bool,
                         interval: nat)

  datatype Step =
    | Do(call: Call)
    | Die(call: Call, k: nat)
    | Restart(mode: Mode, now: int, found: Option<Trip>)
    | DieRestarting(mode: Mode, now: int, found: Option<Trip>, k: nat)
    | Expunge(id: string)

  const FIRST := World(Db(map[], []), None, [], {}, [], [], true, 0)

  // New ids are never reused, recovery finds what is there, retention leaves the
  // open row alone.
  predicate Legal(w: World, step: Step, dist: Metric) {
    match step
    case Do(call) => w.rec.Some? && (call.Start? ==> call.id !in w.used)
    case Die(call, k) =>
      && w.rec.Some? && (call.Start? ==> call.id !in w.used)
      && k <= |PlanOf(w.rec.value, w.db, call, dist).statements|
    case Restart(_, _, found) => w.rec.None? && Found(w.db, found)
    case DieRestarting(mode, now, found, k) =>
      && w.rec.None? && Found(w.db, found)
      && k <= |RecoverPlan(IDLE, w.db, found, mode, now).statements|
    case Expunge(id) => id in w.db.trips && w.db.trips[id].status != Recording
  }

  function InsertOk(call: Call): bool {
    match call
    case Pause(_, ok) => ok
    case End(_, _, ok) => ok
    case Add(_, ok) => ok
    case Flush(ok) => ok
    case _ => true
  }

  // The call starts a trip.
  predicate Begins(w: World, call: Call)
    requires w.rec.Some?
  {
    call.Start? && w.rec.value.current.None? && call.id !in w.db.trips && call.insertOk
  }

  // A ready interval of the ride begins when a trip is started, when a trip that is
  // not being timed is resumed, and when a restart takes one up.
  function IntervalAfter(w: World, call: Call): nat
    requires w.rec.Some?
  {
    var r := w.rec.value;
    if Begins(w, call) || (call.Resume? && r.current.Some? && r.current.value.activeStartedAt <= 0) then w.interval + 1
    else w.interval
  }

  function AcceptedAfter(w: World, call: Call, dist: Metric): seq<Mark>
    requires w.rec.Some?
  {
    var r := w.rec.value;
    match call
    case Start(_, _, _, _, _) => if Begins(w, call) then [] else w.accepted
    case Add(p, _) =>
      if Accepts(r, p, dist) then w.accepted + [Mark(Tagged(r, p), w.interval)] else w.accepted
    case _ => w.accepted
  }

  function NextWorld(w: World, step: Step, dist: Metric): World
    requires Legal(w, step, dist)
  {
    match step
    case Do(call) =>
      var plan := PlanOf(w.rec.value, w.db, call, dist);
      World(ExecAll(w.db, plan.statements), Some(plan.rec), w.events + plan.events, UsedAfter(plan.statements, w.used),
            if Begins(w, call) then [] else w.base,
            AcceptedAfter(w, call, dist), w.healthy && InsertOk(call), IntervalAfter(w, call))
    case Die(call, k) =>
      var ss := PlanOf(w.rec.value, w.db, call, dist).statements[..k];
      w.(db := ExecAll(w.db, ss), rec := None, used := UsedAfter(ss, w.used))
    case Restart(mode, now, found) =>
      var plan := RecoverPlan(IDLE, w.db, found, mode, now);
      var db := ExecAll(w.db, plan.statements);
      var current := plan.rec.current;
      w.(db := db, rec := Some(plan.rec), accepted := [], interval := w.interval + 1,
         base := if current.Some? then PointsOf(db.points, current.value.id) else [])
    case DieRestarting(mode, now, found, k) =>
      w.(db := ExecAll(w.db, RecoverPlan(IDLE, w.db, found, mode, now).statements[..k]))
    case Expunge(id) => w.(db := Exec(w.db, Delete(id)))
  }

  // ----- what the database keeps -----

  ghost predicate OneOpen(db: Db) { forall a, b :: IsOpen(db, a) && IsOpen(db, b) ==> a == b }

  predicate Owned(db: Db) { forall p :: p in db.points ==> p.trip in db.trips }

  predicate Once(events: seq<Event>) {
    events == [] ||
    (var n := |events| - 1; Once(events[..n]) && forall e :: e in events[..n] ==> e.id != events[n].id)
  }

  // A published completion: of a known id, of a real ride, and the row, while it
  // is kept, says the same.
  predicate Genuine(e: Event, db: Db, used: set<string>) {
    && e.id in used && e.distanceM >= MIN_TRIP_DISTANCE
    && (e.id in db.trips ==>
          var t := db.trips[e.id];
          t.status == Completed && t.distanceM == e.distanceM == t.endOdometer - t.startOdometer
          && t.durationS == e.durationS && t.profile == e.profile)
  }

  ghost predicate Safe(db: Db, events: seq<Event>, used: set<string>) {
    && Keyed(db.trips) && OneOpen(db) && Owned(db)
    && db.trips.Keys <= used
    && Once(events)
    && forall e :: e in events ==> Genuine(e, db, used)
  }

  function UsedAfter(ss: seq<Statement>, used: set<string>): set<string> {
    if ss == [] then used
    else
      UsedAfter(ss[..|ss| - 1], used) + if ss[|ss| - 1].InsertTrip? then {ss[|ss| - 1].trip.id} else {}
  }

  ghost predicate Allowed(db: Db, s: Statement, used: set<string>) {
    match s
    case InsertTrip(t) => t.id !in used && t.status == Recording && forall id :: !IsOpen(db, id)
    case InsertPoints(ps) => forall p :: p in ps ==> p.trip in db.trips
    case Finish(id, _, _, _, _, _) => IsOpen(db, id)
    case Abandon(id) => IsOpen(db, id)
    case _ => true
  }

  lemma StatementSafe(db: Db, s: Statement, events: seq<Event>, used: set<string>)
    requires Safe(db, events, used) && Allowed(db, s, used)
    ensures Safe(Exec(db, s), events, used + if s.InsertTrip? then {s.trip.id} else {})
  {
    if s.Delete? {
      DeletionSafe(db, s.id, events, used);
    } else {
      var after := Exec(db, s);
      forall a, b | IsOpen(after, a) && IsOpen(after, b) ensures a == b {
        assert IsOpen(db, a) || (s.InsertTrip? && a == s.trip.id);
        assert IsOpen(db, b) || (s.InsertTrip? && b == s.trip.id);
      }
    }
  }

  ghost predicate AllAllowed(db: Db, ss: seq<Statement>, used: set<string>) {
    ss == [] ||
    (var n := |ss| - 1;
     AllAllowed(db, ss[..n], used) && Allowed(ExecAll(db, ss[..n]), ss[n], UsedAfter(ss[..n], used)))
  }

  // Every prefix of an allowed script leaves the database safe: a crash between
  // any two statements does no harm.
  lemma {:induction false} PrefixSafe(db: Db, ss: seq<Statement>, k: nat, events: seq<Event>, used: set<string>)
    requires Safe(db, events, used) && AllAllowed(db, ss, used) && k <= |ss|
    ensures Safe(ExecAll(db, ss[..k]), events, UsedAfter(ss[..k], used))
    decreases |ss|
  {
    if k < |ss| {
      PrefixSafe(db, ss[..|ss| - 1], k, events, used);
      assert ss[..|ss| - 1][..k] == ss[..k];
    } else if k > 0 {
      PrefixSafe(db, ss[..k - 1], k - 1, events, used);
      assert ss[..k] == ss && ss[..k - 1][..k - 1] == ss[..k - 1];
      StatementSafe(ExecAll(db, ss[..k - 1]), ss[k - 1], events, UsedAfter(ss[..k - 1], used));
    }
  }

  // ----- what the process keeps -----

  ghost predicate InStep(r: Rec, db: Db) {
    if r.current.Some? then
      var t := r.current.value;
      && IsOpen(db, t.id) && db.trips[t.id] == t
      && forall p :: p in r.buffer ==> p.trip == t.id
    else r.buffer == [] && forall id :: !IsOpen(db, id)
  }

  // Once the open row is gone or closed, none is open.
  lemma NoneLeftOpen(db: Db, after: Db, id: string)
    requires OneOpen(db) && IsOpen(db, id) && !IsOpen(after, id)
    requires forall x :: x in after.trips && x != id ==> x in db.trips && after.trips[x] == db.trips[x]
    ensures forall x :: !IsOpen(after, x)
  {
    forall x ensures !IsOpen(after, x) {
      if IsOpen(after, x) {
        assert IsOpen(db, x);
      }
    }
  }

  lemma DeletionSafe(db: Db, id: string, events: seq<Event>, used: set<string>)
    requires Safe(db, events, used)
    ensures Safe(Exec(db, Delete(id)), events, used)
    ensures forall x :: IsOpen(Exec(db, Delete(id)), x) <==> IsOpen(db, x) && x != id
  {
    WithoutMembers(db.points, id);
    var after := Exec(db, Delete(id));
    forall a, b | IsOpen(after, a) && IsOpen(after, b) ensures a == b {
      assert IsOpen(db, a) && IsOpen(db, b);
    }
    forall p | p in after.points ensures p.trip in after.trips {
      assert p in db.points;
    }
  }

  lemma OneStatement(s: Statement, db: Db, used: set<string>)
    ensures ExecAll(db, [s]) == Exec(db, s)
    ensures AllAllowed(db, [s], used) <==> Allowed(db, s, used)
  {
    ExecOne(db, [], s);
    assert [] + [s] == [s] && [s][..0] == [];
    assert UsedAfter([], used) == used;
  }

  lemma AllowedMore(db: Db, ss: seq<Statement>, s: Statement, used: set<string>)
    requires AllAllowed(db, ss, used) && Allowed(ExecAll(db, ss), s, UsedAfter(ss, used))
    ensures AllAllowed(db, ss + [s], used) && ExecAll(db, ss + [s]) == Exec(ExecAll(db, ss), s)
    ensures !s.InsertTrip? ==> UsedAfter(ss + [s], used) == UsedAfter(ss, used)
  {
    ExecOne(db, ss, s);
    assert (ss + [s])[..|ss|] == ss;
  }

  lemma FlushFirstAllowed(r: Rec, db: Db, used: set<string>)
    requires InStep(r, db) && r.current.Some?
    ensures AllAllowed(db, FlushFirst(r), used) && UsedAfter(FlushFirst(r), used) == used
    ensures ExecAll(db, FlushFirst(r)) == Db(db.trips, db.points + r.buffer)
  {
    if r.buffer == [] {
      assert db.points + [] == db.points;
    } else {
      OneStatement(InsertPoints(r.buffer), db, used);
      assert [InsertPoints(r.buffer)][..0] == [];
    }
  }

  // A pause that takes effect writes the buffer, then counts and closes the interval.
  lemma {:induction false} PauseWrites(r: Rec, db: Db, now: int, insertOk: bool, used: set<string>)
    requires InStep(r, db) && Timing(r) && (r.buffer == [] || insertOk)
    ensures
      var plan := PausePlan(r, db, now, insertOk);
      var t := r.current.value;
      var row := t.(durationS := t.durationS + Elapsed(t, now), activeStartedAt := 0);
      && AllAllowed(db, plan.statements, used) && plan.events == []
      && plan.rec == Rec(Some(row), None, [], r.maxSpeed)
      && ExecAll(db, plan.statements) == Db(db.trips[t.id := row], db.points + r.buffer)
  {
    var id := r.current.value.id;
    FlushFirstAllowed(r, db, used);
    AllowedMore(db, FlushFirst(r), CloseInterval(id, now), used);
    assert IsOpen(ExecAll(db, FlushFirst(r)), id);
  }

  lemma IntervalWrites(r: Rec, db: Db, call: Call, dist: Metric, used: set<string>)
    requires InStep(r, db) && (call.Resume? || call.Checkpoint?) && r.current.Some?
    ensures
      var plan := PlanOf(r, db, call, dist);
      AllAllowed(db, plan.statements, used) && plan.events == [] && InStep(plan.rec, ExecAll(db, plan.statements))
  {
    var id := r.current.value.id;
    var s := if call.Resume? then OpenInterval(id, call.now) else CheckpointInterval(id, call.now);
    OneStatement(s, db, used);
  }

  lemma AddWrites(r: Rec, db: Db, p: Point, insertOk: bool, dist: Metric, used: set<string>)
    requires InStep(r, db)
    ensures
      var plan := AddPlan(r, p, insertOk, dist);
      AllAllowed(db, plan.statements, used) && plan.events == [] && InStep(plan.rec, ExecAll(db, plan.statements))
  {
    if Accepts(r, p, dist) {
      OneStatement(InsertPoints(r.buffer + [Tagged(r, p)]), db, used);
    }
  }

  lemma {:induction false} CallInStep(r: Rec, db: Db, call: Call, dist: Metric, used: set<string>)
    requires InStep(r, db) && Keyed(db.trips) && OneOpen(db) && db.trips.Keys <= used
    requires !call.End? && (call.Start? ==> call.id !in used)
    ensures
      var plan := PlanOf(r, db, call, dist);
      && AllAllowed(db, plan.statements, used) && plan.events == []
      && InStep(plan.rec, ExecAll(db, plan.statements))
  {
    match call
    case Start(id, profile, odometer, now, insertOk) =>
      OneStatement(InsertTrip(NewTrip(id, profile, odometer, now)), db, used);
    case Pause(now, insertOk) =>
      if Timing(r) && (r.buffer == [] || insertOk) {
        PauseWrites(r, db, now, insertOk, used);
      }
    case Add(p, insertOk) => AddWrites(r, db, p, insertOk, dist, used);
    case Flush(insertOk) => OneStatement(InsertPoints(r.buffer), db, used);
    case _ =>
      if r.current.Some? {
        IntervalWrites(r, db, call, dist, used);
      }
  }

  // Ending a ride: either nothing happens, or the row is dropped without an
  // event, or it is completed with its points and published once.
  lemma {:induction false} EndInStep(r: Rec, db: Db, odometer: int, now: int, insertOk: bool, used: set<string>)
    requires InStep(r, db) && Keyed(db.trips) && OneOpen(db) && db.trips.Keys <= used && r.current.Some?
    ensures
      var plan := EndPlan(r, db, odometer, now, insertOk);
      var id, distance := r.current.value.id, odometer - r.current.value.startOdometer;
      var after := ExecAll(db, plan.statements);
      && AllAllowed(db, plan.statements, used) && UsedAfter(plan.statements, used) == used
      && InStep(plan.rec, after)
      && (if distance < MIN_TRIP_DISTANCE then
            && plan.events == [] && plan.rec.current.None?
            && id !in after.trips && after.points == WithoutTrip(db.points, id)
          else if r.buffer != [] && !insertOk then plan == Stay(r)
          else
            && plan.rec.current.None? && id in after.trips && after.points == db.points + r.buffer
            && after.trips == db.trips[id := after.trips[id]]
            && (var t := after.trips[id];
                && t == r.current.value.(status := Completed, activeStartedAt := 0, endedAt := now,
                                         durationS := r.current.value.durationS + Elapsed(r.current.value, now),
                                         endOdometer := odometer, distanceM := distance, maxSpeed := r.maxSpeed)
                && plan.events == [TripCompleted(id, t.profile, t.distanceM, t.durationS)]))
  {
    var id := r.current.value.id;
    if odometer - r.current.value.startOdometer < MIN_TRIP_DISTANCE {
      OneStatement(Delete(id), db, used);
      assert [Delete(id)][..0] == [];
      NoneLeftOpen(db, Exec(db, Delete(id)), id);
    } else if r.buffer == [] || insertOk {
      EndCompletes(r, db, odometer, now, used);
      NoneLeftOpen(db, ExecAll(db, EndPlan(r, db, odometer, now, insertOk).statements), id);
    }
  }

  lemma EndCompletes(r: Rec, db: Db, odometer: int, now: int, used: set<string>)
    requires InStep(r, db) && Keyed(db.trips) && OneOpen(db) && db.trips.Keys <= used && r.current.Some?
    ensures
      var id, first := r.current.value.id, FlushFirst(r);
      var middle := ExecAll(db, first);
      var ss := first + Completion(middle, id, odometer, r.maxSpeed, now);
      var row := r.current.value.(status := Completed, activeStartedAt := 0, endedAt := now,
                                  durationS := r.current.value.durationS + Elapsed(r.current.value, now),
                                  endOdometer := odometer, maxSpeed := r.maxSpeed,
                                  distanceM := Max(0, odometer - r.current.value.startOdometer));
      && AllAllowed(db, ss, used) && UsedAfter(ss, used) == used
      && ExecAll(db, ss) == Db(db.trips[id := row], db.points + r.buffer)
  {
    var id, first := r.current.value.id, FlushFirst(r);
    FlushFirstAllowed(r, db, used);
    var middle := ExecAll(db, first);
    var close := CloseInterval(id, now);
    var t := Exec(middle, close).trips[id];
    var finish := Finish(id, now, odometer, Max(0, odometer - t.startOdometer), t.durationS, r.maxSpeed);
    assert Completion(middle, id, odometer, r.maxSpeed, now) == [close, finish];
    AllowedTwoMore(db, first, close, finish, used);
  }

  // What ending a ride publishes.
  lemma {:induction false} EndEvents(r: Rec, db: Db, odometer: int, now: int, insertOk: bool, used: set<string>)
    requires InStep(r, db) && Keyed(db.trips) && OneOpen(db) && db.trips.Keys <= used && r.current.Some?
    ensures
      var t, distance := r.current.value, odometer - r.current.value.startOdometer;
      EndPlan(r, db, odometer, now, insertOk).events ==
        if distance < MIN_TRIP_DISTANCE || (r.buffer != [] && !insertOk) then []
        else [TripCompleted(t.id, t.profile, distance, t.durationS + Elapsed(t, now))]
  {
    var t := r.current.value;
    if odometer - t.startOdometer >= MIN_TRIP_DISTANCE && (r.buffer == [] || insertOk) {
      EndCompletes(r, db, odometer, now, used);
      var ss := FlushFirst(r) + Completion(ExecAll(db, FlushFirst(r)), t.id, odometer, r.maxSpeed, now);
      var row := t.(status := Completed, activeStartedAt := 0, endedAt := now, maxSpeed := r.maxSpeed,
                    durationS := t.durationS + Elapsed(t, now), endOdometer := odometer,
                    distanceM := Max(0, odometer - t.startOdometer));
      assert EndPlan(r, db, odometer, now, insertOk) == EndAfter(r, t.id, ss, Some(row));
    }
  }

  lemma AllowedTwoMore(db: Db, ss: seq<Statement>, s: Statement, t: Statement, used: set<string>)
    requires AllAllowed(db, ss, used) && Allowed(ExecAll(db, ss), s, UsedAfter(ss, used)) && !s.InsertTrip?
    requires !t.InsertTrip?
    requires Allowed(Exec(ExecAll(db, ss), s), t, UsedAfter(ss, used))
    ensures AllAllowed(db, ss + [s, t], used) && UsedAfter(ss + [s, t], used) == UsedAfter(ss, used)
    ensures ExecAll(db, ss + [s, t]) == Exec(Exec(ExecAll(db, ss), s), t)
  {
    AllowedMore(db, ss, s, used);
    AllowedMore(db, ss + [s], t, used);
    assert ss + [s] + [t] == ss + [s, t];
  }

  // Recovery leaves the process in step with whatever a crash left behind, and
  // never counts the outage: the durable duration is kept, and a resumed interval
  // starts now.
  lemma {:induction false} RecoverInStep(db: Db, found: Option<Trip>, mode: Mode, now: int, used: set<string>)
    requires Keyed(db.trips) && OneOpen(db) && Found(db, found)
    ensures
      var plan := RecoverPlan(IDLE, db, found, mode, now);
      var after := ExecAll(db, plan.statements);
      && AllAllowed(db, plan.statements, used) && UsedAfter(plan.statements, used) == used
      && InStep(plan.rec, after) && plan.events == [] && after.points == db.points
      && (plan.rec.current.Some? <==> found.Some? && mode != Over)
      && (plan.rec.current.Some? ==>
            plan.rec.current.value == found.value.(activeStartedAt := if mode == Ready then now else 0)
            && plan.rec.buffer == [] && plan.rec.lastPlace.None?)
  {
    if found.Some? {
      var t := found.value;
      RecoverWrites(db, t, mode, now, used);
      var after := Db(db.trips[t.id := RecoveredRow(t, mode, now)], db.points);
      RecoveredPlan(t, mode, now, RecoverScript(t, mode, now), after);
      if mode == Over {
        NoneLeftOpen(db, after, t.id);
      }
    }
  }

  lemma RecoveredPlan(t: Trip, mode: Mode, now: int, ss: seq<Statement>, after: Db)
    requires t.id in after.trips && after.trips[t.id] == RecoveredRow(t, mode, now)
    requires ss == [] ==> RecoveredRow(t, mode, now) == t
    ensures
      var row := RecoveredRow(t, mode, now);
      RecoverAfter(IDLE, t, mode, ss, after)
      == Plan(ss, if mode == Over then IDLE else Rec(Some(row), None, [], row.maxSpeed), [])
  {
  }

  // What recovery leaves of the row it found.
  function RecoveredRow(t: Trip, mode: Mode, now: int): Trip {
    match mode
    case Ready => t.(activeStartedAt := now)
    case Paused => t.(activeStartedAt := 0)
    case Over => t.(activeStartedAt := 0, status := Abandoned)
  }

  lemma RecoverWrites(db: Db, t: Trip, mode: Mode, now: int, used: set<string>)
    requires IsOpen(db, t.id) && db.trips[t.id] == t
    ensures
      var ss := RecoverScript(t, mode, now);
      && AllAllowed(db, ss, used) && UsedAfter(ss, used) == used
      && ExecAll(db, ss) == Db(db.trips[t.id := RecoveredRow(t, mode, now)], db.points)
  {
    var first := if t.activeStartedAt != 0 then [DiscardInterval(t.id)] else [];
    IntervalDiscarded(db, t, used);
    match mode
    case Ready => AllowedMore(db, first, OpenInterval(t.id, now), used);
    case Paused => assert first + [] == first;
    case Over => AllowedMore(db, first, Abandon(t.id), used);
  }

  lemma IntervalDiscarded(db: Db, t: Trip, used: set<string>)
    requires IsOpen(db, t.id) && db.trips[t.id] == t
    ensures
      var first := if t.activeStartedAt != 0 then [DiscardInterval(t.id)] else [];
      && AllAllowed(db, first, used) && UsedAfter(first, used) == used
      && ExecAll(db, first) == Db(db.trips[t.id := t.(activeStartedAt := 0)], db.points)
  {
    OneStatement(DiscardInterval(t.id), db, used);
    assert [DiscardInterval(t.id)][..0] == [];
    if t.activeStartedAt == 0 {
      assert db.trips[t.id := t.(activeStartedAt := 0)] == db.trips;
    }
  }

  // ----- the run -----

  ghost predicate Sound(w: World) {
    && Safe(w.db, w.events, w.used)
    && (w.rec.Some? ==> InStep(w.rec.value, w.db))
  }

  lemma OnceMore(events: seq<Event>, e: Event)
    requires Once(events) && forall x :: x in events ==> x.id != e.id
    ensures Once(events + [e])
  {
    assert (events + [e])[..|events|] == events;
  }

  // Any call: its script is allowed, the process stays in step, and an event is
  // about the ride that was open, now completed.
  lemma CallKeeps(r: Rec, db: Db, call: Call, dist: Metric, used: set<string>)
    requires InStep(r, db) && Keyed(db.trips) && OneOpen(db) && db.trips.Keys <= used
    requires call.Start? ==> call.id !in used
    ensures
      var plan := PlanOf(r, db, call, dist);
      var after := ExecAll(db, plan.statements);
      && AllAllowed(db, plan.statements, used) && InStep(plan.rec, after)
      && (plan.events == [] ||
          (var e := plan.events[0];
           plan.events == [e] && IsOpen(db, e.id) && Genuine(e, after, used)))
  {
    if call.End? {
      if r.current.Some? {
        EndInStep(r, db, call.odometer, call.now, call.insertOk, used);
      }
    } else {
      CallInStep(r, db, call, dist, used);
    }
  }

  lemma DoSound(w: World, call: Call, dist: Metric)
    requires Sound(w) && Legal(w, Do(call), dist)
    ensures Sound(NextWorld(w, Do(call), dist))
  {
    var plan := PlanOf(w.rec.value, w.db, call, dist);
    CallKeeps(w.rec.value, w.db, call, dist, w.used);
    PrefixSafe(w.db, plan.statements, |plan.statements|, w.events, w.used);
    assert plan.statements[..|plan.statements|] == plan.statements;
    UsedGrows(plan.statements, 0, w.used);
    assert plan.statements[..0] == [];
    if plan.events != [] {
      EventSafe(ExecAll(w.db, plan.statements), w.db, w.events, plan.events[0], w.used,
          UsedAfter(plan.statements, w.used));
    } else {
      assert w.events + [] == w.events;
    }
  }

  lemma EventSafe(after: Db, before: Db, events: seq<Event>, e: Event, used: set<string>, usedAfter: set<string>)
    requires Safe(before, events, used) && Safe(after, events, usedAfter) && used <= usedAfter
    requires IsOpen(before, e.id) && Genuine(e, after, used)
    ensures Safe(after, events + [e], usedAfter)
  {
    forall x | x in events ensures x.id != e.id {
      assert Genuine(x, before, used);
    }
    OnceMore(events, e);
  }

  lemma DieSound(w: World, call: Call, k: nat, dist: Metric)
    requires Sound(w) && Legal(w, Die(call, k), dist)
    ensures Sound(NextWorld(w, Die(call, k), dist))
  {
    CallKeeps(w.rec.value, w.db, call, dist, w.used);
    PrefixSafe(w.db, PlanOf(w.rec.value, w.db, call, dist).statements, k, w.events, w.used);
  }

  lemma RestartSound(w: World, mode: Mode, now: int, found: Option<Trip>, dist: Metric)
    requires Sound(w) && w.rec.None? && Found(w.db, found)
    ensures Sound(NextWorld(w, Restart(mode, now, found), dist))
  {
    RecoverInStep(w.db, found, mode, now, w.used);
    var ss := RecoverPlan(IDLE, w.db, found, mode, now).statements;
    PrefixSafe(w.db, ss, |ss|, w.events, w.used);
    assert ss[..|ss|] == ss;
  }

  lemma DieRestartingSound(w: World, mode: Mode, now: int, found: Option<Trip>, k: nat, dist: Metric)
    requires Sound(w) && Legal(w, DieRestarting(mode, now, found, k), dist)
    ensures Sound(NextWorld(w, DieRestarting(mode, now, found, k), dist))
  {
    RecoverInStep(w.db, found, mode, now, w.used);
    var ss := RecoverPlan(IDLE, w.db, found, mode, now).statements;
    PrefixSafe(w.db, ss, k, w.events, w.used);
    UsedUnchanged(ss, k, w.used);
  }

  lemma ExpungeSound(w: World, id: string, dist: Metric)
    requires Sound(w) && Legal(w, Expunge(id), dist)
    ensures Sound(NextWorld(w, Expunge(id), dist))
  {
    DeletionSafe(w.db, id, w.events, w.used);
    if w.rec.Some? && w.rec.value.current.Some? {
      assert IsOpen(w.db, w.rec.value.current.value.id);
    }
  }

  lemma StepSound(w: World, step: Step, dist: Metric)
    requires Sound(w) && Legal(w, step, dist)
    ensures Sound(NextWorld(w, step, dist))
  {
    match step
    case Do(call) => DoSound(w, call, dist);
    case Die(call, k) => DieSound(w, call, k, dist);
    case Restart(mode, now, found) => RestartSound(w, mode, now, found, dist);
    case DieRestarting(mode, now, found, k) => DieRestartingSound(w, mode, now, found, k, dist);
    case Expunge(id) => ExpungeSound(w, id, dist);
  }

  lemma {:induction false} UsedUnchanged(ss: seq<Statement>, k: nat, used: set<string>)
    requires k <= |ss| && UsedAfter(ss, used) == used
    ensures UsedAfter(ss[..k], used) == used
    decreases |ss|
  {
    UsedGrows(ss, k, used);
    UsedGrows(ss[..k], 0, used);
    assert ss[..k][..0] == [];
  }

  lemma {:induction false} UsedGrows(ss: seq<Statement>, k: nat, used: set<string>)
    requires k <= |ss|
    ensures UsedAfter(ss[..k], used) <= UsedAfter(ss, used)
    decreases |ss|
  {
    if k < |ss| {
      UsedGrows(ss[..|ss| - 1], k, used);
      assert ss[..|ss| - 1][..k] == ss[..k];
    } else {
      assert ss[..k] == ss;
    }
  }

  function RunWorld(steps: seq<Step>, dist: Metric): World
    requires LegalRun(steps, dist)
    decreases |steps|, 1
  {
    if steps == [] then FIRST
    else NextWorld(RunWorld(steps[..|steps| - 1], dist), steps[|steps| - 1], dist)
  }

  predicate LegalRun(steps: seq<Step>, dist: Metric)
    decreases |steps|, 0
  {
    steps == [] ||
    (LegalRun(steps[..|steps| - 1], dist)
     && Legal(RunWorld(steps[..|steps| - 1], dist), steps[|steps| - 1], dist))
  }

  lemma {:induction false} RunSound(steps: seq<Step>, dist: Metric)
    requires LegalRun(steps, dist)
    ensures Sound(RunWorld(steps, dist))
  {
    if steps != [] {
      RunSound(steps[..|steps| - 1], dist);
      StepSound(RunWorld(steps[..|steps| - 1], dist), steps[|steps| - 1], dist);
    }
  }

  lemma {:induction false} OnceDistinct(events: seq<Event>, i: nat, j: nat)
    requires Once(events) && i < j < |events|
    ensures events[i].id != events[j].id
  {
    if j < |events| - 1 {
      OnceDistinct(events[..|events| - 1], i, j);
    } else {
      assert events[i] in events[..j];
    }
  }

  // Over every life of the service, with crashes between any two SQL statements:
  // at most one row is open, a running process's current trip is that row, no
  // trip is announced twice, and every announcement is of a ride of at least
  // 100 m whose row, while retained, is completed and says the same.
  lemma RideSafety(steps: seq<Step>, dist: Metric, a: string, b: string, i: nat, j: nat)
    requires LegalRun(steps, dist)
    ensures
      var w := RunWorld(steps, dist);
      && (IsOpen(w.db, a) && IsOpen(w.db, b) ==> a == b)
      && (w.rec.Some? ==>
            (IsOpen(w.db, a) <==>
             w.rec.value.current.Some? && a == w.rec.value.current.value.id && Row(w.db, a) == w.rec.value.current))
      && (i < j < |w.events| ==> w.events[i].id != w.events[j].id)
      && (i < |w.events| ==> Genuine(w.events[i], w.db, w.used))
  {
    RunSound(steps, dist);
    var w := RunWorld(steps, dist);
    if i < j < |w.events| {
      OnceDistinct(w.events, i, j);
    }
    if w.rec.Some? && w.rec.value.current.Some? {
      assert IsOpen(w.db, w.rec.value.current.value.id);
    }
  }

  // A ride that is ended without a crash is announced exactly when it reached the
  // floor and its points could be written.
  lemma EndAnnounces(steps: seq<Step>, dist: Metric, odometer: int, now: int, insertOk: bool)
    requires LegalRun(steps, dist) && RunWorld(steps, dist).rec.Some? && RunWorld(steps, dist).rec.value.current.Some?
    ensures
      var w := RunWorld(steps, dist);
      var r := w.rec.value;
      var next := NextWorld(w, Do(End(odometer, now, insertOk)), dist);
      var distance := odometer - r.current.value.startOdometer;
      && (next.events != w.events <==> distance >= MIN_TRIP_DISTANCE && (r.buffer == [] || insertOk))
      && (next.events != w.events ==>
            |next.events| == |w.events| + 1
            && next.events[|w.events|].id == r.current.value.id && next.events[|w.events|].distanceM == distance)
      && (distance < MIN_TRIP_DISTANCE ==> r.current.value.id !in next.db.trips)
  {
    RunSound(steps, dist);
    var w := RunWorld(steps, dist);
    EndInStep(w.rec.value, w.db, odometer, now, insertOk, w.used);
    var plan := EndPlan(w.rec.value, w.db, odometer, now, insertOk);
    assert plan.events == [] ==> w.events + plan.events == w.events;
  }

  // ----- GPS points -----

  function PointsIn(marks: seq<Mark>): seq<Point> {
    if marks == [] then [] else PointsIn(marks[..|marks| - 1]) + [marks[|marks| - 1].point]
  }

  // Consecutive points of one ready interval are at least 5 m apart.
  predicate Spaced(marks: seq<Mark>, dist: Metric) {
    marks == [] ||
    (var n := |marks| - 1;
     && Spaced(marks[..n], dist)
     && (n > 0 && marks[n - 1].interval == marks[n].interval ==>
           dist(marks[n - 1].point.place, marks[n].point.place) >= MIN_POINT_DISTANCE))
  }

  // Stored points followed by the buffer are the points the ride had at restart
  // followed by those accepted since, in order.
  predicate Carried(points: seq<Point>, r: Rec, base: seq<Point>, accepted: seq<Mark>, dist: Metric)
    requires r.current.Some?
  {
    && PointsOf(points, r.current.value.id) + r.buffer == base + PointsIn(accepted)
    && Spaced(accepted, dist)
    && (r.lastPlace.Some? ==> accepted != [] && accepted[|accepted| - 1].point.place == r.lastPlace.value)
  }

  // Once a point was accepted in the present interval there is a place to measure from.
  predicate Measured(r: Rec, accepted: seq<Mark>, interval: nat) {
    accepted == [] ||
    (var last := accepted[|accepted| - 1];
     last.interval <= interval && (last.interval == interval && Timing(r) ==> r.lastPlace.Some?))
  }

  predicate Conserved(w: World, dist: Metric) {
    w.rec.Some? && w.rec.value.current.Some? ==>
      && Carried(w.db.points, w.rec.value, w.base, w.accepted, dist)
      && Measured(w.rec.value, w.accepted, w.interval)
      && (w.healthy ==> |w.rec.value.buffer| < FLUSH_AT)
  }

  // A step that leaves the trip's points, the buffer and the books alone.
  lemma {:induction false} StillCarried(w: World, next: World, dist: Metric)
    requires w.rec.Some? && w.rec.value.current.Some? && next.rec.Some? && next.rec.value.current.Some?
    requires Conserved(w, dist)
    requires next.base == w.base && next.accepted == w.accepted && (next.healthy ==> w.healthy)
    requires
      || next.interval > w.interval
      || (next.interval == w.interval && next.rec.value.lastPlace == w.rec.value.lastPlace
          && (Timing(next.rec.value) ==> Timing(w.rec.value)))
    requires
      var r, s := w.rec.value, next.rec.value;
      && s.current.value.id == r.current.value.id && s.buffer == r.buffer
      && (s.lastPlace == None || s.lastPlace == r.lastPlace)
      && PointsOf(next.db.points, r.current.value.id) == PointsOf(w.db.points, r.current.value.id)
    ensures Conserved(next, dist)
  {
  }

  lemma FlushMoves(db: Db, buffer: seq<Point>, id: string)
    requires forall p :: p in buffer ==> p.trip == id
    ensures PointsOf(db.points + buffer, id) == PointsOf(db.points, id) + buffer
  {
    PointsAppend(db.points, buffer, id);
    PointsAllOf(buffer, id);
  }

  lemma AcceptCarried(points: seq<Point>, r: Rec, base: seq<Point>, accepted: seq<Mark>, p: Point, maxSpeed: real,
                      interval: nat, dist: Metric)
    requires r.current.Some? && Carried(points, r, base, accepted, dist) && Measured(r, accepted, interval)
    requires Accepts(r, p, dist)
    ensures
      var q := Tagged(r, p);
      Carried(points, Rec(r.current, Some(p.place), r.buffer + [q], maxSpeed), base,
              accepted + [Mark(q, interval)], dist)
  {
    var q := Tagged(r, p);
    var marks := accepted + [Mark(q, interval)];
    assert marks[..|accepted|] == accepted;
    var stored := PointsOf(points, r.current.value.id);
    calc {
      stored + (r.buffer + [q]);
      (stored + r.buffer) + [q];
      (base + PointsIn(accepted)) + [q];
      base + (PointsIn(accepted) + [q]);
      base + PointsIn(marks);
    }
  }

  lemma {:induction false} FlushCarried(db: Db, r: Rec, base: seq<Point>, accepted: seq<Mark>, dist: Metric)
    requires r.current.Some? && Carried(db.points, r, base, accepted, dist)
    requires forall p :: p in r.buffer ==> p.trip == r.current.value.id
    ensures Carried(db.points + r.buffer, r.(buffer := []), base, accepted, dist)
  {
    FlushMoves(db, r.buffer, r.current.value.id);
    assert PointsOf(db.points, r.current.value.id) + r.buffer + []
        == PointsOf(db.points, r.current.value.id) + r.buffer;
  }

  lemma AcceptConserves(w: World, p: Point, insertOk: bool, dist: Metric)
    requires Sound(w) && Conserved(w, dist) && Legal(w, Do(Add(p, insertOk)), dist)
    requires Accepts(w.rec.value, p, dist)
    ensures Conserved(NextWorld(w, Do(Add(p, insertOk)), dist), dist)
  {
    var r := w.rec.value;
    var maxSpeed := if p.speed > r.maxSpeed then p.speed else r.maxSpeed;
    var s := Rec(r.current, Some(p.place), r.buffer + [Tagged(r, p)], maxSpeed);
    var marks := w.accepted + [Mark(Tagged(r, p), w.interval)];
    AcceptCarried(w.db.points, r, w.base, w.accepted, p, maxSpeed, w.interval, dist);
    assert AcceptedAfter(w, Add(p, insertOk), dist) == marks;
    if |s.buffer| >= FLUSH_AT && insertOk {
      OneStatement(InsertPoints(s.buffer), w.db, w.used);
      FlushCarried(w.db, s, w.base, marks, dist);
    }
  }

  // A step that writes the buffer out, and may leave the ready interval.
  lemma FlushedConserves(w: World, next: World, dist: Metric)
    requires Sound(w) && Conserved(w, dist) && w.rec.Some? && w.rec.value.current.Some?
    requires next.base == w.base && next.accepted == w.accepted && next.interval == w.interval
    requires next.rec.Some? && next.rec.value.current.Some? && next.db.points == w.db.points + w.rec.value.buffer
    requires
      var s := next.rec.value;
      && s.current.value.id == w.rec.value.current.value.id
      && s.buffer == []
      && ((s.lastPlace.None? && !Timing(s))
          || (s.lastPlace == w.rec.value.lastPlace && (Timing(s) ==> Timing(w.rec.value))))
    ensures Conserved(next, dist)
  {
    FlushCarried(w.db, w.rec.value, w.base, w.accepted, dist);
  }

  lemma PauseConserves(w: World, now: int, insertOk: bool, dist: Metric)
    requires Sound(w) && Conserved(w, dist) && w.rec.Some?
    ensures Conserved(NextWorld(w, Do(Pause(now, insertOk)), dist), dist)
  {
    var r := w.rec.value;
    if Timing(r) && (r.buffer == [] || insertOk) {
      PauseWrites(r, w.db, now, insertOk, w.used);
      FlushedConserves(w, NextWorld(w, Do(Pause(now, insertOk)), dist), dist);
    }
  }

  lemma IntervalConserves(w: World, call: Call, dist: Metric)
    requires Sound(w) && Conserved(w, dist) && w.rec.Some? && (call.Resume? || call.Checkpoint?)
    ensures Conserved(NextWorld(w, Do(call), dist), dist)
  {
    var r := w.rec.value;
    if r.current.Some? {
      var id := r.current.value.id;
      var s := if call.Resume? then OpenInterval(id, call.now) else CheckpointInterval(id, call.now);
      OneStatement(s, w.db, w.used);
      assert Exec(w.db, s).points == w.db.points;
      StillCarried(w, NextWorld(w, Do(call), dist), dist);
    }
  }

  lemma {:induction false} FlushCallConserves(w: World, insertOk: bool, dist: Metric)
    requires Sound(w) && Conserved(w, dist) && w.rec.Some?
    ensures Conserved(NextWorld(w, Do(Flush(insertOk)), dist), dist)
  {
    var r := w.rec.value;
    if r.current.Some? && r.buffer != [] && insertOk {
      OneStatement(InsertPoints(r.buffer), w.db, w.used);
      FlushedConserves(w, NextWorld(w, Do(Flush(insertOk)), dist), dist);
    }
  }

  lemma AddConserves(w: World, p: Point, insertOk: bool, dist: Metric)
    requires Sound(w) && Conserved(w, dist) && Legal(w, Do(Add(p, insertOk)), dist)
    ensures Conserved(NextWorld(w, Do(Add(p, insertOk)), dist), dist)
  {
    if Accepts(w.rec.value, p, dist) {
      AcceptConserves(w, p, insertOk, dist);
    }
  }

  lemma StartConserves(w: World, call: Call, dist: Metric)
    requires Sound(w) && Conserved(w, dist) && Legal(w, Do(call), dist) && call.Start?
    ensures Conserved(NextWorld(w, Do(call), dist), dist)
  {
    var t := NewTrip(call.id, call.profile, call.odometer, call.now);
    OneStatement(InsertTrip(t), w.db, w.used);
    if w.rec.value.current.None? {
      NoPointsYet(w.db.points, call.id);
    }
  }

  lemma {:induction false} NoPointsYet(points: seq<Point>, id: string)
    requires forall p :: p in points ==> p.trip != id
    ensures PointsOf(points, id) == []
  {
    if points != [] {
      NoPointsYet(points[..|points| - 1], id);
    }
  }

  lemma EndPoints(r: Rec, db: Db, odometer: int, now: int, insertOk: bool, used: set<string>)
    requires InStep(r, db) && Keyed(db.trips) && OneOpen(db) && db.trips.Keys <= used && r.current.Some?
    ensures
      var id, plan := r.current.value.id, EndPlan(r, db, odometer, now, insertOk);
      var after := ExecAll(db, plan.statements);
      if plan.rec.current.Some? then plan == Stay(r) && after == db
      else PointsOf(after.points, id) == if id in after.trips then PointsOf(db.points, id) + r.buffer else []
  {
    EndInStep(r, db, odometer, now, insertOk, used);
    FlushMoves(db, r.buffer, r.current.value.id);
    PointsWithout(db.points, r.current.value.id, r.current.value.id);
  }

  lemma EndConserves(w: World, odometer: int, now: int, insertOk: bool, dist: Metric)
    requires Sound(w) && Conserved(w, dist) && w.rec.Some?
    ensures Conserved(NextWorld(w, Do(End(odometer, now, insertOk)), dist), dist)
  {
    var next := NextWorld(w, Do(End(odometer, now, insertOk)), dist);
    if w.rec.value.current.Some? {
      EndPoints(w.rec.value, w.db, odometer, now, insertOk, w.used);
      if next.rec.value.current.Some? {
        StillCarried(w, next, dist);
      }
    }
  }

  lemma EndKeepsPoints(w: World, odometer: int, now: int, insertOk: bool, dist: Metric)
    requires Sound(w) && Conserved(w, dist) && w.rec.Some? && w.rec.value.current.Some?
    ensures
      var id, next := w.rec.value.current.value.id, NextWorld(w, Do(End(odometer, now, insertOk)), dist);
      next.rec.value.current.None? ==>
        PointsOf(next.db.points, id) == if id in next.db.trips then w.base + PointsIn(w.accepted) else []
  {
    EndPoints(w.rec.value, w.db, odometer, now, insertOk, w.used);
  }

  lemma RestartConserves(w: World, mode: Mode, now: int, found: Option<Trip>, dist: Metric)
    requires Sound(w) && Legal(w, Restart(mode, now, found), dist)
    ensures Conserved(NextWorld(w, Restart(mode, now, found), dist), dist)
  {
    RecoverInStep(w.db, found, mode, now, w.used);
    var next := NextWorld(w, Restart(mode, now, found), dist);
    if next.rec.value.current.Some? {
      assert next.base + PointsIn([]) == next.base && next.base + [] == next.base;
    }
  }

  lemma {:induction false} ExpungeConserves(w: World, id: string, dist: Metric)
    requires Sound(w) && Conserved(w, dist) && Legal(w, Expunge(id), dist)
    ensures Conserved(NextWorld(w, Expunge(id), dist), dist)
  {
    if w.rec.Some? && w.rec.value.current.Some? {
      var current := w.rec.value.current.value.id;
      PointsWithout(w.db.points, id, current);
      assert IsOpen(w.db, current) && current != id;
      StillCarried(w, NextWorld(w, Expunge(id), dist), dist);
    }
  }

  lemma DoConserves(w: World, call: Call, dist: Metric)
    requires Sound(w) && Conserved(w, dist) && Legal(w, Do(call), dist)
    ensures Conserved(NextWorld(w, Do(call), dist), dist)
  {
    match call
    case Start(_, _, _, _, _) => StartConserves(w, call, dist);
    case Pause(now, insertOk) => PauseConserves(w, now, insertOk, dist);
    case Resume(_) => IntervalConserves(w, call, dist);
    case Checkpoint(_) => IntervalConserves(w, call, dist);
    case End(odometer, now, insertOk) => EndConserves(w, odometer, now, insertOk, dist);
    case Add(p, insertOk) => AddConserves(w, p, insertOk, dist);
    case Flush(insertOk) => FlushCallConserves(w, insertOk, dist);
  }

  lemma StepConserves(w: World, step: Step, dist: Metric)
    requires Sound(w) && Conserved(w, dist) && Legal(w, step, dist)
    ensures Conserved(NextWorld(w, step, dist), dist)
  {
    match step
    case Do(call) => DoConserves(w, call, dist);
    case Restart(mode, now, found) => RestartConserves(w, mode, now, found, dist);
    case Expunge(id) => ExpungeConserves(w, id, dist);
    case _ =>
  }

  // No accepted point is lost or reordered while a ride is open, whatever inserts
  // fail; consecutive points of one ready interval are at least 5 m apart; and while
  // inserts succeed fewer than ten wait in memory.
  lemma {:induction false} PointsConserved(steps: seq<Step>, dist: Metric)
    requires LegalRun(steps, dist)
    ensures Conserved(RunWorld(steps, dist), dist)
  {
    if steps != [] {
      PointsConserved(steps[..|steps| - 1], dist);
      RunSound(steps[..|steps| - 1], dist);
      StepConserves(RunWorld(steps[..|steps| - 1], dist), steps[|steps| - 1], dist);
    }
  }

  // A completed ride keeps every point it accepted, a discarded one none.
  lemma EndedRidePoints(steps: seq<Step>, dist: Metric, odometer: int, now: int, insertOk: bool)
    requires LegalRun(steps, dist) && RunWorld(steps, dist).rec.Some? && RunWorld(steps, dist).rec.value.current.Some?
    ensures
      var w := RunWorld(steps, dist);
      var id := w.rec.value.current.value.id;
      var next := NextWorld(w, Do(End(odometer, now, insertOk)), dist);
      next.rec.value.current.None? ==>
        PointsOf(next.db.points, id) == if id in next.db.trips then w.base + PointsIn(w.accepted) else []
  {
    RunSound(steps, dist);
    PointsConserved(steps, dist);
    EndKeepsPoints(RunWorld(steps, dist), odometer, now, insertOk, dist);
  }

  // The row a restart takes up has its durable duration and nothing of the outage.
  lemma RestartCountsNoOutage(steps: seq<Step>, dist: Metric, mode: Mode, now: int, found: Option<Trip>)
    requires LegalRun(steps, dist) && Legal(RunWorld(steps, dist), Restart(mode, now, found), dist)
    ensures
      var w := RunWorld(steps, dist);
      var r := NextWorld(w, Restart(mode, now, found), dist).rec.value;
      && (r.current.Some? <==> found.Some? && mode != Over)
      && (r.current.Some? ==>
            r.current.value.durationS == found.value.durationS && Elapsed(r.current.value, now) == 0)
  {
    RunSound(steps, dist);
    RecoverInStep(RunWorld(steps, dist).db, found, mode, now, RunWorld(steps, dist).used);
  }
}
