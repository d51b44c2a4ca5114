/** The counter and the recorder in lockstep, over whole runs of the handlers. */
module AppRuns {
  import opened Prelude
  import opened Trips
  import opened Handlers
  import opened CounterModel
  import Recorders
  import CounterRuns
  import RideRuns

  // ----- lockstep -----

  // After every handler the two machines and the handler's own fields agree: the
  // counter is active exactly while the vehicle is ready, the recorder's trip is the
  // open row, a start is pending only while ready and beside no trip that is not
  // collecting, and counter and handlers have the same odometer baseline.
  ghost predicate Lockstep(s: AppState, used: set<string>) {
    && Consistent(s.counter.row)
    && (s.counter.row.active <==> s.mode == Ready)
    && RideRuns.Safe(s.db, s.events, used) && RideRuns.InStep(s.rec, s.db)
    && (s.rec.current.Some? ==> s.rec.current.value.activeStartedAt >= 0)
    && (s.pending ==> s.mode == Ready && (s.rec.current.None? || Recorders.Collecting(s.rec)))
    && (if s.odoKnown then s.counter.row.lastOdometer == Some(s.lastOdo) else s.lastOdo == 0)
  }

  function IdsOf(i: Input): set<string> {
    match i
    case VehicleState(_, _, id, _, _, _, _) => {id}
    case OdometerUpdate(_, id, _, _) => {id}
    case _ => {}
  }

  // The clock reads after 1970, and ids offered for a new trip are new.
  predicate Possible(c: Clock, i: Input, used: set<string>) {
    c.unix > 0 && Acceptable(i) && IdsOf(i) !! used
  }

  ghost predicate Recordable(s: AppState, used: set<string>) {
    RideRuns.Safe(s.db, s.events, used) && RideRuns.InStep(s.rec, s.db)
  }

  lemma SafeWithMore(db: Db, events: seq<Recorders.Event>, used: set<string>, more: set<string>)
    requires RideRuns.Safe(db, events, used) && used <= more
    ensures RideRuns.Safe(db, events, more)
  {
  }

  lemma CalledRecordable(s: AppState, call: Recorders.Call, used: set<string>, dist: Recorders.Metric)
    requires Recordable(s, used) && (call.Start? ==> call.id !in used)
    ensures Recordable(Called(s, call, dist), if call.Start? then used + {call.id} else used)
  {
    var w := RideRuns.World(s.db, Some(s.rec), s.events, used, [], [], true, 0);
    RideRuns.DoSound(w, call, dist);
    var next := RideRuns.NextWorld(w, RideRuns.Do(call), dist);
    var more := if call.Start? then used + {call.id} else used;
    UsedByCall(s.rec, s.db, call, used, dist);
    SafeWithMore(next.db, next.events, next.used, more);
  }

  lemma UsedByCall(r: Recorders.Rec, db: Db, call: Recorders.Call, used: set<string>, dist: Recorders.Metric)
    requires RideRuns.InStep(r, db) && Keyed(db.trips) && RideRuns.OneOpen(db) && db.trips.Keys <= used
    ensures RideRuns.UsedAfter(Recorders.PlanOf(r, db, call, dist).statements, used)
         <= if call.Start? then used + {call.id} else used
  {
    var ss := Recorders.PlanOf(r, db, call, dist).statements;
    if call.Start? {
      assert ss == [] || ss[..0] == [];
    } else if call.End? {
      if r.current.Some? {
        RideRuns.EndInStep(r, db, call.odometer, call.now, call.insertOk, used);
      }
    } else {
      OnlyStartInserts(r, db, call, dist);
      NoInsertions(ss, used);
    }
  }

  ghost predicate Inserts(ss: seq<Statement>) { exists x :: x in ss && x.InsertTrip? }

  lemma OnlyStartInserts(r: Recorders.Rec, db: Db, call: Recorders.Call, dist: Recorders.Metric)
    requires !call.Start? && !call.End?
    ensures !Inserts(Recorders.PlanOf(r, db, call, dist).statements)
  {
    if call.Pause? {
      PauseInserts(r, db, call.now, call.insertOk);
    }
  }

  lemma PauseInserts(r: Recorders.Rec, db: Db, now: int, insertOk: bool)
    ensures !Inserts(Recorders.PausePlan(r, db, now, insertOk).statements)
  {
  }

  lemma {:induction false} NoInsertions(ss: seq<Statement>, used: set<string>)
    requires !Inserts(ss)
    ensures RideRuns.UsedAfter(ss, used) == used
  {
    if ss != [] {
      NoInsertions(ss[..|ss| - 1], used);
    }
  }

  // ----- each handler keeps lockstep -----

  lemma NotedKeeps(s: AppState, c: Clock, state: string, engine: Option<int>, used: set<string>)
    requires Lockstep(s, used) && c.unix > 0 && (engine.Some? ==> engine.value >= 0)
    ensures
      var t := Noted(s, c, state, engine);
      && Consistent(t.counter.row) && (t.counter.row.active <==> t.mode == Ready) && t.mode == ModeOf(state)
      && (t.pending <==> s.pending && t.mode == Ready)
      && (if t.odoKnown then t.counter.row.lastOdometer == Some(t.lastOdo) else t.lastOdo == 0)
      && Recordable(t, used) && t.rec == s.rec && t.db == s.db && t.events == s.events
  {
    var t := Noted(s, c, state, engine);
    var odometer := if ModeOf(state) != Ready && t.odoKnown then Some(t.lastOdo) else None;
    ApplyConsistent(s.counter, c, Vehicle(state, odometer));
    NotedOdometer(s.counter.row, c, state, odometer);
  }

  lemma NotedOdometer(r: Row, c: Clock, state: string, odometer: Option<int>)
    ensures
      var t := OnVehicle(r, c, state, odometer);
      && t.active == IsReady(state)
      && t.lastOdometer == if !IsReady(state) && odometer.Some? && odometer.value >= 0 then odometer else r.lastOdometer
  {
  }

  lemma StartedKeeps(s: AppState, c: Clock, id: string, profile: string, startOk: bool, used: set<string>,
                     dist: Recorders.Metric)
    requires Recordable(s, used) && id !in used && s.rec.current.None? && c.unix > 0
    ensures
      var t := Started(s, c, id, profile, startOk, dist);
      && Recordable(t, used + {id})
      && t.counter == s.counter && t.lastOdo == s.lastOdo && t.odoKnown == s.odoKnown && t.mode == s.mode
      && (if s.odoKnown && startOk then
            t.rec.current == Some(Recorders.NewTrip(id, profile, s.lastOdo, c.unix)) && t.pending == s.pending
          else t.pending && t.rec == s.rec)
  {
    assert id !in s.db.trips;
    if s.odoKnown && startOk {
      CalledRecordable(s, Recorders.Start(id, profile, s.lastOdo, c.unix, startOk), used, dist);
    } else {
      SafeWithMore(s.db, s.events, used, used + {id});
    }
  }

  // What a call other than Start and End makes of the open trip.
  function TripAfter(t: Trip, call: Recorders.Call, written: bool): Trip {
    match call
    case Resume(now) => if t.activeStartedAt == 0 then t.(activeStartedAt := now) else t
    case Pause(now, _) =>
      if t.activeStartedAt == 0 || !written then t
      else t.(durationS := t.durationS + Elapsed(t, now), activeStartedAt := 0)
    case Checkpoint(now) =>
      if t.activeStartedAt == 0 then t
      else t.(durationS := t.durationS + Elapsed(t, now), activeStartedAt := if t.activeStartedAt > 0 then now else 0)
    case _ => t
  }

  lemma CallOnTrip(s: AppState, call: Recorders.Call, dist: Recorders.Metric)
    requires RideRuns.InStep(s.rec, s.db) && !call.Start? && !call.End?
    ensures
      var t := Called(s, call, dist);
      var written := call.Pause? && (s.rec.buffer == [] || call.insertOk);
      && t.events == s.events && t.counter == s.counter && t.lastOdo == s.lastOdo && t.odoKnown == s.odoKnown
      && t.mode == s.mode && t.pending == s.pending
      && t.rec.current ==
           if s.rec.current.None? then None
           else if call.Resume? && s.rec.current.value.activeStartedAt > 0 then s.rec.current
           else Some(TripAfter(s.rec.current.value, call, written))
  {
    assert s.events + [] == s.events;
    if s.rec.current.Some? {
      var id := s.rec.current.value.id;
      match call
      case Resume(now) => RideRuns.OneStatement(OpenInterval(id, now), s.db, {});
      case Checkpoint(now) => RideRuns.OneStatement(CheckpointInterval(id, now), s.db, {});
      case Pause(now, insertOk) => PauseOnTrip(s.rec, s.db, now, insertOk);
      case _ =>
    }
  }

  lemma PauseOnTrip(r: Recorders.Rec, db: Db, now: int, insertOk: bool)
    requires RideRuns.InStep(r, db) && r.current.Some?
    ensures Recorders.PausePlan(r, db, now, insertOk).rec.current ==
            Some(TripAfter(r.current.value, Recorders.Pause(now, insertOk), r.buffer == [] || insertOk))
    ensures Recorders.PausePlan(r, db, now, insertOk).events == []
  {
    RideRuns.FlushFirstAllowed(r, db, {});
    ExecOne(db, Recorders.FlushFirst(r), CloseInterval(r.current.value.id, now));
  }

  lemma UntoldKeeps(s: AppState, c: Clock, i: Input, used: set<string>, dist: Recorders.Metric)
    requires Lockstep(s, used) && Possible(c, i, used) && i.VehicleState? && !i.publishOk
    ensures Lockstep(Handle(s, c, i, dist), used + IdsOf(i))
  {
    NotedKeeps(s, c, i.state, i.engine, used);
    SafeWithMore(s.db, s.events, used, used + IdsOf(i));
  }

  lemma ReadyKeeps(s: AppState, c: Clock, i: Input, used: set<string>, dist: Recorders.Metric)
    requires Lockstep(s, used) && Possible(c, i, used) && i.VehicleState? && i.publishOk && ModeOf(i.state) == Ready
    ensures Lockstep(Handle(s, c, i, dist), used + IdsOf(i))
  {
    var t := Noted(s, c, i.state, i.engine);
    NotedKeeps(s, c, i.state, i.engine, used);
    if t.rec.current.Some? {
      var next := Handle(s, c, i, dist);
      CalledRecordable(t, Recorders.Resume(c.unix), used, dist);
      CallOnTrip(t, Recorders.Resume(c.unix), dist);
      SafeWithMore(next.db, next.events, used, used + IdsOf(i));
    } else {
      StartedKeeps(t, c, i.id, i.profile, i.startOk, used, dist);
    }
  }

  lemma StoppedKeeps(s: AppState, c: Clock, i: Input, used: set<string>, dist: Recorders.Metric)
    requires Lockstep(s, used) && Possible(c, i, used) && i.VehicleState? && i.publishOk && ModeOf(i.state) != Ready
    ensures Lockstep(Handle(s, c, i, dist), used + IdsOf(i))
  {
    var t := Noted(s, c, i.state, i.engine);
    NotedKeeps(s, c, i.state, i.engine, used);
    var next := Handle(s, c, i, dist);
    if ModeOf(i.state) == Paused {
      CalledRecordable(t, Recorders.Pause(c.unix, i.insertOk), used, dist);
      CallOnTrip(t, Recorders.Pause(c.unix, i.insertOk), dist);
    } else {
      CalledRecordable(t, Recorders.End(t.lastOdo, c.unix, i.insertOk), used, dist);
      EndOnTrip(t.rec, t.db, t.lastOdo, c.unix, i.insertOk);
    }
    SafeWithMore(next.db, next.events, used, used + IdsOf(i));
  }

  lemma EndOnTrip(r: Recorders.Rec, db: Db, odometer: int, now: int, insertOk: bool)
    requires RideRuns.InStep(r, db)
    ensures
      var plan := Recorders.EndPlan(r, db, odometer, now, insertOk);
      plan.rec.current == None || plan.rec.current == r.current
  {
  }

  lemma OdometerKeeps(s: AppState, c: Clock, i: Input, used: set<string>, dist: Recorders.Metric)
    requires Lockstep(s, used) && Possible(c, i, used) && i.OdometerUpdate?
    ensures Lockstep(Handle(s, c, i, dist), used + IdsOf(i))
  {
    SafeWithMore(s.db, s.events, used, used + IdsOf(i));
    if i.value >= 0 {
      ApplyConsistent(s.counter, c, Odometer(i.value));
      var startPending := s.pending && s.mode == Ready;
      var t := Counted(s.(lastOdo := i.value, odoKnown := true, pending := s.pending && !startPending), c,
          Odometer(i.value));
      if startPending && t.rec.current.None? {
        StartedKeeps(t, c, i.oid, i.oprofile, i.ostartOk, used, dist);
      }
    }
  }

  lemma TickKeeps(s: AppState, c: Clock, insertOk: bool, used: set<string>, dist: Recorders.Metric)
    requires Lockstep(s, used) && c.unix > 0
    ensures Lockstep(Handle(s, c, Tick(insertOk), dist), used)
  {
    var t := Called(s, Recorders.Flush(insertOk), dist);
    CalledRecordable(s, Recorders.Flush(insertOk), used, dist);
    CallOnTrip(s, Recorders.Flush(insertOk), dist);
    CalledRecordable(t, Recorders.Checkpoint(c.unix), used, dist);
    CallOnTrip(t, Recorders.Checkpoint(c.unix), dist);
    ApplyConsistent(s.counter, c, Checkpoint);
  }

  lemma SettingKeeps(r: State, c: Clock, op: Op)
    requires Consistent(r.row) && IsSetting(op)
    ensures
      var t := Apply(r, c, op).row;
      Consistent(t) && t.active == r.row.active && t.lastOdometer == r.row.lastOdometer
  {
    ApplyConsistent(r, c, op);
  }

  // Every handler keeps lockstep, whether or not points and trips can be inserted
  // and the counter can be published.
  lemma HandleKeeps(s: AppState, c: Clock, i: Input, used: set<string>, dist: Recorders.Metric)
    requires Lockstep(s, used) && Possible(c, i, used)
    ensures Lockstep(Handle(s, c, i, dist), used + IdsOf(i))
  {
    assert used + {} == used;
    match i
    case VehicleState(_, _, _, _, _, _, _) =>
      if !i.publishOk {
        UntoldKeeps(s, c, i, used, dist);
      } else if ModeOf(i.state) == Ready {
        ReadyKeeps(s, c, i, used, dist);
      } else {
        StoppedKeeps(s, c, i, used, dist);
      }
    case OdometerUpdate(_, _, _, _) => OdometerKeeps(s, c, i, used, dist);
    case Tick(insertOk) => TickKeeps(s, c, insertOk, used, dist);
    case Gps(p, insertOk) =>
      var call := Recorders.Add(p.(odometer := s.lastOdo), insertOk);
      CalledRecordable(s, call, used, dist);
      CallOnTrip(s, call, dist);
    case CounterCall(op) => SettingKeeps(s.counter, c, op);
  }

  // Startup puts the machines in lockstep whatever a crash left behind: only the
  // counter's own invariant and the safety of the trips table are needed.
  lemma BootLocksteps(counter: State, db: Db, events: seq<Recorders.Event>, found: Option<Trip>, c: Clock, b: Boot,
                      used: set<string>, dist: Recorders.Metric)
    requires Consistent(counter.row) && RideRuns.Safe(db, events, used) && Recorders.Found(db, found)
    requires c.unix > 0 && b.id !in used && BootSettings(b.settings) && (b.odometer.Some? ==> b.odometer.value >= 0)
    ensures Lockstep(Booted(counter, db, events, found, c, b, dist), used + {b.id})
  {
    var mode := ModeOf(b.state);
    var odo := if b.odometer.Some? then b.odometer.value else 0;
    var reconciled := if b.odometer.Some? then Apply(counter, c, Odometer(odo)) else counter;
    ApplyConsistent(counter, c, Odometer(odo));
    ConfiguredKeeps(reconciled, c, b.settings);
    var configured := Configured(reconciled, c, b.settings);
    ApplyConsistent(configured, c, Recover(b.state));
    RecoveredRow(configured.row, c, b.state);
    var plan := Recorders.RecoverPlan(Recorders.IDLE, db, found, mode, c.unix);
    RideRuns.RecoverInStep(db, found, mode, c.unix, used);
    RideRuns.PrefixSafe(db, plan.statements, |plan.statements|, events, used);
    assert plan.statements[..|plan.statements|] == plan.statements && events + [] == events;
    var t := Recorded(AppState(Apply(configured, c, Recover(b.state)), Recorders.IDLE, db, events, odo,
        b.odometer.Some?, mode, false), plan);
    if mode == Ready && t.rec.current.None? {
      StartedKeeps(t, c, b.id, b.profile, b.startOk, used, dist);
    } else {
      SafeWithMore(t.db, t.events, used, used + {b.id});
    }
  }

  lemma RecoveredRow(r: Row, c: Clock, state: string)
    ensures OnRecover(r, c, state).active == IsReady(state) && OnRecover(r, c, state).lastOdometer == r.lastOdometer
  {
  }

  lemma {:induction false} ConfiguredKeeps(s: State, c: Clock, ops: seq<Op>)
    requires Consistent(s.row) && BootSettings(ops)
    ensures Consistent(Configured(s, c, ops).row)
    ensures Configured(s, c, ops).row.lastOdometer == s.row.lastOdometer
  {
    if ops != [] {
      var n := |ops| - 1;
      assert ops[n] in ops;
      ConfiguredKeeps(s, c, ops[..n]);
      SettingKeeps(Configured(s, c, ops[..n]), c, ops[n]);
    }
  }

  lemma {:induction false} ConfiguredQuiet(s: State, c: Clock, ops: seq<Op>)
    requires BootSettings(ops)
    ensures
      var r, t := s.row, Configured(s, c, ops).row;
      && t.durationS == r.durationS && t.distanceM == r.distanceM && t.generation == r.generation
      && t.active == r.active && t.sessionOpen == r.sessionOpen
  {
    if ops != [] {
      var n := |ops| - 1;
      assert ops[n] in ops;
      ConfiguredQuiet(s, c, ops[..n]);
      CounterRuns.QuietStep(Configured(s, c, ops[..n]).row, c, ops[n]);
    }
  }

  // The counter once startup has told it the odometer and the settings.
  function Prepared(counter: State, c: Clock, b: Boot): State {
    Configured(if b.odometer.Some? then Apply(counter, c, Odometer(b.odometer.value)) else counter, c, b.settings)
  }

  lemma PreparedQuiet(counter: State, c: Clock, b: Boot)
    requires Consistent(counter.row) && BootSettings(b.settings) && (b.odometer.Some? ==> b.odometer.value >= 0)
    ensures
      var r, t := counter.row, Prepared(counter, c, b).row;
      var known := r.active && b.odometer.Some? && r.lastOdometer.Some?;
      && Consistent(t) && t.durationS == r.durationS && t.generation == r.generation
      && t.active == r.active && t.sessionOpen == r.sessionOpen
      && t.lastOdometer == (if b.odometer.Some? then b.odometer else r.lastOdometer)
      && t.distanceM == r.distanceM + if known then Max(0, b.odometer.value - r.lastOdometer.value) else 0
  {
    var reconciled := if b.odometer.Some? then Apply(counter, c, Odometer(b.odometer.value)) else counter;
    ApplyConsistent(counter, c, Odometer(if b.odometer.Some? then b.odometer.value else 0));
    CounterRuns.QuietStep(counter.row, c, Odometer(if b.odometer.Some? then b.odometer.value else 0));
    ConfiguredQuiet(reconciled, c, b.settings);
    ConfiguredKeeps(reconciled, c, b.settings);
  }

  // In the order startup does things, however long the outage was: the counter
  // shows its durable duration and has gained only what the odometer advanced,
  // and that only if it had been active.  The exception is a session that the
  // startup itself opens and whose policy resets.
  lemma BootAddsNoTime(counter: State, db: Db, events: seq<Recorders.Event>, found: Option<Trip>, c: Clock, b: Boot,
      dist: Recorders.Metric)
    requires Consistent(counter.row) && BootSettings(b.settings) && (b.odometer.Some? ==> b.odometer.value >= 0)
    ensures
      var r, t := counter.row, Booted(counter, db, events, found, c, b, dist).counter.row;
      var known := r.active && b.odometer.Some? && r.lastOdometer.Some?;
      var gain := if known then Max(0, b.odometer.value - r.lastOdometer.value) else 0;
      && Shown(t, c.unix) == t.durationS
      && (t.generation == r.generation ==> t.durationS == r.durationS && t.distanceM == r.distanceM + gain)
      && (t.generation != r.generation ==>
            ModeOf(b.state) == Ready && !r.active && !r.sessionOpen && t.durationS == 0 && t.distanceM == 0)
  {
    PreparedQuiet(counter, c, b);
    CounterRuns.RecoverStep(Prepared(counter, c, b).row, c, b.state);
    BootCounter(counter, db, events, found, c, b, dist);
  }

  lemma BootCounter(counter: State, db: Db, events: seq<Recorders.Event>, found: Option<Trip>, c: Clock, b: Boot,
      dist: Recorders.Metric)
    ensures Booted(counter, db, events, found, c, b, dist).counter
         == Apply(Prepared(counter, c, b), c, Recover(b.state))
  {
  }

  // ----- what the counter is told -----

  // The operation of the counter that an event calls for.
  function Heard(s: AppState, i: Input): Option<Op> {
    match i
    case VehicleState(state, engine, _, _, _, _, _) =>
      Some(Vehicle(state, if ModeOf(state) == Ready then None
                          else if engine.Some? then engine
                          else if s.odoKnown then Some(s.lastOdo) else None))
    case OdometerUpdate(v, _, _, _) => if v >= 0 then Some(Odometer(v)) else None
    case Gps(_, _) => None
    case Tick(_) => Some(Checkpoint)
    case CounterCall(op) => Some(op)
  }

  // Whatever the recorder does, the counter performs exactly that operation.
  lemma CounterHears(s: AppState, c: Clock, i: Input, dist: Recorders.Metric)
    ensures Handle(s, c, i, dist).counter ==
            if Heard(s, i).Some? then Apply(s.counter, c, Heard(s, i).value) else s.counter
  {
    match i
    case VehicleState(_, _, _, _, _, _, _) => VehicleHeard(s, c, i, dist);
    case OdometerUpdate(_, _, _, _) =>
    case Gps(_, _) =>
    case Tick(_) =>
    case CounterCall(_) =>
  }

  lemma VehicleHeard(s: AppState, c: Clock, i: Input, dist: Recorders.Metric)
    requires i.VehicleState?
    ensures Handle(s, c, i, dist).counter == Apply(s.counter, c, Heard(s, i).value)
  {
    var t := Noted(s, c, i.state, i.engine);
    assert t.counter == Apply(s.counter, c, Heard(s, i).value);
  }

  // ----- runs -----

  datatype Timed = Timed(clock: Clock, input: Input)

  function Run(s: AppState, ins: seq<Timed>, dist: Recorders.Metric): AppState {
    if ins == [] then s
    else Handle(Run(s, ins[..|ins| - 1], dist), ins[|ins| - 1].clock, ins[|ins| - 1].input, dist)
  }

  function UsedIn(ins: seq<Timed>, used: set<string>): set<string> {
    if ins == [] then used else UsedIn(ins[..|ins| - 1], used) + IdsOf(ins[|ins| - 1].input)
  }

  predicate AllPossible(ins: seq<Timed>, used: set<string>) {
    ins == [] ||
    (var n := |ins| - 1;
     AllPossible(ins[..n], used) && Possible(ins[n].clock, ins[n].input, UsedIn(ins[..n], used)))
  }

  lemma {:induction false} RunLockstep(s: AppState, ins: seq<Timed>, used: set<string>, dist: Recorders.Metric)
    requires Lockstep(s, used) && AllPossible(ins, used)
    ensures Lockstep(Run(s, ins, dist), UsedIn(ins, used))
  {
    if ins != [] {
      var n := |ins| - 1;
      RunLockstep(s, ins[..n], used, dist);
      HandleKeeps(Run(s, ins[..n], dist), ins[n].clock, ins[n].input, UsedIn(ins[..n], used), dist);
    }
  }
}
