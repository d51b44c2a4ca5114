/** The event handlers of internal/app/app.go, driving the counter and the
recorder from the same events.  Each handler runs to its end under one lock and
reads the clock once. */
module Handlers {
  import opened Prelude
  import opened Trips
  import Commands
  import CounterModel
  import Recorders

  type Clock = CounterModel.Clock

  const MIN_GPS_SPEED := 5.0

  datatype AppState = AppState(
    counter: CounterModel.State, rec: Recorders.Rec, db: Db, events: seq<Recorders.Event>,
    lastOdo: int, odoKnown: bool, mode: Mode, pending: bool)

  // `id` is the fresh trip id a handler would use, `engine` the live odometer if
  // the ECU answers; then whether inserts of points commit, whether the insert of a
  // trip does, and whether the counter can be published.
  datatype Input =
    | VehicleState(state: string, engine: Option<int>, id: string, profile: string,
                   insertOk: bool, startOk: bool, publishOk: bool)
    | OdometerUpdate(value: int, oid: string, oprofile: string, ostartOk: bool)
    | Gps(point: Point, ginsertOk: bool)
    | Tick(tinsertOk: bool)
    | CounterCall(op: CounterModel.Op)

  // An operation of the counter that one of the remaining handlers performs.
  predicate IsSetting(op: CounterModel.Op) { op.SetPolicy? || op.Dual? || op.Pack? || op.ResetCommand? }

  predicate Acceptable(i: Input) {
    match i
    case VehicleState(_, engine, _, _, _, _, _) => engine.Some? ==> engine.value >= 0
    case CounterCall(op) => IsSetting(op)
    case _ => true
  }

  function Recorded(s: AppState, plan: Recorders.Plan): AppState {
    s.(rec := plan.rec, db := ExecAll(s.db, plan.statements), events := s.events + plan.events)
  }

  function Called(s: AppState, call: Recorders.Call, dist: Recorders.Metric): AppState {
    Recorded(s, Recorders.PlanOf(s.rec, s.db, call, dist))
  }

  // Start a trip, or leave it pending when there is no odometer baseline or the
  // row cannot be inserted.
  function Started(s: AppState, c: Clock, id: string, profile: string, startOk: bool,
      dist: Recorders.Metric): AppState {
    if s.odoKnown && id !in s.db.trips && startOk
    then Called(s, Recorders.Start(id, profile, s.lastOdo, c.unix, startOk), dist)
    else s.(pending := true)
  }

  function Counted(s: AppState, c: Clock, op: CounterModel.Op): AppState {
    s.(counter := CounterModel.Apply(s.counter, c, op))
  }

  // The part of the vehicle-state handler before the recorder is called.
  function Noted(s: AppState, c: Clock, state: string, engine: Option<int>): AppState {
    var ready := ModeOf(state) == Ready;
    var live := !ready && engine.Some?;
    var t := s.(mode := ModeOf(state), pending := s.pending && ready,
                lastOdo := if live then engine.value else s.lastOdo, odoKnown := s.odoKnown || live);
    Counted(t, c, CounterModel.Vehicle(state, if !ready && t.odoKnown then Some(t.lastOdo) else None))
  }

  function OnVehicleState(s: AppState, c: Clock, i: Input, dist: Recorders.Metric): AppState
    requires i.VehicleState?
  {
    // A failed publication ends the handler before the recorder hears of the state.
    var t := Noted(s, c, i.state, i.engine);
    if !i.publishOk then t
    else
      match ModeOf(i.state)
      case Ready =>
        if t.rec.current.Some? then Called(t, Recorders.Resume(c.unix), dist).(pending := false)
        else Started(t, c, i.id, i.profile, i.startOk, dist)
      case Paused => Called(t, Recorders.Pause(c.unix, i.insertOk), dist)
      case Over => Called(t, Recorders.End(t.lastOdo, c.unix, i.insertOk), dist)
  }

  function OnOdometer(s: AppState, c: Clock, v: int, id: string, profile: string, startOk: bool,
                      dist: Recorders.Metric): AppState {
    if v < 0 then s
    else
      var startPending := s.pending && s.mode == Ready;
      var t := Counted(s.(lastOdo := v, odoKnown := true, pending := s.pending && !startPending), c,
          CounterModel.Odometer(v));
      if startPending && t.rec.current.None? then Started(t, c, id, profile, startOk, dist) else t
  }

  function Handle(s: AppState, c: Clock, i: Input, dist: Recorders.Metric): AppState {
    match i
    case VehicleState(_, _, _, _, _, _, _) => OnVehicleState(s, c, i, dist)
    case OdometerUpdate(v, id, profile, startOk) => OnOdometer(s, c, v, id, profile, startOk, dist)
    case Gps(p, insertOk) =>
      if Recorders.Collecting(s.rec) && p.speed >= MIN_GPS_SPEED
      then Called(s, Recorders.Add(p.(odometer := s.lastOdo), insertOk), dist) else s
    case Tick(insertOk) =>
      var t := Called(Called(s, Recorders.Flush(insertOk), dist), Recorders.Checkpoint(c.unix), dist);
      Counted(t, c, CounterModel.Checkpoint)
    case CounterCall(op) => Counted(s, c, op)
  }

  // Startup from what is durable: the counter reconciles the odometer while it is
  // still active, is configured, and only then told the vehicle state; then the
  // recorder recovers; then a trip is started if one is due.
  datatype Boot = Boot(odometer: Option<int>, settings: seq<CounterModel.Op>, state: string,
                       id: string, profile: string, startOk: bool)

  predicate BootSettings(ops: seq<CounterModel.Op>) {
    forall op :: op in ops ==> op.SetPolicy? || op.Dual? || (op.Pack? && op.seed)
  }

  function Configured(s: CounterModel.State, c: Clock, ops: seq<CounterModel.Op>): CounterModel.State {
    if ops == [] then s else CounterModel.Apply(Configured(s, c, ops[..|ops| - 1]), c, ops[|ops| - 1])
  }

  function Booted(counter: CounterModel.State, db: Db, events: seq<Recorders.Event>, found: Option<Trip>, c: Clock,
                  b: Boot, dist: Recorders.Metric): AppState {
    var known := b.odometer.Some?;
    var odo := if known then b.odometer.value else 0;
    var reconciled := if known then CounterModel.Apply(counter, c, CounterModel.Odometer(odo)) else counter;
    var recovered := CounterModel.Apply(Configured(reconciled, c, b.settings), c, CounterModel.Recover(b.state));
    var s := AppState(recovered, Recorders.IDLE, db, events, odo, known, ModeOf(b.state), false);
    var t := Recorded(s, Recorders.RecoverPlan(Recorders.IDLE, db, found, ModeOf(b.state), c.unix));
    if ModeOf(b.state) == Ready && t.rec.current.None? then Started(t, c, b.id, b.profile, b.startOk, dist) else t
  }
}
