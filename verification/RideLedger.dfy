/** One ride seen by two machines.  The recorder takes a trip's distance and time
from its own row, the counter accumulates its own; driven by the same events
they agree, up to an explicit ledger of what only one of them counts. */
module RideLedger {
  import opened Prelude
  import opened Trips
  import opened Handlers
  import opened CounterModel
  import CounterRuns
  import Recorders
  import RideRuns
  import opened AppRuns

  // Odometer movement since the ride began: forward while ready, net while not
  // ready, backward while ready.  The counter may be reset meanwhile; what it should
  // show is what it showed at first, or nothing since its last reset, and the forward
  // movement from there.
  datatype Ledger = Ledger(credit: int, idle: int, rollback: int, reset: bool, sinceReset: int)

  function Opened(r: Row): Ledger { Ledger(0, 0, 0, false, r.distanceM) }

  // The odometer reading an event carries to the counter.
  function ReadingOf(s: AppState, i: Input): Option<int> {
    match i
    case VehicleState(state, engine, _, _, _, _, _) =>
      if ModeOf(state) == Ready then None
      else if engine.Some? then engine
      else if s.odoKnown then Some(s.lastOdo) else None
    case OdometerUpdate(v, _, _, _) => if v >= 0 then Some(v) else None
    case _ => None
  }

  function Posted(l: Ledger, s: AppState, i: Input, reset: bool): Ledger {
    var v := ReadingOf(s, i);
    var moved := if v.Some? then v.value - s.lastOdo else 0;
    var gain := if s.mode == Ready then Max(0, moved) else 0;
    Ledger(l.credit + gain,
           if s.mode == Ready then l.idle else l.idle + moved,
           if s.mode == Ready then l.rollback + Max(0, -moved) else l.rollback,
           l.reset || reset,
           if reset then 0 else l.sinceReset + gain)
  }

  function LedgerOf(s: AppState, ins: seq<Timed>, dist: Recorders.Metric): Ledger {
    if ins == [] then Opened(s.counter.row)
    else
      var n := |ins| - 1;
      var before := Run(s, ins[..n], dist);
      Posted(LedgerOf(s, ins[..n], dist), before, ins[n].input,
             Handle(before, ins[n].clock, ins[n].input, dist).counter.row.generation != before.counter.row.generation)
  }

  // The ride that is open at s stays open.
  predicate Riding(s: AppState, ins: seq<Timed>, dist: Recorders.Metric) {
    Run(s, ins, dist).rec.current.Some? && (ins == [] || Riding(s, ins[..|ins| - 1], dist))
  }

  // ----- distance -----

  lemma VehiclePosts(s: AppState, c: Clock, state: string, engine: Option<int>, used: set<string>)
    requires Lockstep(s, used) && s.odoKnown && (engine.Some? ==> engine.value >= 0)
    ensures
      var t := Noted(s, c, state, engine);
      var v := ReadingOf(s, VehicleState(state, engine, "", "", true, true, true));
      var moved := if v.Some? then v.value - s.lastOdo else 0;
      && t.odoKnown && t.lastOdo == s.lastOdo + moved
      && (t.counter.row.generation == s.counter.row.generation ==>
            t.counter.row.distanceM == s.counter.row.distanceM + if s.mode == Ready then Max(0, moved) else 0)
      && (t.counter.row.generation != s.counter.row.generation ==> t.counter.row.distanceM == 0)
  {
  }

  // What one event does to the odometer and to the counter's distance.
  lemma HandlePosts(s: AppState, c: Clock, i: Input, used: set<string>, dist: Recorders.Metric)
    requires Lockstep(s, used) && s.odoKnown && Possible(c, i, used)
    ensures
      var t := Handle(s, c, i, dist);
      var v := ReadingOf(s, i);
      var moved := if v.Some? then v.value - s.lastOdo else 0;
      && t.odoKnown && t.lastOdo == s.lastOdo + moved
      && (t.counter.row.generation == s.counter.row.generation ==>
            t.counter.row.distanceM == s.counter.row.distanceM + if s.mode == Ready then Max(0, moved) else 0)
      && (t.counter.row.generation != s.counter.row.generation ==> t.counter.row.distanceM == 0)
  {
    match i
    case VehicleState(state, engine, id, profile, insertOk, startOk, publishOk) =>
      VehiclePosts(s, c, state, engine, used);
    case CounterCall(op) => SettingPosts(s.counter, c, op);
    case _ =>
  }

  lemma SettingPosts(r: State, c: Clock, op: Op)
    requires IsSetting(op)
    ensures
      var t := Apply(r, c, op).row;
      t.distanceM == if t.generation == r.row.generation then r.row.distanceM else 0
  {
  }

  // ----- the trip -----

  // An event either ends the open trip or leaves it the same trip.
  lemma HandleTrip(s: AppState, c: Clock, i: Input, used: set<string>, dist: Recorders.Metric)
    requires Lockstep(s, used) && Possible(c, i, used) && s.rec.current.Some?
    ensures
      var t := Handle(s, c, i, dist).rec.current;
      && (t.Some? ==>
            && t.value.id == s.rec.current.value.id
            && t.value.startOdometer == s.rec.current.value.startOdometer)
      && (t.None? ==> i.VehicleState? && ModeOf(i.state) == Over)
  {
    match i
    case VehicleState(state, engine, id, profile, insertOk, startOk, publishOk) =>
      var t := Noted(s, c, state, engine);
      match ModeOf(state) {
        case Ready => CallOnTrip(t, Recorders.Resume(c.unix), dist);
        case Paused => CallOnTrip(t, Recorders.Pause(c.unix, insertOk), dist);
        case Over => EndOnTrip(t.rec, t.db, t.lastOdo, c.unix, insertOk);
      }
    case Tick(insertOk) =>
      CallOnTrip(s, Recorders.Flush(insertOk), dist);
      CalledRecordable(s, Recorders.Flush(insertOk), used, dist);
      CallOnTrip(Called(s, Recorders.Flush(insertOk), dist), Recorders.Checkpoint(c.unix), dist);
    case Gps(p, insertOk) => CallOnTrip(s, Recorders.Add(p.(odometer := s.lastOdo), insertOk), dist);
    case _ =>
  }

  // While a ride that began at the odometer reading of s is open, the odometer
  // has moved from its start by credit + idle - rollback, and the counter shows the
  // credit since its last reset.
  lemma {:induction false} LedgerHolds(s: AppState, ins: seq<Timed>, used: set<string>, dist: Recorders.Metric)
    requires Lockstep(s, used) && AllPossible(ins, used) && s.odoKnown
    requires Riding(s, ins, dist) && s.rec.current.Some? && s.rec.current.value.startOdometer == s.lastOdo
    ensures
      var t, l := Run(s, ins, dist), LedgerOf(s, ins, dist);
      && t.odoKnown && t.rec.current.value.id == s.rec.current.value.id
      && t.rec.current.value.startOdometer == s.lastOdo
      && t.lastOdo - t.rec.current.value.startOdometer == l.credit + l.idle - l.rollback
      && t.counter.row.distanceM == l.sinceReset
      && (!l.reset ==> l.sinceReset == s.counter.row.distanceM + l.credit)
  {
    if ins != [] {
      var n := |ins| - 1;
      LedgerHolds(s, ins[..n], used, dist);
      RunLockstep(s, ins[..n], used, dist);
      var before, used' := Run(s, ins[..n], dist), UsedIn(ins[..n], used);
      HandlePosts(before, ins[n].clock, ins[n].input, used', dist);
      HandleTrip(before, ins[n].clock, ins[n].input, used', dist);
    }
  }

  // ----- time -----

  // The trip has been timed as long as the counter, but for the k seconds the
  // counter showed when the trip began.
  predicate Synced(t: Trip, r: Row, now: int, k: int) {
    && 0 <= t.activeStartedAt <= now && CounterRuns.Timing(r, now)
    && (r.active <==> t.activeStartedAt > 0)
    && t.durationS + Elapsed(t, now) == Shown(r, now) - k
  }

  // The points the event writes are inserted, and its counter is published.
  predicate Succeeds(i: Input) {
    match i
    case VehicleState(_, _, _, _, insertOk, _, publishOk) => insertOk && publishOk
    case Gps(_, ok) => ok
    case Tick(ok) => ok
    case _ => true
  }

  lemma VehicleSynced(s: AppState, c: Clock, i: Input, used: set<string>, since: int, k: int, dist: Recorders.Metric)
    requires Lockstep(s, used) && Possible(c, i, used) && Succeeds(i) && s.rec.current.Some?
    requires i.VehicleState? && ModeOf(i.state) != Over
    requires Synced(s.rec.current.value, s.counter.row, since, k) && since <= c.unix && Trustworthy(c)
    ensures
      var t := Handle(s, c, i, dist);
      t.counter.row.generation == s.counter.row.generation ==>
        t.rec.current.Some? && Synced(t.rec.current.value, t.counter.row, c.unix, k)
  {
    var t := Noted(s, c, i.state, i.engine);
    var trip := s.rec.current.value;
    var odometer := if ModeOf(i.state) != Ready && t.odoKnown then Some(t.lastOdo) else None;
    VehicleTiming(s.counter.row, c, i.state, odometer, since);
    if ModeOf(i.state) == Ready {
      CallOnTrip(t, Recorders.Resume(c.unix), dist);
    } else {
      CallOnTrip(t, Recorders.Pause(c.unix, i.insertOk), dist);
    }
  }

  lemma VehicleTiming(r: Row, c: Clock, state: string, odometer: Option<int>, since: int)
    requires CounterRuns.Timing(r, since) && since <= c.unix && Trustworthy(c)
    ensures
      var t := OnVehicle(r, c, state, odometer);
      && CounterRuns.Timing(t, c.unix) && t.active == IsReady(state)
      && (t.generation == r.generation ==> Shown(t, c.unix) == Shown(r, c.unix))
  {
    if !IsReady(state) && odometer.Some? && odometer.value >= 0 {
      assert Shown(Observed(r, odometer.value), c.unix) == Shown(r, c.unix);
    }
  }

  lemma SettingTiming(r: State, c: Clock, op: Op, since: int)
    requires IsSetting(op) && CounterRuns.Timing(r.row, since) && since <= c.unix && Trustworthy(c)
    ensures
      var t := Apply(r, c, op).row;
      && CounterRuns.Timing(t, c.unix) && t.active == r.row.active
      && (t.generation == r.row.generation ==> Shown(t, c.unix) == Shown(r.row, c.unix))
  {
  }

  lemma TickSynced(s: AppState, c: Clock, insertOk: bool, used: set<string>, since: int, k: int, dist: Recorders.Metric)
    requires Lockstep(s, used) && s.rec.current.Some?
    requires Synced(s.rec.current.value, s.counter.row, since, k) && since <= c.unix && Trustworthy(c)
    ensures
      var t := Handle(s, c, Tick(insertOk), dist);
      t.rec.current.Some? && Synced(t.rec.current.value, t.counter.row, c.unix, k)
  {
    CallOnTrip(s, Recorders.Flush(insertOk), dist);
    CalledRecordable(s, Recorders.Flush(insertOk), used, dist);
    CallOnTrip(Called(s, Recorders.Flush(insertOk), dist), Recorders.Checkpoint(c.unix), dist);
  }

  lemma HandleSynced(s: AppState, c: Clock, i: Input, used: set<string>, since: int, k: int, dist: Recorders.Metric)
    requires Lockstep(s, used) && Possible(c, i, used) && Succeeds(i) && s.rec.current.Some?
    requires Synced(s.rec.current.value, s.counter.row, since, k) && since <= c.unix && Trustworthy(c)
    requires Handle(s, c, i, dist).rec.current.Some?
    ensures
      var t := Handle(s, c, i, dist);
      t.counter.row.generation == s.counter.row.generation ==>
        Synced(t.rec.current.value, t.counter.row, c.unix, k)
  {
    match i
    case VehicleState(state, engine, id, profile, insertOk, startOk, publishOk) =>
      if ModeOf(state) != Over {
        VehicleSynced(s, c, i, used, since, k, dist);
      } else {
        LockEndsExactly(s, c, i, used, dist);
      }
    case Tick(insertOk) => TickSynced(s, c, insertOk, used, since, k, dist);
    case Gps(p, insertOk) => CallOnTrip(s, Recorders.Add(p.(odometer := s.lastOdo), insertOk), dist);
    case CounterCall(op) => SettingTiming(s.counter, c, op, since);
    case OdometerUpdate(v, id, profile, startOk) =>
  }

  // A lock hands the noted state to the recorder, if the counter could be published.
  lemma LockIsEnd(s: AppState, c: Clock, i: Input, dist: Recorders.Metric)
    requires i.VehicleState? && ModeOf(i.state) == Over
    ensures
      var t := Noted(s, c, i.state, i.engine);
      && t.rec == s.rec && t.db == s.db && t.events == s.events
      && Handle(s, c, i, dist) ==
           if i.publishOk then Recorded(t, Recorders.EndPlan(t.rec, t.db, t.lastOdo, c.unix, i.insertOk)) else t
  {
  }

  lemma EndedRide(t: AppState, now: int, insertOk: bool, used: set<string>)
    requires Recordable(t, used) && t.rec.current.Some?
    requires Recorders.EndPlan(t.rec, t.db, t.lastOdo, now, insertOk).rec.current.None?
    ensures
      var next := Recorded(t, Recorders.EndPlan(t.rec, t.db, t.lastOdo, now, insertOk));
      var trip := t.rec.current.value;
      var distance := t.lastOdo - trip.startOdometer;
      && next.counter == t.counter && next.lastOdo == t.lastOdo
      && next.events == t.events +
           if distance < Recorders.MIN_TRIP_DISTANCE then []
           else [Recorders.TripCompleted(trip.id, trip.profile, distance, trip.durationS + Elapsed(trip, now))]
  {
    RideRuns.EndEvents(t.rec, t.db, t.lastOdo, now, insertOk, used);
  }

  // A lock that ends the ride announces the odometer advance and the time ridden, or
  // nothing below the floor.
  lemma LockAnnounces(s: AppState, c: Clock, i: Input, used: set<string>, dist: Recorders.Metric)
    requires Lockstep(s, used) && Possible(c, i, used) && s.rec.current.Some?
    requires i.VehicleState? && ModeOf(i.state) == Over && Handle(s, c, i, dist).rec.current.None?
    ensures
      var t := Noted(s, c, i.state, i.engine);
      var next := Handle(s, c, i, dist);
      var trip := s.rec.current.value;
      var distance := t.lastOdo - trip.startOdometer;
      && next.counter == t.counter && next.lastOdo == t.lastOdo
      && next.events == s.events +
           if distance < Recorders.MIN_TRIP_DISTANCE then []
           else [Recorders.TripCompleted(trip.id, trip.profile, distance, trip.durationS + Elapsed(trip, c.unix))]
  {
    LockIsEnd(s, c, i, dist);
    NotedKeeps(s, c, i.state, i.engine, used);
    EndedRide(Noted(s, c, i.state, i.engine), c.unix, i.insertOk, used);
  }

  // A lock ends the open ride exactly when the counter could be published and the ride
  // is either too short or can write its points; otherwise the recorder has not moved.
  lemma LockEndsExactly(s: AppState, c: Clock, i: Input, used: set<string>, dist: Recorders.Metric)
    requires Lockstep(s, used) && Possible(c, i, used) && s.rec.current.Some?
    requires i.VehicleState? && ModeOf(i.state) == Over
    ensures
      var t := Noted(s, c, i.state, i.engine);
      var next := Handle(s, c, i, dist);
      var distance := t.lastOdo - s.rec.current.value.startOdometer;
      && (next.rec.current.None? <==>
            i.publishOk && (distance < Recorders.MIN_TRIP_DISTANCE || s.rec.buffer == [] || i.insertOk))
      && (next.rec.current.Some? ==> next.rec == s.rec && next.db == s.db && next.events == s.events)
  {
    var t := Noted(s, c, i.state, i.engine);
    LockIsEnd(s, c, i, dist);
    if i.publishOk {
      RideRuns.EndInStep(t.rec, t.db, t.lastOdo, c.unix, i.insertOk, used);
      assert s.events + [] == s.events;
    }
  }

  // A lock that finds no odometer reading, neither remembered nor live, discards
  // the ride however far it went: the handler passes on the initial reading 0.
  lemma LockWithoutOdometer(s: AppState, c: Clock, i: Input, used: set<string>, dist: Recorders.Metric)
    requires Lockstep(s, used) && Possible(c, i, used) && s.rec.current.Some? && s.rec.current.value.startOdometer >= 0
    requires i.VehicleState? && ModeOf(i.state) == Over && i.publishOk
    requires !s.odoKnown && i.engine.None?
    ensures
      var next := Handle(s, c, i, dist);
      next.events == s.events && next.rec.current.None? && s.rec.current.value.id !in next.db.trips
  {
    var t := Noted(s, c, i.state, i.engine);
    LockIsEnd(s, c, i, dist);
    RideRuns.EndInStep(t.rec, t.db, t.lastOdo, c.unix, i.insertOk, used);
    assert s.events + [] == s.events;
  }

  // Such a state is reached: a restart takes up a paused ride while the ECU does not
  // answer, and the lock comes before any reading.
  lemma RestartThenLock(counter: State, db: Db, events: seq<Recorders.Event>, t: Trip, c: Clock, b: Boot,
                        later: Clock, i: Input, used: set<string>, dist: Recorders.Metric)
    requires Consistent(counter.row) && RideRuns.Safe(db, events, used) && Recorders.Found(db, Some(t))
    requires t.startOdometer >= 0
    requires c.unix > 0 && b.id !in used && BootSettings(b.settings) && b.odometer.None? && ModeOf(b.state) == Paused
    requires Possible(later, i, used + {b.id}) && i.VehicleState? && ModeOf(i.state) == Over
    requires i.publishOk && i.engine.None?
    ensures
      var s := Booted(counter, db, events, Some(t), c, b, dist);
      var next := Handle(s, later, i, dist);
      && s.rec.current == Some(t.(activeStartedAt := 0)) && !s.odoKnown
      && t.id !in next.db.trips && next.events == events && next.rec.current.None?
  {
    var s := Booted(counter, db, events, Some(t), c, b, dist);
    BootLocksteps(counter, db, events, Some(t), c, b, used, dist);
    RideRuns.RecoverInStep(db, Some(t), Paused, c.unix, used);
    assert events + [] == events;
    LockWithoutOdometer(s, later, i, used + {b.id}, dist);
  }

  // A ride of 5 km, paused when the service restarted.
  const LONG_RIDE := Trip("a", "", Recording, TRUSTED, 0, 0, 1000, 0, 0, 600, 50.0, TRUSTED)

  lemma LongRideIsLost(dist: Recorders.Metric)
    ensures
      var counter := State(FirstRow(Clock(TRUSTED, 0), Some(6000)), map[]);
      var db := Db(map["a" := LONG_RIDE], []);
      var later := Clock(TRUSTED + 700, 0);
      var s := Booted(counter, db, [], Some(LONG_RIDE), later, Boot(None, [], "parked", "b", "", true), dist);
      var next := Handle(s, later, VehicleState("stand-by", None, "c", "", true, true, true), dist);
      "a" !in next.db.trips && next.events == []
  {
    var counter := State(FirstRow(Clock(TRUSTED, 0), Some(6000)), map[]);
    var db := Db(map["a" := LONG_RIDE], []);
    var later := Clock(TRUSTED + 700, 0);
    assert db.trips["a"] == LONG_RIDE;
    RestartThenLock(counter, db, [], LONG_RIDE, later, Boot(None, [], "parked", "b", "", true), later,
                    VehicleState("stand-by", None, "c", "", true, true, true), {"a"}, dist);
  }

  // Clocks of a run: trustworthy, never going back.
  predicate Steady(since: int, ins: seq<Timed>) {
    ins == [] ||
    (var n := |ins| - 1;
     && Steady(since, ins[..n]) && LastTime(since, ins[..n]) <= ins[n].clock.unix
     && Trustworthy(ins[n].clock) && Succeeds(ins[n].input))
  }

  function LastTime(since: int, ins: seq<Timed>): int { if ins == [] then since else ins[|ins| - 1].clock.unix }

  lemma {:induction false} TimesAgree(s: AppState, ins: seq<Timed>, used: set<string>, since: int, k: int,
      dist: Recorders.Metric)
    requires Lockstep(s, used) && AllPossible(ins, used) && Steady(since, ins) && Riding(s, ins, dist)
    requires s.rec.current.Some? && Synced(s.rec.current.value, s.counter.row, since, k)
    requires !LedgerOf(s, ins, dist).reset
    ensures
      var t := Run(s, ins, dist);
      Synced(t.rec.current.value, t.counter.row, LastTime(since, ins), k)
  {
    if ins != [] {
      var n := |ins| - 1;
      TimesAgree(s, ins[..n], used, since, k, dist);
      RunLockstep(s, ins[..n], used, dist);
      HandleSynced(Run(s, ins[..n], dist), ins[n].clock, ins[n].input, UsedIn(ins[..n], used),
                   LastTime(since, ins[..n]), k, dist);
    }
  }

  // ----- a ride from start to finish -----

  // The ride just begun is aligned with the counter.
  predicate Aligned(s: AppState, now: int) {
    && s.rec.current.Some? && s.odoKnown && s.rec.current.value.startOdometer == s.lastOdo
    && Synced(s.rec.current.value, s.counter.row, now, Shown(s.counter.row, now))
  }

  // The trip is the one the event offers to start, from now.
  predicate IsNew(t: Trip, i: Input, c: Clock) {
    && t.status == Recording && t.startedAt == t.activeStartedAt == c.unix && t.durationS == 0
    && match i
       case VehicleState(_, _, id, profile, _, _, _) => t.id == id && t.profile == profile
       case OdometerUpdate(_, id, profile, _) => t.id == id && t.profile == profile
       case _ => false
  }

  lemma StartedAligned(t: AppState, c: Clock, id: string, profile: string, startOk: bool, used: set<string>,
      dist: Recorders.Metric)
    requires Recordable(t, used) && id !in used && t.rec.current.None? && Trustworthy(c)
    requires CounterRuns.Timing(t.counter.row, c.unix) && t.counter.row.active
    ensures
      var next := Started(t, c, id, profile, startOk, dist);
      && next.counter == t.counter
      && (next.rec.current.Some? ==>
            Aligned(next, c.unix)
            && next.rec.current.value == Recorders.NewTrip(id, profile, t.lastOdo, c.unix))
  {
    StartedKeeps(t, c, id, profile, startOk, used, dist);
  }

  lemma VehicleBegins(s: AppState, c: Clock, i: Input, used: set<string>, since: int, dist: Recorders.Metric)
    requires Lockstep(s, used) && Possible(c, i, used) && s.rec.current.None? && i.VehicleState?
    requires CounterRuns.Timing(s.counter.row, since) && since <= c.unix && Trustworthy(c)
    requires Handle(s, c, i, dist).rec.current.Some?
    ensures ModeOf(i.state) == Ready && Aligned(Handle(s, c, i, dist), c.unix)
    ensures IsNew(Handle(s, c, i, dist).rec.current.value, i, c)
    ensures Handle(s, c, i, dist).counter == Noted(s, c, i.state, i.engine).counter
  {
    var t := Noted(s, c, i.state, i.engine);
    NotedKeeps(s, c, i.state, i.engine, used);
    var odometer := if ModeOf(i.state) != Ready && t.odoKnown then Some(t.lastOdo) else None;
    VehicleTiming(s.counter.row, c, i.state, odometer, since);
    match ModeOf(i.state) {
      case Ready => StartedAligned(t, c, i.id, i.profile, i.startOk, used, dist);
      case Paused => CallOnTrip(t, Recorders.Pause(c.unix, i.insertOk), dist);
      case Over => EndOnTrip(t.rec, t.db, t.lastOdo, c.unix, i.insertOk);
    }
  }

  lemma OdometerBegins(s: AppState, c: Clock, i: Input, used: set<string>, since: int, dist: Recorders.Metric)
    requires Lockstep(s, used) && Possible(c, i, used) && s.rec.current.None? && i.OdometerUpdate?
    requires CounterRuns.Timing(s.counter.row, since) && since <= c.unix && Trustworthy(c)
    requires Handle(s, c, i, dist).rec.current.Some?
    ensures Aligned(Handle(s, c, i, dist), c.unix) && IsNew(Handle(s, c, i, dist).rec.current.value, i, c)
  {
    var startPending := s.pending && s.mode == Ready;
    var t := Counted(s.(lastOdo := i.value, odoKnown := true, pending := s.pending && !startPending), c,
        Odometer(i.value));
    StartedAligned(t, c, i.oid, i.oprofile, i.ostartOk, used, dist);
  }

  // The event that starts a ride leaves it aligned with the counter; under the
  // ride policy a new session starts the counter from zero with it.
  lemma RideBegins(s: AppState, c: Clock, i: Input, used: set<string>, since: int, dist: Recorders.Metric)
    requires Lockstep(s, used) && Possible(c, i, used) && s.rec.current.None?
    requires CounterRuns.Timing(s.counter.row, since) && since <= c.unix && Trustworthy(c)
    requires Handle(s, c, i, dist).rec.current.Some?
    ensures
      var t := Handle(s, c, i, dist);
      && Aligned(t, c.unix) && IsNew(t.rec.current.value, i, c)
      && (i.VehicleState? && s.counter.row.policy == Ride && !s.counter.row.sessionOpen ==>
            t.counter.row.distanceM == 0 && Shown(t.counter.row, c.unix) == 0)
  {
    match i
    case VehicleState(_, _, _, _, _, _, _) => VehicleBegins(s, c, i, used, since, dist);
    case OdometerUpdate(_, _, _, _) => OdometerBegins(s, c, i, used, since, dist);
    case Tick(insertOk) =>
      CallOnTrip(s, Recorders.Flush(insertOk), dist);
      CalledRecordable(s, Recorders.Flush(insertOk), used, dist);
      CallOnTrip(Called(s, Recorders.Flush(insertOk), dist), Recorders.Checkpoint(c.unix), dist);
    case _ =>
  }

  // Startup of a ready vehicle that left no open row, with a reading, starts a trip there.
  lemma BootBegins(counter: State, db: Db, events: seq<Recorders.Event>, c: Clock, b: Boot, used: set<string>,
                   dist: Recorders.Metric)
    requires Recorders.Found(db, None) && RideRuns.Safe(db, events, used) && b.id !in used && c.unix > 0
    requires ModeOf(b.state) == Ready && b.odometer.Some? && b.startOk
    ensures
      var s := Booted(counter, db, events, None, c, b, dist);
      && s.rec.current.Some? && s.odoKnown && s.lastOdo == b.odometer.value && !s.pending
      && IsNew(s.rec.current.value, VehicleState(b.state, None, b.id, b.profile, true, true, true), c)
      && s.rec.current.value.startOdometer == b.odometer.value
  {
    RideRuns.RecoverInStep(db, None, Ready, c.unix, used);
  }

  // The ledger of a ride followed from the state s in which it began through a lock.
  function RideLedgerOf(s: AppState, ins: seq<Timed>, c: Clock, last: Input, dist: Recorders.Metric): Ledger {
    var before := Run(s, ins, dist);
    Posted(LedgerOf(s, ins, dist), before, last,
           Handle(before, c, last, dist).counter.row.generation != before.counter.row.generation)
  }

  // If the lock ends the ride, the announced distance is the ledger's, whatever failed
  // on the way; and the counter shows the forward movement since its last reset.
  lemma RideDistance(s: AppState, ins: seq<Timed>, c: Clock, last: Input, used: set<string>, dist: Recorders.Metric)
    requires Lockstep(s, used) && AllPossible(ins, used) && Riding(s, ins, dist) && s.odoKnown
    requires s.rec.current.Some? && s.rec.current.value.startOdometer == s.lastOdo
    requires Possible(c, last, UsedIn(ins, used)) && last.VehicleState? && ModeOf(last.state) == Over
    ensures
      var before, l := Run(s, ins, dist), RideLedgerOf(s, ins, c, last, dist);
      var after := Handle(before, c, last, dist);
      var distance := l.credit + l.idle - l.rollback;
      && after.counter.row.distanceM == l.sinceReset
      && (!l.reset ==> l.sinceReset == s.counter.row.distanceM + l.credit)
      && (after.rec.current.None? && distance < Recorders.MIN_TRIP_DISTANCE ==> after.events == before.events)
      && (after.rec.current.None? && distance >= Recorders.MIN_TRIP_DISTANCE ==>
            && |after.events| == |before.events| + 1
            && after.events[|before.events|].id == s.rec.current.value.id
            && after.events[|before.events|].distanceM == distance)
  {
    var before, used' := Run(s, ins, dist), UsedIn(ins, used);
    RunLockstep(s, ins, used, dist);
    LedgerHolds(s, ins, used, dist);
    HandlePosts(before, c, last, used', dist);
    if Handle(before, c, last, dist).rec.current.None? {
      LockAnnounces(before, c, last, used', dist);
    }
  }

  // While the clock is steady and every event of the ride succeeds, the announced time
  // is what the counter gained, unless it was reset.
  lemma RideTime(s: AppState, ins: seq<Timed>, c: Clock, last: Input, used: set<string>, since: int,
      dist: Recorders.Metric)
    requires Lockstep(s, used) && AllPossible(ins, used) && Riding(s, ins, dist) && Steady(since, ins)
    requires s.rec.current.Some? && Synced(s.rec.current.value, s.counter.row, since, Shown(s.counter.row, since))
    requires Possible(c, last, UsedIn(ins, used)) && Trustworthy(c) && LastTime(since, ins) <= c.unix
    requires last.VehicleState? && ModeOf(last.state) == Over
    requires Handle(Run(s, ins, dist), c, last, dist).rec.current.None? && !RideLedgerOf(s, ins, c, last, dist).reset
    ensures
      var before := Run(s, ins, dist);
      var after := Handle(before, c, last, dist);
      |after.events| == |before.events| + 1 ==>
        after.events[|before.events|].durationS == after.counter.row.durationS - Shown(s.counter.row, since)
  {
    var before, used' := Run(s, ins, dist), UsedIn(ins, used);
    RunLockstep(s, ins, used, dist);
    TimesAgree(s, ins, used, since, Shown(s.counter.row, since), dist);
    LockAnnounces(before, c, last, used', dist);
    var t := Noted(before, c, last.state, last.engine);
    var odometer := if t.odoKnown then Some(t.lastOdo) else None;
    VehicleTiming(before.counter.row, c, last.state, odometer, LastTime(since, ins));
  }

  // So with no reset, no rollback and no movement while paused, distance and time are
  // those the counter gained.
  lemma RideMatchesCounter(s: AppState, ins: seq<Timed>, c: Clock, last: Input, used: set<string>, since: int,
                           dist: Recorders.Metric)
    requires Lockstep(s, used) && AllPossible(ins, used) && Riding(s, ins, dist) && Steady(since, ins)
    requires Aligned(s, since)
    requires Possible(c, last, UsedIn(ins, used)) && Trustworthy(c) && LastTime(since, ins) <= c.unix
    requires last.VehicleState? && ModeOf(last.state) == Over
    requires Handle(Run(s, ins, dist), c, last, dist).rec.current.None?
    ensures
      var before, l := Run(s, ins, dist), RideLedgerOf(s, ins, c, last, dist);
      var after := Handle(before, c, last, dist);
      !l.reset && l.rollback == 0 && l.idle == 0 && l.credit >= Recorders.MIN_TRIP_DISTANCE ==>
        && |after.events| == |before.events| + 1
        && (var e := after.events[|before.events|];
            && e.id == s.rec.current.value.id
            && e.distanceM == after.counter.row.distanceM - s.counter.row.distanceM
            && e.durationS == after.counter.row.durationS - Shown(s.counter.row, since))
  {
    RideDistance(s, ins, c, last, used, dist);
    if !RideLedgerOf(s, ins, c, last, dist).reset {
      RideTime(s, ins, c, last, used, since, dist);
    }
  }

  // A whole ride that opens a session under the ride policy, from the event that
  // begins it to the lock: if nothing reset the counter and the scooter neither
  // rolled its odometer back nor moved while paused, the announced distance and
  // time are the ones the counter then shows.
  lemma WholeRide(s: AppState, c0: Clock, first: Input, ins: seq<Timed>, c: Clock, last: Input, used: set<string>,
                  since: int, dist: Recorders.Metric)
    requires Lockstep(s, used) && Possible(c0, first, used) && first.VehicleState? && s.rec.current.None?
    requires s.counter.row.policy == Ride && !s.counter.row.sessionOpen
    requires CounterRuns.Timing(s.counter.row, since) && since <= c0.unix && Trustworthy(c0)
    requires Handle(s, c0, first, dist).rec.current.Some?
    requires var t, more := Handle(s, c0, first, dist), used + IdsOf(first);
             && AllPossible(ins, more) && Riding(t, ins, dist) && Steady(c0.unix, ins)
             && Possible(c, last, UsedIn(ins, more))
             && Handle(Run(t, ins, dist), c, last, dist).rec.current.None?
    requires Trustworthy(c) && LastTime(c0.unix, ins) <= c.unix
    requires last.VehicleState? && ModeOf(last.state) == Over
    ensures
      var t := Handle(s, c0, first, dist);
      var before, l := Run(t, ins, dist), RideLedgerOf(t, ins, c, last, dist);
      var after := Handle(before, c, last, dist);
      !l.reset && l.rollback == 0 && l.idle == 0 && l.credit >= Recorders.MIN_TRIP_DISTANCE ==>
        && |after.events| == |before.events| + 1
        && (var e := after.events[|before.events|];
            && e.id == t.rec.current.value.id
            && e.distanceM == after.counter.row.distanceM && e.durationS == after.counter.row.durationS)
  {
    RideBegins(s, c0, first, used, since, dist);
    HandleKeeps(s, c0, first, used, dist);
    RideMatchesCounter(Handle(s, c0, first, dist), ins, c, last, used + IdsOf(first), c0.unix, dist);
  }
}
