/** Whether a ready vehicle's ride is recorded.  It is, unless the counter could not
be published when the vehicle turned ready: then nothing starts the ride until a
ready state is published. */
module Served {
  import opened Prelude
  import opened Trips
  import opened Handlers
  import opened CounterModel
  import Recorders
  import RideRuns
  import opened AppRuns

  // The ride is being recorded, or about to be.
  predicate IsServed(s: AppState) { Recorders.Collecting(s.rec) || s.pending }

  predicate IsPublishedReady(i: Input) { i.VehicleState? && ModeOf(i.state) == Ready && i.publishOk }

  predicate Stops(i: Input) { i.VehicleState? && ModeOf(i.state) != Ready }

  lemma VehicleServed(s: AppState, c: Clock, i: Input, used: set<string>, dist: Recorders.Metric)
    requires Lockstep(s, used) && Possible(c, i, used) && i.VehicleState? && !Stops(i)
    ensures IsServed(Handle(s, c, i, dist)) <==> IsServed(s) || i.publishOk
  {
    var t := Noted(s, c, i.state, i.engine);
    NotedKeeps(s, c, i.state, i.engine, used);
    if i.publishOk {
      if t.rec.current.Some? {
        CallOnTrip(t, Recorders.Resume(c.unix), dist);
      } else {
        StartedKeeps(t, c, i.id, i.profile, i.startOk, used, dist);
      }
    }
  }

  lemma OdometerServed(s: AppState, c: Clock, i: Input, used: set<string>, dist: Recorders.Metric)
    requires Lockstep(s, used) && Possible(c, i, used) && i.OdometerUpdate?
    ensures IsServed(Handle(s, c, i, dist)) <==> IsServed(s)
  {
    if i.value >= 0 && s.pending && s.rec.current.None? {
      var t := Counted(s.(lastOdo := i.value, odoKnown := true, pending := false), c, Odometer(i.value));
      StartedKeeps(t, c, i.oid, i.oprofile, i.ostartOk, used, dist);
    }
  }

  lemma TickServed(s: AppState, c: Clock, insertOk: bool, used: set<string>, dist: Recorders.Metric)
    requires Lockstep(s, used) && c.unix > 0
    ensures IsServed(Handle(s, c, Tick(insertOk), dist)) <==> IsServed(s)
  {
    CallOnTrip(s, Recorders.Flush(insertOk), dist);
    CalledRecordable(s, Recorders.Flush(insertOk), used, dist);
    CallOnTrip(Called(s, Recorders.Flush(insertOk), dist), Recorders.Checkpoint(c.unix), dist);
  }

  // An event that does not stop the ride leaves it served exactly if it was, or if
  // the event is a published ready state.
  lemma EventServed(s: AppState, c: Clock, i: Input, used: set<string>, dist: Recorders.Metric)
    requires Lockstep(s, used) && Possible(c, i, used) && !Stops(i)
    ensures IsServed(Handle(s, c, i, dist)) <==> IsServed(s) || IsPublishedReady(i)
  {
    match i
    case VehicleState(_, _, _, _, _, _, _) => VehicleServed(s, c, i, used, dist);
    case OdometerUpdate(_, _, _, _) => OdometerServed(s, c, i, used, dist);
    case Tick(insertOk) => TickServed(s, c, insertOk, used, dist);
    case Gps(p, insertOk) => CallOnTrip(s, Recorders.Add(p.(odometer := s.lastOdo), insertOk), dist);
    case CounterCall(op) =>
  }

  predicate NeverStops(ins: seq<Timed>) { forall t :: t in ins ==> !Stops(t.input) }

  predicate AnyPublishedReady(ins: seq<Timed>) { exists t :: t in ins && IsPublishedReady(t.input) }

  // While the vehicle does not stop, the ride is served if and only if it was from
  // the start or a ready state was published since.
  lemma {:induction false} ServedExactly(s: AppState, ins: seq<Timed>, used: set<string>, dist: Recorders.Metric)
    requires Lockstep(s, used) && AllPossible(ins, used) && NeverStops(ins)
    ensures IsServed(Run(s, ins, dist)) <==> IsServed(s) || AnyPublishedReady(ins)
  {
    if ins != [] {
      var n := |ins| - 1;
      assert ins == ins[..n] + [ins[n]];
      assert ins[n] in ins && forall t :: t in ins[..n] ==> t in ins;
      ServedExactly(s, ins[..n], used, dist);
      RunLockstep(s, ins[..n], used, dist);
      EventServed(Run(s, ins[..n], dist), ins[n].clock, ins[n].input, UsedIn(ins[..n], used), dist);
      assert forall t :: t in ins <==> t in ins[..n] || t == ins[n];
    }
  }

  // Every vehicle state's counter could be published.
  predicate AllPublished(ins: seq<Timed>) { forall t :: t in ins && t.input.VehicleState? ==> t.input.publishOk }

  predicate ServedIfReady(s: AppState) { s.mode == Ready ==> IsServed(s) }

  lemma ModeAfter(s: AppState, c: Clock, i: Input, used: set<string>, dist: Recorders.Metric)
    requires Lockstep(s, used) && Possible(c, i, used)
    ensures Handle(s, c, i, dist).mode == if i.VehicleState? then ModeOf(i.state) else s.mode
  {
  }

  // Then a ready vehicle is served after every event, whatever inserts fail.
  lemma {:induction false} PublishedRunServes(s: AppState, ins: seq<Timed>, used: set<string>, dist: Recorders.Metric)
    requires Lockstep(s, used) && AllPossible(ins, used) && AllPublished(ins) && ServedIfReady(s)
    ensures ServedIfReady(Run(s, ins, dist))
  {
    if ins != [] {
      var n := |ins| - 1;
      assert ins[n] in ins && forall t :: t in ins[..n] ==> t in ins;
      PublishedRunServes(s, ins[..n], used, dist);
      RunLockstep(s, ins[..n], used, dist);
      var before := Run(s, ins[..n], dist);
      ModeAfter(before, ins[n].clock, ins[n].input, UsedIn(ins[..n], used), dist);
      if !Stops(ins[n].input) {
        EventServed(before, ins[n].clock, ins[n].input, UsedIn(ins[..n], used), dist);
      }
    }
  }

  // Startup serves a vehicle that is ready.
  lemma BootServes(counter: State, db: Db, events: seq<Recorders.Event>, found: Option<Trip>, c: Clock, b: Boot,
                   used: set<string>, dist: Recorders.Metric)
    requires RideRuns.Safe(db, events, used) && Recorders.Found(db, found) && c.unix > 0 && b.id !in used
    ensures ServedIfReady(Booted(counter, db, events, found, c, b, dist))
  {
    RideRuns.RecoverInStep(db, found, ModeOf(b.state), c.unix, used);
  }

  // ----- a failed publication -----

  const NOON := Clock(TRUSTED, 0)

  function Idle(dist: Recorders.Metric): AppState {
    Booted(State(FirstRow(NOON, None), map[]), Db(map[], []), [], None, NOON,
           Boot(Some(1000), [], "stand-by", "a", "", true), dist)
  }

  const UNHEARD := Timed(NOON, VehicleState("ready-to-drive", None, "b", "", true, true, false))

  // The vehicle turns ready while the counter cannot be published: the counter is
  // active, but no odometer update, position or tick starts the ride.
  lemma UnheardRideIsNotServed(ins: seq<Timed>, dist: Recorders.Metric)
    requires AllPossible([UNHEARD] + ins, {"a"}) && NeverStops(ins) && !AnyPublishedReady(ins)
    ensures Idle(dist).mode == Over && Lockstep(Idle(dist), {"a"})
    ensures Run(Idle(dist), [UNHEARD], dist).mode == Ready && Run(Idle(dist), [UNHEARD], dist).counter.row.active
    ensures !IsServed(Run(Idle(dist), [UNHEARD] + ins, dist))
  {
    var s := Idle(dist);
    BootLocksteps(State(FirstRow(NOON, None), map[]), Db(map[], []), [], None, NOON,
                  Boot(Some(1000), [], "stand-by", "a", "", true), {}, dist);
    assert {} + {"a"} == {"a"};
    assert [UNHEARD][..0] == [] && Run(s, [UNHEARD], dist) == Handle(s, NOON, UNHEARD.input, dist);
    assert forall t :: t in [UNHEARD] + ins <==> t == UNHEARD || t in ins;
    ServedExactly(s, [UNHEARD] + ins, {"a"}, dist);
  }

  // ----- a stale pending start -----

  // A start is still pending although a trip is open.
  predicate IsStale(s: AppState) { s.pending && s.rec.current.Some? }

  // That state begins exactly when a published ready state succeeds in starting the
  // trip that was pending; the next odometer update ends it without starting another,
  // and so does a published ready state or any stop.
  lemma StaleExactly(s: AppState, c: Clock, i: Input, used: set<string>, dist: Recorders.Metric)
    requires Lockstep(s, used) && Possible(c, i, used)
    ensures IsStale(Handle(s, c, i, dist)) <==>
            match i
            case VehicleState(state, _, _, _, _, startOk, publishOk) =>
              ModeOf(state) == Ready
              && if publishOk then s.pending && s.rec.current.None? && s.odoKnown && startOk else IsStale(s)
            case OdometerUpdate(v, _, _, _) => v < 0 && IsStale(s)
            case _ => IsStale(s)
    ensures IsStale(s) && i.OdometerUpdate? ==> Handle(s, c, i, dist).rec == s.rec
  {
    match i
    case VehicleState(_, _, _, _, _, _, _) =>
      var t := Noted(s, c, i.state, i.engine);
      NotedKeeps(s, c, i.state, i.engine, used);
      if i.publishOk {
        match ModeOf(i.state) {
          case Ready =>
            if t.rec.current.Some? {
              CallOnTrip(t, Recorders.Resume(c.unix), dist);
            } else {
              StartedKeeps(t, c, i.id, i.profile, i.startOk, used, dist);
            }
          case Paused => CallOnTrip(t, Recorders.Pause(c.unix, i.insertOk), dist);
          case Over =>
        }
      }
    case OdometerUpdate(v, id, profile, startOk) =>
      if v >= 0 && s.pending && s.rec.current.None? {
        var t := Counted(s.(lastOdo := v, odoKnown := true, pending := false), c, Odometer(v));
        StartedKeeps(t, c, id, profile, startOk, used, dist);
      }
    case Tick(insertOk) =>
      CallOnTrip(s, Recorders.Flush(insertOk), dist);
      CalledRecordable(s, Recorders.Flush(insertOk), used, dist);
      CallOnTrip(Called(s, Recorders.Flush(insertOk), dist), Recorders.Checkpoint(c.unix), dist);
    case Gps(p, insertOk) => CallOnTrip(s, Recorders.Add(p.(odometer := s.lastOdo), insertOk), dist);
    case CounterCall(op) =>
  }

  // It is reached: an insert fails at a known odometer, and the repeated ready state
  // succeeds.
  lemma StaleIsReached(dist: Recorders.Metric)
    ensures
      var failing := Timed(NOON, VehicleState("ready-to-drive", None, "b", "", true, false, true));
      var again := Timed(NOON, VehicleState("ready-to-drive", None, "c", "", true, true, true));
      IsStale(Run(Idle(dist), [failing, again], dist))
  {
    var s := Idle(dist);
    var failing := Timed(NOON, VehicleState("ready-to-drive", None, "b", "", true, false, true));
    var again := Timed(NOON, VehicleState("ready-to-drive", None, "c", "", true, true, true));
    assert [failing, again][..1] == [failing] && [failing][..0] == [];
    var t := Handle(s, NOON, failing.input, dist);
    assert Run(s, [failing], dist) == t;
    BootLocksteps(State(FirstRow(NOON, None), map[]), Db(map[], []), [], None, NOON,
                  Boot(Some(1000), [], "stand-by", "a", "", true), {}, dist);
    assert {} + {"a"} == {"a"};
    HandleKeeps(s, NOON, failing.input, {"a"}, dist);
    StaleExactly(t, NOON, again.input, {"a"} + {"b"}, dist);
  }
}
