/** The App object: one counter, one recorder, and the fields its handlers keep. */
module AppObject {
  import opened Prelude
  import opened Trips
  import opened Handlers
  import Commands
  import CounterModel
  import CounterObject
  import Recorders

  class App {
    const counter: CounterObject.Counter
    const recorder: Recorders.Recorder
    var lastOdo: int
    var odoKnown: bool
    var mode: Mode
    var rideStartPending: bool

    ghost function View(): AppState
      reads this, counter, recorder, recorder.store
    {
      AppState(counter.Full(), recorder.View(), recorder.store.View(), recorder.events, lastOdo, odoKnown, mode,
          rideStartPending)
    }

    ghost predicate Valid()
      reads counter
    {
      counter.Valid()
    }

    constructor (counter: CounterObject.Counter, recorder: Recorders.Recorder)
      requires counter.Valid()
      ensures this.counter == counter && this.recorder == recorder && Valid()
      ensures View() == AppState(counter.Full(), recorder.View(), recorder.store.View(), recorder.events, 0, false,
          Over, false)
    {
      this.counter, this.recorder := counter, recorder;
      lastOdo, odoKnown, mode, rideStartPending := 0, false, Over, false;
    }

    method StartNewTrip(c: Clock, id: string, profile: string, startOk: bool) returns (ok: bool)
      requires recorder.currentTrip.None?
      modifies recorder, recorder.store
      ensures View().(pending := if ok then rideStartPending else true)
           == Started(old(View()), c, id, profile, startOk, recorder.dist)
    {
      if !odoKnown {
        return false;
      }
      ok := recorder.StartTrip(id, profile, lastOdo, c.unix, startOk);
    }

    method NoteState(c: Clock, state: string, engine: Option<int>)
      requires Valid()
      modifies this, counter
      ensures Valid()
      ensures View() == Noted(old(View()), c, state, engine)
    {
      var ready := ModeOf(state) == Ready;
      mode := ModeOf(state);
      if !ready {
        rideStartPending := false;
      }
      var odometer: Option<int> := None;
      if !ready {
        if engine.Some? {
          lastOdo, odoKnown := engine.value, true;
        }
        odometer := if odoKnown then Some(lastOdo) else None;
      }
      counter.OnVehicleState(state, odometer, c);
    }

    method TakeUpRide(c: Clock, id: string, profile: string, startOk: bool)
      requires Valid()
      modifies this`rideStartPending, recorder, recorder.store
      ensures Valid()
      ensures
        var t := old(View());
        View() == if t.rec.current.Some? then Called(t, Recorders.Resume(c.unix), recorder.dist).(pending := false)
                  else Started(t, c, id, profile, startOk, recorder.dist)
    {
      if recorder.currentTrip.Some? {
        recorder.ResumeTrip(c.unix);
        rideStartPending := false;
      } else {
        var ok := StartNewTrip(c, id, profile, startOk);
        if !ok {
          rideStartPending := true;
        }
      }
    }

    method HandleVehicleState(c: Clock, state: string, engine: Option<int>, id: string, profile: string,
                              insertOk: bool, startOk: bool, publishOk: bool)
      requires Valid()
      modifies this, counter, recorder, recorder.store
      ensures Valid()
      ensures View() == Handle(old(View()), c, VehicleState(state, engine, id, profile, insertOk, startOk, publishOk),
          recorder.dist)
    {
      NoteState(c, state, engine);
      if !publishOk {
        return;
      }
      match ModeOf(state) {
        case Ready =>
          TakeUpRide(c, id, profile, startOk);
        case Paused =>
          recorder.PauseTrip(c.unix, insertOk);
        case Over =>
          recorder.EndTrip(lastOdo, c.unix, insertOk);
      }
    }

    method HandleOdometer(c: Clock, v: int, id: string, profile: string, startOk: bool)
      requires Valid()
      modifies this, counter, recorder, recorder.store
      ensures Valid()
      ensures View() == Handle(old(View()), c, OdometerUpdate(v, id, profile, startOk), recorder.dist)
    {
      if v < 0 {
        return;
      }
      lastOdo, odoKnown := v, true;
      var startPending := rideStartPending && mode == Ready;
      if startPending {
        rideStartPending := false;
      }
      counter.OnOdometer(v, c);
      if startPending && recorder.currentTrip.None? {
        var ok := StartNewTrip(c, id, profile, startOk);
        if !ok {
          rideStartPending := true;
        }
      }
    }

    method HandleGps(c: Clock, p: Point, insertOk: bool)
      requires Valid()
      modifies recorder, recorder.store
      ensures Valid()
      ensures View() == Handle(old(View()), c, Gps(p, insertOk), recorder.dist)
    {
      if recorder.currentTrip.Some? && recorder.currentTrip.value.activeStartedAt > 0 && p.speed >= MIN_GPS_SPEED {
        recorder.AddPoint(p.(odometer := lastOdo), insertOk);
      }
    }

    // The 30-second ticker.
    method OnTick(c: Clock, insertOk: bool)
      requires Valid()
      modifies counter, recorder, recorder.store
      ensures Valid()
      ensures View() == Handle(old(View()), c, Tick(insertOk), recorder.dist)
    {
      recorder.FlushPoints(insertOk);
      recorder.OnCheckpoint(c.unix);
      counter.OnCheckpoint(c);
    }

    method Configure(c: Clock, settings: seq<CounterModel.Op>)
      requires Valid() && BootSettings(settings)
      modifies counter
      ensures Valid()
      ensures counter.Full() == Configured(old(counter.Full()), c, settings)
    {
      var i := 0;
      while i < |settings|
        invariant 0 <= i <= |settings|
        invariant Valid()
        invariant counter.Full() == Configured(old(counter.Full()), c, settings[..i])
      {
        assert settings[..i + 1][..i] == settings[..i];
        var op := settings[i];
        assert op in settings;
        match op {
          case SetPolicy(p) => counter.OnPolicy(p, c);
          case Dual(enabled) => counter.ConfigureDualBattery(enabled, c);
          case Pack(slot, present, serial, seed) => counter.OnBattery(slot, present, serial, seed, c);
        }
        i := i + 1;
      }
      assert settings[..i] == settings;
    }

    // The counter's part of startup, while its persisted active state still exists.
    method HydrateCounter(c: Clock, b: Boot)
      requires Valid() && BootSettings(b.settings) && (b.odometer.Some? ==> b.odometer.value >= 0)
      modifies this, counter
      ensures Valid()
      ensures lastOdo == (if b.odometer.Some? then b.odometer.value else 0) && odoKnown == b.odometer.Some?
      ensures mode == ModeOf(b.state) && !rideStartPending
      ensures
        var full := old(counter.Full());
        var reconciled := if odoKnown then CounterModel.Apply(full, c, CounterModel.Odometer(lastOdo)) else full;
        counter.Full() == CounterModel.Apply(Configured(reconciled, c, b.settings), c, CounterModel.Recover(b.state))
    {
      lastOdo, odoKnown := if b.odometer.Some? then b.odometer.value else 0, b.odometer.Some?;
      mode, rideStartPending := ModeOf(b.state), false;
      if odoKnown {
        counter.OnOdometer(lastOdo, c);
      }
      Configure(c, b.settings);
      counter.RecoverVehicleState(b.state, c);
    }

    // The durable counter and trips, brought up to date with the vehicle.
    method Startup(c: Clock, b: Boot) returns (ghost found: Option<Trip>)
      requires Valid() && recorder.View() == Recorders.IDLE && BootSettings(b.settings)
      requires b.odometer.Some? ==> b.odometer.value >= 0
      modifies this, counter, recorder, recorder.store
      ensures Valid()
      ensures Recorders.Found(old(recorder.store.View()), found)
      ensures View() == Booted(old(counter.Full()), old(recorder.store.View()), old(recorder.events), found, c, b,
          recorder.dist)
    {
      HydrateCounter(c, b);
      found := recorder.RecoverFromState(b.state, c.unix);
      if mode == Ready && recorder.currentTrip.None? {
        var ok := StartNewTrip(c, b.id, b.profile, b.startOk);
        if !ok {
          rideStartPending := true;
        }
      }
    }
  }
}
