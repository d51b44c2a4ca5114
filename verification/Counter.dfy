/** The counter object of internal/counter/counter.go.  Its fields are those of
the db.Counter record it owns; `saved` is the row of the trip_counter table and
`commands` the trip_counter_commands table, both reached through its store. */
module CounterObject {
  import opened Prelude
  import opened Commands
  import opened CounterModel

  class Counter {
    var distanceM: int
    var durationS: int
    var policy: Policy
    var resetAt: int
    var reason: Reason
    var generation: int
    var updatedAt: int
    var active: bool
    var readyStartedAt: int
    var lastOdometer: Option<int>
    var sessionOpen: bool
    var serial0: string
    var serial1: string
    var dailyAnchor: Option<int>
    var dualBattery: bool
    var saved: Row
    var commands: Table

    function View(): Row
      reads this
    {
      Row(distanceM, durationS, policy, resetAt, reason, generation, updatedAt, active, readyStartedAt,
          lastOdometer, sessionOpen, serial0, serial1, dailyAnchor, dualBattery)
    }

    ghost function Full(): State
      reads this
    {
      State(View(), commands)
    }

    // Every operation ends by saving.
    predicate Valid()
      reads this
    {
      saved == View() && Consistent(saved)
    }

    // Hydrate: the stored row, or a new one.
    constructor (stored: Option<Row>, table: Table, c: Clock, odometer: Option<int>)
      requires stored.Some? ==> Consistent(stored.value)
      ensures Valid() && commands == table
      ensures View() == if stored.Some? then stored.value else FirstRow(c, odometer)
    {
      var r := if stored.Some? then stored.value else FirstRow(c, odometer);
      saved, commands := r, table;
      distanceM, durationS, policy, resetAt, reason := r.distanceM, r.durationS, r.policy, r.resetAt, r.reason;
      generation, updatedAt, active, readyStartedAt := r.generation, r.updatedAt, r.active, r.readyStartedAt;
      lastOdometer, sessionOpen, serial0, serial1 := r.lastOdometer, r.sessionOpen, r.serial0, r.serial1;
      dailyAnchor, dualBattery := r.dailyAnchor, r.dualBattery;
    }

    method Save()
      modifies this`saved
      ensures saved == View()
    {
      saved := View();
    }

    method ObserveOdometer(odometer: int)
      modifies this`distanceM, this`lastOdometer
      ensures View() == Observed(old(View()), odometer)
    {
      if active && lastOdometer.Some? && odometer >= lastOdometer.value {
        distanceM := distanceM + odometer - lastOdometer.value;
      }
      // Backward movement costs nothing, but is where measuring goes on from.
      lastOdometer := Some(odometer);
    }

    method AccrueDuration(now: int)
      modifies this`durationS
      ensures View() == old(View()).(durationS := Shown(old(View()), now))
    {
      if active && readyStartedAt > 0 && now > readyStartedAt {
        durationS := durationS + now - readyStartedAt;
      }
    }

    method CheckpointDuration(now: int)
      modifies this`durationS, this`active, this`readyStartedAt
      ensures View() == Stopped(old(View()), now)
    {
      AccrueDuration(now);
      active := false;
      readyStartedAt := 0;
    }

    method ResetLocked(c: Clock, why: Reason)
      modifies this`distanceM, this`durationS, this`resetAt, this`reason, this`generation, this`dailyAnchor,
               this`active, this`readyStartedAt
      ensures View() == Reset(old(View()), c, why)
    {
      var was := active;
      CheckpointDuration(c.unix);
      distanceM, durationS, resetAt, reason, generation := 0, 0, c.unix, why, generation + 1;
      if policy == Day && Trustworthy(c) {
        dailyAnchor := Some(c.day);
      }
      if was {
        active := true;
        if Trustworthy(c) {
          readyStartedAt := c.unix;
        }
      }
    }

    method ShouldResetRide(c: Clock) returns (due: bool)
      modifies this`dailyAnchor
      ensures due == ResetDue(old(View()), c)
      ensures View() == if due then old(View()) else Anchored(old(View()), c)
    {
      match policy {
        case Ride => return true;
        case Day =>
          if !Trustworthy(c) {
            return false;
          }
          if dailyAnchor.None? {
            dailyAnchor := Some(c.day);
            return false;
          }
          return c.day > dailyAnchor.value;
        case Battery => return false;
        case Manual => return false;
      }
    }

    method StartReady(c: Clock)
      requires !active
      modifies this`distanceM, this`durationS, this`resetAt, this`reason, this`generation, this`dailyAnchor,
               this`active, this`readyStartedAt, this`sessionOpen
      ensures View() == ReadyStarted(old(View()), c)
    {
      if !sessionOpen {
        var due := ShouldResetRide(c);
        if due {
          ResetLocked(c, By(policy));
        }
        sessionOpen := true;
      }
      active := true;
      if Trustworthy(c) {
        readyStartedAt := c.unix;
      }
    }

    method OnOdometer(odometer: int, c: Clock)
      requires Valid()
      modifies this
      ensures Valid() && commands == old(commands)
      ensures View() == RowAfter(old(View()), c, Odometer(odometer))
    {
      ApplyConsistent(Full(), c, Odometer(odometer));
      if odometer < 0 {
        return;
      }
      ObserveOdometer(odometer);
      if active && readyStartedAt == 0 && Trustworthy(c) {
        readyStartedAt := c.unix;
      }
      updatedAt := c.unix;
      Save();
    }

    method StopReady(state: string, odometer: Option<int>, c: Clock)
      requires !IsReady(state)
      modifies this`distanceM, this`lastOdometer, this`durationS, this`active, this`readyStartedAt, this`sessionOpen
      ensures View() == OnVehicle(old(View()), c, state, odometer).(updatedAt := old(updatedAt))
    {
      if odometer.Some? && odometer.value >= 0 {
        ObserveOdometer(odometer.value);
      }
      CheckpointDuration(c.unix);
      if !IsPaused(state) {
        sessionOpen := false;
      }
    }

    method OnVehicleState(state: string, odometer: Option<int>, c: Clock)
      requires Valid()
      modifies this
      ensures Valid() && commands == old(commands)
      ensures View() == RowAfter(old(View()), c, Vehicle(state, odometer))
    {
      ApplyConsistent(Full(), c, Vehicle(state, odometer));
      if IsReady(state) {
        if !active {
          StartReady(c);
        }
      } else {
        StopReady(state, odometer, c);
      }
      updatedAt := c.unix;
      Save();
    }

    method TakeUpState(state: string, c: Clock)
      modifies this`distanceM, this`durationS, this`resetAt, this`reason, this`generation, this`dailyAnchor,
               this`active, this`readyStartedAt, this`sessionOpen
      ensures View() == OnRecover(old(View()), c, state).(updatedAt := old(updatedAt))
    {
      if active {
        readyStartedAt := 0;
      }
      if IsReady(state) {
        if !active {
          StartReady(c);
        } else if Trustworthy(c) {
          readyStartedAt := c.unix;
        }
      } else {
        active := false;
        readyStartedAt := 0;
        if !IsPaused(state) {
          sessionOpen := false;
        }
      }
    }

    // Startup: what was not made durable before the service died is not counted.
    method RecoverVehicleState(state: string, c: Clock)
      requires Valid()
      modifies this
      ensures Valid() && commands == old(commands)
      ensures View() == RowAfter(old(View()), c, Recover(state))
    {
      ApplyConsistent(Full(), c, Recover(state));
      TakeUpState(state, c);
      updatedAt := c.unix;
      Save();
    }

    method OnCheckpoint(c: Clock)
      requires Valid()
      modifies this
      ensures Valid() && commands == old(commands)
      ensures View() == RowAfter(old(View()), c, Checkpoint)
    {
      ApplyConsistent(Full(), c, Checkpoint);
      if active {
        AccrueDuration(c.unix);
        if Trustworthy(c) {
          readyStartedAt := c.unix;
        }
      }
      updatedAt := c.unix;
      Save();
    }

    method OnPolicy(next: Policy, c: Clock)
      requires Valid()
      modifies this
      ensures Valid() && commands == old(commands)
      ensures View() == RowAfter(old(View()), c, SetPolicy(next))
    {
      ApplyConsistent(Full(), c, SetPolicy(next));
      if policy != next {
        policy := next;
        if next == Day && Trustworthy(c) {
          dailyAnchor := Some(c.day);
        }
      }
      updatedAt := c.unix;
      Save();
    }

    method ConfigureDualBattery(enabled: bool, c: Clock)
      requires Valid()
      modifies this
      ensures Valid() && commands == old(commands)
      ensures View() == RowAfter(old(View()), c, Dual(enabled))
    {
      dualBattery := enabled;
      updatedAt := c.unix;
      Save();
    }

    method InstallPack(slot: int, serial: string, seed: bool, c: Clock)
      requires serial != "" && (slot == 0 || (slot == 1 && dualBattery))
      modifies this
      ensures commands == old(commands)
      ensures View().(updatedAt := c.unix) == OnPack(old(View()), c, slot, true, serial, seed)
    {
      var before := if slot == 0 then serial0 else serial1;
      if !seed && before != "" && before != serial && policy == Battery {
        ResetLocked(c, By(Battery));
      }
      if slot == 0 {
        serial0 := serial;
      } else {
        serial1 := serial;
      }
    }

    method OnBattery(slot: int, present: bool, serial: string, seed: bool, c: Clock)
      requires Valid()
      modifies this
      ensures Valid() && commands == old(commands)
      ensures View() == RowAfter(old(View()), c, Pack(slot, present, serial, seed))
    {
      ApplyConsistent(Full(), c, Pack(slot, present, serial, seed));
      if slot < 0 || slot > 1 || (slot == 1 && !dualBattery) {
        return;
      }
      if present && serial != "" {
        InstallPack(slot, serial, seed, c);
      }
      updatedAt := c.unix;
      Save();
    }

    method ResetCounter(c: Clock)
      modifies this`distanceM, this`durationS, this`resetAt, this`reason, this`generation, this`updatedAt, this`saved
      ensures View() == ManuallyReset(old(View()), c) && saved == View()
    {
      distanceM, durationS, resetAt, reason, generation := 0, 0, c.unix, By(Manual), generation + 1;
      updatedAt := c.unix;
      Save();
    }

    // One transaction: look the id up, or reset and record the outcome.
    method ManualReset(id: string, c: Clock) returns (verdict: Option<Verdict>)
      requires Valid()
      modifies this
      ensures Valid()
      ensures Full() == Apply(old(Full()), c, ResetCommand(id))
      ensures verdict == if id == "" then None else Some(Issued(old(commands), id, c.unix, old(active)).0)
    {
      if id == "" {
        return None;
      }
      var outcome := Issued(commands, id, c.unix, active);
      if id !in commands && !active {
        ResetCounter(c);
      }
      verdict, commands := Some(outcome.0), outcome.1;
    }
  }
}
