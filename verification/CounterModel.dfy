/** The trip counter of internal/counter/counter.go as functions on its row.

A clock reading is the Unix second and the local day it falls on. */
module CounterModel {
  import opened Prelude
  import opened Commands

  datatype Clock = Clock(unix: int, day: int)

  datatype Policy = Ride | Day | Battery | Manual

  datatype Reason = Initial | By(policy: Policy)

  datatype Row = Row(
    distanceM: int, durationS: int, policy: Policy, resetAt: int, reason: Reason, generation: int, updatedAt: int,
    active: bool, readyStartedAt: int, lastOdometer: Option<int>, sessionOpen: bool,
    serial0: string, serial1: string, dailyAnchor: Option<int>, dualBattery: bool)

  predicate Trustworthy(c: Clock) { c.unix >= TRUSTED }

  predicate IsReady(state: string) { ModeOf(state) == Ready }

  predicate IsPaused(state: string) { ModeOf(state) == Paused }

  function FirstRow(c: Clock, odometer: Option<int>): Row {
    Row(0, 0, Ride, c.unix, Initial, 0, c.unix, false, 0, odometer, false, "", "", None, false)
  }

  // ----- pieces of a transition -----

  function Observed(r: Row, odometer: int): Row {
    var gain := if r.active && r.lastOdometer.Some? && odometer >= r.lastOdometer.value
                then odometer - r.lastOdometer.value else 0;
    r.(distanceM := r.distanceM + gain, lastOdometer := Some(odometer))
  }

  // The duration shown at `now`: the durable part and the running interval.
  function Shown(r: Row, now: int): int {
    r.durationS + if r.active && r.readyStartedAt > 0 && now > r.readyStartedAt then now - r.readyStartedAt else 0
  }

  function Stopped(r: Row, now: int): Row {
    r.(durationS := Shown(r, now), active := false, readyStartedAt := 0)
  }

  function Reset(r: Row, c: Clock, reason: Reason): Row {
    r.(distanceM := 0, durationS := 0, resetAt := c.unix, reason := reason, generation := r.generation + 1,
       dailyAnchor := if r.policy == Day && Trustworthy(c) then Some(c.day) else r.dailyAnchor,
       readyStartedAt := if r.active && Trustworthy(c) then c.unix else 0)
  }

  predicate ResetDue(r: Row, c: Clock) {
    match r.policy
    case Ride => true
    case Day => Trustworthy(c) && r.dailyAnchor.Some? && c.day > r.dailyAnchor.value
    case _ => false
  }

  // The first trustworthy ready of the day policy sets the anchor instead of resetting.
  function Anchored(r: Row, c: Clock): Row {
    if r.policy == Day && Trustworthy(c) && r.dailyAnchor.None? then r.(dailyAnchor := Some(c.day)) else r
  }

  function SessionStarted(r: Row, c: Clock): Row {
    if r.sessionOpen then r
    else (if ResetDue(r, c) then Reset(r, c, By(r.policy)) else Anchored(r, c)).(sessionOpen := true)
  }

  function ReadyStarted(r: Row, c: Clock): Row {
    var s := SessionStarted(r, c);
    s.(active := true, readyStartedAt := if Trustworthy(c) then c.unix else s.readyStartedAt)
  }

  // ----- operations -----

  datatype Op =
    | Odometer(value: int)
    | Vehicle(state: string, odometer: Option<int>)
    | Recover(rstate: string)
    | Checkpoint
    | SetPolicy(policy: Policy)
    | Dual(enabled: bool)
    | Pack(slot: int, present: bool, serial: string, seed: bool)
    | ResetCommand(id: string)

  datatype State = State(row: Row, commands: Table)

  function OnOdometer(r: Row, c: Clock, v: int): Row {
    if v < 0 then r
    else
      var s := Observed(r, v);
      s.(readyStartedAt := if s.active && s.readyStartedAt == 0 && Trustworthy(c) then c.unix else s.readyStartedAt,
         updatedAt := c.unix)
  }

  function OnVehicle(r: Row, c: Clock, state: string, odometer: Option<int>): Row {
    var s :=
      if IsReady(state) then (if r.active then r else ReadyStarted(r, c))
      else
        var t := if odometer.Some? && odometer.value >= 0 then Observed(r, odometer.value) else r;
        Stopped(t, c.unix).(sessionOpen := r.sessionOpen && IsPaused(state));
    s.(updatedAt := c.unix)
  }

  function OnRecover(r: Row, c: Clock, state: string): Row {
    var s :=
      if IsReady(state) then
        if r.active then r.(readyStartedAt := if Trustworthy(c) then c.unix else 0) else ReadyStarted(r, c)
      else r.(active := false, readyStartedAt := 0, sessionOpen := r.sessionOpen && IsPaused(state));
    s.(updatedAt := c.unix)
  }

  function OnCheckpoint(r: Row, c: Clock): Row {
    var s := if r.active
             then r.(durationS := Shown(r, c.unix),
                     readyStartedAt := if Trustworthy(c) then c.unix else r.readyStartedAt)
             else r;
    s.(updatedAt := c.unix)
  }

  function OnPolicy(r: Row, c: Clock, p: Policy): Row {
    var anchor := if r.policy != p && p == Day && Trustworthy(c) then Some(c.day) else r.dailyAnchor;
    r.(policy := p, dailyAnchor := anchor, updatedAt := c.unix)
  }

  function SerialAt(r: Row, slot: int): string { if slot == 0 then r.serial0 else r.serial1 }

  function OnPack(r: Row, c: Clock, slot: int, present: bool, serial: string, seed: bool): Row {
    if slot < 0 || slot > 1 || (slot == 1 && !r.dualBattery) then r
    else if !present || serial == "" then r.(updatedAt := c.unix)
    else
      var before := SerialAt(r, slot);
      var s := if !seed && before != "" && before != serial && r.policy == Battery then Reset(r, c, By(Battery)) else r;
      (if slot == 0 then s.(serial0 := serial) else s.(serial1 := serial)).(updatedAt := c.unix)
  }

  // A manual reset of an idle counter keeps the odometer baseline it had.
  function ManuallyReset(r: Row, c: Clock): Row {
    r.(distanceM := 0, durationS := 0, resetAt := c.unix, reason := By(Manual), generation := r.generation + 1,
       updatedAt := c.unix)
  }

  function OnResetCommand(s: State, c: Clock, id: string): State {
    if id == "" then s
    else
      State(if id in s.commands || s.row.active then s.row else ManuallyReset(s.row, c),
            Issued(s.commands, id, c.unix, s.row.active).1)
  }

  function Apply(s: State, c: Clock, op: Op): State {
    match op
    case ResetCommand(id) => OnResetCommand(s, c, id)
    case _ => s.(row := RowAfter(s.row, c, op))
  }

  function RowAfter(r: Row, c: Clock, op: Op): Row
    requires !op.ResetCommand?
  {
    match op
    case Odometer(v) => OnOdometer(r, c, v)
    case Vehicle(state, odometer) => OnVehicle(r, c, state, odometer)
    case Recover(state) => OnRecover(r, c, state)
    case Checkpoint => OnCheckpoint(r, c)
    case SetPolicy(p) => OnPolicy(r, c, p)
    case Dual(enabled) => r.(dualBattery := enabled, updatedAt := c.unix)
    case Pack(slot, present, serial, seed) => OnPack(r, c, slot, present, serial, seed)
  }

  // ----- what the counter shows -----

  datatype Snapshot = Snapshot(distanceM: int, durationS: int, averageKmh: int, policy: Policy, resetAt: int,
                               reason: Reason, generation: int, recording: bool)

  // Everything published except the time of publication.  The average is
  // rounded to the nearest km/h.
  function SnapshotOf(r: Row, now: int): Snapshot {
    var d := Shown(r, now);
    Snapshot(r.distanceM, d, if d > 0 then (r.distanceM * 36 + d * 5) / (d * 10) else 0,
             r.policy, r.resetAt, r.reason, r.generation, r.active)
  }

  // The average is the whole number of km/h nearest to 3.6 times metres per second.
  lemma AverageIsNearest(r: Row, now: int)
    requires Shown(r, now) > 0
    ensures
      var d, average := Shown(r, now), SnapshotOf(r, now).averageKmh;
      10 * d * average - 5 * d <= 36 * r.distanceM < 10 * d * average + 5 * d
  {
    var d := Shown(r, now);
    Division(r.distanceM * 36 + d * 5, d * 10);
  }

  lemma Division(n: int, d: int)
    requires d > 0
    ensures d * (n / d) <= n < d * (n / d) + d
  {
    assert n == d * (n / d) + n % d;
  }

  // ----- the invariant -----

  predicate Consistent(r: Row) {
    && (r.active ==> r.sessionOpen)
    && (r.readyStartedAt != 0 ==> r.active && r.readyStartedAt >= TRUSTED)
  }

  // Every operation keeps: an active counter has an open session, and an
  // interval is being timed only while active and from a trustworthy moment.
  lemma ApplyConsistent(s: State, c: Clock, op: Op)
    requires Consistent(s.row)
    ensures Consistent(Apply(s, c, op).row)
  {
    match op
    case ResetCommand(id) =>
    case Vehicle(state, odometer) =>
    case Pack(slot, present, serial, seed) =>
    case _ =>
  }
}
