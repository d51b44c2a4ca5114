/** Whole runs of the trip counter. */
module CounterRuns {
  import opened Prelude
  import opened Commands
  import opened CounterModel

  datatype Timed = Timed(clock: Clock, op: Op)

  function Run(s: State, ops: seq<Timed>): State {
    if ops == [] then s
    else Apply(Run(s, ops[..|ops| - 1]), ops[|ops| - 1].clock, ops[|ops| - 1].op)
  }

  // The clock is trustworthy and never goes back, from `since` on.
  predicate Steady(since: int, ops: seq<Timed>) {
    ops == [] || (Steady(since, ops[..|ops| - 1]) && LastTime(since, ops[..|ops| - 1]) <= ops[|ops| - 1].clock.unix)
  }

  function LastTime(since: int, ops: seq<Timed>): int {
    if ops == [] then since else ops[|ops| - 1].clock.unix
  }

  // An active counter is timing an interval that began in the past.
  predicate Timing(r: Row, now: int) {
    if r.active then 0 < r.readyStartedAt <= now else r.readyStartedAt == 0
  }

  // ----- checkpoints are invisible -----

  // The row with the running interval folded into one number.
  function Normal(r: Row): Row {
    r.(updatedAt := 0, readyStartedAt := 0,
       durationS := if r.active then r.durationS - r.readyStartedAt else r.durationS)
  }

  predicate Alike(a: State, b: State, now: int) {
    Timing(a.row, now) && Timing(b.row, now) && Normal(a.row) == Normal(b.row) && a.commands == b.commands
  }

  lemma AlikeShows(a: State, b: State, since: int, now: int)
    requires Alike(a, b, since) && since <= now
    ensures SnapshotOf(a.row, now) == SnapshotOf(b.row, now)
  {
    var x, y := Normal(a.row), Normal(b.row);
    assert x.active == y.active && x.durationS == y.durationS && x.distanceM == y.distanceM;
    assert x.policy == y.policy && x.resetAt == y.resetAt && x.reason == y.reason && x.generation == y.generation;
  }

  lemma CheckpointAlike(a: State, b: State, since: int, c: Clock)
    requires Alike(a, b, since) && since <= c.unix && Trustworthy(c)
    ensures Alike(Apply(a, c, Checkpoint), b, c.unix)
  {
  }

  // Equal but for the folded fields: equal once those are copied over.
  lemma NormalMeaning(a: Row, b: Row)
    requires Normal(a) == Normal(b)
    ensures a.active == b.active
    ensures a == b.(updatedAt := a.updatedAt, readyStartedAt := a.readyStartedAt, durationS := a.durationS)
    ensures !a.active ==> a.durationS == b.durationS
    ensures a.active ==> a.durationS - a.readyStartedAt == b.durationS - b.readyStartedAt
  {
  }

  lemma VehicleAlike(a: Row, b: Row, since: int, c: Clock, state: string, odometer: Option<int>)
    requires Timing(a, since) && Timing(b, since) && Normal(a) == Normal(b)
    requires since <= c.unix && Trustworthy(c)
    ensures
      var x, y := OnVehicle(a, c, state, odometer), OnVehicle(b, c, state, odometer);
      Timing(x, c.unix) && Timing(y, c.unix) && Normal(x) == Normal(y)
  {
    NormalMeaning(a, b);
    if IsReady(state) && !a.active {
      assert SessionStarted(a, c).(updatedAt := 0, readyStartedAt := 0)
          == SessionStarted(b, c).(updatedAt := 0, readyStartedAt := 0);
    }
  }

  lemma PackAlike(a: Row, b: Row, since: int, c: Clock, slot: int, present: bool, serial: string, seed: bool)
    requires Timing(a, since) && Timing(b, since) && Normal(a) == Normal(b)
    requires since <= c.unix && Trustworthy(c)
    ensures
      var x, y := OnPack(a, c, slot, present, serial, seed), OnPack(b, c, slot, present, serial, seed);
      Timing(x, c.unix) && Timing(y, c.unix) && Normal(x) == Normal(y)
  {
    NormalMeaning(a, b);
    assert Normal(Reset(a, c, By(Battery))) == Normal(Reset(b, c, By(Battery)));
  }

  lemma OpAlike(a: State, b: State, since: int, c: Clock, op: Op)
    requires Alike(a, b, since) && since <= c.unix && Trustworthy(c) && !op.Recover?
    ensures Alike(Apply(a, c, op), Apply(b, c, op), c.unix)
  {
    match op
    case Vehicle(state, odometer) => VehicleAlike(a.row, b.row, since, c, state, odometer);
    case Pack(slot, present, serial, seed) => PackAlike(a.row, b.row, since, c, slot, present, serial, seed);
    case _ => NormalMeaning(a.row, b.row);
  }

  function Stripped(ops: seq<Timed>): seq<Timed> {
    if ops == [] then []
    else
      Stripped(ops[..|ops| - 1]) + if ops[|ops| - 1].op.Checkpoint? then [] else [ops[|ops| - 1]]
  }

  // One process: nothing is recovered in the middle of it.
  predicate Uninterrupted(ops: seq<Timed>) { forall t :: t in ops ==> !t.op.Recover? }

  lemma {:induction false} StrippedAlike(s: State, since: int, ops: seq<Timed>)
    requires Timing(s.row, since) && TRUSTED <= since && Steady(since, ops) && Uninterrupted(ops)
    ensures since <= LastTime(since, ops)
    ensures LastTime(since, Stripped(ops)) <= LastTime(since, ops)
    ensures Alike(Run(s, ops), Run(s, Stripped(ops)), LastTime(since, ops))
  {
    if ops != [] {
      var n := |ops| - 1;
      StrippedAlike(s, since, ops[..n]);
      var a, b := Run(s, ops[..n]), Run(s, Stripped(ops[..n]));
      var (c, op) := (ops[n].clock, ops[n].op);
      assert ops[n] in ops;
      if op.Checkpoint? {
        assert Stripped(ops) == Stripped(ops[..n]);
        CheckpointAlike(a, b, LastTime(since, ops[..n]), c);
      } else {
        assert Stripped(ops)[..|Stripped(ops)| - 1] == Stripped(ops[..n]);
        OpAlike(a, b, LastTime(since, ops[..n]), c, op);
      }
    }
  }

  // Two runs that differ only in where they checkpoint show the same distance,
  // duration, average, generation and status ever after.
  lemma CheckpointsInvisible(s: State, since: int, ops1: seq<Timed>, ops2: seq<Timed>, now: int)
    requires Timing(s.row, since) && TRUSTED <= since
    requires Steady(since, ops1) && Uninterrupted(ops1) && Steady(since, ops2) && Uninterrupted(ops2)
    requires Stripped(ops1) == Stripped(ops2)
    requires LastTime(since, ops1) <= now && LastTime(since, ops2) <= now
    ensures SnapshotOf(Run(s, ops1).row, now) == SnapshotOf(Run(s, ops2).row, now)
    ensures Run(s, ops1).commands == Run(s, ops2).commands
  {
    StrippedAlike(s, since, ops1);
    StrippedAlike(s, since, ops2);
    AlikeShows(Run(s, ops1), Run(s, Stripped(ops1)), LastTime(since, ops1), now);
    AlikeShows(Run(s, ops2), Run(s, Stripped(ops2)), LastTime(since, ops2), now);
  }

  // ----- when a checkpoint can be seen -----

  // The checkpoint leaves what is being timed, and since when, as it is.
  predicate LeavesTiming(r: Row, c: Clock) { !r.active || !Trustworthy(c) || r.readyStartedAt == c.unix }

  // It starts the timing of an active counter, or moves its start back.
  predicate StartsTiming(r: Row, c: Clock) {
    r.active && Trustworthy(c) && (r.readyStartedAt == 0 || c.unix < r.readyStartedAt)
  }

  // A single reading at `now`, before or after the checkpoint's own clock, shows
  // nothing of the checkpoint exactly in these cases.
  lemma CheckpointUnseenAt(s: State, c: Clock, now: int)
    requires Consistent(s.row)
    ensures
      var start := s.row.readyStartedAt;
      SnapshotOf(Apply(s, c, Checkpoint).row, now) == SnapshotOf(s.row, now)
      <==> LeavesTiming(s.row, c) || 0 < start <= c.unix <= now || (now <= c.unix && (start == 0 || c.unix <= start))
  {
    var t := Apply(s, c, Checkpoint).row;
    assert SnapshotOf(t, now) == SnapshotOf(s.row, now) <==> Shown(t, now) == Shown(s.row, now);
  }

  predicate NoneBefore(from: int, ops: seq<Timed>) { forall t :: t in ops ==> from <= t.clock.unix }

  // Both states show the same whatever one process does next, while no clock reads
  // earlier than `from`; later readings may go back and forth.
  ghost predicate SameFrom(a: State, b: State, from: int) {
    forall ops, now :: Uninterrupted(ops) && NoneBefore(from, ops) && from <= now ==>
      SnapshotOf(Run(a, ops).row, now) == SnapshotOf(Run(b, ops).row, now)
  }

  // Both states show the same whatever happens next: any clocks, crashes too.
  ghost predicate SameEver(a: State, b: State) {
    forall ops, now :: SnapshotOf(Run(a, ops).row, now) == SnapshotOf(Run(b, ops).row, now)
  }

  // Equal but for the time of the last update.
  predicate Undated(a: Row, b: Row) { a == b.(updatedAt := a.updatedAt) }

  lemma UndatedVehicle(r: Row, at: int, c: Clock, state: string, odometer: Option<int>)
    ensures OnVehicle(r.(updatedAt := at), c, state, odometer) == OnVehicle(r, c, state, odometer)
  {
    var s := r.(updatedAt := at);
    if IsReady(state) {
      if !r.active {
        assert SessionStarted(s, c) == SessionStarted(r, c).(updatedAt := at);
      }
    } else if odometer.Some? && odometer.value >= 0 {
      assert Observed(s, odometer.value) == Observed(r, odometer.value).(updatedAt := at);
    }
  }

  lemma UndatedRecover(r: Row, at: int, c: Clock, state: string)
    ensures OnRecover(r.(updatedAt := at), c, state) == OnRecover(r, c, state)
  {
    if IsReady(state) && !r.active {
      assert SessionStarted(r.(updatedAt := at), c) == SessionStarted(r, c).(updatedAt := at);
    }
  }

  lemma UndatedPack(r: Row, at: int, c: Clock, slot: int, present: bool, serial: string, seed: bool)
    ensures Undated(OnPack(r.(updatedAt := at), c, slot, present, serial, seed),
                    OnPack(r, c, slot, present, serial, seed))
  {
    assert Reset(r.(updatedAt := at), c, By(Battery)) == Reset(r, c, By(Battery)).(updatedAt := at);
  }

  lemma UndatedOp(a: State, b: State, c: Clock, op: Op)
    requires Undated(a.row, b.row) && a.commands == b.commands
    ensures Undated(Apply(a, c, op).row, Apply(b, c, op).row) && Apply(a, c, op).commands == Apply(b, c, op).commands
  {
    match op
    case Vehicle(state, odometer) => UndatedVehicle(b.row, a.row.updatedAt, c, state, odometer);
    case Pack(slot, present, serial, seed) => UndatedPack(b.row, a.row.updatedAt, c, slot, present, serial, seed);
    case Recover(state) => UndatedRecover(b.row, a.row.updatedAt, c, state);
    case ResetCommand(id) =>
    case _ => UndatedRow(b.row, a.row.updatedAt, c, op);
  }

  lemma UndatedRow(r: Row, at: int, c: Clock, op: Op)
    requires !op.Vehicle? && !op.Pack? && !op.Recover? && !op.ResetCommand?
    ensures Undated(RowAfter(r.(updatedAt := at), c, op), RowAfter(r, c, op))
  {
  }

  lemma {:induction false} UndatedRun(a: State, b: State, ops: seq<Timed>, now: int)
    requires Undated(a.row, b.row) && a.commands == b.commands
    ensures Undated(Run(a, ops).row, Run(b, ops).row) && Run(a, ops).commands == Run(b, ops).commands
    ensures SnapshotOf(Run(a, ops).row, now) == SnapshotOf(Run(b, ops).row, now)
  {
    if ops != [] {
      var n := |ops| - 1;
      UndatedRun(a, b, ops[..n], now);
      UndatedOp(Run(a, ops[..n]), Run(b, ops[..n]), ops[n].clock, ops[n].op);
    }
  }

  // Alike, and if timed since different moments then since moments not after `from`.
  predicate Twins(a: Row, b: Row, from: int) {
    && Normal(a) == Normal(b)
    && (a.readyStartedAt == b.readyStartedAt
        || (a.active && TRUSTED <= from && 0 < a.readyStartedAt <= from && 0 < b.readyStartedAt <= from))
  }

  lemma TwinsMeaning(a: Row, b: Row, from: int)
    requires Twins(a, b, from)
    ensures a == b.(updatedAt := a.updatedAt, readyStartedAt := a.readyStartedAt, durationS := a.durationS)
    ensures a.readyStartedAt == b.readyStartedAt ==> a.durationS == b.durationS
    ensures forall now :: from <= now ==> Shown(a, now) == Shown(b, now)
  {
    NormalMeaning(a, b);
  }

  lemma TwinsVehicle(a: Row, b: Row, from: int, c: Clock, state: string, odometer: Option<int>)
    requires Twins(a, b, from) && from <= c.unix
    ensures Twins(OnVehicle(a, c, state, odometer), OnVehicle(b, c, state, odometer), from)
  {
    TwinsMeaning(a, b, from);
    if a.readyStartedAt == b.readyStartedAt {
      UndatedVehicle(b, a.updatedAt, c, state, odometer);
    } else if !IsReady(state) {
      assert Shown(a, c.unix) == Shown(b, c.unix);
    }
  }

  lemma TwinsPack(a: Row, b: Row, from: int, c: Clock, slot: int, present: bool, serial: string, seed: bool)
    requires Twins(a, b, from) && from <= c.unix
    ensures Twins(OnPack(a, c, slot, present, serial, seed), OnPack(b, c, slot, present, serial, seed), from)
  {
    TwinsMeaning(a, b, from);
    if a.readyStartedAt == b.readyStartedAt {
      UndatedPack(b, a.updatedAt, c, slot, present, serial, seed);
    }
  }

  lemma TwinsOp(a: State, b: State, from: int, c: Clock, op: Op)
    requires Twins(a.row, b.row, from) && a.commands == b.commands && from <= c.unix && !op.Recover?
    ensures
      var x, y := Apply(a, c, op), Apply(b, c, op);
      Twins(x.row, y.row, from) && x.commands == y.commands
  {
    match op
    case Vehicle(state, odometer) => TwinsVehicle(a.row, b.row, from, c, state, odometer);
    case Pack(slot, present, serial, seed) => TwinsPack(a.row, b.row, from, c, slot, present, serial, seed);
    case _ => TwinsMeaning(a.row, b.row, from);
  }

  lemma {:induction false} TwinsRun(a: State, b: State, from: int, ops: seq<Timed>)
    requires Twins(a.row, b.row, from) && a.commands == b.commands && Uninterrupted(ops) && NoneBefore(from, ops)
    ensures Twins(Run(a, ops).row, Run(b, ops).row, from) && Run(a, ops).commands == Run(b, ops).commands
  {
    if ops != [] {
      var n := |ops| - 1;
      TwinsRun(a, b, from, ops[..n]);
      assert ops[n] in ops;
      TwinsOp(Run(a, ops[..n]), Run(b, ops[..n]), from, ops[n].clock, ops[n].op);
    }
  }

  lemma TwinsShow(a: Row, b: Row, from: int, now: int)
    requires Twins(a, b, from) && from <= now
    ensures SnapshotOf(a, now) == SnapshotOf(b, now)
  {
    TwinsMeaning(a, b, from);
  }

  // In one process whose clock is never again behind the checkpoint's, the checkpoint
  // is never seen if and only if it does not start the timing of an active counter
  // and does not move its start back.
  lemma CheckpointInvisibleExactly(s: State, c: Clock)
    requires Consistent(s.row)
    ensures SameFrom(Apply(s, c, Checkpoint), s, c.unix) <==> !StartsTiming(s.row, c)
  {
    var t := Apply(s, c, Checkpoint);
    if StartsTiming(s.row, c) {
      var now := Max(c.unix, s.row.readyStartedAt) + 1;
      CheckpointUnseenAt(s, c, now);
      assert Run(t, []) == t && Run(s, []) == s;
      assert SnapshotOf(Run(t, []).row, now) != SnapshotOf(Run(s, []).row, now);
    } else {
      CheckpointTwins(s, c);
      forall ops, now | Uninterrupted(ops) && NoneBefore(c.unix, ops) && c.unix <= now
        ensures SnapshotOf(Run(t, ops).row, now) == SnapshotOf(Run(s, ops).row, now)
      {
        TwinsRun(t, s, c.unix, ops);
        TwinsShow(Run(t, ops).row, Run(s, ops).row, c.unix, now);
      }
    }
  }

  lemma CheckpointTwins(s: State, c: Clock)
    requires Consistent(s.row) && !StartsTiming(s.row, c)
    ensures Twins(Apply(s, c, Checkpoint).row, s.row, c.unix) && Apply(s, c, Checkpoint).commands == s.commands
  {
  }

  // With clocks that may go behind it, and crashes, it is never seen if and only if it
  // leaves the timing as it is.
  lemma CheckpointNeverSeenExactly(s: State, c: Clock)
    requires Consistent(s.row)
    ensures SameEver(Apply(s, c, Checkpoint), s) <==> LeavesTiming(s.row, c)
  {
    var t, start := Apply(s, c, Checkpoint), s.row.readyStartedAt;
    if LeavesTiming(s.row, c) {
      assert Undated(t.row, s.row);
      forall ops, now ensures SnapshotOf(Run(t, ops).row, now) == SnapshotOf(Run(s, ops).row, now) {
        UndatedRun(t, s, ops, now);
      }
    } else {
      var now := if start == 0 then c.unix + 1 else if start < c.unix then start else start + 1;
      CheckpointUnseenAt(s, c, now);
      assert Run(t, []) == t && Run(s, []) == s;
      assert SnapshotOf(Run(t, []).row, now) != SnapshotOf(Run(s, []).row, now);
    }
  }

  // It can be seen in three ways, in runs from the first row: ready before the clock
  // is set ...
  lemma CheckpointVisibleAfterClockSet()
    ensures
      var s := State(FirstRow(Clock(0, 0), None), map[]);
      var ready := Timed(Clock(0, 0), Vehicle("ready-to-drive", None));
      var checkpoint := Timed(Clock(TRUSTED, 0), Checkpoint);
      && SnapshotOf(Run(s, [ready]).row, TRUSTED + 60).durationS == 0
      && SnapshotOf(Run(s, [ready, checkpoint]).row, TRUSTED + 60).durationS == 60
  {
    var s := State(FirstRow(Clock(0, 0), None), map[]);
    TwoSteps(s, Timed(Clock(0, 0), Vehicle("ready-to-drive", None)), Timed(Clock(TRUSTED, 0), Checkpoint));
  }

  // ... a clock that steps back by 40 s before the checkpoint and then goes on ...
  lemma CheckpointVisibleAfterClockBack()
    ensures
      var s := State(FirstRow(Clock(TRUSTED, 0), None), map[]);
      var ready := Timed(Clock(TRUSTED + 40, 0), Vehicle("ready-to-drive", None));
      var checkpoint := Timed(Clock(TRUSTED, 0), Checkpoint);
      && SnapshotOf(Run(s, [ready]).row, TRUSTED + 60).durationS == 20
      && SnapshotOf(Run(s, [ready, checkpoint]).row, TRUSTED + 60).durationS == 60
  {
    var s := State(FirstRow(Clock(TRUSTED, 0), None), map[]);
    TwoSteps(s, Timed(Clock(TRUSTED + 40, 0), Vehicle("ready-to-drive", None)), Timed(Clock(TRUSTED, 0), Checkpoint));
  }

  // ... and one that steps back behind the checkpoint: the time that the checkpoint
  // counted stays counted.
  lemma CheckpointVisibleAfterLaterClockBack(now: int)
    ensures
      var s := State(FirstRow(Clock(TRUSTED, 0), None), map[]);
      var ready := Timed(Clock(TRUSTED, 0), Vehicle("ready-to-drive", None));
      var checkpoint := Timed(Clock(TRUSTED + 60, 0), Checkpoint);
      var parked := Timed(Clock(TRUSTED + 20, 0), Vehicle("parked", None));
      && SnapshotOf(Run(s, [ready, parked]).row, now).durationS == 20
      && SnapshotOf(Run(s, [ready, checkpoint, parked]).row, now).durationS == 60
  {
    var s := State(FirstRow(Clock(TRUSTED, 0), None), map[]);
    var ready := Timed(Clock(TRUSTED, 0), Vehicle("ready-to-drive", None));
    var checkpoint := Timed(Clock(TRUSTED + 60, 0), Checkpoint);
    var parked := Timed(Clock(TRUSTED + 20, 0), Vehicle("parked", None));
    TwoSteps(s, ready, parked);
    TwoSteps(s, ready, checkpoint);
    assert [ready, checkpoint, parked][..2] == [ready, checkpoint];
  }

  lemma TwoSteps(s: State, first: Timed, second: Timed)
    ensures Run(s, [first]) == Apply(s, first.clock, first.op)
    ensures Run(s, [first, second]) == Apply(Run(s, [first]), second.clock, second.op)
  {
    assert [first][..0] == [] && [first, second][..1] == [first];
  }

  // ----- the counter against an independent meter -----

  // A meter that only watches the vehicle state, the clock, the odometer
  // readings, and whether the counter was reset.
  datatype Meter = Meter(ready: bool, at: int, seconds: int, metres: int, odometer: Option<int>)

  function Reading(op: Op): Option<int> {
    match op
    case Odometer(v) => if v >= 0 then Some(v) else None
    case Vehicle(state, odometer) =>
      if !IsReady(state) && odometer.Some? && odometer.value >= 0 then odometer else None
    case _ => None
  }

  function Metered(m: Meter, now: int, op: Op, reset: bool): Meter {
    var v := Reading(op);
    var gain := if m.ready && v.Some? && m.odometer.Some? then Max(0, v.value - m.odometer.value) else 0;
    Meter(if op.Vehicle? then IsReady(op.state) else m.ready,
          now,
          if reset then 0 else m.seconds + if m.ready then now - m.at else 0,
          if reset then 0 else m.metres + gain,
          if v.Some? then v else m.odometer)
  }

  function MeterOf(s: State, m: Meter, ops: seq<Timed>): Meter {
    if ops == [] then m
    else
      var n := |ops| - 1;
      var before := Run(s, ops[..n]);
      Metered(MeterOf(s, m, ops[..n]), ops[n].clock.unix, ops[n].op,
              Apply(before, ops[n].clock, ops[n].op).row.generation != before.row.generation)
  }

  predicate Agrees(r: Row, m: Meter) {
    && Timing(r, m.at) && r.active == m.ready
    && Shown(r, m.at) == m.seconds && r.distanceM == m.metres && r.lastOdometer == m.odometer
  }

  lemma OpAgrees(s: State, m: Meter, c: Clock, op: Op)
    requires Agrees(s.row, m) && m.at <= c.unix && Trustworthy(c) && !op.Recover?
    ensures
      var t := Apply(s, c, op);
      Agrees(t.row, Metered(m, c.unix, op, t.row.generation != s.row.generation))
  {
    match op
    case Vehicle(state, odometer) => VehicleAgrees(s.row, m, c, state, odometer);
    case Pack(slot, present, serial, seed) => PackAgrees(s.row, m, c, slot, present, serial, seed);
    case _ =>
  }

  lemma PackAgrees(r: Row, m: Meter, c: Clock, slot: int, present: bool, serial: string, seed: bool)
    requires Agrees(r, m) && m.at <= c.unix && Trustworthy(c)
    ensures
      var t := OnPack(r, c, slot, present, serial, seed);
      Agrees(t, Metered(m, c.unix, Pack(slot, present, serial, seed), t.generation != r.generation))
  {
  }

  lemma VehicleAgrees(r: Row, m: Meter, c: Clock, state: string, odometer: Option<int>)
    requires Agrees(r, m) && m.at <= c.unix && Trustworthy(c)
    ensures
      var t := OnVehicle(r, c, state, odometer);
      Agrees(t, Metered(m, c.unix, Vehicle(state, odometer), t.generation != r.generation))
  {
    var v := Reading(Vehicle(state, odometer));
    if !IsReady(state) && v.Some? {
      assert Shown(Observed(r, v.value), c.unix) == Shown(r, c.unix);
    }
  }

  // In one process under a trustworthy clock the counter shows exactly the time
  // spent ready to drive, and the forward odometer movement while ready, since
  // its last reset.
  lemma {:induction false} CounterIsMeter(s: State, m: Meter, ops: seq<Timed>)
    requires Agrees(s.row, m) && TRUSTED <= m.at && Steady(m.at, ops) && Uninterrupted(ops)
    ensures LastTime(m.at, ops) == MeterOf(s, m, ops).at >= m.at
    ensures Agrees(Run(s, ops).row, MeterOf(s, m, ops))
  {
    if ops != [] {
      var n := |ops| - 1;
      CounterIsMeter(s, m, ops[..n]);
      assert ops[n] in ops;
      OpAgrees(Run(s, ops[..n]), MeterOf(s, m, ops[..n]), ops[n].clock, ops[n].op);
    }
  }

  // ----- recovery -----

  // What startup does before it applies the vehicle state; also what is left of
  // startups that died on the way.
  predicate Quiet(op: Op) { op.Odometer? || op.Dual? || op.SetPolicy? || (op.Pack? && op.seed) }

  predicate AllQuiet(ops: seq<Timed>) { forall t :: t in ops ==> Quiet(t.op) }

  // The forward movement of successive readings from `last`, and the last of them.
  function Advance(last: Option<int>, ops: seq<Timed>): (int, Option<int>) {
    if ops == [] then (0, last)
    else
      var (gain, odo) := Advance(last, ops[..|ops| - 1]);
      var v := Reading(ops[|ops| - 1].op);
      if v.None? then (gain, odo)
      else (gain + if odo.Some? then Max(0, v.value - odo.value) else 0, v)
  }

  lemma QuietStep(r: Row, c: Clock, op: Op)
    requires Quiet(op)
    ensures
      var t, v := RowAfter(r, c, op), Reading(op);
      && t.durationS == r.durationS && t.active == r.active && t.sessionOpen == r.sessionOpen
      && t.generation == r.generation && t.lastOdometer == (if v.Some? then v else r.lastOdometer)
      && t.distanceM == r.distanceM
         + if r.active && v.Some? && r.lastOdometer.Some? then Max(0, v.value - r.lastOdometer.value) else 0
  {
  }

  lemma {:induction false} QuietKeeps(s: State, ops: seq<Timed>)
    requires AllQuiet(ops)
    ensures
      var r, t := s.row, Run(s, ops).row;
      && t.durationS == r.durationS && t.active == r.active && t.sessionOpen == r.sessionOpen
      && t.generation == r.generation && t.lastOdometer == Advance(r.lastOdometer, ops).1
      && t.distanceM == r.distanceM + if r.active then Advance(r.lastOdometer, ops).0 else 0
  {
    if ops != [] {
      var n := |ops| - 1;
      assert ops[n] in ops;
      QuietKeeps(s, ops[..n]);
      QuietStep(Run(s, ops[..n]).row, ops[n].clock, ops[n].op);
    }
  }

  // After a crash at any point, any number of startups that also died, and an
  // outage of any length, the recovered counter shows exactly its durable
  // duration, and has gained only the forward odometer movement if it was
  // active.  The exception is a session that the recovery itself opens.
  lemma RecoveryAddsNoTime(s: State, startups: seq<Timed>, c: Clock, state: string)
    requires AllQuiet(startups) && Consistent(s.row)
    ensures
      var before := Run(s, startups).row;
      var r := OnRecover(before, c, state);
      var opens := IsReady(state) && !s.row.active && !s.row.sessionOpen;
      var gain := if s.row.active then Advance(s.row.lastOdometer, startups).0 else 0;
      && (r.generation != s.row.generation <==> opens && ResetDue(before, c))
      && (r.generation == s.row.generation ==>
            && Shown(r, c.unix) == r.durationS == s.row.durationS
            && r.distanceM == s.row.distanceM + gain)
      && (r.generation != s.row.generation ==> Shown(r, c.unix) == r.durationS == 0 && r.distanceM == 0)
      && r.active == IsReady(state)
      && (r.readyStartedAt == 0 || r.readyStartedAt == c.unix)
  {
    QuietKeeps(s, startups);
    ConsistentRun(s, startups);
    RecoverStep(Run(s, startups).row, c, state);
  }

  lemma RecoverStep(r: Row, c: Clock, state: string)
    requires Consistent(r)
    ensures
      var t := OnRecover(r, c, state);
      var resets := IsReady(state) && !r.active && !r.sessionOpen && ResetDue(r, c);
      && t.generation == r.generation + (if resets then 1 else 0)
      && Shown(t, c.unix) == t.durationS == (if resets then 0 else r.durationS)
      && t.distanceM == (if resets then 0 else r.distanceM)
      && t.active == IsReady(state)
      && (t.readyStartedAt == 0 || t.readyStartedAt == c.unix)
  {
  }

  lemma {:induction false} ConsistentRun(s: State, ops: seq<Timed>)
    requires Consistent(s.row)
    ensures Consistent(Run(s, ops).row)
  {
    if ops != [] {
      ConsistentRun(s, ops[..|ops| - 1]);
      ApplyConsistent(Run(s, ops[..|ops| - 1]), ops[|ops| - 1].clock, ops[|ops| - 1].op);
    }
  }
}
