/** When the trip counter resets itself, over whole runs with crashes and
recoveries: what each reset policy promises in terms of rides, days and packs. */
module CounterPolicies {
  import opened Prelude
  import opened Commands
  import opened CounterModel
  import opened CounterRuns

  // Nobody changes the policy or resets by hand.
  predicate Automatic(ops: seq<Timed>) { forall t :: t in ops ==> !t.op.SetPolicy? && !t.op.ResetCommand? }

  function StateIn(op: Op): Option<string> {
    match op
    case Vehicle(state, _) => Some(state)
    case Recover(state) => Some(state)
    case _ => None
  }

  // ----- rides -----

  // A ride begins when the vehicle turns ready, lasts through pauses and ends
  // with any other state.
  function InRide(riding: bool, ops: seq<Timed>): bool {
    if ops == [] then riding
    else
      var before, state := InRide(riding, ops[..|ops| - 1]), StateIn(ops[|ops| - 1].op);
      if state.None? then before
      else
        match ModeOf(state.value)
        case Ready => true
        case Paused => before
        case Over => false
  }

  predicate Begins(riding: bool, op: Op) { !riding && StateIn(op).Some? && ModeOf(StateIn(op).value) == Ready }

  function RidesBegun(riding: bool, ops: seq<Timed>): nat {
    if ops == [] then 0
    else
      var n := |ops| - 1;
      RidesBegun(riding, ops[..n]) + if Begins(InRide(riding, ops[..n]), ops[n].op) then 1 else 0
  }

  lemma RideStep(s: State, c: Clock, op: Op)
    requires Consistent(s.row) && !op.SetPolicy? && !op.ResetCommand?
    ensures
      var t := RowAfter(s.row, c, op);
      && t.policy == s.row.policy
      && t.sessionOpen == InRide(s.row.sessionOpen, [Timed(c, op)])
      && (s.row.policy == Ride ==> t.generation == s.row.generation + if Begins(s.row.sessionOpen, op) then 1 else 0)
      && (s.row.policy == Manual ==> t.generation == s.row.generation)
  {
    assert InRide(s.row.sessionOpen, []) == s.row.sessionOpen;
    assert [Timed(c, op)][..0] == [];
  }

  lemma InRideStep(riding: bool, ops: seq<Timed>)
    requires ops != []
    ensures InRide(riding, ops) == InRide(InRide(riding, ops[..|ops| - 1]), [ops[|ops| - 1]])
  {
    assert [ops[|ops| - 1]][..0] == [];
  }

  // The counter's session is the ride, across crashes too.
  lemma {:induction false} SessionIsRide(s: State, ops: seq<Timed>)
    requires Consistent(s.row) && Automatic(ops)
    ensures Consistent(Run(s, ops).row) && Run(s, ops).row.policy == s.row.policy
    ensures Run(s, ops).row.sessionOpen == InRide(s.row.sessionOpen, ops)
  {
    if ops != [] {
      var n := |ops| - 1;
      assert ops[n] in ops;
      SessionIsRide(s, ops[..n]);
      RideStep(Run(s, ops[..n]), ops[n].clock, ops[n].op);
      InRideStep(s.row.sessionOpen, ops);
      ApplyConsistent(Run(s, ops[..n]), ops[n].clock, ops[n].op);
    }
  }

  // The ride policy resets exactly once for each ride, and the manual policy never.
  lemma {:induction false} RidePolicyResets(s: State, ops: seq<Timed>)
    requires Consistent(s.row) && Automatic(ops)
    ensures s.row.policy == Ride ==> Run(s, ops).row.generation == s.row.generation + RidesBegun(s.row.sessionOpen, ops)
    ensures s.row.policy == Manual ==> Run(s, ops).row.generation == s.row.generation
  {
    if ops != [] {
      var n := |ops| - 1;
      assert ops[n] in ops;
      RidePolicyResets(s, ops[..n]);
      SessionIsRide(s, ops[..n]);
      RideStep(Run(s, ops[..n]), ops[n].clock, ops[n].op);
    }
  }

  // ----- days -----

  // The local days on which a run reset the counter.
  function ResetDays(s: State, ops: seq<Timed>): seq<int> {
    if ops == [] then []
    else
      var n := |ops| - 1;
      ResetDays(s, ops[..n])
      + if Run(s, ops).row.generation != Run(s, ops[..n]).row.generation then [ops[n].clock.day] else []
  }

  predicate Rising(days: seq<int>, floor: Option<int>) {
    days == [] ||
    (var n := |days| - 1;
     Rising(days[..n], floor) && (if n > 0 then days[n - 1] < days[n] else floor.Some? ==> floor.value < days[n]))
  }

  lemma DayStep(s: State, c: Clock, op: Op)
    requires Consistent(s.row) && s.row.policy == Day && !op.SetPolicy? && !op.ResetCommand?
    ensures
      var t := RowAfter(s.row, c, op);
      && (t.generation != s.row.generation ==>
            && Begins(s.row.sessionOpen, op) && t.dailyAnchor == Some(c.day)
            && s.row.dailyAnchor.Some? && s.row.dailyAnchor.value < c.day)
      && (t.generation == s.row.generation && s.row.dailyAnchor.Some? ==> t.dailyAnchor == s.row.dailyAnchor)
      && (Begins(s.row.sessionOpen, op) && Trustworthy(c) ==> t.dailyAnchor.Some? && c.day <= t.dailyAnchor.value)
  {
  }

  // Under the day policy the counter resets only as a ride begins, at most once a
  // day, whatever the clock does in between; and when a ride begins on a day, the
  // counter has been started on that day or later.
  lemma {:induction false} DayPolicyResets(s: State, ops: seq<Timed>)
    requires Consistent(s.row) && s.row.policy == Day && Automatic(ops)
    ensures
      var days, t := ResetDays(s, ops), Run(s, ops).row;
      && Rising(days, s.row.dailyAnchor)
      && (days != [] ==> t.dailyAnchor == Some(days[|days| - 1]))
      && (days == [] && s.row.dailyAnchor.Some? ==> t.dailyAnchor == s.row.dailyAnchor)
    ensures ops != [] ==>
      var n := |ops| - 1;
      Begins(InRide(s.row.sessionOpen, ops[..n]), ops[n].op) && Trustworthy(ops[n].clock) ==>
        Run(s, ops).row.dailyAnchor.Some? && ops[n].clock.day <= Run(s, ops).row.dailyAnchor.value
  {
    if ops != [] {
      var n := |ops| - 1;
      assert ops[n] in ops;
      DayPolicyResets(s, ops[..n]);
      SessionIsRide(s, ops[..n]);
      DayStep(Run(s, ops[..n]), ops[n].clock, ops[n].op);
      if Run(s, ops).row.generation != Run(s, ops[..n]).row.generation {
        RisingOne(ResetDays(s, ops[..n]), s.row.dailyAnchor, ops[n].clock.day);
      }
      assert ResetDays(s, ops[..n]) + [] == ResetDays(s, ops[..n]);
    }
  }

  lemma RisingOne(days: seq<int>, floor: Option<int>, day: int)
    requires Rising(days, floor)
    requires if days != [] then days[|days| - 1] < day else floor.Some? ==> floor.value < day
    ensures Rising(days + [day], floor)
  {
    assert (days + [day])[..|days|] == days;
  }

  // Choosing the day policy starts from today: whatever follows, the counter is
  // not reset before a later day.
  lemma DayPolicyChosen(s: State, c: Clock, ops: seq<Timed>)
    requires Consistent(s.row) && s.row.policy != Day && Trustworthy(c) && Automatic(ops)
    ensures
      var t := Apply(s, c, SetPolicy(Day));
      && t.row.distanceM == s.row.distanceM && t.row.durationS == s.row.durationS
      && t.row.generation == s.row.generation
      && Rising(ResetDays(t, ops), Some(c.day))
  {
    ApplyConsistent(s, c, SetPolicy(Day));
    DayPolicyResets(Apply(s, c, SetPolicy(Day)), ops);
  }

  // ----- packs -----

  // The battery an operation finds in a slot.
  function Seated(op: Op, slot: int, dual: bool): Option<string> {
    if op.Pack? && op.slot == slot && op.present && op.serial != "" && (slot == 1 ==> dual)
    then Some(op.serial) else None
  }

  function DualAfter(dual: bool, ops: seq<Timed>): bool {
    if ops == [] then dual
    else if ops[|ops| - 1].op.Dual? then ops[|ops| - 1].op.enabled else DualAfter(dual, ops[..|ops| - 1])
  }

  // The battery last found in a slot; an empty slot is not forgotten.
  function LastSeated(serial: string, dual: bool, ops: seq<Timed>, slot: int): string {
    if ops == [] then serial
    else
      var n := |ops| - 1;
      var found := Seated(ops[n].op, slot, DualAfter(dual, ops[..n]));
      if found.Some? then found.value else LastSeated(serial, dual, ops[..n], slot)
  }

  // How often another pack was found than the one before.
  function Swaps(serial: string, dual: bool, ops: seq<Timed>, slot: int): nat {
    if ops == [] then 0
    else
      var n := |ops| - 1;
      var found, last := Seated(ops[n].op, slot, DualAfter(dual, ops[..n])), LastSeated(serial, dual, ops[..n], slot);
      Swaps(serial, dual, ops[..n], slot)
      + if found.Some? && !ops[n].op.seed && last != "" && found.value != last then 1 else 0
  }

  // Under the battery policy the counter resets exactly when another pack is found
  // in a slot than was there before, however long the slot stood empty.
  lemma {:induction false} BatteryPolicyResets(s: State, ops: seq<Timed>)
    requires s.row.policy == Battery && Automatic(ops)
    ensures
      var r, t := s.row, Run(s, ops).row;
      && t.policy == Battery && t.dualBattery == DualAfter(r.dualBattery, ops)
      && t.serial0 == LastSeated(r.serial0, r.dualBattery, ops, 0)
      && t.serial1 == LastSeated(r.serial1, r.dualBattery, ops, 1)
      && t.generation ==
           r.generation + Swaps(r.serial0, r.dualBattery, ops, 0) + Swaps(r.serial1, r.dualBattery, ops, 1)
  {
    if ops != [] {
      var n := |ops| - 1;
      assert ops[n] in ops;
      BatteryPolicyResets(s, ops[..n]);
      PackStep(Run(s, ops[..n]).row, ops[n].clock, ops[n].op);
    }
  }

  lemma PackStep(r: Row, c: Clock, op: Op)
    requires r.policy == Battery && !op.SetPolicy? && !op.ResetCommand?
    ensures
      var t := RowAfter(r, c, op);
      var a, b := Seated(op, 0, r.dualBattery), Seated(op, 1, r.dualBattery);
      && t.policy == Battery && t.dualBattery == (if op.Dual? then op.enabled else r.dualBattery)
      && t.serial0 == (if a.Some? then a.value else r.serial0) && t.serial1 == (if b.Some? then b.value else r.serial1)
      && t.generation == r.generation
         + (if a.Some? && !op.seed && r.serial0 != "" && a.value != r.serial0 then 1 else 0)
         + (if b.Some? && !op.seed && r.serial1 != "" && b.value != r.serial1 then 1 else 0)
  {
    match op
    case Pack(slot, present, serial, seed) => PackFound(r, c, slot, present, serial, seed);
    case Vehicle(state, odometer) =>
    case _ =>
  }

  lemma PackFound(r: Row, c: Clock, slot: int, present: bool, serial: string, seed: bool)
    requires r.policy == Battery
    ensures
      var t := OnPack(r, c, slot, present, serial, seed);
      var found := Pack(slot, present, serial, seed);
      var a, b := Seated(found, 0, r.dualBattery), Seated(found, 1, r.dualBattery);
      && t.policy == Battery && t.dualBattery == r.dualBattery
      && t.serial0 == (if a.Some? then serial else r.serial0) && t.serial1 == (if b.Some? then serial else r.serial1)
      && t.generation == r.generation
         + (if a.Some? && !seed && r.serial0 != "" && serial != r.serial0 then 1 else 0)
         + (if b.Some? && !seed && r.serial1 != "" && serial != r.serial1 then 1 else 0)
  {
  }

  // ----- what a reset is -----

  // The counter starts again from zero, and says when and why.
  predicate IsReset(r: Row, t: Row, c: Clock, reason: Reason) {
    && t.generation == r.generation + 1 && t.distanceM == 0 && t.durationS == 0
    && t.resetAt == c.unix && t.reason == reason
  }

  function Cause(r: Row, op: Op): Reason {
    match op
    case ResetCommand(_) => By(Manual)
    case Pack(_, _, _, _) => By(Battery)
    case _ => By(r.policy)
  }

  // Every operation either resets the counter or leaves the account of its last reset.
  lemma ResetsExplained(s: State, c: Clock, op: Op)
    ensures
      var r, t := s.row, Apply(s, c, op).row;
      || IsReset(r, t, c, Cause(r, op))
      || (t.generation == r.generation && t.resetAt == r.resetAt && t.reason == r.reason)
  {
  }

  // ----- reset commands -----

  // A command is answered from the same step that changes the row: a new id is answered
  // ok if and only if it reset the counter, and busy if and only if the counter was
  // active, which leaves the row as it was.  A replay changes nothing.
  lemma CommandAnswers(s: State, c: Clock, id: string)
    requires id != ""
    ensures
      var answer, t := Issued(s.commands, id, c.unix, s.row.active).0, Apply(s, c, ResetCommand(id));
      if id in s.commands then answer == s.commands[id].verdict && t == s
      else
        && (answer == Ok <==> IsReset(s.row, t.row, c, By(Manual)))
        && (answer == Busy <==> s.row.active) && (s.row.active ==> t.row == s.row)
        && id in t.commands && t.commands[id] == Command(answer, c.unix)
  {
    ReplayIsStable(s.commands, id, c.unix, s.row.active, c.unix, s.row.active);
  }

  // An empty id is refused and does nothing.
  lemma EmptyCommand(s: State, c: Clock)
    ensures Apply(s, c, ResetCommand("")) == s
  {
  }

  // ----- timing under a clock that is set late -----

  // An active counter that is not yet timed starts to be, under a trusted clock, at the
  // next checkpoint, the next reading, or a reset.
  lemma TimingStarts(s: State, c: Clock, op: Op)
    requires Consistent(s.row) && s.row.active && s.row.readyStartedAt == 0 && Trustworthy(c) && !op.Recover?
    ensures
      var t := Apply(s, c, op).row;
      var starts := op.Checkpoint? || (op.Odometer? && op.value >= 0) || t.generation != s.row.generation;
      t.active ==> t.readyStartedAt == if starts then c.unix else 0
  {
  }

  // A counter that was never used shows nothing, under the ride policy.
  lemma FirstShown(c: Clock, odometer: Option<int>, now: int)
    ensures SnapshotOf(FirstRow(c, odometer), now) == Snapshot(0, 0, 0, Ride, c.unix, Initial, 0, false)
    ensures FirstRow(c, odometer).lastOdometer == odometer && !FirstRow(c, odometer).dualBattery
  {
  }
}
