/** The settings in force: the reset policy and the number of batteries are those last
set, through rides, resets, crashes and startups. */
module Settings {
  import opened Prelude
  import opened CounterModel
  import CounterRuns
  import opened Handlers
  import Recorders
  import Trips
  import opened AppRuns

  datatype InForce = InForce(policy: Policy, dual: bool)

  function Of(r: Row): InForce { InForce(r.policy, r.dualBattery) }

  function Setting(f: InForce, op: Op): InForce {
    match op
    case SetPolicy(p) => f.(policy := p)
    case Dual(enabled) => f.(dual := enabled)
    case _ => f
  }

  function LastSet(f: InForce, ops: seq<Op>): InForce {
    if ops == [] then f else Setting(LastSet(f, ops[..|ops| - 1]), ops[|ops| - 1])
  }

  lemma OpSets(s: State, c: Clock, op: Op)
    ensures Of(Apply(s, c, op).row) == Setting(Of(s.row), op)
  {
  }

  // ----- the counter -----

  function OpsOf(ops: seq<CounterRuns.Timed>): (r: seq<Op>)
    ensures |r| == |ops|
  {
    if ops == [] then [] else OpsOf(ops[..|ops| - 1]) + [ops[|ops| - 1].op]
  }

  // Over any run, crashes and recoveries included, the settings are those last set.
  lemma {:induction false} RunSettings(s: State, ops: seq<CounterRuns.Timed>)
    ensures Of(CounterRuns.Run(s, ops).row) == LastSet(Of(s.row), OpsOf(ops))
  {
    if ops != [] {
      var n := |ops| - 1;
      RunSettings(s, ops[..n]);
      OpSets(CounterRuns.Run(s, ops[..n]), ops[n].clock, ops[n].op);
      assert OpsOf(ops)[..n] == OpsOf(ops[..n]);
    }
  }

  // ----- startup and the handlers -----

  lemma {:induction false} ConfiguredSettings(s: State, c: Clock, ops: seq<Op>)
    ensures Of(Configured(s, c, ops).row) == LastSet(Of(s.row), ops)
  {
    if ops != [] {
      ConfiguredSettings(s, c, ops[..|ops| - 1]);
      OpSets(Configured(s, c, ops[..|ops| - 1]), c, ops[|ops| - 1]);
    }
  }

  // Startup applies the settings it reads over those that were stored.
  lemma BootSets(counter: State, db: Trips.Db, events: seq<Recorders.Event>, found: Option<Trips.Trip>, c: Clock,
                 b: Boot, dist: Recorders.Metric)
    ensures
      var s := Booted(counter, db, events, found, c, b, dist);
      Of(s.counter.row) == LastSet(Of(counter.row), b.settings)
  {
    BootCounter(counter, db, events, found, c, b, dist);
    var reconciled := if b.odometer.Some? then Apply(counter, c, Odometer(b.odometer.value)) else counter;
    OpSets(counter, c, Odometer(if b.odometer.Some? then b.odometer.value else 0));
    ConfiguredSettings(reconciled, c, b.settings);
    OpSets(Prepared(counter, c, b), c, Recover(b.state));
  }

  function SettingsIn(ins: seq<Timed>): seq<Op> {
    if ins == [] then []
    else
      var i := ins[|ins| - 1].input;
      SettingsIn(ins[..|ins| - 1]) + if i.CounterCall? then [i.op] else []
  }

  lemma HandleSets(s: AppState, c: Clock, i: Input, dist: Recorders.Metric)
    ensures Of(Handle(s, c, i, dist).counter.row) ==
            if i.CounterCall? then Setting(Of(s.counter.row), i.op) else Of(s.counter.row)
  {
    CounterHears(s, c, i, dist);
    if Heard(s, i).Some? {
      OpSets(s.counter, c, Heard(s, i).value);
    }
  }

  lemma LastSetMore(f: InForce, ops: seq<Op>, i: Input)
    ensures LastSet(f, ops + if i.CounterCall? then [i.op] else []) ==
            if i.CounterCall? then Setting(LastSet(f, ops), i.op) else LastSet(f, ops)
  {
    if i.CounterCall? {
      assert (ops + [i.op])[..|ops|] == ops;
    } else {
      assert ops + [] == ops;
    }
  }

  // Over any run of the handlers the settings are those last asked for.
  lemma {:induction false} AppSettings(s: AppState, ins: seq<Timed>, dist: Recorders.Metric)
    ensures Of(Run(s, ins, dist).counter.row) == LastSet(Of(s.counter.row), SettingsIn(ins))
  {
    if ins != [] {
      var n := |ins| - 1;
      AppSettings(s, ins[..n], dist);
      HandleSets(Run(s, ins[..n], dist), ins[n].clock, ins[n].input, dist);
      LastSetMore(Of(s.counter.row), SettingsIn(ins[..n]), ins[n].input);
    }
  }
}
