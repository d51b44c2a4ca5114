/** The save-and-publish protocol of internal/energy/service.go, with crashes.

Each action is one step of the loop.  A save ends in one of three ways: the new
file is in place and known to be, the old file is still there, or the new file
is in place although the save reported an error. */
module EnergyService {
  import opened Prelude
  import opened Timeline
  import opened Accounting
  import opened EnergyRuns
  import opened Attribution

  datatype Outcome = Stored | FailedOld | FailedNew

  datatype Stage = Polling | Saving | Publishing

  datatype Process = Down | Running(stage: Stage, accounts: Accounts, saved: Totals)

  datatype Service = Service(disk: Option<Totals>, process: Process, published: Option<Totals>)

  datatype Action =
    | Boot(now: int, outcome: Outcome)
    | Poll(snapshot: Option<Observation>)
    | Save(outcome: Outcome)
    | Publish(ok: bool)
    | Crash

  function Load(disk: Option<Totals>): Totals { if disk.Some? then disk.value else ZERO }

  function BootTotals(disk: Option<Totals>): Totals {
    var t := Load(disk);
    if t.intervals > 0 then t.(gaps := t.gaps + 1) else t
  }

  function Next(s: Service, act: Action): Service {
    match (act, s.process)
    case (Boot(now, outcome), Down) =>
      var t := BootTotals(s.disk);
      (match outcome
       case Stored => s.(disk := Some(t), process := Running(Polling, Fresh(t, now), t))
       case FailedOld => s
       case FailedNew => s.(disk := Some(t)))
    case (Poll(snapshot), Running(Polling, a, saved)) =>
      var b := if snapshot.Some? then After(a, snapshot.value) else BrokenOff(a);
      s.(process := Running(Saving, b, saved))
    case (Save(outcome), Running(Saving, a, saved)) =>
      if a.totals == saved then s.(process := Running(Publishing, a, saved))
      else (match outcome
            case Stored => s.(disk := Some(a.totals), process := Running(Publishing, a, a.totals))
            case FailedOld => s.(process := Running(Publishing, a, saved))
            case FailedNew => s.(disk := Some(a.totals), process := Running(Publishing, a, saved)))
    case (Publish(ok), Running(Publishing, a, saved)) =>
      s.(process := Running(Polling, a, saved), published := if ok then Some(saved) else s.published)
    case (Crash, _) => s.(process := Down)
    case _ => s
  }

  // ----- the audit: which accepted intervals each set of totals stands for -----

  datatype Audit = Audit(service: Service, memory: seq<Step>, durable: seq<Step>, saved: seq<Step>,
                         published: seq<Step>,
                         floors: (Option<int>, Option<int>), ordered: bool)

  const START := Audit(Service(None, Down, None), [], [], [], [], (None, None), true)

  predicate NotBefore(floor: Option<int>, at: Option<int>) {
    at.Some? ==> AtMost(floor, at.value * MILLISECOND)
  }

  function PollTrail(a: Accounts, snapshot: Option<Observation>): seq<Step> {
    if snapshot.Some? then Trail(a, snapshot.value) else Cuts(a)
  }

  function NextAudit(u: Audit, act: Action): Audit {
    var v := u.(service := Next(u.service, act));
    match (act, u.service.process)
    case (Poll(snapshot), Running(Polling, a, _)) =>
      var w := v.(memory := u.memory + PollTrail(a, snapshot));
      if snapshot.None? then w
      else
        var p := snapshot.value.packs;
        w.(floors := (Raised(u.floors.0, p[0].at), Raised(u.floors.1, p[1].at)),
           ordered := u.ordered && NotBefore(u.floors.0, p[0].at) && NotBefore(u.floors.1, p[1].at))
    case (Save(outcome), Running(Saving, a, saved)) =>
      if a.totals == saved then v
      else if outcome == Stored then v.(durable := u.memory, saved := u.memory)
      else if outcome == FailedNew then v.(durable := u.memory)
      else v
    case (Boot(_, Stored), Down) => v.(memory := u.durable, saved := u.durable)
    case (Publish(true), Running(Publishing, _, _)) => v.(published := u.saved)
    case (Crash, _) => v.(memory := u.durable, saved := u.durable)
    case _ => v
  }

  function RunAudit(acts: seq<Action>): Audit {
    if acts == [] then START else NextAudit(RunAudit(acts[..|acts| - 1]), acts[|acts| - 1])
  }

  // The totals are exactly the energy and number of these intervals.
  predicate StandsFor(t: Totals, trail: seq<Step>) {
    && t.driving == EnergyIn(trail, Driving) && t.parked == EnergyIn(trail, Parked)
    && t.standby == EnergyIn(trail, Standby) && t.unassigned == EnergyIn(trail, Unassigned)
    && t.intervals == Intervals(trail)
  }

  predicate Audited(u: Audit) {
    && StandsFor(Load(u.service.disk), u.durable)
    && u.published <= u.saved <= u.durable <= u.memory
    && (u.service.published.Some? ==> StandsFor(u.service.published.value, u.published))
    && (u.service.process.Running? ==>
          && StandsFor(u.service.process.saved, u.saved)
          && StandsFor(u.service.process.accounts.totals, u.memory)
          && SlotsInRange(u.service.process.accounts.slots))
  }

  lemma {:induction false} SumsAppend(x: seq<Step>, y: seq<Step>)
    ensures forall p :: EnergyIn(x + y, p) == EnergyIn(x, p) + EnergyIn(y, p)
    ensures Intervals(x + y) == Intervals(x) + Intervals(y)
  {
    if y == [] {
      assert x + y == x;
    } else {
      assert (x + y)[..|x| + |y| - 1] == x + y[..|y| - 1];
      SumsAppend(x, y[..|y| - 1]);
    }
  }

  lemma PollAccounted(a: Accounts, snapshot: Option<Observation>, memory: seq<Step>)
    requires StandsFor(a.totals, memory) && SlotsInRange(a.slots)
    ensures
      var b := if snapshot.Some? then After(a, snapshot.value) else BrokenOff(a);
      StandsFor(b.totals, memory + PollTrail(a, snapshot)) && SlotsInRange(b.slots)
  {
    var trail := PollTrail(a, snapshot);
    if snapshot.Some? {
      TrailExplains(a, snapshot.value, [], BookOf(a));
      TrailCoherent(a, snapshot.value, [], BookOf(a));
      assert [] + trail == trail;
    } else {
      PairApplies(a, (Cut(a.slots[0]), Cut(a.slots[1])));
    }
    ReplaySums(BookOf(a), trail);
    SumsAppend(memory, trail);
    var t := Replay(BookOf(a), trail).totals;
    assert t.Of(Driving) == t.driving && t.Of(Parked) == t.parked;
    assert t.Of(Standby) == t.standby && t.Of(Unassigned) == t.unassigned;
  }

  lemma PollAudited(u: Audit, snapshot: Option<Observation>)
    requires Audited(u) && u.service.process.Running? && u.service.process.stage == Polling
    ensures Audited(NextAudit(u, Poll(snapshot)))
    ensures u.published <= NextAudit(u, Poll(snapshot)).published
  {
    PollAccounted(u.service.process.accounts, snapshot, u.memory);
  }

  lemma BootAudited(u: Audit, now: int, outcome: Outcome)
    requires Audited(u)
    ensures Audited(NextAudit(u, Boot(now, outcome)))
    ensures u.published <= NextAudit(u, Boot(now, outcome)).published
  {
  }

  lemma SaveAudited(u: Audit, outcome: Outcome)
    requires Audited(u)
    ensures Audited(NextAudit(u, Save(outcome)))
    ensures u.published <= NextAudit(u, Save(outcome)).published
  {
    var v := NextAudit(u, Save(outcome));
    assert v.memory == u.memory && v.published == u.published && v.service.published == u.service.published;
    if u.service.process.Running? && u.service.process.stage == Saving
        && u.service.process.accounts.totals != u.service.process.saved {
      match outcome
      case Stored => assert v.durable == v.saved == u.memory;
      case FailedOld => assert v.durable == u.durable && v.saved == u.saved;
      case FailedNew => assert v.durable == u.memory && v.saved == u.saved;
    } else {
      assert v.durable == u.durable && v.saved == u.saved && v.service.disk == u.service.disk;
    }
  }

  lemma NextAudited(u: Audit, act: Action)
    requires Audited(u)
    ensures Audited(NextAudit(u, act))
    ensures u.published <= NextAudit(u, act).published
  {
    match act
    case Boot(now, outcome) => BootAudited(u, now, outcome);
    case Poll(snapshot) =>
      if u.service.process.Running? && u.service.process.stage == Polling {
        PollAudited(u, snapshot);
      }
    case Save(outcome) => SaveAudited(u, outcome);
    case Publish(ok) =>
    case Crash =>
  }

  lemma {:induction false} RunAudited(acts: seq<Action>)
    ensures Audited(RunAudit(acts))
  {
    if acts != [] {
      RunAudited(acts[..|acts| - 1]);
      NextAudited(RunAudit(acts[..|acts| - 1]), acts[|acts| - 1]);
    }
  }

  lemma {:induction false} IntervalsPrefix(x: seq<Step>, y: seq<Step>)
    requires x <= y
    ensures Intervals(x) <= Intervals(y)
  {
    SumsAppend(x, y[|x|..]);
    assert x + y[|x|..] == y;
  }

  // Whatever saves fail and wherever the process dies, what has been published
  // is no more than what a restart would load, and both stand for an exact list
  // of accepted intervals, the published list being a prefix of the durable one.
  lemma PublishedNeverAhead(acts: seq<Action>)
    ensures
      var u := RunAudit(acts);
      && StandsFor(Load(u.service.disk), u.durable)
      && (u.service.published.Some? ==>
            && StandsFor(u.service.published.value, u.published) && u.published <= u.durable
            && u.service.published.value.intervals <= Load(u.service.disk).intervals)
  {
    RunAudited(acts);
    var u := RunAudit(acts);
    IntervalsPrefix(u.published, u.durable);
  }

  // Published interval counts never go down, across any number of restarts.
  lemma {:induction false} PublishedNeverDecreases(acts: seq<Action>, k: nat)
    requires k <= |acts|
    ensures RunAudit(acts[..k]).published <= RunAudit(acts).published
    ensures
      var before, after := RunAudit(acts[..k]).service.published, RunAudit(acts).service.published;
      before.Some? && after.Some? ==> before.value.intervals <= after.value.intervals
  {
    if k == |acts| {
      assert acts[..k] == acts;
    } else {
      var init := acts[..|acts| - 1];
      PublishedNeverDecreases(init, k);
      assert init[..k] == acts[..k];
      RunAudited(init);
      NextAudited(RunAudit(init), acts[|acts| - 1]);
    }
    RunAudited(acts);
    RunAudited(acts[..k]);
    IntervalsPrefix(RunAudit(acts[..k]).published, RunAudit(acts).published);
  }

  // ----- nothing is counted twice, across restarts -----

  predicate SlotClear(u: Audit, i: nat)
    requires i < 2
  {
    var floor := if i == 0 then u.floors.0 else u.floors.1;
    Clear(if u.service.process.Running? then u.service.process.accounts.slots[i] else None, u.memory, i, floor)
  }

  lemma {:induction false} DisjointPrefix(x: seq<Step>, y: seq<Step>, i: nat)
    requires x <= y && Disjoint(y, i)
    ensures Disjoint(x, i)
    ensures Frontier(x, i).Some? ==> Frontier(y, i).Some? && Frontier(x, i).value <= Frontier(y, i).value
    decreases |y|
  {
    if |x| < |y| {
      DisjointPrefix(x, y[..|y| - 1], i);
    } else {
      assert x == y;
    }
  }

  lemma PollClear(u: Audit, snapshot: Option<Observation>, i: nat)
    requires i < 2 && Audited(u) && SlotClear(u, i) && NextAudit(u, Poll(snapshot)).ordered
    requires u.service.process.Running? && u.service.process.stage == Polling
    ensures SlotClear(NextAudit(u, Poll(snapshot)), i)
  {
    var a := u.service.process.accounts;
    var floor := if i == 0 then u.floors.0 else u.floors.1;
    if snapshot.Some? {
      TrailClear(a, snapshot.value, u.memory, i, floor);
    } else {
      ClearAfterPair(a.slots[i], u.memory, i, floor, (Cut(a.slots[0]), Cut(a.slots[1])));
    }
  }

  lemma SteadyStepClear(u: Audit, act: Action, i: nat)
    requires i < 2 && SlotClear(u, i) && (act.Save? || act.Publish?)
    ensures SlotClear(NextAudit(u, act), i)
  {
    var v := NextAudit(u, act);
    assert v.floors == u.floors && v.memory == u.memory;
    assert v.service.process.Running? <==> u.service.process.Running?;
  }

  // A restart or a crash empties the slot and falls back to the durable trail.
  lemma RestartClear(u: Audit, act: Action, i: nat)
    requires i < 2 && Audited(u) && SlotClear(u, i) && (act.Boot? || act.Crash?)
    ensures SlotClear(NextAudit(u, act), i)
  {
    DisjointPrefix(u.durable, u.memory, i);
    var v := NextAudit(u, act);
    assert v.floors == u.floors && (v.memory == u.memory || v.memory == u.durable);
  }

  lemma NextClear(u: Audit, act: Action, i: nat)
    requires i < 2 && Audited(u) && SlotClear(u, i) && NextAudit(u, act).ordered
    ensures SlotClear(NextAudit(u, act), i)
  {
    if act.Save? || act.Publish? {
      SteadyStepClear(u, act, i);
    } else if act.Boot? || act.Crash? {
      RestartClear(u, act, i);
    } else if u.service.process.Running? && u.service.process.stage == Polling {
      PollClear(u, act.snapshot, i);
    }
  }

  lemma {:induction false} RunClearAcross(acts: seq<Action>, i: nat)
    requires i < 2 && RunAudit(acts).ordered
    ensures SlotClear(RunAudit(acts), i)
  {
    if acts != [] {
      var init := acts[..|acts| - 1];
      RunAudited(init);
      RunClearAcross(init, i);
      NextClear(RunAudit(init), acts[|acts| - 1], i);
    }
  }

  // Over any history of crashes, failed saves and restarts in which a battery
  // never reports an older sample time, the durable totals are the energy of
  // intervals of which no two of a slot overlap.
  lemma DurableNeverDoubleCounts(acts: seq<Action>, i: nat, j: nat, k: nat)
    requires i < 2 && RunAudit(acts).ordered
    requires
      var trail := RunAudit(acts).durable;
      j < k < |trail| && trail[j].slot == trail[k].slot == i && trail[j].event.Extended? && trail[k].event.Extended?
    ensures
      var u := RunAudit(acts);
      StandsFor(Load(u.service.disk), u.durable) && u.durable[j].event.to.at <= u.durable[k].event.from.at
  {
    var u := RunAudit(acts);
    RunAudited(acts);
    RunClearAcross(acts, i);
    DisjointPrefix(u.durable, u.memory, i);
    DisjointPairwise(u.durable, i, j, k);
  }

  // ----- what gets published -----

  // A poll, a save that does not fail, and a publication that succeeds put the totals in
  // memory on display.
  lemma RoundPublishes(s: Service, snapshot: Option<Observation>)
    requires s.process.Running? && s.process.stage == Polling
    ensures
      var polled := Next(s, Poll(snapshot));
      var t := Next(Next(polled, Save(Stored)), Publish(true));
      && polled.process.Running? && t.published == Some(polled.process.accounts.totals)
      && t.process == Running(Polling, polled.process.accounts, polled.process.accounts.totals)
      && polled.process.accounts == (if snapshot.Some? then After(s.process.accounts, snapshot.value)
                                     else BrokenOff(s.process.accounts))
  {
  }

  // A publication shows what was saved last, not what only memory holds; without one, or
  // if it fails, nothing new is shown.
  lemma PublishesSaved(s: Service, act: Action)
    ensures
      Next(s, act).published ==
        if act == Publish(true) && s.process.Running? && s.process.stage == Publishing then Some(s.process.saved)
        else s.published
  {
  }

  // A start that succeeds goes on from the totals on disk, with the downtime counted as
  // one more gap if anything had been accepted; a start that fails leaves the service down.
  lemma BootLoads(s: Service, now: int, outcome: Outcome)
    requires s.process.Down?
    ensures
      var t, d := Next(s, Boot(now, outcome)), Load(s.disk);
      && (t.process.Running? <==> outcome == Stored)
      && (outcome == Stored ==>
            var m := t.process.accounts.totals;
            && m == Totals(d.driving, d.parked, d.standby, d.unassigned, d.intervals,
                           if d.intervals > 0 then d.gaps + 1 else d.gaps)
            && t.process.saved == m && t.disk == Some(m) && t.process.stage == Polling
            && t.process.accounts.slots == [None, None] && t.process.accounts.started == now)
  {
  }
}
