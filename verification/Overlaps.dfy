/** How often an instant of a battery's time is charged.

Each accepted interval charges its instants once.  An unbroken chain charges what
lies between its first and its latest sample; a chain opened by a sample older
than the ones before may charge an instant again. */
module Overlaps {
  import opened Prelude
  import opened Timeline
  import opened Accounting
  import opened EnergyRuns
  import opened Attribution
  import EnergyService

  // How many accepted intervals of slot i contain instant t.
  function TimesCharged(trail: seq<Step>, i: nat, t: int): nat {
    if trail == [] then 0
    else
      var s := trail[|trail| - 1];
      TimesCharged(trail[..|trail| - 1], i, t)
      + if s.slot == i && s.event.Extended? && s.event.from.at <= t < s.event.to.at then 1 else 0
  }

  // From the sample that opens a chain to the latest sample it took up.
  datatype Span = Span(first: int, last: int)

  // The chains of slot i, from the samples taken up alone.
  function Spans(trail: seq<Step>, i: nat): seq<Span> {
    if trail == [] then []
    else
      var before, s := Spans(trail[..|trail| - 1], i), trail[|trail| - 1];
      if s.slot != i then before
      else
        match s.event
        case Opened(x) => before + [Span(x.at, x.at)]
        case Reopened(x) => before + [Span(x.at, x.at)]
        case Extended(_, x, _) =>
          if before == [] then [] else before[..|before| - 1] + [Span(before[|before| - 1].first, x.at)]
        case _ => before
  }

  predicate Covers(s: Span, t: int) { s.first <= t < s.last }

  function TimesSpanned(spans: seq<Span>, t: int): nat {
    if spans == [] then 0
    else TimesSpanned(spans[..|spans| - 1], t) + if Covers(spans[|spans| - 1], t) then 1 else 0
  }

  // The chain a slot is in ends with the sample the slot holds.
  predicate Current(slot: Option<Sample>, spans: seq<Span>) {
    slot.Some? ==> spans != [] && spans[|spans| - 1].first <= spans[|spans| - 1].last == slot.value.at
  }

  lemma SpannedMore(spans: seq<Span>, s: Span, t: int)
    ensures TimesSpanned(spans + [s], t) == TimesSpanned(spans, t) + if Covers(s, t) then 1 else 0
  {
    assert (spans + [s])[..|spans|] == spans;
  }

  lemma SpanGrows(spans: seq<Span>, to: int, t: int)
    requires spans != [] && spans[|spans| - 1].first <= spans[|spans| - 1].last <= to
    ensures
      var last := spans[|spans| - 1];
      TimesSpanned(spans[..|spans| - 1] + [Span(last.first, to)], t) ==
        TimesSpanned(spans, t) + if last.last <= t < to then 1 else 0
  {
    SpannedMore(spans[..|spans| - 1], Span(spans[|spans| - 1].first, to), t);
  }

  lemma {:induction false} StepSpanned(init: seq<Step>, s: Step, slot: Option<Sample>, i: nat, t: int)
    requires Current(slot, Spans(init, i)) && TimesCharged(init, i, t) == TimesSpanned(Spans(init, i), t)
    requires s.slot == i ==> FollowsFrom(slot, s.event)
    ensures TimesCharged(init + [s], i, t) == TimesSpanned(Spans(init + [s], i), t)
    ensures Current(if s.slot == i then SlotAfter(slot, s.event) else slot, Spans(init + [s], i))
  {
    assert (init + [s])[..|init|] == init;
    var spans := Spans(init, i);
    if s.slot == i {
      match s.event
      case Opened(x) => SpannedMore(spans, Span(x.at, x.at), t);
      case Reopened(x) => SpannedMore(spans, Span(x.at, x.at), t);
      case Extended(_, x, _) => SpanGrows(spans, x.at, t);
      case _ =>
    }
  }

  // After `before`, whose last chain of slot i is the one the slot is in, a coherent
  // trail charges every instant exactly as often as chains then span it.
  lemma {:induction false} ChargedAsSpanned(before: seq<Step>, b: Book, trail: seq<Step>, i: nat, t: int)
    requires Placed(trail) && Coherent(b, trail) && i < 2 && Current(b.slots[i], Spans(before, i))
    requires TimesCharged(before, i, t) == TimesSpanned(Spans(before, i), t)
    ensures TimesCharged(before + trail, i, t) == TimesSpanned(Spans(before + trail, i), t)
    ensures Current(Replay(b, trail).slots[i], Spans(before + trail, i))
  {
    if trail == [] {
      assert before + trail == before;
    } else {
      var n := |trail| - 1;
      ChargedAsSpanned(before, b, trail[..n], i, t);
      StepSpanned(before + trail[..n], trail[n], Replay(b, trail[..n]).slots[i], i, t);
      assert before + trail[..n] + [trail[n]] == before + trail;
    }
  }

  ghost predicate AsSpanned(trail: seq<Step>, i: nat) {
    forall t :: TimesCharged(trail, i, t) == TimesSpanned(Spans(trail, i), t)
  }

  // Two chains share an instant.
  ghost predicate Cross(spans: seq<Span>) {
    exists a, b :: 0 <= a < b < |spans| && Max(spans[a].first, spans[b].first) < Min(spans[a].last, spans[b].last)
  }

  lemma {:induction false} SpannedOnce(spans: seq<Span>, t: int) returns (a: nat)
    requires TimesSpanned(spans, t) >= 1
    ensures a < |spans| && Covers(spans[a], t)
  {
    var n := |spans| - 1;
    if Covers(spans[n], t) {
      a := n;
    } else {
      a := SpannedOnce(spans[..n], t);
    }
  }

  lemma {:induction false} SpannedTwice(spans: seq<Span>, t: int)
    requires TimesSpanned(spans, t) >= 2
    ensures Cross(spans)
  {
    var n := |spans| - 1;
    if Covers(spans[n], t) {
      var a := SpannedOnce(spans[..n], t);
      assert spans[..n][a] == spans[a];
    } else {
      SpannedTwice(spans[..n], t);
      var init := spans[..n];
      var a, b :| 0 <= a < b < n && Max(init[a].first, init[b].first) < Min(init[a].last, init[b].last);
      assert init[a] == spans[a] && init[b] == spans[b];
    }
  }

  lemma {:induction false} CoveredOnce(spans: seq<Span>, a: nat, t: int)
    requires a < |spans| && Covers(spans[a], t)
    ensures TimesSpanned(spans, t) >= 1
  {
    if a < |spans| - 1 {
      CoveredOnce(spans[..|spans| - 1], a, t);
    }
  }

  lemma {:induction false} CoveredTwice(spans: seq<Span>, a: nat, b: nat, t: int)
    requires a < b < |spans| && Covers(spans[a], t) && Covers(spans[b], t)
    ensures TimesSpanned(spans, t) >= 2
  {
    if b < |spans| - 1 {
      CoveredTwice(spans[..|spans| - 1], a, b, t);
    } else {
      CoveredOnce(spans[..b], a, t);
    }
  }

  ghost predicate ChargedTwice(trail: seq<Step>, i: nat) { exists t :: TimesCharged(trail, i, t) >= 2 }

  lemma CrossingCharges(trail: seq<Step>, i: nat)
    requires AsSpanned(trail, i)
    ensures ChargedTwice(trail, i) <==> Cross(Spans(trail, i))
  {
    var spans := Spans(trail, i);
    if ChargedTwice(trail, i) {
      var t :| TimesCharged(trail, i, t) >= 2;
      SpannedTwice(spans, t);
    }
    if Cross(spans) {
      var c, d :| 0 <= c < d < |spans| && Max(spans[c].first, spans[d].first) < Min(spans[c].last, spans[d].last);
      var t := Max(spans[c].first, spans[d].first);
      CoveredTwice(spans, c, d, t);
      assert TimesCharged(trail, i, t) >= 2;
    }
  }

  // Some instant is charged twice if and only if two chains cross: one was opened
  // by a sample older than the other's latest, and was extended past the other's
  // first.
  lemma ChargedTwiceExactly(totals: Totals, started: int, os: seq<Observation>, i: nat)
    requires i < 2
    ensures
      var trail := RunTrail(Fresh(totals, started), os);
      ChargedTwice(trail, i) <==> Cross(Spans(trail, i))
  {
    var a := Fresh(totals, started);
    var trail := RunTrail(a, os);
    RunCoherent(a, os);
    forall t ensures TimesCharged(trail, i, t) == TimesSpanned(Spans(trail, i), t) {
      ChargedAsSpanned([], BookOf(a), trail, i, t);
      assert [] + trail == trail;
    }
    CrossingCharges(trail, i);
  }

  lemma {:induction false} DisjointCharges(trail: seq<Step>, i: nat, t: int)
    requires Disjoint(trail, i)
    ensures TimesCharged(trail, i, t) <= 1
    ensures TimesCharged(trail, i, t) == 1 ==> Frontier(trail, i).Some? && t < Frontier(trail, i).value
  {
    if trail != [] {
      DisjointCharges(trail[..|trail| - 1], i, t);
    }
  }

  // It does not happen while the battery's sample times never go back.
  lemma AdvancingChargesOnce(totals: Totals, started: int, os: seq<Observation>, i: nat)
    requires i < 2 && Advancing(os, i)
    ensures
      var trail := RunTrail(Fresh(totals, started), os);
      !ChargedTwice(trail, i) && !Cross(Spans(trail, i))
  {
    var trail := RunTrail(Fresh(totals, started), os);
    RunClear(totals, started, os, i);
    forall t ensures TimesCharged(trail, i, t) <= 1 {
      DisjointCharges(trail, i, t);
    }
    ChargedTwiceExactly(totals, started, os, i);
  }

  // ----- across failed reads, crashes and restarts -----

  // The books of the service charge as their chains span, and a running process knows
  // the chain each slot is in.  A restart finds every slot empty.
  ghost predicate AuditSpanned(u: EnergyService.Audit, i: nat)
    requires i < 2
  {
    && AsSpanned(u.memory, i) && AsSpanned(u.durable, i)
    && (u.service.process.Running? ==> Current(u.service.process.accounts.slots[i], Spans(u.memory, i)))
  }

  // What a poll adds, failed or not, fits the slots it finds.
  lemma PollCoherent(a: Accounts, snapshot: Option<Observation>)
    requires SlotsInRange(a.slots)
    ensures
      var trail := EnergyService.PollTrail(a, snapshot);
      var b := if snapshot.Some? then After(a, snapshot.value) else BrokenOff(a);
      Placed(trail) && Coherent(BookOf(a), trail) && Replay(BookOf(a), trail).slots == b.slots
  {
    var e := (Cut(a.slots[0]), Cut(a.slots[1]));
    if snapshot.Some? {
      TrailExplains(a, snapshot.value, [], BookOf(a));
      TrailCoherent(a, snapshot.value, [], BookOf(a));
      assert [] + Trail(a, snapshot.value) == Trail(a, snapshot.value);
    } else {
      PairApplies(a, e);
      CoherentPair(BookOf(a), [], e);
      assert [] + Pair(e) == Pair(e);
    }
  }

  lemma PollSpanned(u: EnergyService.Audit, snapshot: Option<Observation>, i: nat)
    requires i < 2 && EnergyService.Audited(u) && AuditSpanned(u, i)
    requires u.service.process.Running? && u.service.process.stage == EnergyService.Polling
    ensures AuditSpanned(EnergyService.NextAudit(u, EnergyService.Poll(snapshot)), i)
  {
    var a := u.service.process.accounts;
    var trail := EnergyService.PollTrail(a, snapshot);
    PollCoherent(a, snapshot);
    forall t ensures TimesCharged(u.memory + trail, i, t) == TimesSpanned(Spans(u.memory + trail, i), t) {
      ChargedAsSpanned(u.memory, BookOf(a), trail, i, t);
    }
    ChargedAsSpanned(u.memory, BookOf(a), trail, i, 0);
  }

  lemma NextSpanned(u: EnergyService.Audit, act: EnergyService.Action, i: nat)
    requires i < 2 && EnergyService.Audited(u) && AuditSpanned(u, i)
    ensures AuditSpanned(EnergyService.NextAudit(u, act), i)
  {
    if act.Poll? && u.service.process.Running? && u.service.process.stage == EnergyService.Polling {
      PollSpanned(u, act.snapshot, i);
    } else {
      SteadySpanned(u, act, i);
    }
  }

  lemma SteadySpanned(u: EnergyService.Audit, act: EnergyService.Action, i: nat)
    requires i < 2 && AuditSpanned(u, i)
    requires !(act.Poll? && u.service.process.Running? && u.service.process.stage == EnergyService.Polling)
    ensures AuditSpanned(EnergyService.NextAudit(u, act), i)
  {
    var v := EnergyService.NextAudit(u, act);
    assert v.memory == u.memory || v.memory == u.durable;
    assert v.durable == u.memory || v.durable == u.durable;
    if v.service.process.Running? && u.service.process.Running? {
      assert v.service.process.accounts == u.service.process.accounts && v.memory == u.memory;
    }
  }

  lemma {:induction false} RunSpanned(acts: seq<EnergyService.Action>, i: nat)
    requires i < 2
    ensures AuditSpanned(EnergyService.RunAudit(acts), i)
  {
    if acts != [] {
      var init := acts[..|acts| - 1];
      RunSpanned(init, i);
      EnergyService.RunAudited(init);
      NextSpanned(EnergyService.RunAudit(init), acts[|acts| - 1], i);
    }
  }

  // Over any history of failed reads, failed saves, crashes and restarts the durable
  // totals charge some instant twice if and only if two of their chains cross.
  lemma DurableChargedTwiceExactly(acts: seq<EnergyService.Action>, i: nat)
    requires i < 2
    ensures
      var u := EnergyService.RunAudit(acts);
      && EnergyService.StandsFor(EnergyService.Load(u.service.disk), u.durable)
      && (ChargedTwice(u.durable, i) <==> Cross(Spans(u.durable, i)))
  {
    RunSpanned(acts, i);
    EnergyService.RunAudited(acts);
    CrossingCharges(EnergyService.RunAudit(acts).durable, i);
  }

  // ----- it can happen -----

  // A parked vehicle polled at `now` seconds, slot 0 holding a sample of time `at`.
  function Poll(now: int, at: int): Observation {
    Observation(now * SECOND, Vehicle("parked", "", None),
                [Pack(true, "active", true, "A", Some(at * 1000), Some(50000), Some(10000), Some(20000)), ABSENT])
  }

  function SampleAt(at: int): Sample { Sample("A", at * SECOND, 50000, 10000, 20000) }

  const FIRST := Fresh(ZERO, 0)

  // What is needed of the accounts to take the next poll.
  predicate Holds(a: Accounts, now: Option<int>, sample: Option<Sample>) {
    && a.started == 0 && a.slots[0] == sample && a.slots[1].None?
    && a.timeline.observed == (if now.Some? then Some(now.value * SECOND) else None)
  }

  lemma PollReads(a: Accounts, before: Option<int>, sample: Option<Sample>, now: int, at: int)
      returns (e: Event, history: seq<Change>)
    requires Holds(a, before, sample) && (before.Some? ==> before.value <= now) && 0 <= at <= now <= at + 90
    ensures e == Read(sample, Some(SampleAt(at)), history)
    ensures Trail(a, Poll(now, at)) == [Step(0, e), Step(1, Idle)]
    ensures Holds(After(a, Poll(now, at)), Some(now), SlotAfter(sample, e))
  {
    var b, o := Prepared(a, Poll(now, at)), Poll(now, at);
    assert !ClockWentBack(a, o.now);
    assert ReadSample(o.packs[0], o.now, 0) == Some(SampleAt(at)) && ReadSample(o.packs[1], o.now, 0) == None;
    FirstPack(b, o);
    AfterIsPair(a, o);
    history := b.timeline.history;
    e := Read(sample, Some(SampleAt(at)), history);
  }

  function SampleOf(at: Option<int>): Option<Sample> { if at.Some? then Some(SampleAt(at.value)) else None }

  lemma ReadInTurn(last: Option<int>, at: int, history: seq<Change>)
    requires last.Some? ==> last.value != at && at - last.value <= 120
    ensures
      var e := Read(SampleOf(last), Some(SampleAt(at)), history);
      && SlotAfter(SampleOf(last), e) == Some(SampleAt(at))
      && (e.Extended? <==> last.Some? && last.value < at)
      && (e.Extended? ==> e.from == SampleAt(last.value) && e.to == SampleAt(at))
  {
  }

  lemma OneMorePoll(os: seq<Observation>, o: Observation)
    ensures Run(FIRST, os + [o]) == After(Run(FIRST, os), o)
    ensures RunTrail(FIRST, os + [o]) == RunTrail(FIRST, os) + Trail(Run(FIRST, os), o)
  {
    assert (os + [o])[..|os|] == os;
  }

  lemma ChargedTwoMore(trail: seq<Step>, e: Event, t: int)
    ensures TimesCharged(trail + [Step(0, e), Step(1, Idle)], 0, t) ==
            TimesCharged(trail, 0, t) + if e.Extended? && e.from.at <= t < e.to.at then 1 else 0
  {
    var more := trail + [Step(0, e)];
    assert more[..|trail|] == trail;
    assert (trail + [Step(0, e), Step(1, Idle)])[..|more|] == more;
  }

  // One more poll, the last sample being of second `last`.
  lemma PollCharges(a: Accounts, trail: seq<Step>, before: Option<int>, last: Option<int>, now: int, at: int, t: int)
    requires Holds(a, before, SampleOf(last))
    requires (before.Some? ==> before.value <= now) && 0 <= at <= now <= at + 90
    requires last.Some? ==> last.value != at && at - last.value <= 120
    ensures Holds(After(a, Poll(now, at)), Some(now), SampleOf(Some(at)))
    ensures TimesCharged(trail + Trail(a, Poll(now, at)), 0, t) ==
            TimesCharged(trail, 0, t) + if last.Some? && last.value * SECOND <= t < at * SECOND then 1 else 0
  {
    var e, history := PollReads(a, before, SampleOf(last), now, at);
    ReadInTurn(last, at, history);
    ChargedTwoMore(trail, e, t);
  }

  // The polls so far, the last of them at second `now` with the sample of second `at`.
  ghost predicate Polled(os: seq<Observation>, now: int, at: int, t: int, charged: nat) {
    Holds(Run(FIRST, os), Some(now), SampleOf(Some(at))) && TimesCharged(RunTrail(FIRST, os), 0, t) == charged
  }

  lemma NextPoll(os: seq<Observation>, before: int, last: int, now: int, at: int, t: int, charged: nat)
    requires Polled(os, before, last, t, charged)
    requires before <= now && 0 <= at <= now <= at + 90 && last != at && at - last <= 120
    ensures Polled(os + [Poll(now, at)], now, at, t, charged + if last * SECOND <= t < at * SECOND then 1 else 0)
  {
    PollCharges(Run(FIRST, os), RunTrail(FIRST, os), Some(before), Some(last), now, at, t);
    OneMorePoll(os, Poll(now, at));
  }

  lemma FirstPoll(now: int, at: int, t: int)
    requires 0 <= at <= now <= at + 90
    ensures Polled([Poll(now, at)], now, at, t, 0)
  {
    PollCharges(FIRST, [], None, None, now, at, t);
    OneMorePoll([], Poll(now, at));
    assert [] + [Poll(now, at)] == [Poll(now, at)];
  }

  // Samples of 20, 80, 50 and 100 s, read a second apart: the third opens a chain in
  // the past of the first, and second 60 is charged twice.
  lemma OlderSampleOverlaps()
    ensures
      var trail := RunTrail(FIRST, [Poll(100, 20), Poll(101, 80), Poll(102, 50), Poll(103, 100)]);
      TimesCharged(trail, 0, 60 * SECOND) == 2
  {
    var one := [Poll(100, 20)];
    var two := one + [Poll(101, 80)];
    var three := two + [Poll(102, 50)];
    FirstPoll(100, 20, 60 * SECOND);
    NextPoll(one, 100, 20, 101, 80, 60 * SECOND, 0);
    NextPoll(two, 101, 80, 102, 50, 60 * SECOND, 1);
    NextPoll(three, 102, 50, 103, 100, 60 * SECOND, 1);
    assert three + [Poll(103, 100)] == [Poll(100, 20), Poll(101, 80), Poll(102, 50), Poll(103, 100)];
  }
}
