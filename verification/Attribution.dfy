/** The accountant over time: verdicts about the past never change, intervals of
a slot never overlap, and the list of phase changes stays short. */
module Attribution {
  import opened Prelude
  import opened Timeline
  import opened Accounting
  import opened EnergyRuns

  // ----- the past is settled -----

  // The clock never goes backwards during the run.
  predicate Steady(a: Accounts, os: seq<Observation>) {
    os == [] || (Steady(a, os[..|os| - 1]) && !ClockWentBack(Run(a, os[..|os| - 1]), os[|os| - 1].now))
  }

  // Every slot holds a sample no later than the last observation.
  predicate Dated(a: Accounts) {
    && Sound(a.timeline)
    && SlotDated(a.slots[0], a.timeline.observed)
    && SlotDated(a.slots[1], a.timeline.observed)
  }

  predicate SlotDated(slot: Option<Sample>, observed: Option<int>) {
    slot.Some? ==> observed.Some? && slot.value.at <= observed.value
  }

  // Every accepted interval lies in the past and is in the bucket that the
  // history, read now, says had most of it.
  predicate Attributed(trail: seq<Step>, r: Record) {
    forall s :: s in trail && s.event.Extended? ==>
      && r.observed.Some? && s.event.to.at <= r.observed.value
      && s.event.bucket == Dominant(r.history, s.event.from.at, s.event.to.at)
  }

  lemma PreparedDated(a: Accounts, o: Observation)
    requires Dated(a)
    ensures Dated(Prepared(a, o)) && Prepared(a, o).timeline.observed == Some(o.now)
  {
    if ClockWentBack(a, o.now) {
      RecordedSound(EMPTY, o.now, a.started, o.vehicle);
    } else {
      RecordedSound(a.timeline, o.now, a.started, o.vehicle);
    }
  }

  lemma ReadDated(slot: Option<Sample>, p: Pack, now: int, started: int, history: seq<Change>)
    requires SlotDated(slot, Some(now))
    ensures SlotDated(SlotAfter(slot, Read(slot, ReadSample(p, now, started), history)), Some(now))
  {
  }

  lemma AfterDated(a: Accounts, o: Observation)
    requires Dated(a)
    ensures Dated(After(a, o)) && After(a, o).timeline == Prepared(a, o).timeline
  {
    var b := Prepared(a, o);
    PreparedDated(a, o);
    AfterIsPair(a, o);
    FirstPack(b, o);
    ReadDated(b.slots[0], o.packs[0], o.now, b.started, b.timeline.history);
    ReadDated(b.slots[1], o.packs[1], o.now, b.started, b.timeline.history);
  }

  lemma ReadAttributed(slot: Option<Sample>, p: Pack, now: int, started: int, history: seq<Change>)
    ensures
      var e := Read(slot, ReadSample(p, now, started), history);
      e.Extended? ==> e.to.at <= now && e.bucket == Dominant(history, e.from.at, e.to.at)
  {
  }

  lemma TrailAttributed(a: Accounts, o: Observation)
    requires Dated(a)
    ensures Attributed(Trail(a, o), After(a, o).timeline)
  {
    AfterDated(a, o);
    PreparedDated(a, o);
    PacksAttributed(Prepared(a, o), o);
  }

  lemma PacksAttributed(b: Accounts, o: Observation)
    ensures
      var (e, f) := PackEvents(b, o);
      && (e.Extended? ==> e.to.at <= o.now && e.bucket == Dominant(b.timeline.history, e.from.at, e.to.at))
      && (f.Extended? ==> f.to.at <= o.now && f.bucket == Dominant(b.timeline.history, f.from.at, f.to.at))
  {
    FirstPack(b, o);
    ReadAttributed(b.slots[0], o.packs[0], o.now, b.started, b.timeline.history);
    ReadAttributed(b.slots[1], o.packs[1], o.now, b.started, b.timeline.history);
  }

  lemma StepKeepsVerdicts(a: Accounts, o: Observation, trail: seq<Step>)
    requires Dated(a) && !ClockWentBack(a, o.now)
    requires Attributed(trail, a.timeline)
    ensures Attributed(trail, After(a, o).timeline)
  {
    AfterDated(a, o);
    var next := After(a, o).timeline;
    PreparedDated(a, o);
    forall s | s in trail && s.event.Extended?
      ensures s.event.bucket == Dominant(next.history, s.event.from.at, s.event.to.at)
    {
      forall t | s.event.from.at <= t < s.event.to.at
        ensures PhaseAt(a.timeline.history, t) == PhaseAt(next.history, t)
      {
        ObservedMeaning(a.timeline, o.now, a.started, o.vehicle, t);
      }
      SameDominant(a.timeline.history, next.history, s.event.from.at, s.event.to.at);
    }
  }

  // However the vehicle's state is reported afterwards, an interval stays in the
  // bucket the completed history gives it.
  lemma {:induction false} VerdictsStand(a: Accounts, os: seq<Observation>)
    requires Dated(a) && Steady(a, os)
    ensures Dated(Run(a, os)) && Attributed(RunTrail(a, os), Run(a, os).timeline)
  {
    if os != [] {
      var init, o := os[..|os| - 1], os[|os| - 1];
      VerdictsStand(a, init);
      TrailAttributed(Run(a, init), o);
      AfterDated(Run(a, init), o);
      StepKeepsVerdicts(Run(a, init), o, RunTrail(a, init));
    }
  }

  // The energy of the accepted intervals that, by this history, belong to p.
  function EnergyJudged(trail: seq<Step>, history: seq<Change>, p: Phase): int {
    if trail == [] then 0
    else
      var e := trail[|trail| - 1].event;
      EnergyJudged(trail[..|trail| - 1], history, p)
      + if e.Extended? && Dominant(history, e.from.at, e.to.at) == p then Energy(e) else 0
  }

  lemma {:induction false} JudgedIsCredited(trail: seq<Step>, r: Record, p: Phase)
    requires Attributed(trail, r)
    ensures EnergyIn(trail, p) == EnergyJudged(trail, r.history, p)
  {
    if trail != [] {
      assert trail[|trail| - 1] in trail;
      JudgedIsCredited(trail[..|trail| - 1], r, p);
    }
  }

  // The totals of a steady run, bucket by bucket, are what one would compute
  // afterwards from the list of accepted intervals and the complete,
  // never-pruned phase history by counting instants.
  lemma TotalsMatchHistory(a: Accounts, os: seq<Observation>, p: Phase)
    requires Dated(a) && Steady(a, os)
    ensures Run(a, os).totals.Of(p) ==
            a.totals.Of(p) + EnergyJudged(RunTrail(a, os), Run(a, os).timeline.history, p)
  {
    VerdictsStand(a, os);
    Conservation(a, os);
    JudgedIsCredited(RunTrail(a, os), Run(a, os).timeline, p);
  }

  // Nothing before the start of a steady run is ever rewritten.
  lemma {:induction false} FrozenPast(a: Accounts, os: seq<Observation>, t: int)
    requires Dated(a) && Steady(a, os)
    requires a.timeline.observed.Some? && t < a.timeline.observed.value
    ensures Dated(Run(a, os))
    ensures Run(a, os).timeline.observed.Some? && a.timeline.observed.value <= Run(a, os).timeline.observed.value
    ensures PhaseAt(Run(a, os).timeline.history, t) == PhaseAt(a.timeline.history, t)
  {
    if os != [] {
      var b, o := Run(a, os[..|os| - 1]), os[|os| - 1];
      FrozenPast(a, os[..|os| - 1], t);
      AfterDated(b, o);
      PreparedDated(b, o);
      ObservedMeaning(b.timeline, o.now, b.started, o.vehicle, t);
    }
  }

  // ----- intervals of one slot do not overlap -----

  // Where the last accepted interval of slot i ended.
  function Frontier(trail: seq<Step>, i: nat): Option<int> {
    if trail == [] then None
    else
      var s := trail[|trail| - 1];
      if s.slot == i && s.event.Extended? then Some(s.event.to.at) else Frontier(trail[..|trail| - 1], i)
  }

  predicate AtMost(f: Option<int>, t: int) { f.Some? ==> f.value <= t }

  predicate Disjoint(trail: seq<Step>, i: nat) {
    trail == [] ||
    (var s := trail[|trail| - 1];
     && Disjoint(trail[..|trail| - 1], i)
     && (s.slot == i && s.event.Extended? ==>
           s.event.from.at < s.event.to.at && AtMost(Frontier(trail[..|trail| - 1], i), s.event.from.at)))
  }

  lemma {:induction false} FrontierCovers(trail: seq<Step>, i: nat, j: nat)
    requires Disjoint(trail, i) && j < |trail| && trail[j].slot == i && trail[j].event.Extended?
    ensures Frontier(trail, i).Some? && trail[j].event.to.at <= Frontier(trail, i).value
  {
    if j < |trail| - 1 {
      FrontierCovers(trail[..|trail| - 1], i, j);
    }
  }

  // Disjoint says that any two intervals of the slot lie one after the other.
  lemma {:induction false} DisjointPairwise(trail: seq<Step>, i: nat, j: nat, k: nat)
    requires Disjoint(trail, i) && j < k < |trail|
    requires trail[j].slot == i && trail[j].event.Extended? && trail[k].slot == i && trail[k].event.Extended?
    ensures trail[j].event.to.at <= trail[k].event.from.at
  {
    if k < |trail| - 1 {
      DisjointPairwise(trail[..|trail| - 1], i, j, k);
    } else {
      FrontierCovers(trail[..k], i, j);
    }
  }

  // The last time reported for slot i.
  function LastReported(os: seq<Observation>, i: nat): Option<int>
    requires i < 2
  {
    if os == [] then None
    else if os[|os| - 1].packs[i].at.Some? then os[|os| - 1].packs[i].at
    else LastReported(os[..|os| - 1], i)
  }

  // The battery never reports an older sample than before.
  predicate Advancing(os: seq<Observation>, i: nat)
    requires i < 2
  {
    os == [] ||
    (var t := os[|os| - 1].packs[i].at;
     Advancing(os[..|os| - 1], i) && (t.Some? ==> AtMost(LastReported(os[..|os| - 1], i), t.value)))
  }

  // Slot i, and every later reading no earlier than `floor`, lie after the trail.
  predicate Clear(slot: Option<Sample>, trail: seq<Step>, i: nat, floor: Option<int>) {
    && Disjoint(trail, i)
    && (slot.Some? ==> AtMost(Frontier(trail, i), slot.value.at) && floor.Some? && slot.value.at <= floor.value)
    && (Frontier(trail, i).Some? ==> floor.Some? && Frontier(trail, i).value <= floor.value)
  }

  // A sample the event takes up is of this time.
  predicate TakenAt(e: Event, at: Option<int>) {
    match e
    case Opened(x) => at == Some(x.at)
    case Reopened(x) => at == Some(x.at)
    case Extended(_, x, _) => at == Some(x.at)
    case _ => true
  }

  lemma ClearAfter(slot: Option<Sample>, trail: seq<Step>, i: nat, floor: Option<int>, s: Step)
    requires Clear(slot, trail, i, floor)
    requires s.slot == i ==> FollowsFrom(slot, s.event)
    requires s.slot == i ==> TakenAt(s.event, floor)
    ensures Clear(if s.slot == i then SlotAfter(slot, s.event) else slot, trail + [s], i, floor)
  {
    assert (trail + [s])[..|trail|] == trail;
  }

  lemma ClearAfterPair(slot: Option<Sample>, trail: seq<Step>, i: nat, floor: Option<int>, e: (Event, Event))
    requires i < 2 && Clear(slot, trail, i, floor)
    requires FollowsFrom(slot, if i == 0 then e.0 else e.1)
    requires TakenAt(if i == 0 then e.0 else e.1, floor)
    ensures Clear(SlotAfter(slot, if i == 0 then e.0 else e.1), trail + Pair(e), i, floor)
  {
    var s, t := Step(0, e.0), Step(1, e.1);
    ClearAfter(slot, trail, i, floor, s);
    ClearAfter(if i == 0 then SlotAfter(slot, e.0) else slot, trail + [s], i, floor, t);
    assert trail + [s] + [t] == trail + Pair(e);
  }

  function Raised(floor: Option<int>, at: Option<int>): Option<int> {
    if at.Some? then Some(at.value * MILLISECOND) else floor
  }

  lemma PreparedClear(a: Accounts, o: Observation, trail: seq<Step>, i: nat, floor: Option<int>)
    requires i < 2 && Clear(a.slots[i], trail, i, floor)
    ensures
      var first := if ClockWentBack(a, o.now) then Cuts(a) else [];
      Clear(Prepared(a, o).slots[i], trail + first, i, floor)
  {
    if ClockWentBack(a, o.now) {
      ClearAfterPair(a.slots[i], trail, i, floor, (Cut(a.slots[0]), Cut(a.slots[1])));
    } else {
      assert trail + [] == trail;
    }
  }

  lemma PackTaken(b: Accounts, o: Observation, i: nat, floor: Option<int>)
    requires i < 2
    ensures TakenAt(if i == 0 then PackEvents(b, o).0 else PackEvents(b, o).1, Raised(floor, o.packs[i].at))
  {
    FirstPack(b, o);
  }

  // One observation keeps a slot clear if its reading is not older than the floor.
  lemma TrailClear(a: Accounts, o: Observation, trail: seq<Step>, i: nat, floor: Option<int>)
    requires i < 2 && SlotsInRange(a.slots) && Clear(a.slots[i], trail, i, floor)
    requires o.packs[i].at.Some? ==> AtMost(floor, o.packs[i].at.value * MILLISECOND)
    ensures Clear(After(a, o).slots[i], trail + Trail(a, o), i, Raised(floor, o.packs[i].at))
  {
    var b := Prepared(a, o);
    var first := if ClockWentBack(a, o.now) then Cuts(a) else [];
    PreparedClear(a, o, trail, i, floor);
    PacksFollow(b, o);
    AfterIsPair(a, o);
    PackTaken(b, o, i, floor);
    ClearAfterPair(b.slots[i], trail + first, i, Raised(floor, o.packs[i].at), PackEvents(b, o));
    assert trail + Trail(a, o) == trail + first + Pair(PackEvents(b, o));
  }

  function Scaled(t: Option<int>): Option<int> { if t.Some? then Some(t.value * MILLISECOND) else None }

  lemma {:induction false} RunClear(t: Totals, started: int, os: seq<Observation>, i: nat)
    requires i < 2 && Advancing(os, i)
    ensures var a := Fresh(t, started);
            && SlotsInRange(Run(a, os).slots)
            && Clear(Run(a, os).slots[i], RunTrail(a, os), i, Scaled(LastReported(os, i)))
  {
    var a := Fresh(t, started);
    RunCoherent(a, os);
    if os != [] {
      var init, o := os[..|os| - 1], os[|os| - 1];
      RunClear(t, started, init, i);
      TrailClear(Run(a, init), o, RunTrail(a, init), i, Scaled(LastReported(init, i)));
    }
  }

  // While a battery's sample times never go back, no stretch of its time is
  // charged twice, whatever breaks the chain in between.
  lemma NoDoubleCharge(t: Totals, started: int, os: seq<Observation>, i: nat, j: nat, k: nat)
    requires i < 2 && Advancing(os, i)
    requires
      var trail := RunTrail(Fresh(t, started), os);
      j < k < |trail| && trail[j].slot == trail[k].slot == i && trail[j].event.Extended? && trail[k].event.Extended?
    ensures
      var trail := RunTrail(Fresh(t, started), os);
      trail[j].event.from.at < trail[j].event.to.at <= trail[k].event.from.at < trail[k].event.to.at
  {
    var a := Fresh(t, started);
    var trail := RunTrail(a, os);
    RunClear(t, started, os, i);
    DisjointPairwise(trail, i, j, k);
    RunCoherent(a, os);
    CoherentAt(BookOf(a), trail, j);
    CoherentAt(BookOf(a), trail, k);
  }

  lemma {:induction false} CoherentAt(b: Book, trail: seq<Step>, j: nat)
    requires Placed(trail) && Coherent(b, trail) && j < |trail|
    ensures FollowsFrom(Replay(b, trail[..j]).slots[trail[j].slot], trail[j].event)
  {
    if j < |trail| - 1 {
      CoherentAt(b, trail[..|trail| - 1], j);
      assert trail[..|trail| - 1][..j] == trail[..j];
    }
  }

  // ----- the list of changes stays short -----

  // How many entries begin after c.
  function Recent(cs: seq<Change>, c: int): nat {
    if cs == [] then 0 else Recent(cs[..|cs| - 1], c) + if c < cs[|cs| - 1].at then 1 else 0
  }

  lemma AppendRecent(cs: seq<Change>, at: int, p: Phase, c: int)
    ensures Recent(Appended(cs, at, p), c) <= Recent(cs, c) + if c < at then 1 else 0
  {
    var next := Appended(cs, at, p);
    if next != cs {
      assert next[..|next| - 1] == cs[..|next| - 1];
      assert cs[..|cs|] == cs;
    }
  }

  // How many entries an observation may add: one for a transition, two when it
  // also has to mark a stretch unassigned.
  function Growth(r: Record, v: Vehicle): nat {
    if r.observed.None? then 2 else if !Changed(r, v) then 0 else if v.state == r.state then 2 else 1
  }

  lemma RecordedRecent(r: Record, now: int, started: int, v: Vehicle, c: int)
    requires r.observed.Some? ==> r.observed.value <= now
    ensures Recent(Recorded(r, now, started, v).history, c)
         <= Recent(r.history, c) + if c < now then Growth(r, v) else 0
  {
    var at, p := ChangeTime(r, now, started, v), PhaseOf(v.state);
    var from := if r.observed.None? then Min(started, now) else r.observed.value;
    AppendRecent(r.history, from, Unassigned, c);
    AppendRecent(Appended(r.history, from, Unassigned), at, p, c);
    AppendRecent(r.history, at, p, c);
  }

  // The growth of the observations made after c.
  function GrowthSince(r: Record, started: int, os: seq<Observation>, c: int): nat
  {
    if os == [] then 0
    else
      var init, o := os[..|os| - 1], os[|os| - 1];
      GrowthSince(r, started, init, c) + if c < o.now then Growth(Told(r, started, init), o.vehicle) else 0
  }

  // The timeline told a run of observations.
  function Told(r: Record, started: int, os: seq<Observation>): Record {
    if os == [] then r
    else Recorded(Told(r, started, os[..|os| - 1]), os[|os| - 1].now, started, os[|os| - 1].vehicle)
  }

  predicate InOrderOfTime(os: seq<Observation>) {
    |os| < 2 || (InOrderOfTime(os[..|os| - 1]) && os[|os| - 2].now <= os[|os| - 1].now)
  }

  lemma {:induction false} ToldRecent(started: int, os: seq<Observation>, c: int)
    requires InOrderOfTime(os)
    ensures Recent(Told(EMPTY, started, os).history, c) <= GrowthSince(EMPTY, started, os, c)
    ensures os != [] ==> Told(EMPTY, started, os).observed == Some(os[|os| - 1].now)
  {
    if os != [] {
      var init, o := os[..|os| - 1], os[|os| - 1];
      ToldRecent(started, init, c);
      RecordedRecent(Told(EMPTY, started, init), o.now, started, o.vehicle, c);
    }
  }

  lemma {:induction false} RecentTail(dropped: seq<Change>, kept: seq<Change>, c: int)
    requires Increasing(kept) && (|kept| > 1 ==> c < kept[1].at)
    ensures |kept| <= 1 + Recent(dropped + kept, c)
    decreases |kept|
  {
    if |kept| > 1 {
      var n := |kept| - 1;
      assert (dropped + kept)[..|dropped| + n] == dropped + kept[..n];
      RecentTail(dropped, kept[..n], c);
      if n > 1 {
        InOrder(kept, 1, n);
      }
    }
  }

  // However long the service runs, the kept list has at most one entry more than
  // the growth of the observations of the last 210 s.
  lemma KeptListShort(started: int, os: seq<Observation>, dropped: seq<Change>, kept: seq<Change>)
    requires os != [] && InOrderOfTime(os)
    requires Told(EMPTY, started, os).history == dropped + kept
    requires Increasing(dropped + kept) && Kept(dropped, kept, Some(os[|os| - 1].now))
    ensures |kept| <= 1 + GrowthSince(EMPTY, started, os, os[|os| - 1].now - WINDOW)
  {
    IncreasingTail(dropped, kept);
    RecentTail(dropped, kept, os[|os| - 1].now - WINDOW);
    ToldRecent(started, os, os[|os| - 1].now - WINDOW);
  }

  // How many observations were made after c.
  function TicksSince(os: seq<Observation>, c: int): nat {
    if os == [] then 0 else TicksSince(os[..|os| - 1], c) + if c < os[|os| - 1].now then 1 else 0
  }

  // The state is as before, but its timestamp is new.
  predicate IsExcursion(r: Record, v: Vehicle) { r.observed.Some? && Changed(r, v) && v.state == r.state }

  // How many of them found a missed excursion.
  function ExcursionsSince(started: int, os: seq<Observation>, c: int): nat {
    if os == [] then 0
    else
      var init, o := os[..|os| - 1], os[|os| - 1];
      ExcursionsSince(started, init, c)
      + if c < o.now && IsExcursion(Told(EMPTY, started, init), o.vehicle) then 1 else 0
  }

  function Start(started: int, os: seq<Observation>): int
    requires os != []
  {
    Min(started, os[0].now)
  }

  lemma FirstRecent(started: int, o: Observation, c: int)
    ensures
      var h, first := Recorded(EMPTY, o.now, started, o.vehicle).history, Min(started, o.now);
      && h != [] && h[0].at == first
      && Recent(h, c) <= (if c < first then 1 else 0) + (if c < o.now then 1 else 0)
  {
    var at, first := ChangeTime(EMPTY, o.now, started, o.vehicle), Min(started, o.now);
    AppendRecent([], first, Unassigned, c);
    AppendRecent(Appended([], first, Unassigned), at, PhaseOf(o.vehicle.state), c);
  }

  lemma GrownFirst(cs: seq<Change>, gap: bool, from: int, at: int, p: Phase)
    requires cs != []
    ensures Grown(cs, gap, from, at, p) != [] && Grown(cs, gap, from, at, p)[0].at == cs[0].at
  {
  }

  // A timeline begins with its first observation, and grows by one entry for each
  // observation and one more for each excursion.
  lemma {:induction false} ToldWindow(started: int, os: seq<Observation>, c: int)
    requires os != [] && InOrderOfTime(os)
    ensures
      var h, first := Told(EMPTY, started, os).history, Start(started, os);
      && h != [] && h[0].at == first
      && Recent(h, c) <= (if c < first then 1 else 0) + TicksSince(os, c) + ExcursionsSince(started, os, c)
  {
    var init, o := os[..|os| - 1], os[|os| - 1];
    if init == [] {
      assert Told(EMPTY, started, init) == EMPTY;
      FirstRecent(started, o, c);
    } else {
      ToldWindow(started, init, c);
      ToldRecent(started, init, c);
      var r := Told(EMPTY, started, init);
      RecordedRecent(r, o.now, started, o.vehicle, c);
      RecordedFirst(r, o.now, started, o.vehicle);
    }
  }

  lemma RecordedFirst(r: Record, now: int, started: int, v: Vehicle)
    requires r.history != [] && r.observed.Some?
    ensures
      var h := Recorded(r, now, started, v).history;
      h != [] && h[0].at == r.history[0].at
  {
    GrownFirst(r.history, v.state == r.state, r.observed.value, ChangeTime(r, now, started, v), PhaseOf(v.state));
  }

  lemma {:induction false} AllRecent(cs: seq<Change>, c: int)
    requires Increasing(cs) && cs != [] && c < cs[0].at
    ensures Recent(cs, c) == |cs|
  {
    var n := |cs| - 1;
    if n > 0 {
      InOrder(cs, 0, n);
      AllRecent(cs[..n], c);
    } else {
      assert cs[..0] == [];
    }
  }

  // However long the service runs, the kept list has at most one entry more than
  // there were observations and missed excursions in the last 210 s.
  lemma KeptListBounded(started: int, os: seq<Observation>, dropped: seq<Change>, kept: seq<Change>)
    requires os != [] && InOrderOfTime(os)
    requires Told(EMPTY, started, os).history == dropped + kept
    requires Increasing(dropped + kept) && Kept(dropped, kept, Some(os[|os| - 1].now))
    ensures
      var c := os[|os| - 1].now - WINDOW;
      |kept| <= 1 + TicksSince(os, c) + ExcursionsSince(started, os, c)
  {
    var c := os[|os| - 1].now - WINDOW;
    ToldWindow(started, os, c);
    if c < Start(started, os) {
      AllRecent(dropped + kept, c);
    } else {
      IncreasingTail(dropped, kept);
      RecentTail(dropped, kept, c);
    }
  }

  // So one entry for each observation, and one, while no excursion is missed.
  lemma KeptListPerTick(started: int, os: seq<Observation>, dropped: seq<Change>, kept: seq<Change>)
    requires os != [] && InOrderOfTime(os) && ExcursionsSince(started, os, os[|os| - 1].now - WINDOW) == 0
    requires Told(EMPTY, started, os).history == dropped + kept
    requires Increasing(dropped + kept) && Kept(dropped, kept, Some(os[|os| - 1].now))
    ensures |kept| <= 1 + TicksSince(os, os[|os| - 1].now - WINDOW)
  {
    KeptListBounded(started, os, dropped, kept);
  }

  // The bound is reached, and one entry for each observation is not enough: polls a
  // second apart that find an unchanged state newly stamped leave two entries each.
  function Marks(n: nat): (text: string)
    ensures |text| == n
  {
    if n == 0 then "" else Marks(n - 1) + "!"
  }

  function Poll(n: nat): Observation {
    Observation((n + 1) * SECOND, Vehicle("parked", Marks(n), Some(n * SECOND + SECOND / 2)), [ABSENT, ABSENT])
  }

  // The first poll and n more.
  function Excursions(n: nat): (os: seq<Observation>)
    ensures |os| == n + 1
  {
    if n == 0 then [Poll(0)] else Excursions(n - 1) + [Poll(n)]
  }

  // The timeline after them: what is needed of it to take the next.
  predicate Excused(r: Record, n: nat) {
    && r.observed == Some((n + 1) * SECOND) && r.state == "parked" && |r.timestamp| == n
    && ExcusedHistory(r.history, n)
  }

  predicate ExcusedHistory(cs: seq<Change>, n: nat) {
    && |cs| == 2 * n + 2 && Increasing(cs) && cs[0].at == 0
    && cs[|cs| - 1] == Change(n * SECOND + SECOND / 2, Parked)
  }

  // n + 1 polls up to `now`, n of them excursions, leave 2n + 2 entries; while they are all
  // in the window, all are kept, and that is what the bound allows.
  predicate CostTwo(os: seq<Observation>, h: seq<Change>, n: nat, now: int) {
    && |os| == n + 1 && os[n].now == now && InOrderOfTime(os) && Increasing(h) && |h| == 2 * n + 2
    && (now <= WINDOW ==>
          Kept([], h, Some(now)) && |h| == 1 + TicksSince(os, now - WINDOW) + ExcursionsSince(0, os, now - WINDOW))
  }

  lemma ExcursionsCostTwo(n: nat)
    ensures CostTwo(Excursions(n), Told(EMPTY, 0, Excursions(n)).history, n, (n + 1) * SECOND)
  {
    ExcursionsPolled(n, Min(0, (n + 1) * SECOND - WINDOW));
    ExcusedCostTwo(Excursions(n), Told(EMPTY, 0, Excursions(n)), n, (n + 1) * SECOND);
  }

  lemma ExcusedCostTwo(os: seq<Observation>, r: Record, n: nat, now: int)
    requires now == (n + 1) * SECOND && Polled(os, r, n, Min(0, now - WINDOW))
    ensures CostTwo(os, r.history, n, now)
  {
    if now <= WINDOW {
      AllKept(r.history, now);
    }
  }

  // Nothing is dropped of a history that begins in the window.
  lemma AllKept(h: seq<Change>, now: int)
    requires Increasing(h) && |h| >= 2 && h[0].at == 0 && now <= WINDOW
    ensures Kept([], h, Some(now))
  {
    InOrder(h, 0, 1);
  }

  // The polls so far, the timeline r after them, and the counts since c.
  predicate Polled(os: seq<Observation>, r: Record, n: nat, c: int) {
    && |os| == n + 1 && os[n].now == (n + 1) * SECOND && InOrderOfTime(os)
    && r == Told(EMPTY, 0, os) && Excused(r, n)
    && TicksSince(os, c) == n + 1 && ExcursionsSince(0, os, c) == n
  }

  lemma CountOneMore(os: seq<Observation>, o: Observation, c: int)
    ensures TicksSince(os + [o], c) == TicksSince(os, c) + if c < o.now then 1 else 0
    ensures ExcursionsSince(0, os + [o], c) ==
            ExcursionsSince(0, os, c) + if c < o.now && IsExcursion(Told(EMPTY, 0, os), o.vehicle) then 1 else 0
  {
    assert (os + [o])[..|os|] == os;
  }

  lemma {:induction false} OneObservedMore(os: seq<Observation>, o: Observation, r: Record, c: int)
    requires os != [] && InOrderOfTime(os) && os[|os| - 1].now <= o.now && c < o.now
    requires r == Told(EMPTY, 0, os) && IsExcursion(r, o.vehicle)
    ensures InOrderOfTime(os + [o]) && Told(EMPTY, 0, os + [o]) == Recorded(r, o.now, 0, o.vehicle)
    ensures TicksSince(os + [o], c) == TicksSince(os, c) + 1
    ensures ExcursionsSince(0, os + [o], c) == ExcursionsSince(0, os, c) + 1
  {
    CountOneMore(os, o, c);
    assert (os + [o])[..|os|] == os;
  }

  lemma {:induction false} OnePollMore(os: seq<Observation>, r: Record, n: nat, c: int)
    requires n > 0 && c <= 0 && Polled(os, r, n - 1, c)
    ensures Polled(os + [Poll(n)], Recorded(r, Poll(n).now, 0, Poll(n).vehicle), n, c)
  {
    PollIsExcursion(r, n);
    OneMoreExcursion(r, n);
    OneObservedMore(os, Poll(n), r, c);
  }

  lemma {:induction false} ExcursionsPolled(n: nat, c: int)
    requires c <= 0
    ensures Polled(Excursions(n), Told(EMPTY, 0, Excursions(n)), n, c)
  {
    if n == 0 {
      FirstPoll();
      assert [] + [Poll(0)] == [Poll(0)];
      CountOneMore([], Poll(0), c);
    } else {
      ExcursionsPolled(n - 1, c);
      OnePollMore(Excursions(n - 1), Told(EMPTY, 0, Excursions(n - 1)), n, c);
    }
  }

  lemma PollIsExcursion(r: Record, n: nat)
    requires n > 0 && Excused(r, n - 1)
    ensures IsExcursion(r, Poll(n).vehicle)
  {
    assert |Poll(n).vehicle.timestamp| != |r.timestamp|;
  }

  lemma OneMoreExcursion(r: Record, n: nat)
    requires n > 0 && Excused(r, n - 1)
    ensures Excused(Recorded(r, (n + 1) * SECOND, 0, Poll(n).vehicle), n)
  {
    ExcursionGrows(r, n);
    TwoMore(r.history, n);
  }

  lemma ExcursionGrows(r: Record, n: nat)
    requires n > 0 && r.observed == Some(n * SECOND) && r.state == "parked" && |r.timestamp| == n - 1
    ensures
      var next := Recorded(r, (n + 1) * SECOND, 0, Poll(n).vehicle);
      && next.observed == Some((n + 1) * SECOND) && next.state == "parked" && |next.timestamp| == n
      && next.history == Grown(r.history, true, n * SECOND, n * SECOND + SECOND / 2, Parked)
  {
    var v := Poll(n).vehicle;
    assert |v.timestamp| != |r.timestamp|;
    assert PhaseOf("parked") == Parked && ChangeTime(r, (n + 1) * SECOND, 0, v) == n * SECOND + SECOND / 2;
  }

  lemma TwoMore(cs: seq<Change>, n: nat)
    requires n > 0 && ExcusedHistory(cs, n - 1)
    ensures ExcusedHistory(Grown(cs, true, n * SECOND, n * SECOND + SECOND / 2, Parked), n)
  {
    GrownKeeps(cs, true, n * SECOND, n * SECOND + SECOND / 2, Parked);
    var marked := cs + [Change(n * SECOND, Unassigned)];
    assert Appended(cs, n * SECOND, Unassigned) == marked;
    assert Appended(marked, n * SECOND + SECOND / 2, Parked) == marked + [Change(n * SECOND + SECOND / 2, Parked)];
  }

  lemma FirstPoll()
    ensures Excused(Told(EMPTY, 0, Excursions(0)), 0)
  {
    assert [Poll(0)][..0] == [] && Told(EMPTY, 0, []) == EMPTY;
    var started := [Change(0, Unassigned)];
    assert Appended([], 0, Unassigned) == started;
    assert Appended(started, SECOND / 2, Parked) == started + [Change(SECOND / 2, Parked)];
    assert PhaseOf("parked") == Parked;
    assert Recorded(EMPTY, SECOND, 0, Poll(0).vehicle).history == started + [Change(SECOND / 2, Parked)];
    assert (started + [Change(SECOND / 2, Parked)])[..1] == started;
  }
}
