/** What any run of the accountant keeps. */
module EnergyRuns {
  import opened Prelude
  import opened Timeline
  import opened Accounting

  // ----- runs and the events they leave -----

  function Run(a: Accounts, os: seq<Observation>): Accounts {
    if os == [] then a else After(Run(a, os[..|os| - 1]), os[|os| - 1])
  }

  function Cuts(a: Accounts): seq<Step> { Pair((Cut(a.slots[0]), Cut(a.slots[1]))) }

  // What the packs of o do to prepared accounts.
  function PackEvents(b: Accounts, o: Observation): (Event, Event) {
    if Duplicated(o.packs) then (Cut(b.slots[0]), Cut(b.slots[1]))
    else (EventOf(b, 0, o), EventOf(AfterPacks(b, o, 1), 1, o))
  }

  // The slot events of one observation, in order.
  function Trail(a: Accounts, o: Observation): seq<Step> {
    (if ClockWentBack(a, o.now) then Cuts(a) else []) + Pair(PackEvents(Prepared(a, o), o))
  }

  function Pair(e: (Event, Event)): seq<Step> { [Step(0, e.0), Step(1, e.1)] }

  function RunTrail(a: Accounts, os: seq<Observation>): seq<Step> {
    if os == [] then [] else RunTrail(a, os[..|os| - 1]) + Trail(Run(a, os[..|os| - 1]), os[|os| - 1])
  }

  // The totals and slots after a trail.
  datatype Book = Book(totals: Totals, slots: Slots)

  function BookOf(a: Accounts): Book { Book(a.totals, a.slots) }

  predicate Placed(trail: seq<Step>) { forall s :: s in trail ==> s.slot < 2 }

  function Replay(b: Book, trail: seq<Step>): Book
    requires Placed(trail)
  {
    if trail == [] then b
    else
      var c, s := Replay(b, trail[..|trail| - 1]), trail[|trail| - 1];
      Book(TotalsAfter(c.totals, s.event), c.slots[s.slot := SlotAfter(c.slots[s.slot], s.event)])
  }

  lemma ReplayOne(b: Book, trail: seq<Step>, s: Step)
    requires Placed(trail) && s.slot < 2
    ensures Placed(trail + [s])
    ensures
      var c := Replay(b, trail);
      Replay(b, trail + [s]) ==
        Book(TotalsAfter(c.totals, s.event), c.slots[s.slot := SlotAfter(c.slots[s.slot], s.event)])
  {
    assert (trail + [s])[..|trail|] == trail;
  }

  lemma ReplayTwo(b: Book, trail: seq<Step>, s: Step, t: Step)
    requires Placed(trail) && s.slot < 2 && t.slot < 2
    ensures Placed(trail + [s, t])
    ensures Replay(b, trail + [s, t]) == Replay(Replay(b, trail), [s, t])
  {
    ReplayOne(b, trail, s);
    ReplayOne(b, trail + [s], t);
    assert trail + [s] + [t] == trail + [s, t];
    var c := Replay(b, trail);
    ReplayOne(c, [], s);
    ReplayOne(c, [s], t);
    assert [] + [s] == [s] && [s] + [t] == [s, t];
  }

  lemma PairApplies(a: Accounts, e: (Event, Event))
    ensures BookOf(Apply(Apply(a, 0, e.0), 1, e.1)) == Replay(BookOf(a), Pair(e))
  {
    ReplayOne(BookOf(a), [], Step(0, e.0));
    ReplayOne(BookOf(a), [Step(0, e.0)], Step(1, e.1));
    assert [] + [Step(0, e.0)] == [Step(0, e.0)];
    assert [Step(0, e.0)] + [Step(1, e.1)] == Pair(e);
  }

  lemma FirstPack(b: Accounts, o: Observation)
    ensures AfterPacks(b, o, 1) == Apply(b, 0, EventOf(b, 0, o))
  {
    assert AfterPacks(b, o, 0) == b;
  }

  lemma AfterIsPair(a: Accounts, o: Observation)
    ensures
      var b := Prepared(a, o);
      After(a, o) == Apply(Apply(b, 0, PackEvents(b, o).0), 1, PackEvents(b, o).1)
  {
    var b := Prepared(a, o);
    FirstPack(b, o);
  }

  lemma PairExplains(a: Accounts, e: (Event, Event), before: seq<Step>, start: Book)
    requires Placed(before) && Replay(start, before) == BookOf(a)
    ensures Placed(before + Pair(e))
    ensures BookOf(Apply(Apply(a, 0, e.0), 1, e.1)) == Replay(start, before + Pair(e))
  {
    PairApplies(a, e);
    ReplayTwo(start, before, Step(0, e.0), Step(1, e.1));
  }

  lemma PreparedExplained(a: Accounts, o: Observation, before: seq<Step>, start: Book)
    requires Placed(before) && Replay(start, before) == BookOf(a)
    ensures
      var first := if ClockWentBack(a, o.now) then Cuts(a) else [];
      && Placed(before + first) && BookOf(Prepared(a, o)) == Replay(start, before + first)
      && before + Trail(a, o) == before + first + Pair(PackEvents(Prepared(a, o), o))
  {
    if ClockWentBack(a, o.now) {
      PairExplains(a, (Cut(a.slots[0]), Cut(a.slots[1])), before, start);
    } else {
      assert before + [] == before;
    }
  }

  lemma TrailExplains(a: Accounts, o: Observation, before: seq<Step>, start: Book)
    requires Placed(before) && Replay(start, before) == BookOf(a)
    ensures Placed(before + Trail(a, o))
    ensures BookOf(After(a, o)) == Replay(start, before + Trail(a, o))
  {
    var b := Prepared(a, o);
    var first := if ClockWentBack(a, o.now) then Cuts(a) else [];
    PreparedExplained(a, o, before, start);
    AfterIsPair(a, o);
    PairExplains(b, PackEvents(b, o), before + first, start);
  }

  // The trail accounts for everything a run changes in totals and slots.
  lemma {:induction false} RunExplained(a: Accounts, os: seq<Observation>)
    ensures Placed(RunTrail(a, os))
    ensures BookOf(Run(a, os)) == Replay(BookOf(a), RunTrail(a, os))
  {
    if os != [] {
      RunExplained(a, os[..|os| - 1]);
      TrailExplains(Run(a, os[..|os| - 1]), os[|os| - 1], RunTrail(a, os[..|os| - 1]), BookOf(a));
    }
  }

  // ----- sums over a trail -----

  function EnergyIn(trail: seq<Step>, p: Phase): int {
    if trail == [] then 0
    else
      var e := trail[|trail| - 1].event;
      EnergyIn(trail[..|trail| - 1], p) + if e.Extended? && e.bucket == p then Energy(e) else 0
  }

  function NetEnergy(trail: seq<Step>): int {
    if trail == [] then 0
    else
      var e := trail[|trail| - 1].event;
      NetEnergy(trail[..|trail| - 1]) + if e.Extended? then Energy(e) else 0
  }

  function Length(trail: seq<Step>): int {
    if trail == [] then 0
    else
      var e := trail[|trail| - 1].event;
      Length(trail[..|trail| - 1]) + if e.Extended? then e.to.at - e.from.at else 0
  }

  function Intervals(trail: seq<Step>): nat {
    if trail == [] then 0
    else Intervals(trail[..|trail| - 1]) + if trail[|trail| - 1].event.Extended? then 1 else 0
  }

  function Gaps(trail: seq<Step>): nat {
    if trail == [] then 0
    else
      var e := trail[|trail| - 1].event;
      Gaps(trail[..|trail| - 1]) + if e.Broken? || e.Reopened? then 1 else 0
  }

  function Chains(trail: seq<Step>): nat {
    if trail == [] then 0
    else
      var e := trail[|trail| - 1].event;
      Chains(trail[..|trail| - 1]) + if e.Opened? || e.Reopened? then 1 else 0
  }

  function Live(slots: Slots): nat {
    (if slots[0].Some? then 1 else 0) + if slots[1].Some? then 1 else 0
  }

  lemma {:induction false} ReplaySums(b: Book, trail: seq<Step>)
    requires Placed(trail)
    ensures
      var t := Replay(b, trail).totals;
      && (forall p :: t.Of(p) == b.totals.Of(p) + EnergyIn(trail, p))
      && t.Net() == b.totals.Net() + NetEnergy(trail)
      && t.intervals == b.totals.intervals + Intervals(trail)
      && t.gaps == b.totals.gaps + Gaps(trail)
  {
    if trail != [] {
      ReplaySums(b, trail[..|trail| - 1]);
    }
  }

  // Conservation: a run changes each bucket by exactly the energy of the
  // intervals it accepted into it, and the counters by what it accepted and cut.
  lemma Conservation(a: Accounts, os: seq<Observation>)
    ensures
      var t, trail := Run(a, os).totals, RunTrail(a, os);
      && (forall p :: t.Of(p) == a.totals.Of(p) + EnergyIn(trail, p))
      && t.Net() == a.totals.Net() + NetEnergy(trail)
      && t.intervals == a.totals.intervals + Intervals(trail)
      && t.gaps == a.totals.gaps + Gaps(trail)
  {
    RunExplained(a, os);
    ReplaySums(BookOf(a), RunTrail(a, os));
  }

  // ----- what every event satisfies -----

  predicate InRange(s: Sample) { 20000 <= s.voltage <= 65000 && 0 <= s.capacity <= s.full <= 100000 }

  predicate FollowsFrom(slot: Option<Sample>, e: Event) {
    match e
    case Idle => true
    case Broken => slot.Some?
    case Opened(s) => slot.None? && InRange(s)
    case Reopened(s) => slot.Some? && InRange(s)
    case Extended(from, to, _) =>
      slot == Some(from) && InRange(from) && InRange(to) && Plausible(from, to)
      && from.serial == to.serial && from.full == to.full
  }

  // Every event of the trail fits the slot it finds.
  predicate Coherent(b: Book, trail: seq<Step>)
    requires Placed(trail)
  {
    trail == [] ||
    (var n := |trail| - 1;
     && Coherent(b, trail[..n])
     && FollowsFrom(Replay(b, trail[..n]).slots[trail[n].slot], trail[n].event))
  }

  predicate SlotsInRange(slots: Slots) { forall i :: 0 <= i < 2 && slots[i].Some? ==> InRange(slots[i].value) }

  lemma CoherentPair(b: Book, trail: seq<Step>, e: (Event, Event))
    requires Placed(trail) && Coherent(b, trail)
    requires FollowsFrom(Replay(b, trail).slots[0], e.0) && FollowsFrom(Replay(b, trail).slots[1], e.1)
    ensures Placed(trail + Pair(e)) && Coherent(b, trail + Pair(e))
  {
    var s := Step(0, e.0);
    ReplayOne(b, trail, s);
    assert (trail + [s])[..|trail|] == trail;
    assert Coherent(b, trail + [s]);
    assert (trail + Pair(e))[..|trail| + 1] == trail + [s];
  }

  lemma ReadFollows(slot: Option<Sample>, reading: Option<Sample>, history: seq<Change>)
    requires slot.Some? ==> InRange(slot.value)
    requires reading.Some? ==> InRange(reading.value)
    ensures FollowsFrom(slot, Read(slot, reading, history))
    ensures var s := SlotAfter(slot, Read(slot, reading, history)); s.Some? ==> InRange(s.value)
  {
  }

  lemma PacksFollow(b: Accounts, o: Observation)
    requires SlotsInRange(b.slots)
    ensures FollowsFrom(b.slots[0], PackEvents(b, o).0) && FollowsFrom(b.slots[1], PackEvents(b, o).1)
    ensures SlotsInRange(Apply(Apply(b, 0, PackEvents(b, o).0), 1, PackEvents(b, o).1).slots)
  {
    FirstPack(b, o);
    ReadFollows(b.slots[0], ReadSample(o.packs[0], o.now, b.started), b.timeline.history);
    ReadFollows(b.slots[1], ReadSample(o.packs[1], o.now, b.started), b.timeline.history);
  }

  lemma TrailCoherent(a: Accounts, o: Observation, before: seq<Step>, start: Book)
    requires Placed(before) && Coherent(start, before) && Replay(start, before) == BookOf(a)
    requires SlotsInRange(a.slots)
    ensures SlotsInRange(After(a, o).slots)
    ensures Placed(before + Trail(a, o)) && Coherent(start, before + Trail(a, o))
  {
    var b := Prepared(a, o);
    var first := if ClockWentBack(a, o.now) then Cuts(a) else [];
    PreparedExplained(a, o, before, start);
    if ClockWentBack(a, o.now) {
      CoherentPair(start, before, (Cut(a.slots[0]), Cut(a.slots[1])));
    } else {
      assert before + [] == before;
    }
    PacksFollow(b, o);
    AfterIsPair(a, o);
    CoherentPair(start, before + first, PackEvents(b, o));
  }

  lemma {:induction false} RunCoherent(a: Accounts, os: seq<Observation>)
    requires SlotsInRange(a.slots)
    ensures Placed(RunTrail(a, os)) && Coherent(BookOf(a), RunTrail(a, os))
    ensures SlotsInRange(Run(a, os).slots)
  {
    if os != [] {
      var init := os[..|os| - 1];
      RunCoherent(a, init);
      RunExplained(a, init);
      TrailCoherent(Run(a, init), os[|os| - 1], RunTrail(a, init), BookOf(a));
    }
  }

  // ----- chains -----

  lemma {:induction false} CoherentChains(b: Book, trail: seq<Step>)
    requires Placed(trail) && Coherent(b, trail)
    ensures Chains(trail) + Live(b.slots) == Gaps(trail) + Live(Replay(b, trail).slots)
  {
    if trail != [] {
      CoherentChains(b, trail[..|trail| - 1]);
    }
  }

  // Every chain a run opens is either still live or was counted as a gap.
  lemma ChainsBalance(a: Accounts, os: seq<Observation>)
    requires SlotsInRange(a.slots)
    ensures Chains(RunTrail(a, os)) + Live(a.slots) ==
            Run(a, os).totals.gaps - a.totals.gaps + Live(Run(a, os).slots)
  {
    RunCoherent(a, os);
    RunExplained(a, os);
    CoherentChains(BookOf(a), RunTrail(a, os));
    Conservation(a, os);
  }

  // The unbroken chain a slot is in: where it began and what it has summed.
  datatype Chain = Chain(first: Sample, delta: int, length: int)

  function ChainAfter(c: Option<Chain>, e: Event): Option<Chain> {
    match e
    case Idle => c
    case Broken => None
    case Opened(s) => Some(Chain(s, 0, 0))
    case Reopened(s) => Some(Chain(s, 0, 0))
    case Extended(from, to, _) =>
      if c.None? then None
      else Some(Chain(c.value.first, c.value.delta + from.capacity - to.capacity, c.value.length + to.at - from.at))
  }

  function ChainOf(start: Option<Sample>, trail: seq<Step>, i: nat): Option<Chain> {
    if trail == [] then (if start.Some? then Some(Chain(start.value, 0, 0)) else None)
    else
      var s := trail[|trail| - 1];
      if s.slot == i then ChainAfter(ChainOf(start, trail[..|trail| - 1], i), s.event)
      else ChainOf(start, trail[..|trail| - 1], i)
  }

  lemma {:induction false} CoherentTelescopes(b: Book, trail: seq<Step>, i: nat)
    requires Placed(trail) && Coherent(b, trail) && i < 2
    ensures
      var slot, c := Replay(b, trail).slots[i], ChainOf(b.slots[i], trail, i);
      && (slot.Some? <==> c.Some?)
      && (slot.Some? ==>
            && c.value.delta == c.value.first.capacity - slot.value.capacity
            && c.value.length == slot.value.at - c.value.first.at
            && c.value.first.serial == slot.value.serial)
  {
    if trail != [] {
      CoherentTelescopes(b, trail[..|trail| - 1], i);
    }
  }

  // Within an unbroken chain the capacity changes sum to first minus latest and
  // the lengths to latest minus first: nothing is skipped, nothing counted twice.
  lemma Telescoping(a: Accounts, os: seq<Observation>, i: nat)
    requires SlotsInRange(a.slots) && i < 2
    ensures
      var slot, c := Run(a, os).slots[i], ChainOf(a.slots[i], RunTrail(a, os), i);
      && (slot.Some? <==> c.Some?)
      && (slot.Some? ==>
            && c.value.delta == c.value.first.capacity - slot.value.capacity
            && c.value.length == slot.value.at - c.value.first.at
            && c.value.first.serial == slot.value.serial)
  {
    RunCoherent(a, os);
    RunExplained(a, os);
    CoherentTelescopes(BookOf(a), RunTrail(a, os), i);
  }

  // ----- the bound -----

  lemma ProductBound(delta: int, volts: int, room: int)
    requires 0 <= volts <= 130000
    requires 18 * MILLISECOND * Abs(delta) <= room
    ensures 18 * MILLISECOND * Abs(delta * volts) <= 130000 * room
  {
    ProductAbs(delta, volts);
    ProductMonotone(Abs(delta), volts, 130000);
  }

  lemma ProductAbs(x: int, y: nat)
    ensures Abs(x * y) == Abs(x) * y
  {
  }

  lemma ProductMonotone(x: nat, y: nat, z: nat)
    requires y <= z
    ensures x * y <= x * z
  {
  }

  // What a 200 A pack at 65 V could move in that time, and 2 mAh for each of k intervals.
  predicate Within(energy: int, length: int, k: int) {
    18 * MILLISECOND * Abs(energy) <= 130000 * (length + 36 * MILLISECOND * k)
  }

  lemma WithinSum(energy: int, length: int, k: int, more: int, time: int)
    requires Within(energy, length, k) && Within(more, time, 1)
    ensures Within(energy + more, length + time, k + 1)
  {
    assert Abs(energy + more) <= Abs(energy) + Abs(more);
  }

  lemma IntervalWithin(from: Sample, to: Sample)
    requires InRange(from) && InRange(to) && Plausible(from, to)
    ensures Within((from.capacity - to.capacity) * (from.voltage + to.voltage), to.at - from.at, 1)
  {
    ProductBound(from.capacity - to.capacity, from.voltage + to.voltage, to.at - from.at + 36 * MILLISECOND);
  }

  lemma {:induction false} CoherentBound(b: Book, trail: seq<Step>)
    requires Placed(trail) && Coherent(b, trail)
    ensures Within(NetEnergy(trail), Length(trail), Intervals(trail))
  {
    if trail != [] {
      var n := |trail| - 1;
      var e := trail[n].event;
      CoherentBound(b, trail[..n]);
      if e.Extended? {
        IntervalWithin(e.from, e.to);
        WithinSum(NetEnergy(trail[..n]), Length(trail[..n]), Intervals(trail[..n]), Energy(e), e.to.at - e.from.at);
      }
    }
  }

  // The change of the net, the accepted time, and the number of accepted intervals.
  function NetOf(a: Accounts, os: seq<Observation>): int { Run(a, os).totals.Net() - a.totals.Net() }

  function TimeOf(a: Accounts, os: seq<Observation>): int { Length(RunTrail(a, os)) }

  function CountOf(a: Accounts, os: seq<Observation>): int { Run(a, os).totals.intervals - a.totals.intervals }

  // No run can invent energy: the change in Net is within what a 200 A pack at
  // 65 V could move in the accepted time, plus 2 mAh for each interval.
  lemma {:induction false} EnergyBound(a: Accounts, os: seq<Observation>)
    requires SlotsInRange(a.slots)
    ensures Within(NetOf(a, os), TimeOf(a, os), CountOf(a, os))
  {
    var energy, length, k := TrailWithin(a, os);
    NetChange(a, os);
    WithinSame(energy, length, k, NetOf(a, os), TimeOf(a, os), CountOf(a, os));
  }

  lemma WithinSame(energy: int, length: int, k: int, energy': int, length': int, k': int)
    requires Within(energy, length, k) && energy == energy' && length == length' && k == k'
    ensures Within(energy', length', k')
  {
  }

  lemma {:induction false} TrailWithin(a: Accounts, os: seq<Observation>) returns (energy: int, length: int, k: int)
    requires SlotsInRange(a.slots)
    ensures var trail := RunTrail(a, os); energy == NetEnergy(trail) && length == Length(trail) && k == Intervals(trail)
    ensures Within(energy, length, k)
  {
    RunCoherent(a, os);
    CoherentBound(BookOf(a), RunTrail(a, os));
    energy, length, k := NetEnergy(RunTrail(a, os)), Length(RunTrail(a, os)), Intervals(RunTrail(a, os));
  }

  lemma {:induction false} NetChange(a: Accounts, os: seq<Observation>)
    ensures NetOf(a, os) == NetEnergy(RunTrail(a, os)) && CountOf(a, os) == Intervals(RunTrail(a, os))
  {
    Conservation(a, os);
  }
}
