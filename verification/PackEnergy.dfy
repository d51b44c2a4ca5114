/** The energy accounts told by the battery hashes alone: which hash is a reading, which
two readings make an interval, and what the interval is worth. */
module PackEnergy {
  import opened Prelude
  import opened Timeline
  import opened Accounting
  import opened EnergyRuns

  // The hash is a reading: an active, identified battery with a fresh, plausible sample
  // taken since the accounts were opened.  Times are in nanoseconds, the sample's in
  // milliseconds.
  predicate Readable(p: Pack, now: int, started: int) {
    && p.present && p.state == "active" && p.valid && p.serial != ""
    && p.at.Some? && p.voltage.Some? && p.capacity.Some? && p.full.Some?
    && started <= p.at.value * 1_000_000 <= now && now - p.at.value * 1_000_000 <= 90_000_000_000
    && 20000 <= p.voltage.value <= 65000 && 0 < p.full.value <= 100000 && 0 <= p.capacity.value <= p.full.value
  }

  // The sample a reading holds, field by field.
  predicate Reads(s: Sample, p: Pack) {
    && p.at.Some? && p.voltage.Some? && p.capacity.Some? && p.full.Some?
    && s.serial == p.serial && s.at == p.at.value * 1_000_000 && s.voltage == p.voltage.value
    && s.capacity == p.capacity.value && s.full == p.full.value
  }

  // A hash is read exactly when it is a reading, and then as it stands.
  lemma SampleExactly(p: Pack, now: int, started: int)
    ensures ReadSample(p, now, started).Some? <==> Readable(p, now, started)
    ensures Readable(p, now, started) ==> Reads(ReadSample(p, now, started).value, p)
  {
  }

  // ----- status -----

  // The two slots report one battery.
  predicate Twins(packs: Packs) {
    packs[0].present && packs[1].present && packs[0].serial == packs[1].serial != ""
  }

  predicate Awake(p: Pack) { p.present && p.state != "idle" && p.state != "asleep" }

  // The status: waiting while nothing can be read, collecting while every battery that
  // is awake can be, partial in between.
  lemma StatusExactly(a: Accounts, o: Observation)
    ensures
      var first, second := Readable(o.packs[0], o.now, a.started), Readable(o.packs[1], o.now, a.started);
      var all := (Awake(o.packs[0]) ==> first) && (Awake(o.packs[1]) ==> second);
      StatusOf(a, o) == if Twins(o.packs) || (!first && !second) then Waiting else if all then Collecting else Partial
  {
    SampleExactly(o.packs[0], o.now, a.started);
    SampleExactly(o.packs[1], o.now, a.started);
    var ps := o.packs;
    assert ps[..1] == [ps[0]] && ps[..1][..0] == [] && ps[..2] == ps;
    assert CountPresent(ps) == CountPresent(ps[..1]) + (if Awake(ps[1]) then 1 else 0);
    assert CountUsable(ps, o.now, a.started)
        == CountUsable(ps[..1], o.now, a.started) + if Readable(ps[1], o.now, a.started) then 1 else 0;
  }

  // ----- readings of a slot -----

  predicate HasReading(p: Pack) { p.at.Some? && p.voltage.Some? && p.capacity.Some? && p.full.Some? }

  type Reading = p: Pack | HasReading(p) witness Pack(false, "", false, "", Some(0), Some(0), Some(0), Some(0))

  // The reading a slot goes on from after o, having gone on from `before`.  The same
  // sample seen again is not a new reading.
  function Taken(before: Option<Reading>, o: Observation, i: nat, started: int): Option<Reading>
    requires i < 2
  {
    var p := o.packs[i];
    if Twins(o.packs) || !Readable(p, o.now, started) then None
    else if before.Some? && before.value.serial == p.serial && before.value.full == p.full && before.value.at == p.at
    then before
    else Some(p)
  }

  // Two readings of one battery, at most two minutes apart and with no more capacity
  // between them than 200 A could move, plus 2 mAh.
  predicate Continues(p: Reading, q: Reading) {
    && p.serial == q.serial && p.full == q.full && 0 < q.at.value - p.at.value <= 120_000
    && 18 * Abs(p.capacity.value - q.capacity.value) <= q.at.value - p.at.value + 36
  }

  // Drawn between two readings, in 1/2000 mWh: mAh times the sum of the voltages.
  function Worth(p: Reading, q: Reading): int {
    (p.capacity.value - q.capacity.value) * (p.voltage.value + q.voltage.value)
  }

  function Drawn(before: Option<Reading>, o: Observation, i: nat, started: int): int
    requires i < 2
  {
    if before.Some? && !Twins(o.packs) && Readable(o.packs[i], o.now, started) && Continues(before.value, o.packs[i])
    then Worth(before.value, o.packs[i]) else 0
  }

  // The clock reads earlier than at the observation before.
  predicate WentBack(os: seq<Observation>) { |os| > 1 && os[|os| - 1].now < os[|os| - 2].now }

  // What slot i goes on from at the last observation.
  function From(started: int, os: seq<Observation>, i: nat): Option<Reading>
    requires i < 2 && os != []
    decreases |os|, 0
  {
    if WentBack(os) then None else Held(started, os[..|os| - 1], i)
  }

  function Held(started: int, os: seq<Observation>, i: nat): Option<Reading>
    requires i < 2
    decreases |os|, 1
  {
    if os == [] then None else Taken(From(started, os, i), os[|os| - 1], i, started)
  }

  function AllDrawn(started: int, os: seq<Observation>, i: nat): int
    requires i < 2
  {
    if os == [] then 0
    else AllDrawn(started, os[..|os| - 1], i) + Drawn(From(started, os, i), os[|os| - 1], i, started)
  }

  // ----- the accounts -----

  predicate Holds(slot: Option<Sample>, held: Option<Reading>) {
    slot.Some? == held.Some? && (slot.Some? ==> Reads(slot.value, held.value))
  }

  lemma CreditedNet(t: Totals, b: Phase, energy: int)
    ensures Credited(t, b, energy).Net() == t.Net() + energy
  {
  }

  // What one battery does to its slot and to the net.
  lemma SlotFollows(slot: Option<Sample>, before: Option<Reading>, o: Observation, i: nat, started: int,
                    history: seq<Change>, t: Totals)
    requires i < 2 && Holds(slot, before)
    ensures
      var e := if Twins(o.packs) then Cut(slot) else Read(slot, ReadSample(o.packs[i], o.now, started), history);
      && Holds(SlotAfter(slot, e), Taken(before, o, i, started))
      && TotalsAfter(t, e).Net() == t.Net() + Drawn(before, o, i, started)
  {
    SampleExactly(o.packs[i], o.now, started);
    var e := if Twins(o.packs) then Cut(slot) else Read(slot, ReadSample(o.packs[i], o.now, started), history);
    if e.Extended? {
      CreditedNet(t, e.bucket, Energy(e));
    }
  }

  lemma ObservedFollows(a: Accounts, o: Observation, first: Option<Reading>, second: Option<Reading>)
    requires Holds(a.slots[0], first) && Holds(a.slots[1], second)
    ensures
      var b := if Duplicated(o.packs) then BrokenOff(a) else AfterPacks(a, o, 2);
      && Holds(b.slots[0], Taken(first, o, 0, a.started)) && Holds(b.slots[1], Taken(second, o, 1, a.started))
      && b.started == a.started && b.timeline == a.timeline
      && b.totals.Net() == a.totals.Net() + Drawn(first, o, 0, a.started) + Drawn(second, o, 1, a.started)
  {
    FirstPack(a, o);
    SlotFollows(a.slots[0], first, o, 0, a.started, a.timeline.history, a.totals);
    var e := if Twins(o.packs) then Cut(a.slots[0])
             else Read(a.slots[0], ReadSample(o.packs[0], o.now, a.started), a.timeline.history);
    SlotFollows(a.slots[1], second, o, 1, a.started, a.timeline.history, TotalsAfter(a.totals, e));
  }

  // Over any run, with batteries swapped, missing or swapping slots and clocks going
  // back: each slot holds the reading it goes on from, and the net is what was drawn
  // between the readings.
  lemma {:induction false} NetFollowsPacks(t: Totals, started: int, os: seq<Observation>)
    ensures
      var a := Run(Fresh(t, started), os);
      && a.started == started
      && a.timeline.observed == (if os == [] then None else Some(os[|os| - 1].now))
      && Holds(a.slots[0], Held(started, os, 0)) && Holds(a.slots[1], Held(started, os, 1))
      && a.totals.Net() == t.Net() + AllDrawn(started, os, 0) + AllDrawn(started, os, 1)
  {
    if os != [] {
      var init, o := os[..|os| - 1], os[|os| - 1];
      NetFollowsPacks(t, started, init);
      var a := Run(Fresh(t, started), init);
      PreparedFollows(a, o, Held(started, init, 0), Held(started, init, 1));
      assert ClockWentBack(a, o.now) <==> WentBack(os);
      ObservedFollows(Prepared(a, o), o, From(started, os, 0), From(started, os, 1));
    }
  }

  lemma PreparedFollows(a: Accounts, o: Observation, first: Option<Reading>, second: Option<Reading>)
    requires Holds(a.slots[0], first) && Holds(a.slots[1], second)
    ensures
      var b := Prepared(a, o);
      && b.started == a.started && b.totals.Net() == a.totals.Net() && b.timeline.observed == Some(o.now)
      && Holds(b.slots[0], if ClockWentBack(a, o.now) then None else first)
      && Holds(b.slots[1], if ClockWentBack(a, o.now) then None else second)
  {
  }

  lemma OneMoreDrawn(started: int, os: seq<Observation>, o: Observation, i: nat)
    requires i < 2 && (os != [] ==> os[|os| - 1].now <= o.now)
    ensures AllDrawn(started, os + [o], i) == AllDrawn(started, os, i) + Drawn(Held(started, os, i), o, i, started)
  {
    assert (os + [o])[..|os|] == os;
  }

  lemma NetGain(t: Totals, started: int, os: seq<Observation>, o: Observation)
    requires os != [] ==> os[|os| - 1].now <= o.now
    ensures Run(Fresh(t, started), os + [o]).totals.Net() - Run(Fresh(t, started), os).totals.Net() ==
            Drawn(Held(started, os, 0), o, 0, started) + Drawn(Held(started, os, 1), o, 1, started)
  {
    OneMoreDrawn(started, os, o, 0);
    OneMoreDrawn(started, os, o, 1);
    NetFollowsPacks(t, started, os);
    NetFollowsPacks(t, started, os + [o]);
  }

  lemma {:induction false} HeldWasRead(started: int, os: seq<Observation>, i: nat)
    requires i < 2
    ensures Held(started, os, i).Some? ==> Held(started, os, i).value.voltage.value >= 20000
  {
    if os != [] {
      HeldWasRead(started, os[..|os| - 1], i);
    }
  }

  // An interval is worth something positive exactly if capacity was drawn.
  lemma WorthSign(p: Reading, q: Reading)
    requires p.voltage.value > 0 && q.voltage.value > 0
    ensures Worth(p, q) > 0 <==> q.capacity.value < p.capacity.value
    ensures Worth(p, q) == 0 <==> q.capacity.value == p.capacity.value
  {
    PositiveProduct(p.capacity.value - q.capacity.value, p.voltage.value + q.voltage.value);
  }

  lemma PositiveProduct(x: int, y: int)
    requires y > 0
    ensures x * y > 0 <==> x > 0
    ensures x * y == 0 <==> x == 0
  {
  }

  // So one more observation of a battery that goes on from the reading p raises the net
  // by the capacity drawn times the sum of the voltages, if the other slot adds nothing;
  // it rises exactly if the battery now has less left.
  lemma DrawnRaisesNet(t: Totals, started: int, os: seq<Observation>, o: Observation, i: nat, p: Reading)
    requires i < 2 && Held(started, os, i) == Some(p) && (os != [] ==> os[|os| - 1].now <= o.now)
    requires !Twins(o.packs) && Readable(o.packs[i], o.now, started) && Continues(p, o.packs[i])
    requires Drawn(Held(started, os, 1 - i), o, 1 - i, started) == 0
    ensures
      var before, after := Run(Fresh(t, started), os).totals.Net(), Run(Fresh(t, started), os + [o]).totals.Net();
      var q := o.packs[i];
      && after - before == Worth(p, q)
      && (after > before <==> q.capacity.value < p.capacity.value)
  {
    NetGain(t, started, os, o);
    HeldWasRead(started, os, i);
    WorthSign(p, o.packs[i]);
  }
}
