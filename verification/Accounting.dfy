/** The energy accountant of internal/energy/accounting.go.

Energy is counted in units of 1/2000 mWh, so that a capacity change in mAh times
the sum of two voltages in mV is exact.  The value functions describe one
observation as a trail of slot events against the never-pruned history; the
class does what the program does and is proved to follow them. */
module Accounting {
  import opened Prelude
  import opened Timeline

  datatype Sample = Sample(serial: string, at: int, voltage: int, capacity: int, full: int)

  datatype Totals = Totals(driving: int, parked: int, standby: int, unassigned: int, intervals: nat, gaps: nat) {
    function Net(): int { driving + parked + standby + unassigned }

    function Of(p: Phase): int {
      match p
      case Driving => driving
      case Parked => parked
      case Standby => standby
      case Unassigned => unassigned
    }
  }

  const ZERO := Totals(0, 0, 0, 0, 0, 0)

  // One battery hash: the fields that are compared as text, and the four that
  // must parse as 64-bit integers.  The time is Unix milliseconds.
  datatype Pack = Pack(present: bool, state: string, valid: bool, serial: string,
                       at: Option<int>, voltage: Option<int>, capacity: Option<int>, full: Option<int>)

  const ABSENT := Pack(false, "", false, "", None, None, None, None)

  type Packs = p: seq<Pack> | |p| == 2 witness [ABSENT, ABSENT]

  // One atomic snapshot of the vehicle and both batteries.
  datatype Observation = Observation(now: int, vehicle: Vehicle, packs: Packs)

  datatype Status = Waiting | Partial | Collecting

  type Slots = s: seq<Option<Sample>> | |s| == 2 witness [None, None]

  datatype Accounts = Accounts(totals: Totals, started: int, slots: Slots, timeline: Record)

  function Fresh(totals: Totals, started: int): Accounts {
    Accounts(totals, started, [None, None], EMPTY)
  }

  // ----- one sample -----

  function ReadSample(p: Pack, now: int, started: int): Option<Sample> {
    if !p.present || p.state != "active" || !p.valid || p.serial == "" then None
    else if p.at.None? || p.voltage.None? || p.capacity.None? || p.full.None? then None
    else
      var s := Sample(p.serial, p.at.value * MILLISECOND, p.voltage.value, p.capacity.value, p.full.value);
      if Usable(s, now, started) then Some(s) else None
  }

  predicate Usable(s: Sample, now: int, started: int) {
    && started <= s.at <= now <= s.at + MAX_SAMPLE_AGE
    && 20000 <= s.voltage <= 65000
    && 0 < s.full <= 100000
    && 0 <= s.capacity <= s.full
  }

  // ----- what an observation does to a slot -----

  datatype Event =
    | Idle
    | Opened(sample: Sample)
    | Broken
    | Reopened(sample: Sample)
    | Extended(from: Sample, to: Sample, bucket: Phase)

  // A 200 A pack plus 2 mAh: |delta| <= 200000 * hours + 2.
  predicate Plausible(from: Sample, to: Sample) {
    && from.at < to.at <= from.at + MAX_INTERVAL
    && 18 * MILLISECOND * Abs(from.capacity - to.capacity) <= to.at - from.at + 36 * MILLISECOND
  }

  function Read(slot: Option<Sample>, reading: Option<Sample>, history: seq<Change>): Event {
    if reading.None? then Cut(slot)
    else if slot.None? then Opened(reading.value)
    else
      var from, to := slot.value, reading.value;
      if to.serial != from.serial || to.full != from.full then Reopened(to)
      else if to.at == from.at then Idle
      else if !Plausible(from, to) then Reopened(to)
      else Extended(from, to, Dominant(history, from.at, to.at))
  }

  function Cut(slot: Option<Sample>): Event { if slot.Some? then Broken else Idle }

  function SlotAfter(slot: Option<Sample>, e: Event): Option<Sample> {
    match e
    case Idle => slot
    case Broken => None
    case Opened(s) => Some(s)
    case Reopened(s) => Some(s)
    case Extended(_, s, _) => Some(s)
  }

  function Energy(e: Event): int
    requires e.Extended?
  {
    (e.from.capacity - e.to.capacity) * (e.from.voltage + e.to.voltage)
  }

  function TotalsAfter(t: Totals, e: Event): Totals {
    match e
    case Idle => t
    case Opened(_) => t
    case Broken => t.(gaps := t.gaps + 1)
    case Reopened(_) => t.(gaps := t.gaps + 1)
    case Extended(_, _, b) => Credited(t, b, Energy(e)).(intervals := t.intervals + 1)
  }

  function Credited(t: Totals, b: Phase, energy: int): Totals {
    match b
    case Driving => t.(driving := t.driving + energy)
    case Parked => t.(parked := t.parked + energy)
    case Standby => t.(standby := t.standby + energy)
    case Unassigned => t.(unassigned := t.unassigned + energy)
  }

  // ----- one observation -----

  datatype Step = Step(slot: nat, event: Event)

  function Apply(a: Accounts, i: nat, e: Event): Accounts
    requires i < 2
  {
    a.(slots := a.slots[i := SlotAfter(a.slots[i], e)], totals := TotalsAfter(a.totals, e))
  }

  function BrokenOff(a: Accounts): Accounts {
    Apply(Apply(a, 0, Cut(a.slots[0])), 1, Cut(a.slots[1]))
  }

  predicate ClockWentBack(a: Accounts, now: int) {
    a.timeline.observed.Some? && now < a.timeline.observed.value
  }

  predicate Duplicated(packs: Packs) {
    packs[0].present && packs[1].present && packs[0].serial != "" && packs[0].serial == packs[1].serial
  }

  // The accounts with the vehicle state recorded, before any pack is read.
  function Prepared(a: Accounts, o: Observation): Accounts {
    var b := if ClockWentBack(a, o.now) then BrokenOff(a).(timeline := EMPTY) else a;
    b.(timeline := Recorded(b.timeline, o.now, a.started, o.vehicle))
  }

  function EventOf(a: Accounts, i: nat, o: Observation): Event
    requires i < 2
  {
    Read(a.slots[i], ReadSample(o.packs[i], o.now, a.started), a.timeline.history)
  }

  // After the first n packs.
  function AfterPacks(a: Accounts, o: Observation, n: nat): Accounts
    requires n <= 2
  {
    if n == 0 then a else Apply(AfterPacks(a, o, n - 1), n - 1, EventOf(AfterPacks(a, o, n - 1), n - 1, o))
  }

  function After(a: Accounts, o: Observation): Accounts {
    var b := Prepared(a, o);
    if Duplicated(o.packs) then BrokenOff(b) else AfterPacks(b, o, 2)
  }

  function CountPresent(packs: seq<Pack>): nat {
    if packs == [] then 0
    else
      var p := packs[|packs| - 1];
      CountPresent(packs[..|packs| - 1]) + if p.present && p.state != "idle" && p.state != "asleep" then 1 else 0
  }

  function CountUsable(packs: seq<Pack>, now: int, started: int): nat {
    if packs == [] then 0
    else
      CountUsable(packs[..|packs| - 1], now, started)
      + if ReadSample(packs[|packs| - 1], now, started).Some? then 1 else 0
  }

  function StatusOf(a: Accounts, o: Observation): Status {
    var usable := CountUsable(o.packs, o.now, a.started);
    if Duplicated(o.packs) || usable == 0 then Waiting
    else if usable < CountPresent(o.packs) then Partial
    else Collecting
  }

  class Accountant {
    var totals: Totals
    var started: int
    var slots: Slots
    var phases: PhaseTimeline

    ghost predicate Valid()
      reads this, phases
    {
      phases.Valid()
    }

    ghost function View(): Accounts
      reads this, phases
    {
      Accounts(totals, started, slots, phases.View())
    }

    constructor (t: Totals, now: int)
      ensures Valid() && fresh(phases)
      ensures View() == Fresh(t, now)
    {
      totals, started, slots := t, now, [None, None];
      phases := new PhaseTimeline();
    }

    method BreakSlot(i: nat)
      requires i < 2
      modifies this`totals, this`slots
      ensures View() == Apply(old(View()), i, Cut(old(slots[i])))
    {
      if slots[i].Some? {
        totals := totals.(gaps := totals.gaps + 1);
        slots := slots[i := None];
      }
    }

    // A failed read breaks every chain and changes nothing else.
    method Break()
      modifies this`totals, this`slots
      ensures View() == BrokenOff(old(View()))
    {
      BreakSlot(0);
      BreakSlot(1);
    }

    method OnPack(i: nat, s: Sample)
      requires Valid() && i < 2
      requires phases.observed.Some? && Usable(s, phases.observed.value, started)
      modifies this`totals, this`slots
      ensures View() == Apply(old(View()), i, Read(old(slots[i]), Some(s), old(phases.View().history)))
    {
      if slots[i].None? {
        slots := slots[i := Some(s)];
        return;
      }
      var from := slots[i].value;
      if s.serial != from.serial || s.full != from.full {
        BreakSlot(i);
        slots := slots[i := Some(s)];
        return;
      }
      if s.at == from.at {
        return;
      }
      var dt := s.at - from.at;
      var delta := from.capacity - s.capacity;
      if dt <= 0 || dt > MAX_INTERVAL || 18 * MILLISECOND * Abs(delta) > dt + 36 * MILLISECOND {
        BreakSlot(i);
        slots := slots[i := Some(s)];
        return;
      }
      var energy := delta * (from.voltage + s.voltage);
      // The sample is at most 90 s old and the interval at most 120 s long, so
      // the pruned timeline still covers it.
      var bucket := phases.LargestShare(from.at, s.at);
      match bucket {
        case Driving => totals := totals.(driving := totals.driving + energy);
        case Parked => totals := totals.(parked := totals.parked + energy);
        case Standby => totals := totals.(standby := totals.standby + energy);
        case Unassigned => totals := totals.(unassigned := totals.unassigned + energy);
      }
      totals := totals.(intervals := totals.intervals + 1);
      slots := slots[i := Some(s)];
    }

    method Prepare(o: Observation)
      requires Valid()
      modifies this, phases
      ensures Valid() && (phases == old(phases) || fresh(phases))
      ensures phases.observed == Some(o.now)
      ensures View() == Prepared(old(View()), o)
    {
      if phases.observed.Some? && o.now < phases.observed.value {
        Break();
        phases := new PhaseTimeline();
      }
      phases.Observe(o.now, started, o.vehicle);
    }

    method OnReading(i: nat, reading: Option<Sample>)
      requires Valid() && i < 2
      requires phases.observed.Some? && (reading.Some? ==> Usable(reading.value, phases.observed.value, started))
      modifies this`totals, this`slots
      ensures View() == Apply(old(View()), i, Read(old(slots[i]), reading, old(phases.View().history)))
    {
      if reading.None? {
        BreakSlot(i);
      } else {
        OnPack(i, reading.value);
      }
    }

    method ReadPacks(o: Observation) returns (present: nat, usable: nat)
      requires Valid() && phases.observed == Some(o.now)
      modifies this`totals, this`slots
      ensures View() == AfterPacks(old(View()), o, 2)
      ensures present == CountPresent(o.packs)
      ensures usable == CountUsable(o.packs, o.now, started)
    {
      present, usable := 0, 0;
      var i := 0;
      while i < 2
        invariant 0 <= i <= 2
        invariant View() == AfterPacks(old(View()), o, i)
        invariant present == CountPresent(o.packs[..i])
        invariant usable == CountUsable(o.packs[..i], o.now, started)
      {
        var p := o.packs[i];
        assert o.packs[..i + 1][..i] == o.packs[..i];
        if p.present && p.state != "idle" && p.state != "asleep" {
          present := present + 1;
        }
        var reading := ReadSample(p, o.now, started);
        if reading.Some? {
          usable := usable + 1;
        }
        OnReading(i, reading);
        i := i + 1;
      }
      assert o.packs[..2] == o.packs;
    }

    method Observe(o: Observation) returns (status: Status)
      requires Valid()
      modifies this, phases
      ensures Valid() && (phases == old(phases) || fresh(phases))
      ensures View() == After(old(View()), o)
      ensures status == StatusOf(old(View()), o)
    {
      Prepare(o);
      if Duplicated(o.packs) {
        Break();
        return Waiting;
      }
      var present, usable := ReadPacks(o);
      if usable == 0 {
        return Waiting;
      }
      status := if usable < present then Partial else Collecting;
    }
  }
}
