/** The phase timeline of internal/energy/phases.go.

Instants are integer nanoseconds.  A timeline is meant to say which operating
phase held at every instant; PhaseAt is that meaning.  The class keeps the
pruned list the program keeps, and beside it, as ghost state, the history that
was never pruned.  Its contracts speak only of the unpruned history. */
module Timeline {
  import opened Prelude

  const MILLISECOND := 1_000_000
  const SECOND := 1_000 * MILLISECOND
  const MAX_SAMPLE_AGE := 90 * SECOND
  const MAX_INTERVAL := 120 * SECOND
  const WINDOW := MAX_SAMPLE_AGE + MAX_INTERVAL

  datatype Phase = Driving | Parked | Standby | Unassigned

  datatype Change = Change(at: int, phase: Phase)

  // One reading of the vehicle hash.  `at` is the parsed "state:timestamp",
  // absent when the text is not a valid time.
  datatype Vehicle = Vehicle(state: string, timestamp: string, at: Option<int>)

  // What the timeline remembers, with its full history.
  datatype Record = Record(history: seq<Change>, observed: Option<int>, state: string, timestamp: string)

  const EMPTY := Record([], None, "", "")

  function PhaseOf(state: string): Phase {
    if state == "ready-to-drive" then Driving
    else if state == "parked" || state == "hop-on" || state == "hop-on-learning" || state == "waiting-seatbox"
      then Parked
    else if state == "stand-by" || state == "hibernating" || state == "hibernating-imminent"
            || state == "hibernating-waiting"
      then Standby
    else Unassigned
  }

  predicate Increasing(cs: seq<Change>) {
    |cs| < 2 || (cs[|cs| - 2].at < cs[|cs| - 1].at && Increasing(cs[..|cs| - 1]))
  }

  // The phase holding at instant t: that of the last change not after t.
  function PhaseAt(cs: seq<Change>, t: int): Phase {
    if cs == [] then Unassigned
    else if cs[|cs| - 1].at <= t then cs[|cs| - 1].phase
    else PhaseAt(cs[..|cs| - 1], t)
  }

  // How many instants of [start, end) lie in phase p.
  function Occupancy(cs: seq<Change>, start: int, end: int, p: Phase): (n: nat)
    decreases end - start
  {
    if end <= start then 0
    else Occupancy(cs, start, end - 1, p) + if PhaseAt(cs, end - 1) == p then 1 else 0
  }

  predicate Wins(cs: seq<Change>, start: int, end: int, p: Phase) {
    forall q :: q != p ==> Occupancy(cs, start, end, q) < Occupancy(cs, start, end, p)
  }

  // The phase with strictly the most instants, Unassigned when there is none.
  function Dominant(cs: seq<Change>, start: int, end: int): Phase {
    if end <= start then Unassigned
    else if Wins(cs, start, end, Driving) then Driving
    else if Wins(cs, start, end, Parked) then Parked
    else if Wins(cs, start, end, Standby) then Standby
    else Unassigned
  }

  lemma {:induction false} InOrder(cs: seq<Change>, i: nat, j: nat)
    requires Increasing(cs) && i < j < |cs|
    ensures cs[i].at < cs[j].at
  {
    if j < |cs| - 1 {
      InOrder(cs[..|cs| - 1], i, j);
    } else if i < j - 1 {
      InOrder(cs[..|cs| - 1], i, j - 1);
    }
  }

  // ----- recording changes -----

  function Appended(cs: seq<Change>, at: int, p: Phase): seq<Change> {
    var n := |cs|;
    if n > 0 && cs[n - 1].at == at then cs[..n - 1] + [Change(at, p)]
    else if n > 0 && cs[n - 1].phase == p then cs
    else cs + [Change(at, p)]
  }

  // The instant a newly seen state is taken to begin.
  function ChangeTime(r: Record, now: int, started: int, v: Vehicle): int {
    if v.at.None? || v.at.value > now then now
    else if r.observed.Some? then (if v.at.value <= r.observed.value then now else v.at.value)
    else Max(v.at.value, Min(started, now))
  }

  predicate Changed(r: Record, v: Vehicle) { v.state != r.state || v.timestamp != r.timestamp }

  // The history once phase p is taken to begin at `at`; with a gap, the stretch
  // from `from` until then is unassigned.
  function Grown(cs: seq<Change>, gap: bool, from: int, at: int, p: Phase): seq<Change> {
    if gap then Appended(Appended(cs, from, Unassigned), at, p) else Appended(cs, at, p)
  }

  // A timeline after observing v at time now, nothing ever pruned.
  function Recorded(r: Record, now: int, started: int, v: Vehicle): Record {
    Record(HistoryWith(r, now, started, v), Some(now), v.state, v.timestamp)
  }

  function HistoryWith(r: Record, now: int, started: int, v: Vehicle): seq<Change> {
    var at := ChangeTime(r, now, started, v);
    if r.observed.None? then Grown(r.history, true, Min(started, now), at, PhaseOf(v.state))
    else if Changed(r, v) then Grown(r.history, v.state == r.state, r.observed.value, at, PhaseOf(v.state))
    else r.history
  }

  predicate EndsBy(cs: seq<Change>, t: int) { cs != [] ==> cs[|cs| - 1].at <= t }

  predicate EndsIn(cs: seq<Change>, p: Phase) { cs != [] && cs[|cs| - 1].phase == p }

  predicate Sound(r: Record) {
    && Increasing(r.history)
    && (r.observed.None? ==> r.history == [])
    && (r.observed.Some? ==> EndsBy(r.history, r.observed.value) && EndsIn(r.history, PhaseOf(r.state)))
  }

  lemma AppendKeeps(cs: seq<Change>, at: int, p: Phase)
    requires Increasing(cs) && EndsBy(cs, at)
    ensures Increasing(Appended(cs, at, p)) && EndsBy(Appended(cs, at, p), at) && EndsIn(Appended(cs, at, p), p)
  {
    var next := Appended(cs, at, p);
    if next != cs {
      assert next[..|next| - 1] == cs[..|next| - 1];
      assert |next| - 1 == |cs| ==> cs[..|cs|] == cs;
    }
  }

  lemma AppendMeaning(cs: seq<Change>, at: int, p: Phase, t: int)
    requires Increasing(cs) && EndsBy(cs, at)
    ensures PhaseAt(Appended(cs, at, p), t) == if t < at then PhaseAt(cs, t) else p
  {
    var n := |cs|;
    if n > 0 && cs[n - 1].at == at {
      assert Appended(cs, at, p)[..n - 1] == cs[..n - 1];
    } else if !(n > 0 && cs[n - 1].phase == p) {
      assert Appended(cs, at, p)[..n] == cs;
    }
  }

  lemma GrownKeeps(cs: seq<Change>, gap: bool, from: int, at: int, p: Phase)
    requires Increasing(cs) && EndsBy(cs, from) && from <= at
    ensures Increasing(Grown(cs, gap, from, at, p))
    ensures EndsBy(Grown(cs, gap, from, at, p), at) && EndsIn(Grown(cs, gap, from, at, p), p)
  {
    AppendKeeps(cs, from, Unassigned);
    AppendKeeps(if gap then Appended(cs, from, Unassigned) else cs, at, p);
  }

  lemma GrownMeaning(cs: seq<Change>, gap: bool, from: int, at: int, p: Phase, t: int)
    requires Increasing(cs) && EndsBy(cs, from) && from <= at
    ensures PhaseAt(Grown(cs, gap, from, at, p), t) ==
            if at <= t then p else if gap && from <= t then Unassigned else PhaseAt(cs, t)
  {
    AppendKeeps(cs, from, Unassigned);
    AppendMeaning(cs, from, Unassigned, t);
    AppendMeaning(if gap then Appended(cs, from, Unassigned) else cs, at, p, t);
  }

  lemma RecordedSound(r: Record, now: int, started: int, v: Vehicle)
    requires Sound(r) && (r.observed.Some? ==> r.observed.value <= now)
    ensures Sound(Recorded(r, now, started, v))
  {
    var at := ChangeTime(r, now, started, v);
    if r.observed.None? {
      GrownKeeps(r.history, true, Min(started, now), at, PhaseOf(v.state));
    } else if Changed(r, v) {
      GrownKeeps(r.history, v.state == r.state, r.observed.value, at, PhaseOf(v.state));
    }
  }

  // What a timeline means after an observation: nothing before the previous
  // observation changes, the old state is carried up to the change, and a new
  // timestamp on an unchanged state leaves the stretch since the previous
  // observation unassigned.
  lemma ObservedMeaning(r: Record, now: int, started: int, v: Vehicle, t: int)
    requires Sound(r) && (r.observed.Some? ==> r.observed.value <= now)
    ensures
      var at := ChangeTime(r, now, started, v);
      PhaseAt(Recorded(r, now, started, v).history, t) ==
        if r.observed.None? then (if t < at then Unassigned else PhaseOf(v.state))
        else if t < r.observed.value then PhaseAt(r.history, t)
        else if t < at && Changed(r, v) then (if v.state == r.state then Unassigned else PhaseOf(r.state))
        else PhaseOf(v.state)
  {
    var at := ChangeTime(r, now, started, v);
    if r.observed.None? {
      GrownMeaning(r.history, true, Min(started, now), at, PhaseOf(v.state), t);
    } else if Changed(r, v) {
      GrownMeaning(r.history, v.state == r.state, r.observed.value, at, PhaseOf(v.state), t);
    }
  }

  // Where a change is placed.  The first observation is unassigned until the vehicle's
  // own time of its state, but not before the accounts were opened; without a time, or
  // with one in the future, until now.  Later a change is placed at its own time, if that
  // lies between the previous observation and now, and otherwise at now.
  lemma ChangesPlaced(r: Record, now: int, started: int, v: Vehicle, t: int)
    requires Sound(r) && (r.observed.Some? ==> r.observed.value <= now)
    ensures
      var phase := PhaseAt(Recorded(r, now, started, v).history, t);
      var timed := v.at.Some? && v.at.value <= now;
      if r.observed.None? then
        && (timed && started <= v.at.value ==> phase == if t < v.at.value then Unassigned else PhaseOf(v.state))
        && (timed && v.at.value < started <= now ==> phase == if t < started then Unassigned else PhaseOf(v.state))
        && (!timed ==> phase == if t < now then Unassigned else PhaseOf(v.state))
      else if v.state != r.state then
        var inside := timed && r.observed.value < v.at.value;
        && (t < r.observed.value ==> phase == PhaseAt(r.history, t))
        && (r.observed.value <= t && inside ==> phase == PhaseOf(if t < v.at.value then r.state else v.state))
        && (r.observed.value <= t && !inside ==> phase == PhaseOf(if t < now then r.state else v.state))
      else
        r.observed.value <= t && v.timestamp == r.timestamp ==> phase == PhaseOf(r.state)
  {
    ObservedMeaning(r, now, started, v, t);
  }

  // The operating phases of the vehicle's states.
  lemma PhasesNamed(state: string)
    ensures PhaseOf(state) == Driving <==> state == "ready-to-drive"
    ensures PhaseOf(state) == Parked <==> state in {"parked", "hop-on", "hop-on-learning", "waiting-seatbox"}
    ensures PhaseOf(state) == Standby <==>
            state in {"stand-by", "hibernating", "hibernating-imminent", "hibernating-waiting"}
  {
  }

  // ----- pruning -----

  // What the program may forget: entries over at `cutoff` because a later one
  // already held then.
  predicate Superseded(dropped: seq<Change>, kept: seq<Change>, cutoff: int) {
    dropped != [] ==> kept != [] && kept[0].at <= cutoff
  }

  // The list the program keeps is all that is needed since the cutoff, and at
  // most one entry more.
  predicate Kept(dropped: seq<Change>, kept: seq<Change>, observed: Option<int>) {
    if observed.None? then dropped == kept == []
    else
      && Superseded(dropped, kept, observed.value - WINDOW)
      && (|kept| > 1 ==> observed.value - WINDOW < kept[1].at)
  }

  lemma AppendTail(dropped: seq<Change>, kept: seq<Change>, at: int, p: Phase)
    requires dropped != [] ==> kept != []
    ensures Appended(dropped + kept, at, p) == dropped + Appended(kept, at, p)
    ensures kept != [] && kept[0].at < at ==> Appended(kept, at, p)[0].at == kept[0].at
  {
  }

  // The kept list answers every question since its first entry.
  lemma {:induction false} TailAgrees(dropped: seq<Change>, kept: seq<Change>, t: int)
    requires kept != [] && kept[0].at <= t
    ensures PhaseAt(dropped + kept, t) == PhaseAt(kept, t)
    decreases |kept|
  {
    if kept[|kept| - 1].at > t {
      assert (dropped + kept)[..|dropped| + |kept| - 1] == dropped + kept[..|kept| - 1];
      TailAgrees(dropped, kept[..|kept| - 1], t);
    }
  }

  lemma TailDominates(dropped: seq<Change>, kept: seq<Change>, start: int, end: int)
    requires Superseded(dropped, kept, start)
    ensures Dominant(dropped + kept, start, end) == Dominant(kept, start, end)
  {
    if dropped == [] {
      assert dropped + kept == kept;
    } else {
      forall t | start <= t < end ensures PhaseAt(dropped + kept, t) == PhaseAt(kept, t) {
        TailAgrees(dropped, kept, t);
      }
      SameDominant(dropped + kept, kept, start, end);
    }
  }

  lemma {:induction false} IncreasingTail(dropped: seq<Change>, kept: seq<Change>)
    requires Increasing(dropped + kept)
    ensures Increasing(kept)
    decreases |kept|
  {
    if |kept| > 1 {
      assert (dropped + kept)[..|dropped| + |kept| - 1] == dropped + kept[..|kept| - 1];
      IncreasingTail(dropped, kept[..|kept| - 1]);
    }
  }

  lemma {:induction false} SameOccupancy(a: seq<Change>, b: seq<Change>, start: int, end: int, p: Phase)
    requires forall t :: start <= t < end ==> PhaseAt(a, t) == PhaseAt(b, t)
    ensures Occupancy(a, start, end, p) == Occupancy(b, start, end, p)
    decreases end - start
  {
    if start < end {
      SameOccupancy(a, b, start, end - 1, p);
    }
  }

  lemma SameDominant(a: seq<Change>, b: seq<Change>, start: int, end: int)
    requires forall t :: start <= t < end ==> PhaseAt(a, t) == PhaseAt(b, t)
    ensures Dominant(a, start, end) == Dominant(b, start, end)
  {
    forall p { SameOccupancy(a, b, start, end, p); }
  }

  // ----- occupancy -----

  lemma {:induction false} PhaseBetween(cs: seq<Change>, i: nat, t: int)
    requires Increasing(cs) && i <= |cs|
    requires i > 0 ==> cs[i - 1].at <= t
    requires i < |cs| ==> t < cs[i].at
    ensures PhaseAt(cs, t) == if i == 0 then Unassigned else cs[i - 1].phase
    decreases |cs|
  {
    if i < |cs| {
      if i < |cs| - 1 {
        InOrder(cs, i, |cs| - 1);
      }
      PhaseBetween(cs[..|cs| - 1], i, t);
    }
  }

  lemma {:induction false} OccupancyExtend(cs: seq<Change>, start: int, mid: int, end: int, p: Phase, c: Phase)
    requires start <= mid <= end
    requires forall t :: mid <= t < end ==> PhaseAt(cs, t) == c
    ensures Occupancy(cs, start, end, p) == Occupancy(cs, start, mid, p) + if p == c then end - mid else 0
    decreases end - mid
  {
    if mid < end {
      OccupancyExtend(cs, start, mid, end - 1, p, c);
    }
  }

  // Every instant is in exactly one phase.
  lemma {:induction false} OccupancyTotal(cs: seq<Change>, start: int, end: int)
    requires start <= end
    ensures Occupancy(cs, start, end, Driving) + Occupancy(cs, start, end, Parked)
         + Occupancy(cs, start, end, Standby) + Occupancy(cs, start, end, Unassigned) == end - start
    decreases end - start
  {
    if start < end {
      OccupancyTotal(cs, start, end - 1);
    }
  }

  function Entry(m: map<Phase, int>, p: Phase): int { if p in m then m[p] else 0 }

  predicate StrictlyLargest(m: map<Phase, int>, p: Phase) {
    p in m && forall q :: q in m && q != p ==> m[q] < m[p]
  }

  // Exact occupancies turn the winner of the map into the dominant phase.
  lemma WinnerDominates(m: map<Phase, int>, cs: seq<Change>, start: int, end: int, p: Phase)
    requires start < end
    requires forall q :: Entry(m, q) == Occupancy(cs, start, end, q)
    requires forall q :: q in m ==> 0 < m[q]
    requires StrictlyLargest(m, p) || (p == Unassigned && forall q :: !StrictlyLargest(m, q))
    ensures p == Dominant(cs, start, end)
  {
    OccupancyTotal(cs, start, end);
    forall q ensures Wins(cs, start, end, q) <==> StrictlyLargest(m, q) {
      if Wins(cs, start, end, q) {
        assert forall r :: r != q ==> Entry(m, r) < Entry(m, q);
      }
      if StrictlyLargest(m, q) {
        assert forall r :: r != q ==> Entry(m, r) < Entry(m, q);
      }
    }
  }

  class PhaseTimeline {
    var changes: seq<Change>
    var observed: Option<int>
    var state: string
    var timestamp: string
    ghost var dropped: seq<Change>

    ghost function View(): Record
      reads this
    {
      Record(dropped + changes, observed, state, timestamp)
    }

    ghost predicate Valid()
      reads this
    {
      Sound(View()) && Kept(dropped, changes, observed)
    }

    constructor ()
      ensures Valid() && View() == EMPTY
    {
      changes, observed, state, timestamp := [], None, "", "";
      dropped := [];
    }

    method Append(at: int, phase: Phase, ghost cutoff: int)
      requires Superseded(dropped, changes, cutoff) && cutoff < at
      modifies this`changes
      ensures Superseded(dropped, changes, cutoff)
      ensures dropped + changes == Appended(dropped + old(changes), at, phase)
    {
      AppendTail(dropped, changes, at, phase);
      var n := |changes|;
      if n > 0 && changes[n - 1].at == at {
        changes := changes[..n - 1] + [Change(at, phase)];
      } else if n > 0 && changes[n - 1].phase == phase {
      } else {
        changes := changes + [Change(at, phase)];
      }
      assert changes == Appended(old(changes), at, phase);
    }

    // Enter phase p at `at`, first closing a gap opened at `from` if there is one.
    method Grow(gap: bool, from: int, at: int, p: Phase, ghost cutoff: int)
      requires Superseded(dropped, changes, cutoff) && cutoff < from <= at
      modifies this`changes
      ensures Superseded(dropped, changes, cutoff)
      ensures dropped + changes == Grown(dropped + old(changes), gap, from, at, p)
    {
      if gap {
        Append(from, Unassigned, cutoff);
      }
      Append(at, p, cutoff);
    }

    // Place the transition, if there is one.
    method Note(now: int, started: int, v: Vehicle)
      requires Kept(dropped, changes, observed)
      requires observed.Some? ==> observed.value <= now
      modifies this`changes
      ensures Superseded(dropped, changes, now - WINDOW)
      ensures dropped + changes == HistoryWith(old(View()), now, started, v)
    {
      ghost var r := View();
      var validTime := v.at.Some? && v.at.value <= now;
      if observed.None? {
        var begin := if started > now then now else started;
        var at := if !validTime then now else if v.at.value < begin then begin else v.at.value;
        assert begin == Min(started, now) && at == ChangeTime(r, now, started, v);
        Grow(true, begin, at, PhaseOf(v.state), begin - WINDOW - 1);
      } else if v.state != state || v.timestamp != timestamp {
        var at := if !validTime || v.at.value <= observed.value then now else v.at.value;
        assert at == ChangeTime(r, now, started, v);
        // Same state, new timestamp: something happened in between.
        Grow(v.state == state, observed.value, at, PhaseOf(v.state), observed.value - WINDOW);
      }
    }

    // Drop every entry that is over by the cutoff, keeping the last such one.
    method Prune(cutoff: int)
      requires Superseded(dropped, changes, cutoff)
      modifies this`changes, this`dropped
      ensures Kept(dropped, changes, Some(cutoff + WINDOW))
      ensures dropped + changes == old(dropped + changes)
    {
      var first := 0;
      while first + 1 < |changes| && changes[first + 1].at <= cutoff
        invariant changes == [] ==> first == 0
        invariant changes != [] ==> 0 <= first < |changes|
        invariant first > 0 ==> changes[first].at <= cutoff
      {
        first := first + 1;
      }
      if first > 0 {
        dropped := dropped + changes[..first];
        changes := changes[first..];
      }
    }

    method Observe(now: int, started: int, v: Vehicle)
      requires Valid()
      requires observed.Some? ==> observed.value <= now
      modifies this
      ensures Valid()
      ensures View() == Recorded(old(View()), now, started, v)
    {
      RecordedSound(View(), now, started, v);
      Note(now, started, v);
      Prune(now - WINDOW);
      observed, state, timestamp := Some(now), v.state, v.timestamp;
    }

    // The phase with strictly the most instants of the whole history, though
    // only the kept list is read.
    method LargestShare(start: int, end: int) returns (bucket: Phase)
      requires Valid() && observed.Some? && observed.value - WINDOW <= start
      ensures bucket == Dominant(View().history, start, end)
    {
      if end <= start {
        return Unassigned;
      }
      IncreasingTail(dropped, changes);
      TailDominates(dropped, changes, start, end);
      var durations := Durations(start, end);
      bucket := Largest(durations);
      WinnerDominates(durations, changes, start, end, bucket);
    }

    // The accumulation loop: exact occupancy of every phase that occurs.
    method Durations(start: int, end: int) returns (durations: map<Phase, int>)
      requires Increasing(changes) && start < end
      ensures forall p :: Entry(durations, p) == Occupancy(changes, start, end, p)
      ensures forall p :: p in durations ==> 0 < durations[p]
    {
      durations := map[];
      var cursor, current := start, Unassigned;
      var i := 0;
      while i < |changes|
        invariant 0 <= i <= |changes|
        invariant start <= cursor < end
        invariant current == if i == 0 then Unassigned else changes[i - 1].phase
        invariant i > 0 ==> changes[i - 1].at <= cursor
        invariant start < cursor ==> i > 0 && changes[i - 1].at == cursor
        invariant forall p :: Entry(durations, p) == Occupancy(changes, start, cursor, p)
        invariant forall p :: p in durations ==> 0 < durations[p]
      {
        var change := changes[i];
        if i > 0 {
          InOrder(changes, i - 1, i);
        }
        if change.at <= start {
          current := change.phase;
        } else {
          if end <= change.at {
            break;
          }
          forall t | cursor <= t < change.at ensures PhaseAt(changes, t) == current { PhaseBetween(changes, i, t); }
          forall p { OccupancyExtend(changes, start, cursor, change.at, p, current); }
          durations := durations[current := Entry(durations, current) + change.at - cursor];
          cursor, current := change.at, change.phase;
        }
        i := i + 1;
      }
      forall t | cursor <= t < end ensures PhaseAt(changes, t) == current { PhaseBetween(changes, i, t); }
      forall p { OccupancyExtend(changes, start, cursor, end, p, current); }
      durations := durations[current := Entry(durations, current) + end - cursor];
    }

    // The winner loop.  The keys arrive in any order, as Go's map iteration gives them.
    static method Largest(durations: map<Phase, int>) returns (bucket: Phase)
      requires forall p :: p in durations ==> 0 < durations[p]
      ensures StrictlyLargest(durations, bucket)
           || (bucket == Unassigned && forall p :: !StrictlyLargest(durations, p))
    {
      bucket := Unassigned;
      var longest, tied, rest := 0, false, durations.Keys;
      while rest != {}
        invariant rest <= durations.Keys
        invariant forall q :: q in durations.Keys - rest ==> durations[q] <= longest
        invariant durations.Keys == rest ==> longest == 0 && !tied && bucket == Unassigned
        invariant durations.Keys != rest ==> bucket in durations.Keys - rest && durations[bucket] == longest
        invariant tied <==> exists q :: q in durations.Keys - rest && q != bucket && durations[q] == longest
      {
        var phase :| phase in rest;
        var duration := durations[phase];
        if duration > longest {
          bucket, longest, tied := phase, duration, false;
        } else if duration == longest {
          tied := true;
        }
        rest := rest - {phase};
      }
      if tied {
        bucket := Unassigned;
      }
    }
  }
}
