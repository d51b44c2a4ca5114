/** The distance ledger of a ride across restarts.

The trip's row and the counter's row are durable, and startup credits what the
odometer advanced during the outage if the counter had been active.  So the ledger
survives a death in the middle of any handler, whatever is left of its statements. */
module LifeLedger {
  import opened Prelude
  import opened Trips
  import opened Handlers
  import opened CounterModel
  import CounterRuns
  import Recorders
  import RideRuns
  import opened AppRuns
  import opened RideLedger

  // An event is handled, or the service dies while handling it: the counter's change
  // is stored or not, the tables are left as `db`, and the service starts again.
  datatype Life =
    | Event(at: Timed)
    | Death(at: Timed, counted: bool, db: Db, found: Option<Trip>, c: Clock, b: Boot)

  // The counter as a death leaves it.
  function LeftCounter(s: AppState, life: Life, dist: Recorders.Metric): State
    requires life.Death?
  {
    if life.counted then Handle(s, life.at.clock, life.at.input, dist).counter else s.counter
  }

  function Next(s: AppState, life: Life, dist: Recorders.Metric): AppState {
    match life
    case Event(t) => Handle(s, t.clock, t.input, dist)
    case Death(_, _, db, found, c, b) => Booted(LeftCounter(s, life, dist), db, s.events, found, c, b, dist)
  }

  function UsedBy(life: Life): set<string> {
    IdsOf(life.at.input) + if life.Death? then {life.b.id} else {}
  }

  // A death leaves the tables safe (every prefix of a handler's statements does) and
  // the ride's row open; recovery finds what is there.
  ghost predicate CanHappen(s: AppState, life: Life, used: set<string>) {
    && Possible(life.at.clock, life.at.input, used)
    && (life.Death? ==>
          && RideRuns.Safe(life.db, s.events, used + IdsOf(life.at.input)) && Recorders.Found(life.db, life.found)
          && life.c.unix > 0 && life.b.id !in used + IdsOf(life.at.input)
          && BootSettings(life.b.settings) && (life.b.odometer.Some? ==> life.b.odometer.value >= 0)
          && (s.rec.current.Some? ==>
                && IsOpen(life.db, s.rec.current.value.id)
                && life.db.trips[s.rec.current.value.id].startOdometer == s.rec.current.value.startOdometer))
  }

  // ----- postings on the counter's row -----

  // A reading reaches the counter while its row is r.
  function PostedReading(l: Ledger, r: Row, v: Option<int>, reset: bool): Ledger {
    var moved := if v.Some? && r.lastOdometer.Some? then v.value - r.lastOdometer.value else 0;
    var gain := if r.active then Max(0, moved) else 0;
    Ledger(l.credit + gain,
           if r.active then l.idle else l.idle + moved,
           if r.active then l.rollback + Max(0, -moved) else l.rollback,
           l.reset || reset,
           if reset then 0 else l.sinceReset + gain)
  }

  function PostedLife(l: Ledger, s: AppState, life: Life, dist: Recorders.Metric): Ledger {
    var after := Handle(s, life.at.clock, life.at.input, dist).counter.row;
    var handled := PostedReading(l, s.counter.row, ReadingOf(s, life.at.input),
        after.generation != s.counter.row.generation);
    match life
    case Event(_) => handled
    case Death(_, counted, _, _, _, b) =>
      var left := LeftCounter(s, life, dist).row;
      PostedReading(if counted then handled else l, left, b.odometer,
                    Next(s, life, dist).counter.row.generation != left.generation)
  }

  // What the reading v makes of the row.
  predicate Reads(r: Row, t: Row, v: Option<int>) {
    && t.lastOdometer == (if v.Some? then v else r.lastOdometer)
    && t.distanceM == if t.generation != r.generation then 0
                      else r.distanceM + PostedReading(Opened(r), r, v, false).credit
  }

  lemma VehicleReads(r: Row, c: Clock, state: string, odometer: Option<int>)
    requires !IsReady(state) || odometer.None?
    requires odometer.Some? ==> odometer.value >= 0
    ensures Reads(r, OnVehicle(r, c, state, odometer), odometer)
  {
  }

  lemma VehicleCounter(s: AppState, c: Clock, i: Input, dist: Recorders.Metric)
    requires i.VehicleState?
    ensures Handle(s, c, i, dist).counter == Noted(s, c, i.state, i.engine).counter
  {
  }

  lemma NotedReads(s: AppState, c: Clock, i: Input, used: set<string>)
    requires Lockstep(s, used) && Possible(c, i, used) && i.VehicleState?
    ensures Reads(s.counter.row, Noted(s, c, i.state, i.engine).counter.row, ReadingOf(s, i))
  {
    var v := ReadingOf(s, i);
    if v.Some? && v.value < 0 {
      assert s.counter.row.lastOdometer == v;
    } else {
      VehicleReads(s.counter.row, c, i.state, v);
    }
  }

  lemma OdometerReads(s: AppState, c: Clock, i: Input, dist: Recorders.Metric)
    requires i.OdometerUpdate?
    ensures Reads(s.counter.row, Handle(s, c, i, dist).counter.row, ReadingOf(s, i))
  {
    if i.value >= 0 {
      assert Handle(s, c, i, dist).counter == Apply(s.counter, c, Odometer(i.value));
    }
  }

  lemma EventReads(s: AppState, c: Clock, i: Input, used: set<string>, dist: Recorders.Metric)
    requires Lockstep(s, used) && Possible(c, i, used)
    ensures Reads(s.counter.row, Handle(s, c, i, dist).counter.row, ReadingOf(s, i))
  {
    match i
    case VehicleState(_, _, _, _, _, _, _) =>
      VehicleCounter(s, c, i, dist);
      NotedReads(s, c, i, used);
    case OdometerUpdate(_, _, _, _) => OdometerReads(s, c, i, dist);
    case Tick(_) => assert Handle(s, c, i, dist).counter == Apply(s.counter, c, Checkpoint);
    case Gps(_, _) => assert Handle(s, c, i, dist).counter == s.counter;
    case CounterCall(op) =>
      SettingPosts(s.counter, c, op);
      SettingKeeps(s.counter, c, op);
  }

  lemma RecoveryReads(counter: State, c: Clock, b: Boot)
    requires Consistent(counter.row) && BootSettings(b.settings) && (b.odometer.Some? ==> b.odometer.value >= 0)
    ensures Reads(counter.row, OnRecover(Prepared(counter, c, b).row, c, b.state), b.odometer)
  {
    PreparedQuiet(counter, c, b);
    CounterRuns.RecoverStep(Prepared(counter, c, b).row, c, b.state);
    RecoveredRow(Prepared(counter, c, b).row, c, b.state);
  }

  lemma BootReads(counter: State, db: Db, events: seq<Recorders.Event>, found: Option<Trip>, c: Clock, b: Boot,
                  dist: Recorders.Metric)
    requires Consistent(counter.row) && BootSettings(b.settings) && (b.odometer.Some? ==> b.odometer.value >= 0)
    ensures Reads(counter.row, Booted(counter, db, events, found, c, b, dist).counter.row, b.odometer)
  {
    BootCounter(counter, db, events, found, c, b, dist);
    RecoveryReads(counter, c, b);
  }

  // ----- one step -----

  lemma NextLockstep(s: AppState, life: Life, used: set<string>, dist: Recorders.Metric)
    requires Lockstep(s, used) && CanHappen(s, life, used)
    ensures Lockstep(Next(s, life, dist), used + UsedBy(life))
  {
    HandleKeeps(s, life.at.clock, life.at.input, used, dist);
    match life
    case Event(_) => assert used + UsedBy(life) == used + IdsOf(life.at.input);
    case Death(_, _, db, found, c, b) =>
      var more := used + IdsOf(life.at.input);
      BootLocksteps(LeftCounter(s, life, dist), db, s.events, found, c, b, more, dist);
      assert used + UsedBy(life) == more + {b.id};
  }

  // The open trip stays the same trip as long as one is open.
  lemma NextTrip(s: AppState, life: Life, used: set<string>, dist: Recorders.Metric)
    requires Lockstep(s, used) && CanHappen(s, life, used) && s.rec.current.Some?
    requires Next(s, life, dist).rec.current.Some?
    ensures
      var t := Next(s, life, dist).rec.current.value;
      t.id == s.rec.current.value.id && t.startOdometer == s.rec.current.value.startOdometer
  {
    match life
    case Event(t) => HandleTrip(s, t.clock, t.input, used, dist);
    case Death(_, _, db, found, c, b) =>
      RideRuns.RecoverInStep(db, found, ModeOf(b.state), c.unix, used);
      assert IsOpen(db, s.rec.current.value.id);
      if found.Some? {
        assert IsOpen(db, found.value.id);
        DeathTrip(s, life, used, dist);
      }
  }

  lemma DeathTrip(s: AppState, life: Life, used: set<string>, dist: Recorders.Metric)
    requires Lockstep(s, used) && life.Death? && CanHappen(s, life, used) && s.rec.current.Some? && life.found.Some?
    requires Next(s, life, dist).rec.current.Some? && life.found.value.id == s.rec.current.value.id
    ensures
      var t := Next(s, life, dist).rec.current.value;
      t.id == s.rec.current.value.id && t.startOdometer == s.rec.current.value.startOdometer
  {
    RideRuns.RecoverInStep(life.db, life.found, ModeOf(life.b.state), life.c.unix, used);
  }

  // ----- lives -----

  function Lived(s: AppState, lives: seq<Life>, dist: Recorders.Metric): AppState {
    if lives == [] then s else Next(Lived(s, lives[..|lives| - 1], dist), lives[|lives| - 1], dist)
  }

  function UsedThrough(lives: seq<Life>, used: set<string>): set<string> {
    if lives == [] then used else UsedThrough(lives[..|lives| - 1], used) + UsedBy(lives[|lives| - 1])
  }

  // Each step can happen, and a trip stays open throughout.
  ghost predicate Endures(s: AppState, lives: seq<Life>, used: set<string>, dist: Recorders.Metric) {
    Lived(s, lives, dist).rec.current.Some?
    && (lives == [] ||
        (var n := |lives| - 1;
         Endures(s, lives[..n], used, dist)
         && CanHappen(Lived(s, lives[..n], dist), lives[n], UsedThrough(lives[..n], used))))
  }

  function LifeLedgerOf(s: AppState, lives: seq<Life>, dist: Recorders.Metric): Ledger {
    if lives == [] then Opened(s.counter.row)
    else
      var n := |lives| - 1;
      PostedLife(LifeLedgerOf(s, lives[..n], dist), Lived(s, lives[..n], dist), lives[n], dist)
  }

  // The ledger balances on the counter's row.
  predicate Balances(r: Row, start: int, l: Ledger) {
    && r.lastOdometer.Some? && r.lastOdometer.value - start == l.credit + l.idle - l.rollback
    && r.distanceM == l.sinceReset
  }

  lemma PostingBalances(r: Row, t: Row, start: int, l: Ledger, v: Option<int>)
    requires Balances(r, start, l) && Reads(r, t, v)
    ensures Balances(t, start, PostedReading(l, r, v, t.generation != r.generation))
  {
  }

  lemma LifeBalances(s: AppState, life: Life, start: int, l: Ledger, used: set<string>, dist: Recorders.Metric)
    requires Lockstep(s, used) && CanHappen(s, life, used) && Balances(s.counter.row, start, l)
    ensures Balances(Next(s, life, dist).counter.row, start, PostedLife(l, s, life, dist))
  {
    var i, c := life.at.input, life.at.clock;
    EventReads(s, c, i, used, dist);
    PostingBalances(s.counter.row, Handle(s, c, i, dist).counter.row, start, l, ReadingOf(s, i));
    if life.Death? {
      HandleKeeps(s, c, i, used, dist);
      var left := LeftCounter(s, life, dist);
      BootReads(left, life.db, s.events, life.found, life.c, life.b, dist);
      var handled := PostedReading(l, s.counter.row, ReadingOf(s, i),
                                   Handle(s, c, i, dist).counter.row.generation != s.counter.row.generation);
      PostingBalances(left.row, Next(s, life, dist).counter.row, start,
                      if life.counted then handled else l, life.b.odometer);
    }
  }

  // Through any number of deaths and restarts while the ride stays open, the odometer
  // has moved from its start by credit + idle - rollback, and the counter shows the
  // credit since its last reset.
  lemma {:induction false} LedgerSurvives(s: AppState, lives: seq<Life>, used: set<string>, dist: Recorders.Metric)
    requires Lockstep(s, used) && Endures(s, lives, used, dist) && s.odoKnown
    requires s.rec.current.Some? && s.rec.current.value.startOdometer == s.lastOdo
    ensures
      var t, l := Lived(s, lives, dist), LifeLedgerOf(s, lives, dist);
      && Lockstep(t, UsedThrough(lives, used))
      && t.rec.current.value.id == s.rec.current.value.id && t.rec.current.value.startOdometer == s.lastOdo
      && Balances(t.counter.row, t.rec.current.value.startOdometer, l)
  {
    if lives != [] {
      var n := |lives| - 1;
      LedgerSurvives(s, lives[..n], used, dist);
      var before, used' := Lived(s, lives[..n], dist), UsedThrough(lives[..n], used);
      NextLockstep(before, lives[n], used', dist);
      NextTrip(before, lives[n], used', dist);
      LifeBalances(before, lives[n], s.lastOdo, LifeLedgerOf(s, lives[..n], dist), used', dist);
    }
  }

  // ----- when a ride is announced -----

  lemma QuietEvents(s: AppState, c: Clock, i: Input, used: set<string>, dist: Recorders.Metric)
    requires Lockstep(s, used) && Possible(c, i, used) && s.rec.current.Some?
    requires !(i.VehicleState? && ModeOf(i.state) == Over)
    ensures Handle(s, c, i, dist).events == s.events
  {
    match i
    case VehicleState(_, _, _, _, _, _, _) =>
      var t := Noted(s, c, i.state, i.engine);
      NotedKeeps(s, c, i.state, i.engine, used);
      if ModeOf(i.state) == Ready {
        CallOnTrip(t, Recorders.Resume(c.unix), dist);
      } else {
        CallOnTrip(t, Recorders.Pause(c.unix, i.insertOk), dist);
      }
    case Tick(insertOk) =>
      CallOnTrip(s, Recorders.Flush(insertOk), dist);
      CalledRecordable(s, Recorders.Flush(insertOk), used, dist);
      CallOnTrip(Called(s, Recorders.Flush(insertOk), dist), Recorders.Checkpoint(c.unix), dist);
    case Gps(p, insertOk) => CallOnTrip(s, Recorders.Add(p.(odometer := s.lastOdo), insertOk), dist);
    case _ =>
  }

  lemma RecoverIsSilent(db: Db, found: Option<Trip>, mode: Mode, now: int)
    ensures Recorders.RecoverPlan(Recorders.IDLE, db, found, mode, now).events == []
  {
  }

  lemma StartedIsSilent(s: AppState, c: Clock, id: string, profile: string, startOk: bool, dist: Recorders.Metric)
    ensures Started(s, c, id, profile, startOk, dist).events == s.events
  {
    assert s.events + [] == s.events;
  }

  lemma DeathIsSilent(s: AppState, life: Life, dist: Recorders.Metric)
    requires life.Death?
    ensures Next(s, life, dist).events == s.events
  {
    var b := life.b;
    RecoverIsSilent(life.db, life.found, ModeOf(b.state), life.c.unix);
    var odo := if b.odometer.Some? then b.odometer.value else 0;
    var counter := Apply(Prepared(LeftCounter(s, life, dist), life.c, b), life.c, Recover(b.state));
    var booting := AppState(counter, Recorders.IDLE, life.db, s.events, odo, b.odometer.Some?, ModeOf(b.state), false);
    var t := Recorded(booting,
                      Recorders.RecoverPlan(Recorders.IDLE, life.db, life.found, ModeOf(b.state), life.c.unix));
    assert s.events + [] == s.events;
    StartedIsSilent(t, life.c, b.id, b.profile, b.startOk, dist);
  }

  // The lock is heard, knows a reading, and finds a ride of `distance` long enough and
  // its points writable.
  predicate Announces(s: AppState, life: Life, distance: int) {
    && life.Event? && life.at.input.VehicleState? && ModeOf(life.at.input.state) == Over
    && life.at.input.publishOk && (s.odoKnown || life.at.input.engine.Some?)
    && distance >= Recorders.MIN_TRIP_DISTANCE && (s.rec.buffer == [] || life.at.input.insertOk)
  }

  function Announcement(t: Trip, distance: int, now: int): Recorders.Event {
    Recorders.TripCompleted(t.id, t.profile, distance, t.durationS + Elapsed(t, now))
  }

  // The step announces the ride, with this distance, exactly in that case.
  predicate Tells(s: AppState, life: Life, distance: int, dist: Recorders.Metric)
    requires s.rec.current.Some?
  {
    Next(s, life, dist).events == s.events +
      if Announces(s, life, distance) then [Announcement(s.rec.current.value, distance, life.at.clock.unix)] else []
  }

  // What ending the trip of the noted state t announces.
  lemma EndTells(t: AppState, now: int, insertOk: bool, distance: int, used: set<string>)
    requires Recordable(t, used) && t.rec.current.Some? && t.rec.current.value.startOdometer >= 0
    requires if t.odoKnown then t.lastOdo - t.rec.current.value.startOdometer == distance else t.lastOdo == 0
    ensures
      var told := t.odoKnown && distance >= Recorders.MIN_TRIP_DISTANCE && (t.rec.buffer == [] || insertOk);
      Recorded(t, Recorders.EndPlan(t.rec, t.db, t.lastOdo, now, insertOk)).events ==
        t.events + if told then [Announcement(t.rec.current.value, distance, now)] else []
  {
    RideRuns.EndEvents(t.rec, t.db, t.lastOdo, now, insertOk, used);
  }

  lemma LockTells(s: AppState, life: Life, distance: int, used: set<string>, dist: Recorders.Metric)
    requires Lockstep(s, used) && s.rec.current.Some? && s.rec.current.value.startOdometer >= 0
    requires life.Event? && Possible(life.at.clock, life.at.input, used)
    requires life.at.input.VehicleState? && ModeOf(life.at.input.state) == Over
    requires
      var t := Noted(s, life.at.clock, life.at.input.state, life.at.input.engine);
      var r := t.counter.row;
      r.lastOdometer.Some? && r.lastOdometer.value - s.rec.current.value.startOdometer == distance
    ensures Tells(s, life, distance, dist)
  {
    var i, c := life.at.input, life.at.clock;
    assert s.events + [] == s.events;
    NotedKeeps(s, c, i.state, i.engine, used);
    LockIsEnd(s, c, i, dist);
    if i.publishOk {
      EndTells(Noted(s, c, i.state, i.engine), c.unix, i.insertOk, distance, used);
    }
  }

  // The odometer having moved by `distance` from the ride's start after the event.
  lemma EventTells(s: AppState, life: Life, distance: int, used: set<string>, dist: Recorders.Metric)
    requires Lockstep(s, used) && s.rec.current.Some? && s.rec.current.value.startOdometer >= 0
    requires life.Event? && Possible(life.at.clock, life.at.input, used)
    requires
      var r := Next(s, life, dist).counter.row;
      r.lastOdometer.Some? && r.lastOdometer.value - s.rec.current.value.startOdometer == distance
    ensures Tells(s, life, distance, dist)
  {
    assert s.events + [] == s.events;
    if life.at.input.VehicleState? && ModeOf(life.at.input.state) == Over {
      VehicleCounter(s, life.at.clock, life.at.input, dist);
      LockTells(s, life, distance, used, dist);
    } else {
      QuietEvents(s, life.at.clock, life.at.input, used, dist);
    }
  }

  function Distance(l: Ledger): int { l.credit + l.idle - l.rollback }

  lemma LedgerTells(s: AppState, life: Life, start: int, l: Ledger, used: set<string>, dist: Recorders.Metric)
    requires Lockstep(s, used) && Balances(s.counter.row, start, l) && start >= 0
    requires life.Event? ==> Possible(life.at.clock, life.at.input, used)
    requires s.rec.current.Some? && s.rec.current.value.startOdometer == start
    ensures Tells(s, life, Distance(PostedLife(l, s, life, dist)), dist)
  {
    if life.Death? {
      DeathIsSilent(s, life, dist);
      assert s.events + [] == s.events;
    } else {
      LifeBalances(s, life, start, l, used, dist);
      EventTells(s, life, Distance(PostedLife(l, s, life, dist)), used, dist);
    }
  }

  // Whatever deaths and restarts a ride went through, a step announces it if and only
  // if it is a lock that is heard and knows a reading, the odometer has moved by at
  // least 100 m, and the waiting points can be written; then with the ledger's
  // distance.  A death announces nothing, whatever it leaves of the row.
  lemma LifeAnnounces(s: AppState, lives: seq<Life>, last: Life, used: set<string>, dist: Recorders.Metric)
    requires Lockstep(s, used) && Endures(s, lives, used, dist) && s.odoKnown && s.lastOdo >= 0
    requires s.rec.current.Some? && s.rec.current.value.startOdometer == s.lastOdo
    requires last.Event? ==> Possible(last.at.clock, last.at.input, UsedThrough(lives, used))
    ensures
      var before := Lived(s, lives, dist);
      && before.rec.current.value.id == s.rec.current.value.id
      && Tells(before, last, Distance(PostedLife(LifeLedgerOf(s, lives, dist), before, last, dist)), dist)
  {
    LedgerSurvives(s, lives, used, dist);
    LedgerTells(Lived(s, lives, dist), last, s.lastOdo, LifeLedgerOf(s, lives, dist), UsedThrough(lives, used), dist);
  }

  lemma AbandonedRow(counter: State, events: seq<Recorders.Event>, life: Life, used: set<string>,
                     dist: Recorders.Metric)
    requires life.Death? && life.found.Some? && ModeOf(life.b.state) == Over
    requires Keyed(life.db.trips) && RideRuns.OneOpen(life.db) && Recorders.Found(life.db, life.found)
    ensures
      var t := Booted(counter, life.db, events, life.found, life.c, life.b, dist);
      && t.rec.current.None? && life.found.value.id in t.db.trips
      && t.db.trips[life.found.value.id].status == Abandoned
  {
    RideRuns.RecoverInStep(life.db, life.found, Over, life.c.unix, used);
    RideRuns.RecoverWrites(life.db, life.found.value, Over, life.c.unix, used);
  }

  // So a restart over a locked vehicle ends the ride it finds without a word, however
  // far it went: its row is abandoned.
  lemma RestartAbandons(s: AppState, life: Life, used: set<string>, dist: Recorders.Metric)
    requires Lockstep(s, used) && life.Death? && CanHappen(s, life, used) && s.rec.current.Some?
    requires ModeOf(life.b.state) == Over
    ensures
      var t, id := Next(s, life, dist), s.rec.current.value.id;
      && t.rec.current.None? && t.events == s.events
      && id in t.db.trips && t.db.trips[id].status == Abandoned
  {
    var id := s.rec.current.value.id;
    assert IsOpen(life.db, id);
    DeathIsSilent(s, life, dist);
    assert life.found.Some? && IsOpen(life.db, life.found.value.id);
    AbandonedRow(LeftCounter(s, life, dist), s.events, life, used, dist);
  }
}
