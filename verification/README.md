# Trip service: a verified model

The trip service of a scooter records rides, keeps a resettable trip counter and
estimates battery energy by operating phase.  It must do so through crashes,
clock changes, failing writes and concurrent events.  This project models the
ledgers that carry those promises and proves what they keep over whole runs.

Check everything with `dafny verify dfyconfig.toml`.

## Parts

| file | models |
|---|---|
| `Timeline.dfy` | the bounded list of phase changes and the phase with the largest share of an interval |
| `Accounting.dfy` | battery samples, baseline chains, the accountant object |
| `PackEnergy.dfy` | the accounts told by the battery hashes alone |
| `EnergyRuns.dfy`, `Attribution.dfy`, `Overlaps.dfy` | conservation, telescoping, the energy bound, the settled past, how often an instant is charged, over any run |
| `EnergyService.dfy` | the save-and-publish loop with failed saves, crashes and restarts |
| `CounterModel.dfy`, `Counter.dfy` | the trip counter as functions on its row, and as the object that mutates it |
| `CounterRuns.dfy`, `CounterPolicies.dfy` | checkpoints, crash recovery, reset policies, over any run |
| `Commands.dfy` | the table that makes reset commands idempotent |
| `Trips.dfy`, `Recorder.dfy` | the trips and points tables as atomic statements, and the recorder object |
| `RideRuns.dfy` | rides over whole lives of the service, with a crash between any two statements |
| `Capture.dfy`, `TopSpeed.dfy` | which GPS points are captured, against the documented capture interval, and the maximum speed |
| `App.dfy`, `AppObject.dfy`, `AppRuns.dfy` | the event handlers and startup, driving counter and recorder from the same events |
| `Settings.dfy`, `Positions.dfy` | the settings in force, and what becomes of a position |
| `Durable.dfy` | what a death can cost |
| `Served.dfy`, `Overruns.dfy` | when a ready vehicle's ride is recorded, when a pending start is stale, when a stopped vehicle's trip is still timed |
| `RideLedger.dfy`, `LifeLedger.dfy` | one ride as both machines measure it, within a process and across restarts |
| `History.dfy`, `PointPages.dfy` | cursor paging while trips complete and disappear |
| `Sorting.dfy`, `Retention.dfy` | ordered selection, and bounded oldest-first deletion repeated to its end |
| `PolicyText.dfy` | the text of retention policies and its duration lexer |
| `Vacuum.dfy` | admission and cancellation of the database rewrite, over all interleavings |

An object that the program updates in place is a class here.  Each of its methods
is proved against a function of the old state, and the theorems are about runs of
those functions.  A crash is a prefix of the SQL statements an operation would
have executed.

## Units

- The energy model counts time in integer nanoseconds and energy in 1/2000 mWh,
  so `delta * (v1 + v2)` is exact.  The 200 A limit `|delta| <= 200000 h + 2`
  becomes `18 * |delta| <= dt + 36` with `dt` in milliseconds, without division.
- The counter, the recorder and retention count whole Unix seconds; a local date
  is a day number.  A vehicle timestamp that does not parse is `None`.
- Byte order on ids is SQLite's order of TEXT columns.

## Findings

Each is a property one would expect that the program does not have, with an input
that shows it and the condition under which it holds.

- *A lock ends the ride.*  It does exactly when the counter could be published and
  the ride is too short or its points can be written (`RideLedger.LockEndsExactly`);
  `Overruns.UnheardLockKeepsRide` is a lock that does not.
- *A ride of 100 m or more is announced.*  Over a whole life, with any deaths and
  restarts, it is announced if and only if it ends with a lock whose counter is
  published, at which a reading is known, the odometer has moved by at least 100 m and
  the waiting points can be written (`LifeLedger.LifeAnnounces`).  So it is lost
  - when no reading is known: the handler's odometer is the initial 0, and the ride is
    deleted however far it went (`RideLedger.LockWithoutOdometer`); a restart over a
    paused ride while the engine ECU is silent leads there
    (`RideLedger.RestartThenLock`, `RideLedger.LongRideIsLost`);
  - when the service restarts over a locked vehicle: the ride is abandoned
    (`LifeLedger.RestartAbandons`);
  - when the service dies in the lock's handler before the publication.
- *A ready vehicle's ride is recorded or about to be.*  The handler returns before it
  tells the recorder if the counter cannot be published.  While the vehicle does not
  stop, the property holds if and only if it held before or a ready state was published
  since (`Served.ServedExactly`); `Served.UnheardRideIsNotServed` is the failing run.
- *A stopped vehicle's trip is not timed.*  From a stop until the vehicle is ready again
  the trip is timed if and only if it was and no stop since was both published and able
  to write the waiting points, or a lock of a too-short ride
  (`Overruns.OverrunsExactly`).  Meanwhile every tick counts the pause
  (`Overruns.OverrunIsCounted`, `Overruns.OverrunIsReached`).
- *A start is pending only while no trip is open.*  A published ready state that
  succeeds in starting the pending trip leaves it pending, harmlessly
  (`Served.StaleExactly`, `Served.StaleIsReached`).
- *The timeline keeps one entry for each observation of the window, and one.*  A new
  timestamp on an unchanged state marks a missed excursion and costs two entries.  The
  bound holds without excursions (`Attribution.KeptListPerTick`); with them one entry
  for each is to be added (`Attribution.KeptListBounded`), and that is reached
  (`Attribution.ExcursionsCostTwo`).
- *Checkpoints are invisible.*  In a process whose clocks never again read earlier than
  the checkpoint's, in whatever order, one is never seen if and only if it neither
  starts the timing of an active counter nor moves its start back
  (`CounterRuns.CheckpointInvisibleExactly`).  With clocks that may read earlier, and
  crashes, it is never seen if and only if the counter is not active, the clock cannot
  be trusted, or the interval began at that very second
  (`CounterRuns.CheckpointNeverSeenExactly`).  It is seen when the vehicle became ready
  before the clock was set (`CounterRuns.CheckpointVisibleAfterClockSet`), when the clock
  stepped back before it (`CounterRuns.CheckpointVisibleAfterClockBack`), and when the
  clock steps back after it (`CounterRuns.CheckpointVisibleAfterLaterClockBack`); and
  after a restart, which is what it is for (`CounterRuns.RecoveryAddsNoTime`).
- *No instant of a slot is charged twice.*  It is exactly when two chains of the slot
  cross, one being opened by a sample older than the other's latest and extended beyond
  the other's first: in a process (`Overlaps.ChargedTwiceExactly`) and in the durable
  totals across failed reads, failed saves and crashes
  (`Overlaps.DurableChargedTwiceExactly`); `Overlaps.OlderSampleOverlaps` is such a run.
- *A completed ride's maximum speed is that of its fastest point.*  It is that of the
  points taken since the last restart, which starts again from 0
  (`TopSpeed.RestartForgets`), so the property holds if and only if no earlier point is
  faster (`TopSpeed.CompletedTopSpeed`).
- *Points are captured at intervals that depend on speed, turns at once* (README.md:17 and
  22-33).  The recorder looks at places alone (`Capture.CaptureIgnoresTime`,
  `Capture.CaptureIsFilter`), so captures keep the documented interval whatever the
  timing if and only if no two neighbours among them go without a turn, a change of
  speed or a crawl below 5 km/h (`Capture.AdaptiveExactly`); `Capture.SameInstantCaptured` is a case of two.

## Model

| member | source | states |
|---|---|---|
| Timeline.PhaseTimeline.Append | internal/energy/phases.go:16-28 | overwriting or extending the kept list does to the full history what it would do had nothing been pruned |
| Timeline.AppendMeaning | internal/energy/phases.go:16-28 | an appended change gives the phase from its instant on and alters no earlier instant |
| Timeline.PhaseTimeline.Note | internal/energy/phases.go:31-54 | transition placement on the kept list equals placement on the unpruned history |
| Timeline.PhaseTimeline.Prune | internal/energy/phases.go:56-65 | the shift in place loses nothing but entries superseded at the cutoff and keeps at most one entry not after it |
| Timeline.PhaseTimeline.Observe | internal/energy/phases.go:30-66 | one observation keeps the timeline sound and refines the unpruned record |
| Timeline.ObservedMeaning | internal/energy/phases.go:30-55 | the phase at every instant after an observation: the past is untouched, the old state is carried to the change, a missed excursion is unassigned |
| Timeline.ChangesPlaced | internal/energy/phases.go:30-55 | where a change is placed: at the vehicle's own time of it if that lies between the previous observation and now, else at now; at first not before the accounts were opened |
| Timeline.PhasesNamed | internal/energy/accounting.go:61-72 | the vehicle states of each operating phase |
| Timeline.RecordedSound | internal/energy/phases.go:30-55 | the history stays strictly increasing, ends no later than the observation and in the state's phase |
| Timeline.PhaseTimeline.Durations | internal/energy/phases.go:72-85 | the accumulation loop gives each phase exactly the number of instants of the interval it held |
| Timeline.PhaseTimeline.Largest | internal/energy/phases.go:86-97 | for every order of the map the result is the unique strict maximum, or unassigned when there is none |
| Timeline.PhaseTimeline.LargestShare | internal/energy/phases.go:68-98 | reading only the kept list, the phase with strictly the most instants of the full history |
| Timeline.TailDominates | internal/energy/phases.go:56-65 | pruning never changes the winner of an interval that starts at or after the cutoff |
| Timeline.OccupancyTotal | internal/energy/phases.go:72-85 | the durations of an interval sum to its length |
| Timeline.WinnerDominates | internal/energy/phases.go:86-97 | the winner over exact durations is the dominant phase |
| Accounting.Accountant.BreakSlot | internal/energy/accounting.go:94-99 | a live slot is emptied and counted as one gap, an empty one is left |
| Accounting.Accountant.Break | internal/energy/accounting.go:101-105 | both slots are cut and nothing else changes |
| Accounting.Accountant.OnPack | internal/energy/accounting.go:130-166 | gates, jump limit and bucket of one sample follow the value model judged against the never-pruned history |
| Accounting.Accountant.ReadPacks | internal/energy/accounting.go:119-167 | the loop over the packs applies the slot events in order and counts present and usable packs; what they are worth is in PackEnergy |
| Accounting.Accountant.Observe | internal/energy/accounting.go:109-175 | one observation, with clock-backward reset and duplicate serials, is the step the run theorems speak of, and the status is right |
| PackEnergy.SampleExactly | internal/energy/accounting.go:74-92 | a hash is read if and only if it is that of an active, identified battery with a fresh sample in range, and then field by field as it stands |
| PackEnergy.NetFollowsPacks | internal/energy/accounting.go:109-175 | over any run the net is the sum over successive readings of a slot of capacity before less after, times the sum of the voltages, and each slot holds the reading it goes on from |
| PackEnergy.DrawnRaisesNet | internal/energy/accounting.go:140-165 | one more reading raises the net by that amount, and if and only if capacity was drawn |
| PackEnergy.StatusExactly | internal/energy/accounting.go:168-175 | waiting while nothing can be read, collecting while every battery that is awake can be, partial in between |
| EnergyRuns.RunExplained | internal/energy/accounting.go:109-175 | the slot events of a run account for every change of totals and slots |
| EnergyRuns.Conservation | internal/energy/accounting.go:153-165 | each bucket and the net change by exactly the energy accepted into them, intervals and gaps by what was accepted and cut |
| EnergyRuns.RunCoherent | internal/energy/accounting.go:124-166 | every event of a run fits the slot it found: extensions continue the same pack plausibly and in range |
| EnergyRuns.ChainsBalance | internal/energy/accounting.go:94-105 | chains opened and live at the start equal gaps added and live at the end |
| EnergyRuns.Telescoping | internal/energy/accounting.go:143-166 | within an unbroken chain capacity changes sum to first minus latest, and lengths to latest minus first |
| EnergyRuns.EnergyBound | internal/energy/accounting.go:145-153 | 18 times the change of the net is at most 130000 times the accepted time and allowance |
| Attribution.VerdictsStand | internal/energy/phases.go:30-55 | every accepted interval stays in the bucket that the history, read at any later time, gives it |
| Attribution.TotalsMatchHistory | internal/energy/accounting.go:153-165 | the totals of a steady run are what counting instants of the complete history afterwards yields |
| Attribution.FrozenPast | internal/energy/phases.go:45-54 | no observation of a run changes the phase of an instant before the run |
| Attribution.NoDoubleCharge | internal/energy/accounting.go:140-152 | while a battery's sample times never go back, accepted intervals of a slot do not overlap, whatever breaks the chain |
| Overlaps.ChargedAsSpanned | internal/energy/accounting.go:140-152 | continuing books that charge as their chains span, a coherent trail charges every instant of a slot as often as chains span it from first to latest sample |
| Overlaps.ChargedTwiceExactly | internal/energy/accounting.go:140-152 | an instant is charged twice in a run if and only if two chains of the slot cross |
| Overlaps.AdvancingChargesOnce | internal/energy/accounting.go:140-152 | none is while the sample times of the slot never go back |
| Overlaps.DurableChargedTwiceExactly | internal/energy/service.go:84-132 | over any failed reads, failed saves, crashes and restarts the durable totals charge an instant twice if and only if two of their chains cross |
| Overlaps.OlderSampleOverlaps | internal/energy/accounting.go:148-152 | samples of 20, 80, 50 and 100 s, polled a second apart, charge second 60 twice |
| Attribution.KeptListShort | internal/energy/phases.go:56-65 | the kept list has at most one entry more than the growth of the observations of the last 210 s |
| Attribution.KeptListBounded | internal/energy/phases.go:45-65 | over any run the kept list has at most one entry, one for each observation and one for each missed excursion of the last 210 s |
| Attribution.KeptListPerTick | internal/energy/phases.go:45-65 | without missed excursions in the window the kept list has at most one entry for each observation of the last 210 s, and one |
| Attribution.ExcursionsCostTwo | internal/energy/service.go:98 | polls a second apart that find an unchanged state newly stamped leave two entries each and reach that bound |
| EnergyService.PublishedNeverAhead | internal/energy/service.go:115-132 | after any saves, failures and crashes, published totals stand for a prefix of what a restart loads |
| EnergyService.PublishedNeverDecreases | internal/energy/service.go:84-132 | published interval counts never fall, across restarts |
| EnergyService.RoundPublishes | internal/energy/service.go:99-132 | a poll, a stored save and a successful publication show the totals in memory |
| EnergyService.PublishesSaved | internal/energy/service.go:115-132 | what is shown changes only by a successful publication, to what was saved last |
| EnergyService.BootLoads | internal/energy/service.go:84-97 | a start goes on from the totals on disk with one more gap, or leaves the service down |
| EnergyService.DurableNeverDoubleCounts | internal/energy/service.go:31-63 | while a battery's sample times never go back, the durable totals contain no stretch of a slot's time twice, across crashes, failed saves and restarts |
| CounterModel.ApplyConsistent | internal/counter/counter.go:113-285 | every operation keeps: active implies an open session, a timed interval implies active and a trusted start |
| CounterObject.Counter.constructor | internal/counter/counter.go:42-50 | hydration takes the stored row or creates the first one |
| CounterObject.Counter.ObserveOdometer | internal/counter/counter.go:129-136 | forward movement while active is credited, a rollback only moves the baseline |
| CounterObject.Counter.ResetLocked | internal/counter/counter.go:263-276 | a reset zeroes the counter, counts a generation and restarts the timing of an active counter |
| CounterObject.Counter.ShouldResetRide | internal/counter/counter.go:245-262 | when a new session resets, and when the first trusted ready only anchors the day |
| CounterObject.Counter.StartReady | internal/counter/counter.go:195-206 | a ready start opens a session at most once and begins the interval |
| CounterObject.Counter.OnOdometer | internal/counter/counter.go:113-127 | the whole row after an odometer reading |
| CounterObject.Counter.OnVehicleState | internal/counter/counter.go:170-190 | the whole row after a vehicle state with its terminal odometer |
| CounterObject.Counter.RecoverVehicleState | internal/counter/counter.go:140-163 | the whole row after recovery, the unobserved interval discarded |
| CounterObject.Counter.OnCheckpoint | internal/counter/counter.go:209-222 | the whole row after a checkpoint |
| CounterObject.Counter.OnPolicy | internal/counter/counter.go:57-74 | the whole row after a policy change, with the day anchor |
| CounterObject.Counter.ConfigureDualBattery | internal/counter/counter.go:75-82 | only the dual-battery flag and the update time change |
| CounterObject.Counter.OnBattery | internal/counter/counter.go:91-112 | the whole row after a battery report, seeding or not |
| CounterObject.Counter.ManualReset | internal/counter/counter.go:223-244 | the row and the command table after a reset command, replayed or new, and its answer |
| CounterModel.AverageIsNearest | internal/counter/counter.go:293-296 | the average shown is the whole number of km/h nearest to the true one |
| CounterRuns.CheckpointsInvisible | internal/counter/counter.go:209-222 | under a steady trusted clock two runs that differ only in their checkpoints show the same snapshot ever after |
| CounterRuns.CheckpointInvisibleExactly | internal/counter/counter.go:209-222 | no later reading of one process, its clocks never again behind the checkpoint's but in any order, shows the checkpoint, if and only if it neither starts the timing of an active counter nor moves its start back |
| CounterRuns.CheckpointNeverSeenExactly | internal/counter/counter.go:209-222 | nothing that may follow, whatever its clocks and with crashes, shows the checkpoint, if and only if the counter is not active, the clock cannot be trusted or the interval began at that second |
| CounterRuns.CheckpointUnseenAt | internal/counter/counter.go:209-222 | for a single reading at any time, before or after the checkpoint, when it shows nothing of it |
| CounterRuns.CheckpointVisibleAfterClockSet | internal/counter/counter.go:214-219 | such a run: ready before the clock is set, then a checkpoint shows 60 s instead of none |
| CounterRuns.CheckpointVisibleAfterClockBack | internal/counter/counter.go:214-219 | another: the clock steps back 40 s, and a checkpoint shows 60 s instead of 20 |
| CounterRuns.CheckpointVisibleAfterLaterClockBack | internal/counter/counter.go:214-219 | a third: the clock steps back after the checkpoint, and 60 s are shown ever after instead of 20 |
| CounterRuns.CounterIsMeter | internal/counter/counter.go:129-301 | in one process under a trusted clock the counter shows exactly the ready time and forward movement since its last reset, as an independent meter counts them |
| CounterRuns.RecoveryAddsNoTime | internal/counter/counter.go:140-163 | after a crash anywhere, any failed startups and any outage, exactly the durable duration and only the forward movement of an active counter; reset if and only if the recovery opens a session that is due |
| CounterPolicies.SessionIsRide | internal/counter/counter.go:170-206 | the session flag is the ride from ready to lock, through pauses and crashes |
| CounterPolicies.RidePolicyResets | internal/counter/counter.go:195-262 | the ride policy resets exactly once for each ride, the manual policy never |
| CounterPolicies.DayPolicyResets | internal/counter/counter.go:245-276 | the day policy resets at most once a day, on rising days, only as a ride begins, and misses no later day |
| CounterPolicies.DayPolicyChosen | internal/counter/counter.go:66-71 | choosing the day policy changes nothing shown, and no later run resets before a later day |
| CounterPolicies.BatteryPolicyResets | internal/counter/counter.go:91-112 | the battery policy resets exactly when another pack is found in a slot than before |
| CounterPolicies.ResetsExplained | internal/counter/counter.go:263-276 | every operation resets the counter to zero, giving time and cause, or leaves the account of the last reset |
| CounterPolicies.CommandAnswers | internal/db/counter.go:94-133 | a new command is answered ok if and only if it reset the counter, busy if and only if the counter was active and is unchanged; a replay changes nothing |
| CounterPolicies.TimingStarts | internal/counter/counter.go:113-127 | an untimed active counter is timed from the next checkpoint, reading or reset under a trusted clock |
| CounterPolicies.FirstShown | internal/counter/counter.go:42-50 | a counter never used shows nothing under the ride policy |
| Settings.RunSettings | internal/counter/counter.go:57-82 | over any run with crashes the policy and the number of batteries in force are those last set |
| Settings.BootSets | internal/app/app.go:96-122 | startup applies the settings it reads over those stored |
| Settings.AppSettings | internal/app/app.go:378-414 | over any run of the handlers the settings in force are those last asked for |
| Commands.ReplayIsStable | internal/db/counter.go:94-133 | a recorded command is answered as it first was, busy included, and changes nothing |
| Commands.TableBounded | internal/db/counter.go:135-144 | pruning leaves at most 10001 rows and always the row just recorded |
| Commands.IssuedBounded | internal/db/counter.go:94-144 | no command makes the table exceed 10001 rows |
| Commands.RecordsExpire | internal/db/counter.go:135-144 | after a new command no other record is older than 30 days, and only such a record, or one behind 10000 newer ones, is gone |
| Commands.RecordLasts | internal/db/counter.go:135-144 | with an advancing clock a record survives the next 9999 new commands of 30 days and any number of replays |
| Trips.TripStore.CreateTrip | internal/db/trips.go:38-47 | inserts a recording row with the given baseline, or fails on a taken id |
| Trips.TripStore.PauseTrip | internal/db/trips.go:51-57 | closes the running interval of an open row |
| Trips.TripStore.DiscardActiveTripInterval | internal/db/trips.go:61-66 | drops the running interval of an open row without counting it |
| Trips.TripStore.ResumeTrip | internal/db/trips.go:70-76 | opens an interval of an open row that has none |
| Trips.TripStore.CheckpointTrip | internal/db/trips.go:79-85 | counts the interval so far and keeps it running |
| Trips.TripStore.CompleteTripAt | internal/db/trips.go:91-114 | executes exactly the two statements of a completion |
| Trips.TripStore.AbandonTrip | internal/db/trips.go:116-122 | marks a row abandoned |
| Trips.TripStore.DeleteTrip | internal/db/trips.go:126-132 | removes a row and cascades to its points |
| Trips.PointsWithout | internal/db/db.go:84-88 | the cascade removes all points of that trip and of no other |
| Trips.TripStore.AddPoints | internal/db/points.go:19-46 | stores the points in order, in one transaction |
| Trips.TripStore.GetRecordingTrip | internal/db/trips.go:160-169 | an open row, if there is one |
| Recorders.Recorder.StartTrip | internal/recorder/recorder.go:56-69 | follows the start plan; succeeds unless the id is taken or the insert fails |
| Recorders.Recorder.PauseTrip | internal/recorder/recorder.go:72-91 | follows the pause plan: buffer first, then the interval, or nothing at all |
| Recorders.Recorder.ResumeTrip | internal/recorder/recorder.go:93-106 | follows the resume plan |
| Recorders.Recorder.OnCheckpoint | internal/recorder/recorder.go:108-119 | follows the checkpoint plan |
| Recorders.Recorder.EndTrip | internal/recorder/recorder.go:121-168 | follows the end plan: discard below the floor, else write, complete and announce |
| Recorders.Recorder.AddPoint | internal/recorder/recorder.go:170-197 | follows the point plan: distance filter, buffer, flush at ten |
| Recorders.Recorder.FlushPoints | internal/recorder/recorder.go:199-207 | follows the flush plan |
| Recorders.Recorder.RecoverFromState | internal/recorder/recorder.go:211-250 | follows the recovery plan for the open row found, if any |
| RideRuns.PrefixSafe | internal/db/trips.go:91-114 | every prefix of an operation's statements leaves the tables safe |
| RideRuns.RideSafety | internal/recorder/recorder.go:56-250 | over every life with crashes: one open row, the process's trip is that row, one announcement per trip, each genuine and of at least 100 m |
| RideRuns.EndAnnounces | internal/recorder/recorder.go:121-168 | an ending ride is announced if and only if it reached the floor and its points could be written |
| RideRuns.PointsConserved | internal/recorder/recorder.go:170-207 | stored points and buffer are the accepted points in order whatever inserts fail; consecutive points of one ready interval are 5 m apart; while inserts succeed fewer than ten wait |
| RideRuns.EndedRidePoints | internal/recorder/recorder.go:121-168 | a completed ride keeps every accepted point, a discarded one none |
| TopSpeed.CompletedTopSpeed | internal/recorder/recorder.go:170-197 | a completed ride's maximum speed is the fastest of the points taken since it was started or last taken up, and that of all its points if and only if no earlier one is faster |
| TopSpeed.RestartForgets | internal/recorder/recorder.go:211-250 | a restart starts the maximum speed again from 0 |
| Capture.CaptureIgnoresTime | internal/recorder/recorder.go:170-197 | neither the times of the offered points nor failing inserts change which are captured |
| Capture.CaptureIsFilter | internal/recorder/adaptive.go:35-41 | the next point is captured if and only if it is 5 m or more from the last one captured |
| Capture.AdaptiveExactly | internal/recorder/adaptive.go:22-56 | captures keep the documented interval for every timing if and only if every neighbour among them turns, changes speed or crawls below 5 km/h |
| Capture.SameInstantCaptured | internal/recorder/recorder.go:176-179 | two points of one instant at 30 km/h are both captured |
| RideRuns.RestartCountsNoOutage | internal/recorder/recorder.go:211-250 | a ride taken up after a crash has its durable duration and nothing of the outage |
| AppObject.App.StartNewTrip | internal/app/app.go:489-503 | starts at the known odometer, or reports failure without one or when the row cannot be inserted |
| AppObject.App.HandleVehicleState | internal/app/app.go:247-306 | the state of both machines and all handler fields after a vehicle state, the recorder untouched when the counter cannot be published |
| AppObject.App.HandleOdometer | internal/app/app.go:338-360 | ... after an odometer update, with the pending start |
| AppObject.App.HandleGps | internal/app/app.go:361-370 | ... after a position |
| AppObject.App.OnTick | internal/app/app.go:165-182 | ... after the periodic flush and checkpoints |
| AppObject.App.Startup | internal/app/app.go:85-191 | ... after startup, in the program's order |
| Prelude.ModesNamed | internal/app/app.go:277-304 | the vehicle states that are ready, those that pause a ride; all others end it |
| AppRuns.CounterHears | internal/app/app.go:165-425 | each event makes the counter perform exactly one operation, or none |
| Positions.PositionRecorded | internal/app/app.go:361-370 | a position is recorded, with the last odometer reading, if and only if the ride is timed, the speed is 5 km/h or more and the place 5 m or more from the last; otherwise nothing changes |
| Positions.OdometerIsLastRead | internal/app/app.go:256-345 | over any run that reading is the last update that was not negative or live reading at a stop |
| Positions.IntervalForgetsPlace | internal/recorder/recorder.go:93-106 | a ready state that resumes the trip forgets the last place, so the next moving position is taken wherever it is |
| Durable.TickStoresCounter | internal/app/app.go:165-182 | after a tick the durable duration is what the counter showed |
| Durable.TickStoresTrip | internal/app/app.go:165-182 | and that of the open trip's row what the trip showed |
| Durable.CounterLosesLittle | internal/counter/counter.go:140-222 | over any run, a death and any outage, startup shows what was shown at the death less at most the time since the last tick, unless a session opens that is due for a reset |
| Durable.TripLosesLittle | internal/recorder/recorder.go:108-119 | the same of the open trip that a restart takes up |
| Durable.TickStoresPoints | internal/recorder/recorder.go:199-207 | a tick that can write leaves no point of the ride in memory only |
| Durable.PointsLoseLittle | internal/recorder/recorder.go:199-207 | over any run no more points wait than there were positions since the last such tick |
| AppRuns.HandleKeeps | internal/app/app.go:238-370 | every handler keeps the two machines in lockstep, whatever inserts and publications fail |
| AppRuns.BootLocksteps | internal/app/app.go:85-191 | startup establishes lockstep whatever a crash left |
| AppRuns.BootAddsNoTime | internal/app/app.go:85-136 | startup order leaves the durable duration and credits only the odometer advance of an active counter |
| AppRuns.RunLockstep | internal/app/app.go:238-370 | over every run: active if and only if ready; the trip held is the one open row; a start is pending only while ready and beside no trip that is not being collected; one odometer baseline, 0 while none is known |
| Served.EventServed | internal/app/app.go:274-294 | an event that does not stop the ride leaves it recorded or about to be if and only if it was, or the event is a published ready state |
| Served.ServedExactly | internal/app/app.go:238-370 | the same over any run in which the vehicle does not stop |
| Served.PublishedRunServes | internal/app/app.go:238-370 | if every vehicle state is published, ready implies collecting or pending after every event, whatever inserts fail |
| Served.BootServes | internal/app/app.go:127-191 | startup serves a vehicle that is ready |
| Served.UnheardRideIsNotServed | internal/app/app.go:274-276 | a ready state whose counter cannot be published leaves an active counter and a ride that no reading, position or tick starts |
| Served.StaleExactly | internal/app/app.go:286-289 | when a start is still pending beside an open trip, and that the next reading then starts no other |
| Served.StaleIsReached | internal/app/app.go:286-289 | a failed insert followed by a repeated ready state leads there |
| Overruns.EventOverruns | internal/app/app.go:247-306 | an event after which the vehicle is not ready leaves its trip timed if and only if it was and the event is no stop that takes effect |
| Overruns.OverrunsExactly | internal/app/app.go:247-306 | the same from a stop over any run until the vehicle is ready again |
| Overruns.StopsWhenWritten | internal/recorder/recorder.go:72-91 | if every stop is published and can write its points no trip is timed while the vehicle is not ready |
| Overruns.BootStops | internal/recorder/recorder.go:211-250 | startup times no trip of a vehicle that is not ready |
| Overruns.OverrunIsCounted | internal/recorder/recorder.go:108-119 | a tick then counts the pause into the trip and not into the counter |
| Overruns.OverrunIsReached | internal/recorder/recorder.go:78-83 | a pause while a waiting point cannot be written, and the next tick counts a minute |
| Overruns.UnheardLockKeepsRide | internal/app/app.go:274-276 | a lock whose counter cannot be published leaves the ride open and timed |
| RideLedger.LedgerHolds | internal/app/app.go:256-271 | while a ride begun at a known odometer is open, odometer minus start is credit plus idle movement minus rollback, and the counter shows exactly the forward movement since its last reset |
| RideLedger.HandlePosts | internal/app/app.go:338-360 | what one event does to the odometer and to the counter's distance |
| RideLedger.HandleTrip | internal/app/app.go:277-304 | an event leaves the open trip the same trip or is a lock that ends it |
| RideLedger.TimesAgree | internal/recorder/recorder.go:72-119 | under a steady clock the trip's time and the counter's differ only by what the counter showed at the start |
| RideLedger.RideBegins | internal/app/app.go:489-503 | a started ride is the one offered, from now at the last reading, aligned with the counter, which under the ride policy starts from zero with it |
| RideLedger.BootBegins | internal/app/app.go:187-191 | startup of a ready vehicle without an open row starts such a trip |
| RideLedger.LockEndsExactly | internal/app/app.go:274-303 | a lock ends the ride if and only if the counter was published and the ride is too short or its points can be written; otherwise the recorder has not moved |
| RideLedger.LockAnnounces | internal/app/app.go:295-303 | a lock that ends the ride announces the odometer advance and the time ridden, or nothing below the floor |
| RideLedger.LockWithoutOdometer | internal/app/app.go:256-303 | a lock while no odometer reading is known discards the ride, whatever its length |
| RideLedger.RestartThenLock | internal/app/app.go:85-142 | startup over a paused ride with a silent ECU, then a lock, discards any ride |
| RideLedger.LongRideIsLost | internal/app/app.go:296-300 | a paused ride of 5 km lost that way |
| RideLedger.RideDistance | internal/db/trips.go:91-114 | if a lock ends the ride the announced distance is the ledger's, whatever inserts and publications failed before, and the counter shows the forward movement since its last reset |
| RideLedger.RideTime | internal/recorder/recorder.go:121-168 | if nothing was reset the announced time is what the counter gained |
| RideLedger.RideMatchesCounter | internal/db/trips.go:91-114 | with no reset, rollback or paused movement the announced distance and time are what the counter gained |
| RideLedger.WholeRide | internal/app/app.go:238-306 | a ride that opens a session under the ride policy announces exactly the distance and time the counter then shows, if nothing was reset, rolled back or moved while paused |
| LifeLedger.EventReads | internal/app/app.go:247-360 | what any event does to the baseline and the distance of the counter's row |
| LifeLedger.BootReads | internal/app/app.go:85-136 | startup is one more posting: the reading it finds, on the row a death left |
| LifeLedger.LedgerSurvives | internal/app/app.go:85-370 | through any number of deaths inside handlers and restarts while the ride stays open, odometer minus start is credit plus idle movement minus rollback, and the counter shows the forward movement since its last reset |
| LifeLedger.LifeAnnounces | internal/app/app.go:85-370 | whatever a ride went through, a step announces it, with the ledger's distance, if and only if it is a published lock with a known reading, at least 100 m and writable points |
| LifeLedger.RestartAbandons | internal/recorder/recorder.go:211-250 | a restart over a locked vehicle abandons the ride it finds, of any length, and announces nothing |
| History.HappenNumbered | internal/db/db.go:142-154 | every statement keeps the numbers distinct and tied to existing trips |
| History.HappenCovered | internal/db/db.go:150-154 | the trigger numbers every trip that completes |
| History.NumbersKept | internal/db/db.go:142-145 | a number once given is never given to another trip |
| History.BackfillCovers | internal/db/db.go:146-149 | migration numbers every completed trip in completion order, after the old numbers, which stay |
| History.ListHistory | internal/db/history.go:90-135 | a page is the first rows below the cursor, with a next cursor if and only if more remain, and the error cases |
| History.NextAccepted | internal/db/history.go:52-65 | an emitted cursor passes the cursor checks and covers strictly less |
| History.WalkSound | internal/db/history.go:114-133 | a walk is strictly descending and holds only matching trips numbered when it began |
| History.WalkComplete | internal/db/history.go:114-133 | a visible trip that nothing removes is on one of the pages |
| History.HistoryWalk | internal/db/history.go:90-135 | with arbitrary changes between pages: newest first, no trip twice, none completed later, none missed unless removed |
| History.QuietWalk | internal/db/history.go:114-133 | with no change between pages the walk is one query cut up |
| History.WalkFiltered | internal/db/history.go:114-133 | a walk for a profile returns completed trips of that profile alone, and every such trip that is not removed |
| History.PageFiltered | internal/db/history.go:114-115 | so does each page, with any cursor |
| History.PageExactly | internal/db/history.go:90-113 | which requests are invalid, and how many rows a page has |
| History.CursorExactly | internal/db/history.go:52-65 | which cursors are refused |
| PointPages.HistoryPoints | internal/db/history.go:164-213 | a page of points, the null row of an empty trip, and the error cases |
| PointPages.NextPage | internal/db/history.go:193-204 | a page and the rows after its marker make up the rest, whatever happened to other trips |
| PointPages.PointsWalk | internal/db/history.go:164-213 | a walk returns exactly the trip's points while other trips are recorded, completed and removed |
| PointPages.WalkIsPrefix | internal/db/history.go:164-213 | if the trip is removed meanwhile the next page is answered not found, and the walk returned an initial part of its points |
| PointPages.RowsAscend | internal/db/history.go:174-176 | those points are all the trip's points above the marker, in ascending id |
| PointPages.PageExactly | internal/db/history.go:164-213 | which requests are invalid or not found, and how many points a page has |
| Sorting.ChainUnique | internal/db/retention.go:296-300 | an ordering clause that is a strict total order determines the listing |
| Sorting.SortedSplit | internal/db/retention.go:296-300 | a limit or offset splits the listing into the listings of the two parts |
| Retention.OrdersRows | internal/db/retention.go:289 | retained time, then id, is a strict total order of the rows |
| Retention.Expunge | internal/db/retention.go:193-270 | refusals, the number deleted, and the tables after one pass |
| Retention.BatchIsOldest | internal/db/retention.go:287-304 | the queries of all policies select an oldest-first prefix of the closed rows, of at most 100 and no more than wanted |
| Retention.BeyondComeFirst | internal/db/retention.go:297-298 | the newest-first offset of the count policy selects exactly the oldest rows beyond it |
| Retention.RemovedLacks | internal/db/retention.go:255-259 | exactly the selected rows and their points disappear |
| Retention.PassesAreOneDeletion | internal/db/retention.go:191-270 | passes, each with its own clock and its own measurement of the database, equal one deletion of the oldest rows, as many as their batches amount to |
| Retention.QuotaGrows | internal/db/retention.go:287-304 | as time passes a policy that measures the same wants no fewer rows gone |
| Retention.ProgressSteady | internal/db/retention.go:287-304 | k passes that want the same number of rows gone remove min(100 k, wanted) of them |
| Retention.PassesKeepTheRest | internal/db/retention.go:191-270 | everything else is as it was, and open rows are never touched |
| Retention.CountPasses | internal/db/retention.go:297-298 | survivors of k count passes are the newest max(min(N, E), E - 100 k), whatever the clock |
| Retention.SizePasses | internal/db/retention.go:207-225 | size passes remove the oldest 100 rows for each pass that finds the database over its limit, and nothing in the others |
| Retention.AgePasses | internal/db/retention.go:291-296 | enough age passes remove every row before the cutoff of the first of them and none at or after that of the last |
| Retention.AgeDaysPasses | internal/db/retention.go:305-319 | enough passes of a policy of whole days remove every closed row more than that many times 86400 s old at the first, with its points, and keep every row no older at the last |
| Retention.AgeNsPasses | internal/db/retention.go:305-313 | the same of an age in nanoseconds, a row being due once the second it ages from has been over that long |
| Retention.OldestGoFirst | internal/db/retention.go:288-304 | no row goes before an older closed one, by end, else start, else creation, then id |
| Retention.RefusedExactly | internal/db/retention.go:193-230 | which passes are refused, and that those change nothing |
| PolicyText.CanonicalUnsigned | internal/db/retention.go:141-154 | the loop accepts exactly the decimals without leading zero |
| PolicyText.CanonicalDecimal | internal/db/retention.go:141-154 | a canonical string is the decimal of its value |
| PolicyText.DecimalCanonical | internal/db/retention.go:141-154 | the decimal of every natural number is canonical and has that value |
| PolicyText.ParseASCIIDuration | internal/db/retention.go:94-139 | the lexer loop terminates and decides as the lexing function, then as the standard parser |
| PolicyText.LexerMeetsGrammar | internal/db/retention.go:103-133 | the lexer accepts a text if and only if it splits into one or more segments of the grammar |
| PolicyText.PrintParses | internal/db/retention.go:30-74 | parsing what is printed gives the policy back |
| PolicyText.ParsePrints | internal/db/retention.go:30-74 | a text that parses to such a policy is its canonical text |
| PolicyText.CountsAccepted | internal/db/retention.go:62-70 | a count is accepted if and only if it is the decimal of a number below 2^63 |
| PolicyText.DaysAreNoDuration | internal/db/retention.go:53-60 | refused days are not read as a duration instead |
| PolicyText.AgeDurations | internal/db/retention.go:53-61 | an age given as a duration is read as exactly the nanoseconds of the standard parser, if and only if the text is of the grammar and they are positive |
| PolicyText.DaysFit | internal/db/retention.go:16 | accepted day counts fit 64-bit nanoseconds and one day more would not |
| PolicyText.ParsedIsServed | internal/db/retention.go:204-206 | a parsed policy is never refused for its value, and a parsed age always has a cutoff |
| Vacuum.HandlerGuards | internal/app/app.go:239-246 | no step of a handler leaves a ready vehicle with an unthreatened running vacuum |
| Vacuum.PassKeeps | internal/app/app.go:605-629 | no step of the maintenance pass breaks mutual exclusion, registration or the guard |
| Vacuum.RunKeeps | internal/app/app.go:605-629 | the protocol invariant holds after every interleaving |
| Vacuum.ReadyCancels | internal/app/app.go:238-246 | while ready, an uncancelled running vacuum has a handler about to cancel it |
| Vacuum.ReadyRunsNoVacuum | internal/app/app.go:238-246 | once no handler is between flag and cancel, every vacuum that runs while ready is cancelled |
| Vacuum.CancelledForReady | internal/app/app.go:605-629 | a running vacuum is cancelled only because the vehicle turned ready during it |
| Vacuum.AdmittedExactly | internal/app/app.go:605-619 | a pass that holds the lock is refused if and only if the vehicle is flagged ready; otherwise its own next steps run the vacuum, registered and uncancelled |
| Vacuum.PassReachesRunning | internal/app/app.go:605-629 | from every reachable state with the flag down and no handler in the lock the pass's own steps lead to a vacuum that runs uncancelled |
| Vacuum.EndsUnregistered | internal/app/app.go:620-629 | a vacuum that ends takes its token back and frees the lock |
| Vacuum.HandlerDoes | internal/app/app.go:238-247 | a handler sets the flag to its own state and, turning ready, cancels the vacuum it finds registered |

## Left out

- Redis clients, watchers, publishers, RPC registration, logging and `main`: events are handler calls, publications a ghost trace.
- 64-bit overflow and floating-point rounding of energy, speeds, distances and coordinates: exact integers and reals instead; the distance between positions is an arbitrary function.
- Parsing of JSON, base64url (section 5 of RFC 4648), hex ids, RFC 3339 times and `time.ParseDuration`: a parsed value is a parameter.
- Cursors as text: the model has the decoded structure, so the 512-byte limit, which heavy escaping of a profile name can exceed, is not modelled.
- Trimming of spaces and case folding of the counter's policy text, serials and command ids.
- Loading and validating `energy.json`, and the file steps of a save: three outcomes of a save instead.
- SQL failures other than failed inserts of points and trips; a save of the counter always succeeds.  In particular a `DELETE` that fails at the end of a too-short ride (internal/recorder/recorder.go:132-136), after which the point buffer is empty although the ride stays open.
- Monotonic clock readings: instants are plain numbers, while the energy loop's `time.Now()` also carries a monotonic reading, which the backward check (internal/energy/accounting.go:110) compares when both values have one.
- Interleaving of the event handlers with each other and with the ticker: a handler runs to its end and reads the clock once.  Only the vacuum protocol is modelled step by step.
- Trip ids are assumed never to be given out twice.
- Byte accounting of the size policy, page reclamation and the SQL engine: whether a pass finds the database over its limit is a parameter of the pass.
- Operands of sub-millisecond durations: they print a unit the parser refuses, so print and parse are inverse only for never, days, counts and sizes.
- Status of retention runs and deferral while recording: single branches.
- Speed averages, maximum speeds in history rows, `ListTrips`, `GetPoints`, `HistoryTrip`, `UpdateTripStats` and column upgrades: no property across operations.
- Attribution.NoDoubleCharge: asks that a battery's sample times never go back; Overlaps.ChargedTwiceExactly is the condition without that.
- CounterRuns.CheckpointsInvisible: asks for a monotone trusted clock; the conditions for one checkpoint without that are in CounterRuns.CheckpointInvisibleExactly and CounterRuns.CheckpointNeverSeenExactly.
- EnergyService.DurableNeverDoubleCounts: asks the same of sample times, across restarts; Overlaps.DurableChargedTwiceExactly is the condition without that.
- CounterRuns.CounterIsMeter: asks for a monotone trusted clock and no restart, because time under an unset clock is not counted and an outage is dropped.
- CounterPolicies.RidePolicyResets: during the run the policy stays the same and nobody resets by hand.
- CounterPolicies.DayPolicyResets: the same.
- CounterPolicies.BatteryPolicyResets: the same.
- Commands.RecordLasts: asks for a clock that advances between commands, because rows of equal time are ordered by id and the newest id may be cut first.
- RideLedger.LedgerHolds: asks for a known odometer at the start, because a ride ended without one is handed the reading 0.
- RideLedger.RideTime: asks for a steady trusted clock and one process in which every insert of points and every publication of a vehicle state succeeds, because a restart drops the unobserved time of both machines at their own last checkpoints, and a vehicle state of which only the counter hears sets the two clocks apart.
- RideLedger.RideMatchesCounter: asks the same for its times; RideLedger.RideDistance does without, and LifeLedger.LedgerSurvives has the distances across restarts.
- LifeLedger.LedgerSurvives: the odometer's baseline is the one in the counter's row; the ride's row is asked to be open after each death, and a startup that itself fails is not one of its steps (CounterRuns.RecoveryAddsNoTime has those for the counter).
- Durable.CounterLosesLittle: asks for a trusted clock that does not go back; the death comes between two events, or after the counter's part of one.
- Durable.TripLosesLittle: the same, and the death comes between two events.
- LifeLedger.LifeAnnounces: a death after the publication but before the handler returns is not told apart from one after the handler.
- Retention.PassesAreOneDeletion: no trip completes between the passes it counts.
- PointPages.WalkIsPrefix: a trip that was removed does not complete again, because ids are not given out twice.
- PointPages.PointsWalk: the points of a completed trip do not change, because the recorder writes only to its open trip.
