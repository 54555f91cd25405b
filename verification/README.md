# Verification of CubeSat C2

This project models the parts of the CubeSat ground segment whose correctness
depends on interleavings, retries and bounded memories, and proves what they
promise.  `dafny verify dfyconfig.toml` checks all of it.

## What is modelled

**The command lifecycle** is a protocol over one shared table of commands.
Any number of schedulers (planning, executing, consuming answers, sweeping for
timeouts), REST operators (create, approve, PATCH, cancel) and satellites take
steps; one step is one SQL statement or transaction, one publication, or one
message delivery.  Wherever the code awaits between two statements the model
lets everybody else move, so a PATCH is two steps, an executor's cycle many.
The bus keeps every message it ever accepted, and delivers it any number of
times, in any order, or never.  A publication that raised may or may not have
reached the bus.  Workers may crash at any point.

* `CommandModel`, `CommandProtocol`, `Satellite`: the table, the steps, the
  satellite with its memory of 1000 answers.
* `CommandRows`, `CommandTallies`: what each statement writes, and what the
  events of a run add up to.
* `CommandSafety`, `CommandStranding`, `CommandBudget`, `CommandSpacing`,
  `CommandPlans`, `CommandTimes`, `CommandDelivery`, `CommandSubmission`: what
  holds in every run.  Each command carries a tally
  (entries into `transmitting`, publish-failure bounces, LOS re-plans, status
  changes, ...) that the claims are about.
* `GroundSegment`, `CommandScheduler`, `CommandApi`, `SatelliteExecutor`,
  `UplinkWindow`: the loops, the endpoints and the satellite's executor as the
  imperative code they are.  `Segment.Await` performs arbitrarily many steps of
  other processes; every statement of the methods is a step of the protocol,
  so the claims about runs apply to them.  The pass schedule, the mode readings
  and the outcomes of publications are arbitrary functions of the position in
  the run.
* `CommandEvidence`: what a stretch of a run shows.  The contracts of the loops
  and endpoints say which branch was taken and why, and the reason is always a
  state or an event of the stretch of the run that the call took.

**Passes** (`PassRuns`, `PassPrediction`, `PassRefresh`): the one-sweep
prediction over many stations, and the incremental refresh of the stored
schedule.  Elevation and azimuth are arbitrary functions of station and time.

**The anomaly detector** (`AnomalyModel`, `AnomalyIsolation`,
`AnomalyHysteresis`, `AnomalyCooldown`, `AnomalyRecurrence`, `AnomalyDetector`):
rolling windows, hysteresis, cooldown and the LRU cap.  The objects are proved to stand for a
function of the readings fed so far, and the properties are proved of that
function.

**Sessions** (`AuthProtocol`, `AuthSafety`, `AuthService`): refresh-token
rotation, token versions, logout, password change and the purge of
revocations, with requests split at their database statements.

**The satellite registry cache** (`SatelliteRegistry`), **FDIR alerts**
(`FdirMonitor`), **Julian dates** (`JulianDate`) and **KISS framing** (`Kiss`).

## Where the obvious claim is false

Each of these has a concrete counterexample in the project, and the exact
condition or bound that does hold.

* *A command is retried at most three times.*  Not when two PATCH requests
  read the same timed-out row before either writes
  (`CommandBudget.TwoPatchesOverspend` reaches four).  The count passes three
  exactly through a PATCH retry written when the retries are already spent
  (`OnlyOutdatedRetriesOverspend`), and never when PATCH is one step
  (`AtomicPatchesKeepTheBudget`).
* *Publications of a command are more than ACK_TIMEOUT_S and the backoff
  apart.*  Not with a second scheduler: its delayed timeout sweep can time the
  new transmission out (`CommandSpacing.SecondSweeperBreaksSpacing` has 4 s),
  and a row it fetched long ago can be claimed, or re-planned as missed, in the
  middle of a backoff (`StaleExecutorBreaksSpacing`).  A step breaks the spacing
  exactly when it is one of those three and comes too early: without such steps
  the spacing holds (`TimelyPublicationsAreSpaced`), after each of them at most
  four events break it (`EarlyStepsBreakSpacing`).  With any number of schedulers
  it holds if the UPDATEs checked again that a sent row is overdue and a
  scheduled one due (`GuardedPublicationsAreSpaced`); one scheduler does so anyway
  (`PublicationsAreSpaced`).  Both are for commands nobody PATCHes.
* *A refreshed schedule agrees with prediction from scratch.*  Exactly when
  the refresh did not meet a pass in progress that an earlier horizon had cut
  (`PassRefresh.RefreshesAgreeWithTheSky`; `CutPassIsLost` has two refreshes
  that do).
* *A refresh token yields one pair.*  A request that loaded the token before
  its expiry and claims it after the revocation was purged gets a second one
  (`AuthSafety.LateClaimsSucceed`); claims before the expiry yield one.
* *A revoked token is never accepted again.*  The decode (by python-jose)
  compares whole seconds, the purge compares times: in the second of its expiry
  a token passes once a purge has removed its revocation, and only then (`AuthSafety.RevokedIsFinal`,
  `PurgeShowsExactly`; `RevokedReturns` is such a run).
* *A claimed command leaves `transmitting`.*  Not when its executor crashes
  before it has recorded the outcome (`CommandStranding.StrandedExactly`): then
  only a PATCH or the satellite's answer takes it further (`StrandedStays`).
  `CrashStrands` has such a command, never published.
* *The same severity does not re-emit within the cooldown.*  An alarming reading
  emits exactly unless the key's latest event has its severity and is within
  the cooldown (`AnomalyCooldown.CooldownExactly`, `ListedCooldownExactly`), so
  it re-emits when the other severity came in between (`EventsCoolDown`), as on
  the 13 readings of `AnomalyRecurrence.SeveritiesCanRecur`.
* *An FDIR warning is repeated only on newer data.*  The alert as a whole needs
  newer evidence; each of its warnings rests on newer data exactly when there
  is no observation, or the latest one is newer, or it gives no cause for a
  warning (`FdirMonitor.AllFreshExactly`).  `OldWarningsRepeat` raises two
  alerts that hold the warning of one observation.
* *KISS frames with any data command byte survive.*  0xC0 is read as a
  delimiter (`Kiss.RoundTrip` is an equivalence).
* *A planned start lies inside its pass.*  Not for a pass that opens on the
  last sample of a horizon, which is stored empty
  (`UplinkWindow.PlannedStartIsOpen`, `EmptyPassIsPlanned`).

Where the code and its own documentation disagree, the model follows the code:

* backend/src/anomaly/detector.py:23-26 and 103-106 describe the cooldown as
  per severity; the code keeps one entry per key (line 192).
* backend/src/anomaly/detector.py:44 names Welford's algorithm; the code
  recomputes mean and variance from the window (lines 58-60).
* backend/src/commands/models.py:53-55 names the satellite's answers as the
  only exception to the transition table; the publish-failure bounce
  (backend/src/scheduler/service.py:252-262) is another.
* backend/src/scheduler/service.py:83 speaks of three coroutines; there are
  four (lines 101-107).

## Model

| member | source | states |
|---|---|---|
| `CommandSafety.SafeKept` | backend/src/scheduler/service.py:121-550 | Every step of every process, whatever the interleaving, keeps the seven invariants of a row: valid PATCH reads, accounting, budget, single publication, two-admin release, timestamps, rank. |
| `CommandSafety.RunIsSafe` | backend/src/scheduler/service.py:121-550 | Every command of every reachable state satisfies the invariants. |
| `CommandSafety.TransmissionsAreAccounted` | backend/src/scheduler/service.py:223-263 | Entries into transmitting equal bounces + retries + LOS re-plans in the waiting states, one more while on air, one of the two once ended; at most 4 + bounces + LOS re-plans + PATCH retries on an outdated read. |
| `CommandSafety.AtMostOnePublication` | backend/src/scheduler/service.py:207-279 | Of a command that is not safe_retry, or of type engine_fire, deploy_antenna, deploy_solar_panel or separation, every run holds at most one publication that did not raise. |
| `CommandSafety.PublicationsAreCounted` | backend/src/scheduler/service.py:246-279 | The tally of publications is the number of those events in the run. |
| `CommandSafety.SingleKept` | backend/src/scheduler/service.py:207-279 | The invariant behind it: at most one executor ever holds a claim on such a command, and while it waits it has no claim and no publication. |
| `CommandSafety.PublicationsAreReleased` | backend/src/api/routes/commands.py:169-205 | Whatever is published of type separation or factory_reset carries the approval of a user other than its creator. |
| `CommandSafety.ApprovalIsCarried` | backend/src/api/routes/commands.py:44-48 | Outside awaiting_approval and dead, a row of these types always carries that approval. |
| `CommandSafety.ChangesAreBounded` | backend/src/commands/models.py:33-51 | Status changes are at most 21 + 2·bounces + 2·missed windows + 6·LOS re-plans + 5·outdated PATCH retries. |
| `CommandSafety.RankKept` | backend/src/scheduler/service.py:422-493 | The rank (stage, retries left) pays for every status change except those. |
| `CommandSafety.AckedWasSent` | backend/src/scheduler/service.py:406-417 | An acked row has been on air and has sent_at <= acked_at <= now. |
| `CommandSafety.EndIsFinal` | backend/src/commands/models.py:43-50 | acked and dead absorb: the row and the satellite's verdict never change again, in any continuation of any run. |
| `CommandSafety.ChangesFollowTheTable` | backend/src/scheduler/service.py:54-63 | Every status change is a path of table edges of the counted length, except the publish-failure bounce and the satellite's answers to rows that were on air. |
| `CommandRows.EventsWriteRows` | backend/src/scheduler/service.py:121-550 | Every event of every run that is about a row leaves it as the columns of its UPDATE say (`Wrote`: plan, re-plan, drop, claim, sent, bounce, timeout, answer, approval, PATCH, cancel), and the other columns alone. |
| `CommandRows.OthersLeaveRows` | backend/src/scheduler/service.py:121-550 | An event that is not about a row leaves it as it is. |
| `CommandRows.RetriesAreSpentExactly` | backend/src/scheduler/service.py:448-485 | The retry count rises by one exactly on a timeout of a sent, retryable row with a retry left that is manual or inside its window, and on a PATCH to retry. |
| `CommandRows.LosSparesRetries` | backend/src/scheduler/service.py:448-464 | No timeout of a pass-planned row with its window closed ever spends a retry: a retryable row waits for the next pass with no time planned, another one ends. |
| `CommandTallies.TalliesAreTotals` | backend/src/scheduler/service.py:207-550 | The tallies that the claims about runs speak of, and the retry count, are the numbers of those events in the run. |
| `CommandPlans.WaitingRowsArePlanned` | backend/src/scheduler/service.py:142-146 | A waiting row carries a time exactly if the operator gave one. |
| `CommandPlans.OperatorTimeStays` | backend/src/scheduler/service.py:129-152 | A planner that read an operator's time finds it unchanged, if it finds the row still waiting. |
| `CommandTimes.OperatorTimeIsKept` | backend/src/scheduler/service.py:199-235 | Any number of schedulers, no PATCH: a command with an operator's time is never fetched, claimed or published before it. |
| `CommandTimes.PlannedTimeIsKept` | backend/src/scheduler/service.py:136-155 | One scheduler, no PATCH: no command is claimed or published before the time of its latest plan. |
| `CommandStranding.StrandedExactly` | backend/src/scheduler/service.py:223-279 | A row gets into transmitting with no executor to take it off if and only if its only executor crashes there, or a PATCH writes that status while nobody holds the row. |
| `CommandStranding.TransmittingIsHeld` | backend/src/scheduler/service.py:223-279 | In every run, a transmitting row is held by an executor that has yet to record the outcome, or one of those two events stranded it and it has been stranded ever since. |
| `CommandStranding.CrashStrands` | backend/src/scheduler/service.py:223-247 | A run in which a crash strands a command before its publication. |
| `CommandStranding.StrandedStays` | backend/src/scheduler/service.py:267-279 | A stranded row stays as it is and is never published again, in any continuation without a PATCH or an answer of its satellite: no sweep or executor takes it up. |
| `CommandBudget.OnlyOutdatedRetriesOverspend` | backend/src/api/routes/commands.py:260-304 | A step takes retry_count past MAX_RETRIES if and only if it is a PATCH retry, still matching the status it read, on a row whose retries are spent. |
| `CommandBudget.AtomicPatchesKeepTheBudget` | backend/src/api/routes/commands.py:278-304 | With every PATCH as one step: retry_count <= 3, at most 4 + bounces + LOS re-plans transmissions, and the status-change bound without the stale term. |
| `CommandBudget.AtomicPatchesAreNeverStale` | backend/src/api/routes/commands.py:244-300 | A PATCH that writes right after its own read never retries on an outdated count. |
| `CommandBudget.TwoPatchesOverspend` | backend/src/api/routes/commands.py:244-300 | A run in which two overlapping PATCH requests take retry_count to four. |
| `CommandDelivery.RunIsGenuine` | simulator/src/commands.py:46-67 | In every run: each message on the uplink has the satellite, the type and the params of its command; each satellite's log holds only commands addressed to it, with their only possible outcome and what they did to the mode; answers come from the log, verdicts from answers. |
| `CommandDelivery.AckedMeansDone` | backend/src/scheduler/service.py:366-420 | A command acked by its satellite was carried out there: each time it took effect the mode went where its own type and params say. Exactly once if fewer than 1000 commands ran between its first and latest delivery. |
| `CommandDelivery.RejectedMeansNotDone` | backend/src/scheduler/service.py:495-509 | A command its satellite rejected never took effect, not even through a duplicate. |
| `CommandDelivery.DownlinkMoves` | simulator/src/commands.py:108-115 | A delivery puts the satellite's logged answer to that command on the downlink unless it is lost; nothing else goes there. |
| `CommandDelivery.SafeModeIsReached` | simulator/src/commands.py:77-82 | A run from creation to acknowledgement in which a satellite told to go to safe mode goes there. |
| `CommandDelivery.OnlyTheAddresseeRuns` | simulator/src/commands.py:96-116 | Routing: a payload travels on the subject of the satellite it is for, so no other satellite ever runs a command. |
| `CommandDelivery.UplinkCarriesOrders` | backend/src/scheduler/service.py:236-247 | In every run, each message on the uplink has the satellite id, command type and params of its command, on the subject of that satellite. |
| `CommandDelivery.UplinkWasPublished` | backend/src/scheduler/service.py:246-247 | It was put there by a publication of that command in the run. |
| `CommandDelivery.PublishedIsOnUplink` | backend/src/scheduler/service.py:246-247 | Every publication that the bus stored is on the uplink from then on, field by field as the command says. |
| `CommandSpacing.PublicationsAreSpaced` | backend/src/scheduler/service.py:465-485 | One scheduler, no PATCH: successive successful publications of a command are more than ACK_TIMEOUT_S apart, and further by the backoff of each retry spent between. |
| `CommandSpacing.SecondSweeperBreaksSpacing` | backend/src/scheduler/service.py:538-550 | A run with a second scheduler in which the third publication follows the second by 4 s. |
| `CommandSpacing.StaleExecutorBreaksSpacing` | backend/src/scheduler/service.py:223-235 | Two runs in which a second scheduler, having fetched the row before its first transmission, claims it or re-plans it during the backoff: the second publication does not wait for the backoff. |
| `CommandSpacing.SpacingBreaksExactly` | backend/src/scheduler/service.py:223-235 | Any number of schedulers, no PATCH: a step breaks the invariant behind the spacing if and only if it claims, re-plans or retries the row before the retry rules allow its next publication. |
| `CommandSpacing.TimelyPublicationsAreSpaced` | backend/src/scheduler/service.py:465-485 | Any number of schedulers, no PATCH: in a run without such a step, successive publications are more than ACK_TIMEOUT_S and the backoffs spent apart. |
| `CommandSpacing.EarlyStepsBreakSpacing` | backend/src/scheduler/service.py:223-235 | After any such step, in any run without PATCH, at most four more events lead to a publication that is no further than that from the one before. |
| `CommandSpacing.GuardedPublicationsAreSpaced` | backend/src/scheduler/service.py:465-485 | Any number of schedulers, no PATCH: as long as a timeout meets a sent row that is overdue, and a claim or re-plan a scheduled row that is due, successive publications are spaced by the timeout and the backoffs spent. |
| `CommandSpacing.AloneKept` | backend/src/scheduler/service.py:193-205 | A single scheduler always meets those guards, because what it read of a row stays true. |
| `CommandSubmission.OneRowPerKey` | backend/migrations/001_initial_schema.sql:83 | At most one row exists per idempotency key. |
| `CommandSubmission.OneCommandPerKey` | backend/src/api/routes/commands.py:50-57 | All requests that succeed with one key get the same command and agree on user, satellite, type and params. |
| `CommandSubmission.LoserFindsWinner` | backend/src/api/routes/commands.py:95-101 | A request that lost the insert always finds the winner when it looks again, so the re-raise is unreachable. |
| `CommandSubmission.RowsComeFromRequests` | backend/src/api/routes/commands.py:79-94 | Every row was inserted for a request, with all its columns as asked, waiting for approval exactly if the type is separation or factory_reset; the columns that no statement updates still say so. |
| `Satellite.RerunExactly` | simulator/src/commands.py:51-67 | A repeated command runs again if and only if at least 1000 others ran since. |
| `Satellite.RerunsAreFarApart` | simulator/src/commands.py:64-66 | Between two runs of one command lie at least 1000 runs of pairwise different other commands. |
| `Satellite.OneEffect` | simulator/src/commands.py:46-67 | Fewer than 1000 runs between first and latest delivery of an accepted command: exactly one effect. |
| `Satellite.ReceiveKeepsMemory` | simulator/src/commands.py:64-66 | The bounded memory is always the tail of everything that was run. |
| `Satellite.RunObeys` | simulator/src/commands.py:69-93 | A satellite carries out exactly the supported commands addressed to it, and then is in the mode that type and params name. |
| `Satellite.AcceptanceIsModeIndependent` | simulator/src/commands.py:69-93 | Whether a command is accepted never depends on the satellite's mode, so a rerun answers as the first run did. |
| `Satellite.MisaddressedHasNoEffect` | simulator/src/commands.py:71-72 | A satellite sent a payload for another one changes neither its mode nor what took effect on it, and refuses it unless it has answered that id before. |
| `SatelliteExecutor.CommandExecutor.Execute` | simulator/src/commands.py:46-67 | The in-place executor: refuses a command without id unchanged; repeats a remembered answer; otherwise accepts exactly the supported commands addressed to it, goes to the mode they name, and remembers the latest 1000 answers. |
| `UplinkWindow.NextPassAos` | backend/src/scheduler/service.py:162-179 | None exactly when no pass is usable; otherwise the start, not before now, of the earliest usable pass. |
| `UplinkWindow.NextStartIs` | backend/src/scheduler/service.py:162-179 | That start is the one of the earliest pass of the satellite over a station in use that lasts for more than another 30 s, or now if it has begun. |
| `UplinkWindow.NoEarlierWindow` | backend/src/scheduler/service.py:162-179 | No usable pass is open between now and the planned start. |
| `UplinkWindow.EmptyPassIsPlanned` | backend/src/orbit/passes.py:156-159 | A prediction with such a pass, which planning picks although it is never open. |
| `GroundSegment.AwaitKeepsProgress` | backend/src/scheduler/service.py:193-279 | Whatever others do while a process awaits, its own private progress on every command is as it left it. |
| `GroundSegment.Segment.Await` | backend/src/scheduler/service.py:101-107 | An await performs any number of steps of other processes and nothing of the caller's. |
| `GroundSegment.Segment.Do` | backend/src/scheduler/service.py:224-232 | One statement: the table becomes the protocol's successor, and the run is extended by it. |
| `CommandScheduler.Scheduler.PlanRow` | backend/src/scheduler/service.py:136-155 | A manual time wins, otherwise the next usable start in a state of the run that the call saw; without one nothing is planned. A row found pending is then scheduled for exactly that time, any other is left alone; scheduled_count counts the former. |
| `CommandScheduler.Scheduler.ScheduleOnce` | backend/src/scheduler/service.py:121-160 | Every waiting row (up to a batch) is planned: those with a manual time for it, the others for the next usable start seen, or left alone because none was. |
| `CommandScheduler.Scheduler.ReplanIfWindowMissed` | backend/src/scheduler/service.py:281-295 | Re-planned only with the window closed, passed only with it open, in a state of the run that the call saw. |
| `CommandScheduler.Scheduler.DropIfPolicyDenies` | backend/src/scheduler/service.py:297-317 | Dropped only with the type denied, passed only with it allowed, in a state that the call saw; dead_count counts it exactly if it was still scheduled. |
| `CommandScheduler.Scheduler.PublishRow` | backend/src/scheduler/service.py:246-252 | The publication raises exactly when the bus does so for a publication at that point of the run; what the bus stored is on the uplink with the satellite, type and params of the command. |
| `CommandScheduler.Scheduler.Transmit` | backend/src/scheduler/service.py:246-277 | A claimed row is published, with the outcome the bus has at that point of the run, and then marked sent, or bounced if that was to raise; transmitted_count counts the former. |
| `CommandScheduler.Scheduler.ClaimRow` | backend/src/scheduler/service.py:223-235 | The claim is won exactly if the row was still scheduled in the state it met. |
| `CommandScheduler.Scheduler.ExecuteRow` | backend/src/scheduler/service.py:207-279 | One row of a cycle is re-planned, dropped, lost to another claim, bounced or transmitted, each with its reason in the run: window, mode reading, the status at the claim, the outcome of the publication. Nothing begun was abandoned. |
| `CommandScheduler.Scheduler.ExecuteOnce` | backend/src/scheduler/service.py:193-279 | Every due row (up to a batch) is taken and meets one of those fates; none is held or abandoned afterwards; transmitted_count grew by exactly the transmissions, whatever others did meanwhile. |
| `CommandScheduler.Scheduler.MarkTimedOut` | backend/src/scheduler/service.py:422-493 | The transaction is the last step of the call, on the row and the window right before it. Retryable, pass-planned, window closed: pending with no time and no retry spent; retryable with a retry left otherwise: scheduled 1, 4 or 16 s later with one spent; else dead. The counters count exactly that. |
| `CommandScheduler.Scheduler.TimeoutOnce` | backend/src/scheduler/service.py:538-550 | Every overdue row (up to a batch) is timed out by a transaction of its own, and none is left half-way. |
| `CommandScheduler.Scheduler.ConsumeAnswer` | backend/src/scheduler/service.py:366-420 | The UPDATE is the last step of the call; a row on air and not finished becomes acked or dead with its times set, and only that is counted; what it then records is true of the satellite. |
| `CommandApi.CreateCommand` | backend/src/api/routes/commands.py:35-113 | Ends with a command of this submission and key, or fails because a check denied it, the id was taken, or the key belongs to a different submission; a repeat of an existing command always gets it. |
| `CommandApi.FirstLookup` | backend/src/api/routes/commands.py:50-57 | A repeat of a command that already exists gets it back before any other check. |
| `CommandApi.InsertOnce` | backend/src/api/routes/commands.py:75-94 | Inserts the row with every column as requested, or collides only when the key is taken. |
| `CommandApi.ReplayWinner` | backend/src/api/routes/commands.py:116-137 | After a unique violation: the winner's command, or a genuine conflict with it. |
| `CommandApi.ApproveCommand` | backend/src/api/routes/commands.py:169-205 | Success means that the mode policy allowed the command in a state seen, and that the row is pending with this user as approver, who is not the creator, and otherwise unchanged; every refusal has its reason in a state of the run that the request saw. |
| `CommandApi.TransitionCommand` | backend/src/api/routes/commands.py:220-304 | Reads a row in a state of the run, refuses exactly what does not validate there, and updates status, times and retry count exactly when its status at the write is the one read; leaves nothing in flight. |
| `CommandApi.PatchesExactly` | backend/src/api/routes/commands.py:237-276 | The steps PATCH may make: nine edges of the table, timeout to retry only where a retry is left. |
| `CommandApi.CancelCommand` | backend/src/api/routes/commands.py:347-361 | Exactly a row in a cancellable status becomes dead, otherwise unchanged; anything else is not found. |
| `PassRuns.SoloIsExact` | backend/src/orbit/passes.py:138-161 | The passes of a station are exactly its maximal runs of samples at or above the minimum elevation, with aos, los, peak and azimuth of the run. |
| `PassRuns.SoloIsDisjoint` | backend/src/orbit/passes.py:138-161 | They are disjoint and in order; only a pass opening on the last instant is empty. |
| `PassRuns.PeakIsMaximum` | backend/src/orbit/passes.py:145-151 | The reported peak is attained and is the maximum over the run. |
| `PassPrediction.Track.Observe` | backend/src/orbit/passes.py:142-153 | One sample opens, extends or closes the station's current pass. |
| `PassPrediction.PredictPassesMulti` | backend/src/orbit/passes.py:103-162 | The sweep returns, sorted by aos, exactly the passes every station has on its own, each as often as it has it. |
| `PassPrediction.RestrictionIsSolo` | backend/src/orbit/passes.py:103-162 | The restriction of the result to one station is that station's own prediction. |
| `PassPrediction.PredictPasses` | backend/src/orbit/passes.py:78-91 | Prediction for one station returns its maximal runs in order. |
| `PassPrediction.SortIsCorrect` | backend/src/orbit/passes.py:161 | Sorting keeps the passes and orders them by aos. |
| `PassRefresh.PassTable.ComputeAndStorePasses` | backend/src/api/routes/satellites.py:219-294 | Untouched without stations or on a failed prediction; otherwise the history that is kept, and rows that each tell of a maximal run of one of the stations over the next 48 h: its ends, its highest elevation and its azimuth at the first sample. |
| `PassRefresh.RefreshesAgreeWithTheSky` | backend/src/api/routes/satellites.py:256-294 | After any sequence of refreshes of any satellites, the stored windows cover a grid instant from NOW to the new horizon exactly when the station sees the satellite, if and only if the refresh met no pass in progress cut by an earlier horizon. |
| `PassRefresh.UncutIsExact` | backend/src/api/routes/satellites.py:268-280 | One refresh, that direction. |
| `PassRefresh.CutIsInexact` | backend/src/api/routes/satellites.py:268-280 | One refresh, the other direction: the end of the cut row stays uncovered. |
| `PassRefresh.CutPassIsLost` | backend/src/api/routes/satellites.py:268-280 | Two refreshes in which that happens, under a satellite that never sets. |
| `PassRefresh.RefreshKeepsSound` | backend/src/api/routes/satellites.py:262-294 | Every stored row only ever covers sampled instants at which the station sees the satellite. |
| `PassRefresh.AddedRowsAreTold` | backend/src/api/routes/satellites.py:281-293 | Every row a refresh adds is such a row, column by column. |
| `PassRefresh.StoredRowsAreTold` | backend/src/api/routes/satellites.py:256-294 | After any sequence of refreshes, so is every stored row, for one of the refreshes of its satellite. |
| `PassRefresh.StartedPassesStay` | backend/src/api/routes/satellites.py:257-267 | A pass that has started is never removed until a week after its LOS. |
| `PassRefresh.OtherSatellitesAreSpared` | backend/src/api/routes/satellites.py:263-267 | A refresh neither adds nor removes rows of another satellite. |
| `AnomalyIsolation.MostRecentAreTracked` | backend/src/anomaly/detector.py:124-131 | The statistics are exactly those of the (at most 1000) most recently fed keys, the key just fed among them. |
| `AnomalyIsolation.EventsAreOwn` | backend/src/anomaly/detector.py:112-194 | In any trace, the events of a key are determined by its own readings and by which of its windows were evicted. |
| `AnomalyIsolation.NoInterference` | backend/src/anomaly/detector.py:112-194 | While at most 1000 keys were fed, the events of a key equal those of a detector fed that key's readings alone. |
| `AnomalyIsolation.WindowIsLatest` | backend/src/anomaly/detector.py:49-74 | While at most 1000 keys were fed, the window of a key is its latest 60 values. |
| `AnomalyModel.ScoreExactly` | backend/src/anomaly/detector.py:56-70 | The score is how often the larger of deviation and least deviation (1% of the mean, at least 0.001) fits into the distance from the mean; with a deviation under half of that, at most 2.99. |
| `AnomalyHysteresis.ActiveIsStanding` | backend/src/anomaly/detector.py:142-187 | In every trace, the active alarm of a key is the highest severity its scores have reached since its last score below 1.6. |
| `AnomalyCooldown.LatestIsRemembered` | backend/src/anomaly/detector.py:163-192 | In every trace, what the detector remembers of a key is the severity and the time of its latest event. |
| `AnomalyCooldown.CooldownExactly` | backend/src/anomaly/detector.py:154-192 | In every trace, a critical score, or a warning score with every earlier critical one recovered from, emits an event if and only if the key's latest event does not both have its severity and lie within the cooldown. |
| `AnomalyCooldown.EventsCoolDown` | backend/src/anomaly/detector.py:159-192 | In every trace, two events of a key with the same severity are at least the cooldown apart, unless one of the other severity came between them. |
| `AnomalyCooldown.ListedCooldownExactly` | backend/src/anomaly/detector.py:154-192 | The same of the list of events: an alarming reading adds one, of its key and severity, if and only if the key's latest event in the list does not suppress it. |
| `AnomalyCooldown.ListedEventsCoolDown` | backend/src/anomaly/detector.py:159-192 | Two events of the list, of one key and severity, come from readings at least the cooldown apart, unless the list has one of the other severity between them. |
| `AnomalyCooldown.SourceEmits` | backend/src/anomaly/detector.py:112-194 | Every event of the list is what its reading emitted, after exactly the events before it. |
| `AnomalyCooldown.WarningNeedsRecovery` | backend/src/anomaly/detector.py:145-157 | Between a critical score of a key and a later warning event of it lies a score below 1.6. |
| `AnomalyCooldown.EventsTell` | backend/src/anomaly/detector.py:183-192 | Every event of the list tells key, value and score of its reading, and critical exactly from 3.0 on. |
| `AnomalyRecurrence.SeveritiesCanRecur` | backend/src/anomaly/detector.py:163-168 | With the true square root, thirteen readings that emit warning, critical, warning within one cooldown. |
| `AnomalyDetector.ParameterStats.Push` | backend/src/anomaly/detector.py:49-74 | The mean and the variance summed up in loops, the floor and the cap give the score that the claims are about; the window slides. |
| `AnomalyDetector.AnomalyDetector.Track` | backend/src/anomaly/detector.py:124-133 | Moves the key to the end of the order, creating its statistics and evicting the oldest beyond the cap; no two keys share statistics. |
| `AnomalyDetector.AnomalyDetector.Raise` | backend/src/anomaly/detector.py:139-192 | Hysteresis and cooldown as the decision function has them. |
| `AnomalyDetector.AnomalyDetector.FeedParameter` | backend/src/anomaly/detector.py:119-192 | The objects stand for the detector after all readings fed so far, and return exactly its new events. |
| `AnomalyDetector.AnomalyDetector.Feed` | backend/src/anomaly/detector.py:112-194 | The readings of the packet's tracked parameters are fed, in their order and nothing else, and the events returned are exactly theirs. |
| `AnomalyDetector.PacketIs` | backend/src/anomaly/detector.py:83-89 | The tracked parameters and their order. |
| `AuthSafety.OnePairPerRefreshToken` | backend/src/api/routes/auth.py:93-114 | Over all interleavings, a refresh jti is claimed before its expiry at most once, and yields at most one pair plus one per claim after the expiry. |
| `AuthSafety.OnlyRefreshTokensRotate` | backend/src/api/auth.py:167-172 | In every run, whatever is claimed, or pays for a pair without a sign-in, is a genuine refresh token. |
| `AuthSafety.TalliesAreTotals` | backend/src/api/routes/auth.py:93-114 | The claims in time, the late claims and the pairs that this speaks of are numbers of events of the run. |
| `AuthSafety.ClaimedIsSpent` | backend/src/api/auth.py:216-234 | A token claimed in time is accepted again if and only if its revocation is gone, this is the second of its expiry, and the session is current. |
| `AuthSafety.SecondClaimNeedsExpiry` | backend/src/api/auth.py:224-234 | A second claim succeeds if and only if the revocation row is gone, and then the token has expired. |
| `AuthSafety.LateClaimsSucceed` | backend/src/api/auth.py:224-234 | A run in which that happens: two pairs from one token. |
| `AuthSafety.RevokedIsFinal` | backend/src/api/auth.py:216-234 | In every continuation of any run, a revoked token is accepted only in the second of its expiry, and only after a purge that came later than the expiry; before it, it stays revoked. |
| `AuthSafety.RevokedReturns` | backend/src/api/auth.py:94-100 | A run in which that happens: the decode compares whole seconds, the purge does not. |
| `AuthSafety.BumpEndsSessions` | backend/src/api/auth.py:149-154 | A token of a version older than its user's is not accepted in any continuation. |
| `AuthSafety.VersionsRiseExactly` | backend/src/api/auth.py:237-245 | Password change, deactivation, replay and an administrator's bump raise a user's version by one; nothing else changes it. |
| `AuthSafety.ActivityChangesExactly` | backend/src/api/routes/users.py:171-175 | Only an administrator changes whether a user is active, and exactly to what was asked. |
| `AuthSafety.TokensLive` | backend/src/api/auth.py:60-91 | No access token lives longer than an hour, no refresh token longer than a week, and both expire on a whole second. |
| `AuthSafety.EveryBumpEndsSessions` | backend/src/api/auth.py:237-245 | After any of them, no token of the user minted so far is ever accepted again, nor one minted later by a request that had already read the user. |
| `AuthSafety.VersionIsFixed` | backend/src/api/routes/auth.py:111-114 | A request mints under the version it read, whatever others do meanwhile. |
| `AuthSafety.ReplayEndsTheFamily` | backend/src/api/routes/auth.py:105-120 | The same for the replay of a rotated token: the whole family ends. |
| `AuthSafety.PurgeShowsExactly` | backend/src/api/auth.py:222-224 | A purge makes a token acceptable if and only if it was revoked, its session is current and this is the second of its expiry; a refresh is answered otherwise than before exactly for an expired revoked token of an active user. |
| `AuthSafety.PurgeIsInvisible` | backend/src/api/auth.py:222-224 | So purging changes no decision about an unexpired token. |
| `AuthService.Database.RefreshToken` | backend/src/api/routes/auth.py:93-120 | The request of a genuine token that decodes always runs to its answer: a pair of the token's user and version, for an hour and a week, or the end of the user's sessions if the token was revoked or the claim lost, or neither for an inactive user or an old version. |
| `AuthService.Database.LoadSession` | backend/src/api/auth.py:139-156 | Refused without an active user; a replay if the token is revoked; refused if its version is old; otherwise loaded: in this order, by what the database said at one point of the call. |
| `AuthService.Database.ClaimToken` | backend/src/api/auth.py:216-234 | Expired revocations are purged; then the claim is won exactly if the insert finds no revocation, else it is a replay. |
| `AuthService.Database.Logout` | backend/src/api/routes/auth.py:135-149 | Afterwards the caller's own refresh token is not accepted, nor is the access token, unless this is the second of its expiry and a purge has come since. |
| `AuthService.Database.SignIn` | backend/src/api/routes/auth.py:48-90 | A pair, for an hour and a week, exactly when the password is right and the user, as read, is active; it is of the version read. |
| `AuthService.Database.ChangePasswordOf` | backend/src/api/routes/auth.py:152-202 | The new pair carries a version newer than any the user had at the start, and no token the user had then is accepted any more. |
| `SatelliteRegistry.SatelliteRegistry.IsRegistered` | backend/src/ingestion/registry.py:33-54 | The table is asked for all ids exactly when they have expired, and for this id exactly when the cache does not decide and a query is left in this second. True: registered at an instant of the last 30 s. False: absent at an instant of the last 10 s, or the window's 20 queries are spent. |
| `SatelliteRegistry.SatelliteRegistry.LookUp` | backend/src/ingestion/registry.py:41-54 | The table is sent one query if and only if one is left in this second; its answer is returned and cached. |
| `SatelliteRegistry.SatelliteRegistry.Query` | backend/src/ingestion/registry.py:44-46 | A query is recorded in the current window with the time it was sent; the windows hold exactly the queries the table got. |
| `SatelliteRegistry.SatelliteRegistry.Remember` | backend/src/ingestion/registry.py:47-53 | Positive and negative outcomes are cached, never more than 10 000 negative ones. |
| `SatelliteRegistry.SatelliteRegistry.LookupAllowed` | backend/src/ingestion/registry.py:61-66 | Granted exactly while fewer than 20 were attempted in the current second; refused ones find 20 queries sent. |
| `SatelliteRegistry.SatelliteRegistry.Reload` | backend/src/ingestion/registry.py:56-59 | The known ids are the table's at an instant of the call, for 30 s from its start. |
| `SatelliteRegistry.LookupsAreBounded` | backend/src/ingestion/registry.py:61-66 | After any sequence of calls, of the targeted queries that the table was sent, any interval of length L holds at most 20·(floor(L)+2). |
| `FdirMonitor.Assess` | backend/src/fdir/monitor.py:82-129 | Collects exactly the findings, and the newest evidence among them. |
| `FdirMonitor.FindingsExactly` | backend/src/fdir/monitor.py:82-129 | A warning is among them exactly if it is justified: missed pass, stale beyond 10 min, field missing, battery under 3.3, temperatures over 65 and 55; with the observation or the end of the pass as evidence. |
| `FdirMonitor.EvidenceIsData` | backend/src/fdir/monitor.py:82-129 | Evidence is the latest observation or the end of the last pass. |
| `FdirMonitor.CheckSatellite` | backend/src/fdir/monitor.py:192-233 | Publishes exactly when something is wrong and every alert of the satellite is acknowledged and older than the newest evidence; keeps at most one unacknowledged alert per satellite and the strict alternation of evidence and alerts. |
| `FdirMonitor.AlertTable.Insert` | backend/src/fdir/monitor.py:225-233 | An alert raised on newer evidence than all acknowledged predecessors keeps the alternation. |
| `FdirMonitor.AlertTable.Acknowledge` | backend/src/api/routes/fdir.py:88-100 | Succeeds exactly on an open alert and keeps the alternation. |
| `FdirMonitor.EvidenceAlternates` | backend/src/fdir/monitor.py:160-166 | triggered_1 < evidence_2 <= triggered_2 < evidence_3, and only the latest alert can be open. |
| `FdirMonitor.AllFreshExactly` | backend/src/fdir/monitor.py:65-75 | Of an alert raised on newer evidence, every warning rests on newer data if and only if there is no observation, or the latest one is newer, or it gives no cause for a warning. |
| `FdirMonitor.OldWarningsRepeat` | backend/src/fdir/monitor.py:192-217 | A run of checks and an acknowledgement that raises two alerts with the warning of one observation, made before both. |
| `JulianDate.NextDayIsOneMore` | backend/src/orbit/propagator.py:71-81 | The next calendar day counts exactly one more, for every Gregorian date from year 1. |
| `JulianDate.DaysAreCounted` | backend/src/orbit/propagator.py:71-81 | n days later counts exactly n more. |
| `JulianDate.LaterDatesAreReached` | backend/src/orbit/propagator.py:71-81 | Every later date is some number of days later, so the count is determined by one date. |
| `JulianDate.StandardEpoch` | backend/src/orbit/propagator.py:71-81 | Noon of 1 January 2000 is 2451545.0, which fixes the scale. |
| `JulianDate.FloatsRoundAlike` | backend/src/orbit/propagator.py:81 | However the float product of 30.6001 is rounded, to within 1/10000, rounding it down gives the exact value. |
| `JulianDate.JulianDaysAreOrdered` | backend/src/orbit/propagator.py:71-81 | Later instants have greater Julian dates. |
| `JulianDate.JulianDaysAreUnique` | backend/src/orbit/propagator.py:71-81 | Equal Julian dates mean the same instant. |
| `Kiss.Unescape` | backend/src/ingestion/adapters/kiss.py:78-100 | Decodes what the protocol says, and fails exactly on a dangling or unknown escape. |
| `Kiss.StripKiss` | backend/src/ingestion/adapters/kiss.py:45-75 | Strips all leading and trailing FENDs and the command byte, and refuses short, empty and non-data frames. |
| `Kiss.StripsExactly` | backend/src/ingestion/adapters/kiss.py:45-75 | A frame is refused if shorter than three bytes, all delimiters or not of command 0; otherwise it carries what lies between command byte and trailing delimiters, unescaped. |
| `Kiss.EscapedBytes` | backend/src/ingestion/adapters/kiss.py:78-100 | 0xC0 is sent as 0xDB 0xDC, 0xDB as 0xDB 0xDD, any other byte as itself. |
| `Kiss.RoundTrip` | backend/src/ingestion/adapters/kiss.py:45-75 | A frame around any bytes strips back to them if and only if the command's low nibble is 0 and it is not 0xC0. |
| `Kiss.EscapeIsUnique` | backend/src/ingestion/adapters/kiss.py:78-100 | Without a raw FEND, the escaped form is the only input that decodes to the bytes. |
| `Kiss.UnescapeEscape` | backend/src/ingestion/adapters/kiss.py:78-100 | Escaping is undone, and leaves no FEND. |

## Left out

Of the command protocol:

- The order in which a cycle's SELECT lists rows (priority, creation, scheduled time): only the limit of 50 is kept, and any selection is allowed.
- Fields that decide nothing: priority, error_message, approved_at, updated_at, and retry_count and issued_at in the published payload.
- The mode policy and role checks: their verdicts are inputs (`denied`), which may change at every await.
- Satellites that restart and lose their memory, and mode changes they make on their own; acceptance does not depend on the mode.
- A command acked or sent through PATCH by an operator: the end-to-end claims are about verdicts of the satellite only.
- A publication that raised counts as not successful, although the model allows it to have reached the bus; AtMostOnePublication is about successful ones.
- CommandSpacing.GuardedPublicationsAreSpaced: for commands nobody PATCHes, because an operator can PATCH a row past any waiting time.
- CommandBudget.AtomicPatchesKeepTheBudget: needs PATCH as one step, because the claim is false otherwise (see above).
- Separate clocks of the database and the processes: there is one, and it only moves forward.
- `Command.transition` and `Command.can_transition_to` (backend/src/commands/models.py:90-110), which no other modelled code calls; the table behind them is modelled.
- Satellite deletion, which cascades to commands and passes.
- Leader election: any number of schedulers is allowed already.
- JSON values as command parameters: strings.

Of the other parts:

- SGP4, geodesy, elevation and azimuth: arbitrary functions; rounding of stored angles to two digits and of event values to three or four.
- Floats are reals, and the square root is an arbitrary function.
- PassRefresh.RefreshesAgreeWithTheSky: for one sky per satellite throughout, start times on one sampling grid, a station in use throughout with its own id, prediction begun no later than the transaction.
- Which exception prediction raised: it fails or it does not.
- SatelliteRegistry.SatelliteRegistry.IsRegistered: calls one after another, on one clock; a bound for queries is about the times they are sent.
- FdirMonitor.CheckSatellite: one monitor, telemetry not dated in the future; when persistence fails the alert is still published but leaves no row.
- Wording of alerts and the age rounded to minutes.
- WebSocket tickets, bcrypt, rate limiting, audit log, JWT encoding (tokens cannot be forged).
- AX.25 and CCSDS headers behind the KISS framing.
- The telemetry writer, external clients, HTTP, NATS, Redis and WebSocket plumbing, settings and the frontend.
