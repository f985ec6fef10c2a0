# AquaOS control core: a verified model

AquaOS decides whether aquarium equipment may run, sends it commands, watches what the devices
report, raises alarms and records telemetry. This project models that core in Dafny and proves what
it promises over whole runs. Each component comes in three parts: functions that say what one
operation does to a value of the component's state; lemmas about every run of those operations; and
a class that updates its fields in place as the Go code does, every method of which is proved equal
to its function. What the functions themselves decide is pinned down by laws that do not mention
them: verdicts by the history of operations, bad polls by the fields of the reply, records by what
happened to the command, and so on.

| component | functions | runs | class |
|---|---|---|---|
| safety engine | `Safety`, `Profile` | `Accounting`, `SafetyRuns`, `Watchdogs`, `Episodes`, `Grants`, `Verdicts`, `DailyLimit` | `SafetyEngine` |
| command service | `Output` | `OutputRuns` | `OutputService` |
| Shelly adapter and failure policy | `Shelly` | `ShellySteps`, `ShellyRuns`, `ShellyEnds` | `ShellyAdapter` |
| alarm engine | `Alarms` | `AlarmRuns` | `AlarmManager` |
| canonical state | `State` | `Snapshots`, `Subscriptions` | `StateStore` |
| ESP32 adapter, down to the heater | `Esp32` | `Probes`, `Chain` | `Esp32Adapter` |
| telemetry writer | `Storage` | `Storage` | `StorageWriter` |
| MQTT idempotency window, offline queue | `MqttConsumer`, `MqttQueue` | the same | `MqttIntake`, `MqttQueue` |
| rate limiters | `Limiter` | `Limiter` | `RateLimiter` |
| tank simulator | `Simulator` | `Simulator` | `SimulatorRunner` |

`dafny verify dfyconfig.toml` checks the whole project.

## What the model takes as given

- Times are integer nanoseconds since the Go zero time, and 0 is an unset time. Days are UTC days,
  by floor division. Floating-point numbers are reals, or a value that is not finite.
- Networks, clocks, sensors, brokers, storage clients and event publishers answer arbitrarily: their
  answers are arguments, and the results hold for all of them. So does the policy of the command
  service, except in the Shelly model, which contains the safety engine. Contexts stay live.
- Runtime accounting is given calls in order of time. `Accounting.BackdatedCallHarmlessIff` says when
  one that is dated back does no harm. The HTTP interface stamps commands with its own clock
  (`internal/api/v1.go:373`); a direct caller of the engine may date an evaluation as it likes.
- Generated identifiers are fresh where a statement says so. `OutputRuns.EarlierRecordsKeptIff`
  shows what depends on it.
- Each exported method of the command service is one step. In Go it gives up its lock between
  check and write (`internal/output/service.go:197-206`), so two overlapping calls are not covered.
- A poll of a Shelly device is four sections, and submissions, other polls and safety-engine
  operations may come between any two of them. Settling a command and removing its pending entry is
  one section. A poll of an ESP32 node is one step. The state subscription, the MQTT window, the
  offline queue and the telemetry writer are modelled section by section, under every interleaving.
- Where Go walks a map, the model takes any order. `SafetyEngine.Engine.CheckWatchdogs` therefore
  promises which actions are listed, and not their order, although `docs/equipment-safety.md:82`
  calls them deterministic.

## Where the code falls short of a promise

In each of these the model follows the code, and the lemma named last states exactly when the
promise holds.

- An expired override should cause a safe-state action. An evaluation at or after the expiry takes
  the override away first, and then no action comes (`Watchdogs.OverrideExpiryActionIff`).
- Watchdog actions should be submitted (`docs/equipment-safety.md:83`). An error ends the batch, the
  actions listed after it are not submitted, and since their equipment is already marked they are
  not issued again (`Watchdogs.ActionIsNotRepeated`, `OutputRuns.ActionSubmittedIff`).
- A command should succeed only by a later report (`docs/equipment-safety.md:27`). A command that is
  accepted while a poll is under way can be confirmed by the reading that poll already had, and the
  safe response that a poll requests is confirmed by that very poll
  (`ShellyEnds.OvertakenReadingConfirms`, `ShellyEnds.StaleReadingConfirms`,
  `ShellyRuns.ReadingFollowsDispatchIff`).
- An acknowledged command that runs out should be expired (`docs/prompt-8-bench-checklist.md:42`). One that was displaced by another command for
  the same equipment stays acknowledged for good (`ShellyEnds.SupersededNeverSettled`,
  `ShellyEnds.SettledAtDeadlineIff`).
- A healthy snapshot dated ahead, within the permitted clock skew, passes the adapter. The store
  then refuses it and keeps the older reading (`Chain.SnapshotAheadIsLost`,
  `Chain.HealthyPollRefreshesIff`).
- When the parent context of the telemetry writer ends before `Stop` is called, the writer returns
  and points are still accepted, never to be written (`Storage.AcceptedAfterReturnIff`).
- A retry maximum of 2^62 nanoseconds or more lets the doubled wait leave the 64-bit range. The
  configuration file permits ten minutes at most (`internal/config/config.go:505`), so only a direct
  caller of `storage.New` can get there (`Storage.BackoffIsCappedDoublingIff`).
- A message identifier is forgotten early when an older handler of the same message fails late
  (`MqttConsumer.SuppressedIffAlone`).
- The offline queue reaches one more than its capacity when an offer takes the place of a
  publication that then fails (`MqttQueue.DisturbedFlushOverflows`, `MqttQueue.WithinCapacityIff`).
- An empty client name can make a limiter evict a client that is not the least recent
  (`Limiter.VictimLeastRecentIff`).

## Model

| member | source | states |
|---|---|---|
| `Accounting.DailyOnIsReportedOnTime` | internal/safety/engine.go:293-382 | For every ordered sequence of calls for one equipment, the incremental daily counter equals the number of instants at which the reports say "on", from the first call of the current UTC day to the latest call, and is below 24 hours |
| `Accounting.DayOpenedIsFirstOfDay` | internal/safety/engine.go:366-382 | The instant the day counter starts from is the time of a call, of the same UTC day as the latest call, and no later than any other call of that day |
| `Accounting.OnTimeOfQuietStretch` | internal/safety/engine.go:293-320 | Links the instant-by-instant reference to the replayed state: with no further report a stretch is entirely on or entirely off |
| `Accounting.ReplayShape` | internal/safety/engine.go:366-382 | Between calls the open day is that of the latest call, and equipment that is on is accounted exactly up to it |
| `Accounting.ExtraAccountAbsorbedIff` | internal/safety/engine.go:366-382 | An extra accounting at s before one at t changes nothing exactly when the equipment is off, s equals t, the day of s was already open, or t falls in another day |
| `Accounting.ExtraCallChangesNothing` | internal/safety/engine.go:366-382 | A plain call at an intermediate time of an already open day leaves every later runtime as it was |
| `SafetyRuns.RuntimeIsOwnReplay` | internal/safety/engine.go:217-382 | In every run over any number of equipment, the runtime of each is the replay of its own calls only, watchdog mark apart |
| `SafetyRuns.DailyOnOverRuns` | internal/safety/engine.go:217-382 | The daily-counter law for whole runs of evaluations, reports, watchdog checks and policy changes |
| `SafetyRuns.ExtraOpChangesNoDailyOn` | internal/safety/engine.go:217-382 | Inserting an evaluation or a watchdog check at an intermediate time of an open day changes no later daily counter |
| `SafetyRuns.StepRuntime` | internal/safety/engine.go:217-382 | What each operation leaves as runtime of any one equipment, its own or another one |
| `SafetyRuns.RunKeepsValid` | internal/safety/engine.go:110-214 | Every run keeps admitted profiles, and keeps overrides and runtime to equipment with a profile |
| `SafetyRuns.EvaluateIsPlain` | internal/safety/engine.go:217-290 | Engines that differ only in overrides and in mode among normal, maintenance and manual give the same hard-limit verdict with the same reason to every intent |
| `SafetyRuns.HardLimitsIgnorePolicy` | internal/safety/engine.go:159-290 | The hard-limit verdicts of every run are those of the run with all override operations removed and those modes made normal |
| `SafetyRuns.PolicyRunsAgree` | internal/safety/engine.go:159-290 | Two runs that differ only in override operations and in the choice among those modes have the same hard-limit verdicts |
| `SafetyRuns.OffAlwaysAllowed` | internal/safety/engine.go:217-241 | An off command for known equipment is allowed in every mode and state, whatever the sensors say |
| `Watchdogs.AtMostOneActionPerEpisode` | internal/safety/engine.go:323-364 | Over every run, polls and causes mixed at will, there are no more watchdog actions than on-episodes |
| `Watchdogs.StepKeepsEpisode` | internal/safety/engine.go:293-320 | Until an off-report the equipment stays on and no operation, repeated on-reports included, moves the start of the episode; only an action marks it |
| `Watchdogs.RunKeepsEpisode` | internal/safety/engine.go:293-320 | The same over whole runs |
| `Watchdogs.SafeActionWithinLimit` | internal/safety/engine.go:323-364 | With checks at most a gap apart, equipment that is on and not reported off gets exactly one action, to its fail-safe state, at most one gap after its maximum-on limit is reached |
| `Watchdogs.CheckAtDeadlineActs` | internal/safety/engine.go:344-358 | A check at or after the limit acts on an episode not yet acted on |
| `Watchdogs.HazardousActionIsOffAndAllowed` | internal/equipment/profile.go:82-84 | The action on hazardous equipment is off, and passes evaluation in every engine that knows the equipment |
| `SafetyEngine.Engine.New` | internal/safety/engine.go:110-125 | Construction succeeds exactly for valid profiles with distinct equipment, and files every one |
| `SafetyEngine.Engine.Account` | internal/safety/engine.go:366-382 | The in-place update equals the accounting function and touches one equipment |
| `SafetyEngine.Engine.ValidateInputs` | internal/safety/engine.go:269-290 | The loop over required inputs returns the first fault, or the reader error |
| `SafetyEngine.Engine.RecordReported` | internal/safety/engine.go:293-320 | New state is that of the specification; unknown equipment and unset times are refused |
| `SafetyEngine.Engine.GrantOverride` | internal/safety/engine.go:177-202 | A grantable override is filed under its equipment and nothing else changes |
| `SafetyEngine.Engine.RevokeOverride` | internal/safety/engine.go:205-214 | Only the named override goes |
| `SafetyEngine.RecheckIsNoOp` | internal/safety/engine.go:323-364 | The second loop repeats nothing for equipment the first loop handled |
| `Accounting.BackdatedCallHarmlessIff` | internal/safety/engine.go:366-382 | An accounting dated back leaves the later daily on-time as it would have been exactly when it stays within the open day, that day is over by then, or nothing was counted yet |
| `Accounting.BackdatedCallForgetsToday` | internal/safety/engine.go:366-382 | Concrete calls, one of them dated back across midnight, after which the counter has lost on-time of the current day |
| `Watchdogs.OverrideExpiryActionIff` | internal/safety/engine.go:217-241 | After any run up to a check, without another check, an off-report or an override operation for the equipment, an expired override causes its action exactly when no evaluation of the equipment in the run is dated at or after the expiry |
| `Watchdogs.ActionIsNotRepeated` | internal/safety/engine.go:344-358 | Once issued, an action is not issued again in the same on-episode, in any run |
| `SafetyEngine.Engine.SetMode` | internal/safety/engine.go:159-171 | Only the mode changes; an unknown mode is refused |
| `Episodes.ReplayIsOn` | internal/safety/engine.go:293-320 | The on-flag is the latest report, for every sequence of calls |
| `Episodes.OnSinceIsStart` | internal/safety/engine.go:293-320 | The start of the episode is the time of the on-report that began it, whatever on-reports followed |
| `Episodes.OffSinceIsEnd` | internal/safety/engine.go:293-320 | The off-time is that of the last off-report that ended an on-episode, and unset if none did |
| `Grants.ModeIsLastSet` | internal/safety/engine.go:159-171 | After any run the mode is the last known one that was set |
| `Grants.OverridesAreStandingGrants` | internal/safety/engine.go:177-214 | After any run the override table holds exactly the proper grants not since replaced, revoked, or let go by a check or an evaluation at or after their end |
| `Verdicts.VerdictExactly` | internal/safety/engine.go:217-267 | After any run of a new engine, the verdict on an on-intent, case by case from the history: emergency stop; time on since the episode began; reported on-time of the day; time since the last episode ended; the first unacceptable input; the need for an override that stands; else allowed, naming the override |
| `Verdicts.InputsExactly` | internal/safety/engine.go:269-290 | The inputs pass exactly if each shows a good value, and the right one where asked; otherwise the first that does not decides, by what it shows |
| `Verdicts.EmergencyStopDenies` | internal/safety/engine.go:242-244 | In emergency stop every on-intent for known equipment is denied with a hard limit, whatever came before |
| `Verdicts.UnknownEquipmentIsRefused` | internal/safety/engine.go:226-230 | Unknown equipment is refused and nothing is recorded |
| `DailyLimit.CheckActsExactlyWhen` | internal/safety/engine.go:323-364 | After any run of a new engine, a check acts on equipment exactly when its reports have it on, no check has acted on the episode, and an override has run out, its time on or its reported on-time of the day has reached the limit; with the first of these as reason and the fail-safe state as action |
| `DailyLimit.MarkedIffActedOn` | internal/safety/engine.go:293-364 | The mark on an episode says exactly that a check acted on it with no off-report since |
| `DailyLimit.DailyActionWithinLimit` | internal/safety/engine.go:344-358 | With checks at most a gap apart, equipment that stays on gets exactly one action, at most one gap after its reported on-time of the day has reached the limit |
| `Profile.AdmittedIffProtected` | internal/equipment/profile.go:51-97 | A profile is admitted exactly when its kind, limits, fail-safe state, capabilities and inputs give the protection promised for them |
| `SafetyEngine.Engine.Evaluate` | internal/safety/engine.go:217-267 | New state and verdict are those of the specification, whose verdict is `Verdicts.VerdictExactly` |
| `SafetyEngine.Engine.Judge` | internal/safety/engine.go:239-267 | The order of hard limits, inputs and mode |
| `SafetyEngine.Engine.CheckWatchdogs` | internal/safety/engine.go:323-364 | The two deleting and appending map loops, in any traversal order, give the one-pass result for every equipment, and list each action of `DailyLimit.CheckActsExactlyWhen` once |
| `OutputRuns.SubmitSpendsKey` | internal/output/service.go:176-247 | A command reaches the executor only unexpired, at the expected revision, allowed by policy and with an unused key, which is used from then on |
| `OutputRuns.OneDispatchPerKey` | internal/output/service.go:176-247 | In every run each idempotency key reaches the executor at most once |
| `OutputRuns.RecordsMoveForward` | internal/output/service.go:176-298 | With fresh identifiers, in every run, no record is lost, commands never change, statuses only move forward and terminal records are final |
| `OutputRuns.ResubmissionReturnsRecord` | internal/output/service.go:197-206 | After any run, submitting a command again returns whatever the run made of its record, without a dispatch |
| `OutputRuns.EarlierRecordsKeptIff` | internal/output/service.go:358-365 | A recorded submission leaves earlier records alone exactly when its identifier was not in use |
| `OutputRuns.ExpireSettles` | internal/output/service.go:278-298 | Expiry settles only an acknowledged command at or after its deadline, and changes only its record |
| `OutputRuns.ReconcileSettles` | internal/output/service.go:250-273 | Reconciliation settles only an acknowledged command recorded with the safety engine, as succeeded exactly on a match |
| `OutputRuns.WatchdogReachesExecutor` | internal/output/service.go:330-356 | A watchdog action on hazardous equipment passes every gate within its time to live and reaches the executor as off |
| `OutputService.Service.Dispatch` | internal/output/service.go:227-247 | The stretch from validated to acknowledged or failed |
| `OutputService.Service.Record` | internal/output/service.go:358-365 | Files a record under its identifier and its key |
| `OutputService.Service.Reconcile` | internal/output/service.go:250-273 | New state and outcome are those of the specification |
| `OutputService.Service.ExpireAcknowledged` | internal/output/service.go:278-298 | New state and outcome are those of the specification |
| `OutputService.Service.RunWatchdogs` | internal/output/service.go:330-356 | Submits one command per action and stops at the first error |
| `OutputRuns.ActionSubmittedIff` | internal/output/service.go:330-356 | Of a batch of watchdog actions each is submitted exactly when none listed before it meets an error |
| `OutputService.Service.Transition` | internal/output/service.go:366-385 | Updates one record in place; an unknown identifier is not found and changes nothing |
| `OutputRuns.RepeatedKey` | internal/output/service.go:197-206 | A complete command under a used key changes nothing and is not sent; it conflicts exactly when its equipment, wanted state or requester differs from the stored one, and otherwise gets the stored result |
| `OutputRuns.UnrecordedMeans` | internal/output/service.go:176-223 | Which commands leave no record: exactly the incomplete ones, those in time with an unreadable revision, and those the policy fails on |
| `OutputRuns.RecordMeans` | internal/output/service.go:207-247 | What the record of a new command says, each status and reason with exactly what it means about time, revision, policy, bus and device; when it was acknowledged; and whether all its events were published |
| `OutputRuns.ErrorExactlyWhen` | internal/output/service.go:207-247 | When submitting a complete command under a new key is an error |
| `OutputRuns.RecordsAreComplete` | internal/output/service.go:401-421 | Every record of every run carries identifiers, a bounded key, a requester and a period |
| `OutputService.Service.Submit` | internal/output/service.go:176-247 | The in-place gates, records and transitions give the state, result and dispatch whose meaning is `OutputRuns.RecordMeans` |
| `ShellyRuns.SuccessIsProven` | internal/adapters/shelly/adapter.go:178-292 | Over every interleaving of submissions, poll sections and safety-engine operations, a command on record as succeeded was admitted by the engine for its own intent, sent once, accepted, matched by a polled reading before its deadline, and that reading was taken by the engine; no record says reported-mismatch; an adapter expiry is at or after the deadline |
| `ShellyRuns.SuccessWasAllowed` | internal/output/service.go:220-226 | The evidence in terms of the engine: a state in which evaluating the intent of the command allowed it, and one in which recording the confirming reading succeeded |
| `ShellyRuns.RunHonest` | internal/output/service.go:257-262 | In every run each judgement and each record in the log is what the safety engine answers in the state the entry names |
| `ShellyRuns.RunKeeps` | internal/adapters/shelly/adapter.go:178-292 | The protocol invariant behind it, kept by every run |
| `ShellyRuns.StepKeeps` | internal/adapters/shelly/adapter.go:178-292 | Every section keeps the invariant, loses no record, and changes the record of a pending command only |
| `ShellyRuns.SettleConfirmsPending` | internal/adapters/shelly/adapter.go:251-267 | The section that makes a command succeed settles what is pending at that moment |
| `ShellyRuns.ReadingFollowsDispatchIff` | internal/adapters/shelly/adapter.go:227-267 | In every interleaving, the device had taken a command before the reading that confirms it exactly when that command was pending as the reading was taken |
| `ShellySteps.SubmitShape` | internal/adapters/shelly/adapter.go:178-194 | Everything a submission can leave: at most a judgement, or one new record with its trail and, if accepted, its pending entry |
| `ShellySteps.SentIsAllowed` | internal/output/service.go:194-231 | What is sent has passed every gate, with an allowing evaluation |
| `ShellySteps.SubmitKeeps` | internal/adapters/shelly/adapter.go:178-194 | One submission through engine, service and adapter keeps the invariant and only adds |
| `ShellySteps.FailureKeeps` | internal/bench/coordinator.go:175-193 | The edge-triggered safe response does too |
| `ShellySteps.ReadKeeps` | internal/adapters/shelly/adapter.go:211-243 | Taking a reading keeps the invariant and marks what was pending |
| `ShellySteps.HandOverKeeps` | internal/bench/coordinator.go:115-162 | Handing over a report or a failure keeps it and confirms nothing |
| `ShellySteps.ReconcileKeeps` | internal/adapters/shelly/adapter.go:261-267 | A matching reading in time completes the proof of the pending command if the engine takes it, and changes no record otherwise |
| `ShellySteps.ReconcileForm` | internal/output/service.go:250-273 | The pending command becomes succeeded exactly when it is acknowledged and the engine takes the reading |
| `ShellySteps.ExpireKeeps` | internal/adapters/shelly/adapter.go:279-292 | Expiry changes only the record of the pending command and keeps the invariant |
| `ShellyEnds.SerialReadingFollowsDispatchIff` | internal/adapters/shelly/adapter.go:211-268 | For a poll that nothing interrupts: taken before the reading exactly when pending as the poll began, and otherwise the safe response of that poll |
| `ShellyEnds.OvertakenReadingConfirms` | internal/adapters/shelly/adapter.go:227-267 | Any command that wants what a poll under way has read, and is accepted before that poll settles, is confirmed by the older reading |
| `ShellyEnds.StaleReadingConfirms` | internal/bench/coordinator.go:148-162 | Without interruption, for a whole family of states, a safe response is confirmed by the reading that caused it |
| `ShellyEnds.SettledAtDeadlineIff` | internal/adapters/shelly/adapter.go:279-292 | A poll that ends at or after the deadline of an acknowledged command of its equipment expires that command exactly when it is the one pending, and otherwise leaves its record alone |
| `ShellyEnds.OrphanNeverSettled` | internal/adapters/shelly/adapter.go:178-292 | The record of a command that is not pending never changes again, in any run |
| `ShellyEnds.SupersededNeverSettled` | internal/adapters/shelly/adapter.go:186-193 | An accepted command displaces the pending one of its equipment, whose record then stays as it is in every run |
| `ShellyAdapter.Bench.SetWithRetry` | internal/adapters/shelly/adapter.go:294-308 | The retry loop succeeds exactly if one of the allowed attempts does |
| `ShellyAdapter.Bench.Answer` | internal/adapters/shelly/adapter.go:178-194 | The acknowledgement for known equipment, rejection for unknown |
| `ShellyAdapter.Bench.Consult` | internal/output/service.go:220-223 | The engine is asked exactly when the command is well-formed, new, in time and at its revision |
| `ShellyAdapter.Bench.Submit` | internal/adapters/shelly/adapter.go:178-194 | New state of engine, service and adapter is that of the specification |
| `ShellyAdapter.Bench.Failure` | internal/bench/coordinator.go:175-193 | The safe state is requested on entering failure only |
| `ShellyAdapter.Bench.Expire` | internal/adapters/shelly/adapter.go:279-292 | The pending entry goes once its command has been expired and published |
| `ShellyAdapter.Bench.ExpireIfNeeded` | internal/adapters/shelly/adapter.go:279-292 | Nothing before the deadline unless forced; then expiry and failure |
| `ShellyAdapter.Bench.Reconcile` | internal/output/service.go:250-273 | The reading goes to the engine, then settles the command; the pending entry goes once that is published |
| `ShellyAdapter.Bench.Read` | internal/adapters/shelly/adapter.go:211-238 | First section: configuration and status, failed polls included |
| `ShellyAdapter.Bench.Look` | internal/adapters/shelly/adapter.go:240-247 | Second section: desired and pending as read for the report |
| `ShellyAdapter.Bench.Report` | internal/bench/coordinator.go:115-162 | Fault, divergence and convergence as in the specification |
| `ShellyAdapter.Bench.HandOver` | internal/adapters/shelly/adapter.go:248-250 | Third section: the report, or the failure of the poll |
| `ShellyAdapter.Bench.Settle` | internal/adapters/shelly/adapter.go:251-268 | Last section: what is pending by now expires, is confirmed, or waits |
| `ShellyAdapter.Bench.Poll` | internal/adapters/shelly/adapter.go:211-277 | An uninterrupted poll equals its sections one after the other |
| `ShellyEnds.SentOutcome` | internal/adapters/shelly/adapter.go:178-194 | An admitted command is acknowledged exactly when its equipment has an endpoint and one of the allowed attempts succeeds, rejected exactly without an endpoint, and failed otherwise |
| `ShellyEnds.ReadIff` | internal/adapters/shelly/adapter.go:211-238 | A poll has a reading exactly when both requests are answered and the power-return setting is the configured one |
| `ShellyEnds.FailingExactlyWhen` | internal/bench/coordinator.go:148-193 | Handing over makes an endpoint failing, healthy, or leaves it, exactly by answer, fault, output, wanted state and what is pending |
| `ShellyEnds.PolledFailing` | internal/bench/coordinator.go:148-162 | The same for an answered poll, from the tables as the poll found them |
| `ShellyEnds.RepeatedFailuresSendOnce` | internal/bench/coordinator.go:175-193 | Any number of failures in a row equals the first: no second safe command |
| `ShellyEnds.FailureRequestsSafeState` | internal/bench/coordinator.go:189-193 | Entering failure leaves the configured safe state pending and desired, until twice the request timeout |
| `ShellyEnds.WithoutPolicyNothingHappens` | internal/bench/coordinator.go:176-179 | An endpoint without a policy changes nothing by failing |
| `ShellyEnds.ResponsesHaveOwnKeys` | internal/bench/coordinator.go:189-189 | The key of a safe response tells its time, so none repeats another |
| `ShellyEnds.ExpirySignalsFailure` | internal/adapters/shelly/adapter.go:279-292 | Expiry of a pending command makes the endpoint failing |
| `AlarmRuns.EngineRefinesHistory` | internal/alarms/manager.go:208-358 | Over every run the incremental engine makes, for each rule, exactly the decisions of a reference that keeps only the history of accepted observations, and its open alarm is described by that history |
| `AlarmRuns.RaisedAndClearedExactlyWhen` | internal/alarms/manager.go:208-308 | Raised exactly on a newer active observation without an open alarm whose trailing active block spans the debounce time; auto-cleared exactly when open, not latching and the healthy block spans the hysteresis time |
| `AlarmRuns.BlockStartIsOldestAgreeing` | internal/alarms/manager.go:248-308 | The trailing block of the reference is a maximal run of agreeing observations at the end of the history |
| `AlarmRuns.ClearTracks` | internal/alarms/manager.go:334-358 | A manual clear succeeds exactly when the alarm is open and its condition healthy; the pending-clear time it leaves behind does not disturb the refinement |
| `AlarmRuns.RegisteredIsTracked` | internal/alarms/manager.go:190-204 | A newly registered rule starts with an empty history |
| `AlarmRuns.LateDeliveryIsHarmless` | internal/alarms/manager.go:222-246 | Every run ends in the same rules and alarms as the run without duplicate and late observations |
| `AlarmRuns.AcknowledgingDecidesNothing` | internal/alarms/manager.go:311-331 | Removing every acknowledgement from a run changes no decision, and nothing in the final state but the acknowledgements |
| `AlarmRuns.DescribesSnoc` | internal/alarms/manager.go:424-434 | Evidence stays the latest entries within the limit, severity the worst seen, occurrences the active count |
| `AlarmRuns.StepKeepsValid` | internal/alarms/manager.go:190-358 | Every operation keeps current alarms filed under their own rule |
| `AlarmManager.Manager.constructor` | internal/alarms/manager.go:151-156 | Starts empty, with an evidence limit of at least one |
| `AlarmManager.Manager.RegisterRule` | internal/alarms/manager.go:190-204 | Invalid and duplicate rules are refused, else filed |
| `AlarmManager.Manager.Observe` | internal/alarms/manager.go:208-246 | New state and transition are those of the specification |
| `AlarmManager.Manager.ApplyObservation` | internal/alarms/manager.go:248-308 | The in-place state machine equals the specified one |
| `AlarmManager.Manager.Acknowledge` | internal/alarms/manager.go:311-331 | Only an active alarm is acknowledged |
| `AlarmManager.Manager.Clear` | internal/alarms/manager.go:334-358 | Only an open alarm with a healthy condition is cleared |
| `AlarmRuns.ObservedStatus` | internal/alarms/manager.go:248-308 | A raised alarm is active and neither acknowledged nor cleared, one that clears itself is cleared as of the observation, any other keeps status and acknowledgement |
| `AlarmRuns.AcknowledgedIff` | internal/alarms/manager.go:311-331 | Acknowledged exactly if active, and only that changes |
| `AlarmRuns.ClearedIff` | internal/alarms/manager.go:334-358 | Cleared exactly if its condition is healthy and it is not cleared, and only that changes |
| `AlarmRuns.RegisteredIff` | internal/alarms/manager.go:406-423 | A rule is registered exactly if it is complete and new |
| `AlarmRuns.WorstIsWorst` | internal/alarms/manager.go:248-308 | The severity of an alarm is the worst of its rule and its active observations |
| `Snapshots.KeyStringInjective` | internal/state/manager.go:342-344 | Validated keys with the same text are equal, although attributes may contain slashes |
| `Snapshots.SnapshotIsCanonical` | internal/state/manager.go:258-270 | Store contents and clock determine the snapshot, whatever the map order |
| `Snapshots.SnapshotAgreesWithGet` | internal/state/manager.go:195-211 | One entry per key and no other, each what a read at the same instant gives, with distinct revisions up to that of the snapshot |
| `Snapshots.SameElementsSameOrder` | internal/state/manager.go:258-270 | Strictly ordered sequences with the same entries are the same |
| `Snapshots.InsertKeepsOrder` | internal/state/manager.go:258-270 | Inserting an entry with a new key keeps the order strict |
| `Snapshots.LessTotal` | internal/state/manager.go:258-270 | Texts are totally ordered |
| `Subscriptions.EveryDropIsReported` | internal/state/manager.go:242-285 | For every interleaving with a receiving consumer: drop counts received and queued add up to the discarded updates, revisions rise strictly, the queue ends with the newest and stays within capacity, the final send has room |
| `Subscriptions.RunKeeps` | internal/state/manager.go:271-285 | The channel invariant, kept by every section of a delivery and every receive |
| `Subscriptions.DeliveryCompletes` | internal/state/manager.go:271-285 | An undisturbed delivery ends with the snapshot queued, the oldest given up only if full, its count carried on |
| `StateStore.SetKeepsValid` | internal/state/manager.go:167-192 | Storing keeps distinct revisions up to that of the store |
| `StateStore.DeleteKeepsValid` | internal/state/manager.go:224-239 | Deleting does too |
| `StateStore.Manager.Set` | internal/state/manager.go:167-192 | Refused values change nothing; a valid one is stored under the next revision and delivered to all, published or not |
| `StateStore.Manager.Delete` | internal/state/manager.go:224-239 | An existing key goes, under a new revision, and the snapshot is delivered |
| `StateStore.Manager.Get` | internal/state/manager.go:195-211 | The read of the specification, stale once its freshness is over |
| `StateStore.Manager.Subscribe` | internal/state/manager.go:242-256 | Capacities from 1 to 1024, a fresh number, and the current snapshot first |
| `StateStore.Manager.SnapshotLocked` | internal/state/manager.go:258-270 | Collecting in any order and sorting gives the canonical snapshot |
| `StateStore.Manager.DeliverLocked` | internal/state/manager.go:271-285 | Every channel gets the delivery |
| `Snapshots.StoredIsRead` | internal/state/manager.go:167-211 | What is stored is read back, under the next revision, with its quality until its freshness is over and stale from then on; no other key changes |
| `Snapshots.DeletedIsGone` | internal/state/manager.go:224-239 | A deleted key is absent and no other changes; deleting an absent key changes nothing, revision included |
| `Snapshots.StoredValuesAreSound` | internal/state/manager.go:295-330 | Every stored value has a key of its kind, one scalar, a known quality, times in order and a source |
| `Snapshots.LessExactly` | internal/state/manager.go:258-270 | Texts are in dictionary order |
| `Subscriptions.WithoutDropsNothingIsMissed` | internal/state/manager.go:242-285 | A subscriber nothing was discarded for gets the snapshot it subscribed at and every later one, in order, under every interleaving |
| `Chain.BadProbeStopsCommands` | internal/output/service.go:220-226 | So no such command reaches the executor |
| `Chain.ConditionShows` | internal/adapters/esp32/adapter.go:172-236 | Every condition found shows in the quality of a measurement |
| `Chain.UnfitInputDenies` | internal/safety/engine.go:269-290 | An unfit required input anywhere in the list denies with a hard limit |
| `Chain.HealthyPollRefreshesIff` | internal/adapters/esp32/adapter.go:172-236 | A healthy poll refreshes both probes exactly when its snapshot is not dated after the poll; a later one within the clock skew leaves the store as it was |
| `Chain.RefreshedReadsGoodUntil` | internal/state/manager.go:195-211 | Refreshed probes read good until their freshness is over and stale from then on |
| `Esp32Adapter.Adapter.IndexProbes` | internal/adapters/esp32/adapter.go:185-195 | Succeeds exactly for valid, distinct probe identities |
| `Esp32Adapter.Adapter.ReadProbes` | internal/adapters/esp32/adapter.go:198-207 | The readings of the configured probes, and whether one is missing |
| `Chain.UnknownNodeWritesNothing` | internal/bench/coordinator.go:165-201 | A poll of a node without a policy leaves the store as it was |
| `Chain.SnapshotAheadIsLost` | internal/adapters/esp32/adapter.go:179-181 | For every endpoint that permits a skew and every time ahead within it, a snapshot that the adapter finds healthy and the store refuses |
| `Esp32Adapter.Adapter.MarkUnavailable` | internal/bench/coordinator.go:197-217 | Both probes become unavailable in the store, given a policy |
| `Esp32Adapter.Adapter.Report` | internal/bench/coordinator.go:165-171 | Both measurements go to the store, given a policy |
| `Probes.BadIff` | internal/adapters/esp32/adapter.go:149-236 | A poll is found bad exactly when the fields of the reply have it so: no reply, malformed, too far ahead, repeated, a probe absent or unusable, the two too far apart, or not fresh |
| `Probes.StoredExactly` | internal/adapters/esp32/adapter.go:149-236 | What a poll leaves in the store, from the fields of the reply: for each probe its own reading, and whether it is unavailable, invalid, stale, suspect or good |
| `Probes.TakenOnce` | internal/adapters/esp32/adapter.go:227-235 | After a snapshot has been taken, none of the same boot with the same or a lower number is; other nodes are not affected |
| `Probes.RejectedIsForgotten` | internal/adapters/esp32/adapter.go:227-235 | A rejected snapshot does not count as sent |
| `Chain.BadProbeBlocksHeater` | internal/adapters/esp32/adapter.go:149-242 | From a poll of a node with a policy that is bad by its fields, through every run without another poll of it, every on-intent for hazardous equipment that requires both probes is denied with a hard limit |
| `Chain.BadPollLeavesUnfitProbe` | internal/bench/coordinator.go:165-217 | After such a poll one probe has no good reading in the store |
| `Esp32Adapter.Adapter.ValidateSnapshot` | internal/adapters/esp32/adapter.go:172-236 | Verdict, measurements and remembered sequence are those of the specification, whose verdict is `Probes.BadIff` |
| `Esp32Adapter.Adapter.Poll` | internal/adapters/esp32/adapter.go:149-170 | A whole poll, through coordinator and store, equals the specified step, whose effect is `Probes.StoredExactly` |
| `Storage.WriterConserves` | internal/storage/storage.go:195-292 | Under every schedule, at every step, written, batch and queue are in order exactly what was accepted; batch and queue stay within bounds; what was written is a prefix |
| `Storage.BackoffFollowsStreak` | internal/storage/storage.go:226-242 | Under every schedule the backoff depends only on the number of consecutive full-batch failures |
| `Storage.BackoffIsCappedDoublingIff` | internal/storage/storage.go:226-242 | The backoff is the minimum doubled up to the maximum, for every number of retries, exactly when the maximum is below 2 to the 62 nanoseconds |
| `StorageWriter.Writer.Write` | internal/storage/storage.go:270-284 | A batch counts as written only if the client took it |
| `StorageWriter.Writer.Run` | internal/storage/storage.go:220-269 | The loop, from start to return, equals the specified run under every schedule |
| `StorageWriter.Writer.Turn` | internal/storage/storage.go:226-267 | One turn of the loop |
| `Storage.ReturnedWritesNothing` | internal/storage/storage.go:220-292 | Once the writer has returned nothing more is written in any run, and the queue keeps what it gets |
| `Storage.AcceptedAfterReturnIff` | internal/storage/storage.go:195-213 | After that a valid point that finds room is still accepted exactly when Stop was not called, and then it is never written |
| `Storage.ShutdownWritesWhatItCan` | internal/storage/storage.go:285-292 | Shutdown tries the batch once, and it is left over exactly if that fails |
| `StorageWriter.Writer.Enqueue` | internal/storage/storage.go:195-213 | Accepted, dropped for a full queue, or refused after Stop |
| `Storage.TickWritesBatch` | internal/storage/storage.go:258-267 | A tick writes whatever was collected, full or not, and keeps it if the client refuses |
| `Storage.FullBatchFirst` | internal/storage/storage.go:227-242 | A full batch is written before anything else, whatever the schedule |
| `Storage.CanCatchUp` | internal/storage/storage.go:220-269 | From every state of a running writer some schedule of its own turns writes everything accepted |
| `Storage.CancelledWritesOneBatch` | internal/storage/storage.go:244-255 | A cancelled writer can still write what it collected and what is queued, up to one batch, and returns |
| `Storage.AcceptedAreBounded` | internal/storage/storage.go:303-331 | Every point accepted in a run is bounded |
| `Storage.OfferedAreCounted` | internal/storage/storage.go:195-213 | Every valid point offered while running is accepted or counted as dropped |
| `Storage.DroppedIffFull` | internal/storage/storage.go:206-212 | A point is dropped exactly when the queue is full |
| `Storage.StopEndsAcceptance` | internal/storage/storage.go:158-176 | After Stop nothing more is accepted, in any run |
| `MqttConsumer.RunKeeps` | internal/mqtt/envelope.go:204-239 | Under every interleaving the lookup set is the window, without repeats and within capacity |
| `MqttConsumer.SuppressedIffAlone` | internal/mqtt/envelope.go:204-239 | A message whose handler does not fail is suppressed until capacity later reservations exactly when no earlier handler of it was still running |
| `MqttConsumer.StaleFailureReleases` | internal/mqtt/envelope.go:226-237 | The schedule that shows it: a late failure gives up the reservation of its successor |
| `MqttConsumer.SerialDeliveryIsSuppressed` | internal/mqtt/envelope.go:204-239 | Deliveries that do not overlap are suppressed for the full window |
| `MqttIntake.Consumer.Reserve` | internal/mqtt/envelope.go:212-225 | The first critical section equals the specified step |
| `MqttIntake.Consumer.Release` | internal/mqtt/envelope.go:226-237 | The search and removal after a failure equal the specified step |
| `MqttQueue.QueueConserves` | internal/mqtt/client.go:233-260 | Under every interleaving of offers with a flush, every accepted publication is, in order, published or dropped as expired, in flight, or waiting |
| `MqttQueue.FlushConserves` | internal/mqtt/client.go:345-366 | A whole undisturbed flush ends, loses nothing, never grows the queue, and succeeds exactly when it empties it |
| `MqttQueue.DisturbedFlushOverflows` | internal/mqtt/client.go:345-366 | A disturbed one reaches capacity plus one, from every full queue |
| `MqttQueue.OfflineQueue.Enqueue` | internal/mqtt/client.go:233-260 | Accepted exactly if publishable, small enough, unexpired and with room |
| `MqttQueue.OfflineQueue.FlushAll` | internal/mqtt/client.go:345-366 | The loop equals the specified flush |
| `MqttQueue.WithinCapacityIff` | internal/mqtt/client.go:233-366 | Over any interleaving of offers with a flush, the queue is within capacity at every point, however the publication in flight ends, exactly when no offer is accepted while one is in flight and the rest leave no place but its own |
| `MqttQueue.SerialRunWithinCapacity` | internal/mqtt/client.go:233-366 | Any mix of offers and whole flushes stays within capacity |
| `MqttQueue.FlushIsRun` | internal/mqtt/client.go:345-366 | A whole flush is such a run without offers |
| `MqttQueue.AcceptedIff` | internal/mqtt/client.go:233-260 | An offer is accepted exactly if proper, small enough, alive and with room |
| `MqttQueue.SegmentsExactly` | internal/mqtt/client.go:448-458 | The segments of a topic are its parts between slashes |
| `MqttQueue.PublishedIffAlive` | internal/mqtt/client.go:345-366 | In every run what is published is alive then, and what is dropped has expired |
| `MqttQueue.SettledIff` | internal/mqtt/client.go:345-366 | Settling ends a publication exactly if it has expired or its publish succeeds, and otherwise returns it to the head |
| `Limiter.RunKeeps` | internal/api/v1.go:105-133 | Tokens stay between zero and burst, and the table within its maximum, in every run |
| `Limiter.VictimLeastRecentIff` | internal/admin/rate_limit.go:26-54 | The evicted client is least recently updated for every traversal exactly when the empty name is not the only least recent client beside others |
| `Limiter.CallPays` | internal/api/v1.go:105-133 | Each allowed call is paid for out of what is available |
| `RateLimiter.RateLimiter.constructor` | internal/api/v1.go:96-104 | Rates and bursts below one count as one, 1024 clients |
| `RateLimiter.RateLimiter.FindOldest` | internal/api/v1.go:110-119 | The minimum search over the map, in any traversal order |
| `Limiter.RateBound` | internal/api/v1.go:105-133 | A client not evicted between two times is allowed at most burst plus rate times the seconds between them |
| `Limiter.AllowExactly` | internal/api/v1.go:105-133 | A new client is allowed and starts with the burst less one; a known one is allowed exactly if its tokens and rate times the seconds since its last call, up to the burst, are at least one; nothing else changes but one eviction when full |
| `Limiter.SpacedIsNeverDenied` | internal/admin/rate_limit.go:26-54 | A client whose calls come at least the time of one token apart is never denied, whatever others do |
| `RateLimiter.RateLimiter.Allow` | internal/api/v1.go:105-133 | The in-place bucket update and eviction equal the specified call, whose answer is `Limiter.AllowExactly` |
| `Simulator.InfrastructureFaultsAreInvisible` | internal/adapters/simulator/model.go:173-338 | Taking all broker, storage and acknowledgement faults out of a valid scenario leaves a valid one with the same tank, equipment, readings, safe transitions and place in the random stream at every step, and the same alarms but those about acknowledgements |
| `Simulator.TemperatureBounded` | internal/adapters/simulator/model.go:207-291 | Without misleading faults and with an exchange of at most the whole difference a step, the temperature stays between the lower of start and ambient and one heating step above the highest of start, ambient and upper limit, for any number of steps |
| `Simulator.LevelBounded` | internal/adapters/simulator/model.go:286-290 | The level stays between 0 and 100 in every valid scenario |
| `Simulator.StaleExactlyWhen` | internal/adapters/simulator/model.go:218-234 | In every run a reading is stale exactly when the probe is stuck and its last delivery is at least the freshness window old; the heater is then not wanted |
| `Simulator.StuckProbeRepeats` | internal/adapters/simulator/model.go:218-225 | A stuck probe shows the value of its last delivery |
| `Simulator.HeaterOffWhenHot` | internal/adapters/simulator/model.go:232-240 | At the upper limit the heater is off |
| `Simulator.SameEffects` | internal/adapters/simulator/model.go:293-338 | Filtering the schedule and selecting the active faults commute, for every effect on the tank |
| `SimulatorRunner.ActiveFaults` | internal/adapters/simulator/model.go:293-301 | The loop selects the active faults in order |
| `SimulatorRunner.HasFault` | internal/adapters/simulator/model.go:323-330 | The search finds a kind exactly if it is there |
| `SimulatorRunner.FaultValue` | internal/adapters/simulator/model.go:331-338 | The search returns the first value of the kind |
| `SimulatorRunner.ModelRunner.Observe` | internal/adapters/simulator/model.go:210-225 | Reading, quality, draws and held reading are those of the specification |
| `SimulatorRunner.ModelRunner.Decide` | internal/adapters/simulator/model.go:228-249 | Hysteresis, leak response and alarms |
| `SimulatorRunner.ModelRunner.Obey` | internal/adapters/simulator/model.go:261-270 | Stuck relay and failed pump |
| `SimulatorRunner.ModelRunner.AdvancePhysics` | internal/adapters/simulator/model.go:280-291 | The in-place physics |
| `SimulatorRunner.ModelRunner.Tick` | internal/adapters/simulator/model.go:207-278 | New state and trace are those of the specification |
| `SimulatorRunner.Run` | internal/adapters/simulator/model.go:173-192 | Refused exactly if invalid; else one trace a step, of the state the earlier steps lead to |
| `Simulator.WantedExactly` | internal/adapters/simulator/model.go:226-249 | What a step wants, exactly from leak, reading, quality, level and what was wanted before |
| `Simulator.ReportedExactly` | internal/adapters/simulator/model.go:253-272 | What is reported, acknowledged and reachable, exactly from what is wanted and the faults |
| `Simulator.AlarmsExactly` | internal/adapters/simulator/model.go:227-267 | Each alarm of a step, exactly when |
| `Simulator.TransitionsExactly` | internal/adapters/simulator/model.go:303-321 | Safe transitions are what was wanted before and is not now |
| `Simulator.ObservedExactly` | internal/adapters/simulator/model.go:210-217 | What a delivering probe shows: water, drift since the start, noise |
| `Simulator.DrawsExactly` | internal/adapters/simulator/model.go:214-217 | One draw a step exactly when there is noise |
| `Simulator.LeakingTankCools` | internal/adapters/simulator/model.go:246-291 | While it leaks, whatever else is wrong but a relay stuck on, the gap to ambient shrinks by the same factor every step |
| `Simulator.DrivenStep` | internal/adapters/simulator/model.go:280-291 | Heating and filling add exactly their rate to what a step does anyway |
| `Simulator.ValidIffSane` | internal/adapters/simulator/model.go:131-169 | Which scenarios run |
| `Simulator.FirstStepTurnsOff` | internal/adapters/simulator/model.go:177-186 | A run starts with the two pumps running and nothing else |

## Left out

- HTTP and WebSocket servers, the admin interface, command-line programs and configuration loading: input and output without a law of their own.
- JSON, YAML, MQTT and HTTP encoding: decoded values are inputs.
- Start, stop, health and metrics, tickers, goroutines and context timeouts: only the step that a tick performs is modelled.
- Registries, the event bus, discovery, operations, the alarm evaluator and `internal/equipment/machine.go`: simple tables that would add only easy members.
- Alarm rules and events of the failure policy: `internal/bench/coordinator.go` also raises alarms, which neither the store nor the commands depend on.
- Correlation identifiers, log output, evidence metadata and the update times of records.
- Floating-point rounding: token buckets and simulator work on reals, and the four-decimal rounding of simulator traces is not modelled.
- Saturation of time differences beyond 292 years: limits are 64-bit durations, so no comparison depends on it.
- Wrap-around of the 64-bit revision and sequence counters.
- Order of simulator alarms and transitions: they are sets, while the Go code sorts them by name.
- Overlapping calls of the command service, as described above.
- Restarts of the telemetry writer: `StorageWriter.Writer.Run` is one run.
- Reconnection and its jittered delays, availability messages and restored subscriptions of the MQTT client.
- Limiters with a maximum below one: `internal/admin/rate_limit.go:22-24` accepts any maximum; `Limiter.RunKeeps` is about those of at least one.
- Adapter error tables.
- ShellyAdapter.Bench.Report: the writes of a report (state, power, voltage, current) to the store are one flag that says whether all were taken, because nothing in the protocol reads them back.
- StateStore.Manager.DeliverLocked: no consumer receives between the channel operations of one delivery; `Subscriptions.EveryDropIsReported` covers those interleavings on the channel alone.
