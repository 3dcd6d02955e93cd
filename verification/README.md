# Orchestrator control core, modelled in Dafny

This project models the state machines around the planner/executor cycle of the orchestrator and
proves what they keep. A cycle itself is an arbitrary function from a cycle number and a run to a
result that may also be an error; everything below holds for every such function.

| file | what it models |
|---|---|
| `RunLoops.dfy` | the bounded and the foreground run loop, their stop-reason deciders, and a simulation between them |
| `RunStops.dfy` | what the traces of the two loops say, read off what the cycles returned |
| `StopFlag.dfy` | the stop-flag file under an operator and any number of invocations that act at any time, also between a stat and a removal |
| `RunProtocol.dfy` | reserving, attaching and finishing the single run, the on-disk guard, crashes, restarts and stale-run recovery |
| `Recovery.dfy` | stale-run recovery, read off the request, the guard file and the store |
| `Broker.dfy` | the event broker: bounded history, replay on subscribe, 64-slot channels, concurrent cancels |
| `BuildTime.dfy`, `BuildRaces.dfy` | the build-time ledger with truncating millisecond arithmetic, and overlapping ends of a session |
| `Config.dfy`, `RuntimeConfig.dfy`, `ConfigRaces.dfy` | the configuration normalisers, patching, saving and reloading a configuration, and overlapping changes of it |
| `PatchReads.dfy` | what the defaults and a patch leave of a configuration, field by field |
| `ControlQueue.dfy`, `TextOrder.dfy` | the control-message table, and how its text keys order against time |
| `Paths.dfy`, `RepoPaths.dfy` | `path.Clean` as its one-pass scan against a component stack, and the repository path helpers |
| `Workers.dfy` | everything that writes the worker table, store call by store call: the worker commands, the planner's dispatches and the run loop |
| `WorkerReads.dfy` | what those commands admit and leave in a row, in the words of the table |
| `WorkerRaces.dfy` | those store calls interleaved, by processes that die at any point: exclusive dispatch |
| `WorkerSteps.dfy` | the store methods perform the steps of that transition system |
| `WorkerApprovals.dfy` | the same runs: waiting for approval, and the run's stop reason |
| `WorkerFreezes.dfy` | the same runs: which workers nobody can move any more |
| `Autofill.dfy` | autofill targets, and the request and response checks |
| `Launcher.dfy`, `LauncherReads.dfy` | PATH repair, command search and the launcher's status, and the same read off their inputs |
| `Journal.dfy` | appending events to the journal and reading back the recent ones |
| `Text.dfy` | `strings.TrimSpace`, `strings.ToLower` and small helpers |

Code that changes things step by step is a method or a class proved equal to a function of the old
state; the theorems are lemmas about those functions, over all inputs or over all runs of a
transition system whose steps that are not possible change nothing. What such a function means is said again
in terms of the inputs alone, in lemmas whose names end in `Reads` and in their neighbours.

## What the code does not do

The following natural expectations do not hold of the code. Each is stated with the exact condition
or with a witness.

- A timeout spelled `default` becomes the empty string, and only a second pass puts the real default
  there; `WithDefaults` is a fixed point after one application exactly when no timeout is spelled so
  (`Config.WithDefaultsSettles`).
- Repeating a patch changes the configuration again exactly when its first application switched off
  all thirteen permission flags and the preset put in their place has flags the patch switches off,
  but not all (`RuntimeConfig.RepeatingAPatch`).
- A reload straight after a save reports a change when the list of skipped versions was empty but not
  nil: such a list is omitted from the file and comes back as nil (`RuntimeConfig.ReloadAfterSave`).
- Of two overlapping changes of the configuration the later can be in memory and the earlier in the
  file, with nothing left to write, and a reload takes the later back (`ConfigRaces.OlderChangeWins`).
  Without reloads, the file ends up with the last change if and only if no older one was written over
  it (`ConfigRaces.FileIsCurrentExactly`).
- Two overlapping ends count one build session twice (`BuildRaces.OverlappingEndsCountTwice`). The total
  is never too small, and right if and only if every end adds what its session is worth when it is
  written (`BuildRaces.TotalIsRightExactly`).
- `Subscribe` sends the replay into a channel nobody reads yet while it holds the lock. With more than
  64 retained events newer than the requested number it never returns, and from then on nobody can
  publish, subscribe or cancel (`Broker.SubscribeBlocks`, `Broker.LongReplayWedges`,
  `Broker.WedgedForGood`).
- A subscriber that claims to have seen a future number is still sent lower numbers
  (`Broker.FutureSubscriberGetsOldNumbers`).
- The two loops look at different planner turns for "ask human". With no failing call and no stop flag
  the bounded loop is a prefix of the unbounded one if and only if the two answers agree on every cycle
  the bounded loop runs (`RunLoops.ContinueIsPrefixExactly`, `RunLoops.DecidersAgreeExactly`;
  `RunLoops.DisagreementSeparatesTheLoops` is an environment in which they do not).
- A stop flag whose removal fails ends the invocation with an error and stays: one raising can end any
  number of invocations (`StopFlag.SeenFlagIsConsumedOrMissed`, `StopFlag.OneRaisingEndsMany`), and two
  that see it together, one of them with an error, even if both removals would work
  (`StopFlag.OneRaisingEndsTwo`). A write of the flag that fails half way is reported as an error and
  raises it (`StopFlag.FlagFile.Set`).
- An inactive backend sees a guard that looks live if and only if a removal of its own guard has failed
  and nothing has replaced that guard since (`RunProtocol.InactiveSeesLiveGuardExactly`,
  `RunProtocol.FailedRemovalLeavesALiveGuard`).
- Recovery that finds no run ignores whether the removal worked: its "guard cleared" is true if and only
  if the removal worked or the run was found (`RunProtocol.ClearedReportIsTrueExactly`,
  `RunProtocol.ClearedReportCanBeFalse`). A recovery that is refused because the run cannot be read a
  second time has removed the guard all the same (`RunProtocol.RefusalKeepsGuardExactly`,
  `RunProtocol.RefusalCanLoseTheGuard`).
- Stored message keys are not in time order within one second when one fraction, cut of its trailing
  zeros, is a proper prefix of the other (`TextOrder.KeyOrderAgainstTime`). A message that was
  cancelled while the planner was working on it ends up consumed (`ControlQueue.RowTellsItsStory`).
- Normalising a repository path twice can differ from normalising it once: cleaning can expose white
  space that the next call trims (`RepoPaths.NormalizedIsFixedWhenTrimmed`). The test for an empty
  repository root after cleaning can never succeed, because a cleaned path is never empty.
- A dispatch checks that its worker is idle on a row it read earlier. Two dispatches that both read
  before either marks the worker are both in flight (`WorkerRaces.TwoDispatchesRace`), and an interrupt,
  kill or steer that read before the mark overwrites it (`WorkerRaces.StaleNudgeLosesTheMark`). A
  dispatch keeps the ids of an earlier turn, so that a run loop that comes by takes that turn up, and
  its end lets the next dispatch in beside the one in flight
  (`WorkerRaces.ContinuationLosesTheMark`). Over everything that writes the worker table, dispatch is
  exclusive if and only if nobody but a decision saves from a free copy read before a claim that still
  stands and no turn the run loop has taken up ends beside a claim
  (`WorkerRaces.DispatchIsExclusiveExactly`).
- What is saved on a worker while a dispatch of it is running is lost when the dispatch saves its result,
  and a dispatch that ends in "approval required" leaves the run's stop reason alone
  (`WorkerApprovals.DispatchIsAsIfAtomic`).
- A decision goes by the workers as it lists them and by the run as it was before the decision was sent.
  It leaves the run's stop reason right if and only if that is still so at the write
  (`WorkerApprovals.DecisionSettlesExactly`). A run can stay stopped for an approval nobody awaits
  after two decisions of its workers (`WorkerApprovals.DecisionsRace`), and after its own approval was
  given while a worker's was on its way (`WorkerApprovals.StaleRunStops`).
- A worker is stuck for good exactly when every dispatch turns it away, nothing is on record to decide
  or for the run loop to take up, and nothing under way can change that (`WorkerFreezes.FrozenForGood`,
  `WorkerFreezes.UnfrozenMoves`). A dispatch that dies after its mark, also for want of an executor
  client, does that to a worker without the ids of an earlier turn (`WorkerFreezes.AbortFreezesExactly`),
  as does the death of any claim's holder (`WorkerFreezes.DeathFreezesExactly`), of a creation among
  them (`WorkerFreezes.DeadCreationFreezes`); so do a turn that asks for approval without an approval
  record and without both ids (`WorkerFreezes.FinishFreezesExactly`) and a decision on such a worker
  (`WorkerFreezes.DecisionFreezesExactly`).
- The worker state "required" without the status of the same meaning comes only from a result that puts
  white space around it (`Workers.FinishIsMeaningfulExactly`).
- One event whose line exceeds the scanner's 64 KiB makes every later read of the journal fail, for
  every run; a torn write does the same unless what is left of it and the next event happen to decode
  together (`Journal.RecentIsLastAppended`, `Journal.TornWriteSwallowsTheNext`).
- Repairing a PATH twice differs from repairing it once when the target directory contains the list
  separator and a part of it is a real other entry (`Launcher.RepairIsIdempotent`). With no command on
  the PATH at all the launcher still reports "ok" for a target binary spelled as the current directory
  (`Launcher.OkWithoutCommand`).

## Model

| member | source | states |
|---|---|---|
| RunLoops.ExecuteContinueCycles | internal/cli/continue.go:123-218 | the bounded loop yields exactly the trace of its cycles: the runs handed to the cycle function, the graces spent, the stop reasons written and how it ended, whichever call fails |
| RunLoops.ContinueCycle | internal/cli/continue.go:136-217 | one round of it: the order of configuration, report, journal and store calls and what each failure leaves behind |
| RunLoops.ExecuteForegroundLoop | internal/cli/auto.go:154-301 | the foreground loop yields exactly the first `budget` cycles of its trace |
| RunLoops.ForegroundCycle | internal/cli/auto.go:177-297 | one round of it, in its own order: waiting journal, flag, configuration, stop reason saved before report and journal |
| RunLoops.ContinueTerminates | internal/cli/continue.go:131-217 | for every cycle function: at most one cycle beyond the limit, the grace at most once, and the extra cycle exactly when the cycle at the limit ended in an undispatched execute hand-off with no other stop condition |
| RunLoops.ContinueFromEnds | internal/cli/continue.go:220-251 | the same from any cycle on, with the grace used or not |
| RunLoops.TurnNearTheLimit | internal/cli/continue.go:316-327 | at or past the limit a cycle goes on only by an unspent, earned grace |
| RunLoops.DecidersAgreeExactly | internal/cli/auto.go:371-410 | below the limit and without a stop request both deciders answer alike if and only if their planner turns agree on "ask human" or an earlier rule decides |
| RunLoops.ContinueIsPrefixExactly | internal/cli/continue.go:123-251 | with no failing call and no stop flag, the bounded loop hands the cycle function a prefix of what the unbounded loop hands it, with every stop but the limit the same stop at the same cycle, if and only if the deciders agree on every cycle it runs |
| RunLoops.DisagreementParts | internal/cli/auto.go:371-410 | a cycle on which they disagree ends one loop at once and not the other |
| RunLoops.ForegroundStopWithinLimitIsContinueStop | internal/cli/auto.go:154-301 | conversely, a stop of the unbounded loop within the limit is the whole trace of the bounded loop |
| RunLoops.DisagreementSeparatesTheLoops | internal/cli/auto.go:402-410 | an environment in which a second planner turn asks the human and the loops part |
| RunLoops.TurnsCorrespond | internal/cli/continue.go:220-251 | cycle by cycle, the bounded and the unbounded loop do the same except at the limit |
| RunLoops.ForegroundWindowIsMonotone | internal/cli/auto.go:177-300 | a longer observation shows a longer prefix of one and the same run |
| RunLoops.FlagEndsTheInvocation | internal/cli/auto.go:177-300 | a cycle that sees the flag at its boundary is the last of its invocation, whatever else happens |
| RunLoops.OperatorStopNeedsTheFlag | internal/cli/auto.go:371-400 | an operator stop is reported only when the last boundary saw the flag |
| RunLoops.ContinueRecordsItsStop | internal/cli/continue.go:131-217 | a clean stop has a reason, the returned run carries it, and the store was written at most once, with that reason and run |
| RunLoops.ForegroundRecordsItsStop | internal/cli/auto.go:177-300 | the same for the foreground loop |
| RunStops.InvocationsRead | internal/cli/continue.go:123-251 | for every environment, both loops read off what the cycles returned, cycle by cycle: the run handed on, why the loop goes on or stops, what is written to the store and which failing call ends it |
| RunStops.ContinueTurnReads | internal/cli/continue.go:136-251 | one cycle of the bounded loop: the reasons in their order, the literal conditions of each, the calls in their order and the first that fails |
| RunStops.ForegroundTurnReads | internal/cli/auto.go:183-300 | one cycle of the foreground loop, with its own order of calls and its own planner turn |
| RunStops.BoundedLoopCarriesTheRun | internal/cli/continue.go:136-283 | each cycle is given the run the one before returned, or was given if that run has no id, and so is the run of a stop, with the stop reason put in |
| RunStops.ForegroundLoopCarriesTheRun | internal/cli/auto.go:177-300 | the same for the foreground loop |
| RunStops.CompletionStopsTheBoundedLoop | internal/cli/continue.go:220-251 | a cycle that succeeds with a completed run that awaits no approval is the last, and unless a call fails the stop is `planner_complete` with that run |
| RunStops.CompletionStopsTheForegroundLoop | internal/cli/auto.go:371-400 | the same for the foreground loop |
| StopFlag.StopFlagIsSafe | internal/cli/auto.go:177-300 | over all interleavings of the operator, any number of invocations and all failing calls: each raising is consumed by one invocation, cleared once or still there; every invocation that sees the flag consumes it, misses it or is about to try; having seen it, it starts no further cycle; invocations leave only between cycles |
| StopFlag.MovesRead | internal/cli/auto.go:177-300 | one action moves an invocation on by one phase and writes down what it did; a decision lets it go on exactly when no approval, failure, completion, question or stop request ends it |
| StopFlag.FlagAfterStep | internal/cli/auto.go:464-479 | what each step does to the flag file and to which invocation |
| StopFlag.SeenFlagIsConsumedOrMissed | internal/cli/auto.go:464-479 | whatever others do after an invocation has seen the flag: a removal that finds it and works consumes it and the next decision ends the invocation; any other ends it at once with an error and leaves the file as it is |
| StopFlag.OneRaisingEndsTwo | internal/cli/auto.go:464-479 | two invocations that see one raising both end, although only one consumes it |
| StopFlag.OneRaisingEndsMany | internal/cli/auto.go:475-477 | one raising ends as many invocations as fail to remove the file |
| StopFlag.FlagFile.Set | internal/cli/runtime_control.go:1495-1512 | raising the flag: the step of the transition system, the reason written, and what a failing or torn write or a directory leaves |
| StopFlag.SetThenSnapshot | internal/cli/runtime_control.go:1495-1540 | a raised flag reads back with its trimmed or default reason |
| StopFlag.FlagFile.Clear | internal/cli/runtime_control.go:1514-1524 | clearing an absent flag is not an error, a removal that fails is, and then the file stays |
| StopFlag.FlagFile.Consume | internal/cli/auto.go:464-479 | undisturbed, a check reports and removes the flag; a failing stat, a directory and a failing removal are errors and change nothing |
| RunProtocol.ControlRunManager.Reserve | internal/cli/runtime_control_runs.go:164-183 | refuses and changes nothing while active, else becomes active under exactly the new reservation |
| RunProtocol.ControlRunManager.AttachRunID | internal/cli/runtime_control_runs.go:190-198 | changes only the run id, and nothing for another (action, started) pair |
| RunProtocol.ControlRunManager.Finish | internal/cli/runtime_control_runs.go:200-211 | frees the manager for its own reservation and changes nothing for another |
| RunProtocol.RunsAreExclusive | internal/cli/runtime_control_runs.go:42-236 | over every interleaving of starts, continues, failures, loop ends, crashes and restarts: at most one call holds a reservation, active holds exactly while one does, and every finished call released what it got exactly once |
| RunProtocol.ManagerAfterStep | internal/cli/runtime_control_runs.go:164-211 | what every step leaves of the manager, field by field |
| RunProtocol.LaunchesAfterStep | internal/cli/runtime_control_runs.go:42-236 | a call goes through its phases in one order, and its reservations and releases are counted where they happen |
| RunProtocol.GuardAfterStep | internal/cli/runtime_control_recovery.go:53-94 | the guard a launch writes names its session, run, action and this backend, and a launch removes a readable guard of its own session only |
| RunProtocol.OwnGuardMeansActive | internal/cli/runtime_control_recovery.go:53-94 | over every interleaving, crashes included, a guard naming this backend means it is active, in a call of that guard's session, unless it is one whose removal failed and which nothing has replaced since |
| RunProtocol.InactiveSeesLiveGuardExactly | internal/cli/runtime_control_recovery.go:115-160 | an inactive backend sees a live guard if and only if it is such a one |
| RunProtocol.FailedRemovalLeavesALiveGuard | internal/cli/runtime_control_recovery.go:81-94 | from any inactive backend a run whose removal fails leaves one behind |
| RunProtocol.RecoveryRespectsActiveRuns | internal/cli/runtime_control_recovery.go:189-318 | recovery touches no guard of an active run, and at most removes it |
| Recovery.RecoversExactly | internal/cli/runtime_control_recovery.go:189-318 | a run is reported recovered if and only if no run is active here and the run the request is about (the one it names, else the guard's, else the latest resumable) exists, is not over, is not in the hands of this backend unless forced, and can be read again |
| Recovery.AnswerNamesTheRun | internal/cli/runtime_control_recovery.go:254-318 | an answer names that run |
| Recovery.GuardGoesExactly | internal/cli/runtime_control_recovery.go:204-285 | the guard goes if and only if the request, the run found and force call for it and its removal works |
| Recovery.ReportsClearedExactly | internal/cli/runtime_control_recovery.go:204-318 | when an answer says the guard was cleared |
| Recovery.RefusesExactly | internal/cli/runtime_control_recovery.go:189-292 | the condition of every refusal, in the order of the checks |
| Recovery.NamedRequestGoesByItsRow | internal/cli/runtime_control_recovery.go:198-236 | a request that names a run goes by that row alone |
| Recovery.NamedRunIsTheOne | internal/cli/runtime_control_recovery.go:198-276 | naming a run that is over or unknown recovers nothing, and without force a guard that names another run stays |
| RunProtocol.ClearedReportIsTrueExactly | internal/cli/runtime_control_recovery.go:204-318 | a "guard cleared" report is true if and only if the removal worked or the run was found |
| RunProtocol.ClearedReportCanBeFalse | internal/cli/runtime_control_recovery.go:204-215 | a stale guard, no database and a failing removal: reported cleared and still there |
| RunProtocol.RefusalKeepsGuardExactly | internal/cli/runtime_control_recovery.go:254-318 | a refusal leaves the guard where it is if and only if it came before the removal or the removal failed |
| RunProtocol.RefusalCanLoseTheGuard | internal/cli/runtime_control_recovery.go:286-292 | a stale guard of an unfinished run and a second read that fails: refused, and the guard is gone |
| RunProtocol.UnnamedRecoveryClearsExactly | internal/cli/runtime_control_recovery.go:189-318 | naming no run clears any stale guard if and only if the removal works |
| RunProtocol.RecoveryNotRefusedAsOwned | internal/cli/runtime_control_recovery.go:240-318 | recovery of an absent or stale guard is never refused as owned by this backend |
| RunProtocol.InactiveRecoveryClearsTheGuard | internal/cli/runtime_control_recovery.go:189-318 | after any history, unless a live guard was left behind, an inactive backend is never refused as owner and clears the guard without force if and only if the removal works |
| Broker.Broker.Publish | internal/activity/broker.go:41-71 | the next number, the trimmed history, and every subscriber offered the event without waiting |
| Broker.Broker.Subscribe | internal/activity/broker.go:73-106 | returns with the replay in a fresh channel, or never returns exactly when the replay is longer than 64 |
| Broker.Broker.Resend | internal/activity/broker.go:82-87 | the replay loop sends exactly the retained newer events, or blocks |
| Broker.Broker.Cancel | internal/activity/broker.go:93-105 | unregisters and closes one channel once and leaves the others alone |
| Broker.HistoryRefinesTheLog | internal/activity/broker.go:49-61 | over any interleaving the history is the last `limit` published events, numbered consecutively from 1, and no channel is closed twice or sent to after closing |
| Broker.StreamIsReplayThenTaken | internal/activity/broker.go:41-106 | a subscriber's stream is the retained newer events followed by exactly the later events published while it was registered and had room |
| Broker.StreamIsIncreasing | internal/activity/broker.go:41-106 | every stream is strictly increasing, and nothing at or below the requested number is delivered unless that number lay in the future |
| Broker.FutureSubscriberGetsOldNumbers | internal/activity/broker.go:62-68 | live events are not filtered |
| Broker.ResumeIsLossless | internal/activity/broker.go:82-91 | a reader that keeps up loses nothing on resuming if and only if at most `limit` events were missed |
| Broker.SubscribeBlocks | internal/activity/broker.go:80-91 | sending event by event under the lock, whatever else goes on, a subscribe returns, given time, if and only if at most 64 retained events are newer |
| Broker.LongReplayWedges | internal/activity/broker.go:80-87 | with more, 64 sends leave the lock with a subscribe that waits on a full channel nobody reads |
| Broker.WedgedForGood | internal/activity/broker.go:41-106 | after that the lock never becomes free: nothing is published and no subscription comes or goes; only reading goes on |
| Broker.PublishReads | internal/activity/broker.go:41-71 | what a publish does to every subscription: behind what waits in its channel if one of the 64 slots is free, and lost to it otherwise |
| Broker.CancelReads | internal/activity/broker.go:93-105 | after the two steps of a cancel nothing is sent to the subscription and its channel is closed; what waits in it can still be read |
| BuildTime.Store.StartBuildSession | internal/state/build_time.go:75-112 | a start as a step of the event history |
| BuildTime.Store.UpdateBuildStep | internal/state/build_time.go:154-181 | a step event, without effect outside a session or without a label |
| BuildTime.Store.EndBuildSession | internal/state/build_time.go:114-152 | undisturbed, an end event, adding the truncated length of the session |
| BuildTime.Store.WriteEnd | internal/state/build_time.go:135-151 | the update adds the length of the session that was read to whatever the row has become |
| BuildRaces.TotalIsRightExactly | internal/state/build_time.go:114-152 | over every interleaving of starts, steps and the two halves of ends: the total is that of whole ends or more, and that total if and only if every end, when written, adds what ending the session then adds; sessions and their starts are those of whole ends |
| BuildRaces.OverlappingEndsCountTwice | internal/state/build_time.go:124-135 | two ends that read one session before either writes |
| BuildTime.RowsAreIndependent | internal/state/build_time.go:75-181 | a row depends only on its own repository's events, whatever is interleaved |
| BuildTime.RowOfTellsTheTruth | internal/state/build_time.go:75-181 | from the events alone: the total is the sum of truncated closed sessions, nested starts move nothing, session, step and run start are set exactly while open, and the last end and the step label are those of the latest event that sets them |
| BuildTime.TruncationIsBounded | internal/state/build_time.go:114-152 | the true active time of the closed sessions exceeds the total by less than one millisecond per session |
| BuildTime.BuildTimeIsConserved | internal/state/build_time.go:75-181 | both, for every repository and every interleaving at times that do not go back |
| Config.TimeoutFieldPasses | internal/config/config.go:302-345 | one pass leaves the empty string exactly for `default`, a second pass puts the default there, and then nothing changes |
| Config.TwoTimeoutPassesSettle | internal/config/config.go:302-333 | two passes always settle all seven timeouts |
| Config.PermissionsIdempotent | internal/config/config.go:382-411 | permission normalising is idempotent and never leaves all flags off |
| Config.ProfileIsIdempotent | internal/config/config.go:413-426 | normalised profile names are fixed points |
| Config.UpdatesIdempotent | internal/config/config.go:428-449 | normalising the update settings is idempotent |
| Config.OneApplicationSettlesTheRest | internal/config/config.go:262-285 | everything but the timeouts is settled by one application |
| Config.WithDefaultsSettles | internal/config/config.go:262-345 | `WithDefaults` settles in at most two applications, and in one if and only if no timeout is spelled `default` |
| PatchReads.DefaultsRead | internal/config/config.go:262-345 | field by field, what filling in the defaults leaves, with the literal words and defaults |
| PatchReads.ProfilesRead | internal/config/config.go:413-426 | which words name which permission profile |
| PatchReads.PresetsRead | internal/config/config.go:126-201 | what each profile asks about |
| RuntimeConfig.Manager.ApplyPatch | internal/runtimecfg/manager.go:165-209 | all or nothing on invalid input, refused for the first invalid part; otherwise memory has the patched configuration (field by field: `PatchReads.PatchStores`), the file what was saved of it, and a failed save is reported but not undone |
| RuntimeConfig.Manager.PatchCopy | internal/runtimecfg/manager.go:170-196 | the patch is put on a copy, part by part, and refused exactly when some value is invalid, for the first that is |
| PatchReads.PatchStores | internal/runtimecfg/manager.go:165-360 | field by field, what an accepted patch leaves: each of the seven timeouts, the thirteen flags, the update settings, the ntfy values and the verbosity with the value the patch gives, or as it was with the defaults filled in if it gives none |
| PatchReads.AcceptableReads | internal/runtimecfg/manager.go:165-312 | exactly which patches are accepted |
| RuntimeConfig.Manager.SetVerbosity | internal/runtimecfg/manager.go:144-163 | an invalid verbosity changes nothing; a valid one is in memory whether or not the save succeeds, and without a path the file is untouched |
| RuntimeConfig.Manager.ReloadFromDisk | internal/runtimecfg/manager.go:117-142 | memory becomes what the file holds, and a change is reported exactly when it differs |
| RuntimeConfig.PatchedIsSettled | internal/runtimecfg/manager.go:165-209 | every configuration a patch stores is a fixed point of `WithDefaults` |
| ConfigRaces.WritesInOrderAgree | internal/runtimecfg/manager.go:144-216 | over every interleaving in which changes are written in their order and nothing is reloaded, the file holds the current configuration once nothing is left to write |
| ConfigRaces.FileIsCurrentExactly | internal/runtimecfg/manager.go:144-216 | over every interleaving without reloads, once nothing is left to write, the file holds what came into memory last if and only if no older configuration was written over it |
| ConfigRaces.OlderChangeWins | internal/runtimecfg/manager.go:117-209 | two changes whose writes cross: the later in memory, the earlier in the file, and a reload takes the later back |
| RuntimeConfig.ReloadAfterSave | internal/runtimecfg/manager.go:117-142 | a reload after a successful save reports a change if and only if an empty, non-nil list of skipped versions was there and not replaced; a second reload is silent |
| RuntimeConfig.FlagsRepeat | internal/runtimecfg/manager.go:314-338 | when a second flag patch changes the flags, exactly, and that a third never does |
| RuntimeConfig.RepeatingAPatch | internal/runtimecfg/manager.go:165-209 | a third application never changes the configuration, and a second one exactly in the preset-reset case |
| ControlQueue.Store.RecordControlMessage | internal/state/control.go:131-185 | which errors come first, and the one row a success adds |
| ControlQueue.RecordingReads | internal/state/control.go:131-160 | what a recording needs, the first missing thing first |
| ControlQueue.OriginReads | internal/state/control.go:131-185 | after any history, the operation that recorded a message, and what of it is in which column |
| ControlQueue.Store.ListControlMessages | internal/state/control.go:187-229 | the latest `limit` selected rows, latest key first, 20 when no limit is given |
| ControlQueue.Store.NextQueuedControlMessage | internal/state/control.go:231-253 | the first queued row of the run by key, none exactly when nothing is queued |
| ControlQueue.Store.ConsumeControlMessage | internal/state/control.go:255-257 | consuming as a step of the history |
| ControlQueue.Store.CancelControlMessage | internal/state/control.go:259-261 | cancelling as a step of the history |
| ControlQueue.Store.UpdateControlMessageStatus | internal/state/control.go:263-308 | the errors, and a status set together with exactly its own time |
| ControlQueue.BeforeIsStrictOrder | internal/state/control.go:211-239 | the key order (created_at, id) is a strict total order |
| ControlQueue.ListingIsUnique | internal/state/control.go:187-229 | filter, order and limit leave exactly one possible listing |
| ControlQueue.NextIsLastListed | internal/state/control.go:187-253 | the next queued message is the last element of any queued listing that is large enough |
| ControlQueue.RowTellsItsStory | internal/state/control.go:131-308 | after any history a row is its message as recorded, closed by the last consume or cancel addressed to it |
| ControlQueue.StatusTellsWhichTimeIsSet | internal/state/control.go:263-308 | the status always agrees with which of the two closing times is set |
| ControlQueue.DrainVisitsInOrder | internal/state/control.go:231-308 | next-then-consume terminates and visits each queued message of the run exactly once, in key order |
| ControlQueue.DrainConsumesOnlyQueued | internal/state/control.go:231-308 | it leaves those consumed, one clock reading each, nothing queued, and every other message unchanged |
| TextOrder.KeyOrderAgainstTime | internal/state/store.go:1688-1690 | two formatted times order as the times do, except within one second when one fraction is a proper prefix of the other, and then they are reversed |
| TextOrder.PrefixKeyIsLater | internal/state/store.go:1688-1690 | the reversed case |
| Paths.Clean | internal/cli/runtime_control_files.go:570-580 | the one-pass scan of `path.Clean` computes the rendering of the component stack |
| Paths.ScanMeansClean | internal/cli/runtime_control_files.go:570-580 | every round of the scan keeps "what is written renders the stack of what is read" |
| Paths.CleanIsIdempotent | internal/cli/runtime_control_files.go:550-580 | cleaning twice is cleaning once |
| Text.TrimCuts | internal/cli/runtime_control_files.go:571-571 | trimming takes white space off the two ends and nothing else |
| Paths.RenderedStack | internal/cli/runtime_control_files.go:550-580 | a rendered stack is read back as itself |
| RepoPaths.NormalizedIsStack | internal/cli/runtime_control_files.go:570-580 | the result is the component stack of the trimmed input, or empty exactly for empty, absolute, root-naming or escaping input |
| RepoPaths.NormalizedIsNormal | internal/cli/runtime_control_files.go:570-580 | for every string the result is empty or has no "", "." or ".." component and no backslash |
| RepoPaths.NormalizedIsFixedWhenTrimmed | internal/cli/runtime_control_files.go:570-580 | a result is a fixed point if and only if it has no white space at its ends |
| RepoPaths.ResolveUnderAbsoluteRoot | internal/cli/runtime_control_files.go:550-568 | under an absolute root resolving any path succeeds if and only if the root's components still lead the target's, and then yields the cleaned target |
| RepoPaths.ResolveExactly | internal/cli/runtime_control_files.go:550-568 | under any root, absolute or relative: when resolving succeeds and with what, and when it reports an escape or an unrelatable path |
| RepoPaths.RelLeadsThere | internal/cli/runtime_control_files.go:560-563 | the relative path leads from the root to the target, and there is none exactly when the root goes up where they part |
| RepoPaths.NormalizedNeverEscapes | internal/cli/runtime_control_files.go:550-568 | a normalised path never reaches the escape error, under any root: it resolves to the root's components followed by its own |
| RepoPaths.ParentUndoesJoin | internal/cli/runtime_control_autofill_tree.go:442-455 | for an empty or normal base and a plain name the parent of the joined path is the base if and only if the base is empty or the name outlives the loss of its trailing white space |
| RepoPaths.CleanDropsTrailingSlash | internal/cli/runtime_control_autofill_tree.go:442-448 | the parent's directory part is the normal path itself |
| Workers.Store.SaveWorker | internal/state/workers.go:267-382 | which ids and statuses a save refuses, and the trimmed row it writes with the approval-state fallback |
| Workers.Store.ReadForDispatch | internal/cli/workers.go:303-340 | the refusals in order, on the row as it is read |
| Workers.Store.MarkDispatch | internal/cli/workers.go:341-359 | the active row, from the copy read earlier, whatever the row says by now |
| Workers.Store.FinishDispatch | internal/cli/workers.go:371-415 | the row after the turn is the local copy with the result put in, which `WorkerReads.FinishReads` reads off the result |
| WorkerReads.FinishReads | internal/cli/workers.go:371-415 | the row after a turn, from the result alone and in the words of the table: "approval_required", "failed" or "completed" and exactly when, the turn status with its fallback, the ids, the approval and the flags |
| WorkerReads.DecisionReads | internal/cli/workers.go:443-463 | the row a decision leaves: running again, with the decision in state, record and control record |
| WorkerReads.NudgeLeaves | internal/cli/workers.go:590-844 | an interrupt, kill or steer leaves its control record and nothing else |
| WorkerReads.DispatchReads | internal/cli/workers.go:303-340 | the condition of every outcome of a dispatch's checks |
| Workers.Store.ReadForPlan | internal/orchestration/cycle.go:3215-3227 | the planner accepts an idle or a queued worker |
| Workers.Store.SavePrepared | internal/orchestration/cycle.go:3229-3260 | the planner's assignment or queueing clears approval and control |
| Workers.Store.SaveLaunched | internal/orchestration/cycle.go:3305-3318 | the planner's start of a turn |
| Workers.Store.ActiveWorkerTurns | internal/orchestration/cycle.go:2141-2173 | the run loop takes up exactly the active or waiting workers with both ids |
| Workers.Store.ReadForDecision | internal/cli/workers.go:424-442 | approve and deny go on only with an approval on record |
| Workers.Store.SaveDecision | internal/cli/workers.go:443-463 | the decided row, from the copy read earlier |
| Workers.Store.ReadForNudge | internal/cli/workers.go:590-844 | interrupt, kill and steer go on only when the turn allows them |
| Workers.Store.SaveNudge | internal/cli/workers.go:590-844 | they touch only the control record of the copy they read |
| Workers.Store.ReadForRemoval | internal/cli/workers.go:236-293 | an active worker is not removed |
| Workers.Store.RefreshWorkerRunStopReason | internal/cli/workers.go:1299-1313 | undisturbed, the approval stop exactly when any of the run's workers, or the run's copy, awaits approval, else blank |
| WorkerSteps.ReadFor | internal/cli/workers.go:236-844 | every command's read, by the store methods, admits what the transition system admits |
| WorkerSteps.PerformSave | internal/cli/workers.go:236-844 | every save, by the store methods, leaves the tables as the transition system's step does |
| WorkerSteps.PerformFinish | internal/orchestration/cycle.go:2303-2406 | so does the end of a turn, a dispatch's or one the run loop has taken up |
| WorkerSteps.PerformFail | internal/orchestration/cycle.go:3291-3304 | and a worktree or an executor that is missing |
| WorkerSteps.PerformList | internal/cli/workers.go:1299-1311 | and the listing, which goes by the run as it was loaded |
| WorkerRaces.DispatchIsExclusiveExactly | internal/cli/workers.go:315-415 | over every interleaving of store calls of everything that writes the worker table: at most one command has claimed a worker and its row turns other dispatches away, if and only if nobody but a decision saves from a free copy read before a standing claim, and no turn the run loop has taken up ends, other than in a wait for approval, beside a claim |
| WorkerRaces.TwoDispatchesRace | internal/cli/workers.go:316-357 | two dispatches that read before either saves are both in flight |
| WorkerRaces.StaleNudgeLosesTheMark | internal/cli/workers.go:590-844 | an interrupt, kill or steer read before the mark and saved after it lets the next dispatch in |
| WorkerRaces.ContinuationLosesTheMark | internal/orchestration/cycle.go:2141-2406 | the run loop takes up the earlier turn of a dispatched worker, and its end lets the next dispatch in |
| WorkerRaces.ClaimShutsOthersOut | internal/cli/workers.go:332-334 | while dispatch is exclusive, no other dispatch and no removal of a claimed worker gets past its check |
| WorkerRaces.AfterKeepsBase | internal/cli/workers.go:236-844 | over every interleaving rows and copies stay under their own ids, trimmed and of known runs |
| WorkerApprovals.AwaitingIsTheStatus | internal/cli/workers.go:1206-1237 | over every interleaving of store calls a worker awaits approval exactly when its status says so, state "required" included, and then neither steer, dispatch nor removal gets past its check |
| Workers.FinishIsMeaningfulExactly | internal/cli/workers.go:372-398 | a result breaks that link if and only if its state is "required" with white space around it and its turn status is not `approval_required` |
| WorkerApprovals.DispatchIsAsIfAtomic | internal/cli/workers.go:336-415 | whatever happens between read, mark and last save, a dispatch leaves the row as read with the result put in, no other worker changed and every run's stop reason alone |
| WorkerApprovals.DecisionEndsTheWait | internal/cli/workers.go:435-465 | the save of a decision ends the worker's own wait and changes no other worker |
| WorkerApprovals.DecisionSettlesExactly | internal/cli/workers.go:1281-1313 | with anything of others in between, a decision leaves the run's stop reason right if and only if a worker awaited at the listing, or the run at its load, exactly when the run or a worker awaits at the write; no other run changes |
| WorkerApprovals.ReasonIsTheLastListing | internal/cli/workers.go:1299-1313 | and at any later time, until somebody writes the run, if and only if the run awaits now as the decision thought it did |
| WorkerApprovals.QuietDecisionSettles | internal/cli/workers.go:1299-1313 | so it is right when nobody saves the run's executor state from the load on and no worker is written between listing and write |
| WorkerApprovals.StaleRunStops | internal/cli/executor.go:77-118 | a run and its worker are both approved, and the run ends up stopped for approval |
| WorkerApprovals.StaleRunIsReached | internal/cli/workers.go:1281-1313 | from every state in which the run and its only waiting worker await approval |
| WorkerApprovals.DecisionsRace | internal/cli/workers.go:518-553 | two decisions of one run that leave it stopped for an approval nobody awaits |
| WorkerFreezes.FrozenForGood | internal/orchestration/cycle.go:2158-2173 | a frozen worker, turned away by every dispatch, with nothing to decide or to take up and only harmless commands under way, keeps its status under every interleaving, the planner and the run loop included |
| WorkerFreezes.AbortFreezesExactly | internal/cli/workers.go:357-364 | a dispatch that dies after its mark, or finds no executor client, freezes its worker if and only if it has no ids of an earlier turn |
| WorkerFreezes.DeathFreezesExactly | internal/cli/workers.go:357-371 | the death of any claim's holder, at any time: if and only if the row is then still and nothing under way can change that |
| WorkerFreezes.DeadCreationFreezes | internal/cli/workers.go:134-163 | a creation that dies before its worktree is there |
| WorkerFreezes.DecisionFreezesExactly | internal/cli/workers.go:435-465 | the save of a decision, if and only if no turn is on record for the run loop |
| WorkerFreezes.FinishFreezesExactly | internal/cli/workers.go:372-402 | the end of a turn, if and only if it asks for approval, records none and lacks an id |
| WorkerFreezes.UnfrozenMoves | internal/orchestration/cycle.go:2158-2173 | any other worker of a known run is moved at once by some sequence of store calls |
| Autofill.NormalizeAutofillTargets | internal/cli/runtime_control_autofill_tree.go:296-318 | the loop collects normal target paths or stops at the first bad target |
| Autofill.NormalizedTargetsAreExact | internal/cli/runtime_control_autofill_tree.go:296-318 | it succeeds if and only if there are targets and all are acceptable, and yields each normal path once |
| Autofill.FirstBadTargetDecides | internal/cli/runtime_control_autofill_tree.go:296-318 | otherwise the first target that is not acceptable is reported |
| Autofill.NormalizedTargetsPass | internal/autofill/client.go:210-229 | what it yields always passes the request's target checks |
| Autofill.NormalizingAgain | internal/cli/runtime_control_autofill_tree.go:296-318 | normalising its result changes nothing |
| Autofill.ValidateRequest | internal/autofill/client.go:210-229 | the first failing check decides |
| Autofill.TargetsPassExactly | internal/autofill/client.go:217-227 | the target checks pass if and only if no trimmed target is blank or repeated |
| Autofill.RequestReads | internal/autofill/client.go:210-229 | what is reported of a request that does not pass, the first thing first |
| Autofill.ValidateResponse | internal/autofill/client.go:231-265 | the first failing check decides, omitted targets last |
| Autofill.FilesPassExactly | internal/autofill/client.go:239-262 | the files pass if and only if no content is blank and their trimmed paths name each target once and nothing else |
| Autofill.FirstBadFileDecides | internal/autofill/client.go:239-265 | otherwise the first file that names nothing left of the targets, or says nothing, is reported, and if all pass the targets that are left |
| Autofill.ResponseIsExact | internal/autofill/client.go:231-265 | for distinct targets a response passes if and only if message and contents are not blank and the trimmed paths equal the targets as a multiset |
| Autofill.NormalizedResponseIsExact | internal/autofill/client.go:231-265 | the same end to end, for normalised targets |
| Launcher.RepairedUserPath | internal/cli/global_launcher.go:435-451 | the repair loop, and when it reports a change |
| Launcher.TargetComesFirst | internal/cli/global_launcher.go:435-451 | read back as a list, the target is first and the kept entries follow |
| Launcher.KeptInOrder | internal/cli/global_launcher.go:442-448 | exactly the entries that pass the test of the loop stay, trimmed, in their old order |
| LauncherReads.KeptReads | internal/cli/global_launcher.go:442-448 | they are the entries with a character that is not white space which do not name the target, each as what is left between the white space at its ends |
| LauncherReads.EntrySurvivesRepair | internal/cli/global_launcher.go:435-451 | so every such entry of a PATH is in the repaired one as exactly that text |
| Launcher.RepairIsIdempotent | internal/cli/global_launcher.go:435-451 | a second repair changes nothing if and only if every part of the target, read as an entry, is blank or the target |
| Launcher.PlainTargetIsNotKept | internal/cli/global_launcher.go:435-451 | which is so for every target without the list separator |
| Launcher.FindOrchestratorCommands | internal/cli/global_launcher.go:465-492 | the search yields the first candidate of every key among all existing ones |
| Launcher.SearchKeepsFirsts | internal/cli/global_launcher.go:465-492 | in order, and no key is lost |
| LauncherReads.FoundReads | internal/cli/global_launcher.go:465-492 | the candidates before that are exactly the existing command files, each with the entry it was found under |
| Launcher.InspectGlobalLauncher | internal/cli/global_launcher.go:222-288 | status and detail from the winner and the target, both candidate lists, the stale ones in order, and the repaired user PATH with its change flag |
| LauncherReads.StatusReads | internal/cli/global_launcher.go:240-262 | the condition of every status |
| Launcher.FirstExistingMeans | internal/cli/global_launcher.go:474-478 | a directory's command is the existing one with the earliest extension |
| Launcher.WinnerIsFirstCommand | internal/cli/global_launcher.go:465-492 | on any list the first candidate is the command a shell would find |
| Launcher.WinnerAfterRepair | internal/cli/global_launcher.go:435-492 | on the repaired PATH it is the first command in the target, read as a list, or else that of the entries kept |
| Launcher.RepairMakesOk | internal/cli/global_launcher.go:222-288 | for every target directory and PATH the report after a repair is "ok" if and only if the target binary is that command |
| Launcher.OkWithoutCommand | internal/cli/global_launcher.go:518-528 | with no command found the report is "ok" if and only if the target binary is spelled as the current directory |
| Journal.File.Append | internal/journal/journal.go:88-112 | the line is added at the end; a failing write leaves a part of it |
| Journal.File.ReadRecent | internal/journal/journal.go:114-152 | the scan with its sliding window, stopping at the first line that is too long or does not decode |
| Journal.ReadIsExact | internal/journal/journal.go:114-152 | a read succeeds if and only if every line is good, and the sliding window is the last `limit` events of the run |
| Journal.FirstBadLineDecides | internal/journal/journal.go:114-152 | a read that fails reports the first line that is not good: too long, or malformed |
| Journal.OfRunReads | internal/journal/journal.go:135-143 | which events are those of a run |
| Journal.RecentIsLastAppended | internal/journal/journal.go:88-152 | what was appended comes back: reads succeed if and only if every event ever appended fits a line, and give the run's last events in order |
| Journal.TornWriteSwallowsTheNext | internal/journal/journal.go:109-112 | after a torn write reads succeed if and only if the torn part and the next line decode together, whatever follows |

## Left out

- RunLoops.ExecuteForegroundLoop: the loop has no bound; it is followed for any number of cycles the caller asks for, because a method must end.
- RunProtocol.RecoveryRespectsActiveRuns: recovery is one atomic step apart from its second reading of the run; the code drops the manager lock before it touches the guard, so a run could start in between.
- RunProtocol.OwnGuardMeansActive: backend identities are never reused.
- Broker.Broker.Subscribe: a call that never returns is the result `None` with the lock held; the channel's later life is in the transition system.
- BuildTime.BuildTimeIsConserved: proved on the store's methods at times that do not go back; in a foreground run the call that would end the session meets a store that is already closed (internal/cli/runtime_control_runs.go:223-228). 64-bit overflow of the stored total is not modelled.
- Config.WithDefaultsSettles: duration parsing is a parameter that must accept the built-in defaults.
- RuntimeConfig.ReloadAfterSave: the file is lossless but for the omitted empty list.
- Text.ToLower: lower-casing covers ASCII and the two other characters that become ASCII letters; other characters stay as they are.
- ControlQueue.Store.RecordControlMessage: random ids and clock readings are parameters; each SQL statement is one atomic step on a map.
- TextOrder.KeyOrderAgainstTime: years have four digits, so that the text of a second has a fixed width.
- Paths.Clean: the Unix form of paths; drive letters, UNC names and case-insensitive comparison are not modelled.
- Workers.Store.SaveWorker: names, summaries and times of workers are left out, and with them the refusals of a blank name or worktree path; so are the fallbacks for an approval's kind and a control's action.
- Workers.Store.ReadForDispatch: the worker and whether its run exists are read in one step, here and in every command; runs are neither created nor removed.
- WorkerRaces.DispatchIsExclusiveExactly: a client call that fails is a command that dies; worker ids do not come twice.
- WorkerApprovals.DecisionSettlesExactly: of the other writers of a run only the approval and the stop reason they leave are modelled, both arbitrary.
- ConfigRaces.WritesInOrderAgree: every write of the file succeeds; what a failing one leaves is in `RuntimeConfig.Manager.ApplyPatch`.
- Journal.RecentIsLastAppended: the JSON codec is a parameter that puts every event on one line and decodes it back; a character stands for a byte.
- Launcher.FindOrchestratorCommands: the list of executable extensions and the set of existing files are parameters.
- Launcher.InspectGlobalLauncher: the texts of the refresh and repair commands, the operating system, checkout root and executable are left out.
- The planner, autofill, ntfy, updater and control HTTP clients and the HTTP server: transport plumbing.
- The planner cycle itself, apart from what it writes to the worker table, the executor, git worktrees and process launching: foreign calls, represented by arbitrary results.
- Status, doctor and report printing, snapshots, templates, prompts, schemas, the Electron shell and plugin loading: presentation or flat copying.
- Artifact listing, pending actions and side-chat tables: single inserts and filtered selects with no state of their own to keep.
- Planner input and output validation: long clause lists settled one branch at a time.
- The control server's copy of the worker commands (internal/cli/runtime_control_worker_actions.go): the same transitions.
