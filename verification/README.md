# worker-q, modelled and verified

worker-q brokers heavy GPU, RAM and CPU work on one machine and hands some of it to others. A
dispatcher walks a queue a few times a second and decides, job by job, whether it starts here, goes to
another machine or waits; runners execute the commands; other processes submit, cancel and repair rows
in the same two tables. This project models that behaviour in Dafny and proves what it keeps.

`dafny verify dfyconfig.toml` checks everything.

## How it is laid out

| part | files |
|---|---|
| admission and the two ledgers | `Resources`, `AdmissionRule`, `QueueRows` |
| GPU placement | `Devices`, `DeviceChoice` |
| holding the queue for its head | `Hold`, `HeadRoom`, `Futility`, `HoldClock`, `HoldRuns` |
| preemption, memory pressure | `Preemption`, `Entitlement`, `Displacement`, `AskingAgain`, `Pressure`, `PressureRuns` |
| one scheduling tick | `World`, `Scan`, `StepEffects`, `TickTheorems`, `TurnRule`, `Dominance`, `LookAhead` |
| endings, restarts, whole runs | `Upkeep`, `Recovery`, `Endings`, `Runs`, `QueueOrder`, `Departures`, `RestartGaps` |
| the objects that change | `QueueStore`, `Dispatcher` |
| other machines | `Placement`, `RemoteLedger`, `Bookings`, `OriginLabels`, `RemoteSubmission` |
| a job's life across processes | `Jobs`, `Lifecycle`, `RunnerProcess`, `Reconcile` |
| forecast, policy block, process tree | `Forecast`, `Markup`, `PolicyBlock`, `ProcessTree` |
| what examples are built from | `SmallTables`, `SmallRuns` |

State that the source updates in place is a class. `Dispatcher`, `QueueStore`, `JobsTable`,
`RunnerProcess` and `Reconciler` have the source's fields, and each of their methods is proved to leave
exactly the state that a function of the old state describes. The
main results are lemmas about those functions: over a tick (`TickTheorems`), over every run of events
(`Runs`, `HoldRuns`, `Lifecycle`, `RemoteSubmission`), over every input (`PolicyBlock`, `Forecast`,
`ProcessTree`).

Decisions are stated twice. One form is the code's own, a function or a loop with its branches. The other is in
the readings, columns and settings alone (`AdmissionRule`, `DeviceChoice`, `HeadRoom`, `Entitlement`, `TurnRule`,
`Bookings`, `Endings`, and lemmas of this kind in `Lifecycle`, `Reconcile`, `Forecast` and `PressureRuns`), and the
two are proved to agree, in both directions.

What the model cannot decide is given to it: one frozen set of readings and one clock value per tick
(`TickEnv`), and per job what other machines and processes do meanwhile (`Fate`). Memory figures are
real numbers of MiB. The queue table is a sequence kept in dispatch order.

## Where the code differs from what it says

The model follows the code. Each item names the lemma or the contract that states it.

Properties that are documented or intended and do not hold; for each, exactly when it does and an input or a
run on which it does not:

- Preemption is documented to stop work only if that unblocks the waiter (`dispatcher.py:686-693`). It tests a
  slot and admission and never asks for devices, and it is asked whatever refused the waiter. What is stopped
  helps exactly when devices are then found (`Displacement.StoppingHelpsExactlyWhenDevicesAreFound`), and may be
  stopped in vain (`Displacement.StoppedForNothing`, `Displacement.NeedlessExactlyForWantOfDevices`).
- No work is to be destroyed for nothing (the repository's own `README.md:715-716`). A job asked to stop keeps its slot and its
  reservation until it has stopped, and the questions asked until then count it as staying: they stop further
  jobs for the same waiter exactly as long as the remaining candidates would do
  (`AskingAgain.StopsAgainExactlyWhenTheRestWouldDo`, `AskingAgain.OneWouldDoAndAllAreStopped`,
  `AskingAgain.TwoAreStoppedForOne`; both ways of stopping needlessly in `AskingAgain.StopsNeedlesslyExactly`).
- The preemption question counts every running row, those on other machines included, while admission counts
  only rows followed here. It is right exactly when limits are not enforced or nothing elsewhere asks for
  anything (`Displacement.RightlyAskedExactlyWhenNothingIsAskedAway`, `Displacement.WorkElsewhereStandsInTheWay`).
- Among candidates of equal rank the shortest running is to be displaced first (`dispatcher.py:677`); the
  longest running is. The intended order holds exactly where they have run equally long
  (`Preemption.LeastWorkFirstExactlyWhenEqual`, `Displacement.LongerRunIsStopped`).
- A displaced job is to return to the queue. It does exactly when the dispatcher that launched it sees it end,
  and is finished otherwise (`Departures.QueuedAgainExactlyWithItsDispatcher`,
  `Departures.DisplacedAfterARestartIsFinished`).
- Rank 0, critical, is falsy in `rank or 100` (`dispatcher.py:661-667`), so a critical job is compared as if it
  were normal: a high one displaces it, and it displaces no normal one
  (`Preemption.RankedRightExactlyUnlessCritical`, `Preemption.CriticalCanBeDisplaced`,
  `Preemption.CriticalCannotDisplaceNormal`).
- The dominance shortcut (`dispatcher.py:174-192`) is documented as always sound. It is unsound exactly when
  the earlier job shares a GPU with no VRAM declared and the later one shares with some
  (`Dominance.ShortcutRightExactlyOutsideTheGap`, `Dominance.GapIsReal`).
- `_hold_futility` claims no drain can help. Without enforcement, and for a head asking for no RAM when free
  memory was not read, it can; `Futility.FutilityRightExactlyWhenReliable` says exactly when it can be trusted.
- The hold budget is described as covering a job's whole stay. It is kept in memory, so it does exactly as long
  as the dispatcher lives (`RestartGaps.BudgetSurvivesExactlyWithTheDispatcher`,
  `RestartGaps.RestartRenewsTheHold`).
- Adopted jobs hold slots and reservations but no devices. A device is counted right exactly when no adopted
  job was launched on it (`RestartGaps.DeviceViewIsTrueExactlyWithoutAdoptedJobs`,
  `RestartGaps.AdoptedJobsLoseTheirDevices`); `Runs.EveryRunIsSafe` is about jobs launched here.
- The queue row exists before the job row says QUEUED (`core.py:475-497`), so a fast runner is refused exactly
  until that write is granted (`Lifecycle.RefusedExactlyBeforeQueued`), and its job can fail unstarted
  (`Lifecycle.EarlyRunnerFailsTheJob`, `Lifecycle.UnstartedJobsFailOnlyByMishapOrHaste`).
- Remote submission is called idempotent. It is exactly as far as no receiver creates a copy beside a live one
  (`RemoteSubmission.TwiceExactlyWhenDuplicated`), which happens when the scan raises, looks no further than the
  500 newest jobs, or is overtaken by another receiver (`RemoteSubmission.WhyDuplicated`, with a run for each).
- That covers one node. A sender whose reply is lost starts the job itself as well; it runs in both places
  exactly when it is started here beside a live copy, or copied beside its own run
  (`RemoteSubmission.HereAndThereExactlyWhenDoubled`, `RemoteSubmission.LostReplyDoubles`,
  `RemoteLedger.StartsHereExactlyWhenNotPlaced`).
- `upsert_block` says duplicates collapse into one. It does so exactly on balanced texts
  (`PolicyBlock.UpdateLeavesOneBlockExactlyWhenBalanced`).

Behaviour worth knowing, by contract:

- A dispatcher that dies between claiming a job and recording its process leaves a row that the next one
  finishes, although the process may live (`Recovery.RestartFollowsExactlyTheLiving`: only a recorded process
  is followed).
- `_would_block_the_queue` asks against the configured reserve, not the one in force (the contract of
  `Dispatcher.WouldBlockTheQueue`, through `Scan.FreesALater`).
- A preparing row that has a queue id and whose queue row runs or has succeeded is left as it is
  (`Reconcile.BlockedExactlyWhenRefused`).
- `max_preemptions` is not read and has no counterpart here.

## Model

| member | source | states |
|---|---|---|
| `Resources.AdmitOnlyGetsHarder` | src/workerq/resources.py:280-444 | admission is monotone: a refusal survives a request at least as large on every axis and reservations at least as large |
| `AdmissionRule.AdmittedExactlyWhenItFits` | src/workerq/resources.py:280-444 | an enforced admission is granted if and only if neither hard stop holds and, for what is asked for, free RAM less the request stays at the floor, some GPU has the VRAM free, declared RAM, VRAM and CPUs with the request stay within the machine less its reserve (one CPU always), and RAM plus VRAM fits under the commit ceiling above use and margin |
| `AdmissionRule.RefusalsTellTheTruth` | src/workerq/resources.py:280-444 | each refusal names a limit that is in fact not met |
| `AdmissionRule.RowsAskAsDeclared` | src/workerq/backends/dispatcher.py:575-583 | a row asks for what it declared and for the configured default where it declared nothing |
| `AdmissionRule.LedgerIsTheSum` | src/workerq/resources.py:267-273 | each ledger is the sum of what the running jobs declared on that axis |
| `Resources.AdmittedStaysInLedger` | src/workerq/resources.py:340-406 | an enforced admission leaves reserved RAM, VRAM and CPUs at most the larger of what they were and the machine's total less its reserve, one CPU always |
| `QueueRows.LedgerMovesByOneRow` | src/workerq/backends/dispatcher.py:603-610 | rewriting one row moves the ledger by exactly the difference of that row's weights before and after |
| `QueueRows.PutKeepsOrder` | src/workerq/backends/queue_store.py:247-260 | rewriting a row keeps the table in (rank, position, id) order |
| `Devices.AllocationIsSound` | src/workerq/backends/dispatcher.py:433-505 | an allocation is exactly as many distinct devices as asked for, each one allowed for this job |
| `DeviceChoice.OccupancyIsWhoIsThere` | src/workerq/backends/dispatcher.py:409-431 | a device counts as taken, shared, and with so much VRAM declared, exactly as the running jobs that were given it say |
| `DeviceChoice.AllocatedExactlyWhenEnoughMayBeHad` | src/workerq/backends/dispatcher.py:433-505 | an allocation is refused if and only if fewer devices may be had than asked for: idle ones free enough by the threshold or unmeasured, and for a job sharing with VRAM declared those where all share and the declared VRAM fits size less reserve |
| `DeviceChoice.BestDevicesAreHandedOut` | src/workerq/backends/dispatcher.py:496-505 | of a device handed out and one that might have been and is left over: the first is not shared beside an idle one, not unmeasured beside a measured idle one, and of two measured idle ones no fuller |
| `Devices.EqualsKeepListingOrder` | src/workerq/backends/dispatcher.py:503-505 | devices that rate alike are taken in the order they are listed |
| `Devices.FreestFirstSorts` | src/workerq/backends/dispatcher.py:503-505 | the ranking is a reordering, best first, of the candidates |
| `Dispatcher.Dispatcher.DeviceOccupancy` | src/workerq/backends/dispatcher.py:409-431 | the map built by the loop gives every device's occupants, declared VRAM and exclusiveness |
| `Dispatcher.Dispatcher.AllocateDevices` | src/workerq/backends/dispatcher.py:433-505 | the loop over devices returns the allocation the specification defines, without repeats |
| `Dispatcher.Dispatcher.DevicesInUse` | src/workerq/backends/dispatcher.py:403-407 | the union of all running jobs' devices |
| `Dispatcher.Dispatcher.ReservedHere` | src/workerq/backends/dispatcher.py:603-610 | the requests of exactly the running rows this dispatcher follows, in order |
| `Hold.FutilityIsSound` | src/workerq/backends/dispatcher.py:1057-1096 | a reliable reason never misleads: whichever running jobs end, each returning at most its declared RAM, the head it was given for still cannot start |
| `HeadRoom.HoldLetsThroughExactlyWhatLeavesRoom` | src/workerq/backends/dispatcher.py:991-1055 | a hold lets a job start if and only if its head's slot stays and, on each axis both use, the head would pass admission's own limit with the job declared and its RAM and commit in use, or has its GPUs left |
| `HeadRoom.NothingTheHeadLacksIsTaken` | src/workerq/backends/dispatcher.py:1019-1055 | where the head does not pass a limit now, a job let through asks for nothing on that axis |
| `TurnRule.HeldExactlyWhenItShould` | src/workerq/backends/dispatcher.py:1104-1152 | the queue is held for a tick's first refused job if and only if it has waited long enough since its first refusal, has not used up its budget and is not hopeless, that is: something runs, and it asks for no more than the machine gives to jobs or than is free and declared together; its stretch of holding goes on or is banked accordingly |
| `TurnRule.ForgetsExactlyTheGone` | src/workerq/backends/dispatcher.py:1171-1177 | a tick begins by forgetting hold time and failed placements of exactly the jobs that no longer wait |
| `Futility.FutilityRightExactlyWhenReliable` | src/workerq/backends/dispatcher.py:1057-1096 | for every head, limits and reason: the reason never misleads, on any machine and whatever ends, if and only if a condition on limits, request and whether free memory is read holds |
| `Futility.UnreliableMisleads` | src/workerq/backends/dispatcher.py:1072-1095 | for every head and every reason outside that condition there is a machine on which it misleads |
| `HoldClock.UsedNeverDecreases` | src/workerq/backends/dispatcher.py:1098-1145 | hold time used never goes down during one stay in the queue |
| `HoldClock.SpentBudgetIsFinal` | src/workerq/backends/dispatcher.py:1128-1145 | once the budget is spent the queue is never held for that job again |
| `HoldClock.HoldingIsCharged` | src/workerq/backends/dispatcher.py:1128-1130 | time spent held is at most the time the clock has charged |
| `HoldClock.TotalHoldIsBounded` | src/workerq/backends/dispatcher.py:1104-1145 | total held time of one stay is below the budget plus one gap between ticks |
| `HoldRuns.EveryTickIsOneHoldTick` | src/workerq/backends/dispatcher.py:1165-1318 | every tick considers at most one job for holding and is one step of the hold clock, held exactly when that step grants it |
| `HoldRuns.RunIsAHoldRun` | src/workerq/backends/dispatcher.py:1165-1318 | every run of one dispatcher, whatever its events, is a run of the hold clock |
| `HoldRuns.HoldOverARunIsBounded` | src/workerq/backends/dispatcher.py:1104-1145 | over any run of one dispatcher in which a job stays queued, whatever else happens, the time the queue is held for it is below the budget plus one gap between ticks |
| `RestartGaps.BudgetSurvivesExactlyWithTheDispatcher` | src/workerq/backends/dispatcher.py:311-320 | hold time charged to a waiting job survives an event if and only if the dispatcher does, or there was none to lose |
| `RestartGaps.RestartRenewsTheHold` | src/workerq/backends/dispatcher.py:311-320 | a run from the empty machine in which a job's budget is used up, the dispatcher restarts, and the queue is held for the job again |
| `Dispatcher.Dispatcher.PauseHold` | src/workerq/backends/dispatcher.py:1098-1102 | stops the stretch and banks it |
| `Dispatcher.Dispatcher.ShouldHold` | src/workerq/backends/dispatcher.py:1104-1145 | new clock and answer are those of the hold clock |
| `Dispatcher.Dispatcher.ForgetStaleHolds` | src/workerq/backends/dispatcher.py:1171-1177 | only jobs still queued keep hold time |
| `Preemption.VictimsAreJustified` | src/workerq/backends/dispatcher.py:647-684 | every victim runs here, is outranked as the code compares ranks, has opted in where that is required, started at least the minimum runtime ago and is not already stopping; no candidate left running ranks below a victim |
| `Entitlement.CandidatesAreThoseWhoMayBeStopped` | src/workerq/backends/dispatcher.py:647-684 | a row is a candidate if and only if preemption is on and the row runs, was launched or adopted here, is not flagged, opted in where that is required, started long enough ago and is outranked, in columns, clock and settings alone |
| `Entitlement.VictimsMayBeStopped` | src/workerq/backends/dispatcher.py:647-727 | every victim is such a row, and every such row of lower priority, or of equal priority and started earlier, is a victim too |
| `Entitlement.ExactlyTheVictimsAreAsked` | src/workerq/backends/dispatcher.py:729-749 | each victim's row gets the flag and the waiter's id, and no other row changes |
| `Entitlement.SufficesMeans` | src/workerq/backends/dispatcher.py:704-723 | what stopping is asked to achieve: a free slot, and the waiter's declared request fits beside all other running rows |
| `Entitlement.DispatcherAsksWithConsent` | src/workerq/backends/dispatcher.py:647-684 | no tick, crash, restart, reaping or pressure reading sets the stop flag of a row that did not opt in, while opting in is required |
| `Entitlement.UnwillingJobsAreLeftAlone` | src/workerq/backends/dispatcher.py:647-684 | over every run in which opting in is required, the flag of a job that never opted in stays down unless somebody else sets it |
| `Preemption.TiesKeepDispatchOrder` | src/workerq/backends/dispatcher.py:677-684 | candidates of equal rank and run time stay in dispatch order |
| `Preemption.VictimsAreMinimal` | src/workerq/backends/dispatcher.py:686-727 | each question is minimal by itself: with the victims stopped the waiter finds a slot and is admitted; no shorter run of the same order that stops anybody gives it that |
| `Preemption.StopsExactlyWhenSomeChoiceSuffices` | src/workerq/backends/dispatcher.py:705-727 | jobs are stopped if and only if some non-empty choice of displaceable jobs, any choice, would give the waiter a slot and pass admission |
| `Preemption.NeedlessExactlyWhenNobodyWouldDo` | src/workerq/backends/dispatcher.py:705-727 | stopping nobody passes the same test exactly when the victims are not minimal, and then one job is stopped |
| `Displacement.StoppingHelpsExactlyWhenDevicesAreFound` | src/workerq/backends/dispatcher.py:686-727 | once its victims have ended the waiter can start if and only if its devices can then be allocated, which nobody asked |
| `Displacement.StoppedForNothing` | src/workerq/backends/dispatcher.py:1289-1297 | a consistent machine on which a job is stopped although nobody needed to be, and the waiter still cannot start |
| `Displacement.NeedlessExactlyForWantOfDevices` | src/workerq/backends/dispatcher.py:1289-1297 | with nothing running elsewhere and no hold: stopping nobody would pass the test if and only if the refused job lacks devices alone, and then somebody is stopped all the same if and only if there is a candidate |
| `AskingAgain.StopsAgainExactlyWhenTheRestWouldDo` | src/workerq/backends/dispatcher.py:661-727 | the next question for the same waiter, nothing having ended, stops somebody else if and only if the candidates it then finds, those already stopping set aside, would do by themselves |
| `AskingAgain.TheRestAreBehindTheVictims` | src/workerq/backends/dispatcher.py:677-727 | in the same readings those are the candidates behind the victims in their order |
| `AskingAgain.StoppingSufficesAlready` | src/workerq/backends/dispatcher.py:661-727 | after a question that stops somebody, the jobs already stopping pass the next question's own test |
| `AskingAgain.OneWouldDoAndAllAreStopped` | src/workerq/backends/dispatcher.py:661-727 | where any one candidate would do, one question after another stops them all, one at a time |
| `AskingAgain.StopsNeedlesslyExactly` | src/workerq/backends/dispatcher.py:686-727 | while nothing runs elsewhere, work is stopped that need not be if and only if there are candidates, stopping them all would do, and so would what is stopping already, nobody included |
| `AskingAgain.TwoAreStoppedForOne` | src/workerq/backends/dispatcher.py:661-727 | a run from the empty machine in which two ticks a quarter of a second apart stop two jobs for a waiter that the end of either would let start |
| `Displacement.RightQuestionWhileNothingIsAway` | src/workerq/backends/dispatcher.py:704-714 | while none of its jobs runs on another machine, the test passes for a set of jobs if and only if the waiter would find a slot and be admitted once they have ended |
| `Displacement.RightlyAskedExactlyWhenNothingIsAskedAway` | src/workerq/backends/dispatcher.py:704-714 | the test is the one admission will apply, for every waiter, machine, slot count and set stopped, if and only if limits are not enforced or nothing running elsewhere asks for RAM, VRAM or CPUs |
| `Displacement.WorkElsewhereStandsInTheWay` | src/workerq/backends/dispatcher.py:704-714 | a job running on another machine keeps the waiter from displacing a job it could then replace |
| `Preemption.StoppingMoreStillSuffices` | src/workerq/backends/dispatcher.py:711-723 | sufficiency is monotone in the set stopped |
| `Preemption.LeastWorkFirstExactlyWhenEqual` | src/workerq/backends/dispatcher.py:677-684 | among candidates of equal rank the least work goes first if and only if they have run equally long |
| `Displacement.LongerRunIsStopped` | src/workerq/backends/dispatcher.py:677-684 | a machine on which, of two jobs of one rank either of which would do, the one that has run longer is stopped |
| `Preemption.RankedRightExactlyUnlessCritical` | src/workerq/backends/dispatcher.py:661-667 | ranks are compared as the priorities they stand for, except exactly where one is critical: rank 0 is read as 100 |
| `Preemption.CriticalCanBeDisplaced` | src/workerq/backends/dispatcher.py:661-667 | a critical job that opted in is displaced for one of high priority |
| `Preemption.CriticalCannotDisplaceNormal` | src/workerq/backends/dispatcher.py:661-667 | a critical job displaces no normal one, which the same job at high priority would |
| `Dispatcher.Dispatcher.PreemptionCandidates` | src/workerq/backends/dispatcher.py:647-684 | the loop and sort give the candidates of the specification, which are exactly the rows that may be stopped |
| `Dispatcher.Dispatcher.ConsiderPreemption` | src/workerq/backends/dispatcher.py:686-749 | sets the preemption flag on exactly the victims of the specification and changes nothing else |
| `TickTheorems.HoldNeverHurtsItsHead` | src/workerq/backends/dispatcher.py:991-1055 | over a whole tick, on every axis a held head needs, the spare still covers its need or is exactly what it was when the hold began |
| `HeadRoom.HeadKeepsItsRoom` | src/workerq/backends/dispatcher.py:991-1055 | over a tick, once the queue is held: each limit of admission the head passed it still passes at the end, and of what it lacked nothing more was taken |
| `TurnRule.StartsHereExactlyWhenItCan` | src/workerq/backends/dispatcher.py:1247-1272 | a job is judged fit to start here if and only if a slot is free, its declared request fits by admission's limits, enough devices may be had, and whoever the queue is held for is left room |
| `TurnRule.ChoosesTheFirstThatWouldTake` | src/workerq/backends/dispatcher.py:1406-1510 | another machine is chosen if and only if placement is on, the job can be shipped, here it cannot start or would stand in the way of a later unpinned job that fits without it, and some machine would take it; then it is the first that would: not barred, not put off, online, compatible, with nothing queued, and with room by its report |
| `TurnRule.EachTurnEndsUpWhereItShould` | src/workerq/backends/dispatcher.py:1201-1318 | turn by turn of every tick, where each waiting job is afterwards: on its machine, on the first other that would take it and did, started here, given up with 127, or waiting unchanged, with the conditions for each |
| `TurnRule.WaitsSinceItsFirstRefusal` | src/workerq/backends/dispatcher.py:622-645 | a job's wait is counted from the first turn that left it waiting until it runs, and no turn of another job changes it |
| `QueueOrder.EveryTickMeetsTheQueueInOrder` | src/workerq/backends/queue_store.py:247-260 | over every run each tick meets, once each, exactly the queued rows nobody asked to cancel, by rank, then position, then age |
| `TickTheorems.RefusalCarries` | src/workerq/backends/dispatcher.py:174-192 | a refusal for slots, admission, devices or a hold carries to a later job asking for at least as much, through any starts in between |
| `TickTheorems.DominatedJobsCannotStart` | src/workerq/backends/dispatcher.py:174-192 | a job that asks for at least as much as an earlier refused one is refused at its own turn |
| `LookAhead.RefusedRowsSpeakForOthers` | src/workerq/backends/dispatcher.py:1307-1313 | what the list of refused requests stands for: to the end of the tick, each job left out of the count because of an entry is refused here |
| `LookAhead.CountIsExact` | src/workerq/backends/dispatcher.py:1304-1314 | the look-ahead count is the number of jobs passed over that no earlier refused request dominates |
| `LookAhead.UnjudgedExactlyWhenLookedTooFar` | src/workerq/backends/dispatcher.py:1184-1194 | a job comes to its turn unjudged if and only if more jobs than the look-ahead allows were passed over before it, dominated ones not counted, or backfill is off and one was refused |
| `TickTheorems.RefusedStaysRefused` | src/workerq/backends/dispatcher.py:1165-1318 | a job refused at its turn would still be refused at the end of the tick |
| `Dominance.ShortcutRightExactlyOutsideTheGap` | src/workerq/backends/dispatcher.py:174-192 | the shortcut is right about two waiting jobs at every moment of every consistent machine if and only if not (earlier shared with no VRAM declared, later shared with some) |
| `Dominance.GapIsReal` | src/workerq/backends/dispatcher.py:174-192 | for every pair in the gap there is a consistent machine with both queued where the earlier is refused and the later fits |
| `TickTheorems.TickStaysInLedger` | src/workerq/backends/dispatcher.py:1165-1318 | a tick leaves each ledger at most the larger of what it was and the total less the reserve, and jobs in flight at most the larger of what they were and the slots |
| `TickTheorems.TickKeepsDevicesSafe` | src/workerq/backends/dispatcher.py:409-505 | a tick keeps every device to one occupant, or to sharing occupants whose declared VRAM fits |
| `TickTheorems.WalkIsARunOfTurns` | src/workerq/backends/dispatcher.py:1201-1318 | every tick is a run of turns, each quiet or exactly one launch |
| `StepEffects.StepEffect` | src/workerq/backends/dispatcher.py:1201-1318 | what one job's turn can do: consistent books, no other row touched but for preemption flags, at most one launch |
| `Dispatcher.Dispatcher.StartJob` | src/workerq/backends/dispatcher.py:905-988 | claim, spawn and record: the new state for every outcome, a bad command, a lost claim, a failed spawn, a launch |
| `Dispatcher.Dispatcher.StartRemote` | src/workerq/backends/dispatcher.py:1756-1860 | the new state for every outcome: a failed placement put off, a lost claim whose copy is recalled, a placement recorded, charged to the report and cleared of earlier failures |
| `Dispatcher.Dispatcher.JudgeHere` | src/workerq/backends/dispatcher.py:1247-1272 | the verdict of the specification: slots, then admission, then devices, then the hold |
| `Dispatcher.Dispatcher.WouldBlockTheQueue` | src/workerq/backends/dispatcher.py:1406-1432 | true exactly when a later job free to go anywhere is blocked beside this one and free without it, by the configured reserve |
| `Dispatcher.Dispatcher.OfferPinned` | src/workerq/backends/dispatcher.py:1215-1239 | the turn of a job pinned to a machine |
| `Dispatcher.Dispatcher.OfferElsewhere` | src/workerq/backends/dispatcher.py:1512-1531 | the turn of a job once this machine takes nothing more |
| `Dispatcher.Dispatcher.Refuse` | src/workerq/backends/dispatcher.py:1289-1314 | the turn of a job that cannot start here: head, preemption, hold, look-ahead count |
| `Dispatcher.Dispatcher.StartReadyJobs` | src/workerq/backends/dispatcher.py:1165-1318 | the loop leaves queue, running jobs, hold clock, waiting notes, placement failures and cached reports exactly as the specified tick does |
| `Upkeep.RequeuedGoesFirstInItsTier` | src/workerq/backends/queue_store.py:388-418 | a displaced job is dispatched before every queued job of its rank |
| `Endings.DisplacedStandsFirst` | src/workerq/backends/queue_store.py:388-418 | a displaced job's position is below that of everything that waits |
| `Endings.ReapingRecordsHowEachEnded` | src/workerq/backends/dispatcher.py:2021-2056 | exactly the launched jobs whose process exited are dropped: one asked to stop waits again, unflagged and without a process; any other is finished with its exit code; no other row changes |
| `Endings.AdoptedEndExactlyWhenGone` | src/workerq/backends/dispatcher.py:2058-2073 | an adopted job is finished, without an exit code, if and only if its process number is not taken or taken by a process of another creation time |
| `Endings.RestartTakesOver` | src/workerq/backends/dispatcher.py:2245-2269 | on a restart a row running here is followed under its process number and that process's creation time if the process is alive, by creation time where one was recorded, and otherwise finished without an exit code; no other row is touched |
| `Endings.NothingIsCarriedOver` | src/workerq/backends/dispatcher.py:296-348 | a dispatcher that takes over has no hold, wait, placement, report or strike noted |
| `Endings.OtherEndingsAreRecorded` | src/workerq/backends/dispatcher.py:2076-2128 | what is written for a cancelled job nobody here launched, for one that ended elsewhere, and for one withdrawn |
| `Upkeep.ReapOneLeaves` | src/workerq/backends/dispatcher.py:2021-2056 | a reaped job leaves the books consistent, gives its reservation back and touches no other row |
| `Upkeep.ReapAdoptedLeaves` | src/workerq/backends/dispatcher.py:2058-2073 | the same for an adopted job whose process is gone |
| `Departures.LaunchedHereExactlyUntilReplaced` | src/workerq/backends/dispatcher.py:2245-2269 | over every run a job in flight is followed as launched here if and only if no restart and no crash fell since its launch |
| `Departures.QueuedAgainExactlyWithItsDispatcher` | src/workerq/backends/dispatcher.py:2036-2073 | over every run a job asked to stop is queued again when it ends if and only if no restart and no crash fell between its launch and its end; otherwise it is finished |
| `Departures.DisplacedAfterARestartIsFinished` | src/workerq/backends/dispatcher.py:2058-2073 | a run from the empty machine in which a displaced job is recorded as finished because another dispatcher had adopted it |
| `Dispatcher.Dispatcher.Reap` | src/workerq/backends/dispatcher.py:2021-2056 | after the loop the state is that of reaping each ended job in turn |
| `Dispatcher.Dispatcher.ReapAdopted` | src/workerq/backends/dispatcher.py:2058-2073 | after the loop the state is that of finishing each vanished adopted job in turn |
| `Dispatcher.Dispatcher.RecoverOrphans` | src/workerq/backends/dispatcher.py:2245-2269 | after the loop the state is the recovery the specification defines |
| `Recovery.RestartFollowsExactlyTheLiving` | src/workerq/backends/dispatcher.py:2245-2269 | from any table a crash can leave, the jobs followed and the rows left running here are exactly those whose recorded process is still the one running |
| `Recovery.LedgerCountsExactlyLocalRunning` | src/workerq/backends/dispatcher.py:603-610 | whenever the books agree the ledger counts exactly the rows running on this machine |
| `Recovery.RestartNeverAdds` | src/workerq/backends/dispatcher.py:2245-2269 | on any such table a restart neither raises the ledger nor adds jobs in flight |
| `Recovery.HalfClaimIsLeftBehind` | src/workerq/backends/dispatcher.py:905-988 | the table of a dispatcher that died with a job claimed and no process recorded is such a table |
| `RestartGaps.DeviceViewIsTrueExactlyWithoutAdoptedJobs` | src/workerq/backends/dispatcher.py:409-431 | at any time in any run the occupancy counted for a device is the true one if and only if no adopted job was launched on it |
| `RestartGaps.DevicesWithoutAdoptedJobsAreSafe` | src/workerq/backends/dispatcher.py:409-431 | over every run a device no adopted job was launched on is truly safe |
| `RestartGaps.AdoptedJobsLoseTheirDevices` | src/workerq/backends/dispatcher.py:409-431 | a run from the empty machine, safe by its own books throughout, that puts two exclusive jobs on one GPU |
| `Runs.OtherEventEases` | src/workerq/backends/dispatcher.py:2021-2128 | every event but a tick, whole or broken off, leaves books consistent, ledger, slots and devices no fuller |
| `Runs.EveryRunIsSafe` | src/workerq/backends/dispatcher.py:2196-2240 | over every interleaving of ticks, exits, restarts, crashes at any turn of a tick, kills and other processes' edits: books agree with the table, devices are safe, ledger and slots within bounds |
| `Runs.EveryRunIsConsistent` | src/workerq/backends/dispatcher.py:2196-2240 | over every such run, limits enforced or not, the books agree with the table |
| `Runs.CrashStaysSafe` | src/workerq/backends/dispatcher.py:2245-2269 | wherever in a tick the dispatcher dies, its successor starts safe |
| `Runs.EmptyIsSafe` | src/workerq/backends/dispatcher.py:296-301 | an empty machine is a safe start |
| `QueueStore.QueueStore.Enqueue` | src/workerq/backends/queue_store.py:171-219 | inserts one row with a new id, at the next position, waiting, wanting what the draft wants and with no trace of an earlier run |
| `QueueStore.EnqueuedGoesLastInItsTier` | src/workerq/backends/queue_store.py:191-193 | a new job is dispatched after every other of its rank |
| `QueueStore.QueueStore.ClaimForStart` | src/workerq/backends/queue_store.py:271-279 | succeeds exactly when the row is queued, and leaves it unclaimable |
| `QueueStore.QueueStore.ClaimForRemoteStart` | src/workerq/backends/queue_store.py:281-296 | the same, recording node and remote id in the same write |
| `QueueStore.QueueStore.Finish` | src/workerq/backends/queue_store.py:346-352 | finishes the row whatever its state, dropping its process |
| `QueueStore.QueueStore.RemoveQueued` | src/workerq/backends/queue_store.py:354-361 | succeeds exactly when the row is queued |
| `QueueStore.QueueStore.RequestCancel` | src/workerq/backends/queue_store.py:363-376 | succeeds exactly when the row is queued or running |
| `QueueStore.QueueStore.RequestPreempt` | src/workerq/backends/queue_store.py:378-386 | succeeds exactly once per run, on a running row |
| `QueueStore.QueueStore.Requeue` | src/workerq/backends/queue_store.py:388-418 | the row returns to the queue, unflagged and without a process |
| `QueueStore.QueueStore.Promote` | src/workerq/backends/queue_store.py:468-485 | moves a queued row to the front, and only a queued one |
| `QueueStore.PromotedGoesFirst` | src/workerq/backends/queue_store.py:468-485 | a promoted job is dispatched before everything else that waits, at rank 0 or the lowest rank waiting if that is lower, and nothing else of its row changes |
| `Placement.DelayClosedForm` | src/workerq/backends/dispatcher.py:1579-1583 | after k failures in a row the delay is min(900, 60 * 2^(k-1)) seconds |
| `Placement.FailingAttemptsSpreadOut` | src/workerq/backends/dispatcher.py:1561-1583 | however attempts interleave, n failing ones of one job on one node span at least the first n-1 delays |
| `RemoteLedger.FailingPlacementsSpreadOut` | src/workerq/backends/dispatcher.py:1561-1583 | over every run, n failing attempts to place one job on one machine, since it was last placed there or left the queue or the dispatcher was replaced, span at least the first n-1 delays |
| `RemoteLedger.FailuresShow` | src/workerq/backends/dispatcher.py:1579-1583 | every failing attempt that was due changes the retry entry, so the run shows each of them |
| `RemoteLedger.StartsHereExactlyWhenNotPlaced` | src/workerq/backends/dispatcher.py:1274-1280 | a turn that finds a machine but fails to place the job goes on: the job starts here if and only if this machine would have it and it was not placed |
| `Dispatcher.Dispatcher.NotePlacementFailed` | src/workerq/backends/dispatcher.py:1579-1583 | records the doubled, clamped delay and the time it ends |
| `Dispatcher.Dispatcher.PlacementPutOff` | src/workerq/backends/dispatcher.py:1561-1577 | a wait is given exactly while the node may not be tried |
| `RemoteLedger.StaleReportIsNotOverdrawn` | src/workerq/backends/dispatcher.py:1585-1603 | over any stretch of any run in which a machine does not report again, its report as charged stays on each ledger at most the larger of reported and usable there |
| `RemoteLedger.TurnTriesOnlyWhatIsDue` | src/workerq/backends/dispatcher.py:1434-1510 | each turn tries at most one machine, not put off, whose charged report admits the job |
| `Bookings.TurnIsBooked` | src/workerq/backends/dispatcher.py:1561-1603 | what a turn writes down about other machines: nothing when none was asked; after a failed placement the next attempt is put off by a minute, or twice the last delay, a quarter of an hour at most; after a placement the report is charged with the request and earlier failures are forgotten; a copy whose row can no longer be claimed is taken back |
| `Dispatcher.Dispatcher.AccountRemoteStart` | src/workerq/backends/dispatcher.py:1585-1603 | a placed job is charged to the cached report, if there is one |
| `Pressure.StrikesCountLowReadings` | src/workerq/backends/dispatcher.py:826-856 | strikes are exactly the readings under the floor since the last recovery or action |
| `Pressure.ActionsArePaidFor` | src/workerq/backends/dispatcher.py:842-881 | actions times the sample count never exceed the readings under the floor |
| `Pressure.PressureVictimIsNewest` | src/workerq/backends/dispatcher.py:883-902 | only an opted-in job of this dispatcher not already stopping is chosen, one that loses least work, and one is chosen whenever there is any |
| `PressureRuns.StrikesAreOfTheReadings` | src/workerq/backends/dispatcher.py:826-856 | in every run the strike count is the number of readings under the floor since the last recovery, action or change of dispatcher |
| `PressureRuns.StopsArePaidFor` | src/workerq/backends/dispatcher.py:842-881 | over every run, restarts and crashes included, actions times the sample count never exceed the readings under the floor |
| `PressureRuns.OneIsStoppedAtMost` | src/workerq/backends/dispatcher.py:856-902 | a reading stops nobody, or one opted-in job of this dispatcher not already stopping that has run shortest |
| `PressureRuns.GuardFollowsTheReading` | src/workerq/backends/dispatcher.py:826-902 | in figures: a reading recovered clears the strikes, one between the thresholds or missing changes nothing, one under both is a strike more, and the strike that makes up the count clears them and asks the opted-in job that has run shortest to stop, if there is one |
| `Dispatcher.Dispatcher.RelievePressure` | src/workerq/backends/dispatcher.py:826-881 | new strike count, the job stopped if any, and the one flag set: the event of the runs |
| `Jobs.TransitionsGoForward` | src/workerq/models.py:40-76 | legal moves leave no terminal state, go forward except displacement, and reach running only from queued |
| `Jobs.LegalMovesAre` | src/workerq/models.py:43-71 | a move is legal if and only if it stays put, or leaves a live state for one other than preparing, and does not take a preparing row to running or succeeded |
| `Jobs.JobsTable.UpdateJob` | src/workerq/db.py:529-552 | one transaction: checked move, that row alone rewritten, columns set or cleared as asked; a refused or missing row changes nothing |
| `Jobs.JobsTable.TryUpdateState` | src/workerq/db.py:554-563 | granted exactly when the row exists and the move is legal; otherwise nothing changes, and a missing row is reported apart from a refused move |
| `Lifecycle.TerminalIsForever` | src/workerq/models.py:38-76 | in every interleaving a terminal row never changes state again |
| `Lifecycle.OnlyCommittersStart` | src/workerq/runner.py:177-194 | every command start follows that runner's own granted RUNNING write |
| `Lifecycle.LateRunnersNeverStart` | src/workerq/runner.py:146-194 | a runner that has not committed when the row turns terminal never starts the command, even if the queue row is claimed or requeued again |
| `Lifecycle.OneRunnerAtATime` | src/workerq/backends/queue_store.py:271-279 | in every interleaving no two runners execute one job's command at once: the queue gives a job out again only when its last runner has been seen to exit |
| `Lifecycle.RemovedJobsNeverRun` | src/workerq/backends/queue_store.py:354-361 | a job removed from the queue while no runner is alive never runs again, whatever else happens, a failed launch of it included |
| `Lifecycle.SuccessIsEarned` | src/workerq/runner.py:468-527 | in every interleaving, with runners killed anywhere and rows finished by the dispatcher, a job recorded as succeeded, a queue row finished with zero, or a runner that exited zero had a command that exited zero |
| `Lifecycle.EndingsAreRecorded` | src/workerq/runner.py:468-527 | over every run, what a runner's last write makes of the row: an ending stands; else queued again if displaced, else cancelled if cancelled, else succeeded if and only if the command exited zero, else failed |
| `Lifecycle.HowItEnded` | src/workerq/runner.py:454-468 | what a runner settles by is how its own command ended |
| `Lifecycle.ExitsAreRecorded` | src/workerq/backends/dispatcher.py:2021-2056 | over every run, what the queue is told when a runner is seen to have exited: waiting again and unflagged if it was asked to stop, else finished with the runner's exit code |
| `Lifecycle.EarlyRunnerFailsTheJob` | src/workerq/core.py:475-497 | a run without any mishap in which a runner commits before the submitter records QUEUED, is refused, and the job fails unstarted |
| `Lifecycle.PreparingUntilQueued` | src/workerq/models.py:43-71 | in every interleaving a live row is still being prepared if and only if no write of QUEUED has been granted yet |
| `Lifecycle.RefusedExactlyBeforeQueued` | src/workerq/runner.py:176-194 | in every interleaving a runner is turned away at its commit if and only if the row has ended or no write of QUEUED was granted before |
| `Lifecycle.UnstartedJobsFailOnlyByMishapOrHaste` | src/workerq/core.py:475-497 | a job whose command never started is recorded as failed only after a rejected command, a failed spawn or launch, a failed submission, a killed runner or job, a lost process, or a runner launched while the row was being prepared |
| `RunnerProcess.RunnerProcess.Read` | src/workerq/runner.py:146-159 | gives up with 127 when there is no row, refuses a terminal one, with exit code 0 only if it succeeded, and accepts every other |
| `RunnerProcess.RunnerProcess.Commit` | src/workerq/runner.py:176-194 | goes on exactly when its RUNNING write is granted, which then records start time and process |
| `RunnerProcess.RunnerProcess.Settle` | src/workerq/runner.py:468-527 | records displacement, the row's own ending, cancellation or the exit code, in that order of precedence, with the columns each sets or clears |
| `Reconcile.PassesReachAFixedPoint` | src/workerq/core.py:1755-1793 | against an unchanged queue and clock two passes reach a fixed point, every row of which is settled |
| `Reconcile.RowSaysWhatTheQueueSays` | src/workerq/core.py:1682-1753 | what a live row with a readable queue row, or none, says after a pass: state, node, start, end, exit code and process, value by value |
| `Reconcile.RowIsFoundByItsLabel` | src/workerq/core.py:1769-1793 | a row without a queue id: lost when prepared for more than five minutes, else waiting under the id of the last queue row listed with its label, else as it was |
| `Reconcile.UnchangedExactlyWhenSettled` | src/workerq/core.py:1682-1753 | a pass leaves a row alone if and only if it has ended, has nothing to compare with, cannot be read, says what the queue says, or may not |
| `Reconcile.TwoPassesSettle` | src/workerq/core.py:1682-1793 | one pass settles every row but one re-attached by label, which needs one more |
| `Reconcile.BlockedExactlyWhenRefused` | src/workerq/models.py:43-71 | the refused moves of a live row are exactly a preparing row whose queue row runs or has succeeded |
| `Reconcile.PassObeysTheTable` | src/workerq/core.py:1682-1753 | a pass makes only legal moves and undoes no ending |
| `Reconcile.Reconciler.ReconcileJob` | src/workerq/core.py:1682-1753 | one row becomes what the specification says, the others stay |
| `Reconcile.Reconciler.RecoverLostBackendIds` | src/workerq/core.py:1769-1793 | exactly the preparing rows without a queue id that a label names are re-attached |
| `Reconcile.Reconciler.Reconcile` | src/workerq/core.py:1755-1767 | the loops leave the table as one specified pass |
| `OriginLabels.LabelRoundTrip` | src/workerq/remote.py:51-62 | parsing a label gives back host and id for every host name, colons included, exactly when the id is not negative |
| `OriginLabels.LabelsAreUnique` | src/workerq/remote.py:51-52 | no two jobs of any two machines share a label |
| `RemoteSubmission.ScanAnswers` | src/workerq/remote.py:258-278 | in whatever order the newest jobs are listed the scan returns a live copy among them, or none when there is none |
| `RemoteSubmission.EveryReceiverAnswers` | src/workerq/cli.py:2960-2989 | a receiver answers with the copy it found and creates nothing, or creates one live job with the sender's label and answers with that |
| `RemoteSubmission.NeverPlacedWhileHere` | src/workerq/backends/dispatcher.py:1830-1844 | over every run no row is recorded as placed while its job runs here, however late replies arrive |
| `RemoteSubmission.TwiceExactlyWhenDuplicated` | src/workerq/cli.py:2960-2989 | in every run with crashes, lost replies and repeats a label ever has two live jobs if and only if some receiver that found none creates one while there is one |
| `RemoteSubmission.WhyDuplicated` | src/workerq/cli.py:2960-2989 | of each such creation the scan had failed, or each live copy was out of its reach or created after it |
| `RemoteSubmission.AtMostOneLiveCopy` | src/workerq/cli.py:2960-2989 | so a label has at most one live job over every run in which each scan completes, sees every live copy and does not overlap another receiver of the same job |
| `RemoteSubmission.RecordedIdsNameTheirJob` | src/workerq/backends/dispatcher.py:1830-1844 | whatever is lost or repeated, a recorded remote id names a job carrying that row's label |
| `RemoteSubmission.CopyOutOfReachIsDuplicated` | src/workerq/cli.py:2965-2968 | for every job a run from the empty node in which the first copy is older than the 500 newest jobs and is duplicated |
| `RemoteSubmission.OverlappingReceiversDuplicate` | src/workerq/cli.py:2960-2989 | for every job a run in which two receivers both look before either answers and create two live copies |
| `RemoteSubmission.FailedScanDuplicates` | src/workerq/cli.py:2985-2987 | for every job a run in which the second scan raises and a second live copy is created |
| `RemoteSubmission.HereAndThereExactlyWhenDoubled` | src/workerq/backends/dispatcher.py:1274-1280 | over every run a job ever runs here and on the node at once if and only if it is started here while the node has a live copy or a receiver creates one while it runs here |
| `RemoteSubmission.LostReplyDoubles` | src/workerq/backends/dispatcher.py:1274-1280 | for every job a run in which the reply is lost and the sender starts the job itself beside the copy |
| `Forecast.Forecast` | src/workerq/eta.py:319-405 | the loops compute the specified layout for every job list and slot setting |
| `Forecast.OpensWithTheRunning` | src/workerq/eta.py:338-361 | a chart opens with each running job on a slot of its own for what it has left, and every other slot free |
| `Forecast.EachIsLaidOnTheSoonest` | src/workerq/eta.py:363-405 | each waiting job in turn is laid on the first of the slots that free soonest and starts then, unless that is now and it has been refused; what is not known makes what follows unknown |
| `Forecast.ForecastIsFeasible` | src/workerq/eta.py:363-405 | intervals on one slot never overlap, known starts never go down, and at no instant do more jobs overlap than max(slots, running), jobs of unknown length counted from their start on |
| `Forecast.StartIsBounded` | src/workerq/eta.py:363-405 | with nothing unknown or blocked, a start times the number of slots is at most the running jobs' remaining time plus all earlier durations |
| `Forecast.WorkIsConserved` | src/workerq/eta.py:363-405 | the slots' free times always add up to the work handed out |
| `PolicyBlock.UpsertBlock` | src/workerq/claude_policy.py:313-336 | the loop terminates and computes the specified update |
| `PolicyBlock.UpdateLeavesOneBlockExactlyWhenBalanced` | src/workerq/claude_policy.py:313-336 | afterwards there is exactly one block, found word for word, if and only if every opening marker had from itself on at least as many closing as opening markers |
| `PolicyBlock.UpdateIsIdempotent` | src/workerq/claude_policy.py:313-336 | on such texts updating twice is updating once |
| `PolicyBlock.UpdateKeepsTheRest` | src/workerq/claude_policy.py:331-336 | with at most one opening marker there, closed or not, the text outside is kept: word for word on replacement, up to trailing new lines when appending |
| `PolicyBlock.RemoveBlock` | src/workerq/claude_policy.py:339-353 | the loop terminates and computes the specified removal |
| `PolicyBlock.RemovalLeavesNoBlock` | src/workerq/claude_policy.py:339-353 | no complete block is left, and on balanced texts no opening marker at all |
| `PolicyBlock.RemovalUndoesUpdate` | src/workerq/claude_policy.py:313-353 | removal undoes an update of a text without opening markers, up to trailing new lines |
| `PolicyBlock.PolicyMarkersAreProper` | src/workerq/claude_policy.py:22-23 | the markers in use have the shape the results above need |
| `Markup.CountCountsOpens` | src/workerq/claude_policy.py:309-310 | the non-overlapping count is the number of opening markers |
| `ProcessTree.DescendantsOf` | src/workerq/host.py:439-461 | terminates on any parent map and returns exactly the processes reachable from the roots, the least set holding them and closed under children |
| `ProcessTree.IndexChildren` | src/workerq/host.py:448-451 | the index lists exactly each process's recorded children |

## Left out

- EveryRunIsSafe: limits and enforcement are fixed over a run, and reserve, capacity, slots and device sizes stay within given bounds; `TickStaysInLedger` bounds a single tick without that.
- DeviceOccupancy: assumes no running job was given one device twice, which `AllocateDevices` guarantees when the GPU listing names each device once.
- FutilityIsSound: takes the host floor percentage to be non-negative, as configuration checking does.
- Time and readings inside one tick: a tick sees one clock value and one snapshot, where the source reads the clock and memory several times.
- Changes by other processes inside one tick: only withdrawal of a waiting job is modelled; re-ranking or correcting a request between listing and claim is an event between ticks.
- Placement on other machines: which machines may be asked at all (down, not staged, no time left this tick) is given per job; reports arrive by themselves, between turns or ticks, a first fetch included; copying inputs and shipping are one outcome.
- Floating-point rounding: memory and time are real numbers; the 1e-9 tolerance at the GPU threshold is kept.
- Wait-reason texts, logging, events and telemetry: refusals are enumerations.
- Threads of the dispatcher: the watchdog, the node poller and the snapshot cleaner; a poll is a replacement of the cached report.
- Following and cancelling jobs on other machines: a remote ending is one event with an arbitrary exit code.
- Process control, console signals and job objects: launches, exits and kills are events with arbitrary outcomes; a command that outlives its killed runner is not modelled.
- SQLite: each transaction is one atomic step.
- Usage measurements copied from a node, error texts and manifests during reconciliation: no decision reads them.
- Queue states outside the five named ones, which the source maps to nothing, do not exist in the model.
- `list_jobs` display order of the duplicate scan: the scan lemma holds for every order.
- Estimating durations from history: the forecast takes each estimate as given.
- Python's Unicode digits in `isdigit`: labels are parsed with ASCII digits.
- Command line, dashboard, web interface, configuration, staging, snapshots and reports.
- Liveness: ordering is strict, so a waiting job may wait forever by design.
