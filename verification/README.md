# Verified model of mgd

`mgd` is a memory-pressure controller for Linux. Once per cycle it scores the
pressure, decides which processes to freeze, checkpoint, terminate or kill,
holds spike victims stopped for headroom, caps background cgroups, and undoes
all of it when the pressure falls. This project models its policy in Dafny and
proves what the policy promises over whole runs, not only call by call.

The modules follow the components:

| module | component |
|---|---|
| `Types`, `Config`, `Psi`, `Collections`, `Ranking`, `Window`, `Text` | shared units, pressure levels, sums over maps, stable sorting, rolling windows, lines of text |
| `Lifecycle` | the freeze protocol between all threads, as a state machine over interleaved steps |
| `Executor` | signals under the recycle guard, the frozen registry, freeze with rollback, shutdown |
| `Scoring` | composite score, damped state machine, swap override timer |
| `Decision`, `Execute` | the eviction planner and the execution of a plan |
| `Health`, `Recovery` | the RAM baseline, the unfreeze and restore passes |
| `SpikeState`, `VictimLog`, `SpikeTracker`, `SpikeCycle` | spike mode: one tracked process, the history of victims, the tracker, the cycle |
| `LeakGuard`, `Calibrate`, `MemCap`, `GpuCache` | the remaining trackers |
| `PsiPatch` | the `[psi]` rewriter of `mgctl` |

Objects the program updates in place are classes with the same fields; each
method is proved against a specification, mostly a function of the old state or
of a ghost history, and the theorems are about that specification. Decisions
that iterate over hash maps are proved for every order. Time is a natural number
of milliseconds of a monotonic clock and a parameter of each update; floats are
reals, with the casts back to integers (truncating, saturating) kept. What the
kernel, `/proc`, the helpers and the regular expressions answer are parameters or
arbitrary functions.

## What the proofs found

* The unlocked releases (`ActiveWindow` in the plugin server, `unfreeze` over IPC,
  focus change in the evictor) can drop a fresh registry entry not only when a
  re-freeze falls between their SIGCONT and their `remove`: it is enough that the
  pid was recycled and re-frozen after the entry was read, because the guarded
  SIGCONT then succeeds without doing anything. A registration inside that wider
  window can lose the process exactly when it is stopped and nothing but the thread
  registering it remembers it (`EveryUncleanRegistrationCanLose`). There is a run from
  the start of the daemon for each half of the window (`ReleaseTakesAFreshEntry`,
  `ReleaseTakesASuccessorsEntry`). In both, recovery releases the old entry first.
* Shutdown can leave a process stopped. The threads that serve connections are
  detached (mgd/src/ipc.rs:104) and only the accepting thread is joined
  (mgd/src/main.rs:76), so a `freeze` over IPC may have sent its SIGSTOP when
  `shutdown_unfreeze` reads the registry and add its entry later, or start only then.
  After a shutdown nothing is stopped if no such freeze is in flight or succeeds
  late (`NoProcessIsLost`); every one that is or does can be lost
  (`EveryUncleanCloseCanLose`, `EveryUncleanStopCanLose`), and two runs from the
  start show it (`ShutdownMissesAFreezeInFlight`, `ShutdownMissesALateFreeze`).
* A stopped process that the daemon may no longer signal is lost in the end whatever
  the daemon does (`UnsignalableIsLost`). Together: a step of the protocol meets the
  side condition of `NoProcessIsLost` if and only if no steps that meet it can lose a
  process afterwards (`CleanExactly`).
* A victim's record is dropped whether or not its SIGCONT worked, unlike a registry
  entry (`VictimReleaseLosesUnsignalable`, `ReleasedVictimIsLost`).
* `execute_plan` says it counts synchronous kills only. It also counts kills that
  failed, and an expendable process whose checkpoint failed although it is terminated
  asynchronously (`DestructiveCountsExactly`, `FutilePlanIsCounted`).
* The planner's "never touch the system tier" holds for effective priority; a
  focused process configured at 19 or below is lifted to 20
  (`SystemTierTouchedOnlyInFocus`, `FocusExposesSystemProcess`). More pressure on a more expendable process is
  answered more mildly in two cases only: where High terminates and Critical is told
  to checkpoint, and at Critical without checkpoint support, where a process below
  priority 60 is killed but one at 60 or above is asked to terminate
  (`WorseIsHarsherExactly`, `WorseIsMilder`).
* CPU weights: a spike is restored in the cgroup it is in when it calms down, not in
  the one that was throttled; one that has none then, or exits while throttled, is
  not restored at all. So every throttle is undone if and only if the process is in
  the throttled cgroup at each tick that clears its flag and at shutdown, and does
  not exit while throttled (`ThrottleUndoneExactly`, `MovedSpikeLeavesThrottle`).
* A failed restore of `memory.max` is forgotten, and a capped cgroup that is removed
  and made again is believed capped (`AgreementLostExactly`, `AgreementIsLost`).
* The `[psi]` rewriter promises to preserve all other content and comments. It loses
  a live line of a key that only starts like one of its two (`LookalikeIsLost`) and
  the comment after a value it replaces (`CommentIsLost`), such as the daemon's own
  suggestion file has; and since it does not see a table header with a comment after
  it, it writes keys into the next table (`KeysLandInNextTable`) or a second `[psi]`
  table, as it does beside an inline or dotted `psi` key (`OnePsiTableExactly`). `ContentPreservedExactly` says when nothing is lost.
* A process without arguments shares a leak-guard family with any process whose
  command line spells `noargs:` and its name (`SameGroupExactly`,
  `SpelledKeyCollides`).

In each case the code is modelled as it is.

## Model

| member | source | states |
|---|---|---|
| `Lifecycle.NoProcessIsLost` | mgd/src/evictor/execute.rs:92-111 | over every clean interleaving of freeze, register, rollback, victim record, drain, locked and unlocked release, exit, pid reuse and shutdown, each stopped process is remembered under its real start time by the registry, the victim map or the thread in flight; once shutdown has worked off the registry nothing is stopped. Clean: no registration a stopped process depends on inside the window of an unlocked release, no freeze in flight when shutdown reads the registry or succeeding later unless shutdown still has to continue that process, no right to signal a stopped process lost |
| `Lifecycle.CleanExactly` | mgd/src/plugin_server.rs:317-333 | the side condition is exact: a step meets it if and only if no continuation that meets it loses a process |
| `Lifecycle.EveryUncleanStepCanLose` | mgd/src/evictor/execute.rs:92-111 | one half of that: every step that does not meet it has a losing continuation that does |
| `Lifecycle.EveryUncleanRegistrationCanLose` | mgd/src/plugin_server.rs:317-333 | any registration, inside the window of an unlocked release (which opens when the entry was selected for an earlier owner of the pid, not only at its SIGCONT), of a stopped process that only the registering thread remembers is lost when that release goes on undisturbed |
| `Lifecycle.EveryUncleanCloseCanLose` | mgd/src/main.rs:74-81 | wherever shutdown reads the registry while a freeze that is not in it is in flight, registrations alone then leave the process stopped and forgotten |
| `Lifecycle.EveryUncleanStopCanLose` | mgd/src/ipc.rs:476-482 | so does a freeze that succeeds after that, of a process shutdown has not still to continue |
| `Lifecycle.EveryUncleanRevokeCanLose` | mgd/src/executor/freezer.rs:31-42 | so does losing the right to signal a stopped process |
| `Lifecycle.UnsignalableIsLost` | mgd/src/lifecycle.rs:36-55 | from any state the daemon, by itself and with clean steps, comes to a shutdown after which a stopped process it may not signal is forgotten |
| `Lifecycle.ReleaseTakesAFreshEntry` | mgd/src/plugin_server.rs:317-333 | a run from the start, clean up to one registration, that loses a process re-frozen between SIGCONT and remove |
| `Lifecycle.ReleaseTakesASuccessorsEntry` | mgd/src/ipc.rs:417-421 | a run from the start, clean up to one registration, that loses a process whose pid was recycled after the selection |
| `Lifecycle.ShutdownMissesAFreezeInFlight` | mgd/src/ipc.rs:476-482 | a run from the start that ends shut down with a process stopped whose freeze was in flight |
| `Lifecycle.ShutdownMissesALateFreeze` | mgd/src/ipc.rs:104-107 | a run from the start that ends shut down with a process stopped afterwards |
| `Lifecycle.RunKeeps` | mgd/src/evictor/mod.rs:124-136 | the protocol invariant holds after every legal clean run, however long |
| `Lifecycle.StepKeeps` | mgd/src/executor/registry.rs:52-66 | every kind of step the side conditions admit keeps the invariant |
| `Lifecycle.EnvironmentKeeps` | mgd/src/executor/freezer.rs:31-42 | spawn, exit and foreign SIGCONT at any moment keep the invariant |
| `Lifecycle.StopKeeps` | mgd/src/executor/mod.rs:58-64 | a SIGSTOP not yet recorded is covered by the thread that sent it |
| `Lifecycle.StopVictimKeeps` | mgd/src/evictor/spike.rs:178-188 | a victim stopped and not yet recorded is covered by the evictor |
| `Lifecycle.RegisterKeeps` | mgd/src/evictor/idle_reclaim.rs:178-191 | recording under the start time read at that moment keeps the invariant unless an unlocked release of that pid is open |
| `Lifecycle.RollbackKeeps` | mgd/src/evictor/execute.rs:96-101 | the rollback of a refused record keeps the invariant, whoever owns the pid by then |
| `Lifecycle.AbandonKeeps` | mgd/src/ipc.rs:476-482 | so does leaving it out, as the freeze over IPC does |
| `Lifecycle.RecordKeeps` | mgd/src/spike_mode.rs:421-424 | recording and draining victims keep the invariant |
| `Lifecycle.ContinueNextKeeps` | mgd/src/evictor/spike.rs:61-70 | each SIGCONT of a drained batch keeps the rest of the batch remembered |
| `Lifecycle.ReleaseLockedKeeps` | mgd/src/recovery.rs:83-111 | a release with the registry locked keeps the invariant unconditionally |
| `Lifecycle.ContinueSelectedKeeps` | mgd/src/ipc.rs:417-421 | the SIGCONT of an unlocked release keeps the invariant |
| `Lifecycle.RemoveSelectedKeeps` | mgd/src/plugin_server.rs:327-329 | its late remove takes only a stale or redundant entry |
| `Lifecycle.ShutdownKeeps` | mgd/src/lifecycle.rs:36-55 | handing victims and registry over to the shutdown paths keeps the invariant |
| `Lifecycle.VictimReleaseLosesUnsignalable` | mgd/src/evictor/spike.rs:61-70 | releasing the last record of a stopped victim loses it if and only if the daemon may no longer signal it, because the result of the SIGCONT is only logged |
| `Lifecycle.ReleasedVictimIsLost` | mgd/src/evictor/spike.rs:61-70 | a run from the start that loses a victim so |
| `Lifecycle.LockedReleaseKeepsUnsignalable` | mgd/src/recovery.rs:100-111 | a registry release keeps the entry of a process it could not signal |
| `Lifecycle.StaleRecordsStayInert` | mgd/src/executor/freezer.rs:14-29 | once the process a record names is gone, no run makes the record act on the pid's later owners |
| `Executor.Kernel.UnfreezeChecked` | mgd/src/executor/freezer.rs:14-20 | SIGCONT reaches exactly the process of the expected start time; it fails only when that process lives and may not be signalled |
| `Executor.Kernel.FreezeChecked` | mgd/src/executor/freezer.rs:23-29 | SIGSTOP reaches exactly the process of the expected start time and anything else is reported as failure |
| `Executor.Kernel.Freeze` | mgd/src/executor/mod.rs:58-64 | the sink's freeze stops whoever owns the pid now, and nothing when nobody does |
| `Executor.FrozenRegistry.Add` | mgd/src/executor/registry.rs:52-60 | records the start time the pid has now and refuses exactly a pid that has none |
| `Executor.FreezeProcess` | mgd/src/evictor/execute.rs:92-111 | with the environment changing anything between its steps, freeze takes exactly the protocol's Stop, Register and Rollback steps |
| `Executor.ShutdownUnfreeze` | mgd/src/lifecycle.rs:36-55 | continues exactly the signalable processes registered under their start time, in any order |
| `Executor.ShutdownLeavesNothingStopped` | mgd/src/lifecycle.rs:36-55 | leaves nothing stopped if and only if every stopped process is in the registry under its start time and may be signalled |
| `SpikeState.WindowIsExact` | mgd/src/spike_mode.rs:239-254 | after any run the trimmed window is exactly the samples since registration or demotion no older than the window, and rss_max is their true maximum |
| `SpikeState.GrowthAloneIsNotASpike` | mgd/src/spike_mode.rs:257-293 | a process whose RSS never decreases stays Observing and unthrottled for ever, for any window and any drop factor up to 1 |
| `SpikeState.EntersTrackingExactly` | mgd/src/spike_mode.rs:257-287 | an Observing process is Tracking after a tick if and only if since registration or demotion it exceeded its base by more than the growth threshold, then or later fell below the drop factor of a recent sample, and the window now holds min_samples |
| `SpikeState.ThrottledExactly` | mgd/src/spike_mode.rs:362-384 | a process is throttled if and only if it was hot in the background at some tick and has not been seen cool in the background or been demoted since |
| `SpikeState.DemotionTakesAnIdleStreak` | mgd/src/spike_mode.rs:294-327 | a tracked process is demoted at exactly the tick that completes idle_ticks_required consecutive idle ticks (at least one) |
| `SpikeState.ThrottlingAlternates` | mgd/src/spike_mode.rs:362-384 | with a fixed cgroup the throttle decisions strictly alternate starting with a throttle, at most one per update, and the last one tells the flag |
| `SpikeState.ThrottleUndoneExactly` | mgd/src/spike_mode.rs:234-395 | over every run, ended by exit or shutdown or not, no cgroup is left throttled unless it is the one the process is throttled on, if and only if each tick that clears the flag finds the process in the cgroup that was throttled, it does not exit while throttled and is not shut down in another cgroup |
| `SpikeState.TracksExactly` | mgd/src/spike_mode.rs:362-384 | without the ending: what the decisions so far leave throttled is at every tick what the flag stands for, if and only if each clearing happens in place |
| `SpikeState.MovedSpikeLeavesThrottle` | mgd/src/spike_mode.rs:234-234 | a run that throttles one cgroup and restores another |
| `SpikeState.DemotionRestoresUnlessCgroupGone` | mgd/src/spike_mode.rs:308-316 | a throttled process demoted emits a restore if and only if it has a cgroup at that tick, and names that one |
| `SpikeState.TickKeepsInv` | mgd/src/spike_mode.rs:232-327 | Tracking implies peaked and oscillated, Observing implies not throttled, samples stay in order |
| `SpikeState.TakeSample` | mgd/src/spike_mode.rs:234-254 | pushes, evicts from the front and recomputes the maximum, against the window of the whole history |
| `SpikeState.Judge` | mgd/src/spike_mode.rs:257-280 | the two flags as the loop sets them |
| `SpikeState.Move` | mgd/src/spike_mode.rs:282-327 | the phase transition, the demotion and its restore |
| `SpikeState.Observe` | mgd/src/spike_mode.rs:232-327 | one process's second step |
| `Window.Trim` | mgd/src/spike_mode.rs:241-247 | popping from the front yields exactly the recent samples of an ordered window |
| `Window.KeptStep` | mgd/src/leak_guard.rs:164-168 | append then trim, step by step, loses nothing one trim at the end would keep |
| `SpikeTracker.EachProcessRunsAlone` | mgd/src/spike_mode.rs:177-387 | a process tracked through a series of updates goes through its own run whatever the others do, so every theorem about runs applies to it |
| `SpikeTracker.SpikeTracker.Update` | mgd/src/spike_mode.rs:177-387 | one tick for every tracked process of the scan and its throttle decisions; a freeze for exactly the shortage; victims given back all at once, only after a demotion that leaves nothing Tracking, and never together with a freeze; the invariants and the cooldown promise are kept |
| `SpikeTracker.SpikeTracker.RegisterCandidates` | mgd/src/spike_mode.rs:198-224 | every included or behavioural candidate not excluded and not tracked is registered with its previous RSS as baseline |
| `SpikeTracker.RegisteredExactly` | mgd/src/spike_mode.rs:198-224 | who is tracked after registration, by the fields of the scan and the last one, and from which baseline |
| `SpikeTracker.ReadingTells` | mgd/src/spike_mode.rs:177-197 | what a tick is told of a process; growth is against the last scan |
| `SpikeTracker.SpikeTracker.HeadroomCheck` | mgd/src/spike_mode.rs:349-360 | asks for exactly what the tracked peaks times the factor exceed what is available |
| `SpikeTracker.HeadroomOnlyForTracking` | mgd/src/spike_mode.rs:349-360 | headroom is asked for only while something is Tracking, and for a positive amount |
| `SpikeTracker.HeadroomReachesRequirement` | mgd/src/spike_mode.rs:349-360 | a request brings the available RAM to the tracked peaks times the factor, to the KiB, and is made exactly when a whole KiB is missing |
| `SpikeTracker.PeakCountsTracking` | mgd/src/spike_mode.rs:350-353 | a Tracking process counts with its windowed peak, others not at all |
| `SpikeTracker.SpikeTracker.SumTracked` | mgd/src/spike_mode.rs:350-353 | the saturating sum over the map does not depend on its order |
| `SpikeTracker.CpuCheck` | mgd/src/spike_mode.rs:362-384 | one decision for one tracked background process with a cgroup, exactly when its flag flips |
| `SpikeTracker.SpikeTracker.AdvanceCaches` | mgd/src/spike_mode.rs:330-337 | caches hold exactly the scan, and pruning cooldowns at 300 s keeps every one that still matters |
| `SpikeTracker.SpikeTracker.NoCooldownMeansAMinute` | mgd/src/spike_mode.rs:501-505 | although the table is pruned, a pid not in cooldown was last released by force 60 s ago or earlier |
| `SpikeTracker.SpikeTracker.RecordVictimFrozen` | mgd/src/spike_mode.rs:421-424 | a record of a pid neither held nor cooling keeps the history consistent and the cooldowns respected |
| `SpikeTracker.SpikeTracker.DrainIfNoneTracking` | mgd/src/spike_mode.rs:402-411 | victims stay while anything is Tracking; otherwise all are returned, each once |
| `SpikeTracker.SpikeTracker.OnSpikeExit` | mgd/src/spike_mode.rs:390-395 | forgets the spike and drains on the same condition |
| `SpikeTracker.SpikeTracker.DrainTimedOutVictims` | mgd/src/spike_mode.rs:468-484 | returns exactly the victims held max_secs or longer (none when it is 0) and starts their cooldown |
| `SpikeTracker.SpikeTracker.ReleaseRequested` | mgd/src/spike_mode.rs:488-499 | returns exactly the requested victims, each once however often asked for, and starts their cooldown |
| `VictimLog.EveryFreezeIsAccountedFor` | mgd/src/spike_mode.rs:402-499 | every recorded freeze is still on record or was returned exactly once |
| `SpikeCycle.ReleaseVictims` | mgd/src/evictor/spike.rs:16-98 | a victim stays if and only if something is Tracking, it is not overdue and nobody asked for it; each one let go gets a SIGCONT and nobody else is touched |
| `SpikeCycle.UnfreezeAll` | mgd/src/evictor/spike.rs:61-70 | continues exactly the processes that still are the ones recorded |
| `SpikeCycle.EligibleOf` | mgd/src/evictor/spike.rs:150-160 | the filters on headroom candidates |
| `SpikeCycle.FreezeInOrder` | mgd/src/evictor/spike.rs:166-200 | stops exactly the shortest prefix of the ranked candidates whose stoppable RSS covers the need, or all of them |
| `SpikeCycle.FreezeForHeadroom` | mgd/src/evictor/spike.rs:146-200 | candidates are the eligible processes, each once, highest priority and then largest first; the initiator is a spike the tracker knows, never the sentinel |
| `SpikeCycle.AgendaInFields` | mgd/src/evictor/spike.rs:150-165 | by the fields of the scan: the candidates are the processes other than the foreground one, of 60 or more, large enough, not excluded, cooling, frozen, victims or spikes; by priority and then RSS |
| `SpikeCycle.NobodyJumpsTheQueue` | mgd/src/evictor/spike.rs:150-200 | whoever could have been held and was not: those stopped cover the need, and each of them is of higher priority, or the same and no smaller |
| `SpikeCycle.BatchStops` | mgd/src/evictor/spike.rs:166-200 | a batch stops exactly those of it that can be stopped |
| `SpikeCycle.BatchRecords` | mgd/src/evictor/spike.rs:178-188 | and records exactly those, under their real start times |
| `SpikeCycle.RunSpikeCycle` | mgd/src/evictor/spike.rs:105-210 | releases exactly the victims that must go, makes one update, carries its decisions out; after every cycle a non-empty victim set implies something is Tracking; each record is an old one or names a process really stopped now for a spike that exists; who lost its record runs; processes frozen by other paths are untouched; every new victim is a process of the scan other than the foreground one, of priority 60 or more, large enough and not excluded, and the foreground process is not touched; no stopped process is forgotten; no pid released by force is frozen again within 60 s |
| `SpikeCycle.CarriedOutKeepsFaith` | mgd/src/evictor/spike.rs:120-207 | whatever one update decides, carrying it out keeps those promises |
| `Decision.Plan` | mgd/src/engine/decision.rs:89-186 | returns exactly the shortest prefix of the ranked actionable candidates whose credits (0 for a freeze) cover the deficit, or all of them |
| `Decision.Walk` | mgd/src/engine/decision.rs:131-186 | the greedy loop meets that specification for any ranked list and deficit |
| `Decision.Consider` | mgd/src/engine/decision.rs:136-183 | one candidate's turn: acted on exactly when actionable, credited as specified |
| `Decision.AgendaIsComplete` | mgd/src/engine/decision.rs:107-142 | the agenda holds exactly the actionable processes of the scan, in rank order |
| `Decision.SparedNeverOutranksChosen` | mgd/src/engine/decision.rs:125-135 | no spared actionable process ranks above a chosen one, and the deficit was covered without it |
| `Decision.LargerDeficitExtends` | mgd/src/engine/decision.rs:131-186 | the plan is unique, and a larger deficit only extends it |
| `Decision.SystemTierTouchedOnlyInFocus` | mgd/src/engine/decision.rs:111-142 | a process configured at 19 or below is acted on if and only if it has the focus, is big enough and unprotected, and the level is Critical or worse |
| `Decision.SeverityGrowsUnlessCheckpointed` | mgd/src/engine/decision.rs:190-245 | exactly when a higher pressure level answers one process with a milder action than a lower level |
| `Decision.WorseIsHarsherExactly` | mgd/src/engine/decision.rs:190-245 | a case with at least the pressure, expendability, swapped share, exhaustion and lack of checkpoint support of another gets an action at least as severe, with exactly two exceptions at Critical |
| `Decision.WorseIsMilder` | mgd/src/engine/decision.rs:218-239 | a concrete pair of cases for each exception |
| `Decision.FocusExposesSystemProcess` | mgd/src/engine/decision.rs:110-142 | a concrete focused process configured at 10 that is killed |
| `Decision.DeficitIsTheGap` | mgd/src/engine/decision.rs:78-85 | positive exactly when the available RAM is a whole KiB or more below the target, and freeing it reaches the target to the KiB |
| `Decision.KillFollowsSwap` | mgd/src/engine/decision.rs:143-160 | at Critical a process that is not checkpointed is killed if and only if more of it is in swap than in RAM, by its own fields |
| `Decision.ExhaustedSwapKills` | mgd/src/engine/decision.rs:198-200 | exhausted swap kills at 80 and above at any level, and changes nothing below |
| `Decision.PriorityMattersExactly` | mgd/src/engine/decision.rs:190-245 | the answer changes with the priority at 60, 75 and 80 only, and there exactly in the stated cases |
| `Decision.ExtremesGet` | mgd/src/engine/decision.rs:190-245 | what the least and the most expendable process get at each level |
| `Decision.AgendaInFields` | mgd/src/engine/decision.rs:107-142 | the agenda in terms of the scan: more than 10 MiB, priority 20 or more, not protected; ordered by priority, resident memory (with GPU memory from High on) and OOM score |
| `Decision.PlanNamesProcesses` | mgd/src/engine/decision.rs:165-183 | each decision carries its process's pid, name, RSS, effective priority and action |
| `Decision.ElevatedFreezesAll` | mgd/src/engine/decision.rs:168-175 | freezing frees nothing, so a shortage at Elevated freezes the whole agenda |
| `Decision.CriticalPlansFreeRss` | mgd/src/engine/decision.rs:165-183 | from Critical on a plan stops at the first process with which the resident memory of the chosen covers the shortage |
| `Decision.Situation.EffectivePriority` | mgd/src/engine/decision.rs:110-116 | the focus floor never leaves a focused process below 20 |
| `Ranking.RankedIsOrderedPermutation` | mgd/src/engine/decision.rs:126-130 | the sort is an ordered permutation |
| `Ranking.RankedIsStable` | mgd/src/engine/decision.rs:126-130 | ties keep scan order |
| `Execute.Executor.ExecutePlan` | mgd/src/evictor/execute.rs:11-69 | registries, sink calls, counter and killed cgroups after any plan, decision by decision |
| `Execute.Executor.ExecuteDecision` | mgd/src/evictor/execute.rs:71-90 | the calls of one decision, with the freeze rollback and the checkpoint fallback |
| `Execute.RegistriesAreWhatWasDone` | mgd/src/evictor/execute.rs:92-136 | after a plan the checkpoint registry holds what it held and exactly the processes whose checkpoint was called for and succeeded, the frozen registry those whose freeze succeeded and was fingerprinted; the others stopped were rolled back |
| `Execute.CallsHaveReasons` | mgd/src/evictor/execute.rs:23-136 | every call of a plan has a decision carried out as its reason and every such decision makes its calls: who is frozen, rolled back, reclaimed from and by how much, checkpointed, told to terminate or killed, also after a failed checkpoint; remembered cgroups are those of processes meant to end, from the scan or else /proc |
| `Execute.FrozenAreSkipped` | mgd/src/evictor/execute.rs:23-49 | a plan makes no call about a process frozen when it starts, keeps it frozen, and reclaims only from processes it froze itself |
| `Execute.DestructiveCountsExactly` | mgd/src/evictor/execute.rs:51-55 | the count is of kills that got through and checkpoints taken, plus kills that failed, plus checkpoints that fell back to an asynchronous terminate; it is the documented count if and only if there were none of the last two |
| `Execute.FutilePlanIsCounted` | mgd/src/evictor/execute.rs:51-55 | a concrete plan that frees nothing and counts three |
| `Scoring.StateMachine.Advance` | mgd/src/evictor/scoring.rs:65-110 | the state after every tick is a function of the input history alone: it changes if and only if the trailing run of equal targets reaches its length or the instant rule fires; the counter is 0 exactly when nothing is pending |
| `Scoring.PersistentTargetWins` | mgd/src/evictor/scoring.rs:65-110 | a target asked for twelve times in a row is the state, and while the state differs from the last target its run is shorter than that change needs |
| `Scoring.RunsChangeTheState` | mgd/src/evictor/scoring.rs:65-110 | a run of equal targets changes the state when it is 2 long upwards and 12, 6 or 4 long downwards, or when one of them comes with a sharp trend towards Critical or worse; otherwise the state is what it was before the run |
| `Scoring.DropsArePaidFor` | mgd/src/evictor/scoring.rs:80-108 | a drop consumes at least four ticks and two per rank |
| `Scoring.OscillationBound` | mgd/src/evictor/scoring.rs:65-110 | n ticks from Calm hold at most n/4 de-escalations and 4 + n/2 escalations |
| `Scoring.ScoreTracker.UpdateWith` | mgd/src/evictor/scoring.rs:144-184 | the score of the cycle's fractions; swap rate and trend are the quotients over the interval, and zero for one of 100 ms or less |
| `Scoring.Composite` | mgd/src/evictor/scoring.rs:140-176 | the score lies in [0, 1] and reaches the ends exactly when all components do |
| `Scoring.SharesAdd` | mgd/src/evictor/scoring.rs:140-173 | each reading contributes alone and in proportion: 55, 20, 15 and 10 percent |
| `Scoring.CompositeIsMonotone` | mgd/src/evictor/scoring.rs:163-176 | a worse reading never lowers the score, and without stalls the rest together stays below the bar of Critical |
| `Scoring.MemInfo.SwapUsedPct` | mgd/src/monitor/meminfo.rs:12-15 | lies in [0, 100], also when free exceeds total |
| `Scoring.UsedPctExactly` | mgd/src/monitor/meminfo.rs:12-15 | it is the used part of the total |
| `Scoring.TargetIsMonotone` | mgd/src/evictor/scoring.rs:33-50 | a higher score, trend, PSI or swap rate never lowers the target |
| `Scoring.TargetReachesBar` | mgd/src/evictor/scoring.rs:33-50 | a score asks for a state or worse if and only if it reaches that state's bar, which a rising trend lowers and liveness gates for Warning |
| `Scoring.StaleSwapAsksForCalm` | mgd/src/evictor/scoring.rs:26-50 | without live PSI or swap traffic a full but idle swap asks for Calm |
| `Scoring.TimerIsEarliestHold` | mgd/src/evictor/scoring.rs:200-210 | after any run the timer holds the earliest cycle since which swap stayed at 98% or the input at Emergency |
| `Scoring.SwapOverrideExactly` | mgd/src/evictor/scoring.rs:187-218 | the output is Emergency if and only if the input is, or such a hold began at 98% at least 45 s ago; it is never below the input |
| `Recovery.UnfreezePass` | mgd/src/recovery.rs:76-112 | releases at most four entries, only aged ones, none while RAM is short; a pass that stops below four leaves only entries it must leave; exactly the released entries go and exactly their processes run |
| `Recovery.RestorePass` | mgd/src/recovery.rs:114-156 | takes exactly a step of the pass relation: a lightest entry is abandoned after three failures, refused for RAM, restored, or charged a failed attempt |
| `Recovery.PassWorks` | mgd/src/recovery.rs:114-156 | every pass over entries that is not refused reduces the remaining work, a failure by exactly one; an entry leaves only restored or after three failures |
| `Recovery.AttemptsAreSafe` | mgd/src/recovery.rs:130-156 | a restore is tried at most three times and only where it leaves more than a tenth of the RAM, or 85% of a warm average; after three failures the entry goes however short the RAM is |
| `Recovery.RegistryEmpties` | mgd/src/recovery.rs:114-156 | over every run of passes, whatever each meets and whichever restores fail, as many passes that are not refused as four per entry leave the registry empty |
| `Recovery.FailuresTakeEveryPass` | mgd/src/recovery.rs:130-156 | while nothing is restored, fewer such passes than the work at the start leave an entry |
| `Recovery.FreshFailuresTakeFour` | mgd/src/recovery.rs:130-156 | so the bound is tight: untried entries that cannot be restored are gone after such passes if and only if there were four or more per entry |
| `Recovery.RefusedForAll` | mgd/src/recovery.rs:146-154 | a pass is refused only when the RAM is too short for every entry, and then changes nothing |
| `Recovery.WorkAfterFailure` | mgd/src/executor/registry.rs:133-138 | a failed attempt reduces the remaining work by exactly one |
| `Recovery.CheckpointRegistry.EntriesLightestFirst` | mgd/src/executor/registry.rs:141-147 | lists every entry once, by RSS |
| `Health.EmaStaysAmongSamples` | mgd/src/engine/health.rs:18-28 | the average stays between the least and the greatest sample |
| `Health.EmaConverges` | mgd/src/engine/health.rs:18-28 | under a constant sample the distance shrinks by 0.95 a step |
| `Health.HealthBaseline.Observe` | mgd/src/engine/health.rs:18-28 | the field is the average of the whole sample history |
| `Health.AllowsIsAntitone` | mgd/src/engine/health.rs:36-44 | if a process is safe to restore then so is any smaller one |
| `Health.AllowsExactly` | mgd/src/engine/health.rs:36-44 | safe if and only if what is left exceeds a tenth of the RAM, or with ten samples 85% of the average |
| `Health.WarmBaselineBounds` | mgd/src/engine/health.rs:36-44 | a warm baseline refuses below 85% of the least sample seen and allows above 85% of the greatest |
| `LeakGuard.LeakTracker.Update` | mgd/src/leak_guard.rs:128-216 | every family at once: those below the floor forgotten, the considered ones moved on, and the terminations of the firing ones, in any map order, no pid twice |
| `LeakGuard.TerminatedExactly` | mgd/src/leak_guard.rs:200-212 | a process is terminated if and only if its family fires and keep_newest or more members have higher pids |
| `LeakGuard.FiresExactly` | mgd/src/leak_guard.rs:170-214 | a family fires if and only if it is considered, its windowed history since it crossed the floor is long enough, never shrinks and grows enough, its RSS suffices and no firing since then is still cooling |
| `LeakGuard.CloseFiringsCrossTheFloor` | mgd/src/leak_guard.rs:135-214 | two firings of a family closer than the cooldown have it fall below the floor in between |
| `LeakGuard.WindowIsExact` | mgd/src/leak_guard.rs:164-168 | the trimmed window is exactly the recent counts of the history since the family last fell below the floor |
| `LeakGuard.SameGroupExactly` | mgd/src/leak_guard.rs:118-124 | two processes share a family if and only if they share a command line, or a name when both have none, or one's command line spells the key of the nameless other |
| `LeakGuard.SpelledKeyCollides` | mgd/src/leak_guard.rs:118-124 | two concrete processes that share one without sharing either |
| `LeakGuard.StaleExactly` | mgd/src/leak_guard.rs:203-205 | sorting by pid and skipping keeps exactly the newest |
| `LeakGuard.NeverShrunk` | mgd/src/leak_guard.rs:171-182 | the adjacent check decides that no later count is lower than any earlier one |
| `LeakGuard.IsLeaking` | mgd/src/leak_guard.rs:170-188 | the four gates |
| `LeakGuard.Judge` | mgd/src/leak_guard.rs:164-214 | one family's step and terminations |
| `Calibrate.Calibrator.Observe` | mgd/src/engine/calibrate.rs:99-132 | after any samples every bin, the observed time and the episode count are what the history says, up to their width |
| `Calibrate.MassIsConserved` | mgd/src/engine/calibrate.rs:116-131 | benign plus stall mass is the untreated time, and full mass is stall mass |
| `Calibrate.ExactBelowSaturation` | mgd/src/engine/calibrate.rs:83-132 | below saturation the stored histograms are the history's, so their sums do not wrap around |
| `Calibrate.PrefixIsWeightBelow` | mgd/src/engine/calibrate.rs:122-131 | the bins below an edge hold exactly the seconds spent below it |
| `Calibrate.BinsAreSecondsBelow` | mgd/src/engine/calibrate.rs:99-132 | a histogram of one kind below an edge is the untreated time with that reading below it: some for benign and stall, full for full |
| `Calibrate.EpisodesAreCounted` | mgd/src/engine/calibrate.rs:105-112 | the episodes are the untreated samples that stall where the sample before did not |
| `Calibrate.Bin` | mgd/src/engine/calibrate.rs:78-80 | a sample lies between its bin's edges, the outer bins taking the rest |
| `Calibrate.Percentile` | mgd/src/engine/calibrate.rs:201-215 | for any histogram, also one whose 64-bit sums wrap around: none exactly when the sum is zero, otherwise the first edge whose running sum reaches its share; the fall-through is never taken |
| `Calibrate.PercentileIsLeast` | mgd/src/engine/calibrate.rs:201-215 | where the mass fits 64 bits, exactly the edges from there on have their share below them |
| `Calibrate.PercentileIsUnique` | mgd/src/engine/calibrate.rs:201-215 | there is one such edge and its bin is not empty |
| `Calibrate.Calibrator.Suggest` | mgd/src/engine/calibrate.rs:155-198 | a suggestion is made exactly when the three gates are met, and its thresholds are always valid, with the tiers at the default ratios up to their ceilings |
| `Calibrate.QuietTimeStaysNormal` | mgd/src/engine/calibrate.rs:166-173 | unless capped below the noise ceiling, the suggested thresholds call at least 95% of the benign time they were derived from Normal |
| `Calibrate.CappedExactly` | mgd/src/engine/calibrate.rs:170-173 | the suggestion lies below the noise ceiling if and only if the ceiling exceeds 15 or stalls set in below it |
| `Calibrate.ElevatedIsLargest` | mgd/src/engine/calibrate.rs:170-173 | the suggestion is the largest value up to 15, two above the noise and the stall onset, but at least 2 |
| `Psi.LevelReachesExactly` | mgd/src/monitor/psi.rs:328-342 | a level is reached when its threshold is, and Critical by a full stall alone |
| `MemCap.MemCapManager.Update` | mgd/src/throttle.rs:259-321 | every cgroup of the scan makes its step, in any map order; nothing happens below High |
| `MemCap.MemCapManager.RestoreAll` | mgd/src/throttle.rs:325-331 | every known cap is restored if its write succeeds, and forgotten either way |
| `MemCap.RunCycle` | mgd/src/evictor/mod.rs:305-341 | the manager's part of an evictor cycle is one event of every cgroup |
| `MemCap.AgreementLostExactly` | mgd/src/throttle.rs:259-339 | kernel and manager stop agreeing on a cgroup if and only if a due restore fails or a capped cgroup is removed |
| `MemCap.AgreementIsLost` | mgd/src/throttle.rs:325-331 | a concrete cgroup for each of the two |
| `MemCap.AgreementHolds` | mgd/src/throttle.rs:240-332 | otherwise they agree after every run, on which cgroups are capped and at what value |
| `MemCap.NoCapIsForgotten` | mgd/src/throttle.rs:259-332 | whatever cgroups come and go, with restores succeeding the kernel holds no cap the manager does not know, and none after a cycle below High |
| `MemCap.SparedAreNotCapped` | mgd/src/throttle.rs:288-294 | the foreground cgroup and any with a process below priority 60 hold no cap after an update |
| `MemCap.CapTakesTenSeconds` | mgd/src/throttle.rs:301-320 | a new cap is preceded by ten seconds in the background at High or above, and leaves 512 MB above the RSS |
| `MemCap.CapComes` | mgd/src/throttle.rs:301-320 | after ten seconds seen in the background the next update that can write it leaves the cgroup capped, and a cap once written stands there |
| `MemCap.GroupWeighsItsProcesses` | mgd/src/throttle.rs:273-281 | a cgroup's RSS is the saturating sum of its processes' |
| `MemCap.ForegroundIsActive` | mgd/src/throttle.rs:265-272 | the foreground cgroup is that of the active process |
| `MemCap.GroupIsAsGoodAsItsBest` | mgd/src/throttle.rs:273-281 | a cgroup is spared for priority exactly when one of its processes is |
| `GpuCache.Cache.Observe` | mgd/src/plugin_server.rs:49-63 | prune and upsert keep the cache a live view of the store that never forgets |
| `GpuCache.Cache.LiveIsUnpruned` | mgd/src/plugin_server.rs:53-53 | pruning is unobservable: at any later time the live entries are those of the unpruned store |
| `GpuCache.UnprunedIsPerPid` | mgd/src/plugin_server.rs:49-63 | that store holds, per pid, the last value of each metric since the pid itself was silent for the TTL, whatever other pids do |
| `GpuCache.MemoryIsLast` | mgd/src/plugin_server.rs:49-63 | all four metrics read for a pid are the last of its streak |
| `GpuCache.Memory.Pressure` | mgd/src/plugin_server.rs:66-73 | resident memory without its shared part |
| `GpuCache.Cache.GetStats` | mgd/src/plugin_server.rs:39-46 | reads agree with the unpruned store |
| `GpuCache.Cache.GetKb` | mgd/src/plugin_server.rs:30-37 | the last resident value of the pid's current streak, 0 when stale |
| `GpuCache.Cache.GetTotal` | mgd/src/plugin_server.rs:66-73 | the saturating sum over live entries, in any order, agrees with the unpruned store |
| `PsiPatch.PatchPsiBlock` | mgctl/src/calibrate.rs:406-464 | the loop computes the line-by-line rewriting |
| `PsiPatch.PatchIsIdempotent` | mgctl/src/calibrate.rs:406-464 | on LF text, rewriting twice is rewriting once, also across several psi sections |
| `PsiPatch.PatchRenewsKeysOnly` | mgctl/src/calibrate.rs:421-461 | in the sections as the rewriter sees them, all other lines stay, in order; every live key line of a psi section is a new one, and there is one per key |
| `PsiPatch.NewLinesSay` | mgctl/src/calibrate.rs:393-402 | read back, each new line gives its own key its own value and the other key none |
| `PsiPatch.ContentPreservedExactly` | mgctl/src/calibrate.rs:404-461 | for any lines, all content but the two keys of psi tables, the comments after their values included, is preserved in order (a missing table is appended) if and only if each line replaced was an assignment of its key in a psi table without a comment after it, or already the new line, and keys are inserted in psi tables only |
| `PsiPatch.LookalikeIsLost` | mgctl/src/calibrate.rs:441-451 | a concrete configuration that loses the line of another key |
| `PsiPatch.CommentIsLost` | mgctl/src/calibrate.rs:441-451 | a concrete configuration that loses the comment after a value |
| `PsiPatch.KeysLandInNextTable` | mgctl/src/calibrate.rs:424-461 | a concrete configuration whose next table receives the keys |
| `PsiPatch.OnePsiTableExactly` | mgctl/src/calibrate.rs:407-439 | exactly one line of the result opens a psi table, by a header however spelled or commented or by an inline or dotted key at the root, if and only if none did before, or one did and there is a header that the rewriter recognises |
| `PsiPatch.OtherLinesStay` | mgctl/src/calibrate.rs:421-461 | copying, section by section, from any state of the pass |
| `PsiPatch.LiveLinesAreNew` | mgctl/src/calibrate.rs:440-451 | no old key line survives |
| `PsiPatch.KeysArePresent` | mgctl/src/calibrate.rs:428-437 | a section that lacks a key not yet found gets it at its end |
| `PsiPatch.SecondPassChangesNothing` | mgctl/src/calibrate.rs:421-461 | a second pass re-emits every line of the first, inserted ones included |
| `PsiPatch.PatchedIsLineByLine` | mgctl/src/calibrate.rs:407-414 | appending the block to text with or without a final newline is appending four lines |
| `Text.LinesOfUnlines` | mgctl/src/calibrate.rs:421-463 | splitting what was joined gives the lines back |
| `Text.UnlinesOfLines` | mgctl/src/calibrate.rs:421-463 | joining what was split only adds a missing final newline, on LF text |
| `Types.SumSaturatesOnce` | mgd-common/src/types.rs:58-93 | a fold of saturating additions saturates once, at the end |
| `Types.SumIsOrderFree` | mgd-common/src/types.rs:89-93 | so a sum over a hash map does not depend on its order |
| `Types.SumDominates` | mgd-common/src/types.rs:89-93 | and is never below any term |

## Left out

- Lifecycle.NoProcessIsLost: holds of runs without the steps that `Clean` rules out; `Lifecycle.CleanExactly` shows that none of them can be admitted. Reading a start time and signalling is one step. An entry added too late for shutdown is saved to disk; what the next start makes of it is not modelled.
- Decision.Plan: the deficit is an unbounded integer, so the wrap-around of 64-bit subtraction for RAM sizes above 2^63 KiB is not modelled.
- Execute.DestructiveCountsExactly: a checkpoint counts as a kill when the executor reports success, which it also does when the dumped process was gone before its SIGKILL.
- Calibrate.Percentile: shares are reals; above 2^53 seconds the rounding of the float target is not modelled.
- Scoring.ScoreTracker.UpdateWith: float rounding is not modelled.
- SpikeCycle.RunSpikeCycle: the process table changes only by the cycle's own signals while it runs, and one clock value serves all of it; what other threads and the system do in between is the subject of `Lifecycle`. CPU weights are decided (`SpikeTracker.Update`) but not written.
- SpikeTracker.SpikeTracker.Update: a scan lists each process once and never pid 0, as `/proc` does.
- MemCap.AgreementHolds: nobody else writes `memory.max`.
- PsiPatch.PatchIsIdempotent: on LF text; a line ending in two carriage returns loses one per pass. The numbers arrive formatted.
- PsiPatch.ContentPreservedExactly: reads TOML line by line; values that span lines and `#` inside quotes are not recognised, and CRLF line ends, which become LF, are not counted as content.
- SpikeState.ThrottleUndoneExactly: one process; two that share a cgroup, or a cgroup removed together with its last process, are not told apart.
- The CPU throttle manager: it forgets a cgroup that left the process list without restoring it (mgd/src/throttle.rs:64), so the agreement proved for memory caps does not hold of it.
- Idle reclaim and idle freeze selection: its freeze, record and rollback are the steps of `Lifecycle`; the idle trackers themselves would add easy members.
- Saving registries and victims to disk, loading them at start, and crashes in between.
- Checkpoint helper, reclaim, swapoff, hibernate, notifications, services: foreign effects.
- IPC text commands, logging, event buffer, configuration parsing, desktop and GPU plugins, `/proc` parsing: no hard property.
