# NotmyFault: a verified model

NotmyFault is an automation engine: triggers emit events, a condition tree decides when a rule
fires, a scheduler admits runs, an executor walks the action list, and a typed data layer connects
them. This project models the parts in which the promises span many calls, and proves those
promises with Dafny 4.11. `dafny verify dfyconfig.toml` checks the whole project.

| files | part |
|---|---|
| `SchedulerModel`, `SchedulerProofs`, `SchedulerSafety`, `SchedulerRuns`, `SchedulerModes`, `Scheduler` | the run scheduler: lock sections as transitions, properties of whole executions, the outcome of every mode, the class proved against the transitions |
| `Upgrade`, `UserFiles`, `Uninstall` | the Windows installer: crash-safe upgrade, classification of files, resumable uninstall |
| `Conditions`, `ConditionShapes`, `ConditionLaws`, `ConditionRuntime`, `ConditionMemory` | condition trees, their evaluation and static guarantee, the shapes evaluated completely, the stateful matcher and what it remembers |
| `Values`, `DataTypes`, `Normalizing`, `PathTyping`, `PathExactness`, `TypeRegistry`, `RegistryLaws` | data types, normalization, static path typing, availability of custom types |
| `Bindings`, `ResolveLaws`, `Constants`, `ConstantLaws`, `Sensitivity`, `SensitivityLaws` | binding expressions, constant evaluation, sensitive data |
| `Codec`, `CodecLaws` | the JSON encoding of values and the wire format |
| `BindingCheck`, `BindingChecker`, `CheckLaws`, `Workflow`, `WorkflowLaws`, `Executor` | the static binding check against the workflow interpreter |
| `KeyedFold`, `Replay`, `ReplayLaws`, `RunOutcome`, `History` | run records, their replay, the one final event of a run, the history file and its writer |
| `LogTail` | the incremental log reader |
| `Common` | small shared datatypes, runs of a transition relation, bounded sequences |

Concurrency is modelled by atomic lock sections interleaved in any order; crashes by a step that may
come between any two disk operations. Code that updates fields or files is a class or a method with
loops, proved equal in effect to a function; the promises are then proved of that function, against
definitions that do not mention it. What the environment decides (plugins, cancellations, time,
parsing of scalars, which cancellations succeed) is a parameter, and every result holds for all of its
values.

## Where the code does not do what it promises

Each of these is stated with a concrete input and with the condition under which the promise holds.

- Run order: a rule whose concurrency setting is raised while runs wait lets a new run start ahead of
  them (`SchedulerRuns.OvertakingHappens`); order is kept if and only if no submission overtakes.
- User files: an upgrade deletes what the user keeps in `wheels` or `.setup-data` and overwrites a
  user's file named like the launcher or the uninstaller (`UserFiles.WheelsFileIsLost`); exactly these
  are lost (`UserFiles.UserFileSurvivesIff`). A bytecode cache left by the user becomes program data
  when an upgrade ships a script of that name (`UserFiles.CacheFileIsReclassified`, exactly when by
  `UserFiles.UserFileStaysIff`).
- Run history: `flush` can report success although an event was lost, after a last line without a
  newline (`History.TailSwallows`) and after a read error in compaction (`History.ReadErrorLoses`);
  it can be relied on if and only if neither is there (`History.DependableIff`). An event that cannot
  be encoded kills the writer for good (`History.DeadWriterStays`).
- Uninstall: a temporary plan left by a crash while the plan is written counts as the user's and stays
  (`Uninstall.CompletionIsExact`).
- Sensitive data: an event reference that names a node reads the event payload, but its sensitivity is
  looked up under that node, so a sensitive event field reaches an unmarked variable
  (`Sensitivity.EventNodeLeaks`); insensitive expressions reveal nothing marked if and only if they
  hold no such reference (`Sensitivity.InsensitiveIsBlindIff`).
- Path typing: through `any` a path typed as required may be missing (`PathTyping.AnyMayBeMissing`,
  exactly when by `PathTyping.MissingIff`, and for one step by `PathTyping.MissingStepIff`), and an
  object that carries a hidden type's tag is refused at run time although its path has a static type
  (`PathTyping.TagMayBeForged`, exactly when by `PathTyping.RefusedIff`).
- Binding check: references inside the settings of a conversion are looked up by the availability scan
  and not visited by the check (`Workflow.SettingsAreUnchecked`); a checked expression looks up only
  recorded steps if and only if its settings do (`BindingCheck.LooksUpRecordedIff`, and for the runs of
  straight action lists `Workflow.DefinitionBeforeUseIff`).
- Codec: sixteen nested levels can encode beyond the 64 levels the decoder accepts
  (`Codec.SixteenLevelsAreNot`); the round trip holds if and only if they fit (`Codec.RoundTripIff`).
- Condition windows: ANY commits to its latest branch, so a justified match can be missed
  (`Conditions.WindowsAreGreedy`). Evaluation is complete if and only if the tree has a reliable shape
  (`ConditionShapes.CompleteIff`), which forbids a choice below a windowed ALL of several children.
- Log reader: a rewrite in place that leaves the file no shorter is not noticed
  (`LogTail.UnnoticedRewriteMixes`, exactly when by `LogTail.RightIff`).
- Run lifecycle: `run_lifecycle.py` lists `test_assertions_completed` among the events that resume a
  queued run, but replay returns before it asks for the new status
  (`Replay.AssertionsDoNotResume`); the model follows the replay.

## Model

| member | source | states |
|---|---|---|
| `SchedulerRuns.EveryStateSafe` | notmyfault/core/rule_scheduler.py:93-335 | In every state reachable by any interleaving of lock sections the accounting holds and no run that could start is left waiting: a non-empty queue means all workers are busy or the rule is at its limit |
| `SchedulerRuns.RunsConserved` | notmyfault/core/rule_scheduler.py:93-145 | Every submitted run is in exactly one of its rule's queue, its rule's executing set, or the runs that are over, and in no other rule's tables; the worker count is the number of executing runs and stays within `max_workers`; the queues stay within the global bound |
| `SchedulerRuns.FairUnlessOvertaken` | notmyfault/core/rule_scheduler.py:126-145 | First come first served holds throughout an execution if and only if no submission starts at once while an earlier run of its rule waits |
| `SchedulerRuns.OvertakingRaisesLimit` | notmyfault/core/rule_scheduler.py:126-131 | Such a submission declares a higher limit than the run waiting at the head of the queue |
| `SchedulerRuns.FixedSettingsAreFair` | notmyfault/core/rule_scheduler.py:225-242 | With a fixed concurrency setting for each rule no run starts ahead of an earlier run of its rule that still waits |
| `SchedulerRuns.LimitsHold` | notmyfault/core/rule_scheduler.py:93-131 | With fixed settings no rule ever has more active runs than its setting allows |
| `SchedulerRuns.WaitingMeansExecuting` | notmyfault/core/rule_scheduler.py:225-261 | In every reachable state of a scheduler with at least one worker, a waiting run has an executing run of its own rule to wait for, or all workers execute |
| `SchedulerRuns.OvertakingHappens` | notmyfault/core/rule_scheduler.py:126-131 | With changing settings the order is lost: a concrete three-submission execution in which the third run starts before the second |
| `SchedulerRuns.NothingStartsAfterShutdown` | notmyfault/core/rule_scheduler.py:194-205 | After shutdown no lock section starts a run, whatever is still submitted, retired or finished |
| `SchedulerRuns.StepSafe` | notmyfault/core/rule_scheduler.py:93-205 | Every lock section keeps the accounting and the work-conserving property |
| `SchedulerRuns.SubmitFair` | notmyfault/core/rule_scheduler.py:93-145 | A submission keeps first come first served if and only if it does not overtake |
| `SchedulerRuns.SubmitConserves` | notmyfault/core/rule_scheduler.py:93-145 | A submission, in every concurrency mode, leaves no startable run waiting |
| `SchedulerProofs.FullPassConserves` | notmyfault/core/rule_scheduler.py:309-318 | A dispatch pass that starts nothing, or fills the workers, leaves no startable run waiting in any queue |
| `SchedulerProofs.DispatchAvailableKeeps` | notmyfault/core/rule_scheduler.py:309-318 | The repeated dispatch passes end and keep the accounting, and leave the scheduler work conserving |
| `SchedulerProofs.PruneKeeps` | notmyfault/core/rule_scheduler.py:330-335 | Pruning a removed rule loses no queued run |
| `SchedulerSafety.SupersedeKeeps` | notmyfault/core/rule_scheduler.py:114-121 | Replace mode keeps the accounting: superseded runs are reported once, and the emptied queue's runs are accounted as replaced |
| `SchedulerSafety.DropRuleKeeps` | notmyfault/core/rule_scheduler.py:180-192 | Removing a rule accounts each of its queued runs as dropped, once |
| `SchedulerSafety.ShutdownKeeps` | notmyfault/core/rule_scheduler.py:194-205 | Shutdown accounts every queued run as dropped, once |
| `SchedulerSafety.WorkerDoneKeeps` | notmyfault/core/rule_scheduler.py:252-261 | A finishing worker gives back its slot, prunes and dispatches, keeping the accounting |
| `SchedulerSafety.SpawnFailedKeeps` | notmyfault/core/rule_scheduler.py:263-277 | A run whose worker cannot be created is dropped and the accounting kept |
| `Scheduler.DecisionMeans` | notmyfault/core/rule_scheduler.py:93-145 | The answer of `submit` names the run's fate: dropped runs are over, queued runs wait, started runs execute |
| `Scheduler.RuleScheduler.Submit` | notmyfault/core/rule_scheduler.py:93-145 | The method has exactly the effect of the submission transition and answers with its decision; what that is in each mode says `SchedulerModes.SubmitOutcome` |
| `Scheduler.RuleScheduler.OnRunEvent` | notmyfault/core/rule_scheduler.py:163-178 | The method retires the run named by a final event and nothing for other events |
| `Scheduler.RuleScheduler.DispatchQueued` | notmyfault/core/rule_scheduler.py:225-242 | The loop starts runs from the head of one queue exactly as the transition says |
| `Scheduler.RuleScheduler.DispatchAvailable` | notmyfault/core/rule_scheduler.py:309-318 | The nested loops have exactly the effect of the dispatch transition, and end |
| `Scheduler.RuleScheduler.RetireRun` | notmyfault/core/rule_scheduler.py:320-328 | The method has exactly the effect of the retirement transition; an empty id is ignored |
| `Scheduler.RuleScheduler.PruneRemovedRule` | notmyfault/core/rule_scheduler.py:330-335 | The method has exactly the effect of the pruning transition |
| `Scheduler.RuleScheduler.FinishWorker` | notmyfault/core/rule_scheduler.py:252-261 | The worker's final section has exactly the effect of its transition |
| `Scheduler.RuleScheduler.SpawnFailed` | notmyfault/core/rule_scheduler.py:263-277 | The failure section has exactly the effect of its transition |
| `Scheduler.RuleScheduler.DropRule` | notmyfault/core/rule_scheduler.py:180-192 | The method has exactly the effect of its transition and returns how many queued runs it dropped |
| `Scheduler.RuleScheduler.Shutdown` | notmyfault/core/rule_scheduler.py:194-205 | The method has exactly the effect of the shutdown transition |
| `Scheduler.RuleScheduler.RuleKeyOf` | notmyfault/core/rule_scheduler.py:219-223 | The rule returned has the run active; none is returned only when no rule has |
| `SchedulerModes.SubmitOutcome` | notmyfault/core/rule_scheduler.py:93-145 | The exact outcome of a submission, read off the raw setting: in single mode a run is dropped if the rule has a run active or waiting; in replace mode every waiting run is replaced and every active one whose cancellation succeeded gives up its place; a run that finds a free slot and a free worker starts, one that finds a free place in the rule's queue and the global queue waits, any other is dropped; after shutdown every one is dropped. Nothing else of the rule changes and no other rule |
| `SchedulerModes.SettingMeans` | notmyfault/core/rule_scheduler.py:14-38 | How many runs a raw setting lets be active and wait: the numbers it declares, if at least one; otherwise all workers for a parallel rule or one run for any other, and twenty waiting; and which settings are single and which replace |
| `SchedulerModes.SingleIsSingle` | notmyfault/core/rule_scheduler.py:111-113 | Over any execution a rule submitted in single mode has at most one run active or waiting |
| `SchedulerModes.DeclaredLimitsHold` | notmyfault/core/rule_scheduler.py:93-145 | Over any execution with fixed settings no rule has more runs active than it declares, nor more waiting |
| `SchedulerModes.StepMoves` | notmyfault/core/rule_scheduler.py:93-335 | For every lock section and every run: exactly when the run leaves the active set, the executing set and the queue, and with which fate |
| `SchedulerModes.SubmitNotes` | notmyfault/core/rule_scheduler.py:114-145 | A submission reports exactly the replaced runs as replaced, and the new one as queued exactly if it waits |
| `SchedulerModes.PendingIsWaiting` | notmyfault/core/rule_scheduler.py:132-139 | The number held against the global bound is the number of waiting runs |
| `Upgrade.EveryStateSafe` | installer/windows/InstallMaintenance.cs:660-918 | In every state reachable by upgrade, rollback, recovery and crashes, what is owed can still be delivered |
| `Upgrade.RecoveryIsAtomic` | installer/windows/InstallMaintenance.cs:52-70 | Any interleaving that ends with the record deleted leaves exactly the old installation and registration if no commit byte was written, and otherwise those live at the last commit byte, up to warnings in the installation log; no backup and no record remain |
| `Upgrade.FinishedMeansDelivered` | installer/windows/InstallMaintenance.cs:52-70 | Deleting the record happens only when the owed installation and registration are in place and no backup is left |
| `Upgrade.OwedChangesAtCommit` | installer/windows/InstallMaintenance.cs:761-767 | Only the commit byte changes which installation a recovery must leave |
| `Upgrade.PendingDirectoryComplete` | installer/windows/InstallMaintenance.cs:44-50 | At every moment, inside recovery too, the directory chosen for a pending upgrade holds a complete installation: the owed one |
| `Upgrade.OldIsOwed` | installer/windows/InstallMaintenance.cs:863-880 | Before the first commit byte the old installation is the owed one |
| `Upgrade.UserFilesAlwaysThere` | installer/windows/InstallMaintenance.cs:44-50 | Through any upgrades, rollbacks, recoveries and crashes, at every moment the directory chosen for the installation holds each user file at a safe path, with its contents and as the user's |
| `Upgrade.Installer.RecoverUpgrade` | installer/windows/InstallMaintenance.cs:52-70 | A recovery that is not interrupted settles the machine on what is owed; an interrupted one leaves a state it can be started from again |
| `Upgrade.Installer.RollBack` | installer/windows/InstallMaintenance.cs:882-918 | A rollback that is not interrupted settles the machine on the old installation and registration |
| `Upgrade.Installer.CleanUp` | installer/windows/InstallMaintenance.cs:863-880 | After the commit, deleting the backup and the record settles the machine on the new installation; an error in it leaves the record, and an interruption a state to recover from |
| `Upgrade.Installer.DeleteLive` | installer/windows/InstallMaintenance.cs:331-347 | The directory is deleted file by file, each deletion a point of interruption, with the safety invariant kept |
| `Upgrade.Installer.OpenTransaction` | installer/windows/InstallMaintenance.cs:795-842 | Recovery first, then the record, the move aside and the new directory; when the move or the new directory fails everything is put back and the record deleted |
| `Upgrade.Installer.Commit` | installer/windows/InstallMaintenance.cs:863-880 | The commit byte decides: afterwards the new installation is owed whether the cleanup ends, gets stuck and is logged, or is interrupted |
| `Upgrade.Installer.Upgrade` | installer/windows/InstallEngine.cs:111-224 | A whole installation ends installed, installed with leftovers, refused, rolled back, or interrupted, each in the state that it should leave |
| `UserFiles.ReadInstallationFiles` | installer/windows/InstallMaintenance.cs:254-294 | The loop classifies every file of the directory as the classification function does, with or without a manifest |
| `UserFiles.KindIff` | installer/windows/InstallMaintenance.cs:182-198 | With a manifest a file is the user's exactly if it lies in one of the three user folders or is neither listed nor the bytecode cache of a listed file; the two signing keys are apart |
| `UserFiles.CachedSourceIs` | installer/windows/InstallMaintenance.cs:254-294 | A file counts as the cache of a source exactly if it lies in `__pycache__` beside it and its name is the source's stem up to the first `.cpython-`, ending in `.pyc` |
| `UserFiles.RestoreUserFiles` | installer/windows/InstallMaintenance.cs:844-855 | Restoring succeeds exactly when no preserved file collides with a new one, and then adds exactly the preserved files |
| `UserFiles.RestoredIs` | installer/windows/InstallEngine.cs:131-163 | The tree that the build starts from holds every file of the old one that is the user's or a signing key, with its contents, and otherwise exactly the unpacked files |
| `UserFiles.WriteState` | installer/windows/InstallMaintenance.cs:296-312 | The manifest written lists exactly the program files that were not preserved, and itself |
| `UserFiles.UpgradeFiles` | installer/windows/InstallEngine.cs:131-216 | Classifying, unpacking, restoring, building, tidying up and writing the state go through exactly when no preserved file collides, and then carry out the upgrade the theorems speak of, if the build leaves user data alone |
| `UserFiles.UserFileSurvivesIff` | installer/windows/InstallEngine.cs:164-216 | An upgrade keeps a user file with its contents if and only if it lies neither in `wheels` nor in `.setup-data` and is not overwritten by the launcher or the uninstaller |
| `UserFiles.UserFileStaysIff` | installer/windows/InstallMaintenance.cs:254-312 | A user file that is still there stays the user's if and only if it lies in a user folder or is not the bytecode cache of a file the upgrade will put into its manifest |
| `UserFiles.UserFileSurvivesUpgrade` | installer/windows/InstallMaintenance.cs:254-312 | A user file at a safe path keeps contents and kind |
| `UserFiles.WheelsFileIsLost` | installer/windows/InstallEngine.cs:214-215 | A concrete upgrade that deletes a user's file in a directory named `wheels` |
| `UserFiles.UserFileSurvivesUpgrades` | installer/windows/InstallMaintenance.cs:254-312 | Over any number of upgrades a user file at a safe path keeps contents and kind |
| `UserFiles.CacheFileIsReclassified` | installer/windows/InstallMaintenance.cs:254-294 | A concrete upgrade after which a user's cache file counts as program data |
| `Uninstall.EveryStateSafe` | installer/windows/InstallMaintenance.cs:524-584 | Every state of an uninstall, interrupted and resumed any number of times, is untouched, resumable, or finished |
| `Uninstall.UserFilesAlwaysThere` | installer/windows/InstallMaintenance.cs:524-584 | At every moment of an uninstall each user file is there with its contents |
| `Uninstall.UserFilesOutliveAll` | installer/windows/InstallMaintenance.cs:524-584 | The same after any sequence of upgrades before the uninstall |
| `Uninstall.AlwaysResumable` | installer/windows/InstallMaintenance.cs:483-507 | Whenever no uninstall runs, the directory is untouched or holds a plan that will be accepted |
| `Uninstall.OwnPlanIsValid` | installer/windows/InstallMaintenance.cs:461-507 | A plan written by the uninstaller passes the checks made when it is read back |
| `Uninstall.CompletionIsExact` | installer/windows/InstallMaintenance.cs:461-481 | A completed uninstall leaves exactly the user's files and the temporary plans that crashes stranded while the plan was written |
| `Uninstall.StartIsOriginal` | installer/windows/InstallMaintenance.cs:461-481 | A stranded temporary plan counts as the user's, and the plan is made for the original files and those |
| `Uninstall.Uninstaller.Run` | installer/windows/InstallMaintenance.cs:524-584 | One call completes exactly, or is interrupted and can be called again |
| `Uninstall.Uninstaller.MakePlan` | installer/windows/InstallMaintenance.cs:456-481 | The plan lists exactly the files that are not the user's |
| `Conditions.MatchIsTruth` | notmyfault/core/condition_runtime.py:168-213 | A match implies the formula over what was seen; without time windows the formula implies a match |
| `ConditionShapes.CompleteIff` | notmyfault/core/condition_runtime.py:168-213 | Evaluation finds a match whenever some selection of occurrences justifies one, whatever was seen, if and only if the tree has a reliable shape: below a windowed ALL of several children no ANY has two branches to choose from, and below one of a single child no choice can spread wider than the window |
| `ConditionShapes.MatchIffJustified` | notmyfault/core/condition_runtime.py:168-213 | For a reliable shape a match is found exactly when a justified selection exists, also when a condition occurs twice in the tree |
| `ConditionShapes.WindowFreeIsReliable` | notmyfault/core/condition_runtime.py:200-209 | Trees without time windows have a reliable shape |
| `Conditions.MatchIsJustified` | notmyfault/core/condition_runtime.py:168-213 | Every match selects an occurrence for each child of an ALL, within the window, and for one child of an ANY |
| `Conditions.WindowsAreGreedy` | notmyfault/core/condition_runtime.py:168-213 | With windows evaluation is not complete: a justified selection exists and evaluation finds none |
| `Conditions.GuaranteeIsSound` | notmyfault/core/rules.py:341-359 | Whenever a tree matches, each statically guaranteed trigger id is among the selected occurrences, for all nestings |
| `ConditionLaws.GuaranteedIff` | notmyfault/core/rules.py:341-359 | The statically guaranteed ids are exactly those that every match of the tree contains |
| `ConditionLaws.NotGuaranteed` | notmyfault/core/rules.py:341-359 | For an id that is not guaranteed, what was seen can be such that the tree matches without it |
| `ConditionLaws.AnyTakesLatest` | notmyfault/core/condition_runtime.py:200-209 | An ANY matches exactly if a branch does, and takes the match of the branch that matched latest, the first of several |
| `ConditionLaws.WalksAreExact` | notmyfault/core/conditions.py:22-33 | The walks over a tree find exactly the event conditions outside NOT, the NOT conditions, and both together |
| `ConditionLaws.SameKeyIff` | notmyfault/core/conditions.py:117-126 | Two conditions are on the same event exactly if they bear the same id, or none and the same type and parameters |
| `ConditionRuntime.EveryStateIdle` | notmyfault/core/condition_runtime.py:14-213 | The books (timers, occurrences, binding ids) hold after every event and poll |
| `ConditionRuntime.ReportedOnce` | notmyfault/core/condition_runtime.py:68-99 | Over any run each recorded occurrence is reported in at most one match |
| `ConditionRuntime.MatchIsSound` | notmyfault/core/condition_runtime.py:80-166 | A match hands out a justified selection of the latest unconsumed occurrences, with every guaranteed id among them |
| `ConditionRuntime.MatchExactly` | notmyfault/core/condition_runtime.py:101-158 | A match is handed out exactly when something new occurred and the tree evaluates to one; for a reliable shape exactly when something new occurred and a justified selection exists; without windows exactly when the formula holds |
| `ConditionRuntime.AbsenceIsSound` | notmyfault/core/condition_runtime.py:31-54 | Over any run, a match that contains a NOT condition is preceded by a poll at the reported time, at least the waiting time after the last matching event, or after the first poll if there was none, with no matching event since |
| `ConditionRuntime.EveryStateTimed` | notmyfault/core/condition_runtime.py:31-54 | In every state of a run each timer has the deadline, and each standing absence the time, that the events and polls so far give it |
| `ConditionRuntime.RaisedAtMostOnce` | notmyfault/core/condition_runtime.py:31-54 | Over any run, an absence is raised at most once by a poll and never by an event, and between two polls that raise it a matching event comes |
| `ConditionMemory.TableIsExact` | notmyfault/core/condition_runtime.py:31-166 | In every state of a run: an event is in the table if and only if its latest occurrence is in no report; an absence if and only if moreover its wait is over and the event has not come since. No match forgets an occurrence that it does not hand out |
| `ConditionMemory.RecordsExactly` | notmyfault/core/condition_runtime.py:101-131 | An event is recorded, with its time, exactly for the positive conditions that it hits, and what is recorded stays |
| `ConditionMemory.EveryStateDated` | notmyfault/core/condition_runtime.py:101-131 | In every state of a run an occurrence in the table has the time of the last event that hit its condition |
| `ConditionMemory.TakeRemembers` | notmyfault/core/condition_runtime.py:68-78 | Handing out a match forgets only the occurrences that the match hands out |
| `ConditionRuntime.ConditionRuntime.Match` | notmyfault/core/condition_runtime.py:101-158 | The method has exactly the effect of the matching step |
| `ConditionRuntime.ConditionRuntime.TakeLastMatch` | notmyfault/core/condition_runtime.py:68-78 | The method hands out the last match and consumes its occurrences and no others (`ConditionMemory.TableIsExact`) |
| `ConditionRuntime.ConditionRuntime.MatchAndTakeEvent` | notmyfault/core/condition_runtime.py:80-99 | The method has exactly the effect of matching and taking in one lock section |
| `ConditionRuntime.ConditionRuntime.PollAbsences` | notmyfault/core/condition_runtime.py:31-54 | The loop over the timers has exactly the effect of the polling step |
| `DataTypes.NormalizedConforms` | notmyfault/core/data_types.py:268-411 | A normalized value conforms to its type, through arrays, objects, unions, custom types and enumerations of scalars; how it relates to its input says `Normalizing.NormalizedIsStored` |
| `Normalizing.NormalizedIsStored` | notmyfault/core/data_types.py:268-411 | What normalization returns is the input as its type stores it: lists of the same length item by item, objects with the same keys field by field, custom values changed in `data` alone, unrestricted data unchanged, scalars as their kind gives them, unions through a variant |
| `Normalizing.UnionIsStored` | notmyfault/core/data_types.py:284-291 | A union stores as its first variant that accepts the input, and every variant before it rejects |
| `Normalizing.AcceptedIff` | notmyfault/core/data_types.py:268-411 | With a registry that knows every type named, normalization accepts a value if and only if the type can store it |
| `DataTypes.TypeAtPath` | notmyfault/core/data_types.py:470-518 | The loop computes the type of a path as defined segment by segment |
| `DataTypes.ReadReference` | notmyfault/core/bindings.py:153-172 | The loop reads a path as defined segment by segment |
| `PathTyping.PathTypingIsSound` | notmyfault/core/data_types.py:470-518 | For every path that has a type, through `any` too, and every conforming value: the read finds a value of the static type; or finds none, and the type was optional or the path loses its way in unrestricted data; or is refused, and a type on the way admits a hidden tag |
| `PathExactness.PathTypeIsExact` | notmyfault/core/data_types.py:470-518 | The static type of a path has exactly the values of the types that the declarations offer at its end, through unions too; and the path is optional if and only if a type on the way may lack the next step |
| `PathExactness.PathTypedIff` | notmyfault/core/data_types.py:470-518 | A path has a static type if and only if the declarations lead along it and no type reached on the way is missing or private |
| `PathExactness.StepTypedIff` | notmyfault/core/data_types.py:473-517 | One step has a type exactly if some part is offered and no type in the way is missing or private, and the error says which |
| `PathExactness.StepOptionalIff` | notmyfault/core/data_types.py:473-517 | One step is optional exactly if the type may lack it: nullable, an array, a field not required, a summary, or a variant of which one of these holds |
| `PathTyping.MissingIff` | notmyfault/core/data_types.py:470-518 | A path typed as required is missing in some value of the type if and only if it leads, through objects that can be read, to `any` and on from there, where an enumeration must hold a value that lacks the rest |
| `PathTyping.MissingStepIff` | notmyfault/core/data_types.py:478-479 | One required step is missing in some value of the type if and only if the type is an unrestricted `any` or a union with one |
| `PathTyping.LosesThroughAny` | notmyfault/core/data_types.py:470-518 | A required path whose steps all avoid `any` is never missing |
| `PathTyping.RequiredIsFoundIff` | notmyfault/core/data_types.py:470-518 | A required path is found in every value of the type if and only if it neither loses its way in `any` nor meets a type that admits a hidden tag |
| `PathTyping.RefusedIff` | notmyfault/core/bindings.py:153-172 | A path that has a type is refused in some value of the type if and only if a type on it, reached through arrays, readable objects and shared custom types, admits a hidden tag |
| `PathTyping.RefusedStepIff` | notmyfault/core/bindings.py:159-164 | One typed step is refused on some value of the type if and only if the type or a variant is `any` and allows a hidden tag, or is an object that takes a hidden type name as text in `$type` and requires no field beyond those of a custom value |
| `PathTyping.RequiredPathIsFound` | notmyfault/core/data_types.py:470-518 | Such a path of a normalized value is found, with a value of the static type |
| `PathTyping.StepSound` | notmyfault/core/data_types.py:473-517 | One segment, through nullable types, unions and `any`: found with the static type, or missing and announced as optional or unrestricted, or refused for a tag the type admits |
| `PathTyping.AnyMayBeMissing` | notmyfault/core/data_types.py:478-479 | A concrete input: through `any` a value is missing although the type is not optional |
| `PathTyping.TagMayBeForged` | notmyfault/core/bindings.py:159-164 | Objects with open or text fields admit every hidden tag |
| `PathTyping.ExtraFieldsAreUntyped` | notmyfault/core/data_types.py:292-303 | Undeclared fields of custom values can be found under a type another union variant promised |
| `TypeRegistry.AvailableIffUsable` | notmyfault/core/type_registry.py:84-95 | The result of the availability loop is the greatest fixpoint: a type is available exactly when it and all it depends on, however indirectly, are defined and were declared available |
| `TypeRegistry.TypeRegistry.CheckDependencies` | notmyfault/core/type_registry.py:64-95 | The method ends with exactly that availability, or fails because a shared type depends directly on a private one |
| `TypeRegistry.TypeRegistry.Sweep` | notmyfault/core/type_registry.py:85-95 | One sweep withdraws only unusable types, and changes nothing only at the fixpoint |
| `TypeRegistry.RequireSharedMeans` | notmyfault/core/type_registry.py:100-115 | The check accepts a declaration exactly when every type it names is defined, available and shared |
| `TypeRegistry.OneLevelSuffices` | notmyfault/core/type_registry.py:100-115 | In a checked registry that one-level check implies the same of every type reachable from the declaration |
| `RegistryLaws.SettledAccepts` | notmyfault/core/type_registry.py:84-95 | In a registry that the availability loop has settled, a declaration whose own types are available accepts exactly the values it can store, at any depth, and never fails over a missing or unavailable type |
| `RegistryLaws.KnownIff` | notmyfault/core/type_registry.py:53-62 | The walk over a declaration finds all the custom types that normalizing by it can ask for, and no others |
| `Bindings.ResolveIsLocal` | notmyfault/core/bindings.py:225-315 | What `iter_references` lists covers everything `resolve_value` reads: equal reads give equal results, if there is no old-style template; what an expression resolves to is said by the members of `ResolveLaws` |
| `Bindings.LegacyReadsUnmentioned` | notmyfault/core/bindings.py:211-222 | With an old-style template it fails: text reads a constant and lists no reference |
| `Bindings.AvailableIsNotSkipped` | notmyfault/core/bindings.py:342-384 | An expression whose references are all available never asks to skip the action when resolved |
| `Bindings.ScanReferences` | notmyfault/core/bindings.py:342-380 | The walk appends exactly the references whose source took no part in the run |
| `ResolveLaws.TemplateJoins` | notmyfault/core/bindings.py:249-261 | A template resolves to the texts of its parts joined in order, or to the first failure; one part gives its own text, none the empty text |
| `ResolveLaws.ArrayResolves` | notmyfault/core/bindings.py:267-271 | An array resolves exactly if every element does, to as many values, each what its element resolves to; otherwise as its first failing element fails |
| `ResolveLaws.ObjectResolves` | notmyfault/core/bindings.py:262-266 | An object resolves exactly if every element does, to its names and no others, each with what its element resolves to |
| `ResolveLaws.ReferenceResolves` | notmyfault/core/bindings.py:175-190 | A reference resolves to what its source has, as the registry binds it; to its default or its policy's failure exactly if the source lacks it; otherwise only to one of the three reading failures |
| `ResolveLaws.SourceIs` | notmyfault/core/bindings.py:107-150 | Which value each kind of source holds: the event, a trigger's payload or configuration, a constant, a variable, the result of a step that succeeded; and that exactly a step that failed, timed out or was cancelled is no source at all |
| `ResolveLaws.ReadingFindsIff` | notmyfault/core/bindings.py:153-172 | Reading a path finds a value if and only if the path leads to it part by part, through keys of objects and places in lists, past no hidden type |
| `ResolveLaws.ReadingRefusedIff` | notmyfault/core/bindings.py:159-164 | Reading is refused if and only if the path, with more to go, meets a value of a hidden type |
| `ResolveLaws.ConversionResolves` | notmyfault/core/bindings.py:231-248 | A conversion is applied to what its source resolves to, and a literal stands for itself |
| `ResolveLaws.WordsJoin` | notmyfault/core/bindings.py:275-298 | Text with old-style templates in it is joined from its pieces in order; a template alone gives the value it reads |
| `ResolveLaws.LegacyJoin` | notmyfault/core/bindings.py:211-222 | Reading an old-style path goes on from where its first part has led |
| `ResolveLaws.ReferencesAreMentioned` | notmyfault/core/bindings.py:301-314 | `iter_references` finds exactly the references that stand somewhere in the expression |
| `ResolveLaws.UnavailableIsLacking` | notmyfault/core/bindings.py:342-380 | The scan reports exactly the references that the expression lacks: one without a policy whose source took no part, one to be skipped whose data is missing, and those in a default whose data is needed |
| `Constants.EvaluateConstants` | notmyfault/core/variables.py:69-104 | Evaluation succeeds exactly when the defining equations have a solution in some order of evaluation, and returns it; every error is justified, a cycle error by a cycle |
| `Constants.ConstantContext.Evaluate` | notmyfault/core/variables.py:82-101 | The depth-first evaluation terminates with the constant and all it depends on evaluated, or with a justified error |
| `Constants.SolutionIsUnique` | notmyfault/core/variables.py:82-104 | The solution does not depend on the order of declaration |
| `Constants.SolvedHasNoProblem` | notmyfault/core/variables.py:59-91 | Where a solution exists there is no cycle, no unknown reference, and no failing expression |
| `ConstantLaws.SolvedIsStored` | notmyfault/core/variables.py:92-95 | In a solution each constant has the value that its expression resolves to among the other constants, as its type stores it and the registry binds it |
| `ConstantLaws.MarkedIff` | notmyfault/core/variables.py:96-97 | A constant is marked if and only if a chain of uses leads from it to a constant declared sensitive |
| `Constants.Noninterference` | notmyfault/core/variables.py:92-101 | Rules that differ only in expressions of sensitive constants mark the same constants and give every unmarked one the same value |
| `Constants.BackReferenceIsCycle` | notmyfault/core/variables.py:85-86 | A reference to a constant still being evaluated closes a dependency cycle |
| `Sensitivity.ReadAgrees` | notmyfault/core/variables.py:46-56 | A read whose path overlaps no mark finds the same in two values that agree outside the marks |
| `Sensitivity.InsensitiveIsBlindIff` | notmyfault/core/variables.py:46-56 | For an expression found insensitive: what it refers to reads the same in all runs that agree outside the marks if and only if no event reference reaching a mark names a node |
| `Sensitivity.BlindIff` | notmyfault/core/bindings.py:107-150 | References read the same in all runs that agree outside the marks if and only if none of them reaches a mark |
| `Sensitivity.ReferenceResolvesAlikeIff` | notmyfault/core/variables.py:46-56 | A single reference found insensitive resolves alike in all such runs if and only if it is not such an event reference |
| `Sensitivity.EventNodeLeaks` | notmyfault/core/bindings.py:115-116 | A concrete event reference that names a node is found insensitive and copies a sensitive event field into an unmarked variable |
| `Sensitivity.InsensitiveResolvesAlike` | notmyfault/core/variables.py:46-56 | A well-labelled expression that is not sensitive resolves to the same in two runs that differ only in marked data, the event payload included |
| `Sensitivity.AssignAlike` | notmyfault/core/variables.py:135-153 | A well-labelled assignment made in both runs updates values and marks so that the runs still differ only in marked data |
| `Sensitivity.AssignmentsDoNotLeak` | notmyfault/core/variables.py:135-153 | Two runs that start with different marked data and make the same well-labelled assignments end with the same value in every variable that is not marked then |
| `SensitivityLaws.SensitiveIff` | notmyfault/core/variables.py:46-56 | An expression is sensitive exactly if a reference that stands in it names a marked path, part of one, or something inside one |
| `SensitivityLaws.SensitiveIffRevealing` | notmyfault/core/variables.py:46-56 | An expression whose references are valid and name where their data is kept is called sensitive if and only if two runs that differ in marked data alone can differ in what it reads |
| `SensitivityLaws.AssignIsExact` | notmyfault/core/variables.py:135-153 | An assignment gives the variable what the expression resolves to, as its type stores it and the registry binds it; marks it if and only if its definition or its expression is sensitive, and otherwise takes its mark away; and changes no other variable, mark or source |
| `Sensitivity.RunVariables.AssignVariable` | notmyfault/core/variables.py:135-153 | The method writes value and mark as the assignment function says; an error changes nothing |
| `Codec.RoundTripIff` | notmyfault/core/value_codec.py:19-104 | Encoding then decoding gives the value back if and only if the encoding stays within 64 levels |
| `Codec.DecodeEncoded` | notmyfault/core/value_codec.py:19-104 | Apart from the depth limit the round trip holds for every value: wrapper-shaped objects, big integers, durations |
| `Codec.EncodedWithin` | notmyfault/core/value_codec.py:22-52 | The depth of the encoding, said of the value itself: a tag costs two levels, a wrapped object four |
| `Codec.EncodingDepth` | notmyfault/core/value_codec.py:22-52 | The encoding is at most four times as deep as the value, plus two |
| `Codec.FifteenLevelsAreSafe` | notmyfault/core/value_codec.py:19-104 | Every value of at most fifteen levels survives the round trip |
| `Codec.SixteenLevelsAreNot` | notmyfault/core/value_codec.py:19-104 | A value of sixteen levels is encoded and then refused by the decoder |
| `Codec.EncodedIsPlain` | notmyfault/core/value_codec.py:25-52 | The encoding holds only what JSON carries exactly, no integer beyond 2^53-1 |
| `Codec.EncodingIsInjective` | notmyfault/core/value_codec.py:25-52 | Different values have different encodings |
| `Codec.DecodedIsValid` | notmyfault/core/value_codec.py:55-104 | What the decoder accepts is a valid value again: canonical scalars, normalized durations |
| `Codec.OtherEncodingsExist` | notmyfault/core/value_codec.py:71-79 | The converse round trip fails: an empty wrapped object decodes to an object encoded otherwise |
| `Codec.ReadShownInt` | notmyfault/core/value_codec.py:82-86 | Decimal text of an integer reads back as that integer |
| `Codec.DurationRoundTrip` | notmyfault/core/value_codec.py:41-86 | The microsecond formula of a duration is inverted by the decoder |
| `CodecLaws.DecodeIff` | notmyfault/core/value_codec.py:55-104 | The decoder accepts an encoding as a value if and only if it stands for it under the wire format, a relation that mentions neither coder: exact records, integers as they are printed, each key once |
| `CodecLaws.SentAsIsIff` | notmyfault/core/value_codec.py:25-52 | The encoder leaves a value as it is if and only if nothing in it needs a wrapper: no integer beyond 2^53-1, no date, duration or the like, no object whose only key is the wrapper's |
| `CodecLaws.ReadIntIff` | notmyfault/core/value_codec.py:82-86 | A text is read as an integer exactly if it is what the integer is printed as |
| `CodecLaws.DurationIff` | notmyfault/core/value_codec.py:82-86 | A number of microseconds is read as the one normalized duration that lasts as long |
| `BindingCheck.LooksUpRecordedIff` | notmyfault/core/binding_schema.py:158-217 | A checked expression looks up only recorded steps, whatever the data, if and only if the steps in its conversion settings are recorded ones |
| `CheckLaws.CheckedIff` | notmyfault/core/binding_schema.py:104-217 | An expression is accepted exactly if every reference in it, outside conversion settings, has a path without internal names and a node, and a step among the available ones |
| `CheckLaws.CheckedAllIff` | notmyfault/core/binding_schema.py:243-263 | A nested action list is accepted exactly if each reference in it is fine where it stands: after the steps before the list and the earlier actions of it that are no `if`, for branches and failure actions those of their own action |
| `BindingChecker.CheckRuleBindings` | notmyfault/core/binding_schema.py:82-271 | The check finds no issue with the references of a rule exactly when each one it visits is well-formed and to a step sure to be recorded |
| `BindingChecker.NoIssueInActions` | notmyfault/core/binding_schema.py:243-263 | The set of available steps that the loop grows gives exactly the references that the check of a nested action list accepts |
| `BindingChecker.BindingChecker.CheckSequence` | notmyfault/core/binding_schema.py:243-263 | The loop appends exactly the issues of the list, with the available steps growing action by action |
| `BindingChecker.BindingChecker.Check` | notmyfault/core/binding_schema.py:158-217 | The walk appends exactly the issues of an expression; settings of a conversion are not visited |
| `BindingCheck.ScanIsLocal` | notmyfault/core/bindings.py:342-384 | What the steps outside the defined walk hold changes neither the answer of the availability scan nor where it looks |
| `BindingCheck.ResolvingIsLocal` | notmyfault/core/bindings.py:225-315 | What the steps outside the defined walk hold changes neither the result of resolving nor where it looks |
| `BindingCheck.ScanCoversResolve` | notmyfault/core/bindings.py:342-384 | The walk of the scan covers the walk of resolving |
| `Workflow.DefinitionBeforeUse` | notmyfault/core/workflow_executor.py:401-505 | In every run of an accepted rule, whatever its actions do, every step looked up was recorded before and no step is recorded twice, provided conversion settings refer to available steps |
| `Workflow.DefinitionBeforeUseIff` | notmyfault/core/workflow_executor.py:401-505 | For accepted straight lists that go on after failures, whose conversion settings do not wait behind defaults: every run is well ordered if and only if those settings refer to available steps |
| `BindingCheck.DirectSettingsAreConsulted` | notmyfault/core/bindings.py:342-384 | Settings of conversions that do not wait behind defaults are looked up in every run |
| `Workflow.SettingsAreUnchecked` | notmyfault/core/binding_schema.py:175-188 | The proviso is needed: an accepted action whose conversion options refer to a step that never runs looks it up |
| `Workflow.RunAllIsFaithful` | notmyfault/core/workflow_executor.py:401-567 | The same for action lists nested in branches and failure actions, from any state |
| `Workflow.SuccessMeans` | notmyfault/core/workflow_executor.py:401-505 | A run succeeds exactly when every step recorded outside failure actions is ok or skipped and no cancellation was noticed there |
| `Workflow.CancellationHalts` | notmyfault/core/workflow_executor.py:401-505 | Once a cancellation is noticed no further step is looked up or started; what follows only leaves the enclosing sequences and branches |
| `WorkflowLaws.JudgedIsTruth` | notmyfault/core/predicates.py:36-72 | Evaluating a condition finds its truth value, a formula over what each comparison answers, and raises exactly if it has none |
| `WorkflowLaws.ConditionChooses` | notmyfault/core/workflow_executor.py:534-567 | A condition that is true runs the `then` branch and records no step of the other, one that is false the `else` branch, and the step's record says which; one without a value fails and records its own step alone |
| `WorkflowLaws.RunsInOrder` | notmyfault/core/workflow_executor.py:401-505 | The actions of a list are recorded in order, each exactly if nothing before it stopped the list: a failure that does not let the list go on, or a noticed cancellation |
| `WorkflowLaws.FailureActionsFollow` | notmyfault/core/workflow_executor.py:487-501 | Failure actions are recorded only if their action failed, outside other failure actions, and then run from the state that has the failure on record |
| `WorkflowLaws.RecordsStand` | notmyfault/core/workflow_executor.py:401-505 | After any run of a list the run data say of each of its steps what was reported of it; other steps, the event, the triggers and the constants are untouched |
| `WorkflowLaws.PlainStands` | notmyfault/core/workflow_executor.py:436-504 | A plain action leaves the record that its plugin's answer gives: skipped without its data, failed if a parameter does not resolve, and otherwise its outcome with its value |
| `WorkflowLaws.AssignRecorded` | notmyfault/core/workflow_executor.py:507-532 | An assignment writes the fitted value to the variable and to its record; without its data it is skipped, and if it fails nothing is written |
| `Workflow.ConditionLooksUpChecked` | notmyfault/core/predicates.py:36-72 | Evaluating a checked condition, with its short circuits, looks up only available steps and those in conversion settings |
| `Executor.WorkflowExecutor.ExecuteSequence` | notmyfault/core/workflow_executor.py:401-505 | The loop writes the records, variables and cancellation flag exactly as the interpreter function says |
| `Executor.WorkflowExecutor.ExecuteIf` | notmyfault/core/workflow_executor.py:534-567 | Evaluates the condition, runs one branch and records the step as the interpreter function says; which branch that is says `WorkflowLaws.ConditionChooses` |
| `Executor.WorkflowExecutor.ExecuteAssignment` | notmyfault/core/workflow_executor.py:507-532 | Writes the variable and the record as the interpreter function says |
| `Executor.WorkflowExecutor.ExecutePlain` | notmyfault/core/workflow_executor.py:436-504 | Skips, or runs, records and repairs one action as the interpreter function says |
| `Executor.RunRule` | notmyfault/core/workflow_executor.py:279-343 | A whole run of an accepted rule is well ordered, records what it says, succeeds as defined, and halts at cancellation |
| `RunOutcome.RunExecution.RunEntry` | notmyfault/core/rule_scheduler.py:279-307 | A run that had not finished reports exactly one final event, the last it sends, even if preparing or executing raises; one that had finished sends nothing |
| `RunOutcome.RunExecution.ExecuteWorkflow` | notmyfault/core/workflow_executor.py:279-343 | Whatever happens the run is finished and unregistered afterwards, and has reported its outcome unless an exception leaves that to the caller |
| `RunOutcome.RunExecution.FinishRun` | notmyfault/core/workflow_executor.py:232-240 | Only the first caller gets to report the end of the run |
| `RunOutcome.ExecuteOnce` | notmyfault/core/workflow_executor.py:279-343 | The record replayed from a fresh run's events, interleaved with others about it, has the expected status unless another final event came before its own; then that one's |
| `RunOutcome.InterruptedRunIsRecorded` | notmyfault/core/rule_scheduler.py:114-121 | A run replaced or dropped while it executes is recorded as that exactly if that event comes before its own final one |
| `RunOutcome.EndedRunIsRecorded` | notmyfault/core/run_history.py:191-302 | A run that reported its end once is recorded with that status, and late events change nothing |
| `RunOutcome.ExpectedIff` | notmyfault/core/workflow_executor.py:279-343 | A run should succeed exactly if it was prepared, nothing raised, no check saw a cancellation, its actions succeeded and all assertions passed; be cancelled exactly if a check that it reached saw the cancellation; and fail otherwise |
| `Replay.FirstFinalDecides` | notmyfault/core/run_lifecycle.py:45-67 | The replayed status is final exactly when a final event was seen, and is the first one's |
| `Replay.FinishedIsFixed` | notmyfault/core/run_history.py:191-198 | Events after a final one change nothing in the record |
| `Replay.ApplyFinal` | notmyfault/core/run_history.py:191-302 | One event makes a live run final exactly when it is a final event, with the status it reports |
| `Replay.AssertionsDoNotResume` | notmyfault/core/run_lifecycle.py:28-38 | A queued run is resumed by every resume signal except finished test assertions, which replay handles before asking for the new status |
| `ReplayLaws.LiveStatusIsLast` | notmyfault/core/run_lifecycle.py:45-67 | A run without a final event has the status reported last: deferred, queued, or running from the last action event on |
| `ReplayLaws.StepsAreReplayed` | notmyfault/core/run_history.py:191-302 | The steps of a record are exactly the steps that events up to the final one report on, in order of appearance, each with the status, time and reason of its last event |
| `ReplayLaws.IdsAreListed` | notmyfault/core/run_history.py:184-188 | Each step reported on is listed once, and no other |
| `ReplayLaws.IdsAreInOrder` | notmyfault/core/run_history.py:184-188 | A step listed before another was reported on before it |
| `ReplayLaws.TimesAreReplayed` | notmyfault/core/run_history.py:191-302 | A record keeps when its run started, shows an end exactly from its first final event on, with that event's time and reason |
| `Replay.BuildRuns` | notmyfault/core/run_history.py:305-321 | One pass over all events gives each run the record its own events give it, the run that appeared last first |
| `Replay.GetRun` | notmyfault/core/run_history.py:451-455 | Replaying one run's events alone gives its entry in the full replay, and nothing exactly when it has none |
| `Replay.ListRuns` | notmyfault/core/run_history.py:446-449 | The newest runs of the full replay, between one and a thousand |
| `KeyedFold.BuiltNext` | notmyfault/core/run_history.py:305-321 | Handling one more event in the shared pass moves exactly its own run on |
| `KeyedFold.AppearingDistinct` | notmyfault/core/run_history.py:305-321 | Each run is listed once |
| `KeyedFold.AppearingInOrder` | notmyfault/core/run_history.py:305-321 | Runs are listed by their first events |
| `KeyedFold.EntryOf` | notmyfault/core/run_history.py:305-321 | Each run that appears has its entry in the list |
| `History.EveryStateAgrees` | notmyfault/core/run_history.py:399-434 | Over every interleaving of recording and writing, failures and the writer's death included: a writer for whatever is unwritten, bounded ring, queue and file; and, if the file ended in no unfinished line when opened and every compaction could read it, without failure, overflow or death the ring equals the last events of file, batch and queue |
| `History.DeadWriterStays` | notmyfault/core/run_history.py:417-434 | A writer that dies of an event it cannot encode stays registered: nothing is ever written again and `flush` never succeeds |
| `History.RingIsLastRecorded` | notmyfault/core/run_history.py:327-337 | The ring is always the last of what was on file at first and has been recorded since |
| `History.DependableIff` | notmyfault/core/run_history.py:436-444 | A successful `flush` means that a restart finds what memory holds, in every execution, if and only if the file ends in no unfinished line when opened and no compaction meets a read error |
| `History.FlushedIsSaved` | notmyfault/core/run_history.py:436-444 | Under those conditions the file's last events are the ring, so they are the last of what was on file and has been recorded, and the next process finds a clean file |
| `History.TailSwallows` | notmyfault/core/run_history.py:382-386 | From any file whose last line has no newline, an execution that records one event, flushes with success and has lost it |
| `History.ReadErrorLoses` | notmyfault/core/run_history.py:349-373 | From any idle state, an execution in which a compaction cannot read the file, loses every event and flushes with success |
| `History.CompactAgrees` | notmyfault/core/run_history.py:365-373 | Compaction that reads the whole file keeps the agreement |
| `History.WriteBounds` | notmyfault/core/run_history.py:380-389 | A completed write leaves at most the limit and 500 lines in the file, also after joined lines and cut-off reads |
| `History.WriterCanMove` | notmyfault/core/run_history.py:417-434 | While a writer lives and has not died it can take a step |
| `History.WriterProgresses` | notmyfault/core/run_history.py:417-434 | Each step of the writer alone leaves less to do |
| `History.RunHistory.RecordAsync` | notmyfault/core/run_history.py:399-415 | Appends to ring and queue, drops the oldest of a full queue with an error, and starts a writer if there is none |
| `History.RunHistory.TakeBatch` | notmyfault/core/run_history.py:417-427 | Takes at most 128 events in order, or ends the writer when the queue is empty |
| `History.RunHistory.WriteBatch` | notmyfault/core/run_history.py:349-389 | Appends the batch, joining its first line to an unfinished one, and compacts past the threshold with as much as could be read; or fails part way, leaving an unfinished line and the error set; or meets an event that cannot be encoded and dies |
| `History.RunHistory.Flush` | notmyfault/core/run_history.py:436-444 | Answers whether no writer lives and no error is set; where ring and file agree, success means the file's last events are the ring |
| `History.RunHistory.Find` | notmyfault/core/run_history.py:451-455 | The record found is the one the ring's events of that run give |
| `LogTail.SplitJoin` | notmyfault/host/log_files.py:57-61 | Splitting what was left over together with the next chunk continues the split of the whole |
| `LogTail.LinesAreExact` | notmyfault/host/log_files.py:57-61 | The complete lines and the rest are the only parts without a newline that, newlines put back, make up the bytes |
| `LogTail.ReturnsAreDropped` | notmyfault/host/log_files.py:61 | From the end of a line all returns are dropped and nothing else |
| `LogTail.FullReadIs` | notmyfault/host/log_files.py:36-73 | A full read counts an unfinished last line, and answers the last lines of the file in order, as many as asked for, at least one and at most 2000 |
| `LogTail.LogFiles.Tail` | notmyfault/host/log_files.py:37-71 | The answer is that of a full read of the bytes the reader stands for, in whatever chunks the file is read |
| `LogTail.RightIff` | notmyfault/host/log_files.py:46-54 | A reader stands for the file's own bytes after a change exactly when the change was an append or was detected |
| `LogTail.ReadAll` | notmyfault/host/log_files.py:37-71 | Over any series of calls, appends and detected truncations or rotations, every answer is that of a full read |
| `LogTail.UnnoticedRewriteMixes` | notmyfault/host/log_files.py:46-54 | A rewrite in place that leaves the file no shorter goes unnoticed, and the answer mixes old and new lines |

## Left out

- SchedulerRuns.EveryStateSafe: assumes that run ids are fresh and not empty when submitted and that a worker retires its own run before it gives its slot back; a worker that cannot be created is modelled for a direct submission, not inside nested dispatch.
- SchedulerRuns.LimitsHold: bounds the active set only; the executing set may exceed the limit, because a run leaves the active set before its worker ends.
- Upgrade.RecoveryIsAtomic: directory moves, creation and deletion of the record, and the commit byte are atomic; a flush that fails after its byte has reached the disk is not modelled, nor are fresh installations, shortcuts and reparse points. The registration is one value. An error raised inside a recovery or a rollback leaves the states an interruption at that point leaves.
- Upgrade.UserFilesAlwaysThere: leaves out a user's file named `install.log`, which collides with the log of every installation.
- UserFiles.UpgradeFiles: that the build leaves the user's data as it found it is an assumption, and what it does otherwise is arbitrary; a file and a directory of one name are not told apart.
- UserFiles.ReadInstallationFiles: paths are split and case-folded; malformed manifests and the order of manifest lines are not modelled.
- Uninstall.CompletionIsExact: removing empty directories, moving the directory aside and the list of system entries are one step each, or none.
- ConditionShapes.CompleteIff: is about trees in which no condition occurs twice; that a reliable shape suffices is proved of all trees in `ConditionShapes.MatchIffJustified`.
- ConditionRuntime.EveryStateIdle: one rule key; which leaves an event satisfies is given, times never matter beyond their order and differences, and conditions on the same event agree on binding id and waiting time, as normalized rules do. The comparison of sorted signatures is a comparison of multisets.
- ConditionLaws.GuaranteedIff: is about validated trees, whose groups have children and whose windows are not negative, with the binding ids that normalized rules have; that a guaranteed id is always there is proved of all trees in `Conditions.GuaranteeIsSound`.
- DataTypes.NormalizedConforms: how a scalar kind normalizes a value (numbers, dates, durations, identifiers, paths) is a parameter; the enumeration of an array, object, union or custom type is checked on the input and not part of conformance; the normalization of declarations is not modelled.
- Normalizing.AcceptedIff: with a type that the registry lacks or has withdrawn, a union can fail before it reaches a variant that would accept; what is returned is right in every registry (`Normalizing.NormalizedIsStored`), and settled registries have no such type (`RegistryLaws.SettledAccepts`).
- PathTyping.MissingIff: leaves out paths that go on behind a `$type` field, where an enumeration may decide whether the object can be read; soundness and `PathTyping.RefusedIff` cover them.
- PathTyping.PathTypingIsSound: assumes that custom values carry only the fields a custom value has; `PathTyping.ExtraFieldsAreUntyped` shows why.
- Bindings.ResolveIsLocal: expressions are given parsed, so malformed ones are not modelled; conversion is a function of the expression and the resolved value; path segments that look like templates are not treated as templates.
- Constants.EvaluateConstants: when several expressions fail, which failure is reported depends on the order; the model only says that the reported one is justified. Constants whose declared types the registry refuses are not modelled.
- Constants.Noninterference: is about evaluations that succeed in both rules; whether evaluation fails may depend on a sensitive value.
- Sensitivity.AssignmentsDoNotLeak: assignments only; what plugins do with sensitive parameters, and the masking of events, are not modelled. Old-style templates are excluded because they read past the marks; marks on type tags are excluded.
- SensitivityLaws.SensitiveIffRevealing: exact for references that are valid and name where their data is kept; an event reference that names a node is the exception that `Sensitivity.InsensitiveIsBlindIff` is about, and a malformed one reads nothing.
- Sensitivity.InsensitiveIsBlindIff: exact for what the references read; whether a whole expression shows what it reads depends on its conversions, except for a single reference, where `Sensitivity.ReferenceResolvesAlikeIff` is exact.
- Codec.DecodeEncoded: dates, decimals, identifiers, paths and binary data are text that their constructor prints back unchanged; Python's limit on the digits of integer text is not modelled; neither is JSON text itself, nor the order of object keys.
- Workflow.DefinitionBeforeUse: one way only, because whether an action is reached at all depends on the run's data; `Workflow.DefinitionBeforeUseIff` is exact for straight lists whose settings do not wait behind defaults, and `BindingCheck.LooksUpRecordedIff` for a single expression. Automatic runs of rules whose steps have ids; manual tests that start in the middle or are given step outputs are left out. Type compatibility, parameters of fixed values and the other issues of the binding check only make it accept less.
- Workflow.SuccessMeans: retries, timeouts and the plugin call are one outcome; marks of sensitive steps and the shutdown check are part of that outcome.
- RunOutcome.RunExecution.RunEntry: the event sink does not raise; only one thread executes a run.
- Replay.BuildRuns: reading counts and durations from stored data is a parameter, and the shaping of events before they are stored is left out, as are the fields copied only for old histories.
- History.EveryStateAgrees: the synchronous `record` is left out; a last line of blanks means blanks that JSON skips; a read error when the file is opened is not modelled, nor is a file that ends inside a character, which cannot be opened; waiting and timeouts of `flush` are not modelled, only its answer.
- LogTail.LogFiles.Tail: choosing the newest file and decoding bytes are parameters.
- The registry's loading of plugins, signing, networking, the AI provider, the tray, the dashboard, platform back ends and build scripts are input and output around this logic.
- Field-by-field validation of rules, diagnostics counters, log formatting and masking would add only one-branch facts.
- `types_compatible` is gradual (it ignores ranges and treats `any` as matching everything), so there is no subtype relation to prove of it.
