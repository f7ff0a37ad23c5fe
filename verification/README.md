# dsh-api, modelled and proved

A Dafny model of the part of Dan's Server Hosting that has to be right under
concurrency, restarts and arbitrary input: the life of a server, its plugin
selection, its world exports, the pod's copy of a live world, and the codecs in
between. `dafny verify dfyconfig.toml` checks everything.

## What is modelled

**The database** (`Db`, `DbLaws`, `Database`). The tables are a value; each SQLite
transaction is one atomic function on it, `DbLaws` says how they go together, and
the `Database` object's methods are proved to do exactly those functions. A hash is
its text, so it does not collide.

**A server's life** (`ServerLifecycle`, `LifecycleInvariant`, `LifecycleTheorems`,
`LifecycleRuns`, `Incarnations`, `ServerService`). Any number of create and delete
requests and their jobs, with every database call and every cluster call a step of
its own, cluster calls that may work, fail or crash, restarts at any moment, names
reused by anyone, and backups that disappear. There is no lock but the row. A run is
any sequence of actions, so a lemma about `Run(cfg, actions)` is about every
interleaving. `ServerService` is the service as methods with loops; alone, each
method is proved to be its thread's protocol steps, and the steps of a create and of
a delete are a run.

Two pairs of calls are two transactions each: the compare-and-set of a delete and
its `delete.requested` event, and the removal of a row and its `delete` event. They
are separate steps here, so two guarantees that read the log can fail, and each has
its exact condition on the log (`RestartRestoresExactly`,
`ReusedBackupIsOwnExactly`) and runs in which it fails (`LifecycleRuns`).
`Incarnations` tells the servers of one name apart: which backups are whose, and
whose server a delete takes.

**A plugin selection** (`SelectionText`, `SelectionReader`, `PluginChanges`,
`PluginUndo`, `PluginSync`, `PluginSyncProofs`, `PluginRuns`, `PluginService`). The
worklist over an arbitrary catalog graph, cycles included; the guarded removal and
what it can undo; the text of `selection.json`, character by character with JSON's
escapes, and what a reader of JSON makes of it; and the three copies of one fact,
rows, ConfigMap and written hash, under any interleaving of changes, views, seeding,
deletes and restarts.

**World exports** (`ExportLifecycle`, `ExportTheorems`, `ExportService`,
`RollingLimits`, `ExportLinks`). Rows, directories, the queue and its one worker;
sweeps, whose look at the rows and clean-up of the directories are separate steps;
restarts with exports on or off; the day and hour limits with two readings of the
clock a call; and the signed links, decoded as leniently as the library decodes
them.

**The pod** (`WorldBox`, `WorldSnapshot`, `Nbt`, `NbtBounds`, `NbtSteps`,
`NbtReader`). The boxes and region files in floor division; the stat, copy, stat
loop beside a game that writes whenever it likes; the NBT reader, on good bytes, on
any bytes, and where it never ends.

**The status handshake** (`VarInt`). Variable-length integers and frames.

## What turned out not to hold as it stands

Each of these is proved, with the condition under which the promise does hold.

- A delete cut off between the compare-and-set and its event is restored by the
  newest request in the log, an older server's included: a `failed` server can come
  back `ready` and a `ready` one `failed` (`UnrecordedDeleteComesBackReady`,
  `UnrecordedDeleteComesBackFailed`). It comes back as it was exactly when its
  request is logged or the newest one there carries the same status
  (`RestartRestoresExactly`).
- A removal whose `delete` event was lost hands the next server of that name its
  predecessor's backup (`UnloggedRemovalIsMisread`). A backup handed out is the
  server's own exactly when the log since its reservation has it, or the server
  wrote it and has not logged it (`ReusedBackupIsOwnExactly`).
- A delete asked of one tenant's server can win the row of the next tenant's, when
  the name changes hands before the compare-and-set (`StaleDeleteTakesAnothers`); it
  holds its own tenant's exactly unless the newest reservation since the request is
  another's (`DeleteTakesItsOwnExactly`).
- The ConfigMap and the rows part when a restart falls between writing the one and
  storing the other, and only then or when a namespace is lost (`ThreeCopiesAgree`,
  `ARestartCutsTheCopiesApart`, `ALostNamespaceCutsTheCopiesApart`).
- Plugins brought in a cycle can never be removed (`AKnotStays`,
  `ABroughtCycleStays`); an add can be taken back exactly when it brought no cycle
  and nothing older needs what it brought (`AddCanBeUndoneExactly`).
- Seeding needs default plugins with distinct slugs
  (`SeedingNeedsDistinctDefaults`).
- An export accepted and finished while a sweep is between its two steps loses its
  directory and keeps its `ready` row (`ALateWorldIsLost`), and no other does
  (`WorldGoesExactlyWhenLate`).
- The hook of a removal goes by name: one still to run erases the exports of the
  next server of that name (`AnOldHookErasesANewExport`, `ErasedExactlyByTheHook`).
- The day's and the hour's limit need a clock that does not step back to an earlier
  second within one call; any such step can let one too many in
  (`SafeExactlyWhenSteady`).
- A byte array of negative length takes the NBT reader back, and one of the length
  of its own entry takes it round for ever (`ANegativeLengthGoesRound`,
  `AFileThatIsNeverRead`). It turns back exactly when such a length is met
  (`TurnsBackExactly`) and otherwise always ends (`ReaderEnds`).

## Model

| member | source | states |
|---|---|---|
| Database.Database.ReserveServer | src/dsh_api/db.py:231-266 | a provisioning row is written, and nothing else, exactly when the name is free, the tenant has no create in flight and fewer rows than the cap |
| Database.Database.ProvisioningServer | src/dsh_api/db.py:288-296 | names a create in flight exactly when the tenant has one |
| Database.Database.ListWithStatus | src/dsh_api/db.py:298-303 | every row with the status, each once |
| Database.Database.BeginDelete | src/dsh_api/db.py:311-319 | the row turns `deleting`, and nothing else, exactly when it still has the expected status |
| Database.Database.AddPlugins | src/dsh_api/db.py:367-370 | the rows there stay, and of each slug not there the first new row comes in |
| Database.Database.SeedPlugins | src/dsh_api/db.py:341-353 | state and rows together, once, with no hash yet, and never over a selection that exists |
| Database.Database.ReserveExport | src/dsh_api/db.py:500-547 | the queued row and the event that counts it, together, exactly when no export of the server is queued or running and the tenant's starts since then are fewer than the limit |
| Database.Database.DeleteExportsOf | src/dsh_api/db.py:609-616 | exactly the server's exports go, and their ids are returned |
| Database.Database.ReserveFeedback | src/dsh_api/db.py:434-452 | a message is stored exactly when the user's messages from then on are fewer than the limit |
| DbLaws.CompareAndSetOnce | src/dsh_api/db.py:311-319 | a delete that wins the row keeps every later one out, and putting the status back restores the tables |
| DbLaws.RemovalUndoesReservation | src/dsh_api/db.py:231-266 | removing a server leaves the tables as before its reservation, the name free |
| DbLaws.OthersEventsAreNotRead | src/dsh_api/db.py:411-422 | an event of one server never changes what the log says of another |
| DbLaws.RemovalUndoesAdd | src/dsh_api/db.py:367-374 | removing a plugin undoes adding it and touches no other server's rows |
| DbLaws.HashesDoNotMix | src/dsh_api/db.py:376-389 | written and applied hash are set independently, in either order |
| DbLaws.DeletingGivesNothingBack | src/dsh_api/db.py:576-616 | an accepted export stays counted when it is deleted, and when its server goes with everything |
| DbLaws.UpdateRevivesNothing | src/dsh_api/db.py:591-607 | a job's last update and a deletion end the same in either order: the row stays gone |
| DbLaws.NewestBackupIsTaken | src/dsh_api/service.py:439-452 | the scan hands out a path exactly when it is the newest backup of the name with its file on disk and no removal of the name came after it |
| LifecycleInvariant.ScanFindsCurrent | src/dsh_api/service.py:439-452 | the backward scan, stopped at the last `delete`, finds only backups of the present world |
| LifecycleInvariant.NotesChangeNoScan | src/dsh_api/service.py:426-452 | the events of a recovery change neither scan of the log |
| LifecycleInvariant.ActionKeeps | src/dsh_api/service.py:208-424 | every step of every thread, a restart and a lost backup keep the whole invariant |
| LifecycleInvariant.EveryRunKeepsInv | src/dsh_api/service.py:143-452 | the invariant holds after every run |
| LifecycleTheorems.OneHolder | src/dsh_api/service.py:208-388 | a row is provisioning or deleting exactly while one live owner holds the name, and no two threads have cluster steps left for one name |
| LifecycleTheorems.TenantLimits | src/dsh_api/db.py:231-266 | at most the cap of rows and one create in flight a tenant, in every run |
| LifecycleTheorems.RemovalIsCovered | src/dsh_api/service.py:361-424 | nothing is uninstalled or deleted without a backup of this delete; a reused one, and then the cluster had answered this delete that the volume is gone and its scan, knowing that, found this very backup with its file on disk; force; or a row that was failed |
| LifecycleTheorems.ReusedBackupIsOwn | src/dsh_api/service.py:439-452 | a path handed out for reuse is on disk, and is of the same incarnation unless the last removal of the name was not yet in the log when it was scanned |
| LifecycleTheorems.ReusingOwnWorld | src/dsh_api/service.py:408-417 | under the same condition a delete that chose to reuse a backup still holds its own world's when it records that |
| Incarnations.EveryRunOwnsAsSaid | src/dsh_api/service.py:403-424 | in every run a file on disk is of the present server of its name exactly when the log since its reservation has a `backup` of it, or that server wrote it and has not logged it |
| Incarnations.ReusedBackupIsOwnExactly | src/dsh_api/service.py:439-452 | the backup handed out for reuse is the server's own exactly when the log since its reservation says so, or it was written since and the process died before logging it |
| Incarnations.ReusingOwnExactly | src/dsh_api/service.py:408-417 | and so is the one a delete has chosen, for as long as it is on disk |
| Incarnations.DeleteTakesItsOwnExactly | src/dsh_api/service.py:333-359 | a delete holding a name holds its own tenant's server exactly unless the newest accepted reservation of the name since it was asked is another's; with none since, it holds the very server it was asked of |
| Incarnations.StaleDeleteTakesAnothers | src/dsh_api/service.py:333-359 | the run that shows the compare-and-set compares name and status only: a delete asked of one tenant's server wins the next tenant's |
| LifecycleTheorems.FailedDeleteRestores | src/dsh_api/service.py:390-392 | a failed delete puts the row back as the delete found it |
| LifecycleTheorems.RestartRestores | src/dsh_api/service.py:143-159 | recovery leaves no transient row, fails interrupted creates, leaves settled rows, and restores the status each logged delete was accepted from |
| LifecycleTheorems.NewestRequestDecides | src/dsh_api/service.py:426-430 | the status found is failed exactly when the newest request of the name in the log found it failed |
| LifecycleTheorems.RestartRestoresExactly | src/dsh_api/service.py:143-159 | in every run, recovery restores what an interrupted delete found exactly when its request is in the log or the newest request there happens to carry the same status |
| LifecycleTheorems.RecoveryMayBeCutShort | src/dsh_api/service.py:143-159 | a recovery that dies part-way and starts over ends as one that was not disturbed |
| LifecycleRuns.UnrecordedDeleteComesBackReady | src/dsh_api/service.py:355-357 | the run that shows the request's event is needed: a failed server comes back ready |
| LifecycleRuns.UnrecordedDeleteComesBackFailed | src/dsh_api/service.py:355-357 | and a ready one comes back failed, on an older server's request |
| LifecycleRuns.UnloggedRemovalIsMisread | src/dsh_api/service.py:382-383 | the run that shows the `delete` event is needed: the next tenant is handed the old world's backup |
| ServerService.StatusBeforeDelete | src/dsh_api/service.py:426-430 | the loop over the log is the newest request's status |
| ServerService.BackupStillOnDisk | src/dsh_api/service.py:439-452 | the loop over the log gives the newest backup with its file on disk since the last `delete`, as DbLaws.NewestBackupIsTaken says of the log alone |
| ServerService.SoloIsARun | src/dsh_api/service.py:361-424 | a delete job alone is a run of the protocol, so every theorem about runs is about it |
| ServerService.SoloCreateIsARun | src/dsh_api/service.py:263-305 | and so is a create job alone |
| ServerService.ServerService.RefuseCreate | src/dsh_api/service.py:253-261 | refuses exactly what the reservation would, for the first reason that applies |
| ServerService.ServerService.Create | src/dsh_api/service.py:208-251 | accepted exactly by the reservation, whatever happened since the checks; refused, nothing is written and the reason is true |
| ServerService.ServerService.Build | src/dsh_api/service.py:268-287 | the namespace, the grant, the credentials, the selection where there is one, the release, the scale-up and the rollout are called for, in this order, up to the first that fails, and that is as many protocol steps |
| ServerService.ServerService.Provision | src/dsh_api/service.py:263-305 | the job undisturbed is its protocol steps; the row ends ready exactly when every call of the list worked, and failed otherwise |
| ServerService.ServerService.Delete | src/dsh_api/service.py:333-359 | not found, still creating, already deleting and players online each exactly when it applies; otherwise the row turns `deleting`, with its event, exactly when it still has the status read first |
| ServerService.ServerService.GoWithout | src/dsh_api/service.py:408-424 | the delete goes on exactly with a backup on disk and the volume gone, by force, or on a row that was failed, and the log says which; otherwise nothing is written |
| ServerService.ServerService.BackUpForDelete | src/dsh_api/service.py:394-424 | the backup and its event, or the decision to do without, by the call's outcome, as the protocol's steps |
| ServerService.ServerService.TearDown | src/dsh_api/service.py:371-381 | the release is uninstalled and, only if that worked, the namespace deleted, as the protocol's steps |
| ServerService.ServerService.DeleteFails | src/dsh_api/service.py:390-392 | the row back to its prior status, no other row touched, then the reason, as the protocol's steps |
| ServerService.ServerService.Finish | src/dsh_api/service.py:382-383 | the row goes before its event, as the protocol's steps |
| ServerService.ServerService.Remove | src/dsh_api/service.py:361-388 | the whole job undisturbed is its protocol steps: the row goes exactly when the world was backed up or may be done without, the release uninstalled and the namespace deleted; else it is as it was found, and no call follows a failed one |
| ServerService.ServerService.MoveOn | src/dsh_api/service.py:151-159 | every row of one transient status moved on, each with its note |
| ServerService.ServerService.RecoverInterrupted | src/dsh_api/service.py:143-159 | interrupted creates end failed, interrupted deletes as the newest request in the log found them, settled rows as they are, and the log gains only notes |
| SelectionText.SortIsAscending | src/dsh_api/selection.py:26 | sorting distinct slugs gives them ascending, the same pins |
| SelectionText.AscendingIsUnique | src/dsh_api/selection.py:26 | one set of pins has one ascending order |
| SelectionText.QuoteCancels | src/dsh_api/selection.py:28 | a quoted, escaped JSON string determines its text and where it ends |
| SelectionText.DocumentIsInjective | src/dsh_api/selection.py:24-28 | the whole document determines its list of plugins |
| SelectionText.TextIsThePins | src/dsh_api/selection.py:21-28 | two selections have one text exactly when they pin the same (slug, tag, filename, url) |
| SelectionText.LessIsByCodePoint | src/dsh_api/selection.py:26 | the order is by the first code point that differs, a beginning before what it begins |
| SelectionReader.EscapeReads | src/dsh_api/selection.py:28 | a reader of JSON strings (section 7 of RFC 8259) gets every escaped character back, surrogate pairs included |
| SelectionReader.SelectionReadsBack | src/dsh_api/selection.py:21-28 | a reader of JSON tokens gets `plugins`, each selected plugin once by ascending slug with its own `filename`, `slug`, `tag` and `url`, and `version` 1 |
| PluginChanges.CloseWorks | src/dsh_api/plugin_service.py:191-202 | the worklist ends on every graph, with what it brought followed and in no duplicate |
| PluginChanges.AddBringsWhatIsReachable | src/dsh_api/plugin_service.py:186-206 | brings exactly the slugs reachable through unselected entries, each with the catalog's tag, filename, url and requirements, the request as the tenant's and the rest as dependencies; fails exactly when an unlisted one is reached |
| PluginChanges.BroughtInOrder | src/dsh_api/plugin_service.py:188-202 | they come in the order they are first met: the request, what the first brought needs, what the second needs, and so on |
| PluginChanges.AddKeepsClosed | src/dsh_api/plugin_service.py:181-207 | a closed selection stays closed and free of duplicates, and a second add brings nothing |
| PluginChanges.RemoveKeepsClosed | src/dsh_api/plugin_service.py:209-222 | the guard keeps a closed selection closed |
| PluginChanges.UnusedGoInAnyOrder | src/dsh_api/plugin_service.py:224-231 | all the dependencies offered can be removed, one after another, in any order |
| PluginChanges.RemovalsInTurn | src/dsh_api/plugin_service.py:209-222 | a series of removals goes through exactly when whatever needs a plugin goes first |
| PluginChanges.RemoveAllKeeps | src/dsh_api/plugin_service.py:220 | a series of removals leaves the rows it did not name, untouched |
| PluginChanges.AddThenRemoveRestores | src/dsh_api/plugin_service.py:175-231 | adding and removing all it added restores rows, text, hash and the pending answer |
| PluginUndo.AKnotHasACycle | src/dsh_api/plugin_service.py:209-222 | plugins each needed by another of them hold a cycle of requirements |
| PluginUndo.AKnotStays | src/dsh_api/plugin_service.py:209-222 | no sequence of removals, of these and any others, ever removes one of a cycle: a brought cycle is there for good |
| PluginUndo.CanGoExactly | src/dsh_api/plugin_service.py:209-222 | selected plugins can all be removed, in some order, exactly when no plugin that stays needs one and no cycle is among them |
| PluginUndo.AddCanBeUndoneExactly | src/dsh_api/plugin_service.py:175-231 | an add can be taken back whole, in some order, exactly when what it brought has no cycle and nothing selected before needs it, and any order that goes through restores the rows |
| PluginUndo.ABroughtCycleStays | src/dsh_api/plugin_service.py:181-222 | two catalog entries that need each other: whatever is selected, adding one brings both, and neither can ever be removed |
| PluginChanges.AddIsPending | src/dsh_api/plugin_service.py:94-105 | an add that brings something is pending on a server that had applied the selection before |
| PluginSyncProofs.PlanChangesText | src/dsh_api/plugin_service.py:203-221 | a planned change always changes the text, so its hash differs |
| PluginSyncProofs.EveryRunKeepsInv | src/dsh_api/plugin_service.py:154-223 | the invariant of rows, ConfigMap, hash and lock holds after every run |
| PluginSyncProofs.ThreeCopiesAgree | src/dsh_api/plugin_service.py:154-223 | with the lock free, ConfigMap, rows and hash agree exactly unless the name was cut |
| PluginRuns.ARestartCutsTheCopiesApart | src/dsh_api/plugin_service.py:175-179 | the run in which the process dies between hash and rows: a ready server, its lock free, and its ConfigMap is not its rows' text |
| PluginRuns.ALostNamespaceCutsTheCopiesApart | src/dsh_api/service.py:371-383 | the run in which it dies between namespace and row: a ready server with no ConfigMap |
| PluginSyncProofs.SelectionsStayClosed | src/dsh_api/plugin_service.py:181-223 | in every run a selection holds each slug once and is closed under its requirements |
| PluginSyncProofs.FailedWriteChangesNothing | src/dsh_api/plugin_service.py:175-179 | in every run an unwritable ConfigMap leaves the rows the change was planned on, ConfigMap and hash, and what was to be written was another text |
| PluginSyncProofs.AWrittenChangeLands | src/dsh_api/plugin_service.py:175-179 | once the ConfigMap is written, a change no restart cuts off ends with the rows it planned and all three copies theirs, whatever goes on meanwhile |
| PluginSyncProofs.OneChangeAtATime | src/dsh_api/plugin_service.py:154-173 | no two changes are inside one server's lock |
| PluginSyncProofs.SeedingNeedsDistinctDefaults | src/dsh_api/service.py:292-299 | seeding leaves text and rows agreeing exactly when no two defaults share a slug |
| PluginService.PluginService.WriteSelection | src/dsh_api/plugin_service.py:175-179 | the ConfigMap first; if it cannot be written, nothing changes |
| PluginService.PluginService.SeedSelection | src/dsh_api/service.py:292-299 | text, rows and hash of the defaults, or nothing |
| PluginService.PluginService.Collect | src/dsh_api/plugin_service.py:191-202 | the loop is the worklist closure, on every catalog |
| PluginService.PluginService.Add | src/dsh_api/plugin_service.py:181-207 | all of the plan or none of it: afterwards the old rows and the new behind them are stored, their text is in the ConfigMap and its hash written, with one event; each refusal exactly when it applies, busy exactly while another change holds the lock or the server is not the tenant's and ready |
| PluginService.PluginService.Remove | src/dsh_api/plugin_service.py:209-231 | refused exactly when it is not selected or while others need it, and then all of them are named; otherwise only it goes, rows, text and hash agree, and what is offered is exactly the dependencies nothing left needs |
| PluginService.PluginService.ViewPending | src/dsh_api/plugin_service.py:90-105 | pending exactly when a hash was written and it is not the one applied, a report being applied first |
| ExportLifecycle.FailAllRows | src/dsh_api/export_service.py:358-370 | failing the interrupted exports touches exactly them |
| ExportLifecycle.ActionKeeps | src/dsh_api/export_service.py:187-411 | every request, worker step, sweep step and restart keeps the invariant |
| ExportLifecycle.EveryRunKeepsInv | src/dsh_api/export_service.py:187-411 | the invariant holds after every run |
| ExportTheorems.StepMoves | src/dsh_api/export_service.py:275-354 | a row moves queued to running, running to ready or failed, queued to failed, and no other way |
| ExportTheorems.RowsGrowOlder | src/dsh_api/export_service.py:275-411 | along a run a row never goes back, a finished one never changes, and an erased one never returns |
| ExportTheorems.ErasedExactlyByTheHook | src/dsh_api/export_service.py:407-411 | a step erases a queued or running export exactly when it is the hook owed to a removal of its server's name |
| ExportTheorems.OwedHasGone | src/dsh_api/export_service.py:407-411 | a hook is owed only for a server whose row was there and was removed |
| ExportTheorems.OnlyRemovalErasesActive | src/dsh_api/export_service.py:378-411 | in every run a queued or running export is erased only by the hook of a server of that name that has gone |
| ExportTheorems.AnOldHookErasesANewExport | src/dsh_api/export_service.py:407-411 | the run that shows the hook goes by name: one still to run takes the export of the next tenant's server, which was ready when it was accepted |
| ExportTheorems.OneAtATime | src/dsh_api/db.py:500-547 | one active export a server and tenant, one running overall, each with its job while exports are on |
| ExportTheorems.EveryExportEnds | src/dsh_api/export_service.py:275-354 | left alone, and however its steps end, the worker leaves nothing queued or running, and everything with an expiry |
| ExportTheorems.FinishedHasItsWorld | src/dsh_api/export_service.py:310-333 | a ready export has its directory exactly unless a sweep took it |
| ExportTheorems.WorldGoesExactlyWhenLate | src/dsh_api/export_service.py:378-401 | in every run a step takes a finished export's directory, its row staying finished, exactly when it is a clean-up and the export was accepted after that sweep's look |
| ExportTheorems.QuietSweepLosesNothing | src/dsh_api/export_service.py:378-401 | with no export accepted meanwhile, the clean-up leaves every finished export's directory, whatever else goes on |
| ExportTheorems.ALateWorldIsLost | src/dsh_api/export_service.py:384-398 | an export of a ready server accepted and finished during a sweep always loses its directory |
| ExportTheorems.AMomentForIt | src/dsh_api/export_service.py:372-376 | such a moment, with a ready server, is reached |
| ExportTheorems.SweepSettles | src/dsh_api/export_service.py:378-401 | an undisturbed sweep leaves exactly the rows queued or running, and those whose expiry is still ahead and whose server is there and the same tenant's, unchanged, and no stray directory |
| ExportTheorems.RestartSettles | src/dsh_api/main.py:127-129 | starting with exports on leaves nothing queued or running and no stray directory |
| ExportService.ExportService.RefuseExport | src/dsh_api/export_service.py:209-217 | refuses exactly when an export of the server is queued or running or the starts of the last 24 hours reach the limit; the wait it names is the whole seconds until the first of them is 24 hours old, and at least one |
| ExportService.ExportService.Create | src/dsh_api/export_service.py:187-207 | the answer in every case, the checks in figures; accepted only for the tenant's ready server, an area within border and cap, and fewer starts in the last 24 hours than the limit, whatever happened since the checks, and then it is the start the rolling limits bound; refused, nothing is written |
| ExportService.ExportService.Delete | src/dsh_api/export_service.py:219-224 | an owned, finished export whose expiry is still ahead goes with its directory and nothing else; each refusal exactly when it applies |
| ExportService.ExportService.Run | src/dsh_api/export_service.py:275-341 | the job is its protocol steps, with anything in between while the pod works; it ends ready, its directory there, or failed, due the retention in hours after its whole second, with its event |
| ExportService.ExportService.RecoverInterrupted | src/dsh_api/export_service.py:358-370 | the loop fails every queued or running export, with an expiry, once each, and leaves the others |
| ExportService.ExportService.SweepIfDue | src/dsh_api/export_service.py:372-376 | a sweep exactly when there was none or the last was 600 seconds ago or more |
| ExportService.ExportService.Sweep | src/dsh_api/export_service.py:378-401 | it leaves exactly the rows queued or running and those in time and their tenant's, and the directories of the rows it left |
| ExportService.ExportService.SweepRows | src/dsh_api/export_service.py:379-391 | the loop over the rows removes exactly the expired and the orphaned that are over |
| ExportService.ExportService.SweepDirs | src/dsh_api/export_service.py:392-400 | the loop over the directories keeps exactly the known ones |
| ExportService.ExportService.ForgetServer | src/dsh_api/export_service.py:407-411 | the server's exports and directories go, and no others |
| RollingLimits.WindowsStayBounded | src/dsh_api/db.py:500-547 | under every mix of calls, each with a clock that does not step back to an earlier second inside it, a half-open day holds at most the limit of a tenant's exports and a closed hour at most the limit of a user's messages |
| RollingLimits.TheDayIsCounted | src/dsh_api/db.py:576-589 | the count is of the tenant's starts less than 86,400 seconds old |
| RollingLimits.TheHourIsCounted | src/dsh_api/db.py:434-452 | and the messages counted are the user's of the last 3,600 seconds |
| RollingLimits.StartKeepsTheDay | src/dsh_api/db.py:500-547 | a start let in leaves no day over the limit that was not over it before, if the clock did not step back inside it |
| RollingLimits.SteppingBackBreaksTheDay | src/dsh_api/db.py:522-541 | whenever the clock does step back inside a start, by any amount, some run, with a ready server and no id used twice, then holds one export too many in a day |
| RollingLimits.SteppingBackBreaksTheHour | src/dsh_api/db.py:434-452 | and one message too many in an hour |
| RollingLimits.SafeExactlyWhenSteady | src/dsh_api/db.py:500-547 | so a call keeps both limits after every such history exactly when its clock is steady, or its limit lets nothing in |
| RollingLimits.OldestIsCounted | src/dsh_api/db.py:576-589 | the oldest start reported is one of those counted and no later than any of them |
| RollingLimits.RetryAfterIsEnough | src/dsh_api/export_service.py:209-217 | a wait of one second to a day, after which, and one second more, the limit lets the tenant in |
| RollingLimits.TheFirstIsWaitedFor | src/dsh_api/export_service.py:212-217 | the wait is the whole seconds until the first counted start is 86,400 seconds old, and at least one |
| RollingLimits.RetryAfterIsNeeded | src/dsh_api/export_service.py:212-217 | before a wait of more than a second is over, nothing that was counted has stopped counting |
| RollingLimits.TheExtraSecondIsNeeded | src/dsh_api/export_service.py:216 | truncation makes the extra second necessary |
| ExportLinks.Base64RoundTrip | src/dsh_api/export_service.py:105-110 | every byte string survives unpadded base64url, whose text has no dot |
| ExportLinks.DecodesExactly | src/dsh_api/export_service.py:109-110 | with its padding put on, ASCII text decodes exactly when its letters come out in fours or a padding sign stands where the last group lacks one or two; what is in neither alphabet is skipped |
| ExportLinks.AlphabetIsTheTable | src/dsh_api/export_service.py:105-106 | the characters are those of base64url (section 5 of RFC 4648), in its order |
| ExportLinks.GroupIsItsBits | src/dsh_api/export_service.py:105-106 | each group of characters is its bytes' bits, six at a time |
| ExportLinks.AlphabetsReadAlike | src/dsh_api/export_service.py:109-110 | `+` and `/` decode as `-` and `_` |
| ExportLinks.TokenIsUrlSafe | src/dsh_api/export_service.py:240-243 | a token is letters, digits, `-` and `_` around one dot |
| ExportLinks.PrintReadsBack | src/dsh_api/export_service.py:241-254 | every expiry prints without a dot and reads back |
| ExportLinks.SplitAtDot | src/dsh_api/export_service.py:250-253 | fields without dots split where they were joined |
| ExportLinks.PayloadReadsBack | src/dsh_api/export_service.py:240-258 | the parsed payload is the three values signed, for any decoding and any `int` that read what the service writes |
| ExportLinks.TokenReadsBack | src/dsh_api/export_service.py:240-258 | a signed token reads back as its payload, its code and its claim |
| ExportLinks.DistinctClaimsDistinctPayloads | src/dsh_api/export_service.py:240-243 | distinct triples sign distinct payloads |
| ExportLinks.SignedLinkDownloads | src/dsh_api/export_service.py:245-268 | a link serves its export exactly while it runs, its code is the service's, the export is ready and on disk, and its expiry is still ahead |
| ExportLinks.OnlySignedClaimsAreServed | src/dsh_api/export_service.py:245-268 | whatever the token, and however leniently its text and number are read, only a ready export named under the service's own code is served |
| ExportLinks.AFreshLinkDownloads | src/dsh_api/export_service.py:226-236 | in every run the link given out now works later exactly for 900 seconds from its whole second, while the export's expiry is ahead, unless a sweep took the world |
| WorldBox.RegionsCoverTheBox | export/dsh_world_export.py:228-231 | a region is listed, once, exactly when it meets the box |
| WorldBox.EveryBlockOnce | export/dsh_world_export.py:228-231 | every block of the box lies in exactly one listed region |
| WorldBox.FewRegions | export/dsh_world_export.py:228-231 | an axis of width w needs at most (w+510)//512+1 regions, a box within the cap at most four |
| WorldBox.FewRegionsIsTight | export/dsh_world_export.py:228-231 | that bound is reached |
| WorldBox.BuiltBoxes | export/dsh_world_export.py:211-226 | corners span their box whichever way round; a box around a point has the size asked for and the point in its middle, at most one block nearer the far end |
| WorldBox.AcceptedAreaPassesThePod | src/dsh_api/export_service.py:150-159 | accepted exactly with every coordinate within 29,999,984 and both sides within the cap, which is the pod's own check too, and then the pod rebuilds the same box |
| WorldSnapshot.SameStampSameFile | export/dsh_world_export.py:250-252 | with fresh writes, an equal size and time mean the file did not change in between |
| WorldSnapshot.CopyIsTheFile | export/dsh_world_export.py:277-281 | a copy in any pieces between equal stamps is the file, though a copy of a file cut short may be longer than the file ever was |
| WorldSnapshot.AStaleStampHidesAChange | export/dsh_world_export.py:277-281 | without fresh writes, equal stamps can surround a copy of no moment |
| WorldSnapshot.StampsTell | export/dsh_world_export.py:277-281 | equal rounds of stamps make the copies those of one moment, and quiet rounds are equal |
| WorldSnapshot.StatAll | export/dsh_world_export.py:277 | the loop stats every source at some moment, or one was gone |
| WorldSnapshot.CopyAll | export/dsh_world_export.py:278-280 | the loop copies every source within its time, each byte as it was at some moment and up to an end that was seen, or one was gone |
| WorldSnapshot.Attempt | export/dsh_world_export.py:276-281 | a pass is stable exactly when every source had the same size and time at its first look and at its second; then, under fresh writes, it is one moment's world; an undisturbed pass is stable |
| WorldSnapshot.Sources | export/dsh_world_export.py:262-267 | level.dat and wanted regions only, and every wanted region that was there throughout |
| WorldSnapshot.Snapshot | export/dsh_world_export.py:255-288 | the last pass looked at every source twice and is reported stable exactly when size and time were the same; then, under fresh writes, the destination is all the sources at one common instant, whatever was written and however often it was tried; undisturbed it is stable at once |
| Nbt.SignedBack | export/dsh_world_export.py:122-124 | a big-endian number reads back |
| Nbt.TextBack | export/dsh_world_export.py:126-127 | length-prefixed text reads back and leaves what follows |
| Nbt.ItemsRoundTrip | export/dsh_world_export.py:148-151 | a list's items read back in order |
| Nbt.EntriesRoundTrip | export/dsh_world_export.py:152-159 | a compound's entries with distinct keys read back in order |
| Nbt.RoundTrip | export/dsh_world_export.py:129-166 | every tree nested up to the limit with distinct keys reads back, consuming exactly its bytes |
| Nbt.RootRoundTrip | export/dsh_world_export.py:168-173 | so does a whole file |
| Nbt.PutKeeps | export/dsh_world_export.py:158-159 | a repeated key replaces its value and keeps keys distinct |
| Nbt.PutIsFound | export/dsh_world_export.py:158-159 | a key put again stands for its last value, every other for what it did |
| Nbt.OutputFits | export/dsh_world_export.py:129-166 | from any bytes, a value returned is one the format can hold, of the tag asked for |
| Nbt.ReadsExactlyTheTrees | export/dsh_world_export.py:129-166 | the values returned are exactly the trees the format can hold |
| Nbt.FitsToDepth64 | export/dsh_world_export.py:129-131 | a tree fits at a depth exactly when it fits at all and nothing in it lies deeper than 64 |
| Nbt.LeavesInFigures | export/dsh_world_export.py:132-165 | how many bytes each tag takes, and which numbers they are |
| Nbt.NegativeCountIsEmpty | export/dsh_world_export.py:148-151 | a list of a negative number of items is empty |
| Nbt.RootInFigures | export/dsh_world_export.py:168-173 | a file starts with byte 10 and a name, and the compound behind it is read from depth 0 |
| Nbt.RereadsTheSame | export/dsh_world_export.py:129-166 | what was read from any bytes, written out, reads as the same |
| NbtBounds.TurnsBackExactly | export/dsh_world_export.py:115-166 | on any bytes the reader turns back exactly when a byte array it meets has a negative length |
| NbtBounds.ReadsForward | export/dsh_world_export.py:115-166 | a payload read takes a byte or more and leaves exactly the end of what it was given |
| NbtSteps.ReaderEnds | export/dsh_world_export.py:129-166 | on any bytes, at any place, unless such a length is met, the reader that goes wherever `pos` is moved ends within two steps a byte and three more, with the value the bytes hold or an error |
| NbtSteps.RootEnds | export/dsh_world_export.py:168-173 | so does the whole file |
| NbtSteps.SliceInFigures | export/dsh_world_export.py:118 | a slice with an index below zero counts from the back, clamped at both ends |
| NbtSteps.ANegativeLengthGoesRound | export/dsh_world_export.py:144-159 | a byte array of its own entry's negative length is never done with: no number of steps is enough, wherever it stands and whatever its key |
| NbtSteps.AFileThatIsNeverRead | export/dsh_world_export.py:168-173 | so a file with such an entry first is never read, whatever follows it |
| NbtReader.Reader.Take | export/dsh_world_export.py:115-120 | the bytes asked for and `pos` behind them, an error past the end, or `pos` moved back by a negative size |
| NbtReader.Reader.UnpackSigned | export/dsh_world_export.py:122-124 | a number of the width, and `pos` behind it |
| NbtReader.Reader.String | export/dsh_world_export.py:126-127 | length, then text |
| NbtReader.Reader.Payload | export/dsh_world_export.py:129-166 | the object moving `pos`, back as well as on, reads what the steps say and stands where they stand |
| NbtReader.Reader.IntArray | export/dsh_world_export.py:160-166 | a negative count moves back and then fails to unpack |
| NbtReader.Reader.ListOf | export/dsh_world_export.py:148-151 | the list loop |
| NbtReader.Reader.CompoundOf | export/dsh_world_export.py:152-159 | the compound loop, turn by turn, also when it goes back |
| NbtReader.Reader.Root | export/dsh_world_export.py:168-173 | the named compound at the start, ended within the bound unless a negative length is met |
| VarInt.WriteVarInt | src/dsh_api/cluster.py:416-425 | the loop's bytes are the encoding |
| VarInt.ReadVarInt | src/dsh_api/cluster.py:402-413 | decodes, takes exactly the bytes it used and never more than six |
| VarInt.RoundTrip | src/dsh_api/cluster.py:402-425 | reading undoes writing below 2^42, leaves what follows, and refuses everything above |
| VarInt.DecodesAnyBytes | src/dsh_api/cluster.py:402-413 | on any bytes: the first of six without the high bit ends the number, of seven bits a byte and the first the least; six with it are too long, fewer are cut off |
| VarInt.FrameRoundTrip | src/dsh_api/cluster.py:428-430 | a frame parses back and leaves what follows |
| VarInt.FramesRoundTrip | src/dsh_api/cluster.py:428-430 | frames parse back in sequence |

## Left out

- LifecycleTheorems.ReusedBackupIsOwn: one direction, on a mark kept with the run; the exact condition, on the log, is Incarnations.ReusedBackupIsOwnExactly.
- LifecycleTheorems.RestartRestores: says of an unlogged delete only that its row settles; what it settles to is LifecycleTheorems.RestartRestoresExactly.
- NbtSteps.ReaderEnds: of a reader that does meet a negative length only some are followed to the end; which of them end at all depends on every byte they are sent back over.
- Nbt.PutKeeps: keys are compared as bytes; two keys of broken UTF-8 that decode to the same replacement characters stay two.
- NbtReader.Reader.Payload: the number of steps stands for how long the reader is watched; nothing in the source counts them.
- WorldSnapshot.World.CopyFile: the library call is its contract, each byte as it was at some moment of the call and an end of file seen at one; its body is one way of doing that.
- WorldSnapshot.Snapshot: region files are listed in the box's order, not by name; the half-second pause and where the copies are put are not modelled.
- ExportLinks.DecodesExactly: says which texts decode; the bytes they give are followed for texts the service makes (ExportLinks.Base64RoundTrip).
- ExportService.ExportService.Create: the wrapper's state is a boolean, an export id that has been drawn before is not considered, and the area is checked but not kept.
- ExportService.ExportService.Run: staging, the pod's phases, `summary.json` and the fields it fills are one boolean, whether the work came to something.
- ExportLifecycle.EveryRunKeepsInv: a sweep's look, a delete and the end of a job are one step each; one sweep is in flight at a time; removing a directory always works.
- PluginSyncProofs.EveryRunKeepsInv: assumes distinct default slugs closed under their requirements, and that no delete takes the namespace or the row while a change holds the server's lock (readiness is checked on entry only).
- PluginService.PluginService.Add: the wait for the lock is capped and comes to an answer, not a length of time.
- SelectionReader.SelectionReadsBack: of numbers its reader knows the one digit there is in the text.
- SelectionText.TextIsThePins: the JSON keys and layout are those `json.dumps` gives for this one shape; text is UTF-16-expressible characters.
- ServerService.ServerService.Create: password, credentials, hostname, message of the day and the lookup of the operator's UUID are left out; a create by an unknown operator fails before the reservation.
- ServerService.ServerService.Remove: the hooks after a delete are the export service's `ForgetServer`; a hook never fails a delete.
- The number of provisioning workers: any accepted job may go on at any time, so two at a time is one case.
- Database.Database.ListWithStatus: the order by creation time and name is not stated; nothing that reads the list depends on it.
- The order other rows come back in, and every column no decision reads.
- Waking, applying plugins, player counts, console commands, server states and their tables, catalog titles and per-plugin status words: they act outside the row lock and change nothing modelled here.
- kubectl, Helm, HTTP routes, tokens of the site, SQL text, migrations and SQLite's own working: each transaction is one step that works.
- SHA-256 is its text; the authentication code is any function, and UTF-8 decoding and `int` any that read what the service writes; times whole seconds where stored and microseconds where read.
- Catalog and default-list parsing, the Mojang lookup, feedback listing, archive extraction, gzip, zip, tar, the exporter and the tiler: thin plumbing.
- Bit operations are written with sums and powers; the groups never overlap.
