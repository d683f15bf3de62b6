# Ciaobot verification model

This project models the parts of Ciaobot whose guarantees are stated in prose, and proves them.

- `AsyncReads.dfy`, `AsyncProtocol.dfy`, `AsyncRequests.dfy`, `AsyncService.dfy`: the bounded, coalescing executor of
  vault reads. The class holds the fields that the source updates under one lock; the protocol interleaves its lock
  sections with event loops, pool workers, done-callbacks and cancellations; each caller is served the read that it
  asked for; and every run that is left on its own is bounded.
- `Dag.dfy`, `DagRun.dfy`, `DagResume.dfy`: the DAG runner. Validation by three-colour search, the walk with its
  checkpoint file, and what a resume shares with a run that was never interrupted. An executor is an arbitrary
  function of the node and the context.
- `CurationLease.dfy`, `CurationBudget.dfy`, `CurationMarker.dfy`: the nightly curation run. The lease between
  contending holders, the budget split and the cursor, and the frontmatter marker with its reader and writer.
- `BackupService.dfy`, `BackupProtocol.dfy`: the unattended backup. The await-free sections of a run, and their
  interleaving with the loop, manual runs, status reads, flag changes, guided setup and unexpected exceptions.
- `EntityTypes.dfy`, `EntitySave.dfy`, `EntityValidation.dfy`: the category registry. Row parsing, the merge with
  the shipped list, saving only what differs, validation, and the registry's lookups.
- `RulesFence.dfy`, `RulesFile.dfy`, `RulesSection.dfy`: the managed section of a rules file. How its markers are
  recognised character by character, the splice into text that belongs to the operator, and the two lints.
- `AppSettings.dfy`: the settings file. Reading, writing, updates, the legacy import and the overlay.
- `BackupScope.dfy`: the path scope of a backup, enforced and reported.
- `CliEnvelopes.dfy`: the two readers of task notifications, and the context capsule.
- `AgentPaths.dfy`: the folder name of a workspace.
- `Basics.dfy`, `PyText.dfy`: an option type, and the Python string operations that the code is made of.

A method with a loop or with fields is proved against a function, and the theorems are about that function. What such a
function answers is also stated without it, case by case and field by field.

## What the model found

Each of these has a lemma with the exact condition and one with a concrete input.

- `curation-end` (ciao/cli.py:6216-6252) passes `end_run` the keys of the worklist that the cursor has already
  filtered, so every end of a run empties the cursor. On a vault whose items stay, each night is presented the
  whole worklist again (`ForgetfulNightsRepeat`, `OneNoteComesBackForEver`); with the keys of the unfiltered
  worklist it drains (`WorkDrains`).
- The marker is read back exactly when no kept frontmatter line but the first starts with `---`. A form feed or
  another break that `splitlines` knows can bring such a line; a text broken only at newlines cannot
  (`MarkerRoundTrip`, `FormFeedHidesTheDate`, `PlainTextSurvives`). In such a text an older date also survives the
  next write (`LastWriteWins`).
- The gate reads the flags of a backup once. A run let in with the backup off, to look whether a guided setup
  succeeded, commits and pushes all the same when a pause landed before that look: the setup then leaves the backup
  off (`LookingEnablesUnlessHeld`, `PauseDuringTargetReadIsMissed`). In general a run does its work with permission
  exactly when the last words on switch and pause, up to the work, give it (`WorkIsPermittedWhen`); a pause or a
  switch-off that lands later is obeyed from the next run on (`LateWithdrawalIsMissed`).
- A file that names a new category without a label loads, but the next save writes the empty label, which the
  loader refuses, so the whole file is dropped (`SaveLoadFixpoint`, `UnlabelledCategoryVanishes`). Validation
  refuses such a list, so the settings page is not affected (`AcceptedListIsServed`).
- In a rules file with `\r\n` line ends the writer puts `\r\n` into the section, and the reader's lint refuses the
  carriage return, so the section never reaches a prompt once it has two lines (`ServedUnlessCrlf`,
  `WindowsFileIsNotServed`).
- Appending a section to a text that ends in a lone carriage return makes its first `\r\n`, so the second,
  identical write changes the file once more (`SecondWriteIsQuiet`, `LoneReturnChangesTwice`).
- Settings survive a restart exactly when the checkout path has no white space at its ends and no retired model is
  among the insights models (`SettingsSurviveRestart`). An imported path can resolve to one with such white space
  (`ImportKeepsCanonical`, `ImportedPathIsCutShort`), and the old value `opencode:apple` is migrated to a model
  that the next start drops (`LoadedIsCanonical`, `AppleIsDroppedNextTime`).
- A vault or an agent root that lies in a durable tree is no base of its own; when a directory in between has a
  refused name, such as `build`, its files are not backed up at all (`DroppedBaseIsBackedUpWhen`,
  `VaultNamedBuildIsNotBackedUp`).

Where the code and its own words differ, the model follows the code:

- every failed push backs off to twelve intervals, not only those for credentials, reach and divergence
  (ciao/backup_service.py:774 against 911-914);
- a stock category that a submission omits is in the answer of `parse_payload` (ciao/entity_types.py:720 against 739);
- the id pattern of a category ends in `$`, which also accepts one last newline (ciao/entity_types.py:135);
- `end_run` by a holder whose lease has run out succeeds while nobody else holds a live one
  (ciao/curation_run.py:1961).

## Model

| member | source | states |
|---|---|---|
| AsyncReads.VaultReadExecutor.constructor | ciao/async_reads.py:121-138 | an empty executor whose backlog is at least one |
| AsyncReads.VaultReadExecutor.Acquire | ciao/async_reads.py:142-173 | joins a same-key read without a slot, refuses at the cap, otherwise reserves one slot and registers the key only when coalescing; only an admission has a release to register |
| AsyncReads.VaultReadExecutor.Submit | ciao/async_reads.py:175-207 | the same without the cap |
| AsyncReads.VaultReadExecutor.Release | ciao/async_reads.py:211-218 | forgets the key only when it still names this future, gives the slot back, and returns every loop to wake |
| AsyncReads.VaultReadExecutor.WaitForSlot | ciao/async_reads.py:229-239 | clears the loop's event before it looks for room |
| AsyncProtocol.InvStep | ciao/async_reads.py:142-274 | every step of every coroutine, thread, worker, callback and cancellation keeps the protocol's invariant |
| AsyncProtocol.NoCallerIsStranded | ciao/async_reads.py:211-239 | in every interleaving, a caller that waits beside a free slot has a set of its loop's event queued, or a release about to queue it |
| AsyncProtocol.AwaitAlwaysSuspends | ciao/async_reads.py:229-239 | the event is never found set between the check and the await, so the only wake-up is one queued later |
| AsyncProtocol.SlotsAreAccounted | ciao/async_reads.py:142-227 | outstanding equals the admitted, unreleased futures, the clamp at zero never bites, and the registry holds exactly the coalesced futures that hold a slot |
| AsyncProtocol.UncoalescedReadNeverEvicts | ciao/async_reads.py:159-217 | a read that was not coalesced leaves the registry as it is, when it is admitted and when it ends |
| AsyncProtocol.BacklogIsBounded | ciao/async_reads.py:153-173 | outstanding never exceeds the cap, which stays the one given, or one, while admission is only through acquire |
| AsyncProtocol.UnservedCanMove | ciao/async_reads.py:347-372 | while a caller is unserved, some step other than an arrival or a cancellation is possible |
| AsyncProtocol.EveryCallerIsServed | ciao/async_reads.py:347-372 | when nothing more can happen, every caller has its outcome or was cancelled |
| AsyncService.StepWorks | ciao/async_reads.py:365-372 | every step that is no arrival, cancellation or change of a loop uses up some of a bounded amount of work, however often callers are refused and retry |
| AsyncService.EveryCallerIsServedInTime | ciao/async_reads.py:347-372 | from any reachable state, every run that is left on its own is no longer than the work that was left, and where it can go no further it has served every caller |
| AsyncService.EveryRunCanServeEveryone | ciao/async_reads.py:347-372 | from any reachable state some run of no more than that length, on its own, serves every caller |
| AsyncService.WaitingBesideAFreeSlotHappens | ciao/async_reads.py:211-239 | the situation of a caller that is suspended beside a free slot is reached, its wake-up on the way |
| AsyncProtocol.BridgeIsFaithful | ciao/async_reads.py:243-274 | a caller receives the shared outcome, or `Cancelled` after it was itself cancelled |
| AsyncProtocol.CancellationStaysPrivate | ciao/async_reads.py:243-274 | from the moment one bridge is cancelled, every later run is possible for the others as well, with the same shared state and the same outcomes |
| AsyncRequests.CallersGetWhatTheyAsked | ciao/async_reads.py:142-207 | in every run the n-th caller has the loop, the key and the flag of the n-th arrival; the read it holds has that key, is its own unless it coalesces and a shared one if it does, and a shared outcome that it gets is one that a worker gave that read |
| AsyncRequests.OnlyItsEventWakes | ciao/async_reads.py:211-239 | a suspended caller goes on only by a set of its own loop's event, or by its cancellation |
| AsyncRequests.ClosedLoopsAreForgotten | ciao/async_reads.py:219-227 | a loop that closes stays closed; a release queues a set on an open loop and forgets the event of a closed one |
| Dag.CycleCheck.Visit | ciao/dag.py:127-134 | the three-colour search refuses only when there is a cycle, and otherwise finishes the node with its colours and search order intact |
| Dag.CycleCheck.Descend | ciao/dag.py:131-133 | after the loop every successor is finished |
| Dag.Validate | ciao/dag.py:111-139 | accepts exactly the graphs whose edges run between known nodes and that have no cycle, and names the cycle only when all endpoints exist |
| Dag.CheckEndpoints | ciao/dag.py:113-120 | finds an edge with an unknown end, source first, when there is one |
| Dag.SearchForCycle | ciao/dag.py:122-138 | true exactly for an acyclic graph |
| Dag.AcceptedHasStart | ciao/dag.py:142-154 | an accepted graph that is not empty has a node without incoming edges |
| Dag.StartIsTheOnlyRoot | ciao/dag.py:142-154 | the start is the only node in the list to which no edge leads; none and several are each refused as such |
| Dag.IndexHasTheLast | ciao/dag.py:113 | of several nodes with one id the last counts |
| DagRun.PickNext | ciao/dag.py:413-430 | the target of the last edge that fires for the outcome, or none |
| DagRun.LastMatchingEdgeDecides | ciao/dag.py:413-430 | the walk goes on to `b` exactly when some edge to `b` from the current node, conditioned on `always` or on the outcome that occurred, has no such edge after it, and ends exactly when there is no such edge |
| DagRun.WalkVisitsOnce | ciao/dag.py:517-565 | a run on an accepted graph ends after visiting each node at most once, along edges |
| DagRun.Run | ciao/dag.py:451-565 | the loop with its checkpoint load, skip and save computes the walk, and a raised failure is saved before it is raised again |
| DagRun.TurnOfTheLoop | ciao/dag.py:517-565 | what one turn does to context, file, path and ending: a node whose result is ok is passed over, an unknown kind stops, and any other node is run and its result saved before the walk goes on or stops |
| DagRun.FileGoesFirst | ciao/dag.py:481-499 | a run begins at the start node, with the results of its file, if it is durable and has one, over the context it was given |
| DagResume.SavedWorkIsNotRepeated | ciao/dag.py:519-525 | no run executes a node whose saved result is ok, whatever the checkpoint |
| DagResume.ResumeRefinesUninterruptedRun | ciao/dag.py:481-565 | after any number of interrupted runs, when executors read only upstream results, the resumed run takes the path of an uninterrupted one and agrees with it at every node of the path |
| DagResume.PeekingExecutorDiverges | ciao/dag.py:489-499 | without that hypothesis it does not: an executor that reads a later result records another outcome after a resume |
| CurationLease.ExpiryIsAhead | ciao/curation_run.py:1862-1872 | a lease expires at the whole second at or before the term that was asked for, but at least one second, from now; so it is live at that instant |
| CurationLease.LiveMeansAhead | ciao/curation_run.py:1795-1805 | a lease is live exactly when it names a holder and its expiry is still ahead |
| CurationLease.CurationStore.BeginRun | ciao/curation_run.py:1842-1872 | takes the lease exactly when no live one is there, for the term that was asked for, cut to the second |
| CurationLease.CurationStore.RenewRun | ciao/curation_run.py:1875-1896 | extends the lease by the term that was asked for, exactly for its holder while it is live |
| CurationLease.CurationStore.RecordDone | ciao/curation_run.py:1899-1926 | stamps the keys exactly for the live holder, or when no holder is named, and counts the new ones |
| CurationLease.CurationStore.EndRun | ciao/curation_run.py:1929-1980 | refuses only another live holder; releases, prunes and moves the marker as one change |
| CurationLease.InvStep | ciao/curation_run.py:1795-1980 | every operation keeps the lease and the ownership intervals in step |
| CurationLease.TenanciesAreDisjoint | ciao/curation_run.py:1842-1980 | over every history the ownership intervals are pairwise disjoint |
| CurationLease.OnlyTheHolderEndsEarly | ciao/curation_run.py:1957-1966 | an interval is cut short only by its own holder, or by an end that names none |
| CurationLease.RecordsOnlyInside | ciao/curation_run.py:1899-1926 | a named holder records only inside its own current interval |
| CurationLease.HandoverWaitsForExpiry | ciao/curation_run.py:1842-1980 | when another run records after one did, that one's lease has run out, unless it renewed or ended it in between or an end that named nobody took it away |
| CurationLease.MarkerMovesOnlyWhenEarned | ciao/curation_run.py:1957-1975 | the marker moves only on an ok end with the vault index and the audit done and no other live holder |
| CurationBudget.PlanRun | ciao/curation_run.py:1641-1678 | the loop computes the split of the worklist by the budget |
| CurationBudget.SplitConserves | ciao/curation_run.py:1641-1678 | planned keys followed by deferred keys are the worklist's keys in order, and as many are planned as the budget allows |
| CurationBudget.SplitCutsOnce | ciao/curation_run.py:1656-1676 | at most one pass is split |
| CurationBudget.BuildRemaining | ciao/curation_run.py:1577-1591 | the done-filter drops recorded keys and then empty items |
| CurationBudget.FilterKeys | ciao/curation_run.py:1577-1591 | its keys are the worklist's keys without the recorded ones, in order |
| CurationBudget.FilterIsItemwise | ciao/curation_run.py:1577-1591 | the filter goes item by item: an item without undone keys goes, any other keeps all but its keys |
| CurationBudget.NightIsRecordThenEnd | ciao/curation_run.py:1899-1980 | one night is record_done of the plan and end_run with the keys of the unfiltered worklist |
| CurationBudget.NightProgress | ciao/curation_run.py:1577-1678 | a night takes as many keys off the worklist as the budget has, or empties it |
| CurationBudget.WorkDrains | ciao/curation_run.py:1641-1678 | on a fixed vault the worklist is empty after the number of keys divided by the budget, rounded up |
| CurationBudget.NoBudgetNoProgress | ciao/curation_run.py:1650-1655 | without a budget nothing ever drains |
| CurationBudget.FilteredLiveKeysForgetEverything | ciao/cli.py:6232-6252 | the keys that the curation-end command passes are the filtered worklist's, so the pruning in end_run keeps no finished key |
| CurationBudget.ForgetfulNightIsRecordThenEnd | ciao/cli.py:6226-6247 | a night that ends through the command is record_done of the plan and end_run with the keys that are then left |
| CurationBudget.ForgetfulNightsRepeat | ciao/cli.py:6216-6252 | so however many nights end through the command, the next one is presented every key of the worklist again, and the work drains only if there was none |
| CurationBudget.OneNoteComesBackForEver | ciao/cli.py:6226-6247 | one note with a budget of one is done after a night if pruned by the whole worklist, and never through the command |
| CurationMarker.ReadLastFullPass | ciao/curation_run.py:285-310 | the scan returns the first marker line's date, or nothing when it is not a date |
| CurationMarker.FirstMarkerDecides | ciao/curation_run.py:300-310 | the first line whose key is the marker decides, whatever comes after it: its value without quotes, if that is a date |
| CurationMarker.FrontmatterIs | ciao/curation_run.py:290-300 | a log has frontmatter exactly when it starts with a fence and has another at a line start behind its first line; the block ends at the first of these |
| CurationMarker.MarkerRoundTrip | ciao/curation_run.py:2011-2034 | reading after writing gives the date exactly when no kept line but the first starts with the fence |
| CurationMarker.FormFeedHidesTheDate | ciao/curation_run.py:300-303 | a log with a form feed before `---` in its frontmatter, from which the date just written is not read |
| CurationMarker.PlainTextSurvives | ciao/curation_run.py:300-303 | which is so for every text whose only line break is a newline |
| CurationMarker.PlainRoundTrip | ciao/curation_run.py:2011-2034 | so for such a text the date written is the date read |
| CurationMarker.OtherTextIsKept | ciao/curation_run.py:2011-2034 | other frontmatter lines keep their order and the body its text, a log without frontmatter becoming the body whole, exactly when the date is read back |
| CurationMarker.KeptIsLinewise | ciao/curation_run.py:2019-2026 | a write drops the lines whose key is the marker, wherever they stand, and no other |
| CurationMarker.LastWriteWins | ciao/curation_run.py:2019-2026 | a later date replaces an earlier one without a trace, exactly for the texts from which the date is read back |
| BackupService.Backup.SetFlags | ciao/backup_service.py:476-492 | changes the flags it is given and nothing else |
| BackupService.Backup.SettleGuidedSetup | ciao/backup_service.py:511-537 | turns the backup on once, and leaves a pause alone |
| BackupService.Backup.Open | ciao/backup_service.py:642-649 | clears the backoff and asks the gate; a refusal stamps nothing |
| BackupService.Backup.Target | ciao/backup_service.py:656-668 | without a branch or an origin stamps an attempt, otherwise settles the setup |
| BackupService.Backup.DoWork | ciao/backup_service.py:670-742 | stops at a busy repository or a refused file, commits the scope, goes on to upload |
| BackupService.Backup.Upload | ciao/backup_service.py:738-819 | skips the push when nothing is unpushed; only a push that landed writes the success evidence |
| BackupService.Repository.Push | ciao/local_session.py:345-434 | what a push is assumed to do: the local history only grows, and a push that landed put all of it on the remote |
| BackupService.Backup.Fault | ciao/backup_service.py:621-638 | an unexpected exception is still an attempt |
| BackupService.Backup.Record | ciao/backup_service.py:821-857 | an equal failure is a skip, any other an error; a success clears both |
| BackupService.GateLetsIn | ciao/backup_service.py:640-655 | the gate lets a run in exactly when the backup is on or a setup is armed, no pause stands and this machine is the host, and otherwise names the first of these that fails |
| BackupService.OpeningAnswers | ciao/backup_service.py:642-668 | field by field what opening a run and reading its target do to the service, and with which reason each refuses |
| BackupService.WorkAnswers | ciao/backup_service.py:670-742 | a busy repository, a refused file and a failed commit end the run in this order, each with its reason, stamping the attempt and nothing else |
| BackupService.UploadAnswers | ciao/backup_service.py:738-819 | every ending after the commit, field by field: the evidence of success is written exactly when something was unpushed and the push reached the remote, with the last local commit if it can be read |
| BackupService.EndingsAreNamed | ciao/backup_service.py:738-819 | what each of these endings says: what was done and the coverage gap, or why the push failed |
| BackupService.FaultAnswers | ciao/backup_service.py:621-638 | an unexpected exception stamps an attempt that needs attention and leaves no backoff |
| BackupService.DelayEndsWhenDue | ciao/backup_service.py:952-971 | the next attempt is due one interval after the last, twelve with a backoff, and at once without one or when that is past |
| BackupService.BlockersAreItemwise | ciao/backup_service.py:394-412 | the blockers that stop a run are those that are not the coverage gap, in order |
| BackupProtocol.DelayIsBounded | ciao/backup_service.py:952-971 | no delay exceeds twelve intervals, and without a backoff one |
| BackupProtocol.ScheduledRunsAreSpaced | ciao/backup_service.py:898-950 | in every run of the service, with manual runs, pauses and faults in between, the runs of the loop begin at least an interval apart, and each is asked for an interval after the one before it began |
| BackupProtocol.StepIsHonest | ciao/backup_service.py:670-819 | a repository changes only in the work of a run that found git free and no refused file, and the success evidence only with a push that landed |
| BackupProtocol.EvidenceHolds | ciao/backup_service.py:760-819 | over every history the commit named as the last success is on the remote, no local commit is lost, and nothing leaves the remote |
| BackupProtocol.SuccessIsWritten | ciao/backup_service.py:738-819 | the other direction: when git was free, the commit did not fail and the push reached the remote, the finished run has written the success, with the last local commit if it can be read, and all local commits are on the remote |
| BackupProtocol.BreakLeaves | ciao/backup_service.py:621-638 | what an unexpected exception leaves, by where it breaks in: nothing, the commit, the push, or the push with its evidence |
| BackupProtocol.LoopGoesOn | ciao/backup_service.py:898-950 | the loop sleeps until the next attempt is due, decides again after its own run, rests an interval after a refusal, and no other run moves it |
| BackupProtocol.BlockersAreTheUngapped | ciao/backup_service.py:394-412 | exactly the blockers that are not the coverage gap stop a run |
| BackupProtocol.FlagsAfter | ciao/backup_service.py:511-537 | the flags after any step: the owner's, or the answer of a setup that read a branch and a remote |
| BackupProtocol.FlagsAreDecided | ciao/backup_service.py:511-537 | over every history the backup is on only by such a decision, and only the owner changes the pause |
| BackupProtocol.FlagsFromHistory | ciao/backup_service.py:476-537 | the flags and the armed setup after any run, from the last word on each: the owner's, or a setup's that was answered while no pause stood |
| BackupProtocol.WorkIsPermittedWhen | ciao/backup_service.py:640-819 | a run that passed the gate does its work with permission exactly when the last words on switch and pause, up to the work, give it |
| BackupProtocol.UndisturbedWorkIsPermitted | ciao/backup_service.py:1043-1073 | while nobody withdraws anything it has permission, also when it was let in with the backup off |
| BackupProtocol.LookingEnablesUnlessHeld | ciao/backup_service.py:511-537 | a run let in with the backup off, and left to its setup, finds it on at its work exactly when no pause stood at the first look |
| BackupProtocol.PauseDuringTargetReadIsMissed | ciao/backup_service.py:642-668 | a pause that lands while a guided setup's first run reads its target is not obeyed: the run commits and pushes |
| BackupProtocol.LateWithdrawalIsMissed | ciao/backup_service.py:642-819 | a pause and switch-off after the target was read do not stop the commit and the push of that run |
| BackupProtocol.RowsMarkNewFailures | ciao/backup_service.py:821-896 | over every history an error row stands exactly at the start of each maximal run of equal failures with a reason, and at each failure without one |
| EntityTypes.EntryIsWellFormed | ciao/entity_types.py:377-421 | a parsed row has an id, a known kind, no negative days and no empty alias; an override states only the vault's own fields |
| EntityTypes.EntryTakesWhatTheRowStates | ciao/entity_types.py:377-421 | field by field, an entry has what its row states and the default where it states nothing; an override cannot state core or hidden |
| EntityTypes.RowIsAcceptedWhen | ciao/entity_types.py:377-460 | a row is accepted exactly when it has an id and every field that it states fits, and in a shipped file also states label, kind and enabled and no unknown key |
| EntityTypes.Merge | ciao/entity_types.py:461-485 | the loops over the dictionary of overrides compute the merge |
| EntitySave.MergeAnswers | ciao/entity_types.py:461-499 | a merge answers the stock list in its order, each entry with the last override of its id, then the other overrides |
| EntitySave.StockEntriesTakeTheirLastRow | ciao/entity_types.py:461-499 | the merge, field by field, for a stock entry: each field is that of the last row with its id where that row names the field, and the shipped one where it does not; a core entry keeps its enabled flag |
| EntitySave.CustomEntriesTakeTheirLastRow | ciao/entity_types.py:461-499 | the other entries are what the last row with their id states, over the retired category of that id where there was one, field by field |
| EntitySave.RowsKeepTheirFirstPlace | ciao/entity_types.py:461-485 | a row whose id came before takes the place of the earlier one, and a new one goes to the end |
| EntitySave.StockPartIsEdit | ciao/entity_types.py:488-499 | an override never changes an entry's id, origin, core or hidden flag, nor switches off a core entry |
| EntitySave.PersistedParts | ciao/entity_types.py:651-663 | a save keeps the changed stock entries and every custom one |
| EntitySave.SavesOnlyWhatDiffers | ciao/entity_types.py:651-663 | entry by entry: saved is what stock does not have, or has with another value in some stored field |
| EntitySave.RowsReadBack | ciao/entity_types.py:640-648 | saved rows parse as what they state, unless one has an empty label |
| EntitySave.SaveLoadFixpoint | ciao/entity_types.py:651-663 | saving a merged list and loading it gives the list back exactly when no saved row has an empty label |
| EntitySave.UnlabelledCategoryVanishes | ciao/entity_types.py:377-402 | whatever is shipped, a file that only names a new category is read as one that the next save loses |
| EntityValidation.CheckEntries | ciao/entity_types.py:769-790 | the per-entry problems of the list, all of them |
| EntityValidation.CheckFolders | ciao/entity_types.py:792-800 | the folder problems, all of them |
| EntityValidation.CheckAliases | ciao/entity_types.py:802-811 | the alias problems, all of them |
| EntityValidation.ValidateEntries | ciao/entity_types.py:742-814 | reports every problem and nothing else, and none exactly for a coherent list |
| EntityValidation.FirstComesBefore | ciao/entity_types.py:769-811 | the entry that a problem names is the first with that id, folder or alias |
| EntityValidation.CoherentHasNoProblem | ciao/entity_types.py:742-814 | coherence is one statement about entries and pairs of entries |
| EntityValidation.EntityTypeRegistry.constructor | ciao/entity_types.py:224-250 | the lookups are those of the enabled entries, with the legacy folders underneath |
| EntityValidation.AliasesResolve | ciao/entity_types.py:234-238 | on a coherent list every alias of an enabled entry resolves to that entry, and nothing else resolves |
| EntityValidation.FoldersResolve | ciao/entity_types.py:242-245 | the same for folders |
| EntityValidation.LaterEntriesWin | ciao/entity_types.py:234-245 | in any list, coherent or not, an alias or folder belongs to the last enabled entry that claims it |
| EntityValidation.CoherentInAnyOrder | ciao/entity_types.py:742-814 | coherence does not depend on the order of the entries |
| EntityValidation.LookupsIgnoreOrder | ciao/entity_types.py:224-250 | nor do the lookups |
| EntityValidation.ParsePayload | ciao/entity_types.py:705-739 | refuses a malformed row and a repeated id, which it names, and otherwise answers the merge, stock entries the list omits included |
| EntityValidation.AcceptedListIsServed | ciao/entity_types.py:844-869 | an accepted list is served again unchanged after it is saved |
| EntityValidation.ShippedIsSound | ciao/stock/entity-types.yaml:28-111 | the two shipped files parse as the lists that they spell, with distinct ids, and are what the theorems ask for |
| RulesFence.HereFacts | ciao/decision_rules.py:43-44 | a marker starts at its only `<`, ends at a `>`, and has the name inside |
| RulesFence.SameHere | ciao/decision_rules.py:43-44 | a marker depends only on its own characters |
| RulesFence.MovedHere | ciao/decision_rules.py:43-44 | and not on where it stands |
| RulesFence.MarkerIs | ciao/decision_rules.py:43-44 | a marker is recognised exactly where the two patterns match, with the end and the fingerprint that they give |
| RulesFile.OpenMarkerHere | ciao/decision_rules.py:540 | the opening marker as it is written is recognised as one, with its fingerprint |
| RulesFile.CloseMarkerHere | ciao/decision_rules.py:42 | and so is the closing one |
| RulesFile.SplicedParses | ciao/decision_rules.py:418-425 | a section between markers in a text without any is found again, with its fingerprint |
| RulesFile.FenceIsWhole | ciao/decision_rules.py:418-425 | a text has a fence exactly when one opening and one closing marker stand in it, in this order, and none exactly when no marker does |
| RulesSection.WriteThenRead | ciao/decision_rules.py:428-454 | reading after writing gives the body in the file's line ends, its fingerprint and its rules, and the operator's text as it was |
| RulesSection.TextThatIsWritten | ciao/decision_rules.py:527-556 | the whole text after a write: the block in place of the old one, at the end behind an empty line, or under the header of a new file |
| RulesSection.LastRuleCounts | ciao/decision_rules.py:428-454 | of several lines with a rule for one key the last is the one that is read |
| RulesSection.SecondWriteIsQuiet | ciao/decision_rules.py:527-556 | writing the same section again changes nothing, unless the first write appended to a text that ends in a lone carriage return |
| RulesSection.LoneReturnChangesTwice | ciao/decision_rules.py:527-556 | a file that ends in a lone carriage return, which two identical writes of a body that passes both lints change twice |
| RulesSection.ServedUnlessCrlf | ciao/decision_rules.py:569-588 | the prompt is shown the section that was written, exactly when the file has no `\r\n` line ends or the section one line |
| RulesSection.WindowsFileIsNotServed | ciao/decision_rules.py:569-588 | a file with `\r\n` line ends and a body that passes both lints, whose section the reader then refuses |
| RulesSection.LeanIsUsersShare | ciao/decision_rules.py:193-206 | a group leans to keep, or to drop, exactly when at least four decisions are the user's own and three quarters of them went that way, in whatever order and beside whatever an agent relayed |
| RulesSection.Lint | ciao/decision_rules.py:497-524 | accepts exactly the rule lines that keep or approvedly flip their verdict and, when new, follow their group or are a supported theme |
| RulesSection.BodyPassesWhen | ciao/decision_rules.py:457-494 | the first lint passes exactly a body within the cap, without unsafe characters or the marker's name, whose lines are blank, one of the three headings or a well-formed rule, no two for one key |
| RulesSection.RulesAreAcceptedWhen | ciao/decision_rules.py:497-524 | the second lint passes exactly rules that each stand on their own, by flip approval, group or cited theme, with at most three themes that the file did not have |
| RulesSection.RulesNote.WriteManaged | ciao/decision_rules.py:527-556 | writes exactly a body that passes both lints into a file whose fence is whole; anything else changes nothing |
| RulesSection.StaleAfterWrite | ciao/decision_rules.py:395-402 | after a write the kind is due again only with enough votes and another fingerprint |
| AppSettings.StableIffCanonical | ciao/app_settings.py:315-367 | what is written is read back unchanged exactly when every part is in the form reading gives it |
| AppSettings.TextsAreTaken | ciao/app_settings.py:315-367 | which text each setting takes from a file, and when it takes none |
| AppSettings.MapsAreTaken | ciao/app_settings.py:315-367 | which entries the maps take from a file: known providers with a model that is not blank, a mode that exists, no retired insights model |
| AppSettings.NothingMeansDefaults | ciao/app_settings.py:315-367 | what a file without any setting means |
| AppSettings.ParsedIsCanonical | ciao/app_settings.py:315-367 | everything that is read is in that form |
| AppSettings.RoundedScaleIsStable | ciao/app_settings.py:279-290 | a valid font scale rounds to its step, which is valid and its own rounding |
| AppSettings.ScaleIsAStep | ciao/app_settings.py:279-290 | a valid font scale is at one of the fifteen steps from 0.8 to 1.5, but for a trace, and rounds to it |
| AppSettings.UpdateKeepsCanonical | ciao/app_settings.py:470-587 | an accepted update keeps it |
| AppSettings.UpdateSetsWhatItNames | ciao/app_settings.py:470-587 | after an accepted update each key it names holds what it gave, and every other setting is kept; only the insights models lose their retired ones |
| AppSettings.UpdateIsAcceptedWhen | ciao/app_settings.py:470-587 | an update is accepted exactly when each of its values is acceptable for its key |
| AppSettings.ImportKeepsCanonical | ciao/app_settings.py:627-663 | the import keeps it exactly when the resolved checkout path has no white space at its ends |
| AppSettings.ImportTakes | ciao/app_settings.py:627-663 | the import happens once; it takes each legacy value that is there and valid, and keeps every other setting |
| AppSettings.LoadedIsCanonical | ciao/app_settings.py:385-408 | loading gives it, exactly unless the old global choice was a retired model for a provider that has none |
| AppSettings.MigrationMoves | ciao/app_settings.py:385-408 | the retired global choice goes to the provider that it names, or else to Claude, if that provider is known and has none; nothing else changes |
| AppSettings.SettingsSurviveRestart | ciao/app_settings.py:439-468 | from any file, after any updates and imports, a restart finds the settings as they were, exactly when the checkout path has no white space at its ends and no retired model is among the insights models |
| AppSettings.TidyHistoriesSurvive | ciao/app_settings.py:439-468 | which is so after any history whose file brings no retired model and whose imports, if any, resolve to a path without such white space |
| AppSettings.ImportedPathIsCutShort | ciao/app_settings.py:656-659 | an imported path that resolves to one ending in a space is another path at the next start |
| AppSettings.AppleIsDroppedNextTime | ciao/app_settings.py:385-408 | the old value `opencode:apple` is moved in by one start and dropped by the next |
| AppSettings.AppSettingsStore.constructor | ciao/app_settings.py:431-458 | loads the file, and rewrites it after a migration |
| AppSettings.AppSettingsStore.Update | ciao/app_settings.py:470-587 | takes every key or none, and a refused update leaves memory and file as they were |
| AppSettings.AppSettingsStore.ImportLegacyEnv | ciao/app_settings.py:627-670 | imports once, and records that it did |
| AppSettings.AppSettingsStore.ApplyToConfig | ciao/app_settings.py:672-724 | the first call keeps the default models it finds and alone sets address and log level; every call sets development mode, the resolved checkout, the four maps by provider and the models |
| AppSettings.ModelsAfterOverlays | ciao/app_settings.py:679-724 | however often the overrides changed, each provider ends with its last override, or with the model it had before the first call |
| BackupScope.RemainderIsDrop | ciao/backup_scope.py:474-481 | on clean paths the string test is the prefix of segments |
| BackupScope.CheckEligible | ciao/backup_scope.py:537-554 | the loop over the bases computes eligibility |
| BackupScope.EligibleRelpaths | ciao/backup_scope.py:271-296 | the reported list is what each base lists, then the allowed files |
| BackupScope.ReportedIsEnforced | ciao/backup_scope.py:537-673 | a path is eligible exactly when it is outside the transcript archive and is an allowed file, or fits a listed prefix and passes the denials below its base |
| BackupScope.EligibleWhen | ciao/backup_scope.py:537-673 | on the whole path: outside the transcript archive, the schedule store and what a base takes, which is nothing with a refused name, file or suffix, and by kind any note, the four trees and the guide, or these one level down without archived transcripts |
| BackupScope.ShownBaseByBase | ciao/backup_scope.py:271-296 | what each kind of base shows, spelled out, one base after the other |
| BackupScope.RefusedDirectoriesStayShut | ciao/backup_scope.py:579-590 | inside a refused directory that holds no base only the allowed files are eligible |
| BackupScope.Classify | ciao/backup_scope.py:338-365 | each half is the deduplicated input that the predicate sends there, in the order of the input |
| BackupScope.ClassifySplits | ciao/backup_scope.py:338-365 | every label of the input is in exactly one half, once |
| BackupScope.ClassifiedOneByOne | ciao/backup_scope.py:338-365 | a path whose label came before changes nothing; any other goes to the end of one half, spelled as the caller gave it when it is outside the data root |
| BackupScope.DroppedHasKeptEncloser | ciao/backup_scope.py:450-460 | a candidate that is dropped lies in a durable tree of a base that is kept |
| BackupScope.BasesAreThese | ciao/backup_scope.py:436-471 | a candidate is a base exactly when it lies in no durable tree of another candidate |
| BackupScope.DroppedBaseIsCovered | ciao/backup_scope.py:436-471 | a base takes what a dropped base of any kind inside its durable tree would have, exactly when no directory between the two has a refused name and, for the archive, the file has its shape |
| BackupScope.DroppedBaseIsBackedUpWhen | ciao/backup_scope.py:436-554 | which files of a dropped base, vault, agent root or archive, are still eligible in the scope of kept bases, exactly: the allowed ones and those outside the transcript archive with no refused name in between; around them the folder of archived workspaces also needs its own shape or another base that reaches past it |
| BackupScope.VaultNamedBuildIsNotBackedUp | ciao/backup_scope.py:436-471 | with the install root as agent root, a note of a vault in `memory-vault/build` is not eligible |
| CliEnvelopes.LeadingMatches | ciao/cli_envelopes.py:210-221 | the notifications used are the leading run |
| CliEnvelopes.LeadingFromIsRun | ciao/cli_envelopes.py:210-221 | that run is the longest prefix that only white space separates |
| CliEnvelopes.TaskStatusesFromBody | ciao/cli_envelopes.py:262-276 | the loop over the fields computes the scan |
| CliEnvelopes.StatusesFollowIds | ciao/cli_envelopes.py:262-276 | each id has the first status after it, or the last one known |
| CliEnvelopes.EachIdHasItsStatus | ciao/cli_envelopes.py:262-276 | a task has the text of the first status field after it, or else of the last before it, with the defaults for a blank one and for none |
| CliEnvelopes.DefaultIsLastStatus | ciao/cli_envelopes.py:279-289 | the default is the last status field of the notification, or completed |
| CliEnvelopes.TaskIdsAreFieldwise | ciao/cli_envelopes.py:228-235 | the ids are the stripped texts of the task fields, without blank ones and sentinels, in order |
| CliEnvelopes.FieldsAreReadBack | ciao/cli_envelopes.py:77 | fields written one after another are read back |
| CliEnvelopes.RecordIsReadBack | ciao/cli_envelopes.py:210-298 | a record of notifications separated by white space is read back whole by both readers, whatever follows them |
| CliEnvelopes.ReadersAgree | ciao/cli_envelopes.py:279-298 | for every record the statuses and the ids name the same tasks in the same order |
| CliEnvelopes.StripInjectedContext | ciao/cli_envelopes.py:146-154 | the loop ends with no leading capsule, or with the record itself when it holds nothing else |
| CliEnvelopes.CapsulesGo | ciao/cli_envelopes.py:146-154 | a leading capsule goes up to its first end mark, one after another, and a text without one stays |
| CliEnvelopes.StrippingIsIdempotent | ciao/cli_envelopes.py:146-154 | stripping twice is stripping once |
| AgentPaths.JavaStringHash | ciao/agent_paths.py:33-39 | the hash masked at every step is the polynomial in 31 modulo the word, read as an int32 |
| AgentPaths.UnitsAreUtf16 | ciao/agent_paths.py:33-39 | the hash is over UTF-16 units: a character beyond the basic plane is a high and a low surrogate that give it back |
| AgentPaths.Base36 | ciao/agent_paths.py:42-48 | the digits have the number as their value, no leading zero, and are at most six below 36 to the sixth |
| AgentPaths.CanonicalIsUnique | ciao/agent_paths.py:42-48 | and they are the only such digits |
| AgentPaths.ClaudeProjectSlug | ciao/agent_paths.py:51-57 | at most 207 letters, digits and `-`; each of the first 200 characters is kept or becomes `-`, and a longer path also has its hash |

## Left out

- Resume equivalence is proved for executors that read only results of nodes upstream of their own, and for
  checkpoint writes that either happen whole or not at all; node timing and the job rows of a DAG run are left out.
- Pool shutdown, `close`, a `submit` that raises, and a loop that closes while a coroutine still waits on it.
- Fairness between callers that wait for a slot: the code promises no order. Proved are the safety form of the
  wake-up, and that everybody is served once nothing new arrives and the workers finish.
- `keyed_lock` and the logging of worker failures.
- What ran inside a node (shell, prompt, gate, subagent) and the recursion limit of the search.
- The scanners that produce curation items, their order by pass, and the week rule: items are an arbitrary sequence.
- Lease holders are distinct names; `begin_run` without one makes a name from host and process that is not modelled,
  and an unreadable state file counts as empty.
- The state file, the settings file, the rules file and the vault's category file are assumed to be replaced
  atomically and to read back what was written; a failed write (`OSError`) is not modelled.
- YAML, JSON, hashing and URL parsing: values arrive parsed, a fingerprint is a function of the decision rows, and a
  remote is the sanitized string.
- Git: commit, push and preflight are answers with the contract of `Repository.Push`; HEAD is assumed to stay where
  the push left it until it is read.
- Cancellation of a backup run, the stop event, an unreadable attempt stamp, and the status read's own answer.
- A row of a category list that is not a mapping, and a key that is not a string: rows are maps.
- Registry views other than aliases and folders (stale thresholds, orphan folders), and the file's header and mode.
- Decision digests: grouping and excerpts are left out, and the groups are given to the lint; the rule pattern, the key patterns
  and the unsafe characters are parameters, of which only that the carriage return is unsafe is used.
- Text beyond ASCII in `lower()` and `isdigit()`, lone surrogates in a path, and binary rounding of the font scale,
  which is taken over the reals.
- The settings' appearance payload, the backup seed of a new install, and providers that a configuration lacks.
- Symlinks and path resolution: the scope is given clean relative paths, and the order of its bases is arbitrary,
  since eligibility does not depend on it.
- Summaries, labels and prose of statuses, other envelopes than task notifications, and everything of the program
  that is not named above.
