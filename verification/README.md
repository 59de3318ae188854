# Verified model of the collaboration, build and project-analysis core

The repository lets several people write a LaTeX project together: each member works on private drafts and
staged file operations, publishes them atomically into a shared table and an append-only event log, has the
result compiled by a leased job queue with an exact-state build scheduler, and can restore earlier versions.
This project models that logic in Dafny and proves what keeps it right over every input and every run.

`dafny verify dfyconfig.toml` checks everything.

## How the code is represented

* One database transaction is one atomic step. Tables are maps or sequences; a step that fails leaves them as they
  were. A class holds the tables, its methods perform the updates statement by statement, and each method is proved
  equal to a function of the old state (`TeamProject`, `CompileQueue`, `PaperStore`, `CycleDetector`). The theorems
  are about those functions.
* Paths are strings ordered by character, the order of `BTreeMap`, `sort` and, here, of `ORDER BY logical_path`
  whatever the database collation. Blob hashes are opaque strings. Time is a natural number that never goes back.
* Rows with generated identifiers are identified by their position; generated identifiers never repeat, and the
  idempotency keys the scheduler makes up from them are nobody else's.
  `SKIP LOCKED` is an arbitrary set of skipped rows. The order in which the database returns unordered rows is arbitrary.
* Permissions are a set of grants handed to each step, so every theorem holds for every way of granting them.
* Random draws, fresh identifiers and the directory listing of a finished compilation are inputs.
* A revision that no longer fits a signed 64-bit column is an error result; other numbers are unbounded.

## What is proved, in short

* **Projection, table and log agree.** Every projection that succeeds is well formed. A publication makes the
  canonical table exactly the live projected tree with the right revisions, and the one event it appends, although
  reordered and collapsed, replays in a strict reader to the same contents. Over any run by any members the whole log
  is accepted, equals the table, and Main never dangles. A validated publication cannot hit a key collision.
* **A publication is decided exactly.** It goes through if and only if the tree can be projected and shows a change, every
  row is as it was captured, every new path is free, every needed grant is there, no touched path is protected, Main may
  move, and no revision counter is used up; a rejection reports exactly the objections. The same is stated for saves,
  staged operations and single drafts.
* **Edits keep their text.** Every projected file shows its row or a draft of its own; a saved text is what publication
  writes to the table and to the log, over every run, unless the file was deleted or another draft of the member lands
  in it.
* **Outdated work never publishes.** A draft of an older revision, or a rename or delete that recorded one, keeps its
  change set from being published in every run. Whether private work can be projected is decided without running the
  draft loop, for every table, drafts and operations: every waiting draft over a deleted file must find a live file at
  its path, or one that came from there and still carries its base revision when its turn comes. From this follow, for
  every accepted rename, delete and save, the exact conditions under which the tree stays projectable, each read off the
  work before the step, and concrete cases that break it.
* **Policies and safeguards.** The chosen rule does not depend on row order, and no run of manager calls makes a path
  weaker than its template made it. Publications cannot touch protected rows or move a locked Main.
* **Queue and scheduler.** Caps, retry budgets and leases hold in every reachable state; a live lease is exclusive;
  cancellation is final; work is bounded without submissions; the scheduler row is consistent in every run,
  restorations, cancellations and edits included. Every outcome has a cause: an attempt whose lease runs out is retried
  until the budget is spent, and no job succeeds, times out or fails otherwise unless its worker reported that. Every
  build compiles the inputs of a request for exactly its state. When a workspace's builds have all succeeded its current build is the
  desired one, and after a restoration exactly if the restored state was shown or being built at that moment.
* **Dependencies.** Every cycle passes through a reported file and every reported file lies on a cycle; the
  reachability loop computes exactly what Main leads to; normalization is idempotent and composes, a name and the `..`
  after it cancel, and a reference means the file beside, above or below the one it is written in.
* **Restoration** reaches the recorded identities exactly when the chosen ids are injective and not foreign, and
  restoring the safety version undoes it. **Artifacts** are collected exactly when the output tree is acceptable.
  **Passwords** are the drawn characters under the drawn swaps, without bias, and every arrangement is possible.

Four points where the code and a natural reading of it differ, and the model follows the code:

* A delete, a rename or a save can be accepted although the private tree cannot be projected afterwards
  (`Examples.StagingCanBreak`, `StagingExamples.RenameCanBreak`, `StagingExamples.SavingCanBreak`,
  `SavingExamples.CreatingCanBreak`, `SavingExamples.ForgettingCanBreak`; the exact conditions are
  `StagingExact.StagedFitsExactly` and `SavingExact.SavedFitsExactly`). Saving a new file, for one, keeps the tree
  projectable exactly if no staged move went to its path.
* An edit can be lost: if a moved file has drafts both at its old and at its new path, the one whose path comes later is
  merged last, be it the older, and publication then drops the other (`LostEdits.NewerEditIsLost`; exactly when,
  `PublishedTexts.DraftsAreShown` and `PublishedTexts.OverwrittenShowsLast`).
* A restoration names a desired state without starting a build, so a workspace may be quiet without being up to date
  until the next submission (`SchedulerRestoration.QuietButOutdated`; exactly when, `SchedulerRestoration.RestoredConverges`).
* Cancelling the job of an active build leaves the build active. It stays so in exactly the runs in which the workspace
  is not restored, no submission is answered with an earlier build, and no other build of the workspace ends
  (`SchedulerCancellation.CancelledStaysActive`); if it is the only build there, only a restoration helps
  (`SchedulerCancellation.OnlyBuildStaysActive`). Two steps lead there (`SchedulerCancellation.CancelledOnce`).

## Model

| member | source | states |
|---|---|---|
| Workspace.ReplayMainAgrees | crates/workspace/src/state.rs:101-211 | On every log the strict reader accepts, the Main-only replay used while publishing finds the same Main, and it names a file |
| Workspace.ApplyAllTracksMain | crates/workspace/src/state.rs:149-199 | Within one event the reader's Main moves exactly with the operations that set, rename or delete it |
| Workspace.AppliesExactly | crates/workspace/src/state.rs:149-199 | The reader accepts exactly the operations whose file exists and whose new path is free, and changes only the paths they name |
| Workspace.AcceptedLogsAreLegal | crates/workspace/src/state.rs:101-211 | The accepted logs are exactly those in which every event did something, was legal operation by operation when appended, and left no dangling Main |
| Workspace.FindMain | crates/persistence/src/collaboration.rs:2238-2285 | The nested loops over events and operations compute the replayed Main of any log |
| Projection.PrivateWorkingTree | crates/persistence/src/collaboration.rs:1593-1845 | The loops that mutate the file vector, the consumed drafts and the pending Main compute the projection, error cases included |
| Projection.LoadRows | crates/persistence/src/collaboration.rs:1598-1626 | One unchanged file per canonical row, in path order |
| Projection.LoadDrafts | crates/persistence/src/collaboration.rs:1627-1651 | Drafts of files that never existed become added files and are consumed, unless a file already has the path |
| Projection.RenameOne | crates/persistence/src/collaboration.rs:1669-1712 | One staged rename: a draft-only source, a taken destination, the captured revision, pending Main following, or its error |
| Projection.DeleteOne | crates/persistence/src/collaboration.rs:1713-1752 | One staged delete: an added file goes, a canonical one is marked, pending Main is protected, or its error |
| Projection.ApplyOne | crates/persistence/src/collaboration.rs:1669-1755 | One staged operation of any kind |
| Projection.MergeOne | crates/persistence/src/collaboration.rs:1763-1806 | A waiting draft goes to the first live file at its path or still carrying its origin and base, conflicts over a deleted path, or adds a file |
| Projection.MergeDrafts | crates/persistence/src/collaboration.rs:1763-1807 | All waiting drafts in path order, stopping at the first conflict |
| ProjectionFacts.ProjectWellFormed | crates/persistence/src/collaboration.rs:1634-1844 | For every table, draft set and operation stream: live paths are unique, each canonical row is the origin of exactly one file, added files are never renamed, modified or deleted, pending Main is live, the files are sorted and the summary counts them |
| ProjectionFacts.StepWellFormed | crates/persistence/src/collaboration.rs:1669-1755 | Every operation that succeeds keeps that invariant |
| ProjectionFacts.OverlayWellFormed | crates/persistence/src/collaboration.rs:1763-1806 | Every merged draft keeps that invariant and never touches pending Main |
| ProjectionRefusals.StepRefusals | crates/persistence/src/collaboration.rs:1669-1752 | An operation is refused exactly for a missing source, or else for a taken destination or a delete of pending Main |
| ProjectionRefusals.ProjectRefusals | crates/persistence/src/collaboration.rs:1593-1813 | Every failed projection names its cause: an operation that fails where the others led, or a draft or Main without a place |
| ProjectionRefusals.PendingMainFollows | crates/persistence/src/collaboration.rs:1709-1752 | Pending Main keeps its file through every operation: it moves with its rename and is never deleted |
| ProjectionRefusals.SummaryIsRight | crates/persistence/src/collaboration.rs:1815-1844 | The summary counts each changed file once, as deleted, new, moved or edited |
| DraftTexts.ConsumedShows | crates/persistence/src/collaboration.rs:1634-1736 | A draft the operations used as a new file is shown by one, unless an operation deleted it |
| DraftTexts.LoopTexts | crates/persistence/src/collaboration.rs:1763-1806 | After every prefix of the drafts each file shows the last draft it took, and its own text if it took none |
| PublishedTexts.EveryTextIsRight | crates/persistence/src/collaboration.rs:1634-1806 | Every file of every tree: a new one shows a draft, a modified one the draft at its path or old path, any other its row |
| PublishedTexts.DraftsAreShown | crates/persistence/src/collaboration.rs:1627-1806 | Every draft is shown, unless an operation deleted its new file or its file took another draft after it |
| PublishedTexts.OverwrittenShowsLast | crates/persistence/src/collaboration.rs:1772-1787 | A file that takes two drafts shows the one whose path comes last |
| TeamProjects.TeamProject.FindFileConflicts | crates/persistence/src/collaboration.rs:1164-1242 | Collects, file by file, every stale source, taken destination, missing permission and protected path |
| TeamProjects.TeamProject.FindMainConflicts | crates/persistence/src/collaboration.rs:1259-1292 | Collects a locked Main, a missing set-main permission and a Main that names no live file |
| TeamProjects.TeamProject.DeleteRows | crates/persistence/src/collaboration.rs:1304-1318 | First pass over the table: exactly the deleted files' rows go, one delete operation and one change each |
| TeamProjects.TeamProject.MoveRows | crates/persistence/src/collaboration.rs:1319-1344 | Second pass: renamed rows move with the next revision, a plain insert fails on a taken key, a modified one is also put |
| TeamProjects.TeamProject.WriteRows | crates/persistence/src/collaboration.rs:1345-1366 | Third pass: modified files get the next revision and added ones revision 1 |
| TeamProjects.TeamProject.CommitTree | crates/persistence/src/collaboration.rs:1304-1389 | The validated part as one transaction: three passes, one event, next generation, private work dropped; any failed statement changes nothing |
| TeamProjects.TeamProject.PublishChanges | crates/persistence/src/collaboration.rs:1129-1389 | publish_change_set on the tables equals its specification in outcome and in every field |
| TeamProjects.TeamProject.PublishOneDraft | crates/persistence/src/collaboration.rs:1050-1120 | publish_draft on the tables equals its specification: one row, one event, one draft removed, or nothing |
| TeamProjects.TeamProject.StageOperation | crates/persistence/src/collaboration.rs:1456-1555 | stage_structural_operation accepts or refuses as specified and changes only the member's operations |
| TeamProjects.TeamProject.SaveMemberDraft | crates/persistence/src/collaboration.rs:995-1048 | save_draft_with_revision accepts or refuses as specified and changes only the member's drafts |
| TeamProjects.TeamProject.SetFilePolicy | crates/persistence/src/collaboration.rs:1391-1423 | Accepts, from callers granted project management, exactly existing files whose template floor is met, or any from an administrator, and writes one rule |
| PublishFacts.NoConflictMeansClean | crates/persistence/src/collaboration.rs:1165-1199 | Without a conflict every captured revision is the stored one and every new destination is free |
| PublishFacts.EmitPlaces | crates/persistence/src/collaboration.rs:1308-1366 | After every single update each file is either still in its old row or, if live, in its new one, and no other row exists |
| PublishFacts.EmitOnlyOverflows | crates/persistence/src/collaboration.rs:1319-1361 | On a validated tree no pass can meet a taken key or a missing origin; only an exhausted revision counter stops it |
| PublishFacts.EmitReplays | crates/persistence/src/collaboration.rs:1316-1364 | After every single update the operations so far replay, strictly, to the table's contents |
| PublishFacts.AllPassesSound | crates/persistence/src/collaboration.rs:1304-1366 | Both facts hold after all three passes |
| PublishFacts.FinishedTable | crates/persistence/src/collaboration.rs:1304-1366 | The final table is exactly the live tree: untouched rows keep their revision, moved or modified ones advance it once, added ones start at 1 |
| PublishFacts.ChangesMatchSummary | crates/persistence/src/collaboration.rs:1305-1366 | The published change count is the summary total without the Main bit |
| ProjectRuns.PublishRefinesProjection | crates/persistence/src/collaboration.rs:1129-1389 | A published change set makes the table the live projection, counts its changes, appends one event that keeps log and table equal, clears only the caller's private work |
| ProjectRuns.RefusedPublishChangesNothing | crates/persistence/src/collaboration.rs:1129-1303 | A refused publication leaves all state unchanged, and is never a key collision or a missing row |
| ProjectRuns.EventAccepted | crates/persistence/src/collaboration.rs:1367-1371 | The whole event, Main operation included, is accepted by the strict reader and yields the new contents |
| ProjectRuns.PublishDraftAgrees | crates/persistence/src/collaboration.rs:1050-1120 | Publishing one draft keeps log and table equal, and changes nothing otherwise |
| PublicationRules.PublishedExactly | crates/persistence/src/collaboration.rs:1129-1389 | From any state and for any grants a change set is published if and only if it can be projected, shows a change, is current, meets free paths, has its grants, touches no protected path, may move Main as it asks and overflows no counter |
| PublicationRules.RejectedExactly | crates/persistence/src/collaboration.rs:1164-1303 | A rejection reports exactly the objections, each with its reason, path and destination |
| PublicationRules.FailedExactly | crates/persistence/src/collaboration.rs:1129-1163 | Any other refusal is for an unprojectable tree, nothing staged, or a used-up counter, and says which |
| PublicationRules.PublishedWasGranted | crates/persistence/src/collaboration.rs:1201-1222 | Published deletes, new files, moves, changed contents and a staged Main each had their grants at that moment |
| PublicationRules.TableChangesWereGranted | crates/persistence/src/collaboration.rs:1201-1222 | The same off the two tables: no row goes, appears or changes content without a grant for it, and without the write grant no new text enters |
| PublishedTexts.PublishedDraftsAreKept | crates/persistence/src/collaboration.rs:1129-1389 | Every draft of a published change set is in the table and in the replayed log with its text, unless it was deleted or overwritten |
| SavedEdits.UnmovedDraftShows | crates/persistence/src/collaboration.rs:1627-1806 | A draft at a path that no operation names is shown at that path, whatever else is private |
| SavedEdits.SaveReplacesDraft | crates/persistence/src/collaboration.rs:1035-1047 | An accepted save replaces that draft with the new base and text, one revision up, and nothing else |
| SavedEdits.SavedTextIsPublished | crates/persistence/src/collaboration.rs:995-1389 | Over every run after an accepted save, a publication puts exactly the saved text at that path, in table and log, unless the member saved, published or restructured it in between |
| SavedEdits.DraftPublishedExactly | crates/persistence/src/collaboration.rs:1050-1120 | One draft is published if and only if it may be, exists, and was edited from the row as it is; exactly that row and draft change |
| SavedEdits.DraftRefusals | crates/persistence/src/collaboration.rs:1050-1090 | Every refusal to publish a draft names what is wrong with it |
| LostEdits.NewerEditIsLost | crates/persistence/src/collaboration.rs:1763-1806 | A file is edited, moved and edited again; the second edit is accepted, and publication writes the first |
| ProjectRuns.RunAgrees | crates/persistence/src/collaboration.rs:995-1555 | Over every run of saves, stagings, draft and change-set publications and policy changes by any members: the log is accepted, rebuilds the table, and Main is unset or names a canonical file |
| StaleDrafts.ProjectedBase | crates/persistence/src/collaboration.rs:1776-1787 | A draft at a canonical path that no operation names fixes the revision that path was edited from |
| StaleDrafts.StaleDraftNeverPublishes | crates/persistence/src/collaboration.rs:1165-1182 | A change set with such a draft and an outdated base is never published, and table, log, drafts and operations stay as they were |
| StaleDrafts.DeleteUnderDraftBreaks | crates/persistence/src/collaboration.rs:1788-1792 | Deleting an unmoved file under its own draft is accepted and always leaves an unprojectable tree |
| StaleOperations.StepsTrail | crates/persistence/src/collaboration.rs:1700-1751 | Every row's file is where its own operations led it, with the revision they recorded last, whatever others did |
| StaleOperations.MissingRowRefuses | crates/persistence/src/collaboration.rs:1672-1679 | Over a table without the row, operations that touched its file do not apply |
| StaleOperations.PublishedOperationWasCurrent | crates/persistence/src/collaboration.rs:1165-1182 | A published rename or delete recorded the revision of the row it was published over |
| StaleOperations.StaleOperationNeverPublishes | crates/persistence/src/collaboration.rs:1165-1182 | In every run after an accepted rename or delete, once the row has another revision or is gone, the change set is not published and nothing changes, as long as no draft sets that file's revision |
| AccessRules.DeleteAcceptedExactly | crates/persistence/src/collaboration.rs:1456-1555 | A delete is staged if and only if the file is visible, not pending Main, and may be deleted and written |
| AccessRules.RenameAcceptedExactly | crates/persistence/src/collaboration.rs:1456-1555 | A rename is staged if and only if the file is visible, the new path free, and both may be written |
| AccessRules.SetMainAcceptedExactly | crates/persistence/src/collaboration.rs:1456-1520 | A Main is chosen if and only if the file is visible, Main is not locked and the grant is there |
| AccessRules.StagedIsRecorded | crates/persistence/src/collaboration.rs:1517-1545 | The one operation appended records the file's revision as seen; a choice of Main replaces earlier ones |
| AccessRules.StageRefusals | crates/persistence/src/collaboration.rs:1456-1545 | Every refusal of a request names what is wrong with it |
| AccessRules.SaveAcceptedExactly | crates/persistence/src/collaboration.rs:995-1048 | A save is accepted if and only if it may be, nothing from the path was deleted or moved, the expected draft is the current one and the numbers fit |
| AccessRules.SaveRefusals | crates/persistence/src/collaboration.rs:995-1048 | Every refusal of a save names what is wrong with it |
| Examples.StagingCanBreak | crates/persistence/src/collaboration.rs:1456-1555 | A concrete project in which that happens |
| Examples.EditPublishes | crates/persistence/src/collaboration.rs:1129-1389 | A lone edit of a current file publishes as one change, with the next revision and one event, so the publication theorems are not vacuous |
| Safeguards.ProtectedRowsSurvive | crates/persistence/src/collaboration.rs:1224-1241 | Without the protected-write grant a publication leaves the row at every non-editable path, present or absent, exactly as it was |
| Safeguards.LockedMainStays | crates/persistence/src/collaboration.rs:1243-1292 | While Main is locked a publication leaves it where it is or deletes its file; it never moves |
| Safeguards.SecondTabIsRefused | crates/persistence/src/collaboration.rs:1035-1045 | Of two saves that expect the same draft revision at most one is accepted, over every run in between that does not publish the draft |
| Staging.SetMainStaysProjectable | crates/persistence/src/collaboration.rs:1507-1555 | An accepted choice of Main always leaves a projectable tree with the same files and that Main |
| DraftMerging.TurnExactly | crates/persistence/src/collaboration.rs:1772-1806 | At its turn a draft conflicts exactly when a deleted file sits at its path and no live file is there or came from there with the revision it then carries, a draft at its new path having overwritten it if that came first |
| DraftMerging.LoopExactly | crates/persistence/src/collaboration.rs:1763-1807 | The merged prefix of the drafts and what it left, file by file, for every well-formed view |
| DraftMerging.MergingExactly | crates/persistence/src/collaboration.rs:1763-1807 | Merging succeeds if and only if every waiting draft is housed, and then shows exactly the live files and the drafts no file took |
| StagingExact.ProjectsExactly | crates/persistence/src/collaboration.rs:1593-1845 | For every table, drafts and operations the projection succeeds if and only if the operations apply, every waiting draft is housed and pending Main appears |
| StagingExact.StagedFitsExactly | crates/persistence/src/collaboration.rs:1456-1555 | Every accepted rename or delete leaves a projectable tree if and only if its source is a file or a new draft, every draft waiting over a deleted file still finds one that takes it given the revision the operation records, and none takes a draft that is pending Main |
| StagingExamples.RenameCanBreak | crates/persistence/src/collaboration.rs:1521-1541 | An accepted rename after which the tree cannot be projected: it records the base of the draft at the new path |
| NewFiles.AddingFile | crates/persistence/src/collaboration.rs:1627-1755 | One more draft of a new file: operations that apply without it apply with it if and only if none moves a file to its path |
| NewFiles.RemovingFile | crates/persistence/src/collaboration.rs:1627-1755 | One such draft less: operations that apply with it apply without it if and only if none renames or deletes the file at its path |
| SavingExact.SavedFitsExactly | crates/persistence/src/collaboration.rs:995-1048 | Every accepted save leaves a projectable tree if and only if: for a draft that becomes one of a new file, no staged move went to its path; for one that ceases to be, no staged operation took the file it made; otherwise, and at a row's path, no operation used the old draft as a new file that the new one is not, and the view before the save coheres with the new drafts |
| SavingExamples.CreatingCanBreak | crates/persistence/src/collaboration.rs:1690-1697 | An accepted save of a new file after which the tree cannot be projected: an earlier move went through its path |
| SavingExamples.ForgettingCanBreak | crates/persistence/src/collaboration.rs:1674-1689 | An accepted save that gives a moved new file a base, after which the tree cannot be projected |
| StagingExamples.SavingCanBreak | crates/persistence/src/collaboration.rs:1776-1787 | An accepted save after which the tree cannot be projected: it overwrites the revision another draft looks for |
| FilePolicies.SelectRule | crates/persistence/src/collaboration.rs:2132-2170 | The scan finds the exact rule, else a governing rule with the longest prefix, and finds none only if none governs |
| FilePolicies.GovernsExactly | crates/persistence/src/collaboration.rs:2155-2166 | A directory rule governs exactly the paths below the directory |
| FilePolicies.DecidesUnique | crates/persistence/src/collaboration.rs:2132-2170 | At most one rule decides a path |
| FilePolicies.ChoiceIgnoresRowOrder | crates/persistence/src/collaboration.rs:2132-2170 | Any listing of the same rules decides every path alike |
| FilePolicies.PolicyForPath | crates/persistence/src/collaboration.rs:2132-2170 | The effective policy: the deciding rule's, else the project default |
| FilePolicies.TemplatePolicyForPath | crates/persistence/src/collaboration.rs:2171-2205 | The floor: what the template's own rows decide |
| FilePolicies.FloorHolds | crates/persistence/src/collaboration.rs:1411-1417 | Under the invariant the current floor is no weaker than the template's policy at instantiation |
| FilePolicies.AllowedCallRespects | crates/persistence/src/collaboration.rs:1391-1423 | Every accepted manager call keeps the invariant |
| FilePolicies.RespectingRulesAreNoWeaker | crates/persistence/src/collaboration.rs:2132-2212 | Rules that keep the invariant decide every template-governed path at least as strictly as the template did |
| FilePolicies.TemplateNeverWeakens | crates/persistence/src/collaboration.rs:635-650 | No run of manager calls makes a path's effective policy weaker than its template rules made it at instantiation |
| FilePolicies.AllowedExactly | crates/persistence/src/collaboration.rs:1405-1417 | Managers may set exactly the policies no weaker than the template rule that decides the path |
| FilePolicies.PolicyTakesEffect | crates/persistence/src/collaboration.rs:1418-1423 | The path then has the policy that was set |
| CompileQueues.CompileQueue.EnqueueJob | crates/persistence/src/compile_queue.rs:184-229 | Permission first, then idempotent admission, then ownership and the per-user outstanding cap, each with its refusal |
| CompileQueues.CompileQueue.ClaimNext | crates/persistence/src/compile_queue.rs:232-263 | The scan for the next eligible row and its claim equal the specification |
| CompileQueues.CompileQueue.Renew | crates/persistence/src/compile_queue.rs:265-273 | Only the holder of a live lease extends it |
| CompileQueues.CompileQueue.Cancel | crates/persistence/src/compile_queue.rs:276-293 | An empty or overlong reason is refused, queued work is cancelled at once, running work gets a durable request, finished work is refused |
| CompileQueues.CompileQueue.TellFailed | crates/persistence/src/compile_queue.rs:305-313 | Each failed, untold build is finalized exactly once, in whatever order it is listed |
| CompileQueues.CompileQueue.RecoverExpiredLeases | crates/persistence/src/compile_queue.rs:296-316 | One bulk update of expired rows, then each failed build is finalized once, in any order |
| CompileQueues.CompileQueue.CompleteJob | crates/persistence/src/compile_queue.rs:318-493 | Every completion under a live lease, cancellation first, and the build it finalizes |
| CompileQueues.CompileQueue.Finalize | crates/persistence/src/compile_queue.rs:666-823 | Promotion of an exact match only, then activation of the pending request |
| CompileQueues.CompileQueue.Submit | crates/persistence/src/versions.rs:221-329 | A refusal changes nothing; else reuse of the newest complete build of that state, else coalescing with the active build, else a new one |
| CompileQueues.CompileQueue.ResetForRestoration | crates/persistence/src/governance.rs:1209-1214 | A restoration makes its state desired, forgets active and pending work, keeps the current build |
| CompileQueues.CompileQueue.InvalidateDesired | crates/persistence/src/v2.rs:1989-2001 | A durable edit clears the desired hash and the pending request |
| QueueFacts.PerformEvolves | crates/persistence/src/compile_queue.rs:184-493 | In any step every existing row evolves lawfully: finished rows freeze, requests stay requested, only a claim spends an attempt |
| QueueFacts.RunsAreSafe | crates/persistence/src/compile_queue.rs:232-316 | In every reachable state the global and every per-user running cap hold, queued jobs have attempts left, and exactly the running jobs hold a worker and a lease |
| QueueFacts.ClaimTakesFirst | crates/persistence/src/compile_queue.rs:252-254 | A claim takes the unlocked eligible job that comes first by priority, age and id, and comes back empty only at the cap or with none eligible |
| QueueOrder.ClaimServesFirst | crates/persistence/src/compile_queue.rs:232-263 | While a worker is free a claim serves the waiting job of highest priority, then age, then id; it is empty only with none waiting or none free, counted job by job |
| QueueOrder.RunsStayWithinCaps | crates/persistence/src/compile_queue.rs:232-254 | In every run the jobs that run are no more than the caps, in all and per user |
| QueueOrder.RunsTell | crates/persistence/src/compile_queue.rs:255-260 | In every run an unfinished build says whether its job was ever claimed |
| QueueFacts.CancellationIsFinal | crates/persistence/src/compile_queue.rs:276-316 | Finished jobs never change again, and a requested cancellation can only end in cancelled, through retries and lease expiry |
| QueueFacts.AcceptedCancellationIsRecorded | crates/persistence/src/compile_queue.rs:276-293 | After an accepted cancellation the job's only possible end, in any continuation, is cancelled |
| QueueOutcomes.CancellationAcceptedExactly | crates/persistence/src/compile_queue.rs:276-293 | Exactly unfinished jobs are cancelled, with no reason or one of 1 to 512 bytes; every refusal names its cause |
| QueueOutcomes.RecoveryDecides | crates/persistence/src/compile_queue.rs:296-304 | Recovery leaves a live lease alone; a job whose lease ran out is cancelled if asked for, failed if no attempt is left, and queued again otherwise |
| QueueOutcomes.RetriedIsClaimable | crates/persistence/src/compile_queue.rs:296-304 | A job queued again can be claimed: with room, the next claim takes it or one before it |
| QueueOutcomes.VerdictDecides | crates/persistence/src/compile_queue.rs:318-493 | Under a live lease the recorded state is the one the verdict asks for, infrastructure failures being retried while attempts are left, and cancellation first |
| QueueOutcomes.OthersCannotComplete | crates/persistence/src/compile_queue.rs:538-600 | Without the lease a completion is refused, for what is wrong, and changes nothing |
| QueueOutcomes.OutcomesHaveCauses | crates/persistence/src/compile_queue.rs:232-493 | In every run no job succeeds, times out or fails unless its worker reported that or its last attempt is spent, and none is cancelled unasked |
| QueueLeases.AdmissionIsIdempotent | crates/persistence/src/compile_queue.rs:184-209 | Once a key is admitted, in any continuation a permitted caller gets the same job for the same inputs and a conflict for others, an unpermitted one a refusal, and nothing changes |
| QueueLeases.AdmissionRespectsCap | crates/persistence/src/compile_queue.rs:214-221 | An enqueue that adds a job leaves its user within the outstanding cap and nobody else's count changes |
| QueueOrder.AdmissionExactly | crates/persistence/src/compile_queue.rs:184-229 | A new key of a permitted owner is admitted exactly while its user has room, as it was asked for |
| QueueOutcomes.AdmissionRefused | crates/persistence/src/compile_queue.rs:185-213 | Without permission, or without ownership of a new key, nothing is admitted |
| QueueLeases.LeaseIsExclusive | crates/persistence/src/compile_queue.rs:265-316 | Until its lease runs out a running job stays with its worker in any run; only that worker's own completion ends it |
| QueueOutcomes.ClaimStartsAttempt | crates/persistence/src/compile_queue.rs:252-254 | A claim spends one attempt and gives exactly the lease time |
| QueueOutcomes.ClaimedJobCanFinish | crates/persistence/src/compile_queue.rs:232-273 | Whatever others do, a worker can complete its job for the whole lease time |
| QueueOutcomes.RenewalExtends | crates/persistence/src/compile_queue.rs:265-273 | Exactly the holder of a live lease renews it, for the whole lease time |
| QueueProgress.PerformLowersMeasure | crates/persistence/src/compile_queue.rs:232-493 | No step but a submission raises the measure of remaining work, and every claim, requeue and outcome lowers it |
| QueueProgress.WorkIsBounded | crates/persistence/src/compile_queue.rs:232-493 | A run without submissions changes job states at most as often as the measure it starts with |
| SchedulerFacts.FinalizeConsistent | crates/persistence/src/compile_queue.rs:666-823 | Finalizing a build keeps every scheduler row and build status consistent |
| SchedulerFacts.SubmitConsistent | crates/persistence/src/versions.rs:221-329 | A submission keeps consistency and puts the workspace back on track to its desired state |
| BuildRequests.BuildsRunTheirRequests | crates/persistence/src/versions.rs:302-329 | In every run each build was submitted: its job has the inputs, user and priority of a request for its workspace and state |
| BuildRequests.SubmissionAnswers | crates/persistence/src/versions.rs:241-275 | A submission shows the newest complete build of its state at once, and only if there is none is one awaited or started |
| BuildRequests.EndActivatesPending | crates/persistence/src/compile_queue.rs:666-823 | A build that ends is marked and shown only if it is the desired one, and the pending request starts now, or nothing is active |
| BuildRequests.EditKeepsCurrent | crates/persistence/src/v2.rs:1989-2001 | After an edit the shown build stays, whatever finishes, until the workspace is submitted or restored |
| SchedulerFacts.RunsAreConsistent | crates/persistence/src/versions.rs:241-320 | In every run, all kinds of steps included: a pending request needs an active build of another hash and is the desired one; with nothing pending an active build is the desired one unless an edit cleared it; current is a succeeded build |
| SchedulerFacts.RunsTrack | crates/persistence/src/compile_queue.rs:666-823 | In every run an active build is unfinished, and the desired hash of every workspace not restored since its last submission is current, pending, or has a build that did not succeed: one queued, running, broken or cancelled |
| SchedulerFacts.QuiescenceConverges | crates/persistence/src/versions.rs:221-329 | In every run, once all builds of a workspace have succeeded nothing is active or pending and, unless it was restored without a submission since, its current build is the desired state |
| SchedulerRestoration.RestoredConverges | crates/persistence/src/governance.rs:1209-1214 | In every run, after a restoration and as long as the workspace is left alone, once all its builds have succeeded it is up to date if and only if the restored state was shown or under way at the restoration |
| SchedulerRestoration.QuietButOutdated | crates/persistence/src/governance.rs:1209-1214 | A run of one build and a restoration that ends with all builds succeeded and the workspace not up to date |
| SchedulerCancellation.StepFreesExactly | crates/persistence/src/compile_queue.rs:184-493 | Once an active build's job is cancelled, any step keeps active, current and the workspace's builds, unless it restores the workspace, answers its submission with an earlier build, or tells another of its builds; after one of these it is never the active build |
| SchedulerCancellation.CancelledStaysActive | crates/persistence/src/compile_queue.rs:810-821 | In every run from such a state the cancelled build stays active throughout if and only if no step is one of these, and until then current stays and no build is started there |
| SchedulerCancellation.OnlyBuildStaysActive | crates/persistence/src/versions.rs:241-320 | If it is the workspace's only build, it stays active in exactly the runs that do not restore the workspace, whatever is submitted or edited |
| SchedulerCancellation.CancelledOnce | crates/persistence/src/compile_queue.rs:276-293 | A submission and a cancellation lead to such a state |
| SchedulerFacts.CurrentOnlyBecomesDesired | crates/persistence/src/versions.rs:655-672 | Any step that changes current makes it a succeeded build of the desired hash, and only completions and submissions do |
| Dependencies.CycleDetector.DetectCycle | crates/parser/src/project.rs:443-475 | The recursive visit terminates and keeps the meaning of the visited, active and reported sets |
| Dependencies.WalksGoBackwards | crates/parser/src/project.rs:443-475 | Along the order in which visits end, a chain that avoids reported files only goes back, so it cannot close |
| Dependencies.LinksAreDependencies | crates/parser/src/project.rs:414-428 | The adjacency map links two files exactly when a resolved Input, Include or Subfile edge does |
| Dependencies.AddCycleDiagnostics | crates/parser/src/project.rs:414-475 | Reported files lie on cycles and are reported once; every cycle passes through a reported file; nothing is reported exactly when the graph is acyclic |
| Dependencies.ReachableSources | crates/parser/src/project.rs:528-546 | The loop ends with exactly Main and the files it leads to, whatever the edge order |
| LogicalPaths.JoinSplit | crates/core-types/src/logical_path.rs:37-47 | Joining the segments of any string restores it |
| LogicalPaths.SplitJoin | crates/parser/src/project.rs:355-355 | Splitting joined segments restores them |
| LogicalPaths.ParseAccepts | crates/core-types/src/logical_path.rs:15-49 | A path is accepted exactly when its byte length, characters and segments are allowed, and is kept as it is |
| LogicalPaths.WalkSegments | crates/parser/src/project.rs:345-354 | The loop over the reference's segments computes the lexical walk, or none above the root |
| LogicalPaths.Normalized | crates/parser/src/project.rs:341-356 | The loops over base and reference compute lexical normalization |
| LogicalPaths.NormalizedIsStable | crates/parser/src/project.rs:341-356 | A normalized path has no empty, dot or dot-dot segment and normalizes to itself |
| LogicalPaths.NormalizeComposes | crates/parser/src/project.rs:341-356 | Resolving in two steps or at once gives the same path, for any base and references |
| PathMeaning.NameThenParentCancels | crates/parser/src/project.rs:345-354 | A name and the dot-dot after it cancel anywhere in a walk |
| PathMeaning.ParentOfChild | crates/parser/src/project.rs:341-356 | From a directory's child, going up means what it means from the directory |
| PathMeaning.ChildOfDirectory | crates/parser/src/project.rs:341-356 | From a directory, going down means what it means from its child |
| PathMeaning.NameMeansSibling | crates/parser/src/project.rs:341-356 | A plain name means the file of that name in the directory |
| PathMeaning.AbsoluteIsRefused | crates/parser/src/project.rs:342-344 | References from the root or with a backslash have no normal form |
| PathMeaning.ParseRefusals | crates/core-types/src/logical_path.rs:15-49 | Every refusal of a path names what is wrong with it |
| PathMeaning.BytesAreEncoded | crates/core-types/src/logical_path.rs:15-49 | Lengths are those of the UTF-8 encoding |
| LogicalPaths.WalkFailsAboveRoot | crates/parser/src/project.rs:350-352 | The walk fails exactly when some prefix of the reference climbs above the root |
| LogicalPaths.ClimbingOutIsRefused | crates/parser/src/project.rs:350-352 | Such a reference has no normal form |
| References.FirstInExactly | crates/parser/src/project.rs:377-392 | The first candidate that is a project file wins, and nothing is found only if no candidate is one |
| References.ResolvedIsNormalFile | crates/parser/src/project.rs:363-392 | A resolved target is a project file in normal form |
| References.ExtensionNamesSibling | crates/parser/src/project.rs:363-376 | Trying an extension names the sibling whose name is longer by it, never a file elsewhere |
| References.ShortFormMeansTex | crates/parser/src/project.rs:363-392 | A source reference without extension means the .tex file exactly when no file has the bare name |
| ReferenceMeaning.ParentIsDirectory | crates/parser/src/project.rs:336-340 | A file's references start from its own directory |
| ReferenceMeaning.ExplicitMeansSibling | crates/parser/src/project.rs:363-392 | A name with extension means the file beside the one it is written in |
| ReferenceMeaning.ClimbingMeansUncle | crates/parser/src/project.rs:363-392 | One step up and a name with extension means the file in the directory above |
| ReferenceMeaning.BareMeansFirstSibling | crates/parser/src/project.rs:363-392 | A name without extension means the file of that name, else the first with an extension of its kind, in order |
| ReferenceMeaning.MissingNamesTried | crates/parser/src/project.rs:387-391 | What is not found lists every path tried |
| ReferenceMeaning.EdgesAreReferences | crates/parser/src/project.rs:225-240 | One edge for every reference, a computed one leading nowhere |
| References.ReachableIsInProject | crates/parser/src/project.rs:377-392 | What Main leads to is Main or a file of the project |
| PaperStores.PaperStore.ReadLivePaths | crates/persistence/src/governance.rs:1110-1123 | The rows, read in any order, give the map of live paths |
| PaperStores.PaperStore.ReinstateFiles | crates/persistence/src/governance.rs:1144-1171 | The loop over the manifest chooses ids, revives or inserts rows and records contents, stopping at a used id |
| PaperStores.PaperStore.RewriteRows | crates/persistence/src/governance.rs:1136-1172 | Tombstoning and reinstating as one unit, with the operations it emits |
| PaperStores.PaperStore.ApplyRestore | crates/persistence/src/governance.rs:1042-1226 | apply_restore on the tables equals its specification: the refusals of an implausible state, a moved head, a missing target and an unreadable manifest, else rows, event, epoch and both version rows, or nothing |
| Restoration.RestoreIsExact | crates/persistence/src/governance.rs:1144-1171 | Live paths and ids become the chosen ones if and only if no id is chosen twice and none belongs to another workspace |
| Restoration.CoveringIdentitiesRestore | crates/persistence/src/governance.rs:1124-1171 | Identities that cover the manifest injectively are restored exactly |
| Restoration.RestoreEventReplays | crates/persistence/src/governance.rs:1140-1172 | The strict reader accepts the event if and only if every live path is in its tree, and then holds the manifest, its Main, and what was never live |
| Restoration.RestoreReaches | crates/persistence/src/governance.rs:1042-1226 | From an agreeing state a restoration reaches the target's paths, ids, contents and Main, and an agreeing state again |
| Restoration.SafetyVersionUndoes | crates/persistence/src/governance.rs:1042-1226 | Restoring the version row recorded for the state before brings back the original path-to-id map, contents and Main |
| Restoration.VersionsAreRecorded | crates/persistence/src/governance.rs:1089-1208 | Both versions are recorded under new numbers, each with its manifest, epoch and log length |
| Restoration.RevisionsAdvance | crates/persistence/src/governance.rs:1136-1171 | Every change of a file advances its revision by one, and deleted files keep their path |
| Restoration.UnrecordedKeepsId | crates/persistence/src/governance.rs:1144-1150 | A path without recorded identity keeps its live file, or gets a new one |
| Restoration.RestoreRefusals | crates/persistence/src/governance.rs:1042-1088 | Every refusal of a restoration names what is wrong |
| Artifacts.ReadEntry | crates/compiler/src/service.rs:259-293 | One entry: collected, pushed or refused, and refused only in unacceptable trees |
| Artifacts.ReadDirectory | crates/compiler/src/service.rs:247-258 | One directory within the remaining entry budget |
| Artifacts.CollectArtifacts | crates/compiler/src/service.rs:237-298 | Terminates on every finite tree, succeeds if and only if all limits hold and every entry and name is allowed, and then returns exactly the regular files, sorted |
| Artifacts.CollectedNamesAreDistinct | crates/compiler/src/service.rs:237-353 | On a file system no name is returned twice |
| Artifacts.UnreadableIsRefused | crates/compiler/src/service.rs:356-374 | A file below an entry whose name is not text makes the tree unacceptable |
| Credentials.SecureIndex | crates/persistence/src/credentials.rs:99-113 | The first accepted draw is returned modulo the bound, and only rejected ones are skipped |
| Sampling.SamplingIsUnbiased | crates/persistence/src/credentials.rs:103-109 | For every bound each residue has the same, positive number of accepted candidates |
| Credentials.Shuffle | crates/persistence/src/credentials.rs:92-95 | The in-place loop, on an array of any length, performs one swap per position, each drawn at or below it |
| Shuffles.SwapsPermute | crates/persistence/src/credentials.rs:92-95 | Swapping keeps every element, for arrays of any length |
| Shuffles.ShuffleIsInjective | crates/persistence/src/credentials.rs:92-95 | Different draws rearrange distinct elements differently |
| Shuffles.ShuffleIsUnbiased | crates/persistence/src/credentials.rs:92-95 | Every rearrangement comes from exactly one draw |
| Credentials.TemporaryPassword | crates/persistence/src/credentials.rs:83-97 | The password is the drawn characters under the drawn swaps; a finished one has eight easy characters with an upper, a lower and a digit among them |
| Credentials.AnyOrderIsPossible | crates/persistence/src/credentials.rs:83-97 | Any rearrangement of eight different characters, one from each alphabet in turn, is the password of some outputs |

## Left out

- SchedulerFacts.RunsAreConsistent: after a durable edit the desired hash is empty while a build is active, so "active means desired" is stated only while a hash is desired.
- Credentials.SecureIndex: the generator is a finite list of draws; running out of them is "no answer", so termination of the rejection loop is not claimed.
- TeamProjects.TeamProject.FindConflicts: the reported list is sorted on all fields and stripped of repeats; it is modelled as a set.
- Membership, roles and access lookups: the resulting grants are an input.
- Snapshot, ownership and request validation (validate_build_request, ensure_ownership): short lookups; their outcome is an input where it decides a branch.
- paper_versions rows, build sequence and epoch columns, cache rows and artifact rows in the queue: carried along, never read by the modelled branches except for "PDF, log and SyncTeX recorded", which is one flag.
- Front-matter state and snapshots in apply_restore: no influence on files, identities or the event.
- 64-bit overflow of versions, generations and attempts: naturals instead.
- SQL text, JSON, audit rows, tracing, locks and retries of the database: plumbing around the steps.
- Artifact bytes, kinds and input/output errors of the file system: the tree is read as it was listed.
- Label, reference, bibliography and citation diagnostics, and the final sort and dedup of diagnostics: simple folds.
- LaTeX and BibTeX parsing, hashing, encryption, containers and process execution: foreign code.
- institution.rs, front_matter.rs, mail_outbox.rs, permissions.rs, session.rs, synctex.rs: simpler variants or plumbing.
