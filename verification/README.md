# dockbrr, modelled and verified

dockbrr watches the containers on a Docker host, detects image updates and
applies or rolls them back through a persisted job queue. This project models
the state machines that must stay safe whatever Docker, the registry, the
database or another goroutine does, and proves what they keep.

| module | models |
|---|---|
| `JobTable`, `JobEngine`, `LogStreams` | the persisted queue; the worker pool with one mutex per project, crashes and restarts, as a machine over the workers' program counters; the live log streams |
| `UpdateTable`, `RollbackSafety`, `RollbackTarget`, `AutoApply` | the updates table statement by statement; the engine and the handlers' reads and writes of update rows as one machine; which update a rollback marks; the scheduler's automatic applies |
| `Daemon`, `Standalone`, `SelfUpdate` | a Docker daemon whose calls fail, take effect or do both; recreate/restore of a standalone container; the self-update swap and its rollback |
| `ComposeHistory`, `ComposeApply`, `ComposeFile`, `Utf8` | the order of effects of a compose apply or rollback; the orchestrators; the one-line file rewrite, the snapshot blob through JSON, and UTF-8 |
| `Versions`, `Tags`, `VersionLookup`, `Detection`, `ServiceCheck` | version streams; tag classes; the tag-digest cache; the HEAD shortcut and the full detection; one check of a service |
| `Discovery`, `Changelog`, `ScanRunner`, `LoginLimiter` | grouping and the gone/grace/prune cycle; the span of releases, its rendering and cap; the single scan run; the login lockout |

Conventions. A SQL table is a value and each statement a function on it; the
repository objects are classes whose methods equal those functions. An external
call's outcome is a parameter or is read off an arbitrary script (`faults`,
`answers`, `works`, `found`), so every contract holds for all outcomes. Runs of
concurrent code are sequences of events, one per critical section or blocking
point. Time is an integer.

## Model

| member | source | states |
|---|---|---|
| JobTable.Jobs.Enqueue | internal/store/jobs.go:38-58 | the row goes in under an id never used before, with the defaults for status, scope and requester |
| JobTable.Jobs.ClaimNext | internal/store/jobs.go:64-78 | claims the smallest queued id and makes it running; answers no job exactly when none is queued |
| JobTable.FinishSettles | internal/store/jobs.go:81-92 | a finished row is out of every later claim and resume and in the next purge; its other columns, every other row and, unless it was itself queued, the order of claims stay |
| JobTable.ResumeThenClaim | internal/store/jobs.go:64-102 | after a resume the next claim is the smallest id among the queued and the interrupted jobs, so these keep their place before later arrivals |
| JobTable.Drain | internal/job/queue.go:152-206 | a resume and then one worker until the queue is empty run every job that was waiting or interrupted exactly once, by ascending id, and change nothing else |
| JobTable.PurgedExactly | internal/store/jobs.go:183-203 | a purge removes exactly the terminal rows, or those created before the time, changes no other, no claim, and commutes with a resume |
| JobTable.StepKeeps | internal/store/jobs.go:38-102 | one statement removes only terminal rows, leaves terminal rows terminal and inserts only queued rows under fresh ids |
| JobTable.NoJobLostOrInvented | internal/store/jobs.go:38-203 | over any run of the table a terminal job is never queued or running again, a job leaves only after it was terminal, and an id once out of the table never comes back |
| JobTable.ResumeExactlyRunning | internal/store/jobs.go:96-102 | resume turns exactly the running rows into queued ones and changes no other column |
| JobEngine.StepKeepsInv | internal/job/queue.go:136-206 | every step of workers, handlers, subscribers, enqueuers, crashes and restarts keeps the engine's invariant: mutex holders, claims and stream states fit the workers' program counters |
| JobEngine.OneHandlerPerProject | internal/job/queue.go:180-192 | in every reachable state at most one worker is inside a handler for a project key, a job without project having key 0 |
| JobEngine.NoDoubleClaim | internal/job/queue.go:152-178 | two claims of one job in one process are the same claim |
| JobEngine.NoDeadlock | internal/job/lock.go:22-42 | a worker waiting for a key can acquire it, or another worker holds that key inside its dispatch and can take a step other than recording a result or starting an emit |
| JobEngine.JobsSurvive | internal/job/queue.go:180-206 | through crashes and reboots of the engine a terminal job stays terminal, and a job disappears only after it was terminal |
| JobEngine.RunOfTable | internal/store/jobs.go:38-203 | every engine run moves the jobs table by the repository's statements only |
| JobEngine.ClosedExactlyOnce | internal/job/queue.go:123-132 | no channel is closed twice or sent to after closing; a channel of a dispatched job is closed once the dispatch is over; one of a job never dispatched in this process stays open |
| JobEngine.LateSubscriber | internal/job/queue.go:103-118 | a subscription gets a closed channel exactly when this process claimed the job and has detached its streams |
| LogStreams.StepKeepsInv | internal/job/queue.go:83-132 | subscribe, emit and the closing loop, interleaved send by send and close by close, keep every listed channel open and every open channel listed |
| LogStreams.CloseOneKeepsInv | internal/job/queue.go:129-131 | closing the head of a detached list leaves the other lists' channels open |
| LogStreams.HangupKeepsInv | internal/job/queue.go:124-128 | detaching a finished job's channels moves them from the registry to the closing worker, losing none |
| LogStreams.StreamKeepsInv | internal/job/queue.go:103-118 | a new channel is registered without disturbing emits in flight |
| UpdateTable.Updates.RecordDrift | internal/store/updates.go:192-278 | commits the whole transaction or, whichever statement fails, none of it; reports a new row exactly when the digest had none |
| UpdateTable.Updates.Upsert | internal/store/updates.go:47-73 | inserts the row, or refreshes the one with its key and keeps its status |
| UpdateTable.Updates.GetLatestOpenByService | internal/store/updates.go:336-357 | the open row of the service detected last, the higher id of equals; none exactly when none is open |
| UpdateTable.SupersededExactly | internal/store/updates.go:164-173 | the service's open rows, and no others, become superseded, no other column changes; none of it is open after, and what is latest for any other service stays |
| UpdateTable.RolledBackExactly | internal/store/updates.go:284-292 | at most the one row of that service and digest changes, only in status, and only from applied |
| UpdateTable.RollbackThenDetection | internal/store/updates.go:192-292 | a detection of the rolled-back digest opens an update exactly when its row was missing or neither applied, dismissed, rolled_back nor current: an applied update stays reverted, a failed one is reopened |
| UpdateTable.ReopenedExactly | internal/store/updates.go:298-307 | the service's open rows are afterwards those open before and its rolled_back ones, none of which is left; nothing but their status changes |
| UpdateTable.StaleCurrentExactly | internal/store/updates.go:440-449 | only current rows of the service at other digests go, all of them do, and what is open stays open |
| UpdateTable.WritesById | internal/store/updates.go:510-528 | a write by id overwrites whatever the row has become, brings no deleted row back, and keeps its key and every other row; marking applied records the time |
| UpdateTable.OpKeeps | internal/store/updates.go:47-73 | every statement keeps (service, to_digest) unique, moves no row to another key and reuses no id |
| UpdateTable.OnlyMarkRollsBack | internal/store/updates.go:284-292 | a row becomes rolled_back only by MarkRolledBack on its own key from applied, or by a write of that status by id |
| UpdateTable.WhatLiftsRolledBack | internal/store/updates.go:192-307 | the statements that take a row out of rolled_back are exactly reopen, deletion of its service, and writes by its id |
| UpdateTable.DriftLeavesOneOpen | internal/store/updates.go:192-278 | after RecordDrift every open row of the service is at the detected digest, there is at most one, and there is one exactly when that row was not dismissed, rolled_back or current |
| UpdateTable.RedetectionIsIdempotent | internal/store/updates.go:192-278 | recording the same drift again changes nothing and is not new |
| RollbackTarget.MarksRestored | internal/job/worker.go:480-590 | in any state a rollback marks the update whose snapshot it restores exactly when that update is applied and its digest is the service's current one; what it marks is the applied row at the current digest and nothing else |
| RollbackTarget.PlaceTells | internal/job/worker.go:283-357 | over every run of applies, failures, crashes, rollbacks, discoveries and other statements, the events decide whether the current digest is that of the last snapshot's update or the one before it |
| RollbackTarget.RollbackMarks | internal/job/standalone.go:315-377 | after any run: if an apply's success decided the place, the rollback marks that apply's update alone; if a stored snapshot or a rollback did, it restores the digest that is current already, marks no update but one at that digest, and leaves the failed one alone |
| RollbackTarget.FailedApplyMarksEarlier | internal/job/worker.go:582-590 | a run in which B was applied and the apply of C fails: the rollback restores B and marks the update to B rolled_back while B runs |
| RollbackTarget.RunKeepsInv | internal/job/worker.go:339-357 | over every run each snapshot names a row of its service by the row's own key, and no other row ever takes its id |
| RollbackSafety.StepKeepsInv | internal/job/worker.go:137-330 | every step of the composed machine keeps: an id in a handler's hands names a row of its own project that is not rolled_back |
| RollbackSafety.NoRollbackMeanwhile | internal/job/queue.go:180-192 | while a handler holds an update id, no other handler can roll back its service |
| RollbackSafety.RolledBackIsSticky | internal/store/updates.go:284-307 | once rolled_back, no interleaving of checks, applies, rollbacks, sibling refreshes, auto-applies, crashes and restarts changes the row or hands it to an apply, until a scoped manual check, dismiss, restore or deletion |
| RollbackSafety.LateWriteWouldReopen | internal/job/worker.go:683-687 | without the exclusion the claim is false: a late failure write over a rolled_back row is reopened by the next check |
| AutoApply.Tick | cmd/dockbrr/main.go:691-720 | enqueues one apply, in order, for exactly the services that are managed, pass the auto-update gate and have an open update |
| AutoApply.OnlyDueServices | cmd/dockbrr/main.go:691-720 | every job the tick adds is an apply of such a service |
| Daemon.Docker.ContainerRename | internal/docker/lifecycle.go:53-59 | takes effect only under a free name, whatever is answered |
| Daemon.Docker.ContainerRemove | internal/docker/lifecycle.go:35-43 | removes only a container that is not running |
| Daemon.Docker.ContainerCreateFromInspect | internal/docker/recreate.go:36-51 | may leave a container behind and still answer with an error |
| Daemon.Docker.ContainerIDByName | internal/docker/lifecycle.go:63-79 | finds the holder of a name, or that it is free |
| Standalone.ClearNameConflict | internal/job/standalone.go:237-245 | touches only a container holding that name, never the one to keep |
| Standalone.Recreate | internal/job/standalone.go:205-225 | whatever name the old container starts under: a nil error means the new container runs under the name and the old one is set aside; an error tells by the returned id what exists; the old container is never removed; if every call goes through there is an error exactly when the old one was aside already |
| Standalone.RestoreOld | internal/job/standalone.go:249-264 | if its calls go through, the old container runs, the new one is gone, and the old has its name back exactly when no third container holds it |
| Standalone.HealthGate | internal/job/standalone.go:268-296 | passes exactly when its last poll saw the container ready; no earlier poll saw it ready or broken |
| Standalone.GateThenDrop | internal/job/standalone.go:177-187 | nothing but polls of the new container and, exactly when the last found it ready, one call to remove the old one, which works if the daemon does and the old one is stopped |
| Standalone.Replace | internal/job/standalone.go:169-187 | done means the new container is home, was started, and was then polled ready before the old one's removal, which working calls complete; with working calls and ready polls it is done exactly when the old one did not start aside; otherwise the old one is never removed, and after a failure whose restore calls go through it runs, and is home with nothing new beside it exactly when no create had half succeeded and no third container kept the name |
| Standalone.DoneOrHome | internal/job/standalone.go:169-187 | when every call goes through it is done or the old container is home with nothing new, and a resumed attempt whose old container was left aside always comes home |
| Standalone.RunApply | internal/job/standalone.go:90-200 | for any start name: before any mutation inspect, snapshot, successful pull, in this order; the removal of the old container, the status applied and the success come only after the new one was started and polled ready; a refusal mutates nothing and writes superseded when the target moved, failed when the pull failed, else no status; otherwise applied when done and failed when not; one result, recorded last; containers under other names are untouched; with current target, saved snapshot, working calls and ready polls it is done, and the old container gone, exactly when that did not start aside |
| Standalone.ApplyCurrent | internal/job/standalone.go:137-200 | the same from the inspect precheck on, also for the status a refusal writes |
| Standalone.RunRollback | internal/job/standalone.go:315-377 | for any start name: it acts exactly when the snapshot's digest was pulled; rolled_back is written on success only, and it, the success and the previous container's removal come only after the new container was started and polled ready; otherwise the previous one is restored as in Replace; one that is gone leaves what Cleared says |
| Standalone.ClearedExactly | internal/job/standalone.go:205-264 | rolling back a container that is gone, with working calls, removes exactly the holders of the service's name and its aside name, running or not, and changes no other |
| Standalone.StaleIdEndsService | internal/job/standalone.go:338-352 | so a rollback by a stale id at a daemon whose one running container holds the service's name under another id leaves no container |
| SelfUpdate.SwapContainer | internal/docker/selfupdate.go:165-209 | once the target is removed: a nil return means one container holds the name and runs the new image, a rolled-back return that one holds it and runs the old image, it rolls back exactly when the rollback's own calls go through, and it swaps when every call does |
| SelfUpdate.Rollback | internal/docker/selfupdate.go:214-237 | brings the old image back under the name also over a half-created container; succeeds exactly when its calls do; other containers are untouched |
| SelfUpdate.BringUp | internal/docker/selfupdate.go:187-209 | the same for what follows the removal, even if removing the unstarted container fails |
| ComposeHistory.OrderHolds | internal/job/worker.go:211-291 | a history the phases accept has no file write, override write or verb before the snapshot, no up before a zero-exit pull of the same files, nothing after a failed pull or up, nothing but override removal after the result |
| ComposeHistory.ClosedOnce | internal/job/worker.go:668-693 | and it holds exactly one job result |
| ComposeHistory.ClosedInOrder | internal/job/worker.go:122-330 | both, for every closed history |
| ComposeHistory.NothingPending | internal/job/worker.go:244-245 | when no override is pending at the end, every one written was removed later |
| ComposeApply.Decide | internal/job/worker.go:172-209 | a floating tag is neither rewritten nor pinned; an exact one is rewritten by replacing the old reference on its line; the override is used only where the file cannot be rewritten |
| ComposeApply.TakeSnapshot | internal/job/worker.go:339-357 | inspects the first container, whatever comes of it; the snapshot carries the file's text exactly when the plan edits it; a failure to hash or store leaves nothing stored |
| ComposeApply.SweepOnce | internal/job/worker.go:443-461 | polls in order up to the first error or unhealthy container; reports all ready exactly when every id was polled and each was ready |
| ComposeApply.HealthGate | internal/job/worker.go:428-468 | passes only when its last sweep saw every id ready, fails only when some id of its last sweep was not, and polls nothing after an unhealthy container |
| ComposeApply.ForceRecreateDependents | internal/job/worker.go:381-421 | runs the forced recreate on the same files when there are dependents; if it works and the services can be listed it looks up each tracked one once, in order; returns exactly the ids found |
| ComposeApply.Gate | internal/job/worker.go:263-282 | the dependents are recreated and looked up, then the service; passing or not, what is polled is the service's found containers, or its old ones, and those of the dependents; it passes only after one sweep that saw each of them ready |
| ComposeApply.RunApply | internal/job/worker.go:122-330 | for every outcome of every call the history is in order with one result; success only after the plan's edit or an override naming the suggested tag and target digest, pull and up on the plan's files, the dependents' recreation, and one sweep that saw every polled id ready; every override written is removed; the file changes only to the planned text and only after its snapshot is stored; the update ends applied, failed or superseded accordingly; when every call works and every look finds a container ready, it succeeds |
| ComposeApply.RunRollback | internal/job/worker.go:472-592 | the history is in order with one result; success only after the file was put back from the snapshot's blob, or without a usable one an override pinned the snapshot's digest, pull and up on those files, and the dependents' recreation; every override written is removed; rolled_back is written on success only; when every call works it succeeds |
| ComposeApply.ApplyThenRollback | internal/job/worker.go:122-592 | an apply, whatever becomes of it, then a rollback from the snapshot it stored: once the file is put back all files are as before exactly when it was well-formed UTF-8; a successful rollback puts it back; without an edit no file changes; when every call works both succeed |
| ComposeApply.RollbackUndoesEdit | internal/job/worker.go:498-515 | the rollback from an apply's snapshot undoes its edit, all files as before byte for byte, exactly when the edited file was well-formed UTF-8 |
| ComposeFile.ReplaceImageLine | internal/compose/rewrite.go:84-95 | works exactly when the line exists and holds the reference; replaces its first occurrence there, every other byte staying; the line count and the other lines stay when the new reference has no newline |
| ComposeFile.JoinSplit | internal/compose/rewrite.go:85-94 | splitting into lines and joining gives the text back |
| ComposeFile.SplitJoin | internal/compose/rewrite.go:85-94 | and joining lines and splitting gives the lines back |
| ComposeFile.JoinUpdated | internal/compose/rewrite.go:93-94 | replacing one line replaces just that stretch of the text |
| ComposeFile.QuoteRoundTrip | internal/job/worker.go:627-633 | a JSON string reads back as the characters of the bytes, U+FFFD for each stray byte |
| ComposeFile.BlobRoundTrip | internal/job/worker.go:498-503 | the blob's path and content read back |
| ComposeFile.RollbackRestoresFile | internal/job/worker.go:498-509 | what a restore writes, and when it equals what was there |
| Utf8.Coerced | internal/job/worker.go:625-633 | reading bytes as characters and writing them is the identity exactly on well-formed UTF-8 (section 4 of RFC 3629) |
| Utf8.CutAtStart | internal/changelog/resolver.go:108-112 | a well-formed text cut before a byte that is no tail byte stays well formed on both sides |
| Utf8.StartNearby | internal/changelog/resolver.go:109-111 | one of any four consecutive bytes of a well-formed text starts a character |
| Versions.NewerSemverTag | internal/detect/semver.go:49-65 | answers a maximum of the listed tags of the same flavor with a strictly greater core, none exactly when there is none |
| Versions.AnswersWhenNewer | internal/detect/semver.go:49-65 | it answers exactly when some listed tag of the stream is newer |
| Versions.OrderDoesNotMatter | internal/detect/semver.go:49-65 | listings of the same tags in any order give the same core and flavor |
| Versions.AskingAgain | internal/detect/semver.go:49-65 | asked again from its answer it finds nothing |
| Versions.PatternTakesNumbers | internal/detect/semver.go:69-84 | the stream pattern takes exactly the numbers that splitting at dots reads |
| Versions.ReadingsAgree | internal/detect/semver.go:74-181 | the stream's core and the lenient core of a tag are the same whenever both exist |
| Versions.SuggestionIsGraded | internal/detect/semver.go:19-36 | a suggested tag is never graded digest-only when both ends can be read |
| Tags.SplitRefRoundTrip | internal/detect/detect.go:478-488 | repository and tag put together come apart again, also with a registry port |
| VersionLookup.PutThenGet | internal/store/tag_digests.go:18-45 | what is put is got back for that repository and tag alone, an empty digest leaves no trace, and a cache filled with what the registry says answers as the registry |
| VersionLookup.CandidateConfigDigest | internal/detect/detect.go:323-341 | the cached digest or the registry's; a digest found is in the cache afterwards if that can be written; the cache grows only by what the registry answered |
| VersionLookup.LearnedAgrees | internal/detect/detect.go:323-341 | a cache that agrees with the registry keeps agreeing |
| VersionLookup.LearnedMatches | internal/detect/detect.go:323-383 | what one look-up leaves in the cache does not change what the next one of the same detection finds |
| VersionLookup.SemverTagsDesc | internal/detect/semver.go:90-113 | exactly the stable full-semver tags, newest first, equals in any order |
| VersionLookup.MatchVersionByDigest | internal/detect/detect.go:349-383 | the preferred tag first, then the first of at most fifty candidates with the digest; a rate limit or a failed listing makes it inconclusive, another failure skips the tag |
| VersionLookup.MatchIsSound | internal/detect/detect.go:349-383 | a returned tag has the asked-for config digest, and an inconclusive look-up returns none |
| VersionLookup.MissIsReal | internal/detect/detect.go:366-382 | after a conclusive miss every candidate that could be asked has another digest |
| VersionLookup.CacheIsTransparent | internal/detect/detect.go:323-383 | with no failing look-ups the cached reverse look-up equals the uncached one |
| VersionLookup.NewestWins | internal/detect/detect.go:361-382 | the match is the newest candidate with the digest |
| Detection.Detector.HeadShortcut | internal/detect/detect.go:224-256 | handles exactly the floating services whose version is named and whose HEAD reports the running digest; refreshes the state row and closes open updates |
| Detection.Detector.PickTarget | internal/detect/detect.go:125-147 | compares with the newest tag of the stream for an exact tag when it resolves, else with the tracked one |
| Detection.Detector.ResolveCurrentVersion | internal/detect/detect.go:438-469 | looks up exactly when the digest is known, the tag floats without naming it and it is not resolved yet; an inconclusive look-up leaves the image unmarked, any other records the matched tag or the label |
| Detection.Detector.NameEnds | internal/detect/detect.go:170-210 | each end of a drift has the version of its tag or label, or for a floating tag the release found by digest where that says more; an end without a name takes the running one's |
| Detection.NamesAreSound | internal/detect/detect.go:170-210 | with a cache that agrees with the registry each such name is a version that end's tag or label gives, or a tag with its config digest |
| Detection.Detector.Compare | internal/detect/detect.go:157-213 | a target serving the running digest closes every open update and has the running version looked up and recorded; any other records one drift at its digest, graded by its two version names, which are those of its ends |
| Detection.Detector.FullDetect | internal/detect/detect.go:84-213 | remote digest and status, verdict and updates as the resolve says; the image rows are those of the tracked and the target image, and up to date the running one named; version columns change only for the running image, and only once |
| Detection.EligibleAfterFull | internal/detect/detect.go:224-246 | an up-to-date full detection makes the next one eligible for the shortcut exactly when the version was named before, or the tag floats without naming it, the running digest has a row and the look-up was conclusive |
| Detection.Detector.Detect | internal/detect/detect.go:57-213 | the shortcut for an eligible service whose HEAD reports the running digest, whatever the resolve would have said, else the promises of the full path; up to date always closes every open update; with a HEAD that agrees with the resolve the full path's promises hold either way; the names of a drift are those of its ends |
| Detection.ShortcutRefines | internal/detect/detect.go:217-256 | for an eligible service the shortcut does what the full path promises |
| Detection.ShortcutIsInvisible | internal/detect/detect.go:217-256 | whatever the full path leaves agrees with the shortcut in verdict, updates, remote digest and status, and resolved versions |
| ServiceCheck.Scanner.EnsureCurrentChangelog | internal/scan/scan.go:160-236 | the baseline row and its notes, as BaselineEnsured says |
| ServiceCheck.Scanner.CheckService | internal/scan/scan.go:90-146 | the updates table after a check by verdict, whatever HEAD and resolve answer; the hint and the rate-limit flag; nothing for an unknown service |
| ServiceCheck.Scanner.CheckServiceFresh | internal/scan/scan.go:69-78 | the same on the table after lifting rolled_back, which an unknown service keeps |
| ServiceCheck.Scanner.MarkNotified | internal/scan/scan.go:245-253 | a drift is hinted again only when its digest changed |
| ServiceCheck.CheckLeavesAtMostOne | internal/scan/scan.go:69-146 | whatever came before, a check finding the service up to date leaves none of its updates open, one finding drift at most one, at the detected digest; the key stays unique and other services' rows are untouched |
| ServiceCheck.BaselineIsQuiet | internal/scan/scan.go:160-236 | the baseline opens no row and touches only its service |
| ServiceCheck.BaselineExactly | internal/scan/scan.go:146-204 | a service without surfaced history gets a current row at the running digest exactly when no other row holds that digest |
| ServiceCheck.SelfUpdatedHasNoBaseline | internal/scan/scan.go:172-181 | so the service the comment names, self-updated and superseded, gets none |
| Discovery.Group | internal/discovery/discovery.go:56-171 | groups the listed containers one by one |
| Discovery.SeenExactly | internal/discovery/discovery.go:56-171 | a service is seen exactly when a container is labelled with it or a standalone container found its name still free |
| Discovery.IdsExactly | internal/discovery/discovery.go:85-137 | and its ids are those of its containers in listing order |
| Discovery.Reconciler.UpsertService | internal/store/services.go:38-75 | inserts or refreshes the row of that name and clears gone_since |
| Discovery.Reconciler.UpsertAll | internal/discovery/discovery.go:241-323 | refreshes exactly the seen services, each of which has a row |
| Discovery.Reconciler.MarkGoneAll | internal/discovery/discovery.go:326-340 | marks exactly the unseen services of listed discovered projects, keeping an earlier gone_since |
| Discovery.Reconciler.Prune | internal/discovery/discovery.go:342-391 | deletes exactly the expired services of discovered projects, then those projects left empty |
| Discovery.Reconciler.Reconcile | internal/discovery/discovery.go:207-391 | what a whole cycle leaves, row by row |
| Discovery.ExpiredIsDeleted | internal/discovery/discovery.go:345-376 | a cycle deletes a service exactly when it prunes, the project is discovered, the service is unseen and gone longer than the clamped grace |
| Discovery.GoneSinceTells | internal/store/services.go:121-128 | from any store: gone_since is the time of the cycle since which no cycle has seen the service, or what the row held when the run began, and then no cycle of the run has seen it |
| Discovery.DeletedOnlyAfterGrace | internal/discovery/discovery.go:207-391 | over any run of cycles from any store a deleted service was unseen at every cycle since its gone_since, which is longer ago than the grace |
| Discovery.ManualIsNeverPruned | internal/discovery/discovery.go:326-374 | services of manual projects are never marked gone or deleted |
| Changelog.ReleasesInSpan | internal/changelog/github.go:312-335 | exactly the listed stable releases with core in (from, to], highest first, ties in listing order |
| Changelog.SpanIsUnique | internal/changelog/github.go:330-334 | membership and order determine the span |
| Changelog.TargetHeadsSpan | internal/changelog/github.go:300-335 | a listed stable release of the target version puts that version first |
| Changelog.TargetInSpan | internal/changelog/github.go:205-248 | the found target is in its span exactly when it is no pre-release |
| Changelog.FindRelease | internal/changelog/github.go:215-277 | an exact tag first; a partial version its newest patch; a full one the exact normalized tag, else the first listed build of its core |
| Changelog.RenderSpan | internal/changelog/github.go:343-367 | shows a prefix of the span as long as the budget holds and notes the number left out |
| Changelog.ShownIsUnique | internal/changelog/github.go:351-362 | the number shown is determined by the budget |
| Changelog.DecimalReads | internal/changelog/github.go:372-381 | the number printed in the note is the number left out |
| Changelog.NoteSurvivesCap | internal/changelog/github.go:29-31 | the note survives the cap when the first section fits the budget and the note its reserve |
| Changelog.Cap | internal/changelog/resolver.go:107-113 | never more than 64 KiB, unchanged when short, well formed when the text was, and at most three bytes shorter than the cap allows |
| ScanRunner.StepKeepsInv | internal/httpapi/scanrun.go:47-157 | every interleaving of starters, the sweep, aborters and timeouts keeps the runner's invariant |
| ScanRunner.AtMostOneScan | internal/httpapi/scanrun.go:49-57 | at most one scan is between begin and finish, and every begin meanwhile is refused |
| ScanRunner.AbortOnlyOlder | internal/httpapi/scanrun.go:94-101 | an abort cancels only a run that was in flight when it read the cancel function |
| ScanRunner.CompletedMeansChecked | internal/httpapi/scanrun.go:136-170 | a run that reports completion has checked every service resolved at its start |
| ScanRunner.IdsAreKept | internal/httpapi/scanrun.go:64-91 | the services of a run are those resolved at its begin |
| ScanRunner.ScanEnds | internal/httpapi/scanrun.go:136-170 | a run in flight can always take its next step, each brings it nearer its end, and no other step touches it |
| ScanRunner.CheckServices | internal/scan/scan.go:268-295 | checks the services in order up to the first ended context, and reports a rate limit exactly when a check met one |
| LoginLimiter.Limiter.Blocked | internal/httpapi/ratelimit.go:42-62 | blocked exactly when the address's window has five failures or more and is under fifteen minutes old, with a Retry-After of 1 to 900 seconds; forgets the address exactly when its window has expired |
| LoginLimiter.Limiter.Fail | internal/httpapi/ratelimit.go:65-77 | counts into the live window or starts one; over every sequence of calls without the empty address never more than 4096 tracked; gives up a live entry only when full with none expired, and then the oldest |
| LoginLimiter.Limiter.Success | internal/httpapi/ratelimit.go:80-84 | forgets the address |
| LoginLimiter.Limiter.EvictLocked | internal/httpapi/ratelimit.go:88-103 | drops what expired, and one live entry only if that frees nothing |
| LoginLimiter.WindowTells | internal/httpapi/ratelimit.go:15-31 | a window starts at a failure, has no reset after it, and counts the failures since, all within fifteen minutes |

## Left out

- HTTP handlers, authentication, sessions, settings, credentials and the web front end: only dismiss, restore and the manual check appear, as steps on update rows.
- Registry, GitHub and Docker clients, compose-go and YAML parsing, exec and pipes: nondeterministic results.
- SQL text, migrations and timestamps as strings; changelog url and text are one field of an update row.
- Log lines, history events and progress publications, but where they decide an outcome.
- The log text of Emit: a send that is dropped on a full buffer and one that is delivered are one step.
- Liveness under a scheduler: NoDeadlock and ScanEnds say that a next step exists, not that it is taken.
- JobEngine: handlers are arbitrary sequences of the steps listed; a handler that never returns is not excluded.
- RollbackSafety: every enqueuer sets a job's project to its service's project, and the Go runtime ends a handler's goroutines with its process.
- That only scoped scans lift rolled_back is taken from internal/httpapi/scanrun.go:147 as the events' meaning, not derived from the runner.
- RollbackSafety lets a rollback name any digest; which one it names is RollbackTarget's matter, for one service's events one after the other.
- Standalone.RunApply: the claims are for one handler run, from any state of the daemon, since discovery may point the service at another container after a crash. The store's own writes after the replacement (runtime columns, image reference) are left out.
- SelfUpdate.SwapContainer: a removal that takes effect but is answered with an error counts as kept, as the source returns there.
- The sibling refresh after a project-scope apply is part of RollbackSafety, not of ComposeApply.RunApply.
- ComposeApply.RunRollback: its dependents are parsed after the pull; a parse failure there is an empty list. Which services a verb is limited to is left out.
- ComposeApply.RunApply: a panic inside the handler is the engine's matter (JobEngine); the rewrite's plan is read from the disk once, before the snapshot.
- ComposeFile.ReplaceImageLine: where the image line is, is found by the YAML parser and taken as given.
- ComposeFile.BlobRoundTrip: the reader accepts the layout the writer produces, not every JSON object, and does not combine surrogate pairs, which the writer never emits.
- The YAML parser accepts no ill-formed UTF-8, so an edited file is one the rollback restores exactly; that step of the argument is not modelled.
- Detection: store writes that are best effort always work, RecordDrift and the event excepted; a registry answers the same for one tag throughout one detection.
- VersionLookup: a nil cache behaves as one that cannot be read or written.
- Versions: `\d` and white space are as Go defines them; tags are sequences of characters.
- Discovery: cycles without store errors; the unmanaged, auto-named, drifted and pinned flags, the signature of a cycle and the sorted order of groups.
- Discovery.DeletedOnlyAfterGrace: no other writer of service state during the run.
- Changelog: HTML stripping and control characters before the cap, flavor filtering, paging, the compare link, Unicode white space around bodies.
- LoginLimiter.Limiter.Fail: the size bound is for histories without the empty address; the empty string is the eviction walk's marker for none, so with it in the map the walk may evict nothing.
- Where code and comments differ the code is modelled: RecordDrift does not reopen a current row, MarkRolledBack moves only an applied row, a claimed job is running while it waits for its project, a stream of a job finished by an earlier process never closes, a partial version may resolve to a pre-release, a superseded row at the running digest keeps its service without a baseline, a resumed recreate whose old container is already aside never succeeds, since renaming it to its own name is refused, a rollback after an apply that failed marks the update that is still running and not, as the comment at internal/job/worker.go:580-588 has it, the one just reverted, and a rollback of a container that is gone restores nothing and clears whoever holds the service's name.
