# MangoStudio release pipeline: a verified model

MangoStudio builds a frontend bundle, publishes it into a live `dist` directory, and releases canary
versions to GitHub and npm from unattended workflows that may be rerun, interrupted or run side by side.
This project models the parts of that machinery where a wrong step loses something: the bundle
publication transaction, the release publisher and its audit, the approval, source-freeze and publication
histories, the archive and checksum formats that carry evidence, and three loops of the CI tooling.
It is written in Dafny 4.11. `dafny verify dfyconfig.toml` checks all of it.

What the code does by updating things in place is a class or a method with a loop, proved against a
specification; what it does by expressions is functions. Whole-run properties are state machines: a step
function, an invariant, and a theorem over every schedule.

| files | subject |
|---|---|
| `ConcurrentPublish`, `ConcurrentPublishTheorems`, `ConcurrentPublishCleanup` | any number of builds publishing into one `dist`, one file-system call at a time |
| `FrontendBuild` | one build, with every combination of failing calls and signals |
| `PlainNames`, `ReleaseAudit`, `ReleaseRun`, `ReleaseProtocol`, `Visibility` | the GitHub release: its audit, one publisher run, any number of interleaved runs, the shared read budget |
| `Approval`, `ApprovalTheorems`, `ApprovalHistory` | recovering an approved payload, independence of listing order, all approval jobs over time |
| `CanarySource`, `SourceSnapshot`, `SourceResolution`, `SourceHistory` | selecting a source, freezing it, exactly when, all reruns of a canary run |
| `PublicationAudit`, `PublicationDecision`, `PublicationHistory` | the publication audit and the tag plan, exactly when they answer what, all publications over time |
| `Octal`, `Tar`, `TarTamper`, `TarWriter`, `EvidenceTar`, `EvidenceTarTheorems`, `PackageTar`, `PackageTarTheorems` | the two tar readers, and a writer for what they have to take |
| `Checksums`, `ChecksumsTheorems` | SHA256SUMS |
| `Forwarder`, `Watchdog` | the test watchdog |
| `EagerSet`, `CacheInventory` | the eager-payload worklist and the cache inventory |

## Promises that hold only under a condition

The comments in `apps/frontend/build.ts` promise that a previous bundle survives, that a superseded
publisher leaves the newer bundle alone, and that a stale backup is never restored. With other publishers
interleaving between file-system calls these hold under conditions which the model gives exactly, each
with schedules that break the promise when the condition fails:

- A complete bundle is always at `dist` or in a backup exactly when at most one publisher runs, or two run
  and the rollback's removal of a failed bundle never stops half way. With three publishers some schedule
  leaves no complete bundle anywhere.
- A publisher never removes a bundle another one built off `dist` exactly when it is alone, or nobody else
  runs between its rename and the stat that follows, nor between its identity check, removal and restore.
- A publisher never restores a backup that a later bundle has overtaken exactly when it is alone, or there
  are two of them, nobody runs in those windows, no signal arrives while a finalizer is awaited and no
  removal fails: the retry and the cleanup look only at whether `dist` exists, and another publisher's
  rename window looks like a free destination. With three publishers no care helps: one that lost the race
  before publishing retries its restore while a third has the finished bundle of the second moved aside.
- One build gives up its previous bundle for an unfinalized one exactly when both renames succeed, the
  finalizer throws and the stat before or after it fails, so that the run takes its own bundle for a newer
  one's. `TwoFaultsLoseTheBundle` is such a run.
- A retried test attempt starts from the timings of the first attempt exactly when no plain file stands in
  the place of the timings directory; such a file is removed and not put back.
- The cache inventory is complete exactly when its problem list is empty, unless its page limit allows no
  page at all; the report refuses such a limit before it takes an inventory.
- An empty checksum list prints as a blank line, which the parser refuses.
- An exhausted visibility window reads once per lookup exactly when its first delay is positive; a zero
  delay costs no budget and is retried for free.

## Model

| member | source | states |
|---|---|---|
| ConcurrentPublishTheorems.CompleteExactly | apps/frontend/build.ts:376-472 | over every interleaving of n publishers, some complete bundle is at dist or in a backup in every reachable state iff n is at most 1, or n is 2 and the rollback's removal never fails part way |
| ConcurrentPublishTheorems.ForeignRemovalExactly | apps/frontend/build.ts:399-449 | no publisher ever takes a whole bundle another one built off dist without keeping it as its backup iff n is at most 1 or both check-then-act windows are atomic |
| ConcurrentPublishTheorems.StaleRestoreExactly | apps/frontend/build.ts:114-131 | no publisher ever puts its backup live again after a later bundle, its own or another's, went live and was not taken back by its builder, in the rollback, its retry or in later cleanup, iff n is at most 1, or n is 2, both windows are atomic, removals do not fail and no signal arrives |
| ConcurrentPublishTheorems.LateRestoreIsStale | apps/frontend/build.ts:450-455 | for every n of at least 3 and every configuration a publisher that lost the race before publishing restores its old bundle over the finished bundle of another while a third has that moved aside |
| ConcurrentPublishTheorems.DuoStep | apps/frontend/build.ts:376-472 | every step of either of two publishers keeps the pairwise invariant that leaves a whole bundle somewhere |
| ConcurrentPublishTheorems.OwnershipStep | apps/frontend/build.ts:399-426 | with both windows atomic, identities are truthful after every step and the step removes no foreign bundle |
| ConcurrentPublishTheorems.CalmStep | apps/frontend/build.ts:399-463 | with two publishers and nothing to interrupt them, every step keeps it that a bundle which overtook a restorable backup is live, and restores nothing overtaken |
| ConcurrentPublishTheorems.LoneCalmStep | apps/frontend/build.ts:399-463 | a lone publisher has taken its own bundle back whenever it restores its backup, whatever fails |
| ConcurrentPublishTheorems.ThreeCanLoseEverything | apps/frontend/build.ts:390-426 | for every n of at least 3 and every configuration a schedule reaches a state with no complete bundle anywhere |
| ConcurrentPublishTheorems.PartialRemovalCanLoseEverything | apps/frontend/build.ts:410-426 | with two publishers and a removal that stops half way a schedule loses every complete bundle |
| ConcurrentPublishTheorems.StatWindowRemovesForeign | apps/frontend/build.ts:402-416 | a publisher that runs between rename and stat lends its identity to the other, whose rollback then removes it |
| ConcurrentPublishTheorems.RollbackWindowRemovesForeign | apps/frontend/build.ts:408-416 | a publisher that runs between identity check and removal loses its bundle to the rollback |
| ConcurrentPublishTheorems.SignalRestoresStale | apps/frontend/build.ts:114-131 | a signal during the finalizer, while another publisher has dist moved aside, restores a stale backup |
| ConcurrentPublishTheorems.FailedRemovalRestoresStale | apps/frontend/build.ts:450-463 | a failed removal leaves the backup tracked, and the retry restores it into another publisher's rename window |
| ConcurrentPublishTheorems.RollbackWindowRestoresStale | apps/frontend/build.ts:417-426 | without rollback atomicity the inline restore puts back a stale backup |
| ConcurrentPublishTheorems.StatWindowRestoresStale | apps/frontend/build.ts:402-426 | without stat atomicity the inline restore puts back a stale backup |
| ConcurrentPublishCleanup.BackupsAreRemoved | apps/frontend/build.ts:95-131 | over every interleaving, when removals of backups leave nothing, a publisher that has exited leaves its backup iff it gave it up without removing it: after a failed rollback that found dist in use, or when the rename of its cleanup found it in use |
| ConcurrentPublishCleanup.LocalStep | apps/frontend/build.ts:376-485 | every step keeps it that a backup is held exactly while it is tracked, in removal or kept |
| FrontendBuild.Build.PublishBuild | apps/frontend/build.ts:342-354 | whatever calls fail: a completed build is live and finalized; the previous bundle stays live or intact in the backup unless the new one is live and finalized; bundle and metafile are both new or both old when the rollback's calls succeed; the one exception, where the run takes its own bundle for a newer one's, is reached exactly on the fault lists where both renames succeed, the finalizer throws and the stat before or after it fails, for every kind of finalizer; then an unfinalized bundle is live and, if nothing else failed, the previous one is gone; one fault never reaches it, no fault means success; after success no staging path is left, and each of the two backups iff the very call that removes it fails; nothing stays tracked and no other path changes |
| FrontendBuild.Build.PublishDist | apps/frontend/build.ts:376-485 | for every outcome of every rename, removal, stat and finalizer: what is at dist, at the backup and tracked afterwards, how many faults each ending takes, exactly which fault lists end in the exception, and that after success a backup is left iff the call that removes it fails |
| FrontendBuild.Build.PublishStaged | apps/frontend/build.ts:399-485 | the same from the moment the previous bundle is out of the way |
| FrontendBuild.Build.PublishMetafile | apps/frontend/build.ts:488-529 | the metafile is replaced, or the previous one or its absence is put back unless the rollback's own calls fail; which fault lists make it throw, and after how many calls; after success the backup is left iff its removal fails |
| FrontendBuild.Build.PutMetafileBack | apps/frontend/build.ts:504-518 | the previous metafile is renamed back, at once or by the retry, or nothing changes |
| FrontendBuild.Build.RollBack | apps/frontend/build.ts:406-472 | the previous bundle is live again or kept where no cleanup removes it; a bundle of somebody else is left alone |
| FrontendBuild.Build.FinishPublish | apps/frontend/build.ts:404-484 | after the staged bundle went live, it is finalized or rolled back; the run disowns it iff the finalizer throws and the stat before or after it fails; after success the previous bundle is left iff the removal of its backup fails |
| FrontendBuild.Build.KeepPublished | apps/frontend/build.ts:474-484 | after the finalizer completed the backup is removed, and is left iff that call fails |
| FrontendBuild.Build.DropBackup | apps/frontend/build.ts:474-484 | the backup is forgotten, and gone unless the call that removes it fails or a signal comes; a failure is no error |
| FrontendBuild.Build.CatchFinalizer | apps/frontend/build.ts:406-472 | after the finalizer threw, dist is recognised iff both stats work; then the previous bundle is back or kept, else dist is left alone and the backup dropped |
| FrontendBuild.TwoFaultsLoseTheBundle | apps/frontend/build.ts:404-449 | a concrete run: the stat after the rename fails and the custom finalizer throws, the unfinalized bundle is live and the previous one is nowhere |
| FrontendBuild.Build.RenameIn | apps/frontend/build.ts:401-426 | the staged bundle is live, or the previous one is back or kept |
| FrontendBuild.Build.MoveAside | apps/frontend/build.ts:382-397 | the live path moves onto a tracked backup, or nothing changed and nothing is tracked |
| FrontendBuild.Build.RemoveTempPaths | apps/frontend/build.ts:114-131 | nothing stays tracked; a backup whose destination is free survives there or where it is; a destination that holds something is never touched; when every call works each tracked path is gone and each restorable one is at its destination |
| FrontendBuild.Build.RemoveTempPath | apps/frontend/build.ts:115-130 | one round of cleanup changes the path and a free destination only; a restorable backup is moved there iff the call works, and any other path is gone unless the call leaves something |
| FrontendBuild.CleaningStep | apps/frontend/build.ts:114-131 | one round of cleanup moves its own path from pending to visited and leaves every other tracked path as it was |
| FrontendBuild.Build.RestoreTempPath | apps/frontend/build.ts:95-107 | the tracked backup is renamed to its free destination and forgotten iff the call works; otherwise nothing changes |
| FrontendBuild.Build.UntrackTempPath | apps/frontend/build.ts:81-84 | the path is forgotten whatever the removal does, and gone unless the call leaves something |
| FrontendBuild.Build.FileIdentity | apps/frontend/build.ts:162-174 | the identity of an existing path, nothing if absent or unreadable |
| FrontendBuild.Build.DropStaging | apps/frontend/build.ts:349-354 | when it completes no staging path exists or is tracked; nothing else changes |
| FrontendBuild.Build.CleanUp | apps/frontend/build.ts:349-354 | after publishDist: staging is dropped unless a signal came, everything tracked is cleaned up unless all went well, and a restorable previous bundle survives |
| FrontendBuild.Build.Abandon | apps/frontend/build.ts:632-650 | cleanup after a failed or interrupted build empties the tracking and keeps dist and a restorable backup |
| Visibility.Window.Read | scripts/lib/canary-visibility.ts:42-55 | the result is the last observation and the first visible one if any; the reads are at most one more than the retries the budget allows; the budget falls by exactly what was slept |
| Visibility.Window.constructor | scripts/lib/canary-visibility.ts:21-36 | a window starts with the sum of its delays, and sleep plus remaining budget is that sum ever after |
| Visibility.Open | scripts/lib/canary-visibility.ts:21-36 | a window opens iff there are at most 16 delays, none negative, that add up to at most a minute |
| Visibility.SleptBounded | scripts/lib/canary-visibility.ts:42-55 | no lookup sleeps past the shared budget or past its own delays |
| Visibility.RetriesBounded | scripts/lib/canary-visibility.ts:42-55 | a lookup retries at most once per delay |
| Visibility.ExhaustedReadsOnce | scripts/lib/canary-visibility.ts:42-55 | an exhausted window reads once per lookup iff it has no delay or its first is positive |
| Visibility.StoppedEarlyMeansSpent | scripts/lib/canary-visibility.ts:42-55 | a lookup that stops before its last delay has slept the whole budget |
| ReleaseAudit.Verify | scripts/lib/canary-release.ts:55-149 | the audit answers what the specification says for every answer of the remote |
| ReleaseAudit.AuditExactly | scripts/lib/canary-release.ts:55-149 | the audit concludes iff the expectation is valid and: there is no release and no foreign tag; or the release is a pre-release under its own tag, immutable with that tag at the source once public, every listed asset is uploaded, expected and unique, and a public one lists all; and what it concludes then |
| ReleaseAudit.ValidateExpectation | scripts/lib/canary-release.ts:171-217 | succeeds iff repository, source and version fit together, there is an asset, every asset has a plain name, a safe size and a digest, and names are unique; maps each name to its asset |
| ReleaseAudit.ExpectationExactly | scripts/lib/canary-release.ts:171-217 | an expectation is valid iff repository, full commit and canary version fit together and there is an asset, each under a plain name of its own with a safe size and a digest |
| ReleaseAudit.CollectAssets | scripts/lib/canary-release.ts:192-216 | the asset loop succeeds iff every asset is valid and no name repeats |
| ReleaseAudit.CheckListing | scripts/lib/canary-release.ts:112-136 | succeeds iff every listed asset is uploaded, expected, unique and of approved size and digest, and returns exactly the listed names |
| ReleaseAudit.Partition | scripts/lib/canary-release.ts:137-149 | missing and present are the expected assets split by the listing, in order |
| ReleaseAudit.ConclusionSound | scripts/lib/canary-release.ts:55-149 | a complete release misses nothing, an absent one everything, and whatever is not missing was listed with approved size and digest |
| ReleaseRun.PublishCanaryRelease | scripts/lib/canary-release-publisher.ts:43-140 | whatever the remote answers the run ends; its log is legal: no write before every missing asset was hash-checked, publish only right after an audited draft missing nothing; each name is uploaded at most once, at most assets plus 2 writes; success only after a complete audit, saying what was written. It fails iff the window is refused, an audit, a file check or a command fails, or the last audit does not show what was written. A complete release is left alone. When commands succeed, the files match and every write shows within the retry budget, it succeeds and its commands are exactly one creation if there was no release, one upload per missing asset in order, and one publication |
| ReleaseRun.PublishVerified | scripts/lib/canary-release-publisher.ts:43-140 | the same for a client whose audits are sound |
| ReleaseRun.ImmediateIsPrompt | scripts/lib/canary-release-publisher.ts:97-140 | a remote that shows every write in the next audit shows them within the budget, whatever the delays |
| ReleaseRun.StaysOnSchedule | scripts/lib/canary-visibility.ts:42-55 | if a write shows within the retries that the rest of the shared budget allows, the lookup after it ends with the audit that shows it, with the budget the schedule says |
| ReleaseRun.WriteRelease | scripts/lib/canary-release-publisher.ts:66-140 | the writes after the second audit, on any steady course of the remote |
| ReleaseRun.WriteAndSee | scripts/lib/canary-release-publisher.ts:85-119 | one write and its lookup: a failed command or audit ends the run, otherwise the last audit is returned, and a steady course goes on |
| ReleaseRun.FillGaps | scripts/lib/canary-release-publisher.ts:97-122 | the upload loop uploads distinct expected names, one write each, succeeds only after an audit missing nothing, and fails only if the log ended or is stuck |
| ReleaseRun.FinishDraft | scripts/lib/canary-release-publisher.ts:97-140 | an audited draft is filled, published once and confirmed within the write bound, or the log ended or is stuck |
| ReleaseRun.Precheck | scripts/lib/canary-release-publisher.ts:61-63 | succeeds iff every missing asset has a matching local file, without any write |
| ReleaseRun.Client.VerifyLocalAsset | scripts/lib/canary-release-publisher.ts:142-162 | answers whether the path is no option, carries no label or line end and names the asset, and the file has the approved size and digest |
| ReleaseRun.BasenameIs | scripts/lib/canary-release-publisher.ts:142-152 | a file name is the base name of its paths |
| ReleaseRun.Client.Mutate | scripts/lib/canary-release-publisher.ts:172-186 | one write is logged with the outcome reported |
| ReleaseRun.Client.ReadUntil | scripts/lib/canary-release-publisher.ts:89-92 | a read through the shared window only audits, until one throws or shows the write or the retries that the budget allows are used up, and ends with the audit it returns |
| ReleaseRun.ObserveMany | scripts/lib/canary-release-publisher.ts:89-92 | repeated audits keep the log legal and write nothing |
| ReleaseProtocol.ReleaseAlwaysGood | scripts/lib/canary-release-publisher.ts:43-140 | over every interleaving of any number of runs with stale listings and lost, late, repeated or partial commands, at every moment: the release holds only expected assets with approved bytes, nothing is replaced or removed, and a public release holds exactly the expected set |
| ReleaseProtocol.SuccessMeansPublic | scripts/lib/canary-release-publisher.ts:124-140 | a run that ends with a complete audit leaves a public release with exactly the expected assets, whatever the others do |
| ReleaseProtocol.EntitledIsHarmless | scripts/lib/canary-release-publisher.ts:59-133 | a write the run discipline allows does no harm, whatever happened since the run last looked |
| ReleaseProtocol.HonestAuditHolds | scripts/lib/canary-release.ts:55-149 | an audit of honest answers, however old, claims no asset that is not stored now |
| ReleaseProtocol.TrueAnswerIsAccepted | scripts/lib/canary-release.ts:55-149 | a good release without half-finished uploads, answered as it is, is found a draft or complete, and missing is exactly what is not stored |
| ReleaseProtocol.StepKeeps | scripts/lib/canary-release-publisher.ts:43-140 | every step of every run and of the remote keeps the invariant |
| ReleaseProtocol.PublicIsExact | scripts/lib/canary-release.ts:93-149 | a good public release holds exactly the expected assets |
| Approval.RecoverActions | scripts/lib/canary-approval.ts:233-427 | answers the order-free verdict: an error if any listing is inconsistent, none if nothing was ever reserved, an error if a success at or before the earliest indexed one lost its artifact or indexed copies differ, else the earliest copy that still exists if it is intact |
| Approval.Collect | scripts/lib/canary-approval.ts:254-370 | every indexed and every lost reservation of all runs, or an error iff a run is inconsistent |
| Approval.ScanRun | scripts/lib/canary-approval.ts:259-370 | the reservations one run contributes, or an error iff its jobs or artifacts are inconsistent |
| Approval.ScanJob | scripts/lib/canary-approval.ts:297-369 | the one candidate bound to a successful job, or that none is |
| Approval.CheckJobs | scripts/lib/canary-approval.ts:271-285 | succeeds iff the approval jobs are valid and their attempts unique |
| Approval.SortByKey | scripts/lib/canary-approval.ts:371-376 | the same elements, in order of run number and attempt |
| Approval.ReadFirstCopy | scripts/lib/canary-approval.ts:394-426 | the earliest copy that still exists is read, and returned iff it is intact |
| Approval.Decide | scripts/lib/canary-approval.ts:389-427 | the verdict once a reservation is indexed |
| ApprovalTheorems.OrderFree | scripts/lib/canary-approval.ts:254-427 | for every reordering of runs, jobs and artifacts the answer is the same |
| ApprovalTheorems.VerdictUnique | scripts/lib/canary-approval.ts:233-427 | the verdict is a function of the listings and downloads |
| ApprovalTheorems.KeyDetermines | scripts/lib/canary-approval.ts:371-375 | run number and attempt name one indexed reservation |
| ApprovalTheorems.SameFacts | scripts/lib/canary-approval.ts:254-370 | reordering changes neither consistency nor the indexed nor the lost reservations |
| ApprovalTheorems.RecoveredIsBound | scripts/lib/canary-approval.ts:271-423 | what is recovered was uploaded by a successful approval job of this repository's main branch while it ran, is of the recorded size, digest and payload hash, and is attested; no other approval reserves another payload |
| ApprovalHistory.LoadApproval | scripts/lib/canary-approval.ts:81-131 | a pinned approval is met or the load fails, and fresh bytes never stand in for it; release evidence decides alone; otherwise a recovered copy succeeds iff it meets the pin, and fresh CI bytes are taken iff nothing was ever reserved and nothing is pinned |
| ApprovalHistory.ApprovalLoads | scripts/lib/canary-approval.ts:254-427 | a first approval recorded as the workflow records it loads back, with its pin or without |
| ApprovalHistory.OnePayloadForever | scripts/lib/canary-approval.ts:81-131 | over every history of approval jobs, with artifacts expiring, vanishing and listed in any order, every successful reservation carries the first one's payload hash, and every later load gives that payload or fails |
| ApprovalHistory.LoadKeepsPayload | scripts/lib/canary-approval.ts:81-117 | once anything is approved a load never takes fresh bytes and never other bytes |
| ApprovalHistory.ApprovalIsRemembered | scripts/lib/canary-approval.ts:233-427 | with a successful approval on record recovery never answers none |
| ApprovalHistory.CopyCarries | scripts/lib/canary-approval.ts:394-423 | a recovered payload has the hash its reservation recorded |
| ApprovalHistory.StepKeeps | scripts/lib/canary-approval.ts:81-131 | approving, aborting and decaying keep the invariant |
| CanarySource.SelectExactly | scripts/lib/canary-source.ts:33-103 | a source is selected iff every listed run can be read, one successful run is newer than all others, and that run describes the source |
| CanarySource.SelectForgetsOrder | scripts/lib/canary-source.ts:42-53 | the order of the listing does not matter |
| CanarySource.NewerDecides | scripts/lib/canary-source.ts:42-103 | a newer successful run decides alone, even when it can only fail |
| SourceSnapshot.ResolveSource | scripts/lib/canary-source-snapshot.ts:52-225 | recovery inputs, else the snapshot of the earliest successful source job, else the newest run; any inconsistency fails |
| SourceResolution.ResolveIsExact | scripts/lib/canary-source-snapshot.ts:52-225 | a source is resolved iff: recovery inputs name a successful push run of this repository in a dispatched run; or the earliest successful source job before this attempt has one live artifact, uploaded while it ran, whose intact bytes are a snapshot of this repository and revision and whose CI run still is what it says; or there is no such job and the newest successful run is this repository's own; and to what |
| SourceResolution.RestoreIsExact | scripts/lib/canary-source-snapshot.ts:144-224 | when and to what a rerun restores |
| SourceResolution.ArtifactIsExact | scripts/lib/canary-source-snapshot.ts:158-190 | the artifact that is read is the only one of its attempt, live, bounded and uploaded while the job ran |
| SourceResolution.RecoverIsExact | scripts/lib/canary-source-snapshot.ts:70-94 | when and to what a recovery resolves |
| SourceResolution.NewestIsExact | scripts/lib/canary-source-snapshot.ts:130-143 | when and to what a first attempt resolves |
| SourceResolution.WriteIsExact | scripts/lib/canary-source-snapshot.ts:232-281 | a snapshot is written iff commit, revision and version are those of the checkout, and restored bytes only if they are that snapshot |
| SourceSnapshot.CheckJobs | scripts/lib/canary-source-snapshot.ts:103-120 | succeeds iff the source jobs belong to this run, one per attempt, with the current attempt among them |
| SourceSnapshot.Original | scripts/lib/canary-source-snapshot.ts:121-129 | the earliest successful source job before the current attempt |
| SourceHistory.OneSnapshotForever | scripts/lib/canary-source-snapshot.ts:95-224 | over all reruns of a canary run, while CI history, listings and artifacts change, every successful source job writes the bytes of the first |
| SourceHistory.RerunRestores | scripts/lib/canary-source-snapshot.ts:144-224 | a rerun after a success writes the bytes of the first success or nothing |
| SourceHistory.RecoveryIsFixed | scripts/lib/canary-source-snapshot.ts:70-94 | an explicit recovery writes what its inputs determine |
| SourceHistory.OriginalIsFirst | scripts/lib/canary-source-snapshot.ts:121-129 | truthful listings point every rerun at the first successful attempt |
| SourceHistory.MissingBlocks | scripts/lib/canary-source-snapshot.ts:158-168 | once a source job succeeded, a rerun without its one live artifact fails |
| SourceHistory.WrittenIsRestorable | scripts/lib/canary-source-snapshot.ts:232-281 | a snapshot that was written reads back, and writing it again gives its bytes |
| PublicationDecision.AuditCanaryPublication | scripts/lib/canary-publication-audit.ts:69-198 | the audit decides iff identity, npm receipt, the fresh-CI rule and the listing hold: nothing to do if the version is complete and owns every tag; superseded if it is complete and one strictly newer version owns every tag; otherwise it publishes exactly what is missing iff every owner and every published canary is the selected source or its ancestor |
| PublicationDecision.AuditDecides | scripts/lib/canary-publication-audit.ts:69-198 | the same of the specification: one decision for every answer of both channels, over owners and releases |
| PublicationDecision.InspectIsExact | scripts/lib/canary-publication-audit.ts:213-276 | the listing is accepted iff every entry can be read, every watched release is proper, tagged at a commit of known standing and no second version of the selected source, and none repeats an ID or tag |
| PublicationDecision.InspectOrders | scripts/lib/canary-publication-audit.ts:168-174 | nothing published is ahead or across iff the selected source is or descends from the source of every watched release |
| PublicationDecision.PlanIsExact | scripts/lib/canary-tags.ts:233-277 | a plan exists iff every owner is none, the selected version at the selected source, or another version at a strict ancestor |
| PublicationDecision.PlanLists | scripts/lib/canary-tags.ts:233-277 | the updates are the packages whose tag the selected version does not own, each once and in order |
| PublicationDecision.ReceiptIsExact | scripts/lib/canary-publication-audit.ts:86-98 | a receipt is accepted iff present and missing are the seven packages, each once |
| PublicationDecision.OvertakenIsExact | scripts/lib/canary-publication-audit.ts:134-165 | a unanimous other owner supersedes iff its tagged source is a strict descendant, and may be recovered over iff it has no tag or a strict ancestor's |
| PublicationAudit.InspectPublished | scripts/lib/canary-publication-audit.ts:213-276 | the published canaries of the listing in order, or an error |
| PublicationAudit.InspectReports | scripts/lib/canary-publication-audit.ts:213-290 | every watched release is reported with the source of its tag and how that stands to the selected one |
| PublicationAudit.InspectKeeps | scripts/lib/canary-publication-audit.ts:223-275 | no release ID or tag is reported twice |
| PublicationAudit.PlanCanaryTagUpdates | scripts/lib/canary-tags.ts:188-278 | the plan of the uncached definition |
| PublicationAudit.PlanPackages | scripts/lib/canary-tags.ts:233-277 | the loop over the packages with its cache plans as without it |
| PublicationAudit.PlanIsForward | scripts/lib/canary-tags.ts:237-276 | a plan exists only if the selected source is or descends from every channel owner |
| PublicationHistory.PublicationIsMonotone | scripts/lib/canary-publication-audit.ts:121-197 | from an empty channel, after every sequence of audits and writes that may stop anywhere, the sources ever published on either channel are a chain and the last one published is its maximum |
| PublicationHistory.PublishedIsNewest | scripts/lib/canary-publication-audit.ts:166-197 | what the audit lets through is or descends from everything ever published |
| PublicationHistory.OwnersMoveForward | scripts/lib/canary-tags.ts:237-276 | no canary tag moves backwards or across |
| PublicationHistory.NoopMeansComplete | scripts/lib/canary-publication-audit.ts:121-159 | a no-op means all seven packages are there, the release is complete, and one version owns every channel: this one or one whose source is strictly newer |
| PublicationHistory.PublishIsNeeded | scripts/lib/canary-publication-audit.ts:168-197 | a decision to publish names exactly the missing packages, the tags this version does not own and an incomplete release, never nothing; the reason follows from them |
| PublicationHistory.PlanSorts | scripts/lib/canary-tags.ts:233-277 | a package is to be updated iff the selected version does not own its tag, else it is unchanged |
| PublicationHistory.StepKeeps | scripts/lib/canary-publication-audit.ts:166-197 | every audited publication keeps the chain and its cover by current releases and owners |
| Tar.WalkExactly | scripts/lib/canary-approval.ts:537-590 | an archive is accepted iff it is acceptable members one after the other, each padded to whole blocks, then only zero bytes and at least a block of them; it comes apart in one way |
| Tar.WalkJoin | scripts/lib/canary-approval.ts:537-590 | members written out read back as the same members |
| Tar.JoinWalk | scripts/lib/canary-approval.ts:537-590 | members that were read write out to the same bytes |
| Tar.PaddedIsCeil | scripts/lib/canary-approval.ts:586 | the padded size is the content size rounded up to 512 |
| TarTamper.ChangeIsRefused | scripts/lib/canary-publication.ts:339-350 | under rules that check sums, any other value of any byte of a header outside its checksum field, or of the zero bytes at the end, turns an accepted archive into a refused one |
| TarTamper.BodyIsFree | scripts/lib/canary-publication.ts:390-393 | any value of a content or padding byte leaves the archive accepted with only that byte changed |
| TarTamper.FieldChangeExactly | scripts/lib/canary-publication.ts:324-350 | under rules that read the checksum field for the checksum only, a changed checksum byte is accepted iff the rules take such a byte there and the field still states the sum; then only that byte of that header differs |
| TarTamper.ChangedFails | scripts/lib/canary-approval.ts:555-571 | a header that passes its checksum fails it after any change outside the checksum field |
| Octal.NumberReadsDigits | scripts/lib/canary-approval.ts:553-555 | a number printed as octal digits and NUL reads back |
| EvidenceTar.ReadKnownTar | scripts/lib/canary-approval.ts:526-591 | the loop with its offset and file map reads what the specification says |
| EvidenceTar.ReadFiles | scripts/lib/canary-approval.ts:540-587 | the record loop, over any header rules |
| EvidenceTar.ReadKnownExactly | scripts/lib/canary-approval.ts:526-591 | accepted iff whole blocks, known members in sequence, each known file once and every required one present; the result is exactly their contents |
| EvidenceTarTheorems.RoundTrip | scripts/lib/canary-approval.ts:526-591 | for every list of files with distinct known names including the required ones and any contents, of either file type, with or without a leading `./` and beside any of the two known directories, and whatever bytes fill the unread header fields, reading their ustar encoding gives exactly those names and contents |
| EvidenceTarTheorems.EvidenceBytes | scripts/lib/canary-approval.ts:550-584 | every member of accepted evidence has type byte 0, 48 or 53, no prefix, and fields that state its size and sum; a directory is empty and one of the two known ones, a file has a known name |
| EvidenceTarTheorems.StampIsKnown | scripts/lib/canary-approval.ts:550-584 | a header with octal size and checksum is accepted with its name and size |
| TarWriter.StampSums | scripts/lib/canary-publication.ts:324-350 | a written header states its own checksum |
| TarWriter.PackIsSound | scripts/lib/canary-approval.ts:537-590 | entries that the rules take one by one make a sound archive |
| EvidenceTarTheorems.HeadersAreSealed | scripts/lib/canary-approval.ts:550-571 | the same for any reader of that shape whose header rules check the sum |
| EvidenceTarTheorems.EvidenceIsSealed | scripts/lib/canary-approval.ts:526-591 | readKnownTar refuses evidence it accepted once any header byte outside the checksum fields, or any zero byte at the end, has another value |
| EvidenceTarTheorems.ContentsAreFree | scripts/lib/canary-approval.ts:583-586 | changing a content or padding byte keeps the evidence accepted, with the same names and at most that byte of that content changed |
| EvidenceTarTheorems.ChecksumsSpeakForHeaders | scripts/lib/canary-approval.ts:555-571 | the same for any reader of that shape whose rules read the checksum field for the checksum only |
| EvidenceTarTheorems.EvidenceChecksums | scripts/lib/canary-approval.ts:553-571 | readKnownTar accepts a changed checksum byte iff the field still states the sum, and then reads the same |
| EvidenceTarTheorems.EveryByteIsCovered | scripts/lib/canary-approval.ts:540-587 | every byte of an accepted archive is a guarded header or final byte, a content or padding byte, or a checksum byte |
| EvidenceTarTheorems.KnownFieldsAreSums | scripts/lib/canary-approval.ts:550-571 | the reader reads the checksum field for the checksum only |
| EvidenceTarTheorems.KnownChecksSums | scripts/lib/canary-approval.ts:555-571 | the reader accepts no header whose checksum is wrong |
| PackageTar.AssertRegularTar | scripts/lib/canary-publication.ts:314-396 | the check accepts iff the archive comes apart into acceptable members |
| PackageTarTheorems.PackageBytes | scripts/lib/canary-publication.ts:314-396 | every member of an accepted package has type byte 0, 48 or 53, no prefix and a plain path; a directory is empty; its fields state its size and sum; its mode is at most 0777, and 0755 for the binaries of a Unix package |
| PackageTarTheorems.PackageDigits | scripts/lib/canary-publication.ts:324-338 | its number fields hold octal digits, spaces and NULs only |
| PackageTarTheorems.PackageRoundTrip | scripts/lib/canary-publication.ts:314-396 | files and empty directories under distinct plain paths with legal modes and any contents, written as a ustar archive, are accepted and come apart as they were written |
| PackageTarTheorems.NamesArePlain | scripts/lib/canary-publication.ts:372-390 | names without separators, none empty, `.` or `..`, glued below `package` are a plain path, also with a slash at the end |
| PackageTarTheorems.PlainPathsAreNames | scripts/lib/canary-publication.ts:372-390 | there are no other plain paths |
| PackageTar.AssertRegular | scripts/lib/canary-publication.ts:314-396 | the loop with its offset and set of seen paths, over any header rules |
| PackageTar.PackageIsSealed | scripts/lib/canary-publication.ts:314-396 | assertRegularTar refuses a package it accepted once any header byte outside the checksum fields, or any zero byte at the end, has another value |
| PackageTar.PackageIsContained | scripts/lib/canary-publication.ts:372-390 | every path of a package assertRegularTar accepts resolves to itself below `package` in whatever directory it is unpacked, and no two members share a path |
| PackageTar.PackageChecksums | scripts/lib/canary-publication.ts:324-350 | assertRegularTar accepts a changed checksum byte iff it is NUL, a space or an octal digit and the field still states the sum |
| PackageTar.AcceptedIsContained | scripts/lib/canary-publication.ts:372-390 | the same for any header rules that take only new plain paths |
| PackageTar.RegularChecksSums | scripts/lib/canary-publication.ts:324-350 | the raw-field test makes the unmasked reading of the checksum as strict as the masked one |
| PackageTar.PartsGlue | scripts/lib/canary-publication.ts:380-383 | the parts of a path hold no slash and glue back to the path |
| Checksums.Checksums | scripts/lib/canary-approval.ts:508-525 | the line loop parses what the specification says |
| Checksums.SortForgetsOrder | scripts/lib/canary-publication-evidence.ts:78-79 | a list without repeated names sorts the same from every order |
| Checksums.LessIsStrict | scripts/lib/canary-publication-evidence.ts:79 | code-unit comparison is a strict total order |
| ChecksumsTheorems.RoundTripExactly | scripts/lib/canary-approval.ts:508-525 | the printed file parses to the list's map iff the list is nonempty, every entry is a lower-case digest and a plain name, and no name repeats |
| ChecksumsTheorems.PrintForgetsOrder | scripts/lib/canary-publication-evidence.ts:78-81 | the printed file is the same for every order of the assets |
| ChecksumsTheorems.ProperRoundTrip | scripts/lib/canary-publication-evidence.ts:76-84 | a nonempty list of proper entries parses back to its map, or fails iff a name repeats |
| Forwarder.BackpressureIsExact | scripts/ci/run-tests-watchdog.ts:303-338 | after any events the child is paused iff a sink is blocked, a blocked sink awaits its drain and is not a failed log, the mirror got every chunk once and in order, and the log every chunk until it failed |
| Forwarder.NeverStuck | scripts/ci/run-tests-watchdog.ts:304-331 | once the sinks drained, or the log failed instead, the child runs |
| Forwarder.FlowKeeps | scripts/ci/run-tests-watchdog.ts:303-331 | every event keeps paused and blocked in step |
| Forwarder.DeliveryKeeps | scripts/ci/run-tests-watchdog.ts:325-338 | every event keeps what the sinks were given in step with what the child wrote |
| Forwarder.Attempt.Forward | scripts/ci/run-tests-watchdog.ts:333-338 | a chunk goes to the mirror and, while writable, to the log |
| Forwarder.Attempt.WriteTo | scripts/ci/run-tests-watchdog.ts:309-318 | a refused write blocks the sink, pauses the child and registers one drain listener |
| Forwarder.Attempt.OnDrain | scripts/ci/run-tests-watchdog.ts:314-317 | a drain unblocks its sink and resumes the child if no other is blocked |
| Forwarder.Attempt.OnLogError | scripts/ci/run-tests-watchdog.ts:325-331 | a log error unblocks the log for good, resumes if nothing else is blocked and leaves a notice |
| Watchdog.Invocation.RunTests | scripts/ci/run-tests-watchdog.ts:434-587 | every field of the receipt follows from what the attempts did and wrote, the attempts start on the timings stated, and a preserved log is that of attempt 1 |
| Watchdog.Invocation.Retry | scripts/ci/run-tests-watchdog.ts:491-498 | the log is moved away if wanted and possible, the timings are restored, attempt 2 runs |
| Watchdog.Invocation.Observe | scripts/ci/run-tests-watchdog.ts:480-489 | findings and crashes are recorded from a red attempt's log only |
| Watchdog.Invocation.RestoreTimings | scripts/ci/run-tests-watchdog.ts:423-426 | the timings are what the backup holds, or absent |
| Watchdog.GreenExactly | scripts/ci/run-tests-watchdog.ts:504-557 | exit 0 iff the last attempt exited 0 by itself and, after a retry, the log read from the first attempt reported nothing |
| Watchdog.RetriesExactly | scripts/ci/run-tests-watchdog.ts:504-533 | two attempts iff the first hung, or crashed where retries were asked for; otherwise one, whose own code is reported |
| Watchdog.FindingsAreRed | scripts/ci/run-tests-watchdog.ts:550-573 | findings on the receipt never come with exit 0 |
| Watchdog.FailuresAreReported | scripts/ci/run-tests-watchdog.ts:151-213 | a line reports a failure if it is a positive count, blanks and `fail`, `error` or `errors`, starts with `(fail)`, or is the heading of an unhandled error |
| Watchdog.ZeroIsNoFailure | scripts/ci/run-tests-watchdog.ts:135-156 | a count that starts with 0 reports nothing |
| Watchdog.RetryStartsAlike | scripts/ci/run-tests-watchdog.ts:404-426 | the retry starts from the first attempt's timings, absent ones included, iff no other file stands in their place |
| EagerSet.TraverseEagerSet | scripts/ci/frontend-bundle-report.ts:175-199 | the result is the least set of existing files that holds the shell and is closed under what its files reference; empty without a shell |
| EagerSet.EagerIsLoaded | scripts/ci/frontend-bundle-report.ts:175-199 | besides the shell a file is eager iff an eager file loads it: the shell by its page, a script by its imports |
| EagerSet.Visit | scripts/ci/frontend-bundle-report.ts:191-197 | one round of the worklist settles the head of the queue and adds nothing that is not in every closed set |
| EagerSet.AddAll | scripts/ci/frontend-bundle-report.ts:179-189 | everything existing that a file references is added, once |
| EagerSet.NeededIsIn | scripts/ci/frontend-bundle-report.ts:189-196 | a referenced file is in every closed set |
| CacheInventory.TakeInventory | scripts/ci/report-cache-usage.ts:102-169 | complete iff some page within the limit completes the listing, then with exactly the listed entries and count; complete iff no problem, unless no page may be read; complete or not, exactly the entries that can be counted of the pages up to the one where the reading stops, the pages read, the count the first page reports, distinct IDs and the exact byte total |
| CacheInventory.ReadPage | scripts/ci/report-cache-usage.ts:115-163 | one page ends the listing with the right inventory or leaves the next page to be read |
| CacheInventory.ReadBatch | scripts/ci/report-cache-usage.ts:130-152 | the entries of the page that can be counted are counted, in order; no problem iff all are |
| CacheInventory.IdsDistinct | scripts/ci/report-cache-usage.ts:142-151 | countable entries have as many IDs as entries and a safe total |
| CacheInventory.CountableExactly | scripts/ci/report-cache-usage.ts:130-152 | entries are countable iff each has a positive ID of its own, a key and a size, all safe integers, and the sizes add up to one |
| CacheInventory.NoneAtAll | scripts/ci/report-cache-usage.ts:115-163 | a page the loop stops at without completing means no page completes the listing |
| CacheInventory.FamilyTotals | scripts/ci/report-cache-usage.ts:328-341 | of any inventory: each row totals its family, rows are listed once each, and together they add up to its byte total and its number of entries |
| CacheInventory.Report | scripts/ci/report-cache-usage.ts:171-182 | refused iff the page limit is not a positive safe integer; else the inventory is complete iff it has no problem, and the family rows add up to its byte total and, when complete, to the reported count |

## Left out

- GitHub, npm, gzip, ZIP and process transport: answers, downloads and command outcomes are parameters or events of the environment.
- SHA-256, attestations, JSON, semantic versions, UTF-8 decoding and log-line normalisation are functions given as parameters; hashes are taken as free of collisions where a theorem says so.
- ReleaseAudit.ValidateExpectation: whether a version is a semantic version in normal form is a flag of the expectation.
- Error messages: every thrown error is one failure, so which check fires first is not modelled.
- `PublishDist` and `RemoveTempPaths` treat a directory tree as one value that a failed removal may damage; the files inside it are not modelled.
- `buildFrontend` before publication, HTML rewriting and the runtime configuration.
- The durable release evidence of an approval is a single answer that copies a reservation; reading its assets one by one is not modelled.
- `writeCanarySourceSnapshot` on resolutions that are not well formed: the model's resolutions are.
- The verification of npm package contents (`verifyCanaryNpmPublication`) behind the audit: its receipt is an answer.
- Executing the tag plan (`promoteCanaryTags`) command by command: a publication may move any of the tags and stop anywhere.
- Timeouts, kill grace periods and the settling of output: a hang is an outcome of an attempt.
- Exceptions while copying the timings baseline, which end the watchdog without a verdict.
- Regular expressions over HTML and scripts in the bundle report; references are given by functions.
- Cache families are labels given by a function; the rendering of the report is not modelled.
