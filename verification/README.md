# A model of the delivery orchestrator

The service delivers integration artifacts from one tenant to others: a delivery request names artifacts, each
artifact gets an operation row per tenant, users and pollers move the rows through import and deployment, and every
version that reaches a tenant is stored in a Git repository. Most of this runs concurrently, in several goroutines
and in several instances, with nothing but single SQL statements and single API calls as atomic steps. The modules
here say what such runs keep.

- **The Git store.** `Paths` and `GitObjects` model GitHub's objects: trees, commits, refs, the fast-forward rule.
  `CommitProtocol` runs any number of `Commit` calls against it, one API call per step, with lost replies and crashes;
  `GitClient` is the client's own code, loops and retries included, against a repository that others write to in
  between. `Manifest`, `Snapshots` and `GitSync` add the version, the snapshot table used as a lock and the whole of
  `gitSync`; `GitTags`, `GitTagged`, `GitTruth`, `GitMoved` and `GitClaims` prove what a tag names, exactly when a
  completed snapshot tells the truth, and how often its row can be claimed; `CommitRetries` and `GitAlone` when a call
  gives up and what a sync does that nobody disturbs.
- **The delivery pipeline.** `Lifecycle` and `CpiVersion` hold the state derivations and the version order,
  `Operations` and `Sync` one sync of a delivery request, `SyncAgain` and `SyncLock` many of them, `SyncTracker` the
  pollers. `Pipeline` cuts every call that touches operation rows or a request's status into its reads and its writes;
  `PhaseOrder`, `Cancel` and `Protection` say what holds of all its runs, `Calls` what each single call does. `Deliver`
  and `BatchChecks` are the code of the batch calls; `Deliver` and `SyncSteps` show that an undisturbed batch and an
  undisturbed sync are stretches of such runs.
- **The transport graph.** `TransportGraph` and `Downstream` are the two breadth-first searches.
- **Tenant bootstrap.** `Bootstrap` is the protocol between apply, background job, reset and identity change,
  `TenantBootstrapper` the calls one at a time.
- **Indexes, caches, views.** `WsIndex`, `WsHub` and `WsCalls`, `Expiry` and `TtlStores`, `DestinationCache` and
  `DestinationClient`, `CasIndex` and `TrGeneration`, `PackageSnapshot`, `VersionCompare` and `DrPreview`.

Objects the service updates in place are classes; the protocols between them are state machines over values, whose
steps are the same transactions. Times are integers, and TMS, the runtimes, the catalog, Cloud Foundry and the
Destination Service answer with arbitrary inputs.

`dafny verify dfyconfig.toml` verifies the whole project.

## What the code does not give

Where a property one would expect fails, the model keeps the code as it is, shows a run or an input, and proves
exactly when the property does hold.

- A commit never deletes, so a stored version reads back as the uploaded files only if the directory held no others
  (`GitObjects.RoundTripIff`).
- Taking over a failed or stale snapshot row keeps the tree path of the first claimant. If the artifact has moved to
  another package since, the completed row points at a directory its commit never wrote. The row tells the truth exactly
  when the sync that completed it worked in the row's directory, or the last sync of that directory in the commit's
  history had brought the same version (`GitMoved.MovedPackageLies`, `GitTruth.TruthIff`).
- Tag names and catalog keys are built by concatenation. A tag is an artifact version's own exactly when none of its four
  parts contains a slash (`GitTags.OwnTagIff`), a key is an artifact's own exactly when the separator occurs in it only
  where it was put (`CasIndex.OwnKeyIff`).
- The lock that keeps syncs from adding a row twice lives in one instance, and is enough exactly when all syncs run in
  that one (`SyncLock.NeverDuplicateIff`).
- Cancelling is documented as permanent (service/cancel.go:21-22). An approval, submission or roll-up that has read
  the request before and writes after it brings the request back (`Cancel.ApprovalUndoesCancellation`,
  `Cancel.CanceledForGoodIff`).
- The same comment says cancelling prevents further imports and deployments. The check looks at the request named in
  the call, not at the one the operations belong to, and the operations are started later than it is made. So it keeps a
  canceled request's rows from exactly those calls that name the request and are checked after the cancellation
  (`Protection.ProtectsIff`, `Protection.StartedWhileCanceled`).
- Resetting a tenant whose owner is still alive lets a later job run on a tenant already marked ready. A dead owner is
  not enough either: a reset makes one read and two writes without a transaction, and two that overlap do the same
  (`Bootstrap.OverlappingResetsFail`). A reset is safe exactly when it is called with no owner alive and no other reset
  under way (`Bootstrap.ResetSafeIff`).
- An upsert evicts its name from the cache, but a fetch answered before it can put the old value back
  (`DestinationCache.NeverStaleIff`).
- Version qualifiers that are not numbers, the empty one of a plain version among them, compare as equal to any other, so
  a sequence of imports that each pass the downgrade gate can lower a numeric qualifier. The order is transitive through
  exactly the versions whose qualifier is a number (`CpiVersion.TransitiveThroughIff`). The OSGi version order (section
  3.2.5 of OSGi Core Release 8) compares qualifiers as strings.
- An artifact that a compared tenant lacks is offered for delivery but not shown as a mismatch
  (`DrPreview.PreviewAgreesWithView`); one that differs only in being a draft is shown but not counted
  (`VersionCompare.CountedIff`). With one of the two views switched off, an artifact that differs only in the other is
  counted as a mismatch and dropped by the mismatch filter; nothing counted is dropped exactly when both are on
  (`VersionCompare.ShowsAllCountedIff`).
- An operation id that belongs to another request or tenant is set to generating and stays there
  (`TrGeneration.EveryOperationEnds`).
- Stopping all pollers and restarting while one is still winding down gives a request two
  (`SyncTracker.RestartSafeIff`).

## Model

| member | source | states |
|---|---|---|
| Paths.JoinKeepsBothPartsIff | pkg/github/github_client.go:191-206 | a file is stored under tree path and name as written exactly when its name is a clean relative path |
| Paths.CleanTwice | pkg/github/github_client.go:191-206 | a cleaned path, rooted or not, is left as it is |
| Paths.TwoLevelDisjoint | service/git_sync.go:121 | no path lies below the directories of two different package and artifact names |
| GitObjects.RoundTripIff | pkg/github/github_client.go:189-212 | reading a fresh commit returns the uploaded files exactly when the directory held no file the upload lacks |
| GitObjects.ReadOverlay | pkg/github/github_client.go:435-478 | reading back gives the uploaded files on top of what the directory held |
| GitObjects.ReadElsewhere | pkg/github/github_client.go:208-209 | a commit leaves every directory not nested with its own as it read before |
| GitObjects.HoldsIffUnchanged | pkg/github/github_client.go:214-218 | the tree-unchanged exit is taken exactly when the parent already holds every file |
| GitObjects.FastForwardIsCompareAndSet | pkg/github/github_client.go:230-242 | the unforced ref update accepts a commit exactly when the branch still is at its parent, or somebody stored the same commit |
| CommitProtocol.InvStep | pkg/github/github_client.go:150-242 | every API call of every Commit, lost replies included, keeps each branch a serial history of distinct calls |
| CommitProtocol.Serialisable | pkg/github/github_client.go:150-242 | from any repository, in every run each branch is one serial execution of distinct calls on top of where it stood; a commit a call returned stays in it, holds all its files, and is that call's own link when the call is in the history |
| CommitProtocol.HistoryOnlyGrows | pkg/github/github_client.go:230-242 | a branch tip, once reached, stays in the branch's history |
| CommitProtocol.EveryLink | pkg/github/github_client.go:174-242 | each commit of the run is its parent's tree overlaid with exactly one call's files, and paths outside that call's directory are untouched |
| CommitProtocol.LastWriterWins | pkg/github/github_client.go:150-242 | no update is lost: a path holds what the last call naming it stored there, and one no call names is as it was before |
| GitClient.ServeAllAdvances | pkg/github/github_client.go:230-233 | whatever other clients send, no branch disappears or moves back |
| GitClient.SendUpdateRef | pkg/github/github_client.go:230-239 | success means the branch is at the new commit; alone, the call succeeds exactly on a fast-forward |
| GitClient.EnsureBranch | pkg/github/github_client.go:285-316 | success means the branch exists; alone, a missing branch is created at an empty commit and an existing one left |
| GitClient.BuildEntries | pkg/github/github_client.go:189-209 | the entries built file by file, in any map order, make exactly the tree with the files overlaid |
| GitClient.CommitOnce | pkg/github/github_client.go:174-242 | one attempt succeeds only with a commit in the branch that holds all the files; alone, it is one atomic step |
| GitClient.Commit | pkg/github/github_client.go:150-172 | whatever interferes or fails, a returned commit is in the branch and holds all the files, and every API call was answered; the call gives up only when one is not, or after three refused pushes, for each of which somebody else has pushed to the branch; it makes a bounded number of calls; alone, it adds one commit, or none when nothing changes |
| CommitRetries.GivesUpAfterThree | pkg/github/github_client.go:150-172 | in every run, a call that is neither aborted nor loses a reply gives up exactly when its push has been refused three times, each time because the branch had left the tip the call had read |
| GitClient.DeliveredStays | pkg/github/github_client.go:230-242 | what a call delivered stays in the branch, whatever is pushed later |
| GitClient.ReadFiles | pkg/github/github_client.go:435-478 | the walk over the tree listing, in any order, collects exactly the files below the directory by relative name |
| Manifest.VersionOfLinesMeaning | service/git_sync.go:252-268 | the version is the non-empty trimmed value of the first Bundle-Version line; an empty one is not made good by later lines |
| Manifest.VersionIsTrimmed | service/git_sync.go:252-268 | a version carries no white space at its ends |
| Strings.TrimCuts | service/git_sync.go:252-268 | trimming takes white space off both ends, all of it, and nothing else |
| Manifest.ExtractVersionFromManifest | service/git_sync.go:252-268 | the scan over the lines finds that version |
| Snapshots.SnapshotTable.Claim | service/git_sync.go:306-376 | a claim succeeds exactly on a missing, failed, or overdue pending row, stamps it, and keeps the old tree path and tag name; otherwise nothing changes |
| Snapshots.SnapshotTable.CompleteSnapshot | service/git_sync.go:134-143 | a completed row is never claimed again and a failed one at once, even if the row was not the writer's any more; where it points stays, and no other row becomes more or less claimable |
| Snapshots.SnapshotTable.InvalidateSnapshot | service/git_sync.go:465-481 | a missing row is reported; a completed row, and no other, is opened to the next claim |
| Snapshots.InvalidationReopens | service/git_sync.go:459-481 | a completed row, once invalidated, is claimed and completed anew in the same place; a second invalidation changes nothing |
| Snapshots.SnapshotTable.RecordNotFoundSnapshot | service/git_sync.go:529-548 | the sentinel row of an absent artifact can never be claimed, whatever it was before, and no real version is affected |
| GitTags.TagNameInjective | service/git_sync.go:122 | slash-free tenant, package and artifact names never share a tag |
| GitTags.OwnTagIff | service/git_sync.go:122 | a tag belongs to one tenant, package, artifact and version exactly when none of the four contains a slash |
| GitTagged.CompletedIsTagged | service/git_sync.go:151-196 | in every run, whoever completed a row has left its tag at exactly the commit the row names |
| GitTagged.TagsNeverMove | service/git_sync.go:188-192 | a tag, once there, names the same commit for good |
| GitTagged.WhoTagged | service/git_sync.go:188-192 | every tag was left by a sync at the commit its own Commit call returned |
| GitTagged.WritesSettle | service/git_sync.go:134-196 | in every run, an owner's last write leaves its row completed, or failed and open to the next sync at once |
| GitTagged.StoppedForGood | service/git_sync.go:78-201 | a worker that has died or sent its last write does nothing more, whatever became of the write |
| GitAlone.CommitAlone | pkg/github/github_client.go:150-242 | a Commit call run without interference moves its branch, created if need be, to the commit it returns, and no other |
| GitAlone.SyncAlone | service/git_sync.go:78-201 | a sync left alone, with a claimable row and no tag, commits its files to its tenant's branch, tags the commit and completes the row with it, and changes nothing else |
| GitAlone.FirstCommit | pkg/github/github_client.go:285-316 | on a new branch it follows an empty commit that names the branch |
| GitAlone.MadeHoldsFiles | service/git_sync.go:167-186 | the commit holds every file given and the sync context, in the artifact's directory on the tenant's branch |
| GitAlone.GivenUpAlone | service/git_sync.go:152-187 | a sync that meets an error, or whose commit gave up, leaves its row failed and without a commit |
| GitAlone.InsertRefused | service/git_sync.go:322-334 | a sync whose insert is refused without there being a row stops and leaves none |
| GitAlone.FoundTagAlone | service/git_sync.go:151-164 | with its tag there already, it completes the row with the tag's commit and commits nothing |
| GitAlone.NextSyncHeals | service/git_sync.go:151-193 | when the reply to the tag call was lost, the next sync completes the row with the commit made before |
| GitTruth.InvStep | service/git_sync.go:78-201 | every statement and API call of every sync, faults included, keeps tags, rows and workers consistent |
| GitTruth.HistoryDecides | pkg/github/github_client.go:150-242 | what version a commit carries below a directory is decided by the last sync of that directory in its history |
| GitTruth.TruthIff | service/git_sync.go:106-200 | in every state of every interleaving, on the fresh, the unchanged and the tag path, a completed row is truthful exactly when the worker that completed it worked in the row's directory, or the last sync of that directory in its commit's history brought the same version |
| GitTruth.CompletedSnapshotsAreTruthful | service/git_sync.go:106-200 | for an artifact whose requests all name one package, reading a completed row's commit at its tree path and parsing the manifest gives the row's version, whatever other artifacts and tenants do |
| GitMoved.FreshCommitTruthIff | service/git_sync.go:336-372 | a commit made for one package carries the version under the row's package exactly when the packages agree or the version was there before |
| GitMoved.MovedPackageLies | service/git_sync.go:336-372 | for any artifact that changes package between a failed attempt and the next there is a run that completes an untruthful row |
| GitClaims.ClaimIsSteps | service/git_sync.go:306-376 | an undisturbed claim is the insert, the look and the conditional update: the worker owns the row exactly when it could be claimed, and otherwise stops |
| GitClaims.ClaimsMakeOwners | service/git_sync.go:306-376 | a worker becomes owner of a row by a successful claim of it and by nothing else |
| GitClaims.ClaimsAreFarApart | service/git_sync.go:333-372 | two successful claims of a row are more than the timeout apart, unless the row passed through failed in between |
| GitClaims.AtMostOneLiveOwner | service/git_sync.go:306-376 | under one clock, with late owners silent, no row has two live owners in any run |
| Lifecycle.DeriveImportIff | pkg/lifecycle/consts.go:189-205 | which words of TMS, in any case, stand for which import state |
| Lifecycle.ImportStatusIff | pkg/lifecycle/consts.go:207-303 | when each import status is derived, and when the old one is carried over |
| Lifecycle.DeployStatusIff | pkg/lifecycle/consts.go:278-292 | when each deployment status is: only once no import is open |
| Lifecycle.OnlyStateSetsMatter | pkg/lifecycle/consts.go:207-303 | the aggregate status depends on which states occur, not on how often or in what order |
| Lifecycle.AggregateIdempotent | pkg/lifecycle/consts.go:207-303 | deriving again from the derived status changes nothing |
| Lifecycle.DeployedIff | pkg/lifecycle/consts.go:264-290 | DEPLOYED exactly when every import and every deployment is complete or disabled |
| CpiVersion.ParseWritten | service/checks.go:112-150 | a version written with up to three numbers and a qualifier reads as just these; what is left out counts as zero or nothing |
| CpiVersion.ParseUnread | service/checks.go:118-152 | a version one of whose first three fields is no number is all qualifier |
| CpiVersion.AtoiIff | service/checks.go:121-145 | a field is a number exactly when it is a decimal numeral with an optional sign, within 64 bits |
| CpiVersion.QualifiersDecide | service/checks.go:170-182 | between equal triples numeric qualifiers decide, and any other compares as equal |
| CpiVersion.CompareAntisymmetric | service/checks.go:154-192 | comparing the other way round gives the opposite, for all strings |
| CpiVersion.LessTransitive | service/checks.go:154-192 | the strict order is transitive, also on versions that do not parse |
| CpiVersion.CompareRefinesTriple | service/checks.go:154-168 | the order agrees with the numeric triple wherever triples differ |
| CpiVersion.TripleOrder | service/checks.go:154-168 | the triples are totally ordered |
| CpiVersion.GateKeepsTriple | service/checks.go:83-103 | along any sequence of imports that pass the downgrade gate the triple never decreases |
| CpiVersion.SafeStepIff | service/checks.go:83-103 | an import that passes the gate keeps the order with everything before it exactly when the version it replaces has a number to compare, the triple rises, or its own number cannot be lower |
| CpiVersion.GateKeepsOrder | service/checks.go:83-103 | along any sequence of passing imports made of such steps the whole version never decreases |
| CpiVersion.UniformIsSteady | service/checks.go:83-103 | plain versions alone, or numeric qualifiers alone, always make such steps |
| CpiVersion.TransitiveThroughIff | service/checks.go:154-192 | the order is transitive through a version exactly when its qualifier is a number |
| CpiVersion.QualifierCanDecrease | service/checks.go:170-182 | past every other version, plain ones included, there are imports that pass the gate and end lower |
| Operations.ReconcileLooks | service/sync_status.go:406-423 | what each answer of TMS makes of a row, word by word |
| Operations.SettleHears | service/sync_status.go:194-240 | a deployment under way is over exactly when the runtime runs this version, failed exactly when this version did or a higher one has replaced it |
| Operations.HigherReplaces | service/sync_status.go:205-240 | a runtime on a higher release has replaced the deployment, one on a lower release has not |
| Operations.LookingTwice | service/sync_status.go:194-240 | looking at the same answers again, after the deployment has been looked at too, changes a row no more |
| Sync.DeliveryRequest.SyncImportState | service/sync_status.go:274-505 | in any order of the nodes: the first row of each pair that TMS reports on follows the report (done, failed, running, queued or unknown, in any case), every other row stays, and each pair without a row gains one exactly when its report is a known word |
| Sync.DeliveryRequest.LookAt | service/sync_status.go:375-440 | one node's status reconciles the row of its pair or adds it, and touches no other |
| Sync.DeliveryRequest.SyncDeployState | service/sync_status.go:149-271 | exactly the deployments under way follow the runtime's answer: complete, failed, or still under way when it is unknown, starting or on a lower version |
| Sync.DeliveryRequest.DetermineOverallStatus | service/sync_status.go:58-93 | which status stands for which rows outside the source tenant: an equivalence for each of them, carried-over ones included |
| Sync.DeliveryRequest.SyncDeliveryStatus | service/sync_status.go:95-146 | rows move only for an approved, uncanceled request, and then as TMS and the runtimes report; the status is rolled up on every exit, and subscribers are notified exactly when a phase or the status changed |
| SyncAgain.SyncTwice | service/sync_status.go:95-146 | against unchanged answers a second sync changes nothing |
| SyncAgain.NodeOrderIrrelevant | service/sync_status.go:350-503 | two syncs from the same rows leave the same rows and status whatever the order of the node map; only ids of added rows differ |
| SyncAgain.SyncAddsNoDuplicate | service/sync_status.go:375-440 | a sync gives no pair a second row |
| SyncSteps.SyncIsSteps | service/sync_status.go:95-146 | what a whole sync does undisturbed is a stretch of the concurrent model: the same rows in the same order, the same status, and nothing of other requests |
| SyncLock.InsertsOnlyWhenNone | service/sync_status.go:100-107 | among any number of syncs in one instance, a row is added only where none exists, unless somebody else added one after the sync had read |
| SyncLock.NeverDuplicateIff | service/sync_status.go:100-107 | syncs alone, however they interleave, never give a request, tenant and transport request a second row exactly when they all run in one instance |
| SyncTracker.OnePollerEachIff | service/sync_tracker.go:26-57 | short of a shutdown, each request keeps at most one poller exactly when every poller alive is on the table |
| SyncTracker.RestartSafeIff | service/sync_tracker.go:49-57 | after a shutdown that holds exactly when no poller was left |
| PhaseOrder.NextKeeps | service/deliver.go:43-131 | every single read and write of every call keeps approvals and completed imports behind the phases rows and copies show |
| PhaseOrder.PhaseOrder | service/sync_status.go:130-144 | in every reachable state, an import that has begun belongs to an approved request, and a deployment that is queued, under way or over had its import complete then or earlier |
| PhaseOrder.WriteKeeps | service/deliver.go:333-350 | writing back a stale copy column by column keeps that too |
| Cancel.CanceledForGoodIff | service/cancel.go:43-54 | a canceled request stays canceled in every continuation exactly when no call that read it earlier has a status left to write |
| Cancel.CancelAloneIsForGood | service/cancel.go:37-54 | so it does whenever no other status call straddles the cancellation |
| Cancel.ApprovalUndoesCancellation | service/approve.go:84-106 | a reachable run in which an approval brings a canceled request back |
| Calls.CancelIff | service/cancel.go:12-45 | a cancellation is let through exactly when the request is neither under way nor over |
| Calls.CancelAlone | service/cancel.go:37-54 | and then, undisturbed, cancels it |
| Calls.SubmitIff | service/approve.go:22-27 | a submission is let through exactly when the request is not approved and pending or submitted |
| Calls.SubmitAlone | service/approve.go:50-57 | and then, undisturbed, leaves it waiting for approval |
| Calls.ApproveIff | service/approve.go:76-86 | an approval is let through exactly when the request has an operation and is pending or submitted |
| Calls.ApproveAlone | service/approve.go:98-106 | and then, undisturbed, leaves it approved and awaiting import |
| Calls.UpdateIff | service/dr.go:398-401 | an operation may be changed exactly while it is pending |
| Calls.UpdateAlone | service/dr.go:396-427 | and then has the new transport request and the deployment its switch asks for, and is otherwise as it was |
| Calls.DeleteIff | service/dr.go:257-261 | an operation may be deleted exactly while it is pending, or when its transport request could not be made |
| Calls.DeleteAlone | service/dr.go:244-266 | and then is gone |
| Calls.GenerateAlone | service/tr_resolver.go:290-333 | making its transport request leaves an operation pending with it, or failed as it was |
| Protection.StartedWhileCanceled | handler/delivery_request.go:256-271 | in every run, whatever starts a row of a canceled request was checked against another request, or before the cancellation |
| Protection.ProtectsIff | handler/delivery_request.go:256-271 | for any two requests, a call checked against one starts, in some run, a row of the other after that one is canceled for good, unless both are the same and the check comes after the cancellation |
| BatchChecks.AcceptsIff | service/deliver.go:36-61 | an import may start exactly when the row waits or has failed, its tenant sits at the target's node, its transport request is a number, and the target could be asked and lacks the artifact or holds no later version; a deployment when the row waits or has failed and is the target's own |
| BatchChecks.NoDowngrade | service/checks.go:83-103 | an import that may start never takes the target to a lower release |
| BatchChecks.DeliveriesNeverDowngrade | service/deliver.go:53-56 | however many deliveries follow each other, the release a target holds never goes down |
| Numerals.ToUintIff | service/deliver.go:47-51 | a transport request is a number exactly when it is a decimal numeral within 64 bits |
| Deliver.Precheck | service/deliver.go:36-61 | of the operations named, those that may be imported or deployed are moved on, silent ones passed over, and all others reported |
| Deliver.OperationTable.QueryOps | service/deliver.go:303-331 | all rows named, each once, or the reason why not, with the missing ids |
| Deliver.OperationTable.BatchUpdateOps | service/deliver.go:333-350 | exactly the rows given are written, zero columns keeping what the table holds |
| Deliver.OperationTable.BatchStart | service/deliver.go:19-87 | exactly the operations that may start are started, with one transport request number each, and the others, unless over already, reported; when none may or one is missing, nothing changes |
| Deliver.OperationTable.BatchFail | service/deliver.go:104-121 | the operations whose trigger failed are set to failed from the copies taken before |
| Deliver.BatchIsSteps | service/deliver.go:19-87 | what a batch does undisturbed is a stretch of the concurrent model: the same rows, moved in the same way |
| Deliver.StartedOnceUntilItFails | service/deliver.go:41-45 | a started operation is not started again; a failed one can be |
| Deliver.LateFailureThrowsBack | service/deliver.go:108-112 | a failure reported late throws the row back, in both phases, to where the batch had read it, whatever has become of it since |
| TransportGraph.SourceAndRoute | service/dr.go:75-151 | succeeds exactly when one included node has no incoming included route and reaches all others over included routes; then it is the source, and the routes are those with both ends included |
| TransportGraph.Reach | service/dr.go:127-142 | the search ends and marks exactly the nodes that can be reached |
| TransportGraph.OneHead | service/dr.go:109-120 | no two nodes can head the chain |
| TransportGraph.TenantOrderIrrelevant | service/dr.go:75-151 | the order of the tenants, and naming one twice, changes neither success nor source node nor routes |
| Downstream.DownstreamFromSource | service/dr.go:156-208 | exactly the listed nodes that can be reached, without the source, each once and nearest first, and exactly the routes leaving them; nothing for an unknown or zero source |
| Downstream.Search | service/dr.go:181-205 | the search ends on cyclic landscapes with every route of every node met followed |
| Downstream.MetIsReachable | service/dr.go:177-205 | what has been met is what can be reached, at its true distance |
| Bootstrap.GuardedRunsAreGood | service/tenant_bootstrapper.go:59-192 | when every reset is called with no owner alive and no other reset under way, every run keeps at most one running job, only on a tenant being readied, and a ready tenant has both destination names |
| Bootstrap.ReadyOnlyByFinishing | service/tenant_bootstrapper.go:254-268 | a tenant becomes ready only in the transaction that finishes its running job, with both names persisted |
| Bootstrap.ExitsRelease | service/tenant_bootstrapper.go:98-136 | every exit whose last write goes through leaves the tenant released and no job running |
| Bootstrap.ResetSafeIff | service/tenant_bootstrapper.go:154-192 | a reset is safe for all that follows exactly when, at the call, no owner is alive and no other reset is under way |
| Bootstrap.OverlappingResetsFail | service/tenant_bootstrapper.go:164-192 | two resets that overlap, both called with the owner dead, leave a running job on a tenant that is not being readied |
| Bootstrap.ResetIsThreeSteps | service/tenant_bootstrapper.go:164-192 | an undisturbed reset is its read and its two writes |
| Bootstrap.TransitionIff | service/tenant_lifecycle.go:43-81 | each event leads to its own state, while a tenant is being readied only the end of that is taken, and a draft is never readied |
| TenantBootstrapper.TenantRow.TransitionLifecycle | service/tenant_lifecycle.go:43-126 | an event that may be taken leads to its state, any other changes nothing |
| TenantBootstrapper.TenantRow.ApplyBootstrap | service/tenant_bootstrapper.go:59-140 | leaves the tenant alone, ready to be tried again, or readying with one new running job |
| TenantBootstrapper.TenantRow.RunBootstrap | service/tenant_bootstrapper.go:219-445 | only when no stage fails are the names written, by the tenant's id, and the tenant readied; a job whose first failure is the central TMS context waits for the operator, any other has failed; a refused last write leaves job and lifecycle as they were |
| TenantBootstrapper.TenantRow.SaveCfIdentity | service/tenant_cf_identity.go:91-138 | refused while the tenant is being readied; otherwise the tenant is configured and its destination names cleared |
| TenantBootstrapper.SaveIsStep | service/tenant_cf_identity.go:91-138 | saving the identity is one step, let through exactly while the tenant is not being readied |
| TenantBootstrapper.TenantRow.ResetBootstrap | service/tenant_bootstrapper.go:164-192 | only a tenant being readied is reset |
| TenantBootstrapper.ApplyReleases | service/tenant_bootstrapper.go:219-445 | a job run to its end releases the tenant exactly when its last write goes through, and readies it exactly when, besides, no stage fails |
| TenantBootstrapper.ApplyIsSteps | service/tenant_bootstrapper.go:59-140 | an undisturbed apply is its claim and either its rollback or the creation of its job |
| TenantBootstrapper.JobIsSteps | service/tenant_bootstrapper.go:219-445 | an undisturbed job is the persisting of the names, unless a stage fails, and its last transaction |
| WsIndex.IndexAgrees | service/ws_hub.go:61-116 | in every interleaving both ends of the index agree, no empty entry is kept, and a connection that hung up appears nowhere |
| WsIndex.NeverSendsOnClosed | service/ws_hub.go:118-146 | no publication under way has a closed channel before it, although closing does not wait for it |
| WsHub.Hub.NewConn | service/ws_hub.go:50-59 | a new connection watches nothing and disturbs nobody |
| WsHub.Hub.Subscribe | service/ws_hub.go:84-98 | both ends gain the subscription and nothing else changes |
| WsHub.Hub.Unsubscribe | service/ws_hub.go:100-116 | both ends lose it, and an entry left empty goes |
| WsHub.Hub.Disconnect | service/ws_hub.go:61-82 | the connection leaves every entry before its channel closes; a second call does nothing |
| WsHub.Hub.PublishDrEvent | service/ws_hub.go:118-146 | every watcher, all open, gets the event unless its channel is full; nobody else gets anything |
| WsCalls.SubscribeAlone | service/ws_hub.go:84-98 | an undisturbed subscription is a step of the interleaving with the same effect on the index |
| WsCalls.UnsubscribeAlone | service/ws_hub.go:100-116 | so is the end of one |
| WsCalls.DisconnectAlone | service/ws_hub.go:61-82 | a disconnection is its two steps: out of every entry, then closed |
| WsCalls.PublishAlone | service/ws_hub.go:118-146 | a publication is its sends: every watcher whose channel has room for one of 64 events, and nobody else |
| Expiry.CleanupIsInvisible | pkg/github/manifest.go:175-183 | for every run of the clock, a store answers as one that never cleans up |
| Expiry.TakenOnce | pkg/github/manifest.go:155-173 | a token is accepted at most once |
| Expiry.AcceptedWasIssued | pkg/auth/oauth2.go:56-72 | what is accepted was issued, with that payload, and has not expired |
| Expiry.RefusedForGood | pkg/auth/session.go:86-111 | a token or session refused once stays refused |
| TtlStores.ManifestStates.Issue | pkg/github/manifest.go:138-153 | expired tokens go, the new one stays until its ttl is over |
| TtlStores.ManifestStates.Consume | pkg/github/manifest.go:155-173 | answers and empties like the single-use store; the empty token is refused |
| TtlStores.ManifestStates.GcLocked | pkg/github/manifest.go:175-183 | exactly the expired tokens go |
| TtlStores.OAuthStates.Generate | pkg/auth/oauth2.go:40-54 | a new state is good for five minutes |
| TtlStores.OAuthStates.Validate | pkg/auth/oauth2.go:56-72 | answers and empties like the single-use store |
| TtlStores.OAuthStates.Cleanup | pkg/auth/oauth2.go:74-87 | exactly the expired states go |
| TtlStores.Sessions.Create | pkg/auth/session.go:71-84 | a session counts from its creation time, or from now |
| TtlStores.Sessions.Get | pkg/auth/session.go:86-111 | answers a session that has not expired and forgets one that has |
| TtlStores.Sessions.Cleanup | pkg/auth/session.go:181-194 | exactly the expired sessions go, none without a maximum age |
| TtlStores.Sessions.Delete | pkg/auth/session.go:113-122 | a session whose cookie is signed goes at once, and no other |
| DestinationCache.ReadsAreFresh | pkg/cf/destination.go:198-239 | under any interleaving, a value read was held by the service no longer ago than the ttl plus the time its fetch took |
| DestinationCache.NeverStaleIff | pkg/cf/destination.go:241-249 | after an eviction the cache never again answers with a value given up before, exactly when no fetch answered with such a value is on its way |
| DestinationCache.ReadsWhatWasWritten | pkg/cf/destination.go:261-296 | after an upsert that no fetch of its name overlaps, every read returns the new value while the service keeps it |
| DestinationClient.GetIsSteps | pkg/cf/destination.go:198-239 | an undisturbed read returns what its last step in the concurrent model returns, and remembers what the steps cache: answers, not absences |
| DestinationClient.DestinationServiceClient.InvalidateAll | pkg/cf/destination.go:251-259 | from then on every read, of any name at any time, asks the service |
| DestinationClient.DestinationServiceClient.UpsertDestination | pkg/cf/destination.go:261-296 | success stores the value and forgets the old one; other names keep their entries |
| DestinationClient.UpsertIsSteps | pkg/cf/destination.go:261-296 | an undisturbed upsert is its look-up, its write and its eviction in the concurrent model |
| DestinationClient.DestinationServiceClient.DeleteDestination | pkg/cf/destination.go:298-322 | the name is forgotten on every exit |
| DestinationClient.DeleteIsSteps | pkg/cf/destination.go:298-322 | an undisturbed deletion is its write and its eviction in the concurrent model |
| DestinationClient.InvalidateAllIsStep | pkg/cf/destination.go:251-259 | forgetting everything is one step of the concurrent model |
| CasIndex.BuildIndex | service/tr_resolver.go:122-141 | the index holds exactly the single entries of the needed keys, or some needed key has two |
| CasIndex.EnsureCasGuids | service/tr_resolver.go:84-173 | succeeds exactly when all is cached or the catalog has one entry for each artifact's key, which is then what it caches |
| CasIndex.KeyInjective | service/tr_resolver.go:145-146 | keys tell artifacts apart while package ids contain no colon |
| CasIndex.OwnKeyIff | service/tr_resolver.go:145-146 | a key tells its artifact apart from all others exactly when the separator occurs in it nowhere but where it was put |
| TrGeneration.OperationTable.GenerateTransportRequest | service/tr_resolver.go:182-337 | whatever order results arrive in, successes and failures divide up the operations loaded and each row holds its own outcome; a fatal exit marks every operation named as failed |
| TrGeneration.EveryOperationEnds | service/tr_resolver.go:290-333 | a success ends with its own transport request, a failure with its own error, and exactly the operations not loaded stay generating |
| TrGeneration.ArrivalOrderIrrelevant | service/tr_resolver.go:259-333 | two orders of arrival leave the same table and the same results |
| PackageSnapshot.CollectPackageSnapshot | service/version_compare.go:269-357 | every artifact some tenant lists, once, in order of discovery, with exactly the tenants that list it and what they last said |
| VersionCompare.MismatchOnlyIsFilter | service/version_compare.go:480-550 | the mismatch-only response is the full one filtered to artifacts with a false flag, emptied packages dropped |
| VersionCompare.SurvivesIff | service/version_compare.go:480-550 | an artifact survives that filter exactly when the source has it and some tenant differs in a view that is switched on |
| VersionCompare.CountedIff | service/version_compare.go:1184-1205 | what differs in either view is counted as a mismatch or compares a draft, and nothing else is |
| VersionCompare.ShowsAllCountedIff | handler/version_compare.go:52-54 | every counted mismatch survives the filter exactly when both views are on |
| VersionCompare.ComputeMismatchCounts | service/version_compare.go:1184-1215 | matched, mismatched and artifacts the source lacks make up the total |
| VersionCompare.BuildArtifact | service/version_compare.go:488-529 | the flag the loop sets is raised exactly when some tenant's versions carry a false match |
| VersionCompare.BuildPackages | service/version_compare.go:480-550 | the response holds exactly the packages asked for, each with exactly the artifacts the request lets through, and none left empty by the filter |
| VersionCompare.ArtifactViewShows | service/version_compare.go:488-529 | what an entry shows: each view when it is on, matches for the other tenants where the source has the artifact, modifiers for the source |
| VersionCompare.IsDraftIff | service/checks.go:37-40 | a draft is the word active in any mix of capitals and small letters |
| DrPreview.IndexActive | service/version_compare.go:924-937 | of the active requests that deliver a version, the first is the existing one |
| DrPreview.MismatchesSomewhere | service/version_compare.go:953-962 | some compared tenant lacks the artifact, differs, or is a draft |
| DrPreview.PreviewDrFromMismatch | service/version_compare.go:939-1010 | the preview offers exactly the artifacts that need delivery, each as a draft, outside the pattern, delivered already by the first such request, or includable; the four categories make up the total and the total is the length of the list; nothing found is an error |
| DrPreview.PreviewAgreesWithView | service/version_compare.go:944-965 | the preview lists exactly what the design-time view flags and what a compared tenant lacks, versions left empty by the source apart |

## Left out

- GitTruth.TruthIff: runs start with no snapshot rows and no tags, and only this service writes tags; tenant, package and artifact names are slash-free and zip entries clean relative paths.
- GitClaims.AtMostOneLiveOwner: assumes that an owner that outlives the timeout does not write back, which the code cannot enforce.
- GitClaims.ClaimsAreFarApart: speaks of the times the rows are stamped with, which are taken just before the statements run.
- CommitProtocol.Serialisable: assumes canonical tree paths and file names; a file and a directory of the same name are not told apart. Objects with equal content are equal, as their hashes are.
- Sync.DeliveryRequest.SyncDeliveryStatus: database failures inside a sync, condition texts and Jira comments are not modelled; a row's id is its position in the table.
- Downstream.DownstreamFromSource: assumes that TMS route ids name routes.
- Bootstrap.GuardedRunsAreGood: what the job does in Cloud Foundry is an arbitrary outcome; whole-row saves of the tenant from client input are not modelled.
- TrGeneration.OperationTable.GenerateTransportRequest: of the database failures only a refused last write is modelled; other calls writing the same rows meanwhile are part of `Pipeline`.
- DestinationClient.DestinationServiceClient.UpsertDestination: whether the service is asked to create or to replace is not distinguished.
- TtlStores.Sessions.Get: one step here; the entry the service removes in the background may go later, which `Expiry.CleanupIsInvisible` covers as a cleanup.
- The in-process lock per branch around commit and tag: leaving it out only adds interleavings.
- Soft deletion and the deletion of delivery requests.
- Unzipping, base64, hashing, HMAC, JWT and YAML; the extra file with the sync context is arbitrary content.
- Delivery rule checks and the check that a transport request matches its artifact: a submission or approval that fails them does not reach its write.
- The tenant list, headers and per-tenant errors of the version-compare response beyond what is shown above; query parsing and persistence of snapshots.
- TMS node registration, central TMS contexts, prerequisite status fields and blocking reasons.
- Handlers, routing, sign-in redirects, notifications, logging, tracing and metrics.
- normalizeLineEndings, binary detection and the file API over snapshots.
