# Verification of the Percona XtraDB Cluster provider

A Dafny model of the provider's backup, point-in-time recovery, restore and monitoring logic, with proofs
over every run. `dafny verify dfyconfig.toml` checks the whole project.

The provider is a reconciler: each call reads and writes objects of the API server, and between calls the
Percona operator, the runtime and users change them too. The model takes one provider call as one atomic
step. Everything else (backups completing, gaps being detected, finalizers being cleared, the engine
becoming ready, users editing resources) is a step of its own, and the theorems quantify over all
interleavings.

| file | content |
|---|---|
| `OperatorBackups.dfy` | operator backups; collecting, sorting and scanning them for the recovery window |
| `WindowRule.dfy` | what the window means as a set of backups; exactly when equal completion times break it |
| `BinlogRuns.dfy` | the operator as a step machine over one binlog stream; soundness over all runs |
| `ScheduleRetention.dfy` | count retention of one schedule against marks of the whole stream |
| `BaseSelection.dfy` | choosing the base backup from Backup resources; agreement with the window |
| `Lifecycle.dfy` | SyncBackup, CleanupBackup, SyncRestore, CleanupRestore and Mirror on stored objects |
| `LifecycleApi.dfy` | SyncBackup, CleanupBackup and SyncRestore as a class, one API request after another |
| `LifecycleRuns.dfy` | all interleavings: retention, deletion, write-once specs, mirroring, cleanup |
| `RecoveryEndToEnd.dfy` | window, resources and SyncRestore together |
| `StreamProjection.dfy` | runs of the whole world as runs of the operator machine; recovery over them |
| `RecoveryExample.dfy` | a run that meets all hypotheses of the recovery theorem |
| `BackupTranslation.dfy` | an Instance's backup section to the operator's; its admission rule |
| `TranslationRules.dfy` | when a section translates, which fault it reports, images, buckets, PITR errors |
| `PmmResources.dfy` | sizing and merging the PMM client's resources |
| `ClusterSync.dfy` | one Sync and Status of an Instance; admission |
| `ClusterReconciler.dfy` | the same as a class, field by field |
| `ClusterRuns.dfy` | all interleavings: restore gate, seeding, hold rules, Secret frame |
| `SyncMeaning.dfy` | what a Sync applies, when, and what it reports, from the Instance and the stored objects alone |
| `Shortfalls.dfy` | concrete runs and inputs on which the code falls short |

## Assumptions

- Operator: a backup completes later than everything before it on its stream; a detected gap, wherever it
  began and however often it is reported again, marks the backup that is newest at that moment, which is on
  the PITR storage; marks are never cleared and completion times never change; a backup's latest restorable
  time never exceeds what was collected. `StreamProjection.Obeys` states these rules for status writes.
- Deletion: runs make deletions that `BinlogRuns.SafeDelete` allows, a guard checkable on the list.
  `DeleteGuardIsExact` shows that every other deletion loses a mark; `RetentionSafeExactly` says which
  deletions by schedule retention pass.
- Kubernetes: an object that is being deleted disappears with its last finalizer and accepts no new one; a
  merge patch replaces the patched fields (section 2 of RFC 7396); a controller reference is refused when
  another object already controls the target.
- Runtime: it stores the status a call returns, consults Status only after a Sync that succeeded, and removes
  a Backup resource only after CleanupBackup returned true. `Requirement.Else`, `ReconcileDataSource`, the
  version-bundle and image lookups and the class check are small functions or inputs with the meaning their
  names suggest; the SHA-1 digest is an arbitrary function to 40 characters.

## Where the code falls short of its documentation

The code is modelled as it is. For each deviation one lemma says exactly when it happens, and one gives a
concrete case.

| deviation | exactly when | case |
|---|---|---|
| backups completed in the same second can open the window at a marked backup | `SafeExactlyWithoutTies` | `TieExample` |
| deleting a marked backup out of order re-opens the gap | `DeleteGuardIsExact` | `OutOfOrderDeletionExample` |
| retention counts per schedule but marks hold per stream: it can delete the mark and keep an older backup | `RetentionSafeExactly` | `ScheduleRetentionExample` |
| the base selector ignores marks: a target before the window may get a base behind a gap | `TargetInWindowExactly` | `TargetBeforeWindowExample` |
| a cron backup without scheduler name and ancestor is mirrored as if on-demand, and then taken over | `MirroredWithoutScheduleExactly` | `MirroredWithoutScheduleExample` |
| schedule retention deletes data even under Retain | `RetainKeepsDataExactly`, `RetentionBreaksRetainExactly` | `RetainedDataLostExample` |
| a finished restore is hidden once its source no longer resolves | `ReportedStateExactly` | `HiddenRestoreExample` |
| an unresolvable data source lets the operator make up passwords | `UnresolvedSourceExactly` | `UnresolvedSourceExample` |
| a Sync that fails over the exporter image has already changed the PMM token, while spec.pmm stays | `FailedSyncExactly`, `PmmHoldRule` | `TornPairExample` |
| seeding also copies the source's PMM token | `SeededPairExactly` | `SeededPairExample` |
| a count retention without a count dereferences nil, although the provider's admission rules accept it | `NilCountExactly` | `NilCountExample` |

## Model

| member | source | states |
|---|---|---|
| OperatorBackups.GapConditionFindsFirst | internal/provider/backup_status.go:169-179 | a condition is found exactly when one is PITRReady=False, and it is the first such |
| OperatorBackups.CollectStorageBackups | internal/provider/backup_status.go:68-86 | keeps exactly the Succeeded, completed backups of the cluster and storage, with multiplicity, oldest first; nothing about ties |
| OperatorBackups.SortByCompletion | internal/provider/backup_status.go:82-84 | in-place: ordered by completion and a permutation |
| OperatorBackups.PitrWindow | internal/provider/backup_status.go:114-167 | the scan computes the window of its list |
| WindowRule.WindowFollowsRule | internal/provider/backup_status.go:102-113 | any collected list yields the declarative rule: earliest is the oldest backup newer than every marked one, unavailable without one or without an end time, with reason and message |
| WindowRule.RuleIsFunctional | internal/provider/backup_status.go:102-105 | the rule determines one window |
| WindowRule.WindowIgnoresListOrder | internal/provider/backup_status.go:70-86 | with distinct completion times the window does not depend on listing order or on the unstable sort |
| WindowRule.SafeExactlyWithoutTies | internal/provider/backup_status.go:82-151 | under every order the sort may choose the window starts after every mark, if and only if no unmarked backup shares the newest mark's instant (with an end published) |
| WindowRule.TieExample | internal/provider/backup_status.go:123-151 | a list of two backups of the same second that collecting may return and whose window starts at the mark |
| WindowRule.BackupStorageStatuses | internal/provider/backup_status.go:26-48 | one entry per storage, in order, with a window exactly where PITR is enabled |
| BinlogRuns.CoherentStep | internal/provider/backup_status.go:95-100 | every operator step, with any deletion and wherever a gap began, keeps: distinct times, every mark has its gap, every backup completed by the mark or after the gap was seen |
| BinlogRuns.SoundExactlyWhenKept | internal/provider/backup_status.go:106-113 | whatever was deleted, an available window lies after every gap if and only if no clean backup is older than a gap's mark |
| BinlogRuns.DeleteGuardIsExact | internal/provider/backup_status.go:106-113 | a deletion keeps that if and only if the guard, checkable on the list, allows it |
| BinlogRuns.OldestFirstIsSafe | internal/provider/backup_status.go:106-113 | deleting the oldest backup of the whole stream passes the guard |
| ScheduleRetention.RetentionSafeExactly | internal/provider/backup_mirror.go:247-289 | count retention, which deletes the oldest backup of one schedule, keeps every mark's effect iff the backup is unmarked, a newer mark remains, or every older backup from outside the schedule is hidden by another mark |
| ScheduleRetention.SingleScheduleIsHarmless | internal/provider/backup_mirror.go:275-289 | with one schedule and no on-demand backups retention always is |
| ScheduleRetention.ScheduleRetentionExample | internal/provider/backup_mirror.go:275-289 | a run after which retention deletes the mark, an older on-demand backup survives, and the published window contains the gap |
| BinlogRuns.OutOfOrderDeletionExample | internal/provider/backup_status.go:106-113 | a run of the operator after which a deletion publishes a window with a detected gap inside it |
| BinlogRuns.WindowSoundInEveryRun | internal/provider/backup_status.go:88-113 | in every state of every run, every gap seen so far was seen, and so lies, before an available window, which ends within what was collected |
| BinlogRuns.EarliestNeverMovesBack | internal/provider/backup_status.go:123-151 | over every run a later window starts no earlier than an earlier one |
| BaseSelection.SelectPitrBaseBackup | internal/provider/backup.go:472-500 | the loop computes the selection |
| BaseSelection.BestIsNewestCandidate | internal/provider/backup.go:450-486 | nothing selected iff no candidate, which is a Succeeded, completed backup of the storage not after the date; otherwise the newest candidate, strictly newer than those listed before it |
| BaseSelection.CleanBaseExactly | internal/provider/backup.go:472-486 | although it ignores marks, the selector picks a base newer than every mark if and only if a clean backup completed by the target was reported |
| BaseSelection.TargetInWindowExactly | internal/provider/backup.go:472-486 | in sync, a dated target gets a clean base if and only if it is not before the window's start |
| Shortfalls.TargetBeforeWindowExample | internal/provider/backup.go:472-486 | a run, with every backup reported, in which a target before the window gets a marked base and its replay meets the gap |
| BaseSelection.OfferedTargetsAreRestorable | internal/provider/backup_status.go:110-113 | over every run, a target in the window gets a base inside the window and by the target, with no gap on the replay |
| BaseSelection.LatestTargetIsRestorable | internal/provider/backup.go:480-486 | an undated target gets the newest backup of the stream, clean, with no gap on the replay |
| RecoveryEndToEnd.OfferedTimeIsRestored | internal/provider/backup.go:369-448 | over every run, SyncRestore of a time inside the window published from the API server's listing submits a restore of that time from a stored Succeeded backup in the window, replaying over no gap and within what was collected |
| RecoveryEndToEnd.PublishedIsOfStream | internal/provider/backup_status.go:26-48 | what BackupStorageStatuses publishes from a listing of the stored operator backups is a window of the run's stream |
| RecoveryEndToEnd.SettledIsInSync | internal/provider/backup.go:166-194 | resources that report their operator backups are in sync with the stream |
| StreamProjection.RunProjects | internal/provider/backup_status.go:88-113 | every run of calls, operator steps, edits and deletions whose status writes keep the operator's rules is, seen through one stream, a run of the operator machine with exactly the stored backups |
| StreamProjection.SyncedIsSettled | internal/provider/backup.go:166-194 | resources have settled once each relevant Backup was synced after the last change of its operator backup's status, whatever else happened |
| StreamProjection.AlignedOverRun | internal/provider/backup_mirror.go:80-111 | a Backup names the cluster and storage of its operator backup over every run in which users do not point it elsewhere |
| StreamProjection.OfferedTimeIsRestoredInEveryRun | internal/provider/backup.go:369-448 | over every such run, a Restore to a time inside the published window is served from a stored backup inside the window, over no gap |
| RecoveryExample.RecoveryRun | internal/provider/backup.go:40-195 | a run from an empty store that meets every hypothesis of that theorem |
| Lifecycle.ExecOf | internal/provider/backup.go:166-194 | Succeeded, Failed and Running are reported exactly for their operator states, Pending otherwise; a completion time only on success |
| Lifecycle.RestoreExecOf | internal/provider/backup.go:276-292 | the same for restores, with the six states in which one is running |
| Lifecycle.CreatedBackupMatches | internal/provider/backup.go:75-136 | an object is created iff the Backup is on-demand and its storage registered; cluster, storage, owner and finalizer match it |
| Lifecycle.SyncedBackupMatches | internal/provider/backup.go:138-164 | on an existing object only the data finalizer (present iff not Retain) and the owner change |
| Lifecycle.SyncBackupFailsExactly | internal/provider/backup.go:138-164 | a call fails iff another object controls the stored on-demand backup, or it is being deleted and would need the data finalizer |
| Lifecycle.SyncBackupFrame | internal/provider/backup.go:40-74 | besides its operator backup a call writes only its resource's Instance label |
| Lifecycle.CleanupAnswersExactly | internal/provider/backup.go:503-538 | cleanup answers true iff the operator backup is gone, and then writes nothing |
| Lifecycle.RestoreFromBackupExactly | internal/provider/backup.go:325-361 | a Restore from a Backup is submitted from the Backup of that name iff that exists and has not failed; otherwise Pending (missing) or Failed (no name, failed) |
| Lifecycle.RestoreToTimeExactly | internal/provider/backup.go:369-448 | each refusal of a point-in-time Restore with its state, and exactly what is submitted otherwise |
| Lifecycle.RestoreFromElsewhereFails | internal/provider/backup.go:315-320 | any other source kind fails |
| Lifecycle.ExistingRestoreExactly | internal/provider/backup.go:229-292 | an existing operator restore keeps its spec and is owned and reported, unless another object controls it |
| Lifecycle.CleanupRestoreExactly | internal/provider/backup.go:542-564 | true iff gone; otherwise only the deletion is requested |
| Lifecycle.MirrorsExactly | internal/provider/backup_mirror.go:37-111 | mirrored iff live, scheduled, not owned by a Backup, on a storage, of an Instance of this provider with a class; every field of the mirror, its schedule name from the scheduler or the ancestor |
| Lifecycle.ScheduleNameRoundTrip | internal/provider/backup_mirror.go:113-130 | the schedule name is recovered from the ancestor the operator builds of the digest of namespace and cluster; a foreign ancestor is left as it is |
| Lifecycle.MirroredWithoutScheduleExactly | internal/provider/backup_mirror.go:65-67 | a mirrored backup has no schedule name iff the operator set none and the ancestor is missing or the bare prefix |
| Shortfalls.MirroredWithoutScheduleExample | internal/provider/backup_mirror.go:113-130 | a run in which such a backup is mirrored and the next SyncBackup gives it the data finalizer |
| LifecycleApi.ApiServer.SyncBackup | internal/provider/backup.go:40-195 | request by request, the objects and the reported status become those of the step function |
| LifecycleApi.ApiServer.EnsureBackup | internal/provider/backup.go:83-136 | creates the object exactly when cluster and storage are registered |
| LifecycleApi.ApiServer.PatchManaged | internal/provider/backup.go:138-164 | finalizer, owner, and the refusals |
| LifecycleApi.ApiServer.CleanupBackup | internal/provider/backup.go:506-538 | request by request the step function: finalizer first under Retain, then deletion |
| LifecycleApi.ApiServer.SyncRestore | internal/provider/backup.go:200-295 | resolves, creates once, takes ownership, reports |
| LifecycleApi.ApiServer.ResolvePointInTime | internal/provider/backup.go:369-448 | every refusal in order, then base and PITR block |
| LifecycleRuns.RetainKeepsDataExactly | internal/provider/backup.go:503-538 | under Retain, over every interleaving, the data survives and is never about to be deleted iff no deletion from outside the provider finds the data finalizer on the backup |
| LifecycleRuns.SyncedNeverReloads | internal/provider/backup.go:138-164 | once synced under Retain, an object never regains the data finalizer, whatever happens |
| LifecycleRuns.SyncedBackupIsRetained | internal/provider/backup.go:138-164 | a retained backup that is deleted from outside only after it was synced keeps its data |
| LifecycleRuns.RetentionBreaksRetainExactly | internal/provider/backup_mirror.go:284-288 | one deletion by schedule retention breaks that iff the backup carries the data finalizer |
| Shortfalls.RetainedDataLostExample | internal/provider/backup_mirror.go:284-288 | a run in which the data of a mirrored backup is deleted although its Backup's policy is Retain |
| LifecycleRuns.SyncedBackupLosesDataFirst | internal/provider/backup.go:138-164 | without Retain a synced backup disappears only after its data was deleted |
| LifecycleRuns.SpecsAreWrittenOnce | internal/provider/backup.go:112-164 | over every run with any edits, cluster and storage of a backup and the whole spec of a restore stay as created |
| LifecycleRuns.RestoresHaveSoundOrigin | internal/provider/backup.go:229-264 | every operator restore of a run was created by SyncRestore: a point-in-time one from the newest Succeeded backup completed by the date, with a Succeeded operator backup at that moment, any other from the Backup its Restore named, which had not failed |
| LifecycleRuns.ReportedStateExactly | internal/provider/backup.go:221-227 | a succeeded restore is reported so, with its completion time, iff its source still resolves |
| Shortfalls.HiddenRestoreExample | internal/provider/backup.go:221-227 | a run in which a Restore whose Backup was removed while it ran is reported Pending by the first call after it succeeded |
| LifecycleRuns.NoMirrorLoop | internal/provider/backup_mirror.go:52-56 | over every interleaving and any edits, what SyncBackup wrote is never mirrored, and a Backup with a schedule name never makes SyncBackup create or change anything |
| LifecycleRuns.MirroredAdoptedExactly | internal/provider/backup_mirror.go:52-67 | a mirrored backup has been written by SyncBackup iff some call since found its Backup without a schedule name |
| LifecycleRuns.MirroredThenReported | internal/provider/backup_mirror.go:80-100 | mirroring then syncing reports the operator backup and leaves it untouched |
| LifecycleRuns.SyncReflects | internal/provider/backup.go:166-194 | after a successful sync the resource reports its operator backup |
| LifecycleRuns.CleanupProgress | internal/provider/backup.go:521-537 | the work left never grows and every call on unfinished work shrinks it, over every interleaving |
| LifecycleRuns.TwoCallsSuffice | internal/provider/backup.go:521-537 | after two calls at most the operator's own finalizers remain |
| LifecycleRuns.CleanupFinishes | internal/provider/backup.go:503-519 | once the operator has cleared its finalizers, in any order, the next call returns true |
| LifecycleRuns.FinishedMayForget | internal/provider/backup.go:503-519 | after a call that answered true, over every interleaving that revives nothing, no operator backup of that name exists and the Backup may be removed |
| LifecycleRuns.CleanupCompletes | internal/provider/backup.go:503-538 | from any state: two calls, then the operator clearing what is left, and the next call returns true, over every interleaving |
| BackupTranslation.TranslationIsFaithful | internal/provider/backup_mirror.go:150-271 | exactly the named storages, each translated; schedules point at one of them; PITR names the storage that enables it, with its decoded intervals, and is off without one; image non-empty |
| BackupTranslation.SchedulesMatch | internal/provider/backup_mirror.go:247-261 | the operator's schedules are the enabled ones in order, with name, cron, storage and count |
| BackupTranslation.ApplyBackupSettings | internal/provider/backup_mirror.go:132-273 | the loops compute the translation or the first fault in order; a fault leaves the spec untouched |
| BackupTranslation.AppendSchedules | internal/provider/backup_mirror.go:247-261 | enabled schedules appended in order, or the first faulty one |
| BackupTranslation.DecodePitr | internal/provider/backup_mirror.go:291-316 | refused iff undecodable or below one second; otherwise the settings, 60 and 3600 seconds where not set |
| BackupTranslation.FirstImage | internal/provider/provider.go:101-106 | the first non-empty image, empty exactly when no version has one |
| BackupTranslation.BucketResolutionIsIdempotent | internal/provider/backup_mirror.go:318-324 | no slash at the edges; resolving twice changes nothing |
| BackupTranslation.NilCountExactly | internal/provider/backup_mirror.go:247-289 | translation dereferences nil iff class and image are fine and the first fault of the storages, in order, is an enabled schedule retained by a count it does not set |
| TranslationRules.TranslatesExactly | internal/provider/backup_mirror.go:132-273 | an enabled section translates iff its class accepts it, the bundle supplies an image, there is a storage, every storage and schedule is in order, and at most one enables PITR |
| TranslationRules.FaultIsBlamed | internal/provider/backup_mirror.go:132-273 | the reported fault is the first in the order class, image, storages, schedules, and is what is wrong there |
| TranslationRules.BackupImageExactly | internal/provider/provider.go:92-128 | the image is that of the bundle's backup version, else the default, else of the first bundle of the same engine version that supplies one |
| TranslationRules.TrimExactly | internal/provider/backup_mirror.go:318-324 | trimming drops all slashes at both ends and nothing else |
| TranslationRules.PitrErrorsExactly | internal/provider/validate.go:69-98 | admission reports exactly the storages with bad settings, under their index, and all names when several enable PITR |
| Shortfalls.NilCountExample | internal/provider/backup_mirror.go:275-289 | an admitted Instance on which Sync does |
| BackupTranslation.ValidatePitr | internal/provider/validate.go:69-98 | the loop computes the admission errors |
| BackupTranslation.AdmissionAgreesOnPitr | internal/provider/validate.go:67-98 | accepted settings never fail translation over PITR; what translates is accepted |
| PmmResources.MergeIsBounded | internal/provider/pmm.go:59-61 | merged requests never exceed their limits |
| PmmResources.MergeExactly | internal/provider/pmm.go:59-91 | refused iff an entry request exceeds its limit; otherwise every entry value as it is and every other sized request lowered to its limit |
| PmmResources.SizeExactly | internal/provider/mysql_configs.go:180-196 | large from 32 Gi, medium from 8 Gi of the engine's memory limit, or request without one |
| PmmResources.PmmResources | internal/provider/pmm.go:62-91 | a fresh list: entry requests unchanged, other sized ones lowered to the limit; fails iff an entry request exceeds its limit, naming the least; shared tables unmodified |
| PmmResources.SortedKeys | internal/provider/pmm.go:75-75 | the names, each once, in string order |
| ClusterSync.Validate | internal/provider/validate.go:32-65 | each error exactly when its rule is broken; none exactly for an admitted Instance |
| ClusterSync.AdmissionAgreesWithSync | internal/provider/provider.go:174-304 | an admitted Instance never stops Sync over components, proxy or PITR; the spec has one proxy, sizes at least 1, unsafe exactly below 3 and 2 |
| ClusterSync.SyncEnforcesAllButReplicas | internal/provider/provider.go:174-215 | what Sync builds was admitted iff the replicas are positive |
| ClusterSync.Render | internal/provider/monitoring_sources.go:171-219 | rendered iff host and parameters decode, no request exceeds its limit and there is a token; an API fault iff only the credentials cannot be read; a render has the destination's host, the class's image, the token and the merged resources |
| ClusterSync.BindingDecides | internal/provider/monitoring_sources.go:139-162 | the first binding that applies and is PMM's alone decides: used iff it renders, failing iff its credentials cannot be read, held otherwise and without one |
| ClusterReconciler.Reconciler.HasActiveRestoreForInstance | internal/provider/backup.go:583-607 | true iff a Restore of the Instance is neither deleting nor finished |
| ClusterReconciler.Reconciler.BuildClusterSpec | internal/provider/provider.go:168-320 | the field-by-field construction computes the spec or the first fault |
| ClusterReconciler.Reconciler.SyncPmmServerToken | internal/provider/pmm.go:138-165 | the users Secret has exactly the given token; absent stays absent |
| ClusterReconciler.Reconciler.ApplyPmm | internal/provider/monitoring_sources.go:125-169 | off, held or rendered, with the token; nothing written on an API error |
| ClusterReconciler.Reconciler.Prepare | internal/provider/provider.go:154-340 | gate, build, monitoring, credentials, in this order |
| ClusterReconciler.Reconciler.SyncPxc | internal/provider/provider.go:148-375 | the whole Sync equals the step function |
| ClusterReconciler.Reconciler.Reconcile | internal/provider/provider.go:148-527 | Sync, then Status unless it failed, equal the step function |
| SyncMeaning.AppliedSpecFollowsInstance | internal/provider/provider.go:168-342 | the cluster a Sync applies has the requested sizes, proxy, flags, the backup section with its storages, schedules and PITR, and the exporter, and keeps the engine's reported state |
| SyncMeaning.AppliedPmmExactly | internal/provider/monitoring_sources.go:125-169 | spec.pmm after an applied Sync, for each requirement, with the engine's sizing |
| SyncMeaning.AppliesExactly | internal/provider/provider.go:148-344 | Sync applies iff no Restore is active and components, configurations, section, monitoring, exporter image and source credentials are in order |
| SyncMeaning.FaultsFit | internal/provider/provider.go:174-344 | a Sync that fails names what is wrong, and Status is not asked |
| SyncMeaning.PhaseExactly | internal/provider/provider.go:488-527 | each reported phase, exactly |
| SyncMeaning.ReportsRestoringExactly | internal/provider/provider.go:346-372 | after an applied Sync, Restoring is reported iff a Restore is active or seeding is not over |
| ClusterRuns.GateHolds | internal/provider/provider.go:154-161 | a reconcile that starts with an active Restore writes nothing and reports Restoring (or Provisioning) |
| ClusterRuns.SpecFrozenWhileRestoring | internal/provider/provider.go:154-161 | over every run the applied spec does not change while Restores of the Instance are active |
| ClusterRuns.ReadyExactly | internal/provider/provider.go:488-527 | after a successful Sync, Ready is reported iff the engine is ready, credentials are readable, no Restore is active, and with a data source the seeding Restore has finished |
| ClusterRuns.StatusAfterFailedSyncExactly | internal/provider/provider.go:496-521 | after a failed Sync, Status says Ready iff engine, credentials and no active Restore allow it, seeded or not |
| ClusterRuns.SeedingExactly | internal/provider/provider.go:346-372 | a Sync creates the seeding Restore, and no other, iff it applies a spec, the Instance is seeded, the cluster was Ready and that Restore is missing |
| ClusterRuns.SeedsAgainOnlyAfterDeletion | internal/provider/provider.go:346-372 | over every run it is created at most once more than it is deleted |
| ClusterRuns.UsersSecretFrame | internal/provider/pmm.go:135-165 | over every run no key of an existing users Secret changes or disappears, except the token |
| ClusterRuns.CredentialsBeforeCluster | internal/provider/provider.go:330-344 | in every run whose data source names an Instance, directly or through a stored Backup, the cluster never exists without that Instance's credentials, so the operator never initialises the Secret |
| ClusterRuns.FirstSyncCopiesCredentials | internal/provider/provider.go:381-439 | the first applied Sync copies the source's Secret whole |
| ClusterRuns.UnresolvedSourceExactly | internal/provider/provider.go:393-398 | the first Sync lets the operator initialise the Secret iff the data source names no Instance, directly or through a stored Backup |
| Shortfalls.UnresolvedSourceExample | internal/provider/provider.go:393-398 | a run in which the operator makes up the password and the Sync that later resolves the source keeps it |
| ClusterRuns.PmmHoldRule | internal/provider/monitoring_sources.go:121-162 | over every run from PMM off, seeded or not and whatever fails, spec.pmm and the token are in every state what the last applied settling Sync decided, both absent or from one render, iff no Sync fails over the exporter image after it has changed the token |
| ClusterRuns.SeededPairExactly | internal/provider/provider.go:420-431 | after the first Sync of a seeded Instance, whatever PMM requirement, spec.pmm and the token are as decided iff the source's token is the rendered one, or there is none when PMM is off or held |
| Shortfalls.SeededPairExample | internal/provider/provider.go:420-431 | a state whose source token breaks both cases |
| ClusterRuns.FailedSyncExactly | internal/provider/monitoring_sources.go:115-118 | a failed Sync changes anything iff it fails over the exporter image, the users Secret exists, and it removes a token or mirrors another one; then only Secrets change |
| ClusterRuns.FailedSyncKeepsPairExactly | internal/provider/monitoring_sources.go:115-118 | a failed Sync keeps spec.pmm and the token together iff it changes nothing |
| Shortfalls.TornPairExample | internal/provider/metrics.go:39-54 | a run of an admitted Instance whose last Sync fails over the exporter image and leaves spec.pmm on without its token |
| ClusterRuns.ExporterFollowsResolved | internal/provider/metrics.go:39-54 | over every run at most one sidecar, present iff the last applied resolved requirement asked for it, flipping exactly as often as those requirements |

## Left out

- Races inside one provider call (AlreadyExists after NotFound, a cache that does not show an applied cluster yet): a call is one atomic step.
- Kubernetes client errors other than NotFound, except where monitoring handles them.
- Garbage collection of owned objects: the runtime removes a Backup only after its operator backup is gone.
- Schema validation by the custom resource definitions: admission is what the provider's webhook checks.
- CleanupRestore request by request: it is one deletion, modelled as a step on stored objects only.
- Backups with an external origin: every Backup names an Instance.
- JSON decoding, URL parsing, connection details beyond whether they can be read, status messages other than the window's, log output.
- Engine and proxy images and configuration texts, storage sizes, scheduling, pod labels, service exposure, metrics endpoint publishing: copies of fields.
- Sub-second times: completion times and targets are compared in seconds.
- OperatorBackups.SortByCompletion: stands for the library sort; only its contract is used.
- That the runtime calls SyncBackup after a status change: `SyncedUp` is an assumption of the recovery theorem over runs.
