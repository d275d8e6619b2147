# CodexSwitch: a verified model of account activation, start barriers and account state

CodexSwitch rotates a developer's Codex accounts. The parts modelled here are the ones whose correctness is a matter of
whole runs rather than of one function:

* **Account activation on the Mac.** A durable journal (`preparing`, `committedDegraded`, `confirmed`, `manualReview`) is
  replaced by guarded compare-and-swap operations. A lease that can be invalidated while it is held, effect permits that
  re-check lease and journal at every use, short-lived runtime evidence, and a staged two-file commit surround it.
  `ActivationState`, `ActivationJournal`, `JournalRuns`, `RetrySpacing`, `MutationLease`, `RuntimeEvidence`, `RefreshRuns`,
  `CommitTransaction`, `PolicyLease` and `RecoveryStore` model it.
* **Systemd start barriers on Linux.** Install, transition, removal and reconciliation of barrier files by hard links, with
  ownership by recorded inode. `StartBarrier` has the file system (with a fault injected before or after any single step
  and a ghost history of every state), `BarrierOperations` the single operations, `BarrierProtocol` the steps that
  operations share, `BarrierTransition` the transition and `BarrierLifecycle` installation, removal, the whole life of a
  set, and recovery.
* **The account store.** `AccountPersistence` is the write-behind actor, `PersistenceRuns` what holds over its runs.
* **The policies it relies on.** `Quota` and `QuotaCodec` (canonical quota windows and their persisted forms), `ResetBank`,
  `ResetInventory` and `Redemption` (banked resets), `CredentialHandoff` (three-way merge), `RemoteTelemetry` (telemetry
  from a remote machine) and `PoolAuthority` (observations that may replace one another), over `Accounts` and `Identity`.
* **The desktop patcher.** `MarkerScan` (streaming search with a bounded cache), `RendererAuth` (the generated auth effect)
  and `AccountReads` (the generated single-flight helper).

Code that changes state step by step is a class or a method with loops, proved equal to a specification function; what the
program promises is then proved about that function for all inputs, all runs, or all interleavings. Time is a real number
of seconds, identifiers are integers with equality (and order where the program orders them), and everything the program
asks of its environment (store replies, clocks, permissions, faults) is an argument that may take any value.

Results that say more than the code's own documentation, or less:

* `BarrierLifecycle.Install` does not always undo a failed installation. Without any fault it leaves exactly the drop-in
  directories it had made before the first obstacle, because a set without a manifest is cleaned up without them; and when
  only a barrier of the other kind is in the way, the new set stays published, because the check that stops the
  installation also stops the clean-up. `FailureRestoresExactlyWhen` gives the exact condition for full restoration.
* A transition that cannot be completed never uncovers a unit, but it ends in one of three ways, which `EndingOf` reads off
  the files before it. If a barrier without an anchor cannot be had, the files are as they were when no anchor had to be
  made for an earlier unit (`Untouched`); otherwise an anchor is left that the manifest does not record, and no later
  transition, removal or reconciliation accepts the set (`Locked`). If every anchor can be had but a recorded barrier's
  directory is gone, the transitioning manifest is durable and the earlier barriers are published: the set can be removed,
  but never moved again (`Midway`). Without faults a transition succeeds if and only if every desired barrier is published
  or can be. `ATransitionCanLockASet` and `ATransitionCanStopMidway` give a set for each of the last two.
* `RemoveOwnedSet` leaves a created drop-in directory behind exactly when something foreign lies in it.
* The authority of a policy lease outlives the lease if it was finished in time: `AuthorityOutlivesOnlyFinishedLeases`
  shows that this, and neither expiry nor cancellation, is when an effect that re-checks only the authority still passes.
* The in-memory escalation is fed by restart-required outcomes alone: an outcome without a local runtime resets it, and a
  failed revalidation leaves it as it was. So repeated failures are spaced by the escalated interval only while each of
  them is recorded and nothing resets it (`RepeatedFailuresAreEscalated`); failures without a local runtime do come at the
  journal's own cadence (`JournalCadenceIsReached`).
* A queued reset bank that the store does not have yet can be lost in one way besides a replaced or deleted store: the write
  that carries it is discarded because the store's credentials have drifted (`QueuedBankIsLostExactlyWhen`).
* The retry delay stops doubling at attempt 20; the spacing results use the bounded delay as the code does.
* A guard that passes does not by itself make a valid record: `GuardsImplyValidity` gives the condition on the caller's
  own counts, times and detail.

## Model

| member | source | states |
|---|---|---|
| ActivationJournal.Coordinator.ReplaceJournal | Sources/CodexSwitch/Services/AccountActivationCoordinator.swift:889-911 | validation before the conditional replace; a write that fails may or may not have taken effect, an invalid record never does |
| ActivationJournal.Coordinator.BeginAuthorizedCredentialMutation | Sources/CodexSwitch/Services/AccountActivationCoordinator.swift:262-332 | the begin under the runtime lease is `Apply` of `Begin` to the durable journal, for every outcome of leases, permissions and I/O |
| ActivationJournal.Coordinator.BeginVerifiedExternalAuthConflictRecovery | Sources/CodexSwitch/Services/AccountActivationCoordinator.swift:159-218 | the same for the conflict recovery, with and without its witness |
| ActivationJournal.Coordinator.BeginVerifiedSameAccountGenerationRecovery | Sources/CodexSwitch/Services/AccountActivationCoordinator.swift:220-260 | the same for the same-account recovery |
| ActivationJournal.Coordinator.MigrateLegacyRetryLimitReview | Sources/CodexSwitch/Services/AccountActivationCoordinator.swift:525-582 | the same for the migration of a legacy retry-limit review |
| ActivationJournal.Coordinator.Transition | Sources/CodexSwitch/Services/AccountActivationCoordinator.swift:334-523 | the same for every operation that is one plain guarded transition |
| ActivationState.ValidityIsExact | Sources/CodexSwitch/Services/AccountActivationCoordinator.swift:968-1062 | what the durable record must hold in each phase, field by field, as an if-and-only-if |
| JournalRuns.BeginAnswers | Sources/CodexSwitch/Services/AccountActivationCoordinator.swift:262-332 | an authorized begin under the lease prepares, retries or is blocked, each if and only if a condition on the record's own fields holds, in every phase |
| JournalRuns.UnauthorizedBeginAnswers | Sources/CodexSwitch/Services/AccountActivationCoordinator.swift:262-332 | the same for a begin whose effect is not authorized |
| JournalRuns.FirstBeginPrepares | Sources/CodexSwitch/Services/AccountActivationCoordinator.swift:262-332 | without a journal a begin prepares if and only if lease, authorization and write allow it |
| JournalRuns.PreparedRecord | Sources/CodexSwitch/Services/AccountActivationCoordinator.swift:159-332 | whatever any of the three begins prepares is durable, valid, of the named activation, and has nothing counted, seen or recorded yet |
| JournalRuns.ConflictRecoveryAnswers | Sources/CodexSwitch/Services/AccountActivationCoordinator.swift:159-218 | when the conflict recovery prepares, on the fields of journal and witness |
| JournalRuns.SameAccountRecoveryAnswers | Sources/CodexSwitch/Services/AccountActivationCoordinator.swift:220-260 | when the same-account recovery prepares, on the fields of the journal |
| JournalRuns.TransitionSucceedsExactlyWhen | Sources/CodexSwitch/Services/AccountActivationCoordinator.swift:334-827 | when each of the thirteen plain transitions succeeds, on the fields of the durable record and its arguments |
| JournalRuns.TransitionRecords | Sources/CodexSwitch/Services/AccountActivationCoordinator.swift:334-827 | what each of them leaves in the journal: phase, accounts, generation, blockers, attempt and times |
| JournalRuns.ChangesAreAuthorized | Sources/CodexSwitch/Services/AccountActivationCoordinator.swift:889-911 | an authorized change saw the very record that it replaced |
| JournalRuns.RetryDelayBounds | Sources/CodexSwitch/Services/AccountActivationCoordinator.swift:847-855 | every delay lies between the clamped base and the clamped maximum |
| JournalRuns.DelayIsExact | Sources/CodexSwitch/Services/AccountActivationCoordinator.swift:847-855 | the delay starts at the base, doubles with each further attempt up to the maximum, and stays there after the twentieth |
| JournalRuns.GuardsImplyValidity | Sources/CodexSwitch/Services/AccountActivationCoordinator.swift:968-1062 | when a guard passes on a valid journal, the proposed record is accepted if and only if the caller's own arguments are in bounds |
| JournalRuns.MigrationIsTotalAndIdempotent | Sources/CodexSwitch/Services/AccountActivationCoordinator.swift:525-582 | migrating any valid retry-limit review succeeds, keeps target, generation, counts, blockers and attempt, and a second migration changes nothing |
| JournalRuns.JournalChangesOnlyByPlan | Sources/CodexSwitch/Services/AccountActivationCoordinator.swift:857-911 | the journal changes only under the lease, from a readable record, to a valid one that the plan proposes |
| JournalRuns.BlockedBeginLeavesTheJournal | Sources/CodexSwitch/Services/AccountActivationCoordinator.swift:269-330 | a blocked begin leaves the journal exactly as it was; a prepared or retried one returns what is durable |
| JournalRuns.BeginDemotesExpiredConfirmation | Sources/CodexSwitch/Services/AccountActivationCoordinator.swift:269-330 | the one case in which a begin that prepares nothing still writes, as an if-and-only-if |
| JournalRuns.JournalStaysValid | Sources/CodexSwitch/Services/AccountActivationCoordinator.swift:913-1062 | over every run the durable journal is absent or valid |
| JournalRuns.ConfirmationSources | Sources/CodexSwitch/Services/AccountActivationCoordinator.swift:720-827 | an operation leaves a confirmation only by restoring one, confirming a degraded commit or refreshing a confirmation |
| JournalRuns.CapturedConfirmationWasDurable | Sources/CodexSwitch/Services/AccountActivationCoordinator.swift:285-330 | a confirmation handed out as a previous state was the durable journal at that moment |
| JournalRuns.ConfirmedWasCommitted | Sources/CodexSwitch/Services/AccountActivationCoordinator.swift:720-827 | confirmation provenance over whole runs: a confirmed account and generation was a degraded commit earlier |
| JournalRuns.PreparingStep | Sources/CodexSwitch/Models/AccountActivationState.swift:135-172 | out of `preparing` only by a matching degraded mark, a matching restore or a review mark, and each of these can |
| JournalRuns.PreparingIsABarrier | Sources/CodexSwitch/Services/AccountActivationCoordinator.swift:334-435 | the same over runs: `preparing` stays until one of them happens |
| RetrySpacing.ActivationRetryEscalation.RecordFailure | Sources/CodexSwitch/Services/AccountActivationConvergence.swift:240-254 | repeated failures of one generation and signature are counted up to 64, anything else starts over |
| RetrySpacing.EscalationWidens | Sources/CodexSwitch/Services/AccountActivationConvergence.swift:260-282 | escalation only widens the journal's spacing, never narrows as failures repeat, and is capped at an hour |
| RetrySpacing.EscalatedIntervalIsExact | Sources/CodexSwitch/Services/AccountActivationConvergence.swift:260-272 | five minutes, ten, twenty, forty, and an hour from the fifth failure on |
| RetrySpacing.FailureStep | Sources/CodexSwitch/Services/AccountActivationCoordinator.swift:437-523 | one recorded failure keeps the activation, advances the attempt and schedules the next retry a full delay away |
| RetrySpacing.JournalCountsFailures | Sources/CodexSwitch/Services/AccountActivationCoordinator.swift:494-523 | over a run of failures on the durable schedule the journal counts them, whatever the escalation does |
| RetrySpacing.FailuresAreSpaced | Sources/CodexSwitch/Models/AccountActivationState.swift:126-133 | the k-th failure on the durable schedule is at least the sum of the first k-1 delays after the first |
| RetrySpacing.DefaultFailureRate | Sources/CodexSwitch/Services/AccountActivationCoordinator.swift:847-855 | with 30 s and 300 s there are at most 4 + T/300 failures in T seconds |
| RetrySpacing.JournalCadenceIsReached | Sources/CodexSwitch/App/AppDelegate.swift:9663-9672 | that bound is exact: failures without a local runtime, which reset the escalation, pass both gates at precisely the journal's cadence |
| RetrySpacing.EscalationCountsRepeats | Sources/CodexSwitch/Services/AccountActivationConvergence.swift:240-258 | over a stretch with one recorded signature and no reset the escalation counts the recordings, on top of what it held, up to its cap |
| RetrySpacing.RepeatedFailuresAreEscalated | Sources/CodexSwitch/Services/AccountActivationConvergence.swift:260-282 | after n recordings of one failure, at least two, and no reset since, the next attempt fails a whole escalated interval after the last recording |
| MutationLease.LeaseStorage.AcquireLease | Sources/CodexSwitch/Services/AccountMutationLeaseCoordinator.swift:44-56 | a lease is granted exactly when none is held, invalidated or not |
| MutationLease.LeaseStorage.WithLease | Sources/CodexSwitch/Services/AccountMutationLeaseCoordinator.swift:136-143 | the operation's lease is released however it ends, whatever was called meanwhile |
| MutationLease.OwnershipHistory | Sources/CodexSwitch/Services/AccountMutationLeaseCoordinator.swift:58-90 | a lease is owned if and only if it was acquired and neither released nor invalidated since |
| MutationLease.HoldingHistory | Sources/CodexSwitch/Services/AccountMutationLeaseCoordinator.swift:64-98 | a lease is held if and only if it was acquired and not released since |
| MutationLease.OwnershipIsContiguous | Sources/CodexSwitch/Services/AccountMutationLeaseCoordinator.swift:44-98 | ownership is one stretch of the run; once lost it never returns |
| MutationLease.InvalidationBlocksUntilRelease | Sources/CodexSwitch/Services/AccountMutationLeaseCoordinator.swift:70-98 | from invalidation to release nobody acquires anything |
| RuntimeEvidence.TopologyIsSetEquality | Sources/CodexSwitch/Services/AccountActivationRuntimeEvidence.swift:37-83 | comparing sorted bindings decides equality of the sets of runtimes, whatever order they were listed in |
| RuntimeEvidence.EvidenceIsExact | Sources/CodexSwitch/Services/AccountActivationRuntimeEvidence.swift:396-473 | evidence is supported if and only if both searches completed, found something, and every runtime found holds and acknowledged the expected credentials; what it then covers and how long it lives |
| RuntimeEvidence.GateIsExact | Sources/CodexSwitch/Services/AccountActivationTransaction.swift:252-269 | the automatic-policy gate opens if and only if the permit, its evidence and the journal agree on the configured account |
| RuntimeEvidence.GateRestsOnFreshEvidence | Sources/CodexSwitch/Services/AccountActivationTransaction.swift:252-269 | whatever the automatic-policy gate authorizes rests on evidence under 30 s old, covering every runtime, bound to the expected credentials and recorded in the journal |
| RuntimeEvidence.ConfirmationRefreshSchedule.Begin | Sources/CodexSwitch/Services/AccountActivationRuntimeEvidence.swift:102-119 | a refresh starts only when none is in flight and its back-off has passed |
| RuntimeEvidence.PersistenceIsAuthorizedExactlyWhen | Sources/CodexSwitch/Services/AccountActivationRuntimeEvidence.swift:186-208 | a refresh is persisted exactly while its record is unchanged, its evidence current, and a later second look supports the same topology |
| RuntimeEvidence.ConfirmationRefreshSchedule.Complete | Sources/CodexSwitch/Services/AccountActivationRuntimeEvidence.swift:121-136 | only the refresh in flight can complete; failures back off 30 s, then 60 s |
| RefreshRuns.PersistAdvancesObservation | Sources/CodexSwitch/Services/AccountActivationRuntimeEvidence.swift:162-209 | a persisted refresh moves the recorded observation time strictly forward |
| RefreshRuns.RefreshTakesEffect | Sources/CodexSwitch/Services/AccountActivationRuntimeEvidence.swift:162-209 | an admitted refresh records its evidence and nothing else; one that is not admitted changes nothing, and only its own completion ends it |
| RefreshRuns.ObservationsIncrease | Sources/CodexSwitch/Services/AccountActivationRuntimeEvidence.swift:138-209 | over runs the recorded observation time never goes back and rises at every change |
| RefreshRuns.RefreshesDoNotOverlap | Sources/CodexSwitch/Services/AccountActivationRuntimeEvidence.swift:96-136 | at most one refresh is in flight at any time of a run |
| CommitTransaction.PermitsExclude | Sources/CodexSwitch/Services/AccountActivationTransaction.swift:387-403 | two permits authorized in one state were made under the same lease for the same activation |
| CommitTransaction.PermitDiesWithItsLease | Sources/CodexSwitch/Services/AccountActivationTransaction.swift:583-613 | a permit that lost its lease never authorizes again, whatever the journal becomes |
| CommitTransaction.PermitIsMadeExactlyWhen | Sources/CodexSwitch/Services/AccountActivationTransaction.swift:583-613 | a permit is made if and only if lease, purpose and the readable durable journal allow it at that moment |
| CommitTransaction.ActivationSession.CommitConfiguredCredentials | Sources/CodexSwitch/Services/AccountActivationTransaction.swift:616-659 | the thirteen stages run in order and stop at the first failure, as the specification `Run` says |
| CommitTransaction.InterferenceKeepsTheProtocol | Sources/CodexSwitch/Services/AccountActivationTransaction.swift:583-613 | nothing anybody else does between two stages breaks the commit protocol |
| CommitTransaction.AttemptKeepsTheProtocol | Sources/CodexSwitch/Services/AccountActivationTransaction.swift:387-403 | each stage adds exactly its own effect if it succeeds and at most that one if it fails, under lease and phase at that moment |
| CommitTransaction.AttemptPassesExactlyWhen | Sources/CodexSwitch/Services/AccountActivationTransaction.swift:616-659 | each of the thirteen stages passes if and only if permit, journal and environment allow it at that moment |
| CommitTransaction.AttemptDoesItsEffect | Sources/CodexSwitch/Services/AccountActivationTransaction.swift:616-659 | a stage that logs an effect has had it: the store, the auth file, the degraded record with its detail and counts, the published credentials; no other stage touches them |
| CommitTransaction.CommitKeepsTheProtocol | Sources/CodexSwitch/Services/AccountActivationTransaction.swift:616-659 | crash consistency: stopped at any stage, with the lease lost at any moment, the journal is degraded under this generation only after store, auth and readback; a failed stage means no later effect; every logged effect has happened, and a commit that ends has published its target |
| CommitTransaction.UndisturbedCommitSucceeds | Sources/CodexSwitch/Services/AccountActivationTransaction.swift:616-659 | a commit that nothing interferes with and whose environment grants every stage ends committed with all four effects |
| CommitTransaction.NoEffectAfterLeaseLoss | Sources/CodexSwitch/Services/AccountActivationTransaction.swift:387-403 | after the lease is lost anywhere in a run no further effect of the commit happens |
| PolicyLease.DeadlineIsSaturated | Sources/CodexSwitch/Services/AccountActivationTransaction.swift:172-200 | the deadline is a 64-bit number not before now, and exact whenever the exact one fits |
| PolicyLease.PolicyLeaseState.BeginLease | Sources/CodexSwitch/Services/AccountActivationTransaction.swift:172-200 | a lease begins exactly when none is current |
| PolicyLease.PolicyLeaseState.Finish | Sources/CodexSwitch/Services/AccountActivationTransaction.swift:211-222 | only the current lease finishes; past its deadline its authority is revoked |
| PolicyLease.PolicyLeaseState.ExpireLease | Sources/CodexSwitch/Services/AccountActivationTransaction.swift:225-236 | only the current lease expires, and only at its deadline |
| PolicyLease.PolicyLeaseState.CancelLease | Sources/CodexSwitch/Services/AccountActivationTransaction.swift:238-249 | cancelling ends and revokes exactly the current lease |
| PolicyLease.LeaseEndsOnce | Sources/CodexSwitch/Services/AccountActivationTransaction.swift:169-250 | over every run a lease is current, finished in time or revoked, exactly one of the three, and never current again |
| PolicyLease.CurrentLeaseAuthorizes | Sources/CodexSwitch/Services/AccountActivationTransaction.swift:133-146 | while a lease is current it and its authority authorize exactly until the deadline |
| PolicyLease.AuthorityOutlivesOnlyFinishedLeases | Sources/CodexSwitch/Services/AccountActivationTransaction.swift:121-146 | the authority of a lease that is no longer current still authorizes if and only if it was finished in time |
| RecoveryStore.RecoveryStoreData | Sources/CodexSwitch/Services/AccountActivationCredentialCommitter.swift:118-144 | the patched store exists if and only if every record is the expected account, and is then the record-wise patch |
| RecoveryStore.CompensatedStoreData | Sources/CodexSwitch/Services/AccountActivationCredentialCommitter.swift:90-116 | the same for putting the selection back |
| RecoveryStore.PatchPreservesUnrelatedFields | Sources/CodexSwitch/Services/AccountActivationCredentialCommitter.swift:118-144 | only selection and, for changed tokens, credential fields change; everything else in a raw record stays |
| RecoveryStore.CompensationRestoresSelection | Sources/CodexSwitch/Services/AccountActivationCredentialCommitter.swift:90-116 | compensation undoes exactly the selection; a record with unchanged tokens is what it was |
| RecoveryStore.CredentialCommitter.PersistRecoveryAccountStore | Sources/CodexSwitch/Services/AccountActivationCredentialCommitter.swift:56-88 | the store changes only while both files are the witnessed ones and every authorization holds |
| RecoveryStore.CredentialCommitter.PersistAuth | Sources/CodexSwitch/Services/AccountActivationCredentialCommitter.swift:10-54 | which answer it gives, as an if-and-only-if; the auth file changes only under authorization, and in a recovery only for the witnessed account, path and credentials while store and auth file are the expected ones |
| RecoveryStore.CredentialCommitter.CompensateRecoveryStoreSelection | Sources/CodexSwitch/Services/AccountActivationCredentialCommitter.swift:90-116 | compensation touches only the very store the recovery committed |
| StartBarrier.ArrangedIsWriteAhead | scripts/lib/systemd-start-barrier.py:462-494 | with the manifest written first, every published barrier is a recorded inode with its anchor, and every unit with one is covered |
| BarrierOperations.EnsureDropIn | scripts/lib/systemd-start-barrier.py:52-64 | the drop-in directory exists afterwards and is recorded exactly if it had to be made; every step keeps ownership |
| BarrierOperations.CreateAnchor | scripts/lib/systemd-start-barrier.py:168-213 | the anchor and its record, step by step and under faults |
| BarrierOperations.WriteInitialManifest | scripts/lib/systemd-start-barrier.py:224-252 | the first manifest is durable or absent |
| BarrierOperations.WriteNextManifest | scripts/lib/systemd-start-barrier.py:224-252 | a later manifest replaces the current one atomically; a failure leaves one or the other |
| BarrierOperations.PublishAnchor | scripts/lib/systemd-start-barrier.py:497-509 | only a recorded anchor is linked, only to a free path, and without faults exactly when its directory is there |
| BarrierOperations.RetireBarrier | scripts/lib/systemd-start-barrier.py:662-674 | only a recorded inode is unlinked, and never a unit's last barrier while units must stay covered |
| BarrierOperations.ReplacingManifest | scripts/lib/systemd-start-barrier.py:224-252 | the rename makes exactly the records in memory durable and touches no public path |
| BarrierProtocol.PrepareMissing | scripts/lib/systemd-start-barrier.py:626-652 | every missing desired barrier gets its anchor, or the first obstacle is named, with exactly the directories made before it |
| BarrierProtocol.LoadedStateTracks | scripts/lib/systemd-start-barrier.py:276-494 | a manifest that passes every check describes its files exactly, and nothing foreign bars its units |
| BarrierProtocol.LoadIsExact | scripts/lib/systemd-start-barrier.py:276-433 | a manifest is loaded if and only if it is stored for this owner and these units and the private tree and created directories are exactly what it records |
| BarrierProtocol.HeldIsExact | scripts/lib/systemd-start-barrier.py:462-494 | a set may be moved if and only if it is held and exactly its active barriers stand published as recorded inodes |
| BarrierProtocol.RemovalIsExact | scripts/lib/systemd-start-barrier.py:462-494 | a set may be removed if and only if whatever stands published on its units is a recorded inode, and in a held set exactly the active ones do |
| BarrierProtocol.HeldIsAccepted | scripts/lib/systemd-start-barrier.py:324-494 | a held set passes every check of the next operation, and what is not the owner's is what it always was |
| BarrierProtocol.OwnedIsLoaded | scripts/lib/systemd-start-barrier.py:276-433 | so does the manifest check of a set in any phase |
| BarrierTransition.StoppedAtObstacle | scripts/lib/systemd-start-barrier.py:415-433 | anchors made before an obstacle are foreign to the durable manifest, so the directory check refuses the set from then on |
| BarrierTransition.ATransitionCanLockASet | scripts/lib/systemd-start-barrier.py:626-652 | every held pair of masked units of this shape ends `Locked` when moved to conditions |
| BarrierTransition.MaskedPairExists | scripts/lib/systemd-start-barrier.py:626-652 | one concrete file system of that shape |
| BarrierTransition.LockMaskedPair | scripts/lib/systemd-start-barrier.py:606-652 | after that transition the set can be neither loaded, moved nor removed |
| BarrierTransition.ATransitionCanStopMidway | scripts/lib/systemd-start-barrier.py:655-661 | a concrete held set whose transition ends `Midway`, without any obstacle to a new anchor |
| BarrierProtocol.PublishDesired | scripts/lib/systemd-start-barrier.py:658-661 | every desired barrier is published, or exactly those before the first whose directory is missing |
| BarrierTransition.MoveBarriers | scripts/lib/systemd-start-barrier.py:655-677 | manifest, then new barriers, then retirement, then manifest: no step of it leaves a gap; without faults it succeeds if and only if every desired barrier is published or reachable, and otherwise stops after exactly the earlier ones under a transitioning manifest |
| BarrierTransition.Transition | scripts/lib/systemd-start-barrier.py:606-677 | after every single step, failing steps included, every unit has a recorded barrier and nothing foreign has changed; on success exactly the desired set is published; without faults it succeeds if and only if it can, and otherwise leaves exactly what its ending says |
| BarrierTransition.AfterEnding | scripts/lib/systemd-start-barrier.py:620-622 | a later transition is accepted if and only if this one succeeded or changed nothing, and a later removal if and only if it left no unrecorded anchor |
| BarrierLifecycle.RemoveOwnedSet | scripts/lib/systemd-start-barrier.py:746-814 | refused without a change unless manifest and files match and, if asked for, the activation lock names this very owner; otherwise public barriers go first, only recorded inodes are unlinked, and exactly the foreign-occupied created directories remain |
| BarrierLifecycle.RemoveCreated | scripts/lib/systemd-start-barrier.py:796-813 | created directories are removed last first; one that is occupied stays |
| BarrierLifecycle.PublishedSetIsHeld | scripts/lib/systemd-start-barrier.py:572-574 | the final check of an installation passes if and only if no unit has another barrier |
| BarrierLifecycle.CleanUp | scripts/lib/systemd-start-barrier.py:575-602 | what is undone after a failure, with and without a manifest, step by step |
| BarrierLifecycle.Install | scripts/lib/systemd-start-barrier.py:512-603 | write-ahead at every step; without faults it succeeds if and only if nothing stands in the way, and otherwise leaves exactly what `LeftBehind` says |
| BarrierLifecycle.FailureRestoresExactlyWhen | scripts/lib/systemd-start-barrier.py:575-602 | a failed installation puts everything back if and only if an obstacle of its own kind stopped it before it made any directory |
| BarrierLifecycle.WholeLife | scripts/lib/systemd-start-barrier.py:512-814 | install, transitions up to the first that fails, remove: whatever the faults, a reported removal restores every path up to drop-in directories of these units that were not there before; without faults it restores everything, and succeeds if and only if the lock file names the owner and no transition ended `Locked` |
| BarrierLifecycle.Reconcile | scripts/lib/systemd-start-barrier.py:908-955 | a live owner's set, or any set under an unreadable lock, is left untouched; a dead owner's set is removed if it is intact |
| Quota.KeepValidWindows | Sources/CodexSwitch/Models/QuotaSnapshot.swift:285-306 | the loop computes the canonical list |
| Quota.BestIsMostRestrictive | Sources/CodexSwitch/Models/QuotaSnapshot.swift:318-326 | the kept window of a kind is one of the input and none of that kind is more restrictive |
| Quota.ValidWindowsIsIdempotent | Sources/CodexSwitch/Models/QuotaSnapshot.swift:285-306 | the canonical list is its own canonical list |
| Quota.PolicyWindowsAreBest | Sources/CodexSwitch/Models/QuotaSnapshot.swift:115-138 | a snapshot has at most one window per recognized kind, in order |
| Quota.CapacityIgnoresOrder | Sources/CodexSwitch/Models/QuotaSnapshot.swift:144-180 | usability, the need to swap and the least remaining capacity do not depend on input order |
| Quota.CapacityIsWorstEvidence | Sources/CodexSwitch/Models/QuotaSnapshot.swift:140-180 | usability and the need to swap stated on the raw windows: the least favourable evidence always decides |
| Quota.UsableMeansNoSwap | Sources/CodexSwitch/Models/QuotaSnapshot.swift:171-180 | usable accounts never need a swap, and only bad or missing evidence leaves an account in between |
| Quota.SnapshotIsExact | Sources/CodexSwitch/Models/QuotaSnapshot.swift:115-210 | what freshness, denial, exhaustion, placeholders and bad evidence of a snapshot mean on its raw windows |
| Quota.MinimumRemainingIsExact | Sources/CodexSwitch/Models/QuotaSnapshot.swift:159-163 | the least remaining percentage is attained by a policy window and undercut by none |
| QuotaCodec.WindowRoundTrip | Sources/CodexSwitch/Models/QuotaSnapshot.swift:388-416 | a window is read back with its kind recomputed from its duration |
| QuotaCodec.SnapshotRoundTrip | Sources/CodexSwitch/Models/QuotaSnapshot.swift:231-283 | decoding an encoded snapshot gives it back, unchanged exactly when it is canonical |
| QuotaCodec.DecodedIsCanonical | Sources/CodexSwitch/Models/QuotaSnapshot.swift:231-266 | whatever is decoded, current or legacy, is canonical and survives another round |
| QuotaCodec.VersionIsChecked | Sources/CodexSwitch/Models/QuotaSnapshot.swift:231-266 | version 2 is written; under its current or former name any other is refused, and only a snapshot without one is migrated |
| QuotaCodec.LegacyDenial | Sources/CodexSwitch/Models/QuotaSnapshot.swift:254-266 | a migrated snapshot holds the canonical list of its two windows and denies if and only if a lasting one had reached its hard limit; otherwise nothing is known |
| ResetBank.StructurallyValidAvailableCredits | Sources/CodexSwitch/Models/RateLimitResetBank.swift:48-77 | the loop returns the sorted usable credits exactly when the bank can be believed |
| ResetBank.BeliefIsExact | Sources/CodexSwitch/Models/RateLimitResetBank.swift:48-77 | a bank is believed if and only if its counts, expiries, identifiers and announced number agree with the credits at their places in the list |
| ResetBank.ValidCreditsAreOrdered | Sources/CodexSwitch/Models/RateLimitResetBank.swift:68-77 | all usable credits, strictly ordered by expiry then identifier, the same for every listing order |
| ResetBank.NextExpirationIsEarliest | Sources/CodexSwitch/Models/RateLimitResetBank.swift:79-93 | a reset is available if and only if the bank is believed and announces one; its expiry is the earliest and still to come |
| ResetBank.NewestIsNewest | Sources/CodexSwitch/Models/RateLimitResetBank.swift:106-129 | the kept bank is one of the two, valid, at least as new as both, and the retained one on a tie |
| ResetBank.NewestIsAssociative | Sources/CodexSwitch/Models/RateLimitResetBank.swift:106-129 | merging three banks in either grouping keeps the same one |
| ResetBank.NewestIsFirstMaximum | Sources/CodexSwitch/Models/RateLimitResetBank.swift:106-129 | a run of observations keeps the first of the newest valid banks |
| ResetInventory.Reconciling | Sources/CodexSwitch/Models/RateLimitResetBank.swift:131-163 | the two loops compute the reconciled list or refuse |
| ResetInventory.ReconcilingKeepsNewest | Sources/CodexSwitch/Models/RateLimitResetBank.swift:131-163 | refuses exactly ambiguous lists, changes only banks, keeps the newest per identity, is idempotent |
| Accounts.OrderIsStrict | Sources/CodexSwitch/Models/CodexAccount.swift:274-292 | the listing order is strict and decides between any two accounts |
| Accounts.ListingIsByIdentity | Sources/CodexSwitch/Models/CodexAccount.swift:274-292 | accounts are listed by provider identity, then by address, then by identifier |
| Accounts.TiersAreExact | Sources/CodexSwitch/Models/CodexAccount.swift:239-264 | the tier of every plan name, read off the words it is made of |
| Accounts.UsabilityIsExact | Sources/CodexSwitch/Models/CodexAccount.swift:56-116 | when an account is usable at once, needs relief, or may replace another |
| Accounts.RecoveryIsExact | Sources/CodexSwitch/Models/CodexAccount.swift:118-126 | when a blocked account recovers: the latest reset still to come of what blocks it |
| Identity.StableIdentityIsExact | Sources/CodexSwitch/Models/CodexAccount.swift:301-310 | an identity is what lies between the first and the last character that is not blank, in lower case; blank text has none |
| Redemption.RedemptionIsWarranted | Sources/CodexSwitch/Models/RateLimitResetBank.swift:272-340 | a reset is redeemed only for a spent account that could use it at once, with no ready account of its tier or higher, and not while quota recovers within a day and any ready account exists |
| Redemption.ReasonIsExact | Sources/CodexSwitch/Models/RateLimitResetBank.swift:272-340 | a reset is warranted if and only if a condition on account, bank and rivals holds, and which reason is given |
| Redemption.RankIsStrictOrder | Sources/CodexSwitch/Models/RateLimitResetBank.swift:250-268 | the comparator is a strict order that decides between different accounts |
| Redemption.SelectionIgnoresOrder | Sources/CodexSwitch/Models/RateLimitResetBank.swift:225-270 | the chosen candidate does not depend on the order of the list |
| Redemption.SelectionIsBest | Sources/CodexSwitch/Models/RateLimitResetBank.swift:225-270 | the choice qualifies, is not usable, and has no usable rival of its tier; every other that qualifies has at most its tier, among equals none expires earlier, and among equals in both it is listed first |
| AccountPersistence.AccountPersistenceCoordinator.PersistDurably | Sources/CodexSwitch/Services/AccountPersistenceCoordinator.swift:147-164 | a durable snapshot: stale revisions are ignored, queued banks are kept, telemetry it covers is dropped only after the store accepted it |
| AccountPersistence.AccountPersistenceCoordinator.PersistMatching | Sources/CodexSwitch/Services/AccountPersistenceCoordinator.swift:166-192 | the conditional snapshot and its drift answer |
| AccountPersistence.AccountPersistenceCoordinator.PersistInactiveCredentialUpdate | Sources/CodexSwitch/Services/AccountPersistenceCoordinator.swift:194-216 | a one-account write first hands over everything queued |
| AccountPersistence.AccountPersistenceCoordinator.QueueTelemetry | Sources/CodexSwitch/Services/AccountPersistenceCoordinator.swift:249-275 | queued telemetry is merged, keeps its first queueing time, and has a flush scheduled |
| AccountPersistence.AccountPersistenceCoordinator.PersistPendingTelemetry | Sources/CodexSwitch/Services/AccountPersistenceCoordinator.swift:365-417 | the cadence, heartbeat and forced paths, and the restored queue of a failed write |
| AccountPersistence.AccountPersistenceCoordinator.FlushTelemetryIfDue | Sources/CodexSwitch/Services/AccountPersistenceCoordinator.swift:277-288 | a due flush, rescheduled while anything waits |
| AccountPersistence.AccountPersistenceCoordinator.FlushTelemetry | Sources/CodexSwitch/Services/AccountPersistenceCoordinator.swift:290-299 | a forced flush |
| AccountPersistence.AccountPersistenceCoordinator.PersistTelemetrySnapshot | Sources/CodexSwitch/Services/AccountPersistenceCoordinator.swift:301-315 | the termination snapshot |
| AccountPersistence.AccountPersistenceCoordinator.DeleteAllDurably | Sources/CodexSwitch/Services/AccountPersistenceCoordinator.swift:218-247 | deletion drops the queue and empties or adopts what is durable |
| AccountPersistence.AccountPersistenceCoordinator.AdoptExternalSnapshot | Sources/CodexSwitch/Services/AccountPersistenceCoordinator.swift:126-137 | adoption drops the queue only once the load succeeded |
| PersistenceRuns.StepKeepsOrder | Sources/CodexSwitch/Services/AccountPersistenceCoordinator.swift:147-335 | every call hands over at most one snapshot, none older than what was stored, and leaves nothing older to be written |
| PersistenceRuns.DurableSnapshotIsExact | Sources/CodexSwitch/Services/AccountPersistenceCoordinator.swift:147-164 | what a durable snapshot writes, queues and remembers, for every revision and reply |
| PersistenceRuns.ConditionalSnapshotIsExact | Sources/CodexSwitch/Services/AccountPersistenceCoordinator.swift:166-192 | the same for a conditional snapshot |
| PersistenceRuns.QueueingIsExact | Sources/CodexSwitch/Services/AccountPersistenceCoordinator.swift:249-275 | the same for queued telemetry |
| PersistenceRuns.TerminationIsExact | Sources/CodexSwitch/Services/AccountPersistenceCoordinator.swift:301-315 | the same for the termination snapshot |
| PersistenceRuns.ReplacementIsExact | Sources/CodexSwitch/Services/AccountPersistenceCoordinator.swift:126-137 | the same for adoption and deletion |
| PersistenceRuns.InactiveUpdateIsExact | Sources/CodexSwitch/Services/AccountPersistenceCoordinator.swift:194-216 | the same for a one-account write and the flush before it |
| PersistenceRuns.FlushWritesExactlyWhen | Sources/CodexSwitch/Services/AccountPersistenceCoordinator.swift:365-417 | a cadence flush writes if and only if what is queued has waited a minute, no telemetry was written for a minute, and it differs from what is stored in more than its times or five minutes have passed |
| PersistenceRuns.ForcedFlushWrites | Sources/CodexSwitch/Services/AccountPersistenceCoordinator.swift:365-417 | a forced flush writes whatever is queued |
| PersistenceRuns.FlushOutcomeIsExact | Sources/CodexSwitch/Services/AccountPersistenceCoordinator.swift:365-449 | what a flush leaves queued and remembered for every reply of the store |
| PersistenceRuns.RevisionsNeverGoBack | Sources/CodexSwitch/Services/AccountPersistenceCoordinator.swift:147-417 | over every run no snapshot is handed over after a newer one was stored, the queue is never behind the store, and a flush is scheduled exactly while something waits |
| PersistenceRuns.CadenceIsKept | Sources/CodexSwitch/Services/AccountPersistenceCoordinator.swift:365-417 | over every run a cadence write comes at least a minute after the telemetry write before it |
| PersistenceRuns.QueuedBankIsLostExactlyWhen | Sources/CodexSwitch/Services/AccountPersistenceCoordinator.swift:249-335 | one call: a queued bank the store does not have leaves both queue and store exactly by a write discarded for drift or a replaced or deleted store |
| PersistenceRuns.QueuedBankSurvivesStep | Sources/CodexSwitch/Services/AccountPersistenceCoordinator.swift:317-335 | one call: everything handed over has a bank at least as new, and the bank stays queued, is written, was already stored, or is in a discarded write |
| PersistenceRuns.SubmittedBankIsKept | Sources/CodexSwitch/Services/AccountPersistenceCoordinator.swift:249-328 | a submitted bank reaches the store or the queue, or a newer one does |
| PersistenceRuns.QueuedBankIsAccountedFor | Sources/CodexSwitch/Services/AccountPersistenceCoordinator.swift:249-335 | over every run in which its identity stays in the submitted lists, a queued bank is still queued, or one at least as new was written or was what the store had, or its write was discarded for drift |
| PersistenceRuns.QueueChangesOnlyWhen | Sources/CodexSwitch/Services/AccountPersistenceCoordinator.swift:404-416 | a failed write leaves the queue exactly as it was; the only ways it changes |
| CredentialHandoff.ById | Sources/CodexSwitch/Models/AccountManager.swift:1032-1043 | a table by identifier, refused if one repeats |
| CredentialHandoff.CommittedCredentialHandoffSnapshot | Sources/CodexSwitch/Models/AccountManager.swift:1021-1110 | the loops and maps compute the merge, and refuse in exactly the cases `Accepts` excludes |
| CredentialHandoff.MergeIsThreeWay | Sources/CodexSwitch/Models/AccountManager.swift:1073-1105 | authority from disk, each telemetry group from memory exactly if memory changed it, the bank the newest valid of three |
| CredentialHandoff.HandoffIsAcceptedExactlyWhen | Sources/CodexSwitch/Models/AccountManager.swift:1021-1072 | a merge is accepted if and only if memory names the expected accounts with exactly the expected credentials and the persisted list adds at most the target and selects it alone |
| CredentialHandoff.UnchangedMemoryYieldsDisk | Sources/CodexSwitch/Models/AccountManager.swift:1073-1105 | with nothing changed in memory the merge is the persisted account, up to its bank |
| CredentialHandoff.HandoffKeepsAuthority | Sources/CodexSwitch/Models/AccountManager.swift:1021-1110 | an accepted merge has the persisted order, authority and single active target, and merges every known account three ways |
| RemoteTelemetry.TelemetryProjection.ProjectAuthoritativeTelemetry | Sources/CodexSwitch/Models/AccountManager.swift:771-871 | the loop on copies computes `Project`, and reports a change exactly when some report changes its account |
| RemoteTelemetry.TakeIn | Sources/CodexSwitch/Models/AccountManager.swift:801-864 | one report: what it may change, and whether it did |
| RemoteTelemetry.ProjectedAccountFollows | Sources/CodexSwitch/Models/AccountManager.swift:806-855 | a report never changes authority nor replaces anything by something older; if its telemetry is not accepted only the bank may change |
| RemoteTelemetry.ProjectedAccountIsExact | Sources/CodexSwitch/Models/AccountManager.swift:806-855 | what one report changes, field by field: a newer quota, a later subscription, the newest of what was taken, the runtime verdict, the newest valid bank |
| RemoteTelemetry.ReportIsIdentifiedExactlyWhen | Sources/CodexSwitch/Models/AccountManager.swift:873-880 | a report names an identity if and only if it is bounded, printable and not blank |
| RemoteTelemetry.TelemetryIsValidExactlyWhen | Sources/CodexSwitch/Models/AccountManager.swift:882-960 | which reports count, on their fields and in numbers |
| RemoteTelemetry.DeliveryIsExact | Sources/CodexSwitch/Models/AccountManager.swift:771-871 | a delivery is taken in if and only if it is recent and nothing in it or in the accounts is ambiguous; then every account is what its own report makes of it, whatever else the delivery holds and in whatever order |
| RemoteTelemetry.RepeatedDeliveryChangesNothing | Sources/CodexSwitch/Models/AccountManager.swift:771-871 | a delivery taken in twice, however much later, changes nothing the second time |
| RemoteTelemetry.TelemetryNeverGoesBack | Sources/CodexSwitch/Models/AccountManager.swift:771-871 | over every run of late, repeated, reordered or malformed deliveries authority stays and no reading, refresh time, bank or observation time goes back |
| PoolAuthority.AuthorityView.PublishPoolAuthorityObservation | Sources/CodexSwitch/Models/AccountManager.swift:258-272 | an observation is shown and retained exactly when it may replace the existing one |
| PoolAuthority.AuthorityView.ClearPoolAuthorityObservation | Sources/CodexSwitch/Models/AccountManager.swift:280-286 | losing the connection hides the observation but retains it |
| PoolAuthority.PublicationIsExact | Sources/CodexSwitch/Models/AccountManager.swift:258-302 | an observation is published if and only if it is no step back in epoch, active account and time from the last one known |
| PoolAuthority.AuthorityNeverGoesBack | Sources/CodexSwitch/Models/AccountManager.swift:288-302 | over every run, across disconnections, what is shown never goes back in epoch, account or time |
| PoolAuthority.AcceptedInOrder | Sources/CodexSwitch/Models/AccountManager.swift:258-302 | of two observations accepted in a run the later one may replace the earlier |
| MarkerScan.OverlapSuffices | scripts/patch-asar.py:256-262 | a marker in what was read lies in what was read before or in the overlap and the new chunk |
| MarkerScan.ScanChunks | scripts/patch-asar.py:252-262 | for every way of splitting the file the scan finds exactly the markers of a whole-file search |
| MarkerScan.CapabilitiesAreExact | scripts/patch-asar.py:269-281 | what a file supports, stated on the markers its content holds |
| MarkerScan.BoundedIsNewest | scripts/patch-asar.py:282-286 | evicting as it goes, the cache holds exactly the most recently used files |
| MarkerScan.Scanner.ScanCliMarkers | scripts/patch-asar.py:223-286 | a result is what a fresh scan would give, at most 64 are kept, and a file that changed while it was read gives none |
| RendererAuth.AuthEffect.OnResolved | scripts/patch-asar.py:1657-1663 | a resolved read commits only while mounted, newest and of the current epoch |
| RendererAuth.AuthEffect.OnAuthChanged | scripts/patch-asar.py:1667-1669 | an auth event starts a new epoch and either a read or a logout confirmation |
| RendererAuth.AuthEffect.OnLogoutTimer | scripts/patch-asar.py:1650-1652 | the confirmation timer starts a confirming read of its epoch |
| RendererAuth.AuthEffect.OnCleanup | scripts/patch-asar.py:1672-1674 | the cleanup stops everything |
| RendererAuth.StaleReadsNeverCommit | scripts/patch-asar.py:1653-1669 | over every interleaving a read begun before the latest auth event, or before a newer read, changes nothing |
| RendererAuth.LoginIsShown | scripts/patch-asar.py:1644-1669 | an event with a login begins a read, and its answer is shown if nothing newer happens |
| RendererAuth.LogoutTakesEffect | scripts/patch-asar.py:1644-1669 | an event without a login takes effect once its confirming read, ten seconds later, finds none either |
| RendererAuth.LogoutIsHeldBack | scripts/patch-asar.py:1779-1787 | an unconfirmed read that finds no login leaves a shown one and schedules a confirmation |
| RendererAuth.CleanupStops | scripts/patch-asar.py:1672-1674 | the cleanup unmounts for good, calls off both timers and renders nothing |
| RendererAuth.FailuresAreShown | scripts/patch-asar.py:1664-1666 | a failed current read shows the error |
| RendererAuth.CleanupIsFinal | scripts/patch-asar.py:1672-1674 | after the cleanup nothing is rendered or logged out, whatever still arrives |
| RendererAuth.TimerOrigin | scripts/patch-asar.py:1650-1669 | a pending confirmation was scheduled by an event of the current epoch, at its time |
| RendererAuth.LogoutIsConfirmed | scripts/patch-asar.py:1779-1787 | a login is replaced by none only by a confirming read of the current epoch, begun at least 10 s after the event that scheduled it |
| AccountReads.SingleFlight.ReadAccount | scripts/patch-asar.py:1800-1811 | a read joins the flight in use or begins one |
| AccountReads.TableChanges | scripts/patch-asar.py:1800-1811 | what a read, a settling flight and an invalidation change in the table, and that they touch nothing else |
| AccountReads.FlightsAreCurrent | scripts/patch-asar.py:1800-1811 | over every run a read never shares a flight begun before the last invalidation |
| AccountReads.FlightIsShared | scripts/patch-asar.py:1800-1811 | a flight in use is shared until it settles or the table is replaced, whatever older flights do |

## Left out

- CommitTransaction.CommitKeepsTheProtocol: leaves this activation's own degraded mark to the commit, so it excludes launch recovery (Sources/CodexSwitch/App/AppDelegate.swift:1950-1956), which marks a `preparing` journal degraded after it has itself found the selected account and the auth file to match.
- RecoveryStore.CredentialCommitter.PersistAuth: what the auth file holds of an account is its credentials; its bytes and the merge with what it held before are code that is not part of this model.
- ActivationJournal.Coordinator.Transition: takes the operation as a value, so the thirteen public wrappers of one guarded transition are one method with thirteen guards.
- BarrierLifecycle.Reconcile: does not remove barriers of the first format, which have no manifest; an owner without a set of the current format is reported and left alone.
- BarrierOperations.WriteInitialManifest: a manifest is written whole or not at all; a torn write that the source deletes again is not distinguished from one that never happened.
- RendererAuth.AuthEffect.OnResolved: what an account read shows is an arbitrary value; the conversion of an account to a rendered state is not modelled.
- AccountReads.SingleFlight.ReadAccount: the coalescing of repeated callbacks of one broadcast within its window is not modelled.
- Redemption.SelectionIsBest: manual redemption and its texts are not modelled.
- Real file, lock, process, signal and network I/O, and the code behind it (the atomic file transaction, the keychain store, the swap engine, the app delegate, the Rust client): each is an atomic step with an arbitrary answer.
- The JSON of the journal, of the manifest and of accounts, the journal's 4 KiB limit, read limits, file modes and UUID text. Quota snapshots alone have their persisted form modelled, over parsed JSON.
- Unicode: text is trimmed and lower-cased by ASCII rules and compared character by character; normalization is not modelled.
- NaN and infinite usage values, and rounding: usage and time are real numbers.
- Paths of start barriers are structured values; their text, and the parsing of unit lists and modes, is not modelled.
- Interference by other processes while a barrier operation runs; the checks against it are kept, but within one operation only faults occur.
- Recovery of a barrier set whose owner died between writing an anchor and recording it: the code refuses such a set, and so does the model.
- The claims of an access token are given with it; reading them from the token text is not modelled.
- The order in which sets are visited (markers in one window, barriers to retire): the model picks any.
- Presentation, notifications, menus, logging, pricing and plan capacity tables, quota polling, priming and age labels.
- The regular-expression rewriting in the patcher other than the two generated helpers, signing, bundles and relaunching.
- The runtime convergence summary and the four-step confirmation transaction: sequences of guards without a property of their own beyond the operations they call.
- The distant past as a date: an observation time that is not known is earlier than every date.
