/** The durable account-activation record: its shape, its validity and the decisions read off it. */
module ActivationState {
  import opened Prelude

  const CURRENT_VERSION := 1
  const MAXIMUM_RUNTIME_COUNT := 256
  const MAXIMUM_RETRY_ATTEMPT := 10_000
  const LEGACY_AUTOMATIC_RETRY_LIMIT := 4

  datatype Phase = Preparing | CommittedDegraded | Confirmed | ManualReview

  datatype Detail =
    | RuntimeConfirmationPending
    | NoLocalRuntime
    | RuntimeAcknowledgementIncomplete
    | RestartRecoveredCommittedFiles
    | LaunchRuntimeEvidenceExpired
    | RuntimeEvidenceExpired
    | DesktopRuntimeExited
    | ActiveCredentialMutation
    | ExternalAuthObserved
    | ExternalAuthConflict
    | ExternalAuthTargetUnknown
    | ExternalAuthAbsent
    | ExternalAuthInvalid
    | ExternalAuthUnreadable
    | DurableConfigurationChanged
    | AutomaticRetryLimitReached
    | ConfiguredTargetMissing
    | ConfiguredFilesInconsistent
    | JournalUnavailable
    | PrepareFailed
    | CommittedJournalUpdateFailed
    | RuntimeEvidencePersistFailed
    | FileCommitFailed
  {
    predicate AllowsManualSameTargetRetry() {
      DurableConfigurationChanged?
    }

    predicate AllowsVerifiedExternalAuthRecovery() {
      ExternalAuthAbsent? || ExternalAuthInvalid? || ExternalAuthUnreadable?
    }

    predicate AllowsExplicitSameAccountReauthenticationRecovery() {
      ConfiguredFilesInconsistent? || AllowsVerifiedExternalAuthRecovery() || ExternalAuthConflict?
    }
  }

  datatype RequestKind = Automatic | Manual | PoolAuthority | TerminalTokenRecovery {
    predicate PermitsOperatorRecovery() {
      !Automatic?
    }
  }

  datatype Decision = BeginActivation | RetrySameTarget | Blocked

  datatype Blocker = Blocker(pid: int, reason: string)

  datatype State = State(
    version: int,
    phase: Phase,
    generation: Uuid,
    configured: Option<Uuid>,
    runtimeCurrent: Option<Uuid>,
    updatedAt: Date,
    retryAttempt: int,
    nextRetryAt: Option<Date>,
    discovered: int,
    acknowledged: int,
    detail: Option<Detail>,
    evidenceGeneration: Option<Uuid>,
    evidenceObservedAt: Option<Date>,
    evidenceExpiresAt: Option<Date>,
    runtimeBlockers: Option<set<Blocker>>)
  {
    function Blockers(): set<Blocker> {
      if runtimeBlockers.Some? then runtimeBlockers.value else {}
    }

    /** The journal authorizes automatic mutations; a given evidence generation must be the recorded one. */
    predicate AuthorizesAutomaticMutations(at: Date, expected: Option<Uuid>) {
      && phase.Confirmed?
      && evidenceObservedAt.Some? && evidenceObservedAt.value <= at
      && evidenceExpiresAt.Some? && evidenceExpiresAt.value > at
      && evidenceGeneration.Some?
      && (expected.Some? ==> expected == evidenceGeneration)
    }

    /** The account an automatic retry may address at this time, if any. */
    function AutomaticRetryTarget(at: Date): Option<Uuid> {
      if phase.CommittedDegraded? && nextRetryAt.Some? && nextRetryAt.value <= at then configured else None
    }

    /** What a request to activate `target` may do while this record is current. */
    function Decide(target: Uuid, kind: RequestKind, at: Date): Decision {
      match phase
      case Confirmed =>
        if AuthorizesAutomaticMutations(at, None) then BeginActivation else Blocked
      case CommittedDegraded =>
        if !kind.PermitsOperatorRecovery() then Blocked
        else if configured == Some(target) then RetrySameTarget
        else BeginActivation
      case Preparing => Blocked
      case ManualReview =>
        if !kind.PermitsOperatorRecovery() || detail.None? then Blocked
        else if configured == Some(target) && detail.value.AllowsManualSameTargetRetry() then RetrySameTarget
        else if configured != Some(target) && detail.value.DurableConfigurationChanged? then BeginActivation
        else Blocked
    }

    /** What the journal accepts, on every write and on every read. */
    predicate Valid() {
      && version == CURRENT_VERSION
      && 0 <= discovered <= MAXIMUM_RUNTIME_COUNT
      && 0 <= acknowledged <= discovered
      && |Blockers()| <= discovered
      && (forall b <- Blockers() :: b.pid > 0)
      && 0 <= retryAttempt <= MAXIMUM_RETRY_ATTEMPT
      && match phase
         case Preparing =>
           && configured.Some? && runtimeCurrent.None?
           && retryAttempt < LEGACY_AUTOMATIC_RETRY_LIMIT
           && nextRetryAt.None?
           && discovered == 0 && acknowledged == 0 && Blockers() == {}
           && NoEvidence()
         case CommittedDegraded =>
           && configured.Some? && runtimeCurrent.None?
           && nextRetryAt.Some? && nextRetryAt.value >= updatedAt
           && NoEvidence()
         case Confirmed =>
           && configured.Some? && runtimeCurrent == configured
           && retryAttempt == 0 && nextRetryAt.None?
           && discovered > 0 && acknowledged == discovered && Blockers() == {}
           && detail.None?
           && evidenceGeneration.Some?
           && evidenceObservedAt.Some? && evidenceExpiresAt.Some?
           && evidenceObservedAt.value <= updatedAt < evidenceExpiresAt.value
         case ManualReview =>
           && runtimeCurrent.None? && nextRetryAt.None?
           && detail.Some?
           && NoEvidence()
           && (detail.value.AutomaticRetryLimitReached? ==>
                 configured.Some? && retryAttempt >= LEGACY_AUTOMATIC_RETRY_LIMIT)
           && (!detail.value.AutomaticRetryLimitReached? ==>
                 discovered == 0 && acknowledged == 0 && Blockers() == {})
    }

    predicate NoEvidence() {
      evidenceGeneration.None? && evidenceObservedAt.None? && evidenceExpiresAt.None?
    }
  }

  /** The record a new activation starts from. */
  function PreparingState(target: Uuid, generation: Uuid, at: Date): State {
    State(CURRENT_VERSION, Preparing, generation, Some(target), None, at, 0, None, 0, 0, None,
          None, None, None, None)
  }

  function StoredBlockers(blockers: set<Blocker>): Option<set<Blocker>> {
    if blockers == {} then None else Some(blockers)
  }

  function DegradedState(target: Uuid, detail: Detail, generation: Uuid, retryAttempt: int, nextRetryAt: Date,
                         discovered: int, acknowledged: int, blockers: set<Blocker>, at: Date): State {
    State(CURRENT_VERSION, CommittedDegraded, generation, Some(target), None, at, retryAttempt, Some(nextRetryAt),
          discovered, acknowledged, Some(detail), None, None, None, StoredBlockers(blockers))
  }

  function ConfirmedState(target: Uuid, generation: Uuid, discovered: int, acknowledged: int,
                          evidenceGeneration: Uuid, observedAt: Date, expiresAt: Date, at: Date): State {
    State(CURRENT_VERSION, Confirmed, generation, Some(target), Some(target), at, 0, None,
          discovered, acknowledged, None, Some(evidenceGeneration), Some(observedAt), Some(expiresAt), None)
  }

  function ReviewState(target: Option<Uuid>, detail: Detail, generation: Uuid, retryAttempt: int, at: Date): State {
    State(CURRENT_VERSION, ManualReview, generation, target, None, at, retryAttempt, None, 0, 0, Some(detail),
          None, None, None, None)
  }

  // ----- What these mean ----------------------------------------------------------------------------------

  /** A record that reports runtimes: one that was committed, or a review of the old retry limit. */
  predicate MayReport(s: State) {
    s.phase.CommittedDegraded? || s.phase.Confirmed? || (s.phase.ManualReview? && s.detail == Some(AutomaticRetryLimitReached))
  }

  /** Validity, field by field: whose it is, what counts as current, when the next retry is due, how many retries and
      runtimes are counted, what evidence there is and whether a reason is given. */
  lemma ValidityIsExact(s: State)
    ensures s.Valid() <==>
              && s.version == 1
              && (s.configured.None? ==> s.phase.ManualReview? && !MayReport(s))
              && s.runtimeCurrent == (if s.phase.Confirmed? then s.configured else None)
              && (s.nextRetryAt.Some? <==> s.phase.CommittedDegraded?)
              && (s.nextRetryAt.Some? ==> s.nextRetryAt.value >= s.updatedAt)
              && 0 <= s.retryAttempt <= 10_000
              && (s.phase.Preparing? ==> s.retryAttempt <= 3) && (s.phase.Confirmed? ==> s.retryAttempt == 0)
              && (s.phase.ManualReview? && MayReport(s) ==> s.retryAttempt >= 4)
              && 0 <= s.acknowledged <= s.discovered <= 256 && |s.Blockers()| <= s.discovered
              && (forall b <- s.Blockers() :: b.pid >= 1)
              && (!MayReport(s) ==> s.discovered == 0)
              && (s.phase.Confirmed? ==> s.acknowledged == s.discovered >= 1 && s.Blockers() == {} && s.detail.None?)
              && (s.phase.ManualReview? ==> s.detail.Some?)
              && (s.evidenceGeneration.Some? <==> s.phase.Confirmed?)
              && (s.evidenceObservedAt.Some? <==> s.phase.Confirmed?)
              && (s.evidenceExpiresAt.Some? <==> s.phase.Confirmed?)
              && (s.phase.Confirmed? ==> s.evidenceObservedAt.value <= s.updatedAt < s.evidenceExpiresAt.value)
  {
    if s.Blockers() != {} {
      var b :| b in s.Blockers();
      assert {b} <= s.Blockers();
    }
  }

  /** Automatic mutations are authorized exactly by a confirmation whose evidence is current, and, if a generation is
      asked for, of that generation. */
  lemma AuthorizationIsExact(s: State, at: Date, expected: Option<Uuid>)
    ensures s.AuthorizesAutomaticMutations(at, expected) <==>
              && s.phase.Confirmed? && s.evidenceObservedAt.Some? && s.evidenceExpiresAt.Some?
              && s.evidenceObservedAt.value <= at < s.evidenceExpiresAt.value
              && s.evidenceGeneration.Some? && (expected == None || expected == s.evidenceGeneration)
  {
  }

  /** An automatic retry addresses the account of a degraded commit, from the moment it is due. */
  lemma RetryTargetIsExact(s: State, at: Date)
    ensures s.AutomaticRetryTarget(at)
            == if s.phase.CommittedDegraded? && s.nextRetryAt.Some? && at >= s.nextRetryAt.value then s.configured else None
  {
  }
}
