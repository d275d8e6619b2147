/** The activation journal's coordinator: every operation that reads or replaces the durable record. */
module ActivationJournal {
  import opened Prelude
  import opened ActivationState

  datatype JournalError = AuthorizationRevoked | CorruptJournal | InvalidTransition | StorageFailure

  datatype RetryConfig = RetryConfig(base: real, maximum: real)

  type Config = c: RetryConfig | 1.0 <= c.base <= c.maximum witness RetryConfig(30.0, 300.0)

  /** The coordinator's constructor clamps both retry intervals. */
  function MakeConfig(baseRetryInterval: real, maximumRetryInterval: real): Config {
    var base := Max(1.0, baseRetryInterval);
    RetryConfig(base, Max(base, maximumRetryInterval))
  }

  function PowerOfTwo(n: nat): (r: real)
    ensures r >= 1.0
  {
    if n == 0 then 1.0 else 2.0 * PowerOfTwo(n - 1)
  }

  function RetryDelay(attempt: int, config: Config): real {
    var bounded := if attempt < 1 then 1 else if attempt > 20 then 20 else attempt;
    Min(config.maximum, Doubled(config.base, bounded - 1))
  }

  function Doubled(base: real, times: nat): real {
    base * PowerOfTwo(times)
  }

  /** Runtime evidence as the journal records it. */
  datatype Evidence = Evidence(generation: Uuid, observedAt: Date, expiresAt: Date, discovered: int, acknowledged: int)

  /** What an authority-conflict recovery witnessed before it asked the journal to start. */
  datatype Witness = Witness(target: Uuid, source: Uuid, journalState: State,
                             authorizes: bool, filesUnchanged: bool, pathsMatch: bool)

  /** One call to the coordinator. Freshly drawn UUIDs are arguments. */
  datatype Operation =
    | Begin(target: Uuid, kind: RequestKind, newGeneration: Uuid)
    | BeginConflictRecovery(target: Uuid, source: Uuid, proof: Option<Witness>, newGeneration: Uuid)
    | BeginSameAccountRecovery(target: Uuid, newGeneration: Uuid)
    | RestoreUncommitted(target: Uuid, expectedGeneration: Uuid, previous: State)
    | RecoverFileCommitFailure(target: Uuid, newGeneration: Uuid)
    | BootstrapDegraded(target: Uuid, newDetail: Detail, newGeneration: Uuid)
    | MarkDegraded(target: Uuid, expected: Option<Uuid>, discovered: int, acknowledged: int,
                   newDetail: Detail, blockers: set<Blocker>)
    | RecordConvergenceFailure(target: Uuid, discovered: int, acknowledged: int,
                               newDetail: Detail, blockers: set<Blocker>)
    | RecordRevalidationFailure(target: Uuid, expectedGeneration: Uuid)
    | ResetForManualRetry(target: Uuid, newGeneration: Uuid)
    | RecoverVerifiedExternalAuth(target: Uuid, newGeneration: Uuid)
    | RecoverConvergedFiles(target: Uuid, newGeneration: Uuid)
    | AdoptHandoff(target: Uuid, expectedState: State, newGeneration: Uuid)
    | FailHandoff(target: Uuid, expectedGeneration: Uuid)
    | MarkConfirmed(target: Uuid, expectedGeneration: Uuid, evidence: Evidence)
    | Demote(target: Uuid, expected: Option<Uuid>, newDetail: Detail, discovered: int, acknowledged: int)
    | RefreshEvidence(target: Uuid, expectedGeneration: Uuid, evidence: Evidence)
    | MarkReview(reviewTarget: Option<Uuid>, newDetail: Detail, newGeneration: Uuid)
    | MigrateRetryLimit

  /** How the conditional replace of the journal file ends: a failure may come before or after the rename. */
  datatype WriteOutcome = Written | FailedBeforeWrite | FailedAfterWrite

  /** Everything an operation meets that is not the journal: the clock, the leases and the file system. */
  datatype Environment = Environment(at: Date, leaseAvailable: bool, authorize: Option<State> -> bool, io: WriteOutcome)

  datatype Outcome =
    | Done(state: State)
    | Prepared(state: State, previous: Option<State>)
    | Retry(state: State)
    | BlockedBy(current: Option<State>)
    | Loaded(current: Option<State>)
    | Failed(error: JournalError)

  /** What an operation decides from the record it has read, before it touches the file. */
  datatype Plan =
    | Refuse(error: JournalError)
    | Keep(result: Outcome)
    | Replace(next: State, result: Outcome)

  /** A read of the file: an invalid record is a corrupt journal. */
  function Decode(stored: Option<State>): Result<Option<State>, JournalError> {
    if stored.Some? && !stored.value.Valid() then Err(CorruptJournal) else Ok(stored)
  }

  /** The record after one more automatic failure. */
  function AdvanceFailure(config: Config, current: State, target: Uuid, detail: Detail, discovered: int,
                          acknowledged: int, blockers: set<Blocker>, at: Date): State {
    var next := if current.retryAttempt + 1 <= MAXIMUM_RETRY_ATTEMPT then current.retryAttempt + 1
                else MAXIMUM_RETRY_ATTEMPT;
    DegradedState(target, detail, current.generation, next, at + RetryDelay(next, config),
                  discovered, acknowledged, blockers, at)
  }

  /** An operator request treats an expired confirmation as a degraded commit. */
  function EffectiveState(current: Option<State>, kind: RequestKind, at: Date): Option<State> {
    if kind.PermitsOperatorRecovery() && current.Some? && current.value.phase.Confirmed?
       && current.value.configured.Some? && !current.value.AuthorizesAutomaticMutations(at, None)
    then
      var s := current.value;
      Some(DegradedState(s.configured.value, RuntimeEvidenceExpired, s.generation, s.retryAttempt, at,
                         s.discovered, s.acknowledged, {}, at))
    else current
  }

  function PlanBegin(target: Uuid, kind: RequestKind, newGeneration: Uuid, at: Date, authorized: bool,
                     current: Option<State>): Plan {
    var effective := EffectiveState(current, kind, at);
    var decision := if effective.Some? then effective.value.Decide(target, kind, at) else BeginActivation;
    var proposed := if decision.BeginActivation? then Some(PreparingState(target, newGeneration, at)) else effective;
    var result := match decision
                  case BeginActivation => Prepared(PreparingState(target, newGeneration, at), effective)
                  case RetrySameTarget => Retry(effective.value)
                  case Blocked => BlockedBy(effective);
    if proposed == current || proposed.None? then Keep(result)
    else if !authorized then Refuse(AuthorizationRevoked)
    else Replace(proposed.value, result)
  }

  /** A conflict recovery that carries a proof is admitted only while the proof still matches the request. */
  predicate WitnessAdmits(op: Operation) {
    op.BeginConflictRecovery? && op.proof.Some? ==>
      && op.proof.value.authorizes && op.proof.value.filesUnchanged && op.proof.value.pathsMatch
      && op.proof.value.target == op.target && op.proof.value.source == op.source
  }

  function PlanConflictRecovery(target: Uuid, source: Uuid, proof: Option<Witness>, newGeneration: Uuid, at: Date,
                                authorized: bool, current: Option<State>): Plan {
    if !(current.Some? && current.value.phase.ManualReview? && current.value.detail == Some(ExternalAuthConflict)
              && (current.value.configured == Some(source) || current.value.configured == Some(target) || proof.Some?)
              && target != source)
    then Keep(BlockedBy(current))
    else if (proof.Some? && current.value != proof.value.journalState) || !authorized
    then Refuse(AuthorizationRevoked)
    else Replace(PreparingState(target, newGeneration, at), Prepared(PreparingState(target, newGeneration, at), current))
  }

  function PlanSameAccountRecovery(target: Uuid, newGeneration: Uuid, at: Date, authorized: bool,
                                   current: Option<State>): Plan {
    if !(current.Some? && current.value.phase.ManualReview? && current.value.detail.Some?
         && current.value.detail.value.AllowsExplicitSameAccountReauthenticationRecovery()
         && current.value.configured == Some(target))
    then Keep(BlockedBy(current))
    else if !authorized then Refuse(AuthorizationRevoked)
    else Replace(PreparingState(target, newGeneration, at), Prepared(PreparingState(target, newGeneration, at), current))
  }

  function MigratedDetail(s: State): Detail {
    if s.discovered == 0 then NoLocalRuntime
    else if s.acknowledged < s.discovered then RuntimeAcknowledgementIncomplete
    else RuntimeConfirmationPending
  }

  predicate IsRetryLimitReview(s: State) {
    s.phase.ManualReview? && s.detail == Some(AutomaticRetryLimitReached)
  }

  function PlanMigration(config: Config, at: Date, current: Option<State>): Plan {
    if current.None? || !IsRetryLimitReview(current.value) then Keep(Loaded(current))
    else if current.value.configured.None? then Refuse(CorruptJournal)
    else
      var s := current.value;
      var attempt := if s.retryAttempt < LEGACY_AUTOMATIC_RETRY_LIMIT then LEGACY_AUTOMATIC_RETRY_LIMIT
                     else if s.retryAttempt > MAXIMUM_RETRY_ATTEMPT then MAXIMUM_RETRY_ATTEMPT else s.retryAttempt;
      var migrated := DegradedState(s.configured.value, MigratedDetail(s), s.generation, attempt,
                                    at + RetryDelay(attempt, config), s.discovered, s.acknowledged, s.Blockers(), at);
      Replace(migrated, Loaded(Some(migrated)))
  }

  /** Which record a plain transition may replace. */
  predicate RecordGuard(op: Operation, authorized: bool, s: State) {
    match op
    case RestoreUncommitted(target, expectedGeneration, _) =>
      s.phase.Preparing? && s.configured == Some(target) && s.generation == expectedGeneration
    case RecoverFileCommitFailure(_, _) =>
      s.phase.ManualReview? && s.detail == Some(FileCommitFailed)
    case MarkDegraded(target, expected, _, _, _, _) =>
      s.configured == Some(target) && (expected.Some? ==> expected.value == s.generation) && s.phase.Preparing?
    case RecordConvergenceFailure(target, _, _, _, _) =>
      s.phase.CommittedDegraded? && s.configured == Some(target)
    case RecordRevalidationFailure(target, expectedGeneration) =>
      s.phase.CommittedDegraded? && s.configured == Some(target) && s.generation == expectedGeneration
    case ResetForManualRetry(target, _) =>
      s.configured == Some(target)
      && (s.phase.CommittedDegraded?
          || (s.phase.ManualReview? && s.detail.Some? && s.detail.value.AllowsManualSameTargetRetry()))
    case RecoverVerifiedExternalAuth(target, _) =>
      s.phase.ManualReview? && s.configured == Some(target)
      && s.detail.Some? && s.detail.value.AllowsVerifiedExternalAuthRecovery()
    case RecoverConvergedFiles(target, _) =>
      s.phase.ManualReview? && s.configured == Some(target) && s.detail == Some(ConfiguredFilesInconsistent)
    case AdoptHandoff(_, expectedState, _) =>
      s == expectedState && (s.phase.Confirmed? || s.phase.CommittedDegraded?)
    case FailHandoff(target, expectedGeneration) =>
      s.phase.CommittedDegraded? && s.configured == Some(target) && s.generation == expectedGeneration
      && s.detail == Some(ExternalAuthObserved)
    case MarkConfirmed(target, expectedGeneration, _) =>
      s.configured == Some(target) && s.generation == expectedGeneration && s.phase.CommittedDegraded?
    case Demote(target, expected, _, _, _) =>
      s.configured == Some(target) && (expected.Some? ==> expected.value == s.generation)
      && (s.phase.Confirmed? || s.phase.CommittedDegraded?)
    case RefreshEvidence(target, expectedGeneration, _) =>
      authorized && s.phase.Confirmed? && s.configured == Some(target) && s.generation == expectedGeneration
    case _ => false
  }

  /** The guard of a plain transition. */
  predicate Guard(op: Operation, authorized: bool, current: Option<State>) {
    if op.BootstrapDegraded? then current.None?
    else op.MarkReview? || (current.Some? && RecordGuard(op, authorized, current.value))
  }

  predicate IsTransition(op: Operation) {
    !(op.Begin? || op.BeginConflictRecovery? || op.BeginSameAccountRecovery? || op.MigrateRetryLimit?)
  }

  function Confirm(target: Uuid, generation: Uuid, e: Evidence, at: Date): State {
    ConfirmedState(target, generation, e.discovered, e.acknowledged, e.generation, e.observedAt, e.expiresAt, at)
  }

  /** The record a plain transition proposes once its guard has passed. */
  function Proposed(config: Config, op: Operation, at: Date, authorized: bool, current: Option<State>): State
    requires IsTransition(op) && Guard(op, authorized, current)
  {
    match op
    case RestoreUncommitted(_, _, previous) => previous
    case RecoverFileCommitFailure(target, newGeneration) =>
      DegradedState(target, RestartRecoveredCommittedFiles, newGeneration, 0, at, 0, 0, {}, at)
    case BootstrapDegraded(target, detail, newGeneration) =>
      DegradedState(target, detail, newGeneration, 0, at, 0, 0, {}, at)
    case MarkDegraded(target, _, discovered, acknowledged, detail, blockers) =>
      DegradedState(target, detail, current.value.generation, current.value.retryAttempt, at,
                    discovered, acknowledged, blockers, at)
    case RecordConvergenceFailure(target, discovered, acknowledged, detail, blockers) =>
      AdvanceFailure(config, current.value, target, detail, discovered, acknowledged, blockers, at)
    case RecordRevalidationFailure(target, _) =>
      AdvanceFailure(config, current.value, target, RuntimeConfirmationPending, current.value.discovered,
                     current.value.acknowledged, current.value.Blockers(), at)
    case ResetForManualRetry(target, newGeneration) =>
      DegradedState(target, RuntimeConfirmationPending, newGeneration, 0, at, 0, 0, {}, at)
    case RecoverVerifiedExternalAuth(target, newGeneration) =>
      DegradedState(target, ExternalAuthObserved, newGeneration, 0, at, 0, 0, {}, at)
    case RecoverConvergedFiles(target, newGeneration) =>
      DegradedState(target, ExternalAuthObserved, newGeneration, 0, at, 0, 0, {}, at)
    case AdoptHandoff(target, _, newGeneration) =>
      DegradedState(target, ExternalAuthObserved, newGeneration, 0, at, 0, 0, {}, at)
    case FailHandoff(target, expectedGeneration) =>
      ReviewState(Some(target), ConfiguredFilesInconsistent, expectedGeneration, 0, at)
    case MarkConfirmed(target, _, evidence) => Confirm(target, current.value.generation, evidence, at)
    case Demote(target, _, detail, discovered, acknowledged) =>
      DegradedState(target, detail, current.value.generation, current.value.retryAttempt, at,
                    discovered, acknowledged, {}, at)
    case RefreshEvidence(target, _, evidence) => Confirm(target, current.value.generation, evidence, at)
    case MarkReview(target, detail, newGeneration) =>
      if current.Some? then
        ReviewState(if target.Some? then target else current.value.configured, detail, current.value.generation,
                    current.value.retryAttempt, at)
      else ReviewState(target, detail, newGeneration, 0, at)
  }

  function PlanOf(config: Config, op: Operation, at: Date, authorized: bool, current: Option<State>): Plan {
    if op.Begin? then PlanBegin(op.target, op.kind, op.newGeneration, at, authorized, current)
    else if op.BeginConflictRecovery? then
      PlanConflictRecovery(op.target, op.source, op.proof, op.newGeneration, at, authorized, current)
    else if op.BeginSameAccountRecovery? then
      PlanSameAccountRecovery(op.target, op.newGeneration, at, authorized, current)
    else if op.MigrateRetryLimit? then PlanMigration(config, at, current)
    else if !Guard(op, authorized, current) then Refuse(InvalidTransition)
    else if !authorized then Refuse(AuthorizationRevoked)
    else
      var proposed := Proposed(config, op, at, authorized, current);
      Replace(proposed, Done(proposed))
  }

  /** Validation, encoding, conditional replace and readback of a proposed record. */
  function Persist(io: WriteOutcome, stored: Option<State>, next: State, result: Outcome): (Option<State>, Outcome) {
    if !next.Valid() then (stored, Failed(CorruptJournal))
    else match io
      case Written => (Some(next), result)
      case FailedBeforeWrite => (stored, Failed(StorageFailure))
      case FailedAfterWrite => (Some(next), Failed(StorageFailure))
  }

  /** The whole effect of one coordinator call on the durable journal, and what the caller is told. */
  function Apply(config: Config, op: Operation, env: Environment, stored: Option<State>): (Option<State>, Outcome) {
    if !env.leaseAvailable || !WitnessAdmits(op) then (stored, Failed(AuthorizationRevoked))
    else match Decode(stored)
      case Err(e) => (stored, Failed(e))
      case Ok(current) =>
        match PlanOf(config, op, env.at, env.authorize(current), current)
        case Refuse(e) => (stored, Failed(e))
        case Keep(result) => (stored, result)
        case Replace(next, result) => Persist(env.io, stored, next, result)
  }

  /** The coordinator actor: the durable journal is its one mutable field. */
  class Coordinator {
    var journal: Option<State>
    const config: Config

    constructor (stored: Option<State>, baseRetryInterval: real, maximumRetryInterval: real)
      ensures journal == stored && config == MakeConfig(baseRetryInterval, maximumRetryInterval)
    {
      journal := stored;
      config := MakeConfig(baseRetryInterval, maximumRetryInterval);
    }

    /** Conditional replace of the journal file, with its readback. */
    method ReplaceJournal(next: State, io: WriteOutcome) returns (written: Result<(), JournalError>)
      modifies this
      ensures journal == Persist(io, old(journal), next, Done(next)).0
      ensures written.Ok? <==> Persist(io, old(journal), next, Done(next)).1 == Done(next)
      ensures written.Err? ==> Persist(io, old(journal), next, Done(next)).1 == Failed(written.error)
    {
      if !next.Valid() {
        return Err(CorruptJournal);
      }
      match io {
        case FailedBeforeWrite =>
          return Err(StorageFailure);
        case FailedAfterWrite =>
          journal := Some(next);
          return Err(StorageFailure);
        case Written =>
          journal := Some(next);
          return Ok(());
      }
    }

    method BeginAuthorizedCredentialMutation(target: Uuid, kind: RequestKind, newGeneration: Uuid, env: Environment)
      returns (r: Outcome)
      modifies this
      ensures (journal, r) == Apply(config, Begin(target, kind, newGeneration), env, old(journal))
    {
      if !env.leaseAvailable {
        return Failed(AuthorizationRevoked);
      }
      var current := journal;
      if current.Some? && !current.value.Valid() {
        return Failed(CorruptJournal);
      }
      var effective := current;
      if kind.PermitsOperatorRecovery() && current.Some? && current.value.phase.Confirmed?
         && !current.value.AuthorizesAutomaticMutations(env.at, None)
      {
        var s := current.value;
        effective := Some(DegradedState(s.configured.value, RuntimeEvidenceExpired, s.generation, s.retryAttempt,
                                        env.at, s.discovered, s.acknowledged, {}, env.at));
      }
      var decision := if effective.Some? then effective.value.Decide(target, kind, env.at) else BeginActivation;
      var proposed: Option<State>;
      match decision {
        case BeginActivation =>
          var preparing := PreparingState(target, newGeneration, env.at);
          proposed := Some(preparing);
          r := Prepared(preparing, effective);
        case RetrySameTarget =>
          proposed := effective;
          r := Retry(effective.value);
        case Blocked =>
          proposed := effective;
          r := BlockedBy(effective);
      }
      if proposed != current && proposed.Some? {
        if !env.authorize(current) {
          return Failed(AuthorizationRevoked);
        }
        var written := ReplaceJournal(proposed.value, env.io);
        if written.Err? {
          return Failed(written.error);
        }
      }
    }

    method BeginVerifiedExternalAuthConflictRecovery(target: Uuid, source: Uuid, proof: Option<Witness>,
                                                     newGeneration: Uuid, env: Environment)
      returns (r: Outcome)
      modifies this
      ensures (journal, r) == Apply(config, BeginConflictRecovery(target, source, proof, newGeneration), env,
                                    old(journal))
    {
      if !env.leaseAvailable || !WitnessAdmits(BeginConflictRecovery(target, source, proof, newGeneration)) {
        return Failed(AuthorizationRevoked);
      }
      var current := journal;
      if current.Some? && !current.value.Valid() {
        return Failed(CorruptJournal);
      }
      if !(current.Some? && current.value.phase.ManualReview? && current.value.detail == Some(ExternalAuthConflict)
           && (current.value.configured == Some(source) || current.value.configured == Some(target) || proof.Some?)
           && target != source)
      {
        return BlockedBy(current);
      }
      if proof.Some? && current.value != proof.value.journalState {
        return Failed(AuthorizationRevoked);
      }
      if !env.authorize(current) {
        return Failed(AuthorizationRevoked);
      }
      var preparing := PreparingState(target, newGeneration, env.at);
      var written := ReplaceJournal(preparing, env.io);
      r := if written.Ok? then Prepared(preparing, current) else Failed(written.error);
    }

    method BeginVerifiedSameAccountGenerationRecovery(target: Uuid, newGeneration: Uuid, env: Environment)
      returns (r: Outcome)
      modifies this
      ensures (journal, r) == Apply(config, BeginSameAccountRecovery(target, newGeneration), env, old(journal))
    {
      if !env.leaseAvailable {
        return Failed(AuthorizationRevoked);
      }
      var current := journal;
      if current.Some? && !current.value.Valid() {
        return Failed(CorruptJournal);
      }
      if !(current.Some? && current.value.phase.ManualReview? && current.value.detail.Some?
           && current.value.detail.value.AllowsExplicitSameAccountReauthenticationRecovery()
           && current.value.configured == Some(target))
      {
        return BlockedBy(current);
      }
      if !env.authorize(current) {
        return Failed(AuthorizationRevoked);
      }
      var preparing := PreparingState(target, newGeneration, env.at);
      var written := ReplaceJournal(preparing, env.io);
      r := if written.Ok? then Prepared(preparing, current) else Failed(written.error);
    }

    method MigrateLegacyRetryLimitReview(env: Environment) returns (r: Outcome)
      modifies this
      ensures (journal, r) == Apply(config, MigrateRetryLimit, env, old(journal))
    {
      if !env.leaseAvailable {
        return Failed(AuthorizationRevoked);
      }
      var current := journal;
      if current.Some? && !current.value.Valid() {
        return Failed(CorruptJournal);
      }
      if current.None? || !IsRetryLimitReview(current.value) {
        return Loaded(current);
      }
      var s := current.value;
      if s.configured.None? {
        return Failed(CorruptJournal);
      }
      var attempt := if s.retryAttempt < LEGACY_AUTOMATIC_RETRY_LIMIT then LEGACY_AUTOMATIC_RETRY_LIMIT
                     else s.retryAttempt;
      var migrated := DegradedState(s.configured.value, MigratedDetail(s), s.generation, attempt,
                                    env.at + RetryDelay(attempt, config), s.discovered, s.acknowledged,
                                    s.Blockers(), env.at);
      var written := ReplaceJournal(migrated, env.io);
      r := if written.Ok? then Loaded(Some(migrated)) else Failed(written.error);
    }

    /** Guard, authorize, validate, compare-and-swap and readback, for every operation that is one plain transition. */
    method Transition(op: Operation, env: Environment) returns (r: Outcome)
      requires IsTransition(op)
      modifies this
      ensures (journal, r) == Apply(config, op, env, old(journal))
    {
      if !env.leaseAvailable {
        return Failed(AuthorizationRevoked);
      }
      var current := journal;
      if current.Some? && !current.value.Valid() {
        return Failed(CorruptJournal);
      }
      if !Guard(op, env.authorize(current), current) {
        return Failed(InvalidTransition);
      }
      var proposed := Proposed(config, op, env.at, env.authorize(current), current);
      if !env.authorize(current) {
        return Failed(AuthorizationRevoked);
      }
      var written := ReplaceJournal(proposed, env.io);
      r := if written.Ok? then Done(proposed) else Failed(written.error);
    }
  }
}
