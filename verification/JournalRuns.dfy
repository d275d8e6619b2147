/** What the activation journal guarantees of one operation and of whole runs of operations. */
module JournalRuns {
  import opened Prelude
  import opened ActivationState
  import opened ActivationJournal

  // ----- One operation ---------------------------------------------------------------------------

  predicate CountsInBounds(discovered: int, acknowledged: int, blockers: set<Blocker>) {
    && 0 <= acknowledged <= discovered <= MAXIMUM_RUNTIME_COUNT
    && |blockers| <= discovered
    && forall b <- blockers :: b.pid > 0
  }

  predicate EvidenceInBounds(e: Evidence, at: Date) {
    && 0 < e.discovered <= MAXIMUM_RUNTIME_COUNT && e.acknowledged == e.discovered
    && e.observedAt <= at < e.expiresAt
  }

  /** What a caller can check about its own arguments before the call. */
  predicate ArgumentsInBounds(op: Operation, at: Date, current: Option<State>) {
    match op
    case RestoreUncommitted(_, _, previous) => previous.Valid()
    case MarkDegraded(_, _, discovered, acknowledged, _, blockers) => CountsInBounds(discovered, acknowledged, blockers)
    case RecordConvergenceFailure(_, discovered, acknowledged, _, blockers) =>
      CountsInBounds(discovered, acknowledged, blockers)
    case Demote(_, _, _, discovered, acknowledged) => CountsInBounds(discovered, acknowledged, {})
    case MarkConfirmed(_, _, evidence) => EvidenceInBounds(evidence, at)
    case RefreshEvidence(_, _, evidence) => EvidenceInBounds(evidence, at)
    case MarkReview(target, detail, _) =>
      detail.AutomaticRetryLimitReached? ==>
        && current.Some? && current.value.retryAttempt >= LEGACY_AUTOMATIC_RETRY_LIMIT
        && (target.Some? || current.value.configured.Some?)
    case _ => true
  }

  lemma RetryDelayBounds(attempt: int, config: Config)
    ensures config.base <= RetryDelay(attempt, config) <= config.maximum
  {
    var bounded := if attempt < 1 then 1 else if attempt > 20 then 20 else attempt;
    ScaleUp(config.base, PowerOfTwo(bounded - 1));
  }

  /** The delay starts at the base, doubles with every further attempt up to the maximum, and stops growing after the
      twentieth. */
  lemma DelayIsExact(attempt: int, config: Config)
    ensures attempt <= 1 ==> RetryDelay(attempt, config) == config.base
    ensures 1 <= attempt < 20 ==>
              RetryDelay(attempt + 1, config) == Min(config.maximum, 2.0 * RetryDelay(attempt, config))
    ensures attempt >= 20 ==> RetryDelay(attempt, config) == RetryDelay(20, config)
  {
    FirstDelay(attempt, config);
    LastDelay(attempt, config);
    DelayDoubles(attempt, config);
  }

  lemma FirstDelay(attempt: int, config: Config)
    ensures attempt <= 1 ==> RetryDelay(attempt, config) == config.base
  {
  }

  lemma LastDelay(attempt: int, config: Config)
    ensures attempt >= 20 ==> RetryDelay(attempt, config) == RetryDelay(20, config)
  {
    hide PowerOfTwo;
  }

  lemma DelayDoubles(attempt: int, config: Config)
    ensures 1 <= attempt < 20 ==>
              RetryDelay(attempt + 1, config) == Min(config.maximum, 2.0 * RetryDelay(attempt, config))
  {
    if 1 <= attempt < 20 {
      DoublesOnce(config.base, attempt);
    }
    hide Doubled;
  }

  lemma DoublesOnce(base: real, times: nat)
    requires times > 0
    ensures Doubled(base, times) == 2.0 * Doubled(base, times - 1)
  {
    Regroup(base, PowerOfTwo(times - 1));
  }

  lemma Regroup(x: real, y: real)
    ensures x * (2.0 * y) == 2.0 * (x * y)
  {
  }

  lemma ScaleUp(x: real, factor: real)
    requires x >= 0.0 && factor >= 1.0
    ensures x * factor >= x
  {
  }

  /** A guard that passes on a valid journal yields a valid record exactly when the caller's own arguments are in bounds. */
  lemma GuardsImplyValidity(config: Config, op: Operation, at: Date, authorized: bool, current: Option<State>)
    requires current.Some? ==> current.value.Valid()
    requires PlanOf(config, op, at, authorized, current).Replace?
    ensures PlanOf(config, op, at, authorized, current).next.Valid() <==> ArgumentsInBounds(op, at, current)
  {
    if op.RecordConvergenceFailure? || op.RecordRevalidationFailure? || op.MigrateRetryLimit? {
      var next := PlanOf(config, op, at, authorized, current).next;
      RetryDelayBounds(next.retryAttempt, config);
    }
  }

  /** Migrating any valid retry-limit review succeeds, keeps its identity and evidence, and is idempotent. */
  lemma MigrationIsTotalAndIdempotent(config: Config, review: State, env: Environment, later: Environment)
    requires review.Valid() && IsRetryLimitReview(review)
    requires env.leaseAvailable && env.io.Written? && later.leaseAvailable
    ensures var (journal, outcome) := Apply(config, MigrateRetryLimit, env, Some(review));
            && journal.Some? && outcome == Loaded(journal)
            && var m := journal.value;
            && m.Valid() && m.phase.CommittedDegraded?
            && m.configured == review.configured && m.generation == review.generation
            && m.discovered == review.discovered && m.acknowledged == review.acknowledged
            && m.Blockers() == review.Blockers() && m.retryAttempt == review.retryAttempt && m.updatedAt == env.at
            && m.nextRetryAt == Some(env.at + RetryDelay(review.retryAttempt, config))
            && (m.detail == Some(NoLocalRuntime) <==> m.discovered == 0)
            && (m.detail == Some(RuntimeConfirmationPending) <==> 0 < m.discovered == m.acknowledged)
            && Apply(config, MigrateRetryLimit, later, journal) == (journal, Loaded(journal))
  {
    RetryDelayBounds(review.retryAttempt, config);
  }

  /** Any other journal is left as it is. */
  lemma MigrationLeavesOthers(config: Config, env: Environment, stored: Option<State>)
    requires env.leaseAvailable && (stored.Some? ==> stored.value.Valid())
    requires stored.Some? ==> !stored.value.phase.ManualReview? || stored.value.detail != Some(AutomaticRetryLimitReached)
    ensures Apply(config, MigrateRetryLimit, env, stored) == (stored, Loaded(stored))
  {
  }

  /** A write happens only under the lease, on a readable journal, and only as the plan says. */
  lemma JournalChangesOnlyByPlan(config: Config, op: Operation, env: Environment, stored: Option<State>)
    ensures var (journal, outcome) := Apply(config, op, env, stored);
            && (outcome.Failed? && !env.io.FailedAfterWrite? ==> journal == stored)
            && (journal != stored ==>
                  && env.leaseAvailable && (stored.Some? ==> stored.value.Valid())
                  && journal.Some? && journal.value.Valid()
                  && PlanOf(config, op, env.at, env.authorize(stored), stored).Replace?
                  && PlanOf(config, op, env.at, env.authorize(stored), stored).next == journal.value)
  {
    hide State.Valid;
  }

  /** A begin that is told to wait has not touched the journal, even though a begin may persist a demoted confirmation. */
  lemma BlockedBeginLeavesTheJournal(config: Config, op: Operation, env: Environment, stored: Option<State>)
    requires op.Begin? || op.BeginConflictRecovery? || op.BeginSameAccountRecovery?
    ensures var (journal, outcome) := Apply(config, op, env, stored);
            && (outcome.BlockedBy? ==> journal == stored && outcome.current == stored)
            && (outcome.Prepared? ==>
                  && journal == Some(outcome.state) && outcome.state == PreparingState(op.target, op.newGeneration, env.at))
            && (outcome.Retry? ==> journal == Some(outcome.state) && outcome.state.configured == Some(op.target))
  {
    hide State.Valid;
  }

  /** Exactly the case in which a begin that prepares nothing still writes: it demotes an expired confirmation. */
  lemma BeginDemotesExpiredConfirmation(config: Config, target: Uuid, kind: RequestKind, newGeneration: Uuid,
                                        env: Environment, s: State)
    requires s.Valid() && env.leaseAvailable && env.authorize(Some(s)) && env.io.Written?
    ensures var (journal, outcome) := Apply(config, Begin(target, kind, newGeneration), env, Some(s));
            (journal != Some(s) && !outcome.Prepared?)
            <==> (s.phase.Confirmed? && !s.AuthorizesAutomaticMutations(env.at, None)
                  && kind.PermitsOperatorRecovery() && s.configured == Some(target))
  {
  }

  // ----- What a begin answers ----------------------------------------------------------------------

  /** The confirmation's evidence is current. */
  predicate IsFresh(s: State, at: Date) {
    s.evidenceObservedAt.Some? && s.evidenceExpiresAt.Some? && s.evidenceObservedAt.value <= at < s.evidenceExpiresAt.value
  }

  /** A journal that another account's request may take over: a current confirmation for any request, and for a request
      that is not automatic also an expired confirmation, a degraded commit or a review of a changed configuration. */
  predicate MayBeReplaced(s: State, target: Uuid, kind: RequestKind, at: Date) {
    || (s.phase.Confirmed? && IsFresh(s, at))
    || (kind != Automatic && s.configured != Some(target)
        && (s.phase.Confirmed? || s.phase.CommittedDegraded? || IsChangedConfiguration(s)))
  }

  /** A journal under which a request that is not automatic converges the account it already names. */
  predicate MayBeRetried(s: State, target: Uuid, kind: RequestKind, at: Date) {
    && kind != Automatic && s.configured == Some(target)
    && ((s.phase.Confirmed? && !IsFresh(s, at)) || s.phase.CommittedDegraded? || IsChangedConfiguration(s))
  }

  predicate IsChangedConfiguration(s: State) {
    s.phase.ManualReview? && s.detail == Some(DurableConfigurationChanged)
  }

  /** Under the lease, authorized and with working I/O, a begin prepares, retries or waits exactly as the fields of the
      record say; what it hands out as the previous state is that record, demoted if its evidence had expired. */
  lemma BeginAnswers(config: Config, target: Uuid, kind: RequestKind, newGeneration: Uuid, env: Environment, s: State)
    requires s.Valid() && env.leaseAvailable && env.authorize(Some(s)) && env.io.Written?
    ensures var outcome := Apply(config, Begin(target, kind, newGeneration), env, Some(s)).1;
            && (outcome.Prepared? <==> MayBeReplaced(s, target, kind, env.at))
            && (outcome.Retry? <==> MayBeRetried(s, target, kind, env.at))
            && (outcome.BlockedBy? <==> !MayBeReplaced(s, target, kind, env.at) && !MayBeRetried(s, target, kind, env.at))
            && (outcome.Prepared? ==> outcome.previous == Some(DemotedIfExpired(s, env.at)))
            && (outcome.Retry? ==> outcome.state == DemotedIfExpired(s, env.at))
  {
  }

  /** Without authorization a begin answers the same as long as that changes nothing, and otherwise fails. */
  lemma UnauthorizedBeginAnswers(config: Config, target: Uuid, kind: RequestKind, newGeneration: Uuid, env: Environment,
                                 s: State)
    requires s.Valid() && env.leaseAvailable && !env.authorize(Some(s))
    ensures var (journal, outcome) := Apply(config, Begin(target, kind, newGeneration), env, Some(s));
            && journal == Some(s)
            && outcome == if MayBeReplaced(s, target, kind, env.at) then Failed(AuthorizationRevoked)
                          else if !MayBeRetried(s, target, kind, env.at) then BlockedBy(Some(s))
                          else if s.phase.Confirmed? then Failed(AuthorizationRevoked) else Retry(s)
  {
  }

  /** The record with its confirmation withdrawn, if the evidence for it is no longer current. */
  function DemotedIfExpired(s: State, at: Date): State {
    if s.phase.Confirmed? && !IsFresh(s, at) then
      State(1, CommittedDegraded, s.generation, s.configured, None, at, s.retryAttempt, Some(at), s.discovered,
            s.acknowledged, Some(RuntimeEvidenceExpired), None, None, None, None)
    else s
  }

  /** With no journal at all a begin prepares, and hands out no previous state. */
  lemma FirstBeginPrepares(config: Config, target: Uuid, kind: RequestKind, newGeneration: Uuid, env: Environment)
    requires env.leaseAvailable && env.authorize(None) && env.io.Written?
    ensures var (journal, outcome) := Apply(config, Begin(target, kind, newGeneration), env, None);
            && outcome.Prepared? && outcome.previous == None && journal == Some(outcome.state)
            && outcome.state.phase.Preparing? && outcome.state.generation == newGeneration
            && outcome.state.configured == Some(target)
  {
  }

  /** A conflict recovery starts exactly from a conflict review that concerns one of its two accounts, or any if it carries
      a proof, and fails if the proof no longer describes the journal. */
  lemma ConflictRecoveryAnswers(config: Config, op: Operation, env: Environment, s: State)
    requires op.BeginConflictRecovery? && s.Valid()
    requires env.leaseAvailable && env.authorize(Some(s)) && env.io.Written?
    ensures var outcome := Apply(config, op, env, Some(s)).1;
            var concerns := && s.phase.ManualReview? && s.detail == Some(ExternalAuthConflict) && op.target != op.source
                            && (s.configured == Some(op.source) || s.configured == Some(op.target) || op.proof.Some?);
            var admitted := op.proof.Some? ==> && op.proof.value.authorizes && op.proof.value.filesUnchanged
                                               && op.proof.value.pathsMatch && op.proof.value.target == op.target
                                               && op.proof.value.source == op.source;
            && (outcome.Prepared? <==> concerns && admitted && (op.proof.Some? ==> op.proof.value.journalState == s))
            && (outcome.BlockedBy? <==> !concerns && admitted)
            && (outcome.Prepared? ==> outcome.previous == Some(s))
  {
  }

  /** A same-account recovery starts exactly from a review of that account whose files or auth disagree. */
  lemma SameAccountRecoveryAnswers(config: Config, target: Uuid, newGeneration: Uuid, env: Environment, s: State)
    requires s.Valid() && env.leaseAvailable && env.authorize(Some(s)) && env.io.Written?
    ensures var outcome := Apply(config, BeginSameAccountRecovery(target, newGeneration), env, Some(s)).1;
            && (outcome.Prepared? <==>
                  && s.phase.ManualReview? && s.configured == Some(target)
                  && s.detail.Some?
                  && s.detail.value in {ConfiguredFilesInconsistent, ExternalAuthAbsent, ExternalAuthInvalid,
                                        ExternalAuthUnreadable, ExternalAuthConflict})
            && (outcome.BlockedBy? <==> !outcome.Prepared?)
            && (outcome.Prepared? ==> outcome.previous == Some(s))
  {
  }

  /** What any begin that prepares leaves durable, and hands out: the named activation, with nothing counted, seen or
      recorded yet. */
  lemma PreparedRecord(config: Config, op: Operation, env: Environment, stored: Option<State>)
    requires op.Begin? || op.BeginConflictRecovery? || op.BeginSameAccountRecovery?
    requires Apply(config, op, env, stored).1.Prepared?
    ensures var (journal, outcome) := Apply(config, op, env, stored);
            var s := outcome.state;
            && journal == Some(s) && s.phase.Preparing? && s.Valid()
            && s.configured == Some(op.target) && s.generation == op.newGeneration && s.updatedAt == env.at
            && s.retryAttempt == 0 && s.nextRetryAt == None && s.discovered == 0 && s.acknowledged == 0
            && s.detail == None && s.Blockers() == {} && s.runtimeCurrent == None && s.evidenceGeneration == None
            && s.evidenceObservedAt == None && s.evidenceExpiresAt == None
  {
  }

  // ----- What a plain transition answers --------------------------------------------------------------

  /** The account and generation a transition asks for are the record's. */
  predicate NamesRecord(account: Uuid, generation: Uuid, s: State) {
    s.configured == Some(account) && s.generation == generation
  }

  /** Which transitions a record of each phase lets through; a review mark always passes. */
  predicate Accepts(s: State, op: Operation) {
    op.MarkReview? ||
    match s.phase
    case Preparing =>
      || (op.MarkDegraded? && NamesRecord(op.target, if op.expected.Some? then op.expected.value else s.generation, s))
      || (op.RestoreUncommitted? && NamesRecord(op.target, op.expectedGeneration, s))
    case CommittedDegraded =>
      || ((op.RecordRevalidationFailure? || op.MarkConfirmed?) && NamesRecord(op.target, op.expectedGeneration, s))
      || (op.FailHandoff? && NamesRecord(op.target, op.expectedGeneration, s) && s.detail == Some(ExternalAuthObserved))
      || ((op.RecordConvergenceFailure? || op.ResetForManualRetry?) && NamesRecord(op.target, s.generation, s))
      || (op.Demote? && NamesRecord(op.target, if op.expected.Some? then op.expected.value else s.generation, s))
      || (op.AdoptHandoff? && op.expectedState == s)
    case Confirmed =>
      || (op.RefreshEvidence? && NamesRecord(op.target, op.expectedGeneration, s))
      || (op.Demote? && NamesRecord(op.target, if op.expected.Some? then op.expected.value else s.generation, s))
      || (op.AdoptHandoff? && op.expectedState == s)
    case ManualReview =>
      || (op.RecoverFileCommitFailure? && s.detail == Some(FileCommitFailed))
      || (op.ResetForManualRetry? && s.configured == Some(op.target) && s.detail == Some(DurableConfigurationChanged))
      || (op.RecoverConvergedFiles? && s.configured == Some(op.target) && s.detail == Some(ConfiguredFilesInconsistent))
      || (op.RecoverVerifiedExternalAuth? && s.configured == Some(op.target)
          && s.detail.Some? && s.detail.value in {ExternalAuthAbsent, ExternalAuthInvalid, ExternalAuthUnreadable})
  }

  /** Under the lease, authorized and with working I/O, a plain transition succeeds exactly if the record accepts it and
      the caller's arguments are in bounds; otherwise nothing changes. */
  lemma TransitionSucceedsExactlyWhen(config: Config, op: Operation, env: Environment, s: State)
    requires s.Valid() && IsTransition(op) && (op.RestoreUncommitted? ==> op.previous.Valid())
    requires env.leaseAvailable && env.authorize(Some(s)) && env.io.Written?
    ensures var (journal, outcome) := Apply(config, op, env, Some(s));
            && (outcome.Done? <==> Accepts(s, op) && ArgumentsInBounds(op, env.at, Some(s)))
            && (if outcome.Done? then journal == Some(outcome.state) else journal == Some(s) && outcome.Failed?)
            && (outcome.Done? && op.RestoreUncommitted? ==> journal == Some(op.previous))
  {
    var plan := PlanOf(config, op, env.at, true, Some(s));
    if plan.Replace? {
      GuardsImplyValidity(config, op, env.at, true, Some(s));
    }
  }

  /** With no journal only a bootstrap and a review mark succeed. */
  lemma TransitionsWithoutJournal(config: Config, op: Operation, env: Environment)
    requires IsTransition(op) && env.leaseAvailable && env.authorize(None) && env.io.Written?
    ensures var (journal, outcome) := Apply(config, op, env, None);
            && (outcome.Done? <==> op.BootstrapDegraded? || (op.MarkReview? && ArgumentsInBounds(op, env.at, None)))
            && (if outcome.Done? then journal == Some(outcome.state) else journal == None && outcome.Failed?)
            && (outcome.Done? ==>
                  var t := outcome.state;
                  && t.generation == op.newGeneration && t.retryAttempt == 0 && t.detail == Some(op.newDetail)
                  && t.configured == (if op.MarkReview? then op.reviewTarget else Some(op.target))
                  && (if op.MarkReview? then t.phase.ManualReview?
                      else t.phase.CommittedDegraded? && t.nextRetryAt == Some(env.at)))
  {
  }

  /** Only an authorized operation changes the journal, the migration excepted, which needs no authorization. */
  lemma ChangesAreAuthorized(config: Config, op: Operation, env: Environment, stored: Option<State>)
    requires Apply(config, op, env, stored).0 != stored
    ensures env.leaseAvailable && (env.authorize(stored) || op.MigrateRetryLimit?)
    ensures !env.io.FailedBeforeWrite?
    ensures Apply(config, op, env, stored).1.Failed? <==> env.io.FailedAfterWrite?
  {
  }

  /** Transitions that start a new activation generation. */
  predicate StartsGeneration(op: Operation) {
    || op.RecoverFileCommitFailure? || op.ResetForManualRetry? || op.RecoverVerifiedExternalAuth?
    || op.RecoverConvergedFiles? || op.AdoptHandoff? || op.BootstrapDegraded?
  }

  predicate RecordsFailure(op: Operation) {
    op.RecordConvergenceFailure? || op.RecordRevalidationFailure?
  }

  /** The record after a transition, field by field: its phase, whose it is, how many retries it counts and when the next
      is due, what was seen, and why. */
  lemma TransitionRecords(config: Config, op: Operation, env: Environment, s: State)
    requires s.Valid() && IsTransition(op) && !op.RestoreUncommitted? && Apply(config, op, env, Some(s)).1.Done?
    ensures var t := Apply(config, op, env, Some(s)).1.state;
            && t.updatedAt == env.at
            && (t.phase.ManualReview? <==> op.MarkReview? || op.FailHandoff?)
            && (t.phase.Confirmed? <==> op.MarkConfirmed? || op.RefreshEvidence?)
            && (t.phase.CommittedDegraded? <==> !t.phase.ManualReview? && !t.phase.Confirmed?)
            && t.generation == (if StartsGeneration(op) then op.newGeneration else s.generation)
            && t.configured == (if !op.MarkReview? then Some(op.target)
                                else if op.reviewTarget.Some? then op.reviewTarget else s.configured)
            && t.retryAttempt == (if RecordsFailure(op) then Least(s.retryAttempt + 1, MAXIMUM_RETRY_ATTEMPT)
                                  else if op.MarkDegraded? || op.Demote? || op.MarkReview? then s.retryAttempt else 0)
            && (t.phase.CommittedDegraded? ==>
                  t.nextRetryAt == Some(env.at + if RecordsFailure(op) then RetryDelay(t.retryAttempt, config) else 0.0))
            && (t.discovered, t.acknowledged, t.Blockers()) == Seen(op, s)
            && t.detail == Reason(op) && t.updatedAt == env.at && (!t.phase.CommittedDegraded? ==> t.nextRetryAt == None)
            && (t.phase.Confirmed? ==>
                  && t.runtimeCurrent == t.configured && t.evidenceGeneration == Some(op.evidence.generation)
                  && t.evidenceObservedAt == Some(op.evidence.observedAt)
                  && t.evidenceExpiresAt == Some(op.evidence.expiresAt))
  {
  }

  function Least(a: int, b: int): int {
    if a <= b then a else b
  }

  /** The runtimes a transition reports: found, acknowledged, and in the way. */
  function Seen(op: Operation, s: State): (int, int, set<Blocker>) {
    match op
    case MarkDegraded(_, _, discovered, acknowledged, _, blockers) => (discovered, acknowledged, blockers)
    case RecordConvergenceFailure(_, discovered, acknowledged, _, blockers) => (discovered, acknowledged, blockers)
    case RecordRevalidationFailure(_, _) => (s.discovered, s.acknowledged, s.Blockers())
    case Demote(_, _, _, discovered, acknowledged) => (discovered, acknowledged, {})
    case MarkConfirmed(_, _, evidence) => (evidence.discovered, evidence.acknowledged, {})
    case RefreshEvidence(_, _, evidence) => (evidence.discovered, evidence.acknowledged, {})
    case _ => (0, 0, {})
  }

  /** Why the record is what it is. */
  function Reason(op: Operation): Option<Detail> {
    match op
    case MarkDegraded(_, _, _, _, detail, _) => Some(detail)
    case RecordConvergenceFailure(_, _, _, detail, _) => Some(detail)
    case Demote(_, _, detail, _, _) => Some(detail)
    case MarkReview(_, detail, _) => Some(detail)
    case RecordRevalidationFailure(_, _) => Some(RuntimeConfirmationPending)
    case ResetForManualRetry(_, _) => Some(RuntimeConfirmationPending)
    case RecoverFileCommitFailure(_, _) => Some(RestartRecoveredCommittedFiles)
    case RecoverVerifiedExternalAuth(_, _) => Some(ExternalAuthObserved)
    case RecoverConvergedFiles(_, _) => Some(ExternalAuthObserved)
    case AdoptHandoff(_, _, _) => Some(ExternalAuthObserved)
    case FailHandoff(_, _) => Some(ConfiguredFilesInconsistent)
    case _ => None
  }

  // ----- Runs ------------------------------------------------------------------------------------

  datatype Event = Event(op: Operation, env: Environment)

  /** The durable journal after the first `n` events of a run that started with no journal. */
  function JournalAt(config: Config, run: seq<Event>, n: nat): Option<State>
    requires n <= |run|
  {
    if n == 0 then None else Apply(config, run[n - 1].op, run[n - 1].env, JournalAt(config, run, n - 1)).0
  }

  function OutcomeAt(config: Config, run: seq<Event>, n: nat): Outcome
    requires n < |run|
  {
    Apply(config, run[n].op, run[n].env, JournalAt(config, run, n)).1
  }

  /** Event `k` prepared the activation that event `n` puts back, and returned the state it puts back. */
  predicate PreparedFor(config: Config, run: seq<Event>, k: nat, n: nat)
    requires k < n < |run| && run[n].op.RestoreUncommitted?
  {
    var outcome := OutcomeAt(config, run, k);
    && outcome.Prepared?
    && outcome.state.configured == Some(run[n].op.target)
    && outcome.state.generation == run[n].op.expectedGeneration
    && outcome.previous == Some(run[n].op.previous)
  }

  /** Callers restore only what the matching begin handed them. */
  predicate RestoresAreMatched(config: Config, run: seq<Event>) {
    forall n: nat :: n < |run| && run[n].op.RestoreUncommitted? ==>
      exists k: nat :: k < n && PreparedFor(config, run, k, n)
  }

  lemma {:induction false} JournalStaysValid(config: Config, run: seq<Event>, n: nat)
    requires n <= |run|
    ensures JournalAt(config, run, n).Some? ==> JournalAt(config, run, n).value.Valid()
  {
    if n > 0 {
      JournalStaysValid(config, run, n - 1);
      JournalChangesOnlyByPlan(config, run[n - 1].op, run[n - 1].env, JournalAt(config, run, n - 1));
    }
  }

  predicate DegradedFor(journal: Option<State>, account: Option<Uuid>, generation: Uuid) {
    && journal.Some? && journal.value.phase.CommittedDegraded?
    && journal.value.configured == account && journal.value.generation == generation
  }

  predicate WasDegradedBefore(config: Config, run: seq<Event>, n: nat, account: Option<Uuid>, generation: Uuid)
    requires n <= |run|
  {
    exists j: nat :: j < n && DegradedFor(JournalAt(config, run, j), account, generation)
  }

  /** The three ways one operation can leave a confirmation behind. */
  lemma ConfirmationSources(config: Config, op: Operation, env: Environment, stored: Option<State>)
    requires var journal := Apply(config, op, env, stored).0;
             journal != stored && journal.Some? && journal.value.phase.Confirmed?
    ensures stored.Some?
    ensures var next := Apply(config, op, env, stored).0.value;
            || (op.RestoreUncommitted? && next == op.previous)
            || ((op.MarkConfirmed? || op.RefreshEvidence?)
                && stored.value.configured == next.configured && stored.value.generation == next.generation
                && (stored.value.phase.CommittedDegraded? || stored.value.phase.Confirmed?))
  {
  }

  /** Whatever previous state a begin hands out, if it is a confirmation it was the durable journal at that moment. */
  lemma CapturedConfirmationWasDurable(config: Config, op: Operation, env: Environment, stored: Option<State>)
    requires var outcome := Apply(config, op, env, stored).1;
             outcome.Prepared? && outcome.previous.Some? && outcome.previous.value.phase.Confirmed?
    ensures stored == Apply(config, op, env, stored).1.previous
  {
  }

  /** Confirmation provenance: a confirmed journal was, earlier in the run, degraded for the same account and generation. */
  lemma {:induction false} ConfirmedWasCommitted(config: Config, run: seq<Event>, n: nat)
    requires n <= |run| && RestoresAreMatched(config, run)
    requires JournalAt(config, run, n).Some? && JournalAt(config, run, n).value.phase.Confirmed?
    ensures var s := JournalAt(config, run, n).value;
            WasDegradedBefore(config, run, n, s.configured, s.generation)
    decreases n
  {
    hide Apply;
    var before := JournalAt(config, run, n - 1);
    var event := run[n - 1];
    if JournalAt(config, run, n) == before {
      ConfirmedWasCommitted(config, run, n - 1);
    } else {
      ConfirmationSources(config, event.op, event.env, before);
      if event.op.RestoreUncommitted? {
        var k: nat :| k < n - 1 && PreparedFor(config, run, k, n - 1);
        CapturedConfirmationWasDurable(config, run[k].op, run[k].env, JournalAt(config, run, k));
        ConfirmedWasCommitted(config, run, k);
      } else if before.value.phase.Confirmed? {
        ConfirmedWasCommitted(config, run, n - 1);
      } else {
        assert DegradedFor(JournalAt(config, run, n - 1), before.value.configured, before.value.generation);
      }
    }
  }

  /** The only operations that can take a journal out of `preparing` for this account and generation. */
  predicate Releases(op: Operation, account: Option<Uuid>, generation: Uuid) {
    || (op.MarkDegraded? && Some(op.target) == account && (op.expected.Some? ==> op.expected.value == generation))
    || (op.RestoreUncommitted? && Some(op.target) == account && op.expectedGeneration == generation)
    || op.MarkReview?
  }

  /** `preparing` is a barrier for one step: nothing else moves it, and each releasing operation can. */
  lemma PreparingStep(config: Config, op: Operation, env: Environment, s: State)
    requires s.Valid() && s.phase.Preparing?
    ensures Apply(config, op, env, Some(s)).0 != Some(s) ==> Releases(op, s.configured, s.generation)
    ensures Releases(op, s.configured, s.generation) && ArgumentsInBounds(op, env.at, Some(s))
            && env.leaseAvailable && env.authorize(Some(s)) && env.io.Written?
            ==> Apply(config, op, env, Some(s)).1.Done?
    ensures op.Begin? ==> !Apply(config, op, env, Some(s)).1.Prepared? && !Apply(config, op, env, Some(s)).1.Retry?
  {
    if Releases(op, s.configured, s.generation) && env.leaseAvailable && env.authorize(Some(s)) {
      GuardsImplyValidity(config, op, env.at, true, Some(s));
    }
  }

  /** `preparing` is a barrier over runs: it stays put until a releasing operation. */
  lemma {:induction false} PreparingIsABarrier(config: Config, run: seq<Event>, i: nat, n: nat)
    requires i <= n <= |run|
    requires JournalAt(config, run, i).Some? && JournalAt(config, run, i).value.phase.Preparing?
    requires var s := JournalAt(config, run, i).value;
             forall k :: i <= k < n ==> !Releases(run[k].op, s.configured, s.generation)
    ensures JournalAt(config, run, n) == JournalAt(config, run, i)
  {
    JournalStaysValid(config, run, i);
    if i < n {
      PreparingIsABarrier(config, run, i, n - 1);
      PreparingStep(config, run[n - 1].op, run[n - 1].env, JournalAt(config, run, i).value);
    }
  }
}
