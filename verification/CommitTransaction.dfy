/** Effect permits and the staged commit of configured credentials. */
module CommitTransaction {
  import opened Prelude
  import opened ActivationState
  import opened MutationLease
  import opened RuntimeEvidence
  import AJ = ActivationJournal
  import JournalRuns

  // ----- Effect permits ----------------------------------------------------------------------------

  /** A permit names the lease it was made under and is re-checked against the lease and the journal at every use. */
  datatype EffectPermit = EffectPermit(target: Uuid, generation: Uuid, requiredPhase: Phase, lease: Lease,
                                       runtimePermit: Option<RuntimePermit>)
  {
    predicate Authorizes(leases: Leases, state: Option<State>, at: Date) {
      && leases.Owns(lease)
      && state.Some?
      && state.value.phase == requiredPhase
      && state.value.configured == Some(target)
      && state.value.generation == generation
      && (runtimePermit.Some? ==>
            && runtimePermit.value.target == target
            && runtimePermit.value.generation == generation
            && runtimePermit.value.requiredPhase == requiredPhase
            && runtimePermit.value.Authorizes(state, at))
    }
  }

  /** The durable journal as a permit sees it: an unreadable journal authorizes nothing. */
  function DurableState(stored: Option<State>): Option<State> {
    if AJ.Decode(stored).Ok? then stored else None
  }

  function MakeEffectPermit(lease: Lease, target: Uuid, generation: Uuid, requiredPhase: Phase,
                            runtimePermit: Option<RuntimePermit>, leases: Leases, stored: Option<State>, at: Date)
    : Option<EffectPermit>
  {
    var permit := EffectPermit(target, generation, requiredPhase, lease, runtimePermit);
    if lease.purpose.generation != generation then None
    else if lease.purpose.Activation? && lease.purpose.account != target then None
    else if permit.Authorizes(leases, DurableState(stored), at) then Some(permit)
    else None
  }

  /** A permit authorizes exactly while its lease is held and valid, the journal is in the phase of its activation, and
      the runtime permit it carries, if any, is for the same and rests on complete evidence that is current, which a
      confirmed activation must have recorded. */
  lemma PermitAuthorizesExactlyWhen(p: EffectPermit, leases: Leases, state: Option<State>, at: Date)
    ensures p.Authorizes(leases, state, at) <==>
              && leases.current == Some(HeldLease(p.lease, false))
              && state.Some?
              && var s := state.value;
                 && s.phase == p.requiredPhase && s.configured == Some(p.target) && s.generation == p.generation
                 && (p.runtimePermit.Some? ==>
                       var r := p.runtimePermit.value;
                       && r.target == p.target && r.generation == p.generation && r.requiredPhase == p.requiredPhase
                       && r.evidence.observedAt <= at < r.evidence.expiresAt
                       && r.evidence.acknowledged == r.evidence.discovered > 0
                       && (s.phase.Confirmed? ==>
                             && s.evidenceGeneration == Some(r.evidence.generation)
                             && s.evidenceObservedAt.Some? && s.evidenceExpiresAt.Some?
                             && s.evidenceObservedAt.value <= at < s.evidenceExpiresAt.value))
  {
  }

  /** A permit is made exactly under a lease for its activation, and of its account if it is an activation lease, while
      the durable journal is readable and authorizes it. */
  lemma PermitIsMadeExactlyWhen(lease: Lease, target: Uuid, generation: Uuid, requiredPhase: Phase,
                                runtimePermit: Option<RuntimePermit>, leases: Leases, stored: Option<State>, at: Date)
    ensures var made := MakeEffectPermit(lease, target, generation, requiredPhase, runtimePermit, leases, stored, at);
            var permit := EffectPermit(target, generation, requiredPhase, lease, runtimePermit);
            && (made.Some? <==>
                  && lease.purpose.generation == generation
                  && (lease.purpose.Activation? ==> lease.purpose == Activation(target, generation))
                  && stored.Some? && stored.value.Valid() && permit.Authorizes(leases, stored, at))
            && (made.Some? ==> made == Some(permit))
  {
    hide State.Valid;
  }

  /** Two permits authorized at the same moment were made under the same lease. */
  lemma PermitsExclude(p: EffectPermit, q: EffectPermit, leases: Leases, state: Option<State>, at: Date)
    requires p.Authorizes(leases, state, at) && q.Authorizes(leases, state, at)
    ensures p.lease == q.lease && p.target == q.target && p.generation == q.generation
  {
  }

  /** In a run of lease calls a permit that has lost its lease never authorizes again, whatever the journal says. */
  lemma PermitDiesWithItsLease(p: EffectPermit, run: seq<Call>, i: nat, j: nat, k: nat,
                               first: Option<State>, last: Option<State>, at: Date, later: Date)
    requires i <= j <= k <= |run| && FreshTokens(run)
    requires p.Authorizes(LeasesAt(run, i), first, at) && !LeasesAt(run, j).Owns(p.lease)
    ensures !p.Authorizes(LeasesAt(run, k), last, later)
  {
    if LeasesAt(run, k).Owns(p.lease) {
      OwnershipIsContiguous(run, i, j, k, p.lease);
    }
  }

  // ----- The world a commit acts on ------------------------------------------------------------------

  /** An account together with the credentials a file holds for it. */
  datatype Login = Login(account: Uuid, credentials: int)

  datatype Effect = StoreWritten | AuthCommitted | FilesVerified | CredentialsPublished | JournalDegraded
    | ConvergenceBegun

  const EFFECTS: seq<Effect> :=
    [StoreWritten, AuthCommitted, FilesVerified, CredentialsPublished, JournalDegraded, ConvergenceBegun]

  /** `trace` lists the commit's own effects, in the order in which they reached the world. */
  datatype World = World(journal: Option<State>, leases: Leases, store: Login, auth: Login, published: Login,
                         trace: seq<Effect>)

  /** What anybody else may do while the commit waits. */
  datatype Interference =
    | LeaseCall(call: Call)
    | JournalCall(op: AJ.Operation, env: AJ.Environment)
    | ForeignStoreWrite(login: Login)
    | ForeignAuthWrite(login: Login)

  function Interfere(config: AJ.Config, w: World, i: Interference): World {
    match i
    case LeaseCall(call) => w.(leases := w.leases.Step(call))
    case JournalCall(op, env) => w.(journal := AJ.Apply(config, op, env, w.journal).0)
    case ForeignStoreWrite(login) => w.(store := login)
    case ForeignAuthWrite(login) => w.(auth := login)
  }

  datatype Stage =
    | MutationAuthorization
    | CredentialMutation
    | AccountStoreAuthorization
    | AccountStorePersistence
    | AuthAuthorization
    | AuthPersistence
    | DurableReadbackAuthorization
    | DurableReadback
    | ConfiguredCredentialPublication
    | JournalAuthorization
    | JournalPersistence
    | ConvergenceAuthorization
    | Convergence

  const STAGE_COUNT := 13

  /** The order of the stages. */
  function StageAt(k: nat): Stage
    requires k < STAGE_COUNT
  {
    match k
    case 0 => MutationAuthorization
    case 1 => CredentialMutation
    case 2 => AccountStoreAuthorization
    case 3 => AccountStorePersistence
    case 4 => AuthAuthorization
    case 5 => AuthPersistence
    case 6 => DurableReadbackAuthorization
    case 7 => DurableReadback
    case 8 => ConfiguredCredentialPublication
    case 9 => JournalAuthorization
    case 10 => JournalPersistence
    case 11 => ConvergenceAuthorization
    case _ => Convergence
  }

  /** What is fixed for one commit. With `authAlreadyConfigured` the auth stage only checks the file. */
  datatype Context = Context(config: AJ.Config, target: Login, generation: Uuid, lease: Lease, detail: Detail,
                             authAlreadyConfigured: bool)

  /** What one stage meets: interference before it, the time, the caller's own conditions and the file system. */
  datatype StageEnv = StageEnv(meanwhile: seq<Interference>, at: Date, granted: bool, io: AJ.WriteOutcome)

  datatype CommitResult = Committed | FailedAt(stage: Stage)

  function RequiredPhase(stage: Stage): Phase {
    if stage.ConvergenceAuthorization? || stage.Convergence? then CommittedDegraded else Preparing
  }

  /** The permit every stage re-checks; both the authorization stages and the effects themselves evaluate it. */
  predicate PermitHolds(ctx: Context, stage: Stage, w: World, at: Date) {
    MakeEffectPermit(ctx.lease, ctx.target.account, ctx.generation, RequiredPhase(stage), None, w.leases, w.journal, at)
      .Some?
  }

  /** A file write under the conditional-replace contract: it may fail before or after it took effect. */
  function Write(io: AJ.WriteOutcome, before: World, after: World): (World, bool) {
    match io
    case Written => (after, true)
    case FailedBeforeWrite => (before, false)
    case FailedAfterWrite => (after, false)
  }

  function Log(w: World, e: Effect): World {
    w.(trace := w.trace + [e])
  }

  function DegradeOperation(ctx: Context): AJ.Operation {
    AJ.MarkDegraded(ctx.target.account, Some(ctx.generation), 0, 0, ctx.detail, {})
  }

  /** The journal write of the commit: guarded by the permit again, inside the journal's own lock. */
  function DegradeJournal(ctx: Context, env: StageEnv, w: World): (Option<State>, AJ.Outcome) {
    var authorize := (state: Option<State>) =>
      EffectPermit(ctx.target.account, ctx.generation, Preparing, ctx.lease, None).Authorizes(w.leases, state, env.at);
    AJ.Apply(ctx.config, DegradeOperation(ctx), AJ.Environment(env.at, true, authorize, env.io), w.journal)
  }

  /** The attempt of one stage, after the interference before it. */
  function Attempt(ctx: Context, stage: Stage, env: StageEnv, w: World): (World, bool) {
    if !env.granted || !PermitHolds(ctx, stage, w, env.at) then (w, false)
    else match stage
      case AccountStorePersistence => Write(env.io, w, Log(w.(store := ctx.target), StoreWritten))
      case AuthPersistence =>
        if ctx.authAlreadyConfigured then
          if w.auth == ctx.target then (Log(w, AuthCommitted), true) else (w, false)
        else Write(env.io, w, Log(w.(auth := ctx.target), AuthCommitted))
      case DurableReadback =>
        if w.store == w.auth == ctx.target then (Log(w, FilesVerified), true) else (w, false)
      case ConfiguredCredentialPublication =>
        (Log(w.(published := ctx.target), CredentialsPublished), true)
      case JournalPersistence =>
        var (journal, outcome) := DegradeJournal(ctx, env, w);
        (if journal != w.journal then Log(w.(journal := journal), JournalDegraded) else w, outcome.Done?)
      case Convergence => (Log(w, ConvergenceBegun), true)
      case _ => (w, true)
  }

  function InterfereAll(config: AJ.Config, w: World, moves: seq<Interference>): World
    decreases |moves|
  {
    if moves == [] then w
    else Interfere(config, InterfereAll(config, w, moves[..|moves| - 1]), moves[|moves| - 1])
  }

  /** The closures a commit is given: each takes the world to the world after its stage, and says whether it passed. */
  type Operations = (Stage, StageEnv, World) -> (World, bool)

  /** The closures of the configured-credential commit: wait while others interfere, then attempt the stage. */
  function CommitOperations(ctx: Context): Operations {
    (stage: Stage, env: StageEnv, w: World) =>
      Attempt(ctx, stage, env, InterfereAll(ctx.config, w, env.meanwhile))
  }

  /** The commit from its `k`-th stage on: each stage runs only if the one before it passed. */
  function Run(operations: Operations, envs: seq<StageEnv>, k: nat, w: World): (World, CommitResult)
    requires k <= STAGE_COUNT == |envs|
    decreases STAGE_COUNT - k
  {
    if k == STAGE_COUNT then (w, Committed)
    else
      var (next, ok) := operations(StageAt(k), envs[k], w);
      if ok then Run(operations, envs, k + 1, next) else (next, FailedAt(StageAt(k)))
  }

  /** The shared state of the process, with the commit as its one long operation. */
  class ActivationSession {
    var world: World

    constructor (initial: World)
      ensures world == initial
    {
      world := initial;
    }

    /** Performs one stage; `total` is what the whole commit comes to. */
    method Perform(operations: Operations, stage: Stage, envs: seq<StageEnv>, k: nat,
                   ghost total: (World, CommitResult))
      returns (ok: bool)
      requires k < STAGE_COUNT == |envs| && StageAt(k) == stage && Run(operations, envs, k, world) == total
      modifies this
      ensures if ok then Run(operations, envs, k + 1, world) == total else total == (world, FailedAt(stage))
    {
      var (next, done) := operations(stage, envs[k], world);
      world, ok := next, done;
    }

    /** Authorizes the mutation and checks that the credentials can be applied. */
    method AuthorizeMutation(operations: Operations, envs: seq<StageEnv>, ghost total: (World, CommitResult))
      returns (r: CommitResult)
      requires |envs| == STAGE_COUNT && Run(operations, envs, 0, world) == total
      modifies this
      ensures if r.Committed? then Run(operations, envs, 2, world) == total else total == (world, r)
    {
      var ok := Perform(operations, MutationAuthorization, envs, 0, total);
      if !ok { return FailedAt(MutationAuthorization); }
      ok := Perform(operations, CredentialMutation, envs, 1, total);
      if !ok { return FailedAt(CredentialMutation); }
      r := Committed;
    }

    /** Writes the account store, then the auth file, each under its own permit. */
    method PersistFiles(operations: Operations, envs: seq<StageEnv>, ghost total: (World, CommitResult))
      returns (r: CommitResult)
      requires |envs| == STAGE_COUNT && Run(operations, envs, 2, world) == total
      modifies this
      ensures if r.Committed? then Run(operations, envs, 6, world) == total else total == (world, r)
    {
      var ok := Perform(operations, AccountStoreAuthorization, envs, 2, total);
      if !ok { return FailedAt(AccountStoreAuthorization); }
      ok := Perform(operations, AccountStorePersistence, envs, 3, total);
      if !ok { return FailedAt(AccountStorePersistence); }
      ok := Perform(operations, AuthAuthorization, envs, 4, total);
      if !ok { return FailedAt(AuthAuthorization); }
      ok := Perform(operations, AuthPersistence, envs, 5, total);
      if !ok { return FailedAt(AuthPersistence); }
      r := Committed;
    }

    /** Reads both files back and publishes the configured credentials. */
    method VerifyAndPublish(operations: Operations, envs: seq<StageEnv>, ghost total: (World, CommitResult))
      returns (r: CommitResult)
      requires |envs| == STAGE_COUNT && Run(operations, envs, 6, world) == total
      modifies this
      ensures if r.Committed? then Run(operations, envs, 9, world) == total else total == (world, r)
    {
      var ok := Perform(operations, DurableReadbackAuthorization, envs, 6, total);
      if !ok { return FailedAt(DurableReadbackAuthorization); }
      ok := Perform(operations, DurableReadback, envs, 7, total);
      if !ok { return FailedAt(DurableReadback); }
      ok := Perform(operations, ConfiguredCredentialPublication, envs, 8, total);
      if !ok { return FailedAt(ConfiguredCredentialPublication); }
      r := Committed;
    }

    /** Marks the journal degraded under this generation, then starts convergence. */
    method RecordAndConverge(operations: Operations, envs: seq<StageEnv>, ghost total: (World, CommitResult))
      returns (r: CommitResult)
      requires |envs| == STAGE_COUNT && Run(operations, envs, 9, world) == total
      modifies this
      ensures if r.Committed? then Run(operations, envs, 13, world) == total else total == (world, r)
    {
      var ok := Perform(operations, JournalAuthorization, envs, 9, total);
      if !ok { return FailedAt(JournalAuthorization); }
      ok := Perform(operations, JournalPersistence, envs, 10, total);
      if !ok { return FailedAt(JournalPersistence); }
      ok := Perform(operations, ConvergenceAuthorization, envs, 11, total);
      if !ok { return FailedAt(ConvergenceAuthorization); }
      ok := Perform(operations, Convergence, envs, 12, total);
      if !ok { return FailedAt(Convergence); }
      r := Committed;
    }

    method CommitConfiguredCredentials(operations: Operations, envs: seq<StageEnv>) returns (r: CommitResult)
      requires |envs| == STAGE_COUNT
      modifies this
      ensures (world, r) == Run(operations, envs, 0, old(world))
    {
      ghost var total := Run(operations, envs, 0, world);
      r := AuthorizeMutation(operations, envs, total);
      if r.FailedAt? { return; }
      r := PersistFiles(operations, envs, total);
      if r.FailedAt? { return; }
      r := VerifyAndPublish(operations, envs, total);
      if r.FailedAt? { return; }
      r := RecordAndConverge(operations, envs, total);
    }
  }

  // ----- What every step of a commit keeps -------------------------------------------------------------

  /** Interference leaves this activation's own transition to the commit, and never forges this lease's token. */
  predicate LeavesTheCommitAlone(ctx: Context, i: Interference) {
    && (i.JournalCall? && JournalRuns.Releases(i.op, Some(ctx.target.account), ctx.generation) ==> i.op.MarkReview?)
    && (i.LeaseCall? && i.call.Acquire? ==> i.call.token != ctx.lease.token)
  }

  predicate IsPreparing(ctx: Context, journal: Option<State>) {
    && journal.Some? && journal.value.phase.Preparing?
    && journal.value.configured == Some(ctx.target.account) && journal.value.generation == ctx.generation
  }

  predicate IsDegraded(ctx: Context, journal: Option<State>) {
    JournalRuns.DegradedFor(journal, Some(ctx.target.account), ctx.generation)
  }

  /** What the `n`-th effect does to the world besides being recorded. */
  predicate DoesEffect(ctx: Context, n: nat, before: World, after: World) {
    && after.leases == before.leases
    && after.store == (if n == 0 then ctx.target else before.store)
    && after.auth == (if n == 1 then ctx.target else before.auth)
    && after.published == (if n == 3 then ctx.target else before.published)
    && (n != 4 ==> after.journal == before.journal)
    && (n == 4 ==> before.journal.Some? && after.journal.Some? && DegradesTo(ctx, before.journal.value, after.journal.value))
  }

  /** The record that the commit leaves: the same activation, with no runtime seen yet and a retry due at once. */
  predicate DegradesTo(ctx: Context, before: State, after: State) {
    && after.phase.CommittedDegraded? && after.configured == Some(ctx.target.account) && after.generation == ctx.generation
    && after.detail == Some(ctx.detail) && after.retryAttempt == before.retryAttempt
    && after.discovered == 0 && after.acknowledged == 0 && after.Blockers() == {}
    && after.nextRetryAt == Some(after.updatedAt)
  }

  /** One atomic step of the run, by the commit or by anybody else. */
  predicate KeepsTheProtocol(ctx: Context, before: World, after: World) {
    // Effects only accumulate, one at a time, in the fixed order.
    && (after.trace == before.trace
        || (|before.trace| < |EFFECTS| && after.trace == before.trace + [EFFECTS[|before.trace|]]))
    // An effect needs the lease and the journal phase at the moment it happens.
    && (after.trace != before.trace ==>
          && before.leases.Owns(ctx.lease)
          && (if after.trace == EFFECTS then IsDegraded(ctx, before.journal) else IsPreparing(ctx, before.journal)))
    // The readback saw both files hold the target's credentials.
    && (after.trace != before.trace && after.trace == EFFECTS[..3] ==> before.store == before.auth == ctx.target)
    // The journal is degraded under this generation only by the fifth effect, after the other four.
    && (IsPreparing(ctx, before.journal) && IsDegraded(ctx, after.journal) ==>
          before.trace == EFFECTS[..4] && after.trace == EFFECTS[..5])
    // Every effect does what it is named for, and nothing else publishes.
    && (after.trace != before.trace ==> DoesEffect(ctx, |before.trace|, before, after))
    && (after.trace == before.trace ==> after.published == before.published)
    // Once the lease is gone it stays gone.
    && (!before.leases.Owns(ctx.lease) ==> !after.leases.Owns(ctx.lease))
  }

  lemma InterferenceKeepsTheProtocol(ctx: Context, w: World, i: Interference)
    requires LeavesTheCommitAlone(ctx, i)
    ensures KeepsTheProtocol(ctx, w, Interfere(ctx.config, w, i)) && Interfere(ctx.config, w, i).trace == w.trace
  {
    if i.JournalCall? && IsPreparing(ctx, w.journal) {
      var journal := AJ.Apply(ctx.config, i.op, i.env, w.journal).0;
      JournalRuns.JournalChangesOnlyByPlan(ctx.config, i.op, i.env, w.journal);
      if journal != w.journal {
        JournalRuns.PreparingStep(ctx.config, i.op, i.env, w.journal.value);
      }
    }
  }

  /** How many effects are done before a stage is attempted. */
  function EffectsBefore(stage: Stage): nat {
    match stage
    case MutationAuthorization => 0
    case CredentialMutation => 0
    case AccountStoreAuthorization => 0
    case AccountStorePersistence => 0
    case AuthAuthorization => 1
    case AuthPersistence => 1
    case DurableReadbackAuthorization => 2
    case DurableReadback => 2
    case ConfiguredCredentialPublication => 3
    case JournalAuthorization => 4
    case JournalPersistence => 4
    case ConvergenceAuthorization => 5
    case Convergence => 5
  }

  predicate HasEffect(stage: Stage) {
    stage in {AccountStorePersistence, AuthPersistence, DurableReadback, ConfiguredCredentialPublication,
              JournalPersistence, Convergence}
  }

  function EffectsAfter(stage: Stage): nat {
    EffectsBefore(stage) + if HasEffect(stage) then 1 else 0
  }

  /** How many effects are done when it is the `k`-th stage's turn. */
  function EffectsDone(k: nat): nat
    requires k <= STAGE_COUNT
  {
    if k == STAGE_COUNT then |EFFECTS| else EffectsBefore(StageAt(k))
  }

  lemma DegradeStep(ctx: Context, env: StageEnv, w: World)
    requires PermitHolds(ctx, JournalPersistence, w, env.at)
    ensures var (journal, outcome) := DegradeJournal(ctx, env, w);
            && (outcome.Done? ==> journal != w.journal)
            && (journal != w.journal ==> IsDegraded(ctx, journal) && DegradesTo(ctx, w.journal.value, journal.value))
            && IsPreparing(ctx, w.journal)
            && (env.io.Written? <==> outcome.Done?)
  {
  }

  lemma AttemptDoesItsEffect(ctx: Context, stage: Stage, env: StageEnv, w: World)
    requires w.trace == EFFECTS[..EffectsBefore(stage)]
    ensures var next := Attempt(ctx, stage, env, w).0;
            if next.trace == w.trace then next.published == w.published else DoesEffect(ctx, |w.trace|, w, next)
  {
    hide DegradeJournal, AJ.Apply, DegradesTo;
    if env.granted && PermitHolds(ctx, stage, w, env.at) && stage.JournalPersistence? {
      DegradeStep(ctx, env, w);
    }
  }

  /** A stage attempted with its predecessors' effects done adds exactly its own effect if it succeeds, and at most that
      one if it fails. */
  lemma AttemptKeepsTheProtocol(ctx: Context, stage: Stage, env: StageEnv, w: World)
    requires w.trace == EFFECTS[..EffectsBefore(stage)]
    ensures var (next, ok) := Attempt(ctx, stage, env, w);
            && KeepsTheProtocol(ctx, w, next)
            && (next.trace == EFFECTS[..EffectsBefore(stage)] || next.trace == EFFECTS[..EffectsAfter(stage)])
            && (ok ==> next.trace == EFFECTS[..EffectsAfter(stage)])
  {
    hide DegradeJournal, AJ.Apply, DoesEffect, DegradesTo;
    AttemptDoesItsEffect(ctx, stage, env, w);
    if env.granted && PermitHolds(ctx, stage, w, env.at) && stage.JournalPersistence? {
      DegradeStep(ctx, env, w);
    }
  }

  /** The permit of a stage, read off the world: the commit holds its lease, made for this generation and account, and the
      journal is a valid record of its activation in the phase that the stage needs. */
  predicate IsPermitted(ctx: Context, stage: Stage, w: World) {
    && w.leases.Owns(ctx.lease) && ctx.lease.purpose.generation == ctx.generation
    && (ctx.lease.purpose.Activation? ==> ctx.lease.purpose.account == ctx.target.account)
    && w.journal.Some? && w.journal.value.Valid()
    && w.journal.value.configured == Some(ctx.target.account) && w.journal.value.generation == ctx.generation
    && (if stage in {ConvergenceAuthorization, Convergence} then w.journal.value.phase.CommittedDegraded?
        else w.journal.value.phase.Preparing?)
  }

  predicate Writes(ctx: Context, stage: Stage) {
    || stage.AccountStorePersistence? || stage.JournalPersistence?
    || (stage.AuthPersistence? && !ctx.authAlreadyConfigured)
  }

  /** A stage that does not write passes exactly if it is granted and permitted, and the files are the target's where it
      reads them; a stage that writes needs the write to succeed as well. */
  lemma AttemptPassesExactlyWhen(ctx: Context, stage: Stage, env: StageEnv, w: World)
    ensures Attempt(ctx, stage, env, w).1 <==>
              && env.granted && IsPermitted(ctx, stage, w)
              && (stage.DurableReadback? ==> w.store == ctx.target && w.auth == ctx.target)
              && (stage.AuthPersistence? && ctx.authAlreadyConfigured ==> w.auth == ctx.target)
              && (Writes(ctx, stage) ==> env.io.Written?)
  {
    hide DegradeJournal, AJ.Apply;
    if env.granted && PermitHolds(ctx, stage, w, env.at) && stage.JournalPersistence? {
      DegradeStep(ctx, env, w);
    }
  }

  // ----- Whole runs --------------------------------------------------------------------------------------

  /** Every world visited while others interfere, in order. */
  function InterferenceTrail(config: AJ.Config, w: World, moves: seq<Interference>): (r: seq<World>)
    ensures |r| == |moves| + 1 && r[0] == w && r[|moves|] == InterfereAll(config, w, moves)
    decreases |moves|
  {
    if moves == [] then [w]
    else InterferenceTrail(config, w, moves[..|moves| - 1]) + [InterfereAll(config, w, moves)]
  }

  /** The worlds visited while a stage waits for its turn. */
  type Waiting = (seq<Interference>, World) -> seq<World>

  function CommitWaiting(ctx: Context): Waiting {
    (moves: seq<Interference>, w: World) => InterferenceTrail(ctx.config, w, moves)
  }

  /** Every world visited by a commit from its `k`-th stage on: each step of interference and each attempt. */
  function Trail(operations: Operations, waiting: Waiting, envs: seq<StageEnv>, k: nat, w: World): seq<World>
    requires k <= STAGE_COUNT == |envs|
    decreases STAGE_COUNT - k
  {
    if k == STAGE_COUNT then [w]
    else
      var (next, ok) := operations(StageAt(k), envs[k], w);
      waiting(envs[k].meanwhile, w) + if ok then Trail(operations, waiting, envs, k + 1, next) else [next]
  }

  predicate EnvironmentIsFair(ctx: Context, envs: seq<StageEnv>) {
    forall k, m :: 0 <= k < |envs| && 0 <= m < |envs[k].meanwhile| ==> LeavesTheCommitAlone(ctx, envs[k].meanwhile[m])
  }

  predicate TrailKeepsTheProtocol(ctx: Context, trail: seq<World>) {
    forall i :: 0 <= i < |trail| - 1 ==> KeepsTheProtocol(ctx, trail[i], trail[i + 1])
  }

  lemma {:induction false} WaitingKeepsTheProtocol(ctx: Context, w: World, moves: seq<Interference>)
    requires forall m :: 0 <= m < |moves| ==> LeavesTheCommitAlone(ctx, moves[m])
    ensures TrailKeepsTheProtocol(ctx, InterferenceTrail(ctx.config, w, moves))
    ensures InterfereAll(ctx.config, w, moves).trace == w.trace
    decreases |moves|
  {
    if moves != [] {
      var init := moves[..|moves| - 1];
      WaitingKeepsTheProtocol(ctx, w, init);
      InterferenceKeepsTheProtocol(ctx, InterfereAll(ctx.config, w, init), moves[|moves| - 1]);
    }
  }

  lemma TrailsJoin(ctx: Context, a: seq<World>, b: seq<World>)
    requires a != [] && b != [] && TrailKeepsTheProtocol(ctx, a) && TrailKeepsTheProtocol(ctx, b)
    requires KeepsTheProtocol(ctx, a[|a| - 1], b[0])
    ensures TrailKeepsTheProtocol(ctx, a + b)
  {
  }

  /** What one stage contributes to a run: a trail that keeps the protocol up to the world after the attempt. */
  predicate StageKeepsTheProtocol(ctx: Context, operations: Operations, waiting: Waiting, env: StageEnv, stage: Stage,
                                  w: World)
  {
    var (next, ok) := operations(stage, env, w);
    var waited := waiting(env.meanwhile, w);
    && waited != [] && waited[0] == w
    && TrailKeepsTheProtocol(ctx, waited) && KeepsTheProtocol(ctx, waited[|waited| - 1], next)
    && (next.trace == EFFECTS[..EffectsBefore(stage)] || next.trace == EFFECTS[..EffectsAfter(stage)])
    && (ok ==> next.trace == EFFECTS[..EffectsAfter(stage)])
  }

  ghost predicate EveryStageKeepsTheProtocol(ctx: Context, operations: Operations, waiting: Waiting,
                                             envs: seq<StageEnv>)
    requires |envs| == STAGE_COUNT
  {
    forall k: nat, w: World {:trigger StageKeepsTheProtocol(ctx, operations, waiting, envs[k], StageAt(k), w)} ::
      k < STAGE_COUNT && w.trace == EFFECTS[..EffectsDone(k)] ==>
        StageKeepsTheProtocol(ctx, operations, waiting, envs[k], StageAt(k), w)
  }

  lemma {:induction false} StagesCompose(ctx: Context, operations: Operations, waiting: Waiting, envs: seq<StageEnv>,
                                         k: nat, w: World)
    requires k <= STAGE_COUNT == |envs| && EveryStageKeepsTheProtocol(ctx, operations, waiting, envs)
    requires w.trace == EFFECTS[..EffectsDone(k)]
    ensures var trail := Trail(operations, waiting, envs, k, w);
            && trail != [] && trail[0] == w && TrailKeepsTheProtocol(ctx, trail)
            && trail[|trail| - 1] == Run(operations, envs, k, w).0
    ensures var (final, result) := Run(operations, envs, k, w);
            match result
            case Committed => final.trace == EFFECTS
            case FailedAt(stage) =>
              final.trace == EFFECTS[..EffectsBefore(stage)] || final.trace == EFFECTS[..EffectsAfter(stage)]
    decreases STAGE_COUNT - k
  {
    hide KeepsTheProtocol;
    if k < STAGE_COUNT {
      assert StageKeepsTheProtocol(ctx, operations, waiting, envs[k], StageAt(k), w);
      var waited := waiting(envs[k].meanwhile, w);
      var (next, ok) := operations(StageAt(k), envs[k], w);
      if ok {
        assert EffectsAfter(StageAt(k)) == EffectsDone(k + 1);
        StagesCompose(ctx, operations, waiting, envs, k + 1, next);
        TrailsJoin(ctx, waited, Trail(operations, waiting, envs, k + 1, next));
      } else {
        TrailsJoin(ctx, waited, [next]);
      }
    }
  }

  lemma CommitStagesKeepTheProtocol(ctx: Context, envs: seq<StageEnv>)
    requires |envs| == STAGE_COUNT && EnvironmentIsFair(ctx, envs)
    ensures EveryStageKeepsTheProtocol(ctx, CommitOperations(ctx), CommitWaiting(ctx), envs)
  {
    forall k: nat, w: World | k < STAGE_COUNT && w.trace == EFFECTS[..EffectsDone(k)]
      ensures StageKeepsTheProtocol(ctx, CommitOperations(ctx), CommitWaiting(ctx), envs[k], StageAt(k), w)
    {
      WaitingKeepsTheProtocol(ctx, w, envs[k].meanwhile);
      AttemptKeepsTheProtocol(ctx, StageAt(k), envs[k], InterfereAll(ctx.config, w, envs[k].meanwhile));
    }
  }

  /** Commit crash consistency, for a commit observed from any of its stages on (from stage 0 with no effect yet).
      At whatever stage the commit stops, and whoever invalidates the lease or touches the journal or the files
      meanwhile, every single step keeps the protocol; and a failure at a stage means that every effect before it
      happened, possibly its own, and none of a later stage. */
  lemma CommitKeepsTheProtocol(ctx: Context, envs: seq<StageEnv>, k: nat, w: World)
    requires k <= STAGE_COUNT == |envs| && EnvironmentIsFair(ctx, envs)
    requires w.trace == EFFECTS[..EffectsDone(k)]
    ensures TrailKeepsTheProtocol(ctx, Trail(CommitOperations(ctx), CommitWaiting(ctx), envs, k, w))
    ensures var (final, result) := Run(CommitOperations(ctx), envs, k, w);
            match result
            case Committed => final.trace == EFFECTS && (IsPublished(ctx, w) ==> final.published == ctx.target)
            case FailedAt(stage) =>
              final.trace == EFFECTS[..EffectsBefore(stage)] || final.trace == EFFECTS[..EffectsAfter(stage)]
  {
    hide Run, Trail, KeepsTheProtocol, EveryStageKeepsTheProtocol;
    CommitStagesKeepTheProtocol(ctx, envs);
    StagesCompose(ctx, CommitOperations(ctx), CommitWaiting(ctx), envs, k, w);
    var trail := Trail(CommitOperations(ctx), CommitWaiting(ctx), envs, k, w);
    if IsPublished(ctx, w) {
      StaysPublished(ctx, trail, |trail| - 1);
    }
  }

  /** If publication is among the effects so far, the target's credentials are published. */
  predicate IsPublished(ctx: Context, w: World) {
    |w.trace| >= 4 ==> w.published == ctx.target
  }

  lemma {:induction false} StaysPublished(ctx: Context, trail: seq<World>, n: nat)
    requires TrailKeepsTheProtocol(ctx, trail) && n < |trail| && IsPublished(ctx, trail[0])
    ensures IsPublished(ctx, trail[n])
  {
    if n > 0 {
      StaysPublished(ctx, trail, n - 1);
      assert KeepsTheProtocol(ctx, trail[n - 1], trail[n - 1 + 1]);
    }
  }

  /** Nobody interferes, every condition of the caller's is met, and no write fails. */
  predicate IsUndisturbed(envs: seq<StageEnv>) {
    forall k | 0 <= k < |envs| :: envs[k].granted && envs[k].meanwhile == [] && envs[k].io.Written?
  }

  /** What an undisturbed commit has reached when it is the `k`-th stage's turn. */
  predicate HasReached(ctx: Context, k: nat, w: World) {
    && w.trace == EFFECTS[..EffectsDone(if k <= STAGE_COUNT then k else STAGE_COUNT)]
    && IsPermitted(ctx, if k > 10 then Convergence else MutationAuthorization, w)
    && (k > 3 ==> w.store == ctx.target) && (k > 5 || ctx.authAlreadyConfigured ==> w.auth == ctx.target)
    && (k > 8 ==> w.published == ctx.target) && (k > 10 ==> w.journal.value.detail == Some(ctx.detail))
  }

  lemma UndisturbedStage(ctx: Context, env: StageEnv, k: nat, w: World)
    requires k < STAGE_COUNT && HasReached(ctx, k, w) && env.granted && env.io.Written?
    ensures var (next, ok) := Attempt(ctx, StageAt(k), env, w); ok && HasReached(ctx, k + 1, next)
  {
    AttemptPassesExactlyWhen(ctx, StageAt(k), env, w);
    AttemptKeepsTheProtocol(ctx, StageAt(k), env, w);
    if k == 10 {
      DegradeStep(ctx, env, w);
    }
  }

  /** A commit that nothing disturbs succeeds, and leaves both files, the published credentials and the journal to its
      target. */
  lemma {:induction false} UndisturbedCommitSucceeds(ctx: Context, envs: seq<StageEnv>, k: nat, w: World)
    requires k <= STAGE_COUNT == |envs| && IsUndisturbed(envs) && HasReached(ctx, k, w)
    ensures var (final, result) := Run(CommitOperations(ctx), envs, k, w);
            && result.Committed? && final.store == final.auth == final.published == ctx.target
            && IsDegraded(ctx, final.journal) && final.journal.value.detail == Some(ctx.detail)
    decreases STAGE_COUNT - k
  {
    hide Attempt, StageAt;
    if k < STAGE_COUNT {
      UndisturbedStage(ctx, envs[k], k, w);
      assert InterfereAll(ctx.config, w, envs[k].meanwhile) == w;
      assert CommitOperations(ctx)(StageAt(k), envs[k], w) == Attempt(ctx, StageAt(k), envs[k], w);
      UndisturbedCommitSucceeds(ctx, envs, k + 1, Attempt(ctx, StageAt(k), envs[k], w).0);
    }
  }

  /** After the lease is lost anywhere in the run, no further effect happens in it. */
  lemma {:induction false} NoEffectAfterLeaseLoss(ctx: Context, trail: seq<World>, i: nat, n: nat)
    requires TrailKeepsTheProtocol(ctx, trail) && i <= n < |trail|
    requires !trail[i].leases.Owns(ctx.lease)
    ensures !trail[n].leases.Owns(ctx.lease) && trail[n].trace == trail[i].trace
  {
    if i < n {
      NoEffectAfterLeaseLoss(ctx, trail, i, n - 1);
      assert KeepsTheProtocol(ctx, trail[n - 1], trail[n - 1 + 1]);
    }
  }
}
