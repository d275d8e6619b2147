/** How far apart automatic retries of one committed activation are, over whole runs of failures. */
module RetrySpacing {
  import opened Prelude
  import opened ActivationState
  import opened ActivationJournal
  import JournalRuns

  const ESCALATION_BASE: real := 300.0
  const ESCALATION_MAXIMUM: real := 3600.0
  const DEFAULT_CONFIG: Config := RetryConfig(30.0, 300.0)

  // ----- Identical-failure escalation -------------------------------------------------------------

  /** The in-memory record of failures that keep repeating. */
  datatype Escalation = Escalation(generation: Option<Uuid>, signature: Option<string>, count: nat,
                                   lastFailureAt: Option<Date>)
  {
    function Record(newGeneration: Uuid, newSignature: string, at: Date): Escalation {
      if generation == Some(newGeneration) && signature == Some(newSignature)
      then this.(count := if count + 1 <= 64 then count + 1 else 64, lastFailureAt := Some(at))
      else Escalation(Some(newGeneration), Some(newSignature), 1, Some(at))
    }

    function NextAutomaticRetryAt(wanted: Uuid): Option<Date> {
      if generation == Some(wanted) && count >= 2 && lastFailureAt.Some?
      then Some(lastFailureAt.value + EscalatedInterval(count))
      else None
    }

    predicate PermitsAutomaticRetry(wanted: Uuid, at: Date) {
      NextAutomaticRetryAt(wanted).Some? ==> at >= NextAutomaticRetryAt(wanted).value
    }
  }

  const NO_FAILURES := Escalation(None, None, 0, None)

  function EscalatedInterval(count: int): real {
    var exponent := if count - 1 < 0 then 0 else if count - 1 <= 16 then count - 1 else 16;
    Min(ESCALATION_BASE * PowerOfTwo(exponent), ESCALATION_MAXIMUM)
  }

  class ActivationRetryEscalation {
    var generation: Option<Uuid>
    var signature: Option<string>
    var identicalFailureCount: nat
    var lastFailureAt: Option<Date>

    function Value(): Escalation
      reads this
    {
      Escalation(generation, signature, identicalFailureCount, lastFailureAt)
    }

    constructor ()
      ensures Value() == NO_FAILURES
    {
      generation, signature, identicalFailureCount, lastFailureAt := None, None, 0, None;
    }

    method RecordFailure(newGeneration: Uuid, newSignature: string, at: Date)
      modifies this
      ensures Value() == old(Value()).Record(newGeneration, newSignature, at)
      ensures generation == Some(newGeneration) && signature == Some(newSignature) && lastFailureAt == Some(at)
      ensures var repeats := old(generation) == Some(newGeneration) && old(signature) == Some(newSignature);
              identicalFailureCount == if !repeats then 1 else if old(identicalFailureCount) < 64
                                       then old(identicalFailureCount) + 1 else 64
    {
      if generation == Some(newGeneration) && signature == Some(newSignature) {
        identicalFailureCount := if identicalFailureCount + 1 <= 64 then identicalFailureCount + 1 else 64;
      } else {
        generation, signature := Some(newGeneration), Some(newSignature);
        identicalFailureCount := 1;
      }
      lastFailureAt := Some(at);
    }

    method Reset()
      modifies this
      ensures Value() == NO_FAILURES
    {
      generation, signature, identicalFailureCount, lastFailureAt := None, None, 0, None;
    }
  }

  lemma {:induction false} PowerOfTwoGrows(m: nat, n: nat)
    requires m <= n
    ensures PowerOfTwo(m) <= PowerOfTwo(n)
  {
    if m < n {
      PowerOfTwoGrows(m, n - 1);
    }
  }

  /** Escalation only widens the journal's spacing, never narrows as failures repeat, and never exceeds an hour. */
  lemma EscalationWidens(count: nat, attempt: int, config: Config)
    requires count >= 2 && config.maximum <= ESCALATION_BASE
    ensures RetryDelay(attempt, config) < EscalatedInterval(count) <= EscalatedInterval(count + 1) <= ESCALATION_MAXIMUM
  {
    JournalRuns.RetryDelayBounds(attempt, config);
    var e := if count - 1 <= 16 then count - 1 else 16;
    var e' := if count <= 16 then count else 16;
    PowerOfTwoGrows(1, e);
    PowerOfTwoGrows(e, e');
  }

  /** Five minutes, then ten, twenty and forty, and an hour from the fifth failure on. */
  lemma EscalatedIntervalIsExact(count: int)
    ensures EscalatedInterval(count) == if count <= 1 then 300.0 else if count >= 5 then 3600.0
                                        else [600.0, 1200.0, 2400.0][count - 2]
  {
    assert PowerOfTwo(1) == 2.0 && PowerOfTwo(2) == 4.0 && PowerOfTwo(3) == 8.0;
    if count >= 5 {
      var exponent := if count - 1 <= 16 then count - 1 else 16;
      PowerOfTwoGrows(4, exponent);
      assert PowerOfTwo(4) == 16.0;
    }
  }

  /** An automatic retry is held back exactly while the same activation has failed alike at least twice and the escalated
      interval since the last failure is not over. */
  lemma EscalationPermitsExactlyWhen(e: Escalation, wanted: Uuid, at: Date)
    ensures e.PermitsAutomaticRetry(wanted, at) <==>
              || e.generation != Some(wanted) || e.count < 2 || e.lastFailureAt.None?
              || at - e.lastFailureAt.value >= EscalatedInterval(e.count)
  {
    hide EscalatedInterval;
  }

  // ----- Runs of failures that follow the durable schedule ---------------------------------------------

  /** What the end of an attempt does to the escalation: a restart-required outcome is recorded, an outcome that needs no
      restart resets it, and an attempt that ended before that leaves it alone. */
  datatype Mark = Recorded(signature: string, at: Date) | Cleared | Unmarked

  /** An attempt that needs the durable schedule: when the retry target was read, and the failure it recorded. The
      escalation may be reset before it (a relaunch, or a request that is not automatic, such as the pool authority's
      own) and while it is under way (such a request that is then refused). */
  datatype Attempt = Attempt(resetBefore: bool, startedAt: Date, op: Operation, env: Environment, resetDuring: bool,
                             mark: Mark)

  predicate IsFailureOf(op: Operation, account: Uuid) {
    (op.RecordConvergenceFailure? || op.RecordRevalidationFailure?) && op.target == account
  }

  /** The durable schedule let the attempt start, and its failure reached the journal. */
  predicate Attempted(config: Config, a: Attempt, s: State) {
    && s.AutomaticRetryTarget(a.startedAt).Some?
    && a.startedAt <= a.env.at
    && IsFailureOf(a.op, s.AutomaticRetryTarget(a.startedAt).value)
    && Apply(config, a.op, a.env, Some(s)).1.Done?
  }

  /** A run of consecutive failures on the durable schedule, with no operator reset or demotion in between. */
  predicate IsFailureRun(config: Config, start: State, run: seq<Attempt>)
    decreases |run|
  {
    if run == [] then start.phase.CommittedDegraded? && start.retryAttempt == 0
    else
      var init := run[..|run| - 1];
      IsFailureRun(config, start, init) && AfterFailures(config, start, init).Some? &&
      Attempted(config, run[|run| - 1], AfterFailures(config, start, init).value)
  }

  function AfterFailures(config: Config, start: State, run: seq<Attempt>): Option<State> {
    if run == [] then Some(start)
    else
      var last := run[|run| - 1];
      Apply(config, last.op, last.env, AfterFailures(config, start, run[..|run| - 1])).0
  }

  /** The least time between the first and the k-th failure that the journal alone imposes. */
  function LeastSpan(config: Config, k: nat): real {
    if k <= 1 then 0.0 else LeastSpan(config, k - 1) + RetryDelay(k - 1, config)
  }

  /** One recorded failure: the identity stays, the attempt advances, and the next one is a full delay away. */
  lemma FailureStep(config: Config, op: Operation, env: Environment, s: State, account: Uuid)
    requires IsFailureOf(op, account) && Apply(config, op, env, Some(s)).1.Done?
    ensures s.phase.CommittedDegraded? && s.configured == Some(account) && Apply(config, op, env, Some(s)).0.Some?
    ensures var t := Apply(config, op, env, Some(s)).0.value;
            && t.phase.CommittedDegraded? && t.generation == s.generation && t.configured == s.configured
            && t.retryAttempt == (if s.retryAttempt < MAXIMUM_RETRY_ATTEMPT then s.retryAttempt + 1
                                  else MAXIMUM_RETRY_ATTEMPT)
            && t.nextRetryAt == Some(env.at + RetryDelay(t.retryAttempt, config))
  {
  }

  lemma DelayIsCapped(attempt: nat, config: Config)
    ensures RetryDelay(CappedAttempt(attempt), config) == RetryDelay(attempt, config)
  {
  }

  function CappedAttempt(attempt: nat): nat {
    if attempt <= MAXIMUM_RETRY_ATTEMPT then attempt else MAXIMUM_RETRY_ATTEMPT
  }

  /** The journal after k failures of an activation: they are counted, and the next one is a full delay away. */
  predicate Counts(config: Config, start: State, s: State, k: nat, lastFailureAt: Date) {
    && s.phase.CommittedDegraded? && s.generation == start.generation && s.configured == start.configured
    && s.retryAttempt == CappedAttempt(k)
    && s.nextRetryAt == Some(lastFailureAt + RetryDelay(CappedAttempt(k), config))
  }

  lemma {:induction false} JournalCountsFailures(config: Config, start: State, run: seq<Attempt>)
    requires run != [] && IsFailureRun(config, start, run)
    ensures AfterFailures(config, start, run).Some?
    ensures Counts(config, start, AfterFailures(config, start, run).value, |run|, run[|run| - 1].env.at)
    decreases |run|
  {
    var init, last := run[..|run| - 1], run[|run| - 1];
    var s := AfterFailures(config, start, init).value;
    if init != [] {
      JournalCountsFailures(config, start, init);
    }
    FailureStep(config, last.op, last.env, s, s.AutomaticRetryTarget(last.startedAt).value);
  }

  /** Retry spacing: the k-th failure on the durable schedule is at least the sum of the first k-1 delays after the first one. */
  lemma {:induction false} FailuresAreSpaced(config: Config, start: State, run: seq<Attempt>)
    requires run != [] && IsFailureRun(config, start, run)
    ensures run[|run| - 1].env.at - run[0].env.at >= LeastSpan(config, |run|)
    decreases |run|
  {
    var init := run[..|run| - 1];
    if init != [] {
      FailuresAreSpaced(config, start, init);
      JournalCountsFailures(config, start, init);
      DelayIsCapped(|init|, config);
      assert init[0] == run[0] && init[|init| - 1] == run[|run| - 2];
    }
  }

  lemma {:induction false} DefaultSpan(k: nat)
    requires k >= 1
    ensures LeastSpan(DEFAULT_CONFIG, k) >= 300.0 * (k as real - 4.0)
    ensures k >= 6 ==> LeastSpan(DEFAULT_CONFIG, k) == 300.0 * k as real - 1050.0
  {
    if k > 1 {
      DefaultSpan(k - 1);
      DefaultDelay(k - 1);
      if k == 6 {
        DefaultDelay(1);
        DefaultDelay(2);
        DefaultDelay(3);
        DefaultDelay(4);
        assert LeastSpan(DEFAULT_CONFIG, 3) == 90.0;
        assert LeastSpan(DEFAULT_CONFIG, 5) == 450.0;
      }
    }
  }

  lemma DefaultDelay(i: nat)
    requires i >= 1
    ensures i <= 4 ==> RetryDelay(i, DEFAULT_CONFIG) == [30.0, 60.0, 120.0, 240.0][i - 1]
    ensures i >= 5 ==> RetryDelay(i, DEFAULT_CONFIG) == 300.0
  {
    if i >= 5 {
      var bounded := if i > 20 then 20 else i;
      PowerOfTwoGrows(4, bounded - 1);
      assert PowerOfTwo(4) == 16.0 by {
        assert PowerOfTwo(2) == 4.0;
      }
    } else {
      assert PowerOfTwo(1) == 2.0;
      assert PowerOfTwo(3) == 8.0;
    }
  }

  /** With the default 30 s and 300 s there are at most 4 + T / 300 failures in T seconds. */
  lemma DefaultFailureRate(start: State, run: seq<Attempt>)
    requires run != [] && IsFailureRun(DEFAULT_CONFIG, start, run)
    ensures |run| as real <= 4.0 + (run[|run| - 1].env.at - run[0].env.at) / 300.0
  {
    FailuresAreSpaced(DEFAULT_CONFIG, start, run);
    DefaultSpan(|run|);
  }

  // ----- The bound is met -------------------------------------------------------------------------------

  /** Retries at the first moment the journal allows, where no local runtime is found and the escalation is reset. */
  function NextTightAttempt(account: Uuid, at: Date): Attempt {
    Attempt(false, at, RecordConvergenceFailure(account, 0, 0, NoLocalRuntime, {}),
            Environment(at, true, _ => true, Written), false, Cleared)
  }

  ghost function TightRun(config: Config, account: Uuid, first: Date, k: nat): seq<Attempt> {
    if k == 0 then []
    else TightRun(config, account, first, k - 1) + [NextTightAttempt(account, first + LeastSpan(config, k))]
  }

  lemma {:induction false} TightRunPasses(config: Config, generation: Uuid, e: Escalation, account: Uuid, first: Date,
                                          k: nat)
    requires e.PermitsAutomaticRetry(generation, first)
    ensures var run := TightRun(config, account, first, k);
            && PassesEscalation(generation, e, run)
            && EscalationAfter(generation, e, run) == if k == 0 then e else NO_FAILURES
  {
    hide Apply, RetryDelay, PowerOfTwo, LeastSpan, EscalatedInterval;
    if k > 0 {
      TightRunPasses(config, generation, e, account, first, k - 1);
      var run := TightRun(config, account, first, k);
      assert run[..|run| - 1] == TightRun(config, account, first, k - 1);
      assert k == 1 ==> LeastSpan(config, k) == 0.0 by {
        FirstIsAtOnce(config);
      }
    }
  }

  lemma FirstIsAtOnce(config: Config)
    ensures LeastSpan(config, 1) == 0.0
  {
  }

  lemma {:induction false} TightRunIsOnCadence(config: Config, account: Uuid, first: Date, k: nat)
    ensures var run := TightRun(config, account, first, k);
            |run| == k && forall i | 0 <= i < k :: run[i] == NextTightAttempt(account, first + LeastSpan(config, i + 1))
  {
    hide LeastSpan, NextTightAttempt;
    if k > 0 {
      TightRunIsOnCadence(config, account, first, k - 1);
    }
  }

  lemma {:induction false} TightRunFails(config: Config, start: State, account: Uuid, first: Date, k: nat)
    requires start.Valid() && start.phase.CommittedDegraded? && start.retryAttempt == 0
    requires start.configured == Some(account) && start.nextRetryAt == Some(first)
    ensures var run := TightRun(config, account, first, k);
            && IsFailureRun(config, start, run)
            && AfterFailures(config, start, run).Some? && AfterFailures(config, start, run).value.Valid()
  {
    hide Apply, RetryDelay, PowerOfTwo, IsFailureRun, AfterFailures, State.Valid;
    NoFailuresYet(config, start);
    if k > 0 {
      TightRunFails(config, start, account, first, k - 1);
      TightRunIsOnCadence(config, account, first, k - 1);
      var init := TightRun(config, account, first, k - 1);
      if k > 1 {
        JournalCountsFailures(config, start, init);
        DelayIsCapped(k - 1, config);
      } else {
        FirstIsAtOnce(config);
      }
      TightStep(config, start, account, init, NextTightAttempt(account, first + LeastSpan(config, k)));
    }
  }

  lemma NoFailuresYet(config: Config, start: State)
    requires start.phase.CommittedDegraded? && start.retryAttempt == 0
    ensures IsFailureRun(config, start, []) && AfterFailures(config, start, []) == Some(start)
  {
  }

  lemma TightStep(config: Config, start: State, account: Uuid, init: seq<Attempt>, last: Attempt)
    requires start.phase.CommittedDegraded? && start.retryAttempt == 0 && start.configured == Some(account)
    requires IsFailureRun(config, start, init) && AfterFailures(config, start, init).Some?
    requires AfterFailures(config, start, init).value.Valid()
    requires var s := AfterFailures(config, start, init).value;
             s.phase.CommittedDegraded? && s.configured == Some(account) && s.nextRetryAt == Some(last.startedAt)
    requires last == NextTightAttempt(account, last.startedAt)
    ensures IsFailureRun(config, start, init + [last])
    ensures AfterFailures(config, start, init + [last]).Some?
    ensures AfterFailures(config, start, init + [last]).value.Valid()
  {
    hide Apply, RetryDelay;
    var run := init + [last];
    assert run[..|run| - 1] == init;
    TightFailure(config, AfterFailures(config, start, init).value, last);
  }

  /** The journal's spacing is exact: whatever the escalation held at first, failures without a local runtime pass both
      gates and come at precisely the journal's own cadence. */
  lemma JournalCadenceIsReached(config: Config, start: State, e: Escalation, account: Uuid, first: Date, k: nat)
    requires start.Valid() && start.phase.CommittedDegraded? && start.retryAttempt == 0
    requires start.configured == Some(account) && start.nextRetryAt == Some(first)
    requires e.PermitsAutomaticRetry(start.generation, first)
    ensures var run := TightRun(config, account, first, k);
            && |run| == k && IsFailureRun(config, start, run) && PassesEscalation(start.generation, e, run)
            && (k > 0 ==> run[0].env.at == first && run[k - 1].env.at - run[0].env.at == LeastSpan(config, k))
  {
    hide Apply, RetryDelay, IsFailureRun, PassesEscalation, TightRun;
    TightRunFails(config, start, account, first, k);
    TightRunPasses(config, start.generation, e, account, first, k);
    TightRunIsOnCadence(config, account, first, k);
    FirstIsAtOnce(config);
  }

  lemma TightFailure(config: Config, s: State, a: Attempt)
    requires s.Valid() && s.phase.CommittedDegraded? && s.configured.Some?
    requires a == NextTightAttempt(s.configured.value, a.env.at)
    ensures Apply(config, a.op, a.env, Some(s)).1.Done?
    ensures Apply(config, a.op, a.env, Some(s)).0.Some? && Apply(config, a.op, a.env, Some(s)).0.value.Valid()
  {
    JournalRuns.RetryDelayBounds(s.retryAttempt + 1, config);
    JournalRuns.RetryDelayBounds(MAXIMUM_RETRY_ATTEMPT, config);
  }

  // ----- Runs that also pass the escalation ----------------------------------------------------------------

  /** The escalation that an attempt meets at its start, and the one its outcome is recorded in. */
  function Entering(e: Escalation, a: Attempt): Escalation {
    if a.resetBefore then NO_FAILURES else e
  }

  function Closing(e: Escalation, a: Attempt): Escalation {
    if a.resetDuring then NO_FAILURES else Entering(e, a)
  }

  function AfterAttempt(generation: Uuid, e: Escalation, a: Attempt): Escalation {
    match a.mark
    case Recorded(signature, at) => Closing(e, a).Record(generation, signature, at)
    case Cleared => NO_FAILURES
    case Unmarked => Closing(e, a)
  }

  function EscalationAfter(generation: Uuid, e: Escalation, run: seq<Attempt>): Escalation {
    if run == [] then e
    else AfterAttempt(generation, EscalationAfter(generation, e, run[..|run| - 1]), run[|run| - 1])
  }

  /** The second gate lets every attempt start, and outcomes are recorded no earlier than their failures. */
  predicate PassesEscalation(generation: Uuid, e: Escalation, run: seq<Attempt>) {
    if run == [] then true
    else
      var init, last := run[..|run| - 1], run[|run| - 1];
      && PassesEscalation(generation, e, init)
      && Entering(EscalationAfter(generation, e, init), last).PermitsAutomaticRetry(generation, last.startedAt)
      && (last.mark.Recorded? ==> last.env.at <= last.mark.at)
  }

  /** Within this stretch every outcome that was recorded has one signature, and nothing reset the escalation once the
      first attempt was under way. */
  predicate Undisturbed(run: seq<Attempt>, signature: string) {
    forall i | 0 <= i < |run| ::
      && !run[i].mark.Cleared? && (run[i].mark.Recorded? ==> run[i].mark.signature == signature)
      && (i > 0 ==> !run[i].resetBefore && !run[i].resetDuring)
  }

  function Recordings(run: seq<Attempt>): nat {
    if run == [] then 0
    else Recordings(run[..|run| - 1]) + (if run[|run| - 1].mark.Recorded? then 1 else 0)
  }

  function LastRecording(run: seq<Attempt>): (at: Date)
    requires Recordings(run) > 0
  {
    if run[|run| - 1].mark.Recorded? then run[|run| - 1].mark.at else LastRecording(run[..|run| - 1])
  }

  /** How many recordings of this failure the escalation held already. */
  function Prior(e: Escalation, generation: Uuid, signature: string): nat {
    if e.generation == Some(generation) && e.signature == Some(signature) then e.count else 0
  }

  function CappedCount(n: nat): nat {
    if n <= 64 then n else 64
  }

  /** Over a stretch in which one failure repeats, the escalation counts its recordings, up to 64. */
  lemma {:induction false} EscalationCountsRepeats(generation: Uuid, e: Escalation, run: seq<Attempt>, signature: string)
    requires run != [] && Undisturbed(run, signature)
    ensures EscalationAfter(generation, e, run)
            == if Recordings(run) == 0 then Closing(e, run[0])
               else Escalation(Some(generation), Some(signature),
                               CappedCount(Prior(Closing(e, run[0]), generation, signature) + Recordings(run)),
                               Some(LastRecording(run)))
    decreases |run|
  {
    var init := run[..|run| - 1];
    if init != [] {
      assert Undisturbed(init, signature);
      EscalationCountsRepeats(generation, e, init, signature);
    }
  }

  lemma {:induction false} EscalationOfParts(generation: Uuid, e: Escalation, left: seq<Attempt>, right: seq<Attempt>)
    ensures EscalationAfter(generation, e, left + right)
            == EscalationAfter(generation, EscalationAfter(generation, e, left), right)
    decreases |right|
  {
    if right == [] {
      assert left + right == left;
    } else {
      var init := right[..|right| - 1];
      EscalationOfParts(generation, e, left, init);
      assert (left + right)[..|left + right| - 1] == left + init;
    }
  }

  lemma IntervalIsMonotone(m: nat, n: nat)
    requires m <= n
    ensures EscalatedInterval(CappedCount(m)) <= EscalatedInterval(CappedCount(n))
    ensures EscalatedInterval(CappedCount(m)) == EscalatedInterval(m)
  {
    var x := if m < 1 then 0 else if m - 1 <= 16 then m - 1 else 16;
    var y := if n < 1 then 0 else if n - 1 <= 16 then n - 1 else 16;
    PowerOfTwoGrows(x, y);
  }

  /** When one failure was recorded n times, n at least two, since the escalation was last reset or met another failure,
      the next attempt that is not preceded by a reset fails a whole escalated interval after the last recording. */
  lemma RepeatedFailuresAreEscalated(config: Config, start: State, e: Escalation, before: seq<Attempt>,
                                     repeats: seq<Attempt>, next: Attempt, signature: string)
    requires IsFailureRun(config, start, before + repeats + [next])
    requires PassesEscalation(start.generation, e, before + repeats + [next])
    requires Undisturbed(repeats, signature) && Recordings(repeats) >= 2 && !next.resetBefore
    ensures next.env.at - LastRecording(repeats) >= EscalatedInterval(Recordings(repeats)) >= 600.0
    ensures var last := repeats[|repeats| - 1];
            last.mark.Recorded? ==> next.env.at - last.env.at >= EscalatedInterval(Recordings(repeats))
  {
    var generation, run := start.generation, before + repeats + [next];
    var init := before + repeats;
    assert run[..|run| - 1] == init;
    var carried := EscalationAfter(generation, e, before);
    EscalationOfParts(generation, e, before, repeats);
    EscalationCountsRepeats(generation, carried, repeats, signature);
    IntervalIsMonotone(Recordings(repeats), Prior(Closing(carried, repeats[0]), generation, signature) + Recordings(repeats));
    IntervalIsMonotone(2, Recordings(repeats));
    assert PowerOfTwo(1) == 2.0;
    assert init[|init| - 1] == repeats[|repeats| - 1] && init != [];
    assert PassesEscalation(generation, e, init);
  }
}
