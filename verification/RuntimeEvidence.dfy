/** Short-lived runtime evidence: how it is evaluated, which effects it authorizes, and how it is refreshed. */
module RuntimeEvidence {
  import opened Prelude
  import opened ActivationState
  import ActivationJournal

  const MAXIMUM_FUTURE_SKEW: real := 30.0
  const REFRESH_LIFETIME: real := 30.0
  const REFRESH_WINDOW: real := 5.0

  /** A runtime binding; `authority` stands for every field that runtime authority compares besides the process. */
  datatype Binding = Binding(pid: int, kind: int, nonce: int, authority: int)

  predicate SameAuthority(a: Binding, b: Binding) {
    a.pid == b.pid && a.authority == b.authority
  }

  /** One discovered runtime with its startup acknowledgement. */
  datatype Runtime = Runtime(authIdentity: int, acknowledgementSupports: bool, binding: Binding, acknowledgedAt: Date)

  datatype Snapshot = Snapshot(complete: bool, runtimes: seq<Runtime>)

  datatype SnapshotSet = SnapshotSet(cli: Snapshot, desktop: Snapshot, observedAt: Date) {
    function Runtimes(): seq<Runtime> {
      cli.runtimes + desktop.runtimes
    }
  }

  datatype Evidence = Evidence(generation: Uuid, runtimeCurrent: Uuid, observedAt: Date, expiresAt: Date,
                               discovered: int, acknowledged: int, bindings: seq<Binding>)
  {
    /** The part of the evidence that the journal records. */
    function Recorded(): ActivationJournal.Evidence {
      ActivationJournal.Evidence(generation, observedAt, expiresAt, discovered, acknowledged)
    }

    predicate HasConcreteBindings() {
      && discovered > 0 && acknowledged == discovered && |bindings| == discovered
      && forall i, j :: 0 <= i < j < |bindings| ==> bindings[i].pid != bindings[j].pid
    }

    predicate HasSameTopology(current: Evidence) {
      && HasConcreteBindings() && current.HasConcreteBindings()
      && runtimeCurrent == current.runtimeCurrent
      && |bindings| == |current.bindings|
      && var expected, observed := Sorted(bindings), Sorted(current.bindings);
         forall i :: 0 <= i < |expected| ==> SameAuthority(expected[i], observed[i])
    }
  }

  datatype EvidenceDecision =
    | Supported(evidence: Evidence)
    | Denied(detail: Detail, discovered: int, acknowledged: int)

  predicate SupportsEvidence(r: Runtime, expectedAuth: int, isCurrent: Binding -> bool) {
    r.authIdentity == expectedAuth && r.acknowledgementSupports && isCurrent(r.binding)
  }

  function Evaluate(snapshots: SnapshotSet, expectedAccount: Uuid, expectedAuth: int, lifetime: real,
                    generation: Uuid, isCurrent: Binding -> bool): EvidenceDecision {
    var runtimes := snapshots.Runtimes();
    var observedAt := snapshots.observedAt;
    if !snapshots.cli.complete || !snapshots.desktop.complete then
      Denied(RuntimeAcknowledgementIncomplete, |runtimes|, 0)
    else if |runtimes| == 0 then
      Denied(NoLocalRuntime, 0, 0)
    else if exists r <- runtimes :: !SupportsEvidence(r, expectedAuth, isCurrent) then
      Denied(RuntimeAcknowledgementIncomplete, |runtimes|, 0)
    else if exists r <- runtimes :: r.acknowledgedAt > observedAt + MAXIMUM_FUTURE_SKEW then
      Denied(RuntimeAcknowledgementIncomplete, |runtimes|, 0)
    else
      Supported(Evidence(generation, expectedAccount, observedAt, observedAt + Max(1.0, Min(lifetime, 30.0)),
                         |runtimes|, |runtimes|, seq(|runtimes|, i requires 0 <= i < |runtimes| => runtimes[i].binding)))
  }

  /** Evidence is supported exactly if both searches completed, found some runtime, and every runtime found holds the
      expected credentials, acknowledged them in a way that counts, is current, and did so no later than half a minute
      after the observation; it then covers each of them, and lives for the given time, between one and thirty seconds. */
  lemma EvidenceIsExact(snapshots: SnapshotSet, expectedAccount: Uuid, expectedAuth: int, lifetime: real,
                        generation: Uuid, isCurrent: Binding -> bool)
    ensures var decision := Evaluate(snapshots, expectedAccount, expectedAuth, lifetime, generation, isCurrent);
            var found := snapshots.cli.runtimes + snapshots.desktop.runtimes;
            var complete := snapshots.cli.complete && snapshots.desktop.complete;
            && (decision.Supported? <==>
                  && complete && found != []
                  && forall r <- found :: && r.authIdentity == expectedAuth && r.acknowledgementSupports
                                          && isCurrent(r.binding) && r.acknowledgedAt <= snapshots.observedAt + 30.0)
            && (decision.Supported? ==>
                  var e := decision.evidence;
                  && e.generation == generation && e.runtimeCurrent == expectedAccount
                  && e.discovered == e.acknowledged == |e.bindings| == |found|
                  && (forall i | 0 <= i < |found| :: e.bindings[i] == found[i].binding)
                  && e.observedAt == snapshots.observedAt
                  && e.expiresAt - e.observedAt == (if lifetime < 1.0 then 1.0 else if lifetime > 30.0 then 30.0 else lifetime))
            && (decision.Denied? ==>
                  && decision.discovered == |found| && decision.acknowledged == 0
                  && decision.detail == if complete && found == [] then NoLocalRuntime else RuntimeAcknowledgementIncomplete)
  {
  }

  // ----- Topology: order of discovery does not matter ------------------------------------------------

  predicate Before(a: Binding, b: Binding) {
    if a.pid != b.pid then a.pid < b.pid
    else if a.kind != b.kind then a.kind < b.kind
    else a.nonce < b.nonce
  }

  function Insert(b: Binding, sorted: seq<Binding>): (r: seq<Binding>)
    ensures |r| == |sorted| + 1
  {
    if sorted == [] || Before(b, sorted[0]) then [b] + sorted else [sorted[0]] + Insert(b, sorted[1..])
  }

  function Sorted(bindings: seq<Binding>): (r: seq<Binding>)
    ensures |r| == |bindings|
  {
    if bindings == [] then [] else Insert(bindings[0], Sorted(bindings[1..]))
  }

  predicate DistinctPids(bindings: seq<Binding>) {
    forall i, j :: 0 <= i < j < |bindings| ==> bindings[i].pid != bindings[j].pid
  }

  predicate AscendingPids(bindings: seq<Binding>) {
    forall i, j :: 0 <= i < j < |bindings| ==> bindings[i].pid < bindings[j].pid
  }

  lemma {:induction false} InsertKeepsOrder(b: Binding, sorted: seq<Binding>)
    requires AscendingPids(sorted) && forall c <- sorted :: c.pid != b.pid
    ensures AscendingPids(Insert(b, sorted))
    ensures forall c :: c in Insert(b, sorted) <==> c == b || c in sorted
  {
    if sorted != [] && !Before(b, sorted[0]) {
      var rest := Insert(b, sorted[1..]);
      assert sorted == [sorted[0]] + sorted[1..];
      InsertKeepsOrder(b, sorted[1..]);
      forall j | 0 <= j < |rest|
        ensures sorted[0].pid < rest[j].pid
      {
        assert rest[j] in rest;
      }
    }
  }

  lemma {:induction false} SortedIsAscending(bindings: seq<Binding>)
    requires DistinctPids(bindings)
    ensures AscendingPids(Sorted(bindings))
    ensures forall c :: c in Sorted(bindings) <==> c in bindings
  {
    if bindings != [] {
      SortedIsAscending(bindings[1..]);
      InsertKeepsOrder(bindings[0], Sorted(bindings[1..]));
      assert bindings == [bindings[0]] + bindings[1..];
    }
  }

  predicate Covers(a: seq<Binding>, b: seq<Binding>) {
    forall x <- a :: exists y <- b :: SameAuthority(x, y)
  }

  /** The counterpart of an entry, in an ascending list that agrees on all earlier processes, is not earlier. */
  lemma CounterpartIsNotEarlier(a: seq<Binding>, b: seq<Binding>, i: nat) returns (j: nat)
    requires AscendingPids(a) && i < |a| == |b| && Covers(a, b)
    requires forall k :: 0 <= k < i ==> a[k].pid == b[k].pid
    ensures i <= j < |b| && SameAuthority(a[i], b[j])
  {
    assert a[i] in a;
    var y :| y in b && SameAuthority(a[i], y);
    j :| 0 <= j < |b| && b[j] == y;
  }

  /** Two ascending lists of the same length in which every entry has a counterpart agree entry by entry. */
  lemma {:induction false} AscendingListsAgree(a: seq<Binding>, b: seq<Binding>, n: nat)
    requires AscendingPids(a) && AscendingPids(b) && |a| == |b| && Covers(a, b) && Covers(b, a)
    requires n <= |a|
    ensures forall i :: 0 <= i < n ==> SameAuthority(a[i], b[i])
  {
    if n > 0 {
      AscendingListsAgree(a, b, n - 1);
      var j := CounterpartIsNotEarlier(a, b, n - 1);
      var k := CounterpartIsNotEarlier(b, a, n - 1);
    }
  }

  /** Topology comparison is a comparison of sets: the order in which runtimes were listed never matters. */
  lemma TopologyIsSetEquality(e: Evidence, f: Evidence)
    requires IsConcrete(e) && IsConcrete(f) && e.runtimeCurrent == f.runtimeCurrent
    ensures e.HasSameTopology(f) <==>
              && |e.bindings| == |f.bindings|
              && (forall x <- e.bindings :: exists y <- f.bindings :: x.pid == y.pid && x.authority == y.authority)
              && (forall x <- f.bindings :: exists y <- e.bindings :: x.pid == y.pid && x.authority == y.authority)
  {
    TopologyIsCoverage(e, f);
  }

  /** The evidence covers some runtimes, all of them acknowledged, each bound once. */
  predicate IsConcrete(e: Evidence) {
    && e.acknowledged == e.discovered == |e.bindings| > 0
    && forall i, j :: 0 <= i < j < |e.bindings| ==> e.bindings[i].pid != e.bindings[j].pid
  }

  /** Evidence that is not concrete, or for another account, has no topology in common with anything. */
  lemma OnlyConcreteEvidenceCompares(e: Evidence, f: Evidence)
    ensures e.HasSameTopology(f) ==> IsConcrete(e) && IsConcrete(f) && e.runtimeCurrent == f.runtimeCurrent
  {
    hide Sorted;
  }

  lemma TopologyIsCoverage(e: Evidence, f: Evidence)
    requires e.HasConcreteBindings() && f.HasConcreteBindings() && e.runtimeCurrent == f.runtimeCurrent
    ensures e.HasSameTopology(f) <==>
            |e.bindings| == |f.bindings| && Covers(e.bindings, f.bindings) && Covers(f.bindings, e.bindings)
  {
    var a, b := Sorted(e.bindings), Sorted(f.bindings);
    SortedIsAscending(e.bindings);
    SortedIsAscending(f.bindings);
    if |a| == |b| && Covers(a, b) && Covers(b, a) {
      AscendingListsAgree(a, b, |a|);
    } else if e.HasSameTopology(f) {
      assert Covers(a, b);
      assert forall i :: 0 <= i < |b| ==> SameAuthority(b[i], a[i]) && a[i] in a;
      assert false;
    }
  }

  // ----- Permits and the automatic-policy gate --------------------------------------------------------

  datatype RuntimePermit = RuntimePermit(target: Uuid, generation: Uuid, requiredPhase: Phase, evidence: Evidence) {
    predicate Authorizes(state: Option<State>, at: Date) {
      && state.Some?
      && state.value.phase == requiredPhase
      && state.value.configured == Some(target)
      && state.value.generation == generation
      && evidence.observedAt <= at < evidence.expiresAt
      && evidence.discovered > 0 && evidence.acknowledged == evidence.discovered
      && (requiredPhase == Phase.Confirmed ==>
            state.value.AuthorizesAutomaticMutations(at, Some(evidence.generation)))
    }
  }

  datatype Trigger = Routine | UsageUnavailable(account: Uuid) | TokenInvalidated(account: Uuid) {
    function RequestedAccount(): Option<Uuid> {
      if Routine? then None else Some(account)
    }
  }

  predicate GateAuthorizes(trigger: Trigger, configured: Option<Uuid>, state: Option<State>,
                           permit: Option<RuntimePermit>, at: Date) {
    && configured.Some? && permit.Some?
    && permit.value.target == configured.value
    && permit.value.evidence.runtimeCurrent == configured.value
    && permit.value.requiredPhase == Phase.Confirmed
    && permit.value.Authorizes(state, at)
    && (trigger.RequestedAccount().Some? ==> trigger.RequestedAccount() == configured)
  }

  /** Whatever the gate authorizes rests on evidence less than 30 s old that covers every runtime there was, each bound
      to the expected credentials, and that the journal itself recorded for the configured account. */
  lemma GateRestsOnFreshEvidence(trigger: Trigger, configured: Option<Uuid>, state: Option<State>, permit: RuntimePermit,
                                 at: Date, snapshots: SnapshotSet, expectedAccount: Uuid, expectedAuth: int,
                                 lifetime: real, generation: Uuid, isCurrent: Binding -> bool)
    requires GateAuthorizes(trigger, configured, state, Some(permit), at)
    requires Evaluate(snapshots, expectedAccount, expectedAuth, lifetime, generation, isCurrent)
             == Supported(permit.evidence)
    ensures 0.0 <= at - snapshots.observedAt < 30.0
    ensures |snapshots.Runtimes()| > 0 && snapshots.cli.complete && snapshots.desktop.complete
    ensures forall r <- snapshots.Runtimes() ::
              r.authIdentity == expectedAuth && r.acknowledgementSupports && isCurrent(r.binding)
              && r.acknowledgedAt <= snapshots.observedAt + MAXIMUM_FUTURE_SKEW
    ensures state.Some? && state.value.phase.Confirmed? && state.value.evidenceGeneration == Some(generation)
    ensures state.value.configured == configured == Some(expectedAccount)
    ensures state.value.evidenceObservedAt.Some? && state.value.evidenceExpiresAt.Some?
            && state.value.evidenceObservedAt.value <= at < state.value.evidenceExpiresAt.value
  {
  }

  /** A runtime permit authorizes in the phase and for the activation it names, while its evidence is current and
      complete and, once the activation is confirmed, the one that the journal records. */
  lemma RuntimePermitIsExact(p: RuntimePermit, state: Option<State>, at: Date)
    ensures p.Authorizes(state, at) <==>
              && state.Some?
              && var s := state.value;
                 && s.phase == p.requiredPhase && s.configured == Some(p.target) && s.generation == p.generation
                 && p.evidence.observedAt <= at < p.evidence.expiresAt
                 && p.evidence.acknowledged == p.evidence.discovered > 0
                 && (s.phase.Confirmed? ==>
                       && s.evidenceGeneration == Some(p.evidence.generation)
                       && s.evidenceObservedAt.Some? && s.evidenceExpiresAt.Some?
                       && s.evidenceObservedAt.value <= at < s.evidenceExpiresAt.value)
  {
  }

  /** The gate opens exactly for the configured account, with a permit for its confirmed activation whose evidence is
      current, complete and the one that the journal records. */
  lemma GateIsExact(trigger: Trigger, configured: Option<Uuid>, state: Option<State>, permit: Option<RuntimePermit>,
                    at: Date)
    ensures GateAuthorizes(trigger, configured, state, permit, at) <==>
              && configured.Some? && state.Some? && permit.Some?
              && (trigger.Routine? || trigger.account == configured.value)
              && var p, s := permit.value, state.value;
                 && p.target == p.evidence.runtimeCurrent == configured.value && s.configured == configured
                 && p.requiredPhase.Confirmed? && s.phase.Confirmed? && s.generation == p.generation
                 && p.evidence.observedAt <= at < p.evidence.expiresAt
                 && p.evidence.acknowledged == p.evidence.discovered > 0
                 && s.evidenceGeneration == Some(p.evidence.generation)
                 && s.evidenceObservedAt.Some? && s.evidenceExpiresAt.Some?
                 && s.evidenceObservedAt.value <= at < s.evidenceExpiresAt.value
  {
  }

  // ----- Scheduled confirmation refresh ----------------------------------------------------------------

  datatype Refresh = Refresh(id: Uuid, account: Uuid, expectedState: State) {
    predicate Matches(state: Option<State>) {
      state == Some(expectedState)
    }

    function EvidenceFrom(snapshots: SnapshotSet, auth: int, generation: Uuid, isCurrent: Binding -> bool)
      : Option<Evidence>
    {
      if expectedState.evidenceObservedAt.Some? && snapshots.observedAt <= expectedState.evidenceObservedAt.value
      then None
      else match Evaluate(snapshots, account, auth, REFRESH_LIFETIME, generation, isCurrent)
        case Supported(evidence) => if evidence.HasConcreteBindings() then Some(evidence) else None
        case Denied(_, _, _) => None
    }

    predicate AuthorizesPersistence(evidence: Evidence, state: Option<State>, snapshots: SnapshotSet, auth: int,
                                    generation: Uuid, now: Date, isCurrent: Binding -> bool) {
      && Matches(state)
      && evidence.runtimeCurrent == account
      && evidence.observedAt <= now < evidence.expiresAt
      && evidence.observedAt <= snapshots.observedAt <= now
      && var current := EvidenceFrom(snapshots, auth, generation, isCurrent);
         current.Some? && evidence.HasSameTopology(current.value)
    }
  }

  function MakeRefresh(state: Option<State>, configured: Option<Uuid>, now: Date, id: Uuid): Option<Refresh> {
    if state.Some? && configured.Some?
       && state.value.phase.Confirmed?
       && state.value.configured == configured && state.value.runtimeCurrent == configured
       && state.value.evidenceExpiresAt.Some? && state.value.evidenceExpiresAt.value <= now + REFRESH_WINDOW
    then Some(Refresh(id, configured.value, state.value))
    else None
  }

  /** A refresh is due exactly for the configured account, once its confirmed evidence expires within five seconds; it
      remembers the record it was made from. */
  lemma RefreshIsDueExactlyWhen(state: Option<State>, configured: Option<Uuid>, now: Date, id: Uuid)
    ensures var r := MakeRefresh(state, configured, now, id);
            && (r.Some? <==>
                  && state.Some? && configured.Some? && state.value.phase.Confirmed?
                  && state.value.configured == state.value.runtimeCurrent == configured
                  && state.value.evidenceExpiresAt.Some? && state.value.evidenceExpiresAt.value - now <= 5.0)
            && (r.Some? ==> r.value == Refresh(id, configured.value, state.value))
  {
  }

  /** What a refresh may persist: the record is still the one it was made from, the evidence is for its account and not
      over, and a second look at the same runtimes, later than the first and than what is recorded, supports the same
      topology. */
  lemma PersistenceIsAuthorizedExactlyWhen(refresh: Refresh, evidence: Evidence, state: Option<State>,
                                           second: SnapshotSet, auth: int, generation: Uuid, now: Date,
                                           isCurrent: Binding -> bool)
    ensures refresh.AuthorizesPersistence(evidence, state, second, auth, generation, now, isCurrent) <==>
              && state == Some(refresh.expectedState) && evidence.runtimeCurrent == refresh.account
              && evidence.observedAt <= second.observedAt <= now < evidence.expiresAt
              && IsLookedAtAfter(second, refresh.expectedState.evidenceObservedAt)
              && var current := Evaluate(second, refresh.account, auth, 30.0, generation, isCurrent);
                 current.Supported? && IsConcrete(current.evidence) && evidence.HasSameTopology(current.evidence)
  {
    hide Evaluate, Evidence.HasSameTopology;
  }

  /** What a refresh takes from its first look: evidence for its account, unless the look is no later than the recorded
      observation or two runtimes share a process. */
  lemma EvidenceIsTakenExactlyWhen(refresh: Refresh, first: SnapshotSet, auth: int, generation: Uuid,
                                   isCurrent: Binding -> bool)
    ensures var taken := refresh.EvidenceFrom(first, auth, generation, isCurrent);
            var decision := Evaluate(first, refresh.account, auth, 30.0, generation, isCurrent);
            && (taken.Some? <==>
                  && IsLookedAtAfter(first, refresh.expectedState.evidenceObservedAt)
                  && decision.Supported? && IsConcrete(decision.evidence))
            && (taken.Some? ==> taken.value == decision.evidence)
  {
    hide Evaluate;
  }

  predicate IsLookedAtAfter(snapshots: SnapshotSet, recorded: Option<Date>) {
    recorded.None? || recorded.value < snapshots.observedAt
  }

  /** The refresh schedule as a value. */
  datatype Schedule = Schedule(observedState: Option<State>, inFlight: Option<Refresh>, failureCount: nat,
                               retryAfter: Option<Date>)
  {
    function Observe(state: Option<State>): Schedule {
      if observedState == state then this else Schedule(state, inFlight, 0, None)
    }

    function Begin(state: Option<State>, configured: Option<Uuid>, now: Date, id: Uuid): (Schedule, Option<Refresh>) {
      if inFlight.Some? then (this, None)
      else
        var seen := Observe(state);
        var refresh := if seen.retryAfter.Some? && now < seen.retryAfter.value then None
                       else MakeRefresh(state, configured, now, id);
        (seen.(inFlight := refresh), refresh)
    }

    function Complete(refresh: Refresh, succeeded: bool, now: Date): Schedule {
      if inFlight != Some(refresh) then this
      else if succeeded then Schedule(observedState, None, 0, None)
      else
        var failures := if failureCount + 1 <= 2 then failureCount + 1 else 2;
        Schedule(observedState, None, failures, Some(now + 30.0 * ActivationJournal.PowerOfTwo(failures - 1)))
    }
  }

  const UNSCHEDULED := Schedule(None, None, 0, None)

  class ConfirmationRefreshSchedule {
    var observedState: Option<State>
    var inFlight: Option<Refresh>
    var failureCount: nat
    var retryAfter: Option<Date>

    function Value(): Schedule
      reads this
    {
      Schedule(observedState, inFlight, failureCount, retryAfter)
    }

    constructor ()
      ensures Value() == UNSCHEDULED
    {
      observedState, inFlight, failureCount, retryAfter := None, None, 0, None;
    }

    method Begin(state: Option<State>, configured: Option<Uuid>, now: Date, id: Uuid) returns (refresh: Option<Refresh>)
      modifies this
      ensures (Value(), refresh) == old(Value()).Begin(state, configured, now, id)
      ensures old(inFlight).Some? ==> refresh.None? && unchanged(this)
      ensures old(inFlight).None? ==>
                var waits := state == old(observedState) && old(retryAfter).Some? && now < old(retryAfter).value;
                && observedState == state && inFlight == refresh
                && refresh == (if waits then None else MakeRefresh(state, configured, now, id))
                && (failureCount, retryAfter) == (if state == old(observedState) then (old(failureCount), old(retryAfter))
                                                  else (0, None))
    {
      if inFlight.Some? {
        return None;
      }
      if observedState != state {
        failureCount, retryAfter := 0, None;
      }
      observedState := state;
      if retryAfter.Some? && now < retryAfter.value {
        return None;
      }
      refresh := MakeRefresh(state, configured, now, id);
      inFlight := refresh;
    }

    method Complete(refresh: Refresh, succeeded: bool, now: Date)
      modifies this
      ensures Value() == old(Value()).Complete(refresh, succeeded, now)
      ensures old(inFlight) != Some(refresh) ==> unchanged(this)
      ensures old(inFlight) == Some(refresh) ==>
                && inFlight == None && observedState == old(observedState)
                && (succeeded ==> failureCount == 0 && retryAfter == None)
                && (!succeeded ==> retryAfter == Some(now + if old(failureCount) == 0 then 30.0 else 60.0)
                                   && failureCount == if old(failureCount) == 0 then 1 else 2)
    {
      if inFlight != Some(refresh) {
        return;
      }
      inFlight := None;
      if succeeded {
        failureCount, retryAfter := 0, None;
      } else {
        failureCount := if failureCount + 1 <= 2 then failureCount + 1 else 2;
        retryAfter := Some(now + 30.0 * ActivationJournal.PowerOfTwo(failureCount - 1));
        assert ActivationJournal.PowerOfTwo(1) == 2.0;
      }
    }
  }
}

/** Runs of scheduled refreshes against the durable journal. */
module RefreshRuns {
  import opened Prelude
  import opened ActivationState
  import opened RuntimeEvidence
  import AJ = ActivationJournal

  /** What happens in a run: a refresh is requested, the one in flight is persisted, or a completion is reported. */
  datatype Event =
    | Request(configured: Option<Uuid>, now: Date, id: Uuid)
    | Persist(first: SnapshotSet, firstGeneration: Uuid, second: SnapshotSet, secondGeneration: Uuid, auth: int,
              isCurrent: Binding -> bool, leaseAvailable: bool, io: AJ.WriteOutcome, now: Date)
    | Finish(refresh: Refresh, succeeded: bool, now: Date)

  datatype World = World(journal: Option<State>, schedule: Schedule)

  /** The persistence of a refresh: evidence from a first look, re-checked against a second one under the lock. */
  function PersistRefresh(config: AJ.Config, event: Event, refresh: Refresh, journal: Option<State>): Option<State>
    requires event.Persist?
  {
    var evidence := refresh.EvidenceFrom(event.first, event.auth, event.firstGeneration, event.isCurrent);
    if evidence.None? then journal
    else
      var authorize := (state: Option<State>) =>
        refresh.AuthorizesPersistence(evidence.value, state, event.second, event.auth, event.secondGeneration,
                                      event.now, event.isCurrent);
      AJ.Apply(config,
               AJ.RefreshEvidence(refresh.account, refresh.expectedState.generation, evidence.value.Recorded()),
               AJ.Environment(event.now, event.leaseAvailable, authorize, event.io), journal).0
  }

  function Step(config: AJ.Config, w: World, event: Event): World {
    match event
    case Request(configured, now, id) =>
      w.(schedule := w.schedule.Begin(w.journal, configured, now, id).0)
    case Persist(_, _, _, _, _, _, _, _, _) =>
      if w.schedule.inFlight.None? then w
      else w.(journal := PersistRefresh(config, event, w.schedule.inFlight.value, w.journal))
    case Finish(refresh, succeeded, now) =>
      w.(schedule := w.schedule.Complete(refresh, succeeded, now))
  }

  function WorldAt(config: AJ.Config, start: Option<State>, run: seq<Event>, n: nat): World
    requires n <= |run|
  {
    if n == 0 then World(start, UNSCHEDULED) else Step(config, WorldAt(config, start, run, n - 1), run[n - 1])
  }

  predicate IsConfirmed(journal: Option<State>) {
    journal.Some? && journal.value.Valid() && journal.value.phase.Confirmed?
  }

  /** The refresh in flight takes effect: if its evidence is taken and authorized, covers no more runtimes than a record
      may, the lease is free and the write succeeds, the journal records that evidence and nothing else of the activation
      changes; without evidence, authorization or lease it stays. Only its own completion ends the refresh. */
  lemma RefreshTakesEffect(config: AJ.Config, w: World, event: Event)
    requires event.Persist? && IsConfirmed(w.journal) && w.schedule.inFlight.Some?
    requires w.schedule.inFlight.value.expectedState.configured == Some(w.schedule.inFlight.value.account)
    ensures var refresh := w.schedule.inFlight.value;
            var taken := refresh.EvidenceFrom(event.first, event.auth, event.firstGeneration, event.isCurrent);
            var admitted := event.leaseAvailable && taken.Some? &&
                            refresh.AuthorizesPersistence(taken.value, w.journal, event.second, event.auth,
                                                          event.secondGeneration, event.now, event.isCurrent);
            var next := Step(config, w, event);
            && next.schedule == w.schedule
            && (!admitted ==> next.journal == w.journal)
            && (admitted && event.io.Written? && taken.value.discovered <= MAXIMUM_RUNTIME_COUNT ==>
                  && next.journal.Some?
                  && next.journal.value
                     == w.journal.value.(updatedAt := event.now, evidenceGeneration := Some(taken.value.generation),
                                         evidenceObservedAt := Some(taken.value.observedAt),
                                         evidenceExpiresAt := Some(taken.value.expiresAt),
                                         discovered := taken.value.discovered, acknowledged := taken.value.acknowledged,
                                         runtimeBlockers := None))
    ensures var refresh := w.schedule.inFlight.value;
            forall other: Refresh, succeeded: bool, now: Date ::
              var next := Step(config, w, Finish(other, succeeded, now));
              next.journal == w.journal && next.schedule.inFlight == if other == refresh then None else Some(refresh)
  {
  }

  /** A refresh that changes the journal keeps the activation and records a strictly later observation,
      less than 30 s before the write. */
  lemma PersistAdvancesObservation(config: AJ.Config, event: Event, refresh: Refresh, journal: Option<State>)
    requires event.Persist? && IsConfirmed(journal)
    requires PersistRefresh(config, event, refresh, journal) != journal
    ensures var next := PersistRefresh(config, event, refresh, journal);
            && IsConfirmed(next) && refresh.Matches(journal)
            && next.value.configured == journal.value.configured
            && next.value.generation == journal.value.generation
            && next.value.evidenceObservedAt.value > journal.value.evidenceObservedAt.value
            && 0.0 <= event.now - next.value.evidenceObservedAt.value < 30.0
  {
  }

  /** Over a run of refreshes the recorded observation time never goes back, and rises at every change of the journal. */
  lemma {:induction false} ObservationsIncrease(config: AJ.Config, start: Option<State>, run: seq<Event>, i: nat, n: nat)
    requires IsConfirmed(start) && i <= n <= |run|
    ensures var a, b := WorldAt(config, start, run, i).journal, WorldAt(config, start, run, n).journal;
            && IsConfirmed(a) && IsConfirmed(b)
            && b.value.configured == a.value.configured && b.value.generation == a.value.generation
            && (a == b || a.value.evidenceObservedAt.value < b.value.evidenceObservedAt.value)
    decreases n
  {
    if n > 0 {
      ObservationsIncrease(config, start, run, if i < n then i else n - 1, n - 1);
      var w := WorldAt(config, start, run, n - 1);
      if w.schedule.inFlight.Some? && run[n - 1].Persist?
         && PersistRefresh(config, run[n - 1], w.schedule.inFlight.value, w.journal) != w.journal
      {
        PersistAdvancesObservation(config, run[n - 1], w.schedule.inFlight.value, w.journal);
      }
    }
  }

  /** The request at event `b` of the run started `refresh`. */
  predicate Starts(config: AJ.Config, start: Option<State>, run: seq<Event>, b: nat, refresh: Refresh)
    requires b < |run|
  {
    && run[b].Request?
    && var w := WorldAt(config, start, run, b);
       w.schedule.Begin(w.journal, run[b].configured, run[b].now, run[b].id).1 == Some(refresh)
  }

  predicate Finishes(event: Event, refresh: Refresh) {
    event.Finish? && event.refresh == refresh
  }

  /** A started refresh stays in flight until its own completion. */
  lemma {:induction false} InFlightUntilFinished(config: AJ.Config, start: Option<State>, run: seq<Event>,
                                                 b: nat, n: nat, refresh: Refresh)
    requires b < n <= |run| && Starts(config, start, run, b, refresh)
    requires forall m :: b < m < n ==> !Finishes(run[m], refresh)
    ensures WorldAt(config, start, run, n).schedule.inFlight == Some(refresh)
    decreases n
  {
    if b < n - 1 {
      InFlightUntilFinished(config, start, run, b, n - 1, refresh);
    }
  }

  /** At most one refresh is in flight: a second one starts only after the first was completed. */
  lemma RefreshesDoNotOverlap(config: AJ.Config, start: Option<State>, run: seq<Event>, b: nat, c: nat,
                              first: Refresh, second: Refresh)
    requires b < c < |run| && Starts(config, start, run, b, first) && Starts(config, start, run, c, second)
    ensures exists m :: b < m < c && Finishes(run[m], first)
  {
    if forall m :: b < m < c ==> !Finishes(run[m], first) {
      InFlightUntilFinished(config, start, run, b, c, first);
      assert false;
    }
  }
}
