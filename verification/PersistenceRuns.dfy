/** What holds of the account store over every run of calls, whatever the store answers and in whatever order. */
module PersistenceRuns {
  import opened Prelude
  import opened Accounts
  import opened ResetBank
  import opened ResetInventory
  import opened AccountPersistence
  import Quota

  datatype Call = Call(op: Operation, now: Date)

  function After(s: Actor, calls: seq<Call>): Actor {
    if calls == [] then s
    else
      var last := calls[|calls| - 1];
      Perform(After(s, calls[..|calls| - 1]), last.op, last.now).actor
  }

  /** The snapshots handed to the store, in order. */
  function Handed(s: Actor, calls: seq<Call>): seq<Write> {
    if calls == [] then []
    else
      var before, last := calls[..|calls| - 1], calls[|calls| - 1];
      Handed(s, before) + Perform(After(s, before), last.op, last.now).writes
  }

  // ----- Order of revisions --------------------------------------------------------------------------------------

  /** Queued telemetry is never newer than the newest revision seen, and a flush is scheduled exactly while some waits. */
  predicate Consistent(s: Actor) {
    && (s.pending.Some? ==> s.pending.value.revision <= s.latestRevision)
    && (s.flushScheduled <==> s.pending.Some?)
  }

  /** Nothing that can still be written is older than `stored`. */
  predicate NothingOlder(s: Actor, stored: nat) {
    stored <= s.latestRevision && (s.pending.Some? ==> stored <= s.pending.value.revision)
  }

  predicate IsStored(w: Write) {
    w.reply.Persisted?
  }

  /** A flush writes what is queued or nothing, at the revision it was queued with. */
  lemma FlushKeepsOrder(s: Actor, force: bool, now: Date, reply: Reply, stored: nat)
    requires NothingOlder(s, stored) && (s.pending.Some? ==> s.pending.value.revision <= s.latestRevision)
    ensures var e := PersistPending(s, force, now, reply);
            && e.actor.latestRevision == s.latestRevision && e.actor.flushScheduled == s.flushScheduled
            && (e.actor.pending == s.pending || e.actor.pending == None)
            && (e.answer.StoreFailed? ==> e.actor.pending == s.pending && s.pending.Some?)
            && (force && !e.answer.StoreFailed? ==> e.actor.pending == None)
            && |e.writes| <= 1
            && (e.writes != [] ==>
                  && stored <= e.writes[0].revision
                  && NothingOlder(e.actor, if IsStored(e.writes[0]) then e.writes[0].revision else stored))
  {
    hide IsDue;
  }

  /** At most one snapshot is handed over, none older than what was stored, and nothing older can be written later. */
  predicate KeepsOrder(e: Effect, stored: nat) {
    && Consistent(e.actor) && |e.writes| <= 1
    && (e.writes == [] ==> NothingOlder(e.actor, stored))
    && (e.writes != [] ==>
          && stored <= e.writes[0].revision
          && NothingOlder(e.actor, if IsStored(e.writes[0]) then e.writes[0].revision else stored))
  }

  predicate Flushes(op: Operation) {
    op.FlushIfDue? || op.FlushScheduled? || op.FlushNow? || op.PersistInactive?
  }

  lemma FlushingKeepsOrder(s: Actor, op: Operation, now: Date, stored: nat)
    requires Consistent(s) && NothingOlder(s, stored) && Flushes(op)
    ensures KeepsOrder(Perform(s, op, now), stored)
  {
    hide Preserving, IsDue, PersistPending;
    match op {
      case FlushIfDue(reply) => FlushKeepsOrder(s.(flushScheduled := false), false, now, reply, stored);
      case FlushScheduled(reply) => FlushKeepsOrder(s.(flushScheduled := false), false, now, reply, stored);
      case FlushNow(reply) => FlushKeepsOrder(s.(flushScheduled := false), true, now, reply, stored);
      case PersistInactive(candidate, revision, flushed, reply) =>
        InactiveUpdateKeepsOrder(s, candidate, revision, flushed, reply, now, stored);
    }
  }

  lemma InactiveUpdateKeepsOrder(s: Actor, candidate: Account, revision: nat, flushed: Reply, reply: Reply, now: Date,
                                 stored: nat)
    requires Consistent(s) && NothingOlder(s, stored)
    ensures KeepsOrder(PersistingInactive(s, candidate, revision, flushed, reply, now), stored)
  {
    hide Preserving, PersistPending;
    var s1 := s.(latestRevision := if s.latestRevision >= revision then s.latestRevision else revision);
    FlushKeepsOrder(s1.(flushScheduled := false), true, now, flushed, stored);
  }

  lemma SubmittingKeepsOrder(s: Actor, op: Operation, now: Date, stored: nat)
    requires Consistent(s) && NothingOlder(s, stored) && !Flushes(op)
    ensures KeepsOrder(Perform(s, op, now), stored)
  {
    hide Preserving, PersistPending;
  }

  lemma StepKeepsOrder(s: Actor, op: Operation, now: Date, stored: nat)
    requires Consistent(s) && NothingOlder(s, stored)
    ensures KeepsOrder(Perform(s, op, now), stored)
  {
    hide Perform, KeepsOrder;
    if Flushes(op) {
      FlushingKeepsOrder(s, op, now, stored);
    } else {
      SubmittingKeepsOrder(s, op, now, stored);
    }
  }

  /** The revision of the last snapshot that was stored. */
  function LastStored(log: seq<Write>): nat {
    if log == [] then 0
    else if IsStored(log[|log| - 1]) then log[|log| - 1].revision
    else LastStored(log[..|log| - 1])
  }

  predicate InOrder(log: seq<Write>) {
    forall i, j :: 0 <= i < j < |log| && IsStored(log[i]) ==> log[i].revision <= log[j].revision
  }

  lemma {:induction false} LastStoredIsNewest(log: seq<Write>)
    requires InOrder(log)
    ensures forall w <- log :: IsStored(w) ==> w.revision <= LastStored(log)
  {
    if log != [] {
      var rest, last := log[..|log| - 1], log[|log| - 1];
      LastStoredIsNewest(rest);
      assert log == rest + [last];
      assert forall i :: 0 <= i < |rest| && IsStored(rest[i]) ==> log[i].revision <= log[|rest|].revision;
    }
  }

  lemma AppendingKeepsOrder(log: seq<Write>, w: Write)
    requires InOrder(log) && LastStored(log) <= w.revision
    ensures InOrder(log + [w])
  {
    LastStoredIsNewest(log);
    forall i | 0 <= i < |log| && IsStored(log[i])
      ensures log[i].revision <= w.revision
    {
      assert log[i] in log;
    }
  }

  /** Over every run: no snapshot is handed to the store after a newer one was stored; what is queued is at least as new
      as everything stored; and while anything is queued, its flush is scheduled. */
  lemma {:induction false} RevisionsNeverGoBack(calls: seq<Call>)
    ensures var s, log := After(NEW_ACTOR, calls), Handed(NEW_ACTOR, calls);
            && Consistent(s) && InOrder(log) && NothingOlder(s, LastStored(log))
            && (s.pending.Some? ==> forall w <- log :: IsStored(w) ==> w.revision <= s.pending.value.revision)
  {
    if calls != [] {
      var before, last := calls[..|calls| - 1], calls[|calls| - 1];
      RevisionsNeverGoBack(before);
      var s, log := After(NEW_ACTOR, before), Handed(NEW_ACTOR, before);
      StepKeepsOrder(s, last.op, last.now, LastStored(log));
      hide Perform;
      LogGrows(log, Perform(s, last.op, last.now));
    }
  }

  lemma LogGrows(log: seq<Write>, e: Effect)
    requires InOrder(log) && KeepsOrder(e, LastStored(log))
    ensures InOrder(log + e.writes) && NothingOlder(e.actor, LastStored(log + e.writes))
    ensures e.actor.pending.Some? ==>
              forall w <- log + e.writes :: IsStored(w) ==> w.revision <= e.actor.pending.value.revision
  {
    if e.writes != [] {
      assert e.writes == [e.writes[0]] && (log + e.writes)[..|log + e.writes| - 1] == log;
      AppendingKeepsOrder(log, e.writes[0]);
    } else {
      assert log + e.writes == log;
    }
    LastStoredIsNewest(log + e.writes);
    hide InOrder, LastStored;
  }

  // ----- How often telemetry is written --------------------------------------------------------------------------

  predicate IsTelemetry(w: Write) {
    IsStored(w) && (w.mode.Cadence? || w.mode.Forced? || w.mode.Termination?)
  }

  function LastTelemetry(log: seq<Write>): Option<Date> {
    if log == [] then None
    else if IsTelemetry(log[|log| - 1]) then Some(log[|log| - 1].at)
    else LastTelemetry(log[..|log| - 1])
  }

  /** Every write on the regular cadence comes a minute after the telemetry write before it. */
  predicate Spaced(log: seq<Write>) {
    forall j :: 0 <= j < |log| && log[j].mode.Cadence? ==>
      var previous := LastTelemetry(log[..j]);
      previous.Some? ==> log[j].at - previous.value >= TELEMETRY_MINIMUM_WRITE_INTERVAL
  }

  lemma FlushKeepsCadence(s: Actor, force: bool, now: Date, reply: Reply)
    ensures var e := PersistPending(s, force, now, reply);
            && |e.writes| <= 1
            && (e.writes == [] ==> e.actor.lastTelemetryAt == s.lastTelemetryAt)
            && (e.writes != [] ==>
                  var w := e.writes[0];
                  && w.at == now
                  && e.actor.lastTelemetryAt == (if IsTelemetry(w) then Some(now) else s.lastTelemetryAt)
                  && (w.mode.Cadence? && s.lastTelemetryAt.Some? ==>
                        now - s.lastTelemetryAt.value >= TELEMETRY_MINIMUM_WRITE_INTERVAL))
  {
    hide Semantic;
  }

  lemma StepKeepsCadence(s: Actor, op: Operation, now: Date)
    ensures var e := Perform(s, op, now);
            && |e.writes| <= 1
            && (e.writes == [] ==> e.actor.lastTelemetryAt == s.lastTelemetryAt)
            && (e.writes != [] ==>
                  var w := e.writes[0];
                  && w.at == now
                  && e.actor.lastTelemetryAt == (if IsTelemetry(w) then Some(now) else s.lastTelemetryAt)
                  && (w.mode.Cadence? && s.lastTelemetryAt.Some? ==>
                        now - s.lastTelemetryAt.value >= TELEMETRY_MINIMUM_WRITE_INTERVAL))
  {
    hide Preserving, PersistPending;
    match op {
      case FlushIfDue(reply) => FlushKeepsCadence(s.(flushScheduled := false), false, now, reply);
      case FlushScheduled(reply) => FlushKeepsCadence(s.(flushScheduled := false), false, now, reply);
      case FlushNow(reply) => FlushKeepsCadence(s.(flushScheduled := false), true, now, reply);
      case PersistInactive(_, revision, flushed, _) =>
        var s1 := s.(latestRevision := if s.latestRevision >= revision then s.latestRevision else revision);
        FlushKeepsCadence(s1.(flushScheduled := false), true, now, flushed);
      case _ =>
    }
  }

  lemma {:induction false} CadenceIsKept(calls: seq<Call>)
    ensures Spaced(Handed(NEW_ACTOR, calls))
    ensures LastTelemetry(Handed(NEW_ACTOR, calls)) == After(NEW_ACTOR, calls).lastTelemetryAt
  {
    if calls != [] {
      var before, last := calls[..|calls| - 1], calls[|calls| - 1];
      CadenceIsKept(before);
      var s, log := After(NEW_ACTOR, before), Handed(NEW_ACTOR, before);
      StepKeepsCadence(s, last.op, last.now);
      hide Perform;
      CadenceGrows(log, Perform(s, last.op, last.now).writes);
    }
  }

  lemma CadenceGrows(log: seq<Write>, writes: seq<Write>)
    requires Spaced(log) && |writes| <= 1
    requires writes != [] && writes[0].mode.Cadence? && LastTelemetry(log).Some? ==>
               writes[0].at - LastTelemetry(log).value >= TELEMETRY_MINIMUM_WRITE_INTERVAL
    ensures Spaced(log + writes)
    ensures LastTelemetry(log + writes)
            == if writes != [] && IsTelemetry(writes[0]) then Some(writes[0].at) else LastTelemetry(log)
  {
    assert forall j :: 0 <= j <= |log| ==> (log + writes)[..j] == log[..j];
    if writes != [] {
      assert (log + writes)[..|log + writes| - 1] == log;
    } else {
      assert log + writes == log;
    }
  }

  // ----- What each call answers ------------------------------------------------------------------------------------

  /** The store now holds these accounts, as far as the actor knows, and nothing waits. */
  predicate HoldsNow(s: Actor, accounts: seq<Account>, revision: nat, now: Date) {
    && s.lastPersisted == Some(accounts) && s.lastPersistenceAt == Some(now) && s.latestRevision == revision
    && s.pending == None && !s.flushScheduled
  }

  /** Nothing but the newest revision seen has changed. */
  predicate OnlySeen(s': Actor, s: Actor, revision: nat) {
    s' == s.(latestRevision := revision)
  }

  /** A durable snapshot: which of the five answers it gets, and what that leaves behind. */
  lemma DurableSnapshotIsExact(s: Actor, accounts: seq<Account>, revision: nat, before: bool, after: bool, saved: bool,
                               now: Date)
    requires Consistent(s)
    ensures var e, kept := Perform(s, PersistDurably(accounts, revision, before, after, saved), now),
                           Preserving(s.pending, accounts);
            if !before then e == Effect(s, [], AuthorizationLost)
            else if revision < s.latestRevision then e == Effect(s, [], Returned(false))
            else if kept.None? then OnlySeen(e.actor, s, revision) && e.writes == [] && e.answer == Ambiguous
            else if !after then OnlySeen(e.actor, s, revision) && e.writes == [] && e.answer == AuthorizationLost
            else
              && |e.writes| == 1 && e.writes[0].mode.Durable? && e.writes[0].accounts == kept.value
              && e.writes[0].revision == revision && e.writes[0].at == now
              && (if saved then HoldsNow(e.actor, kept.value, revision, now) && e.answer == Returned(true)
                                && e.actor.lastTelemetryAt == s.lastTelemetryAt
                  else OnlySeen(e.actor, s, revision) && e.answer == StoreFailed)
  {
    hide Preserving;
  }

  /** A conditional snapshot: the same, except that a store whose credentials drifted is believed instead. */
  lemma ConditionalSnapshotIsExact(s: Actor, accounts: seq<Account>, revision: nat, before: bool, after: bool,
                                   reply: Reply, loaded: Option<seq<Account>>, now: Date)
    requires Consistent(s)
    ensures var e, kept := Perform(s, PersistMatching(accounts, revision, before, after, reply, loaded), now),
                           Preserving(s.pending, accounts);
            if !before then e == Effect(s, [], AuthorizationLost)
            else if revision < s.latestRevision then
              e == Effect(s, [], if loaded.Some? then Drifted(loaded.value) else StoreFailed)
            else if kept.None? then OnlySeen(e.actor, s, revision) && e.writes == [] && e.answer == Ambiguous
            else if !after then OnlySeen(e.actor, s, revision) && e.writes == [] && e.answer == AuthorizationLost
            else
              && e.writes == [Write(Conditional, revision, kept.value, now, reply)]
              && e.actor.lastTelemetryAt == s.lastTelemetryAt
              && match reply
                 case Persisted(stored) => HoldsNow(e.actor, stored, revision, now) && e.answer == Returned(true)
                 case Discarded(durable) => HoldsNow(e.actor, durable, revision, now) && e.answer == Drifted(durable)
                 case Failed => OnlySeen(e.actor, s, revision) && e.answer == StoreFailed
  {
    hide Preserving;
  }

  /** Queued telemetry waits since the first of what it was merged from, and a flush is scheduled for it. */
  lemma QueueingIsExact(s: Actor, accounts: seq<Account>, revision: nat, now: Date)
    ensures var e, kept := Perform(s, Queue(accounts, revision), now), Preserving(s.pending, accounts);
            && e.writes == []
            && (if revision < s.latestRevision then e.actor == s && e.answer == Returned(false)
                else if kept.None? then OnlySeen(e.actor, s, revision) && e.answer == Ambiguous
                else
                  && e.answer == Returned(true) && e.actor.flushScheduled && e.actor.latestRevision == revision
                  && (e.actor.lastPersisted, e.actor.lastPersistenceAt, e.actor.lastTelemetryAt)
                     == (s.lastPersisted, s.lastPersistenceAt, s.lastTelemetryAt)
                  && e.actor.pending.Some?
                  && var p := e.actor.pending.value;
                     && p.accounts == kept.value && p.revision == revision
                     && p.firstQueuedAt == (if s.pending.Some? then s.pending.value.firstQueuedAt else now)
                     && p.updateCount == 1 + if s.pending.Some? then s.pending.value.updateCount else 0)
  {
    hide Preserving;
  }

  /** The snapshot on termination counts as telemetry if it is written. */
  lemma TerminationIsExact(s: Actor, accounts: seq<Account>, revision: nat, reply: Reply, now: Date)
    requires Consistent(s)
    ensures var e, kept := Perform(s, PersistOnTermination(accounts, revision, reply), now), Preserving(s.pending, accounts);
            if revision < s.latestRevision then e == Effect(s, [], Returned(false))
            else if kept.None? then OnlySeen(e.actor, s, revision) && e.writes == [] && e.answer == Ambiguous
            else
              && e.writes == [Write(Termination, revision, kept.value, now, reply)]
              && match reply
                 case Persisted(stored) =>
                   HoldsNow(e.actor, stored, revision, now) && e.actor.lastTelemetryAt == Some(now)
                   && e.answer == Returned(true)
                 case Discarded(durable) =>
                   HoldsNow(e.actor, durable, revision, now) && e.actor.lastTelemetryAt == s.lastTelemetryAt
                   && e.answer == Returned(false)
                 case Failed => OnlySeen(e.actor, s, revision) && e.answer == StoreFailed
  {
    hide Preserving;
  }

  /** Loading, adopting and deleting: what the actor then believes the store to hold. */
  lemma ReplacementIsExact(s: Actor, op: Operation, now: Date)
    requires op.LoadAll? || Replaces(op)
    ensures var e := Perform(s, op, now);
            match op
            case LoadAll(loaded) =>
              if loaded.None? then e == Effect(s, [], StoreFailed)
              else e == Effect(s.(lastPersisted := loaded, lastPersistenceAt := Some(now)), [], Returned(true))
            case AdoptExternal(revision, loaded) =>
              if revision < s.latestRevision then e == Effect(s, [], AuthorizationLost)
              else if loaded.None? then e == Effect(s, [], StoreFailed)
              else HoldsNow(e.actor, loaded.value, revision, now) && e.writes == [] && e.answer == Returned(true)
                   && e.actor.lastTelemetryAt == s.lastTelemetryAt
            case DeleteAll(revision, saved) =>
              if revision < s.latestRevision then e == Effect(s, [], Returned(false))
              else if saved then HoldsNow(e.actor, [], revision, now) && e.answer == Returned(true)
              else e.answer == StoreFailed && e.actor == s.(latestRevision := revision, pending := None, flushScheduled := false)
            case DeleteMatching(revision, reply, loaded) =>
              if revision < s.latestRevision then
                e == Effect(s, [], if loaded.Some? then Drifted(loaded.value) else StoreFailed)
              else if reply.Persisted? then HoldsNow(e.actor, [], revision, now) && e.answer == Returned(true)
              else if reply.Discarded? then
                HoldsNow(e.actor, reply.durable, revision, now) && e.answer == Drifted(reply.durable)
              else e.answer == StoreFailed && e.actor == s.(latestRevision := revision, pending := None, flushScheduled := false)
            case _ => true
  {
  }

  /** What a flush that writes leaves behind: the queue is gone once the store has answered, telemetry counts as written
      only if it was, and a failed write is tried again. */
  lemma FlushOutcomeIsExact(s: Actor, op: Operation, now: Date)
    requires Consistent(s) && (op.FlushIfDue? || op.FlushScheduled? || op.FlushNow?)
    ensures var e := Perform(s, op, now);
            && e.actor.latestRevision == s.latestRevision
            && (e.actor.flushScheduled <==> e.actor.pending.Some?)
            && (if e.writes == [] then
                  && e.answer == Returned(false)
                  && e.actor == s.(pending := e.actor.pending, flushScheduled := e.actor.flushScheduled)
                else match op.reply
                     case Persisted(stored) =>
                       HoldsNow(e.actor, stored, s.latestRevision, now) && e.actor.lastTelemetryAt == Some(now)
                       && e.answer == Returned(true)
                     case Discarded(durable) =>
                       HoldsNow(e.actor, durable, s.latestRevision, now) && e.actor.lastTelemetryAt == s.lastTelemetryAt
                       && e.answer == Returned(false)
                     case Failed => e.actor == s && e.answer == StoreFailed)
  {
    hide IsDue;
  }

  /** A one-account update: refused if it cannot be merged with what is queued; otherwise what is queued is flushed first,
      and only then the update counts. */
  lemma InactiveUpdateIsExact(s: Actor, candidate: Account, revision: nat, flushed: Reply, reply: Reply, now: Date)
    requires Consistent(s)
    ensures var e, kept := Perform(s, PersistInactive(candidate, revision, flushed, reply), now),
                           Preserving(s.pending, [candidate]);
            var newest := if revision > s.latestRevision then revision else s.latestRevision;
            if kept.None? || kept.value == [] then OnlySeen(e.actor, s, newest) && e.writes == [] && e.answer == Ambiguous
            else
              && (s.pending.None? <==> e.writes == []) && e.actor.latestRevision == newest
              && (if (s.pending.Some? && flushed.Failed?) || reply.Failed? then e.answer == StoreFailed
                  else
                    && e.actor.pending == None && !e.actor.flushScheduled && e.actor.lastPersistenceAt == Some(now)
                    && match reply
                       case Persisted(stored) => e.actor.lastPersisted == Some(stored) && e.answer == Returned(true)
                       case Discarded(durable) => e.actor.lastPersisted == Some(durable) && e.answer == Drifted(durable)
                       case Failed => true)
  {
    hide Preserving, IsDue;
  }

  // ----- When queued telemetry is written --------------------------------------------------------------------------

  /** Two readings of the quota say the same, whenever they were taken. */
  predicate SameQuota(a: Quota.Snapshot, b: Quota.Snapshot) {
    a.allowed == b.allowed && a.limitReached == b.limitReached && Quota.ValidWindows(a.windows) == Quota.ValidWindows(b.windows)
  }

  predicate SameBank(a: Bank, b: Bank) {
    a.availableCount == b.availableCount && a.totalEarnedCount == b.totalEarnedCount && a.credits == b.credits
  }

  /** Two states of an account differ at most in when it was refreshed and its quota and bank were read. */
  predicate SameButTimes(a: Account, b: Account) {
    && a.id == b.id && a.email == b.email && a.accountId == b.accountId && a.isActive == b.isActive
    && a.accessToken == b.accessToken && a.refreshToken == b.refreshToken && a.idToken == b.idToken
    && a.planType == b.planType && a.subscription == b.subscription && a.fiveHourPrimedAt == b.fiveHourPrimedAt
    && a.unusableUntil == b.unusableUntil && a.unusableReason == b.unusableReason
    && (a.lastRefreshed.Some? <==> b.lastRefreshed.Some?)
    && (if a.quota.Some? && b.quota.Some? then SameQuota(a.quota.value, b.quota.value) else a.quota == b.quota)
    && (if a.bank.Some? && b.bank.Some? then SameBank(a.bank.value, b.bank.value) else a.bank == b.bank)
  }

  /** The queue says nothing that the store does not have already, but for times. */
  predicate RepeatsStored(s: Actor)
    requires s.pending.Some?
  {
    && s.lastPersisted.Some? && |s.pending.value.accounts| == |s.lastPersisted.value|
    && forall i | 0 <= i < |s.lastPersisted.value| :: SameButTimes(s.pending.value.accounts[i], s.lastPersisted.value[i])
  }

  /** A flush that is not forced writes what is queued exactly if it has waited a minute, no telemetry was written within
      the last minute, and it says something new or nothing was written for five minutes. It drops a queue that equals
      what is stored, and leaves any other as it is. */
  lemma FlushWritesExactlyWhen(s: Actor, op: Operation, now: Date)
    requires s.pending.Some? && (op.FlushIfDue? || op.FlushScheduled?)
    ensures var e, p := Perform(s, op, now), s.pending.value;
            if s.lastPersisted == Some(p.accounts) then e.writes == [] && e.actor.pending == None
            else
              var since := if s.lastPersistenceAt.Some? then s.lastPersistenceAt.value else p.firstQueuedAt;
              var due := && now - p.firstQueuedAt >= 60.0
                         && (s.lastTelemetryAt.Some? ==> now - s.lastTelemetryAt.value >= 60.0)
                         && (!RepeatsStored(s) || now - since >= 300.0);
              && e.writes == (if due then [Write(Cadence, p.revision, p.accounts, now, op.reply)] else [])
              && (!due ==> e.actor.pending == s.pending)
  {
    RepeatsIsSemantic(s);
    hide Semantic, SameButTimes, RepeatsStored;
  }

  /** A forced flush writes whatever is queued. */
  lemma ForcedFlushWrites(s: Actor, reply: Reply, now: Date)
    ensures var e := Perform(s, FlushNow(reply), now);
            e.writes == if s.pending.None? then []
                        else [Write(Forced, s.pending.value.revision, s.pending.value.accounts, now, reply)]
  {
    hide IsDue;
  }

  lemma RepeatsIsSemantic(s: Actor)
    requires s.pending.Some?
    ensures RepeatsStored(s) <==>
              s.lastPersisted.Some? && Semantic(s.pending.value.accounts) == Semantic(s.lastPersisted.value)
  {
    hide SameButTimes, Anchored;
    if s.lastPersisted.Some? {
      var p, q := s.pending.value.accounts, s.lastPersisted.value;
      assert |Semantic(p)| == |p| && |Semantic(q)| == |q|;
      forall i | 0 <= i < |p| && i < |q|
        ensures SameButTimes(p[i], q[i]) <==> Semantic(p)[i] == Semantic(q)[i]
      {
        AnchoredIsSameButTimes(p[i], q[i]);
      }
    }
  }

  lemma AnchoredIsSameButTimes(a: Account, b: Account)
    ensures Anchored(a) == Anchored(b) <==> SameButTimes(a, b)
  {
  }

  // ----- Queued reset banks ---------------------------------------------------------------------------------------

  /** The list has a bank for this identity that is at least as new. */
  ghost predicate Holds(accounts: seq<Account>, identity: string, bank: Bank) {
    exists a <- accounts :: a.ProviderIdentity() == Some(identity) && AtLeastAsNew(a.bank, Some(bank))
  }

  ghost predicate Mentions(accounts: seq<Account>, identity: string) {
    exists a <- accounts :: a.ProviderIdentity() == Some(identity)
  }

  lemma ObservedIsHeld(observed: seq<Account>, retained: seq<Account>, identity: string, bank: Bank)
    requires Reconciled(observed, retained).Some? && Holds(observed, identity, bank)
    ensures Holds(Reconciled(observed, retained).value, identity, bank)
  {
    ReconcilingKeepsNewest(observed, retained);
    var r := Reconciled(observed, retained).value;
    hide Reconciled, IsValidAt, Account.ProviderIdentity, Unambiguous;
    var a :| a in observed && a.ProviderIdentity() == Some(identity) && AtLeastAsNew(a.bank, Some(bank));
    var i :| 0 <= i < |observed| && observed[i] == a;
    SameIdentity(r[i], observed[i]);
    assert r[i] in r && AtLeastAsNew(r[i].bank, Some(bank));
  }

  lemma RetainedIsHeld(observed: seq<Account>, retained: seq<Account>, identity: string, bank: Bank)
    requires Reconciled(observed, retained).Some? && Mentions(observed, identity) && Holds(retained, identity, bank)
    ensures Holds(Reconciled(observed, retained).value, identity, bank)
  {
    ReconcilingKeepsNewest(observed, retained);
    var r := Reconciled(observed, retained).value;
    hide Reconciled, IsValidAt, Account.ProviderIdentity, Unambiguous;
    var a :| a in observed && a.ProviderIdentity() == Some(identity);
    var i :| 0 <= i < |observed| && observed[i] == a;
    var b :| b in retained && b.ProviderIdentity() == Some(identity) && AtLeastAsNew(b.bank, Some(bank));
    var j :| 0 <= j < |retained| && retained[j] == b;
    SameIdentity(r[i], observed[i]);
    assert r[i] in r && AtLeastAsNew(r[i].bank, retained[j].bank);
  }

  lemma SameIdentity(a: Account, b: Account)
    requires a == b.(bank := a.bank)
    ensures a.ProviderIdentity() == b.ProviderIdentity()
  {
  }

  lemma PreservingHolds(pending: Option<Pending>, accounts: seq<Account>, identity: string, bank: Bank)
    ensures var kept := Preserving(pending, accounts);
            && (kept.Some? && Holds(accounts, identity, bank) ==> Holds(kept.value, identity, bank))
            && (kept.Some? && pending.Some? && Holds(pending.value.accounts, identity, bank)
                && Mentions(accounts, identity) ==>
                  Holds(kept.value, identity, bank))
  {
    hide Holds, Mentions, Reconciled;
    if pending.Some? && Preserving(pending, accounts).Some? {
      if Holds(accounts, identity, bank) {
        ObservedIsHeld(accounts, pending.value.accounts, identity, bank);
      }
      if Mentions(accounts, identity) && Holds(pending.value.accounts, identity, bank) {
        RetainedIsHeld(accounts, pending.value.accounts, identity, bank);
      }
    }
  }

  /** The whole list a call submits, if it submits one. */
  function Submitted(op: Operation): Option<seq<Account>> {
    match op
    case PersistDurably(accounts, _, _, _, _) => Some(accounts)
    case PersistMatching(accounts, _, _, _, _, _) => Some(accounts)
    case Queue(accounts, _) => Some(accounts)
    case PersistOnTermination(accounts, _, _) => Some(accounts)
    case _ => None
  }

  /** Calls that drop what is queued because the store is replaced or emptied from elsewhere. */
  predicate Replaces(op: Operation) {
    op.AdoptExternal? || op.DeleteAll? || op.DeleteMatching?
  }

  ghost predicate Keeps(op: Operation, identity: string) {
    !Replaces(op) && (Submitted(op).Some? ==> Mentions(Submitted(op).value, identity))
  }

  /** A replacement of the store that is not refused as stale. */
  predicate Overrides(s: Actor, op: Operation) {
    match op
    case AdoptExternal(revision, loaded) => revision >= s.latestRevision && loaded.Some?
    case DeleteAll(revision, _) => revision >= s.latestRevision
    case DeleteMatching(revision, _, _) => revision >= s.latestRevision
    case _ => false
  }

  ghost predicate StaysQueued(s: Actor, identity: string, bank: Bank) {
    s.pending.Some? && Holds(s.pending.value.accounts, identity, bank)
  }

  /** One of these snapshots was written, as against discarded because the store's credentials had drifted. */
  predicate Stores(writes: seq<Write>) {
    exists w <- writes :: !w.mode.Deletion? && w.reply.Persisted?
  }

  predicate Discards(writes: seq<Write>) {
    exists w <- writes :: !w.mode.Deletion? && w.reply.Discarded?
  }

  /** A queued bank that the store does not have yet: everything handed over has one at least as new, and the bank is lost
      from both queue and store exactly by a write discarded for drift, or by a replacement of the store. */
  lemma QueuedBankIsLostExactlyWhen(s: Actor, op: Operation, now: Date, identity: string, bank: Bank)
    requires Consistent(s) && StaysQueued(s, identity, bank)
    requires Submitted(op).Some? ==> Mentions(Submitted(op).value, identity)
    requires s.lastPersisted != Some(s.pending.value.accounts)
    ensures var e := Perform(s, op, now);
            && (!Replaces(op) ==> forall w <- e.writes :: Holds(w.accounts, identity, bank))
            && (!StaysQueued(e.actor, identity, bank) && !Stores(e.writes) <==> Discards(e.writes) || Overrides(s, op))
  {
    hide Perform, Holds, Mentions, Stores, Discards, StaysQueued;
    if Flushes(op) {
      FlushedBankIsLost(s, op, now, identity, bank);
    } else {
      SubmittingLosesBank(s, op, now, identity, bank);
    }
  }

  lemma FlushedBankIsLost(s: Actor, op: Operation, now: Date, identity: string, bank: Bank)
    requires Consistent(s) && StaysQueued(s, identity, bank) && Flushes(op)
    requires s.lastPersisted != Some(s.pending.value.accounts)
    ensures var e := Perform(s, op, now);
            && (forall w <- e.writes :: Holds(w.accounts, identity, bank))
            && (!StaysQueued(e.actor, identity, bank) && !Stores(e.writes) <==> Discards(e.writes))
  {
    hide Preserving, IsDue, Holds, PersistingDurably, PersistingMatching, Deleting, Adopting, Queueing,
         PersistingOnTermination, Loading;
  }

  lemma SubmittingLosesBank(s: Actor, op: Operation, now: Date, identity: string, bank: Bank)
    requires Consistent(s) && StaysQueued(s, identity, bank) && !Flushes(op)
    requires Submitted(op).Some? ==> Mentions(Submitted(op).value, identity)
    ensures var e := Perform(s, op, now);
            && (!Replaces(op) ==> forall w <- e.writes :: Holds(w.accounts, identity, bank))
            && (!StaysQueued(e.actor, identity, bank) && !Stores(e.writes) <==> Discards(e.writes) || Overrides(s, op))
  {
    hide Preserving, Holds, Mentions, PersistPending, PersistingInactive, FlushingNow, FlushingIfDue;
    if Submitted(op).Some? {
      PreservingHolds(s.pending, Submitted(op).value, identity, bank);
    }
  }

  /** The same for any queued bank: it stays queued, is written, was stored already, or is in a discarded write. */
  lemma QueuedBankSurvivesStep(s: Actor, op: Operation, now: Date, identity: string, bank: Bank)
    requires StaysQueued(s, identity, bank) && Keeps(op, identity)
    ensures var e := Perform(s, op, now);
            && (forall w <- e.writes :: Holds(w.accounts, identity, bank))
            && (|| StaysQueued(e.actor, identity, bank) || Stores(e.writes) || Discards(e.writes)
                || s.lastPersisted == Some(s.pending.value.accounts))
  {
    hide Preserving, IsDue, Holds, Mentions;
    if Submitted(op).Some? {
      PreservingHolds(s.pending, Submitted(op).value, identity, bank);
    }
  }

  /** A submitted bank: whatever this call hands over or queues has one at least as new. */
  lemma SubmittedBankIsKept(s: Actor, op: Operation, now: Date, identity: string, bank: Bank)
    requires Submitted(op).Some? && Holds(Submitted(op).value, identity, bank)
    ensures var e := Perform(s, op, now);
            && (forall w <- e.writes :: Holds(w.accounts, identity, bank))
            && (op.Queue? && e.answer == Returned(true) ==>
                  e.actor.pending.Some? && Holds(e.actor.pending.value.accounts, identity, bank))
  {
    hide Preserving, IsDue, Holds;
    PreservingHolds(s.pending, Submitted(op).value, identity, bank);
  }

  /** Over every run in which the identity stays in every submitted list and the store is not replaced from elsewhere, a
      queued bank is accounted for: it is still queued, one at least as new was written or was what the store had, or the
      write that carried it was discarded because the store's credentials had drifted. */
  lemma {:induction false} QueuedBankIsAccountedFor(s: Actor, calls: seq<Call>, identity: string, bank: Bank)
    requires StaysQueued(s, identity, bank) && forall c <- calls :: Keeps(c.op, identity)
    ensures var final, log := After(s, calls), Handed(s, calls);
            || StaysQueued(final, identity, bank)
            || (exists w <- log :: w.reply.Persisted? && Holds(w.accounts, identity, bank))
            || (exists i :: 0 <= i <= |calls| && HadStored(After(s, calls[..i]), identity, bank))
            || (exists w <- log :: w.reply.Discarded? && Holds(w.accounts, identity, bank))
  {
    hide Perform, Holds, Keeps;
    if calls != [] {
      var n := |calls| - 1;
      var before, last := calls[..n], calls[n];
      QueuedBankIsAccountedFor(s, before, identity, bank);
      var mid := After(s, before);
      if StaysQueued(mid, identity, bank) {
        QueuedBankSurvivesStep(mid, last.op, last.now, identity, bank);
      } else if exists i :: 0 <= i <= n && HadStored(After(s, before[..i]), identity, bank) {
        var i :| 0 <= i <= n && HadStored(After(s, before[..i]), identity, bank);
        assert before[..i] == calls[..i];
      }
    }
  }

  ghost predicate HadStored(s: Actor, identity: string, bank: Bank) {
    s.lastPersisted.Some? && Holds(s.lastPersisted.value, identity, bank)
  }

  /** Only these take queued telemetry away: new telemetry, an answered write, a store replaced or emptied from
      elsewhere, or the store already having it. A failed write leaves it exactly as it was. */
  lemma QueueChangesOnlyWhen(s: Actor, op: Operation, now: Date)
    ensures var e := Perform(s, op, now);
            e.actor.pending != s.pending ==>
              || (op.Queue? && e.answer == Returned(true))
              || Replaces(op)
              || (exists w <- e.writes :: !w.reply.Failed?)
              || (s.pending.Some? && s.lastPersisted == Some(s.pending.value.accounts))
  {
    hide Preserving, IsDue;
    if Flushes(op) {
      hide PersistingDurably, PersistingMatching, Deleting, Adopting, Queueing, PersistingOnTermination, Loading;
    } else {
      hide PersistPending, PersistingInactive, FlushingNow, FlushingIfDue;
    }
  }
}
