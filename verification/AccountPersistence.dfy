/** The write-behind account store: durable snapshots ordered by revision, and telemetry that is coalesced and flushed. */
module AccountPersistence {
  import opened Prelude
  import opened Accounts
  import opened ResetBank
  import opened ResetInventory
  import Quota

  const TELEMETRY_MINIMUM_WRITE_INTERVAL: real := 60.0
  const TELEMETRY_FRESHNESS_HEARTBEAT: real := 300.0

  datatype Pending = Pending(revision: nat, accounts: seq<Account>, firstQueuedAt: Date, updateCount: nat)

  /** What the store answers: it wrote the accounts, it found other credentials and wrote nothing, or it failed. */
  datatype Reply = Persisted(accounts: seq<Account>) | Discarded(durable: seq<Account>) | Failed

  datatype Mode = Durable | Conditional | Cadence | Forced | Termination | Deletion

  /** A whole snapshot handed to the store. */
  datatype Write = Write(mode: Mode, revision: nat, accounts: seq<Account>, at: Date, reply: Reply)

  datatype Answer = Returned(wrote: bool) | Drifted(durable: seq<Account>) | AuthorizationLost | Ambiguous | StoreFailed

  datatype Actor = Actor(latestRevision: nat, pending: Option<Pending>, flushScheduled: bool,
                         lastPersisted: Option<seq<Account>>, lastPersistenceAt: Option<Date>,
                         lastTelemetryAt: Option<Date>)

  const NEW_ACTOR := Actor(0, None, false, None, None, None)

  /** What one call leaves behind: the actor, the snapshots it handed to the store, and its answer. */
  datatype Effect = Effect(actor: Actor, writes: seq<Write>, answer: Answer)

  // ----- The parts every operation uses -----------------------------------------------------------------------

  function Recorded(s: Actor, accounts: seq<Account>, at: Date, isTelemetry: bool): Actor {
    s.(lastPersisted := Some(accounts), lastPersistenceAt := Some(at),
       lastTelemetryAt := if isTelemetry then Some(at) else s.lastTelemetryAt)
  }

  function Cleared(s: Actor, revision: nat): Actor {
    if s.pending.Some? && s.pending.value.revision <= revision then s.(pending := None, flushScheduled := false) else s
  }

  function Scheduled(s: Actor): Actor {
    if s.pending.Some? then s.(flushScheduled := true) else s
  }

  /** The submitted accounts, keeping every newer bank that is still queued. */
  function Preserving(pending: Option<Pending>, accounts: seq<Account>): Option<seq<Account>> {
    if pending.None? then Some(accounts) else Reconciled(accounts, pending.value.accounts)
  }

  function Anchored(a: Account): Account {
    a.(lastRefreshed := if a.lastRefreshed.Some? then Some(0.0) else None,
       quota := if a.quota.None? then None
                else Some(Quota.MakeSnapshot(a.quota.value.allowed, a.quota.value.limitReached, 0.0,
                                             a.quota.value.windows)),
       bank := if a.bank.None? then None else Some(a.bank.value.(fetchedAt := 0.0)))
  }

  /** The accounts with every observation time blanked: what must differ for telemetry to mean something new. */
  function Semantic(accounts: seq<Account>): seq<Account> {
    seq(|accounts|, i requires 0 <= i < |accounts| => Anchored(accounts[i]))
  }

  /** Whether queued telemetry is due: queued for a minute, a minute after the last telemetry write, and either saying
      something new or repeating what was written five minutes ago. */
  predicate IsDue(s: Actor, now: Date)
    requires s.pending.Some?
  {
    var p := s.pending.value;
    && now - p.firstQueuedAt >= TELEMETRY_MINIMUM_WRITE_INTERVAL
    && (s.lastTelemetryAt.Some? ==> now - s.lastTelemetryAt.value >= TELEMETRY_MINIMUM_WRITE_INTERVAL)
    && (s.lastPersisted.Some? && Semantic(p.accounts) == Semantic(s.lastPersisted.value) ==>
          now - (if s.lastPersistenceAt.Some? then s.lastPersistenceAt.value else p.firstQueuedAt)
          >= TELEMETRY_FRESHNESS_HEARTBEAT)
  }

  /** Writes the queued telemetry, if forced or due; a failed write puts it back. */
  function PersistPending(s: Actor, force: bool, now: Date, reply: Reply): Effect {
    if s.pending.None? then Effect(s, [], Returned(false))
    else
      var p := s.pending.value;
      if !force && s.lastPersisted == Some(p.accounts) then Effect(s.(pending := None), [], Returned(false))
      else if !force && !IsDue(s, now) then Effect(s, [], Returned(false))
      else
        var write := Write(if force then Forced else Cadence, p.revision, p.accounts, now, reply);
        match reply
        case Persisted(accounts) =>
          Effect(Recorded(s.(pending := None), accounts, now, true), [write], Returned(true))
        case Discarded(durable) =>
          Effect(Recorded(s.(pending := None), durable, now, false), [write], Returned(false))
        case Failed => Effect(s, [write], StoreFailed)
  }

  // ----- The operations ------------------------------------------------------------------------------------------

  datatype Operation =
    | LoadAll(loaded: Option<seq<Account>>)
    | AdoptExternal(revision: nat, loaded: Option<seq<Account>>)
    | PersistDurably(accounts: seq<Account>, revision: nat, authorizedBefore: bool, authorizedAfter: bool, saved: bool)
    | PersistMatching(accounts: seq<Account>, revision: nat, authorizedBefore: bool, authorizedAfter: bool, reply: Reply,
                      loaded: Option<seq<Account>>)
    | PersistInactive(candidate: Account, revision: nat, flushed: Reply, reply: Reply)
    | DeleteAll(revision: nat, saved: bool)
    | DeleteMatching(revision: nat, reply: Reply, loaded: Option<seq<Account>>)
    | Queue(accounts: seq<Account>, revision: nat)
    | FlushIfDue(reply: Reply)
    | FlushNow(reply: Reply)
    | FlushScheduled(reply: Reply)
    | PersistOnTermination(accounts: seq<Account>, revision: nat, reply: Reply)

  function Loading(s: Actor, loaded: Option<seq<Account>>, now: Date): Effect {
    if loaded.None? then Effect(s, [], StoreFailed) else Effect(Recorded(s, loaded.value, now, false), [], Returned(true))
  }

  function Adopting(s: Actor, revision: nat, loaded: Option<seq<Account>>, now: Date): Effect {
    if revision < s.latestRevision then Effect(s, [], AuthorizationLost)
    else if loaded.None? then Effect(s, [], StoreFailed)
    else
      Effect(Recorded(s.(latestRevision := revision, pending := None, flushScheduled := false), loaded.value, now, false),
             [], Returned(true))
  }

  function PersistingDurably(s: Actor, accounts: seq<Account>, revision: nat, authorizedBefore: bool,
                             authorizedAfter: bool, saved: bool, now: Date): Effect
  {
    if !authorizedBefore then Effect(s, [], AuthorizationLost)
    else if revision < s.latestRevision then Effect(s, [], Returned(false))
    else
      var s1 := s.(latestRevision := revision);
      var kept := Preserving(s.pending, accounts);
      if kept.None? then Effect(s1, [], Ambiguous)
      else if !authorizedAfter then Effect(s1, [], AuthorizationLost)
      else
        var write := Write(Durable, revision, kept.value, now, if saved then Persisted(kept.value) else Failed);
        if !saved then Effect(s1, [write], StoreFailed)
        else Effect(Recorded(Cleared(s1, revision), kept.value, now, false), [write], Returned(true))
  }

  function Settled(s: Actor, reply: Reply, now: Date): Actor
    requires !reply.Failed?
  {
    Recorded(s, if reply.Persisted? then reply.accounts else reply.durable, now, false)
  }

  function AnswerTo(reply: Reply): Answer {
    match reply
    case Persisted(_) => Returned(true)
    case Discarded(durable) => Drifted(durable)
    case Failed => StoreFailed
  }

  function PersistingMatching(s: Actor, accounts: seq<Account>, revision: nat, authorizedBefore: bool,
                              authorizedAfter: bool, reply: Reply, loaded: Option<seq<Account>>, now: Date): Effect
  {
    if !authorizedBefore then Effect(s, [], AuthorizationLost)
    else if revision < s.latestRevision then
      Effect(s, [], if loaded.Some? then Drifted(loaded.value) else StoreFailed)
    else
      var s1 := s.(latestRevision := revision);
      var kept := Preserving(s.pending, accounts);
      if kept.None? then Effect(s1, [], Ambiguous)
      else if !authorizedAfter then Effect(s1, [], AuthorizationLost)
      else
        var write := Write(Conditional, revision, kept.value, now, reply);
        if reply.Failed? then Effect(s1, [write], StoreFailed)
        else Effect(Settled(Cleared(s1, revision), reply, now), [write], AnswerTo(reply))
  }

  function FlushingNow(s: Actor, reply: Reply, now: Date): Effect {
    var e := PersistPending(s.(flushScheduled := false), true, now, reply);
    if e.answer.StoreFailed? then e.(actor := Scheduled(e.actor)) else e
  }

  function FlushingIfDue(s: Actor, reply: Reply, now: Date): Effect {
    var e := PersistPending(s.(flushScheduled := false), false, now, reply);
    e.(actor := Scheduled(e.actor))
  }

  /** A one-account credential write first hands over everything that is queued. */
  function PersistingInactive(s: Actor, candidate: Account, revision: nat, flushed: Reply, reply: Reply, now: Date):
    Effect
  {
    var s1 := s.(latestRevision := if s.latestRevision >= revision then s.latestRevision else revision);
    var kept := Preserving(s.pending, [candidate]);
    if kept.None? || kept.value == [] then Effect(s1, [], Ambiguous)
    else
      var e := FlushingNow(s1, flushed, now);
      if e.answer.StoreFailed? || reply.Failed? then Effect(e.actor, e.writes, StoreFailed)
      else Effect(Settled(Cleared(e.actor, revision), reply, now), e.writes, AnswerTo(reply))
  }

  function Deleting(s: Actor, revision: nat, reply: Reply, stale: Answer, now: Date): Effect {
    if revision < s.latestRevision then Effect(s, [], stale)
    else
      var s1 := s.(latestRevision := revision, pending := None, flushScheduled := false);
      var write := Write(Deletion, revision, [], now, reply);
      match reply
      case Persisted(_) => Effect(Recorded(s1, [], now, false), [write], Returned(true))
      case Discarded(durable) => Effect(Recorded(s1, durable, now, false), [write], Drifted(durable))
      case Failed => Effect(s1, [write], StoreFailed)
  }

  function Queueing(s: Actor, accounts: seq<Account>, revision: nat, now: Date): Effect {
    if revision < s.latestRevision then Effect(s, [], Returned(false))
    else
      var s1 := s.(latestRevision := revision);
      var kept := Preserving(s.pending, accounts);
      if kept.None? then Effect(s1, [], Ambiguous)
      else
        var p := if s1.pending.Some?
                 then Pending(revision, kept.value, s1.pending.value.firstQueuedAt, s1.pending.value.updateCount + 1)
                 else Pending(revision, kept.value, now, 1);
        Effect(Scheduled(s1.(pending := Some(p))), [], Returned(true))
  }

  function PersistingOnTermination(s: Actor, accounts: seq<Account>, revision: nat, reply: Reply, now: Date): Effect {
    if revision < s.latestRevision then Effect(s, [], Returned(false))
    else
      var s1 := s.(latestRevision := revision);
      var kept := Preserving(s.pending, accounts);
      if kept.None? then Effect(s1, [], Ambiguous)
      else
        var write := Write(Termination, revision, kept.value, now, reply);
        match reply
        case Persisted(persisted) =>
          Effect(Cleared(Recorded(s1, persisted, now, true), revision), [write], Returned(true))
        case Discarded(durable) =>
          Effect(Cleared(Recorded(s1, durable, now, false), revision), [write], Returned(false))
        case Failed => Effect(s1, [write], StoreFailed)
  }

  function StaleDeletion(loaded: Option<seq<Account>>): Answer {
    if loaded.Some? then Drifted(loaded.value) else StoreFailed
  }

  function Perform(s: Actor, op: Operation, now: Date): Effect {
    match op
    case LoadAll(loaded) => Loading(s, loaded, now)
    case AdoptExternal(revision, loaded) => Adopting(s, revision, loaded, now)
    case PersistDurably(accounts, revision, before, after, saved) =>
      PersistingDurably(s, accounts, revision, before, after, saved, now)
    case PersistMatching(accounts, revision, before, after, reply, loaded) =>
      PersistingMatching(s, accounts, revision, before, after, reply, loaded, now)
    case PersistInactive(candidate, revision, flushed, reply) =>
      PersistingInactive(s, candidate, revision, flushed, reply, now)
    case DeleteAll(revision, saved) =>
      Deleting(s, revision, if saved then Persisted([]) else Failed, Returned(false), now)
    case DeleteMatching(revision, reply, loaded) => Deleting(s, revision, reply, StaleDeletion(loaded), now)
    case Queue(accounts, revision) => Queueing(s, accounts, revision, now)
    case FlushIfDue(reply) => FlushingIfDue(s, reply, now)
    case FlushNow(reply) => FlushingNow(s, reply, now)
    case FlushScheduled(reply) => FlushingIfDue(s, reply, now)
    case PersistOnTermination(accounts, revision, reply) => PersistingOnTermination(s, accounts, revision, reply, now)
  }

  // ----- The actor itself ------------------------------------------------------------------------------------------

  class AccountPersistenceCoordinator {
    var latestRevision: nat
    var pending: Option<Pending>
    var flushScheduled: bool
    var lastPersisted: Option<seq<Account>>
    var lastPersistenceAt: Option<Date>
    var lastTelemetryAt: Option<Date>
    /** Every whole snapshot handed to the store so far. */
    ghost var log: seq<Write>

    ghost function State(): Actor
      reads this
    {
      Actor(latestRevision, pending, flushScheduled, lastPersisted, lastPersistenceAt, lastTelemetryAt)
    }

    /** A call that began with `logged` did what `e` says. */
    ghost predicate Did(logged: seq<Write>, e: Effect, answer: Answer)
      reads this
    {
      State() == e.actor && log == logged + e.writes && answer == e.answer
    }

    constructor ()
      ensures State() == NEW_ACTOR && log == []
    {
      latestRevision, pending, flushScheduled := 0, None, false;
      lastPersisted, lastPersistenceAt, lastTelemetryAt := None, None, None;
      log := [];
    }

    method RecordSuccessfulPersistence(accounts: seq<Account>, at: Date, isTelemetry: bool)
      modifies this
      ensures State() == Recorded(old(State()), accounts, at, isTelemetry) && log == old(log)
    {
      lastPersisted := Some(accounts);
      lastPersistenceAt := Some(at);
      if isTelemetry {
        lastTelemetryAt := Some(at);
      }
    }

    method ClearPendingTelemetry(revision: nat)
      modifies this`pending, this`flushScheduled
      ensures State() == Cleared(old(State()), revision)
    {
      if pending.None? || pending.value.revision > revision {
        return;
      }
      flushScheduled := false;
      pending := None;
    }

    method ScheduleTelemetryFlushIfNeeded()
      modifies this`flushScheduled
      ensures State() == Scheduled(old(State()))
    {
      if pending.None? || flushScheduled {
        return;
      }
      flushScheduled := true;
    }

    method PreservingPendingResetInventories(accounts: seq<Account>) returns (kept: Option<seq<Account>>)
      ensures kept == Preserving(pending, accounts)
    {
      if pending.None? {
        return Some(accounts);
      }
      kept := Reconciling(accounts, pending.value.accounts);
    }

    method PersistDurably(accounts: seq<Account>, revision: nat, authorizedBefore: bool, authorizedAfter: bool,
                          saved: bool, now: Date)
      returns (answer: Answer)
      modifies this
      ensures Did(old(log),
                  PersistingDurably(old(State()), accounts, revision, authorizedBefore, authorizedAfter, saved, now),
                  answer)
    {
      if !authorizedBefore {
        return AuthorizationLost;
      }
      if revision < latestRevision {
        return Returned(false);
      }
      latestRevision := revision;
      var kept := PreservingPendingResetInventories(accounts);
      if kept.None? {
        return Ambiguous;
      }
      if !authorizedAfter {
        return AuthorizationLost;
      }
      log := log + [Write(Durable, revision, kept.value, now, if saved then Persisted(kept.value) else Failed)];
      if !saved {
        return StoreFailed;
      }
      ClearPendingTelemetry(revision);
      RecordSuccessfulPersistence(kept.value, now, false);
      answer := Returned(true);
    }

    method PersistMatching(accounts: seq<Account>, revision: nat, authorizedBefore: bool, authorizedAfter: bool,
                           reply: Reply, loaded: Option<seq<Account>>, now: Date)
      returns (answer: Answer)
      modifies this
      ensures Did(old(log),
                  PersistingMatching(old(State()), accounts, revision, authorizedBefore, authorizedAfter, reply, loaded,
                                     now),
                  answer)
    {
      if !authorizedBefore {
        return AuthorizationLost;
      }
      if revision < latestRevision {
        return if loaded.Some? then Drifted(loaded.value) else StoreFailed;
      }
      latestRevision := revision;
      var kept := PreservingPendingResetInventories(accounts);
      if kept.None? {
        return Ambiguous;
      }
      if !authorizedAfter {
        return AuthorizationLost;
      }
      log := log + [Write(Conditional, revision, kept.value, now, reply)];
      if reply.Failed? {
        return StoreFailed;
      }
      ClearPendingTelemetry(revision);
      RecordSuccessfulPersistence(if reply.Persisted? then reply.accounts else reply.durable, now, false);
      answer := AnswerTo(reply);
    }

    method PersistInactiveCredentialUpdate(candidate: Account, revision: nat, flushed: Reply, reply: Reply, now: Date)
      returns (answer: Answer)
      modifies this
      ensures Did(old(log), PersistingInactive(old(State()), candidate, revision, flushed, reply, now), answer)
    {
      if revision > latestRevision {
        latestRevision := revision;
      }
      var kept := PreservingPendingResetInventories([candidate]);
      if kept.None? || kept.value == [] {
        return Ambiguous;
      }
      answer := FlushTelemetry(flushed, now);
      if answer.StoreFailed? || reply.Failed? {
        return StoreFailed;
      }
      ClearPendingTelemetry(revision);
      RecordSuccessfulPersistence(if reply.Persisted? then reply.accounts else reply.durable, now, false);
      answer := AnswerTo(reply);
    }

    method DeleteAllDurably(revision: nat, reply: Reply, stale: Answer, now: Date) returns (answer: Answer)
      modifies this
      ensures Did(old(log), Deleting(old(State()), revision, reply, stale, now), answer)
    {
      if revision < latestRevision {
        return stale;
      }
      latestRevision := revision;
      flushScheduled := false;
      pending := None;
      log := log + [Write(Deletion, revision, [], now, reply)];
      if reply.Failed? {
        return StoreFailed;
      }
      RecordSuccessfulPersistence(if reply.Persisted? then [] else reply.durable, now, false);
      answer := AnswerTo(reply);
    }

    method AdoptExternalSnapshot(revision: nat, loaded: Option<seq<Account>>, now: Date) returns (answer: Answer)
      modifies this
      ensures Did(old(log), Adopting(old(State()), revision, loaded, now), answer)
    {
      if revision < latestRevision {
        return AuthorizationLost;
      }
      if loaded.None? {
        return StoreFailed;
      }
      latestRevision := revision;
      flushScheduled := false;
      pending := None;
      RecordSuccessfulPersistence(loaded.value, now, false);
      answer := Returned(true);
    }

    method LoadAll(loaded: Option<seq<Account>>, now: Date) returns (answer: Answer)
      modifies this
      ensures Did(old(log), Loading(old(State()), loaded, now), answer)
    {
      if loaded.None? {
        return StoreFailed;
      }
      RecordSuccessfulPersistence(loaded.value, now, false);
      answer := Returned(true);
    }

    method QueueTelemetry(accounts: seq<Account>, revision: nat, now: Date) returns (answer: Answer)
      modifies this
      ensures Did(old(log), Queueing(old(State()), accounts, revision, now), answer)
    {
      if revision < latestRevision {
        return Returned(false);
      }
      latestRevision := revision;
      var queued := accounts;
      if pending.Some? {
        var reconciled := Reconciling(accounts, pending.value.accounts);
        if reconciled.None? {
          return Ambiguous;
        }
        queued := reconciled.value;
      }
      pending := Some(Pending(revision, queued, if pending.Some? then pending.value.firstQueuedAt else now,
                              (if pending.Some? then pending.value.updateCount else 0) + 1));
      ScheduleTelemetryFlushIfNeeded();
      answer := Returned(true);
    }

    method PersistPendingTelemetry(force: bool, now: Date, reply: Reply) returns (answer: Answer)
      modifies this
      ensures Did(old(log), PersistPending(old(State()), force, now, reply), answer)
    {
      if pending.None? {
        return Returned(false);
      }
      var waiting := pending.value;
      if !force && lastPersisted == Some(waiting.accounts) {
        pending := None;
        return Returned(false);
      }
      if !force {
        var cadenceAllows := lastTelemetryAt.None? || now - lastTelemetryAt.value >= TELEMETRY_MINIMUM_WRITE_INTERVAL;
        if now - waiting.firstQueuedAt < TELEMETRY_MINIMUM_WRITE_INTERVAL || !cadenceAllows {
          return Returned(false);
        }
        if lastPersisted.Some? && Semantic(waiting.accounts) == Semantic(lastPersisted.value) {
          var anchor := if lastPersistenceAt.Some? then lastPersistenceAt.value else waiting.firstQueuedAt;
          if now - anchor < TELEMETRY_FRESHNESS_HEARTBEAT {
            return Returned(false);
          }
        }
      }
      pending := None;
      log := log + [Write(if force then Forced else Cadence, waiting.revision, waiting.accounts, now, reply)];
      match reply {
        case Persisted(accounts) =>
          RecordSuccessfulPersistence(accounts, now, true);
          answer := Returned(true);
        case Discarded(durable) =>
          RecordSuccessfulPersistence(durable, now, false);
          answer := Returned(false);
        case Failed =>
          pending := Some(waiting);
          answer := StoreFailed;
      }
    }

    method FlushTelemetry(reply: Reply, now: Date) returns (answer: Answer)
      modifies this
      ensures Did(old(log), FlushingNow(old(State()), reply, now), answer)
    {
      flushScheduled := false;
      answer := PersistPendingTelemetry(true, now, reply);
      if answer.StoreFailed? {
        ScheduleTelemetryFlushIfNeeded();
      }
    }

    /** The same on a timer or on demand: write if due, and schedule the next attempt while anything is queued. */
    method FlushTelemetryIfDue(reply: Reply, now: Date) returns (answer: Answer)
      modifies this
      ensures Did(old(log), FlushingIfDue(old(State()), reply, now), answer)
    {
      flushScheduled := false;
      answer := PersistPendingTelemetry(false, now, reply);
      ScheduleTelemetryFlushIfNeeded();
    }

    method PersistTelemetrySnapshot(accounts: seq<Account>, revision: nat, reply: Reply, now: Date)
      returns (answer: Answer)
      modifies this
      ensures Did(old(log), PersistingOnTermination(old(State()), accounts, revision, reply, now), answer)
    {
      if revision < latestRevision {
        return Returned(false);
      }
      latestRevision := revision;
      var kept := PreservingPendingResetInventories(accounts);
      if kept.None? {
        return Ambiguous;
      }
      log := log + [Write(Termination, revision, kept.value, now, reply)];
      match reply {
        case Persisted(persisted) =>
          RecordSuccessfulPersistence(persisted, now, true);
          answer := Returned(true);
        case Discarded(durable) =>
          RecordSuccessfulPersistence(durable, now, false);
          answer := Returned(false);
        case Failed => return StoreFailed;
      }
      ClearPendingTelemetry(revision);
    }
  }
}
