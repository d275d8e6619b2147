/** The renderer's auth effect: concurrent account reads, auth events and timers against one rendered state. */
module RendererAuth {
  import opened Prelude

  const LOGOUT_CONFIRMATION: real := 10.0

  type Method = int

  /** What is rendered: nothing yet, the result of a read, or one of the two explicit failure states. */
  datatype Rendered = Nothing | Account(authMethod: Option<Method>, details: int) | ErrorState | TimeoutState {
    function Login(): Option<Method> {
      if this.Account? then authMethod else None
    }
  }

  /** A read in flight: the epoch it belongs to, and whether it confirms a logout. */
  datatype Read = Read(epoch: nat, confirmed: bool)

  datatype Timer = Timer(epoch: nat, scheduledAt: Date)

  datatype Machine = Machine(stopped: bool, done: bool, epoch: nat, sequence: nat, flights: map<nat, Read>,
                             logoutTimer: Option<Timer>, startupPending: bool, loading: bool, rendered: Rendered,
                             logouts: nat)

  datatype Happening =
    | Resolved(read: nat, next: Rendered)
    | Rejected(read: nat)
    | AuthChanged(authMethod: Option<Method>)
    | LogoutTimerFires
    | StartupTimerFires
    | Cleanup

  datatype Event = Event(what: Happening, now: Date)

  // ----- One step ----------------------------------------------------------------------------------------------

  /** Latest generation wins, but an account is only replaced by none once that was confirmed. */
  function Resolve(previous: Rendered, next: Rendered, confirmed: bool): Rendered {
    if next.Login().None? && previous.Login().Some? && !confirmed then previous else next
  }

  predicate LogsOut(previous: Rendered, next: Rendered, confirmed: bool) {
    next.Login().None? && previous.Login().Some? && confirmed
  }

  function Started(s: Machine, epoch: nat, confirmed: bool): Machine {
    s.(sequence := s.sequence + 1, flights := s.flights[s.sequence + 1 := Read(epoch, confirmed)])
  }

  /** The state right after the effect is mounted, its first read begun. */
  function Mounted(startupTimeout: bool, rendered: Rendered): Machine {
    Started(Machine(false, false, 0, 0, map[], None, startupTimeout, true, rendered, 0), 0, false)
  }

  /** A read may still commit: the effect is mounted, and neither a newer read nor an auth event came after it. */
  predicate IsCurrent(s: Machine, read: nat)
    requires read in s.flights
  {
    !s.stopped && read == s.sequence && s.flights[read].epoch == s.epoch
  }

  function Settled(s: Machine, read: nat): Machine {
    s.(flights := s.flights - {read})
  }

  function Step(s: Machine, e: Event): Machine {
    match e.what
    case Resolved(read, next) =>
      if read !in s.flights then s
      else if !IsCurrent(s, read) then Settled(s, read)
      else
        var r := s.flights[read];
        var s1 := Settled(s, read).(done := true, startupPending := false, loading := false,
                                    rendered := Resolve(s.rendered, next, r.confirmed),
                                    logouts := s.logouts + if LogsOut(s.rendered, next, r.confirmed) then 1 else 0);
        if next.Login().None? && !r.confirmed then s1.(logoutTimer := Some(Timer(r.epoch, e.now))) else s1
    case Rejected(read) =>
      if read !in s.flights then s
      else if !IsCurrent(s, read) then Settled(s, read)
      else Settled(s, read).(done := true, startupPending := false, loading := false, rendered := ErrorState)
    case AuthChanged(login) =>
      if s.stopped then s
      else
        var s1 := s.(epoch := s.epoch + 1, logoutTimer := None);
        if login.None? then s1.(logoutTimer := Some(Timer(s1.epoch, e.now))) else Started(s1, s1.epoch, false)
    case LogoutTimerFires =>
      if s.logoutTimer.None? || e.now - s.logoutTimer.value.scheduledAt < LOGOUT_CONFIRMATION then s
      else Started(s.(logoutTimer := None), s.logoutTimer.value.epoch, true)
    case StartupTimerFires =>
      if !s.startupPending then s
      else if s.done || s.stopped then s.(startupPending := false)
      else s.(startupPending := false, loading := false, rendered := TimeoutState)
    case Cleanup =>
      if s.stopped then s
      else s.(stopped := true, epoch := s.epoch + 1, logoutTimer := None, startupPending := false)
  }

  // ----- The effect itself ----------------------------------------------------------------------------------------

  class AuthEffect {
    var stopped: bool
    var done: bool
    var epoch: nat
    var sequence: nat
    /** The promises in flight, by the sequence number each closure captured. */
    var flights: map<nat, Read>
    var logoutTimer: Option<Timer>
    var startupPending: bool
    var loading: bool
    var rendered: Rendered
    /** How often the logout callback was called. */
    var logouts: nat

    ghost function State(): Machine
      reads this
    {
      Machine(stopped, done, epoch, sequence, flights, logoutTimer, startupPending, loading, rendered, logouts)
    }

    constructor (startupTimeout: bool, initial: Rendered)
      ensures State() == Mounted(startupTimeout, initial)
    {
      stopped, done, epoch, sequence, flights := false, false, 0, 0, map[];
      logoutTimer, startupPending, loading, rendered, logouts := None, startupTimeout, true, initial, 0;
      new;
      Begin(0, false);
    }

    method Begin(readEpoch: nat, confirmed: bool)
      modifies this`sequence, this`flights
      ensures State() == Started(old(State()), readEpoch, confirmed)
    {
      sequence := sequence + 1;
      flights := flights[sequence := Read(readEpoch, confirmed)];
    }

    method Confirm(readEpoch: nat, now: Date)
      modifies this`logoutTimer
      ensures State() == old(State()).(logoutTimer := Some(Timer(readEpoch, now)))
    {
      logoutTimer := Some(Timer(readEpoch, now));
    }

    /** The account and the method of a read are there. */
    method OnResolved(read: nat, next: Rendered, now: Date)
      modifies this
      ensures State() == Step(old(State()), Event(Resolved(read, next), now))
    {
      if read !in flights {
        return;
      }
      var r := flights[read];
      flights := flights - {read};
      if stopped || read != sequence || r.epoch != epoch {
        return;
      }
      done := true;
      startupPending := false;
      loading := false;
      if next.Login().None? && rendered.Login().Some? {
        if r.confirmed {
          logouts := logouts + 1;
          rendered := next;
        }
      } else {
        rendered := next;
      }
      if next.Login().None? && !r.confirmed {
        Confirm(r.epoch, now);
      }
    }

    /** A read, or handling its result, failed. */
    method OnRejected(read: nat, now: Date)
      modifies this
      ensures State() == Step(old(State()), Event(Rejected(read), now))
    {
      if read !in flights {
        return;
      }
      var r := flights[read];
      flights := flights - {read};
      if stopped || read != sequence || r.epoch != epoch {
        return;
      }
      done := true;
      startupPending := false;
      loading := false;
      rendered := ErrorState;
    }

    method OnAuthChanged(login: Option<Method>, now: Date)
      modifies this
      ensures State() == Step(old(State()), Event(AuthChanged(login), now))
    {
      if stopped {
        return;
      }
      epoch := epoch + 1;
      logoutTimer := None;
      if login.None? {
        Confirm(epoch, now);
      } else {
        Begin(epoch, false);
      }
    }

    method OnLogoutTimer(now: Date)
      modifies this
      ensures State() == Step(old(State()), Event(LogoutTimerFires, now))
    {
      if logoutTimer.None? || now - logoutTimer.value.scheduledAt < LOGOUT_CONFIRMATION {
        return;
      }
      var readEpoch := logoutTimer.value.epoch;
      logoutTimer := None;
      Begin(readEpoch, true);
    }

    method OnStartupTimer(now: Date)
      modifies this
      ensures State() == Step(old(State()), Event(StartupTimerFires, now))
    {
      if !startupPending {
        return;
      }
      startupPending := false;
      if !stopped && !done {
        loading := false;
        rendered := TimeoutState;
      }
    }

    method OnCleanup(now: Date)
      modifies this
      ensures State() == Step(old(State()), Event(Cleanup, now))
    {
      if stopped {
        return;
      }
      stopped := true;
      epoch := epoch + 1;
      logoutTimer := None;
      startupPending := false;
    }
  }

  // ----- What each event brings about ---------------------------------------------------------------------------

  /** A login is shown: an auth event with a login begins a read of the new epoch at once and calls off any logout, and
      whatever that read finds, if it is a login, is rendered. */
  lemma LoginIsShown(s: Machine, login: Method, found: Rendered, t: Date, u: Date)
    requires !s.stopped && found.Login().Some?
    ensures var begun := Step(s, Event(AuthChanged(Some(login)), t));
            var shown := Step(begun, Event(Resolved(begun.sequence, found), u));
            && begun.sequence == s.sequence + 1 && begun.flights == s.flights[begun.sequence := Read(s.epoch + 1, false)]
            && begun.logoutTimer == None && begun.rendered == s.rendered
            && shown.rendered == found && !shown.loading && shown.done && shown.logouts == s.logouts
            && begun.sequence !in shown.flights && shown.logoutTimer == None && !shown.startupPending
  {
  }

  /** A logout takes effect: an auth event without a login renders nothing by itself, ten seconds later a confirming read
      begins, not earlier, and if it finds no login either, that is rendered and the callback is called for a login that
      was shown. */
  lemma LogoutTakesEffect(s: Machine, found: Rendered, t: Date, u: Date, v: Date)
    requires !s.stopped && found.Login().None?
    ensures var asked := Step(s, Event(AuthChanged(None), t));
            var begun := Step(asked, Event(LogoutTimerFires, u));
            var shown := Step(begun, Event(Resolved(begun.sequence, found), v));
            && asked == s.(epoch := s.epoch + 1, logoutTimer := Some(Timer(s.epoch + 1, t)))
            && (u - t < 10.0 ==> begun == asked)
            && (u - t >= 10.0 ==>
                  && begun.flights == asked.flights[s.sequence + 1 := Read(s.epoch + 1, true)]
                  && shown.rendered == found && shown.logoutTimer == None && shown.done && !shown.loading
                  && shown.logouts == s.logouts + if s.rendered.Login().Some? then 1 else 0)
  {
  }

  /** A read that is current and finds no login, but is not a confirming one, never takes a login away: it schedules a
      confirmation; if none was shown it is rendered. */
  lemma LogoutIsHeldBack(s: Machine, read: nat, found: Rendered, t: Date)
    requires !s.stopped && read in s.flights && read == s.sequence && s.flights[read] == Read(s.epoch, false)
    requires found.Login().None?
    ensures var next := Step(s, Event(Resolved(read, found), t));
            && next.rendered == (if s.rendered.Login().Some? then s.rendered else found)
            && next.logoutTimer == Some(Timer(s.epoch, t)) && next.logouts == s.logouts && next.done && !next.loading
  {
  }

  /** The cleanup unmounts the effect for good and calls off both timers, and shows nothing new itself. */
  lemma CleanupStops(s: Machine, t: Date)
    ensures var next := Step(s, Event(Cleanup, t));
            && next.stopped && next.rendered == s.rendered && next.loading == s.loading && next.logouts == s.logouts
            && next.flights == s.flights && next.sequence == s.sequence && next.done == s.done
            && (if s.stopped then next == s
                else next.epoch == s.epoch + 1 && next.logoutTimer == None && !next.startupPending)
  {
  }

  /** Failures and the startup timeout: a current read that fails renders the error; the timeout renders itself once,
      unless a current read has settled or the effect was cleaned up; a late read may still replace it. */
  lemma FailuresAreShown(s: Machine, read: nat, t: Date)
    requires !s.stopped && read in s.flights && read == s.sequence && s.flights[read].epoch == s.epoch
    ensures var next := Step(s, Event(Rejected(read), t));
            && next.rendered == ErrorState && next.done && !next.loading && !next.startupPending
            && next.logouts == s.logouts && next.logoutTimer == s.logoutTimer && read !in next.flights
    ensures var next := Step(s, Event(StartupTimerFires, t));
            && next.rendered == (if s.startupPending && !s.done then TimeoutState else s.rendered)
            && (s.startupPending && !s.done ==> !next.loading && !next.done)
            && !next.startupPending && next.flights == s.flights
  {
  }

  // ----- Runs ---------------------------------------------------------------------------------------------------

  function After(start: Machine, events: seq<Event>): Machine {
    if events == [] then start else Step(After(start, events[..|events| - 1]), events[|events| - 1])
  }

  /** Read numbers are used once, timers and unfinished reads belong to epochs that began. */
  predicate Sane(s: Machine) {
    && (forall r <- s.flights :: r <= s.sequence && s.flights[r].epoch <= s.epoch)
    && (s.logoutTimer.Some? ==> s.logoutTimer.value.epoch == s.epoch && !s.stopped)
  }

  predicate IsMounted(start: Machine) {
    start == Mounted(start.startupPending, start.rendered)
  }

  /** How many events had happened when a read that is in flight was begun. */
  function BegunAfter(start: Machine, events: seq<Event>, read: nat): (n: nat)
    ensures n <= |events|
  {
    if events == [] then 0
    else
      var before := events[..|events| - 1];
      if read in After(start, before).flights then BegunAfter(start, before, read) else |events|
  }

  /** Auth events and the cleanup end an epoch. */
  predicate EndsEpoch(e: Event) {
    e.what.AuthChanged? || e.what.Cleanup?
  }

  lemma StepOfEpoch(s: Machine, e: Event)
    ensures s.epoch <= Step(s, e).epoch && s.sequence <= Step(s, e).sequence && (s.stopped ==> Step(s, e).stopped)
    ensures !s.stopped && EndsEpoch(e) ==> s.epoch < Step(s, e).epoch
  {
    hide Resolve, LogsOut;
  }

  lemma StepKeepsReadsSane(s: Machine, e: Event)
    requires Sane(s)
    ensures forall r <- Step(s, e).flights :: r <= Step(s, e).sequence && Step(s, e).flights[r].epoch <= Step(s, e).epoch
  {
    hide Resolve, LogsOut;
    StepOfEpoch(s, e);
    forall r <- Step(s, e).flights
      ensures r <= Step(s, e).sequence && Step(s, e).flights[r].epoch <= Step(s, e).epoch
    {
      StepOfReads(s, e, r);
    }
  }

  lemma StepKeepsTimerSane(s: Machine, e: Event)
    requires Sane(s)
    ensures Step(s, e).logoutTimer.Some? ==>
              Step(s, e).logoutTimer.value.epoch == Step(s, e).epoch && !Step(s, e).stopped
  {
    hide Resolve, LogsOut;
  }

  lemma {:induction false} RunsAreSane(start: Machine, events: seq<Event>)
    requires IsMounted(start)
    ensures Sane(After(start, events))
  {
    if events != [] {
      RunsAreSane(start, events[..|events| - 1]);
      StepKeepsReadsSane(After(start, events[..|events| - 1]), events[|events| - 1]);
      StepKeepsTimerSane(After(start, events[..|events| - 1]), events[|events| - 1]);
      hide Step;
    }
  }

  /** A read is begun in the epoch of that moment, and never changes; a confirming one is begun by the timer alone. */
  lemma StepOfReads(s: Machine, e: Event, read: nat)
    requires Sane(s) && read in Step(s, e).flights
    ensures read in s.flights ==> Step(s, e).flights[read] == s.flights[read]
    ensures read !in s.flights ==>
              && read == Step(s, e).sequence
              && Step(s, e).flights[read].epoch == Step(s, e).epoch
              && (Step(s, e).flights[read].confirmed ==>
                    && e.what.LogoutTimerFires? && s.logoutTimer.Some? && Step(s, e).epoch == s.epoch
                    && e.now - s.logoutTimer.value.scheduledAt >= LOGOUT_CONFIRMATION)
  {
    hide Resolve, LogsOut;
  }

  /** If the epoch has not moved since a point of a run that is still mounted, no auth event came since. */
  lemma {:induction false} SameEpochIsQuiet(start: Machine, events: seq<Event>, n: nat)
    requires IsMounted(start) && n <= |events|
    ensures After(start, events[..n]).epoch <= After(start, events).epoch
    ensures !After(start, events).stopped && After(start, events[..n]).epoch == After(start, events).epoch ==>
              forall i :: n <= i < |events| ==> !EndsEpoch(events[i])
  {
    if n == |events| {
      assert events[..n] == events;
    } else {
      var before := events[..|events| - 1];
      SameEpochIsQuiet(start, before, n);
      RunsAreSane(start, before);
      StepOfEpoch(After(start, before), events[|events| - 1]);
      assert before[..n] == events[..n];
      hide Step;
    }
  }

  lemma {:induction false} BegunInItsEpoch(start: Machine, events: seq<Event>, read: nat)
    requires IsMounted(start) && read in After(start, events).flights
    ensures var n := BegunAfter(start, events, read);
            && read in After(start, events[..n]).flights
            && After(start, events[..n]).flights[read] == After(start, events).flights[read]
            && After(start, events[..n]).epoch == After(start, events).flights[read].epoch
            && (After(start, events).flights[read].confirmed ==>
                  && n > 0 && events[n - 1].what.LogoutTimerFires?
                  && After(start, events[..n - 1]).epoch == After(start, events).flights[read].epoch
                  && After(start, events[..n - 1]).logoutTimer.Some?
                  && events[n - 1].now - After(start, events[..n - 1]).logoutTimer.value.scheduledAt
                     >= LOGOUT_CONFIRMATION)
  {
    if events != [] {
      var before, last := events[..|events| - 1], events[|events| - 1];
      RunsAreSane(start, before);
      StepOfReads(After(start, before), last, read);
      hide Step;
      if read in After(start, before).flights {
        BegunInItsEpoch(start, before, read);
        var n := BegunAfter(start, before, read);
        assert before[..n] == events[..n] && (n > 0 ==> before[..n - 1] == events[..n - 1]);
      } else {
        assert events[..|events|] == events;
      }
    } else {
      assert events[..0] == events;
    }
  }

  /** Everything but the bookkeeping of promises in flight. */
  function Visible(s: Machine): Machine {
    s.(flights := map[])
  }

  /** Over every run: a read changes anything only while the effect is mounted, only if no newer read was begun, and only
      if no auth event came since it was begun. */
  lemma StaleReadsNeverCommit(start: Machine, events: seq<Event>, e: Event)
    requires IsMounted(start) && (e.what.Resolved? || e.what.Rejected?)
    requires Visible(Step(After(start, events), e)) != Visible(After(start, events))
    ensures var s := After(start, events);
            && !s.stopped && e.what.read in s.flights && e.what.read == s.sequence
            && forall i :: BegunAfter(start, events, e.what.read) <= i < |events| ==> !EndsEpoch(events[i])
  {
    BegunInItsEpoch(start, events, e.what.read);
    SameEpochIsQuiet(start, events, BegunAfter(start, events, e.what.read));
  }

  /** After the cleanup nothing is rendered, loaded or logged out any more, whatever still arrives. */
  lemma {:induction false} CleanupIsFinal(start: Machine, events: seq<Event>, more: seq<Event>)
    requires IsMounted(start) && After(start, events).stopped
    ensures Visible(After(start, events + more)).(startupPending := false)
            == Visible(After(start, events)).(startupPending := false)
  {
    if more == [] {
      assert events + more == events;
    } else {
      var n := |more| - 1;
      CleanupIsFinal(start, events, more[..n]);
      assert (events + more)[..|events + more| - 1] == events + more[..n];
      assert (events + more)[|events + more| - 1] == more[n];
      RunsAreSane(start, events + more[..n]);
    }
  }

  /** What schedules the confirmation of a logout: an auth event without a login, or a current, unconfirmed read that
      found none. */
  predicate Schedules(s: Machine, e: Event) {
    || e.what == AuthChanged(None)
    || (e.what.Resolved? && e.what.read in s.flights && IsCurrent(s, e.what.read) && e.what.next.Login().None?
        && !s.flights[e.what.read].confirmed)
  }

  lemma StepOfTimer(s: Machine, e: Event)
    requires Sane(s) && Step(s, e).logoutTimer.Some?
    ensures || (Step(s, e).logoutTimer == s.logoutTimer && Step(s, e).epoch == s.epoch)
            || (Schedules(s, e) && Step(s, e).logoutTimer.value.scheduledAt == e.now)
  {
    hide Resolve, LogsOut;
  }

  /** A pending confirmation was scheduled by an event of the current epoch, at that event's time. */
  lemma {:induction false} TimerOrigin(start: Machine, events: seq<Event>) returns (k: nat)
    requires IsMounted(start) && After(start, events).logoutTimer.Some?
    ensures k < |events| && Schedules(After(start, events[..k]), events[k])
    ensures After(start, events).logoutTimer.value.scheduledAt == events[k].now
    ensures After(start, events[..k + 1]).epoch == After(start, events).epoch
  {
    var n := |events| - 1;
    var before, last := events[..n], events[n];
    RunsAreSane(start, before);
    StepOfTimer(After(start, before), last);
    k := n;
    assert events[..n + 1] == events;
    hide Step;
    if !(Schedules(After(start, before), last) && After(start, events).logoutTimer.value.scheduledAt == last.now) {
      k := TimerOrigin(start, before);
      assert before[..k] == events[..k] && before[..k + 1] == events[..k + 1];
    }
  }

  /** What replaces a login by none, other than the failure states. */
  lemma StepOfLogout(s: Machine, e: Event)
    requires s.rendered.Login().Some? && Step(s, e).rendered.Login().None?
    requires !Step(s, e).rendered.ErrorState? && !Step(s, e).rendered.TimeoutState?
    ensures e.what.Resolved? && e.what.read in s.flights && IsCurrent(s, e.what.read) && s.flights[e.what.read].confirmed
  {
  }

  /** Over every run: apart from the explicit error and timeout states, an account that is logged in is replaced by one
      that is not only by a confirming read of the current epoch, begun at least ten seconds after an event of that epoch
      had scheduled the confirmation. */
  lemma LogoutIsConfirmed(start: Machine, events: seq<Event>, e: Event) returns (scheduled: nat, begun: nat)
    requires IsMounted(start)
    requires After(start, events).rendered.Login().Some?
    requires Step(After(start, events), e).rendered.Login().None?
    requires !Step(After(start, events), e).rendered.ErrorState? && !Step(After(start, events), e).rendered.TimeoutState?
    ensures var s := After(start, events);
            && e.what.Resolved? && e.what.read in s.flights && s.flights[e.what.read] == Read(s.epoch, true)
            && e.what.read == s.sequence && !s.stopped
            && scheduled < begun < |events| && events[begun].what.LogoutTimerFires?
            && BegunAfter(start, events, e.what.read) == begun + 1
            && Schedules(After(start, events[..scheduled]), events[scheduled])
            && events[begun].now - events[scheduled].now >= LOGOUT_CONFIRMATION
            && (forall i :: scheduled < i < |events| ==> !EndsEpoch(events[i]))
  {
    var s := After(start, events);
    StepOfLogout(s, e);
    hide Step;
    BegunInItsEpoch(start, events, e.what.read);
    var n := BegunAfter(start, events, e.what.read);
    begun := n - 1;
    scheduled := TimerOrigin(start, events[..begun]);
    assert events[..begun][..scheduled] == events[..scheduled];
    assert events[..begun][..scheduled + 1] == events[..scheduled + 1];
    SameEpochIsQuiet(start, events, scheduled + 1);
  }
}
