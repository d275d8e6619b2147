/** Telemetry reported by a remote machine, projected onto the local accounts without touching who they are. */
module RemoteTelemetry {
  import opened Prelude
  import opened Identity
  import opened Accounts
  import opened ResetBank
  import opened ResetInventory
  import CredentialHandoff
  import Quota

  const MAXIMUM_IDENTITY_LENGTH: nat := 256
  const MAXIMUM_REASON_LENGTH: nat := 256

  datatype Report = Report(providerAccountId: Option<string>, quota: Option<Quota.Snapshot>, planType: Option<string>,
                           lastRefreshed: Option<Date>, subscription: Subscription, bank: Option<Bank>,
                           unusableUntil: Option<Date>, unusableReason: Option<string>)
  {
    /** The identity the report is about, if it is bounded and printable. */
    function Identity(): Option<string> {
      if providerAccountId.Some? && IsBounded(providerAccountId.value, MAXIMUM_IDENTITY_LENGTH)
      then StableIdentity(providerAccountId.value) else None
    }

    predicate HasSubscription() {
      planType.Some? || subscription != Subscription(None, None, None, None)
    }
  }

  predicate IsBounded(s: string, limit: nat) {
    s != "" && |s| <= limit && forall i :: 0 <= i < |s| ==> s[i] as int >= 32 && s[i] as int != 127
  }

  predicate IsRecent(date: Date, now: Date) {
    0.0 <= now - date <= Quota.MAXIMUM_SNAPSHOT_AGE
  }

  /** Later than what is known, if anything is. */
  predicate IsLater(date: Date, known: Option<Date>) {
    known.Some? ==> date > known.value
  }

  predicate IsValidQuota(q: Quota.Snapshot, observedAt: Date, now: Date) {
    && q.fetchedAt <= observedAt && Quota.IsFresh(q, now)
    && (forall w <- Quota.PolicyWindows(q.windows) :: w.resetsAt > now)
    && !Quota.HasPlaceholder(q) && !Quota.HasInvalidPolicyEvidence(q)
    && (Quota.IsDenied(q) || Quota.PolicyWindows(q.windows) != [])
  }

  predicate IsValidSubscription(r: Report, observedAt: Date, now: Date) {
    && r.lastRefreshed.Some? && r.lastRefreshed.value <= observedAt && IsRecent(r.lastRefreshed.value, now)
    && (r.planType.Some? ==> HasContent(r.planType.value))
  }

  predicate IsValidRuntimeBlock(r: Report, now: Date) {
    if r.unusableUntil.None? || r.unusableReason.None? then r.unusableUntil.None? && r.unusableReason.None?
    else r.unusableUntil.value > now && IsBounded(Trim(r.unusableReason.value), MAXIMUM_REASON_LENGTH)
  }

  predicate IsValidTelemetry(r: Report, observedAt: Date, now: Date) {
    && (r.quota.Some? ==> IsValidQuota(r.quota.value, observedAt, now))
    && (r.HasSubscription() ==> IsValidSubscription(r, observedAt, now))
    && IsValidRuntimeBlock(r, now)
  }

  function LaterOf(a: Option<Date>, b: Date): Option<Date> {
    if a.Some? && a.value >= b then a else Some(b)
  }

  function WithQuota(a: Account, current: Account, r: Report): Account {
    if r.quota.Some? && (current.quota.Some? ==> r.quota.value.fetchedAt > current.quota.value.fetchedAt)
    then a.(quota := r.quota, lastRefreshed := LaterOf(a.lastRefreshed, r.quota.value.fetchedAt)) else a
  }

  function WithSubscription(a: Account, current: Account, r: Report): Account {
    if r.HasSubscription() && r.lastRefreshed.Some? && IsLater(r.lastRefreshed.value, current.lastRefreshed)
    then a.(planType := r.planType, subscription := r.subscription,
            lastRefreshed := LaterOf(a.lastRefreshed, r.lastRefreshed.value)) else a
  }

  function WithBank(a: Account, current: Account, r: Report, observedAt: Date): Account {
    if r.bank.Some? && r.bank.value.fetchedAt <= observedAt && NewestValidBank(r.bank, current.bank).Some?
    then a.(bank := NewestValidBank(r.bank, current.bank)) else a
  }

  /** One account after one report; `accepts` says whether anything but its bank may change. */
  function ProjectedAccount(a: Account, r: Report, observedAt: Date, accepts: bool): Account {
    if accepts then
      WithBank(WithSubscription(WithQuota(a, a, r), a, r), a, r, observedAt)
        .(unusableUntil := r.unusableUntil, unusableReason := r.unusableReason)
    else WithBank(a, a, r, observedAt)
  }

  /** The accounts, and when each identity was last observed. */
  datatype Telemetry = Telemetry(accounts: seq<Account>, observed: map<string, Date>)

  function LastObserved(t: Telemetry, identity: string): Option<Date> {
    if identity in t.observed then Some(t.observed[identity]) else None
  }

  function IndexOf(accounts: seq<Account>, identity: string): Option<nat> {
    if accounts == [] then None
    else if accounts[|accounts| - 1].ProviderIdentity() == Some(identity) then Some(|accounts| - 1)
    else IndexOf(accounts[..|accounts| - 1], identity)
  }

  lemma {:induction false} IndexIsFound(accounts: seq<Account>, identity: string)
    ensures IndexOf(accounts, identity).Some? ==>
              var i := IndexOf(accounts, identity).value;
              i < |accounts| && accounts[i].ProviderIdentity() == Some(identity)
    ensures IndexOf(accounts, identity).None? ==>
              forall i :: 0 <= i < |accounts| ==> accounts[i].ProviderIdentity() != Some(identity)
  {
    if accounts != [] {
      IndexIsFound(accounts[..|accounts| - 1], identity);
    }
  }

  function ProjectOne(t: Telemetry, identity: string, r: Report, observedAt: Date, now: Date): Telemetry {
    IndexIsFound(t.accounts, identity);
    var index := IndexOf(t.accounts, identity);
    if index.None? then t
    else
      var advances := IsLater(observedAt, LastObserved(t, identity));
      var projected := ProjectedAccount(t.accounts[index.value], r, observedAt,
                                        advances && IsValidTelemetry(r, observedAt, now));
      Telemetry(t.accounts[index.value := projected],
                if advances then t.observed[identity := observedAt] else t.observed)
  }

  predicate AllIdentified(reports: seq<Report>) {
    && (forall r <- reports :: r.Identity().Some?)
    && forall i, j :: 0 <= i < j < |reports| ==> reports[i].Identity() != reports[j].Identity()
  }

  function ProjectAll(t: Telemetry, reports: seq<Report>, observedAt: Date, now: Date): Telemetry
    requires forall r <- reports :: r.Identity().Some?
  {
    if reports == [] then t
    else
      var before, last := reports[..|reports| - 1], reports[|reports| - 1];
      ProjectOne(ProjectAll(t, before, observedAt, now), last.Identity().value, last, observedAt, now)
  }

  /** A stale or ambiguous report, or an ambiguous account list, changes nothing at all. */
  function Project(t: Telemetry, reports: seq<Report>, observedAt: Date, now: Date): Telemetry {
    if IsRecent(observedAt, now) && AllIdentified(reports) && Unambiguous(t.accounts)
    then ProjectAll(t, reports, observedAt, now) else t
  }

  // ----- One projection ---------------------------------------------------------------------------------------------

  /** Nothing known about an account became older. */
  predicate NotOlder(a: Account, b: Account) {
    && (b.quota.Some? ==> a.quota.Some? && a.quota.value.fetchedAt >= b.quota.value.fetchedAt)
    && (b.lastRefreshed.Some? ==> a.lastRefreshed.Some? && a.lastRefreshed.value >= b.lastRefreshed.value)
    && AtLeastAsNew(a.bank, b.bank)
  }

  predicate Follows(a: Account, b: Account) {
    CredentialHandoff.SameAuthority(a, b) && NotOlder(a, b)
  }

  lemma ProjectedAccountFollows(a: Account, r: Report, observedAt: Date, accepts: bool)
    ensures Follows(ProjectedAccount(a, r, observedAt, accepts), a)
    ensures !accepts ==>
              ProjectedAccount(a, r, observedAt, accepts) == a.(bank := ProjectedAccount(a, r, observedAt, accepts).bank)
  {
    NewestIsNewest(r.bank, a.bank);
    hide NewestValidBank, IsValidAt;
  }

  function LatestOf(a: Option<Date>, b: Option<Date>): Option<Date> {
    if a.None? then b else if b.None? then a else Some(Max(a.value, b.value))
  }

  /** What an accepted report changes, field by field: a newer quota is taken, a subscription refreshed later than the
      account is taken, the account counts as refreshed when the newest of what was taken was read, and the runtime's own
      verdict is the report's. A report that is not accepted changes none of these. The bank is the newest valid one. */
  lemma ProjectedAccountIsExact(a: Account, r: Report, observedAt: Date, accepts: bool)
    ensures var p := ProjectedAccount(a, r, observedAt, accepts);
            var newer := accepts && r.quota.Some? && (a.quota.None? || r.quota.value.fetchedAt > a.quota.value.fetchedAt);
            var renewed := accepts && r.HasSubscription() && r.lastRefreshed.Some?
                           && (a.lastRefreshed.None? || r.lastRefreshed.value > a.lastRefreshed.value);
            && p.quota == (if newer then r.quota else a.quota)
            && (p.planType, p.subscription) == (if renewed then (r.planType, r.subscription)
                                                else (a.planType, a.subscription))
            && p.lastRefreshed == LatestOf(LatestOf(a.lastRefreshed, if newer then Some(r.quota.value.fetchedAt) else None),
                                           if renewed then r.lastRefreshed else None)
            && (p.unusableUntil, p.unusableReason) == (if accepts then (r.unusableUntil, r.unusableReason)
                                                       else (a.unusableUntil, a.unusableReason))
            && p.bank == (if r.bank.Some? && r.bank.value.fetchedAt <= observedAt && NewestValidBank(r.bank, a.bank).Some?
                          then NewestValidBank(r.bank, a.bank) else a.bank)
  {
    hide NewestValidBank, HasContent;
  }

  /** Every account keeps its place, its identity and its authority, nothing gets older, observation times only advance. */
  predicate Advances(t': Telemetry, t: Telemetry) {
    && |t'.accounts| == |t.accounts|
    && (forall i :: 0 <= i < |t.accounts| ==> Follows(t'.accounts[i], t.accounts[i]))
    && (forall s <- t.observed :: s in t'.observed && t'.observed[s] >= t.observed[s])
  }

  lemma FollowsIsTransitive(a: Account, b: Account, c: Account)
    requires Follows(a, b) && Follows(b, c)
    ensures Follows(a, c)
  {
    hide IsValidAt;
  }

  lemma AdvancesIsTransitive(a: Telemetry, b: Telemetry, c: Telemetry)
    requires Advances(a, b) && Advances(b, c)
    ensures Advances(a, c)
  {
    hide Follows;
    forall i | 0 <= i < |c.accounts|
      ensures Follows(a.accounts[i], c.accounts[i])
    {
      FollowsIsTransitive(a.accounts[i], b.accounts[i], c.accounts[i]);
    }
  }

  lemma FollowsItself(a: Account)
    ensures Follows(a, a)
  {
    hide IsValidAt;
  }

  lemma ProjectOneAdvances(t: Telemetry, identity: string, r: Report, observedAt: Date, now: Date)
    ensures Advances(ProjectOne(t, identity, r, observedAt, now), t)
  {
    hide Follows, ProjectedAccount, IsValidTelemetry;
    IndexIsFound(t.accounts, identity);
    forall i | 0 <= i < |t.accounts|
      ensures Follows(t.accounts[i], t.accounts[i])
    {
      FollowsItself(t.accounts[i]);
    }
    var index := IndexOf(t.accounts, identity);
    if index.Some? {
      ProjectedAccountFollows(t.accounts[index.value], r, observedAt,
                              IsLater(observedAt, LastObserved(t, identity)) && IsValidTelemetry(r, observedAt, now));
    }
  }

  lemma {:induction false} ProjectAllAdvances(t: Telemetry, reports: seq<Report>, observedAt: Date, now: Date)
    requires forall r <- reports :: r.Identity().Some?
    ensures Advances(ProjectAll(t, reports, observedAt, now), t)
  {
    hide Follows, ProjectOne;
    if reports == [] {
      forall i | 0 <= i < |t.accounts|
        ensures Follows(t.accounts[i], t.accounts[i])
      {
        FollowsItself(t.accounts[i]);
      }
    } else {
      var before, last := reports[..|reports| - 1], reports[|reports| - 1];
      ProjectAllAdvances(t, before, observedAt, now);
      var mid := ProjectAll(t, before, observedAt, now);
      ProjectOneAdvances(mid, last.Identity().value, last, observedAt, now);
      AdvancesIsTransitive(ProjectOne(mid, last.Identity().value, last, observedAt, now), mid, t);
    }
  }

  // ----- What a delivery does to each account ------------------------------------------------------------------------

  /** A report counts when its quota was read in the last quarter of an hour, by the time of the observation, and is
      usable evidence about windows that are still to reset; when its subscription was refreshed as recently; and when its
      verdict on the runtime is complete and still to come, or absent. */
  lemma TelemetryIsValidExactlyWhen(r: Report, observedAt: Date, now: Date)
    ensures IsValidTelemetry(r, observedAt, now) <==>
              && (r.quota.Some? ==> IsUsableReading(r.quota.value, observedAt, now))
              && ((r.planType.Some? || r.subscription != Subscription(None, None, None, None)) ==>
                    && r.lastRefreshed.Some? && r.lastRefreshed.value <= observedAt
                    && r.lastRefreshed.value <= now <= r.lastRefreshed.value + 900.0
                    && (r.planType.Some? ==> !IsBlank(r.planType.value)))
              && (r.unusableUntil.Some? <==> r.unusableReason.Some?)
              && (r.unusableUntil.Some? ==>
                    && r.unusableUntil.value > now
                    && 0 < |Trim(r.unusableReason.value)| <= 256 && IsPrintable(Trim(r.unusableReason.value)))
  {
    if r.quota.Some? {
      UsableReadingIsValid(r.quota.value, observedAt, now);
    }
    if r.planType.Some? {
      StableIdentityIsExact(r.planType.value);
    }
    if r.unusableReason.Some? {
      BoundedIsPrintable(Trim(r.unusableReason.value), MAXIMUM_REASON_LENGTH);
    }
    hide IsValidQuota, IsUsableReading, HasContent, Trim, IsBlank, IsBounded, IsPrintable;
  }

  /** A report is about an identity of at most 256 printable characters that are not all blank. */
  lemma ReportIsIdentifiedExactlyWhen(r: Report)
    ensures r.Identity().Some? <==>
              && r.providerAccountId.Some?
              && var id := r.providerAccountId.value; 0 < |id| <= 256 && IsPrintable(id) && !IsBlank(id)
    ensures r.Identity().Some? ==> r.Identity() == StableIdentity(r.providerAccountId.value)
  {
    if r.providerAccountId.Some? {
      BoundedIsPrintable(r.providerAccountId.value, MAXIMUM_IDENTITY_LENGTH);
      StableIdentityIsExact(r.providerAccountId.value);
    }
    hide IsBounded, IsPrintable, IsBlank, StableIdentity;
  }

  lemma BoundedIsPrintable(s: string, limit: nat)
    ensures IsBounded(s, limit) <==> 0 < |s| <= limit && IsPrintable(s)
  {
    if IsBounded(s, limit) {
      forall c <- s
        ensures c as int >= 32 && c as int != 127
      {
        var i :| 0 <= i < |s| && s[i] == c;
      }
    } else if IsPrintable(s) {
      assert forall i :: 0 <= i < |s| ==> s[i] in s;
    }
  }

  predicate IsPrintable(s: string) {
    forall c <- s :: c as int >= 32 && c as int != 127
  }

  predicate IsUsableReading(q: Quota.Snapshot, observedAt: Date, now: Date) {
    var denied := q.allowed == Some(false) || q.limitReached == Some(true);
    && q.fetchedAt <= observedAt && q.fetchedAt <= now <= q.fetchedAt + 900.0
    && (forall w <- q.windows :: !w.kind.Unknown? ==>
          w.resetsAt > now && w.usedPercent >= 0.0
          && (w.usedPercent > 0.0001 || w.hardLimitReached
              || w.resetsAt < q.fetchedAt - 10.0 || w.resetsAt > q.fetchedAt + 10.0))
    && (denied || exists w <- q.windows :: !w.kind.Unknown?)
  }

  lemma UsableReadingIsValid(q: Quota.Snapshot, observedAt: Date, now: Date)
    ensures IsValidQuota(q, observedAt, now) <==> IsUsableReading(q, observedAt, now)
  {
    Quota.SnapshotIsExact(q, now);
    var policy := Quota.PolicyWindows(q.windows);
    assert policy != [] <==> exists w <- q.windows :: !w.kind.Unknown? by {
      assert policy != [] ==> policy[0] in policy;
    }
    hide Quota.PolicyWindows;
  }

  /** The report is about the account. */
  predicate IsAbout(r: Report, a: Account) {
    r.Identity().Some? && r.Identity() == a.ProviderIdentity()
  }

  lemma {:induction false} OnlyIndex(accounts: seq<Account>, i: nat)
    requires Unambiguous(accounts) && i < |accounts|
    ensures IndexOf(accounts, accounts[i].ProviderIdentity().value) == Some(i)
  {
    hide Account.ProviderIdentity;
    IndexIsFound(accounts, accounts[i].ProviderIdentity().value);
    var found := IndexOf(accounts, accounts[i].ProviderIdentity().value);
    assert found.Some?;
  }

  lemma {:induction false} ProjectAllKeepsIdentities(t: Telemetry, reports: seq<Report>, observedAt: Date, now: Date)
    requires forall r <- reports :: r.Identity().Some?
    ensures var p := ProjectAll(t, reports, observedAt, now).accounts;
            |p| == |t.accounts| && forall i :: 0 <= i < |p| ==> p[i].accountId == t.accounts[i].accountId
  {
    if reports != [] {
      var before, last := reports[..|reports| - 1], reports[|reports| - 1];
      ProjectAllKeepsIdentities(t, before, observedAt, now);
      ProjectOneAbsorbs(ProjectAll(t, before, observedAt, now), last, observedAt, now);
      hide ProjectOne, Report.Identity, Absorbed;
    }
  }

  lemma SameIdentitiesStayUnambiguous(a: seq<Account>, b: seq<Account>)
    requires Unambiguous(a) && |a| == |b| && forall i :: 0 <= i < |a| ==> a[i].accountId == b[i].accountId
    ensures Unambiguous(b)
    ensures forall i :: 0 <= i < |a| ==> a[i].ProviderIdentity().Some? && a[i].ProviderIdentity() == b[i].ProviderIdentity()
  {
    assert forall i :: 0 <= i < |a| ==> a[i] in a && a[i].ProviderIdentity() == b[i].ProviderIdentity();
    hide StableIdentity;
  }

  /** One report changes the account it is about, and nothing about any other. */
  lemma ProjectOneIsExact(t: Telemetry, r: Report, observedAt: Date, now: Date, i: nat)
    requires Unambiguous(t.accounts) && i < |t.accounts| && r.Identity().Some?
    ensures var identity, p := t.accounts[i].ProviderIdentity().value,
                               ProjectOne(t, r.Identity().value, r, observedAt, now);
            && |p.accounts| == |t.accounts|
            && (!IsAbout(r, t.accounts[i]) ==>
                  p.accounts[i] == t.accounts[i] && LastObserved(p, identity) == LastObserved(t, identity))
            && (IsAbout(r, t.accounts[i]) ==> IsTakenIn(t, p, r, observedAt, now, i))
  {
    OnlyIndex(t.accounts, i);
    IndexIsFound(t.accounts, r.Identity().value);
    hide ProjectedAccount, IsValidTelemetry, Report.Identity, Account.ProviderIdentity, IndexOf, Unambiguous;
  }

  /** The account of a report after it: what an advancing, valid report leaves, observed no earlier than the report. */
  predicate IsTakenIn(t: Telemetry, p: Telemetry, r: Report, observedAt: Date, now: Date, i: nat)
    requires i < |t.accounts| == |p.accounts| && t.accounts[i].ProviderIdentity().Some?
  {
    var identity := t.accounts[i].ProviderIdentity().value;
    var known := LastObserved(t, identity);
    var advances := known.None? || observedAt > known.value;
    && p.accounts[i] == ProjectedAccount(t.accounts[i], r, observedAt,
                                         advances && IsValidTelemetry(r, observedAt, now))
    && LastObserved(p, identity) == if advances then Some(observedAt) else known
  }

  /** After a delivery the account is what its own report makes of it, or what it was if there is none. */
  predicate FollowsItsReport(t: Telemetry, p: Telemetry, reports: seq<Report>, observedAt: Date, now: Date, i: nat)
    requires i < |t.accounts| == |p.accounts| && t.accounts[i].ProviderIdentity().Some?
  {
    var identity := t.accounts[i].ProviderIdentity().value;
    && ((forall r <- reports :: !IsAbout(r, t.accounts[i])) ==>
          p.accounts[i] == t.accounts[i] && LastObserved(p, identity) == LastObserved(t, identity))
    && (forall r <- reports :: IsAbout(r, t.accounts[i]) ==> IsTakenIn(t, p, r, observedAt, now, i))
  }

  lemma OneMoreReport(t: Telemetry, mid: Telemetry, p: Telemetry, before: seq<Report>, last: Report, observedAt: Date,
                      now: Date, i: nat)
    requires i < |t.accounts| == |mid.accounts| == |p.accounts|
    requires t.accounts[i].ProviderIdentity().Some?
    requires mid.accounts[i].ProviderIdentity() == t.accounts[i].ProviderIdentity()
    requires FollowsItsReport(t, mid, before, observedAt, now, i)
    requires forall r <- before :: r.Identity() != last.Identity()
    requires !IsAbout(last, mid.accounts[i]) ==>
               && p.accounts[i] == mid.accounts[i]
               && var identity := t.accounts[i].ProviderIdentity().value;
                  LastObserved(p, identity) == LastObserved(mid, identity)
    requires IsAbout(last, mid.accounts[i]) ==> IsTakenIn(mid, p, last, observedAt, now, i)
    ensures FollowsItsReport(t, p, before + [last], observedAt, now, i)
  {
    hide Report.Identity, Account.ProviderIdentity, ProjectedAccount, IsValidTelemetry;
    var reports := before + [last];
    assert forall r <- reports :: r in before || r == last;
    assert (forall r <- reports :: !IsAbout(r, t.accounts[i])) ==> last in reports && forall r <- before :: r in reports;
  }

  lemma {:induction false} ProjectAllIsExact(t: Telemetry, reports: seq<Report>, observedAt: Date, now: Date, i: nat)
    requires AllIdentified(reports) && Unambiguous(t.accounts) && i < |t.accounts|
    ensures var p := ProjectAll(t, reports, observedAt, now);
            |p.accounts| == |t.accounts| && FollowsItsReport(t, p, reports, observedAt, now, i)
  {
    hide Report.Identity, Account.ProviderIdentity, ProjectOne, IsTakenIn, IsAbout, Unambiguous;
    if reports != [] {
      var before, last := reports[..|reports| - 1], reports[|reports| - 1];
      assert reports == before + [last];
      ProjectAllIsExact(t, before, observedAt, now, i);
      ProjectAllKeepsIdentities(t, before, observedAt, now);
      var mid := ProjectAll(t, before, observedAt, now);
      SameIdentitiesStayUnambiguous(t.accounts, mid.accounts);
      ProjectOneIsExact(mid, last, observedAt, now, i);
      forall r <- before
        ensures r.Identity() != last.Identity()
      {
        var k :| 0 <= k < |before| && before[k] == r;
        assert reports[k].Identity() != reports[|before|].Identity();
      }
      OneMoreReport(t, mid, ProjectAll(t, reports, observedAt, now), before, last, observedAt, now, i);
    }
  }

  /** Every report names an identity, and no two the same. */
  predicate NamesEachOnce(reports: seq<Report>) {
    forall i | 0 <= i < |reports| :: reports[i].Identity().Some?
      && forall j | 0 <= j < |reports| && j != i :: reports[j].Identity() != reports[i].Identity()
  }

  predicate HoldsEachOnce(accounts: seq<Account>) {
    forall i | 0 <= i < |accounts| :: accounts[i].ProviderIdentity().Some?
      && forall j | 0 <= j < |accounts| && j != i :: accounts[j].ProviderIdentity() != accounts[i].ProviderIdentity()
  }

  lemma NamedOnceIsUnambiguous(reports: seq<Report>, accounts: seq<Account>)
    ensures NamesEachOnce(reports) <==> AllIdentified(reports)
    ensures HoldsEachOnce(accounts) <==> Unambiguous(accounts)
  {
    hide Report.Identity, Account.ProviderIdentity;
    assert forall i | 0 <= i < |reports| :: reports[i] in reports;
    assert forall i | 0 <= i < |accounts| :: accounts[i] in accounts;
  }

  /** A delivery is taken in exactly if it was observed in the last quarter of an hour and neither its reports nor the
      accounts are ambiguous; then every account is what its own report, if there is one, makes of it, whatever else the
      delivery holds and in whatever order. */
  lemma DeliveryIsExact(t: Telemetry, reports: seq<Report>, observedAt: Date, now: Date)
    ensures var p := Project(t, reports, observedAt, now);
            var taken := && observedAt <= now <= observedAt + 900.0 && NamesEachOnce(reports) && HoldsEachOnce(t.accounts);
            && |p.accounts| == |t.accounts|
            && (!taken ==> p == t)
            && (taken ==>
                  forall i: nat | i < |t.accounts| :: FollowsItsReport(t, p, reports, observedAt, now, i))
  {
    hide ProjectAll, FollowsItsReport, Report.Identity, Account.ProviderIdentity, NamesEachOnce, HoldsEachOnce;
    NamedOnceIsUnambiguous(reports, t.accounts);
    if AllIdentified(reports) && Unambiguous(t.accounts) {
      ProjectAllKeepsIdentities(t, reports, observedAt, now);
      forall i: nat | i < |t.accounts|
        ensures FollowsItsReport(t, ProjectAll(t, reports, observedAt, now), reports, observedAt, now, i)
      {
        ProjectAllIsExact(t, reports, observedAt, now, i);
      }
    }
  }

  // ----- Repeated deliveries ----------------------------------------------------------------------------------------

  /** A report that has been taken in: its observation is known, and its bank has nothing to add. */
  predicate Absorbed(t: Telemetry, r: Report, observedAt: Date)
    requires r.Identity().Some?
  {
    var index := IndexOf(t.accounts, r.Identity().value);
    index.Some? ==>
      && index.value < |t.accounts|
      && !IsLater(observedAt, LastObserved(t, r.Identity().value))
      && WithBank(t.accounts[index.value], t.accounts[index.value], r, observedAt) == t.accounts[index.value]
  }

  lemma {:induction false} SameIdentitiesSameIndex(a: seq<Account>, b: seq<Account>, identity: string)
    requires |a| == |b| && forall i :: 0 <= i < |a| ==> a[i].accountId == b[i].accountId
    ensures IndexOf(a, identity) == IndexOf(b, identity)
  {
    if a != [] {
      assert a[|a| - 1].ProviderIdentity() == b[|b| - 1].ProviderIdentity();
      SameIdentitiesSameIndex(a[..|a| - 1], b[..|b| - 1], identity);
    }
  }

  lemma ProjectedAccountAbsorbs(a: Account, r: Report, observedAt: Date, accepts: bool)
    ensures var p := ProjectedAccount(a, r, observedAt, accepts);
            WithBank(p, p, r, observedAt) == p && p.accountId == a.accountId
  {
    NewestIsNewest(r.bank, a.bank);
    NewestIsNewest(r.bank, NewestValidBank(r.bank, a.bank));
    hide IsValidAt;
  }

  lemma ProjectOneAbsorbs(t: Telemetry, r: Report, observedAt: Date, now: Date)
    requires r.Identity().Some?
    ensures var t' := ProjectOne(t, r.Identity().value, r, observedAt, now);
            Absorbed(t', r, observedAt)
            && |t'.accounts| == |t.accounts|
            && forall i :: 0 <= i < |t.accounts| ==> t'.accounts[i].accountId == t.accounts[i].accountId
  {
    hide ProjectedAccount, IsValidTelemetry, WithBank, Report.Identity;
    var identity := r.Identity().value;
    IndexIsFound(t.accounts, identity);
    var index := IndexOf(t.accounts, identity);
    if index.Some? {
      ProjectedAccountAbsorbs(t.accounts[index.value], r, observedAt,
                              IsLater(observedAt, LastObserved(t, identity)) && IsValidTelemetry(r, observedAt, now));
    }
    SameIdentitiesSameIndex(t.accounts, ProjectOne(t, identity, r, observedAt, now).accounts, identity);
  }

  /** Taking in a report about another account leaves an absorbed one absorbed. */
  lemma OtherStaysAbsorbed(t: Telemetry, r: Report, other: Report, observedAt: Date, now: Date)
    requires r.Identity().Some? && other.Identity().Some? && r.Identity() != other.Identity()
    requires Absorbed(t, other, observedAt)
    ensures Absorbed(ProjectOne(t, r.Identity().value, r, observedAt, now), other, observedAt)
  {
    ProjectOneAbsorbs(t, r, observedAt, now);
    hide ProjectedAccount, IsValidTelemetry, WithBank, Report.Identity;
    IndexIsFound(t.accounts, r.Identity().value);
    IndexIsFound(t.accounts, other.Identity().value);
    SameIdentitiesSameIndex(t.accounts, ProjectOne(t, r.Identity().value, r, observedAt, now).accounts,
                            other.Identity().value);
  }

  lemma {:induction false} ProjectAllAbsorbs(t: Telemetry, reports: seq<Report>, observedAt: Date, now: Date)
    requires AllIdentified(reports)
    ensures forall r <- reports :: Absorbed(ProjectAll(t, reports, observedAt, now), r, observedAt)
  {
    hide Absorbed, ProjectOne, Report.Identity;
    if reports != [] {
      var before, last := reports[..|reports| - 1], reports[|reports| - 1];
      assert reports == before + [last];
      ProjectAllAbsorbs(t, before, observedAt, now);
      var mid := ProjectAll(t, before, observedAt, now);
      ProjectOneAbsorbs(mid, last, observedAt, now);
      forall r <- before
        ensures Absorbed(ProjectOne(mid, last.Identity().value, last, observedAt, now), r, observedAt)
      {
        var i :| 0 <= i < |before| && before[i] == r;
        assert reports[i].Identity() != reports[|before|].Identity();
        OtherStaysAbsorbed(mid, last, r, observedAt, now);
      }
    }
  }

  lemma {:induction false} AbsorbedChangesNothing(t: Telemetry, reports: seq<Report>, observedAt: Date, now: Date)
    requires forall r <- reports :: r.Identity().Some? && Absorbed(t, r, observedAt)
    ensures ProjectAll(t, reports, observedAt, now) == t
  {
    if reports != [] {
      var before, last := reports[..|reports| - 1], reports[|reports| - 1];
      assert last in reports && forall r <- before :: r in reports;
      AbsorbedChangesNothing(t, before, observedAt, now);
      hide WithBank, IsValidTelemetry, Report.Identity;
    }
  }

  /** A delivery that arrives twice, however much later, changes nothing the second time. */
  lemma RepeatedDeliveryChangesNothing(t: Telemetry, reports: seq<Report>, observedAt: Date, now: Date, later: Date)
    requires IsRecent(observedAt, now) && AllIdentified(reports) && Unambiguous(t.accounts)
    ensures Project(Project(t, reports, observedAt, now), reports, observedAt, later)
            == Project(t, reports, observedAt, now)
  {
    ProjectAllAbsorbs(t, reports, observedAt, now);
    hide Absorbed;
    AbsorbedChangesNothing(ProjectAll(t, reports, observedAt, now), reports, observedAt, later);
    hide ProjectAll, AllIdentified, Unambiguous;
  }

  // ----- Runs ---------------------------------------------------------------------------------------------------------

  datatype Delivery = Delivery(reports: seq<Report>, observedAt: Date, now: Date)

  function After(t: Telemetry, deliveries: seq<Delivery>): Telemetry {
    if deliveries == [] then t
    else
      var last := deliveries[|deliveries| - 1];
      Project(After(t, deliveries[..|deliveries| - 1]), last.reports, last.observedAt, last.now)
  }

  /** Over every run of deliveries, late, repeated, reordered or malformed: no account changes who it is or what it may do,
      and no quota reading, refresh time, reset bank or observation time is ever replaced by an older one. */
  lemma {:induction false} TelemetryNeverGoesBack(t: Telemetry, deliveries: seq<Delivery>)
    ensures Advances(After(t, deliveries), t)
  {
    hide Follows, ProjectAll;
    if deliveries == [] {
      forall i | 0 <= i < |t.accounts|
        ensures Follows(t.accounts[i], t.accounts[i])
      {
        FollowsItself(t.accounts[i]);
      }
    } else {
      var before, last := deliveries[..|deliveries| - 1], deliveries[|deliveries| - 1];
      TelemetryNeverGoesBack(t, before);
      var mid := After(t, before);
      if AllIdentified(last.reports) {
        ProjectAllAdvances(mid, last.reports, last.observedAt, last.now);
        if After(t, deliveries) != mid {
          AdvancesIsTransitive(After(t, deliveries), mid, t);
        }
      }
    }
  }

  // ----- The projection as it is computed -----------------------------------------------------------------------------

  /** Whether anything a projection may change is different. */
  predicate TelemetryDiffers(a: Account, b: Account) {
    || a.quota != b.quota || a.planType != b.planType || a.lastRefreshed != b.lastRefreshed
    || a.subscription != b.subscription || a.bank != b.bank
    || a.unusableUntil != b.unusableUntil || a.unusableReason != b.unusableReason
  }

  lemma OnlyTelemetryDiffers(a: Account, r: Report, observedAt: Date, accepts: bool)
    ensures var p := ProjectedAccount(a, r, observedAt, accepts); p != a <==> TelemetryDiffers(p, a)
  {
    hide NewestValidBank;
  }

  /** Takes one report in, and says whether its account changed. */
  method TakeIn(accounts: seq<Account>, observed: map<string, Date>, report: Report, observedAt: Date, now: Date)
    returns (nextAccounts: seq<Account>, nextObserved: map<string, Date>, differs: bool)
    requires report.Identity().Some?
    ensures Telemetry(nextAccounts, nextObserved)
            == ProjectOne(Telemetry(accounts, observed), report.Identity().value, report, observedAt, now)
    ensures differs <==> nextAccounts != accounts
  {
    hide ProjectedAccount, IsValidTelemetry, Report.Identity;
    nextAccounts, nextObserved, differs := accounts, observed, false;
    var identity := report.Identity().value;
    IndexIsFound(accounts, identity);
    var index := IndexOf(accounts, identity);
    if index.None? {
      return;
    }
    var current := accounts[index.value];
    var advances := identity !in observed || observedAt > observed[identity];
    var accepts := advances && IsValidTelemetry(report, observedAt, now);
    var projected := ProjectedAccount(current, report, observedAt, accepts);
    OnlyTelemetryDiffers(current, report, observedAt, accepts);
    if TelemetryDiffers(projected, current) {
      nextAccounts := accounts[index.value := projected];
      differs := true;
      assert nextAccounts[index.value] != accounts[index.value];
    }
    if advances {
      nextObserved := observed[identity := observedAt];
    }
  }

  /** One of the first `n` reports changes its account. */
  ghost predicate SomeReportDiffers(t: Telemetry, reports: seq<Report>, observedAt: Date, now: Date, n: nat)
    requires n <= |reports| && forall r <- reports :: r.Identity().Some?
  {
    exists k :: 0 <= k < n
      && ProjectAll(t, reports[..k + 1], observedAt, now).accounts != ProjectAll(t, reports[..k], observedAt, now).accounts
  }

  class TelemetryProjection {
    var accounts: seq<Account>
    var observed: map<string, Date>

    ghost function State(): Telemetry
      reads this
    {
      Telemetry(accounts, observed)
    }

    constructor (initial: seq<Account>)
      ensures State() == Telemetry(initial, map[])
    {
      accounts, observed := initial, map[];
    }

    /** Takes a delivery in, account by account, on copies that replace the originals only at the end. */
    method ProjectAuthoritativeTelemetry(reports: seq<Report>, observedAt: Date, now: Date) returns (changed: bool)
      modifies this
      ensures State() == Project(old(State()), reports, observedAt, now)
      ensures changed <==>
                && IsRecent(observedAt, now) && AllIdentified(reports) && Unambiguous(old(accounts))
                && SomeReportDiffers(old(State()), reports, observedAt, now, |reports|)
    {
      changed := false;
      if !IsRecent(observedAt, now) || !AllIdentified(reports) || !Unambiguous(accounts) {
        return;
      }
      hide ProjectOne, Unambiguous, Report.Identity;
      var projectedAccounts, projectedObservations := accounts, observed;
      for k := 0 to |reports|
        invariant State() == old(State())
        invariant Telemetry(projectedAccounts, projectedObservations)
                  == ProjectAll(State(), reports[..k], observedAt, now)
        invariant changed <==> SomeReportDiffers(State(), reports, observedAt, now, k)
        invariant !changed ==> projectedAccounts == accounts
      {
        var differs;
        assert reports[..k + 1][..k] == reports[..k];
        projectedAccounts, projectedObservations, differs :=
          TakeIn(projectedAccounts, projectedObservations, reports[k], observedAt, now);
        changed := changed || differs;
      }
      assert reports[..|reports|] == reports;
      if changed {
        accounts := projectedAccounts;
      }
      observed := projectedObservations;
    }
  }
}
