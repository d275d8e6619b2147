/** Choosing the account whose banked reset to redeem. */
module Redemption {
  import opened Prelude
  import opened Accounts
  import opened ResetBank
  import Quota

  const EXPIRING_SOON: real := 86400.0
  const NATURAL_RESET_PROTECTION: real := 86400.0

  datatype Reason =
    | WeeklyPressure
    | PoolExhausted
    | ExpiringSoon
    | RuntimeLimitNoAlternative
    | PreserveFasterTier

  datatype Candidate = Candidate(accountId: Uuid, bank: Bank, reason: Reason)

  predicate IsReadyAlternative(other: Account, account: Account, now: Date) {
    other.id != account.id && other.IsRuntimeImmediatelyUsable(now)
  }

  predicate HasReadyAlternative(account: Account, all: seq<Account>, now: Date) {
    exists a <- all :: IsReadyAlternative(a, account, now)
  }

  predicate HasAlternativeOfTier(account: Account, all: seq<Account>, now: Date) {
    exists a <- all :: IsReadyAlternative(a, account, now) && a.PlanPriority() >= account.PlanPriority()
  }

  predicate IsRedeemable(account: Account, bank: Bank, now: Date) {
    && account.PlanPriority() > 1
    && account.HasCompleteRuntimeCredentials() && account.HasUsableInferenceToken(now)
    && ResetBank.IsFresh(bank, now) && HasAvailableReset(bank, now)
    && account.RealQuota(now).Some?
    && var s := account.RealQuota(now).value;
       && Quota.IsFresh(s, now) && !Quota.HasExpiredExhaustedWindow(s, now)
       && forall w <- Quota.BlockingWindows(s) :: w.resetsAt > now
  }

  function WeeklyWindow(s: Quota.Snapshot): Option<Quota.Window> {
    FirstOf(Quota.PolicyWindows(s.windows), Quota.Weekly)
  }

  function FiveHourWindow(s: Quota.Snapshot): Option<Quota.Window> {
    FirstOf(Quota.PolicyWindows(s.windows), Quota.FiveHour)
  }

  function FirstOf(windows: seq<Quota.Window>, kind: Quota.Kind): (r: Option<Quota.Window>)
    ensures r.Some? ==> r.value in windows && r.value.kind == kind
    ensures r.None? ==> forall w <- windows :: w.kind != kind
  {
    if windows == [] then None
    else if windows[0].kind == kind then Some(windows[0])
    else FirstOf(windows[1..], kind)
  }

  /** Why the reset of this account should be redeemed, if it should. */
  function RedemptionReason(account: Account, all: seq<Account>, bank: Bank, runtimeUsageLimit: bool, now: Date):
    Option<Reason>
  {
    if !IsRedeemable(account, bank, now) then None
    else
      var s := account.RealQuota(now).value;
      var alternative := HasReadyAlternative(account, all, now);
      var recovery := account.BlockedQuotaRecoveryAt(now);
      var weekly := WeeklyWindow(s);
      if HasAlternativeOfTier(account, all, now) then None
      else if alternative && recovery.Some? && recovery.value <= now + NATURAL_RESET_PROTECTION then None
      else if (exists w <- Quota.BlockingWindows(s) :: w.IsExhausted()) && NextExpiration(bank, now).Some?
              && NextExpiration(bank, now).value - now <= EXPIRING_SOON then Some(ExpiringSoon)
      else if alternative && (runtimeUsageLimit || Quota.NeedsSwap(s)) then Some(PreserveFasterTier)
      else if runtimeUsageLimit && !alternative then Some(RuntimeLimitNoAlternative)
      else if Quota.PolicyWindows(s.windows) == [] then None
      else if weekly.Some? && !alternative
              && (weekly.value.ShouldAutoSwapAway() || (Quota.IsDenied(s) && FiveHourWindow(s).None?))
        then Some(WeeklyPressure)
      else if Quota.NeedsSwap(s) && !alternative then Some(PoolExhausted)
      else None
  }

  lemma {:induction false} FilterMembers(windows: seq<Quota.Window>, f: Quota.Window -> bool, w: Quota.Window)
    ensures w in Quota.Filter(windows, f) <==> w in windows && f(w)
  {
    if windows != [] {
      FilterMembers(windows[1..], f, w);
      assert windows == [windows[0]] + windows[1..];
    }
  }

  lemma BlockingMembers(s: Quota.Snapshot, w: Quota.Window)
    ensures w in Quota.BlockingWindows(s) <==>
              w in Quota.PolicyWindows(s.windows) && (Quota.IsDenied(s) || w.ShouldAutoSwapAway())
  {
    var policy := Quota.PolicyWindows(s.windows);
    FilterMembers(policy, (v: Quota.Window) => v.kind.FiveHour?, w);
    FilterMembers(policy, (v: Quota.Window) => v.kind.Weekly?, w);
    FilterMembers(policy, (v: Quota.Window) => v.kind.Unknown?, w);
    FilterMembers(Quota.Ordered(policy), (v: Quota.Window) => v.ShouldAutoSwapAway(), w);
  }

  /** A reset is redeemed only for an account that its quota or its runtime says is spent, that could use it at once, and
      that no ready account of its own or a higher tier can stand in for; nor, if any ready account can, while its quota
      recovers by itself within a day. */
  lemma RedemptionIsWarranted(account: Account, all: seq<Account>, bank: Bank, now: Date)
    requires RedemptionReason(account, all, bank, account.IsQuotaRuntimeLimited(now), now).Some?
    ensures !account.IsRuntimeImmediatelyUsable(now)
    ensures Quota.NeedsSwap(account.RealQuota(now).value) || account.IsQuotaRuntimeLimited(now)
    ensures HasAvailableReset(bank, now) && account.HasUsableInferenceToken(now) && account.PlanPriority() > 1
    ensures forall a <- all :: a.id != account.id && a.IsRuntimeImmediatelyUsable(now) ==>
              && a.PlanPriority() < account.PlanPriority()
              && (account.BlockedQuotaRecoveryAt(now).Some? ==>
                    account.BlockedQuotaRecoveryAt(now).value > now + NATURAL_RESET_PROTECTION)
  {
    var s := account.RealQuota(now).value;
    if WeeklyWindow(s).Some? {
      BlockingMembers(s, WeeklyWindow(s).value);
    }
    hide Quota.BlockingWindows, Quota.PolicyWindows, HasAvailableReset, NextExpiration;
    forall a <- all | a.id != account.id && a.IsRuntimeImmediatelyUsable(now)
      ensures a.PlanPriority() < account.PlanPriority() && HasReadyAlternative(account, all, now)
    {
      assert IsReadyAlternative(a, account, now);
    }
  }

  /** Nothing speaks for waiting: no ready account of the same or a higher tier, and, if any ready account at all, no
      recovery of the quota within a day. */
  predicate NothingSparesReset(account: Account, all: seq<Account>, now: Date) {
    var recovery := account.BlockedQuotaRecoveryAt(now);
    forall a <- all :: a.id != account.id && a.IsRuntimeImmediatelyUsable(now) ==>
      a.PlanPriority() < account.PlanPriority() && (recovery.Some? ==> recovery.value > now + 86400.0)
  }

  predicate IsAlone(account: Account, all: seq<Account>, now: Date) {
    forall a <- all :: a.id != account.id ==> !a.IsRuntimeImmediatelyUsable(now)
  }

  /** An account whose reset could be redeemed at all. */
  predicate CanRedeem(account: Account, bank: Bank, now: Date) {
    var quota := account.RealQuota(now);
    && account.PlanPriority() >= 2 && account.HasCompleteRuntimeCredentials() && account.HasUsableInferenceToken(now)
    && ResetBank.IsFresh(bank, now) && HasAvailableReset(bank, now)
    && quota.Some? && Quota.IsFresh(quota.value, now) && !Quota.HasExpiredExhaustedWindow(quota.value, now)
    && forall w <- Quota.PolicyWindows(quota.value.windows) ::
         Quota.IsDenied(quota.value) || w.ShouldAutoSwapAway() ==> w.resetsAt > now
  }

  predicate ExpiresSoonUnused(s: Quota.Snapshot, bank: Bank, now: Date) {
    var expiration := NextExpiration(bank, now);
    && expiration.Some? && expiration.value <= now + 86400.0
    && exists w <- Quota.PolicyWindows(s.windows) ::
         (Quota.IsDenied(s) || w.ShouldAutoSwapAway()) && w.IsExhausted()
  }

  /** The `i`-th window is the first of its kind. */
  predicate IsFirstOf(windows: seq<Quota.Window>, kind: Quota.Kind, i: nat) {
    i < |windows| && windows[i].kind == kind && forall j | 0 <= j < i :: windows[j].kind != kind
  }

  /** The week is what is spent: its window should be swapped away from, or there is no five-hour window to blame. */
  predicate IsWeekly(s: Quota.Snapshot) {
    var policy := Quota.PolicyWindows(s.windows);
    exists i: nat | i < |policy| :: IsFirstOf(policy, Quota.Weekly, i)
      && (policy[i].ShouldAutoSwapAway() || (Quota.IsDenied(s) && forall w <- policy :: !w.kind.FiveHour?))
  }

  lemma {:induction false} FirstOfIsFirst(windows: seq<Quota.Window>, kind: Quota.Kind)
    ensures FirstOf(windows, kind).Some? ==>
              exists i: nat :: IsFirstOf(windows, kind, i) && FirstOf(windows, kind) == Some(windows[i])
    ensures forall i: nat :: IsFirstOf(windows, kind, i) ==> FirstOf(windows, kind) == Some(windows[i])
  {
    if windows != [] {
      FirstOfIsFirst(windows[1..], kind);
      if windows[0].kind == kind {
        assert IsFirstOf(windows, kind, 0);
      } else {
        forall i: nat | IsFirstOf(windows, kind, i)
          ensures i > 0 && IsFirstOf(windows[1..], kind, i - 1)
        {
        }
        if FirstOf(windows, kind).Some? {
          var i: nat :| IsFirstOf(windows[1..], kind, i) && FirstOf(windows[1..], kind) == Some(windows[1..][i]);
          assert IsFirstOf(windows, kind, i + 1);
        }
      }
    }
  }

  /** Which reason is given, and when none: each is the first that applies of expiry, a faster tier to preserve, a runtime
      limit, a spent week and a spent pool, and a ready account of a lower tier leaves only the first two. */
  lemma ReasonIsExact(account: Account, all: seq<Account>, bank: Bank, limited: bool, now: Date)
    ensures var reason := RedemptionReason(account, all, bank, limited, now);
            if !CanRedeem(account, bank, now) || !NothingSparesReset(account, all, now) then reason == None
            else
              var s := account.RealQuota(now).value;
              if ExpiresSoonUnused(s, bank, now) then reason == Some(ExpiringSoon)
              else if !IsAlone(account, all, now) then
                reason == if limited || Quota.NeedsSwap(s) then Some(PreserveFasterTier) else None
              else if limited then reason == Some(RuntimeLimitNoAlternative)
              else if IsWeekly(s) then reason == Some(WeeklyPressure)
              else reason == if Quota.NeedsSwap(s) && Quota.PolicyWindows(s.windows) != [] then Some(PoolExhausted) else None
  {
    hide Quota.BlockingWindows, Quota.PolicyWindows, HasAvailableReset, NextExpiration, Account.PlanPriority,
         Account.IsRuntimeImmediatelyUsable, Account.BlockedQuotaRecoveryAt, Quota.NeedsSwap, Account.RealQuota, FirstOf,
         IsFirstOf;
    AlternativesAreExact(account, all, now);
    if account.RealQuota(now).Some? {
      var s := account.RealQuota(now).value;
      BlockingIsExact(s);
      WeeklyIsExact(s);
    }
  }

  lemma AlternativesAreExact(account: Account, all: seq<Account>, now: Date)
    ensures HasReadyAlternative(account, all, now) <==> !IsAlone(account, all, now)
    ensures var recovery := account.BlockedQuotaRecoveryAt(now);
            NothingSparesReset(account, all, now) <==>
              && !HasAlternativeOfTier(account, all, now)
              && !(HasReadyAlternative(account, all, now) && recovery.Some?
                   && recovery.value <= now + NATURAL_RESET_PROTECTION)
  {
    hide Account.PlanPriority, Account.IsRuntimeImmediatelyUsable, Account.BlockedQuotaRecoveryAt;
    forall a <- all
      ensures IsReadyAlternative(a, account, now) <==> a.id != account.id && a.IsRuntimeImmediatelyUsable(now)
    {
    }
  }

  lemma BlockingIsExact(s: Quota.Snapshot)
    ensures forall w: Quota.Window :: w in Quota.BlockingWindows(s) <==>
              w in Quota.PolicyWindows(s.windows) && (Quota.IsDenied(s) || w.ShouldAutoSwapAway())
  {
    hide Quota.BlockingWindows, Quota.PolicyWindows;
    forall w: Quota.Window
      ensures w in Quota.BlockingWindows(s) <==>
                w in Quota.PolicyWindows(s.windows) && (Quota.IsDenied(s) || w.ShouldAutoSwapAway())
    {
      BlockingMembers(s, w);
    }
  }

  lemma WeeklyIsExact(s: Quota.Snapshot)
    ensures var weekly := WeeklyWindow(s);
            IsWeekly(s) <==> weekly.Some? && (weekly.value.ShouldAutoSwapAway()
                                              || (Quota.IsDenied(s) && FiveHourWindow(s).None?))
  {
    hide Quota.PolicyWindows, FirstOf;
    var policy := Quota.PolicyWindows(s.windows);
    FirstOfIsFirst(policy, Quota.Weekly);
    if WeeklyWindow(s).Some? {
      var i: nat :| IsFirstOf(policy, Quota.Weekly, i) && FirstOf(policy, Quota.Weekly) == Some(policy[i]);
    }
    assert FiveHourWindow(s).None? <==> forall w <- policy :: !w.kind.FiveHour?;
  }

  // ----- The choice among several ---------------------------------------------------------------------------------

  datatype Ranked = Ranked(account: Account, candidate: Candidate)

  function Consider(account: Account, all: seq<Account>, excluded: set<Uuid>, now: Date): Option<Ranked> {
    if account.id in excluded || account.bank.None? || !ResetBank.IsFresh(account.bank.value, now) then None
    else
      var reason := RedemptionReason(account, all, account.bank.value, account.IsQuotaRuntimeLimited(now), now);
      if reason.None? then None
      else Some(Ranked(account, Candidate(account.id, account.bank.value, reason.value)))
  }

  function Considered(accounts: seq<Account>, all: seq<Account>, excluded: set<Uuid>, now: Date): seq<Ranked> {
    if accounts == [] then []
    else
      var head := Consider(accounts[0], all, excluded, now);
      (if head.Some? then [head.value] else []) + Considered(accounts[1..], all, excluded, now)
  }

  /** Higher tier first, then the bank that expires first, then the listing order. */
  predicate RanksBefore(x: Ranked, y: Ranked, now: Date) {
    var p, q := NextExpiration(x.candidate.bank, now), NextExpiration(y.candidate.bank, now);
    if x.account.PlanPriority() != y.account.PlanPriority() then x.account.PlanPriority() > y.account.PlanPriority()
    else if p.Some? && q.Some? && p.value != q.value then p.value < q.value
    else if p.Some? != q.Some? then p.Some?
    else x.account.IsOrderedBefore(y.account)
  }

  /** The first of a list sorted by rank. */
  function First(ranked: seq<Ranked>, now: Date): Option<Ranked> {
    if ranked == [] then None
    else
      var rest := First(ranked[1..], now);
      if rest.Some? && RanksBefore(rest.value, ranked[0], now) then rest else Some(ranked[0])
  }

  function SelectRedemptionCandidate(accounts: seq<Account>, excluded: set<Uuid>, now: Date): Option<Ranked> {
    First(Considered(accounts, accounts, excluded, now), now)
  }

  lemma RankIsStrictOrder(x: Ranked, y: Ranked, z: Ranked, now: Date)
    ensures !RanksBefore(x, x, now)
    ensures RanksBefore(x, y, now) && RanksBefore(y, z, now) ==> RanksBefore(x, z, now)
    ensures x.account.id != y.account.id ==> RanksBefore(x, y, now) || RanksBefore(y, x, now)
  {
    OrderIsStrict(x.account, y.account, z.account);
    hide Account.IsOrderedBefore, Account.PlanPriority, NextExpiration;
  }

  predicate DistinctAccounts(ranked: seq<Ranked>) {
    forall i, j :: 0 <= i < j < |ranked| ==> ranked[i].account.id != ranked[j].account.id
  }

  lemma {:induction false} FirstRanksFirst(ranked: seq<Ranked>, now: Date)
    requires DistinctAccounts(ranked)
    ensures First(ranked, now).None? <==> ranked == []
    ensures First(ranked, now).Some? ==>
              var first := First(ranked, now).value;
              first in ranked && forall x <- ranked :: x == first || RanksBefore(first, x, now)
  {
    hide RanksBefore;
    if ranked != [] {
      var head, tail := ranked[0], ranked[1..];
      assert ranked == [head] + tail;
      FirstRanksFirst(tail, now);
      if tail != [] {
        var best := First(tail, now).value;
        RankIsStrictOrder(head, best, head, now);
        forall x <- tail
          ensures RanksBefore(head, best, now) ==> RanksBefore(head, x, now)
        {
          RankIsStrictOrder(head, best, x, now);
        }
      }
    }
  }

  predicate DistinctIds(accounts: seq<Account>) {
    forall i, j :: 0 <= i < j < |accounts| ==> accounts[i].id != accounts[j].id
  }

  lemma {:induction false} ConsideredMembers(accounts: seq<Account>, all: seq<Account>, excluded: set<Uuid>, now: Date)
    ensures forall r: Ranked :: r in Considered(accounts, all, excluded, now) <==>
              r.account in accounts && Consider(r.account, all, excluded, now) == Some(r)
  {
    hide RedemptionReason;
    if accounts != [] {
      assert accounts == [accounts[0]] + accounts[1..];
      ConsideredMembers(accounts[1..], all, excluded, now);
    }
  }

  lemma {:induction false} ConsideredAreDistinct(accounts: seq<Account>, all: seq<Account>, excluded: set<Uuid>, now: Date)
    requires DistinctIds(accounts)
    ensures DistinctAccounts(Considered(accounts, all, excluded, now))
  {
    hide Consider;
    if accounts != [] {
      var head, tail := accounts[0], accounts[1..];
      ConsideredAreDistinct(tail, all, excluded, now);
      ConsideredMembers(tail, all, excluded, now);
      var rest := Considered(tail, all, excluded, now);
      forall i | 0 <= i < |rest|
        ensures rest[i].account.id != head.id
      {
        assert rest[i] in rest && rest[i].account in tail;
      }
      ConsideredIsOfAccount(head, all, excluded, now);
    }
  }

  lemma ConsideredIsOfAccount(account: Account, all: seq<Account>, excluded: set<Uuid>, now: Date)
    ensures var r := Consider(account, all, excluded, now);
            r.Some? ==>
              && r.value.account == account && account.id !in excluded
              && account.bank == Some(r.value.candidate.bank) && ResetBank.IsFresh(r.value.candidate.bank, now)
              && r.value.candidate.accountId == account.id
              && RedemptionReason(account, all, r.value.candidate.bank, account.IsQuotaRuntimeLimited(now), now)
                 == Some(r.value.candidate.reason)
  {
    hide RedemptionReason;
  }

  lemma AlternativesIgnoreOrder(account: Account, a: seq<Account>, b: seq<Account>, now: Date)
    requires forall x: Account :: x in a <==> x in b
    ensures HasReadyAlternative(account, a, now) == HasReadyAlternative(account, b, now)
    ensures HasAlternativeOfTier(account, a, now) == HasAlternativeOfTier(account, b, now)
  {
    hide IsReadyAlternative, Account.PlanPriority;
  }

  lemma ReasonIgnoresOrder(account: Account, a: seq<Account>, b: seq<Account>, bank: Bank, limited: bool, now: Date)
    requires forall x: Account :: x in a <==> x in b
    ensures RedemptionReason(account, a, bank, limited, now) == RedemptionReason(account, b, bank, limited, now)
  {
    AlternativesIgnoreOrder(account, a, b, now);
    hide HasReadyAlternative, HasAlternativeOfTier, NextExpiration, WeeklyWindow, FiveHourWindow, IsRedeemable,
         Quota.NeedsSwap, Quota.BlockingWindows, Quota.PolicyWindows, Account.BlockedQuotaRecoveryAt, Account.RealQuota;
  }

  lemma ConsiderIgnoresOrder(account: Account, a: seq<Account>, b: seq<Account>, excluded: set<Uuid>, now: Date)
    requires forall x: Account :: x in a <==> x in b
    ensures Consider(account, a, excluded, now) == Consider(account, b, excluded, now)
  {
    hide RedemptionReason;
    if account.bank.Some? {
      ReasonIgnoresOrder(account, a, b, account.bank.value, account.IsQuotaRuntimeLimited(now), now);
    }
  }

  /** The choice does not depend on the order of the list. */
  lemma SelectionIgnoresOrder(a: seq<Account>, b: seq<Account>, excluded: set<Uuid>, now: Date)
    requires DistinctIds(a) && DistinctIds(b) && forall x: Account :: x in a <==> x in b
    ensures SelectRedemptionCandidate(a, excluded, now) == SelectRedemptionCandidate(b, excluded, now)
  {
    hide Consider, RanksBefore, First;
    var fromA, fromB := Considered(a, a, excluded, now), Considered(b, b, excluded, now);
    ConsideredMembers(a, a, excluded, now);
    ConsideredMembers(b, b, excluded, now);
    forall r: Ranked
      ensures r in fromA <==> r in fromB
    {
      ConsiderIgnoresOrder(r.account, a, b, excluded, now);
    }
    ConsideredAreDistinct(a, a, excluded, now);
    ConsideredAreDistinct(b, b, excluded, now);
    FirstRanksFirst(fromA, now);
    FirstRanksFirst(fromB, now);
    assert fromB != [] ==> fromB[0] in fromA;
    if fromA != [] {
      var x := First(fromA, now).value;
      assert x in fromA && x in fromB;
      var y := First(fromB, now).value;
      assert y in fromB && y in fromA;
      RankIsStrictOrder(x, y, x, now);
    }
  }

  /** One account is redeemed for rather than another: no lower tier, within a tier no later expiry, where a bank that never
      expires is the latest, and with equal expiry an earlier place in the listing order. */
  predicate IsPreferred(a: Account, bank: Bank, other: Account, otherBank: Bank, now: Date) {
    var mine, theirs := NextExpiration(bank, now), NextExpiration(otherBank, now);
    && other.PlanPriority() <= a.PlanPriority()
    && (other.PlanPriority() == a.PlanPriority() ==>
          && (theirs.Some? ==> mine.Some? && mine.value <= theirs.value)
          && (mine == theirs ==> a.IsOrderedBefore(other)))
  }

  /** The chosen account: one of the list, not excluded, with a fresh bank, whose reset is warranted, and ranked before
      every other that qualifies. */
  lemma SelectionIsBest(accounts: seq<Account>, excluded: set<Uuid>, now: Date)
    requires DistinctIds(accounts)
    ensures var chosen := SelectRedemptionCandidate(accounts, excluded, now);
            && (chosen.None? <==> forall a <- accounts :: Consider(a, accounts, excluded, now).None?)
            && (chosen.Some? ==>
                  var r := chosen.value;
                  && r.account in accounts && r.account.id !in excluded && r.candidate.accountId == r.account.id
                  && r.account.bank == Some(r.candidate.bank) && ResetBank.IsFresh(r.candidate.bank, now)
                  && !r.account.IsRuntimeImmediatelyUsable(now)
                  && (forall a <- accounts ::
                        a.id != r.account.id && a.IsRuntimeImmediatelyUsable(now) ==>
                          a.PlanPriority() < r.account.PlanPriority())
                  && (forall a <- accounts :: var other := Consider(a, accounts, excluded, now);
                        other.Some? && a != r.account ==>
                          IsPreferred(r.account, r.candidate.bank, a, other.value.candidate.bank, now)))
  {
    hide RanksBefore, First, RedemptionReason, Consider, Considered, IsPreferred, Account.IsRuntimeImmediatelyUsable,
         Account.PlanPriority, HasAvailableReset;
    var rs := Considered(accounts, accounts, excluded, now);
    ConsideredMembers(accounts, accounts, excluded, now);
    ConsideredAreDistinct(accounts, accounts, excluded, now);
    FirstRanksFirst(rs, now);
    forall a <- accounts | Consider(a, accounts, excluded, now).Some?
      ensures Consider(a, accounts, excluded, now).value in rs
    {
      ConsideredIsOfAccount(a, accounts, excluded, now);
    }
    if rs != [] {
      var r := First(rs, now).value;
      assert r.account in accounts && Consider(r.account, accounts, excluded, now) == Some(r);
      ConsideredIsOfAccount(r.account, accounts, excluded, now);
      RedemptionIsWarranted(r.account, accounts, r.candidate.bank, now);
      forall a <- accounts | Consider(a, accounts, excluded, now).Some? && a != r.account
        ensures IsPreferred(r.account, r.candidate.bank, a, Consider(a, accounts, excluded, now).value.candidate.bank, now)
      {
        ConsideredIsOfAccount(a, accounts, excluded, now);
        FirstIsPreferred(r, Consider(a, accounts, excluded, now).value, now);
      }
    }
  }

  lemma FirstIsPreferred(x: Ranked, y: Ranked, now: Date)
    requires RanksBefore(x, y, now)
    ensures IsPreferred(x.account, x.candidate.bank, y.account, y.candidate.bank, now)
  {
    hide Account.PlanPriority, Account.IsOrderedBefore, NextExpiration;
  }
}
