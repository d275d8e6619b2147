/** Codex accounts: what their credentials, quota and runtime state allow, and the order they are listed in. */
module Accounts {
  import opened Prelude
  import opened Identity
  import Quota
  import ResetBank

  const INFERENCE_TOKEN_SAFETY_WINDOW: real := 300.0

  /** A token, with the expiry its claims carry, if they can be read. */
  datatype Token = Token(text: string, expiresAt: Option<Date>)

  datatype Subscription = Subscription(renewsAt: Option<Date>, expiresAt: Option<Date>, willRenew: Option<bool>,
                                       isActive: Option<bool>)

  datatype Account = Account(
    id: Uuid,
    email: string,
    accessToken: Token,
    refreshToken: string,
    idToken: string,
    accountId: string,
    quota: Option<Quota.Snapshot>,
    planType: Option<string>,
    lastRefreshed: Option<Date>,
    subscription: Subscription,
    fiveHourPrimedAt: Option<Date>,
    bank: Option<ResetBank.Bank>,
    unusableUntil: Option<Date>,
    unusableReason: Option<string>,
    isActive: bool)
  {
    function ProviderIdentity(): Option<string> {
      StableIdentity(accountId)
    }

    predicate HasCompleteRuntimeCredentials() {
      HasContent(accessToken.text) && HasContent(refreshToken) && HasContent(idToken) && ProviderIdentity().Some?
    }

    predicate HasUsableInferenceToken(now: Date) {
      accessToken.expiresAt.Some? && accessToken.expiresAt.value > now + INFERENCE_TOKEN_SAFETY_WINDOW
    }

    predicate IsRuntimeUnusable(now: Date) {
      unusableUntil.Some? && unusableUntil.value > now
    }

    predicate IsQuotaRuntimeLimited(now: Date) {
      IsRuntimeUnusable(now) && unusableReason.Some?
      && var reason := Underscored(unusableReason.value);
         Contains(reason, "usage_limit") || Contains(reason, "insufficient_quota")
    }

    predicate HasHardRuntimeBlock(now: Date) {
      IsRuntimeUnusable(now) && !IsQuotaRuntimeLimited(now)
    }

    /** The quota reading, unless the runtime rules the account out or the reading is a placeholder. */
    function RealQuota(now: Date): Option<Quota.Snapshot> {
      if HasHardRuntimeBlock(now) || quota.None? || Quota.HasPlaceholder(quota.value) then None else quota
    }

    predicate IsQuotaImmediatelyUsable(now: Date) {
      var s := RealQuota(now);
      s.Some? && Quota.IsFresh(s.value, now) && !Quota.HasExpiredExhaustedWindow(s.value, now)
      && Quota.IsImmediatelyUsable(s.value)
    }

    predicate IsRuntimeImmediatelyUsable(now: Date) {
      HasCompleteRuntimeCredentials() && HasUsableInferenceToken(now) && !IsRuntimeUnusable(now)
      && IsQuotaImmediatelyUsable(now)
    }

    /** The last of the resets still to come that a blocked account waits for. */
    function BlockedQuotaRecoveryAt(now: Date): Option<Date> {
      var s := RealQuota(now);
      if s.None? || !Quota.IsFresh(s.value, now) || !Quota.NeedsSwap(s.value) then None
      else LatestReset(Quota.BlockingWindows(s.value), now)
    }

    function NormalizedPlanType(): string {
      if planType.None? || !HasContent(planType.value) then "unknown" else Underscored(planType.value)
    }

    function PlanPriority(): int {
      var plan := NormalizedPlanType();
      if IsPlan(plan, "pro_lite") || plan == "prolite" then 3
      else if IsPlan(plan, "pro") then 4
      else if IsPlan(plan, "plus") || IsPlan(plan, "team") || IsPlan(plan, "business") || IsPlan(plan, "enterprise")
              || IsPlan(plan, "edu") then 2
      else if IsPlan(plan, "free") || IsPlan(plan, "free_workspace") || IsPlan(plan, "guest") then 1
      else if subscription.isActive == Some(true) then 2
      else 1
    }

    /** Provider identity first, accounts without one last, then the address, then the local identifier. */
    predicate IsOrderedBefore(other: Account) {
      var p, q := ProviderIdentity(), other.ProviderIdentity();
      if p.Some? && q.Some? && p.value != q.value then Precedes(p.value, q.value)
      else if p.Some? != q.Some? then p.Some?
      else
        var e, f := AddressKey(), other.AddressKey();
        if e != f then Precedes(e, f) else id < other.id
    }

    function AddressKey(): string {
      if StableIdentity(email).Some? then StableIdentity(email).value else ""
    }
  }

  function Underscored(s: string): string {
    Replaced(Replaced(Lowercased(Trim(s)), '-', '_'), ' ', '_')
  }

  predicate IsPlan(plan: string, named: string) {
    plan == named || named + "_" <= plan || HasSuffix(plan, "_" + named) || Contains(plan, "_" + named + "_")
  }

  function LatestReset(windows: seq<Quota.Window>, now: Date): Option<Date> {
    if windows == [] then None
    else
      var rest, head := LatestReset(windows[1..], now), windows[0].resetsAt;
      if head <= now then rest else if rest.None? then Some(head) else Some(Max(head, rest.value))
  }

  // ----- What these mean ----------------------------------------------------------------------------------

  /** A plan is named by a word of its type, where underscores separate words. */
  lemma PlanIsNamedByAWord(plan: string, named: string)
    ensures IsPlan(plan, named) <==> exists i: nat :: OccursAt("_" + plan + "_", "_" + named + "_", i)
  {
    var whole, word := "_" + plan + "_", "_" + named + "_";
    ContainsIsExact(plan, word);
    if IsPlan(plan, named) {
      if plan == named {
        assert OccursAt(whole, word, 0);
      } else if named + "_" <= plan {
        assert whole[0..|word|] == "_" + plan[..|named| + 1];
        assert OccursAt(whole, word, 0);
      } else if HasSuffix(plan, "_" + named) {
        var k := |plan| - |named| - 1;
        assert whole[k + 1..] == plan[k..] + "_";
        assert OccursAt(whole, word, k + 1);
      } else {
        var i: nat :| OccursAt(plan, word, i);
        assert whole[i + 1..i + 1 + |word|] == plan[i..i + |word|];
        assert OccursAt(whole, word, i + 1);
      }
    }
    if i: nat :| OccursAt(whole, word, i) {
      WordOccurs(plan, named, i);
    }
  }

  lemma WordOccurs(plan: string, named: string, i: nat)
    requires OccursAt("_" + plan + "_", "_" + named + "_", i)
    ensures IsPlan(plan, named)
  {
    hide IsPlan, OccursAt;
    WordFits(plan, named, i);
    if i == 0 && |plan| == |named| {
      WordIsAll(plan, named);
    } else if i == 0 {
      WordIsFirst(plan, named);
    } else if i + |named| == |plan| {
      WordIsLast(plan, named, i);
    } else {
      WordIsWithin(plan, named, i);
    }
  }

  lemma WordFits(plan: string, named: string, i: nat)
    requires OccursAt("_" + plan + "_", "_" + named + "_", i)
    ensures i + |named| <= |plan|
  {
    assert |"_" + plan + "_"| == |plan| + 2 && |"_" + named + "_"| == |named| + 2;
  }

  lemma WordIsAll(plan: string, named: string)
    requires OccursAt("_" + plan + "_", "_" + named + "_", 0) && |plan| == |named|
    ensures IsPlan(plan, named)
  {
    var whole, word := "_" + plan + "_", "_" + named + "_";
    assert whole[0..|word|] == whole;
    assert whole[1..|plan| + 1] == plan && word[1..|named| + 1] == named;
    hide HasSuffix, Contains;
  }

  lemma WordIsFirst(plan: string, named: string)
    requires OccursAt("_" + plan + "_", "_" + named + "_", 0) && |named| < |plan|
    ensures IsPlan(plan, named)
  {
    var whole, word := "_" + plan + "_", "_" + named + "_";
    var start := whole[0..|word|];
    assert start[1..] == plan[..|named| + 1] && word[1..] == named + "_";
    hide HasSuffix, Contains;
  }

  lemma WordIsLast(plan: string, named: string, i: nat)
    requires OccursAt("_" + plan + "_", "_" + named + "_", i) && i > 0 && i + |named| == |plan|
    ensures IsPlan(plan, named)
  {
    var whole, word := "_" + plan + "_", "_" + named + "_";
    var end := whole[i..i + |word|];
    assert end[..|named| + 1] == plan[i - 1..] && word[..|named| + 1] == "_" + named;
    hide Contains;
  }

  lemma WordIsWithin(plan: string, named: string, i: nat)
    requires OccursAt("_" + plan + "_", "_" + named + "_", i) && i > 0 && i + |named| < |plan|
    ensures IsPlan(plan, named)
  {
    var whole, word := "_" + plan + "_", "_" + named + "_";
    assert whole[i..i + |word|] == plan[i - 1..i - 1 + |word|];
    assert OccursAt(plan, word, i - 1);
    ContainsIsExact(plan, word);
    hide HasSuffix, Contains;
  }

  predicate HasWord(plan: string, named: string) {
    exists i: nat | i <= |plan| :: OccursAt("_" + plan + "_", "_" + named + "_", i)
  }

  lemma HasWordIsPlan(plan: string, named: string)
    ensures HasWord(plan, named) <==> IsPlan(plan, named)
  {
    PlanIsNamedByAWord(plan, named);
    if i: nat :| OccursAt("_" + plan + "_", "_" + named + "_", i) {
      assert i <= |plan|;
    }
  }

  /** The plan type as it is compared: without blanks around it, in lower case, with underscores for hyphens and blanks; an
      absent or blank one is unknown. */
  lemma PlanTypeIsNormalized(a: Account)
    ensures a.planType.None? || IsBlank(a.planType.value) ==> a.NormalizedPlanType() == "unknown"
    ensures a.planType.Some? && !IsBlank(a.planType.value) ==>
              exists from: nat, to: nat :: IsUnderscored(a.planType.value, a.NormalizedPlanType(), from, to)
  {
    if a.planType.Some? {
      var plan := a.planType.value;
      StableIdentityIsExact(plan);
      var from, to := TrimIsExact(plan);
      if !IsBlank(plan) {
        NothingButBlanks(plan, from, to);
        assert IsUnderscored(plan, a.NormalizedPlanType(), from, to);
      }
    }
  }

  predicate IsUnderscored(s: string, normal: string, from: nat, to: nat) {
    && from < to <= |s| && IsBlank(s[..from]) && IsBlank(s[to..]) && !IsWhite(s[from]) && !IsWhite(s[to - 1])
    && |normal| == to - from
    && forall i | 0 <= i < |normal| ::
         if s[from + i] == '-' || s[from + i] == ' ' then normal[i] == '_' else SameLetter(normal[i], s[from + i])
  }

  /** The four tiers: full Pro above Pro Lite, that above the paid plans, and those above everything else; a subscription
      that is known to be active makes an unnamed plan a paid one. */
  lemma TiersAreExact(a: Account)
    ensures var plan := a.NormalizedPlanType();
            var lite := HasWord(plan, "pro_lite") || plan == "prolite";
            var paid := HasWord(plan, "plus") || HasWord(plan, "team") || HasWord(plan, "business")
                        || HasWord(plan, "enterprise") || HasWord(plan, "edu");
            var unpaid := HasWord(plan, "free") || HasWord(plan, "free_workspace") || HasWord(plan, "guest");
            && 1 <= a.PlanPriority() <= 4
            && (a.PlanPriority() == 4 <==> HasWord(plan, "pro") && !lite)
            && (a.PlanPriority() == 3 <==> lite)
            && (a.PlanPriority() == 2 <==>
                  !HasWord(plan, "pro") && !lite && (paid || (!unpaid && a.subscription.isActive == Some(true))))
  {
    var plan := a.NormalizedPlanType();
    HasWordIsPlan(plan, "pro_lite");
    HasWordIsPlan(plan, "pro");
    HasWordIsPlan(plan, "plus");
    HasWordIsPlan(plan, "team");
    HasWordIsPlan(plan, "business");
    HasWordIsPlan(plan, "enterprise");
    HasWordIsPlan(plan, "edu");
    HasWordIsPlan(plan, "free");
    HasWordIsPlan(plan, "free_workspace");
    HasWordIsPlan(plan, "guest");
    hide HasWord, IsPlan, Underscored;
  }

  predicate IsUnusableAt(a: Account, now: Date) {
    a.unusableUntil.Some? && now < a.unusableUntil.value
  }

  /** A runtime verdict that names a usage limit leaves the quota reading in force; any other suspends it, and so does a
      placeholder. */
  lemma RuntimeVerdictIsExact(a: Account, now: Date)
    ensures a.IsRuntimeUnusable(now) <==> IsUnusableAt(a, now)
    ensures a.IsQuotaRuntimeLimited(now) <==>
              && IsUnusableAt(a, now) && a.unusableReason.Some?
              && (Contains(Underscored(a.unusableReason.value), "usage_limit")
                  || Contains(Underscored(a.unusableReason.value), "insufficient_quota"))
    ensures a.RealQuota(now)
            == if IsUnusableAt(a, now) && !a.IsQuotaRuntimeLimited(now) then None
               else if a.quota.Some? && Quota.HasPlaceholder(a.quota.value) then None else a.quota
  {
    hide Contains, Underscored, Quota.HasPlaceholder;
  }

  /** An account can be used at once exactly if it has all of its credentials, a token that lasts five minutes more, no
      runtime verdict against it, and a current quota reading without a placeholder or a spent window that has expired,
      by which there is capacity. */
  lemma UsabilityIsExact(a: Account, now: Date)
    ensures a.IsRuntimeImmediatelyUsable(now) <==>
              && !IsBlank(a.accessToken.text) && !IsBlank(a.refreshToken) && !IsBlank(a.idToken) && !IsBlank(a.accountId)
              && a.accessToken.expiresAt.Some? && a.accessToken.expiresAt.value - now > 300.0
              && !IsUnusableAt(a, now)
              && a.quota.Some? && !Quota.HasPlaceholder(a.quota.value) && Quota.IsFresh(a.quota.value, now)
              && !Quota.HasExpiredExhaustedWindow(a.quota.value, now) && Quota.IsImmediatelyUsable(a.quota.value)
    ensures a.HasCompleteRuntimeCredentials() <==>
              !IsBlank(a.accessToken.text) && !IsBlank(a.refreshToken) && !IsBlank(a.idToken) && !IsBlank(a.accountId)
    ensures a.HasUsableInferenceToken(now) <==>
              a.accessToken.expiresAt.Some? && a.accessToken.expiresAt.value - now > 300.0
  {
    StableIdentityIsExact(a.accessToken.text);
    StableIdentityIsExact(a.refreshToken);
    StableIdentityIsExact(a.idToken);
    StableIdentityIsExact(a.accountId);
    hide Contains, Underscored, HasContent, StableIdentity, IsBlank, IsCore, Quota.HasPlaceholder, Quota.IsFresh,
         Quota.HasExpiredExhaustedWindow, Quota.IsImmediatelyUsable;
  }

  /** The latest of the resets that are still to come. */
  lemma {:induction false} LatestResetIsLatest(windows: seq<Quota.Window>, now: Date)
    ensures LatestReset(windows, now).None? <==> forall w <- windows :: w.resetsAt <= now
    ensures LatestReset(windows, now).Some? ==>
              var latest := LatestReset(windows, now).value;
              && latest > now && (exists w <- windows :: w.resetsAt == latest)
              && forall w <- windows :: w.resetsAt <= latest
  {
    if windows != [] {
      var head, tail := windows[0], windows[1..];
      LatestResetIsLatest(tail, now);
      assert windows == [head] + tail && head in windows && forall w <- tail :: w in windows;
    }
  }

  /** When a blocked account recovers: the latest future reset of its blocking windows, if its reading is current. */
  lemma RecoveryIsExact(a: Account, now: Date)
    ensures var s := a.RealQuota(now);
            && (a.BlockedQuotaRecoveryAt(now).Some? <==>
                  && s.Some? && Quota.IsFresh(s.value, now) && Quota.NeedsSwap(s.value)
                  && exists w <- Quota.BlockingWindows(s.value) :: w.resetsAt > now)
            && (a.BlockedQuotaRecoveryAt(now).Some? ==>
                  && (forall w <- Quota.BlockingWindows(s.value) :: w.resetsAt <= a.BlockedQuotaRecoveryAt(now).value)
                  && exists w <- Quota.BlockingWindows(s.value) :: w.resetsAt == a.BlockedQuotaRecoveryAt(now).value)
  {
    hide Quota.IsFresh, Quota.NeedsSwap, Quota.BlockingWindows, Account.RealQuota, LatestReset;
    if a.RealQuota(now).Some? {
      LatestResetIsLatest(Quota.BlockingWindows(a.RealQuota(now).value), now);
    }
  }

  /** Accounts are listed by provider identity, those without one last, then by address, then by identifier. */
  lemma ListingIsByIdentity(a: Account, b: Account)
    ensures a.ProviderIdentity().Some? && b.ProviderIdentity().Some? && a.ProviderIdentity() != b.ProviderIdentity() ==>
              (a.IsOrderedBefore(b) <==> Precedes(a.ProviderIdentity().value, b.ProviderIdentity().value))
    ensures a.ProviderIdentity().Some? && b.ProviderIdentity().None? ==> a.IsOrderedBefore(b) && !b.IsOrderedBefore(a)
    ensures a.ProviderIdentity() == b.ProviderIdentity() && a.AddressKey() != b.AddressKey() ==>
              (a.IsOrderedBefore(b) <==> Precedes(a.AddressKey(), b.AddressKey()))
    ensures a.ProviderIdentity() == b.ProviderIdentity() && a.AddressKey() == b.AddressKey() ==>
              (a.IsOrderedBefore(b) <==> a.id < b.id)
  {
    hide Precedes, StableIdentity;
  }

  /** The listing order is a strict order, and it decides between any two accounts with different identifiers. */
  lemma OrderIsStrict(a: Account, b: Account, c: Account)
    ensures !a.IsOrderedBefore(a)
    ensures a.IsOrderedBefore(b) && b.IsOrderedBefore(c) ==> a.IsOrderedBefore(c)
    ensures a.id != b.id ==> a.IsOrderedBefore(b) || b.IsOrderedBefore(a)
  {
    TextOrder(a.AddressKey(), b.AddressKey(), c.AddressKey());
    if a.ProviderIdentity().Some? && b.ProviderIdentity().Some? && c.ProviderIdentity().Some? {
      TextOrder(a.ProviderIdentity().value, b.ProviderIdentity().value, c.ProviderIdentity().value);
    }
    if a.ProviderIdentity().Some? && b.ProviderIdentity().Some? {
      TextOrder(a.ProviderIdentity().value, b.ProviderIdentity().value, a.ProviderIdentity().value);
    }
    hide Precedes;
  }

  lemma TextOrder(a: string, b: string, c: string)
    ensures !Precedes(a, a)
    ensures Precedes(a, b) && Precedes(b, c) ==> Precedes(a, c)
    ensures a != b ==> Precedes(a, b) || Precedes(b, a)
  {
    PrecedesIsIrreflexive(a);
    if Precedes(a, b) && Precedes(b, c) {
      PrecedesIsTransitive(a, b, c);
    }
    if a != b {
      PrecedesIsTotal(a, b);
    }
  }
}
