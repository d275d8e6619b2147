/** Quota snapshots: the canonical list of windows, and what it says about an account's capacity. */
module Quota {
  import opened Prelude

  const MAXIMUM_SNAPSHOT_AGE: real := 900.0
  const AUTO_SWAP_THRESHOLD: real := 2.0

  datatype Kind = FiveHour | Weekly | Unknown

  function Classify(durationSeconds: int): Kind {
    if durationSeconds == 5 * 60 * 60 then FiveHour
    else if durationSeconds == 7 * 24 * 60 * 60 then Weekly
    else Unknown
  }

  datatype RateLimitSource = Main | Additional | Legacy | UnknownSource

  datatype Slot = Primary | Secondary | LegacyFiveHour | LegacyWeekly | UnknownSlot

  datatype Source = Source(rateLimit: RateLimitSource, slot: Slot, limitName: Option<string>,
                           meteredFeature: Option<string>)

  datatype Window = Window(kind: Kind, durationSeconds: int, usedPercent: real, resetsAt: Date, source: Source,
                           hardLimitReached: bool)
  {
    function RemainingPercent(): real {
      Max(0.0, 100.0 - usedPercent)
    }

    predicate HasValidUsage() {
      usedPercent >= 0.0
    }

    predicate IsDefinitivelyExhausted() {
      hardLimitReached || (HasValidUsage() && usedPercent >= 100.0)
    }

    predicate IsExhausted() {
      IsDefinitivelyExhausted() || (HasValidUsage() && RemainingPercent() < 1.0)
    }

    predicate ShouldAutoSwapAway() {
      IsDefinitivelyExhausted() || (HasValidUsage() && RemainingPercent() < AUTO_SWAP_THRESHOLD)
    }

    function EffectiveRemaining(): real {
      if IsExhausted() then 0.0 else RemainingPercent()
    }

    predicate NeedsResetConfirmation(now: Date) {
      IsExhausted() && resetsAt <= now
    }

    predicate LooksLikePlaceholder(fetchedAt: Date) {
      !hardLimitReached && usedPercent <= 0.0001 && -10.0 <= resetsAt - fetchedAt <= 10.0
    }

    function Normalized(): Window {
      this.(kind := Classify(durationSeconds))
    }

    predicate IsPolicy() {
      !kind.Unknown?
    }
  }

  // ----- The canonical list ---------------------------------------------------------------------------------

  function MoreRestrictive(a: Window, b: Window): Window {
    if a.hardLimitReached != b.hardLimitReached then if a.hardLimitReached then a else b
    else if a.usedPercent != b.usedPercent then if a.usedPercent > b.usedPercent then a else b
    else if a.resetsAt >= b.resetsAt then a else b
  }

  /** `a` is at most as restrictive as `b`: denial first, then usage, then the later reset. */
  predicate AtMostAsRestrictive(a: Window, b: Window) {
    || (!a.hardLimitReached && b.hardLimitReached)
    || (a.hardLimitReached == b.hardLimitReached && a.usedPercent < b.usedPercent)
    || (a.hardLimitReached == b.hardLimitReached && a.usedPercent == b.usedPercent && a.resetsAt <= b.resetsAt)
  }

  predicate Counts(w: Window, kind: Kind) {
    w.durationSeconds > 0 && Classify(w.durationSeconds) == kind
  }

  /** The most restrictive window of a kind, the earliest of equals. */
  function Best(windows: seq<Window>, kind: Kind): Option<Window> {
    if windows == [] then None
    else
      var best, last := Best(windows[..|windows| - 1], kind), windows[|windows| - 1];
      if !Counts(last, kind) then best
      else if best.None? then Some(last.Normalized())
      else Some(MoreRestrictive(best.value, last.Normalized()))
  }

  function UnknownWindows(windows: seq<Window>): seq<Window> {
    if windows == [] then []
    else
      var last := windows[|windows| - 1];
      UnknownWindows(windows[..|windows| - 1]) + if Counts(last, Unknown) then [last.Normalized()] else []
  }

  function Present(w: Option<Window>): seq<Window> {
    if w.Some? then [w.value] else []
  }

  function ValidWindows(windows: seq<Window>): seq<Window> {
    Present(Best(windows, FiveHour)) + Present(Best(windows, Weekly)) + UnknownWindows(windows)
  }

  /** The loop that keeps the most restrictive window of each recognized kind and every other one in order. */
  method KeepValidWindows(windows: seq<Window>) returns (r: seq<Window>)
    ensures r == ValidWindows(windows)
  {
    var recognized: map<Kind, Window> := map[];
    var unknown: seq<Window> := [];
    for i := 0 to |windows|
      invariant recognized.Keys <= {FiveHour, Weekly}
      invariant forall kind: Kind :: !kind.Unknown? ==>
                  Best(windows[..i], kind) == if kind in recognized then Some(recognized[kind]) else None
      invariant unknown == UnknownWindows(windows[..i])
    {
      assert windows[..i + 1][..i] == windows[..i];
      if windows[i].durationSeconds > 0 {
        var normalized := windows[i].Normalized();
        if normalized.kind.Unknown? {
          unknown := unknown + [normalized];
        } else if normalized.kind in recognized {
          recognized := recognized[normalized.kind := MoreRestrictive(recognized[normalized.kind], normalized)];
        } else {
          recognized := recognized[normalized.kind := normalized];
        }
      }
    }
    assert windows[..|windows|] == windows;
    r := (if FiveHour in recognized then [recognized[FiveHour]] else [])
         + (if Weekly in recognized then [recognized[Weekly]] else []) + unknown;
  }

  /** The kept window of a kind is one of the input, and no input window of that kind is more restrictive. */
  lemma {:induction false} BestIsMostRestrictive(windows: seq<Window>, kind: Kind)
    ensures Best(windows, kind).Some? <==> exists w <- windows :: Counts(w, kind)
    ensures Best(windows, kind).Some? ==>
              var best := Best(windows, kind).value;
              && best.kind == kind && Counts(best, kind)
              && (exists w <- windows :: Counts(w, kind) && best == w.Normalized())
              && (forall w <- windows :: Counts(w, kind) ==> AtMostAsRestrictive(w, best))
  {
    if windows != [] {
      var rest, last := windows[..|windows| - 1], windows[|windows| - 1];
      BestIsMostRestrictive(rest, kind);
      assert windows == rest + [last];
      if Best(windows, kind).Some? {
        assert last in windows;
        if Best(rest, kind).Some? {
          var w :| w in rest && Counts(w, kind) && Best(rest, kind).value == w.Normalized();
          assert w in windows;
        }
      }
    }
  }

  lemma {:induction false} UnknownWindowsAreUnknown(windows: seq<Window>)
    ensures forall w <- UnknownWindows(windows) :: Counts(w, Unknown) && w.Normalized() == w
    ensures forall w <- windows :: Counts(w, Unknown) ==> w.Normalized() in UnknownWindows(windows)
  {
    if windows != [] {
      UnknownWindowsAreUnknown(windows[..|windows| - 1]);
      assert windows == windows[..|windows| - 1] + [windows[|windows| - 1]];
    }
  }

  lemma {:induction false} BestOfConcatenation(a: seq<Window>, b: seq<Window>, kind: Kind)
    ensures Best(a, kind).None? ==> Best(a + b, kind) == Best(b, kind)
    ensures Best(b, kind).None? ==> Best(a + b, kind) == Best(a, kind)
    decreases |b|
  {
    if b == [] {
      assert a + b == a;
    } else {
      var rest, last := b[..|b| - 1], b[|b| - 1];
      BestOfConcatenation(a, rest, kind);
      assert (a + b)[..|a + b| - 1] == a + rest && (a + b)[|a + b| - 1] == last;
    }
  }

  lemma {:induction false} UnknownOfConcatenation(a: seq<Window>, b: seq<Window>)
    ensures UnknownWindows(a + b) == UnknownWindows(a) + UnknownWindows(b)
    decreases |b|
  {
    if b == [] {
      assert a + b == a;
    } else {
      UnknownOfConcatenation(a, b[..|b| - 1]);
      assert (a + b)[..|a + b| - 1] == a + b[..|b| - 1] && (a + b)[|a + b| - 1] == b[|b| - 1];
    }
  }

  lemma {:induction false} UnknownIsFixed(windows: seq<Window>)
    requires forall w <- windows :: Counts(w, Unknown) && w.Normalized() == w
    ensures UnknownWindows(windows) == windows
    ensures Best(windows, FiveHour).None? && Best(windows, Weekly).None?
  {
    if windows != [] {
      UnknownIsFixed(windows[..|windows| - 1]);
      assert windows == windows[..|windows| - 1] + [windows[|windows| - 1]];
    }
  }

  lemma SingleWindow(w: Option<Window>, kind: Kind)
    requires w.Some? ==> Counts(w.value, kind) && w.value.kind == kind
    requires !kind.Unknown?
    ensures Best(Present(w), kind) == w && UnknownWindows(Present(w)) == []
    ensures forall other: Kind :: other != kind ==> Best(Present(w), other).None?
  {
    if w.Some? {
      assert Present(w)[..0] == [];
    }
  }

  /** The canonical list is its own canonical list. */
  lemma ValidWindowsIsIdempotent(windows: seq<Window>)
    ensures ValidWindows(ValidWindows(windows)) == ValidWindows(windows)
  {
    hide Best, UnknownWindows;
    var five, weekly, unknown := Best(windows, FiveHour), Best(windows, Weekly), UnknownWindows(windows);
    BestIsMostRestrictive(windows, FiveHour);
    BestIsMostRestrictive(windows, Weekly);
    UnknownWindowsAreUnknown(windows);
    UnknownIsFixed(unknown);
    SingleWindow(five, FiveHour);
    SingleWindow(weekly, Weekly);
    BestOfConcatenation(Present(five), Present(weekly), FiveHour);
    BestOfConcatenation(Present(five), Present(weekly), Weekly);
    BestOfConcatenation(Present(five) + Present(weekly), unknown, FiveHour);
    BestOfConcatenation(Present(five) + Present(weekly), unknown, Weekly);
    UnknownOfConcatenation(Present(five), Present(weekly));
    UnknownOfConcatenation(Present(five) + Present(weekly), unknown);
  }

  predicate Canonical(windows: seq<Window>) {
    windows == ValidWindows(windows)
  }

  // ----- What a snapshot says ----------------------------------------------------------------------------------

  datatype Snapshot = Snapshot(allowed: Option<bool>, limitReached: Option<bool>, fetchedAt: Date, windows: seq<Window>)

  function MakeSnapshot(allowed: Option<bool>, limitReached: Option<bool>, fetchedAt: Date, windows: seq<Window>):
    Snapshot
  {
    Snapshot(allowed, limitReached, fetchedAt, ValidWindows(windows))
  }

  function Filter(windows: seq<Window>, f: Window -> bool): seq<Window> {
    if windows == [] then [] else (if f(windows[0]) then [windows[0]] else []) + Filter(windows[1..], f)
  }

  function PolicyWindows(windows: seq<Window>): seq<Window> {
    Filter(windows, (w: Window) => w.IsPolicy())
  }

  /** A stable sort by rank: five-hour windows, then weekly ones, then the rest. */
  function Ordered(windows: seq<Window>): seq<Window> {
    Filter(windows, (w: Window) => w.kind.FiveHour?) + Filter(windows, (w: Window) => w.kind.Weekly?)
    + Filter(windows, (w: Window) => w.kind.Unknown?)
  }

  predicate IsDenied(s: Snapshot) {
    s.allowed == Some(false) || s.limitReached == Some(true)
  }

  predicate HasDefinitiveExhaustion(s: Snapshot) {
    IsDenied(s) || exists w <- PolicyWindows(s.windows) :: w.IsDefinitivelyExhausted()
  }

  predicate HasInvalidPolicyEvidence(s: Snapshot) {
    exists w <- PolicyWindows(s.windows) :: !w.HasValidUsage()
  }

  function BlockingWindows(s: Snapshot): seq<Window> {
    var policy := Ordered(PolicyWindows(s.windows));
    if IsDenied(s) then policy else Filter(policy, (w: Window) => w.ShouldAutoSwapAway())
  }

  predicate NeedsSwap(s: Snapshot) {
    HasDefinitiveExhaustion(s) || BlockingWindows(s) != []
  }

  predicate IsImmediatelyUsable(s: Snapshot) {
    && !HasDefinitiveExhaustion(s) && !HasInvalidPolicyEvidence(s)
    && PolicyWindows(s.windows) != [] && BlockingWindows(s) == []
  }

  function LeastRemaining(windows: seq<Window>): Option<real> {
    if windows == [] then None
    else
      var rest := LeastRemaining(windows[1..]);
      Some(if rest.None? then windows[0].EffectiveRemaining() else Min(windows[0].EffectiveRemaining(), rest.value))
  }

  function MinimumRemainingPercent(s: Snapshot): Option<real> {
    if HasDefinitiveExhaustion(s) then Some(0.0)
    else if HasInvalidPolicyEvidence(s) then None
    else LeastRemaining(PolicyWindows(s.windows))
  }

  predicate IsFresh(s: Snapshot, now: Date) {
    0.0 <= now - s.fetchedAt <= MAXIMUM_SNAPSHOT_AGE
  }

  predicate HasExpiredExhaustedWindow(s: Snapshot, now: Date) {
    exists w <- PolicyWindows(s.windows) :: w.NeedsResetConfirmation(now)
  }

  predicate HasPlaceholder(s: Snapshot) {
    exists w <- PolicyWindows(s.windows) :: w.LooksLikePlaceholder(s.fetchedAt)
  }

  // ----- What one window says, in numbers -------------------------------------------------------------------------

  /** A window of five hours or of seven days is recognized; it is spent from a hard limit or full use, nearly spent above
      99 percent, left above 98, and its reading is valid unless negative. */
  lemma WindowIsExact(w: Window, now: Date)
    ensures w.Normalized() == w.(kind := if w.durationSeconds == 18_000 then FiveHour
                                         else if w.durationSeconds == 604_800 then Weekly else Unknown)
    ensures w.IsDefinitivelyExhausted() <==> w.hardLimitReached || w.usedPercent >= 100.0
    ensures w.IsExhausted() <==> w.hardLimitReached || w.usedPercent > 99.0
    ensures w.ShouldAutoSwapAway() <==> w.hardLimitReached || w.usedPercent > 98.0
    ensures w.HasValidUsage() <==> w.usedPercent >= 0.0
    ensures w.EffectiveRemaining() == if w.hardLimitReached || w.usedPercent > 99.0 then 0.0 else 100.0 - w.usedPercent
    ensures w.NeedsResetConfirmation(now) <==> (w.hardLimitReached || w.usedPercent > 99.0) && w.resetsAt <= now
    ensures w.LooksLikePlaceholder(now) <==>
              !w.hardLimitReached && w.usedPercent <= 0.0001 && now - 10.0 <= w.resetsAt <= now + 10.0
  {
  }

  lemma {:induction false} FilterIsExact(windows: seq<Window>, f: Window -> bool)
    ensures forall w: Window :: w in Filter(windows, f) <==> w in windows && f(w)
  {
    if windows != [] {
      FilterIsExact(windows[1..], f);
      assert windows == [windows[0]] + windows[1..];
    }
  }

  /** A snapshot: how long it counts, which windows speak for the policy, and what denies, blocks or spoils it. */
  lemma SnapshotIsExact(s: Snapshot, now: Date)
    ensures IsFresh(s, now) <==> s.fetchedAt <= now <= s.fetchedAt + 900.0
    ensures forall w: Window :: w in PolicyWindows(s.windows) <==> w in s.windows && !w.kind.Unknown?
    ensures IsDenied(s) <==> s.allowed == Some(false) || s.limitReached == Some(true)
    ensures HasPlaceholder(s) <==> exists w <- s.windows :: !w.kind.Unknown? && w.LooksLikePlaceholder(s.fetchedAt)
    ensures HasExpiredExhaustedWindow(s, now) <==> exists w <- s.windows :: !w.kind.Unknown? && w.NeedsResetConfirmation(now)
    ensures HasInvalidPolicyEvidence(s) <==> exists w <- s.windows :: !w.kind.Unknown? && w.usedPercent < 0.0
    ensures HasDefinitiveExhaustion(s) <==>
              IsDenied(s) || exists w <- s.windows :: !w.kind.Unknown? && w.IsDefinitivelyExhausted()
  {
    FilterIsExact(s.windows, (w: Window) => w.IsPolicy());
    hide Filter;
  }

  lemma {:induction false} LeastIsLeast(windows: seq<Window>)
    ensures LeastRemaining(windows).None? <==> windows == []
    ensures LeastRemaining(windows).Some? ==>
              && (exists w <- windows :: w.EffectiveRemaining() == LeastRemaining(windows).value)
              && forall w <- windows :: LeastRemaining(windows).value <= w.EffectiveRemaining()
  {
    if windows != [] {
      LeastIsLeast(windows[1..]);
      assert windows == [windows[0]] + windows[1..] && windows[0] in windows;
      assert forall w <- windows[1..] :: w in windows;
    }
  }

  /** What remains at least: nothing once a limit is reached, unknown on a bad or missing reading, and otherwise what the
      fullest window leaves. */
  lemma MinimumRemainingIsExact(s: Snapshot)
    ensures var r, policy := MinimumRemainingPercent(s), PolicyWindows(s.windows);
            if HasDefinitiveExhaustion(s) then r == Some(0.0)
            else if HasInvalidPolicyEvidence(s) || policy == [] then r == None
            else r.Some? && (exists w <- policy :: w.EffectiveRemaining() == r.value)
                 && forall w <- policy :: r.value <= w.EffectiveRemaining()
  {
    LeastIsLeast(PolicyWindows(s.windows));
    hide LeastRemaining, PolicyWindows;
  }

  /** Windows of other lengths are kept as they are, unless their length makes no sense. */
  lemma {:induction false} UnknownWindowsAreKept(windows: seq<Window>)
    ensures forall w: Window :: w in UnknownWindows(windows) <==>
              w.kind.Unknown? && exists v <- windows ::
                v.durationSeconds > 0 && v.durationSeconds != 18_000 && v.durationSeconds != 604_800
                && w == v.(kind := Unknown)
  {
    if windows != [] {
      var rest, last := windows[..|windows| - 1], windows[|windows| - 1];
      UnknownWindowsAreKept(rest);
      assert windows == rest + [last];
    }
  }

  // ----- Independence of the order of the input -------------------------------------------------------------------

  lemma {:induction false} UnknownFiltersOut(windows: seq<Window>)
    requires forall w <- windows :: w.kind.Unknown?
    ensures PolicyWindows(windows) == []
  {
    if windows != [] {
      UnknownFiltersOut(windows[1..]);
    }
  }

  lemma {:induction false} FilterOfConcatenation(a: seq<Window>, b: seq<Window>, f: Window -> bool)
    ensures Filter(a + b, f) == Filter(a, f) + Filter(b, f)
  {
    if a == [] {
      assert a + b == b;
    } else {
      assert (a + b)[0] == a[0] && (a + b)[1..] == a[1..] + b;
      FilterOfConcatenation(a[1..], b, f);
      assert Filter(a + b, f) == (if f(a[0]) then [a[0]] else []) + Filter(a[1..] + b, f);
    }
  }

  /** The policy windows of a snapshot are at most one five-hour window, then at most one weekly window. */
  lemma PolicyWindowsAreBest(windows: seq<Window>)
    ensures PolicyWindows(ValidWindows(windows)) == Present(Best(windows, FiveHour)) + Present(Best(windows, Weekly))
    ensures Ordered(PolicyWindows(ValidWindows(windows))) == PolicyWindows(ValidWindows(windows))
  {
    var five, weekly, unknown := Best(windows, FiveHour), Best(windows, Weekly), UnknownWindows(windows);
    var policy := (w: Window) => w.IsPolicy();
    BestIsMostRestrictive(windows, FiveHour);
    BestIsMostRestrictive(windows, Weekly);
    UnknownWindowsAreUnknown(windows);
    UnknownFiltersOut(unknown);
    FilterOfConcatenation(Present(five) + Present(weekly), unknown, policy);
    FilterOfConcatenation(Present(five), Present(weekly), policy);
    var both := Present(five) + Present(weekly);
    assert PolicyWindows(Present(five)) == Present(five) && PolicyWindows(Present(weekly)) == Present(weekly);
    FilterOfConcatenation(Present(five), Present(weekly), (w: Window) => w.kind.FiveHour?);
    FilterOfConcatenation(Present(five), Present(weekly), (w: Window) => w.kind.Weekly?);
    FilterOfConcatenation(Present(five), Present(weekly), (w: Window) => w.kind.Unknown?);
  }

  /** Two windows that differ at most in where they came from. */
  predicate SameEvidence(a: Option<Window>, b: Option<Window>) {
    (a.None? <==> b.None?) && (a.Some? ==> a.value == b.value.(source := a.value.source))
  }

  lemma BestIgnoresOrder(a: seq<Window>, b: seq<Window>, kind: Kind)
    requires multiset(a) == multiset(b) && !kind.Unknown?
    ensures SameEvidence(Best(a, kind), Best(b, kind))
  {
    BestIsMostRestrictive(a, kind);
    BestIsMostRestrictive(b, kind);
    assert forall w: Window :: w in a <==> w in multiset(a);
    assert forall w: Window :: w in b <==> w in multiset(b);
  }

  /** Usability, the need to swap and the least remaining capacity do not depend on the order the windows came in. */
  lemma CapacityIgnoresOrder(allowed: Option<bool>, limitReached: Option<bool>, fetchedAt: Date, a: seq<Window>,
                             b: seq<Window>)
    requires multiset(a) == multiset(b)
    ensures var s := MakeSnapshot(allowed, limitReached, fetchedAt, a);
            var t := MakeSnapshot(allowed, limitReached, fetchedAt, b);
            && IsImmediatelyUsable(s) == IsImmediatelyUsable(t) && NeedsSwap(s) == NeedsSwap(t)
            && MinimumRemainingPercent(s) == MinimumRemainingPercent(t)
  {
    var s, t := MakeSnapshot(allowed, limitReached, fetchedAt, a), MakeSnapshot(allowed, limitReached, fetchedAt, b);
    hide Best, ValidWindows, PolicyWindows, BlockingWindows, LeastRemaining, HasDefinitiveExhaustion,
         HasInvalidPolicyEvidence, Exhausts, IsInvalid, Blocks;
    CapacityOf(s, a);
    CapacityOf(t, b);
    BestIgnoresOrder(a, b, FiveHour);
    BestIgnoresOrder(a, b, Weekly);
    EvidenceDecides(Best(a, FiveHour), Best(b, FiveHour));
    EvidenceDecides(Best(a, Weekly), Best(b, Weekly));
  }

  predicate Exhausts(w: Option<Window>) {
    w.Some? && w.value.IsDefinitivelyExhausted()
  }

  predicate IsInvalid(w: Option<Window>) {
    w.Some? && !w.value.HasValidUsage()
  }

  predicate Blocks(w: Option<Window>) {
    w.Some? && w.value.ShouldAutoSwapAway()
  }

  function LeastOf(a: Option<Window>, b: Option<Window>): Option<real> {
    if a.None? then if b.None? then None else Some(b.value.EffectiveRemaining())
    else if b.None? then Some(a.value.EffectiveRemaining())
    else Some(Min(a.value.EffectiveRemaining(), b.value.EffectiveRemaining()))
  }

  /** Capacity read off the two most restrictive windows alone. */
  lemma CapacityOf(s: Snapshot, windows: seq<Window>)
    requires s.windows == ValidWindows(windows)
    ensures var five, weekly := Best(windows, FiveHour), Best(windows, Weekly);
            && (HasDefinitiveExhaustion(s) <==> IsDenied(s) || Exhausts(five) || Exhausts(weekly))
            && (HasInvalidPolicyEvidence(s) <==> IsInvalid(five) || IsInvalid(weekly))
            && (PolicyWindows(s.windows) == [] <==> five.None? && weekly.None?)
            && (BlockingWindows(s) == [] <==>
                  if IsDenied(s) then five.None? && weekly.None? else !Blocks(five) && !Blocks(weekly))
            && LeastRemaining(PolicyWindows(s.windows)) == LeastOf(five, weekly)
  {
    hide Best, LeastRemaining, Window.IsDefinitivelyExhausted, Window.HasValidUsage, Window.ShouldAutoSwapAway;
    var five, weekly := Best(windows, FiveHour), Best(windows, Weekly);
    PolicyWindowsAreBest(windows);
    LeastOfTwo(five, weekly);
    hide ValidWindows, PolicyWindows;
    var both := Present(five) + Present(weekly);
    var blocks := (w: Window) => w.ShouldAutoSwapAway();
    FilterOfConcatenation(Present(five), Present(weekly), blocks);
    assert forall w: Window :: w in both <==> (five == Some(w) || weekly == Some(w));
  }

  lemma LeastOfTwo(a: Option<Window>, b: Option<Window>)
    ensures LeastRemaining(Present(a) + Present(b)) == LeastOf(a, b)
  {
    if b.Some? {
      assert Present(b)[1..] == [];
      assert LeastRemaining(Present(b)) == Some(b.value.EffectiveRemaining());
    }
    if a.Some? {
      assert (Present(a) + Present(b))[1..] == Present(b);
    } else {
      assert Present(a) + Present(b) == Present(b);
    }
  }

  lemma EvidenceDecides(a: Option<Window>, b: Option<Window>)
    requires SameEvidence(a, b)
    ensures Exhausts(a) == Exhausts(b) && IsInvalid(a) == IsInvalid(b) && Blocks(a) == Blocks(b)
    ensures a.Some? ==> a.value.EffectiveRemaining() == b.value.EffectiveRemaining()
  {
  }

  /** An account with capacity is never one that needs a swap, and the other way round only bad or missing evidence
      leaves an account that neither can be used nor must be left. */
  lemma UsableMeansNoSwap(s: Snapshot)
    ensures IsImmediatelyUsable(s) ==> !NeedsSwap(s)
    ensures !IsImmediatelyUsable(s) && !NeedsSwap(s) ==> HasInvalidPolicyEvidence(s) || PolicyWindows(s.windows) == []
  {
  }

  // ----- Capacity read off the raw windows -------------------------------------------------------------------------

  predicate Recognized(w: Window) {
    Counts(w, FiveHour) || Counts(w, Weekly)
  }

  /** If a kind is known at all, it is known by some valid reading. */
  predicate HasValidReading(windows: seq<Window>, kind: Kind) {
    (exists w <- windows :: Counts(w, kind)) ==> exists w <- windows :: Counts(w, kind) && w.HasValidUsage()
  }

  /** One exhausted window is enough, and the least favourable window decides. */
  lemma BestDecides(windows: seq<Window>, kind: Kind)
    requires !kind.Unknown?
    ensures Exhausts(Best(windows, kind)) <==> exists w <- windows :: Counts(w, kind) && w.IsDefinitivelyExhausted()
    ensures Blocks(Best(windows, kind)) <==> exists w <- windows :: Counts(w, kind) && w.ShouldAutoSwapAway()
    ensures !Blocks(Best(windows, kind)) ==>
              (IsInvalid(Best(windows, kind)) <==>
                 (exists w <- windows :: Counts(w, kind))
                 && forall w <- windows :: Counts(w, kind) ==> !w.HasValidUsage())
  {
    BestIsMostRestrictive(windows, kind);
    if Best(windows, kind).Some? {
      var best := Best(windows, kind).value;
      var w :| w in windows && Counts(w, kind) && best == w.Normalized();
      assert w.IsDefinitivelyExhausted() == best.IsDefinitivelyExhausted();
      assert w.ShouldAutoSwapAway() == best.ShouldAutoSwapAway() && w.HasValidUsage() == best.HasValidUsage();
      hide Best;
    }
  }

  /** Negative evidence always wins: an account must be left if and only if it is denied or any recognized window, even
      one that was not kept, is nearly used up; and it can be used if and only if it is not denied, some recognized
      window is known, none is nearly used up, and no kind is known only by invalid readings. */
  lemma CapacityIsWorstEvidence(allowed: Option<bool>, limitReached: Option<bool>, fetchedAt: Date, windows: seq<Window>)
    ensures var s := MakeSnapshot(allowed, limitReached, fetchedAt, windows);
            && (HasDefinitiveExhaustion(s) <==>
                  IsDenied(s) || exists w <- windows :: Recognized(w) && w.IsDefinitivelyExhausted())
            && (NeedsSwap(s) <==> IsDenied(s) || exists w <- windows :: Recognized(w) && w.ShouldAutoSwapAway())
            && (IsImmediatelyUsable(s) <==>
                  && !IsDenied(s)
                  && (exists w <- windows :: Recognized(w))
                  && (forall w <- windows :: Recognized(w) ==> !w.ShouldAutoSwapAway())
                  && HasValidReading(windows, FiveHour) && HasValidReading(windows, Weekly))
  {
    var s := MakeSnapshot(allowed, limitReached, fetchedAt, windows);
    CapacityOf(s, windows);
    BestDecides(windows, FiveHour);
    BestDecides(windows, Weekly);
    BestIsMostRestrictive(windows, FiveHour);
    BestIsMostRestrictive(windows, Weekly);
    hide Best, ValidWindows, PolicyWindows, BlockingWindows, LeastRemaining, HasDefinitiveExhaustion,
         HasInvalidPolicyEvidence, Exhausts, IsInvalid, Blocks, AtMostAsRestrictive;
  }
}
