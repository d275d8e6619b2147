/** Banked rate-limit resets: which credits of a bank can be redeemed, and which of two banks to keep. */
module ResetBank {
  import opened Prelude
  import opened Identity

  datatype Credit = Credit(id: string, status: string, grantedAt: Option<Date>, expiresAt: Option<Date>,
                           redeemedAt: Option<Date>, resetType: Option<string>, title: Option<string>,
                           description: Option<string>)
  {
    predicate IsAvailable() {
      Lowercased(status) == "available" && redeemedAt.None?
    }

    predicate IsAvailableAt(date: Date) {
      IsAvailable() && expiresAt.Some? && expiresAt.value > date
    }

    function Normalized(): Credit {
      this.(id := Trim(id))
    }
  }

  datatype Bank = Bank(availableCount: int, totalEarnedCount: int, credits: seq<Credit>, fetchedAt: Date)

  // ----- The credits that can be redeemed ----------------------------------------------------------------------

  /** The credits available at a date, with normalized identifiers, in the order listed. */
  function Usable(credits: seq<Credit>, date: Date): seq<Credit> {
    if credits == [] then []
    else
      var last := credits[|credits| - 1];
      Usable(credits[..|credits| - 1], date) + if last.IsAvailableAt(date) then [last.Normalized()] else []
  }

  predicate DistinctIds(credits: seq<Credit>) {
    forall i, j :: 0 <= i < j < |credits| ==> credits[i].id != credits[j].id
  }

  /** The bank can be believed: sensible counts, no available credit without an expiry, every usable credit identified
      and no two alike, and exactly as many of them as announced. */
  predicate IsValidAt(bank: Bank, date: Date) {
    var usable := Usable(bank.credits, date);
    && bank.availableCount >= 0 && bank.totalEarnedCount >= 0
    && (forall c <- bank.credits :: c.IsAvailable() ==> c.expiresAt.Some?)
    && (forall c <- usable :: c.id != "")
    && DistinctIds(usable)
    && |usable| == bank.availableCount
  }

  /** Earlier expiry first, then the lesser identifier; a credit without expiry comes last. */
  predicate Earlier(a: Credit, b: Credit) {
    if a.expiresAt.Some? && b.expiresAt.Some? then
      if a.expiresAt.value == b.expiresAt.value then Precedes(a.id, b.id) else a.expiresAt.value < b.expiresAt.value
    else if a.expiresAt.None? && b.expiresAt.None? then Precedes(a.id, b.id)
    else a.expiresAt.Some?
  }

  function Insert(c: Credit, sorted: seq<Credit>): seq<Credit> {
    if sorted == [] || !Earlier(sorted[0], c) then [c] + sorted else [sorted[0]] + Insert(c, sorted[1..])
  }

  function Sorted(credits: seq<Credit>): seq<Credit> {
    if credits == [] then [] else Insert(credits[0], Sorted(credits[1..]))
  }

  function ValidCredits(bank: Bank, date: Date): Option<seq<Credit>> {
    if IsValidAt(bank, date) then Some(Sorted(Usable(bank.credits, date))) else None
  }

  lemma {:induction false} UsableMembers(credits: seq<Credit>, date: Date)
    ensures forall c <- Usable(credits, date) :: c.expiresAt.Some? && c.expiresAt.value > date
    ensures forall c <- Usable(credits, date) :: exists d <- credits :: d.IsAvailableAt(date) && c == d.Normalized()
    ensures forall c <- credits :: c.IsAvailableAt(date) ==> c.Normalized() in Usable(credits, date)
  {
    if credits != [] {
      var rest, last := credits[..|credits| - 1], credits[|credits| - 1];
      UsableMembers(rest, date);
      assert credits == rest + [last];
      forall c <- Usable(credits, date)
        ensures exists d <- credits :: d.IsAvailableAt(date) && c == d.Normalized()
      {
        if c in Usable(rest, date) {
          var d :| d in rest && d.IsAvailableAt(date) && c == d.Normalized();
          assert d in credits;
        } else {
          assert last in credits;
        }
      }
    }
  }

  lemma {:induction false} UsablePrefixes(credits: seq<Credit>, date: Date, n: nat)
    requires n <= |credits|
    ensures Usable(credits[..n], date) <= Usable(credits, date)
    decreases |credits| - n
  {
    if n == |credits| {
      assert credits[..n] == credits;
    } else {
      assert credits[..n + 1][..n] == credits[..n];
      UsablePrefixes(credits, date, n + 1);
    }
  }

  /** The loop that collects the usable credits and gives up at the first one that is blank or repeated. */
  method StructurallyValidAvailableCredits(bank: Bank, date: Date) returns (r: Option<seq<Credit>>)
    ensures r == ValidCredits(bank, date)
  {
    if bank.availableCount < 0 || bank.totalEarnedCount < 0
       || exists c <- bank.credits :: c.IsAvailable() && c.expiresAt.None?
    {
      return None;
    }
    assert DistinctIds([]);
    hide DistinctIds, Earlier, Sorted;
    var identifiers: set<string> := {};
    var normalized: seq<Credit> := [];
    for i := 0 to |bank.credits|
      invariant normalized == Usable(bank.credits[..i], date)
      invariant identifiers == set c <- normalized :: c.id
      invariant DistinctIds(normalized) && forall c <- normalized :: c.id != ""
    {
      var credit := bank.credits[i];
      assert bank.credits[..i + 1][..i] == bank.credits[..i];
      if credit.IsAvailableAt(date) {
        var next := credit.Normalized();
        if next.id == "" || next.id in identifiers {
          UsablePrefixes(bank.credits, date, i + 1);
          RejectedCredit(normalized, next, Usable(bank.credits, date));
          return None;
        }
        AppendedStaysDistinct(normalized, next);
        identifiers := identifiers + {next.id};
        normalized := normalized + [next];
      }
    }
    assert bank.credits[..|bank.credits|] == bank.credits;
    if |normalized| != bank.availableCount {
      return None;
    }
    r := Some(Sorted(normalized));
  }

  lemma AppendedStaysDistinct(before: seq<Credit>, next: Credit)
    requires DistinctIds(before) && next.id !in set c <- before :: c.id
    ensures DistinctIds(before + [next])
  {
  }

  lemma RejectedCredit(before: seq<Credit>, next: Credit, all: seq<Credit>)
    requires before + [next] <= all
    requires next.id == "" || next.id in set c <- before :: c.id
    ensures !DistinctIds(all) || exists c <- all :: c.id == ""
  {
    assert all[|before|] == next && next in all;
    if next.id != "" {
      var c :| c in before && c.id == next.id;
      var i :| 0 <= i < |before| && before[i] == c;
      assert all[i].id == all[|before|].id;
    }
  }

  // ----- The order of redemption -------------------------------------------------------------------------------

  predicate StrictlyOrdered(credits: seq<Credit>) {
    forall i, j :: 0 <= i < j < |credits| ==> Earlier(credits[i], credits[j])
  }

  lemma EarlierIsStrictOrder(a: Credit, b: Credit, c: Credit)
    ensures !Earlier(a, a)
    ensures Earlier(a, b) && Earlier(b, c) ==> Earlier(a, c)
    ensures a.id != b.id ==> Earlier(a, b) || Earlier(b, a)
  {
    PrecedesIsIrreflexive(a.id);
    if Precedes(a.id, b.id) && Precedes(b.id, c.id) {
      PrecedesIsTransitive(a.id, b.id, c.id);
    }
    if a.id != b.id {
      PrecedesIsTotal(a.id, b.id);
    }
  }

  lemma {:induction false} InsertKeepsOrder(c: Credit, sorted: seq<Credit>)
    requires StrictlyOrdered(sorted) && forall d <- sorted :: d.id != c.id
    ensures StrictlyOrdered(Insert(c, sorted)) && multiset(Insert(c, sorted)) == multiset(sorted) + multiset{c}
  {
    hide Earlier;
    if sorted != [] {
      var head, tail := sorted[0], sorted[1..];
      assert sorted == [head] + tail;
      EarlierIsStrictOrder(head, c, c);
      if Earlier(head, c) {
        InsertKeepsOrder(c, tail);
        forall d <- Insert(c, tail)
          ensures Earlier(head, d)
        {
          assert d in multiset(Insert(c, tail));
        }
      } else {
        forall d <- sorted
          ensures Earlier(c, d)
        {
          EarlierIsStrictOrder(c, head, d);
        }
      }
    }
  }

  lemma {:induction false} SortedIsOrdered(credits: seq<Credit>)
    requires DistinctIds(credits)
    ensures StrictlyOrdered(Sorted(credits)) && multiset(Sorted(credits)) == multiset(credits)
  {
    if credits != [] {
      var head, tail := credits[0], credits[1..];
      assert credits == [head] + tail;
      SortedIsOrdered(tail);
      forall d <- Sorted(tail)
        ensures d.id != head.id
      {
        assert d in multiset(tail);
      }
      InsertKeepsOrder(head, Sorted(tail));
    }
  }

  lemma FirstIsEarliest(credits: seq<Credit>, c: Credit)
    requires StrictlyOrdered(credits) && c in credits
    ensures credits[0] == c || Earlier(credits[0], c)
  {
  }

  lemma HeadsAgree(a: seq<Credit>, b: seq<Credit>)
    requires StrictlyOrdered(a) && StrictlyOrdered(b) && multiset(a) == multiset(b) && a != []
    ensures b != [] && a[0] == b[0]
  {
    hide StrictlyOrdered, Earlier;
    assert a[0] in multiset(b) && a[0] in b;
    assert b[0] in multiset(a) && b[0] in a;
    FirstIsEarliest(a, b[0]);
    FirstIsEarliest(b, a[0]);
    EarlierIsStrictOrder(a[0], b[0], a[0]);
  }

  /** Two strictly ordered lists of the same credits are the same list. */
  lemma {:induction false} OrderIsUnique(a: seq<Credit>, b: seq<Credit>)
    requires StrictlyOrdered(a) && StrictlyOrdered(b) && multiset(a) == multiset(b)
    ensures a == b
  {
    hide Earlier;
    if a == [] {
      assert multiset(b) == multiset{};
    } else {
      HeadsAgree(a, b);
      assert a == [a[0]] + a[1..] && b == [b[0]] + b[1..];
      assert multiset(a[1..]) == multiset(a) - multiset{a[0]};
      OrderIsUnique(a[1..], b[1..]);
    }
  }

  lemma {:induction false} DistinctMeansOnce(credits: seq<Credit>, c: Credit)
    requires DistinctIds(credits)
    ensures multiset(credits)[c] <= 1
  {
    if credits != [] {
      assert credits == [credits[0]] + credits[1..];
      DistinctMeansOnce(credits[1..], c);
      assert c == credits[0] ==> c !in credits[1..];
    }
  }

  lemma OnceMeansDifferent(credits: seq<Credit>, i: nat, j: nat)
    requires i < j < |credits| && multiset(credits)[credits[i]] <= 1
    ensures credits[i] != credits[j]
  {
    assert credits == credits[..i] + [credits[i]] + credits[i + 1..j] + [credits[j]] + credits[j + 1..];
    assert multiset(credits) == multiset(credits[..i]) + multiset{credits[i]} + multiset(credits[i + 1..j])
                                + multiset{credits[j]} + multiset(credits[j + 1..]);
  }

  lemma DistinctIgnoresOrder(a: seq<Credit>, b: seq<Credit>)
    requires DistinctIds(a) && multiset(a) == multiset(b)
    ensures DistinctIds(b)
  {
    forall i, j | 0 <= i < j < |b|
      ensures b[i].id != b[j].id
    {
      DistinctMeansOnce(a, b[i]);
      OnceMeansDifferent(b, i, j);
      assert b[i] in multiset(a) && b[j] in multiset(a);
    }
  }

  /** The credits of a bank that can be believed: all of them, the one to redeem next first, and the same whatever order
      the bank listed them in. */
  lemma ValidCreditsAreOrdered(bank: Bank, date: Date, relisted: seq<Credit>)
    requires IsValidAt(bank, date) && multiset(Usable(relisted, date)) == multiset(Usable(bank.credits, date))
    ensures var r := ValidCredits(bank, date).value;
            && StrictlyOrdered(r) && multiset(r) == multiset(Usable(bank.credits, date)) && |r| == bank.availableCount
            && Sorted(Usable(relisted, date)) == r
  {
    var usable := Usable(bank.credits, date);
    SortedIsOrdered(usable);
    assert |Sorted(usable)| == |multiset(Sorted(usable))|;
    DistinctIgnoresOrder(usable, Usable(relisted, date));
    SortedIsOrdered(Usable(relisted, date));
    OrderIsUnique(Sorted(usable), Sorted(Usable(relisted, date)));
  }

  function NextExpiration(bank: Bank, date: Date): Option<Date> {
    var credits := ValidCredits(bank, date);
    if credits.Some? && credits.value != [] then credits.value[0].expiresAt else None
  }

  predicate HasAvailableReset(bank: Bank, date: Date) {
    var credits := ValidCredits(bank, date);
    credits.Some? && credits.value != []
  }

  predicate IsFresh(bank: Bank, date: Date) {
    0.0 <= date - bank.fetchedAt < 60.0
  }

  /** A reset can be redeemed if and only if the bank can be believed and announces one; the next expiry is then the
      earliest of all of its usable credits, and still to come. */
  lemma NextExpirationIsEarliest(bank: Bank, date: Date)
    ensures HasAvailableReset(bank, date) <==> IsValidAt(bank, date) && bank.availableCount > 0
    ensures HasAvailableReset(bank, date) ==>
              && NextExpiration(bank, date).Some? && NextExpiration(bank, date).value > date
              && forall c <- bank.credits :: c.IsAvailableAt(date) ==> NextExpiration(bank, date).value <= c.expiresAt.value
  {
    if IsValidAt(bank, date) {
      ValidCreditsAreOrdered(bank, date, bank.credits);
      UsableMembers(bank.credits, date);
      var r := ValidCredits(bank, date).value;
      forall c <- r
        ensures c in Usable(bank.credits, date)
      {
        assert c in multiset(Usable(bank.credits, date));
      }
      forall c <- bank.credits | c.IsAvailableAt(date)
        ensures r != [] && r[0].expiresAt.Some? && r[0].expiresAt.value <= c.expiresAt.value
      {
        assert c.Normalized() in multiset(r);
        var i :| 0 <= i < |r| && r[i] == c.Normalized();
        assert r[0] in Usable(bank.credits, date);
        assert i > 0 ==> Earlier(r[0], r[i]);
      }
      if r != [] {
        assert r[0] in Usable(bank.credits, date);
      }
    }
  }

  // ----- What makes a bank believable --------------------------------------------------------------------------

  predicate SpellsAvailable(status: string) {
    |status| == 9 && forall i | 0 <= i < 9 :: SameLetter("available"[i], status[i])
  }

  lemma CreditIsExact(c: Credit, date: Date)
    ensures c.IsAvailable() <==> SpellsAvailable(c.status) && c.redeemedAt.None?
    ensures c.IsAvailableAt(date) <==>
              SpellsAvailable(c.status) && c.redeemedAt.None? && c.expiresAt.Some? && date < c.expiresAt.value
  {
    assert |"available"| == 9 && |Lowercased(c.status)| == |c.status|;
    if |c.status| == 9 {
      assert Lowercased(c.status) == "available" <==> forall i | 0 <= i < 9 :: Lowercased(c.status)[i] == "available"[i];
    }
  }

  /** The places of the credits that can be redeemed. */
  function Places(credits: seq<Credit>, date: Date): set<int> {
    set i | 0 <= i < |credits| && credits[i].IsAvailableAt(date)
  }

  predicate Names(credits: seq<Credit>, id: string) {
    exists c <- credits :: c.id == id
  }

  predicate PlaceNames(credits: seq<Credit>, date: Date, id: string) {
    exists i <- Places(credits, date) :: Trim(credits[i].id) == id
  }

  predicate PlacesDiffer(credits: seq<Credit>, date: Date) {
    forall i <- Places(credits, date), j <- Places(credits, date) :: i < j ==>
      Trim(credits[i].id) != Trim(credits[j].id)
  }

  lemma PlacesGrow(credits: seq<Credit>, date: Date)
    requires credits != []
    ensures var n := |credits| - 1;
            && Places(credits, date) == Places(credits[..n], date) + (if credits[n].IsAvailableAt(date) then {n} else {})
            && n !in Places(credits[..n], date)
  {
    hide Credit.IsAvailableAt;
  }

  lemma {:induction false} UsableCount(credits: seq<Credit>, date: Date)
    ensures |Usable(credits, date)| == |Places(credits, date)|
  {
    hide Credit.IsAvailableAt, Trim;
    if credits != [] {
      UsableCount(credits[..|credits| - 1], date);
      PlacesGrow(credits, date);
      hide Places;
    }
  }

  lemma {:induction false} UsableNames(credits: seq<Credit>, date: Date)
    ensures forall id: string :: Names(Usable(credits, date), id) <==> PlaceNames(credits, date, id)
  {
    hide Credit.IsAvailableAt, Trim;
    if credits != [] {
      var n := |credits| - 1;
      UsableNames(credits[..n], date);
      PlacesGrow(credits, date);
      hide Places;
      forall id: string
        ensures Names(Usable(credits, date), id) <==>
                  Names(Usable(credits[..n], date), id)
                  || (credits[n].IsAvailableAt(date) && Trim(credits[n].id) == id)
        ensures PlaceNames(credits, date, id) <==>
                  PlaceNames(credits[..n], date, id) || (credits[n].IsAvailableAt(date) && Trim(credits[n].id) == id)
      {
      }
    }
  }

  lemma {:induction false} UsableIsDistinct(credits: seq<Credit>, date: Date)
    ensures DistinctIds(Usable(credits, date)) <==> PlacesDiffer(credits, date)
  {
    hide Credit.IsAvailableAt, Trim, DistinctIds;
    if credits != [] {
      var n := |credits| - 1;
      var rest, last := credits[..n], credits[n];
      UsableIsDistinct(rest, date);
      UsableNames(rest, date);
      LastIsDistinct(Usable(rest, date), last.Normalized());
      LastPlaceDiffers(credits, date);
      if last.IsAvailableAt(date) {
        assert Usable(credits, date) == Usable(rest, date) + [last.Normalized()];
      } else {
        assert Usable(credits, date) == Usable(rest, date) + [] == Usable(rest, date);
      }
    } else {
      NothingIsDistinct();
      assert Usable(credits, date) == [];
      assert PlacesDiffer(credits, date) by {
        assert Places(credits, date) == {};
      }
    }
  }

  lemma NothingIsDistinct()
    ensures DistinctIds([])
  {
  }

  lemma LastPlaceDiffers(credits: seq<Credit>, date: Date)
    requires credits != []
    ensures var n := |credits| - 1;
            PlacesDiffer(credits, date) <==>
              && PlacesDiffer(credits[..n], date)
              && (credits[n].IsAvailableAt(date) ==> !PlaceNames(credits[..n], date, Trim(credits[n].id)))
  {
    PlacesGrow(credits, date);
    var n := |credits| - 1;
    assert forall i <- Places(credits[..n], date) :: i < n && credits[..n][i] == credits[i];
    hide Places, Credit.IsAvailableAt, Trim;
  }

  lemma LastIsDistinct(before: seq<Credit>, last: Credit)
    ensures DistinctIds(before + [last]) <==> DistinctIds(before) && !Names(before, last.id)
  {
    var all := before + [last];
    if DistinctIds(all) {
      forall i, j | 0 <= i < j < |before|
        ensures before[i].id != before[j].id
      {
        assert all[i] == before[i] && all[j] == before[j];
      }
      forall c <- before
        ensures c.id != last.id
      {
        var i :| 0 <= i < |before| && before[i] == c;
        assert all[i].id != all[|before|].id;
      }
    }
  }

  /** A bank can be believed exactly if its counts make sense, no credit is available for ever, every redeemable credit has
      an identifier of its own, and there are as many of them as it announces. */
  lemma BeliefIsExact(bank: Bank, date: Date)
    ensures var places := Places(bank.credits, date);
            IsValidAt(bank, date) <==>
              && bank.availableCount == |places| && bank.totalEarnedCount >= 0
              && (forall c <- bank.credits :: SpellsAvailable(c.status) && c.redeemedAt.None? ==> c.expiresAt.Some?)
              && (forall i <- places :: !IsBlank(bank.credits[i].id))
              && forall i <- places, j <- places :: i < j ==> Trim(bank.credits[i].id) != Trim(bank.credits[j].id)
  {
    UsableCount(bank.credits, date);
    UsableIsDistinct(bank.credits, date);
    UsableNames(bank.credits, date);
    assert (forall c <- Usable(bank.credits, date) :: c.id != "") <==> !Names(Usable(bank.credits, date), "");
    forall c <- bank.credits
      ensures c.IsAvailable() <==> SpellsAvailable(c.status) && c.redeemedAt.None?
      ensures HasContent(c.id) <==> !IsBlank(c.id)
    {
      CreditIsExact(c, date);
      StableIdentityIsExact(c.id);
    }
    hide Usable, Credit.IsAvailable, SpellsAvailable, IsBlank, Trim, DistinctIds;
  }

  /** Redemption goes by expiry, then by identifier, and a bank counts as read for less than a minute. */
  lemma RedemptionOrderIsExact(a: Credit, b: Credit, bank: Bank, date: Date)
    ensures a.expiresAt.Some? && b.expiresAt.Some? && a.expiresAt != b.expiresAt ==>
              (Earlier(a, b) <==> a.expiresAt.value < b.expiresAt.value)
    ensures a.expiresAt == b.expiresAt ==> (Earlier(a, b) <==> Precedes(a.id, b.id))
    ensures a.expiresAt.Some? && b.expiresAt.None? ==> Earlier(a, b) && !Earlier(b, a)
    ensures IsFresh(bank, date) <==> bank.fetchedAt <= date < bank.fetchedAt + 60.0
  {
    hide Precedes;
  }

  // ----- Which bank to keep ------------------------------------------------------------------------------------

  predicate IsValid(bank: Bank) {
    IsValidAt(bank, bank.fetchedAt)
  }

  function IfValid(bank: Option<Bank>): Option<Bank> {
    if bank.Some? && IsValid(bank.value) then bank else None
  }

  /** The newer valid bank; between two of the same time, the retained one. */
  function NewestValidBank(observed: Option<Bank>, retained: Option<Bank>): Option<Bank> {
    var o, r := IfValid(observed), IfValid(retained);
    if o.Some? && r.Some? && o.value.fetchedAt > r.value.fetchedAt then o
    else if r.Some? then r
    else o
  }

  /** At least as new as `bank`, if that can be believed at all. */
  predicate AtLeastAsNew(kept: Option<Bank>, bank: Option<Bank>) {
    IfValid(bank).Some? ==> kept.Some? && IsValid(kept.value) && kept.value.fetchedAt >= bank.value.fetchedAt
  }

  lemma NewestIsNewest(observed: Option<Bank>, retained: Option<Bank>)
    ensures var r := NewestValidBank(observed, retained);
            && (r == IfValid(observed) || r == IfValid(retained))
            && AtLeastAsNew(r, observed) && AtLeastAsNew(r, retained)
            && (r.Some? ==> IsValid(r.value))
            && (IfValid(retained).Some? && r != IfValid(retained) ==> r.value.fetchedAt > retained.value.fetchedAt)
  {
  }

  /** Merging three banks in either grouping keeps the same one. */
  lemma NewestIsAssociative(a: Option<Bank>, b: Option<Bank>, c: Option<Bank>)
    ensures NewestValidBank(c, NewestValidBank(b, a)) == NewestValidBank(NewestValidBank(c, b), a)
  {
  }

  /** Everything observed so far, one bank at a time. */
  function Newest(observed: seq<Option<Bank>>): Option<Bank> {
    if observed == [] then None else NewestValidBank(observed[|observed| - 1], Newest(observed[..|observed| - 1]))
  }

  /** The i-th observation is the first of the newest valid ones. */
  predicate IsFirstNewest(observed: seq<Option<Bank>>, i: int) {
    && 0 <= i < |observed| && IfValid(observed[i]).Some?
    && forall j :: 0 <= j < |observed| && IfValid(observed[j]).Some? ==>
         if j < i then observed[j].value.fetchedAt < observed[i].value.fetchedAt
         else observed[j].value.fetchedAt <= observed[i].value.fetchedAt
  }

  /** A run of observations keeps the first of the newest valid banks. */
  lemma {:induction false} NewestIsFirstMaximum(observed: seq<Option<Bank>>) returns (i: int)
    ensures Newest(observed).None? <==> forall b <- observed :: IfValid(b).None?
    ensures Newest(observed).Some? ==> IsFirstNewest(observed, i) && Newest(observed) == observed[i]
  {
    hide IsValidAt;
    i := 0;
    if observed != [] {
      var rest, last := observed[..|observed| - 1], observed[|observed| - 1];
      i := NewestIsFirstMaximum(rest);
      assert observed == rest + [last];
      if Newest(observed) != Newest(rest) {
        i := |rest|;
      }
    }
  }
}
