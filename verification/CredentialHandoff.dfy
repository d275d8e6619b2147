/** The three-way merge that adopts committed credentials without losing telemetry gathered in memory meanwhile. */
module CredentialHandoff {
  import opened Prelude
  import opened Accounts
  import opened ResetBank

  function ActiveIds(accounts: seq<Account>): seq<Uuid> {
    if accounts == [] then []
    else (if accounts[0].isActive then [accounts[0].id] else []) + ActiveIds(accounts[1..])
  }

  predicate UniqueIds(accounts: seq<Account>) {
    forall i, j :: 0 <= i < j < |accounts| ==> accounts[i].id != accounts[j].id
  }

  function Ids(accounts: seq<Account>): set<Uuid> {
    set a <- accounts :: a.id
  }

  /** The account with an identifier. */
  function Find(accounts: seq<Account>, id: Uuid): Option<Account> {
    if accounts == [] then None
    else if accounts[|accounts| - 1].id == id then Some(accounts[|accounts| - 1])
    else Find(accounts[..|accounts| - 1], id)
  }

  /** Memory still has the credentials and the selection it is expected to have. */
  predicate Undrifted(current: Account, expected: Account) {
    && current.accountId == expected.accountId && current.accessToken == expected.accessToken
    && current.refreshToken == expected.refreshToken && current.idToken == expected.idToken
    && current.isActive == expected.isActive
  }

  predicate TelemetryChanged(current: Account, expected: Account) {
    || current.quota != expected.quota || current.planType != expected.planType
    || current.lastRefreshed != expected.lastRefreshed || current.subscription != expected.subscription
  }

  predicate RuntimeChanged(current: Account, expected: Account) {
    current.unusableUntil != expected.unusableUntil || current.unusableReason != expected.unusableReason
  }

  function Merged(persisted: Account, current: Account, expected: Account): Account {
    var a := if TelemetryChanged(current, expected)
             then persisted.(quota := current.quota, planType := current.planType,
                             lastRefreshed := current.lastRefreshed, subscription := current.subscription)
             else persisted;
    var b := if current.fiveHourPrimedAt != expected.fiveHourPrimedAt
             then a.(fiveHourPrimedAt := current.fiveHourPrimedAt) else a;
    var c := b.(bank := NewestValidBank(NewestValidBank(current.bank, expected.bank), persisted.bank));
    if RuntimeChanged(current, expected)
    then c.(unusableUntil := current.unusableUntil, unusableReason := current.unusableReason) else c
  }

  /** Whether the merge may happen at all. */
  predicate Accepts(persisted: seq<Account>, current: seq<Account>, expected: seq<Account>, target: Uuid) {
    && ActiveIds(persisted) == [target]
    && UniqueIds(persisted) && UniqueIds(current) && UniqueIds(expected)
    && |current| == |expected| && Ids(current) == Ids(expected)
    && Ids(persisted) == Ids(expected) + {target}
    && AllUndrifted(current, expected, Ids(expected))
  }

  predicate AllUndrifted(current: seq<Account>, expected: seq<Account>, ids: set<Uuid>) {
    forall id <- ids :: IsUndrifted(current, expected, id)
  }

  predicate IsUndrifted(current: seq<Account>, expected: seq<Account>, id: Uuid) {
    && Find(current, id).Some? && Find(expected, id).Some?
    && Undrifted(Find(current, id).value, Find(expected, id).value)
  }

  function MergedAccount(persisted: Account, current: seq<Account>, expected: seq<Account>): Account {
    var c, e := Find(current, persisted.id), Find(expected, persisted.id);
    if c.Some? && e.Some? then Merged(persisted, c.value, e.value) else persisted
  }

  function MergedList(persisted: seq<Account>, current: seq<Account>, expected: seq<Account>): (r: seq<Account>)
    ensures |r| == |persisted| && forall i :: 0 <= i < |r| ==> r[i] == MergedAccount(persisted[i], current, expected)
  {
    if persisted == [] then []
    else
      MergedList(persisted[..|persisted| - 1], current, expected)
      + [MergedAccount(persisted[|persisted| - 1], current, expected)]
  }

  function Snapshot(persisted: seq<Account>, current: seq<Account>, expected: seq<Account>, target: Uuid):
    Option<seq<Account>>
  {
    if Accepts(persisted, current, expected, target) then Some(MergedList(persisted, current, expected)) else None
  }

  // ----- The merge as it is computed ---------------------------------------------------------------------------

  lemma NextId(accounts: seq<Account>, i: nat)
    requires i < |accounts| && UniqueIds(accounts[..i])
    ensures accounts[..i + 1][..i] == accounts[..i] && accounts[..i + 1] == accounts[..i] + [accounts[i]]
    ensures Ids(accounts[..i + 1]) == Ids(accounts[..i]) + {accounts[i].id}
    ensures UniqueIds(accounts[..i + 1]) <==> accounts[i].id !in Ids(accounts[..i])
    ensures !UniqueIds(accounts[..i + 1]) ==> !UniqueIds(accounts)
  {
    var before := accounts[..i];
    assert accounts[..i + 1] == before + [accounts[i]];
    if accounts[i].id in Ids(before) {
      var a :| a in before && a.id == accounts[i].id;
      var j :| 0 <= j < i && before[j] == a;
      assert accounts[j].id == accounts[i].id;
      assert accounts[..i + 1][j].id == accounts[..i + 1][i].id;
    } else {
      forall j | 0 <= j < i
        ensures before[j].id != accounts[i].id
      {
        assert before[j] in before;
      }
    }
  }

  /** A table of accounts by identifier; nothing if an identifier is repeated. */
  method ById(accounts: seq<Account>) returns (r: Option<map<Uuid, Account>>)
    ensures r.Some? <==> UniqueIds(accounts)
    ensures r.Some? ==> r.value.Keys == Ids(accounts)
    ensures r.Some? ==> forall id: Uuid :: Find(accounts, id) == if id in r.value then Some(r.value[id]) else None
  {
    var table: map<Uuid, Account> := map[];
    assert UniqueIds(accounts[..0]) && Ids(accounts[..0]) == {};
    hide UniqueIds, Ids;
    for i := 0 to |accounts|
      invariant UniqueIds(accounts[..i]) && table.Keys == Ids(accounts[..i])
      invariant forall id: Uuid :: Find(accounts[..i], id) == if id in table then Some(table[id]) else None
    {
      NextId(accounts, i);
      if accounts[i].id in table {
        return None;
      }
      table := table[accounts[i].id := accounts[i]];
    }
    assert accounts[..|accounts|] == accounts;
    r := Some(table);
  }

  /** The identifiers of a list; nothing if one is repeated. */
  method CollectIds(accounts: seq<Account>) returns (r: Option<set<Uuid>>)
    ensures r == if UniqueIds(accounts) then Some(Ids(accounts)) else None
  {
    var ids: set<Uuid> := {};
    assert UniqueIds(accounts[..0]) && Ids(accounts[..0]) == {};
    hide UniqueIds, Ids;
    for i := 0 to |accounts|
      invariant UniqueIds(accounts[..i]) && ids == Ids(accounts[..i])
    {
      NextId(accounts, i);
      if accounts[i].id in ids {
        return None;
      }
      ids := ids + {accounts[i].id};
    }
    assert accounts[..|accounts|] == accounts;
    r := Some(ids);
  }

  lemma MergedPrefixes(persisted: seq<Account>, current: seq<Account>, expected: seq<Account>)
    ensures MergedList([], current, expected) == []
    ensures forall i | 0 <= i < |persisted| ::
              MergedList(persisted[..i + 1], current, expected)
              == MergedList(persisted[..i], current, expected) + [MergedAccount(persisted[i], current, expected)]
  {
    hide MergedAccount;
    assert forall i | 0 <= i < |persisted| :: persisted[..i + 1][..i] == persisted[..i];
  }

  /** The merged list, given up at the first account whose credentials or selection drifted in memory. */
  method MergeAll(persisted: seq<Account>, current: map<Uuid, Account>, expected: map<Uuid, Account>,
                  ghost currentList: seq<Account>, ghost expectedList: seq<Account>)
    returns (r: Option<seq<Account>>)
    requires current.Keys == expected.Keys
    requires forall id: Uuid :: Find(currentList, id) == if id in current then Some(current[id]) else None
    requires forall id: Uuid :: Find(expectedList, id) == if id in expected then Some(expected[id]) else None
    ensures r.Some? <==> forall a <- persisted :: a.id in expected ==> IsUndrifted(currentList, expectedList, a.id)
    ensures r.Some? ==> r.value == MergedList(persisted, currentList, expectedList)
  {
    hide Find, Merged, Undrifted, MergedList;
    MergedPrefixes(persisted, currentList, expectedList);
    var merged: seq<Account> := [];
    for i := 0 to |persisted|
      invariant forall a <- persisted[..i] :: a.id in expected ==> IsUndrifted(currentList, expectedList, a.id)
      invariant merged == MergedList(persisted[..i], currentList, expectedList)
    {
      var account := persisted[i];
      assert persisted[..i + 1] == persisted[..i] + [account];
      if account.id !in expected {
        merged := merged + [account];
      } else if !Undrifted(current[account.id], expected[account.id]) {
        assert account in persisted && !IsUndrifted(currentList, expectedList, account.id);
        return None;
      } else {
        merged := merged + [Merged(account, current[account.id], expected[account.id])];
      }
    }
    assert persisted[..|persisted|] == persisted;
    r := Some(merged);
  }

  method CommittedCredentialHandoffSnapshot(persisted: seq<Account>, current: seq<Account>, expected: seq<Account>,
                                            target: Uuid)
    returns (r: Option<seq<Account>>)
    ensures r == Snapshot(persisted, current, expected, target)
  {
    if ActiveIds(persisted) != [target] || |current| != |expected| {
      return None;
    }
    var currentById := ById(current);
    if currentById.None? {
      return None;
    }
    var expectedById := ById(expected);
    if expectedById.None? {
      return None;
    }
    var persistedIds := CollectIds(persisted);
    if persistedIds.None? {
      return None;
    }
    hide UniqueIds, Find, IsUndrifted, MergedList, ActiveIds;
    var expectedIds := expectedById.value.Keys;
    if currentById.value.Keys != expectedIds {
      return None;
    }
    var insertsTarget := target !in expectedIds;
    var committedIds := if insertsTarget then expectedIds + {target} else expectedIds;
    assert committedIds == Ids(expected) + {target};
    if persistedIds.value != committedIds {
      return None;
    }
    r := MergeAll(persisted, currentById.value, expectedById.value, current, expected);
    assert (forall a <- persisted :: a.id in expectedIds ==> IsUndrifted(current, expected, a.id))
           <==> AllUndrifted(current, expected, Ids(expected)) by {
      assert forall id <- Ids(expected) :: id in Ids(persisted);
    }
  }

  // ----- What an accepted merge means -----------------------------------------------------------------------------

  /** Everything that says who the account is and what it may do. */
  predicate SameAuthority(a: Account, b: Account) {
    && a.id == b.id && a.email == b.email && a.accountId == b.accountId && a.isActive == b.isActive
    && a.accessToken == b.accessToken && a.refreshToken == b.refreshToken && a.idToken == b.idToken
  }

  predicate SameTelemetry(a: Account, b: Account) {
    && a.quota == b.quota && a.planType == b.planType && a.lastRefreshed == b.lastRefreshed
    && a.subscription == b.subscription
  }

  /** Authority is always the persisted one. Each group of telemetry is memory's if memory changed it since the expected
      base, and the persisted one otherwise; the bank is the newest valid of the three. */
  lemma MergeIsThreeWay(persisted: Account, current: Account, expected: Account)
    ensures var r := Merged(persisted, current, expected);
            && SameAuthority(r, persisted)
            && SameTelemetry(r, if SameTelemetry(current, expected) then persisted else current)
            && r.fiveHourPrimedAt == (if current.fiveHourPrimedAt == expected.fiveHourPrimedAt
                                      then persisted.fiveHourPrimedAt else current.fiveHourPrimedAt)
            && (r.unusableUntil, r.unusableReason)
               == (if (current.unusableUntil, current.unusableReason) == (expected.unusableUntil, expected.unusableReason)
                   then (persisted.unusableUntil, persisted.unusableReason)
                   else (current.unusableUntil, current.unusableReason))
            && AtLeastAsNew(r.bank, persisted.bank) && AtLeastAsNew(r.bank, current.bank)
            && AtLeastAsNew(r.bank, expected.bank)
            && (r.bank == IfValid(persisted.bank) || r.bank == IfValid(current.bank) || r.bank == IfValid(expected.bank))
  {
    NewestIsNewest(current.bank, expected.bank);
    NewestIsNewest(NewestValidBank(current.bank, expected.bank), persisted.bank);
    hide IsValidAt;
  }

  /** Changes in memory to one group and on disk to another both survive; with no change in memory the merge is the
      persisted account, up to an invalid bank. */
  lemma UnchangedMemoryYieldsDisk(persisted: Account, current: Account, expected: Account)
    requires current == expected
    ensures Merged(persisted, current, expected)
            == persisted.(bank := NewestValidBank(IfValid(current.bank), persisted.bank))
    ensures IfValid(current.bank).None? || current.bank == persisted.bank ==>
              Merged(persisted, current, expected) == persisted.(bank := IfValid(persisted.bank))
  {
    hide IsValidAt;
  }

  lemma {:induction false} FindIsMember(accounts: seq<Account>, i: nat)
    requires UniqueIds(accounts) && i < |accounts|
    ensures Find(accounts, accounts[i].id) == Some(accounts[i])
  {
    var n := |accounts| - 1;
    if i < n {
      FindIsMember(accounts[..n], i);
    }
  }

  lemma {:induction false} ActiveIdsDependOnAuthority(a: seq<Account>, b: seq<Account>)
    requires |a| == |b| && forall i :: 0 <= i < |a| ==> SameAuthority(a[i], b[i])
    ensures ActiveIds(a) == ActiveIds(b)
  {
    if a != [] {
      ActiveIdsDependOnAuthority(a[1..], b[1..]);
    }
  }

  /** Two lists name the same accounts, each once. */
  predicate SameAccounts(a: seq<Account>, b: seq<Account>) {
    && UniqueIds(a) && UniqueIds(b)
    && (forall x <- a :: exists y <- b :: y.id == x.id) && (forall y <- b :: exists x <- a :: x.id == y.id)
  }

  /** Memory holds for every account exactly the credentials and the selection that it is expected to hold. */
  predicate HoldsAsExpected(current: seq<Account>, expected: seq<Account>) {
    forall c <- current, e <- expected :: c.id == e.id ==>
      && c.accountId == e.accountId && c.accessToken == e.accessToken && c.refreshToken == e.refreshToken
      && c.idToken == e.idToken && c.isActive == e.isActive
  }

  /** The persisted list is the expected one, with at most the target added, and selects the target alone. */
  predicate CommitsTarget(persisted: seq<Account>, expected: seq<Account>, target: Uuid) {
    && UniqueIds(persisted)
    && (exists p <- persisted :: p.id == target && p.isActive)
    && (forall p <- persisted :: p.isActive ==> p.id == target)
    && (forall p <- persisted :: p.id == target || exists e <- expected :: e.id == p.id)
    && (forall e <- expected :: exists p <- persisted :: p.id == e.id)
  }

  /** A merge is refused exactly if memory drifted, the lists do not name the same accounts, or the persisted list does
      not commit the target alone. */
  lemma HandoffIsAcceptedExactlyWhen(persisted: seq<Account>, current: seq<Account>, expected: seq<Account>, target: Uuid)
    ensures Snapshot(persisted, current, expected, target).Some? <==>
              && SameAccounts(current, expected) && HoldsAsExpected(current, expected)
              && CommitsTarget(persisted, expected, target)
  {
    hide ActiveIds, Ids, UniqueIds, AllUndrifted, SameAccounts, HoldsAsExpected, CommitsTarget;
    SameAccountsIs(current, expected);
    CommitsTargetIs(persisted, expected, target);
    if UniqueIds(current) && UniqueIds(expected) {
      UndriftedIsAsExpected(current, expected);
    }
  }

  lemma SameAccountsIs(a: seq<Account>, b: seq<Account>)
    ensures SameAccounts(a, b) <==> UniqueIds(a) && UniqueIds(b) && |a| == |b| && Ids(a) == Ids(b)
  {
    hide UniqueIds;
    IdsWithin(a, b);
    IdsWithin(b, a);
    if UniqueIds(a) && UniqueIds(b) {
      SameIdsSameLength(a, b);
    }
    hide Ids;
  }

  lemma IdsWithin(a: seq<Account>, b: seq<Account>)
    ensures Ids(a) <= Ids(b) <==> forall x <- a :: exists y <- b :: y.id == x.id
  {
    if Ids(a) <= Ids(b) {
      forall x <- a
        ensures exists y <- b :: y.id == x.id
      {
        assert x.id in Ids(a);
      }
    }
  }

  lemma CommitsTargetIs(persisted: seq<Account>, expected: seq<Account>, target: Uuid)
    ensures CommitsTarget(persisted, expected, target) <==>
              ActiveIds(persisted) == [target] && UniqueIds(persisted) && Ids(persisted) == Ids(expected) + {target}
  {
    hide ActiveIds, UniqueIds;
    if UniqueIds(persisted) {
      ActiveIdsAre(persisted, target);
      assert forall p <- persisted :: p.id in Ids(persisted);
      assert forall e <- expected :: e.id in Ids(expected);
    }
  }

  lemma {:induction false} ActiveIdsAre(accounts: seq<Account>, target: Uuid)
    requires UniqueIds(accounts)
    ensures ActiveIds(accounts) == [] <==> forall a <- accounts :: !a.isActive
    ensures ActiveIds(accounts) == [target] <==>
              && (exists a <- accounts :: a.id == target && a.isActive)
              && (forall a <- accounts :: a.isActive ==> a.id == target)
  {
    if accounts != [] {
      var head, tail := accounts[0], accounts[1..];
      ActiveIdsAre(tail, target);
      assert accounts == [head] + tail;
      forall i | 0 <= i < |tail|
        ensures tail[i].id != head.id
      {
        assert accounts[i + 1] == tail[i];
      }
      if head.isActive {
        var ids := ActiveIds(accounts);
        assert ids == [head.id] + ActiveIds(tail) && ids[0] == head.id && |ids| == 1 + |ActiveIds(tail)|;
        assert ids == [target] <==> |ids| == 1 && ids[0] == target;
        assert head in accounts && forall a <- tail :: a in accounts;
      } else {
        assert ActiveIds(accounts) == ActiveIds(tail);
      }
    }
  }

  lemma SameIdsSameLength(a: seq<Account>, b: seq<Account>)
    requires UniqueIds(a) && UniqueIds(b)
    ensures Ids(a) == Ids(b) ==> |a| == |b|
  {
    IdsCount(a);
    IdsCount(b);
  }

  lemma {:induction false} IdsCount(a: seq<Account>)
    requires UniqueIds(a)
    ensures |Ids(a)| == |a|
  {
    if a != [] {
      var n := |a| - 1;
      NextId(a, n);
      assert a[..n + 1] == a;
      IdsCount(a[..n]);
    }
  }

  lemma UndriftedIsAsExpected(current: seq<Account>, expected: seq<Account>)
    requires UniqueIds(current) && UniqueIds(expected)
    ensures Ids(current) == Ids(expected) ==>
              (AllUndrifted(current, expected, Ids(expected)) <==> HoldsAsExpected(current, expected))
  {
    hide Find;
    if Ids(current) == Ids(expected) {
      forall c <- current, e <- expected | c.id == e.id
        ensures Find(current, c.id) == Some(c) && Find(expected, e.id) == Some(e) && e.id in Ids(expected)
      {
        var j :| 0 <= j < |current| && current[j] == c;
        var k :| 0 <= k < |expected| && expected[k] == e;
        FindIsMember(current, j);
        FindIsMember(expected, k);
      }
      forall id <- Ids(expected)
        ensures exists c <- current, e <- expected :: c.id == id == e.id
      {
        assert id in Ids(current);
      }
    }
  }

  /** An accepted merge has the persisted list's order and authority, its one active account is the target, every account
      known before is merged three ways, and the only account not known before is the target, taken as persisted. A list
      with drifted, missing, additional or repeated accounts is refused. */
  lemma HandoffKeepsAuthority(persisted: seq<Account>, current: seq<Account>, expected: seq<Account>, target: Uuid)
    requires Accepts(persisted, current, expected, target)
    ensures var r := Snapshot(persisted, current, expected, target).value;
            && |r| == |persisted| && ActiveIds(r) == [target]
            && (forall i :: 0 <= i < |r| ==> SameAuthority(r[i], persisted[i]))
            && (forall i, j, k :: 0 <= i < |r| && 0 <= j < |current| && 0 <= k < |expected|
                                  && current[j].id == persisted[i].id == expected[k].id ==>
                  Undrifted(current[j], expected[k]) && r[i] == Merged(persisted[i], current[j], expected[k]))
            && (forall i :: 0 <= i < |r| && persisted[i].id !in Ids(expected) ==>
                  persisted[i].id == target && r[i] == persisted[i])
  {
    var r := MergedList(persisted, current, expected);
    hide Merged;
    forall i | 0 <= i < |r|
      ensures SameAuthority(r[i], persisted[i])
      ensures persisted[i].id !in Ids(expected) ==> persisted[i].id == target && r[i] == persisted[i]
    {
      assert persisted[i].id in Ids(persisted);
      FindIsKnown(expected, persisted[i].id);
      var c, e := Find(current, persisted[i].id), Find(expected, persisted[i].id);
      if c.Some? && e.Some? {
        MergeIsThreeWay(persisted[i], c.value, e.value);
      }
    }
    ActiveIdsDependOnAuthority(r, persisted);
    forall i, j, k | 0 <= i < |r| && 0 <= j < |current| && 0 <= k < |expected|
                     && current[j].id == persisted[i].id == expected[k].id
      ensures Undrifted(current[j], expected[k]) && r[i] == Merged(persisted[i], current[j], expected[k])
    {
      FindIsMember(current, j);
      FindIsMember(expected, k);
      assert expected[k].id in Ids(expected);
      assert IsUndrifted(current, expected, expected[k].id);
    }
  }

  lemma {:induction false} FindIsKnown(accounts: seq<Account>, id: Uuid)
    ensures Find(accounts, id).Some? <==> id in Ids(accounts)
  {
    if accounts != [] {
      FindIsKnown(accounts[..|accounts| - 1], id);
      assert accounts == accounts[..|accounts| - 1] + [accounts[|accounts| - 1]];
    }
  }
}
