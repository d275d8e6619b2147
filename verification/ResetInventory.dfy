/** Keeping reset banks when a list of accounts is replaced by a newer one. */
module ResetInventory {
  import opened Prelude
  import opened ResetBank
  import opened Accounts

  /** Every account has a provider identity, and no two share one. */
  predicate Unambiguous(accounts: seq<Account>) {
    && (forall a <- accounts :: a.ProviderIdentity().Some?)
    && forall i, j :: 0 <= i < j < |accounts| ==> accounts[i].ProviderIdentity() != accounts[j].ProviderIdentity()
  }

  function IdentitiesOf(accounts: seq<Account>): set<string> {
    set a <- accounts | a.ProviderIdentity().Some? :: a.ProviderIdentity().value
  }

  /** The valid bank held for an identity. */
  function BankOf(accounts: seq<Account>, identity: Option<string>): Option<Bank> {
    if accounts == [] then None
    else
      var last := accounts[|accounts| - 1];
      if last.ProviderIdentity() == identity then IfValid(last.bank)
      else BankOf(accounts[..|accounts| - 1], identity)
  }

  function WithNewestBank(a: Account, retained: seq<Account>): Account {
    a.(bank := NewestValidBank(a.bank, BankOf(retained, a.ProviderIdentity())))
  }

  function WithNewestBanks(observed: seq<Account>, retained: seq<Account>): (r: seq<Account>)
    ensures |r| == |observed| && forall i :: 0 <= i < |r| ==> r[i] == WithNewestBank(observed[i], retained)
  {
    if observed == [] then []
    else WithNewestBanks(observed[..|observed| - 1], retained) + [WithNewestBank(observed[|observed| - 1], retained)]
  }

  function Reconciled(observed: seq<Account>, retained: seq<Account>): Option<seq<Account>> {
    if Unambiguous(observed) && Unambiguous(retained)
    then Some(WithNewestBanks(observed, retained)) else None
  }

  lemma PrefixStaysUnambiguous(accounts: seq<Account>, n: nat)
    requires n <= |accounts|
    ensures Unambiguous(accounts) ==> Unambiguous(accounts[..n])
  {
  }

  lemma OneMoreAccount(accounts: seq<Account>, i: nat)
    requires i < |accounts| && Unambiguous(accounts[..i])
    ensures var identity := accounts[i].ProviderIdentity();
            && (Unambiguous(accounts[..i + 1]) <==> identity.Some? && identity.value !in IdentitiesOf(accounts[..i]))
            && (identity.Some? ==> IdentitiesOf(accounts[..i + 1]) == IdentitiesOf(accounts[..i]) + {identity.value})
    ensures accounts[..i + 1] == accounts[..i] + [accounts[i]] && accounts[..i + 1][..i] == accounts[..i]
  {
    var before, identity := accounts[..i], accounts[i].ProviderIdentity();
    assert accounts[..i + 1] == before + [accounts[i]];
    if identity.Some? && identity.value in IdentitiesOf(before) {
      var a :| a in before && a.ProviderIdentity() == identity;
      var j :| 0 <= j < i && before[j] == a;
      assert accounts[..i + 1][j].ProviderIdentity() == accounts[..i + 1][i].ProviderIdentity();
    } else if identity.None? {
      assert accounts[..i + 1][i] in accounts[..i + 1];
    } else {
      forall j | 0 <= j < i
        ensures before[j].ProviderIdentity() != identity
      {
        assert before[j] in before;
      }
    }
  }

  /** The valid banks of a list by identity; nothing if the list is ambiguous. */
  method RetainedBanks(accounts: seq<Account>) returns (r: Option<map<string, Bank>>)
    ensures r.Some? <==> Unambiguous(accounts)
    ensures r.Some? ==> forall s: string :: BankOf(accounts, Some(s)) == if s in r.value then Some(r.value[s]) else None
  {
    var banks: map<string, Bank> := map[];
    var identities: set<string> := {};
    assert Unambiguous(accounts[..0]) && IdentitiesOf(accounts[..0]) == {};
    hide Unambiguous, IsValidAt, IdentitiesOf;
    for i := 0 to |accounts|
      invariant Unambiguous(accounts[..i])
      invariant identities == IdentitiesOf(accounts[..i])
      invariant forall s: string :: BankOf(accounts[..i], Some(s)) == if s in banks then Some(banks[s]) else None
      invariant banks.Keys <= identities
    {
      var account := accounts[i];
      var identity := account.ProviderIdentity();
      OneMoreAccount(accounts, i);
      if identity.None? || identity.value in identities {
        PrefixStaysUnambiguous(accounts, i + 1);
        return None;
      }
      identities := identities + {identity.value};
      if account.bank.Some? && IsValid(account.bank.value) {
        banks := banks[identity.value := account.bank.value];
      }
    }
    assert accounts[..|accounts|] == accounts;
    r := Some(banks);
  }

  /** Each observed account with the newer of its own and the retained valid bank of its identity. */
  method Reconciling(observed: seq<Account>, retained: seq<Account>) returns (r: Option<seq<Account>>)
    ensures r == Reconciled(observed, retained)
  {
    var retainedBanks := RetainedBanks(retained);
    if retainedBanks.None? {
      return None;
    }
    var banks := retainedBanks.value;
    var identities: set<string> := {};
    var reconciled: seq<Account> := [];
    assert Unambiguous(observed[..0]) && IdentitiesOf(observed[..0]) == {};
    hide Unambiguous, NewestValidBank, BankOf, IdentitiesOf;
    for i := 0 to |observed|
      invariant Unambiguous(observed[..i])
      invariant identities == IdentitiesOf(observed[..i])
      invariant reconciled == WithNewestBanks(observed[..i], retained)
    {
      var account := observed[i];
      var identity := account.ProviderIdentity();
      OneMoreAccount(observed, i);
      if identity.None? || identity.value in identities {
        PrefixStaysUnambiguous(observed, i + 1);
        return None;
      }
      identities := identities + {identity.value};
      var held := if identity.value in banks then Some(banks[identity.value]) else None;
      reconciled := reconciled + [account.(bank := NewestValidBank(account.bank, held))];
    }
    assert observed[..|observed|] == observed;
    r := Some(reconciled);
  }

  lemma {:induction false} BankOfIsHeld(accounts: seq<Account>, i: nat)
    requires Unambiguous(accounts) && i < |accounts|
    ensures BankOf(accounts, accounts[i].ProviderIdentity()) == IfValid(accounts[i].bank)
  {
    var n := |accounts| - 1;
    if i < n {
      assert accounts[i].ProviderIdentity() != accounts[n].ProviderIdentity();
      assert Unambiguous(accounts[..n]);
      BankOfIsHeld(accounts[..n], i);
    }
  }

  lemma {:induction false} BankOfIsValid(accounts: seq<Account>, identity: Option<string>)
    ensures IfValid(BankOf(accounts, identity)) == BankOf(accounts, identity)
  {
    if accounts != [] {
      BankOfIsValid(accounts[..|accounts| - 1], identity);
    }
  }

  /** Reconciling refuses exactly ambiguous lists. It changes nothing but banks, keeps for every identity a bank at least
      as new as both lists', and a second pass over the same retained list changes nothing. */
  lemma ReconcilingKeepsNewest(observed: seq<Account>, retained: seq<Account>)
    ensures Reconciled(observed, retained).None? <==> !Unambiguous(observed) || !Unambiguous(retained)
    ensures Reconciled(observed, retained).Some? ==>
              var r := Reconciled(observed, retained).value;
              && |r| == |observed| && Unambiguous(r)
              && (forall i :: 0 <= i < |r| ==> r[i] == observed[i].(bank := r[i].bank))
              && (forall i :: 0 <= i < |r| ==> AtLeastAsNew(r[i].bank, observed[i].bank))
              && (forall i, j :: 0 <= i < |r| && 0 <= j < |retained|
                                 && r[i].ProviderIdentity() == retained[j].ProviderIdentity() ==>
                    AtLeastAsNew(r[i].bank, retained[j].bank))
              && Reconciled(r, retained) == Some(r)
  {
    if Reconciled(observed, retained).Some? {
      var r := Reconciled(observed, retained).value;
      forall i | 0 <= i < |r|
        ensures r[i] == observed[i].(bank := r[i].bank) && AtLeastAsNew(r[i].bank, observed[i].bank)
        ensures WithNewestBank(r[i], retained) == r[i]
      {
        NewestIsNewest(observed[i].bank, BankOf(retained, observed[i].ProviderIdentity()));
      }
      assert WithNewestBanks(r, retained) == r;
      forall i, j | 0 <= i < |r| && 0 <= j < |retained| && r[i].ProviderIdentity() == retained[j].ProviderIdentity()
        ensures AtLeastAsNew(r[i].bank, retained[j].bank)
      {
        BankOfIsHeld(retained, j);
        NewestIsNewest(observed[i].bank, BankOf(retained, observed[i].ProviderIdentity()));
      }
    }
  }
}
