/** Recovery of an authority conflict: patching the raw account store, and taking the selection back. */
module RecoveryStore {
  import opened Prelude
  import opened Accounts

  /** A value of a raw store record; identifiers are already parsed. */
  datatype Value = Identifier(id: Uuid) | Text(text: string) | Number(number: real) | Flag(flag: bool) | Other(raw: int)

  type Record = map<string, Value>

  predicate SameTokens(a: Account, b: Account) {
    a.accessToken == b.accessToken && a.refreshToken == b.refreshToken && a.idToken == b.idToken
  }

  const CREDENTIAL_KEYS := {"accessToken", "refreshToken", "idToken", "lastRefreshed", "runtimeUnusableReason",
                            "runtimeUnusableUntil"}

  predicate Identifies(record: Record, account: Account) {
    "id" in record && record["id"] == Identifier(account.id)
  }

  /** Assigning an absent optional to a dictionary entry removes it. */
  function Assign(record: Record, key: string, value: Option<Value>): Record {
    if value.Some? then record[key := value.value] else record - {key}
  }

  function OptionalNumber(d: Option<Date>): Option<Value> {
    if d.Some? then Some(Number(d.value)) else None
  }

  function OptionalText(s: Option<string>): Option<Value> {
    if s.Some? then Some(Text(s.value)) else None
  }

  function Selected(record: Record, account: Account): Record {
    record["isActive" := Flag(account.isActive)]
  }

  /** One record with the replacement's selection and, if they changed, its credentials. */
  function Patched(record: Record, prior: Account, account: Account): Record {
    var selected := Selected(record, account);
    if SameTokens(prior, account) then selected
    else
      var tokens := selected["accessToken" := Text(account.accessToken.text)]
                            ["refreshToken" := Text(account.refreshToken)]["idToken" := Text(account.idToken)];
      Assign(Assign(Assign(tokens, "lastRefreshed", OptionalNumber(account.lastRefreshed)),
                    "runtimeUnusableReason", OptionalText(account.unusableReason)),
             "runtimeUnusableUntil", OptionalNumber(account.unusableUntil))
  }

  predicate AllIdentified(records: seq<Record>, accounts: seq<Account>) {
    |records| == |accounts| && forall i :: 0 <= i < |records| ==> Identifies(records[i], accounts[i])
  }

  /** The store with the replacement credentials and selection; refused unless every record is the expected account. */
  method RecoveryStoreData(original: seq<Record>, priors: seq<Account>, replacements: seq<Account>)
    returns (r: Option<seq<Record>>)
    requires |priors| == |replacements|
    ensures r.Some? <==> AllIdentified(original, replacements)
    ensures r.Some? <==>
              && |original| == |replacements|
              && forall i :: 0 <= i < |original| ==>
                   "id" in original[i] && original[i]["id"] == Identifier(replacements[i].id)
    ensures r.Some? ==> r.value == PatchedStore(original, priors, replacements)
  {
    if |original| != |replacements| {
      return None;
    }
    var records := original;
    for i := 0 to |records|
      invariant |records| == |original|
      invariant forall k :: 0 <= k < i ==>
                  Identifies(original[k], replacements[k])
                  && records[k] == Patched(original[k], priors[k], replacements[k])
      invariant forall k :: i <= k < |records| ==> records[k] == original[k]
    {
      if !Identifies(records[i], replacements[i]) {
        return None;
      }
      records := records[i := Patched(records[i], priors[i], replacements[i])];
    }
    r := Some(records);
  }

  function PatchedStore(original: seq<Record>, priors: seq<Account>, replacements: seq<Account>): seq<Record>
    requires |original| == |priors| == |replacements|
  {
    seq(|original|, i requires 0 <= i < |original| => Patched(original[i], priors[i], replacements[i]))
  }

  /** The committed store with the original selection put back. */
  method CompensatedStoreData(committed: seq<Record>, originals: seq<Account>) returns (r: Option<seq<Record>>)
    ensures r.Some? <==> AllIdentified(committed, originals)
    ensures r.Some? <==>
              && |committed| == |originals|
              && forall i :: 0 <= i < |committed| ==>
                   "id" in committed[i] && committed[i]["id"] == Identifier(originals[i].id)
    ensures r.Some? ==> r.value == SelectionRestored(committed, originals)
  {
    if |committed| != |originals| {
      return None;
    }
    var records := committed;
    for i := 0 to |records|
      invariant |records| == |committed|
      invariant forall k :: 0 <= k < i ==>
                  Identifies(committed[k], originals[k]) && records[k] == Selected(committed[k], originals[k])
      invariant forall k :: i <= k < |records| ==> records[k] == committed[k]
    {
      if !Identifies(records[i], originals[i]) {
        return None;
      }
      records := records[i := Selected(records[i], originals[i])];
    }
    r := Some(records);
  }

  function SelectionRestored(committed: seq<Record>, originals: seq<Account>): seq<Record>
    requires |committed| == |originals|
  {
    seq(|committed|, i requires 0 <= i < |committed| => Selected(committed[i], originals[i]))
  }

  /** The recovery touches only selection and credential entries, and credentials only of accounts whose tokens changed. */
  lemma PatchPreservesUnrelatedFields(record: Record, prior: Account, account: Account, key: string)
    ensures key != "isActive" && (key !in CREDENTIAL_KEYS || SameTokens(prior, account)) ==>
              (key in Patched(record, prior, account) <==> key in record)
              && (key in record ==> Patched(record, prior, account)[key] == record[key])
    ensures Patched(record, prior, account)["isActive"] == Flag(account.isActive)
    ensures (prior.accessToken, prior.refreshToken, prior.idToken)
            != (account.accessToken, account.refreshToken, account.idToken) ==>
              var p := Patched(record, prior, account);
              && p["accessToken"] == Text(account.accessToken.text) && p["refreshToken"] == Text(account.refreshToken)
              && p["idToken"] == Text(account.idToken)
              && ("lastRefreshed" in p <==> account.lastRefreshed.Some?)
              && ("lastRefreshed" in p ==> p["lastRefreshed"] == Number(account.lastRefreshed.value))
              && ("runtimeUnusableReason" in p <==> account.unusableReason.Some?)
              && ("runtimeUnusableReason" in p ==> p["runtimeUnusableReason"] == Text(account.unusableReason.value))
              && ("runtimeUnusableUntil" in p <==> account.unusableUntil.Some?)
              && ("runtimeUnusableUntil" in p ==> p["runtimeUnusableUntil"] == Number(account.unusableUntil.value))
  {
  }

  /** Compensation undoes exactly the selection: credentials written by the recovery stay, and a record whose
      credentials did not change is field for field what it was. */
  lemma CompensationRestoresSelection(original: seq<Record>, originals: seq<Account>, replacements: seq<Account>)
    requires AllIdentified(original, replacements) && AllIdentified(original, originals)
    requires forall i :: 0 <= i < |original| ==>
               "isActive" in original[i] && original[i]["isActive"] == Flag(originals[i].isActive)
    ensures var committed := PatchedStore(original, originals, replacements);
            && AllIdentified(committed, originals)
            && var restored := SelectionRestored(committed, originals);
            forall i :: 0 <= i < |original| ==>
              && restored[i]["isActive"] == original[i]["isActive"]
              && restored[i] - {"isActive"} == committed[i] - {"isActive"}
              && (SameTokens(originals[i], replacements[i]) ==> restored[i] == original[i])
  {
    var committed := PatchedStore(original, originals, replacements);
    forall i | 0 <= i < |original|
      ensures Identifies(committed[i], originals[i])
    {
      PatchPreservesUnrelatedFields(original[i], originals[i], replacements[i], "id");
    }
  }

  // ----- The two files under their locks ------------------------------------------------------------------

  /** A file's content with the identity a snapshot pins it by. */
  datatype File<T> = File(content: T, identity: int)

  /** What the auth file holds of an account. */
  datatype Credentials = Credentials(accountId: string, accessToken: Token, refreshToken: string, idToken: string)

  function CredentialsOf(a: Account): Credentials {
    Credentials(a.accountId, a.accessToken, a.refreshToken, a.idToken)
  }

  datatype Witness = Witness(store: File<seq<Record>>, auth: File<Credentials>, authPath: string, originals: seq<Account>,
                             replacements: seq<Account>, target: Account)

  /** What an effect permit is for; whether it is authorized at a moment is part of the environment. */
  datatype Permit = Permit(target: Uuid, isForPreparing: bool)

  datatype AuthResult = AuthCommitted | AuthorizationLost | AuthFailed

  /** The recovery is for this very account, path and permit. */
  predicate WitnessMatches(w: Witness, account: Account, path: string, permit: Permit) {
    && w.authPath == path && w.target.id == account.id && CredentialsOf(w.target) == CredentialsOf(account)
    && permit.target == account.id && permit.isForPreparing
  }

  /** What authorization and I/O an operation meets: before its locks, inside them, and at the conditional replace. */
  datatype Environment = Environment(authorizedBefore: bool, witnessedBefore: bool, authorizedInLock: bool,
                                     runtimeLockHeld: bool, ioFailsBefore: bool, ioFailsAfter: bool, newIdentity: int)

  class CredentialCommitter {
    var store: File<seq<Record>>
    var auth: File<Credentials>

    constructor (initialStore: File<seq<Record>>, initialAuth: File<Credentials>)
      ensures store == initialStore && auth == initialAuth
    {
      store, auth := initialStore, initialAuth;
    }

    /** Writes the recovery store only if neither file has moved since the witness was taken. */
    method PersistRecoveryAccountStore(w: Witness, permit: Permit, env: Environment)
      returns (committed: Option<File<seq<Record>>>)
      requires |w.originals| == |w.replacements|
      modifies this`store
      ensures committed.Some? <==>
                && permit == Permit(w.target.id, true) && env.witnessedBefore && env.authorizedBefore
                && env.authorizedInLock && env.runtimeLockHeld && !env.ioFailsBefore && !env.ioFailsAfter
                && old(store) == w.store && auth == w.auth && AllIdentified(w.store.content, w.replacements)
      ensures store != old(store) ==>
                && env.witnessedBefore && env.authorizedBefore && env.authorizedInLock && env.runtimeLockHeld
                && permit == Permit(w.target.id, true)
                && old(store) == w.store && auth == w.auth && AllIdentified(w.store.content, w.replacements)
                && store.content == PatchedStore(w.store.content, w.originals, w.replacements)
      ensures committed.Some? ==>
                && AllIdentified(w.store.content, w.replacements) && auth == w.auth
                && committed.value == store
                == File(PatchedStore(w.store.content, w.originals, w.replacements), env.newIdentity)
      ensures committed.None? && !env.ioFailsAfter ==> store == old(store)
    {
      if !env.witnessedBefore || permit.target != w.target.id || !permit.isForPreparing || !env.authorizedBefore
         || !env.runtimeLockHeld
      {
        return None;
      }
      var bytes := RecoveryStoreData(w.store.content, w.originals, w.replacements);
      if bytes.None? || store != w.store || auth != w.auth || !env.authorizedInLock || env.ioFailsBefore {
        return None;
      }
      store := File(bytes.value, env.newIdentity);
      committed := if env.ioFailsAfter then None else Some(store);
    }

    /** Writes the auth file: of a recovery only for its own target and while the store is the one the recovery
        committed, otherwise whenever the permit still authorizes it. */
    method PersistAuth(account: Account, path: string, permit: Permit, recovery: Option<Witness>,
                       committed: Option<File<seq<Record>>>, env: Environment) returns (r: AuthResult)
      modifies this`auth
      ensures r.AuthorizationLost? <==>
                || !env.authorizedBefore
                || (recovery.Some? &&
                    var w := recovery.value;
                    !(&& w.authPath == path && permit == Permit(account.id, true) && w.target.id == account.id
                      && w.target.accountId == account.accountId && w.target.accessToken == account.accessToken
                      && w.target.refreshToken == account.refreshToken && w.target.idToken == account.idToken
                      && committed.Some? && env.witnessedBefore && env.runtimeLockHeld))
      ensures r.AuthCommitted? <==>
                && !r.AuthorizationLost? && env.authorizedInLock && !env.ioFailsBefore && !env.ioFailsAfter
                && (recovery.Some? ==> committed == Some(store) && old(auth) == recovery.value.auth)
      ensures r.AuthCommitted? ==>
                && auth == File(CredentialsOf(account), env.newIdentity)
                && (recovery.Some? ==> auth.content == CredentialsOf(recovery.value.target))
      ensures auth != old(auth) ==>
                && env.authorizedBefore && env.authorizedInLock && auth == File(CredentialsOf(account), env.newIdentity)
                && (recovery.Some? ==> committed == Some(store) && old(auth) == recovery.value.auth && env.runtimeLockHeld)
                && (r.AuthCommitted? || env.ioFailsAfter)
    {
      if !env.authorizedBefore {
        return AuthorizationLost;
      }
      if recovery.Some? {
        var w := recovery.value;
        if !WitnessMatches(w, account, path, permit) || !env.witnessedBefore || committed.None? || !env.runtimeLockHeld {
          return AuthorizationLost;
        }
        if store != committed.value {
          return AuthFailed;
        }
        r := WriteAuthFile(account, Some(w.auth), env);
      } else {
        r := WriteAuthFile(account, None, env);
      }
    }

    /** The write itself, conditional on what the file holds if that is given. */
    method WriteAuthFile(account: Account, expected: Option<File<Credentials>>, env: Environment) returns (r: AuthResult)
      modifies this`auth
      ensures !r.AuthorizationLost?
      ensures r.AuthCommitted? <==> && (expected.Some? ==> old(auth) == expected.value) && env.authorizedInLock
                                    && !env.ioFailsBefore && !env.ioFailsAfter
      ensures r.AuthCommitted? ==> auth == File(CredentialsOf(account), env.newIdentity)
      ensures auth != old(auth) ==>
                && (expected.Some? ==> old(auth) == expected.value) && env.authorizedInLock
                && auth == File(CredentialsOf(account), env.newIdentity) && (r.AuthCommitted? || env.ioFailsAfter)
    {
      if (expected.Some? && auth != expected.value) || !env.authorizedInLock || env.ioFailsBefore {
        return AuthFailed;
      }
      auth := File(CredentialsOf(account), env.newIdentity);
      r := if env.ioFailsAfter then AuthFailed else AuthCommitted;
    }

    /** Puts the original selection back, only on the very store the recovery committed. */
    method CompensateRecoveryStoreSelection(w: Witness, committed: File<seq<Record>>, env: Environment)
      returns (restored: Option<File<seq<Record>>>)
      modifies this`store
      ensures restored.Some? <==>
                && env.authorizedBefore && env.authorizedInLock && env.runtimeLockHeld
                && !env.ioFailsBefore && !env.ioFailsAfter
                && old(store) == committed && AllIdentified(committed.content, w.originals)
      ensures store != old(store) ==>
                && env.authorizedBefore && env.authorizedInLock && env.runtimeLockHeld
                && old(store) == committed && AllIdentified(committed.content, w.originals)
                && store.content == SelectionRestored(committed.content, w.originals)
      ensures restored.Some? ==>
                && AllIdentified(committed.content, w.originals)
                && restored.value == store == File(SelectionRestored(committed.content, w.originals), env.newIdentity)
      ensures restored.None? && !env.ioFailsAfter ==> store == old(store)
    {
      if !env.runtimeLockHeld || !env.authorizedBefore {
        return None;
      }
      var bytes := CompensatedStoreData(committed.content, w.originals);
      if bytes.None? || store != committed || !env.authorizedInLock || env.ioFailsBefore {
        return None;
      }
      store := File(bytes.value, env.newIdentity);
      restored := if env.ioFailsAfter then None else Some(store);
    }
  }
}
