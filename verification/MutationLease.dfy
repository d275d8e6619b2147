/** The single-holder mutation lease, which can be invalidated while it is still held. */
module MutationLease {
  import opened Prelude

  const GENERATIONS := 0x1_0000_0000_0000_0000

  datatype Purpose =
    | Activation(account: Uuid, generation: Uuid)
    | ResetRedemption(account: Uuid, generation: Uuid)
    | AccountStoreDeletion(account: Uuid, generation: Uuid)

  datatype Lease = Lease(generation: nat, purpose: Purpose, token: Uuid)

  datatype HeldLease = HeldLease(lease: Lease, invalidated: bool)

  datatype Call =
    | Acquire(purpose: Purpose, token: Uuid)
    | InvalidateActivation(target: Option<Uuid>)
    | InvalidateCurrent
    | Release(lease: Lease)

  datatype Leases = Leases(nextGeneration: nat, current: Option<HeldLease>) {
    predicate Owns(lease: Lease) {
      current.Some? && current.value.lease == lease && !current.value.invalidated
    }

    predicate Holds(lease: Lease) {
      current.Some? && current.value.lease == lease
    }

    /** The lease an acquisition hands out now; the generation counter wraps at 64 bits. */
    function Offer(purpose: Purpose, token: Uuid): Lease {
      Lease((nextGeneration + 1) % GENERATIONS, purpose, token)
    }

    function Step(call: Call): Leases {
      match call
      case Acquire(purpose, token) =>
        if current.Some? then this
        else Leases((nextGeneration + 1) % GENERATIONS, Some(HeldLease(Offer(purpose, token), false)))
      case InvalidateActivation(target) =>
        if current.Some? && IsActivation(current.value.lease, target)
        then this.(current := Some(current.value.(invalidated := true))) else this
      case InvalidateCurrent =>
        if current.Some? then this.(current := Some(current.value.(invalidated := true))) else this
      case Release(lease) =>
        if Holds(lease) then this.(current := None) else this
    }
  }

  const IDLE := Leases(0, None)

  /** The lease is an activation, of the target account if one is named. */
  predicate IsActivation(lease: Lease, target: Option<Uuid>) {
    lease.purpose.Activation? && (target.Some? ==> target.value == lease.purpose.account)
  }

  /** The lock-protected storage behind the lease coordinator. */
  class LeaseStorage {
    var nextGeneration: nat
    var current: Option<HeldLease>

    function Value(): Leases
      reads this
    {
      Leases(nextGeneration, current)
    }

    constructor ()
      ensures Value() == IDLE
    {
      nextGeneration, current := 0, None;
    }

    method AcquireLease(purpose: Purpose, token: Uuid) returns (lease: Option<Lease>)
      modifies this
      ensures Value() == old(Value()).Step(Acquire(purpose, token))
      ensures lease == if old(current).None? then Some(old(Value()).Offer(purpose, token)) else None
      ensures lease.Some? ==>
                && lease.value.purpose == purpose && lease.value.token == token
                && lease.value.generation == (old(nextGeneration) + 1) % 0x1_0000_0000_0000_0000
                && current == Some(HeldLease(lease.value, false)) && nextGeneration == lease.value.generation
      ensures lease.None? ==> unchanged(this)
    {
      if current.Some? {
        return None;
      }
      nextGeneration := (nextGeneration + 1) % GENERATIONS;
      var acquired := Lease(nextGeneration, purpose, token);
      current := Some(HeldLease(acquired, false));
      lease := Some(acquired);
    }

    method InvalidateCurrentActivation(target: Option<Uuid>) returns (invalidated: bool)
      modifies this
      ensures Value() == old(Value()).Step(InvalidateActivation(target))
      ensures invalidated <==>
                && old(current).Some? && old(current).value.lease.purpose.Activation?
                && (target == None || target == Some(old(current).value.lease.purpose.account))
      ensures invalidated ==> current == Some(HeldLease(old(current).value.lease, true))
      ensures !invalidated ==> unchanged(this)
    {
      if current.None? || !current.value.lease.purpose.Activation?
         || (target.Some? && target.value != current.value.lease.purpose.account)
      {
        return false;
      }
      current := Some(current.value.(invalidated := true));
      invalidated := true;
    }

    method InvalidateCurrentLease() returns (invalidated: bool)
      modifies this
      ensures Value() == old(Value()).Step(InvalidateCurrent)
      ensures invalidated <==> old(current).Some?
      ensures invalidated ==> current == Some(HeldLease(old(current).value.lease, true))
    {
      if current.None? {
        return false;
      }
      current := Some(current.value.(invalidated := true));
      invalidated := true;
    }

    method ReleaseLease(lease: Lease) returns (released: bool)
      modifies this
      ensures Value() == old(Value()).Step(Release(lease))
      ensures released <==> old(current).Some? && old(current).value.lease == lease
      ensures released ==> current == None
      ensures !released ==> unchanged(this)
    {
      if current.None? || current.value.lease != lease {
        return false;
      }
      current := None;
      released := true;
    }

    /** Runs an operation under a lease. Meanwhile other callers may try to acquire or may invalidate, but only this
        method releases. */
    method WithLease(purpose: Purpose, token: Uuid, meanwhile: seq<Call>) returns (lease: Option<Lease>)
      requires forall i :: 0 <= i < |meanwhile| ==> !meanwhile[i].Release?
      modifies this
      ensures lease.Some? <==> old(current).None?
      ensures lease.Some? ==> current.None?
      ensures lease.None? ==> Value() == old(Value())
    {
      lease := AcquireLease(purpose, token);
      if lease.None? {
        return;
      }
      for i := 0 to |meanwhile|
        invariant current.Some? && current.value.lease == lease.value
      {
        var call := meanwhile[i];
        if call.Acquire? {
          var refused := AcquireLease(call.purpose, call.token);
        } else if call.InvalidateActivation? {
          var _ := InvalidateCurrentActivation(call.target);
        } else {
          var _ := InvalidateCurrentLease();
        }
      }
      var _ := ReleaseLease(lease.value);
    }
  }

  // ----- Runs --------------------------------------------------------------------------------------

  function LeasesAt(run: seq<Call>, n: nat): Leases
    requires n <= |run|
  {
    if n == 0 then IDLE else LeasesAt(run, n - 1).Step(run[n - 1])
  }

  /** Call `a` of the run is the acquisition that handed out `lease`. */
  predicate Acquires(run: seq<Call>, a: nat, lease: Lease)
    requires a < |run|
  {
    && LeasesAt(run, a).current.None? && run[a].Acquire?
    && lease == LeasesAt(run, a).Offer(run[a].purpose, run[a].token)
  }

  /** The lease was acquired at `a` and nothing before call `n` ended it. */
  predicate OwnedSince(run: seq<Call>, a: nat, n: nat, lease: Lease)
    requires n <= |run|
  {
    a < n && Acquires(run, a, lease) && forall m :: a < m < n ==> Spares(run[m], lease)
  }

  /** The call neither releases the lease nor invalidates it, whether as whatever is current, as whatever activation is
      current or as the activation of its account. */
  predicate Spares(call: Call, lease: Lease) {
    && call != Release(lease) && call != InvalidateCurrent
    && (lease.purpose.Activation? ==>
          call != InvalidateActivation(None) && call != InvalidateActivation(Some(lease.purpose.account)))
  }

  predicate HeldSince(run: seq<Call>, a: nat, n: nat, lease: Lease)
    requires n <= |run|
  {
    a < n && Acquires(run, a, lease) && forall m :: a < m < n ==> run[m] != Release(lease)
  }

  /** Ownership is exactly "acquired, and neither released nor invalidated since". */
  lemma {:induction false} OwnershipHistory(run: seq<Call>, n: nat, lease: Lease)
    requires n <= |run|
    ensures LeasesAt(run, n).Owns(lease) <==> exists a: nat :: OwnedSince(run, a, n, lease)
  {
    if n > 0 {
      OwnershipHistory(run, n - 1, lease);
      if LeasesAt(run, n).Owns(lease) {
        if LeasesAt(run, n - 1).Owns(lease) {
          var a: nat :| OwnedSince(run, a, n - 1, lease);
          assert OwnedSince(run, a, n, lease);
        } else {
          assert OwnedSince(run, n - 1, n, lease);
        }
      } else if a: nat :| OwnedSince(run, a, n, lease) {
        assert a < n - 1 ==> OwnedSince(run, a, n - 1, lease);
      }
    }
  }

  /** A lease stays held, invalidated or not, until it is released. */
  lemma {:induction false} HoldingHistory(run: seq<Call>, n: nat, lease: Lease)
    requires n <= |run|
    ensures LeasesAt(run, n).Holds(lease) <==> exists a: nat :: HeldSince(run, a, n, lease)
  {
    if n > 0 {
      HoldingHistory(run, n - 1, lease);
      if LeasesAt(run, n).Holds(lease) {
        if LeasesAt(run, n - 1).Holds(lease) {
          var a: nat :| HeldSince(run, a, n - 1, lease);
          assert HeldSince(run, a, n, lease);
        } else {
          assert HeldSince(run, n - 1, n, lease);
        }
      } else if a: nat :| HeldSince(run, a, n, lease) {
        assert a < n - 1 ==> HeldSince(run, a, n - 1, lease);
      }
    }
  }

  /** Ownership tokens are freshly drawn for every acquisition. */
  predicate FreshTokens(run: seq<Call>) {
    forall i, j :: 0 <= i < j < |run| && run[i].Acquire? && run[j].Acquire? ==> run[i].token != run[j].token
  }

  /** Ownership of a lease is one unbroken stretch of the run: once lost, it never comes back. */
  lemma OwnershipIsContiguous(run: seq<Call>, i: nat, j: nat, k: nat, lease: Lease)
    requires i <= j <= k <= |run| && FreshTokens(run)
    requires LeasesAt(run, i).Owns(lease) && LeasesAt(run, k).Owns(lease)
    ensures LeasesAt(run, j).Owns(lease)
  {
    OwnershipHistory(run, i, lease);
    OwnershipHistory(run, j, lease);
    OwnershipHistory(run, k, lease);
    var a: nat :| OwnedSince(run, a, i, lease);
    var b: nat :| OwnedSince(run, b, k, lease);
    assert a == b;
    assert OwnedSince(run, a, j, lease);
  }

  /** From an invalidation until its release, the old operation owns nothing and nobody else acquires anything. */
  lemma {:induction false} InvalidationBlocksUntilRelease(run: seq<Call>, i: nat, n: nat, lease: Lease)
    requires i <= n <= |run| && LeasesAt(run, i).Holds(lease) && !LeasesAt(run, i).Owns(lease)
    requires forall m :: i <= m < n ==> run[m] != Release(lease)
    ensures LeasesAt(run, n) == LeasesAt(run, i)
  {
    if i < n {
      InvalidationBlocksUntilRelease(run, i, n - 1, lease);
    }
  }
}
