/** The lease under which one automatic policy decision is carried out, and the authority its effects re-check. */
module PolicyLease {
  import opened Prelude

  const UINT64_MAX: nat := 0xFFFF_FFFF_FFFF_FFFF
  const NANOSECONDS: nat := 1_000_000_000

  /** A lease names its authority by its generation. */
  datatype Lease = Lease(generation: Uuid, startedAt: Date, startedAtUptime: nat, deadline: nat)

  datatype Finish = Completed | Expired | Stale

  /** The timeout in nanoseconds, cut off where an unsigned 64-bit number ends. */
  function TimeoutNanoseconds(timeout: real): nat {
    var bounded := Max(0.0, timeout);
    if bounded >= (UINT64_MAX / NANOSECONDS) as real then UINT64_MAX else (bounded * NANOSECONDS as real).Floor
  }

  function Deadline(uptime: nat, timeout: real): nat {
    var sum := uptime + TimeoutNanoseconds(timeout);
    if sum > UINT64_MAX then UINT64_MAX else sum
  }

  /** The deadline is a 64-bit number, never before now, and exact whenever the exact one fits. */
  lemma DeadlineIsSaturated(uptime: nat, timeout: real)
    requires uptime <= UINT64_MAX
    ensures uptime <= Deadline(uptime, timeout) <= UINT64_MAX
    ensures timeout <= 0.0 ==> Deadline(uptime, timeout) == uptime
    ensures 0.0 <= timeout && uptime as real + timeout * 1_000_000_000.0 <= 18_446_744_073_709_551_615.0
            && timeout < 18_446_744_073.0 ==>
              Deadline(uptime, timeout) == uptime + (timeout * 1_000_000_000.0).Floor
    ensures timeout >= 18_446_744_073.0
            || uptime as real + timeout * 1_000_000_000.0 >= 18_446_744_073_709_551_616.0 ==>
              Deadline(uptime, timeout) == UINT64_MAX
  {
    if timeout > 0.0 {
      assert timeout * NANOSECONDS as real >= 0.0;
    }
  }

  /** The current lease, and the generations whose authority was revoked. */
  datatype State = State(current: Option<Lease>, revoked: set<Uuid>) {
    predicate IsCurrent(lease: Lease) {
      current.Some? && current.value.generation == lease.generation
    }

    /** What an effect that holds only the authority sees. */
    predicate AuthorityAuthorizes(lease: Lease, uptime: nat) {
      lease.generation !in revoked && uptime < lease.deadline
    }

    predicate Authorizes(lease: Lease, uptime: nat) {
      IsCurrent(lease) && AuthorityAuthorizes(lease, uptime)
    }

    function Revoking(lease: Lease): State {
      State(None, revoked + {lease.generation})
    }

    function Step(call: Call): State {
      match call
      case Begin(at, uptime, timeout, generation) =>
        if current.Some? then this else State(Some(Lease(generation, at, uptime, Deadline(uptime, timeout))), revoked)
      case FinishLease(lease, uptime) =>
        if !IsCurrent(lease) then this
        else if uptime < lease.deadline then State(None, revoked)
        else Revoking(lease)
      case Expire(lease, uptime) => if IsCurrent(lease) && uptime >= lease.deadline then Revoking(lease) else this
      case CancelAll => if current.Some? then Revoking(current.value) else this
      case Cancel(lease) => if IsCurrent(lease) then Revoking(lease) else this
    }
  }

  datatype Call =
    | Begin(at: Date, uptime: nat, timeout: real, generation: Uuid)
    | FinishLease(lease: Lease, uptime: nat)
    | Expire(lease: Lease, uptime: nat)
    | CancelAll
    | Cancel(lease: Lease)

  const NO_LEASE := State(None, {})

  class PolicyLeaseState {
    var current: Option<Lease>
    /** The generations of the authorities that were revoked. */
    var revoked: set<Uuid>

    ghost function Value(): State
      reads this
    {
      State(current, revoked)
    }

    constructor ()
      ensures Value() == NO_LEASE
    {
      current, revoked := None, {};
    }

    method BeginLease(at: Date, uptime: nat, timeout: real, generation: Uuid) returns (lease: Option<Lease>)
      modifies this
      ensures Value() == old(Value()).Step(Begin(at, uptime, timeout, generation))
      ensures lease.Some? <==> old(current).None?
      ensures lease.Some? ==>
                && current == lease && lease.value.generation == generation && revoked == old(revoked)
                && lease.value.startedAt == at && lease.value.startedAtUptime == uptime
                && lease.value.deadline == Deadline(uptime, timeout)
      ensures lease.None? ==> unchanged(this)
    {
      if current.Some? {
        return None;
      }
      lease := Some(Lease(generation, at, uptime, Deadline(uptime, timeout)));
      current := lease;
    }

    method Finish(lease: Lease, uptime: nat) returns (r: Finish)
      modifies this
      ensures Value() == old(Value()).Step(FinishLease(lease, uptime))
      ensures r == if !old(Value()).IsCurrent(lease) then Stale
                   else if uptime < lease.deadline then Completed else Expired
      ensures r.Stale? ==> unchanged(this)
      ensures !r.Stale? ==> current == None
      ensures lease.generation in revoked <==> lease.generation in old(revoked) || r.Expired?
    {
      if current.None? || current.value.generation != lease.generation {
        return Stale;
      }
      current := None;
      if uptime >= lease.deadline {
        revoked := revoked + {lease.generation};
        return Expired;
      }
      r := Completed;
    }

    method ExpireLease(lease: Lease, uptime: nat) returns (expired: bool)
      modifies this
      ensures Value() == old(Value()).Step(Expire(lease, uptime))
      ensures expired <==> old(Value()).IsCurrent(lease) && uptime >= lease.deadline
      ensures expired ==> current == None && lease.generation in revoked
      ensures !expired ==> unchanged(this)
    {
      if current.None? || current.value.generation != lease.generation || uptime < lease.deadline {
        return false;
      }
      current := None;
      revoked := revoked + {lease.generation};
      expired := true;
    }

    method CancelCurrent()
      modifies this
      ensures Value() == old(Value()).Step(CancelAll)
      ensures current == None && (old(current).Some? ==> old(current).value.generation in revoked)
    {
      if current.Some? {
        revoked := revoked + {current.value.generation};
      }
      current := None;
    }

    method CancelLease(lease: Lease) returns (cancelled: bool)
      modifies this
      ensures Value() == old(Value()).Step(Cancel(lease))
      ensures cancelled <==> old(current).Some? && old(current).value.generation == lease.generation
      ensures cancelled ==> current == None && lease.generation in revoked
      ensures !cancelled ==> unchanged(this)
    {
      if current.None? || current.value.generation != lease.generation {
        return false;
      }
      current := None;
      revoked := revoked + {lease.generation};
      cancelled := true;
    }
  }

  // ----- Runs -----------------------------------------------------------------------------------------------------

  function StateAt(run: seq<Call>, n: nat): State
    requires n <= |run|
  {
    if n == 0 then NO_LEASE else StateAt(run, n - 1).Step(run[n - 1])
  }

  /** Generations are freshly drawn for every lease. */
  predicate FreshGenerations(run: seq<Call>) {
    forall i, j :: 0 <= i < j < |run| && run[i].Begin? && run[j].Begin? ==> run[i].generation != run[j].generation
  }

  /** Call `a` of the run began this lease. */
  predicate Begins(run: seq<Call>, a: nat, lease: Lease)
    requires a < |run|
  {
    run[a].Begin? && run[a].generation == lease.generation && StateAt(run, a).current.None?
    && StateAt(run, a + 1).current == Some(lease)
  }

  /** What a generation that has not begun yet cannot be. */
  lemma {:induction false} NotYetBegun(run: seq<Call>, a: nat, n: nat, lease: Lease)
    requires a < |run| && n <= a && FreshGenerations(run) && Begins(run, a, lease)
    ensures !StateAt(run, n).IsCurrent(lease) && lease.generation !in StateAt(run, n).revoked
  {
    if n > 0 {
      NotYetBegun(run, a, n - 1, lease);
    }
  }

  /** The calls from `a + 1` on finished this lease in time, while it was current. */
  predicate FinishedInTime(run: seq<Call>, a: nat, n: nat, lease: Lease)
    requires n <= |run|
  {
    exists m :: a < m < n && run[m].FinishLease? && run[m].lease.generation == lease.generation
                && StateAt(run, m).IsCurrent(lease) && run[m].uptime < run[m].lease.deadline
  }

  /** After its beginning a lease is current, or was finished in time, or its authority was revoked: exactly one of the
      three, and never current again once it was not. */
  lemma {:induction false} LeaseEndsOnce(run: seq<Call>, a: nat, n: nat, lease: Lease)
    requires a < n <= |run| && FreshGenerations(run) && Begins(run, a, lease)
    ensures var s := StateAt(run, n);
            && (s.IsCurrent(lease) ==> s.current == Some(lease))
            && (s.IsCurrent(lease) ==> lease.generation !in s.revoked && !FinishedInTime(run, a, n, lease))
            && (!s.IsCurrent(lease) ==> (lease.generation in s.revoked <==> !FinishedInTime(run, a, n, lease)))
    ensures n > a + 1 && !StateAt(run, n - 1).IsCurrent(lease) ==> !StateAt(run, n).IsCurrent(lease)
  {
    if n == a + 1 {
      NotYetBegun(run, a, a, lease);
    } else {
      LeaseEndsOnce(run, a, n - 1, lease);
      if FinishedInTime(run, a, n - 1, lease) {
        var m :| a < m < n - 1 && run[m].FinishLease? && run[m].lease.generation == lease.generation
                 && StateAt(run, m).IsCurrent(lease) && run[m].uptime < run[m].lease.deadline;
        assert FinishedInTime(run, a, n, lease);
      }
      if FinishedInTime(run, a, n, lease) && !FinishedInTime(run, a, n - 1, lease) {
        var m :| a < m < n && run[m].FinishLease? && run[m].lease.generation == lease.generation
                 && StateAt(run, m).IsCurrent(lease) && run[m].uptime < run[m].lease.deadline;
        assert m == n - 1;
      }
    }
  }

  /** While a lease is current, it and its authority authorize exactly until the deadline. */
  lemma CurrentLeaseAuthorizes(run: seq<Call>, a: nat, n: nat, lease: Lease, uptime: nat)
    requires a < n <= |run| && FreshGenerations(run) && Begins(run, a, lease) && StateAt(run, n).IsCurrent(lease)
    ensures StateAt(run, n).Authorizes(lease, uptime) <==> uptime < lease.deadline
    ensures StateAt(run, n).AuthorityAuthorizes(lease, uptime) <==> uptime < lease.deadline
  {
    LeaseEndsOnce(run, a, n, lease);
  }

  /** The authority alone is weaker than the lease: before the deadline, the authority of a lease that is no longer current
      still authorizes if and only if the lease was finished in time. After a cancellation or an expiry it never does. */
  lemma AuthorityOutlivesOnlyFinishedLeases(run: seq<Call>, a: nat, n: nat, lease: Lease, uptime: nat)
    requires a < n <= |run| && FreshGenerations(run) && Begins(run, a, lease)
    requires !StateAt(run, n).IsCurrent(lease)
    ensures !StateAt(run, n).Authorizes(lease, uptime)
    ensures StateAt(run, n).AuthorityAuthorizes(lease, uptime) <==>
              uptime < lease.deadline && FinishedInTime(run, a, n, lease)
  {
    LeaseEndsOnce(run, a, n, lease);
  }
}
