/** Observations of the pool's authority: which may replace which, and what stays visible when the connection is lost. */
module PoolAuthority {
  import opened Prelude

  datatype Observation = Observation(epoch: int, desiredAccount: string, updatedAt: Date, observedAt: Date)

  /** A new epoch always replaces an older one; within an epoch the desired account is fixed and time does not go back. */
  predicate CanReplace(existing: Option<Observation>, candidate: Observation) {
    existing.Some? ==>
      var e := existing.value;
      && candidate.epoch >= e.epoch
      && (candidate.epoch == e.epoch ==>
            && candidate.desiredAccount == e.desiredAccount && candidate.updatedAt >= e.updatedAt
            && (candidate.updatedAt == e.updatedAt ==> candidate.observedAt >= e.observedAt))
  }

  datatype View = View(current: Option<Observation>, retained: Option<Observation>, endpointConfigured: bool,
                       revision: nat)

  const EMPTY_VIEW := View(None, None, false, 0)

  function Existing(v: View): Option<Observation> {
    if v.current.Some? then v.current else v.retained
  }

  datatype Event = Publish(observation: Observation) | Clear | Configure(configured: bool)

  function Step(v: View, e: Event): View {
    match e
    case Publish(o) => if CanReplace(Existing(v), o) then View(Some(o), Some(o), true, v.revision + 1) else v
    case Clear => View(None, Existing(v), v.endpointConfigured, v.revision + 1)
    case Configure(configured) =>
      if v.endpointConfigured == configured then v
      else v.(endpointConfigured := configured, revision := v.revision + 1)
  }

  class AuthorityView {
    var current: Option<Observation>
    var retained: Option<Observation>
    var endpointConfigured: bool
    var revision: nat

    ghost function State(): View
      reads this
    {
      View(current, retained, endpointConfigured, revision)
    }

    constructor ()
      ensures State() == EMPTY_VIEW
    {
      current, retained, endpointConfigured, revision := None, None, false, 0;
    }

    method PublishPoolAuthorityObservation(observation: Observation)
      modifies this
      ensures State() == Step(old(State()), Publish(observation))
    {
      var existing := if current.Some? then current else retained;
      if !CanReplace(existing, observation) {
        return;
      }
      endpointConfigured := true;
      current := Some(observation);
      retained := Some(observation);
      revision := revision + 1;
    }

    method PublishRemoteAuthorityEndpointConfigured(configured: bool)
      modifies this
      ensures State() == Step(old(State()), Configure(configured))
    {
      if endpointConfigured == configured {
        return;
      }
      endpointConfigured := configured;
      revision := revision + 1;
    }

    method ClearPoolAuthorityObservation()
      modifies this
      ensures State() == Step(old(State()), Clear)
    {
      if current.Some? {
        retained := current;
      }
      current := None;
      revision := revision + 1;
    }
  }

  // ----- Runs -----------------------------------------------------------------------------------------------------

  function After(v: View, events: seq<Event>): View {
    if events == [] then v else Step(After(v, events[..|events| - 1]), events[|events| - 1])
  }

  /** No step back: a later epoch, or the same epoch and account with a later update, or with the same update seen no
      earlier. */
  predicate IsNoStepBack(o: Observation, e: Observation) {
    || o.epoch > e.epoch
    || (o.epoch == e.epoch && o.desiredAccount == e.desiredAccount
        && (o.updatedAt > e.updatedAt || (o.updatedAt == e.updatedAt && o.observedAt >= e.observedAt)))
  }

  /** What was accepted last, whether it is shown or kept from before the connection was lost. */
  predicate IsLast(v: View, o: Observation) {
    v.current == Some(o) || (v.current == None && v.retained == Some(o))
  }

  /** An observation is shown exactly if it is no step back from the one accepted last, and otherwise nothing changes;
      losing the connection hides the observation but keeps it as the one to compare with. */
  lemma PublicationIsExact(v: View, o: Observation)
    ensures var next := Step(v, Publish(o));
            if forall e: Observation :: IsLast(v, e) ==> IsNoStepBack(o, e)
            then next == View(Some(o), Some(o), true, v.revision + 1) else next == v
    ensures var cleared := Step(v, Clear);
            && cleared.current == None && cleared.revision == v.revision + 1
            && cleared.endpointConfigured == v.endpointConfigured
            && forall e: Observation :: IsLast(cleared, e) <==> IsLast(v, e)
    ensures forall b: bool :: var next := Step(v, Configure(b));
              && next.endpointConfigured == b && next.current == v.current && next.retained == v.retained
              && next.revision == v.revision + if v.endpointConfigured == b then 0 else 1
  {
    if v.current.Some? {
      assert IsLast(v, v.current.value);
    } else if v.retained.Some? {
      assert IsLast(v, v.retained.value);
    }
  }

  lemma ReplacingIsTransitive(a: Observation, b: Observation, c: Observation)
    requires CanReplace(Some(a), b) && CanReplace(Some(b), c)
    ensures CanReplace(Some(a), c)
  {
  }

  /** Once an observation was accepted, whatever is shown later, across any number of disconnections, is one that may
      replace it: no older epoch, no other account in its epoch, no earlier update, no earlier sighting of one update. */
  lemma {:induction false} AuthorityNeverGoesBack(v: View, events: seq<Event>)
    requires Existing(v).Some?
    ensures Existing(After(v, events)).Some?
    ensures CanReplace(Existing(v), Existing(After(v, events)).value)
    ensures IsNoStepBack(Existing(After(v, events)).value, Existing(v).value)
  {
    if events != [] {
      AuthorityNeverGoesBack(v, events[..|events| - 1]);
      var before, e := After(v, events[..|events| - 1]), events[|events| - 1];
      if e.Publish? && CanReplace(Existing(before), e.observation) {
        ReplacingIsTransitive(Existing(v).value, Existing(before).value, e.observation);
      }
    }
  }

  /** Whatever is accepted later in a run was not ruled out by anything accepted earlier in it. */
  lemma AcceptedInOrder(v: View, events: seq<Event>, earlier: Observation, later: Observation)
    requires CanReplace(Existing(v), earlier)
    requires CanReplace(Existing(After(Step(v, Publish(earlier)), events)), later)
    ensures CanReplace(Some(earlier), later) && IsNoStepBack(later, earlier)
  {
    AuthorityNeverGoesBack(Step(v, Publish(earlier)), events);
    ReplacingIsTransitive(earlier, Existing(After(Step(v, Publish(earlier)), events)).value, later);
  }
}
