/** Moving a held set of start barriers to other modes: what holds after every step, and exactly how it ends. */
module BarrierTransition {
  import opened Prelude
  import opened StartBarrier
  import opened BarrierOperations
  import opened BarrierProtocol

  // ----- How a transition ends ----------------------------------------------------------------------------

  /** A desired barrier is already published or can be. */
  predicate CanMoveTo(e: Files, id: Id, anchors: set<Id>) {
    PublicPath(id) in e || (if id in anchors then IsReachable(e, id) else HasRoom(e, id))
  }

  predicate CanMove(e: Files, units: seq<Unit>, modes: map<Unit, Kind>, anchors: set<Id>)
    requires forall u <- units :: u in modes
  {
    forall u <- units :: CanMoveTo(e, Id(u, modes[u]), anchors)
  }

  /** The first unit whose desired barrier is neither published nor can be. */
  predicate FirstStuck(e: Files, units: seq<Unit>, modes: map<Unit, Kind>, anchors: set<Id>, i: nat)
    requires forall u <- units :: u in modes
  {
    i < |units| && CanMove(e, units[..i], modes, anchors) && !CanMoveTo(e, Id(units[i], modes[units[i]]), anchors)
  }

  /** A transition succeeds, or changes nothing, or leaves an anchor that no manifest records, or stops after its
      transitioning manifest is durable. */
  datatype Ending = Moved | Untouched | Locked | Midway

  /** How a transition ends when no step of it fails by itself, read off the files before it. */
  ghost function EndingOf(e: Files, units: seq<Unit>, modes: map<Unit, Kind>, anchors: set<Id>): Ending
    requires forall u <- units :: u in modes
  {
    if CanMove(e, units, modes, anchors) then Moved
    else if AllPreparable(e, units, modes, anchors) then Midway
    else if exists i: nat :: FirstObstacle(e, units, modes, anchors, i) && DesiredSet(units[..i], modes) <= anchors
    then Untouched
    else Locked
  }

  /** What each ending leaves of a held set whose manifest was `m0`. */
  ghost predicate Ends(ending: Ending, ok: bool, e0: Files, e: Files, base: Files, owner: Owner, units: seq<Unit>,
                       modes: map<Unit, Kind>, m0: Manifest, m: Manifest)
    requires forall u <- units :: u in modes
  {
    && (ok <==> ending.Moved?)
    && match ending
       case Moved => HeldSet(base, e, owner, units, modes, m) && m.anchors.Keys == m0.anchors.Keys + DesiredSet(units, modes)
       case Untouched => e == e0
       case Locked => Load(e, owner, units) == None
       case Midway =>
         && m.phase.Transitioning? && m.anchors.Keys == m0.anchors.Keys + DesiredSet(units, modes)
         && exists i: nat :: FirstStuck(e0, units, modes, m0.anchors.Keys, i)
              && OwnedSet(base, e, owner, units, modes, m, (set id <- m0.active) + DesiredSet(units[..i], modes))
  }

  /** The durable manifest is there and records no drop-in directory but these. */
  ghost predicate RecordsAtMost(e: Files, token: string, created: set<Unit>) {
    DurableManifest(e, token).Some? && CreatedUnits(DurableManifest(e, token).value) <= created
  }

  /** What a transition leaves, faults included: its own files over the same base, with no other drop-in directories than
      these. */
  ghost predicate Remains(e: Files, w: Watch, limit: set<Unit>) {
    exists m, own :: StateTracks(e, w, m, own) && own.created <= limit && RecordsAtMost(e, w.owner.token, own.created)
  }

  lemma Remaining(e: Files, w: Watch, m: Manifest, own: Own, limit: set<Unit>)
    requires StateTracks(e, w, m, own) && own.created <= limit && RecordsAtMost(e, w.owner.token, own.created)
    ensures Remains(e, w, limit)
  {
    hide StateTracks, RecordsAtMost;
  }

  lemma MoreRemains(e: Files, w: Watch, limit: set<Unit>, more: set<Unit>)
    requires Remains(e, w, limit) && limit <= more
    ensures Remains(e, w, more)
  {
    hide StateTracks, RecordsAtMost;
  }

  lemma RecordedBefore(e: Files, token: string, m: Manifest, created: set<Unit>)
    requires DurableManifest(e, token) == Some(m) && CreatedUnits(m) <= created
    ensures RecordsAtMost(e, token, created)
  {
  }

  lemma SameCreated(m: Manifest, m': Manifest)
    requires m.created == m'.created
    ensures CreatedUnits(m) == CreatedUnits(m')
  {
  }

  lemma SameRecords(e: Files, e': Files, token: string, created: set<Unit>, m: Manifest)
    requires RecordsAtMost(e, token, created) && CreatedUnits(m) <= created
    requires DurableManifest(e', token) == DurableManifest(e, token) || DurableManifest(e', token) == Some(m)
    ensures RecordsAtMost(e', token, created)
  {
  }

  // ----- After every desired barrier has an anchor -----------------------------------------------------------

  /** Records that exactly the desired barriers are published, and checks it. */
  method DeclareHeld(host: Host, owner: Owner, units: seq<Unit>, modes: map<Unit, Kind>, m0: Manifest,
                     ghost w: Watch, ghost own0: Own)
    returns (ok: bool, m: Manifest)
    requires Tracks(host, w, m0, own0) && owner == w.owner && units == w.units && w.found == {}
    requires WellFormedUnits(units, modes) && m0.owner == owner && m0.units == units
    requires m0.active == Desired(units, modes) && (forall id <- m0.anchors :: id.unit in units)
    requires own0 == HeldOwn(owner.token, m0, DesiredSet(units, modes)) && own0.published <= own0.anchors
    requires RecordsAtMost(host.entries, owner.token, own0.created)
    modifies host
    ensures host.Valid() && HistoryTracks(host.history, w) && Remains(host.entries, w, own0.created)
    ensures m == m0.(phase := Held) && (ok ==> HeldSet(w.base, host.entries, owner, units, modes, m))
    ensures old(host.faults) == [] ==> host.faults == [] && ok
  {
    hide StateTracks, HistoryTracks, HeldSet, WellFormedUnits, DesiredSet, PublicStateMatches, IsHeld, Remains,
         RecordsAtMost, CoversUnits, Load;
    DesiredCovers(units, modes);
    Rephased(host.entries, w, m0, own0, Held, m0.active);
    var next := m0.(phase := Held);
    m := next;
    ghost var own, e0 := own0, host.entries;
    ok, own := WriteNextManifest(host, owner, next, w, own0);
    SameRecords(e0, host.entries, owner.token, own0.created, next);
    Remaining(host.entries, w, next, own, own0.created);
    if !ok {
      return;
    }
    TrackedSetIsHeld(host.entries, w, m, own, modes);
    HeldIsAccepted(w.base, host.entries, owner, units, modes, m);
    ok := PublicStateMatches(host.entries, next, true);
  }

  /** Manifests and anchors are no part of what decides whether a barrier can be published. */
  lemma SameOutlook(e0: Files, e: Files, w: Watch, m0: Manifest, m: Manifest, own0: Own, own: Own)
    requires StateTracks(e0, w, m0, own0) && StateTracks(e, w, m, own)
    requires own.published == own0.published && own.created == own0.created
    ensures forall id: Id :: PublicPath(id) in e0 <==> PublicPath(id) in e
    ensures forall id: Id :: IsReachable(e0, id) <==> IsReachable(e, id)
  {
    hide StateTracks, IsReachable;
    forall id: Id
      ensures PublicPath(id) in e0 <==> PublicPath(id) in e
      ensures IsReachable(e0, id) <==> IsReachable(e, id)
    {
      SameReach(e0, e, w, m0, m, own0, own, id);
      PublishedStays(e0, e, w, m0, m, own0, own, id);
      PublishedStays(e, e0, w, m, m0, own, own0, id);
    }
  }

  lemma StillReachable(e0: Files, e: Files, w: Watch, m: Manifest, own0: Own, own: Own, ids: seq<Id>)
    requires StateTracks(e0, w, m, own0) && StateTracks(e, w, m, own)
    requires own.published == own0.published && own.created == own0.created
    ensures AllReachable(e0, ids) <==> AllReachable(e, ids)
    ensures forall i: nat :: FirstUnreachable(e0, ids, i) <==> FirstUnreachable(e, ids, i)
  {
    hide StateTracks, IsReachable;
    SameOutlook(e0, e, w, m, m, own0, own);
  }

  /** The part of a transition after every desired barrier has an anchor. */
  method MoveBarriers(host: Host, owner: Owner, units: seq<Unit>, modes: map<Unit, Kind>, m0: Manifest,
                      ghost w: Watch, ghost own0: Own)
    returns (ok: bool, m: Manifest, ghost reached: nat)
    requires Tracks(host, w, m0, own0) && owner == w.owner && units == w.units && w.found == {}
    requires WellFormedUnits(units, modes) && m0.owner == owner && m0.units == units
    requires own0 == HeldOwn(owner.token, m0, own0.published) && own0.published <= own0.anchors
    requires (forall id <- m0.anchors :: id.unit in units) && DesiredSet(units, modes) <= m0.anchors.Keys
    requires RecordsAtMost(host.entries, owner.token, own0.created)
    modifies host
    ensures host.Valid() && HistoryTracks(host.history, w) && Remains(host.entries, w, own0.created)
    ensures m == m0.(phase := m.phase, active := Desired(units, modes))
    ensures ok ==> HeldSet(w.base, host.entries, owner, units, modes, m)
    ensures ok ==> AllReachable(old(host.entries), Desired(units, modes))
    ensures old(host.faults) == [] ==>
              && host.faults == []
              && (!ok ==> && FirstUnreachable(old(host.entries), Desired(units, modes), reached)
                          && m.phase.Transitioning?
                          && OwnedSet(w.base, host.entries, owner, units, modes, m,
                                      own0.published + set id <- Desired(units, modes)[..reached]))
  {
    hide StateTracks, HistoryTracks, HeldSet, OwnedSet, WellFormedUnits, DesiredSet, CoversUnits, AllReachable,
         FirstUnreachable, KeepsDropIns, PublicStateMatches, IsHeld, Remains, RecordsAtMost, Desired, CreatedUnits;
    DesiredCovers(units, modes);
    var desired := Desired(units, modes);
    reached := 0;
    Rephased(host.entries, w, m0, own0, Transitioning, desired);
    var next := m0.(phase := Transitioning, active := desired);
    m := next;
    SameCreated(m0, next);
    ghost var own, e0 := own0, host.entries;
    ok, own := WriteNextManifest(host, owner, next, w, own0);
    SameRecords(e0, host.entries, owner.token, own0.created, next);
    Remaining(host.entries, w, next, own, own0.created);
    if !ok {
      return;
    }
    StillReachable(e0, host.entries, w, next, own0, own, desired);
    ok, own, reached := PublishDesired(host, owner, desired, next, w, own);
    RemainingRecorded(host.entries, w, next, own);
    if !ok {
      if old(host.faults) == [] {
        TrackedSetIsOwned(host.entries, w, next, own, modes, own.published);
      }
      return;
    }
    ok, own := RetireOthers(host, owner, (set id <- desired), next, w, own);
    RemainingRecorded(host.entries, w, next, own);
    if !ok {
      return;
    }
    ok, m := DeclareHeld(host, owner, units, modes, next, w, own);
  }

  lemma RemainingRecorded(e: Files, w: Watch, m: Manifest, own: Own)
    requires StateTracks(e, w, m, own) && DurableManifest(e, w.owner.token) == Some(m)
    requires own.created == CreatedUnits(m)
    ensures RecordsAtMost(e, w.owner.token, own.created) && Remains(e, w, own.created)
  {
    hide StateTracks;
  }

  // ----- The transition ---------------------------------------------------------------------------------------

  /** A desired barrier can be had before the preparation exactly if it can be published after it. */
  lemma PreparedOutlook(e0: Files, e: Files, w: Watch, m0: Manifest, own0: Own, m: Manifest, own: Own,
                        modes: map<Unit, Kind>, u: Unit)
    requires StateTracks(e0, w, m0, own0) && StateTracks(e, w, m, own) && WellFormedUnits(w.units, modes)
    requires u in w.units && Prepared(e0, e, m0, own0, m, own, w.units, modes)
    ensures var id := Id(u, modes[u]);
            CanMoveTo(e0, id, m0.anchors.Keys) <==> PublicPath(id) in e || IsReachable(e, id)
  {
    hide StateTracks, CreatedUnits, DesiredSet, Extends, SameRoom, KeepsDropIns;
    var id := Id(u, modes[u]);
    if id in m0.anchors {
      SameReach(e0, e, w, m0, m, own0, own, id);
      PublishedStays(e0, e, w, m0, m, own0, own, id);
      PublishedStays(e, e0, w, m, m0, own, own0, id);
    }
  }

  lemma DesiredPrefix(units: seq<Unit>, modes: map<Unit, Kind>, i: nat)
    requires (forall u <- units :: u in modes) && i <= |units|
    ensures Desired(units, modes)[..i] == Desired(units[..i], modes)
    ensures (set id <- Desired(units, modes)[..i]) == DesiredSet(units[..i], modes)
  {
    forall id <- DesiredSet(units[..i], modes)
      ensures id in Desired(units[..i], modes)
    {
      var j :| 0 <= j < i && units[..i][j] == id.unit;
      assert Desired(units[..i], modes)[j] == id;
    }
  }

  lemma PreparedCanMove(e0: Files, e: Files, w: Watch, m0: Manifest, own0: Own, m: Manifest, own: Own,
                        modes: map<Unit, Kind>)
    requires StateTracks(e0, w, m0, own0) && StateTracks(e, w, m, own) && WellFormedUnits(w.units, modes)
    requires (forall u <- w.units :: u in modes) && Prepared(e0, e, m0, own0, m, own, w.units, modes)
    ensures CanMove(e0, w.units, modes, m0.anchors.Keys) <==> AllReachable(e, Desired(w.units, modes))
    ensures forall i: nat :: FirstUnreachable(e, Desired(w.units, modes), i) ==>
                i < |w.units| && FirstStuck(e0, w.units, modes, m0.anchors.Keys, i)
  {
    hide StateTracks, Prepared, WellFormedUnits, CanMoveTo, IsReachable;
    var desired := Desired(w.units, modes);
    forall u <- w.units
      ensures var id := Id(u, modes[u]);
              CanMoveTo(e0, id, m0.anchors.Keys) <==> PublicPath(id) in e || IsReachable(e, id)
    {
      PreparedOutlook(e0, e, w, m0, own0, m, own, modes, u);
    }
    assert forall i | 0 <= i < |w.units| :: desired[i] == Id(w.units[i], modes[w.units[i]]) && w.units[i] in w.units;
    forall i: nat | FirstUnreachable(e, desired, i)
      ensures FirstStuck(e0, w.units, modes, m0.anchors.Keys, i)
    {
      forall u <- w.units[..i]
        ensures CanMoveTo(e0, Id(u, modes[u]), m0.anchors.Keys)
      {
        var j :| 0 <= j < i && w.units[j] == u;
        assert desired[..i][j] == desired[j];
      }
    }
  }

  /** A set whose active barriers are the desired ones already can move. */
  lemma ActiveCanMove(e: Files, w: Watch, m: Manifest, own: Own, modes: map<Unit, Kind>)
    requires StateTracks(e, w, m, own) && (forall u <- w.units :: u in modes)
    requires own.published == set id <- m.active
    requires m.active == Desired(w.units, modes)
    ensures CanMove(e, w.units, modes, m.anchors.Keys)
  {
    forall u <- w.units
      ensures PublicPath(Id(u, modes[u])) in e
    {
      var i :| 0 <= i < |w.units| && w.units[i] == u;
      assert m.active[i] in own.published;
    }
  }

  lemma ObstacleStopsMove(e: Files, w: Watch, m: Manifest, own: Own, modes: map<Unit, Kind>, i: nat)
    requires StateTracks(e, w, m, own) && w.found == {} && own.published <= own.anchors
    requires (forall u <- w.units :: u in modes) && FirstObstacle(e, w.units, modes, m.anchors.Keys, i)
    ensures !CanMove(e, w.units, modes, m.anchors.Keys) && !AllPreparable(e, w.units, modes, m.anchors.Keys)
  {
    var u := w.units[i];
    assert u in w.units && Id(u, modes[u]).unit in w.units;
    assert own.anchors <= m.anchors.Keys;
  }

  /** A set that stopped at an obstacle is as it was, or can no longer be loaded: the anchors made for the units before
      the obstacle are not in its manifest. */
  lemma StoppedAtObstacle(e0: Files, e: Files, w: Watch, m0: Manifest, own0: Own, m: Manifest, own: Own,
                          modes: map<Unit, Kind>, reached: nat)
    requires StateTracks(e, w, m, own) && (forall u <- w.units :: u in modes)
    requires DurableManifest(e, w.owner.token) == Some(m0)
    requires Halted(e0, e, m0, own0, own, w.units, modes, reached)
    ensures if DesiredSet(w.units[..reached], modes) <= m0.anchors.Keys then e == e0
            else Load(e, w.owner, w.units) == None
  {
    hide IsFree, AllPreparable, FirstObstacle, FreshDropIns, Backed, FoundIn, Unclaimed, CoversUnits, RecordsMatch;
    HaltedAtFirst(e0, e, m0, own0, own, w.units, modes, reached);
    if id :| id in DesiredSet(w.units[..reached], modes) && id !in m0.anchors {
      assert AnchorPath(w.owner.token, id) in e;
    }
  }

  /** Which of the two endings an obstacle brings about. */
  lemma ObstacleEnding(e: Files, units: seq<Unit>, modes: map<Unit, Kind>, anchors: set<Id>, i: nat)
    requires (forall u <- units :: u in modes) && FirstObstacle(e, units, modes, anchors, i)
    requires !CanMove(e, units, modes, anchors) && !AllPreparable(e, units, modes, anchors)
    ensures EndingOf(e, units, modes, anchors)
            == if DesiredSet(units[..i], modes) <= anchors then Untouched else Locked
  {
    hide FirstObstacle, CanMove, AllPreparable, DesiredSet;
    forall j: nat | FirstObstacle(e, units, modes, anchors, j)
      ensures i == j
    {
      OneFirstObstacle(e, units, modes, anchors, i, j);
      OneFirstObstacle(e, units, modes, anchors, j, i);
    }
  }

  lemma HaltedEnds(e0: Files, e: Files, w: Watch, m0: Manifest, own0: Own, m: Manifest, own: Own,
                   modes: map<Unit, Kind>, reached: nat)
    requires StateTracks(e0, w, m0, own0) && w.found == {} && own0.published <= own0.anchors
    requires StateTracks(e, w, m, own) && (forall u <- w.units :: u in modes)
    requires DurableManifest(e, w.owner.token) == Some(m0)
    requires Halted(e0, e, m0, own0, own, w.units, modes, reached)
    ensures Ends(EndingOf(e0, w.units, modes, m0.anchors.Keys), false, e0, e, w.base, w.owner, w.units, modes, m0, m)
  {
    hide StateTracks, Halted, FirstObstacle, CanMove, AllPreparable, DesiredSet, EndingOf, Load;
    HaltedAtFirst(e0, e, m0, own0, own, w.units, modes, reached);
    ObstacleStopsMove(e0, w, m0, own0, modes, reached);
    ObstacleEnding(e0, w.units, modes, m0.anchors.Keys, reached);
    StoppedAtObstacle(e0, e, w, m0, own0, m, own, modes, reached);
  }

  lemma MovedEnds(e0: Files, e: Files, base: Files, owner: Owner, units: seq<Unit>, modes: map<Unit, Kind>, m0: Manifest,
                  m: Manifest)
    requires (forall u <- units :: u in modes) && CanMove(e0, units, modes, m0.anchors.Keys)
    requires HeldSet(base, e, owner, units, modes, m) && m.anchors.Keys == m0.anchors.Keys + DesiredSet(units, modes)
    ensures Ends(EndingOf(e0, units, modes, m0.anchors.Keys), true, e0, e, base, owner, units, modes, m0, m)
  {
    hide CanMove, AllPreparable, HeldSet, DesiredSet, FirstObstacle;
  }

  lemma StuckCannotMove(e: Files, units: seq<Unit>, modes: map<Unit, Kind>, anchors: set<Id>, i: nat)
    requires (forall u <- units :: u in modes) && FirstStuck(e, units, modes, anchors, i)
    ensures !CanMove(e, units, modes, anchors)
  {
    assert units[i] in units;
  }

  lemma MidwayEnds(e0: Files, e: Files, base: Files, owner: Owner, units: seq<Unit>, modes: map<Unit, Kind>, m0: Manifest,
                   m: Manifest, i: nat)
    requires forall u <- units :: u in modes
    requires AllPreparable(e0, units, modes, m0.anchors.Keys)
    requires i < |units| && FirstStuck(e0, units, modes, m0.anchors.Keys, i)
    requires OwnedSet(base, e, owner, units, modes, m, (set id <- m0.active) + set id <- Desired(units, modes)[..i])
    requires m.phase.Transitioning? && m.anchors.Keys == m0.anchors.Keys + DesiredSet(units, modes)
    ensures Ends(EndingOf(e0, units, modes, m0.anchors.Keys), false, e0, e, base, owner, units, modes, m0, m)
  {
    hide CanMove, AllPreparable, OwnedSet, FirstObstacle, FirstStuck;
    StuckCannotMove(e0, units, modes, m0.anchors.Keys, i);
    DesiredPrefix(units, modes, i);
  }

  /** The transition of a set that is held. */
  method MoveHeld(host: Host, owner: Owner, units: seq<Unit>, modes: map<Unit, Kind>, m0: Manifest, ghost w: Watch,
                  ghost own0: Own)
    returns (ok: bool, m: Manifest)
    requires Tracks(host, w, m0, own0) && owner == w.owner && units == w.units && w.found == {}
    requires WellFormedUnits(units, modes) && m0.owner == owner && m0.units == units && m0.phase.Held?
    requires own0 == HeldOwn(owner.token, m0, (set id <- m0.active)) && own0.published <= own0.anchors
    requires forall id <- m0.anchors :: id.unit in units
    requires DurableManifest(host.entries, owner.token) == Some(m0)
    modifies host
    ensures host.Valid() && HistoryTracks(host.history, w)
    ensures Remains(host.entries, w, CreatedUnits(m0) + UnitSet(units))
    ensures ok ==> CreatedUnits(m) <= CreatedUnits(m0) + UnitSet(units)
    ensures ok ==> HeldSet(w.base, host.entries, owner, units, modes, m)
    ensures old(host.faults) == [] ==>
              && host.faults == []
              && Ends(EndingOf(old(host.entries), units, modes, m0.anchors.Keys), ok, old(host.entries), host.entries,
                      w.base, owner, units, modes, m0, m)
  {
    hide StateTracks, HistoryTracks, HeldSet, OwnedSet, PublicStateMatches, Load, BaseOf, IsReachable, HasRoom, Prepared,
         Halted, FreshDropIns, CanMove, AllReachable, CoversUnits, CreatedUnits, FirstObstacle, FirstUnreachable,
         FirstStuck, DesiredSet, AllPreparable, Remains, RecordsAtMost, UnitSet, EndingOf, Ends, WellFormedUnits, Extends;
    var active, loaded := m0.active, m0;
    ghost var own, reached, e0 := own0, 0, host.entries;
    DesiredCovers(units, modes);

    ok, loaded, own, reached := PrepareMissing(host, owner, units, modes, loaded, w, own);
    m := loaded;
    RecordedBefore(host.entries, owner.token, m0, own.created);
    Remaining(host.entries, w, loaded, own, CreatedUnits(m0) + UnitSet(units));
    if !ok {
      if old(host.faults) == [] {
        HaltedEnds(e0, host.entries, w, m0, own0, loaded, own, modes, reached);
      }
      return;
    }
    PreparedFacts(e0, host.entries, m0, own0, loaded, own, units, modes);
    if Desired(units, modes) == active {
      ActiveCanMove(e0, w, m0, own0, modes);
      TrackedSetIsHeld(host.entries, w, m, own, modes);
      MovedEnds(e0, host.entries, w.base, owner, units, modes, m0, m);
      return;
    }
    PreparedCanMove(e0, host.entries, w, m0, own0, loaded, own, modes);
    ok, m, reached := MoveBarriers(host, owner, units, modes, loaded, w, own);
    MoreRemains(host.entries, w, own.created, CreatedUnits(m0) + UnitSet(units));
    SameCreated(loaded, m);
    if ok {
      MovedEnds(e0, host.entries, w.base, owner, units, modes, m0, m);
    } else if old(host.faults) == [] {
      MidwayEnds(e0, host.entries, w.base, owner, units, modes, m0, m, reached);
    }
  }

  /** What later operations make of a set after a transition that no fault hit: another transition is accepted exactly if
      this one succeeded or changed nothing, and removal exactly if it left no unrecorded anchor. */
  lemma AfterEnding(ending: Ending, ok: bool, e0: Files, e: Files, base: Files, owner: Owner, units: seq<Unit>,
                    modes: map<Unit, Kind>, m0: Manifest, m: Manifest)
    requires WellFormedUnits(units, modes) && (forall u <- units :: u in modes)
    requires IsHeld(e0, owner, units) && Ends(ending, ok, e0, e, base, owner, units, modes, m0, m)
    ensures IsHeld(e, owner, units) <==> ending.Moved? || ending.Untouched?
    ensures MayRemove(e, owner, units, false) <==> !ending.Locked?
  {
    hide Load, HeldSet, OwnedSet, CanMove, CanMoveTo, DesiredSet, WellFormedUnits, PublicStateMatches;
    match ending
    case Moved =>
      HeldIsAccepted(base, e, owner, units, modes, m);
      HeldIsPublic(e, m);
    case Untouched =>
      HeldIsPublic(e, Load(e, owner, units).value);
    case Locked =>
    case Midway =>
      var i: nat :| FirstStuck(e0, units, modes, m0.anchors.Keys, i)
                    && OwnedSet(base, e, owner, units, modes, m, (set id <- m0.active) + DesiredSet(units[..i], modes));
      var published := (set id <- m0.active) + DesiredSet(units[..i], modes);
      OwnedIsLoaded(base, e, owner, units, modes, m, published);
      OwnedIsPublic(base, e, owner, units, modes, m, published);
  }

  lemma HeldIsPublic(e: Files, m: Manifest)
    requires PublicStateMatches(e, m, true)
    ensures PublicStateMatches(e, m, false)
  {
  }

  lemma OwnedIsPublic(base: Files, e: Files, owner: Owner, units: seq<Unit>, modes: map<Unit, Kind>, m: Manifest,
                      published: set<Id>)
    requires (forall u <- units :: u in modes) && OwnedSet(base, e, owner, units, modes, m, published)
    requires !m.phase.Held?
    ensures PublicStateMatches(e, m, false)
  {
    hide DesiredSet, Desired, IsBarrier;
    forall id: Id | id.unit in units && PublicPath(id) in e
      ensures id in m.anchors && IsBarrier(e[PublicPath(id)], id, m.anchors[id])
    {
      assert id in HeldOwn(owner.token, m, published).published;
    }
    forall u <- units
      ensures MaskPath(u) in e ==> Id(u, Mask) in m.anchors
      ensures ConditionPath(u) in e ==> Id(u, Condition) in m.anchors
    {
      assert PublicPath(Id(u, Mask)) == MaskPath(u) && PublicPath(Id(u, Condition)) == ConditionPath(u);
    }
  }

  /** Moves a held set of barriers to the desired modes. Whatever step fails, no unit is ever left without a recorded
      barrier, and nothing that is not this owner's is touched. */
  method Transition(host: Host, owner: Owner, units: seq<Unit>, modes: map<Unit, Kind>)
    returns (ok: bool, m: Manifest)
    requires host.Valid()
    modifies host
    ensures host.Valid()
    ensures !(old(IsHeld(host.entries, owner, units)) && WellFormedUnits(units, modes)) ==>
              !ok && host.history == old(host.history)
    ensures old(IsHeld(host.entries, owner, units)) && WellFormedUnits(units, modes) ==>
              var m0 := old(Load(host.entries, owner, units).value);
              && HistoryTracks(host.history, old(WatchFrom(host, owner, Load(host.entries, owner, units).value, units, true)))
              && Remains(host.entries, old(WatchFrom(host, owner, Load(host.entries, owner, units).value, units, true)),
                         CreatedUnits(m0) + UnitSet(units))
              && (ok ==> HeldSet(old(BaseOf(host.entries, owner.token, Load(host.entries, owner, units).value)),
                                 host.entries, owner, units, modes, m)
                         && CreatedUnits(m) <= CreatedUnits(m0) + UnitSet(units))
    ensures old(host.faults) == [] ==> host.faults == []
    ensures old(host.faults) == [] && old(IsHeld(host.entries, owner, units)) && WellFormedUnits(units, modes) ==>
              var m0 := old(Load(host.entries, owner, units).value);
              var ending := EndingOf(old(host.entries), units, modes, m0.anchors.Keys);
              && Ends(ending, ok, old(host.entries), host.entries, BaseOf(old(host.entries), owner.token, m0), owner, units,
                      modes, m0, m)
              && (IsHeld(host.entries, owner, units) <==> ending.Moved? || ending.Untouched?)
              && (MayRemove(host.entries, owner, units, false) <==> !ending.Locked?)
  {
    hide StateTracks, HistoryTracks, HeldSet, OwnedSet, PublicStateMatches, Load, BaseOf, IsReachable, HasRoom,
         KeepsDropIns, FreshDropIns, EndingOf, Ends, CanMove, MayRemove, Remains, DesiredSet, CreatedUnits;
    m := Manifest(owner, units, Publishing, map[], [], []);
    if !WellFormedUnits(units, modes) || !IsHeld(host.entries, owner, units) {
      return false, m;
    }
    var loaded := Load(host.entries, owner, units).value;
    ghost var w, e0 := WatchFrom(host, owner, loaded, units, true), host.entries;
    ghost var own := HeldOwn(owner.token, loaded, (set id <- loaded.active));
    HeldFacts(host.entries, owner, units, w);
    HistoryStarts(host.entries, host.history, w, loaded, own);
    DesiredCovers(units, modes);
    ok, m := MoveHeld(host, owner, units, modes, loaded, w, own);
    if old(host.faults) == [] {
      AfterEnding(EndingOf(e0, units, modes, loaded.anchors.Keys), ok, e0, host.entries, w.base, owner, units, modes,
                  loaded, m);
    }
  }

  // ----- A held set that a transition locks, and one that it leaves midway --------------------------------------

  function MaskedPair(owner: Owner, a: Unit, b: Unit): Manifest {
    Manifest(owner, [a, b], Held, map[Id(a, Mask) := 1, Id(b, Mask) := 2], [Id(a, Mask), Id(b, Mask)], [])
  }

  /** Two masked units, where a plain file stands in the place of the second one's drop-in directory. */
  predicate IsMaskedPair(e: Files, owner: Owner, a: Unit, b: Unit) {
    && AnchorPath(owner.token, Id(a, Mask)) in e && e[AnchorPath(owner.token, Id(a, Mask))] == Node(1, DevNullLink)
    && AnchorPath(owner.token, Id(b, Mask)) in e && e[AnchorPath(owner.token, Id(b, Mask))] == Node(2, DevNullLink)
    && MaskPath(a) in e && e[MaskPath(a)] == Node(1, DevNullLink)
    && MaskPath(b) in e && e[MaskPath(b)] == Node(2, DevNullLink)
    && DurableManifest(e, owner.token) == Some(MaskedPair(owner, a, b))
    && IsDirectoryAt(e, OwnerDir(owner.token)) && IsDirectoryAt(e, AnchorsDir(owner.token))
    && DropInDir(b) in e && e[DropInDir(b)].body.OtherFile?
    && (forall p <- e :: p in {OwnerDir(owner.token), AnchorsDir(owner.token), ManifestPath(owner.token),
                               AnchorPath(owner.token, Id(a, Mask)), AnchorPath(owner.token, Id(b, Mask)),
                               MaskPath(a), MaskPath(b), DropInDir(b)})
  }

  lemma MaskedPairRecords(e: Files, owner: Owner, a: Unit, b: Unit)
    requires a != b && IsMaskedPair(e, owner, a, b)
    ensures RecordsMatch(e, owner, MaskedPair(owner, a, b))
  {
    var m := MaskedPair(owner, a, b);
    assert m.active[0] in m.active && m.active[1] in m.active;
  }

  lemma MaskedPairDirectory(e: Files, owner: Owner, a: Unit, b: Unit)
    requires a != b && IsMaskedPair(e, owner, a, b)
    ensures OwnerDirectoryMatches(e, owner, MaskedPair(owner, a, b))
  {
  }

  lemma MaskedPairIsPublic(e: Files, owner: Owner, a: Unit, b: Unit)
    requires a != b && IsMaskedPair(e, owner, a, b)
    ensures PublicStateMatches(e, MaskedPair(owner, a, b), true)
  {
  }

  function MaskedPairFiles(owner: Owner, a: Unit, b: Unit): Files {
    map[OwnerDir(owner.token) := Node(3, Directory), AnchorsDir(owner.token) := Node(4, Directory),
        ManifestPath(owner.token) := Node(5, ManifestFile(MaskedPair(owner, a, b))),
        AnchorPath(owner.token, Id(a, Mask)) := Node(1, DevNullLink), MaskPath(a) := Node(1, DevNullLink),
        AnchorPath(owner.token, Id(b, Mask)) := Node(2, DevNullLink), MaskPath(b) := Node(2, DevNullLink),
        DropInDir(b) := Node(6, OtherFile(0))]
  }

  lemma MaskedPairExists(owner: Owner, a: Unit, b: Unit)
    requires a != b
    ensures IsMaskedPair(MaskedPairFiles(owner, a, b), owner, a, b)
  {
  }

  function BothConditions(a: Unit, b: Unit): map<Unit, Kind> {
    map[a := Condition, b := Condition]
  }

  lemma MaskedPairBlocks(e: Files, owner: Owner, a: Unit, b: Unit)
    requires a != b && IsMaskedPair(e, owner, a, b)
    ensures WellFormedUnits([a, b], BothConditions(a, b))
    ensures IsFree(e, Id(a, Condition)) && !CanMoveTo(e, Id(b, Condition), MaskedPair(owner, a, b).anchors.Keys)
  {
    assert BothConditions(a, b).Keys == set u <- [a, b];
  }

  /** Moving that held set to condition barriers stops at the second unit after making the first one's anchor, so that
      the set can no longer be loaded. */
  lemma ATransitionCanLockASet(e: Files, owner: Owner, a: Unit, b: Unit)
    requires a != b && IsMaskedPair(e, owner, a, b)
    ensures IsHeld(e, owner, [a, b]) && WellFormedUnits([a, b], BothConditions(a, b))
    ensures Load(e, owner, [a, b]) == Some(MaskedPair(owner, a, b))
    ensures EndingOf(e, [a, b], BothConditions(a, b), MaskedPair(owner, a, b).anchors.Keys) == Locked
  {
    hide RecordsMatch, OwnerDirectoryMatches, PublicStateMatches, WellFormedUnits, HasRoom;
    MaskedPairRecords(e, owner, a, b);
    MaskedPairDirectory(e, owner, a, b);
    MaskedPairIsPublic(e, owner, a, b);
    MaskedPairBlocks(e, owner, a, b);
    assert [a, b][..1] == [a];
    var units, modes, anchors := [a, b], BothConditions(a, b), MaskedPair(owner, a, b).anchors.Keys;
    assert Id(a, Condition) in DesiredSet(units[..1], modes);
    assert FirstObstacle(e, units, modes, anchors, 1);
    ObstacleEnding(e, units, modes, anchors, 1);
  }

  /** The same seen from the host: without any fault, what the transition leaves can be neither loaded, moved nor
      removed. */
  method LockMaskedPair(host: Host, owner: Owner, a: Unit, b: Unit) returns (ok: bool)
    requires host.Valid() && host.faults == [] && a != b && IsMaskedPair(host.entries, owner, a, b)
    modifies host
    ensures !ok && Load(host.entries, owner, [a, b]) == None
    ensures !IsHeld(host.entries, owner, [a, b]) && !MayRemove(host.entries, owner, [a, b], false)
  {
    hide IsMaskedPair, Load, WellFormedUnits, EndingOf, HistoryTracks, Remains, BaseOf, PublicStateMatches;
    ATransitionCanLockASet(host.entries, owner, a, b);
    var m;
    ok, m := Transition(host, owner, [a, b], BothConditions(a, b));
  }

  function MaskedUnit(owner: Owner, a: Unit): Manifest {
    Manifest(owner, [a], Held, map[Id(a, Mask) := 1, Id(a, Condition) := 2], [Id(a, Mask)], [])
  }

  /** One unit that is masked now and had a condition barrier before, where its drop-in directory has since been replaced
      by a plain file. */
  function MaskedUnitFiles(owner: Owner, a: Unit): Files {
    map[OwnerDir(owner.token) := Node(3, Directory), AnchorsDir(owner.token) := Node(4, Directory),
        ManifestPath(owner.token) := Node(5, ManifestFile(MaskedUnit(owner, a))),
        AnchorPath(owner.token, Id(a, Mask)) := Node(1, DevNullLink), MaskPath(a) := Node(1, DevNullLink),
        AnchorPath(owner.token, Id(a, Condition)) := Node(2, ConditionFile(owner, a)),
        DropInDir(a) := Node(6, OtherFile(0))]
  }

  lemma MaskedUnitLoads(owner: Owner, a: Unit)
    ensures Load(MaskedUnitFiles(owner, a), owner, [a]) == Some(MaskedUnit(owner, a))
  {
    assert MaskedUnit(owner, a).active[0] == Id(a, Mask);
  }

  lemma MaskedUnitIsPublic(owner: Owner, a: Unit)
    ensures PublicStateMatches(MaskedUnitFiles(owner, a), MaskedUnit(owner, a), true)
  {
  }

  lemma MaskedUnitIsStuck(owner: Owner, a: Unit)
    ensures !CanMoveTo(MaskedUnitFiles(owner, a), Id(a, Condition), MaskedUnit(owner, a).anchors.Keys)
  {
  }

  /** Moving it back to a condition barrier stops after the transitioning manifest is durable, without any obstacle to a
      new anchor: the set can be removed, but never moved again. */
  lemma ATransitionCanStopMidway(owner: Owner, a: Unit)
    ensures var e, modes := MaskedUnitFiles(owner, a), map[a := Condition];
            && IsHeld(e, owner, [a]) && WellFormedUnits([a], modes)
            && Load(e, owner, [a]) == Some(MaskedUnit(owner, a))
            && EndingOf(e, [a], modes, MaskedUnit(owner, a).anchors.Keys) == Midway
  {
    hide MaskedUnitFiles, Load, PublicStateMatches, CanMoveTo, IsFree;
    MaskedUnitLoads(owner, a);
    MaskedUnitIsPublic(owner, a);
    MaskedUnitIsStuck(owner, a);
    assert a in [a];
    assert map[a := Condition].Keys == set u <- [a];
  }
}
