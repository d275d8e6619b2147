/** Installing, moving and removing a set of start barriers. */
module BarrierProtocol {
  import opened Prelude
  import opened StartBarrier
  import opened BarrierOperations

  function Desired(units: seq<Unit>, modes: map<Unit, Kind>): seq<Id>
    requires forall u <- units :: u in modes
  {
    seq(|units|, i requires 0 <= i < |units| => Id(units[i], modes[units[i]]))
  }

  function DesiredSet(units: seq<Unit>, modes: map<Unit, Kind>): set<Id>
    requires forall u <- units :: u in modes
  {
    set u <- units :: Id(u, modes[u])
  }

  function UnitSet(units: seq<Unit>): set<Unit> {
    set u <- units
  }

  /** What belongs to the owner in a file system whose manifest is `m`. */
  ghost function OwnOf(e: Files, token: string, m: Manifest): Own {
    Own({OwnerDir(token), AnchorsDir(token), ManifestPath(token)}, m.anchors.Keys,
        (set id <- m.anchors | PublicPath(id) in e), CreatedUnits(m))
  }

  /** Everything else. */
  ghost function BaseOf(e: Files, token: string, m: Manifest): Files {
    map p <- e | !OwnOf(e, token, m).Includes(token, p) :: e[p]
  }

  ghost function WatchFrom(host: Host, owner: Owner, m: Manifest, units: seq<Unit>, cover: bool): Watch
    requires host.Valid()
    reads host
  {
    Watch(host.history, BaseOf(host.entries, owner.token, m), owner, units, {}, cover)
  }

  lemma LoadedStateIsArranged(e: Files, owner: Owner, units: seq<Unit>, m: Manifest)
    requires Load(e, owner, units) == Some(m) && PublicStateMatches(e, m, false)
    ensures Arranged(BaseOf(e, owner.token, m), e, owner, m, OwnOf(e, owner.token, m))
    ensures FoundIn(BaseOf(e, owner.token, m), units, {}) && Unclaimed(BaseOf(e, owner.token, m), owner.token)
  {
    NothingElseIsPrivate(e, owner, m);
    hide OwnerDirectoryMatches;
    assert forall p <- {OwnerDir(owner.token), AnchorsDir(owner.token), ManifestPath(owner.token)} ::
        IsPrivate(owner.token, p) && p in e && IsPrivateBody(p, e[p].body) by {
      OwnerFilesArePresent(e, owner, m);
    }
  }

  lemma NothingElseIsPrivate(e: Files, owner: Owner, m: Manifest)
    requires OwnerDirectoryMatches(e, owner, m)
    ensures Unclaimed(BaseOf(e, owner.token, m), owner.token)
  {
  }

  lemma OwnerFilesArePresent(e: Files, owner: Owner, m: Manifest)
    requires OwnerDirectoryMatches(e, owner, m)
    ensures IsDirectoryAt(e, OwnerDir(owner.token)) && IsDirectoryAt(e, AnchorsDir(owner.token))
    ensures ManifestPath(owner.token) in e
  {
  }

  lemma HeldActiveIsPublished(e: Files, owner: Owner, units: seq<Unit>, m: Manifest)
    requires Load(e, owner, units) == Some(m) && PublicStateMatches(e, m, true) && units != []
    ensures OwnOf(e, owner.token, m).published == set id <- m.active
    ensures CoversUnits(OwnOf(e, owner.token, m).published, units) && OwnOf(e, owner.token, m).published != {}
  {
    hide OwnerDirectoryMatches;
    var own := OwnOf(e, owner.token, m);
    forall u <- units
      ensures exists id <- own.published :: id.unit == u
    {
      var id :| id in m.active && id.unit == u;
      assert id in own.published;
    }
    assert units[0] in units;
  }

  /** A manifest that passes the checks describes the files it names, and nothing foreign bars its units. */
  lemma LoadedStateTracks(e: Files, owner: Owner, units: seq<Unit>, m: Manifest, past: seq<Files>, cover: bool)
    requires Load(e, owner, units) == Some(m) && PublicStateMatches(e, m, cover)
    requires cover ==> units != []
    ensures StateTracks(e, Watch(past, BaseOf(e, owner.token, m), owner, units, {}, cover), m, OwnOf(e, owner.token, m))
  {
    LoadedStateIsArranged(e, owner, units, m);
    if cover {
      HeldActiveIsPublished(e, owner, units, m);
    }
    hide Arranged, FoundIn, Unclaimed, BaseOf, OwnerDirectoryMatches, PublicStateMatches, RecordsMatch, CoversUnits;
  }

  /** The drop-in directories that preparing the missing barriers of these units creates. */
  ghost function FreshDropIns(e: Files, units: seq<Unit>, modes: map<Unit, Kind>, anchors: set<Id>): set<Unit>
    requires forall u <- units :: u in modes
  {
    set u <- units | Id(u, modes[u]) !in anchors && modes[u].Condition? && DropInDir(u) !in e
  }

  /** What preparing one barrier leaves as it was for the others. */
  lemma StillFree(e0: Files, e: Files, w: Watch, m0: Manifest, own0: Own, m: Manifest, own: Own, id: Id)
    requires StateTracks(e0, w, m0, own0) && StateTracks(e, w, m, own) && own0.published == own.published
    requires SameRoom(e0, e)
    ensures IsFree(e0, id) <==> IsFree(e, id)
  {
  }

  lemma DropInsOnlyAppear(e0: Files, e: Files, w: Watch, m0: Manifest, own0: Own, m: Manifest, own: Own, unit: Unit,
                          added: set<Unit>)
    requires StateTracks(e0, w, m0, own0) && StateTracks(e, w, m, own) && own.created == own0.created + added
    requires unit !in added
    ensures DropInDir(unit) in e0 <==> DropInDir(unit) in e
  {
  }

  /** Every barrier of these units has an anchor or can be prepared. */
  predicate AllPreparable(e: Files, units: seq<Unit>, modes: map<Unit, Kind>, anchors: set<Id>)
    requires forall u <- units :: u in modes
  {
    forall u <- units :: Id(u, modes[u]) in anchors || IsFree(e, Id(u, modes[u]))
  }

  /** Where preparing the barriers of `units` has led from `e0`, `m0` and `own0`. */
  ghost predicate Prepared(e0: Files, e: Files, m0: Manifest, own0: Own, m: Manifest, own: Own, units: seq<Unit>,
                           modes: map<Unit, Kind>)
    requires forall u <- units :: u in modes
  {
    && KeepsDropIns(e0, e) && SameRoom(e0, e)
    && m == m0.(anchors := m.anchors, created := m.created) && Extends(m0, m)
    && own == own0.(anchors := m.anchors.Keys, created := CreatedUnits(m))
    && m.anchors.Keys == m0.anchors.Keys + DesiredSet(units, modes)
    && (DesiredSet(units, modes) <= m0.anchors.Keys ==> m == m0 && e == e0)
    && (forall u <- units :: Id(u, modes[u]) !in m0.anchors ==>
          IsFree(e0, Id(u, modes[u])) && IsReachable(e, Id(u, modes[u])))
    && own.created == own0.created + FreshDropIns(e0, units, modes, m0.anchors.Keys)
  }

  /** The first unit whose barrier has no anchor and cannot be prepared. */
  predicate FirstObstacle(e: Files, units: seq<Unit>, modes: map<Unit, Kind>, anchors: set<Id>, i: nat)
    requires forall u <- units :: u in modes
  {
    && i < |units| && AllPreparable(e, units[..i], modes, anchors)
    && Id(units[i], modes[units[i]]) !in anchors && !IsFree(e, Id(units[i], modes[units[i]]))
  }

  lemma OneFirstObstacle(e: Files, units: seq<Unit>, modes: map<Unit, Kind>, anchors: set<Id>, i: nat, j: nat)
    requires forall u <- units :: u in modes
    requires FirstObstacle(e, units, modes, anchors, i) && FirstObstacle(e, units, modes, anchors, j)
    ensures i <= j
  {
    hide IsFree;
    PastNoObstacle(e, units, modes, anchors, i, j);
  }

  lemma PastNoObstacle(e: Files, units: seq<Unit>, modes: map<Unit, Kind>, anchors: set<Id>, i: nat, n: nat)
    requires forall u <- units :: u in modes
    requires FirstObstacle(e, units, modes, anchors, i)
    requires n <= |units| && AllPreparable(e, units[..n], modes, anchors)
    ensures n <= i
  {
    hide IsFree;
  }

  /** Preparing the units stopped at an obstacle, with exactly the barriers before it prepared. */
  ghost predicate Halted(e0: Files, e: Files, m0: Manifest, own0: Own, own: Own, units: seq<Unit>,
                         modes: map<Unit, Kind>, reached: nat)
    requires forall u <- units :: u in modes
  {
    && FirstObstacle(e0, units, modes, m0.anchors.Keys, reached)
    && own == own0.(anchors := m0.anchors.Keys + DesiredSet(units[..reached], modes),
                    created := own0.created + FreshDropIns(e0, units[..reached], modes, m0.anchors.Keys))
    && (DesiredSet(units[..reached], modes) <= m0.anchors.Keys ==> e == e0)
  }

  lemma HaltedAtFirst(e0: Files, e: Files, m0: Manifest, own0: Own, own: Own, units: seq<Unit>,
                      modes: map<Unit, Kind>, reached: nat)
    requires (forall u <- units :: u in modes) && Halted(e0, e, m0, own0, own, units, modes, reached)
    ensures FirstObstacle(e0, units, modes, m0.anchors.Keys, reached)
  {
  }

  lemma PreparingNone(e0: Files, m0: Manifest, own0: Own, modes: map<Unit, Kind>)
    requires own0.anchors == m0.anchors.Keys && own0.created == CreatedUnits(m0)
    ensures Prepared(e0, e0, m0, own0, m0, own0, [], modes)
  {
    assert DesiredSet([], modes) == {} && FreshDropIns(e0, [], modes, m0.anchors.Keys) == {};
  }

  /** A barrier that has no anchor by now had none at the start, and is as free as it was. */
  lemma PreparingGoesOn(e0: Files, e: Files, w: Watch, m0: Manifest, own0: Own, m: Manifest, own: Own, units: seq<Unit>,
                        modes: map<Unit, Kind>, i: nat)
    requires WellFormedUnits(units, modes) && i < |units|
    requires StateTracks(e0, w, m0, own0) && StateTracks(e, w, m, own)
    requires Prepared(e0, e, m0, own0, m, own, units[..i], modes)
    requires Id(units[i], modes[units[i]]) !in m.anchors
    ensures var id := Id(units[i], modes[units[i]]);
            id !in m0.anchors && (IsFree(e0, id) <==> IsFree(e, id)) && (DropInDir(id.unit) in e0 <==> DropInDir(id.unit) in e)
  {
    hide StateTracks, SameRoom, HasRoom, IsFree, DesiredSet, FreshDropIns, CreatedUnits;
    NextUnit(e0, units, modes, m0.anchors.Keys, i);
    var id := Id(units[i], modes[units[i]]);
    StillFree(e0, e, w, m0, own0, m, own, id);
    DropInsOnlyAppear(e0, e, w, m0, own0, m, own, id.unit, FreshDropIns(e0, units[..i], modes, m0.anchors.Keys));
  }

  lemma PreparingOneMore(e0: Files, e: Files, e': Files, w: Watch, m0: Manifest, own0: Own, m: Manifest, own: Own,
                         m': Manifest, own': Own, units: seq<Unit>, modes: map<Unit, Kind>, i: nat)
    requires WellFormedUnits(units, modes) && i < |units|
    requires StateTracks(e0, w, m0, own0) && StateTracks(e, w, m, own)
    requires Prepared(e0, e, m0, own0, m, own, units[..i], modes)
    requires KeepsDropIns(e, e') && SameRoom(e, e')
    requires var id := Id(units[i], modes[units[i]]);
             id !in m.anchors && IsFree(e, id) && IsReachable(e', id) && m'.anchors.Keys == m.anchors.Keys + {id}
             && CreatedUnits(m') == CreatedUnits(m) + Fresh(e, id) && own'.created == own.created + Fresh(e, id)
    requires m' == m.(anchors := m'.anchors, created := m'.created) && Extends(m, m')
    requires own' == own.(anchors := m'.anchors.Keys, created := own'.created)
    ensures Prepared(e0, e', m0, own0, m', own', units[..i + 1], modes)
  {
    hide StateTracks, SameRoom, HasRoom, IsFree, DesiredSet, FreshDropIns, CreatedUnits;
    NextUnit(e0, units, modes, m0.anchors.Keys, i);
    SameRoomIsTransitive(e0, e, e');
    assert units[..i + 1] == units[..i] + [units[i]];
    PreparingGoesOn(e0, e, w, m0, own0, m, own, units, modes, i);
  }

  lemma PreparingNoMore(e0: Files, e: Files, m0: Manifest, own0: Own, m: Manifest, own: Own, units: seq<Unit>,
                        modes: map<Unit, Kind>, i: nat)
    requires WellFormedUnits(units, modes) && i < |units|
    requires Prepared(e0, e, m0, own0, m, own, units[..i], modes)
    requires Id(units[i], modes[units[i]]) in m.anchors
    ensures Prepared(e0, e, m0, own0, m, own, units[..i + 1], modes)
  {
    hide SameRoom, IsFree, DesiredSet, FreshDropIns, CreatedUnits;
    NextUnit(e0, units, modes, m0.anchors.Keys, i);
    assert units[..i + 1] == units[..i] + [units[i]];
  }

  lemma PreparingStops(e0: Files, e: Files, m0: Manifest, own0: Own, m: Manifest, own: Own, units: seq<Unit>,
                       modes: map<Unit, Kind>, i: nat)
    requires WellFormedUnits(units, modes) && i < |units|
    requires Prepared(e0, e, m0, own0, m, own, units[..i], modes)
    requires var id := Id(units[i], modes[units[i]]); id !in m0.anchors && !IsFree(e0, id)
    ensures Halted(e0, e, m0, own0, own, units, modes, i)
  {
  }

  /** Prepares the barrier of one unit, unless it has an anchor. */
  method PrepareUnit(host: Host, owner: Owner, units: seq<Unit>, modes: map<Unit, Kind>, i: nat, m1: Manifest,
                     ghost w: Watch, ghost e0: Files, ghost m0: Manifest, ghost own0: Own, ghost own1: Own)
    returns (ok: bool, m: Manifest, ghost own: Own)
    requires WellFormedUnits(units, modes) && i < |units|
    requires Tracks(host, w, m1, own1) && StateTracks(e0, w, m0, own0) && owner == w.owner
    requires Prepared(e0, host.entries, m0, own0, m1, own1, units[..i], modes)
    requires AnchorsDir(owner.token) in own0.private
    modifies host
    ensures Tracks(host, w, m, own)
    ensures DurableManifest(host.entries, owner.token) == old(DurableManifest(host.entries, owner.token))
    ensures m == m0.(anchors := m.anchors, created := m.created) && Extends(m0, m)
    ensures own == own0.(anchors := own.anchors, created := own.created)
    ensures own1.created <= own.created <= own1.created + {units[i]}
    ensures ok ==> Prepared(e0, host.entries, m0, own0, m, own, units[..i + 1], modes)
    ensures old(host.faults) == [] ==>
              && host.faults == []
              && (!ok ==> Halted(e0, host.entries, m0, own0, own, units, modes, i))
  {
    hide StateTracks, HistoryTracks, Prepared, Halted, KeepsDropIns, SameRoom, IsFree, IsReachable, CreatedUnits, Fresh,
         DurableManifest, WellFormedUnits;
    UnitsHaveModes(units, modes);
    PreparedShape(e0, host.entries, m0, own0, m1, own1, units[..i], modes);
    var id := Id(units[i], modes[units[i]]);
    ghost var e := host.entries;
    if id in m1.anchors {
      PreparingNoMore(e0, e, m0, own0, m1, own1, units, modes, i);
      return true, m1, own1;
    }
    PreparingGoesOn(e0, e, w, m0, own0, m1, own1, units, modes, i);
    ok, m, own := PrepareBarrier(host, owner, id, m1, w, own1);
    if ok {
      PreparingOneMore(e0, e, host.entries, w, m0, own0, m1, own1, m, own, units, modes, i);
    } else if old(host.faults) == [] {
      PreparingStops(e0, e, m0, own0, m1, own1, units, modes, i);
    }
  }

  /** Prepares every desired barrier that has no anchor yet; `reached` of them can be had before the first obstacle. */
  method PrepareMissing(host: Host, owner: Owner, units: seq<Unit>, modes: map<Unit, Kind>, m0: Manifest,
                        ghost w: Watch, ghost own0: Own)
    returns (ok: bool, m: Manifest, ghost own: Own, ghost reached: nat)
    requires Tracks(host, w, m0, own0) && owner == w.owner && WellFormedUnits(units, modes)
    requires own0.anchors == m0.anchors.Keys && own0.created == CreatedUnits(m0)
    requires AnchorsDir(owner.token) in own0.private
    modifies host
    ensures Tracks(host, w, m, own)
    ensures DurableManifest(host.entries, owner.token) == old(DurableManifest(host.entries, owner.token))
    ensures m == m0.(anchors := m.anchors, created := m.created) && Extends(m0, m)
    ensures own == own0.(anchors := own.anchors, created := own.created)
    ensures own0.created <= own.created <= own0.created + UnitSet(units)
    ensures reached <= |units| && (ok <==> reached == |units|)
    ensures ok ==> Prepared(old(host.entries), host.entries, m0, own0, m, own, units, modes)
    ensures old(host.faults) == [] ==>
              && host.faults == []
              && (!ok ==> Halted(old(host.entries), host.entries, m0, own0, own, units, modes, reached))
  {
    PreparingNone(host.entries, m0, own0, modes);
    hide StateTracks, HistoryTracks, Prepared, Halted, IsFree, DesiredSet, FreshDropIns, CreatedUnits, Extends,
         WellFormedUnits, DurableManifest;
    ghost var e0 := host.entries;
    m, own, reached := m0, own0, 0;
    assert units[..0] == [];
    assert forall u <- units :: u in modes by {
      DesiredCovers(units, modes);
    }
    for i := 0 to |units|
      invariant Tracks(host, w, m, own) && StateTracks(e0, w, m0, own0)
      invariant reached == i && Prepared(e0, host.entries, m0, own0, m, own, units[..i], modes)
      invariant DurableManifest(host.entries, owner.token) == DurableManifest(e0, owner.token)
      invariant own0.created <= own.created <= own0.created + UnitSet(units)
      invariant old(host.faults) == [] ==> host.faults == []
    {
      ok, m, own := PrepareUnit(host, owner, units, modes, i, m, w, e0, m0, own0, own);
      if !ok {
        return;
      }
      reached := i + 1;
    }
    assert units[..|units|] == units;
    PreparedFacts(e0, host.entries, m0, own0, m, own, units, modes);
    ok := true;
  }

  lemma UnitsHaveModes(units: seq<Unit>, modes: map<Unit, Kind>)
    requires WellFormedUnits(units, modes)
    ensures forall u <- units :: u in modes
  {
  }

  lemma PreparedShape(e0: Files, e: Files, m0: Manifest, own0: Own, m: Manifest, own: Own, units: seq<Unit>,
                      modes: map<Unit, Kind>)
    requires (forall u <- units :: u in modes) && Prepared(e0, e, m0, own0, m, own, units, modes)
    ensures m == m0.(anchors := m.anchors, created := m.created) && Extends(m0, m)
    ensures own == own0.(anchors := m.anchors.Keys, created := CreatedUnits(m))
  {
  }

  lemma PreparedFacts(e0: Files, e: Files, m0: Manifest, own0: Own, m: Manifest, own: Own, units: seq<Unit>,
                      modes: map<Unit, Kind>)
    requires (forall u <- units :: u in modes) && Prepared(e0, e, m0, own0, m, own, units, modes)
    ensures m == m0.(anchors := m.anchors, created := m.created) && Extends(m0, m)
    ensures own == own0.(anchors := m.anchors.Keys, created := CreatedUnits(m))
    ensures m.anchors.Keys == m0.anchors.Keys + DesiredSet(units, modes)
    ensures DesiredSet(units, modes) <= m0.anchors.Keys ==> m == m0 && e == e0
    ensures own.created == own0.created + FreshDropIns(e0, units, modes, m0.anchors.Keys)
    ensures AllPreparable(e0, units, modes, m0.anchors.Keys)
  {
  }

  lemma SameRoomIsTransitive(e: Files, e': Files, e'': Files)
    requires SameRoom(e, e')
    ensures SameRoom(e', e'') ==> SameRoom(e, e'')
  {
  }

  /** One more unit of a list without repetitions. */
  lemma NextUnit(e: Files, units: seq<Unit>, modes: map<Unit, Kind>, anchors: set<Id>, i: nat)
    requires WellFormedUnits(units, modes) && i < |units|
    ensures var id := Id(units[i], modes[units[i]]);
            && DesiredSet(units[..i + 1], modes) == DesiredSet(units[..i], modes) + {id}
            && id !in DesiredSet(units[..i], modes)
            && id.unit !in FreshDropIns(e, units[..i], modes, anchors)
            && FreshDropIns(e, units[..i + 1], modes, anchors)
               == FreshDropIns(e, units[..i], modes, anchors) + (if id in anchors then {} else Fresh(e, id))
  {
  }

  /** Every one of these barriers is published already, or its directory is there. */
  predicate AllReachable(e: Files, ids: seq<Id>) {
    forall id <- ids :: PublicPath(id) in e || IsReachable(e, id)
  }

  /** The first of these barriers that is neither published nor has its directory. */
  predicate FirstUnreachable(e: Files, ids: seq<Id>, i: nat) {
    i < |ids| && AllReachable(e, ids[..i]) && PublicPath(ids[i]) !in e && !IsReachable(e, ids[i])
  }

  /** Publishes every desired barrier that is not published yet; `reached` of them come before the first that cannot. */
  method PublishDesired(host: Host, owner: Owner, desired: seq<Id>, m: Manifest, ghost w: Watch, ghost own0: Own)
    returns (ok: bool, ghost own: Own, ghost reached: nat)
    requires Tracks(host, w, m, own0) && owner == w.owner && w.found == {}
    requires DurableManifest(host.entries, owner.token) == Some(m)
    requires own0.anchors == m.anchors.Keys && own0.published <= own0.anchors
    requires forall id <- desired :: id in m.anchors && id.unit in w.units
    modifies host
    ensures Tracks(host, w, m, own) && DurableManifest(host.entries, owner.token) == Some(m)
    ensures own == own0.(published := own.published) && own.published <= own.anchors
    ensures ok ==> own.published == own0.published + set id <- desired
    ensures ok ==> AllReachable(old(host.entries), desired)
    ensures old(host.faults) == [] ==>
              && host.faults == []
              && (!ok ==> FirstUnreachable(old(host.entries), desired, reached)
                          && own.published == own0.published + set id <- desired[..reached])
  {
    hide StateTracks, HistoryTracks, IsReachable;
    own, reached := own0, 0;
    for i := 0 to |desired|
      invariant reached == i && AllReachable(old(host.entries), desired[..i])
      invariant Tracks(host, w, m, own) && DurableManifest(host.entries, owner.token) == Some(m)
      invariant own == own0.(published := own0.published + set id <- desired[..i])
      invariant own.published <= own.anchors
      invariant old(host.faults) == [] ==> host.faults == []
    {
      assert desired[..i + 1] == desired[..i] + [desired[i]];
      PublishedStays(old(host.entries), host.entries, w, m, m, own0, own, desired[i]);
      SameReach(old(host.entries), host.entries, w, m, m, own0, own, desired[i]);
      PublicBarriersAreOwn(old(host.entries), w, m, own0, desired[i]);
      PublicBarriersAreOwn(host.entries, w, m, own, desired[i]);
      assert desired[i] in own.published ==> desired[i] in own0.published || desired[i] in desired[..i];
      if PublicPath(desired[i]) !in host.entries {
        ok, own := PublishAnchor(host, owner, desired[i], m, w, own);
        if !ok {
          return;
        }
      }
      reached := i + 1;
    }
    assert desired[..|desired|] == desired;
    ok := true;
  }

  lemma PublishedStays(e0: Files, e: Files, w: Watch, m0: Manifest, m: Manifest, own0: Own, own: Own, id: Id)
    requires StateTracks(e0, w, m0, own0) && StateTracks(e, w, m, own) && own0.published <= own.published
    ensures PublicPath(id) in e0 ==> PublicPath(id) in e
  {
  }

  /** Only a created directory changes what can be reached. */
  lemma SameReach(e0: Files, e: Files, w: Watch, m0: Manifest, m: Manifest, own0: Own, own: Own, id: Id)
    requires StateTracks(e0, w, m0, own0) && StateTracks(e, w, m, own)
    requires id.unit in own0.created <==> id.unit in own.created
    ensures IsReachable(e0, id) <==> IsReachable(e, id)
  {
  }

  /** With nothing foreign on the units, a published path of a unit is one of the owner's barriers. */
  lemma PublicBarriersAreOwn(e: Files, w: Watch, m: Manifest, own: Own, id: Id)
    requires StateTracks(e, w, m, own) && w.found == {} && id.unit in w.units
    ensures PublicPath(id) in e <==> id in own.published
  {
  }

  /** Removes every published barrier that is not desired, in any order. */
  method RetireOthers(host: Host, owner: Owner, desired: set<Id>, m: Manifest, ghost w: Watch, ghost own0: Own)
    returns (ok: bool, ghost own: Own)
    requires Tracks(host, w, m, own0) && owner == w.owner && w.found == {}
    requires DurableManifest(host.entries, owner.token) == Some(m)
    requires own0.anchors == m.anchors.Keys && desired <= own0.published <= own0.anchors
    requires forall id <- m.anchors :: id.unit in w.units
    requires w.cover ==> CoversUnits(desired, w.units) && desired != {}
    modifies host
    ensures Tracks(host, w, m, own) && DurableManifest(host.entries, owner.token) == Some(m)
    ensures own == own0.(published := own.published) && desired <= own.published <= own0.published
    ensures ok ==> own.published == desired
    ensures old(host.faults) == [] ==> host.faults == [] && ok
  {
    hide StateTracks, HistoryTracks;
    own := own0;
    var todo := m.anchors.Keys - desired;
    while todo != {}
      invariant Tracks(host, w, m, own) && DurableManifest(host.entries, owner.token) == Some(m)
      invariant own == own0.(published := own.published) && desired <= own.published <= own0.published
      invariant own.published <= desired + todo && todo <= m.anchors.Keys - desired
      invariant old(host.faults) == [] ==> host.faults == []
      decreases todo
    {
      var id :| id in todo;
      PublicBarriersAreOwn(host.entries, w, m, own, id);
      if PublicPath(id) in host.entries {
        assert w.cover ==> CoversUnits(own.published - {id}, w.units) by {
          assert desired <= own.published - {id};
        }
        ok, own := RetireBarrier(host, owner, id, m, w, own);
        if !ok {
          return;
        }
      }
      todo := todo - {id};
    }
    ok := true;
  }

  /** Phase and active list are not about the files. */
  lemma Rephased(e: Files, w: Watch, m: Manifest, own: Own, phase: ManifestPhase, active: seq<Id>)
    requires StateTracks(e, w, m, own)
    ensures StateTracks(e, w, m.(phase := phase, active := active), own)
  {
  }

  predicate IsHeld(e: Files, owner: Owner, units: seq<Unit>) {
    var m := Load(e, owner, units);
    m.Some? && m.value.phase.Held? && PublicStateMatches(e, m.value, true)
  }

  /** The lock, if asked for, the manifest and the files allow the set to be removed. */
  predicate MayRemove(e: Files, owner: Owner, units: seq<Unit>, requireLock: bool) {
    && (requireLock ==> LockMatches(e, owner))
    && Load(e, owner, units).Some?
    && PublicStateMatches(e, Load(e, owner, units).value, false)
  }

  // ----- Exactly what is accepted -------------------------------------------------------------------------

  /** The private tree of an owner holds its two directories, its manifest and the recorded anchors, and nothing else. */
  ghost predicate TreeIs(e: Files, owner: Owner, m: Manifest) {
    && (forall p: Path :: InPrivateTree(owner.token, p) ==>
          (p in e <==> || p in {OwnerDir(owner.token), AnchorsDir(owner.token), ManifestPath(owner.token)}
                       || (p.AnchorPath? && p.token == owner.token && p.id in m.anchors)))
    && IsDirectoryAt(e, OwnerDir(owner.token)) && IsDirectoryAt(e, AnchorsDir(owner.token))
    && forall id <- m.anchors ::
         AnchorPath(owner.token, id) in e
         && e[AnchorPath(owner.token, id)].identity == m.anchors[id]
         && e[AnchorPath(owner.token, id)].body == (if id.kind.Mask? then DevNullLink else ConditionFile(owner, id.unit))
  }

  /** The manifest is about these units: one active barrier each, all of them recorded, and directories that are there. */
  ghost predicate RecordsAre(e: Files, units: seq<Unit>, m: Manifest) {
    && (forall id <- m.anchors :: id.unit in units) && (forall id <- m.active :: id in m.anchors)
    && |m.active| == |units| && Distinct(m.active) && (forall u <- units :: exists id <- m.active :: id.unit == u)
    && (forall i, j :: 0 <= i < j < |m.created| ==> m.created[i].unit != m.created[j].unit)
    && forall r <- m.created :: DropInDir(r.unit) in e && e[DropInDir(r.unit)] == Node(r.identity, Directory)
  }

  predicate Distinct(ids: seq<Id>) {
    forall i, j :: 0 <= i < j < |ids| ==> ids[i] != ids[j]
  }

  /** A manifest is loaded exactly if it is stored for this owner and these units, and agrees with the private tree and
      the created directories. */
  lemma LoadIsExact(e: Files, owner: Owner, units: seq<Unit>, m: Manifest)
    ensures Load(e, owner, units) == Some(m) <==>
              && ManifestPath(owner.token) in e && e[ManifestPath(owner.token)].body == ManifestFile(m)
              && m.owner == owner && m.units == units && TreeIs(e, owner, m) && RecordsAre(e, units, m)
  {
    TreeIsExact(e, owner, m);
    hide OwnerDirectoryMatches, TreeIs;
  }

  lemma TreeIsExact(e: Files, owner: Owner, m: Manifest)
    ensures TreeIs(e, owner, m) <==>
              && OwnerDirectoryMatches(e, owner, m)
              && forall id <- m.anchors ::
                   AnchorPath(owner.token, id) in e
                   && e[AnchorPath(owner.token, id)] == Node(m.anchors[id], AnchorBody(owner, id))
  {
  }

  /** The recorded inode stands at the public path: a mask as the link to /dev/null, a condition as a plain file. */
  predicate StandsPublished(e: Files, m: Manifest, id: Id) {
    && PublicPath(id) in e && id in m.anchors && e[PublicPath(id)].identity == m.anchors[id]
    && (id.kind.Mask? <==> e[PublicPath(id)].body.DevNullLink?) && !e[PublicPath(id)].body.Directory?
  }

  /** A set may be moved exactly if it can be loaded, is held, and on its units exactly the active barriers stand
      published. */
  lemma HeldIsExact(e: Files, owner: Owner, units: seq<Unit>, m: Manifest)
    requires Load(e, owner, units) == Some(m)
    ensures IsHeld(e, owner, units) <==>
              m.phase.Held? && forall id: Id :: id.unit in units ==>
                if id in m.active then StandsPublished(e, m, id) else PublicPath(id) !in e
  {
    LoadedUnits(e, owner, units, m);
    hide Load;
    PublicStateIsExact(e, m, true);
  }

  /** A set may be removed exactly if it can be loaded, whatever stands published on its units is a recorded inode, and, if
      it is held, that is exactly the active barriers. */
  lemma RemovalIsExact(e: Files, owner: Owner, units: seq<Unit>, m: Manifest)
    requires Load(e, owner, units) == Some(m)
    ensures MayRemove(e, owner, units, false) <==>
              && (forall id: Id :: id.unit in units && PublicPath(id) in e ==> StandsPublished(e, m, id))
              && (m.phase.Held? ==> forall id: Id :: id.unit in units ==> (PublicPath(id) in e <==> id in m.active))
  {
    LoadedUnits(e, owner, units, m);
    hide Load;
    PublicStateIsExact(e, m, false);
  }

  lemma LoadedUnits(e: Files, owner: Owner, units: seq<Unit>, m: Manifest)
    requires Load(e, owner, units) == Some(m)
    ensures m.units == units && (forall id <- m.anchors :: id.unit in units) && (forall id <- m.active :: id in m.anchors)
  {
  }

  lemma PublicStateIsExact(e: Files, m: Manifest, requireHeld: bool)
    requires (forall id <- m.anchors :: id.unit in m.units) && (forall id <- m.active :: id in m.anchors)
    ensures PublicStateMatches(e, m, requireHeld) <==>
              && (forall id: Id :: id.unit in m.units && PublicPath(id) in e ==> StandsPublished(e, m, id))
              && (requireHeld || m.phase.Held? ==>
                    forall id: Id :: id.unit in m.units ==> (PublicPath(id) in e <==> id in m.active))
  {
    forall id: Id | id.unit in m.units
      ensures PublicPath(id) == if id.kind.Mask? then MaskPath(id.unit) else ConditionPath(id.unit)
      ensures id == Id(id.unit, if id.kind.Mask? then Mask else Condition)
    {
    }
  }

  /** A set over `base` whose durable manifest asks for these modes: exactly `published` is published, the manifest
      records every anchor, and the rest of the file system is `base`. */
  ghost predicate OwnedSet(base: Files, e: Files, owner: Owner, units: seq<Unit>, modes: map<Unit, Kind>, m: Manifest,
                           published: set<Id>)
    requires forall u <- units :: u in modes
  {
    && DurableManifest(e, owner.token) == Some(m)
    && m.owner == owner && m.units == units && m.active == Desired(units, modes)
    && (forall id <- m.anchors :: id.unit in units) && DesiredSet(units, modes) <= m.anchors.Keys
    && Arranged(base, e, owner, m, HeldOwn(owner.token, m, published))
    && FoundIn(base, units, {}) && Unclaimed(base, owner.token)
  }

  /** A held set: exactly the desired barriers are published. */
  ghost predicate HeldSet(base: Files, e: Files, owner: Owner, units: seq<Unit>, modes: map<Unit, Kind>, m: Manifest) {
    && (forall u <- units :: u in modes)
    && OwnedSet(base, e, owner, units, modes, m, DesiredSet(units, modes)) && m.phase.Held?
  }

  ghost function HeldOwn(token: string, m: Manifest, published: set<Id>): Own {
    Own({OwnerDir(token), AnchorsDir(token), ManifestPath(token)}, m.anchors.Keys, published, CreatedUnits(m))
  }

  lemma DesiredCovers(units: seq<Unit>, modes: map<Unit, Kind>)
    requires WellFormedUnits(units, modes)
    ensures forall u <- units :: u in modes
    ensures CoversUnits(DesiredSet(units, modes), units) && DesiredSet(units, modes) != {}
    ensures (set id <- Desired(units, modes)) == DesiredSet(units, modes)
  {
    forall u <- units
      ensures Id(u, modes[u]) in DesiredSet(units, modes)
    {
    }
    forall id <- DesiredSet(units, modes)
      ensures id in Desired(units, modes)
    {
      var i :| 0 <= i < |units| && units[i] == id.unit;
      assert Desired(units, modes)[i] == id;
    }
    assert units[0] in units;
  }

  /** What a held owner has, in the terms the operations use. */
  lemma HeldFacts(e: Files, owner: Owner, units: seq<Unit>, w: Watch)
    requires IsHeld(e, owner, units) && units != []
    requires w.base == BaseOf(e, owner.token, Load(e, owner, units).value)
             && w.owner == owner && w.units == units && w.found == {} && w.cover
    ensures var m := Load(e, owner, units).value;
            && StateTracks(e, w, m, HeldOwn(owner.token, m, (set id <- m.active)))
            && DurableManifest(e, owner.token) == Some(m) && m.owner == owner && m.units == units && m.phase.Held?
            && (forall id <- m.anchors :: id.unit in units) && (forall id <- m.active :: id in m.anchors)
  {
    LoadedStateTracks(e, owner, units, Load(e, owner, units).value, w.past, true);
    HeldActiveIsPublished(e, owner, units, Load(e, owner, units).value);
  }

  lemma TrackedSetIsOwned(e: Files, w: Watch, m: Manifest, own: Own, modes: map<Unit, Kind>, published: set<Id>)
    requires StateTracks(e, w, m, own) && DurableManifest(e, w.owner.token) == Some(m)
    requires (forall u <- w.units :: u in modes) && w.found == {}
    requires m.owner == w.owner && m.units == w.units && m.active == Desired(w.units, modes)
    requires (forall id <- m.anchors :: id.unit in w.units) && DesiredSet(w.units, modes) <= m.anchors.Keys
    requires own == HeldOwn(w.owner.token, m, published)
    ensures OwnedSet(w.base, e, w.owner, w.units, modes, m, published)
  {
  }

  lemma TrackedSetIsHeld(e: Files, w: Watch, m: Manifest, own: Own, modes: map<Unit, Kind>)
    requires StateTracks(e, w, m, own) && DurableManifest(e, w.owner.token) == Some(m)
    requires (forall u <- w.units :: u in modes) && w.found == {}
    requires m.owner == w.owner && m.units == w.units && m.phase.Held? && m.active == Desired(w.units, modes)
    requires forall id <- m.anchors :: id.unit in w.units
    requires own == HeldOwn(w.owner.token, m, DesiredSet(w.units, modes))
    ensures HeldSet(w.base, e, w.owner, w.units, modes, m)
  {
  }

  /** A set that is owned can be loaded, whatever its phase, and what is not the owner's is what it always was. */
  lemma OwnedIsLoaded(base: Files, e: Files, owner: Owner, units: seq<Unit>, modes: map<Unit, Kind>, m: Manifest,
                      published: set<Id>)
    requires WellFormedUnits(units, modes) && (forall u <- units :: u in modes)
    requires OwnedSet(base, e, owner, units, modes, m, published)
    ensures Load(e, owner, units) == Some(m) && BaseOf(e, owner.token, m) == base
  {
    hide WellFormedUnits, RecordsMatch, OwnerDirectoryMatches, PublicStateMatches, BaseOf, Arranged, DesiredSet, Desired;
    OwnedRecordsMatch(base, e, owner, units, modes, m, published);
    OwnedDirectoryMatches(base, e, owner, units, modes, m, published);
    OwnedBaseIsStable(base, e, owner, units, modes, m, published);
  }

  /** A held set passes every check of a later operation. */
  lemma HeldIsAccepted(base: Files, e: Files, owner: Owner, units: seq<Unit>, modes: map<Unit, Kind>, m: Manifest)
    requires HeldSet(base, e, owner, units, modes, m) && WellFormedUnits(units, modes)
    ensures Load(e, owner, units) == Some(m) && PublicStateMatches(e, m, true) && IsHeld(e, owner, units)
    ensures BaseOf(e, owner.token, m) == base
  {
    OwnedIsLoaded(base, e, owner, units, modes, m, DesiredSet(units, modes));
    HeldPublicStateMatches(base, e, owner, units, modes, m);
    hide OwnedSet, WellFormedUnits, RecordsMatch, OwnerDirectoryMatches, PublicStateMatches, BaseOf;
  }

  lemma OwnedRecordsMatch(base: Files, e: Files, owner: Owner, units: seq<Unit>, modes: map<Unit, Kind>, m: Manifest,
                          published: set<Id>)
    requires WellFormedUnits(units, modes) && (forall u <- units :: u in modes)
    requires OwnedSet(base, e, owner, units, modes, m, published)
    ensures RecordsMatch(e, owner, m)
  {
    assert forall i :: 0 <= i < |units| ==> m.active[i] == Id(units[i], modes[units[i]]);
    forall u <- m.units
      ensures exists id <- m.active :: id.unit == u
    {
      var i :| 0 <= i < |units| && units[i] == u;
      assert m.active[i] in m.active;
    }
    forall id <- m.active
      ensures id in m.anchors
    {
      assert id in DesiredSet(units, modes);
    }
  }

  lemma OwnedDirectoryMatches(base: Files, e: Files, owner: Owner, units: seq<Unit>, modes: map<Unit, Kind>,
                              m: Manifest, published: set<Id>)
    requires (forall u <- units :: u in modes) && OwnedSet(base, e, owner, units, modes, m, published)
    ensures OwnerDirectoryMatches(e, owner, m)
  {
    var own := HeldOwn(owner.token, m, published);
    forall p <- e | ParentOf(p) == Some(OwnerDir(owner.token)) || ParentOf(p) == Some(AnchorsDir(owner.token))
      ensures own.Includes(owner.token, p)
    {
      assert p !in base;
    }
    assert OwnerDir(owner.token) in own.private && AnchorsDir(owner.token) in own.private;
  }

  lemma HeldPublicStateMatches(base: Files, e: Files, owner: Owner, units: seq<Unit>, modes: map<Unit, Kind>, m: Manifest)
    requires HeldSet(base, e, owner, units, modes, m) && WellFormedUnits(units, modes)
    ensures PublicStateMatches(e, m, true)
  {
    hide HeldSet, DesiredSet, WellFormedUnits, IsBarrier;
    DesiredCovers(units, modes);
    assert m.units == units && m.active == Desired(units, modes) by {
      HeldManifest(base, e, owner, units, modes, m);
    }
    forall id: Id | id.unit in units || id in m.anchors
      ensures PublicPath(id) in e <==> id in m.active
      ensures id in m.active ==> id in m.anchors && IsBarrier(e[PublicPath(id)], id, m.anchors[id])
    {
      HeldPublishes(base, e, owner, units, modes, m, id);
    }
    forall u <- units
      ensures MaskPath(u) in e ==> Id(u, Mask) in m.anchors
      ensures ConditionPath(u) in e ==> Id(u, Condition) in m.anchors
    {
      assert PublicPath(Id(u, Mask)) == MaskPath(u) && PublicPath(Id(u, Condition)) == ConditionPath(u);
    }
  }

  lemma HeldManifest(base: Files, e: Files, owner: Owner, units: seq<Unit>, modes: map<Unit, Kind>, m: Manifest)
    requires HeldSet(base, e, owner, units, modes, m)
    ensures m.units == units && m.active == Desired(units, modes) && forall id <- m.anchors :: id.unit in units
  {
  }

  lemma HeldPublishes(base: Files, e: Files, owner: Owner, units: seq<Unit>, modes: map<Unit, Kind>, m: Manifest, id: Id)
    requires HeldSet(base, e, owner, units, modes, m) && (id.unit in units || id in m.anchors)
    ensures PublicPath(id) in e <==> id in DesiredSet(units, modes)
    ensures id in DesiredSet(units, modes) ==> id in m.anchors && IsBarrier(e[PublicPath(id)], id, m.anchors[id])
  {
  }

  lemma OwnedBaseIsStable(base: Files, e: Files, owner: Owner, units: seq<Unit>, modes: map<Unit, Kind>, m: Manifest,
                          published: set<Id>)
    requires (forall u <- units :: u in modes) && OwnedSet(base, e, owner, units, modes, m, published)
    ensures BaseOf(e, owner.token, m) == base
  {
    var held, own := HeldOwn(owner.token, m, published), OwnOf(e, owner.token, m);
    assert own.published == held.published by {
      assert forall id <- m.anchors :: PublicPath(id) in e <==> id in held.published;
    }
    assert own == held;
  }
}
