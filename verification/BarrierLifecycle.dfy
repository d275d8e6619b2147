/** Removing a set of start barriers, installing one, and the whole life of a set. */
module BarrierLifecycle {
  import opened Prelude
  import opened StartBarrier
  import opened BarrierOperations
  import opened BarrierProtocol
  import opened BarrierTransition

  // ----- Removal ---------------------------------------------------------------------------------------------

  datatype Removal = Absent | Removed | Failed

  /** Deletes every anchor, each checked against its record first. */
  method RemoveAnchors(host: Host, owner: Owner, m: Manifest, ghost w: Watch, ghost own0: Own)
    returns (ok: bool, ghost own: Own)
    requires Tracks(host, w, m, own0) && owner == w.owner && own0.published == {} && own0.anchors == m.anchors.Keys
    modifies host
    ensures Tracks(host, w, m, own) && own == own0.(anchors := own.anchors)
    ensures ok ==> own.anchors == {}
    ensures old(host.faults) == [] ==> host.faults == [] && ok
  {
    hide StateTracks, HistoryTracks;
    own := own0;
    var todo := m.anchors.Keys;
    while todo != {}
      invariant Tracks(host, w, m, own) && own == own0.(anchors := todo) && todo <= m.anchors.Keys
      invariant old(host.faults) == [] ==> host.faults == []
      decreases todo
    {
      var id :| id in todo;
      var p := AnchorPath(owner.token, id);
      AnchorIsIntact(host.entries, w, m, own, id);
      if p !in host.entries || host.entries[p] != Node(m.anchors[id], AnchorBody(owner, id)) {
        return false, own;
      }
      ghost var h, e := host.history, host.entries;
      ok := host.Unlink(p);
      if host.history != h {
        RemovingAnchor(e, w, m, own, id);
        own := own.(anchors := own.anchors - {id});
        StepTracks(h, host.entries, w, m, own);
      }
      if !ok {
        return;
      }
      todo := todo - {id};
    }
    ok := true;
  }

  lemma AnchorIsIntact(e: Files, w: Watch, m: Manifest, own: Own, id: Id)
    requires StateTracks(e, w, m, own) && id in own.anchors && id in m.anchors
    ensures AnchorPath(w.owner.token, id) in e
    ensures e[AnchorPath(w.owner.token, id)] == Node(m.anchors[id], AnchorBody(w.owner, id))
  {
  }

  /** Deletes one of the owner's private files or, if it is empty, directories. */
  method RemovePrivate(host: Host, p: Path, m: Manifest, ghost w: Watch, ghost own0: Own)
    returns (ok: bool, ghost own: Own)
    requires Tracks(host, w, m, own0) && own0.published == {} && p in own0.private
    modifies host
    ensures Tracks(host, w, m, own)
    ensures own == own0 || own == own0.(private := own0.private - {p})
    ensures ok ==> own == own0.(private := own0.private - {p})
    ensures old(host.faults) == [] ==> host.faults == []
    ensures (&& old(host.faults) == []
             && (p.AnchorsDir? ==> own0.anchors == {}) && (p.OwnerDir? ==> own0.private == {p})) ==> ok
  {
    hide StateTracks, HistoryTracks;
    own := own0;
    ghost var h, e := host.history, host.entries;
    PrivateIsRemovable(host, w, m, own, p);
    if p.OwnerDir? || p.AnchorsDir? {
      ok := host.RemoveDirectory(p);
    } else {
      ok := host.Unlink(p);
    }
    if host.history != h {
      RemovingPrivate(e, w, m, own0, p);
      own := own0.(private := own0.private - {p});
      StepTracks(h, host.entries, w, m, own);
    }
  }

  lemma PrivateIsRemovable(host: Host, w: Watch, m: Manifest, own: Own, p: Path)
    requires StateTracks(host.entries, w, m, own) && p in own.private
    ensures p.AnchorsDir? && own.anchors == {} ==> host.IsEmptyDirectory(p)
    ensures p.OwnerDir? && own.private == {p} ==> host.IsEmptyDirectory(p)
    ensures !p.OwnerDir? && !p.AnchorsDir? ==> p in host.entries && !host.entries[p].body.Directory?
  {
    if p.AnchorsDir? && own.anchors == {} {
      assert forall q: Path :: ParentOf(q) == Some(p) ==> !own.Includes(w.owner.token, q);
    }
  }

  /** Deletes the anchors directory, the manifests and the owner directory. */
  method RemovePrivateFiles(host: Host, token: string, m: Manifest, ghost w: Watch, ghost own0: Own)
    returns (ok: bool, ghost own: Own)
    requires Tracks(host, w, m, own0) && token == w.owner.token && own0.published == {} && own0.anchors == {}
    requires {OwnerDir(token), AnchorsDir(token), ManifestPath(token)} <= own0.private
    requires own0.private <= {OwnerDir(token), AnchorsDir(token), ManifestPath(token), NextManifestPath(token)}
    modifies host
    ensures Tracks(host, w, m, own) && own == own0.(private := own.private)
    ensures ok ==> own.private == {}
    ensures old(host.faults) == [] ==> host.faults == [] && ok
  {
    hide StateTracks, HistoryTracks;
    ok, own := RemovePrivate(host, AnchorsDir(token), m, w, own0);
    if !ok {
      return;
    }
    PrivateFacts(host.entries, w, m, own);
    if NextManifestPath(token) in host.entries {
      ok, own := RemovePrivate(host, NextManifestPath(token), m, w, own);
      if !ok {
        return;
      }
    }
    assert own.private == {OwnerDir(token), ManifestPath(token)};
    ok, own := RemovePrivate(host, ManifestPath(token), m, w, own);
    if !ok {
      return;
    }
    assert own.private == {OwnerDir(token)};
    ok, own := RemovePrivate(host, OwnerDir(token), m, w, own);
    assert ok ==> own.private == {};
  }

  /** Something that is not the owner's lies in this unit's drop-in directory. */
  ghost predicate Occupied(base: Files, unit: Unit) {
    exists q <- base :: ParentOf(q) == Some(DropInDir(unit))
  }

  lemma CreatedDirectoryIsEmpty(host: Host, w: Watch, m: Manifest, own: Own, record: DirRecord)
    requires StateTracks(host.entries, w, m, own) && record in m.created && own.published == {}
    ensures DropInDir(record.unit) in host.entries && record.unit in own.created
    ensures host.entries[DropInDir(record.unit)] == Node(record.identity, Directory)
    ensures host.IsEmptyDirectory(DropInDir(record.unit)) <==> !Occupied(w.base, record.unit)
  {
    var p := DropInDir(record.unit);
    if !Occupied(w.base, record.unit) {
      assert forall q: Path :: ParentOf(q) == Some(p) ==> !own.Includes(w.owner.token, q);
    }
  }

  lemma ForgettingDropIn(e: Files, w: Watch, m: Manifest, own: Own, rest: seq<DirRecord>)
    requires StateTracks(e, w, m, own) && rest <= m.created
    ensures StateTracks(e, w, m.(created := rest), own)
  {
  }

  ghost function OccupiedUnits(base: Files, records: seq<DirRecord>): set<Unit> {
    set r <- records | Occupied(base, r.unit) :: r.unit
  }

  /** Removes the last recorded drop-in directory, unless something else lies in it. */
  method RemoveLastCreated(host: Host, m0: Manifest, ghost w: Watch, ghost own0: Own)
    returns (ok: bool, ghost own: Own)
    requires Tracks(host, w, m0, own0) && own0.published == {} && m0.created != []
    modifies host
    ensures Tracks(host, w, m0.(created := m0.created[..|m0.created| - 1]), own)
    ensures var unit := m0.created[|m0.created| - 1].unit;
            && (own == own0 || own == own0.(created := own0.created - {unit}))
            && (old(host.faults) == [] ==>
                  && ok && host.faults == []
                  && own == if Occupied(w.base, unit) then own0 else own0.(created := own0.created - {unit}))
  {
    hide StateTracks, HistoryTracks, Occupied;
    own := own0;
    var rest, record := m0.created[..|m0.created| - 1], m0.created[|m0.created| - 1];
    var p := DropInDir(record.unit);
    CreatedDirectoryIsEmpty(host, w, m0, own0, record);
    ghost var h, e := host.history, host.entries;
    ok := host.entries[p] == Node(record.identity, Directory);
    if ok {
      var removed := host.RemoveDirectory(p);
      if host.history != h {
        RemovingDropIn(e, w, m0, own0, record.unit, rest);
        own := own0.(created := own0.created - {record.unit});
        StepTracks(h, host.entries, w, m0.(created := rest), own);
      }
    }
    if host.history == h {
      ForgettingDropIn(host.entries, w, m0, own0, rest);
    }
  }

  /** Removes the drop-in directories the owner created, last first; one that cannot be removed is left. */
  method RemoveCreated(host: Host, m0: Manifest, ghost w: Watch, ghost own0: Own)
    returns (ok: bool, m: Manifest, ghost own: Own)
    requires Tracks(host, w, m0, own0) && own0.published == {} && own0.created == CreatedUnits(m0)
    modifies host
    ensures Tracks(host, w, m, own) && own == own0.(created := own.created) && own.created <= own0.created
    ensures old(host.faults) == [] ==>
              ok && host.faults == [] && own.created == OccupiedUnits(w.base, m0.created)
  {
    hide StateTracks, HistoryTracks, Occupied, OccupiedUnits, CreatedUnits;
    m, own := m0, own0;
    var n := |m0.created|;
    ok := true;
    assert m0.created[..n] == m0.created && m0.created[n..] == [];
    NoneOccupied(w.base, m0);
    while ok && n > 0
      invariant 0 <= n <= |m0.created| && Tracks(host, w, m, own) && m == m0.(created := m0.created[..n])
      invariant own == own0.(created := own.created) && own.created <= own0.created
      invariant old(host.faults) == [] ==>
                  ok && host.faults == []
                  && own.created == CreatedUnits(m) + OccupiedUnits(w.base, m0.created[n..])
    {
      OneRecordLess(host.entries, w, m0, m, own, n);
      ok, own := RemoveLastCreated(host, m, w, own);
      n := n - 1;
      m := m0.(created := m0.created[..n]);
      assert m0.created[..n + 1][..n] == m0.created[..n];
    }
    assert m0.created[0..] == m0.created;
    NoneOccupied(w.base, m0.(created := []));
  }

  lemma NoneOccupied(base: Files, m: Manifest)
    ensures OccupiedUnits(base, []) == {} && (m.created == [] ==> CreatedUnits(m) == {})
  {
  }

  lemma OneRecordLess(e: Files, w: Watch, m0: Manifest, m: Manifest, own: Own, n: nat)
    requires StateTracks(e, w, m, own) && 0 < n <= |m0.created| && m == m0.(created := m0.created[..n])
    ensures var unit := m0.created[n - 1].unit;
            && unit !in CreatedUnits(m0.(created := m0.created[..n - 1]))
            && CreatedUnits(m) == CreatedUnits(m0.(created := m0.created[..n - 1])) + {unit}
            && OccupiedUnits(w.base, m0.created[n - 1..])
               == OccupiedUnits(w.base, m0.created[n..]) + (if Occupied(w.base, unit) then {unit} else {})
            && (unit in OccupiedUnits(w.base, m0.created[n..]) ==> Occupied(w.base, unit))
  {
    hide StateTracks, Occupied;
    var rest, last := m0.created[..n - 1], m0.created[n - 1];
    assert m.created == rest + [last] && m0.created[n - 1..] == [last] + m0.created[n..];
    DistinctRecords(e, w, m, own, rest, last);
  }

  lemma DistinctRecords(e: Files, w: Watch, m: Manifest, own: Own, rest: seq<DirRecord>, last: DirRecord)
    requires StateTracks(e, w, m, own) && m.created == rest + [last]
    ensures forall r <- rest :: r.unit != last.unit
  {
    forall i | 0 <= i < |rest|
      ensures rest[i].unit != last.unit
    {
      assert m.created[i] == rest[i] && m.created[|rest|] == last;
    }
  }

  /** `base`, and besides it only these drop-in directories. */
  ghost predicate RestoredUpTo(base: Files, e: Files, left: set<Unit>) {
    && KeepsBase(base, e)
    && (forall p <- e :: p in base || (p.DropInDir? && p.unit in left))
  }

  lemma NothingLeftIsRestored(base: Files, e: Files)
    requires RestoredUpTo(base, e, {})
    ensures e == base
  {
  }

  lemma EmptiedIsRestored(e: Files, w: Watch, m: Manifest, own: Own)
    requires StateTracks(e, w, m, own) && own == Own({}, {}, {}, own.created)
    ensures RestoredUpTo(w.base, e, own.created)
  {
  }

  /** Removes what the owner published, then its anchors and private files, then the directories it created. */
  method RemoveOwnedSet(host: Host, owner: Owner, units: seq<Unit>, requireLock: bool)
    returns (r: Removal, ghost left: set<Unit>)
    requires host.Valid()
    modifies host
    ensures host.Valid()
    ensures r.Absent? <==> OwnerDir(owner.token) !in old(host.entries)
    ensures !old(MayRemove(host.entries, owner, units, requireLock)) ==>
              !r.Removed? && host.history == old(host.history)
    ensures requireLock && !(ActivationLock in old(host.entries) && old(host.entries)[ActivationLock].body == LockFile(owner))
            ==> !r.Removed? && host.history == old(host.history)
    ensures old(MayRemove(host.entries, owner, units, requireLock)) ==>
              HistoryTracks(host.history,
                            old(WatchFrom(host, owner, Load(host.entries, owner, units).value, units, false)))
    ensures r.Removed? ==>
              var m := old(Load(host.entries, owner, units).value);
              left <= CreatedUnits(m) && RestoredUpTo(old(BaseOf(host.entries, owner.token, m)), host.entries, left)
    ensures old(host.faults) == [] ==> host.faults == []
    ensures old(host.faults) == [] && old(MayRemove(host.entries, owner, units, requireLock)) ==>
              && r.Removed?
              && var m := old(Load(host.entries, owner, units).value);
                 left == OccupiedUnits(old(BaseOf(host.entries, owner.token, m)), m.created)
  {
    left := {};
    if OwnerDir(owner.token) !in host.entries {
      return Absent, left;
    }
    if !MayRemove(host.entries, owner, units, requireLock) {
      return Failed, left;
    }
    var loaded := Load(host.entries, owner, units).value;
    ghost var w := WatchFrom(host, owner, loaded, units, false);
    ghost var own := OwnOf(host.entries, owner.token, loaded);
    LoadedStateTracks(host.entries, owner, units, loaded, w.past, false);
    HistoryStarts(host.entries, host.history, w, loaded, own);
    var removed;
    removed, left := RemoveLoaded(host, owner, units, requireLock, loaded, w, own);
    r := if removed then Removed else Failed;
  }

  method RemoveLoaded(host: Host, owner: Owner, units: seq<Unit>, requireLock: bool, m: Manifest, ghost w: Watch,
                      ghost own0: Own)
    returns (ok: bool, ghost left: set<Unit>)
    requires Tracks(host, w, m, own0) && owner == w.owner && units == w.units && w.found == {} && !w.cover
    requires Load(host.entries, owner, units) == Some(m) && (requireLock ==> LockMatches(host.entries, owner))
    requires own0 == OwnOf(host.entries, owner.token, m)
    modifies host
    ensures host.Valid() && HistoryTracks(host.history, w)
    ensures ok ==> left <= CreatedUnits(m) && RestoredUpTo(w.base, host.entries, left)
    ensures old(host.faults) == [] ==>
              host.faults == [] && ok && left == OccupiedUnits(w.base, m.created)
  {
    hide StateTracks, HistoryTracks, OwnerDirectoryMatches, RestoredUpTo, Occupied, KeepsBase;
    left := {};
    ghost var own, last, e0 := own0, m, host.entries;
    ok, own := RetireOthers(host, owner, {}, m, w, own0);
    if !ok {
      return;
    }
    LockIsKept(e0, host.entries, w, m, own0, own);
    if requireLock && !LockMatches(host.entries, owner) {
      return false, left;
    }
    ok, own := RemoveAnchors(host, owner, m, w, own);
    if !ok {
      return;
    }
    ok, own := RemovePrivateFiles(host, owner.token, m, w, own);
    if !ok {
      return;
    }
    ok, last, own := RemoveCreated(host, m, w, own);
    left := own.created;
    EmptiedIsRestored(host.entries, w, last, own);
  }

  lemma LockIsKept(e0: Files, e: Files, w: Watch, m: Manifest, own0: Own, own: Own)
    requires StateTracks(e0, w, m, own0) && StateTracks(e, w, m, own)
    ensures LockMatches(e0, w.owner) ==> LockMatches(e, w.owner)
  {
  }

  // ----- Installation ------------------------------------------------------------------------------------------

  /** Every directory entry lies in a directory entry. */
  ghost predicate TreeClosed(e: Files) {
    forall p <- e :: ParentOf(p).Some? ==> ParentOf(p).value in e
  }

  function Template(owner: Owner, units: seq<Unit>): Manifest {
    Manifest(owner, units, Publishing, map[], [], [])
  }

  ghost function FoundBarriers(e: Files, units: seq<Unit>): set<Id> {
    (set u <- units | MaskPath(u) in e :: Id(u, Mask)) + (set u <- units | ConditionPath(u) in e :: Id(u, Condition))
  }

  ghost function InstallWatch(host: Host, owner: Owner, units: seq<Unit>): Watch
    reads host
  {
    Watch(host.history, host.entries, owner, units, FoundBarriers(host.entries, units), false)
  }

  /** Nothing stands in the way of the desired barriers. */
  predicate AllFree(base: Files, units: seq<Unit>, modes: map<Unit, Kind>)
    requires forall u <- units :: u in modes
  {
    forall u <- units :: IsFree(base, Id(u, modes[u]))
  }

  /** Nothing stands in the way of the desired barriers, and no unit has a barrier of the other kind. */
  predicate Installable(base: Files, units: seq<Unit>, modes: map<Unit, Kind>)
    requires forall u <- units :: u in modes
  {
    AllFree(base, units, modes) && forall u <- units :: MaskPath(u) !in base && ConditionPath(u) !in base
  }

  lemma NothingOwnedYet(e: Files, w: Watch, own: Own)
    requires w.base == e && TreeClosed(e) && OwnerDir(w.owner.token) !in e && !w.cover
    requires w.found == FoundBarriers(e, w.units) && own == Own({}, {}, {}, {})
    ensures StateTracks(e, w, Template(w.owner, w.units), own)
  {
    forall id: Id | id.unit in w.units && PublicPath(id) in e
      ensures id in w.found
    {
      assert id.kind.Mask? ==> MaskPath(id.unit) in e;
    }
    assert ParentOf(AnchorsDir(w.owner.token)) == Some(OwnerDir(w.owner.token));
    assert AnchorsDir(w.owner.token) !in e;
  }

  /** Before anything but private files is there, the way is as free as it was. */
  lemma StillAsFree(e: Files, w: Watch, m: Manifest, own: Own, modes: map<Unit, Kind>)
    requires StateTracks(e, w, m, own) && own.published == {} && own.created == {}
    ensures forall id: Id :: IsFree(e, id) <==> IsFree(w.base, id)
    ensures forall u: Unit :: DropInDir(u) in e <==> DropInDir(u) in w.base
  {
  }

  predicate NoneIn(base: Files, ids: seq<Id>) {
    forall id <- ids :: PublicPath(id) !in base
  }

  /** Publishes every barrier of a new set. */
  method PublishAll(host: Host, owner: Owner, desired: seq<Id>, m: Manifest, ghost w: Watch, ghost own0: Own)
    returns (ok: bool, ghost own: Own)
    requires Tracks(host, w, m, own0) && owner == w.owner && own0.published == {}
    requires DurableManifest(host.entries, owner.token) == Some(m)
    requires own0.anchors == m.anchors.Keys && forall id <- desired :: id in m.anchors
    requires Distinct(desired)
    modifies host
    ensures Tracks(host, w, m, own) && DurableManifest(host.entries, owner.token) == Some(m)
    ensures own == own0.(published := own.published) && own.published <= own.anchors
    ensures ok ==> own.published == set id <- desired
    ensures old(host.faults) == [] ==> host.faults == []
    ensures (&& old(host.faults) == []
             && AllReachable(old(host.entries), desired) && NoneIn(w.base, desired)) ==> ok
  {
    hide StateTracks, HistoryTracks;
    own := own0;
    ghost var e0 := host.entries;
    for i := 0 to |desired|
      invariant StateTracks(e0, w, m, own0)
      invariant KeepsDropIns(old(host.entries), host.entries)
      invariant Tracks(host, w, m, own) && DurableManifest(host.entries, owner.token) == Some(m)
      invariant own == own0.(published := set id <- desired[..i]) && own.published <= own.anchors
      invariant old(host.faults) == [] ==> host.faults == []
    {
      assert desired[..i + 1] == desired[..i] + [desired[i]];
      PublicPathsAreKnown(host.entries, w, m, own, desired[i]);
      PublicPathsAreKnown(e0, w, m, own0, desired[i]);
      ok, own := PublishAnchor(host, owner, desired[i], m, w, own);
      if !ok {
        return;
      }
    }
    assert desired[..|desired|] == desired;
    ok := true;
  }

  lemma PublicPathsAreKnown(e: Files, w: Watch, m: Manifest, own: Own, id: Id)
    requires StateTracks(e, w, m, own)
    ensures PublicPath(id) in e <==> PublicPath(id) in w.base || id in own.published
  {
  }

  /** What a failed installation needs to know to clean up after itself. */
  ghost predicate CanCleanUp(e: Files, w: Watch, m: Manifest, own: Own) {
    var token := w.owner.token;
    && {OwnerDir(token), AnchorsDir(token)} <= own.private
    && (ManifestPath(token) in own.private ==>
          && DurableManifest(e, token).Some?
          && DurableManifest(e, token).value.anchors == m.anchors
          && DurableManifest(e, token).value.created == m.created
          && forall id <- m.anchors :: PublicPath(id) !in w.base)
    && (ManifestPath(token) !in own.private ==>
          own.published == {} && own.private == {OwnerDir(token), AnchorsDir(token)})
  }

  lemma NewSetCanBeCleanedUp(e: Files, w: Watch, m: Manifest, own: Own)
    requires forall id <- m.anchors :: PublicPath(id) !in w.base
    ensures var two := {OwnerDir(w.owner.token), AnchorsDir(w.owner.token)};
            && (own.private == two && own.published == {} ==> CanCleanUp(e, w, m, own))
            && (own.private == two + {ManifestPath(w.owner.token)} && DurableManifest(e, w.owner.token) == Some(m) ==>
                  CanCleanUp(e, w, m, own))
  {
  }

  /** Records a prepared set before anything is published. */
  method RecordNewSet(host: Host, owner: Owner, m: Manifest, ghost w: Watch, ghost own0: Own)
    returns (ok: bool, ghost own: Own)
    requires Tracks(host, w, m, own0) && owner == w.owner && NoneIn(w.base, m.active)
    requires own0.private == {OwnerDir(owner.token), AnchorsDir(owner.token)} && own0.published == {}
    requires forall id <- m.anchors :: PublicPath(id) !in w.base
    modifies host
    ensures Tracks(host, w, m, own) && CanCleanUp(host.entries, w, m, own)
    ensures ok ==> own == own0.(private := own0.private + {ManifestPath(owner.token)})
    ensures ok ==> DurableManifest(host.entries, owner.token) == Some(m)
    ensures AllReachable(old(host.entries), m.active) ==> AllReachable(host.entries, m.active)
    ensures old(host.faults) == [] ==> host.faults == [] && ok
  {
    hide StateTracks, HistoryTracks, AllReachable, NoneIn, KeepsDropIns, CanCleanUp, DurableManifest;
    ghost var e0 := host.entries;
    ok, own := WriteInitialManifest(host, owner, m, w, own0);
    StillReachable(e0, host.entries, w, m, own0, own, m.active);
    NewSetCanBeCleanedUp(host.entries, w, m, own);
  }

  /** Writes the first manifest and publishes every barrier. */
  method PublishNewSet(host: Host, owner: Owner, units: seq<Unit>, modes: map<Unit, Kind>, m: Manifest,
                       ghost w: Watch, ghost own0: Own)
    returns (ok: bool, ghost own: Own)
    requires Tracks(host, w, m, own0) && owner == w.owner && units == w.units
    requires WellFormedUnits(units, modes) && AllFree(w.base, units, modes)
    requires m.anchors.Keys == DesiredSet(units, modes) && m.active == Desired(units, modes)
    requires own0 == Own({OwnerDir(owner.token), AnchorsDir(owner.token)}, m.anchors.Keys, {}, CreatedUnits(m))
    modifies host
    ensures Tracks(host, w, m, own) && CanCleanUp(host.entries, w, m, own)
    ensures ok ==> own == HeldOwn(owner.token, m, DesiredSet(units, modes))
    ensures ok ==> DurableManifest(host.entries, owner.token) == Some(m)
    ensures old(host.faults) == [] ==> host.faults == []
    ensures old(host.faults) == [] && AllReachable(old(host.entries), m.active) ==> ok
  {
    DesiredCovers(units, modes);
    DesiredIsFree(w.base, units, modes);
    DesiredIsDistinct(units, modes);
    hide StateTracks, HistoryTracks, AllFree, DesiredSet, WellFormedUnits, CoversUnits, CreatedUnits, AllReachable,
         NoneIn, Distinct, KeepsDropIns, Desired, CanCleanUp, DurableManifest, HeldOwn;
    ok, own := RecordNewSet(host, owner, m, w, own0);
    if !ok {
      return;
    }
    ok, own := PublishAll(host, owner, m.active, m, w, own);
    NewSetCanBeCleanedUp(host.entries, w, m, own);
    RecordedOwnIsHeld(owner.token, m, own, own.published);
  }

  lemma RecordedOwnIsHeld(token: string, m: Manifest, own: Own, published: set<Id>)
    requires own == Own({OwnerDir(token), AnchorsDir(token)} + {ManifestPath(token)}, m.anchors.Keys, published,
                        CreatedUnits(m))
    ensures own == HeldOwn(token, m, published)
  {
  }

  lemma DesiredIsDistinct(units: seq<Unit>, modes: map<Unit, Kind>)
    requires WellFormedUnits(units, modes)
    ensures Distinct(Desired(units, modes))
  {
  }

  /** Declares a set that has just been published held, and checks that no other barrier bars its units. */
  method DeclareNewSet(host: Host, owner: Owner, units: seq<Unit>, modes: map<Unit, Kind>, m0: Manifest,
                       ghost w: Watch, ghost own0: Own)
    returns (ok: bool, ghost own: Own)
    requires Tracks(host, w, m0, own0) && owner == w.owner && units == w.units && !w.cover && m0.phase.Held?
    requires WellFormedUnits(units, modes) && AllFree(w.base, units, modes)
    requires m0.owner == owner && m0.units == units && m0.active == Desired(units, modes)
    requires m0.anchors.Keys == DesiredSet(units, modes)
    requires own0 == HeldOwn(owner.token, m0, DesiredSet(units, modes)) && CanCleanUp(host.entries, w, m0, own0)
    modifies host
    ensures Tracks(host, w, m0, own) && CanCleanUp(host.entries, w, m0, own)
    ensures ok ==> HeldSet(w.base, host.entries, owner, units, modes, m0) && Installable(w.base, units, modes)
    ensures old(host.faults) == [] ==>
              && host.faults == []
              && (ok <==> Installable(w.base, units, modes))
              && own == own0 && DurableManifest(host.entries, owner.token) == Some(m0)
  {
    hide StateTracks, HistoryTracks, HeldSet, AllFree, Installable, DesiredSet, WellFormedUnits, PublicStateMatches;
    ok, own := WriteNextManifest(host, owner, m0, w, own0);
    if !ok {
      return;
    }
    ok := PublicStateMatches(host.entries, m0, true);
    PublishedSetIsHeld(host.entries, w, m0, own, modes);
  }

  lemma DesiredIsFree(base: Files, units: seq<Unit>, modes: map<Unit, Kind>)
    requires (forall u <- units :: u in modes) && AllFree(base, units, modes)
    ensures NoneIn(base, Desired(units, modes)) && forall id <- DesiredSet(units, modes) :: PublicPath(id) !in base
  {
  }

  /** With no other barrier on its units the set is held; otherwise the check finds the other barrier. */
  lemma PublishedSetIsHeld(e: Files, w: Watch, m: Manifest, own: Own, modes: map<Unit, Kind>)
    requires StateTracks(e, w, m, own) && DurableManifest(e, w.owner.token) == Some(m) && !w.cover
    requires WellFormedUnits(w.units, modes) && AllFree(w.base, w.units, modes)
    requires m.owner == w.owner && m.units == w.units && m.phase.Held? && m.active == Desired(w.units, modes)
    requires m.anchors.Keys == DesiredSet(w.units, modes)
    requires own == HeldOwn(w.owner.token, m, DesiredSet(w.units, modes))
    ensures PublicStateMatches(e, m, true) <==> Installable(w.base, w.units, modes)
    ensures Installable(w.base, w.units, modes) ==> HeldSet(w.base, e, w.owner, w.units, modes, m)
    ensures PublicStateMatches(e, m, false) ==> PublicStateMatches(e, m, true)
  {
    if Installable(w.base, w.units, modes) {
      NothingFound(e, w, m, own, modes);
      TrackedSetIsHeld(e, w.(found := {}), m, own, modes);
      HeldIsAccepted(w.base, e, w.owner, w.units, modes, m);
    } else {
      OtherBarrierIsNoticed(e, w, m, own, modes);
    }
  }

  lemma NothingFound(e: Files, w: Watch, m: Manifest, own: Own, modes: map<Unit, Kind>)
    requires StateTracks(e, w, m, own) && (forall u <- w.units :: u in modes) && Installable(w.base, w.units, modes)
    requires !w.cover
    ensures StateTracks(e, w.(found := {}), m, own)
  {
    assert FoundIn(w.base, w.units, {});
    hide Arranged, Backed;
  }

  lemma OtherBarrierIsNoticed(e: Files, w: Watch, m: Manifest, own: Own, modes: map<Unit, Kind>)
    requires StateTracks(e, w, m, own) && (forall u <- w.units :: u in modes) && m.units == w.units
    requires AllFree(w.base, w.units, modes) && !Installable(w.base, w.units, modes)
    requires own.published == m.anchors.Keys
    ensures !PublicStateMatches(e, m, false) && !PublicStateMatches(e, m, true)
  {
    var u :| u in w.units && (MaskPath(u) in w.base || ConditionPath(u) in w.base);
    assert forall p <- w.base :: p in e && !own.Includes(w.owner.token, p);
  }

  /** How a new set that met an obstacle, and no fault, is left before it is cleaned up. */
  ghost predicate Stopped(e: Files, w: Watch, modes: map<Unit, Kind>, m: Manifest, own: Own, reached: nat)
    requires forall u <- w.units :: u in modes
  {
    var token := w.owner.token;
    if AllFree(w.base, w.units, modes) then
      && own == HeldOwn(token, m, DesiredSet(w.units, modes)) && DurableManifest(e, token) == Some(m)
      && m.anchors.Keys == DesiredSet(w.units, modes) && m.units == w.units
    else
      && reached < |w.units| && AllFree(w.base, w.units[..reached], modes)
      && !IsFree(w.base, Id(w.units[reached], modes[w.units[reached]]))
      && own == Own({OwnerDir(token), AnchorsDir(token)}, own.anchors, {},
                    FreshDropIns(w.base, w.units[..reached], modes, {}))
  }

  lemma PreparedNewSet(e0: Files, e: Files, w: Watch, own0: Own, m: Manifest, own: Own, modes: map<Unit, Kind>)
    requires WellFormedUnits(w.units, modes)
    requires Prepared(e0, e, Template(w.owner, w.units), own0, m, own, w.units, modes)
    requires forall id: Id :: IsFree(e0, id) <==> IsFree(w.base, id)
    ensures m.anchors.Keys == DesiredSet(w.units, modes) && AllFree(w.base, w.units, modes)
    ensures AllReachable(e, Desired(w.units, modes))
    ensures own == own0.(anchors := m.anchors.Keys, created := CreatedUnits(m))
  {
  }

  lemma ObstacleStopsInstallation(e0: Files, e: Files, w: Watch, modes: map<Unit, Kind>, own0: Own, m: Manifest, own: Own,
                                  reached: nat)
    requires (forall u <- w.units :: u in modes) && reached < |w.units|
    requires StateTracks(e0, w, Template(w.owner, w.units), own0) && own0.published == {} && own0.created == {}
    requires own0.private == {OwnerDir(w.owner.token), AnchorsDir(w.owner.token)}
    requires own == own0.(anchors := own.anchors, created := FreshDropIns(e0, w.units[..reached], modes, {}))
    requires !IsFree(e0, Id(w.units[reached], modes[w.units[reached]]))
    requires forall u <- w.units[..reached] :: IsFree(e0, Id(u, modes[u]))
    ensures Stopped(e, w, modes, m, own, reached) && !AllFree(w.base, w.units, modes)
  {
    StillAsFree(e0, w, Template(w.owner, w.units), own0, modes);
    hide StateTracks, IsFree;
    assert w.units[reached] in w.units;
    assert FreshDropIns(e0, w.units[..reached], modes, {}) == FreshDropIns(w.base, w.units[..reached], modes, {});
  }

  /** The installation proper, with its private directories made. */
  method TryInstall(host: Host, owner: Owner, units: seq<Unit>, modes: map<Unit, Kind>, ghost w: Watch, ghost own0: Own)
    returns (ok: bool, m: Manifest, ghost own: Own, ghost reached: nat)
    requires Tracks(host, w, Template(owner, units), own0) && owner == w.owner && units == w.units && !w.cover
    requires WellFormedUnits(units, modes)
    requires own0 == Own({OwnerDir(owner.token), AnchorsDir(owner.token)}, {}, {}, {})
    modifies host
    ensures Tracks(host, w, m, own) && CanCleanUp(host.entries, w, m, own)
    ensures ok ==> HeldSet(w.base, host.entries, owner, units, modes, m) && Installable(w.base, units, modes)
    ensures ok ==> CreatedUnits(m) <= UnitSet(units)
    ensures old(host.faults) == [] ==>
              && host.faults == []
              && (ok <==> Installable(w.base, units, modes))
              && (!ok ==> Stopped(host.entries, w, modes, m, own, reached))
  {
    hide StateTracks, HistoryTracks, HeldSet, AllFree, Prepared, DesiredSet, Desired, IsFree, AllReachable,
         FreshDropIns, PublicStateMatches, UnitSet, WellFormedUnits;
    ghost var e0 := host.entries;
    UnitsHaveModes(units, modes);
    StillAsFree(e0, w, Template(owner, units), own0, modes);
    ok, m, own, reached := PrepareMissing(host, owner, units, modes, Template(owner, units), w, own0);
    if !ok {
      if old(host.faults) == [] {
        ObstacleStopsInstallation(e0, host.entries, w, modes, own0, m, own, reached);
      }
      return;
    }
    PreparedNewSet(e0, host.entries, w, own0, m, own, modes);
    ghost var prepared := m;
    Rephased(host.entries, w, m, own, m.phase, Desired(units, modes));
    m := m.(active := Desired(units, modes));
    ok, own := PublishNewSet(host, owner, units, modes, m, w, own);
    if !ok {
      return;
    }
    Rephased(host.entries, w, m, own, Held, m.active);
    m := m.(phase := Held);
    SameCreated(prepared, m);
    ok, own := DeclareNewSet(host, owner, units, modes, m, w, own);
  }

  /** Two stretches of history, one after the other; the second is followed more closely. */
  lemma JoinHistories(h: seq<Files>, h': seq<Files>, w: Watch, w': Watch)
    requires HistoryTracks(h, w) && HistoryTracks(h', w') && w'.past == h && !w.cover
    requires w'.owner == w.owner && w'.units == w.units && w'.found <= w.found
    requires forall p <- w.base :: p in w'.base && w'.base[p] == w.base[p]
    ensures HistoryTracks(h', w)
  {
    forall i | |w.past| - 1 <= i < |h'|
      ensures WriteAhead(h'[i], w.owner.token, w.units, w.found) && KeepsBase(w.base, h'[i])
      ensures i < |h'| - 1 ==> OwnedStep(h'[i], h'[i + 1], w.owner.token)
    {
      JoinedState(h, h', w, w', i);
    }
  }

  lemma JoinedState(h: seq<Files>, h': seq<Files>, w: Watch, w': Watch, i: nat)
    requires HistoryTracks(h, w) && HistoryTracks(h', w') && w'.past == h && |w.past| - 1 <= i < |h'|
    requires w'.owner == w.owner && w'.units == w.units && w'.found <= w.found
    requires forall p <- w.base :: p in w'.base && w'.base[p] == w.base[p]
    ensures WriteAhead(h'[i], w.owner.token, w.units, w.found) && KeepsBase(w.base, h'[i])
    ensures i < |h'| - 1 ==> OwnedStep(h'[i], h'[i + 1], w.owner.token)
  {
    hide OwnedStep, Covered, Recorded;
    if i < |h| - 1 {
      assert h'[i] == h[i] && h'[i + 1] == h[i + 1];
      hide WriteAhead, KeepsBase;
    } else {
      assert WriteAhead(h'[i], w.owner.token, w.units, w'.found) && KeepsBase(w'.base, h'[i]);
    }
  }

  /** What removal will leave alone includes everything that was there before the installation. */
  lemma BaseIsContained(e: Files, w: Watch, m: Manifest, own: Own, d: Manifest)
    requires StateTracks(e, w, m, own) && CanCleanUp(e, w, m, own)
    requires DurableManifest(e, w.owner.token) == Some(d)
    ensures forall p <- w.base :: p in BaseOf(e, w.owner.token, d) && BaseOf(e, w.owner.token, d)[p] == w.base[p]
  {
    assert ManifestPath(w.owner.token) in own.private;
  }

  /** Deletes whatever lies in the anchors directory, then the private directories, of a set without a manifest. */
  method RemoveUnrecordedSet(host: Host, token: string, m: Manifest, ghost w: Watch, ghost own0: Own)
    returns (ok: bool, ghost own: Own)
    requires Tracks(host, w, m, own0) && token == w.owner.token && own0.published == {}
    requires own0.private == {OwnerDir(token), AnchorsDir(token)}
    modifies host
    ensures Tracks(host, w, m, own) && own.created == own0.created
    ensures old(host.faults) == [] ==> host.faults == [] && own == Own({}, {}, {}, own0.created)
  {
    hide StateTracks, HistoryTracks;
    own := own0;
    PrivateFacts(host.entries, w, m, own);
    var names := set p <- host.entries | ParentOf(p) == Some(AnchorsDir(token));
    while names != {}
      invariant Tracks(host, w, m, own) && own == own0.(anchors := own.anchors)
      invariant forall p <- names :: p in host.entries && ParentOf(p) == Some(AnchorsDir(token))
      invariant forall id <- own.anchors :: AnchorPath(token, id) in names
      invariant old(host.faults) == [] ==> host.faults == []
      decreases names
    {
      var p :| p in names;
      var id := OnlyAnchors(host.entries, w, m, own, p);
      ghost var h, e := host.history, host.entries;
      ok := host.Unlink(p);
      if host.history != h {
        RemovingAnchor(e, w, m, own, id);
        own := own.(anchors := own.anchors - {id});
        StepTracks(h, host.entries, w, m, own);
      }
      if !ok {
        return;
      }
      names := names - {p};
    }
    ok, own := RemovePrivate(host, AnchorsDir(token), m, w, own);
    if !ok {
      return;
    }
    ok, own := RemovePrivate(host, OwnerDir(token), m, w, own);
  }

  lemma OnlyAnchors(e: Files, w: Watch, m: Manifest, own: Own, p: Path) returns (id: Id)
    requires StateTracks(e, w, m, own) && p in e && ParentOf(p) == Some(AnchorsDir(w.owner.token))
    ensures id in own.anchors && p == AnchorPath(w.owner.token, id) && !e[p].body.Directory?
  {
    assert p !in w.base;
    id := p.id;
  }

  /** Undoes a failed installation as far as the code does: with a manifest the set is removed like any other; without
      one only the private files go, and drop-in directories already created stay. */
  method CleanUp(host: Host, owner: Owner, units: seq<Unit>, m: Manifest, ghost w: Watch, ghost own0: Own)
    returns (ghost own: Own)
    requires Tracks(host, w, m, own0) && CanCleanUp(host.entries, w, m, own0) && !w.cover
    requires owner == w.owner && units == w.units
    modifies host
    ensures host.Valid() && HistoryTracks(host.history, w)
    ensures old(host.faults) == [] ==> host.faults == []
    ensures ManifestPath(owner.token) in own0.private && !old(MayRemove(host.entries, owner, units, false)) ==>
              host.history == old(host.history)
    ensures old(host.faults) == [] && own0.private == {OwnerDir(owner.token), AnchorsDir(owner.token)} ==>
              StateTracks(host.entries, w, m, own) && own == Own({}, {}, {}, own0.created)
  {
    own := own0;
    PrivateFacts(host.entries, w, m, own0);
    if ManifestPath(owner.token) in host.entries {
      ghost var h, d := host.history, DurableManifest(host.entries, owner.token).value;
      ghost var w' := WatchFrom(host, owner, d, units, false);
      BaseIsContained(host.entries, w, m, own0, d);
      hide StateTracks, HistoryTracks, MayRemove, CanCleanUp, BaseOf;
      LoadedIsDurable(host.entries, owner, units);
      var _, _ := RemoveOwnedSet(host, owner, units, false);
      if old(MayRemove(host.entries, owner, units, false)) {
        JoinHistories(h, host.history, w, w');
      }
    } else {
      var _, cleaned := RemoveUnrecordedSet(host, owner.token, m, w, own0);
      own := cleaned;
    }
  }

  lemma LoadedIsDurable(e: Files, owner: Owner, units: seq<Unit>)
    ensures MayRemove(e, owner, units, false) ==> Load(e, owner, units) == DurableManifest(e, owner.token)
  {
  }

  /** What a failed installation leaves when no fault occurred. If only a barrier of the other kind stood in the way, the
      whole set stays published; otherwise exactly the drop-in directories made before the first obstacle stay. */
  ghost predicate LeftBehind(base: Files, e: Files, token: string, units: seq<Unit>, modes: map<Unit, Kind>, reached: nat)
    requires forall u <- units :: u in modes
  {
    if AllFree(base, units, modes) then
      KeepsBase(base, e) && forall u <- units :: Recorded(e, token, Id(u, modes[u]))
    else
      && reached < |units| && AllFree(base, units[..reached], modes)
      && !IsFree(base, Id(units[reached], modes[units[reached]]))
      && RestoredUpTo(base, e, FreshDropIns(base, units[..reached], modes, {}))
      && forall u <- FreshDropIns(base, units[..reached], modes, {}) :: DropInDir(u) in e && DropInDir(u) !in base
  }

  /** A failed installation without a fault puts everything back if and only if it was stopped by a barrier of its own
      kind, or a file in place of a directory, before it had made any drop-in directory. */
  lemma FailureRestoresExactlyWhen(base: Files, e: Files, token: string, units: seq<Unit>, modes: map<Unit, Kind>,
                                   reached: nat)
    requires WellFormedUnits(units, modes) && OwnerDir(token) !in base && TreeClosed(base)
    requires LeftBehind(base, e, token, units, modes, reached)
    ensures e == base <==> !AllFree(base, units, modes) && FreshDropIns(base, units[..reached], modes, {}) == {}
  {
    if AllFree(base, units, modes) {
      var id := Id(units[0], modes[units[0]]);
      assert units[0] in units;
      assert PublicPath(id) in e && PublicPath(id) !in base;
    } else if FreshDropIns(base, units[..reached], modes, {}) == {} {
      NothingLeftIsRestored(base, e);
    }
  }

  lemma CleanedIsLeftBehind(e: Files, w: Watch, m: Manifest, own: Own, modes: map<Unit, Kind>, reached: nat)
    requires (forall u <- w.units :: u in modes) && StateTracks(e, w, m, own) && !AllFree(w.base, w.units, modes)
    requires reached < |w.units| && AllFree(w.base, w.units[..reached], modes)
    requires !IsFree(w.base, Id(w.units[reached], modes[w.units[reached]]))
    requires own == Own({}, {}, {}, FreshDropIns(w.base, w.units[..reached], modes, {}))
    ensures LeftBehind(w.base, e, w.owner.token, w.units, modes, reached)
  {
    EmptiedIsRestored(e, w, m, own);
  }

  lemma PublishedIsLeftBehind(e: Files, w: Watch, m: Manifest, own: Own, modes: map<Unit, Kind>, reached: nat)
    requires (forall u <- w.units :: u in modes) && StateTracks(e, w, m, own) && AllFree(w.base, w.units, modes)
    requires Stopped(e, w, modes, m, own, reached) && !Installable(w.base, w.units, modes)
    ensures LeftBehind(w.base, e, w.owner.token, w.units, modes, reached)
    ensures !MayRemove(e, w.owner, w.units, false)
  {
    TrackedStateIsGood(e, w, m, own);
    OtherBarrierIsNoticed(e, w, m, own, modes);
    assert forall u <- w.units :: Id(u, modes[u]) in own.published;
  }

  /** Makes the two private directories of a new owner. */
  method MakeOwnerDirectories(host: Host, token: string, m: Manifest, ghost w: Watch, ghost own0: Own)
    returns (ok: bool, ghost own: Own)
    requires Tracks(host, w, m, own0) && token == w.owner.token && own0.private == {}
    modifies host
    ensures Tracks(host, w, m, own)
    ensures ok ==> own == own0.(private := {OwnerDir(token), AnchorsDir(token)})
    ensures old(host.faults) == [] ==> host.faults == [] && ok
  {
    hide StateTracks, HistoryTracks;
    ok, own := MakeDirectory(host, OwnerDir(token), m, w, own0);
    if ok {
      ok, own := MakeDirectory(host, AnchorsDir(token), m, w, own);
      assert ok ==> own.private == {OwnerDir(token), AnchorsDir(token)};
    }
  }

  /** The installation, with its private directories made, and what is undone when it fails. */
  method InstallOrCleanUp(host: Host, owner: Owner, units: seq<Unit>, modes: map<Unit, Kind>, ghost w: Watch,
                          ghost own0: Own)
    returns (ok: bool, m: Manifest, ghost reached: nat)
    requires Tracks(host, w, Template(owner, units), own0) && owner == w.owner && units == w.units && !w.cover
    requires WellFormedUnits(units, modes)
    requires own0 == Own({OwnerDir(owner.token), AnchorsDir(owner.token)}, {}, {}, {})
    modifies host
    ensures host.Valid() && HistoryTracks(host.history, w)
    ensures ok ==> HeldSet(w.base, host.entries, owner, units, modes, m) && Installable(w.base, units, modes)
    ensures ok ==> CreatedUnits(m) <= UnitSet(units)
    ensures old(host.faults) == [] ==>
              && host.faults == []
              && (ok <==> Installable(w.base, units, modes))
              && (!ok ==> LeftBehind(w.base, host.entries, owner.token, units, modes, reached))
  {
    hide StateTracks, HistoryTracks, HeldSet, AllFree, Installable, CanCleanUp, LeftBehind, Stopped, MayRemove, CreatedUnits,
         UnitSet;
    ghost var own;
    ok, m, own, reached := TryInstall(host, owner, units, modes, w, own0);
    if !ok {
      ghost var e, before := host.entries, own;
      own := CleanUp(host, owner, units, m, w, own);
      if old(host.faults) == [] {
        FailureIsLeftBehind(e, host.entries, w, modes, m, before, own, reached);
      }
    }
  }

  /** Installs a set of start barriers: private directories and anchors first, then the manifest, then the links. */
  method Install(host: Host, owner: Owner, units: seq<Unit>, modes: map<Unit, Kind>)
    returns (ok: bool, m: Manifest, ghost reached: nat)
    requires host.Valid() && TreeClosed(host.entries)
    modifies host
    ensures host.Valid()
    ensures !WellFormedUnits(units, modes) || OwnerDir(owner.token) in old(host.entries) ==>
              !ok && host.history == old(host.history)
    ensures WellFormedUnits(units, modes) && OwnerDir(owner.token) !in old(host.entries) ==>
              HistoryTracks(host.history, old(InstallWatch(host, owner, units)))
    ensures ok ==> HeldSet(old(host.entries), host.entries, owner, units, modes, m)
                   && Installable(old(host.entries), units, modes) && CreatedUnits(m) <= UnitSet(units)
    ensures old(host.faults) == [] ==> host.faults == []
    ensures (&& old(host.faults) == []
             && WellFormedUnits(units, modes) && OwnerDir(owner.token) !in old(host.entries)) ==>
              && (ok <==> Installable(old(host.entries), units, modes))
              && (!ok ==> LeftBehind(old(host.entries), host.entries, owner.token, units, modes, reached))
  {
    m, reached := Template(owner, units), 0;
    if !WellFormedUnits(units, modes) || OwnerDir(owner.token) in host.entries {
      return false, m, reached;
    }
    ghost var w, own := InstallWatch(host, owner, units), Own({}, {}, {}, {});
    NothingOwnedYet(host.entries, w, own);
    HistoryStarts(host.entries, host.history, w, m, own);
    hide StateTracks, HistoryTracks, HeldSet, AllFree, Installable, WellFormedUnits, FoundBarriers, LeftBehind, UnitSet;
    ok, own := MakeOwnerDirectories(host, owner.token, m, w, own);
    if !ok {
      return;
    }
    ok, m, reached := InstallOrCleanUp(host, owner, units, modes, w, own);
  }

  lemma FailureIsLeftBehind(e: Files, e': Files, w: Watch, modes: map<Unit, Kind>, m: Manifest, own: Own, own': Own,
                            reached: nat)
    requires (forall u <- w.units :: u in modes) && StateTracks(e, w, m, own)
    requires Stopped(e, w, modes, m, own, reached) && !Installable(w.base, w.units, modes)
    requires ManifestPath(w.owner.token) in own.private && !MayRemove(e, w.owner, w.units, false) ==> e' == e
    requires own.private == {OwnerDir(w.owner.token), AnchorsDir(w.owner.token)} ==>
               StateTracks(e', w, m, own') && own' == Own({}, {}, {}, own.created)
    ensures LeftBehind(w.base, e', w.owner.token, w.units, modes, reached)
  {
    hide StateTracks, MayRemove, LeftBehind, Installable, IsFree;
    if AllFree(w.base, w.units, modes) {
      PublishedIsLeftBehind(e, w, m, own, modes, reached);
    } else {
      CleanedIsLeftBehind(e', w, m, own', modes, reached);
    }
  }

  // ----- The whole life of a set ---------------------------------------------------------------------------------

  /** A set that removal accepts, and that leaves `base` when it is removed. */
  ghost predicate Removable(base: Files, e: Files, owner: Owner, units: seq<Unit>) {
    && MayRemove(e, owner, units, false)
    && (LockMatches(e, owner) <==> LockMatches(base, owner))
    && var m := Load(e, owner, units).value;
       BaseOf(e, owner.token, m) == base && OccupiedUnits(base, m.created) == {}
  }

  lemma OwnedIsRemovable(base: Files, e: Files, owner: Owner, units: seq<Unit>, modes: map<Unit, Kind>, m: Manifest,
                         published: set<Id>)
    requires WellFormedUnits(units, modes) && (forall u <- units :: u in modes) && TreeClosed(base)
    requires OwnedSet(base, e, owner, units, modes, m, published) && MayRemove(e, owner, units, false)
    ensures Removable(base, e, owner, units)
  {
    hide OwnedSet, MayRemove, Load, BaseOf, OccupiedUnits, LockMatches, WellFormedUnits, TreeClosed;
    OwnedIsLoaded(base, e, owner, units, modes, m, published);
    NothingIsOccupied(base, e, owner, units, modes, m, published);
    OwnedLock(base, e, owner, units, modes, m, published);
  }

  lemma NothingIsOccupied(base: Files, e: Files, owner: Owner, units: seq<Unit>, modes: map<Unit, Kind>, m: Manifest,
                          published: set<Id>)
    requires (forall u <- units :: u in modes) && OwnedSet(base, e, owner, units, modes, m, published)
    requires TreeClosed(base)
    ensures OccupiedUnits(base, m.created) == {}
  {
  }

  lemma OwnedLock(base: Files, e: Files, owner: Owner, units: seq<Unit>, modes: map<Unit, Kind>, m: Manifest,
                  published: set<Id>)
    requires (forall u <- units :: u in modes) && OwnedSet(base, e, owner, units, modes, m, published)
    ensures LockMatches(e, owner) <==> LockMatches(base, owner)
  {
    assert !HeldOwn(owner.token, m, published).Includes(owner.token, ActivationLock);
  }

  lemma HeldIsRemovable(base: Files, e: Files, owner: Owner, units: seq<Unit>, modes: map<Unit, Kind>, m: Manifest)
    requires HeldSet(base, e, owner, units, modes, m) && WellFormedUnits(units, modes) && TreeClosed(base)
    ensures Removable(base, e, owner, units)
  {
    hide OwnedSet, WellFormedUnits, TreeClosed, Load, PublicStateMatches, BaseOf, Removable;
    HeldIsAccepted(base, e, owner, units, modes, m);
    HeldIsPublic(e, m);
    OwnedIsRemovable(base, e, owner, units, modes, m, DesiredSet(units, modes));
  }

  /** Unless it left an unrecorded anchor, a transition that no fault hit leaves a set whose removal restores everything. */
  lemma EndedIsRemovable(ending: Ending, ok: bool, e0: Files, e: Files, base: Files, owner: Owner, units: seq<Unit>,
                         modes0: map<Unit, Kind>, modes: map<Unit, Kind>, m0: Manifest, m: Manifest)
    requires HeldSet(base, e0, owner, units, modes0, m0) && WellFormedUnits(units, modes0) && TreeClosed(base)
    requires WellFormedUnits(units, modes) && (forall u <- units :: u in modes)
    requires Ends(ending, ok, e0, e, base, owner, units, modes, m0, m) && !ending.Locked?
    requires MayRemove(e, owner, units, false)
    ensures Removable(base, e, owner, units)
  {
    hide HeldSet, OwnedSet, WellFormedUnits, TreeClosed, Load, MayRemove, BaseOf, Removable, CanMove, CanMoveTo, DesiredSet;
    match ending
    case Moved => HeldIsRemovable(base, e, owner, units, modes, m);
    case Untouched => HeldIsRemovable(base, e, owner, units, modes0, m0);
    case Midway =>
      var i: nat :| FirstStuck(e0, units, modes, m0.anchors.Keys, i)
                    && OwnedSet(base, e, owner, units, modes, m, (set id <- m0.active) + DesiredSet(units[..i], modes));
      OwnedIsRemovable(base, e, owner, units, modes, m, (set id <- m0.active) + DesiredSet(units[..i], modes));
  }

  /** What removal takes for foreign is what was there before the set, and at most drop-in directories within the limit. */
  lemma RemainsIsBounded(e: Files, w: Watch, limit: set<Unit>)
    requires Remains(e, w, limit) && w.found == {} && MayRemove(e, w.owner, w.units, false)
    ensures var m := Load(e, w.owner, w.units).value;
            CreatedUnits(m) <= limit && RestoredUpTo(w.base, BaseOf(e, w.owner.token, m), limit)
  {
    var m, own :| StateTracks(e, w, m, own) && own.created <= limit && RecordsAtMost(e, w.owner.token, own.created);
    TrackedIsBounded(e, w, m, own);
  }

  lemma TrackedIsBounded(e: Files, w: Watch, m: Manifest, own: Own)
    requires StateTracks(e, w, m, own) && RecordsAtMost(e, w.owner.token, own.created)
    requires w.found == {} && Load(e, w.owner, w.units).Some?
    ensures var d := Load(e, w.owner, w.units).value;
            CreatedUnits(d) <= own.created && RestoredUpTo(w.base, BaseOf(e, w.owner.token, d), own.created)
  {
    hide StateTracks, OwnOf, CreatedUnits, RecordsMatch, OwnerDirectoryMatches;
    var d := Load(e, w.owner, w.units).value;
    forall p <- w.base
      ensures p in e && e[p] == w.base[p] && !OwnOf(e, w.owner.token, d).Includes(w.owner.token, p)
    {
      BasePathIsForeign(e, w, m, own, d, p);
    }
    forall p <- e | p !in w.base && !OwnOf(e, w.owner.token, d).Includes(w.owner.token, p)
      ensures p.DropInDir? && p.unit in own.created
    {
      OwnedPathIsRecorded(e, w, m, own, d, p);
    }
  }

  lemma BasePathIsForeign(e: Files, w: Watch, m: Manifest, own: Own, d: Manifest, p: Path)
    requires StateTracks(e, w, m, own) && RecordsAtMost(e, w.owner.token, own.created) && w.found == {}
    requires Load(e, w.owner, w.units) == Some(d) && p in w.base
    ensures p in e && e[p] == w.base[p] && !OwnOf(e, w.owner.token, d).Includes(w.owner.token, p)
  {
    hide OwnerDirectoryMatches, Backed, CoversUnits;
  }

  lemma OwnedPathIsRecorded(e: Files, w: Watch, m: Manifest, own: Own, d: Manifest, p: Path)
    requires StateTracks(e, w, m, own) && Load(e, w.owner, w.units) == Some(d)
    requires p in e && p !in w.base
    ensures OwnOf(e, w.owner.token, d).Includes(w.owner.token, p) || (p.DropInDir? && p.unit in own.created)
  {
    hide RecordsMatch, CreatedUnits, FoundIn, CoversUnits;
  }

  lemma HeldRemains(base: Files, e: Files, past: seq<Files>, owner: Owner, units: seq<Unit>, modes: map<Unit, Kind>,
                    m: Manifest)
    requires HeldSet(base, e, owner, units, modes, m) && WellFormedUnits(units, modes)
    ensures Remains(e, Watch(past, base, owner, units, {}, false), CreatedUnits(m))
  {
    hide HeldSet, WellFormedUnits, StateTracks, PublicStateMatches, Load, BaseOf;
    HeldIsAccepted(base, e, owner, units, modes, m);
    HeldIsPublic(e, m);
    LoadedStateTracks(e, owner, units, m, past, false);
    LoadedRecords(e, owner, units, m);
    Remaining(e, Watch(past, base, owner, units, {}, false), m, OwnOf(e, owner.token, m), CreatedUnits(m));
  }

  lemma LoadedRecords(e: Files, owner: Owner, units: seq<Unit>, m: Manifest)
    requires Load(e, owner, units) == Some(m)
    ensures RecordsAtMost(e, owner.token, CreatedUnits(m))
  {
  }

  /** Removes what a set, or a transition that failed, has left. */
  method RemoveRemaining(host: Host, owner: Owner, units: seq<Unit>, ghost w: Watch)
    returns (r: Removal, ghost left: set<Unit>)
    requires host.Valid() && Remains(host.entries, w, UnitSet(units))
    requires w.owner == owner && w.units == units && w.found == {}
    modifies host
    ensures host.Valid()
    ensures r.Removed? ==> && left == (set u <- units | DropInDir(u) !in w.base)
                           && RestoredUpTo(w.base, host.entries, left)
    ensures old(host.faults) == [] ==>
              && host.faults == []
              && (!old(MayRemove(host.entries, owner, units, false)) ==> !r.Removed?)
              && (old(Removable(w.base, host.entries, owner, units)) ==>
                    && (r.Removed? <==> LockMatches(w.base, owner))
                    && (r.Removed? ==> host.entries == w.base))
  {
    hide HistoryTracks, MayRemove, Remains, RestoredUpTo, BaseOf, Load, OccupiedUnits, CreatedUnits, UnitSet, LockMatches;
    MayRemoveWithLock(host.entries, owner, units);
    ghost var e := host.entries;
    if MayRemove(e, owner, units, false) {
      RemainsIsBounded(e, w, UnitSet(units));
    }
    r, left := RemoveOwnedSet(host, owner, units, true);
    if r.Removed? {
      ghost var foreign := BaseOf(e, owner.token, Load(e, owner, units).value);
      if old(host.faults) == [] && left == {} {
        NothingLeftIsRestored(foreign, host.entries);
      }
      RestoredTwice(w.base, foreign, host.entries, units, left);
      left := set u <- units | DropInDir(u) !in w.base;
    }
  }

  lemma MayRemoveWithLock(e: Files, owner: Owner, units: seq<Unit>)
    ensures MayRemove(e, owner, units, true) <==> MayRemove(e, owner, units, false) && LockMatches(e, owner)
    ensures MayRemove(e, owner, units, false) ==> Load(e, owner, units).Some?
  {
  }

  lemma RestoredTwice(base: Files, foreign: Files, e: Files, units: seq<Unit>, left: set<Unit>)
    requires RestoredUpTo(base, foreign, UnitSet(units)) && RestoredUpTo(foreign, e, left) && left <= UnitSet(units)
    ensures RestoredUpTo(base, e, (set u <- units | DropInDir(u) !in base))
  {
  }

  /** How a request to move a held set ends when no fault hits it; a malformed request changes nothing. */
  ghost function RequestEnding(e: Files, units: seq<Unit>, modes: map<Unit, Kind>, m: Manifest): Ending {
    if WellFormedUnits(units, modes) then EndingOf(e, units, modes, m.anchors.Keys) else Untouched
  }

  /** One transition in the life of a set, and what it leaves for removal. */
  method MoveOnce(host: Host, owner: Owner, units: seq<Unit>, modes0: map<Unit, Kind>, modes: map<Unit, Kind>,
                  m0: Manifest, ghost base: Files)
    returns (ok: bool, m: Manifest, ghost w: Watch)
    requires host.Valid() && TreeClosed(base) && WellFormedUnits(units, modes0)
    requires HeldSet(base, host.entries, owner, units, modes0, m0) && CreatedUnits(m0) <= UnitSet(units)
    modifies host
    ensures host.Valid()
    ensures ok ==> HeldSet(base, host.entries, owner, units, modes, m) && CreatedUnits(m) <= UnitSet(units)
                   && WellFormedUnits(units, modes)
    ensures w.base == base && w.owner == owner && w.units == units && w.found == {}
    ensures Remains(host.entries, w, UnitSet(units))
    ensures old(host.faults) == [] ==>
              && host.faults == []
              && var ending := RequestEnding(old(host.entries), units, modes, m0);
                 && (ok <==> ending.Moved?)
                 && (if ending.Locked? then !MayRemove(host.entries, owner, units, false)
                     else Removable(base, host.entries, owner, units))
  {
    hide HistoryTracks, HeldSet, BaseOf, MayRemove, WellFormedUnits, IsHeld, TreeClosed, Load, Remains, Removable, EndingOf,
         UnitSet, CreatedUnits, PublicStateMatches;
    ghost var e0 := host.entries;
    HeldIsAccepted(base, e0, owner, units, modes0, m0);
    w := Watch(host.history, base, owner, units, {}, false);
    if !WellFormedUnits(units, modes) {
      HeldRemains(base, e0, host.history, owner, units, modes0, m0);
      MoreRemains(e0, w, CreatedUnits(m0), UnitSet(units));
      HeldIsRemovable(base, e0, owner, units, modes0, m0);
      ok, m := Transition(host, owner, units, modes);
      return;
    }
    DesiredCovers(units, modes);
    w := WatchFrom(host, owner, m0, units, true);
    ok, m := Transition(host, owner, units, modes);
    MoreRemains(host.entries, w, CreatedUnits(m0) + UnitSet(units), UnitSet(units));
    ghost var ending := EndingOf(e0, units, modes, m0.anchors.Keys);
    if old(host.faults) == [] {
      EndedOk(ending, ok, e0, host.entries, base, owner, units, modes, m0, m);
      if !ending.Locked? {
        EndedIsRemovable(ending, ok, e0, host.entries, base, owner, units, modes0, modes, m0, m);
      }
    }
  }

  lemma EndedOk(ending: Ending, ok: bool, e0: Files, e: Files, base: Files, owner: Owner, units: seq<Unit>,
                modes: map<Unit, Kind>, m0: Manifest, m: Manifest)
    requires (forall u <- units :: u in modes) && Ends(ending, ok, e0, e, base, owner, units, modes, m0, m)
    ensures ok <==> ending.Moved?
  {
  }

  /** Installation, any number of transitions up to the first that fails, removal. Whenever the removal reports success,
      everything is as it was before, up to drop-in directories of these units that were not there before. Without faults
      nothing at all is left, and the removal succeeds if and only if the lock is still the owner's and no transition
      left an unrecorded anchor: a set that failed while moving can still be removed. */
  method WholeLife(host: Host, owner: Owner, units: seq<Unit>, modes: seq<map<Unit, Kind>>)
    returns (moves: nat, r: Removal, ghost left: set<Unit>, ghost last: Files, ghost held: Manifest)
    requires host.Valid() && TreeClosed(host.entries) && modes != []
    modifies host
    ensures host.Valid() && moves <= |modes|
    ensures r.Removed? ==> && left == (set u <- units | DropInDir(u) !in old(host.entries))
                           && RestoredUpTo(old(host.entries), host.entries, left)
    ensures moves > 0 ==> HeldSet(old(host.entries), last, owner, units, modes[moves - 1], held)
    ensures old(host.faults) == [] ==>
              && (r.Removed? ==> host.entries == old(host.entries))
              && (moves == 0 <==> !(&& WellFormedUnits(units, modes[0]) && OwnerDir(owner.token) !in old(host.entries)
                                    && Installable(old(host.entries), units, modes[0])))
              && (0 < moves < |modes| ==> !RequestEnding(last, units, modes[moves], held).Moved?)
              && (r.Removed? <==> && moves > 0
                                  && ActivationLock in old(host.entries)
                                  && old(host.entries)[ActivationLock].body == LockFile(owner)
                                  && !(moves < |modes| && RequestEnding(last, units, modes[moves], held).Locked?))
  {
    hide HistoryTracks, HeldSet, Installable, BaseOf, MayRemove, WellFormedUnits, IsHeld, TreeClosed, LeftBehind,
         RestoredUpTo, LockMatches, Load, Remains, Removable, RequestEnding, UnitSet, CreatedUnits;
    ghost var base := host.entries;
    r, left, last := Failed, {}, base;
    var ok, m, _ := Install(host, owner, units, modes[0]);
    moves, held := 0, m;
    if !ok {
      return;
    }
    moves, last := 1, host.entries;
    ghost var w := Watch(host.history, base, owner, units, {}, false);
    InstalledRemains(base, last, w, modes[0], m);
    while moves < |modes|
      invariant host.Valid() && 1 <= moves <= |modes| && TreeClosed(base) && last == host.entries && held == m
      invariant HeldSet(base, last, owner, units, modes[moves - 1], m) && CreatedUnits(m) <= UnitSet(units)
      invariant w.base == base && w.owner == owner && w.units == units && w.found == {}
      invariant WellFormedUnits(units, modes[moves - 1]) && Remains(last, w, UnitSet(units))
      invariant old(host.faults) == [] ==> host.faults == [] && Removable(base, last, owner, units)
    {
      var next;
      ok, next, w := MoveOnce(host, owner, units, modes[moves - 1], modes[moves], m, base);
      if !ok {
        break;
      }
      m, held, last := next, next, host.entries;
      moves := moves + 1;
    }
    r, left := RemoveRemaining(host, owner, units, w);
    LockIsOwners(base, owner);
  }

  lemma LockIsOwners(e: Files, owner: Owner)
    ensures LockMatches(e, owner) <==> ActivationLock in e && e[ActivationLock].body == LockFile(owner)
  {
  }

  lemma InstalledRemains(base: Files, e: Files, w: Watch, modes: map<Unit, Kind>, m: Manifest)
    requires HeldSet(base, e, w.owner, w.units, modes, m) && WellFormedUnits(w.units, modes) && TreeClosed(base)
    requires w == Watch(w.past, base, w.owner, w.units, {}, false) && CreatedUnits(m) <= UnitSet(w.units)
    ensures Remains(e, w, UnitSet(w.units)) && Removable(base, e, w.owner, w.units)
  {
    hide HeldSet, WellFormedUnits, TreeClosed, Remains, Removable, CreatedUnits, UnitSet;
    HeldRemains(base, e, w.past, w.owner, w.units, modes, m);
    MoreRemains(e, w, CreatedUnits(m), UnitSet(w.units));
    HeldIsRemovable(base, e, w.owner, w.units, modes, m);
  }

  // ----- Recovery after the owner died ----------------------------------------------------------------------------

  /** What reconciliation found: no readable lock, a live owner, a dead owner without a set of this format, or a dead
      owner's set that was removed or could not be. */
  datatype Reconciliation = Unverified | Live | NoSet | Stale(removal: Removal)

  /** The owner that the activation lock names, if it is readable. */
  function LockOwner(e: Files): Option<Owner> {
    if ActivationLock in e && e[ActivationLock].body.LockFile? then Some(e[ActivationLock].body.owner) else None
  }

  /** Removes the set of an owner that is no longer running. A live owner's set, or anything at all while the lock cannot
      be read, is left exactly as it is. */
  method Reconcile(host: Host, units: seq<Unit>, isLive: Owner -> bool)
    returns (r: Reconciliation, ghost left: set<Unit>)
    requires host.Valid()
    modifies host
    ensures host.Valid()
    ensures r.Unverified? <==> old(LockOwner(host.entries)) == None
    ensures r.Live? <==> old(LockOwner(host.entries)).Some? && isLive(old(LockOwner(host.entries)).value)
    ensures r.NoSet? <==>
              var owner := old(LockOwner(host.entries));
              owner.Some? && !isLive(owner.value) && OwnerDir(owner.value.token) !in old(host.entries)
    ensures !r.Stale? ==> host.history == old(host.history)
    ensures r.Stale? ==>
              var owner := old(LockOwner(host.entries)).value;
              && !isLive(owner) && OwnerDir(owner.token) in old(host.entries)
              && (!old(MayRemove(host.entries, owner, units, true)) ==>
                    r.removal.Failed? && host.history == old(host.history))
              && (old(MayRemove(host.entries, owner, units, true)) ==>
                    var m := old(Load(host.entries, owner, units).value);
                    && HistoryTracks(host.history, old(WatchFrom(host, owner, m, units, false)))
                    && (r.removal.Removed? ==> RestoredUpTo(old(BaseOf(host.entries, owner.token, m)), host.entries, left))
                    && (old(host.faults) == [] ==> r.removal.Removed?))
  {
    left := {};
    if ActivationLock !in host.entries || !host.entries[ActivationLock].body.LockFile? {
      return Unverified, left;
    }
    var lock := host.entries[ActivationLock];
    var owner := lock.body.owner;
    if isLive(owner) {
      return Live, left;
    }
    if OwnerDir(owner.token) !in host.entries {
      return NoSet, left;
    }
    hide HistoryTracks, MayRemove, RestoredUpTo;
    var removal;
    ghost var e := host.entries;
    removal, left := RemoveOwnedSet(host, owner, units, true);
    if removal.Removed? {
      LockIsForeign(e, owner, units, host.entries, left);
    }
    if ActivationLock !in host.entries || host.entries[ActivationLock] != lock {
      removal := Failed;
    }
    r := Stale(removal);
  }

  lemma LockIsForeign(e: Files, owner: Owner, units: seq<Unit>, e': Files, left: set<Unit>)
    requires ActivationLock in e && MayRemove(e, owner, units, true)
    requires RestoredUpTo(BaseOf(e, owner.token, Load(e, owner, units).value), e', left)
    ensures ActivationLock in e' && e'[ActivationLock] == e[ActivationLock]
  {
    assert ActivationLock in BaseOf(e, owner.token, Load(e, owner, units).value);
  }
}
