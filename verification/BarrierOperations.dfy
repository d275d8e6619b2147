/** The operations on start barriers, with what holds after every single step of each, faults included. */
module BarrierOperations {
  import opened Prelude
  import opened StartBarrier

  // ----- Following one operation ------------------------------------------------------------------------

  /** What an operation is followed against: the history before it, everything that is not this owner's, and whether
      every unit must stay covered. */
  datatype Watch = Watch(past: seq<Files>, base: Files, owner: Owner, units: seq<Unit>, found: set<Id>, cover: bool)

  /** Whatever is published is backed by the durable manifest. */
  ghost predicate Backed(e: Files, token: string, m: Manifest, own: Own) {
    own.published != {} ==>
      && DurableManifest(e, token).Some?
      && var d := DurableManifest(e, token).value;
         Extends(d, m) && own.published <= own.anchors && own.published <= d.anchors.Keys
  }

  ghost predicate StateTracks(e: Files, w: Watch, m: Manifest, own: Own) {
    && Arranged(w.base, e, w.owner, m, own) && Backed(e, w.owner.token, m, own)
    && FoundIn(w.base, w.units, w.found) && Unclaimed(w.base, w.owner.token)
    && (w.cover ==> CoversUnits(own.published, w.units) && own.published != {})
  }

  /** Every entry of `base` is still there, unchanged. */
  ghost predicate KeepsBase(base: Files, e: Files) {
    forall p <- base :: p in e && e[p] == base[p]
  }

  /** The history continues the past, every state and step of it is guarded, nothing foreign is ever touched, and, if
      asked for, no unit is ever left without a barrier. */
  ghost predicate HistoryTracks(h: seq<Files>, w: Watch) {
    && w.past != [] && w.past <= h
    && Guarded(h, |w.past| - 1, w.owner.token, w.units, w.found)
    && (forall i :: |w.past| - 1 <= i < |h| ==> KeepsBase(w.base, h[i]))
    && (w.cover ==> NeverUncovered(h, |w.past| - 1, w.owner.token, w.units))
  }

  ghost predicate Tracks(host: Host, w: Watch, m: Manifest, own: Own)
    reads host
  {
    host.Valid() && HistoryTracks(host.history, w) && StateTracks(host.entries, w, m, own)
  }

  lemma TrackedStateIsGood(e: Files, w: Watch, m: Manifest, own: Own)
    requires StateTracks(e, w, m, own)
    ensures WriteAhead(e, w.owner.token, w.units, w.found)
    ensures forall id <- own.published :: Recorded(e, w.owner.token, id)
    ensures w.cover ==> Covered(e, w.owner.token, w.units)
    ensures KeepsBase(w.base, e)
  {
    if own.published == {} {
      UnpublishedIsWriteAhead(w.base, e, w.owner, m, own, w.units, w.found);
    } else {
      ArrangedIsWriteAhead(w.base, e, w.owner, m, DurableManifest(e, w.owner.token).value, own, w.units, w.found);
    }
  }

  lemma HistoryStarts(e: Files, h: seq<Files>, w: Watch, m: Manifest, own: Own)
    requires h != [] && h[|h| - 1] == e && w.past == h && StateTracks(e, w, m, own)
    ensures HistoryTracks(h, w)
  {
    TrackedStateIsGood(e, w, m, own);
  }

  /** A step into a tracked state that touches public paths only as an owned step may. */
  lemma StepTracks(h: seq<Files>, e: Files, w: Watch, m: Manifest, own: Own)
    requires HistoryTracks(h, w) && StateTracks(e, w, m, own) && OwnedStep(h[|h| - 1], e, w.owner.token)
    ensures HistoryTracks(h + [e], w)
  {
    hide StateTracks, OwnedStep, WriteAhead, Covered, KeepsBase;
    TrackedStateIsGood(e, w, m, own);
    GuardedExtends(h, e, |w.past| - 1, w.owner.token, w.units, w.found);
  }

  // ----- The effect of each kind of step on a tracked state -----------------------------------------------

  lemma AddingDropIn(e: Files, w: Watch, m: Manifest, own: Own, unit: Unit, identity: int)
    requires StateTracks(e, w, m, own) && DropInDir(unit) !in e
    ensures var e' := e[DropInDir(unit) := Node(identity, Directory)];
            && StateTracks(e', w, m.(created := m.created + [DirRecord(unit, identity)]),
                           own.(created := own.created + {unit}))
            && StateTracks(e', w, m, own.(created := own.created + {unit}))
            && OwnedStep(e, e', w.owner.token)
  {
    hide Arranged, CoversUnits, FoundIn, Unclaimed;
    NewDropInKeepsArrangement(w.base, e, w.owner, m, own, unit, identity);
  }

  lemma NewDropInKeepsArrangement(base: Files, e: Files, owner: Owner, m: Manifest, own: Own, unit: Unit, identity: int)
    requires Arranged(base, e, owner, m, own) && DropInDir(unit) !in e
    ensures var e' := e[DropInDir(unit) := Node(identity, Directory)];
            && Arranged(base, e', owner, m, own.(created := own.created + {unit}))
            && Arranged(base, e', owner, m.(created := m.created + [DirRecord(unit, identity)]),
                        own.(created := own.created + {unit}))
  {
    assert Arranged(base, e[DropInDir(unit) := Node(identity, Directory)], owner, m,
                    own.(created := own.created + {unit}));
  }

  lemma AddingAnchor(e: Files, w: Watch, m: Manifest, own: Own, id: Id, identity: int)
    requires StateTracks(e, w, m, own) && AnchorPath(w.owner.token, id) !in e && id !in m.anchors
    ensures var e' := e[AnchorPath(w.owner.token, id) := Node(identity, AnchorBody(w.owner, id))];
            && StateTracks(e', w, m.(anchors := m.anchors[id := identity]), own.(anchors := own.anchors + {id}))
            && OwnedStep(e, e', w.owner.token)
  {
  }

  /** A new record in memory changes nothing about the files. */
  lemma RecordingAnchor(e: Files, w: Watch, m: Manifest, own: Own, id: Id, identity: int)
    requires StateTracks(e, w, m, own) && id !in m.anchors
    ensures StateTracks(e, w, m.(anchors := m.anchors[id := identity]), own)
  {
  }

  lemma AddingPrivate(e: Files, w: Watch, m: Manifest, own: Own, p: Path, node: Node)
    requires StateTracks(e, w, m, own) && IsPrivate(w.owner.token, p) && p !in e && IsPrivateBody(p, node.body)
    ensures StateTracks(e[p := node], w, m, own.(private := own.private + {p}))
    ensures OwnedStep(e, e[p := node], w.owner.token)
  {
  }

  /** A step that leaves every public path alone is an owned step. */
  lemma PrivateStepIsOwned(e: Files, e': Files, token: string)
    requires forall id: Id :: PublicPath(id) in e <==> PublicPath(id) in e'
    requires forall id: Id :: PublicPath(id) in e ==> e[PublicPath(id)] == e'[PublicPath(id)]
    ensures OwnedStep(e, e', token)
  {
  }

  ghost function Replaced(e: Files, token: string): Files
    requires NextManifestPath(token) in e
  {
    e[ManifestPath(token) := e[NextManifestPath(token)]] - {NextManifestPath(token)}
  }

  lemma OverwritingKeepsArrangement(base: Files, e: Files, owner: Owner, m: Manifest, own: Own, p: Path, node: Node)
    requires Arranged(base, e, owner, m, own) && p in own.private && IsPrivateBody(p, node.body)
    ensures Arranged(base, e[p := node], owner, m, own)
  {
  }

  lemma DroppingKeepsArrangement(base: Files, e: Files, owner: Owner, m: Manifest, own: Own, p: Path)
    requires Arranged(base, e, owner, m, own) && p in own.private
    ensures Arranged(base, e - {p}, owner, m, own.(private := own.private - {p}))
  {
  }

  /** Renaming the next manifest over the current one makes what is in memory durable. */
  lemma ReplacingManifest(e: Files, w: Watch, m: Manifest, own: Own)
    requires StateTracks(e, w, m, own) && own.published <= own.anchors
    requires ManifestPath(w.owner.token) in own.private && NextManifestPath(w.owner.token) in own.private
    requires NextManifestPath(w.owner.token) in e && e[NextManifestPath(w.owner.token)].body == ManifestFile(m)
    ensures var e' := Replaced(e, w.owner.token);
            && StateTracks(e', w, m, own.(private := own.private - {NextManifestPath(w.owner.token)}))
            && DurableManifest(e', w.owner.token) == Some(m)
            && OwnedStep(e, e', w.owner.token)
  {
    hide OwnedStep, CoversUnits, FoundIn, Unclaimed, Arranged;
    assert own.published <= m.anchors.Keys by {
      AnchorsAreRecorded(w.base, e, w.owner, m, own);
    }
    var current, next := ManifestPath(w.owner.token), NextManifestPath(w.owner.token);
    OverwritingKeepsArrangement(w.base, e, w.owner, m, own, current, e[next]);
    DroppingKeepsArrangement(w.base, e[current := e[next]], w.owner, m, own, next);
    PrivateStepIsOwned(e, Replaced(e, w.owner.token), w.owner.token);
  }

  lemma AnchorsAreRecorded(base: Files, e: Files, owner: Owner, m: Manifest, own: Own)
    requires Arranged(base, e, owner, m, own)
    ensures own.anchors <= m.anchors.Keys
  {
  }

  /** Linking a recorded anchor to its free public path. */
  lemma Publishing(e: Files, w: Watch, m: Manifest, own: Own, id: Id)
    requires StateTracks(e, w, m, own) && id in own.anchors && PublicPath(id) !in e
    requires DurableManifest(e, w.owner.token) == Some(m) && own.published <= own.anchors
    ensures var e' := e[PublicPath(id) := e[AnchorPath(w.owner.token, id)]];
            && StateTracks(e', w, m, own.(published := own.published + {id}))
            && OwnedStep(e, e', w.owner.token)
            && DurableManifest(e', w.owner.token) == Some(m) && e'[PublicPath(id)].identity == m.anchors[id]
  {
    hide Unclaimed, FoundIn;
    PublishingKeepsArrangement(w.base, e, w.owner, m, own, id);
    var e' := e[PublicPath(id) := e[AnchorPath(w.owner.token, id)]];
    assert Recorded(e', w.owner.token, id);
    assert OwnedStep(e, e', w.owner.token) by {
      hide Arranged, StateTracks, Recorded;
    }
    hide Arranged, OwnedStep, Recorded;
  }

  lemma PublishingKeepsArrangement(base: Files, e: Files, owner: Owner, m: Manifest, own: Own, id: Id)
    requires Arranged(base, e, owner, m, own) && id in own.anchors && PublicPath(id) !in e
    ensures Arranged(base, e[PublicPath(id) := e[AnchorPath(owner.token, id)]], owner, m,
                     own.(published := own.published + {id}))
  {
    assert forall other: Id :: PublicPath(other) == PublicPath(id) ==> other == id;
    assert forall p: Path :: own.(published := own.published + {id}).Includes(owner.token, p)
                             <==> own.Includes(owner.token, p) || p == PublicPath(id);
  }

  lemma RetiringIsOwned(e: Files, token: string, id: Id)
    requires Recorded(e, token, id)
    ensures OwnedStep(e, e - {PublicPath(id)}, token)
  {
    hide Recorded;
  }

  lemma RetiringKeepsArrangement(base: Files, e: Files, owner: Owner, m: Manifest, own: Own, id: Id)
    requires Arranged(base, e, owner, m, own) && id in own.published
    ensures Arranged(base, e - {PublicPath(id)}, owner, m, own.(published := own.published - {id}))
    ensures DurableManifest(e - {PublicPath(id)}, owner.token) == DurableManifest(e, owner.token)
  {
    assert forall other: Id :: PublicPath(other) == PublicPath(id) ==> other == id;
    assert forall p: Path :: own.(published := own.published - {id}).Includes(owner.token, p)
                             <==> own.Includes(owner.token, p) && p != PublicPath(id);
  }

  /** Removing a published barrier that is not the last one of its unit, or when units need not stay covered. */
  lemma Retiring(e: Files, w: Watch, m: Manifest, own: Own, id: Id)
    requires StateTracks(e, w, m, own) && id in own.published
    requires w.cover ==> CoversUnits(own.published - {id}, w.units) && own.published != {id}
    ensures StateTracks(e - {PublicPath(id)}, w, m, own.(published := own.published - {id}))
    ensures OwnedStep(e, e - {PublicPath(id)}, w.owner.token)
  {
    hide Arranged, OwnedStep, Recorded, CoversUnits, WriteAhead, Covered, FoundIn;
    TrackedStateIsGood(e, w, m, own);
    RetiringIsOwned(e, w.owner.token, id);
    RetiringKeepsArrangement(w.base, e, w.owner, m, own, id);
  }

  lemma RemovingAnchor(e: Files, w: Watch, m: Manifest, own: Own, id: Id)
    requires StateTracks(e, w, m, own) && own.published == {} && id in own.anchors
    ensures var e' := e - {AnchorPath(w.owner.token, id)};
            && StateTracks(e', w, m, own.(anchors := own.anchors - {id})) && OwnedStep(e, e', w.owner.token)
  {
  }

  lemma RemovingPrivate(e: Files, w: Watch, m: Manifest, own: Own, p: Path)
    requires StateTracks(e, w, m, own) && own.published == {} && p in own.private
    ensures StateTracks(e - {p}, w, m, own.(private := own.private - {p}))
    ensures OwnedStep(e, e - {p}, w.owner.token)
  {
  }

  lemma RemovingDropIn(e: Files, w: Watch, m: Manifest, own: Own, unit: Unit, rest: seq<DirRecord>)
    requires StateTracks(e, w, m, own) && own.published == {} && unit in own.created
    requires m.created != [] && rest == m.created[..|m.created| - 1] && m.created[|m.created| - 1].unit == unit
    ensures StateTracks(e - {DropInDir(unit)}, w, m.(created := rest), own.(created := own.created - {unit}))
    ensures OwnedStep(e, e - {DropInDir(unit)}, w.owner.token)
  {
  }

  // ----- Steps shared by the operations -----------------------------------------------------------------

  /** No operation before removal takes a drop-in directory away. */
  ghost predicate KeepsDropIns(e: Files, e': Files) {
    forall u: Unit :: IsDirectoryAt(e, DropInDir(u)) ==> IsDirectoryAt(e', DropInDir(u))
  }

  predicate HasRoom(e: Files, id: Id) {
    id.kind.Condition? ==> DropInDir(id.unit) !in e || IsDirectoryAt(e, DropInDir(id.unit))
  }

  /** A barrier that has no anchor yet can be prepared. */
  predicate IsFree(e: Files, id: Id) {
    PublicPath(id) !in e && HasRoom(e, id)
  }

  /** Where a drop-in directory can be had does not change. */
  ghost predicate SameRoom(e: Files, e': Files) {
    forall id: Id :: HasRoom(e, id) <==> HasRoom(e', id)
  }

  ghost function Fresh(e: Files, id: Id): set<Unit> {
    if id.kind.Condition? && DropInDir(id.unit) !in e then {id.unit} else {}
  }

  predicate IsReachable(e: Files, id: Id) {
    id.kind.Condition? ==> IsDirectoryAt(e, DropInDir(id.unit))
  }

  /** The state of the private files and anchors, read off the tracked state. */
  lemma PrivateFacts(e: Files, w: Watch, m: Manifest, own: Own)
    requires StateTracks(e, w, m, own)
    ensures forall p: Path :: IsPrivate(w.owner.token, p) ==> (p in e <==> p in own.private)
    ensures forall id: Id :: AnchorPath(w.owner.token, id) in e <==> id in own.anchors
    ensures forall p: Path :: p == OwnerDir(w.owner.token) || p == AnchorsDir(w.owner.token) ==>
              (p in own.private <==> IsDirectoryAt(e, p))
    ensures own.anchors <= m.anchors.Keys
  {
  }

  /** Makes sure the drop-in directory of a unit exists, and records it if it had to be created. */
  method EnsureDropIn(host: Host, unit: Unit, m: Manifest, ghost w: Watch, ghost own: Own)
    returns (ok: bool, m': Manifest, ghost own': Own)
    requires Tracks(host, w, m, own)
    modifies host
    ensures Tracks(host, w, m', own')
    ensures DurableManifest(host.entries, w.owner.token) == old(DurableManifest(host.entries, w.owner.token))
    ensures m' == m.(created := m'.created) && own' == own.(created := own'.created)
    ensures own.created <= own'.created <= own.created + {unit}
    ensures ok ==> var added := Fresh(old(host.entries), Id(unit, Condition));
                   CreatedUnits(m') == CreatedUnits(m) + added && own'.created == own.created + added
    ensures ok ==> IsDirectoryAt(host.entries, DropInDir(unit))
    ensures KeepsDropIns(old(host.entries), host.entries) && SameRoom(old(host.entries), host.entries)
    ensures ok ==> HasRoom(old(host.entries), Id(unit, Condition))
    ensures old(host.faults) == [] ==>
              && host.faults == [] && (ok <==> HasRoom(old(host.entries), Id(unit, Condition)))
              && (!ok ==> own' == own && host.history == old(host.history))
  {
    hide StateTracks, HistoryTracks, OwnedStep;
    m', own' := m, own;
    var p := DropInDir(unit);
    if p in host.entries {
      ok := host.entries[p].body.Directory?;
      return;
    }
    ghost var h, e := host.history, host.entries;
    var identity;
    ok, identity := host.Create(p, Directory);
    m' := if ok then m.(created := m.created + [DirRecord(unit, identity)]) else m;
    if host.history != h {
      AddingDropIn(e, w, m, own, unit, identity);
      own' := own.(created := own.created + {unit});
      StepTracks(h, host.entries, w, m', own');
    }
  }

  /** Creates the anchor of a barrier. */
  method CreateAnchor(host: Host, owner: Owner, id: Id, m: Manifest, ghost w: Watch, ghost own: Own)
    returns (ok: bool, m': Manifest, ghost own': Own)
    requires Tracks(host, w, m, own) && owner == w.owner && id !in m.anchors
    modifies host
    ensures Tracks(host, w, m', own')
    ensures DurableManifest(host.entries, w.owner.token) == old(DurableManifest(host.entries, w.owner.token))
    ensures m' == m.(anchors := m'.anchors) && m'.anchors.Keys == m.anchors.Keys + {id}
    ensures Extends(m, m')
    ensures own' == own || own' == own.(anchors := own.anchors + {id})
    ensures ok ==> own' == own.(anchors := own.anchors + {id})
    ensures KeepsDropIns(old(host.entries), host.entries) && SameRoom(old(host.entries), host.entries)
    ensures old(host.faults) == [] ==>
              && host.faults == []
              && (ok <==> id !in own.anchors && AnchorsDir(owner.token) in own.private)
              && (!ok ==> own' == own && host.history == old(host.history))
  {
    hide StateTracks, HistoryTracks, OwnedStep;
    var p := AnchorPath(owner.token, id);
    PrivateFacts(host.entries, w, m, own);
    ghost var h, e := host.history, host.entries;
    var identity;
    ok, identity := host.Create(p, AnchorBody(owner, id));
    m' := m.(anchors := m.anchors[id := identity]);
    own' := own;
    if host.history != h {
      AddingAnchor(e, w, m, own, id, identity);
      own' := own.(anchors := own.anchors + {id});
      StepTracks(h, host.entries, w, m', own');
    } else {
      RecordingAnchor(e, w, m, own, id, identity);
    }
  }

  /** Everything a new barrier needs before it can be published: a free path, its directory and its anchor. */
  method PrepareBarrier(host: Host, owner: Owner, id: Id, m: Manifest, ghost w: Watch, ghost own: Own)
    returns (ok: bool, m': Manifest, ghost own': Own)
    requires Tracks(host, w, m, own) && owner == w.owner && id !in m.anchors
    modifies host
    ensures Tracks(host, w, m', own')
    ensures DurableManifest(host.entries, w.owner.token) == old(DurableManifest(host.entries, w.owner.token))
    ensures m' == m.(anchors := m'.anchors, created := m'.created) && Extends(m, m')
    ensures own' == own.(anchors := own'.anchors, created := own'.created)
    ensures own.created <= own'.created <= own.created + {id.unit}
    ensures ok ==> m'.anchors.Keys == m.anchors.Keys + {id} && own'.anchors == own.anchors + {id}
    ensures ok ==> var added := Fresh(old(host.entries), id);
                   CreatedUnits(m') == CreatedUnits(m) + added && own'.created == own.created + added
    ensures ok ==> IsReachable(host.entries, id) && IsFree(old(host.entries), id)
    ensures KeepsDropIns(old(host.entries), host.entries) && SameRoom(old(host.entries), host.entries)
    ensures old(host.faults) == [] && id !in own.anchors && AnchorsDir(owner.token) in own.private ==>
              && host.faults == []
              && (ok <==> IsFree(old(host.entries), id))
              && (!ok ==> own' == own && host.history == old(host.history))
    ensures old(host.faults) == [] ==> host.faults == []
  {
    if PublicPath(id) in host.entries {
      return false, m, own;
    }
    m', own' := m, own;
    if id.kind.Condition? {
      ok, m', own' := EnsureDropIn(host, id.unit, m, w, own);
      if !ok {
        return;
      }
    }
    ok, m', own' := CreateAnchor(host, owner, id, m', w, own');
  }

  /** Makes one of the owner's two private directories. */
  method MakeDirectory(host: Host, p: Path, m: Manifest, ghost w: Watch, ghost own: Own)
    returns (ok: bool, ghost own': Own)
    requires Tracks(host, w, m, own)
    requires p == OwnerDir(w.owner.token) || p == AnchorsDir(w.owner.token)
    modifies host
    ensures Tracks(host, w, m, own')
    ensures own' == own || own' == own.(private := own.private + {p})
    ensures ok ==> own' == own.(private := own.private + {p})
    ensures KeepsDropIns(old(host.entries), host.entries) && SameRoom(old(host.entries), host.entries)
    ensures old(host.faults) == [] ==>
              && host.faults == []
              && (ok <==> p !in own.private && (p.AnchorsDir? ==> OwnerDir(w.owner.token) in own.private))
  {
    hide StateTracks, HistoryTracks, OwnedStep;
    PrivateFacts(host.entries, w, m, own);
    ghost var h, e := host.history, host.entries;
    var identity;
    ok, identity := host.Create(p, Directory);
    own' := own;
    if host.history != h {
      AddingPrivate(e, w, m, own, p, Node(identity, Directory));
      own' := own.(private := own.private + {p});
      StepTracks(h, host.entries, w, m, own');
    }
  }

  /** The first manifest of an owner. */
  method WriteInitialManifest(host: Host, owner: Owner, m: Manifest, ghost w: Watch, ghost own: Own)
    returns (ok: bool, ghost own': Own)
    requires Tracks(host, w, m, own) && owner == w.owner
    modifies host
    ensures Tracks(host, w, m, own')
    ensures own' == own || own' == own.(private := own.private + {ManifestPath(owner.token)})
    ensures ok ==> own' == own.(private := own.private + {ManifestPath(owner.token)})
    ensures ManifestPath(owner.token) !in own.private ==>
              DurableManifest(host.entries, owner.token)
              == if ManifestPath(owner.token) in own'.private then Some(m) else None
    ensures KeepsDropIns(old(host.entries), host.entries)
    ensures old(host.faults) == [] ==>
              && host.faults == []
              && (ok <==> OwnerDir(owner.token) in own.private && ManifestPath(owner.token) !in own.private)
  {
    hide StateTracks, HistoryTracks, OwnedStep;
    PrivateFacts(host.entries, w, m, own);
    ghost var h, e := host.history, host.entries;
    var identity;
    ok, identity := host.Create(ManifestPath(owner.token), ManifestFile(m));
    own' := own;
    if host.history != h {
      AddingPrivate(e, w, m, own, ManifestPath(owner.token), Node(identity, ManifestFile(m)));
      own' := own.(private := own.private + {ManifestPath(owner.token)});
      StepTracks(h, host.entries, w, m, own');
    }
  }

  /** A later manifest: written beside the current one, then renamed over it. */
  method WriteNextManifest(host: Host, owner: Owner, m: Manifest, ghost w: Watch, ghost own: Own)
    returns (ok: bool, ghost own': Own)
    requires Tracks(host, w, m, own) && owner == w.owner && own.published <= own.anchors
    requires ManifestPath(owner.token) in own.private
    modifies host
    ensures Tracks(host, w, m, own')
    ensures own' == own.(private := own'.private)
    ensures own.private - {NextManifestPath(owner.token)} <= own'.private
    ensures DurableManifest(host.entries, owner.token) == Some(m)
            || DurableManifest(host.entries, owner.token) == old(DurableManifest(host.entries, owner.token))
    ensures ok ==> own' == own.(private := own.private - {NextManifestPath(owner.token)})
                   && DurableManifest(host.entries, owner.token) == Some(m)
    ensures KeepsDropIns(old(host.entries), host.entries)
    ensures old(host.faults) == [] ==>
              && host.faults == []
              && (ok <==> OwnerDir(owner.token) in own.private && NextManifestPath(owner.token) !in own.private)
  {
    hide StateTracks, HistoryTracks, OwnedStep;
    PrivateFacts(host.entries, w, m, own);
    ghost var h, e := host.history, host.entries;
    var identity;
    ok, identity := host.Create(NextManifestPath(owner.token), ManifestFile(m));
    own' := own;
    if host.history != h {
      AddingPrivate(e, w, m, own, NextManifestPath(owner.token), Node(identity, ManifestFile(m)));
      own' := own.(private := own.private + {NextManifestPath(owner.token)});
      StepTracks(h, host.entries, w, m, own');
    }
    if !ok {
      return;
    }
    ghost var h2, e2 := host.history, host.entries;
    ok := host.RenameNextManifest(owner.token);
    if host.history != h2 {
      ReplacingManifest(e2, w, m, own');
      own' := own'.(private := own'.private - {NextManifestPath(owner.token)});
      StepTracks(h2, host.entries, w, m, own');
      assert own'.private == own.private - {NextManifestPath(owner.token)};
    }
  }

  /** Publishes a recorded anchor by a hard link, and checks that the link is the recorded inode. */
  method PublishAnchor(host: Host, owner: Owner, id: Id, m: Manifest, ghost w: Watch, ghost own: Own)
    returns (ok: bool, ghost own': Own)
    requires Tracks(host, w, m, own) && owner == w.owner && id in own.anchors
    requires DurableManifest(host.entries, owner.token) == Some(m) && own.published <= own.anchors
    modifies host
    ensures Tracks(host, w, m, own') && DurableManifest(host.entries, owner.token) == Some(m)
    ensures own' == own || own' == own.(published := own.published + {id})
    ensures ok ==> own' == own.(published := own.published + {id}) && IsReachable(old(host.entries), id)
    ensures KeepsDropIns(old(host.entries), host.entries)
    ensures old(host.faults) == [] ==>
              && host.faults == []
              && (ok <==> PublicPath(id) !in old(host.entries) && IsReachable(old(host.entries), id))
              && (!ok ==> own' == own)
  {
    hide StateTracks, HistoryTracks, OwnedStep;
    own' := own;
    if PublicPath(id) in host.entries {
      return false, own;
    }
    PrivateFacts(host.entries, w, m, own);
    ghost var h, e := host.history, host.entries;
    ok := host.Link(AnchorPath(owner.token, id), PublicPath(id));
    if host.history != h {
      Publishing(e, w, m, own, id);
      own' := own.(published := own.published + {id});
      StepTracks(h, host.entries, w, m, own');
    }
    if ok && host.entries[PublicPath(id)].identity != m.anchors[id] {
      ok := false;
    }
  }

  /** Removes a published barrier, after checking that it is the recorded inode. */
  method RetireBarrier(host: Host, owner: Owner, id: Id, m: Manifest, ghost w: Watch, ghost own: Own)
    returns (ok: bool, ghost own': Own)
    requires Tracks(host, w, m, own) && owner == w.owner && id in own.published
    requires w.cover ==> CoversUnits(own.published - {id}, w.units) && own.published != {id}
    modifies host
    ensures Tracks(host, w, m, own')
    ensures DurableManifest(host.entries, owner.token) == old(DurableManifest(host.entries, owner.token))
    ensures own' == own || own' == own.(published := own.published - {id})
    ensures ok ==> own' == own.(published := own.published - {id})
    ensures KeepsDropIns(old(host.entries), host.entries)
    ensures old(host.faults) == [] ==> host.faults == [] && ok
  {
    own' := own;
    if host.entries[PublicPath(id)].identity != m.anchors[id] {
      return false, own;
    }
    ghost var h, e := host.history, host.entries;
    ok := host.Unlink(PublicPath(id));
    if host.history != h {
      Retiring(e, w, m, own, id);
      own' := own.(published := own.published - {id});
      StepTracks(h, host.entries, w, m, own');
    }
  }
}
