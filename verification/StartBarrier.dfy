/** Transaction-scoped systemd start barriers: install, transition and removal over a file-system map with hard links. */
module StartBarrier {
  import opened Prelude

  type Unit = string

  datatype Kind = Condition | Mask

  /** An anchor identifier: the unit and the kind of barrier. */
  datatype Id = Id(unit: Unit, kind: Kind)

  datatype Owner = Owner(pid: int, start: string, token: string)

  /** The paths the protocol distinguishes below its root; anything else is `Inside` some directory. */
  datatype Path =
    | MaskPath(unit: Unit)
    | DropInDir(unit: Unit)
    | ConditionPath(unit: Unit)
    | OwnerDir(token: string)
    | AnchorsDir(token: string)
    | AnchorPath(token: string, id: Id)
    | ManifestPath(token: string)
    | NextManifestPath(token: string)
    | ActivationLock
    | Inside(parent: Path, name: string)

  function ParentOf(p: Path): Option<Path> {
    match p
    case ConditionPath(unit) => Some(DropInDir(unit))
    case AnchorsDir(token) => Some(OwnerDir(token))
    case ManifestPath(token) => Some(OwnerDir(token))
    case NextManifestPath(token) => Some(OwnerDir(token))
    case AnchorPath(token, _) => Some(AnchorsDir(token))
    case Inside(parent, _) => Some(parent)
    case _ => None
  }

  function PublicPath(id: Id): Path {
    if id.kind.Mask? then MaskPath(id.unit) else ConditionPath(id.unit)
  }

  datatype DirRecord = DirRecord(unit: Unit, identity: int)

  datatype ManifestPhase = Publishing | Transitioning | Held

  datatype Manifest = Manifest(owner: Owner, units: seq<Unit>, phase: ManifestPhase, anchors: map<Id, int>,
                               active: seq<Id>, created: seq<DirRecord>)

  datatype Body =
    | Directory
    | DevNullLink
    | ConditionFile(owner: Owner, unit: Unit)
    | ManifestFile(manifest: Manifest)
    | LockFile(owner: Owner)
    | OtherFile(content: int)

  /** A directory entry: the device and inode it names, and what that inode holds. */
  datatype Node = Node(identity: int, body: Body)

  type Files = map<Path, Node>

  function AnchorBody(owner: Owner, id: Id): Body {
    if id.kind.Mask? then DevNullLink else ConditionFile(owner, id.unit)
  }

  // ----- What a manifest says, and the checks on it ---------------------------------------------------

  function DurableManifest(e: Files, token: string): Option<Manifest> {
    if ManifestPath(token) in e && e[ManifestPath(token)].body.ManifestFile?
    then Some(e[ManifestPath(token)].body.manifest) else None
  }

  predicate WellFormedUnits(units: seq<Unit>, modes: map<Unit, Kind>) {
    && units != []
    && (forall i, j :: 0 <= i < j < |units| ==> units[i] != units[j])
    && modes.Keys == set u <- units
  }

  predicate RecordsMatch(e: Files, owner: Owner, m: Manifest) {
    && (forall id <- m.anchors ::
          && id.unit in m.units
          && AnchorPath(owner.token, id) in e
          && e[AnchorPath(owner.token, id)] == Node(m.anchors[id], AnchorBody(owner, id)))
    && |m.active| == |m.units|
    && (forall i, j :: 0 <= i < j < |m.active| ==> m.active[i] != m.active[j])
    && (forall id <- m.active :: id in m.anchors)
    && (forall u <- m.units :: exists id <- m.active :: id.unit == u)
    && (forall i, j :: 0 <= i < j < |m.created| ==> m.created[i].unit != m.created[j].unit)
    && (forall r <- m.created ::
          DropInDir(r.unit) in e && e[DropInDir(r.unit)] == Node(r.identity, Directory))
  }

  /** The owner directory holds the anchors directory and the manifest, and nothing else. */
  predicate OwnerDirectoryMatches(e: Files, owner: Owner, m: Manifest) {
    var token := owner.token;
    && IsDirectoryAt(e, OwnerDir(token)) && IsDirectoryAt(e, AnchorsDir(token))
    && ManifestPath(token) in e
    && (forall p <- e :: ParentOf(p) == Some(OwnerDir(token)) ==> p == AnchorsDir(token) || p == ManifestPath(token))
    && (forall p <- e :: ParentOf(p) == Some(AnchorsDir(token)) ==> p.AnchorPath? && p.id in m.anchors)
  }

  /** The manifest of this owner, if it is there, readable, unchanged in ownership and consistent with the files. */
  function Load(e: Files, owner: Owner, units: seq<Unit>): Option<Manifest> {
    var stored := DurableManifest(e, owner.token);
    if stored.Some? && stored.value.owner == owner && stored.value.units == units
       && RecordsMatch(e, owner, stored.value) && OwnerDirectoryMatches(e, owner, stored.value)
    then stored else None
  }

  /** A published barrier: the recorded inode, a link to /dev/null or a regular file as its kind demands. */
  predicate IsBarrier(n: Node, id: Id, identity: int) {
    && n.identity == identity
    && (if id.kind.Mask? then n.body.DevNullLink? else !n.body.Directory? && !n.body.DevNullLink?)
  }

  /** No foreign barrier on any unit, and every published barrier is the recorded inode; a held set is exact. */
  predicate PublicStateMatches(e: Files, m: Manifest, requireHeld: bool) {
    && (forall u <- m.units ::
          && (MaskPath(u) in e ==> Id(u, Mask) in m.anchors)
          && (ConditionPath(u) in e ==> Id(u, Condition) in m.anchors))
    && (forall id <- m.anchors ::
          && (PublicPath(id) in e ==> IsBarrier(e[PublicPath(id)], id, m.anchors[id]))
          && (m.phase.Held? || requireHeld ==> (id in m.active <==> PublicPath(id) in e)))
  }

  predicate LockMatches(e: Files, owner: Owner) {
    ActivationLock in e && e[ActivationLock].body == LockFile(owner)
  }

  // ----- What every state of a run must satisfy -----------------------------------------------------------

  /** The public barrier is the inode that the durable manifest records, and its anchor is still there. */
  predicate Recorded(e: Files, token: string, id: Id) {
    && DurableManifest(e, token).Some?
    && id in DurableManifest(e, token).value.anchors
    && PublicPath(id) in e && AnchorPath(token, id) in e
    && e[PublicPath(id)].identity == e[AnchorPath(token, id)].identity
    == DurableManifest(e, token).value.anchors[id]
  }

  /** Write-ahead ownership: every barrier published on these units is recorded, except those found at the start. */
  ghost predicate WriteAhead(e: Files, token: string, units: seq<Unit>, found: set<Id>) {
    forall id: Id :: id.unit in units && id !in found && PublicPath(id) in e ==> Recorded(e, token, id)
  }

  /** No gap: every unit has a published barrier that this owner has recorded. */
  ghost predicate Covered(e: Files, token: string, units: seq<Unit>) {
    forall u <- units :: exists k: Kind :: Recorded(e, token, Id(u, k))
  }

  /** One step: public paths are only added as recorded barriers and only removed while recorded. */
  ghost predicate OwnedStep(e: Files, e': Files, token: string) {
    forall id: Id :: var p := PublicPath(id);
      && (p in e && p in e' ==> e[p] == e'[p])
      && (p in e && p !in e' ==> Recorded(e, token, id))
      && (p !in e && p in e' ==> Recorded(e', token, id))
  }

  /** Every state and every step of the history from `start` on. */
  ghost predicate Guarded(h: seq<Files>, start: nat, token: string, units: seq<Unit>, found: set<Id>) {
    && start < |h|
    && (forall i :: start <= i < |h| ==> WriteAhead(h[i], token, units, found))
    && (forall i :: start <= i < |h| - 1 ==> OwnedStep(h[i], h[i + 1], token))
  }

  ghost predicate NeverUncovered(h: seq<Files>, start: nat, token: string, units: seq<Unit>) {
    forall i :: start <= i < |h| ==> Covered(h[i], token, units)
  }

  // ----- The files of this owner over everything else ---------------------------------------------------------

  /** What this owner has put into the file system: its private directories and manifests, its anchors, its published
      barriers and the drop-in directories it created. */
  datatype Own = Own(private: set<Path>, anchors: set<Id>, published: set<Id>, created: set<Unit>) {
    predicate Includes(token: string, p: Path) {
      match p
      case MaskPath(unit) => Id(unit, Mask) in published
      case ConditionPath(unit) => Id(unit, Condition) in published
      case DropInDir(unit) => unit in created
      case AnchorPath(t, id) => t == token && id in anchors
      case _ => p in private
    }
  }

  predicate IsPrivate(token: string, p: Path) {
    p == OwnerDir(token) || p == AnchorsDir(token) || p == ManifestPath(token) || p == NextManifestPath(token)
  }

  predicate IsPrivateBody(p: Path, body: Body) {
    body.Directory? <==> p.OwnerDir? || p.AnchorsDir?
  }

  predicate IsDirectoryAt(e: Files, p: Path) {
    p in e && e[p].body.Directory?
  }

  /** The file system is `base` plus exactly this owner's files, with the identities that `m` records. */
  ghost predicate Arranged(base: Files, e: Files, owner: Owner, m: Manifest, own: Own) {
    && (forall p <- base :: p in e && e[p] == base[p] && !own.Includes(owner.token, p))
    && (forall p <- e :: p in base || own.Includes(owner.token, p))
    && (forall p <- own.private :: IsPrivate(owner.token, p) && p in e && IsPrivateBody(p, e[p].body))
    && (forall id <- own.anchors ::
          && id in m.anchors && AnchorPath(owner.token, id) in e
          && e[AnchorPath(owner.token, id)] == Node(m.anchors[id], AnchorBody(owner, id)))
    && (forall id <- own.published ::
          id in m.anchors && PublicPath(id) in e && IsBarrier(e[PublicPath(id)], id, m.anchors[id]))
    && (forall u <- own.created :: IsDirectoryAt(e, DropInDir(u)))
    && (forall r <- m.created :: r.unit in own.created && e[DropInDir(r.unit)] == Node(r.identity, Directory))
    && (forall i, j :: 0 <= i < j < |m.created| ==> m.created[i].unit != m.created[j].unit)
  }

  predicate InPrivateTree(token: string, p: Path) {
    p == OwnerDir(token) || ParentOf(p) == Some(OwnerDir(token)) || ParentOf(p) == Some(AnchorsDir(token))
  }

  /** Nothing but this owner's files lies below its private directory. */
  ghost predicate Unclaimed(base: Files, token: string) {
    forall p <- base :: !InPrivateTree(token, p)
  }

  ghost function CreatedUnits(m: Manifest): set<Unit> {
    set r <- m.created :: r.unit
  }

  /** Identities recorded by the durable manifest are the ones in memory. */
  ghost predicate Extends(d: Manifest, m: Manifest) {
    forall id <- d.anchors :: id in m.anchors && m.anchors[id] == d.anchors[id]
  }

  /** Barriers of these units that are not this owner's were there at the start. */
  ghost predicate FoundIn(base: Files, units: seq<Unit>, found: set<Id>) {
    forall id: Id :: id.unit in units && PublicPath(id) in base ==> id in found
  }

  ghost predicate CoversUnits(ids: set<Id>, units: seq<Unit>) {
    forall u <- units :: exists id <- ids :: id.unit == u
  }

  /** With the manifest written first, everything published is recorded. */
  lemma ArrangedIsWriteAhead(base: Files, e: Files, owner: Owner, m: Manifest, d: Manifest, own: Own, units: seq<Unit>,
                             found: set<Id>)
    requires Arranged(base, e, owner, m, own) && DurableManifest(e, owner.token) == Some(d) && Extends(d, m)
    requires own.published <= own.anchors && own.published <= d.anchors.Keys && FoundIn(base, units, found)
    ensures WriteAhead(e, owner.token, units, found)
    ensures forall id <- own.published :: Recorded(e, owner.token, id)
    ensures CoversUnits(own.published, units) ==> Covered(e, owner.token, units)
  {
    forall id: Id | id.unit in units && id !in found && PublicPath(id) in e
      ensures Recorded(e, owner.token, id)
    {
      assert id in own.published;
    }
    if CoversUnits(own.published, units) {
      forall u <- units
        ensures exists k: Kind :: Recorded(e, owner.token, Id(u, k))
      {
        var id :| id in own.published && id.unit == u;
        assert Recorded(e, owner.token, Id(u, id.kind));
      }
    }
  }

  /** With nothing published yet, or nothing any more, there is nothing to record. */
  lemma UnpublishedIsWriteAhead(base: Files, e: Files, owner: Owner, m: Manifest, own: Own, units: seq<Unit>,
                                found: set<Id>)
    requires Arranged(base, e, owner, m, own) && own.published == {} && FoundIn(base, units, found)
    ensures WriteAhead(e, owner.token, units, found)
  {
  }

  /** Extending a guarded history by one good step. */
  lemma GuardedExtends(h: seq<Files>, e: Files, start: nat, token: string, units: seq<Unit>, found: set<Id>)
    requires Guarded(h, start, token, units, found)
    requires WriteAhead(e, token, units, found) && OwnedStep(h[|h| - 1], e, token)
    ensures Guarded(h + [e], start, token, units, found)
  {
  }

  datatype Fault = NoFault | FaultBefore | FaultAfter

  /** The host: its file system, the identities it will hand out, and the faults it will inject, one per step. */
  class Host {
    var entries: Files
    var nextIdentity: int
    var faults: seq<Fault>
    /** Every state of the file system so far, the current one last. */
    ghost var history: seq<Files>

    ghost predicate Valid()
      reads this
    {
      history != [] && history[|history| - 1] == entries
    }

    constructor (files: Files, identity: int, schedule: seq<Fault>)
      ensures Valid() && entries == files && history == [files] && faults == schedule
    {
      entries, nextIdentity, faults, history := files, identity, schedule, [files];
    }

    method NextFault() returns (fault: Fault)
      modifies this`faults
      ensures faults == if old(faults) == [] then [] else old(faults)[1..]
      ensures fault == if old(faults) == [] then NoFault else old(faults)[0]
    {
      if faults == [] {
        return NoFault;
      }
      fault := faults[0];
      faults := faults[1..];
    }

    /** One step of the file system: it happens and is synced, fails before it happens, or fails after. */
    method Commit(next: Files, possible: bool) returns (ok: bool)
      requires Valid()
      modifies this`entries, this`faults, this`history
      ensures Valid()
      ensures (history == old(history) && entries == old(entries) && !ok)
              || (history == old(history) + [next] && entries == next && possible)
      ensures old(faults) == [] ==> faults == [] && (ok <==> possible)
    {
      var fault := NextFault();
      if !possible || fault.FaultBefore? {
        return false;
      }
      entries := next;
      history := history + [next];
      ok := !fault.FaultAfter?;
    }

    predicate HasParent(p: Path)
      reads this
    {
      ParentOf(p).Some? ==> IsDirectoryAt(entries, ParentOf(p).value)
    }

    method Create(p: Path, body: Body) returns (ok: bool, identity: int)
      requires Valid()
      modifies this
      ensures Valid()
      ensures (history == old(history) && entries == old(entries) && !ok)
              || (p !in old(entries) && old(HasParent(p)) && entries == old(entries)[p := Node(identity, body)]
                  && history == old(history) + [entries])
      ensures old(faults) == [] ==> faults == [] && (ok <==> p !in old(entries) && old(HasParent(p)))
    {
      identity := nextIdentity;
      nextIdentity := nextIdentity + 1;
      ok := Commit(entries[p := Node(identity, body)], p !in entries && HasParent(p));
    }

    /** A hard link: the new path names the same inode. */
    method Link(anchor: Path, destination: Path) returns (ok: bool)
      requires Valid()
      modifies this
      ensures Valid()
      ensures (history == old(history) && entries == old(entries) && !ok)
              || (anchor in old(entries) && destination !in old(entries) && old(HasParent(destination))
                  && entries == old(entries)[destination := old(entries)[anchor]]
                  && history == old(history) + [entries])
      ensures old(faults) == [] ==>
                faults == []
                && (ok <==> anchor in old(entries) && destination !in old(entries) && old(HasParent(destination)))
    {
      if anchor !in entries {
        ok := Commit(entries, false);
        return;
      }
      ok := Commit(entries[destination := entries[anchor]], destination !in entries && HasParent(destination));
    }

    method Unlink(p: Path) returns (ok: bool)
      requires Valid()
      modifies this
      ensures Valid()
      ensures (history == old(history) && entries == old(entries) && !ok)
              || (p in old(entries) && !old(entries)[p].body.Directory? && entries == old(entries) - {p}
                  && history == old(history) + [entries])
      ensures old(faults) == [] ==>
                faults == [] && (ok <==> p in old(entries) && !old(entries)[p].body.Directory?)
    {
      ok := Commit(entries - {p}, p in entries && !entries[p].body.Directory?);
    }

    predicate IsEmptyDirectory(p: Path)
      reads this
    {
      IsDirectoryAt(entries, p) && forall q <- entries :: ParentOf(q) != Some(p)
    }

    method RemoveDirectory(p: Path) returns (ok: bool)
      requires Valid()
      modifies this
      ensures Valid()
      ensures (history == old(history) && entries == old(entries) && !ok)
              || (old(IsEmptyDirectory(p)) && entries == old(entries) - {p} && history == old(history) + [entries])
      ensures old(faults) == [] ==> faults == [] && (ok <==> old(IsEmptyDirectory(p)))
    {
      ok := Commit(entries - {p}, IsEmptyDirectory(p));
    }

    /** Atomic replacement of the manifest by the next one. */
    method RenameNextManifest(token: string) returns (ok: bool)
      requires Valid()
      modifies this
      ensures Valid()
      ensures (history == old(history) && entries == old(entries) && !ok)
              || (NextManifestPath(token) in old(entries)
                  && entries == old(entries)[ManifestPath(token) := old(entries)[NextManifestPath(token)]]
                                - {NextManifestPath(token)}
                  && history == old(history) + [entries])
      ensures old(faults) == [] ==> faults == [] && (ok <==> NextManifestPath(token) in old(entries))
    {
      if NextManifestPath(token) !in entries {
        ok := Commit(entries, false);
        return;
      }
      ok := Commit(entries[ManifestPath(token) := entries[NextManifestPath(token)]] - {NextManifestPath(token)}, true);
    }
  }
}
