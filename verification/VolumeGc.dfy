/**
 * Which Docker volumes are provably unneeded, and the bounded pass that
 * removes them. Setting keys and volume identities are taken as parsed.
 */
module VolumeGc {

  import opened Wrappers

  type RoomId = string

  datatype Purpose =
    | External
    | Cache
    | Sdk
    | Workspace(revision: int)
    | WorkspaceSnapshot(operation: string)
    | Dependencies(major: string, generation: int)
    | ServiceData(service: string)
    | Unknown

  /** What a volume's name and labels say it is. */
  datatype Identity = Identity(roomId: Option<RoomId>, purpose: Purpose)

  datatype Ownership = ManagedLabels | LegacyAdoption | Unowned

  datatype Volume = Volume(
    name: string, identity: Identity, ownership: Ownership,
    managedLabel: bool, roleLabel: bool, roomLabel: Option<RoomId>,
    links: nat, linksKnown: bool, sizeBytes: nat, sizeKnown: bool)

  datatype Room = Room(
    id: RoomId, awake: bool, workspaceVolumeRevision: int, nodeVersion: string, services: set<string>)

  datatype Operation = Operation(id: string, roomId: RoomId, running: bool, usesRevision: Option<int>)

  /** A durable setting. A generation whose text is not a number compares equal to nothing. */
  datatype Key =
    | LocaleRestorePending(room: RoomId)
    | AcceptanceRestorePending(room: RoomId)
    | ArtifactExportPending(room: RoomId)
    | LocaleRecoveryDiagnostic(room: RoomId)
    | RetainedGen(room: RoomId)
    | DepsGen(room: RoomId, major: string)
    | LegacyDepsGen(room: RoomId)

  datatype Setting = Number(value: int) | NotANumber

  // ---- change history ----

  /** A captured field: absent, present but not a safe integer, or an integer. */
  datatype Slot = Absent | Other | Int(value: int)

  datatype DepsCapture = DepsCapture(prevGen: Slot, gen: Slot, nodeMajor: Option<string>)

  datatype Captured = Captured(
    nextWorkspaceGeneration: Slot, previousWorkspaceGeneration: Slot,
    previousDepsGeneration: Slot, nextDepsGeneration: Slot,
    nodeMajor: Option<string>, deps: Option<DepsCapture>, prevGen: Slot, gen: Slot,
    prevVersion: Option<string>, service: Option<string>)

  datatype ChangeStatus = NoStatus | Applied | Verified | AnotherStatus

  datatype Change = Change(packageInstall: bool, undoable: bool, status: ChangeStatus, captured: Option<Captured>)

  datatype DepsRef = DepsRef(major: string, gen: int)

  /** The generations, majors and services that undoing would go back to. */
  datatype References = References(
    workspace: set<int>, deps: set<DepsRef>, majors: set<string>, services: set<string>)
  {
    function Plus(that: References): References
    {
      References(workspace + that.workspace, deps + that.deps, majors + that.majors, services + that.services)
    }
  }

  function NoReferences(): References { References({}, {}, {}, {}) }

  function Ints(slot: Slot): set<int> { if slot.Int? then {slot.value} else {} }

  function Pairs(major: string, slot: Slot): set<DepsRef> { if slot.Int? then {DepsRef(major, slot.value)} else {} }

  function Named(name: Option<string>): set<string> { if name.Some? then {name.value} else {} }

  predicate Applicable(c: Change)
  {
    c.undoable && (c.status == NoStatus || c.status == Applied || c.status == Verified)
  }

  predicate PackageInstallShaped(c: Change)
  {
    c.packageInstall ||
    (c.captured.Some? && c.captured.value.nextWorkspaceGeneration != Absent
     && c.captured.value.previousDepsGeneration != Absent)
  }

  /** A package install is live exactly while the Room is at the revision it staged. */
  predicate Superseded(c: Change, room: Room)
  {
    c.captured.Some? && c.captured.value.nextWorkspaceGeneration.Int?
    && room.workspaceVolumeRevision != c.captured.value.nextWorkspaceGeneration.value
  }

  function UndoReferences(c: Change, room: Room): References
  {
    if !Applicable(c) || c.captured.None? then NoReferences()
    else
      var cap := c.captured.value;
      if PackageInstallShaped(c) then
        if Superseded(c, room) then NoReferences()
        else
          var major := if cap.nodeMajor.Some? then cap.nodeMajor.value else room.nodeVersion;
          References(Ints(cap.previousWorkspaceGeneration) + Ints(cap.nextWorkspaceGeneration),
                     Pairs(major, cap.previousDepsGeneration) + Pairs(major, cap.nextDepsGeneration), {}, {})
      else
        var d := if cap.deps.Some? then cap.deps.value else DepsCapture(cap.prevGen, cap.gen, cap.nodeMajor);
        var gen := if d.prevGen.Int? then d.prevGen else d.gen;
        var major := if d.nodeMajor.Some? then d.nodeMajor.value else room.nodeVersion;
        References(Ints(cap.previousWorkspaceGeneration), Pairs(major, gen),
                   Named(cap.prevVersion), Named(cap.service))
  }

  function AllReferences(changes: seq<Change>, room: Room): References
  {
    if changes == [] then NoReferences()
    else AllReferences(changes[..|changes| - 1], room).Plus(UndoReferences(changes[|changes| - 1], room))
  }

  /** The union over the history; superseded installs add nothing. */
  method LiveUndoReferences(changes: seq<Change>, room: Room) returns (merged: References)
    ensures merged == AllReferences(changes, room)
  {
    merged := NoReferences();
    for i := 0 to |changes|
      invariant merged == AllReferences(changes[..i], room)
    {
      var change := changes[i];
      assert changes[..i + 1][..i] == changes[..i];
      if Applicable(change) && PackageInstallShaped(change) && Superseded(change, room) {
        assert merged.Plus(NoReferences()) == merged;
        continue;
      }
      merged := merged.Plus(UndoReferences(change, room));
    }
    assert changes[..|changes|] == changes;
  }

  /** No row of the history would put the workspace back to this revision. */
  ghost predicate NoUndoOfRevision(h: seq<Change>, room: Room, rev: int)
  {
    forall c :: c in h ==> rev !in UndoReferences(c, room).workspace
  }

  ghost predicate NoUndoOfDeps(h: seq<Change>, room: Room, d: DepsRef)
  {
    forall c :: c in h ==> d !in UndoReferences(c, room).deps
  }

  ghost predicate NoUndoOfMajor(h: seq<Change>, room: Room, major: string)
  {
    forall c :: c in h ==> major !in UndoReferences(c, room).majors
  }

  ghost predicate NoUndoOfService(h: seq<Change>, room: Room, service: string)
  {
    forall c :: c in h ==> service !in UndoReferences(c, room).services
  }

  /** A merged reference is one that some single live row makes, and the other way round. */
  lemma {:induction false} ReferencesAreNamed(h: seq<Change>, room: Room)
    ensures var all := AllReferences(h, room);
            && (forall r :: r in all.workspace <==> !NoUndoOfRevision(h, room, r))
            && (forall d :: d in all.deps <==> !NoUndoOfDeps(h, room, d))
            && (forall m :: m in all.majors <==> !NoUndoOfMajor(h, room, m))
            && (forall s :: s in all.services <==> !NoUndoOfService(h, room, s))
  {
    hide UndoReferences;
    if h != [] {
      var n := |h| - 1;
      var init, last := h[..n], h[n];
      ReferencesAreNamed(init, room);
      assert h == init + [last];
      assert forall c :: c in h <==> c in init || c == last;
      var refs := UndoReferences(last, room);
      assert AllReferences(h, room) == AllReferences(init, room).Plus(refs);
      hide AllReferences;
      forall r ensures NoUndoOfRevision(h, room, r) <==> NoUndoOfRevision(init, room, r) && r !in refs.workspace {
      }
      forall d ensures NoUndoOfDeps(h, room, d) <==> NoUndoOfDeps(init, room, d) && d !in refs.deps {
      }
      forall m ensures NoUndoOfMajor(h, room, m) <==> NoUndoOfMajor(init, room, m) && m !in refs.majors {
      }
      forall s ensures NoUndoOfService(h, room, s) <==> NoUndoOfService(init, room, s) && s !in refs.services {
      }
    }
  }

  /** A superseded install retains nothing; a live one retains both sides of its swap, workspace and dependencies. */
  lemma InstallRetains(c: Change, room: Room)
    requires Applicable(c) && PackageInstallShaped(c) && c.captured.Some?
    requires c.captured.value.nextWorkspaceGeneration.Int? && c.captured.value.previousWorkspaceGeneration.Int?
    requires c.captured.value.nextDepsGeneration.Int? && c.captured.value.previousDepsGeneration.Int?
    ensures var cap, refs := c.captured.value, UndoReferences(c, room);
            var major := if cap.nodeMajor.Some? then cap.nodeMajor.value else room.nodeVersion;
            if room.workspaceVolumeRevision == cap.nextWorkspaceGeneration.value then
              && refs.workspace == {cap.previousWorkspaceGeneration.value, cap.nextWorkspaceGeneration.value}
              && refs.deps == {DepsRef(major, cap.previousDepsGeneration.value),
                               DepsRef(major, cap.nextDepsGeneration.value)}
              && refs.majors == {} && refs.services == {}
            else refs == NoReferences()
  {
  }

  // ---- classification ----

  datatype Context = Context(
    rooms: seq<Room>, settings: map<Key, Setting>, operations: Option<seq<Operation>>,
    changes: Option<map<RoomId, seq<Change>>>, fencedRooms: set<RoomId>, roomDirs: map<RoomId, bool>)

  datatype Class =
    | RetainedCurrent | RetainedActive | RetainedSleeping | RetainedRecovery | Fenced
    | OrphanedDeletedRoom | OrphanedStaleGeneration | OrphanedStaleSnapshot | OrphanedStaleDeps
    | OrphanedRemovedService | NotOurs

  datatype Verdict = Verdict(class_: Class, safeToDelete: bool)

  /** The last row of a Room wins, as in a map built from the list. */
  function FindRoom(rooms: seq<Room>, id: RoomId): Option<Room>
  {
    if rooms == [] then None
    else if rooms[|rooms| - 1].id == id then Some(rooms[|rooms| - 1])
    else FindRoom(rooms[..|rooms| - 1], id)
  }

  predicate RoomFenced(ctx: Context, id: RoomId)
  {
    id in ctx.fencedRooms || LocaleRestorePending(id) in ctx.settings || AcceptanceRestorePending(id) in ctx.settings
    || ArtifactExportPending(id) in ctx.settings || LocaleRecoveryDiagnostic(id) in ctx.settings
  }

  predicate SomeRunning(ops: seq<Operation>, id: RoomId)
  {
    exists i :: 0 <= i < |ops| && ops[i].roomId == id && ops[i].running
  }

  /** A running operation of the Room uses this revision. */
  predicate RunningOn(ops: seq<Operation>, id: RoomId, rev: int)
  {
    exists i :: 0 <= i < |ops| && ops[i].roomId == id && ops[i].running && ops[i].usesRevision == Some(rev)
  }

  predicate ExplicitOwnership(v: Volume)
  {
    (v.ownership == ManagedLabels && v.managedLabel && v.roleLabel && v.roomLabel == v.identity.roomId)
    || v.ownership == LegacyAdoption
  }

  predicate Detachable(v: Volume)
  {
    ExplicitOwnership(v) && v.linksKnown && !(v.links > 0) && v.sizeKnown
  }

  /** The generation a major is at; None where the stored text is not a number. */
  function CurrentDepsGen(ctx: Context, room: Room, id: RoomId, major: string): Option<int>
  {
    var key := DepsGen(id, major);
    var raw :=
      if key in ctx.settings then Some(ctx.settings[key])
      else if major == room.nodeVersion && LegacyDepsGen(id) in ctx.settings then Some(ctx.settings[LegacyDepsGen(id)])
      else None;
    if raw.None? then Some(0) else if raw.value.Number? then Some(raw.value.value) else None
  }

  function RetainedGeneration(ctx: Context, id: RoomId): Option<int>
  {
    if RetainedGen(id) in ctx.settings && ctx.settings[RetainedGen(id)].Number?
    then Some(ctx.settings[RetainedGen(id)].value) else None
  }

  function Undo(ctx: Context, room: Room, id: RoomId): Option<References>
  {
    if ctx.changes.None? then None
    else Some(AllReferences(if id in ctx.changes.value then ctx.changes.value[id] else [], room))
  }

  function Held(room: Room): Verdict { Verdict(if room.awake then RetainedActive else RetainedSleeping, false) }

  function ClassifyInRoom(ctx: Context, v: Volume, room: Room, id: RoomId, ops: seq<Operation>): Verdict
  {
    var undo := Undo(ctx, room, id);
    match v.identity.purpose
    case Cache => Held(room)
    case Sdk => Held(room)
    case ServiceData(service) =>
      if service in room.services then Held(room)
      else if undo.None? then Verdict(RetainedRecovery, false)
      else if service in undo.value.services then Verdict(RetainedRecovery, false)
      else Verdict(OrphanedRemovedService, Detachable(v))
    case Workspace(rev) =>
      if rev == room.workspaceVolumeRevision then
        Verdict(if room.awake then RetainedCurrent else RetainedSleeping, false)
      else if RetainedGeneration(ctx, id) == Some(rev) then Verdict(RetainedRecovery, false)
      else if rev < room.workspaceVolumeRevision then
        if undo.None? then Verdict(RetainedRecovery, false)
        else if rev in undo.value.workspace then Verdict(RetainedRecovery, false)
        else if RunningOn(ops, id, rev) then
          Verdict(RetainedActive, false)
        else Verdict(OrphanedStaleGeneration, Detachable(v))
      else Verdict(RetainedRecovery, false)
    case WorkspaceSnapshot(operation) =>
      if exists i :: 0 <= i < |ops| && ops[i].roomId == id && ops[i].running && ops[i].id == operation then
        Verdict(RetainedActive, false)
      else Verdict(OrphanedStaleSnapshot, Detachable(v))
    case Dependencies(major, gen) =>
      var current := CurrentDepsGen(ctx, room, id, major);
      if major == room.nodeVersion && current == Some(gen) then Held(room)
      else if undo.None? then Verdict(RetainedRecovery, false)
      else if DepsRef(major, gen) in undo.value.deps
              || (major != room.nodeVersion && current == Some(gen) && major in undo.value.majors) then
        Verdict(RetainedRecovery, false)
      else Verdict(OrphanedStaleDeps, Detachable(v))
    case External => Verdict(NotOurs, false)
    case Unknown => Verdict(NotOurs, false)
  }

  function Classify(ctx: Context, v: Volume): Verdict
  {
    if v.identity.roomId.None? || v.identity.purpose == External then Verdict(NotOurs, false)
    else
      var id := v.identity.roomId.value;
      if RoomFenced(ctx, id) then Verdict(Fenced, false)
      else if ctx.operations.None? then Verdict(RetainedRecovery, false)
      else if SomeRunning(ctx.operations.value, id) then Verdict(RetainedActive, false)
      else
        var room := FindRoom(ctx.rooms, id);
        if room.None? then
          if id !in ctx.roomDirs || ctx.roomDirs[id] then Verdict(NotOurs, false)
          else if ExplicitOwnership(v) then
            Verdict(OrphanedDeletedRoom, v.linksKnown && !(v.links > 0) && v.sizeKnown)
          else Verdict(NotOurs, false)
        else ClassifyInRoom(ctx, v, room.value, id, ctx.operations.value)
  }

  // ---- what safe to delete means ----

  /** Nobody can come back for the volume of a Room that still exists. */
  ghost predicate UnneededByRoom(ctx: Context, v: Volume, room: Room, id: RoomId)
  {
    var h := HistoryOf(ctx, id);
    match v.identity.purpose
    case Workspace(rev) =>
      && rev < room.workspaceVolumeRevision && RetainedGeneration(ctx, id) != Some(rev)
      && ctx.changes.Some? && NoUndoOfRevision(h, room, rev)
    case Dependencies(major, gen) =>
      && !(major == room.nodeVersion && CurrentDepsGen(ctx, room, id, major) == Some(gen))
      && ctx.changes.Some? && NoUndoOfDeps(h, room, DepsRef(major, gen))
      && (CurrentDepsGen(ctx, room, id, major) == Some(gen) ==> NoUndoOfMajor(h, room, major))
    case ServiceData(service) =>
      service !in room.services && ctx.changes.Some? && NoUndoOfService(h, room, service)
    case WorkspaceSnapshot(_) => true
    case _ => false
  }

  function HistoryOf(ctx: Context, id: RoomId): seq<Change>
  {
    if ctx.changes.Some? && id in ctx.changes.value then ctx.changes.value[id] else []
  }

  /** Proven ownership, a quiet and unfenced Room, known size, no attachments, and nobody who needs it. */
  ghost predicate ProvablyUnneeded(ctx: Context, v: Volume)
  {
    && v.identity.roomId.Some? && v.identity.purpose != External
    && ExplicitOwnership(v) && v.linksKnown && v.links == 0 && v.sizeKnown
    && var id := v.identity.roomId.value;
    && !RoomFenced(ctx, id)
    && ctx.operations.Some? && (forall o :: o in ctx.operations.value && o.roomId == id ==> !o.running)
    && match FindRoom(ctx.rooms, id)
       case None => id in ctx.roomDirs && !ctx.roomDirs[id]
       case Some(room) => UnneededByRoom(ctx, v, room, id)
  }

  lemma UndoIsHistory(ctx: Context, room: Room, id: RoomId)
    requires ctx.changes.Some?
    ensures Undo(ctx, room, id) == Some(AllReferences(HistoryOf(ctx, id), room))
  {
  }

  lemma SafeInRoom(ctx: Context, v: Volume, room: Room, id: RoomId, ops: seq<Operation>)
    requires !SomeRunning(ops, id)
    ensures ClassifyInRoom(ctx, v, room, id, ops).safeToDelete <==>
            ExplicitOwnership(v) && v.linksKnown && v.links == 0 && v.sizeKnown && UnneededByRoom(ctx, v, room, id)
  {
    hide UndoReferences, AllReferences, CurrentDepsGen, RetainedGeneration, ExplicitOwnership, Undo;
    if ctx.changes.Some? {
      UndoIsHistory(ctx, room, id);
      ReferencesAreNamed(HistoryOf(ctx, id), room);
    } else {
      UndoUnknown(ctx, room, id);
    }
  }

  lemma UndoUnknown(ctx: Context, room: Room, id: RoomId)
    requires ctx.changes.None?
    ensures Undo(ctx, room, id).None?
  {
  }

  /** The reconciler offers a volume for deletion exactly when it is provably unneeded. */
  lemma SafeIsUnneeded(ctx: Context, v: Volume)
    ensures Classify(ctx, v).safeToDelete <==> ProvablyUnneeded(ctx, v)
  {
    hide ClassifyInRoom, UnneededByRoom, ExplicitOwnership, FindRoom;
    if v.identity.roomId.Some? && ctx.operations.Some? {
      var id, ops := v.identity.roomId.value, ctx.operations.value;
      var room := FindRoom(ctx.rooms, id);
      if room.Some? && !SomeRunning(ops, id) { SafeInRoom(ctx, v, room.value, id, ops); }
      assert SomeRunning(ops, id) <==> !(forall o :: o in ops && o.roomId == id ==> !o.running) by {
        if o :| o in ops && o.roomId == id && o.running {
          var i :| 0 <= i < |ops| && ops[i] == o;
        }
      }
    }
  }

  /** What a Room is running on, would recover from, or could undo to. */
  ghost predicate Needed(ctx: Context, purpose: Purpose, room: Room, id: RoomId)
  {
    var h := HistoryOf(ctx, id);
    match purpose
    case Workspace(rev) =>
      || rev >= room.workspaceVolumeRevision || RetainedGeneration(ctx, id) == Some(rev)
      || !NoUndoOfRevision(h, room, rev)
    case ServiceData(service) => service in room.services || !NoUndoOfService(h, room, service)
    case Dependencies(major, gen) =>
      || (major == room.nodeVersion && CurrentDepsGen(ctx, room, id, major) == Some(gen))
      || !NoUndoOfDeps(h, room, DepsRef(major, gen))
    case Cache => true
    case Sdk => true
    case _ => false
  }

  /** What a Room still needs is never a candidate. */
  lemma NeededIsKept(ctx: Context, v: Volume, room: Room, id: RoomId)
    requires v.identity.roomId == Some(id) && FindRoom(ctx.rooms, id) == Some(room)
    requires Needed(ctx, v.identity.purpose, room, id)
    ensures !Classify(ctx, v).safeToDelete
  {
    hide UndoReferences, Classify, ExplicitOwnership;
    SafeIsUnneeded(ctx, v);
  }

  /** The dependency generation a change other than an install comes back to: in its own record or flat. */
  predicate NamesDeps(cap: Captured, room: Room, major: string, gen: int)
  {
    match cap.deps
    case Some(d) =>
      && (d.prevGen == Int(gen) || (!d.prevGen.Int? && d.gen == Int(gen)))
      && major == (if d.nodeMajor.Some? then d.nodeMajor.value else room.nodeVersion)
    case None =>
      && (cap.prevGen == Int(gen) || (!cap.prevGen.Int? && cap.gen == Int(gen)))
      && major == (if cap.nodeMajor.Some? then cap.nodeMajor.value else room.nodeVersion)
  }

  /** What an undoable change of a Room names to come back to: generations, a Node major, a service's data. */
  predicate NamedByUndo(ctx: Context, c: Change, purpose: Purpose, room: Room, id: RoomId)
  {
    && c.undoable && (c.status == NoStatus || c.status == Applied || c.status == Verified) && c.captured.Some?
    && var cap := c.captured.value;
    var install := PackageInstallShaped(c);
    if install && cap.nextWorkspaceGeneration.Int?
       && cap.nextWorkspaceGeneration.value != room.workspaceVolumeRevision then false
    else
      match purpose
      case Workspace(rev) => cap.previousWorkspaceGeneration == Int(rev)
      case Dependencies(major, gen) =>
        if install then
          && (cap.previousDepsGeneration == Int(gen) || cap.nextDepsGeneration == Int(gen))
          && major == (if cap.nodeMajor.Some? then cap.nodeMajor.value else room.nodeVersion)
        else
          || NamesDeps(cap, room, major, gen)
          || (cap.prevVersion == Some(major) && CurrentDepsGen(ctx, room, id, major) == Some(gen))
      case ServiceData(service) => !install && cap.service == Some(service)
      case _ => false
  }

  /** A volume that a live row of the history would need to undo is never a candidate. */
  lemma UndoTargetsAreKept(ctx: Context, v: Volume, room: Room, id: RoomId, c: Change)
    requires v.identity.roomId == Some(id) && FindRoom(ctx.rooms, id) == Some(room)
    requires c in HistoryOf(ctx, id) && NamedByUndo(ctx, c, v.identity.purpose, room, id)
    ensures !Classify(ctx, v).safeToDelete
  {
    UndoTargetIsReferenced(ctx, v.identity.purpose, room, id, c);
    hide Classify, NamedByUndo, ExplicitOwnership;
    SafeIsUnneeded(ctx, v);
  }

  lemma UndoTargetIsReferenced(ctx: Context, purpose: Purpose, room: Room, id: RoomId, c: Change)
    requires c in HistoryOf(ctx, id) && NamedByUndo(ctx, c, purpose, room, id)
    ensures var h := HistoryOf(ctx, id);
            match purpose
            case Workspace(rev) => !NoUndoOfRevision(h, room, rev)
            case Dependencies(major, gen) =>
              !NoUndoOfDeps(h, room, DepsRef(major, gen))
              || (!NoUndoOfMajor(h, room, major) && CurrentDepsGen(ctx, room, id, major) == Some(gen))
            case ServiceData(service) => !NoUndoOfService(h, room, service)
            case _ => false
  {
    hide HistoryOf, CurrentDepsGen;
  }

  // ---- undoing a package install ----

  /** Where the undo of an install would leave the Room: at the generations it came from, back there already, or it is
      refused because the Room stands at neither side. */
  datatype InstallUndo = NothingStaged | GoesBack | IsBack | Mismatch

  function UndoOfInstall(cap: Captured, room: Room, currentDeps: Option<int>): InstallUndo
  {
    if !cap.nextWorkspaceGeneration.Int? || !cap.nextDepsGeneration.Int? then NothingStaged
    else if cap.nodeMajor != Some(room.nodeVersion) || currentDeps.None? then Mismatch
    else if Int(room.workspaceVolumeRevision) == cap.nextWorkspaceGeneration
            && Int(currentDeps.value) == cap.nextDepsGeneration then GoesBack
    else if Int(room.workspaceVolumeRevision) == cap.previousWorkspaceGeneration
            && Int(currentDeps.value) == cap.previousDepsGeneration then IsBack
    else Mismatch
  }

  /** An install's row retains anything exactly while, at its own Node major and with the dependencies it staged, its
      undo would go back. */
  lemma RetainsWhileItGoesBack(c: Change, room: Room)
    requires Applicable(c) && PackageInstallShaped(c) && c.captured.Some?
    requires c.captured.value.nextWorkspaceGeneration.Int? && c.captured.value.previousWorkspaceGeneration.Int?
    requires c.captured.value.nextDepsGeneration.Int? && c.captured.value.previousDepsGeneration.Int?
    requires c.captured.value.nodeMajor.Some?
    ensures var cap := c.captured.value;
            var there := room.(nodeVersion := cap.nodeMajor.value);
            UndoReferences(c, room) != NoReferences() <==>
            UndoOfInstall(cap, there, Some(cap.nextDepsGeneration.value)) == GoesBack
  {
    InstallRetains(c, room);
  }

  /** Whenever the undo of an install would be accepted, the generations it comes back to are not offered. */
  lemma InstallCanBeUndone(ctx: Context, v: Volume, room: Room, id: RoomId, c: Change)
    requires v.identity.roomId == Some(id) && FindRoom(ctx.rooms, id) == Some(room)
    requires c in HistoryOf(ctx, id) && Applicable(c) && PackageInstallShaped(c) && c.captured.Some?
    requires var undo := UndoOfInstall(c.captured.value, room, CurrentDepsGen(ctx, room, id, room.nodeVersion));
             undo == GoesBack || undo == IsBack
    requires var cap := c.captured.value;
             match v.identity.purpose
             case Workspace(rev) => cap.previousWorkspaceGeneration == Int(rev)
             case Dependencies(major, gen) =>
               cap.nodeMajor == Some(major) && cap.previousDepsGeneration == Int(gen)
             case _ => false
    ensures !Classify(ctx, v).safeToDelete
  {
    hide Classify, UndoReferences, CurrentDepsGen;
    var undo := UndoOfInstall(c.captured.value, room, CurrentDepsGen(ctx, room, id, room.nodeVersion));
    if undo == GoesBack {
      UndoTargetsAreKept(ctx, v, room, id, c);
    } else {
      NeededIsKept(ctx, v, room, id);
    }
  }
}
