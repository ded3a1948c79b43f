/**
 * Host resync of one Room: inspection, confirmation, staging and publication as
 * atomic steps, interleaved with edits from inside the Room, volume collection,
 * failures of every external call and crashes.
 */
module HostResync {

  import opened VolumeGc
  import opened WorkspaceDrift
  import opened Wrappers

  const MAX_SAFE_INTEGER := 9007199254740991

  // ---- generation numbers ----

  function AtLeast(a: int, b: int): int { if a < b then b else a }

  /** The next generation number, from the current one and the recorded high-water mark. */
  function NextRevision(current: int, recordedMax: Option<int>): int
  {
    var parsed := if recordedMax.None? then current else recordedMax.value;
    var max := if 0 <= parsed <= MAX_SAFE_INTEGER then AtLeast(current, parsed) else current;
    AtLeast(1, max + 1)
  }

  /** A new number lies beyond every recorded one exactly while the record is a safe integer. */
  lemma NextIsFresh(current: int, recorded: int)
    requires 0 <= current <= recorded && current <= MAX_SAFE_INTEGER
    ensures NextRevision(current, Some(recorded)) > recorded <==> recorded <= MAX_SAFE_INTEGER
    ensures NextRevision(current, Some(recorded)) > current
  {
  }

  // ---- state ----

  datatype Runtime = Down | OnHost | Running(revision: int) | Paused(revision: int)

  datatype Drift = Clean | Changed | Unexplained

  /** What a confirmation is good for; the source digests these facts. */
  datatype Binding = Binding(
    stateRevision: int, revision: int, fingerprint: Option<Tree>, modified: bool, tree: Tree, drift: Drift)

  datatype Pending = Pending(token: int, actor: string, binding: Binding, expiresAt: int)

  /** What is being published: a confirmed or clean inspection, a plain sync, a legacy Room moving in, or a package
      install, which draws on the same numbers. */
  datatype Job =
    | Safe(token: Option<int>, inspected: Tree, drift: Drift, actor: string, at: int)
    | Plain
    | Migrate
    | Install

  datatype Phase =
    | Idle
    | Accepted(job: Job)
    | Rechecked(job: Job)
    | Reserved(job: Job, next: int)
    | Staged(job: Job, next: int, imported: Tree)
    | Guarding(job: Job, next: int, imported: Tree)
    | Ready(job: Job, next: int, imported: Tree)
    | Switched(job: Job, next: int, imported: Tree)
    | Cleaning(next: int, stale: Option<int>, replaced: int)

  /** One publication: what it replaced, and under which number. */
  datatype Sync = Sync(job: Job, replaced: Tree, revision: int)

  /** The durable Room row and settings. */
  datatype Saved = Saved(
    hotel: bool, revision: int, stateRevision: int, base: Option<Tree>, fingerprint: Option<Tree>, modified: bool,
    genMax: Option<int>, retained: Option<int>)

  /** What has happened so far; the program keeps only part of this. */
  datatype Log = Log(
    highest: int, staged: seq<int>, nextToken: int, issued: map<int, Pending>, accepted: seq<int>, synced: seq<Sync>)

  datatype State = State(
    room: RoomId, saved: Saved, volumes: map<int, Tree>, runtime: Runtime,
    pending: Option<Pending>, phase: Phase, log: Log)

  function TreeAt(s: State, revision: int): Tree
  {
    if revision in s.volumes then s.volumes[revision] else map[]
  }

  /** The runtime the published Room describes. */
  function Published(s: State): Runtime { if s.saved.hotel then Running(s.saved.revision) else OnHost }

  /** The path snapshot to compare with: the stored one, or the spare generation if it is what was accepted. */
  function Baseline(s: State): Option<Tree>
  {
    if s.saved.base.Some? then s.saved.base
    else if s.saved.retained.Some? && 1 <= s.saved.retained.value < s.saved.revision
            && s.saved.retained.value in s.volumes
            && s.saved.fingerprint == Some(s.volumes[s.saved.retained.value]) then s.saved.fingerprint
    else None
  }

  function DriftOf(s: State, tree: Tree, legacyMatches: bool): Drift
  {
    var baseline := Baseline(s);
    if baseline.Some? then (if baseline.value == tree then Clean else Changed)
    else if s.saved.fingerprint == Some(tree) then Clean
    else if s.saved.fingerprint.Some? && legacyMatches then Clean
    else Unexplained
  }

  function BindingOf(s: State, tree: Tree, drift: Drift): Binding
  {
    Binding(s.saved.stateRevision, s.saved.revision, s.saved.fingerprint, s.saved.modified, tree, drift)
  }

  // ---- steps ----

  datatype Event =
    | Edit(tree: Tree)
    | Crash
    | Wake
    | Sleep
    | ResetBaseline
    | Collect(ctx: Context, volume: Volume)
    | Inspect(actor: string, token: Option<int>, now: int, expiresAt: int, legacyMatches: bool)
    | BeginPlain(legacyMatches: bool)
    | BeginMigrate
    | BeginInstall
    | Recheck
    | Reserve
    | Import(result: Option<Tree>, leftover: Option<Tree>)
    | Pause(ok: bool, stuck: bool, cleaned: bool)
    | Guard(readable: bool, unpaused: bool, recreated: bool, cleaned: bool)
    | Switch(ok: bool, rolledBack: bool, cleaned: bool)
    | Commit(ok: bool, rolledBack: bool, cleaned: bool)
    | DropStale(ok: bool)

  /** The collector looked at this very Room. */
  ghost predicate Sees(s: State, ctx: Context)
  {
    && RetainedGeneration(ctx, s.room) == s.saved.retained
    && match FindRoom(ctx.rooms, s.room)
       case Some(room) => room.workspaceVolumeRevision == s.saved.revision
       case None => false
  }

  /** What the world around the resync can do. */
  ghost predicate EnabledOutside(s: State, e: Event)
  {
    match e
    case Edit(_) => s.runtime.Running? && s.runtime.revision in s.volumes
    case Crash => true
    case Wake => s.phase.Idle?
    case Sleep => s.phase.Idle?
    case ResetBaseline => s.phase.Idle? && s.saved.hotel
    case Collect(ctx, v) => s.phase.Idle? && Sees(s, ctx) && Classify(ctx, v).safeToDelete
    case _ => false
  }

  /** From inspection to an imported generation. */
  predicate EnabledStaging(s: State, e: Event)
  {
    match e
    case Inspect(_, _, _, _, _) => s.phase.Idle? && s.saved.hotel && s.runtime.Running?
    case BeginPlain(_) => s.phase.Idle? && s.saved.hotel && s.runtime.Running?
    case BeginMigrate => s.phase.Idle? && !s.saved.hotel && s.runtime.OnHost?
    case BeginInstall => s.phase.Idle? && s.saved.hotel && s.runtime.Running?
    case Recheck => s.phase.Accepted?
    case Reserve => s.phase.Rechecked?
    case Import(_, _) => s.phase.Reserved?
    case _ => false
  }

  /** From an imported generation to a published one. */
  predicate EnabledPublishing(s: State, e: Event)
  {
    match e
    case Pause(ok, _, _) => s.phase.Staged? && (ok ==> s.runtime.Running?)
    case Guard(_, _, _, _) => s.phase.Guarding?
    case Switch(_, _, _) => s.phase.Ready?
    case Commit(_, _, _) => s.phase.Switched?
    case DropStale(_) => s.phase.Cleaning?
    case _ => false
  }

  ghost predicate Enabled(s: State, e: Event)
  {
    EnabledOutside(s, e) || EnabledStaging(s, e) || EnabledPublishing(s, e)
  }

  function Without(s: State, revision: int, really: bool): map<int, Tree>
  {
    if really then s.volumes - {revision} else s.volumes
  }

  function Modified(s: State): State { s.(saved := s.saved.(modified := true)) }

  function Issue(s: State, e: Event, binding: Binding): State
    requires e.Inspect?
  {
    var pending := Pending(s.log.nextToken, e.actor, binding, e.expiresAt);
    s.(pending := Some(pending),
       log := s.log.(issued := s.log.issued[s.log.nextToken := pending], nextToken := s.log.nextToken + 1))
  }

  predicate Confirms(s: State, e: Event, binding: Binding)
    requires e.Inspect? && e.token.Some?
  {
    && s.pending.Some? && s.pending.value.token == e.token.value && s.pending.value.actor == e.actor
    && s.pending.value.expiresAt >= e.now && s.pending.value.binding == binding
  }

  function ApplyInspect(s: State, e: Event): State
    requires e.Inspect?
  {
    var tree := TreeAt(s, s.saved.revision);
    var drift := DriftOf(s, tree, e.legacyMatches);
    var binding := BindingOf(s, tree, drift);
    if e.token.Some? then
      if !Confirms(s, e, binding) then Issue(s, e, binding)
      else
        s.(pending := None, log := s.log.(accepted := s.log.accepted + [e.token.value]),
           phase := Accepted(Safe(e.token, tree, drift, e.actor, e.now)))
    else if drift != Clean then Issue(s, e, binding)
    else s.(pending := None, phase := Accepted(Safe(None, tree, drift, e.actor, e.now)))
  }

  function ApplyPlain(s: State, legacyMatches: bool): State
  {
    var tree := TreeAt(s, s.saved.revision);
    var baseline := Baseline(s);
    var adopts := s.saved.fingerprint.Some? && baseline.None? && s.saved.fingerprint.value != tree && legacyMatches;
    var fingerprint := if adopts then Some(tree) else s.saved.fingerprint;
    if fingerprint != Some(tree) then Modified(s)
    else
      s.(saved := s.saved.(fingerprint := fingerprint, base := if baseline.None? then Some(tree) else s.saved.base),
         phase := Rechecked(Plain))
  }

  /** The number is recorded before anything is imported under it. */
  function ApplyReserve(s: State): State
    requires s.phase.Rechecked?
  {
    var next := NextRevision(s.saved.revision, s.saved.genMax);
    s.(saved := s.saved.(genMax := Some(next)), log := s.log.(highest := AtLeast(s.log.highest, next)),
       phase := Reserved(s.phase.job, next))
  }

  function ApplyImport(s: State, result: Option<Tree>, leftover: Option<Tree>): State
    requires s.phase.Reserved?
  {
    var job, next := s.phase.job, s.phase.next;
    if next > MAX_SAFE_INTEGER then s.(phase := Idle)
    else
      var begun := s.(log := s.log.(staged := s.log.staged + [next]));
      if result.Some? then
        begun.(volumes := s.volumes[next := result.value],
               phase := if job.Safe? then Staged(job, next, result.value) else Ready(job, next, result.value))
      else
        begun.(volumes := if leftover.Some? then s.volumes[next := leftover.value] else s.volumes - {next},
               phase := Idle)
  }

  function ApplyGuard(s: State, e: Event): State
    requires s.phase.Guarding? && e.Guard?
  {
    var p := s.phase;
    if e.readable && p.job.Safe? && TreeAt(s, s.saved.revision) == p.job.inspected then
      s.(phase := Ready(p.job, p.next, p.imported))
    else
      var refused := (if e.readable then Modified(s) else s).(phase := Idle);
      if e.unpaused then
        refused.(runtime := if s.runtime.Paused? then Running(s.runtime.revision) else s.runtime,
                 volumes := Without(s, p.next, e.cleaned))
      else if e.recreated then refused.(runtime := Published(s), volumes := Without(s, p.next, e.cleaned))
      else refused.(runtime := Down)
  }

  /** Back to the published runtime; the staged volume goes only if that worked. */
  function RollBack(s: State, next: int, rolledBack: bool, cleaned: bool): State
  {
    if rolledBack then s.(phase := Idle, runtime := Published(s), volumes := Without(s, next, cleaned))
    else s.(phase := Idle, runtime := Down)
  }

  function ApplyCommit(s: State, e: Event): State
    requires s.phase.Switched? && e.Commit?
  {
    var p := s.phase;
    if !e.ok then RollBack(s, p.next, e.rolledBack, e.cleaned)
    else if p.job.Install? then
      s.(saved := s.saved.(revision := p.next, stateRevision := s.saved.stateRevision + 1, modified := true),
         phase := Idle)
    else
      s.(saved := s.saved.(hotel := true, revision := p.next, stateRevision := s.saved.stateRevision + 1,
                           base := Some(p.imported), fingerprint := Some(p.imported), modified := false,
                           retained := if s.saved.hotel then Some(s.saved.revision) else s.saved.retained),
         log := s.log.(synced := s.log.synced + [Sync(p.job, TreeAt(s, s.saved.revision), s.saved.revision)]),
         phase := Cleaning(p.next, if s.saved.hotel then s.saved.retained else None, s.saved.revision))
  }

  function ApplyDropStale(s: State, ok: bool): State
    requires s.phase.Cleaning?
  {
    var p := s.phase;
    var drop := p.stale.Some? && 0 < p.stale.value < p.next && p.stale.value != p.replaced;
    s.(phase := Idle, volumes := if drop then Without(s, p.stale.value, ok) else s.volumes)
  }

  function ApplyCollect(s: State, v: Volume): State
  {
    if v.identity.roomId == Some(s.room) && v.identity.purpose.Workspace?
    then s.(volumes := s.volumes - {v.identity.purpose.revision}) else s
  }

  ghost function ApplyOutside(s: State, e: Event): State
    requires EnabledOutside(s, e)
  {
    match e
    case Edit(tree) => s.(volumes := s.volumes[s.runtime.revision := tree])
    case Crash => s.(phase := Idle, pending := None)
    case Wake => s.(runtime := Published(s))
    case Sleep => s.(runtime := Down)
    case ResetBaseline =>
      var tree := TreeAt(s, s.saved.revision);
      s.(saved := s.saved.(base := Some(tree), fingerprint := Some(tree), modified := false))
    case Collect(_, v) => ApplyCollect(s, v)
  }

  function ApplyStaging(s: State, e: Event): State
    requires EnabledStaging(s, e)
  {
    match e
    case Inspect(_, _, _, _, _) => ApplyInspect(s, e)
    case BeginPlain(legacyMatches) => ApplyPlain(s, legacyMatches)
    case BeginMigrate => s.(phase := Rechecked(Migrate))
    case BeginInstall => s.(phase := Rechecked(Install))
    case Recheck =>
      if s.phase.job.Safe? && TreeAt(s, s.saved.revision) != s.phase.job.inspected then Modified(s).(phase := Idle)
      else s.(phase := Rechecked(s.phase.job))
    case Reserve => ApplyReserve(s)
    case Import(result, leftover) => ApplyImport(s, result, leftover)
  }

  function ApplyPublishing(s: State, e: Event): State
    requires EnabledPublishing(s, e)
  {
    match e
    case Pause(ok, stuck, cleaned) =>
      var paused := if s.runtime.Running? && (ok || stuck) then Paused(s.runtime.revision) else s.runtime;
      if ok then s.(runtime := paused, phase := Guarding(s.phase.job, s.phase.next, s.phase.imported))
      else s.(runtime := paused, phase := Idle, volumes := Without(s, s.phase.next, cleaned))
    case Guard(_, _, _, _) => ApplyGuard(s, e)
    case Switch(ok, rolledBack, cleaned) =>
      if ok then s.(runtime := Running(s.phase.next), phase := Switched(s.phase.job, s.phase.next, s.phase.imported))
      else RollBack(s, s.phase.next, rolledBack, cleaned)
    case Commit(_, _, _) => ApplyCommit(s, e)
    case DropStale(ok) => ApplyDropStale(s, ok)
  }

  ghost function Apply(s: State, e: Event): State
    requires Enabled(s, e)
  {
    if EnabledOutside(s, e) then ApplyOutside(s, e)
    else if EnabledStaging(s, e) then ApplyStaging(s, e)
    else ApplyPublishing(s, e)
  }

  /** Where a run of events leads, if each of them was possible in its turn. */
  ghost predicate Leads(s: State, events: seq<Event>, t: State)
  {
    if events == [] then s == t
    else
      var n := |events| - 1;
      exists m :: Leads(s, events[..n], m) && Enabled(m, events[n]) && t == Apply(m, events[n])
  }

  // ---- invariants ----

  /** The Room's own volumes are there, and nobody else's number can collide with them. */
  ghost predicate StorageHolds(s: State)
  {
    && 0 <= s.saved.revision
    && (s.saved.hotel ==> s.saved.revision in s.volumes)
    && (s.saved.retained.Some? ==> s.saved.retained.value in s.volumes && s.saved.retained.value < s.saved.revision)
    && (s.runtime.Running? || s.runtime.Paused? ==> s.saved.retained != Some(s.runtime.revision))
    && (s.phase.Reserved? ==> s.phase.next > s.saved.revision)
    && (HasVolume(s.phase) ==> s.phase.next > s.saved.revision && s.phase.next in s.volumes)
    && (s.phase.Switched? ==> s.runtime == Running(s.phase.next))
    && (s.phase.Cleaning? ==>
          s.phase.next == s.saved.revision && (s.phase.stale.Some? ==> s.saved.retained == Some(s.phase.replaced)))
    && ((s.phase.Accepted? || s.phase.Staged? || s.phase.Guarding?) ==> s.phase.job.Safe?)
    && (HasJob(s.phase) ==> (s.phase.job.Migrate? <==> !s.saved.hotel))
  }

  predicate HasVolume(p: Phase)
  {
    p.Staged? || p.Guarding? || p.Ready? || p.Switched?
  }

  predicate HasJob(p: Phase)
  {
    p.Accepted? || p.Rechecked? || p.Reserved? || HasVolume(p)
  }

  /** The mark below which every number has been used up. */
  function Mark(s: State): int
  {
    if s.saved.genMax.Some? then AtLeast(s.saved.revision, s.saved.genMax.value) else s.saved.revision
  }

  ghost predicate Increasing(ns: seq<int>)
  {
    forall i, j :: 0 <= i < j < |ns| ==> ns[i] < ns[j]
  }

  /** As long as every reserved number was a safe integer, numbers only go up. */
  ghost predicate NumbersHold(s: State)
  {
    && Mark(s) <= s.log.highest
    && (s.phase.Reserved? || HasVolume(s.phase) ==> s.saved.genMax == Some(s.phase.next))
    && (s.log.highest <= MAX_SAFE_INTEGER ==>
          && Increasing(s.log.staged)
          && (forall r :: r in s.volumes ==> r <= Mark(s))
          && (forall i :: 0 <= i < |s.log.staged| ==> s.log.staged[i] <= Mark(s))
          && (s.phase.Reserved? ==>
                && s.phase.next == Mark(s) && s.phase.next !in s.volumes
                && forall i :: 0 <= i < |s.log.staged| ==> s.log.staged[i] < s.phase.next))
  }

  /** A job stands for a tree somebody looked at, and a token for what it was issued for, to whom, and until when. */
  ghost predicate JobHolds(log: Log, job: Job, revision: int)
  {
    job.Safe? ==>
      if job.token.Some? then
        && job.token.value in log.accepted && job.token.value in log.issued
        && Covers(log.issued[job.token.value], job, revision)
      else job.drift == Clean
  }

  predicate Covers(p: Pending, job: Job, revision: int)
    requires job.Safe?
  {
    && p.binding.tree == job.inspected && p.binding.drift == job.drift && p.binding.revision == revision
    && p.actor == job.actor && job.at <= p.expiresAt
  }

  ghost predicate TokensHold(s: State)
  {
    && (forall t :: t in s.log.issued ==> t < s.log.nextToken)
    && (forall i :: 0 <= i < |s.log.accepted| ==> s.log.accepted[i] in s.log.issued)
    && (forall i, j :: 0 <= i < j < |s.log.accepted| ==> s.log.accepted[i] != s.log.accepted[j])
    && (s.pending.Some? ==>
          && s.pending.value.token in s.log.issued && s.pending.value.token !in s.log.accepted
          && s.log.issued[s.pending.value.token] == s.pending.value)
    && (HasJob(s.phase) ==> JobHolds(s.log, s.phase.job, s.saved.revision))
    && (forall i :: 0 <= i < |s.log.synced| ==> JobHolds(s.log, s.log.synced[i].job, s.log.synced[i].revision))
  }

  ghost predicate Untouched(s: State)
  {
    && (s.phase.Ready? && s.phase.job.Safe? ==> s.runtime.Paused?)
    && (s.phase.Guarding? ==> s.runtime.Paused?)
    && ((s.phase.Ready? || s.phase.Switched?) && s.phase.job.Safe? ==>
         TreeAt(s, s.saved.revision) == s.phase.job.inspected)
    && (forall i :: 0 <= i < |s.log.synced| && s.log.synced[i].job.Safe? ==>
         s.log.synced[i].replaced == s.log.synced[i].job.inspected)
  }

  /** What the last sync replaced is still there under the retained number. */
  ghost predicate Recoverable(s: State)
  {
    s.log.synced != [] && !s.log.synced[|s.log.synced| - 1].job.Migrate? ==>
      s.saved.retained.Some? && TreeAt(s, s.saved.retained.value) == s.log.synced[|s.log.synced| - 1].replaced
  }

  ghost predicate Inv(s: State)
  {
    StorageHolds(s) && NumbersHold(s) && TokensHold(s) && Untouched(s) && Recoverable(s)
  }

  /** A Room as it stands before any resync: nothing in flight, nothing recorded yet. */
  ghost predicate Initial(s: State)
  {
    && s.phase.Idle? && s.pending.None? && s.log.staged == [] && s.log.accepted == [] && s.log.synced == []
    && s.log.issued == map[]
    && 0 <= s.saved.revision && (s.saved.hotel ==> s.saved.revision in s.volumes)
    && (s.saved.retained.Some? ==> s.saved.retained.value in s.volumes && s.saved.retained.value < s.saved.revision)
    && (s.runtime == Down || s.runtime == Published(s))
    && s.log.highest == Mark(s) && (forall r :: r in s.volumes ==> r <= Mark(s))
  }

  lemma InitialHolds(s: State)
    requires Initial(s)
    ensures Inv(s)
  {
  }

  /** The collector never takes the current or the retained generation. */
  lemma CollectSpares(s: State, ctx: Context, v: Volume)
    requires Enabled(s, Collect(ctx, v)) && StorageHolds(s)
    requires v.identity.roomId == Some(s.room) && v.identity.purpose.Workspace?
    ensures v.identity.purpose.revision < s.saved.revision && s.saved.retained != Some(v.identity.purpose.revision)
  {
    hide Classify;
    var room := FindRoom(ctx.rooms, s.room).value;
    var rev := v.identity.purpose.revision;
    if rev >= s.saved.revision || s.saved.retained == Some(rev) {
      assert Needed(ctx, v.identity.purpose, room, s.room);
      NeededIsKept(ctx, v, room, s.room);
    }
  }

  lemma StorageKeptByOutside(s: State, e: Event)
    requires EnabledOutside(s, e) && StorageHolds(s)
    ensures StorageHolds(ApplyOutside(s, e))
  {
    hide Classify, DriftOf, Baseline;
    if e.Collect? && ApplyCollect(s, e.volume) != s { CollectSpares(s, e.ctx, e.volume); }
  }

  lemma StorageKeptByStaging(s: State, e: Event)
    requires EnabledStaging(s, e) && StorageHolds(s)
    ensures StorageHolds(ApplyStaging(s, e))
  {
    hide Classify, DriftOf, Baseline;
  }

  lemma StorageKeptByPublishing(s: State, e: Event)
    requires EnabledPublishing(s, e) && StorageHolds(s)
    ensures StorageHolds(ApplyPublishing(s, e))
  {
    hide Classify, DriftOf, Baseline, ApplyCommit, ApplyGuard;
    if e.Commit? { StorageKeptByCommit(s, e); }
    if e.Guard? { StorageKeptByGuard(s, e); }
  }

  lemma StorageKeptByCommit(s: State, e: Event)
    requires s.phase.Switched? && e.Commit? && StorageHolds(s)
    ensures StorageHolds(ApplyCommit(s, e))
  {
  }

  lemma StorageKeptByGuard(s: State, e: Event)
    requires s.phase.Guarding? && e.Guard? && StorageHolds(s)
    ensures StorageHolds(ApplyGuard(s, e))
  {
  }

  lemma NumbersKeptByOutside(s: State, e: Event)
    requires EnabledOutside(s, e) && StorageHolds(s) && NumbersHold(s)
    ensures NumbersHold(ApplyOutside(s, e))
  {
    hide Classify, DriftOf, Baseline, Sees;
  }

  ghost predicate NumbersUnused(s: State, t: State)
  {
    && Mark(t) == Mark(s) && t.log.highest == s.log.highest && t.log.staged == s.log.staged && t.volumes == s.volumes
    && !t.phase.Reserved? && !HasVolume(t.phase)
  }

  lemma NumbersKeptByStaging(s: State, e: Event)
    requires EnabledStaging(s, e) && StorageHolds(s) && NumbersHold(s)
    ensures NumbersHold(ApplyStaging(s, e))
  {
    if e.Reserve? {
      NumberReserved(s);
    } else if e.Import? {
      NumberImported(s, e.result, e.leftover);
    } else {
      assert NumbersUnused(s, ApplyStaging(s, e)) by { hide Baseline, DriftOf, NumbersHold, StorageHolds; }
      hide ApplyStaging;
    }
  }

  lemma NumberReserved(s: State)
    requires s.phase.Rechecked? && StorageHolds(s) && NumbersHold(s)
    ensures NumbersHold(ApplyReserve(s))
  {
  }

  lemma NumberImported(s: State, result: Option<Tree>, leftover: Option<Tree>)
    requires s.phase.Reserved? && StorageHolds(s) && NumbersHold(s)
    ensures NumbersHold(ApplyImport(s, result, leftover))
  {
  }

  lemma NumbersKeptByPublishing(s: State, e: Event)
    requires EnabledPublishing(s, e) && StorageHolds(s) && NumbersHold(s)
    ensures NumbersHold(ApplyPublishing(s, e))
  {
    hide Classify, DriftOf, Baseline, Sees;
  }

  /** Steps other than inspection and publication leave tokens, history and the job alone. */
  ghost predicate JobKept(s: State, t: State)
  {
    && t.log.issued == s.log.issued && t.log.accepted == s.log.accepted && t.log.nextToken == s.log.nextToken
    && t.log.synced == s.log.synced
    && (t.pending == s.pending || t.pending == None) && t.saved.revision == s.saved.revision
    && (HasJob(t.phase) ==> !t.phase.job.Safe? || (HasJob(s.phase) && t.phase.job == s.phase.job))
  }

  lemma TokensKeptByOutside(s: State, e: Event)
    requires EnabledOutside(s, e) && TokensHold(s)
    ensures TokensHold(ApplyOutside(s, e))
  {
    assert JobKept(s, ApplyOutside(s, e)) by { hide Classify, Sees; }
    hide ApplyOutside;
  }

  lemma TokensKeptByStaging(s: State, e: Event)
    requires EnabledStaging(s, e) && TokensHold(s)
    ensures TokensHold(ApplyStaging(s, e))
  {
    if e.Inspect? {
      TokensInspected(s, e);
    } else {
      assert JobKept(s, ApplyStaging(s, e)) by { hide NextRevision, Baseline, TokensHold; }
      hide ApplyStaging;
    }
  }

  lemma TokensKeptByPublishing(s: State, e: Event)
    requires EnabledPublishing(s, e) && TokensHold(s)
    ensures TokensHold(ApplyPublishing(s, e))
  {
    if e.Commit? {
      hide TreeAt, Without;
    } else {
      assert JobKept(s, ApplyPublishing(s, e)) by { hide TokensHold, TreeAt, Without; }
      hide ApplyPublishing;
    }
  }

  lemma TokensInspected(s: State, e: Event)
    requires TokensHold(s) && e.Inspect?
    ensures TokensHold(ApplyInspect(s, e))
  {
    hide DriftOf, TreeAt;
    var tree := TreeAt(s, s.saved.revision);
    var drift := DriftOf(s, tree, e.legacyMatches);
    var binding := BindingOf(s, tree, drift);
    if e.token.Some? && Confirms(s, e, binding) {
      TokenAccepted(s, e, tree, drift, binding);
    } else if e.token.Some? || drift != Clean {
      TokenIssued(s, e, binding);
    }
  }

  lemma TokenIssued(s: State, e: Event, binding: Binding)
    requires TokensHold(s) && e.Inspect?
    ensures TokensHold(Issue(s, e, binding))
  {
    assert s.log.nextToken !in s.log.issued;
  }

  lemma TokenAccepted(s: State, e: Event, tree: Tree, drift: Drift, binding: Binding)
    requires TokensHold(s) && e.Inspect? && e.token.Some? && Confirms(s, e, binding)
             && binding == BindingOf(s, tree, drift)
    ensures TokensHold(s.(pending := None, log := s.log.(accepted := s.log.accepted + [e.token.value]),
                          phase := Accepted(Safe(e.token, tree, drift, e.actor, e.now))))
  {
    assert e.token.value in s.log.accepted + [e.token.value];
  }

  lemma UntouchedKeptByOutside(s: State, e: Event)
    requires EnabledOutside(s, e) && StorageHolds(s) && Untouched(s)
    ensures Untouched(ApplyOutside(s, e))
  {
    hide Classify, DriftOf, Baseline, Sees;
  }

  lemma UntouchedKeptByStaging(s: State, e: Event)
    requires EnabledStaging(s, e) && StorageHolds(s) && Untouched(s)
    ensures Untouched(ApplyStaging(s, e))
  {
    hide Classify, DriftOf, Baseline, Sees;
  }

  lemma UntouchedKeptByPublishing(s: State, e: Event)
    requires EnabledPublishing(s, e) && StorageHolds(s) && Untouched(s)
    ensures Untouched(ApplyPublishing(s, e))
  {
    hide Classify, DriftOf, Baseline, Sees;
  }

  lemma RecoverableKeptByOutside(s: State, e: Event)
    requires EnabledOutside(s, e) && StorageHolds(s) && Recoverable(s)
    ensures Recoverable(ApplyOutside(s, e))
  {
    hide Classify, DriftOf, Baseline;
    if e.Collect? && ApplyCollect(s, e.volume) != s { CollectSpares(s, e.ctx, e.volume); }
  }

  lemma RecoverableKeptByStaging(s: State, e: Event)
    requires EnabledStaging(s, e) && StorageHolds(s) && Recoverable(s)
    ensures Recoverable(ApplyStaging(s, e))
  {
    hide Classify, DriftOf, Baseline;
  }

  lemma RecoverableKeptByPublishing(s: State, e: Event)
    requires EnabledPublishing(s, e) && StorageHolds(s) && Recoverable(s)
    ensures Recoverable(ApplyPublishing(s, e))
  {
    hide Classify, DriftOf, Baseline;
  }

  /** No step, failed call or crash breaks any of it. */
  lemma StepKeeps(s: State, e: Event)
    requires Enabled(s, e) && Inv(s)
    ensures Inv(Apply(s, e))
  {
    hide StorageHolds, NumbersHold, TokensHold, Untouched, Recoverable;
    hide EnabledOutside, EnabledStaging, EnabledPublishing, ApplyOutside, ApplyStaging, ApplyPublishing;
    if EnabledOutside(s, e) {
      StorageKeptByOutside(s, e);
      NumbersKeptByOutside(s, e);
      TokensKeptByOutside(s, e);
      UntouchedKeptByOutside(s, e);
      RecoverableKeptByOutside(s, e);
    } else if EnabledStaging(s, e) {
      StorageKeptByStaging(s, e);
      NumbersKeptByStaging(s, e);
      TokensKeptByStaging(s, e);
      UntouchedKeptByStaging(s, e);
      RecoverableKeptByStaging(s, e);
    } else {
      StorageKeptByPublishing(s, e);
      NumbersKeptByPublishing(s, e);
      TokensKeptByPublishing(s, e);
      UntouchedKeptByPublishing(s, e);
      RecoverableKeptByPublishing(s, e);
    }
  }

  lemma {:induction false} RunKeeps(s: State, events: seq<Event>, t: State)
    requires Inv(s) && Leads(s, events, t)
    ensures Inv(t)
  {
    hide Inv, Enabled, Apply;
    if events != [] {
      var n := |events| - 1;
      var m :| Leads(s, events[..n], m) && Enabled(m, events[n]) && t == Apply(m, events[n]);
      RunKeeps(s, events[..n], m);
      StepKeeps(m, events[n]);
    }
  }

  // ---- what every run keeps ----

  /** The published generation and the retained one always exist, whatever failed. */
  lemma StorageIsSound(s: State, events: seq<Event>, t: State)
    requires Initial(s) && Leads(s, events, t)
    ensures t.saved.hotel ==> t.saved.revision in t.volumes
    ensures t.saved.retained.Some? ==> t.saved.retained.value in t.volumes && t.saved.retained.value != t.saved.revision
  {
    InitialHolds(s);
    RunKeeps(s, events, t);
  }

  /** No number is staged twice, and none is staged over an existing volume, while the numbers stay exact. */
  lemma NumbersAreUsedOnce(s: State, events: seq<Event>, t: State)
    requires Initial(s) && Leads(s, events, t) && t.log.highest <= MAX_SAFE_INTEGER
    ensures forall i, j :: 0 <= i < j < |t.log.staged| ==> t.log.staged[i] < t.log.staged[j]
    ensures t.phase.Reserved? ==> t.phase.next !in t.volumes
  {
    InitialHolds(s);
    RunKeeps(s, events, t);
  }

  /** A Room at generation 1 beside a left-over generation 2, with every safe number used up. */
  function LastNumber(room: RoomId): State
  {
    State(room, Saved(true, 1, 0, None, None, false, Some(MAX_SAFE_INTEGER), None), map[1 := map[], 2 := map[]],
          Running(1), None, Idle, Log(MAX_SAFE_INTEGER, [], 0, map[], [], []))
  }

  lemma LeadsOn(s: State, events: seq<Event>, m: State, e: Event, longer: seq<Event>)
    requires Leads(s, events, m) && Enabled(m, e) && longer == events + [e]
    ensures Leads(s, longer, Apply(m, e))
  {
    hide Enabled, Apply;
    assert longer[..|events|] == events;
  }

  function TwoInstalls(): seq<Event>
  {
    [BeginInstall, Reserve, Import(None, None), BeginInstall, Reserve]
  }

  /** The condition is needed: the number after the last safe one is refused, but recorded, and the next reservation
      starts over from the current generation, where a volume already is. */
  lemma NumbersRunOut(room: RoomId)
    ensures exists t: State ::
              && Initial(LastNumber(room)) && Leads(LastNumber(room), TwoInstalls(), t)
              && t.phase.Reserved? && t.phase.next == 2 && 2 in t.volumes
  {
    hide Classify, Sees, Leads, DriftOf, Baseline;
    var s0, run := LastNumber(room), TwoInstalls();
    LeadsNowhere(s0);
    LeadsOn(s0, [], s0, BeginInstall, run[..1]);
    var s1 := Apply(s0, BeginInstall);
    LeadsOn(s0, run[..1], s1, Reserve, run[..2]);
    var s2 := Apply(s1, Reserve);
    LeadsOn(s0, run[..2], s2, Import(None, None), run[..3]);
    var s3 := Apply(s2, Import(None, None));
    assert s3 == s0.(saved := s0.saved.(genMax := Some(MAX_SAFE_INTEGER + 1)),
                     log := s0.log.(highest := MAX_SAFE_INTEGER + 1));
    SecondInstall(room, s3);
  }

  lemma LeadsNowhere(s: State)
    ensures Leads(s, [], s)
  {
  }

  lemma SecondInstall(room: RoomId, s3: State)
    requires var s0 := LastNumber(room);
             && Leads(s0, TwoInstalls()[..3], s3)
             && s3 == s0.(saved := s0.saved.(genMax := Some(MAX_SAFE_INTEGER + 1)),
                          log := s0.log.(highest := MAX_SAFE_INTEGER + 1))
    ensures exists t: State ::
              Leads(LastNumber(room), TwoInstalls(), t) && t.phase.Reserved? && t.phase.next == 2 && 2 in t.volumes
  {
    hide Classify, Sees, Leads, DriftOf, Baseline;
    var s0, run := LastNumber(room), TwoInstalls();
    LeadsOn(s0, run[..3], s3, BeginInstall, run[..4]);
    var s4 := Apply(s3, BeginInstall);
    LeadsOn(s0, run[..4], s4, Reserve, run);
    var t := Apply(s4, Reserve);
    assert t.phase.next == 2;
  }

  /** A sync that went through replaced exactly the tree that was inspected. That tree was either unchanged
      since the last accepted state, or the one its token was issued for: to the same actor, for the same
      generation, and not yet expired. */
  lemma SyncsAreInformed(s: State, events: seq<Event>, t: State, k: nat)
    requires Initial(s) && Leads(s, events, t) && k < |t.log.synced| && t.log.synced[k].job.Safe?
    ensures var sync := t.log.synced[k];
            && sync.replaced == sync.job.inspected
            && match sync.job.token
               case None => sync.job.drift == Clean
               case Some(token) =>
                 && token in t.log.accepted && token in t.log.issued
                 && var issue := t.log.issued[token];
                 && issue.binding.tree == sync.replaced && issue.binding.revision == sync.revision
                 && issue.actor == sync.job.actor && sync.job.at <= issue.expiresAt
  {
    InitialHolds(s);
    RunKeeps(s, events, t);
    assert JobHolds(t.log, t.log.synced[k].job, t.log.synced[k].revision);
  }

  /** A confirmation token is accepted at most once. */
  lemma TokensAreUsedOnce(s: State, events: seq<Event>, t: State)
    requires Initial(s) && Leads(s, events, t)
    ensures forall i, j :: 0 <= i < j < |t.log.accepted| ==> t.log.accepted[i] != t.log.accepted[j]
  {
    InitialHolds(s);
    RunKeeps(s, events, t);
  }

  /** Until the next sync, what the last one replaced can be read back from the retained generation. */
  lemma ReplacedIsRecoverable(s: State, events: seq<Event>, t: State)
    requires Initial(s) && Leads(s, events, t)
    requires t.log.synced != [] && !t.log.synced[|t.log.synced| - 1].job.Migrate?
    ensures t.saved.retained.Some? && t.saved.retained.value in t.volumes
    ensures t.volumes[t.saved.retained.value] == t.log.synced[|t.log.synced| - 1].replaced
  {
    hide *;
    InitialHolds(s);
    RunKeeps(s, events, t);
    KeptIsReplaced(t);
  }

  lemma KeptIsReplaced(t: State)
    requires Inv(t) && t.log.synced != [] && !t.log.synced[|t.log.synced| - 1].job.Migrate?
    ensures t.saved.retained.Some? && t.saved.retained.value in t.volumes
    ensures t.volumes[t.saved.retained.value] == t.log.synced[|t.log.synced| - 1].replaced
  {
    hide NumbersHold, TokensHold, Untouched;
  }

  /** Drift is reported clean by a path comparison exactly when that comparison lists nothing. */
  lemma CleanIsNoChanges(s: State, tree: Tree, changes: seq<WorkspaceDrift.Change>, legacyMatches: bool)
    requires Baseline(s).Some? && IsDiff(Baseline(s).value, tree, changes)
    ensures DriftOf(s, tree, legacyMatches) == Clean <==> changes == []
  {
    CleanIsEqual(Baseline(s).value, tree, changes);
  }
}
