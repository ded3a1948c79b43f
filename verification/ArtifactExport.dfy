/**
 * Export of an artifact into a Room's workspace, as atomic steps: claim a durable
 * intent, pause the exact runtime, publish, record, restore, release. Other
 * processes, failures of every call, a helper that outlives its caller, crashes,
 * and a starting process that settles interrupted exports come between any two steps.
 */
module ArtifactExport {

  import opened Wrappers

  /** The two revisions a fence compares. */
  datatype Row = Row(volume: int, state: int)

  /** The three recovery intents of a Room exclude each other. */
  datatype Key = LocaleRestore | AcceptanceRestore | ExportIntent

  /** A stored intent: its token, which nobody else has, and the workspace generation it is for. */
  datatype Intent = Intent(token: int, volume: int)

  /** The durable Room row and its intents. */
  datatype Saved = Saved(room: Option<Row>, enabled: bool, keys: map<Key, Intent>)

  datatype Runtime = Running(volume: int) | Paused(volume: int, owner: int) | Stopped

  /** The web container, the publication helper still at work, and the artifacts in the workspaces. */
  datatype Docker = Docker(runtime: Runtime, helper: Option<int>, landed: set<int>)

  /** What the caller is told. */
  datatype Answer =
    | Exported | Withheld | RuntimeFailed | CommittedRuntimeFailed | PublicationAmbiguous | CommittedCleanupFailed
  {
    predicate SaysCommitted() { Exported? || CommittedRuntimeFailed? || CommittedCleanupFailed? }
    predicate SaysNotCommitted() { RuntimeFailed? || Withheld? }
  }

  /** Where the exporting process is, with what its last look at the row showed. */
  datatype Control =
    | Idle
    | Entered(start: Row)
    | Claimed(value: int)
    | Captured(value: int)
    | Held(value: int)
    | Fenced(value: int, seen: Row)
    | Published(value: int)
    | Settling(value: int, committed: bool)
    | Ready(value: int, committed: bool, seen: Row)
    | Restored(value: int, committed: bool)
    | Proven(value: int, committed: bool)
    | Doubting(value: int, answer: Answer)
    | Stopping(value: int, answer: Answer)
    | Removing(value: int, answer: Answer, stopped: bool)

  /** Where a starting process is, with the intent it found, and what it has proved so far: no helper job is left, its
      mark landed, the pod has stopped. */
  datatype Recovery =
    | Resting
    | Started(absent: bool)
    | Marked(intent: Intent, volume: int, absent: bool, fenced: bool)
    | Halted(intent: Intent, volume: int, absent: bool, fenced: bool, stopped: bool)
    | Decided(intent: Intent, found: Found)

  /** A durable state right before and right after one statement. */
  datatype Change = Change(before: Saved, after: Saved)

  /** What containment got done beyond the mark. */
  datatype Containment = Containment(stopped: bool, removed: bool)

  /** An intent dropped at startup, what was found, and whether its export was at work since this startup had removed
      the jobs. */
  datatype Drop = Drop(change: Change, found: Found, raced: bool)

  /** What the proofs remember of each export, by its token: the row it started from, the row its record left, what
      the looks before its publication, before its restore and after its restore saw, and how it ended. */
  datatype History = History(
    claims: map<int, Row>, marks: map<int, Row>,
    published: map<int, Row>, restored: map<int, Row>, proven: map<int, Row>,
    released: map<int, Change>, contained: map<int, Containment>, crashed: set<int>, answers: map<int, Answer>,
    care: Care)

  /** The marks of containments, the drops of startups, and the exports at work since jobs were last removed. */
  datatype Care = Care(fenced: map<int, Change>, dropped: map<int, Drop>, busy: set<int>)

  datatype State = State(saved: Saved, docker: Docker, control: Control, recovery: Recovery, past: History)

  datatype PublishOutcome = PublishedExactly | Refused | Ambiguous(landed: bool, running: bool)

  datatype Found = FoundCommitted | FoundAbsent | DestinationExists | UnsafeParent | Incomplete

  datatype Event =
    // everybody else
    | OtherRow(room: Option<Row>, enabled: bool)
    | OtherClaim(key: Key, intent: Intent)
    | OtherRelease(key: Key)
    | HelperLands
    | HelperDies
    | Crash
    // the export
    | Enter
    | Claim(value: int)
    | Capture(ok: bool)
    | Pause(ok: bool, stuck: bool)
    | LookPaused
    | Publish(outcome: PublishOutcome)
    | Record(throws: bool)
    | LookBefore
    | Restore(ok: bool)
    | LookAfter
    | LetGo(throws: bool, stagingRemoved: bool)
    | MarkDoubtful(landed: bool)
    | StopDoubtful(ok: bool)
    | RemoveHelpers(ok: bool)
    // startup recovery
    | RemoveJobs(ok: bool)
    | MarkInterrupted(landed: bool, ok: bool)
    | StopPod(ok: bool)
    | Decide(found: Found)
    | DropIntent
    | RecoveryDies

  // ---- the world ----

  /** The Room moved on from `row`: deleted, or at a later state. */
  predicate Beyond(room: Option<Row>, row: Row)
  {
    room.None? || row.state < room.value.state
  }

  predicate EnabledOutside(s: State, e: Event)
  {
    match e
    case OtherRow(room, _) => s.saved.room.Some? && Beyond(room, s.saved.room.value)
    case OtherClaim(_, intent) => s.saved.keys == map[] && intent.token !in s.past.claims
    case OtherRelease(key) => key in s.saved.keys && s.saved.keys[key].token !in s.past.claims
    case HelperLands => s.docker.helper.Some?
    case HelperDies => s.docker.helper.Some?
    case Crash => true
    case _ => false
  }

  function ApplyOutside(s: State, e: Event): State
    requires EnabledOutside(s, e)
  {
    match e
    case OtherRow(room, enabled) => s.(saved := s.saved.(room := room, enabled := enabled))
    case OtherClaim(key, intent) => s.(saved := s.saved.(keys := map[key := intent]))
    case OtherRelease(key) => s.(saved := s.saved.(keys := s.saved.keys - {key}))
    case HelperLands =>
      s.(docker := s.docker.(helper := None, landed := s.docker.landed + {s.docker.helper.value}))
    case HelperDies => s.(docker := s.docker.(helper := None))
    case Crash =>
      s.(control := Idle,
         past := s.past.(crashed := s.past.crashed + (if HasValue(s.control) then {s.control.value} else {})))
  }

  predicate HasValue(c: Control) { !c.Idle? && !c.Entered? }

  // ---- the export ----

  /** One statement: the intent goes in only if no recovery key of the Room is taken. */
  function SetIfAbsentWhenKeysAbsent(saved: Saved, value: Intent): Option<Saved>
  {
    if LocaleRestore in saved.keys || AcceptanceRestore in saved.keys || ExportIntent in saved.keys then None
    else Some(saved.(keys := saved.keys[ExportIntent := value]))
  }

  function MarkWorkspaceModifiedIfRevision(saved: Saved, expected: Row): Option<Saved>
  {
    if saved.room == Some(expected) then Some(saved.(room := Some(Row(expected.volume, expected.state + 1)))) else None
  }

  function DeleteIfValueAndRoomRevision(saved: Saved, value: Intent, expected: Row): Option<Saved>
  {
    if ExportIntent in saved.keys && saved.keys[ExportIntent] == value && saved.room == Some(expected)
    then Some(saved.(keys := saved.keys - {ExportIntent})) else None
  }

  /** The Room is disabled and its revision bumped, whatever it is. */
  function MarkWorkspaceAmbiguous(saved: Saved): Saved
  {
    match saved.room
    case None => saved
    case Some(row) => saved.(room := Some(Row(row.volume, row.state + 1)), enabled := false)
  }

  /** The revision this export must find: one further once its publication is recorded. */
  function Due(start: Row, committed: bool): Row
  {
    if committed then Row(start.volume, start.state + 1) else start
  }

  function StartOf(s: State, value: int): Row
  {
    if value in s.past.claims then s.past.claims[value] else Row(0, 0)
  }

  predicate HasIntent(r: Recovery) { r.Marked? || r.Halted? || r.Decided? }

  /** A random token that nobody has used. */
  predicate Fresh(s: State, value: int)
  {
    && value !in s.past.claims && (forall key | key in s.saved.keys :: s.saved.keys[key].token != value)
    && (HasIntent(s.recovery) ==> s.recovery.intent.token != value)
  }

  function IntentOf(s: State, value: int): Intent { Intent(value, StartOf(s, value).volume) }

  predicate EnabledExport(s: State, e: Event)
  {
    match e
    case Enter => s.control.Idle? && s.saved.room.Some? && s.saved.enabled
    case Claim(value) => s.control.Entered? && Fresh(s, value)
    case Capture(_) => s.control.Claimed?
    case Pause(_, _) => s.control.Captured?
    case LookPaused => s.control.Held?
    case Publish(_) => s.control.Fenced?
    case Record(_) => s.control.Published?
    case LookBefore => s.control.Settling?
    case Restore(_) => s.control.Ready?
    case LookAfter => s.control.Restored?
    case LetGo(_, _) => s.control.Proven?
    case MarkDoubtful(landed) => s.control.Doubting? && (landed ==> s.saved.room.Some?)
    case StopDoubtful(_) => s.control.Stopping?
    case RemoveHelpers(_) => s.control.Removing?
    case _ => false
  }

  function ApplyPause(s: State, ok: bool, stuck: bool): State
    requires s.control.Captured?
  {
    var value := s.control.value;
    var paused := s.docker.(runtime := Paused(StartOf(s, value).volume, value));
    if ok then s.(docker := paused, control := Held(value))
    else s.(docker := if stuck then paused else s.docker, control := Settling(value, false))
  }

  function ApplyPublish(s: State, outcome: PublishOutcome): State
    requires s.control.Fenced?
  {
    var value := s.control.value;
    var begun := s.(past := s.past.(published := s.past.published[value := s.control.seen]));
    match outcome
    case PublishedExactly =>
      begun.(docker := s.docker.(helper := None, landed := s.docker.landed + {value}), control := Published(value))
    case Refused => begun.(control := Settling(value, false))
    case Ambiguous(landed, running) =>
      begun.(docker := if landed then s.docker.(landed := s.docker.landed + {value})
                       else if running then s.docker.(helper := Some(value)) else s.docker,
             control := Doubting(value, PublicationAmbiguous))
  }

  function ApplyClaim(s: State, value: int): State
    requires s.control.Entered?
  {
    match SetIfAbsentWhenKeysAbsent(s.saved, Intent(value, s.control.start.volume))
    case None => s.(control := Idle)
    case Some(saved) =>
      s.(saved := saved, control := Claimed(value),
         past := s.past.(claims := s.past.claims[value := s.control.start],
                         care := s.past.care.(busy := s.past.care.busy + {value})))
  }

  function ApplyRecord(s: State, throws: bool): State
    requires s.control.Published?
  {
    var value, start := s.control.value, StartOf(s, s.control.value);
    match MarkWorkspaceModifiedIfRevision(s.saved, start)
    case None => s.(control := Doubting(value, CommittedCleanupFailed))
    case Some(saved) =>
      if throws then s.(control := Doubting(value, CommittedCleanupFailed))
      else
        s.(saved := saved, control := Settling(value, true),
           past := s.past.(marks := s.past.marks[value := saved.room.value]))
  }

  function ApplyRestore(s: State, ok: bool): State
    requires s.control.Ready?
  {
    var c := s.control;
    if !ok then s.(control := Doubting(c.value, RuntimeAnswer(c.committed)))
    else
      s.(docker := s.docker.(runtime := Running(StartOf(s, c.value).volume)), control := Restored(c.value, c.committed),
         past := s.past.(restored := s.past.restored[c.value := c.seen]))
  }

  /** The look after the restore; the runtime is up again, so anything but the due row is a runtime failure. */
  function ApplyLookAfter(s: State): State
    requires s.control.Restored?
  {
    var c := s.control;
    if s.saved.room != Some(Due(StartOf(s, c.value), c.committed)) then
      s.(control := Doubting(c.value, RuntimeAnswer(c.committed)))
    else
      s.(control := Proven(c.value, c.committed),
         past := s.past.(proven := s.past.proven[c.value := s.saved.room.value]))
  }

  function RuntimeAnswer(committed: bool): Answer { if committed then CommittedRuntimeFailed else RuntimeFailed }

  function ApplyLetGo(s: State, throws: bool, stagingRemoved: bool): State
    requires s.control.Proven?
  {
    var c := s.control;
    var kept := s.(control := Doubting(c.value, if c.committed then CommittedCleanupFailed else PublicationAmbiguous));
    match DeleteIfValueAndRoomRevision(s.saved, IntentOf(s, c.value), Due(StartOf(s, c.value), c.committed))
    case None => kept
    case Some(saved) =>
      if throws then kept
      else
        var answer := if !c.committed then Withheld else if stagingRemoved then Exported else CommittedCleanupFailed;
        s.(saved := saved, control := Idle,
           past := s.past.(released := s.past.released[c.value := Change(s.saved, saved)],
                           answers := s.past.answers[c.value := answer]))
  }

  /** Containment: the Room is marked if that works, */
  function ApplyMarkDoubtful(s: State, landed: bool): State
    requires s.control.Doubting?
  {
    var v, after := s.control.value, MarkWorkspaceAmbiguous(s.saved);
    var next := s.(control := Stopping(v, s.control.answer));
    if landed then
      next.(saved := after,
            past := s.past.(care := s.past.care.(fenced := s.past.care.fenced[v := Change(s.saved, after)])))
    else next
  }

  /** the pod is stopped if that works, */
  function ApplyStopDoubtful(s: State, ok: bool): State
    requires s.control.Stopping?
  {
    s.(docker := s.docker.(runtime := if ok then Stopped else s.docker.runtime),
       control := Removing(s.control.value, s.control.answer, ok))
  }

  /** and the helper jobs are removed if that works; then the caller is told. */
  function ApplyRemoveHelpers(s: State, ok: bool): State
    requires s.control.Removing?
  {
    var c := s.control;
    s.(docker := s.docker.(helper := if ok then None else s.docker.helper), control := Idle,
       past := s.past.(contained := s.past.contained[c.value := Containment(c.stopped, ok)],
                       answers := s.past.answers[c.value := c.answer]))
  }

  function ApplyExport(s: State, e: Event): State
    requires EnabledExport(s, e)
  {
    match e
    case Enter => s.(control := Entered(s.saved.room.value))
    case Claim(value) => ApplyClaim(s, value)
    case Capture(ok) => s.(control := if ok then Captured(s.control.value) else Doubting(s.control.value, Withheld))
    case Pause(ok, stuck) => ApplyPause(s, ok, stuck)
    case LookPaused =>
      var value := s.control.value;
      if s.saved.room.None? then s.(control := Settling(value, false))
      else if s.saved.room.value != StartOf(s, value) then s.(control := Doubting(value, Withheld))
      else s.(control := Fenced(value, s.saved.room.value))
    case Publish(outcome) => ApplyPublish(s, outcome)
    case Record(throws) => ApplyRecord(s, throws)
    case LookBefore =>
      var c := s.control;
      if s.saved.room != Some(Due(StartOf(s, c.value), c.committed)) then
        s.(control := Doubting(c.value, if c.committed then CommittedCleanupFailed else Withheld))
      else s.(control := Ready(c.value, c.committed, s.saved.room.value))
    case Restore(ok) => ApplyRestore(s, ok)
    case LookAfter => ApplyLookAfter(s)
    case LetGo(throws, stagingRemoved) => ApplyLetGo(s, throws, stagingRemoved)
    case MarkDoubtful(landed) => ApplyMarkDoubtful(s, landed)
    case StopDoubtful(ok) => ApplyStopDoubtful(s, ok)
    case RemoveHelpers(ok) => ApplyRemoveHelpers(s, ok)
  }

  // ---- startup recovery, in any process ----

  predicate EnabledRecovery(s: State, e: Event)
  {
    match e
    case RemoveJobs(_) => s.recovery.Resting?
    case MarkInterrupted(landed, ok) =>
      && s.recovery.Started? && ExportIntent in s.saved.keys && s.saved.room.Some?
      && LocaleRestore !in s.saved.keys && AcceptanceRestore !in s.saved.keys && (ok ==> landed)
    case StopPod(_) => s.recovery.Marked?
    case Decide(_) => s.recovery.Halted?
    case DropIntent => s.recovery.Decided?
    case RecoveryDies => true
    case _ => false
  }

  /** Every job goes, or nobody can say; whatever is at work from here on may start another. */
  function ApplyRemoveJobs(s: State, ok: bool): State
  {
    s.(docker := s.docker.(helper := if ok then None else s.docker.helper), recovery := Started(ok),
       past := s.past.(care := s.past.care.(busy := if HasValue(s.control) then {s.control.value} else {})))
  }

  /** The starting process fences the Room before it touches anything else; the fence may fail, landed or not. */
  function ApplyMark(s: State, landed: bool, ok: bool): State
    requires s.recovery.Started? && ExportIntent in s.saved.keys && s.saved.room.Some?
  {
    s.(saved := if landed then MarkWorkspaceAmbiguous(s.saved) else s.saved,
       recovery := Marked(s.saved.keys[ExportIntent], s.saved.room.value.volume, s.recovery.absent, ok))
  }

  /** An intent may go only from a fenced, quiet Room at its own generation with a settled destination. */
  predicate Settles(r: Recovery, found: Found)
    requires r.Halted?
  {
    r.fenced && r.absent && r.stopped && r.volume == r.intent.volume && !found.Incomplete?
  }

  function ApplyDrop(s: State): State
    requires s.recovery.Decided?
  {
    var intent := s.recovery.intent;
    if ExportIntent in s.saved.keys && s.saved.keys[ExportIntent] == intent then
      var saved := s.saved.(keys := s.saved.keys - {ExportIntent});
      var drop := Drop(Change(s.saved, saved), s.recovery.found, intent.token in s.past.care.busy);
      s.(saved := saved, recovery := Resting,
         past := if intent.token in s.past.claims
                 then s.past.(care := s.past.care.(dropped := s.past.care.dropped[intent.token := drop]))
                 else s.past)
    else s.(recovery := Resting)
  }

  function ApplyRecovery(s: State, e: Event): State
    requires EnabledRecovery(s, e)
  {
    match e
    case RemoveJobs(ok) => ApplyRemoveJobs(s, ok)
    case MarkInterrupted(landed, ok) => ApplyMark(s, landed, ok)
    case StopPod(ok) =>
      var r := s.recovery;
      s.(docker := s.docker.(runtime := if ok then Stopped else s.docker.runtime),
         recovery := Halted(r.intent, r.volume, r.absent, r.fenced, ok))
    case Decide(found) =>
      s.(recovery := if Settles(s.recovery, found) then Decided(s.recovery.intent, found) else Resting)
    case DropIntent => ApplyDrop(s)
    case RecoveryDies => s.(recovery := Resting)
  }

  predicate Enabled(s: State, e: Event)
  {
    EnabledOutside(s, e) || EnabledExport(s, e) || EnabledRecovery(s, e)
  }

  function Apply(s: State, e: Event): State
    requires Enabled(s, e)
  {
    if EnabledOutside(s, e) then ApplyOutside(s, e)
    else if EnabledExport(s, e) then ApplyExport(s, e)
    else ApplyRecovery(s, e)
  }

  ghost predicate Leads(s: State, events: seq<Event>, t: State)
  {
    if events == [] then s == t
    else
      var n := |events| - 1;
      exists m :: Leads(s, events[..n], m) && Enabled(m, events[n]) && t == Apply(m, events[n])
  }

  // ---- invariants ----

  /** The intent of this export is still the one stored. */
  predicate Stands(s: State, v: int)
  {
    ExportIntent in s.saved.keys && s.saved.keys[ExportIntent].token == v
  }

  /** The Room is past every row this export would still accept. */
  predicate MovedPast(s: State, v: int)
  {
    Beyond(s.saved.room, Due(StartOf(s, v), v in s.past.marks))
  }

  predicate PausedBy(s: State, v: int) { s.docker.runtime.Paused? && s.docker.runtime.owner == v }

  /** Something of this export is not accounted for: its helper may still publish, its artifact is not in the
      Room's record, or the runtime is still paused by it. */
  predicate Unsettled(s: State, v: int)
  {
    || s.docker.helper == Some(v)
    || (v in s.docker.landed && v !in s.past.marks)
    || PausedBy(s, v)
  }

  /** Intents exclude each other, and only an export's own one carries its token. */
  ghost predicate KeysHold(s: State)
  {
    && (forall a, b :: a in s.saved.keys && b in s.saved.keys ==> a == b)
    && (forall k :: k in s.saved.keys && s.saved.keys[k].token in s.past.claims ==>
          k == ExportIntent && s.saved.keys[k] == IntentOf(s, s.saved.keys[k].token))
  }

  /** The Room row has reached `row`, and stands there or beyond. */
  predicate Reached(room: Option<Row>, row: Row) { Beyond(room, row) || room == Some(row) }

  ghost predicate RowsHold(s: State)
  {
    && (s.control.Entered? ==> Reached(s.saved.room, s.control.start))
    && (forall v :: v in s.past.claims ==> Reached(s.saved.room, Due(s.past.claims[v], v in s.past.marks)))
    && (forall v :: v in s.past.marks ==> v in s.past.claims && s.past.marks[v] == Due(s.past.claims[v], true))
  }

  /** Whoever was fenced, the Room has moved past. */
  ghost predicate FencesHold(s: State)
  {
    && (IsFenced(s.recovery) && s.recovery.intent.token in s.past.claims ==> MovedPast(s, s.recovery.intent.token))
    && (s.recovery.Decided? ==> !s.recovery.found.Incomplete?)
    && (forall v :: v in s.past.care.fenced ==> v in s.past.claims && MovedPast(s, v))
    && (forall v :: v in s.past.care.fenced ==> ProperFence(s.past.care.fenced[v]))
    && (forall v :: v in s.past.care.dropped ==> v in s.past.claims && MovedPast(s, v))
  }

  predicate IsFenced(r: Recovery) { ((r.Marked? || r.Halted?) && r.fenced) || r.Decided? }

  predicate JobsAbsent(r: Recovery) { ((r.Started? || r.Marked? || r.Halted?) && r.absent) || r.Decided? }

  predicate PodStopped(r: Recovery) { (r.Halted? && r.stopped) || r.Decided? }

  /** A mark disables the Room at its next revision and leaves every intent. */
  predicate ProperFence(c: Change)
  {
    && c.before.room.Some? && c.after.keys == c.before.keys && !c.after.enabled
    && c.after.room == Some(Row(c.before.room.value.volume, c.before.room.value.state + 1))
  }

  /** An intent stands until its export releases it or a startup drops it. */
  ghost predicate IntentsHold(s: State)
  {
    && (forall v :: v in s.past.claims ==> Stands(s, v) || v in s.past.released || v in s.past.care.dropped)
    && (forall v :: v in s.past.released || v in s.past.care.dropped ==> v in s.past.claims && !Stands(s, v))
    && (forall v :: v in s.past.released ==> v !in s.past.care.dropped)
    && (forall v :: v in s.past.care.dropped ==> ProperDrop(s, v, s.past.care.dropped[v]))
  }

  /** A drop took the export's own intent and nothing else, over a settled destination and a Room moved on. */
  predicate ProperDrop(s: State, v: int, d: Drop)
  {
    && d.change.before.keys == map[ExportIntent := IntentOf(s, v)]
    && d.change.after == d.change.before.(keys := map[]) && !d.found.Incomplete?
    && Beyond(d.change.before.room, StartOf(s, v))
  }

  /** What was removed and stopped stays so, for whoever is not at work any more. */
  ghost predicate QuietHolds(s: State)
  {
    && (HasValue(s.control) ==> s.control.value in s.past.care.busy)
    && (JobsAbsent(s.recovery) && s.docker.helper.Some? ==> s.docker.helper.value in s.past.care.busy)
    && (PodStopped(s.recovery) && s.docker.runtime.Paused? ==> s.docker.runtime.owner in s.past.care.busy)
    && (s.control.Removing? && s.control.stopped ==> !PausedBy(s, s.control.value))
    && (forall v :: v in s.past.contained ==> LeftQuiet(s, v, s.past.contained[v]))
    && (forall v :: v in s.past.care.dropped && !s.past.care.dropped[v].raced ==>
          !AtWork(s, v) && s.docker.helper != Some(v) && !PausedBy(s, v))
  }

  predicate LeftQuiet(s: State, v: int, c: Containment)
  {
    (c.removed ==> s.docker.helper != Some(v)) && (c.stopped ==> !PausedBy(s, v))
  }

  predicate BeforePublication(c: Control) { c.Claimed? || c.Captured? || c.Held? || c.Fenced? }

  predicate Containing(c: Control) { c.Doubting? || c.Stopping? || c.Removing? }

  predicate AfterPublication(c: Control) { c.Settling? || c.Ready? || c.Restored? || c.Proven? }

  /** What an answer says about the publication is so, and stays so. */
  predicate Truthful(s: State, v: int, answer: Answer)
  {
    && (answer.SaysCommitted() ==> v in s.docker.landed)
    && (answer.SaysNotCommitted() ==> v !in s.docker.landed && s.docker.helper != Some(v))
  }

  /** What the exporting process knows is so. */
  ghost predicate ControlHolds(s: State)
  {
    && (HasValue(s.control) ==>
          s.control.value in s.past.claims && (s.docker.helper == Some(s.control.value) ==> Containing(s.control)))
    && (BeforePublication(s.control) ==>
          && s.control.value !in s.docker.landed && s.control.value !in s.past.marks
          && s.control.value !in s.past.restored)
    && (s.control.Fenced? ==> s.control.seen == s.past.claims[s.control.value])
    && (s.control.Published? ==>
          s.control.value in s.docker.landed && s.control.value !in s.past.marks && s.control.value !in s.past.restored)
    && (AfterPublication(s.control) ==>
          && (s.control.committed <==> s.control.value in s.docker.landed)
          && (s.control.committed <==> s.control.value in s.past.marks))
    && (s.control.Settling? || s.control.Ready? ==> s.control.value !in s.past.restored)
    && (s.control.Ready? ==> s.control.seen == Due(s.past.claims[s.control.value], s.control.committed))
    && (s.control.Proven? ==> s.control.value in s.past.proven)
    && (Containing(s.control) ==> Truthful(s, s.control.value, s.control.answer))
    && (s.control.Restored? || s.control.Proven? ==>
          && s.control.value in s.past.restored
          && !PausedBy(s, s.control.value))
  }

  /** Everything outside speaks of claimed exports only. */
  ghost predicate NamesHold(s: State)
  {
    && (s.docker.helper.Some? ==> s.docker.helper.value in s.past.claims)
    && (s.docker.runtime.Paused? ==> s.docker.runtime.owner in s.past.claims)
    && (forall v :: v in s.docker.landed ==> v in s.past.claims)
    && (forall v :: v in s.past.contained ==> v in s.past.claims)
    && (forall v :: v in s.past.crashed ==> v in s.past.claims)
    && (forall v :: v in s.past.marks ==> v in s.docker.landed)
  }

  predicate AtWork(s: State, v: int) { HasValue(s.control) && s.control.value == v }

  /** A claimed export is at work, or has ended in exactly one way. */
  ghost predicate EndsHold(s: State)
  {
    forall v :: v in s.past.claims ==>
      && (AtWork(s, v) || v in s.past.released || v in s.past.contained || v in s.past.crashed)
      && !(v in s.past.released && v in s.past.contained) && !(v in s.past.released && v in s.past.crashed)
      && !(v in s.past.contained && v in s.past.crashed)
      && (AtWork(s, v) ==>
            v !in s.past.released && v !in s.past.contained && v !in s.past.crashed)
  }

  /** A release found the Room at exactly the due row, and took its own intent and nothing else. */
  ghost predicate ProperRelease(s: State, v: int, r: Change)
  {
    && r.before.room == Some(Due(StartOf(s, v), v in s.docker.landed))
    && r.before.keys == map[ExportIntent := IntentOf(s, v)] && r.after == r.before.(keys := map[])
  }

  ghost predicate ReleasesHold(s: State)
  {
    && (forall v :: v in s.past.released ==>
          && v in s.past.claims && ProperRelease(s, v, s.past.released[v]) && v in s.past.restored && v in s.past.proven
          && !Unsettled(s, v) && (v in s.docker.landed <==> v in s.past.marks))
    && (forall v :: v in s.past.restored ==>
          && v in s.past.claims && s.docker.helper != Some(v)
          && s.past.restored[v] == Due(s.past.claims[v], v in s.docker.landed)
          && (v in s.docker.landed <==> v in s.past.marks))
    && (forall v :: v in s.past.proven ==>
          v in s.past.restored && s.past.proven[v] == s.past.restored[v])
    && (forall v :: v in s.past.published ==> v in s.past.claims && s.past.published[v] == s.past.claims[v])
    && (forall v :: v in s.docker.landed || s.docker.helper == Some(v) ==> v in s.past.published)
  }

  ghost predicate AnswersHold(s: State)
  {
    && (forall v :: v in s.past.answers ==> v in s.past.claims && Truthful(s, v, s.past.answers[v]))
    && (forall v :: v in s.past.answers <==> v in s.past.released || v in s.past.contained)
    && (forall v :: v in s.past.released && v in s.docker.landed ==> s.past.answers[v].SaysCommitted())
  }

  /** What does not speak of who keeps an intent, nor of what containment and startup leave behind. */
  ghost predicate Parts(s: State) { Fences(s) && Ledger(s) && ReleasesHold(s) }

  ghost predicate Inv(s: State) { Parts(s) && IntentsHold(s) && QuietHolds(s) }

  function NoHistory(): History
  {
    History(map[], map[], map[], map[], map[], map[], map[], {}, map[], Care(map[], map[], {}))
  }

  /** No export yet; somebody else may hold an intent. */
  ghost predicate Initial(s: State)
  {
    && s.control.Idle? && s.recovery.Resting?
    && s.docker.helper.None? && s.docker.landed == {} && !s.docker.runtime.Paused?
    && (forall a, b :: a in s.saved.keys && b in s.saved.keys ==> a == b)
    && s.past == NoHistory()
  }

  ghost predicate Ledger(s: State) { NamesHold(s) && EndsHold(s) && AnswersHold(s) }

  ghost predicate Fences(s: State) { KeysHold(s) && RowsHold(s) && FencesHold(s) && ControlHolds(s) }

  /** The durable state, a startup and the care taken are apart from what is told and released. */
  function Aside(s: State, saved: Saved, recovery: Recovery, care: Care): State
  {
    s.(saved := saved, recovery := recovery, past := s.past.(care := care))
  }

  lemma AsideLedger(s: State, saved: Saved, recovery: Recovery, care: Care)
    requires Ledger(s)
    ensures Ledger(Aside(s, saved, recovery, care))
  {
  }

  lemma AsideReleases(s: State, saved: Saved, recovery: Recovery, care: Care)
    requires ReleasesHold(s)
    ensures ReleasesHold(Aside(s, saved, recovery, care))
  {
  }

  lemma AsideControl(s: State, saved: Saved, recovery: Recovery, care: Care)
    requires ControlHolds(s)
    ensures ControlHolds(Aside(s, saved, recovery, care))
  {
  }

  /** Jobs removed and pods stopped leave less unsettled, and nothing else changes. */
  predicate Quieter(docker: Docker, was: Docker)
  {
    && docker.landed == was.landed && (docker.helper == was.helper || docker.helper == None)
    && (docker.runtime == was.runtime || docker.runtime == Stopped)
  }

  lemma DockerQuietsFences(s: State, docker: Docker)
    requires Fences(s) && Quieter(docker, s.docker)
    ensures Fences(s.(docker := docker))
  {
  }

  lemma DockerQuietsLedger(s: State, docker: Docker)
    requires Ledger(s) && Quieter(docker, s.docker)
    ensures Ledger(s.(docker := docker))
  {
  }

  lemma DockerQuietsReleases(s: State, docker: Docker)
    requires ReleasesHold(s) && Quieter(docker, s.docker)
    ensures ReleasesHold(s.(docker := docker))
  {
  }

  lemma DockerQuiets(s: State, docker: Docker)
    requires Parts(s) && Quieter(docker, s.docker)
    ensures Parts(s.(docker := docker))
  {
    hide Fences, Ledger, ReleasesHold;
    DockerQuietsFences(s, docker);
    DockerQuietsLedger(s, docker);
    DockerQuietsReleases(s, docker);
  }

  /** Neither the intents nor what took them away has changed. */
  predicate SameIntents(s: State, t: State)
  {
    && t.saved.keys == s.saved.keys && t.past.claims == s.past.claims && t.past.released == s.past.released
    && t.past.care.dropped == s.past.care.dropped
  }

  lemma IntentsStay(s: State, t: State)
    requires IntentsHold(s) && SameIntents(s, t)
    ensures IntentsHold(t)
  {
  }

  // ---- everybody else ----

  predicate IsOther(e: Event) { e.OtherRow? || e.OtherClaim? || e.OtherRelease? }

  lemma OthersKeepFences(s: State, e: Event)
    requires EnabledOutside(s, e) && IsOther(e) && Inv(s)
    ensures Fences(ApplyOutside(s, e))
  {
    var t := ApplyOutside(s, e);
    assert t == Aside(s, t.saved, s.recovery, s.past.care);
    AsideControl(s, t.saved, s.recovery, s.past.care);
    OthersKeepRows(s, e);
    hide Inv, KeysHold, RowsHold, FencesHold, ControlHolds;
  }

  lemma OthersKeepRows(s: State, e: Event)
    requires EnabledOutside(s, e) && IsOther(e) && Inv(s)
    ensures KeysHold(ApplyOutside(s, e)) && RowsHold(ApplyOutside(s, e)) && FencesHold(ApplyOutside(s, e))
  {
    hide ControlHolds, NamesHold, EndsHold, AnswersHold, ReleasesHold, IntentsHold, QuietHolds;
  }

  lemma OthersKeep(s: State, e: Event)
    requires EnabledOutside(s, e) && IsOther(e) && Inv(s)
    ensures Parts(ApplyOutside(s, e))
  {
    hide Fences, Ledger, ReleasesHold, IntentsHold, QuietHolds;
    OthersKeepFences(s, e);
    var t := ApplyOutside(s, e);
    assert t == Aside(s, t.saved, s.recovery, s.past.care);
    AsideLedger(s, t.saved, s.recovery, s.past.care);
    AsideReleases(s, t.saved, s.recovery, s.past.care);
  }

  /** What a helper at work publishes. */
  function Landed(s: State): State
    requires s.docker.helper.Some?
  {
    s.(docker := s.docker.(helper := None, landed := s.docker.landed + {s.docker.helper.value}))
  }

  lemma LandingKeepsFences(s: State)
    requires s.docker.helper.Some? && Inv(s)
    ensures Fences(Landed(s))
  {
    hide EndsHold, AnswersHold, ReleasesHold, IntentsHold, QuietHolds;
  }

  lemma LandingKeepsLedger(s: State)
    requires s.docker.helper.Some? && Inv(s)
    ensures Ledger(Landed(s))
  {
    hide KeysHold, RowsHold, FencesHold, IntentsHold, QuietHolds;
  }

  lemma LandingKeepsReleases(s: State)
    requires s.docker.helper.Some? && Inv(s)
    ensures ReleasesHold(Landed(s))
  {
    hide KeysHold, RowsHold, FencesHold, EndsHold, AnswersHold, IntentsHold, QuietHolds;
  }

  lemma CrashKeepsFences(s: State)
    requires Inv(s)
    ensures Fences(ApplyOutside(s, Crash))
  {
    hide EndsHold, AnswersHold, ReleasesHold, IntentsHold, QuietHolds;
  }

  lemma CrashKeepsLedger(s: State)
    requires Inv(s)
    ensures Ledger(ApplyOutside(s, Crash))
  {
    hide KeysHold, RowsHold, FencesHold, ReleasesHold, IntentsHold, QuietHolds;
  }

  lemma CrashKeepsReleases(s: State)
    requires ReleasesHold(s)
    ensures ReleasesHold(ApplyOutside(s, Crash))
  {
  }

  lemma OutsideKeepsParts(s: State, e: Event)
    requires EnabledOutside(s, e) && Inv(s)
    ensures Parts(ApplyOutside(s, e))
  {
    hide Fences, Ledger, ReleasesHold, IntentsHold, QuietHolds;
    match e
    case HelperLands =>
      LandingKeepsFences(s);
      LandingKeepsLedger(s);
      LandingKeepsReleases(s);
    case HelperDies => DockerQuiets(s, s.docker.(helper := None));
    case Crash =>
      CrashKeepsFences(s);
      CrashKeepsLedger(s);
      CrashKeepsReleases(s);
    case _ => OthersKeep(s, e);
  }

  lemma OtherClaimKeepsIntents(s: State, key: Key, intent: Intent)
    requires s.saved.keys == map[] && intent.token !in s.past.claims && IntentsHold(s)
    ensures IntentsHold(s.(saved := s.saved.(keys := map[key := intent])))
  {
  }

  lemma OtherReleaseKeepsIntents(s: State, key: Key)
    requires key in s.saved.keys && s.saved.keys[key].token !in s.past.claims && IntentsHold(s)
    ensures IntentsHold(s.(saved := s.saved.(keys := s.saved.keys - {key})))
  {
  }

  lemma OutsideKeepsIntents(s: State, e: Event)
    requires EnabledOutside(s, e) && Inv(s)
    ensures IntentsHold(ApplyOutside(s, e))
  {
    hide Parts, IntentsHold, QuietHolds;
    if e.OtherClaim? {
      OtherClaimKeepsIntents(s, e.key, e.intent);
    } else if e.OtherRelease? {
      OtherReleaseKeepsIntents(s, e.key);
    } else {
      IntentsStay(s, ApplyOutside(s, e));
    }
  }

  lemma OutsideKeepsQuiet(s: State, e: Event)
    requires EnabledOutside(s, e) && Inv(s)
    ensures QuietHolds(ApplyOutside(s, e))
  {
    hide KeysHold, RowsHold, FencesHold, ControlHolds, NamesHold, EndsHold, AnswersHold, ReleasesHold, IntentsHold;
  }

  // ---- the export ----

  /** Steps that only look, or learn that a call failed. */
  predicate OnlyLooks(e: Event) { e.Enter? || e.Capture? || e.LookPaused? || e.LookBefore? }

  /** Moving the control within one export leaves everything else as it is. */
  predicate MovesTo(s: State, control: Control)
  {
    && (control.Entered? ==> Reached(s.saved.room, control.start)) && (HasValue(control) <==> HasValue(s.control))
    && (HasValue(control) ==> control.value == s.control.value)
  }

  lemma ControlMovesFences(s: State, control: Control)
    requires Inv(s) && ControlHolds(s.(control := control)) && MovesTo(s, control)
    ensures Fences(s.(control := control))
  {
    hide ControlHolds, EndsHold, AnswersHold, ReleasesHold, IntentsHold, QuietHolds;
  }

  lemma ControlMovesLedger(s: State, control: Control)
    requires Ledger(s) && ReleasesHold(s) && MovesTo(s, control)
    ensures Ledger(s.(control := control)) && ReleasesHold(s.(control := control))
  {
  }

  lemma ControlMoves(s: State, control: Control)
    requires Inv(s) && ControlHolds(s.(control := control)) && MovesTo(s, control)
    ensures Parts(s.(control := control))
  {
    ControlMovesFences(s, control);
    ControlMovesLedger(s, control);
    hide Fences, Ledger;
  }

  lemma LooksKeep(s: State, e: Event)
    requires EnabledExport(s, e) && OnlyLooks(e) && Inv(s)
    ensures Parts(ApplyExport(s, e))
  {
    var t := ApplyExport(s, e);
    LooksAround(s, e);
    hide Inv, ControlHolds, ApplyExport;
    ControlMoves(s, t.control);
  }

  lemma LooksAround(s: State, e: Event)
    requires EnabledExport(s, e) && OnlyLooks(e) && Inv(s)
    ensures var t := ApplyExport(s, e);
            t == s.(control := t.control) && ControlHolds(t) && MovesTo(s, t.control)
  {
    hide KeysHold, FencesHold, NamesHold, EndsHold, AnswersHold, ReleasesHold, IntentsHold, QuietHolds;
  }

  lemma ClaimKeepsRows(s: State, value: int)
    requires s.control.Entered? && Fresh(s, value) && Inv(s)
    ensures KeysHold(ApplyClaim(s, value)) && RowsHold(ApplyClaim(s, value))
  {
    hide FencesHold, ControlHolds, EndsHold, AnswersHold, ReleasesHold, IntentsHold, QuietHolds;
  }

  lemma ClaimKeepsCover(s: State, value: int)
    requires s.control.Entered? && Fresh(s, value) && Inv(s)
    ensures FencesHold(ApplyClaim(s, value))
  {
    hide KeysHold, RowsHold, ControlHolds, EndsHold, AnswersHold, IntentsHold, QuietHolds;
  }

  lemma ClaimKeepsControl(s: State, value: int)
    requires s.control.Entered? && Fresh(s, value) && Inv(s)
    ensures ControlHolds(ApplyClaim(s, value))
  {
    hide KeysHold, RowsHold, FencesHold, EndsHold, AnswersHold, IntentsHold, QuietHolds;
  }

  lemma ClaimKeepsFences(s: State, value: int)
    requires s.control.Entered? && Fresh(s, value) && Inv(s)
    ensures Fences(ApplyClaim(s, value))
  {
    ClaimKeepsRows(s, value);
    ClaimKeepsCover(s, value);
    ClaimKeepsControl(s, value);
    hide Inv, KeysHold, RowsHold, FencesHold, ControlHolds, IntentsHold, QuietHolds;
  }

  lemma ClaimKeepsLedger(s: State, value: int)
    requires s.control.Entered? && Fresh(s, value) && Inv(s)
    ensures Ledger(ApplyClaim(s, value))
  {
    hide KeysHold, RowsHold, FencesHold, IntentsHold, QuietHolds;
  }

  lemma ClaimKeepsReleases(s: State, value: int)
    requires s.control.Entered? && Fresh(s, value) && Inv(s)
    ensures ReleasesHold(ApplyClaim(s, value))
  {
    hide KeysHold, RowsHold, FencesHold, EndsHold, AnswersHold, IntentsHold, QuietHolds;
  }

  lemma PauseKeepsFences(s: State, ok: bool, stuck: bool)
    requires s.control.Captured? && Inv(s)
    ensures Fences(ApplyPause(s, ok, stuck))
  {
    hide EndsHold, AnswersHold, ReleasesHold, IntentsHold, QuietHolds;
  }

  lemma PauseKeepsLedger(s: State, ok: bool, stuck: bool)
    requires s.control.Captured? && Inv(s)
    ensures Ledger(ApplyPause(s, ok, stuck))
  {
    hide KeysHold, RowsHold, FencesHold, IntentsHold, QuietHolds;
  }

  lemma PauseKeepsReleases(s: State, ok: bool, stuck: bool)
    requires s.control.Captured? && Inv(s)
    ensures ReleasesHold(ApplyPause(s, ok, stuck))
  {
    hide KeysHold, RowsHold, FencesHold, EndsHold, AnswersHold, IntentsHold, QuietHolds;
  }

  lemma PublishKeepsControl(s: State, outcome: PublishOutcome)
    requires s.control.Fenced? && Inv(s)
    ensures ControlHolds(ApplyPublish(s, outcome))
  {
    hide KeysHold, RowsHold, FencesHold, EndsHold, AnswersHold, ReleasesHold, IntentsHold, QuietHolds;
  }

  lemma PublishKeepsCover(s: State, outcome: PublishOutcome)
    requires s.control.Fenced? && Inv(s)
    ensures FencesHold(ApplyPublish(s, outcome))
  {
    hide KeysHold, RowsHold, ControlHolds, NamesHold, EndsHold, AnswersHold, ReleasesHold, IntentsHold, QuietHolds;
  }

  lemma PublishKeepsFences(s: State, outcome: PublishOutcome)
    requires s.control.Fenced? && Inv(s)
    ensures Fences(ApplyPublish(s, outcome))
  {
    PublishKeepsControl(s, outcome);
    PublishKeepsCover(s, outcome);
    hide ControlHolds, FencesHold, NamesHold, EndsHold, AnswersHold, ReleasesHold, IntentsHold, QuietHolds;
  }

  lemma PublishKeepsNames(s: State, outcome: PublishOutcome)
    requires s.control.Fenced? && Inv(s)
    ensures NamesHold(ApplyPublish(s, outcome)) && EndsHold(ApplyPublish(s, outcome))
  {
    hide KeysHold, RowsHold, FencesHold, AnswersHold, ReleasesHold, IntentsHold, QuietHolds;
  }

  lemma PublishKeepsAnswers(s: State, outcome: PublishOutcome)
    requires s.control.Fenced? && Inv(s)
    ensures AnswersHold(ApplyPublish(s, outcome))
  {
    hide KeysHold, RowsHold, FencesHold, NamesHold, ReleasesHold, IntentsHold, QuietHolds;
  }

  lemma PublishKeepsLedger(s: State, outcome: PublishOutcome)
    requires s.control.Fenced? && Inv(s)
    ensures Ledger(ApplyPublish(s, outcome))
  {
    PublishKeepsNames(s, outcome);
    PublishKeepsAnswers(s, outcome);
    hide Inv, NamesHold, EndsHold, AnswersHold;
  }

  lemma PublishKeepsReleases(s: State, outcome: PublishOutcome)
    requires s.control.Fenced? && Inv(s)
    ensures ReleasesHold(ApplyPublish(s, outcome))
  {
    hide KeysHold, RowsHold, FencesHold, EndsHold, AnswersHold, IntentsHold, QuietHolds;
  }

  lemma RecordKeepsFences(s: State, throws: bool)
    requires s.control.Published? && Inv(s)
    ensures Fences(ApplyRecord(s, throws))
  {
    hide EndsHold, AnswersHold, ReleasesHold, IntentsHold, QuietHolds;
  }

  lemma RecordKeepsLedger(s: State, throws: bool)
    requires s.control.Published? && Inv(s)
    ensures Ledger(ApplyRecord(s, throws))
  {
    hide KeysHold, FencesHold, IntentsHold, QuietHolds;
  }

  lemma RecordKeepsReleases(s: State, throws: bool)
    requires s.control.Published? && Inv(s)
    ensures ReleasesHold(ApplyRecord(s, throws))
  {
    hide KeysHold, FencesHold, EndsHold, AnswersHold, IntentsHold, QuietHolds;
  }

  lemma RestoreKeepsFences(s: State, ok: bool)
    requires s.control.Ready? && Inv(s)
    ensures Fences(ApplyRestore(s, ok))
  {
    hide EndsHold, AnswersHold, ReleasesHold, IntentsHold, QuietHolds;
  }

  lemma RestoreKeepsLedger(s: State, ok: bool)
    requires s.control.Ready? && Inv(s)
    ensures Ledger(ApplyRestore(s, ok))
  {
    hide KeysHold, RowsHold, FencesHold, IntentsHold, QuietHolds;
  }

  lemma RestoreKeepsReleases(s: State, ok: bool)
    requires s.control.Ready? && Inv(s)
    ensures ReleasesHold(ApplyRestore(s, ok))
  {
    hide KeysHold, RowsHold, FencesHold, EndsHold, AnswersHold, IntentsHold, QuietHolds;
  }

  lemma LookAfterKeepsFences(s: State)
    requires s.control.Restored? && Inv(s)
    ensures Fences(ApplyLookAfter(s))
  {
    hide EndsHold, AnswersHold, ReleasesHold, IntentsHold, QuietHolds;
  }

  lemma LookAfterKeepsLedger(s: State)
    requires s.control.Restored? && Inv(s)
    ensures Ledger(ApplyLookAfter(s))
  {
    hide KeysHold, RowsHold, FencesHold, IntentsHold, QuietHolds;
  }

  lemma LookAfterKeepsReleases(s: State)
    requires s.control.Restored? && Inv(s)
    ensures ReleasesHold(ApplyLookAfter(s))
  {
    hide KeysHold, RowsHold, FencesHold, EndsHold, AnswersHold, IntentsHold, QuietHolds;
  }

  lemma LetGoKeepsFences(s: State, throws: bool, stagingRemoved: bool)
    requires s.control.Proven? && Inv(s)
    ensures Fences(ApplyLetGo(s, throws, stagingRemoved))
  {
    hide EndsHold, AnswersHold, ReleasesHold, IntentsHold, QuietHolds;
  }

  lemma LetGoKeepsEnds(s: State, throws: bool, stagingRemoved: bool)
    requires s.control.Proven? && Inv(s)
    ensures NamesHold(ApplyLetGo(s, throws, stagingRemoved)) && EndsHold(ApplyLetGo(s, throws, stagingRemoved))
  {
    hide KeysHold, RowsHold, FencesHold, AnswersHold, ReleasesHold, IntentsHold, QuietHolds;
  }

  lemma LetGoKeepsLedger(s: State, throws: bool, stagingRemoved: bool)
    requires s.control.Proven? && Inv(s)
    ensures Ledger(ApplyLetGo(s, throws, stagingRemoved))
  {
    LetGoKeepsEnds(s, throws, stagingRemoved);
    LetGoKeepsAnswers(s, throws, stagingRemoved);
    hide Inv, NamesHold, EndsHold, AnswersHold;
  }

  lemma LetGoKeepsAnswers(s: State, throws: bool, stagingRemoved: bool)
    requires s.control.Proven? && Inv(s)
    ensures AnswersHold(ApplyLetGo(s, throws, stagingRemoved))
  {
    hide KeysHold, RowsHold, FencesHold, NamesHold, EndsHold, ReleasesHold, IntentsHold, QuietHolds, StartOf, Due;
  }

  lemma LetGoKeepsReleases(s: State, throws: bool, stagingRemoved: bool)
    requires s.control.Proven? && Inv(s)
    ensures ReleasesHold(ApplyLetGo(s, throws, stagingRemoved))
  {
    hide RowsHold, FencesHold, EndsHold, AnswersHold, IntentsHold, QuietHolds;
  }

  lemma MarkDoubtfulKeepsFences(s: State, landed: bool)
    requires EnabledExport(s, MarkDoubtful(landed)) && Inv(s)
    ensures Fences(ApplyMarkDoubtful(s, landed))
  {
    hide EndsHold, AnswersHold, ReleasesHold, IntentsHold, QuietHolds;
  }

  lemma MarkDoubtfulKeepsLedger(s: State, landed: bool)
    requires EnabledExport(s, MarkDoubtful(landed)) && Inv(s)
    ensures Ledger(ApplyMarkDoubtful(s, landed)) && ReleasesHold(ApplyMarkDoubtful(s, landed))
  {
    hide Fences, Ledger, ReleasesHold, IntentsHold, QuietHolds;
    var t := ApplyMarkDoubtful(s, landed);
    var m := s.(control := t.control);
    assert t == Aside(m, t.saved, s.recovery, t.past.care);
    ControlMovesLedger(s, t.control);
    AsideLedger(m, t.saved, s.recovery, t.past.care);
    AsideReleases(m, t.saved, s.recovery, t.past.care);
  }

  lemma StopDoubtfulKeepsFences(s: State, ok: bool)
    requires s.control.Stopping? && Inv(s)
    ensures Fences(ApplyStopDoubtful(s, ok))
  {
    hide EndsHold, AnswersHold, ReleasesHold, IntentsHold, QuietHolds;
  }

  lemma StopDoubtfulKeepsLedger(s: State, ok: bool)
    requires s.control.Stopping? && Inv(s)
    ensures Ledger(ApplyStopDoubtful(s, ok)) && ReleasesHold(ApplyStopDoubtful(s, ok))
  {
    hide KeysHold, RowsHold, FencesHold, IntentsHold, QuietHolds;
  }

  lemma RemoveHelpersKeepsFences(s: State, ok: bool)
    requires s.control.Removing? && Inv(s)
    ensures Fences(ApplyRemoveHelpers(s, ok))
  {
    hide EndsHold, AnswersHold, ReleasesHold, IntentsHold, QuietHolds;
  }

  lemma RemoveHelpersKeepsEnds(s: State, ok: bool)
    requires s.control.Removing? && Inv(s)
    ensures NamesHold(ApplyRemoveHelpers(s, ok)) && EndsHold(ApplyRemoveHelpers(s, ok))
  {
    hide KeysHold, RowsHold, FencesHold, AnswersHold, ReleasesHold, IntentsHold, QuietHolds;
  }

  lemma RemoveHelpersKeepsLedger(s: State, ok: bool)
    requires s.control.Removing? && Inv(s)
    ensures Ledger(ApplyRemoveHelpers(s, ok))
  {
    RemoveHelpersKeepsEnds(s, ok);
    hide KeysHold, RowsHold, FencesHold, NamesHold, ReleasesHold, IntentsHold, QuietHolds;
  }

  lemma RemoveHelpersKeepsReleases(s: State, ok: bool)
    requires s.control.Removing? && Inv(s)
    ensures ReleasesHold(ApplyRemoveHelpers(s, ok))
  {
    hide KeysHold, RowsHold, FencesHold, EndsHold, AnswersHold, IntentsHold, QuietHolds;
  }

  /** A new helper or pause is that of the export at work, and what is over stays over. */
  predicate OnlyOwn(s: State, t: State)
  {
    && (t.docker.helper == s.docker.helper || t.docker.helper.None?
        || (HasValue(s.control) && t.docker.helper == Some(s.control.value)))
    && (t.docker.runtime == s.docker.runtime || !t.docker.runtime.Paused?
        || (HasValue(s.control) && t.docker.runtime.owner == s.control.value))
    && (HasValue(t.control) && (!HasValue(s.control) || t.control.value != s.control.value) ==>
          !HasValue(s.control) && t.control.value !in s.past.claims)
  }

  /** How an export step moves the processes and what is remembered of them. */
  predicate OwnStep(s: State, t: State)
  {
    && OnlyOwn(s, t) && t.recovery == s.recovery && s.past.care.busy <= t.past.care.busy
    && t.past.contained == s.past.contained && t.past.care.dropped == s.past.care.dropped
    && (t.control.Removing? && t.control.stopped ==> !PausedBy(t, t.control.value))
    && (HasValue(t.control) ==> AtWork(s, t.control.value) || t.control.value in t.past.care.busy)
  }

  /** A step that touches no intent and starts or pauses nothing of anybody else. */
  predicate OwnAffair(s: State, t: State) { SameIntents(s, t) && OwnStep(s, t) }

  lemma LookIsOwn(s: State, e: Event)
    requires EnabledExport(s, e) && OnlyLooks(e)
    ensures OwnAffair(s, ApplyExport(s, e))
  {
    hide StartOf, Due;
  }

  lemma PauseIsOwn(s: State, ok: bool, stuck: bool)
    requires s.control.Captured?
    ensures OwnAffair(s, ApplyPause(s, ok, stuck))
  {
  }

  lemma PublishIsOwn(s: State, outcome: PublishOutcome)
    requires s.control.Fenced?
    ensures OwnAffair(s, ApplyPublish(s, outcome))
  {
  }

  lemma RecordIsOwn(s: State, throws: bool)
    requires s.control.Published?
    ensures OwnAffair(s, ApplyRecord(s, throws))
  {
  }

  lemma RestoreIsOwn(s: State, ok: bool)
    requires s.control.Ready?
    ensures OwnAffair(s, ApplyRestore(s, ok))
  {
  }

  lemma LookAfterIsOwn(s: State)
    requires s.control.Restored?
    ensures OwnAffair(s, ApplyLookAfter(s))
  {
  }

  lemma ContainIsOwn(s: State, ok: bool)
    ensures s.control.Doubting? ==> OwnAffair(s, ApplyMarkDoubtful(s, ok))
    ensures s.control.Stopping? ==> OwnAffair(s, ApplyStopDoubtful(s, ok))
    ensures s.control.Removing? ==> SameIntents(s, ApplyRemoveHelpers(s, ok))
  {
  }

  lemma ClaimIsOwn(s: State, value: int)
    requires s.control.Entered? && Fresh(s, value)
    ensures OwnStep(s, ApplyClaim(s, value))
  {
  }

  lemma LetGoIsOwn(s: State, throws: bool, stagingRemoved: bool)
    requires s.control.Proven?
    ensures OwnStep(s, ApplyLetGo(s, throws, stagingRemoved))
  {
  }

  /** All export steps but a claim, a release and the end of a containment are of that kind. */
  lemma StepIsOwn(s: State, e: Event)
    requires EnabledExport(s, e) && !e.Claim? && !e.LetGo? && !e.RemoveHelpers?
    ensures OwnAffair(s, ApplyExport(s, e))
  {
    hide OwnAffair, SameIntents, OwnStep, ApplyPause, ApplyPublish, ApplyRecord, ApplyRestore, ApplyLookAfter;
    hide ApplyMarkDoubtful, ApplyStopDoubtful, StartOf, Due;
    if OnlyLooks(e) {
      LookIsOwn(s, e);
    } else {
      match e
      case Pause(ok, stuck) => PauseIsOwn(s, ok, stuck);
      case Publish(outcome) => PublishIsOwn(s, outcome);
      case Record(throws) => RecordIsOwn(s, throws);
      case Restore(ok) => RestoreIsOwn(s, ok);
      case LookAfter => LookAfterIsOwn(s);
      case MarkDoubtful(landed) => ContainIsOwn(s, landed);
      case StopDoubtful(ok) => ContainIsOwn(s, ok);
    }
  }

  lemma ClaimKeepsIntents(s: State, value: int)
    requires s.control.Entered? && Fresh(s, value) && IntentsHold(s)
    ensures IntentsHold(ApplyClaim(s, value))
  {
    hide IntentsHold;
    var t := ApplyClaim(s, value);
    if SetIfAbsentWhenKeysAbsent(s.saved, Intent(value, s.control.start.volume)).Some? {
      AllKeys(s.saved);
      NoneStands(s);
      NewIntentStands(s, t, value);
    } else {
      IntentsStay(s, t);
    }
  }

  lemma NewIntentStands(s: State, t: State, value: int)
    requires IntentsHold(s) && s.saved.keys == map[] && value !in s.past.claims
    requires forall v :: v in s.past.claims ==> v in s.past.released || v in s.past.care.dropped
    requires t.past.released == s.past.released && t.past.care.dropped == s.past.care.dropped
    requires value in t.past.claims && t.past.claims == s.past.claims[value := t.past.claims[value]]
    requires t.saved.keys.Keys == {ExportIntent} && t.saved.keys[ExportIntent].token == value
    ensures IntentsHold(t)
  {
    hide ProperDrop;
    forall v | v in s.past.care.dropped ensures ProperDrop(t, v, s.past.care.dropped[v]) {
      SameStart(s, t, v, s.past.care.dropped[v]);
    }
  }

  lemma SameStart(s: State, t: State, v: int, d: Drop)
    requires ProperDrop(s, v, d) && v in s.past.claims && v in t.past.claims && t.past.claims[v] == s.past.claims[v]
    ensures ProperDrop(t, v, d)
  {
  }

  lemma AllKeys(saved: Saved)
    ensures SetIfAbsentWhenKeysAbsent(saved, Intent(0, 0)).Some? ==> saved.keys == map[]
  {
    forall key | key in saved.keys ensures key == LocaleRestore || key == AcceptanceRestore || key == ExportIntent {}
  }

  lemma NoneStands(s: State)
    requires s.saved.keys == map[] && IntentsHold(s)
    ensures forall v :: v in s.past.claims ==> v in s.past.released || v in s.past.care.dropped
  {
  }

  lemma LetGoKeepsIntents(s: State, throws: bool, stagingRemoved: bool)
    requires s.control.Proven? && Inv(s)
    ensures IntentsHold(ApplyLetGo(s, throws, stagingRemoved))
  {
    hide RowsHold, FencesHold, NamesHold, EndsHold, AnswersHold, ReleasesHold, QuietHolds;
  }

  /** Only a claim and a release touch an intent; containment does not. */
  lemma ExportKeepsIntents(s: State, e: Event)
    requires EnabledExport(s, e) && Inv(s)
    ensures IntentsHold(ApplyExport(s, e))
  {
    hide Parts, IntentsHold, QuietHolds, ApplyClaim, ApplyLetGo, SameIntents, OwnStep, ApplyRemoveHelpers;
    if e.Claim? {
      ClaimKeepsIntents(s, e.value);
    } else if e.LetGo? {
      LetGoKeepsIntents(s, e.throws, e.stagingRemoved);
    } else {
      if e.RemoveHelpers? { ContainIsOwn(s, e.ok); } else { StepIsOwn(s, e); }
      IntentsStay(s, ApplyExport(s, e));
    }
  }

  /** What has ended is not at work. */
  ghost predicate EndedApart(s: State)
  {
    && (forall v :: v in s.past.contained || v in s.past.care.dropped ==> v in s.past.claims)
    && (forall v :: v in s.past.contained ==> !AtWork(s, v))
  }

  lemma EndsApart(s: State)
    requires Inv(s)
    ensures EndedApart(s)
  {
    hide KeysHold, RowsHold, ControlHolds, AnswersHold, ReleasesHold, IntentsHold, QuietHolds;
  }

  lemma QuietStays(s: State, t: State)
    requires QuietHolds(s) && EndedApart(s) && OnlyOwn(s, t)
    requires t.past.contained == s.past.contained && t.past.care.dropped == s.past.care.dropped
    requires t.recovery == s.recovery && s.past.care.busy <= t.past.care.busy
    requires HasValue(t.control) ==> t.control.value in t.past.care.busy
    requires t.control.Removing? && t.control.stopped ==> !PausedBy(t, t.control.value)
    ensures QuietHolds(t)
  {
  }

  lemma RemoveHelpersKeepsQuiet(s: State, ok: bool)
    requires s.control.Removing? && Inv(s)
    ensures QuietHolds(ApplyRemoveHelpers(s, ok))
  {
    hide KeysHold, RowsHold, FencesHold, AnswersHold, ReleasesHold, IntentsHold;
  }

  /** Only the export at work starts a helper or pauses the runtime. */
  lemma ExportKeepsQuiet(s: State, e: Event)
    requires EnabledExport(s, e) && Inv(s)
    ensures QuietHolds(ApplyExport(s, e))
  {
    if e.RemoveHelpers? {
      RemoveHelpersKeepsQuiet(s, e.ok);
    } else {
      EndsApart(s);
      WorkIsBusy(s);
      hide Inv, OnlyOwn, EndedApart, QuietHolds, SameIntents, ApplyClaim, ApplyLetGo;
      if e.Claim? {
        ClaimIsOwn(s, e.value);
      } else if e.LetGo? {
        LetGoIsOwn(s, e.throws, e.stagingRemoved);
      } else {
        StepIsOwn(s, e);
      }
      hide ApplyExport;
      QuietStays(s, ApplyExport(s, e));
    }
  }

  lemma WorkIsBusy(s: State)
    requires QuietHolds(s)
    ensures forall v :: AtWork(s, v) ==> v in s.past.care.busy
  {
  }

  lemma ExportKeeps(s: State, e: Event)
    requires EnabledExport(s, e) && Inv(s)
    ensures Inv(ApplyExport(s, e))
  {
    hide Fences, Ledger, ReleasesHold, IntentsHold, QuietHolds;
    ExportKeepsIntents(s, e);
    ExportKeepsQuiet(s, e);
    if OnlyLooks(e) {
      LooksKeep(s, e);
    } else {
      match e
      case Claim(value) =>
        ClaimKeepsFences(s, value);
        ClaimKeepsLedger(s, value);
        ClaimKeepsReleases(s, value);
      case Pause(ok, stuck) =>
        PauseKeepsFences(s, ok, stuck);
        PauseKeepsLedger(s, ok, stuck);
        PauseKeepsReleases(s, ok, stuck);
      case Publish(outcome) =>
        PublishKeepsFences(s, outcome);
        PublishKeepsLedger(s, outcome);
        PublishKeepsReleases(s, outcome);
      case Record(throws) =>
        RecordKeepsFences(s, throws);
        RecordKeepsLedger(s, throws);
        RecordKeepsReleases(s, throws);
      case Restore(ok) =>
        RestoreKeepsFences(s, ok);
        RestoreKeepsLedger(s, ok);
        RestoreKeepsReleases(s, ok);
      case LetGo(throws, removed) =>
        LetGoKeepsFences(s, throws, removed);
        LetGoKeepsLedger(s, throws, removed);
        LetGoKeepsReleases(s, throws, removed);
      case LookAfter =>
        LookAfterKeepsFences(s);
        LookAfterKeepsLedger(s);
        LookAfterKeepsReleases(s);
      case MarkDoubtful(landed) =>
        MarkDoubtfulKeepsFences(s, landed);
        MarkDoubtfulKeepsLedger(s, landed);
      case StopDoubtful(ok) =>
        StopDoubtfulKeepsFences(s, ok);
        StopDoubtfulKeepsLedger(s, ok);
      case RemoveHelpers(ok) =>
        RemoveHelpersKeepsFences(s, ok);
        RemoveHelpersKeepsLedger(s, ok);
        RemoveHelpersKeepsReleases(s, ok);
    }
  }

  lemma MarkKeepsFences(s: State, landed: bool, ok: bool)
    requires EnabledRecovery(s, MarkInterrupted(landed, ok)) && Inv(s)
    ensures Fences(ApplyMark(s, landed, ok))
  {
    hide EndsHold, AnswersHold, ReleasesHold, IntentsHold, QuietHolds;
  }

  lemma MarkKeepsLedger(s: State, landed: bool, ok: bool)
    requires EnabledRecovery(s, MarkInterrupted(landed, ok)) && Inv(s)
    ensures Ledger(ApplyMark(s, landed, ok)) && ReleasesHold(ApplyMark(s, landed, ok))
  {
    hide Fences, Ledger, ReleasesHold, IntentsHold, QuietHolds;
    var t := ApplyMark(s, landed, ok);
    assert t == Aside(s, t.saved, t.recovery, t.past.care);
    AsideLedger(s, t.saved, t.recovery, t.past.care);
    AsideReleases(s, t.saved, t.recovery, t.past.care);
  }

  lemma DropKeepsFences(s: State)
    requires s.recovery.Decided? && Inv(s)
    ensures Fences(ApplyDrop(s))
  {
    var t := ApplyDrop(s);
    assert t == Aside(s, t.saved, t.recovery, t.past.care);
    AsideControl(s, t.saved, t.recovery, t.past.care);
    DropKeepsRows(s);
    hide Inv, KeysHold, RowsHold, FencesHold, ControlHolds;
  }

  lemma DropKeepsRows(s: State)
    requires s.recovery.Decided? && Inv(s)
    ensures KeysHold(ApplyDrop(s)) && RowsHold(ApplyDrop(s)) && FencesHold(ApplyDrop(s))
  {
    hide ControlHolds, NamesHold, EndsHold, AnswersHold, ReleasesHold, IntentsHold, QuietHolds;
  }

  lemma DropKeepsLedger(s: State)
    requires s.recovery.Decided? && Inv(s)
    ensures Ledger(ApplyDrop(s)) && ReleasesHold(ApplyDrop(s))
  {
    hide Fences, Ledger, ReleasesHold, IntentsHold, QuietHolds;
    var t := ApplyDrop(s);
    assert t == Aside(s, t.saved, t.recovery, t.past.care);
    AsideLedger(s, t.saved, t.recovery, t.past.care);
    AsideReleases(s, t.saved, t.recovery, t.past.care);
  }

  lemma DropKeepsIntents(s: State)
    requires s.recovery.Decided? && Inv(s)
    ensures IntentsHold(ApplyDrop(s))
  {
    hide RowsHold, ControlHolds, NamesHold, EndsHold, AnswersHold, ReleasesHold, QuietHolds;
    var intent := s.recovery.intent;
    if ExportIntent in s.saved.keys && s.saved.keys[ExportIntent] == intent {
      assert s.saved.keys == map[ExportIntent := intent];
      assert s.saved.keys - {ExportIntent} == map[];
      var t := ApplyDrop(s);
      if intent.token in s.past.claims { assert ProperDrop(t, intent.token, t.past.care.dropped[intent.token]); }
    }
  }

  /** A starting process that goes on, or gives up, with the intent it found. */
  lemma RecoveryMoves(s: State, recovery: Recovery, busy: set<int>)
    requires Parts(s)
    requires IsFenced(recovery) ==> IsFenced(s.recovery) && recovery.intent == s.recovery.intent
    requires recovery.Decided? ==> !recovery.found.Incomplete?
    ensures Parts(Aside(s, s.saved, recovery, s.past.care.(busy := busy)))
  {
    hide Fences, Ledger, ReleasesHold;
    RecoveryMovesFences(s, recovery, busy);
    AsideLedger(s, s.saved, recovery, s.past.care.(busy := busy));
    AsideReleases(s, s.saved, recovery, s.past.care.(busy := busy));
  }

  lemma RecoveryMovesFences(s: State, recovery: Recovery, busy: set<int>)
    requires Fences(s)
    requires IsFenced(recovery) ==> IsFenced(s.recovery) && recovery.intent == s.recovery.intent
    requires recovery.Decided? ==> !recovery.found.Incomplete?
    ensures Fences(Aside(s, s.saved, recovery, s.past.care.(busy := busy)))
  {
    AsideControl(s, s.saved, recovery, s.past.care.(busy := busy));
    hide ControlHolds;
  }

  /** Steps of a startup that change neither the durable state nor any end. */
  predicate OnlyWatches(e: Event)
  {
    e.RemoveJobs? || e.StopPod? || e.Decide? || e.RecoveryDies?
  }

  lemma WatchKeeps(s: State, e: Event)
    requires EnabledRecovery(s, e) && OnlyWatches(e) && Parts(s)
    ensures Parts(ApplyRecovery(s, e))
  {
    hide Parts;
    var t := ApplyRecovery(s, e);
    DockerQuiets(s, t.docker);
    var m := s.(docker := t.docker);
    RecoveryMoves(m, t.recovery, t.past.care.busy);
    assert t == Aside(m, m.saved, t.recovery, m.past.care.(busy := t.past.care.busy));
  }

  lemma RecoveryKeepsIntents(s: State, e: Event)
    requires EnabledRecovery(s, e) && Inv(s)
    ensures IntentsHold(ApplyRecovery(s, e))
  {
    hide Parts, IntentsHold, QuietHolds, ApplyDrop;
    if e.DropIntent? {
      DropKeepsIntents(s);
    } else {
      assert SameIntents(s, ApplyRecovery(s, e));
      IntentsStay(s, ApplyRecovery(s, e));
    }
  }

  lemma RecoveryKeepsQuiet(s: State, e: Event)
    requires EnabledRecovery(s, e) && Inv(s)
    ensures QuietHolds(ApplyRecovery(s, e))
  {
    hide KeysHold, RowsHold, FencesHold, ControlHolds, NamesHold, AnswersHold, ReleasesHold, IntentsHold;
  }

  lemma RecoveryKeeps(s: State, e: Event)
    requires EnabledRecovery(s, e) && Inv(s)
    ensures Inv(ApplyRecovery(s, e))
  {
    hide Fences, Ledger, ReleasesHold, IntentsHold, QuietHolds;
    RecoveryKeepsIntents(s, e);
    RecoveryKeepsQuiet(s, e);
    match e
    case MarkInterrupted(landed, ok) =>
      MarkKeepsFences(s, landed, ok);
      MarkKeepsLedger(s, landed, ok);
    case DropIntent =>
      DropKeepsFences(s);
      DropKeepsLedger(s);
    case _ => WatchKeeps(s, e);
  }

  /** No step of the export, a starting process, anybody else, a helper or a crash breaks any of it. */
  lemma StepKeeps(s: State, e: Event)
    requires Enabled(s, e) && Inv(s)
    ensures Inv(Apply(s, e))
  {
    hide Fences, Ledger, ReleasesHold, IntentsHold, QuietHolds;
    hide EnabledExport, ApplyExport, ApplyOutside, ApplyRecovery;
    if EnabledOutside(s, e) {
      OutsideKeepsParts(s, e);
      OutsideKeepsIntents(s, e);
      OutsideKeepsQuiet(s, e);
    } else if EnabledExport(s, e) {
      ExportKeeps(s, e);
    } else {
      RecoveryKeeps(s, e);
    }
  }

  lemma {:induction false} RunKeeps(s: State, events: seq<Event>, t: State)
    requires Inv(s) && Leads(s, events, t)
    ensures Inv(t)
  {
    hide Inv, Enabled, Apply;
    if events != [] {
      var n := |events| - 1;
      var m :| Leads(s, events[..n], m) && Enabled(m, events[n]) && t == Apply(m, events[n]);
      RunKeeps(s, events[..n], m);
      StepKeeps(m, events[n]);
    }
  }

  lemma InitialHolds(s: State)
    requires Initial(s)
    ensures Inv(s)
  {
  }

  // ---- what every run keeps ----

  /** The export gave its intent up only over a Room whose row was, at that moment, exactly the row it started
      from, or one further if the artifact is in the workspace; after looks right before and right after restoring
      the runtime that saw the same row; and it took its own intent and nothing else. */
  lemma ReleasesAreEarned(s: State, events: seq<Event>, t: State, v: int)
    requires Initial(s) && Leads(s, events, t) && v in t.past.released
    ensures v in t.past.claims
    ensures var start, r := t.past.claims[v], t.past.released[v];
            var due := if v in t.docker.landed then Row(start.volume, start.state + 1) else start;
            && r.before.room == Some(due)
            && v in t.past.restored && t.past.restored[v] == due && v in t.past.proven && t.past.proven[v] == due
            && r.before.keys == map[ExportIntent := Intent(v, start.volume)] && r.after == r.before.(keys := map[])
    ensures !Unsettled(t, v)
  {
    InitialHolds(s);
    RunKeeps(s, events, t);
  }

  /** A claimed export is at work or has ended in exactly one way: released, contained, or cut off by a crash. */
  lemma ClaimsEndOnce(s: State, events: seq<Event>, t: State, v: int)
    requires Initial(s) && Leads(s, events, t) && v in t.past.claims
    ensures AtWork(t, v) || v in t.past.released || v in t.past.contained || v in t.past.crashed
    ensures v in t.past.released ==> v !in t.past.contained && v !in t.past.crashed && !AtWork(t, v)
    ensures v in t.past.contained ==> v !in t.past.crashed && !AtWork(t, v)
    ensures v in t.past.crashed ==> !AtWork(t, v)
  {
    InitialHolds(s);
    RunKeeps(s, events, t);
  }

  /** The intent of every claimed export stands, until the export itself releases it or a startup drops it, and only
      one of the two: no failure, fence, containment or crash takes it. */
  lemma IntentsAreKept(s: State, events: seq<Event>, t: State, v: int)
    requires Initial(s) && Leads(s, events, t) && v in t.past.claims
    ensures Stands(t, v) <==> v !in t.past.released && v !in t.past.care.dropped
    ensures !(v in t.past.released && v in t.past.care.dropped)
  {
    InitialHolds(s);
    RunKeeps(s, events, t);
  }

  /** Containment keeps the intent, disables the Room at its next revision if the mark landed, and for good leaves no
      helper of the export if their removal worked, and no runtime paused by it if the pod could be stopped. */
  lemma ContainmentHolds(s: State, events: seq<Event>, t: State, v: int)
    requires Initial(s) && Leads(s, events, t) && v in t.past.contained
    ensures v in t.past.claims
    ensures Stands(t, v) || v in t.past.care.dropped
    ensures v in t.past.care.fenced ==> ProperFence(t.past.care.fenced[v]) && Beyond(t.saved.room, t.past.claims[v])
    ensures LeftQuiet(t, v, t.past.contained[v])
  {
    InitialHolds(s);
    RunKeeps(s, events, t);
  }

  /** A startup drops an intent only from a Room that has moved on, over a settled destination, and takes nothing
      else; unless a live process was at work on the export after this startup had removed the jobs, no helper of the
      export and no runtime paused by it is left, then or later. */
  lemma DropsAreEarned(s: State, events: seq<Event>, t: State, v: int)
    requires Initial(s) && Leads(s, events, t) && v in t.past.care.dropped
    ensures v in t.past.claims
    ensures var start, d := t.past.claims[v], t.past.care.dropped[v];
            && d.change.before.keys == map[ExportIntent := Intent(v, start.volume)]
            && d.change.after == d.change.before.(keys := map[])
            && Beyond(d.change.before.room, start) && !d.found.Incomplete?
            && (!d.raced ==> t.docker.helper != Some(v) && !PausedBy(t, v) && !AtWork(t, v))
  {
    InitialHolds(s);
    RunKeeps(s, events, t);
    hide Initial, Leads, Parts, IntentsHold, QuietHolds;
    DropFacts(t, v);
  }

  lemma DropFacts(t: State, v: int)
    requires IntentsHold(t) && QuietHolds(t) && v in t.past.care.dropped
    ensures v in t.past.claims
    ensures var start, d := t.past.claims[v], t.past.care.dropped[v];
            && d.change.before.keys == map[ExportIntent := Intent(v, start.volume)]
            && d.change.after == d.change.before.(keys := map[])
            && Beyond(d.change.before.room, start) && !d.found.Incomplete?
            && (!d.raced ==> t.docker.helper != Some(v) && !PausedBy(t, v) && !AtWork(t, v))
  {
  }

  /** Whatever an export left unsettled, a helper that may still publish, an artifact the Room does not know of, or
      a paused runtime, is covered by its intent until the Room has moved past it, whoever crashed or recovered. */
  lemma UnsettledIsCovered(s: State, events: seq<Event>, t: State, v: int)
    requires Initial(s) && Leads(s, events, t) && v in t.past.claims && Unsettled(t, v)
    ensures || (ExportIntent in t.saved.keys && t.saved.keys[ExportIntent].token == v)
            || Beyond(t.saved.room, t.past.claims[v])
  {
    InitialHolds(s);
    RunKeeps(s, events, t);
    hide Initial, Leads, Inv;
    LeftIsCovered(t, v);
  }

  lemma LeftIsCovered(t: State, v: int)
    requires Inv(t) && v in t.past.claims && Unsettled(t, v)
    ensures || (ExportIntent in t.saved.keys && t.saved.keys[ExportIntent].token == v)
            || Beyond(t.saved.room, t.past.claims[v])
  {
    hide KeysHold, ControlHolds, NamesHold, EndsHold, AnswersHold, QuietHolds;
  }

  /** An artifact goes into the workspace only after a look that saw the row the export started from; the Room
      then advances by exactly one, from that row, or the export never releases. */
  lemma PublicationsAreRecorded(s: State, events: seq<Event>, t: State, v: int)
    requires Initial(s) && Leads(s, events, t) && v in t.docker.landed
    ensures v in t.past.claims && v in t.past.published && t.past.published[v] == t.past.claims[v]
    ensures v in t.past.marks ==> t.past.marks[v] == Row(t.past.claims[v].volume, t.past.claims[v].state + 1)
    ensures v !in t.past.marks ==>
              v !in t.past.released && (AtWork(t, v) || v in t.past.contained || v in t.past.crashed)
  {
    InitialHolds(s);
    RunKeeps(s, events, t);
  }

  /** The caller is told the truth about the publication; only an export that was contained leaves it open. */
  lemma AnswersAreTrue(s: State, events: seq<Event>, t: State, v: int)
    requires Initial(s) && Leads(s, events, t) && v in t.past.answers
    ensures t.past.answers[v].SaysCommitted() ==> v in t.docker.landed
    ensures t.past.answers[v].SaysNotCommitted() ==> v !in t.docker.landed && t.docker.helper != Some(v)
    ensures v in t.past.answers <==> v in t.past.released || v in t.past.contained
    ensures v in t.past.released && v in t.docker.landed ==> t.past.answers[v].SaysCommitted()
  {
    InitialHolds(s);
    RunKeeps(s, events, t);
  }

  // ---- runs that get through ----

  lemma LeadsOn(s: State, events: seq<Event>, m: State, e: Event, longer: seq<Event>)
    requires Leads(s, events, m) && Enabled(m, e) && longer == events + [e]
    ensures Leads(s, longer, Apply(m, e))
  {
    hide Enabled, Apply;
    assert longer[..|events|] == events;
  }

  function Beginning(row: Row): State
  {
    State(Saved(Some(row), true, map[]), Docker(Running(row.volume), None, {}), Idle, Resting,
          NoHistory())
  }

  /** The steps up to a publication that went through. */
  function Publishing(v: int): seq<Event>
  {
    [Enter, Claim(v), Capture(true), Pause(true, false), LookPaused, Publish(PublishedExactly)]
  }

  function AllPublished(row: Row, v: int): State
  {
    var s := Beginning(row);
    s.(saved := s.saved.(keys := map[ExportIntent := Intent(v, row.volume)]),
       docker := Docker(Paused(row.volume, v), None, {v}), control := Published(v),
       past := s.past.(claims := map[v := row], published := map[v := row], care := Care(map[], map[], {v})))
  }

  function JustClaimed(row: Row, v: int): State
  {
    var s := Beginning(row);
    s.(saved := s.saved.(keys := map[ExportIntent := Intent(v, row.volume)]), control := Claimed(v),
       past := s.past.(claims := map[v := row], care := Care(map[], map[], {v})))
  }

  lemma ClaimPrefix(row: Row, v: int)
    ensures Initial(Beginning(row)) && Leads(Beginning(row), [Enter, Claim(v)], JustClaimed(row, v))
  {
    var s0 := Beginning(row);
    assert Leads(s0, [], s0) && Initial(s0);
    hide Leads, Initial;
    EnterActs(row);
    ClaimActs(row, v);
    hide Enabled, Apply;
    LeadsOn(s0, [], s0, Enter, [Enter]);
    LeadsOn(s0, [Enter], s0.(control := Entered(row)), Claim(v), [Enter, Claim(v)]);
  }

  lemma EnterActs(row: Row)
    ensures var s0 := Beginning(row); Enabled(s0, Enter) && Apply(s0, Enter) == s0.(control := Entered(row))
  {
    hide EnabledRecovery, ApplyRecovery, ApplyOutside;
  }

  lemma ClaimActs(row: Row, v: int)
    ensures var s1 := Beginning(row).(control := Entered(row));
            Enabled(s1, Claim(v)) && Apply(s1, Claim(v)) == JustClaimed(row, v)
  {
    hide EnabledRecovery, ApplyRecovery, ApplyOutside;
  }

  lemma PublishPrefix(row: Row, v: int)
    ensures Initial(Beginning(row)) && Leads(Beginning(row), Publishing(v)[..5], AboutToPublish(row, v))
  {
    ClaimPrefix(row, v);
    hide EnabledRecovery, ApplyRecovery, ApplyOutside, Initial, Leads;
    var s0, s2 := Beginning(row), JustClaimed(row, v);
    assert Publishing(v)[..2] == [Enter, Claim(v)];
    LeadsOn(s0, Publishing(v)[..2], s2, Capture(true), Publishing(v)[..3]);
    var s3 := Apply(s2, Capture(true));
    LeadsOn(s0, Publishing(v)[..3], s3, Pause(true, false), Publishing(v)[..4]);
    var s4 := Apply(s3, Pause(true, false));
    LeadsOn(s0, Publishing(v)[..4], s4, LookPaused, Publishing(v)[..5]);
    assert Apply(s4, LookPaused) == AboutToPublish(row, v);
  }

  lemma PublishRuns(row: Row, v: int)
    ensures Initial(Beginning(row)) && Leads(Beginning(row), Publishing(v), AllPublished(row, v))
  {
    PublishPrefix(row, v);
    hide EnabledRecovery, ApplyRecovery, ApplyOutside, Initial, Leads;
    LeadsOn(Beginning(row), Publishing(v)[..5], AboutToPublish(row, v), Publish(PublishedExactly), Publishing(v));
    assert Apply(AboutToPublish(row, v), Publish(PublishedExactly)) == AllPublished(row, v);
  }

  /** Left alone, an export goes through: recorded, the runtime up again, the intent gone. */
  lemma ExportRuns(row: Row, v: int)
    ensures exists t: State ::
              && t.saved == Saved(Some(Row(row.volume, row.state + 1)), true, map[])
              && t.docker == Docker(Running(row.volume), None, {v}) && t.control.Idle?
              && v in t.past.released && t.past.answers == map[v := Exported]
              && Leads(Beginning(row), Publishing(v) +
                   [Record(false), LookBefore, Restore(true), LookAfter, LetGo(false, true)], t)
  {
    PublishRuns(row, v);
    hide EnabledRecovery, ApplyRecovery, ApplyOutside, Leads;
    var s0, s6, before := Beginning(row), AllPublished(row, v), Publishing(v);
    var s7 := Apply(s6, Record(false));
    LeadsOn(s0, before, s6, Record(false), before + [Record(false)]);
    var s8 := Apply(s7, LookBefore);
    LeadsOn(s0, before + [Record(false)], s7, LookBefore, before + [Record(false), LookBefore]);
    RestoreRuns(row, v, s8);
  }

  lemma RestoreRuns(row: Row, v: int, s8: State)
    requires Leads(Beginning(row), Publishing(v) + [Record(false), LookBefore], s8)
    requires s8.saved == Saved(Some(Row(row.volume, row.state + 1)), true, map[ExportIntent := Intent(v, row.volume)])
    requires s8.control == Ready(v, true, Row(row.volume, row.state + 1)) && s8.past.claims == map[v := row]
    requires s8.docker == Docker(Paused(row.volume, v), None, {v}) && s8.past.answers == map[]
    ensures exists t: State ::
              && t.saved == Saved(Some(Row(row.volume, row.state + 1)), true, map[])
              && t.docker == Docker(Running(row.volume), None, {v}) && t.control.Idle?
              && v in t.past.released && t.past.answers == map[v := Exported]
              && Leads(Beginning(row), Publishing(v) +
                   [Record(false), LookBefore, Restore(true), LookAfter, LetGo(false, true)], t)
  {
    hide EnabledRecovery, ApplyRecovery, ApplyOutside, Leads;
    var s0, before := Beginning(row), Publishing(v);
    var s9 := Apply(s8, Restore(true));
    LeadsOn(s0, before + [Record(false), LookBefore], s8, Restore(true),
            before + [Record(false), LookBefore, Restore(true)]);
    var s10 := Apply(s9, LookAfter);
    LeadsOn(s0, before + [Record(false), LookBefore, Restore(true)], s9, LookAfter,
            before + [Record(false), LookBefore, Restore(true), LookAfter]);
    LetGoRuns(row, v, s10);
  }

  lemma LetGoRuns(row: Row, v: int, s10: State)
    requires Leads(Beginning(row), Publishing(v) + [Record(false), LookBefore, Restore(true), LookAfter], s10)
    requires s10.saved == Saved(Some(Row(row.volume, row.state + 1)), true, map[ExportIntent := Intent(v, row.volume)])
    requires s10.control == Proven(v, true) && s10.past.claims == map[v := row]
    requires s10.docker == Docker(Running(row.volume), None, {v}) && s10.past.answers == map[]
    ensures exists t: State ::
              && t.saved == Saved(Some(Row(row.volume, row.state + 1)), true, map[])
              && t.docker == Docker(Running(row.volume), None, {v}) && t.control.Idle?
              && v in t.past.released && t.past.answers == map[v := Exported]
              && Leads(Beginning(row), Publishing(v) +
                   [Record(false), LookBefore, Restore(true), LookAfter, LetGo(false, true)], t)
  {
    hide EnabledRecovery, ApplyRecovery, ApplyOutside, Leads;
    var before := Publishing(v);
    LeadsOn(Beginning(row), before + [Record(false), LookBefore, Restore(true), LookAfter], s10, LetGo(false, true),
            before + [Record(false), LookBefore, Restore(true), LookAfter, LetGo(false, true)]);
    var t := Apply(s10, LetGo(false, true));
    assert t.saved.keys == map[];
  }

  /** A crash right behind the publication, and a startup that settles it. */
  function Recovering(v: int): seq<Event>
  {
    Publishing(v) + [Crash, RemoveJobs(true), MarkInterrupted(true, true), StopPod(true), Decide(FoundCommitted),
                     DropIntent]
  }

  lemma RecoverStep(row: Row, v: int, n: nat, m: State)
    requires 6 <= n < 12 && Leads(Beginning(row), Recovering(v)[..n], m) && Enabled(m, Recovering(v)[n])
    ensures Leads(Beginning(row), Recovering(v)[..n + 1], Apply(m, Recovering(v)[n]))
  {
    hide Enabled, Apply, Leads;
    LeadsOn(Beginning(row), Recovering(v)[..n], m, Recovering(v)[n], Recovering(v)[..n + 1]);
  }

  lemma StartupActs(s: State, e: Event)
    requires EnabledRecovery(s, e)
    ensures Enabled(s, e) && Apply(s, e) == ApplyRecovery(s, e)
  {
  }

  /** Startup recovery stops the pod and drops the intent, and the artifact the Room does not know of lies behind a
      row it has moved past. */
  lemma RecoveryRuns(row: Row, v: int)
    ensures exists t: State ::
              && t.saved == Saved(Some(Row(row.volume, row.state + 1)), false, map[])
              && t.docker == Docker(Stopped, None, {v}) && Unsettled(t, v) && t.past.crashed == {v}
              && Leads(Beginning(row), Recovering(v), t)
  {
    PublishRuns(row, v);
    hide ApplyExport, Leads;
    var s6 := AllPublished(row, v);
    assert Recovering(v)[..6] == Publishing(v);
    RecoverStep(row, v, 6, s6);
    var s7 := Apply(s6, Crash);
    RecoverStep(row, v, 7, s7);
    var s8 := Apply(s7, RemoveJobs(true));
    RecoverStep(row, v, 8, s8);
    SettleRuns(row, v, Apply(s8, MarkInterrupted(true, true)));
  }

  lemma SettleRuns(row: Row, v: int, s9: State)
    requires Leads(Beginning(row), Recovering(v)[..9], s9)
    requires s9.saved == Saved(Some(Row(row.volume, row.state + 1)), false, map[ExportIntent := Intent(v, row.volume)])
    requires s9.control.Idle? && s9.recovery == Marked(Intent(v, row.volume), row.volume, true, true)
    requires s9.docker.helper.None? && s9.docker.landed == {v} && s9.past.marks == map[] && s9.past.crashed == {v}
    ensures exists t: State ::
              && t.saved == Saved(Some(Row(row.volume, row.state + 1)), false, map[])
              && t.docker == Docker(Stopped, None, {v}) && Unsettled(t, v) && t.past.crashed == {v}
              && Leads(Beginning(row), Recovering(v), t)
  {
    hide Enabled, Apply, Leads;
    StartupActs(s9, StopPod(true));
    RecoverStep(row, v, 9, s9);
    var s10 := Apply(s9, StopPod(true));
    StartupActs(s10, Decide(FoundCommitted));
    RecoverStep(row, v, 10, s10);
    var s11 := Apply(s10, Decide(FoundCommitted));
    StartupActs(s11, DropIntent);
    RecoverStep(row, v, 11, s11);
    var t := Apply(s11, DropIntent);
    assert Recovering(v)[..12] == Recovering(v);
  }

  /** A startup while the export is about to publish: its helper starts after the jobs were removed, and its process
      goes down. */
  function Racing(v: int): seq<Event>
  {
    [Enter, Claim(v), Capture(true), Pause(true, false), LookPaused, RemoveJobs(true), MarkInterrupted(true, true),
     Publish(Ambiguous(false, true)), Crash, StopPod(true), Decide(FoundAbsent), DropIntent]
  }

  lemma RaceStep(row: Row, v: int, n: nat, m: State)
    requires n < 12 && Leads(Beginning(row), Racing(v)[..n], m) && Enabled(m, Racing(v)[n])
    ensures Leads(Beginning(row), Racing(v)[..n + 1], Apply(m, Racing(v)[n]))
  {
    hide Enabled, Apply, Leads;
    LeadsOn(Beginning(row), Racing(v)[..n], m, Racing(v)[n], Racing(v)[..n + 1]);
  }

  /** What an export about to publish stands on. */
  function AboutToPublish(row: Row, v: int): State
  {
    var s := Beginning(row);
    s.(saved := s.saved.(keys := map[ExportIntent := Intent(v, row.volume)]),
       docker := Docker(Paused(row.volume, v), None, {}), control := Fenced(v, row),
       past := s.past.(claims := map[v := row], care := Care(map[], map[], {v})))
  }

  /** The condition is needed: a live process at work during the startup leaves a helper behind the dropped intent. */
  lemma RacedStartupLeavesHelper(row: Row, v: int)
    ensures exists t: State ::
              && Leads(Beginning(row), Racing(v), t) && t.saved.keys == map[] && t.control.Idle?
              && v in t.past.care.dropped && t.past.care.dropped[v].raced && t.docker.helper == Some(v)
  {
    RacePrefix(row, v);
    hide Enabled, Apply, Leads;
    var s5 := AboutToPublish(row, v);
    StartupActs(s5, RemoveJobs(true));
    RaceStep(row, v, 5, s5);
    var s6 := Apply(s5, RemoveJobs(true));
    StartupActs(s6, MarkInterrupted(true, true));
    RaceStep(row, v, 6, s6);
    var s7 := Apply(s6, MarkInterrupted(true, true));
    RaceGoesOn(row, v, s7);
  }

  lemma RacePrefix(row: Row, v: int)
    ensures Leads(Beginning(row), Racing(v)[..5], AboutToPublish(row, v))
  {
    PublishPrefix(row, v);
    assert Racing(v)[..5] == Publishing(v)[..5];
  }

  lemma RaceGoesOn(row: Row, v: int, s7: State)
    requires Leads(Beginning(row), Racing(v)[..7], s7) && s7.control == Fenced(v, row)
    requires s7.saved == Saved(Some(Row(row.volume, row.state + 1)), false, map[ExportIntent := Intent(v, row.volume)])
    requires s7.recovery == Marked(Intent(v, row.volume), row.volume, true, true)
    requires v in s7.past.claims && s7.past.care.busy == {v}
    ensures exists t: State ::
              && Leads(Beginning(row), Racing(v), t) && t.saved.keys == map[] && t.control.Idle?
              && v in t.past.care.dropped && t.past.care.dropped[v].raced && t.docker.helper == Some(v)
  {
    hide ApplyRecovery, Leads;
    RaceStep(row, v, 7, s7);
    var s8 := Apply(s7, Publish(Ambiguous(false, true)));
    RaceStep(row, v, 8, s8);
    RaceEnds(row, v, Apply(s8, Crash));
  }

  lemma RaceEnds(row: Row, v: int, s9: State)
    requires Leads(Beginning(row), Racing(v)[..9], s9) && s9.control.Idle? && s9.docker.helper == Some(v)
    requires s9.saved == Saved(Some(Row(row.volume, row.state + 1)), false, map[ExportIntent := Intent(v, row.volume)])
    requires s9.recovery == Marked(Intent(v, row.volume), row.volume, true, true)
    requires v in s9.past.claims && s9.past.care.busy == {v}
    ensures exists t: State ::
              && Leads(Beginning(row), Racing(v), t) && t.saved.keys == map[] && t.control.Idle?
              && v in t.past.care.dropped && t.past.care.dropped[v].raced && t.docker.helper == Some(v)
  {
    hide Enabled, Apply, Leads;
    StartupActs(s9, StopPod(true));
    RaceStep(row, v, 9, s9);
    var s10 := Apply(s9, StopPod(true));
    StartupActs(s10, Decide(FoundAbsent));
    RaceStep(row, v, 10, s10);
    var s11 := Apply(s10, Decide(FoundAbsent));
    StartupActs(s11, DropIntent);
    RaceStep(row, v, 11, s11);
    var t := Apply(s11, DropIntent);
    assert t.saved.keys == map[];
    assert Racing(v)[..12] == Racing(v);
  }

  /** Where the mark fails, the intent is all that is left: the row is still the one the export started from. */
  lemma UnmarkedKeepsIntent(row: Row, v: int)
    ensures exists t: State ::
              && t.saved == Saved(Some(row), true, map[ExportIntent := Intent(v, row.volume)]) && v in t.past.contained
              && Leads(Beginning(row), [Enter, Claim(v), Capture(false), MarkDoubtful(false), StopDoubtful(true),
                                        RemoveHelpers(true)], t)
  {
    ClaimPrefix(row, v);
    hide ApplyRecovery, EnabledRecovery, ApplyOutside, Leads;
    var s0, s2 := Beginning(row), JustClaimed(row, v);
    LeadsOn(s0, [Enter, Claim(v)], s2, Capture(false), [Enter, Claim(v), Capture(false)]);
    var s3 := Apply(s2, Capture(false));
    LeadsOn(s0, [Enter, Claim(v), Capture(false)], s3, MarkDoubtful(false),
            [Enter, Claim(v), Capture(false), MarkDoubtful(false)]);
    var s4 := Apply(s3, MarkDoubtful(false));
    LeadsOn(s0, [Enter, Claim(v), Capture(false), MarkDoubtful(false)], s4, StopDoubtful(true),
            [Enter, Claim(v), Capture(false), MarkDoubtful(false), StopDoubtful(true)]);
    var s5 := Apply(s4, StopDoubtful(true));
    LeadsOn(s0, [Enter, Claim(v), Capture(false), MarkDoubtful(false), StopDoubtful(true)], s5, RemoveHelpers(true),
            [Enter, Claim(v), Capture(false), MarkDoubtful(false), StopDoubtful(true), RemoveHelpers(true)]);
  }
}
