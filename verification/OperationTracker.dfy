/**
 * Long operations tracked by a durable id: joining, replaying, progress, and
 * terminal records that survive failed saves and restarts.
 */
module OperationTracking {

  import opened Wrappers

  type Id = int

  datatype StageStatus = StageRunning | StageDone | StageSkipped | StageFailed

  datatype Stage = Stage(key: string, status: StageStatus, detail: Option<string>)

  datatype Status = Running | Succeeded | Failed

  /** What an operation is for; fixed when it starts. */
  datatype Request = Request(kind: string, room: string, actor: string, requestKey: Option<string>)

  datatype Progress = Progress(
    status: Status, stage: string, stages: seq<Stage>, error: Option<string>, result: Option<string>)

  datatype Record = Record(id: Id, request: Request, startedAt: int, progress: Progress)

  /** Operations of one kind join per Room, or stand alone under their own id. */
  datatype Key = Key(kind: string, room: string, own: Option<Id>)

  /** One operation of this process. Reporters keep using it whether or not it is still listed as live. */
  datatype Entry = Entry(record: Record, key: Key, reportedFailure: Option<string>, settled: bool)

  /** A save may also fail after the row went in. */
  datatype SaveOutcome = Stored | NotStored | StoredThenThrew

  // ---- the durable table ----

  const RETAINED_PER_ROOM := 50

  type Rows = map<Id, Record>

  /** Insert, or on a known id update the progress only. */
  function Upsert(rows: Rows, r: Record): Rows
  {
    if r.id in rows then rows[r.id := rows[r.id].(progress := r.progress)] else rows[r.id := r]
  }

  predicate Newer(a: Record, b: Record)
  {
    a.startedAt > b.startedAt || (a.startedAt == b.startedAt && a.id > b.id)
  }

  function NewerInRoom(rows: Rows, r: Record): set<Id>
  {
    set id | id in rows && rows[id].request.room == r.request.room && Newer(rows[id], r)
  }

  predicate Prunable(rows: Rows, room: string, id: Id)
    requires id in rows
  {
    && rows[id].request.room == room && rows[id].progress.status != Running && rows[id].request.requestKey.None?
    && |NewerInRoom(rows, rows[id])| >= RETAINED_PER_ROOM
  }

  function Prune(rows: Rows, room: string): Rows
  {
    map id | id in rows && !Prunable(rows, room, id) :: rows[id]
  }

  function Save(rows: Rows, r: Record): Rows
  {
    Prune(Upsert(rows, r), r.request.room)
  }

  function SaveIf(rows: Rows, r: Record, outcome: SaveOutcome): Rows
  {
    if outcome.NotStored? then rows else Save(rows, r)
  }

  /** A row survives a save exactly if it still runs, is client-addressed, is among the newest, or is another Room's. */
  lemma SaveKeeps(rows: Rows, r: Record, id: Id)
    requires id in rows
    ensures var after := Upsert(rows, r);
            id in Save(rows, r) <==>
              || after[id].progress.status == Running || rows[id].request.requestKey.Some?
              || rows[id].request.room != r.request.room
              || |NewerInRoom(after, after[id])| < RETAINED_PER_ROOM
    ensures id in Save(rows, r) ==> Save(rows, r)[id].request == rows[id].request
  {
  }

  // ---- progress ----

  predicate OnlyLastRunning(stages: seq<Stage>)
  {
    forall i :: 0 <= i < |stages| - 1 ==> !stages[i].status.StageRunning?
  }

  predicate HasOpen(stages: seq<Stage>)
  {
    stages != [] && stages[|stages| - 1].status.StageRunning?
  }

  function CloseOpen(stages: seq<Stage>, status: StageStatus, detail: Option<string>): seq<Stage>
  {
    if !HasOpen(stages) then stages
    else
      var n := |stages| - 1;
      stages[n := stages[n].(status := status, detail := if detail.Some? then detail else stages[n].detail)]
  }

  function Begun(p: Progress, key: string): Progress
  {
    p.(stages := CloseOpen(p.stages, StageDone, None) + [Stage(key, StageRunning, None)], stage := key)
  }

  function Detailed(p: Progress, text: string): Progress
  {
    p.(stages := CloseOpen(p.stages, StageRunning, Some(text)))
  }

  function Skipped(p: Progress, text: string): Progress
  {
    p.(stages := CloseOpen(p.stages, StageSkipped, Some(text)))
  }

  /** The terminal progress before its first save. */
  function Concluded(p: Progress, failure: Option<string>): Progress
  {
    match failure
    case Some(message) =>
      Progress(Failed, p.stage, CloseOpen(p.stages, StageFailed, Some(message)), Some(message), None)
    case None =>
      var closed := CloseOpen(p.stages, StageDone, None);
      var marked := closed != [] && closed[|closed| - 1].key == "complete" && closed[|closed| - 1].status.StageDone?;
      Progress(Succeeded, "complete",
               if marked then closed else closed + [Stage("complete", StageDone, None)], p.error, p.result)
  }

  /** The terminal progress after its first save failed: no success is claimed that was not stored. */
  function Unsaved(p: Progress, why: string): Progress
  {
    var n := |p.stages| - 1;
    var stages :=
      if p.stages != [] && p.stages[n].key == "complete" && p.stages[n].status.StageDone?
      then p.stages[n := Stage("complete", StageFailed, Some(why))] else p.stages;
    Progress(Failed, p.stage, stages, Some(if p.error.Some? then p.error.value + "; " + why else why), p.result)
  }

  function Interrupted(p: Progress, detail: string): Progress
  {
    Progress(Failed, p.stage,
             seq(|p.stages|, i requires 0 <= i < |p.stages| =>
               if p.stages[i].status.StageRunning? then p.stages[i].(status := StageFailed, detail := Some(detail))
               else p.stages[i]),
             Some(detail), p.result)
  }

  predicate NoneRunning(stages: seq<Stage>)
  {
    forall i :: 0 <= i < |stages| ==> !stages[i].status.StageRunning?
  }

  lemma CloseOpenCloses(stages: seq<Stage>, status: StageStatus, detail: Option<string>)
    requires OnlyLastRunning(stages)
    ensures OnlyLastRunning(CloseOpen(stages, status, detail))
    ensures status != StageRunning ==> NoneRunning(CloseOpen(stages, status, detail))
  {
  }

  /** Reports keep at most the last stage running; a terminal record has none, and exactly one kind of outcome. */
  lemma ProgressStaysOrdered(p: Progress, text: string, failure: Option<string>)
    requires OnlyLastRunning(p.stages)
    ensures OnlyLastRunning(Begun(p, text).stages) && HasOpen(Begun(p, text).stages)
    ensures OnlyLastRunning(Detailed(p, text).stages) && OnlyLastRunning(Skipped(p, text).stages)
    ensures HasOpen(p.stages) ==>
              var n := |p.stages| - 1;
              && Begun(p, text).stages[n].status.StageDone?
              && Detailed(p, text).stages == p.stages[..n] + [p.stages[n].(detail := Some(text))]
              && Skipped(p, text).stages == p.stages[..n] + [Stage(p.stages[n].key, StageSkipped, Some(text))]
    ensures NoneRunning(Concluded(p, failure).stages) && NoneRunning(Interrupted(p, text).stages)
    ensures NoneRunning(Unsaved(Concluded(p, failure), text).stages)
    ensures Concluded(p, failure).status == (if failure.Some? then Failed else Succeeded)
    ensures failure.Some? ==> Concluded(p, failure).result.None?
    ensures failure.None? ==> var last := Concluded(p, failure).stages;
                              last != [] && last[|last| - 1].key == "complete" && last[|last| - 1].status.StageDone?
  {
    CloseOpenCloses(p.stages, StageDone, None);
    CloseOpenCloses(p.stages, StageRunning, Some(text));
    CloseOpenCloses(p.stages, StageSkipped, Some(text));
    if failure.Some? { CloseOpenCloses(p.stages, StageFailed, failure); }
  }

  // ---- what the tracker keeps ----

  /** A task invocation: whether a caller passed the id in, and whether the row of an earlier start of it was lost. */
  datatype Start = Start(id: Id, request: Request, passedIn: bool, afterLoss: bool)

  /** Live ids point at their entries; unless a deleted Room dropped its id, an unsettled operation is live,
      and every key of a running operation names a live, unsettled one under that very key. */
  ghost predicate MemoryHolds(entries: seq<Entry>, live: map<Id, nat>, runningByKey: map<Key, Id>, dropped: set<Id>)
  {
    && (forall id :: id in live ==> live[id] < |entries| && entries[live[id]].record.id == id)
    && (forall key :: key in runningByKey && runningByKey[key] !in dropped ==>
         NamesRunning(entries, live, key, runningByKey[key]))
    && (forall h :: 0 <= h < |entries| && !entries[h].settled && entries[h].record.id !in dropped ==>
          entries[h].record.id in live && live[entries[h].record.id] == h)
    && (forall h :: 0 <= h < |entries| ==>
          && OnlyLastRunning(entries[h].record.progress.stages)
          && (entries[h].settled <==> entries[h].record.progress.status != Running))
  }

  ghost predicate NamesRunning(entries: seq<Entry>, live: map<Id, nat>, key: Key, id: Id)
  {
    id in live && live[id] < |entries| && !entries[live[id]].settled && entries[live[id]].key == key
  }

  ghost predicate RowsHold(rows: Rows, seen: set<Id>)
  {
    forall id :: id in rows ==> rows[id].id == id && id in seen && OnlyLastRunning(rows[id].progress.stages)
  }

  /** No promise is made for an operation without a request key, or of a deleted Room. */
  predicate Promised(s: Start, deleted: set<string>)
  {
    s.request.requestKey.Some? && s.request.room !in deleted
  }

  /** A promised start has its row, and no id with a promise was ever started again. */
  ghost predicate StartsHold(starts: seq<Start>, rows: Rows, seen: set<Id>, deleted: set<string>)
  {
    && (forall i :: 0 <= i < |starts| ==> starts[i].id in seen)
    && (forall i :: 0 <= i < |starts| && Promised(starts[i], deleted) ==>
          starts[i].id in rows && rows[starts[i].id].request == starts[i].request)
    && (forall i, j :: 0 <= i < j < |starts| && starts[i].id == starts[j].id ==> !Promised(starts[i], deleted))
  }

  ghost predicate StartedBefore(starts: seq<Start>, id: Id, j: nat)
  {
    exists i :: 0 <= i < j <= |starts| && starts[i].id == id
  }

  ghost predicate LostFairly(starts: seq<Start>, deleted: set<string>, id: Id)
  {
    exists i :: 0 <= i < |starts| && starts[i].id == id && !Promised(starts[i], deleted)
  }

  /** Every start has its row until that is lost; only a start without a promise loses it; and a second start of an
      id is exactly one that a caller asked for after the loss. */
  ghost predicate LossesHold(starts: seq<Start>, rows: Rows, deleted: set<string>, lost: set<Id>)
  {
    && (forall i :: 0 <= i < |starts| ==> starts[i].id in rows || starts[i].id in lost)
    && (forall id :: id in lost ==> LostFairly(starts, deleted, id))
    && (forall j :: 0 <= j < |starts| ==>
          && (StartedBefore(starts, starts[j].id, j) <==> starts[j].afterLoss)
          && (starts[j].afterLoss ==> starts[j].passedIn))
  }

  /** The started operations whose row left the table. */
  ghost function Gone(starts: seq<Start>, before: Rows, after: Rows): set<Id>
  {
    set i | 0 <= i < |starts| && starts[i].id in before && starts[i].id !in after :: starts[i].id
  }

  lemma LossesRecorded(
    starts: seq<Start>, before: Rows, after: Rows, seen: set<Id>, deleted: set<string>, more: set<string>,
    lost: set<Id>)
    requires LossesHold(starts, before, deleted, lost) && deleted <= more
    requires StartsHold(starts, after, seen, more)
    ensures LossesHold(starts, after, more, lost + Gone(starts, before, after))
  {
    forall id | id in lost + Gone(starts, before, after) ensures LostFairly(starts, more, id) {
      if id in lost { assert LostFairly(starts, deleted, id); }
    }
  }

  /** A start on record is a second one exactly after a loss, and never of a minted id. */
  lemma StartKeepsLosses(starts: seq<Start>, s: Start, rows: Rows, seen: set<Id>, deleted: set<string>, lost: set<Id>)
    requires LossesHold(starts, rows, deleted, lost) && s.id in rows
    requires s.afterLoss <==> StartedBefore(starts, s.id, |starts|)
    requires s.afterLoss ==> s.passedIn
    ensures LossesHold(starts + [s], rows, deleted, lost)
  {
    var after := starts + [s];
    forall id | id in lost ensures LostFairly(after, deleted, id) {
      assert LostFairly(starts, deleted, id);
      var i :| 0 <= i < |starts| && starts[i].id == id && !Promised(starts[i], deleted);
      assert after[i] == starts[i];
    }
    forall j | 0 <= j < |after| ensures StartedBefore(after, after[j].id, j) <==> after[j].afterLoss {
      assert forall i :: 0 <= i < |starts| ==> after[i] == starts[i];
      if j < |starts| {
        assert StartedBefore(starts, starts[j].id, j) <==> starts[j].afterLoss;
      }
    }
  }

  lemma SaveKeepsRows(rows: Rows, r: Record, seen: set<Id>)
    requires RowsHold(rows, seen) && OnlyLastRunning(r.progress.stages) && r.id in seen
    ensures RowsHold(Save(rows, r), seen)
  {
    hide OnlyLastRunning, NewerInRoom;
  }

  lemma SaveKeepsStarts(rows: Rows, r: Record, starts: seq<Start>, seen: set<Id>, deleted: set<string>)
    requires StartsHold(starts, rows, seen, deleted)
    ensures StartsHold(starts, Save(rows, r), seen, deleted)
  {
    forall i | 0 <= i < |starts| && Promised(starts[i], deleted)
      ensures starts[i].id in Save(rows, r) && Save(rows, r)[starts[i].id].request == starts[i].request
    {
      SaveKeeps(rows, r, starts[i].id);
    }
    hide Save;
  }

  lemma SaveIfKeeps(
    rows: Rows, r: Record, outcome: SaveOutcome, starts: seq<Start>, seen: set<Id>, deleted: set<string>)
    requires RowsHold(rows, seen) && OnlyLastRunning(r.progress.stages) && r.id in seen
    requires StartsHold(starts, rows, seen, deleted)
    ensures RowsHold(SaveIf(rows, r, outcome), seen) && StartsHold(starts, SaveIf(rows, r, outcome), seen, deleted)
  {
    hide OnlyLastRunning, StartsHold, RowsHold, Save;
    SaveKeepsRows(rows, r, seen);
    SaveKeepsStarts(rows, r, starts, seen, deleted);
  }

  datatype RunResult =
    | Joined(record: Record)
    | Started(handle: nat)
    | DifferentRequest
    | NotOwned
    | Fenced
    | SaveFailed

  /** Saving the first row of an id that stands for nothing yet. */
  lemma NewRowHolds(rows: Rows, r: Record, starts: seq<Start>, seen: set<Id>, deleted: set<string>, save: SaveOutcome)
    requires RowsHold(rows, seen) && StartsHold(starts, rows, seen, deleted) && r.id !in rows
    requires OnlyLastRunning(r.progress.stages) && r.progress.status == Running
    ensures RowsHold(SaveIf(rows, r, save), seen + {r.id})
    ensures StartsHold(starts, SaveIf(rows, r, save), seen + {r.id}, deleted)
    ensures save != NotStored ==>
              r.id in SaveIf(rows, r, save) && SaveIf(rows, r, save)[r.id].request == r.request
    ensures forall i :: 0 <= i < |starts| && Promised(starts[i], deleted) ==> starts[i].id != r.id
  {
    if save != NotStored {
      SaveKeepsRows(rows, r, seen + {r.id});
      SaveKeepsStarts(rows, r, starts, seen, deleted);
    }
    hide SaveIf, OnlyLastRunning;
  }

  /** A start on record keeps the promise: its id was not promised to anyone before. */
  lemma StartRecorded(starts: seq<Start>, s: Start, rows: Rows, seen: set<Id>, deleted: set<string>)
    requires StartsHold(starts, rows, seen, deleted) && s.id in rows && rows[s.id].request == s.request && s.id in seen
    requires forall i :: 0 <= i < |starts| && Promised(starts[i], deleted) ==> starts[i].id != s.id
    ensures StartsHold(starts + [s], rows, seen, deleted)
  {
  }

  lemma EntryAdded(entries: seq<Entry>, live: map<Id, nat>, runningByKey: map<Key, Id>, dropped: set<Id>, e: Entry)
    requires MemoryHolds(entries, live, runningByKey, dropped)
    requires e.record.id !in live && !e.settled && e.record.progress.status == Running
    requires OnlyLastRunning(e.record.progress.stages)
    ensures MemoryHolds(entries + [e], live[e.record.id := |entries|], runningByKey[e.key := e.record.id], dropped)
  {
    hide OnlyLastRunning;
    var after, lives, keys := entries + [e], live[e.record.id := |entries|], runningByKey[e.key := e.record.id];
    forall key | key in keys && keys[key] !in dropped ensures NamesRunning(after, lives, key, keys[key]) {
      if key != e.key { assert NamesRunning(entries, live, key, runningByKey[key]); }
    }
  }

  lemma EntryReported(
    entries: seq<Entry>, live: map<Id, nat>, runningByKey: map<Key, Id>, dropped: set<Id>, h: nat, e: Entry)
    requires MemoryHolds(entries, live, runningByKey, dropped) && h < |entries|
    requires e.record.id == entries[h].record.id && e.key == entries[h].key && e.settled == entries[h].settled
    requires OnlyLastRunning(e.record.progress.stages) && e.record.progress.status == entries[h].record.progress.status
    ensures MemoryHolds(entries[h := e], live, runningByKey, dropped)
  {
    hide OnlyLastRunning;
    forall key | key in runningByKey && runningByKey[key] !in dropped
      ensures NamesRunning(entries[h := e], live, key, runningByKey[key])
    {
      assert NamesRunning(entries, live, key, runningByKey[key]);
    }
  }

  /** A settled operation leaves its key, and the live list once its record is stored. */
  lemma EntrySettled(
    entries: seq<Entry>, live: map<Id, nat>, runningByKey: map<Key, Id>, dropped: set<Id>, h: nat, e: Entry,
    stored: bool)
    requires MemoryHolds(entries, live, runningByKey, dropped) && h < |entries| && !entries[h].settled
    requires e.record.id == entries[h].record.id && e.key == entries[h].key && e.settled
    requires OnlyLastRunning(e.record.progress.stages) && e.record.progress.status != Running
    ensures MemoryHolds(entries[h := e], if stored then live - {e.record.id} else live,
                        Unnamed(runningByKey, e.key, e.record.id), dropped)
  {
    hide OnlyLastRunning;
    var keys := Unnamed(runningByKey, e.key, e.record.id);
    forall key | key in keys && keys[key] !in dropped
      ensures NamesRunning(entries[h := e], if stored then live - {e.record.id} else live, key, keys[key])
    {
      assert NamesRunning(entries, live, key, runningByKey[key]);
    }
  }

  function StillLive(entries: seq<Entry>, live: map<Id, nat>, room: string, except: Option<Id>): map<Id, nat>
    requires forall id :: id in live ==> live[id] < |entries|
  {
    map id | id in live && (entries[live[id]].record.request.room != room || Some(id) == except) :: live[id]
  }

  function StillNamed(runningByKey: map<Key, Id>, before: map<Id, nat>, after: map<Id, nat>): map<Key, Id>
  {
    map key | key in runningByKey && (runningByKey[key] in before ==> runningByKey[key] in after) :: runningByKey[key]
  }

  function OtherRows(rows: Rows, room: string, except: Option<Id>): Rows
  {
    map id | id in rows && (rows[id].request.room != room || Some(id) == except) :: rows[id]
  }

  lemma ForgottenHolds(entries: seq<Entry>, live: map<Id, nat>, runningByKey: map<Key, Id>, dropped: set<Id>,
                       room: string, except: Option<Id>)
    requires MemoryHolds(entries, live, runningByKey, dropped)
    ensures var after := StillLive(entries, live, room, except);
            MemoryHolds(entries, after, StillNamed(runningByKey, live, after), dropped + (live.Keys - after.Keys))
  {
    hide OnlyLastRunning;
    var after := StillLive(entries, live, room, except);
    var keys := StillNamed(runningByKey, live, after);
    forall key | key in keys && keys[key] !in dropped + (live.Keys - after.Keys)
      ensures NamesRunning(entries, after, key, keys[key])
    {
      assert NamesRunning(entries, live, key, runningByKey[key]);
    }
  }

  lemma OtherRowsHold(
    rows: Rows, starts: seq<Start>, seen: set<Id>, deleted: set<string>, room: string, except: Option<Id>)
    requires RowsHold(rows, seen) && StartsHold(starts, rows, seen, deleted)
    ensures RowsHold(OtherRows(rows, room, except), seen)
    ensures StartsHold(starts, OtherRows(rows, room, except), seen, deleted + {room})
  {
    hide OnlyLastRunning;
  }

  function Unnamed(runningByKey: map<Key, Id>, key: Key, id: Id): map<Key, Id>
  {
    if key in runningByKey && runningByKey[key] == id then runningByKey - {key} else runningByKey
  }

  function First(id: Id, request: Request, at: int): Record
  {
    Record(id, request, at, Progress(Running, "preparing", [], None, None))
  }

  /** The table after the terminal save and, if that did not work, its retry. */
  function TerminalRows(
    rows: Rows, was: Record, ended: Progress, why: string, first: SaveOutcome, second: SaveOutcome): Rows
  {
    var once := SaveIf(rows, was.(progress := ended), first);
    if first == Stored then once else SaveIf(once, was.(progress := Unsaved(ended, why)), second)
  }

  class OperationTracker {
    var entries: seq<Entry>
    var live: map<Id, nat>
    var runningByKey: map<Key, Id>
    /** The durable table; it outlives the process. */
    var rows: Rows
    /** Task invocations, ids ever used, deleted Rooms, and the ids they dropped. */
    ghost var starts: seq<Start>
    ghost var seen: set<Id>
    ghost var deleted: set<string>
    ghost var dropped: set<Id>
    /** Started operations whose row left the table at some time, pruned or with its Room. */
    ghost var lost: set<Id>

    ghost predicate Valid()
      reads this
    {
      && MemoryHolds(entries, live, runningByKey, dropped) && RowsHold(rows, seen)
      && StartsHold(starts, rows, seen, deleted)
      && (forall h :: 0 <= h < |entries| ==> entries[h].record.id in seen)
      && LossesHold(starts, rows, deleted, lost)
    }

    constructor ()
      ensures Valid() && rows == map[] && starts == [] && live == map[] && runningByKey == map[] && entries == []
      ensures seen == {} && deleted == {} && dropped == {}
    {
      entries, live, runningByKey, rows := [], map[], map[], map[];
      starts, seen, deleted, dropped, lost := [], {}, {}, {}, {};
    }

    /** The record a client id already stands for: in memory first, then in the table. */
    function Existing(id: Id): Option<Record>
      requires Valid()
      reads this
    {
      if id in live then Some(entries[live[id]].record) else if id in rows then Some(rows[id]) else None
    }

    /** The running operation a key stands for. */
    function Running(key: Key): Option<Record>
      requires Valid()
      reads this
    {
      if key !in runningByKey then None
      else
        var id := runningByKey[key];
        if id in live then Some(entries[live[id]].record) else None
    }

    static function KeyFor(request: Request, id: Id, joins: bool): Key
    {
      Key(request.kind, request.room, if joins then None else Some(id))
    }

    /** Starts the task, or joins or replays what the id or the key already stands for. `newId` is a fresh random id. */
    method Run(
      request: Request, operationId: Option<Id>, newId: Id, joins: bool, refused: bool, at: int, save: SaveOutcome)
      returns (r: RunResult)
      requires Valid() && newId !in seen
      modifies this
      ensures Valid() && deleted == old(deleted) && dropped == old(dropped)
      ensures var id := if operationId.Some? then operationId.value else newId;
              var known := if operationId.Some? then old(Existing(id)) else None;
              var running := old(Running(KeyFor(request, id, joins)));
              && (r.DifferentRequest? <==> known.Some? && known.value.request != request)
              && (r.NotOwned? <==> known.Some? && known.value.request == request && id !in old(live)
                                   && known.value.progress.status == Status.Running)
              && (r.Fenced? <==> known.None? && running.None? && refused)
              && (r.SaveFailed? <==> known.None? && running.None? && !refused && save != Stored)
              && (r.Started? <==> known.None? && running.None? && !refused && save == Stored)
              && (r.Joined? ==> Some(r.record) == if known.Some? then known else running)
              && (r.Joined? && known.None? && r.record.id !in dropped ==> r.record.progress.status == Status.Running)
              && (r.Started? ==> starts == old(starts) + [Start(id, request, operationId.Some?, id in old(lost))])
              && (!r.Started? ==> starts == old(starts) && live == old(live) && runningByKey == old(runningByKey))
      // An id starts again exactly when a caller passes it in after its row was lost.
      ensures var id := if operationId.Some? then operationId.value else newId;
              r.Started? && StartedBefore(old(starts), id, |old(starts)|)
              <==> operationId.Some? && id in old(lost) && id !in old(rows) && id !in old(live)
                   && old(Running(KeyFor(request, id, joins))).None? && !refused && save == Stored
      // A task starts only once its row is durable, and its id and key then stand for it.
      ensures r.Started? ==>
                var s := starts[|starts| - 1];
                && s.id in rows && rows[s.id].request == s.request
                && live == old(live)[s.id := r.handle] && r.handle == |entries| - 1 == |old(entries)|
                && entries == old(entries)
                              + [Entry(First(s.id, request, at), KeyFor(request, s.id, joins), None, false)]
                && runningByKey == old(runningByKey)[KeyFor(request, s.id, joins) := s.id]
                && rows == Save(old(rows), First(s.id, request, at)) && seen == old(seen) + {s.id}
    {
      hide OnlyLastRunning, Prune, StartsHold, RowsHold;
      var id := if operationId.Some? then operationId.value else newId;
      if operationId.Some? {
        var known := Existing(id);
        if known.Some? {
          if known.value.request != request { return DifferentRequest; }
          if id !in live && known.value.progress.status == Status.Running { return NotOwned; }
          return Joined(known.value);
        }
      }
      var key := KeyFor(request, id, joins);
      var running := Running(key);
      if running.Some? { return Joined(running.value); }
      if refused { return Fenced; }
      FreshIsUnknown(newId);
      LostMeansStarted(id);
      r := Launch(First(id, request, at), key, operationId.Some?, save);
    }

    lemma FreshIsUnknown(newId: Id)
      requires Valid() && newId !in seen
      ensures newId !in rows && newId !in live && newId !in lost
      ensures !StartedBefore(starts, newId, |starts|)
    {
      LostMeansStarted(newId);
    }

    lemma LostMeansStarted(id: Id)
      requires Valid() && id !in rows
      ensures id in lost <==> StartedBefore(starts, id, |starts|)
    {
      if id in lost { assert LostFairly(starts, deleted, id); }
    }

    /** The publication boundary: the row first, then the live entry, then the task. */
    method Launch(record: Record, key: Key, passedIn: bool, save: SaveOutcome) returns (r: RunResult)
      requires Valid() && record.id !in rows && record.id !in live && Running(key).None?
      requires record.progress.status == Status.Running && record.progress.stages == []
      requires passedIn || record.id !in seen
      modifies this
      ensures Valid() && deleted == old(deleted) && dropped == old(dropped)
      ensures if save == Stored then r == Started(|old(entries)|) else r == SaveFailed
      ensures save == Stored ==>
                && starts == old(starts) + [Start(record.id, record.request, passedIn, record.id in old(lost))]
                && record.id in rows && rows[record.id].request == record.request
                && entries == old(entries) + [Entry(record, key, None, false)]
                && rows == Save(old(rows), record) && seen == old(seen) + {record.id}
                && live == old(live)[record.id := |old(entries)|] && runningByKey == old(runningByKey)[key := record.id]
      ensures save != Stored ==> starts == old(starts) && live == old(live) && runningByKey == old(runningByKey)
    {
      hide Prune, StartsHold, RowsHold, MemoryHolds, LossesHold;
      LostMeansStarted(record.id);
      if !passedIn { FreshIsUnknown(record.id); }
      ghost var start := Start(record.id, record.request, passedIn, record.id in lost);
      seen := seen + {record.id};
      NewRowHolds(rows, record, starts, old(seen), deleted, save);
      LossesRecorded(starts, rows, SaveIf(rows, record, save), seen, deleted, deleted, lost);
      lost := lost + Gone(starts, rows, SaveIf(rows, record, save));
      rows := SaveIf(rows, record, save);
      if save != Stored { return SaveFailed; }
      var e := Entry(record, key, None, false);
      EntryAdded(entries, live, runningByKey, dropped, e);
      StartRecorded(starts, start, rows, seen, deleted);
      StartKeepsLosses(starts, start, rows, seen, deleted, lost);
      entries := entries + [e];
      live := live[record.id := |entries| - 1];
      runningByKey := runningByKey[key := record.id];
      starts := starts + [start];
      r := Started(|entries| - 1);
    }

    // ---- what a running task reports ----

    /** Puts new progress in the entry and tries to save it; a failed save is not the task's concern. */
    method Touch(h: nat, p: Progress, save: SaveOutcome)
      requires Valid() && h < |entries| && OnlyLastRunning(p.stages) && p.status == entries[h].record.progress.status
      modifies this`entries, this`rows, this`lost
      ensures Valid()
      ensures entries == old(entries)[h := old(entries)[h].(record := old(entries)[h].record.(progress := p))]
      ensures rows == SaveIf(old(rows), old(entries)[h].record.(progress := p), save)
    {
      hide Prune, SaveIf, StartsHold, RowsHold, MemoryHolds, LossesHold, OnlyLastRunning;
      var e := entries[h].(record := entries[h].record.(progress := p));
      EntryReported(entries, live, runningByKey, dropped, h, e);
      SaveRow(e.record, save);
      entries := entries[h := e];
    }

    method Begin(h: nat, stage: string, save: SaveOutcome)
      requires Valid() && h < |entries|
      modifies this`entries, this`rows, this`lost
      ensures Valid() && |entries| == |old(entries)|
      ensures old(entries)[h].reportedFailure.Some? ==> entries == old(entries) && rows == old(rows)
      ensures old(entries)[h].reportedFailure.None? ==>
                && entries[h].record.progress == Begun(old(entries)[h].record.progress, stage)
                && rows == SaveIf(old(rows), entries[h].record, save)
    {
      if entries[h].reportedFailure.Some? { return; }
      EntryOrdered(h);
      ProgressStaysOrdered(entries[h].record.progress, stage, None);
      Touch(h, Begun(entries[h].record.progress, stage), save);
    }

    lemma EntryOrdered(h: nat)
      requires Valid() && h < |entries|
      ensures OnlyLastRunning(entries[h].record.progress.stages)
    {
    }

    method Detail(h: nat, text: string, save: SaveOutcome)
      requires Valid() && h < |entries|
      modifies this`entries, this`rows, this`lost
      ensures Valid() && |entries| == |old(entries)|
      ensures var p := old(entries)[h].record.progress;
              if old(entries)[h].reportedFailure.Some? || !HasOpen(p.stages) then
                entries == old(entries) && rows == old(rows)
              else entries[h].record.progress == Detailed(p, text) && rows == SaveIf(old(rows), entries[h].record, save)
    {
      if entries[h].reportedFailure.Some? || !HasOpen(entries[h].record.progress.stages) { return; }
      EntryOrdered(h);
      ProgressStaysOrdered(entries[h].record.progress, text, None);
      Touch(h, Detailed(entries[h].record.progress, text), save);
    }

    method Skip(h: nat, text: string, save: SaveOutcome)
      requires Valid() && h < |entries|
      modifies this`entries, this`rows, this`lost
      ensures Valid() && |entries| == |old(entries)|
      ensures var p := old(entries)[h].record.progress;
              if old(entries)[h].reportedFailure.Some? then entries == old(entries) && rows == old(rows)
              else entries[h].record.progress == Skipped(p, text) && rows == SaveIf(old(rows), entries[h].record, save)
    {
      if entries[h].reportedFailure.Some? { return; }
      EntryOrdered(h);
      ProgressStaysOrdered(entries[h].record.progress, text, None);
      Touch(h, Skipped(entries[h].record.progress, text), save);
    }

    /** The answer stays in memory until the terminal save. */
    method Result(h: nat, value: string)
      requires Valid() && h < |entries|
      modifies this`entries
      ensures Valid() && |entries| == |old(entries)|
      ensures var p := old(entries)[h].record.progress;
              entries[h].record.progress ==
              if old(entries)[h].reportedFailure.Some? then p else p.(result := Some(value))
    {
      if entries[h].reportedFailure.Some? { return; }
      EntryOrdered(h);
      hide Prune, StartsHold, RowsHold, MemoryHolds, LossesHold, OnlyLastRunning;
      var p := entries[h].record.progress.(result := Some(value));
      var e := entries[h].(record := entries[h].record.(progress := p));
      EntryReported(entries, live, runningByKey, dropped, h, e);
      entries := entries[h := e];
    }

    /** The first reported failure counts, and silences every later report. */
    method ReportFailure(h: nat, message: string)
      requires Valid() && h < |entries|
      modifies this`entries
      ensures Valid() && |entries| == |old(entries)|
      ensures entries[h] == old(entries)[h].(reportedFailure :=
                if old(entries)[h].reportedFailure.Some? then old(entries)[h].reportedFailure else Some(message))
    {
      if entries[h].reportedFailure.Some? { return; }
      EntryOrdered(h);
      hide Prune, StartsHold, RowsHold, MemoryHolds, LossesHold, OnlyLastRunning;
      var e := entries[h].(reportedFailure := Some(message));
      EntryReported(entries, live, runningByKey, dropped, h, e);
      entries := entries[h := e];
    }

    /** What the task's end amounts to: its own failure report, the error it threw, or both. */
    static function FailureOf(reported: Option<string>, thrown: Option<string>): Option<string>
    {
      if thrown.None? then reported
      else if reported.None? then thrown
      else Some(reported.value + "; finalization failed: " + thrown.value)
    }

    /** One save of a known id's row. */
    method SaveRow(r: Record, save: SaveOutcome)
      requires Valid() && r.id in seen && OnlyLastRunning(r.progress.stages)
      modifies this`rows, this`lost
      ensures Valid() && rows == SaveIf(old(rows), r, save) && lost == old(lost) + Gone(starts, old(rows), rows)
    {
      hide Prune, SaveIf, StartsHold, RowsHold, MemoryHolds, LossesHold, OnlyLastRunning;
      SaveIfKeeps(rows, r, save, starts, seen, deleted);
      LossesRecorded(starts, rows, SaveIf(rows, r, save), seen, deleted, deleted, lost);
      lost := lost + Gone(starts, rows, SaveIf(rows, r, save));
      rows := SaveIf(rows, r, save);
    }

    /** Saves a terminal record, and once more as a failure if that did not work. */
    method StoreTerminal(was: Record, ended: Progress, why: string, first: SaveOutcome, second: SaveOutcome)
      returns (p: Progress, stored: bool)
      requires Valid() && was.id in seen && OnlyLastRunning(ended.stages) && OnlyLastRunning(Unsaved(ended, why).stages)
      modifies this`rows, this`lost
      ensures Valid() && (stored <==> first == Stored || second == Stored)
      ensures p == if first == Stored then ended else Unsaved(ended, why)
      ensures rows == TerminalRows(old(rows), was, ended, why, first, second)
    {
      hide Prune, SaveIf, StartsHold, RowsHold, MemoryHolds, LossesHold, OnlyLastRunning, Unsaved;
      p, stored := ended, first == Stored;
      SaveRow(was.(progress := ended), first);
      if first != Stored {
        p, stored := Unsaved(ended, why), second == Stored;
        SaveRow(was.(progress := p), second);
      }
    }

    /** The end of a task: the terminal record, saved with one retry; unsaved, it stays readable in memory. */
    method Finish(h: nat, thrown: Option<string>, why: string, first: SaveOutcome, second: SaveOutcome)
      requires Valid() && h < |entries| && !entries[h].settled
      modifies this`entries, this`rows, this`live, this`runningByKey, this`lost
      ensures Valid()
      ensures var was := old(entries)[h];
              var ended := Concluded(was.record.progress, FailureOf(was.reportedFailure, thrown));
              var p := if first == Stored then ended else Unsaved(ended, why);
              && entries == old(entries)[h := was.(record := was.record.(progress := p), settled := true)]
              && runningByKey == Unnamed(old(runningByKey), was.key, was.record.id)
              && live == (if first == Stored || second == Stored then old(live) - {was.record.id} else old(live))
              && rows == TerminalRows(old(rows), was.record, ended, why, first, second)
    {
      EntryOrdered(h);
      hide Prune, SaveIf, StartsHold, RowsHold, MemoryHolds, LossesHold, OnlyLastRunning;
      hide Concluded, Unsaved, FailureOf, Unnamed, TerminalRows;
      var was := entries[h];
      var failure := FailureOf(was.reportedFailure, thrown);
      var ended := Concluded(was.record.progress, failure);
      TerminalHolds(was.record.progress, failure, why);
      var p, stored := StoreTerminal(was.record, ended, why, first, second);
      Settle(h, p, stored);
    }

    /** The operation leaves its key, and the live list if its record is stored. */
    method Settle(h: nat, p: Progress, stored: bool)
      requires Valid() && h < |entries| && !entries[h].settled
      requires OnlyLastRunning(p.stages) && p.status != Status.Running
      modifies this`entries, this`live, this`runningByKey
      ensures Valid()
      ensures var was := old(entries)[h];
              && entries == old(entries)[h := was.(record := was.record.(progress := p), settled := true)]
              && runningByKey == Unnamed(old(runningByKey), was.key, was.record.id)
              && live == if stored then old(live) - {was.record.id} else old(live)
    {
      hide Prune, StartsHold, RowsHold, MemoryHolds, LossesHold, OnlyLastRunning, Unnamed;
      var was := entries[h];
      var e := was.(record := was.record.(progress := p), settled := true);
      EntrySettled(entries, live, runningByKey, dropped, h, e, stored);
      entries := entries[h := e];
      runningByKey := Unnamed(runningByKey, was.key, was.record.id);
      if stored { live := live - {was.record.id}; }
    }

    // ---- deletion and restart ----

    /** A deleted Room takes its rows and its live operations along, except the one deleting it. */
    method ForgetRoom(room: string, except: Option<Id>)
      requires Valid()
      modifies this
      ensures Valid() && starts == old(starts) && entries == old(entries) && deleted == old(deleted) + {room}
      ensures seen == old(seen) && dropped == old(dropped) + (old(live).Keys - live.Keys)
      ensures live == StillLive(old(entries), old(live), room, except)
      ensures runningByKey == StillNamed(old(runningByKey), old(live), live)
      ensures rows == OtherRows(old(rows), room, except)
    {
      hide OnlyLastRunning, LossesHold;
      ghost var forgotten := live.Keys - StillLive(entries, live, room, except).Keys;
      ForgottenHolds(entries, live, runningByKey, dropped, room, except);
      dropped := dropped + forgotten;
      deleted := deleted + {room};
      runningByKey := StillNamed(runningByKey, live, StillLive(entries, live, room, except));
      live := StillLive(entries, live, room, except);
      hide MemoryHolds;
      OtherRowsHold(rows, starts, seen, old(deleted), room, except);
      hide RowsHold, StartsHold, StillLive, StillNamed, OtherRows;
      LossesRecorded(starts, rows, OtherRows(rows, room, except), seen, old(deleted), deleted, lost);
      lost := lost + Gone(starts, rows, OtherRows(rows, room, except));
      rows := OtherRows(rows, room, except);
    }

    /** A new process: memory is gone, the table and what was started are not. */
    method Restart()
      requires Valid()
      modifies this
      ensures Valid() && live == map[] && runningByKey == map[] && entries == []
      ensures rows == old(rows) && starts == old(starts) && deleted == old(deleted)
    {
      entries, live, runningByKey, dropped := [], map[], map[], {};
    }

    /** Closes every row the previous process left running; stops at the first save that throws. */
    method RecoverInterrupted(detail: string, saves: Id -> SaveOutcome) returns (complete: bool)
      requires Valid() && live == map[]
      modifies this`rows, this`lost
      ensures Valid()
      ensures complete ==> forall id :: id in rows ==> rows[id].progress.status != Status.Running
      ensures forall id :: id in rows ==> id in old(rows) && Recovered(old(rows)[id], rows[id], detail)
      ensures forall id :: id in old(rows) && old(rows)[id].request.requestKey.Some? ==> id in rows
    {
      hide OnlyLastRunning, StartsHold, RowsHold, MemoryHolds, LossesHold, NewerInRoom, Interrupted, SaveIf, Recovering;
      var rest := set id | id in rows && rows[id].progress.status == Status.Running;
      ghost var before := rows;
      assert Recovering(before, rows, rest, detail) by { RecoveryBegins(rows, rest, detail); }
      complete := true;
      while rest != {} && complete
        invariant Valid() && live == map[]
        invariant if complete then Recovering(before, rows, rest, detail)
                  else exists r :: Recovering(before, rows, r, detail)
        decreases rest, complete
      {
        SomeMember(rest);
        var id :| id in rest;
        RecoveringRow(before, rows, rest, detail, id);
        RowOrdered(id);
        var record := rows[id].(progress := Interrupted(rows[id].progress, detail));
        InterruptedOrdered(rows[id].progress, detail);
        RecoveryGoesOn(before, rows, rest, detail, id, saves(id));
        rest := rest - {id};
        SaveRow(record, saves(id));
        if saves(id) != Stored { complete := false; }
      }
      ghost var left :| Recovering(before, rows, left, detail) && (complete ==> left == {});
      RecoveryEnds(before, rows, left, detail);
    }

    /** An id is started once, over any number of processes, unless a caller passes it in again after its row was
        lost; that happens to no id with a request key whose Room is still there, and to no minting. */
    lemma StartedAtMostOnce(i: nat, j: nat)
      requires Valid() && i < j < |starts| && starts[i].id == starts[j].id
      ensures starts[j].passedIn && starts[j].afterLoss
      ensures starts[i].request.requestKey.None? || starts[i].request.room in deleted
    {
      assert StartedBefore(starts, starts[j].id, j);
    }

    /** The start numbered `j` is a second one of its id exactly if it came, passed in, after a loss. */
    lemma SecondStartsAreLosses(j: nat)
      requires Valid() && j < |starts|
      ensures (exists i :: 0 <= i < j && starts[i].id == starts[j].id) <==> starts[j].passedIn && starts[j].afterLoss
    {
      assert StartedBefore(starts, starts[j].id, j) <==> starts[j].afterLoss;
    }

    /** A key of a running operation names a live one that has not settled, and only its last stage can be running. */
    lemma KeysNameRunning(key: Key)
      requires Valid() && key in runningByKey && runningByKey[key] !in dropped
      ensures var id := runningByKey[key];
              && id in live && entries[live[id]].record.id == id && !entries[live[id]].settled
              && entries[live[id]].record.progress.status == Status.Running
              && OnlyLastRunning(entries[live[id]].record.progress.stages)
    {
      assert NamesRunning(entries, live, key, runningByKey[key]);
    }

    /** An unsettled operation has its place, or its Room was forgotten under it; so only then can two unsettled ones
        share an id, and the end of one take the key and the place of the other. */
    lemma SharedIdsWereForgotten(g: nat, h: nat)
      requires Valid() && g < |entries| && h < |entries| && !entries[g].settled && !entries[h].settled
      ensures entries[h].record.id in dropped || (entries[h].record.id in live && live[entries[h].record.id] == h)
      ensures g != h && entries[g].record.id == entries[h].record.id ==> entries[h].record.id in dropped
    {
    }

    lemma RowOrdered(id: Id)
      requires Valid() && id in rows
      ensures rows[id].id == id && id in seen && OnlyLastRunning(rows[id].progress.stages)
    {
    }
  }

  predicate Recovered(before: Record, after: Record, detail: string)
  {
    && after.request == before.request
    && (after.progress == before.progress
        || (before.progress.status == Running && after.progress == Interrupted(before.progress, detail)))
  }

  /** How far recovery has come: the rest is untouched, everything else is settled or was. */
  ghost predicate Recovering(before: Rows, rows: Rows, rest: set<Id>, detail: string)
  {
    && (forall id :: id in rest ==>
          id in before && id in rows && rows[id] == before[id] && rows[id].progress.status == Running)
    && (forall id :: id in rows && rows[id].progress.status == Running ==> id in rest)
    && (forall id :: id in rows ==>
          id in before && rows[id].id == before[id].id && Recovered(before[id], rows[id], detail))
    && (forall id :: id in before && before[id].request.requestKey.Some? ==> id in rows)
  }

  lemma RecoveryBegins(rows: Rows, rest: set<Id>, detail: string)
    requires rest == set id | id in rows && rows[id].progress.status == Running
    ensures Recovering(rows, rows, rest, detail)
  {
  }

  lemma SomeMember(ids: set<Id>)
    ensures ids == {} || exists id :: id in ids
  {
    if forall id :: id !in ids { assert ids <= {}; }
  }

  lemma RecoveringRow(before: Rows, rows: Rows, rest: set<Id>, detail: string, id: Id)
    requires Recovering(before, rows, rest, detail) && id in rest
    ensures id in rows
  {
  }

  lemma InterruptedOrdered(p: Progress, detail: string)
    ensures OnlyLastRunning(Interrupted(p, detail).stages) && Interrupted(p, detail).status != Running
  {
  }

  /** One more row is failed, or the save did nothing; pruning takes no running and no client-addressed row. */
  lemma RecoveryGoesOn(before: Rows, rows: Rows, rest: set<Id>, detail: string, id: Id, save: SaveOutcome)
    requires Recovering(before, rows, rest, detail) && id in rest && rows[id].id == id
    ensures var after := SaveIf(rows, rows[id].(progress := Interrupted(rows[id].progress, detail)), save);
            Recovering(before, after, if save == NotStored then rest else rest - {id}, detail)
  {
    hide NewerInRoom;
    if save != NotStored {
      InterruptedOrdered(rows[id].progress, detail);
      var record := rows[id].(progress := Interrupted(rows[id].progress, detail));
      var after := Save(rows, record);
      forall other | other in rows
        ensures other in after <== (other in rest - {id} || rows[other].request.requestKey.Some?)
      {
        SaveKeeps(rows, record, other);
      }
    }
  }

  lemma RecoveryEnds(before: Rows, rows: Rows, rest: set<Id>, detail: string)
    requires Recovering(before, rows, rest, detail)
    ensures rest == {} ==> forall id :: id in rows ==> rows[id].progress.status != Running
    ensures forall id :: id in rows ==> id in before && Recovered(before[id], rows[id], detail)
    ensures forall id :: id in before && before[id].request.requestKey.Some? ==> id in rows
  {
  }

  lemma TerminalHolds(p: Progress, failure: Option<string>, why: string)
    requires OnlyLastRunning(p.stages)
    ensures OnlyLastRunning(Concluded(p, failure).stages) && OnlyLastRunning(Unsaved(Concluded(p, failure), why).stages)
    ensures Concluded(p, failure).status != Running && Unsaved(Concluded(p, failure), why).status != Running
  {
    ProgressStaysOrdered(p, why, failure);
  }

  /** Among the rows newer than a given one, the newest fifty survive every prune. */
  lemma {:induction false} PruneKeepsNewest(rows: Rows, room: string, r: Record)
    requires r.request.room == room && |NewerInRoom(rows, r)| >= RETAINED_PER_ROOM
    ensures |NewerInRoom(Prune(rows, room), r)| >= RETAINED_PER_ROOM
    decreases |NewerInRoom(rows, r)|
  {
    var newer := NewerInRoom(rows, r);
    if x :| x in newer && |NewerInRoom(rows, rows[x])| >= RETAINED_PER_ROOM {
      forall id | id in NewerInRoom(rows, rows[x]) ensures id in newer - {x} {
        assert Newer(rows[id], rows[x]) && Newer(rows[x], r);
      }
      Smaller(NewerInRoom(rows, rows[x]), newer - {x});
      PruneKeepsNewest(rows, room, rows[x]);
      Smaller(NewerInRoom(Prune(rows, room), rows[x]), NewerInRoom(Prune(rows, room), r));
    } else {
      forall id | id in newer ensures id in NewerInRoom(Prune(rows, room), r) {
        assert |NewerInRoom(rows, rows[id])| < RETAINED_PER_ROOM;
      }
      Smaller(newer, NewerInRoom(Prune(rows, room), r));
    }
  }

  lemma Smaller<T>(a: set<T>, b: set<T>)
    requires a <= b
    ensures |a| <= |b|
  {
    if a != b {
      var rest := b - a;
      assert b == a + rest;
    }
  }

  /** Pruning settles the table: a second prune finds nothing more. */
  lemma PruneSettles(rows: Rows, room: string)
    ensures Prune(Prune(rows, room), room) == Prune(rows, room)
  {
    var once := Prune(rows, room);
    forall id | id in once ensures !Prunable(once, room, id) {
      if once[id].request.room == room {
        Smaller(NewerInRoom(once, rows[id]), NewerInRoom(rows, rows[id]));
      }
    }
  }

  /** A finished row stays in the table. */
  predicate Lasts(rows: Rows, r: Record)
  {
    r.request.requestKey.Some? || |NewerInRoom(rows, r)| < RETAINED_PER_ROOM
  }

  /** The row of a finished operation stays exactly if it is client-addressed, among the newest, or could not be
      saved at all; and table and memory agree on it exactly if some save of the final record went in. */
  lemma TerminalRowAgrees(
    rows: Rows, was: Record, failure: Option<string>, why: string, first: SaveOutcome, second: SaveOutcome)
    requires was.id in rows && rows[was.id] == was.(progress := rows[was.id].progress)
    requires rows[was.id].progress.status == Running
    ensures var ended := Concluded(was.progress, failure);
            var p := if first == Stored then ended else Unsaved(ended, why);
            var after := TerminalRows(rows, was, ended, why, first, second);
            && (was.id in after <==> Lasts(rows, was) || (first == NotStored && second == NotStored))
            && (was.id in after ==> (after[was.id].progress == p <==> first == Stored || second != NotStored))
  {
    hide Concluded, Unsaved, Save;
    var ended := Concluded(was.progress, failure);
    var p := Unsaved(ended, why);
    EndedDiffers(was.progress, failure, why);
    TerminalSave(rows, was, ended);
    TerminalSave(rows, was, p);
    TerminalSave(Save(rows, was.(progress := ended)), was, p);
  }

  /** A save of a finished record keeps its row exactly if that lasts, and again has the same newest rows beside it. */
  lemma TerminalSave(rows: Rows, was: Record, ended: Progress)
    requires was.id in rows ==> rows[was.id] == was.(progress := rows[was.id].progress)
    requires ended.status != Running
    ensures var after := Save(rows, was.(progress := ended));
            && (was.id in after <==> Lasts(rows, was)) && (Lasts(after, was) <==> Lasts(rows, was))
            && (was.id in after ==> after[was.id] == was.(progress := ended))
  {
    var upserted, room := Upsert(rows, was.(progress := ended)), was.request.room;
    assert upserted[was.id] == was.(progress := ended);
    forall id | id in upserted ensures id in NewerInRoom(upserted, was) <==> id in NewerInRoom(rows, was) {
      if id != was.id { assert id in rows && upserted[id] == rows[id]; }
    }
    assert NewerInRoom(upserted, was) == NewerInRoom(rows, was);
    forall id | id in upserted
      ensures id in NewerInRoom(upserted, upserted[was.id]) <==> id in NewerInRoom(upserted, was)
    {
      assert Newer(upserted[id], upserted[was.id]) <==> Newer(upserted[id], was);
    }
    assert NewerInRoom(upserted, upserted[was.id]) == NewerInRoom(upserted, was);
    if |NewerInRoom(rows, was)| >= RETAINED_PER_ROOM {
      PruneKeepsNewest(upserted, room, was);
    } else {
      Smaller(NewerInRoom(Prune(upserted, room), was), NewerInRoom(upserted, was));
    }
  }

  lemma EndedDiffers(p: Progress, failure: Option<string>, why: string)
    ensures var ended := Concluded(p, failure);
            Unsaved(ended, why) != ended && ended.status != Running && Unsaved(ended, why).status != Running
  {
    var ended := Concluded(p, failure);
    if ended.error.Some? { assert |ended.error.value + "; " + why| > |ended.error.value|; }
  }

  // ---- an id that starts twice ----

  /** A finished first operation, and `n` newer ones of the same Room still at work. */
  ghost predicate Crowded(rows: Rows, request: Request, n: nat)
  {
    && (0 in rows <==> n < RETAINED_PER_ROOM) && (forall id :: id in rows ==> 0 <= id <= n)
    && (0 in rows ==>
          rows[0].id == rows[0].startedAt == 0 && rows[0].request == request && rows[0].progress.status != Running)
    && (forall id :: id in UpTo(n) ==> id in rows && rows[id] == First(id, request, id))
  }

  function UpTo(n: nat): (ids: set<Id>)
    ensures |ids| == n && forall id :: id in ids <==> 1 <= id <= n
  {
    if n == 0 then {} else UpTo(n - 1) + {n}
  }

  /** The first operation alone in the table, started and then finished. */
  lemma FirstFinishes(request: Request, failure: Option<string>, why: string)
    requires request.requestKey.None?
    ensures var first := First(0, request, 0);
            Crowded(TerminalRows(Save(map[], first), first, Concluded(first.progress, failure), why, Stored, Stored),
                    request, 0)
  {
    var first := First(0, request, 0);
    var rows := Save(map[], first);
    assert rows == map[0 := first];
    TerminalHolds(first.progress, failure, why);
    assert NewerInRoom(rows, first) == {};
    hide Concluded;
    TerminalSave(rows, first, Concluded(first.progress, failure));
    assert Save(rows, first.(progress := Concluded(first.progress, failure))).Keys <= {0};
  }

  lemma Uncrowded(rows: Rows, request: Request, n: nat)
    requires Crowded(rows, request, n)
    ensures n + 1 !in rows && (0 in rows <==> n < RETAINED_PER_ROOM)
  {
  }

  lemma CrowdCounts(rows: Rows, request: Request, n: nat)
    requires Crowded(rows, request, n) && n < RETAINED_PER_ROOM
    ensures var after := Upsert(rows, First(n + 1, request, n + 1));
            |NewerInRoom(after, after[0])| == n + 1
  {
    hide UpTo, Newer;
    var after := Upsert(rows, First(n + 1, request, n + 1));
    forall id | id in after ensures id in NewerInRoom(after, after[0]) <==> id in UpTo(n + 1) {
      if id > 0 { CrowdRow(rows, request, n, id); }
      FirstIsOldest(after, request, id);
    }
    assert NewerInRoom(after, after[0]) == UpTo(n + 1);
  }

  lemma CrowdRow(rows: Rows, request: Request, n: nat, id: Id)
    requires Crowded(rows, request, n) && 1 <= id <= n + 1
    ensures var after := Upsert(rows, First(n + 1, request, n + 1));
            id in after && after[id] == First(id, request, id)
  {
    if id <= n { assert id in UpTo(n); }
  }

  lemma FirstIsOldest(rows: Rows, request: Request, id: Id)
    requires 0 in rows && rows[0].id == rows[0].startedAt == 0 && rows[0].request == request
    requires id in rows && (id == 0 || (id > 0 && rows[id] == First(id, request, id)))
    ensures id in NewerInRoom(rows, rows[0]) <==> id > 0
  {
  }

  /** The fiftieth newer row prunes the first one, and no row prunes one still running. */
  lemma CrowdGrows(rows: Rows, request: Request, n: nat)
    requires Crowded(rows, request, n) && n < RETAINED_PER_ROOM && request.requestKey.None?
    ensures Crowded(Save(rows, First(n + 1, request, n + 1)), request, n + 1)
  {
    hide NewerInRoom, UpTo, Newer;
    CrowdCounts(rows, request, n);
    var added := First(n + 1, request, n + 1);
    var after := Save(rows, added);
    assert 0 in after <==> n + 1 < RETAINED_PER_ROOM;
    forall id | id in UpTo(n + 1) ensures id in after && after[id] == First(id, request, id) {
      RunningStays(rows, request, n, id);
    }
  }

  lemma RunningStays(rows: Rows, request: Request, n: nat, id: Id)
    requires Crowded(rows, request, n) && 1 <= id <= n + 1
    ensures var after := Save(rows, First(n + 1, request, n + 1)); id in after && after[id] == First(id, request, id)
  {
    hide NewerInRoom, UpTo, Newer;
    CrowdRow(rows, request, n, id);
  }

  /** The tracker with the first operation over and `n` newer ones running. */
  ghost predicate Crowding(t: OperationTracker, request: Request, n: nat)
    reads t
  {
    && t.Valid() && t.deleted == {} && Crowded(t.rows, request, n)
    && (forall id :: id in t.live ==> 1 <= id <= n) && (forall id :: id in t.seen ==> 0 <= id <= n)
    && (forall key :: key in t.runningByKey ==> key.own.Some? && 1 <= key.own.value <= n)
    && |t.starts| == n + 1 && t.starts[0] == Start(0, request, true, false)
  }

  method RunFirst(request: Request) returns (t: OperationTracker)
    requires request.requestKey.None?
    ensures fresh(t) && Crowding(t, request, 0)
  {
    hide OnlyLastRunning, NewerInRoom, Concluded, Save, TerminalRows, Crowded;
    t := new OperationTracker();
    var r := t.Run(request, Some(0), -1, false, false, 0, Stored);
    t.Finish(r.handle, None, "", Stored, Stored);
    FirstFinishes(request, None, "");
  }

  method RunNewer(t: OperationTracker, request: Request, n: nat)
    requires Crowding(t, request, n) && n < RETAINED_PER_ROOM && request.requestKey.None?
    modifies t
    ensures Crowding(t, request, n + 1)
  {
    hide OnlyLastRunning, NewerInRoom, Save, Crowded;
    CrowdGrows(t.rows, request, n);
    Uncrowded(t.rows, request, n);
    var r := t.Run(request, Some(n + 1), -1, false, false, n + 1, Stored);
  }

  /** Without a request key one id starts twice: it runs and finishes, fifty newer rows prune its own, and the same
      caller presents it again. */
  method StartAgain(request: Request) returns (t: OperationTracker)
    requires request.requestKey.None?
    ensures fresh(t) && t.Valid() && t.deleted == {} && |t.starts| == RETAINED_PER_ROOM + 2
    ensures t.starts[0] == Start(0, request, true, false)
    ensures t.starts[RETAINED_PER_ROOM + 1] == Start(0, request, true, true)
  {
    hide OnlyLastRunning, NewerInRoom, Save, Crowded;
    t := RunFirst(request);
    for n := 0 to RETAINED_PER_ROOM
      invariant fresh(t) && Crowding(t, request, n)
    {
      RunNewer(t, request, n);
    }
    Uncrowded(t.rows, request, RETAINED_PER_ROOM);
    t.LostMeansStarted(0);
    var r := t.Run(request, Some(0), -1, false, false, RETAINED_PER_ROOM + 1, Stored);
  }

  /** One operation at work, its Room forgotten under it. */
  method RunForgotten(request: Request) returns (t: OperationTracker)
    ensures fresh(t) && t.Valid() && t.live == map[] && t.runningByKey == map[] && t.rows == map[]
    ensures |t.entries| == 1 && !t.entries[0].settled && t.seen == {0} && t.dropped == {0}
    ensures t.entries[0].record.id == 0 && t.entries[0].key == OwnKey(request)
  {
    hide OnlyLastRunning, NewerInRoom, MemoryHolds, RowsHold, StartsHold, LossesHold;
    t := new OperationTracker();
    var r := t.Run(request, Some(0), -1, false, false, 0, Stored);
    assert t.rows.Keys == {0};
    t.ForgetRoom(request.room, None);
  }

  /** The condition is needed: a Room is forgotten while an operation runs, the same id runs again, and the end of the
      forgotten one takes the running one's key and place. */
  method FinishForgotten(request: Request) returns (t: OperationTracker)
    ensures fresh(t) && t.Valid() && |t.entries| == 2 && t.entries[0].settled && !t.entries[1].settled
    ensures t.entries[0].record.id == t.entries[1].record.id == 0 && 0 in t.dropped
    ensures 0 !in t.live && OwnKey(request) !in t.runningByKey
  {
    hide OnlyLastRunning, NewerInRoom, Concluded, TerminalRows, MemoryHolds, RowsHold, StartsHold, LossesHold, Save;
    t := RunForgotten(request);
    var r := t.Run(request, Some(0), -1, false, false, 1, Stored);
    t.Finish(0, None, "", Stored, Stored);
  }

  /** The key of the operation with id 0 of this request. */
  function OwnKey(request: Request): Key { Key(request.kind, request.room, Some(0)) }
}
