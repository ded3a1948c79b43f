/**
 * The reconciliation report and the bounded pass that deletes its candidates,
 * each one re-proved from a new observation under its Room lock.
 */
module VolumeGcPass {

  import opened VolumeGc
  import opened Wrappers

  datatype Record = Record(volume: Volume, verdict: Verdict)

  datatype Summary = Summary(count: nat, totalBytes: nat, reclaimableBytes: nat)
  {
    function Plus(that: Summary): Summary
    {
      Summary(count + that.count, totalBytes + that.totalBytes, reclaimableBytes + that.reclaimableBytes)
    }
  }

  function Nothing(): Summary { Summary(0, 0, 0) }

  function One(v: Volume): Summary
  {
    Summary(1, v.sizeBytes, if v.linksKnown && v.links == 0 then v.sizeBytes else 0)
  }

  function Retained(): set<Class> { {RetainedCurrent, RetainedActive, RetainedSleeping, RetainedRecovery} }

  function Orphaned(): set<Class>
  {
    {OrphanedDeletedRoom, OrphanedStaleGeneration, OrphanedStaleSnapshot, OrphanedStaleDeps, OrphanedRemovedService}
  }

  function AllClasses(): set<Class> { Retained() + {Fenced} + Orphaned() + {NotOurs} }

  datatype Report = Report(
    total: Summary, devHotel: Summary, safe: Summary, fenced: Summary, retained: Summary, unowned: Summary,
    byClass: map<Class, Summary>, records: seq<Record>)

  // ---- what a report should add up to ----

  function Tally(records: seq<Record>, classes: set<Class>): Summary
  {
    if records == [] then Nothing()
    else
      var r := records[|records| - 1];
      var before := Tally(records[..|records| - 1], classes);
      if r.verdict.class_ in classes then before.Plus(One(r.volume)) else before
  }

  function TallySafe(records: seq<Record>): Summary
  {
    if records == [] then Nothing()
    else
      var r := records[|records| - 1];
      var before := TallySafe(records[..|records| - 1]);
      if r.verdict.safeToDelete then before.Plus(One(r.volume)) else before
  }

  function TallyNamed(records: seq<Record>): Summary
  {
    if records == [] then Nothing()
    else
      var r := records[|records| - 1];
      var before := TallyNamed(records[..|records| - 1]);
      if r.volume.identity.purpose != External then before.Plus(One(r.volume)) else before
  }

  lemma TallyStep(records: seq<Record>, classes: set<Class>)
    requires records != []
    ensures var before := Tally(records[..|records| - 1], classes);
            var r := records[|records| - 1];
            Tally(records, classes) == if r.verdict.class_ in classes then before.Plus(One(r.volume)) else before
  {
  }

  ghost predicate Splits(whole: set<Class>, a: set<Class>, b: set<Class>)
  {
    forall c :: (c in whole <==> c in a || c in b) && !(c in a && c in b)
  }

  /** Classes without a common member add up. */
  lemma {:induction false} TallySplits(records: seq<Record>, whole: set<Class>, a: set<Class>, b: set<Class>)
    requires Splits(whole, a, b)
    ensures Tally(records, whole) == Tally(records, a).Plus(Tally(records, b))
  {
    if records != [] {
      TallySplits(records[..|records| - 1], whole, a, b);
      TallyStep(records, a);
      TallyStep(records, b);
      TallyStep(records, whole);
      hide Tally, One;
    }
  }

  lemma {:induction false} TallyOfAll(records: seq<Record>)
    ensures Tally(records, AllClasses()).count == |records|
  {
    if records != [] {
      var last := records[|records| - 1].verdict.class_;
      assert last in AllClasses() by { EveryClassListed(last); }
      TallyOfAll(records[..|records| - 1]);
    }
  }

  lemma EveryClassListed(c: Class)
    ensures c in AllClasses()
  {
    match c
    case RetainedCurrent => case RetainedActive => case RetainedSleeping => case RetainedRecovery =>
    case Fenced => case OrphanedDeletedRoom => case OrphanedStaleGeneration => case OrphanedStaleSnapshot =>
    case OrphanedStaleDeps => case OrphanedRemovedService => case NotOurs =>
  }

  /** A class whose volumes may be offered for deletion is an orphaned one. */
  lemma SafeIsOrphaned(ctx: Context, v: Volume)
    requires Classify(ctx, v).safeToDelete
    ensures Classify(ctx, v).class_ in Orphaned()
    ensures v.linksKnown && v.links == 0 && v.sizeKnown && v.ownership != Unowned
  {
    SafeIsUnneeded(ctx, v);
  }

  ghost predicate Faithful(ctx: Context, records: seq<Record>)
  {
    forall i :: 0 <= i < |records| ==> records[i].verdict == Classify(ctx, records[i].volume)
  }

  /** Every byte offered for deletion is a reclaimable byte of an orphaned class. */
  lemma {:induction false} CandidatesAreReclaimable(ctx: Context, records: seq<Record>)
    requires Faithful(ctx, records)
    ensures TallySafe(records).totalBytes == TallySafe(records).reclaimableBytes
    ensures TallySafe(records).totalBytes <= Tally(records, Orphaned()).reclaimableBytes
    ensures TallySafe(records).count <= Tally(records, Orphaned()).count
  {
    hide Classify;
    if records != [] {
      var r := records[|records| - 1];
      CandidatesAreReclaimable(ctx, records[..|records| - 1]);
      if r.verdict.safeToDelete { SafeIsOrphaned(ctx, r.volume); }
    }
  }

  function SumOver(byClass: map<Class, Summary>, classes: seq<Class>): Summary
    requires forall c :: c in classes ==> c in byClass
  {
    if classes == [] then Nothing()
    else SumOver(byClass, classes[..|classes| - 1]).Plus(byClass[classes[|classes| - 1]])
  }

  /** The report one full pass over the volumes must produce. */
  ghost predicate Adds(ctx: Context, volumes: seq<Volume>, report: Report)
  {
    && |report.records| == |volumes|
    && (forall i :: 0 <= i < |volumes| ==> report.records[i] == Record(volumes[i], Classify(ctx, volumes[i])))
    && report.byClass.Keys == AllClasses()
    && (forall c :: c in AllClasses() ==> report.byClass[c] == Tally(report.records, {c}))
    && report.total == Tally(report.records, AllClasses())
    && report.retained == Tally(report.records, Retained())
    && report.fenced == Tally(report.records, {Fenced})
    && report.unowned == Tally(report.records, {NotOurs})
    && report.safe == TallySafe(report.records)
    && report.devHotel == TallyNamed(report.records)
  }

  /** The second pass: the report's totals. */
  method Totals(records: seq<Record>)
    returns (total: Summary, devHotel: Summary, safe: Summary, fenced: Summary, retained: Summary, unowned: Summary)
    ensures total == Tally(records, AllClasses()) && devHotel == TallyNamed(records) && safe == TallySafe(records)
    ensures fenced == Tally(records, {Fenced}) && unowned == Tally(records, {NotOurs})
    ensures retained == Tally(records, Retained())
  {
    total, devHotel, safe := Nothing(), Nothing(), Nothing();
    fenced, retained, unowned := Nothing(), Nothing(), Nothing();
    for n := 0 to |records|
      invariant total == Tally(records[..n], AllClasses())
      invariant retained == Tally(records[..n], Retained())
      invariant fenced == Tally(records[..n], {Fenced})
      invariant unowned == Tally(records[..n], {NotOurs})
      invariant safe == TallySafe(records[..n])
      invariant devHotel == TallyNamed(records[..n])
    {
      var r := records[n];
      assert records[..n + 1][..n] == records[..n];
      EveryClassListed(r.verdict.class_);
      total := total.Plus(One(r.volume));
      if r.volume.identity.purpose != External { devHotel := devHotel.Plus(One(r.volume)); }
      if r.verdict.safeToDelete { safe := safe.Plus(One(r.volume)); }
      if r.verdict.class_ == Fenced {
        fenced := fenced.Plus(One(r.volume));
      } else if r.verdict.class_ in Retained() {
        retained := retained.Plus(One(r.volume));
      } else if r.verdict.class_ == NotOurs {
        unowned := unowned.Plus(One(r.volume));
      }
    }
    assert records[..|records|] == records;
  }

  method Reconcile(ctx: Context, volumes: seq<Volume>) returns (report: Report)
    ensures Adds(ctx, volumes, report)
  {
    hide Classify;
    var records: seq<Record> := [];
    var byClass: map<Class, Summary> := map c | c in AllClasses() :: Nothing();
    for n := 0 to |volumes|
      invariant |records| == n
      invariant forall i :: 0 <= i < n ==> records[i] == Record(volumes[i], Classify(ctx, volumes[i]))
      invariant byClass.Keys == AllClasses()
      invariant forall c :: c in AllClasses() ==> byClass[c] == Tally(records, {c})
    {
      var verdict := Classify(ctx, volumes[n]);
      EveryClassListed(verdict.class_);
      ghost var before := records;
      records := records + [Record(volumes[n], verdict)];
      assert records[..n] == before;
      byClass := byClass[verdict.class_ := byClass[verdict.class_].Plus(One(volumes[n]))];
    }
    var total, devHotel, safe, fenced, retained, unowned := Totals(records);
    report := Report(total, devHotel, safe, fenced, retained, unowned, byClass, records);
  }

  /** Summing listed classes one by one is tallying their records at once. */
  lemma {:induction false} SumIsTally(
    records: seq<Record>, byClass: map<Class, Summary>, classes: seq<Class>, whole: set<Class>)
    requires forall c :: c in classes ==> c in byClass && byClass[c] == Tally(records, {c})
    requires Distinct(classes)
    requires forall c :: c in whole <==> c in classes
    ensures SumOver(byClass, classes) == Tally(records, whole)
  {
    hide Tally;
    if classes == [] {
      assert whole == {};
      TallyOfNone(records);
    } else {
      var init, last := classes[..|classes| - 1], classes[|classes| - 1];
      assert classes == init + [last];
      var rest := whole - {last};
      SumIsTally(records, byClass, init, rest);
      TallySplits(records, whole, rest, {last});
    }
  }

  lemma {:induction false} TallyOfNone(records: seq<Record>)
    ensures Tally(records, {}) == Nothing()
  {
    if records != [] { TallyOfNone(records[..|records| - 1]); }
  }

  function RetainedOrder(): seq<Class> { [RetainedCurrent, RetainedActive, RetainedSleeping, RetainedRecovery] }

  function OrphanedOrder(): seq<Class>
  {
    [OrphanedDeletedRoom, OrphanedStaleGeneration, OrphanedStaleSnapshot, OrphanedStaleDeps, OrphanedRemovedService]
  }

  /** Nothing is counted twice or left out: the class summaries add up to the totals. */
  lemma ClassesAddUp(ctx: Context, volumes: seq<Volume>, report: Report)
    requires Adds(ctx, volumes, report)
    ensures report.total.count == |volumes|
    ensures report.retained == SumOver(report.byClass, RetainedOrder())
    ensures report.fenced == report.byClass[Fenced] && report.unowned == report.byClass[NotOurs]
    ensures report.total ==
            report.retained.Plus(report.fenced).Plus(SumOver(report.byClass, OrphanedOrder())).Plus(report.unowned)
    ensures report.safe.totalBytes <= SumOver(report.byClass, OrphanedOrder()).reclaimableBytes
  {
    var rs := report.records;
    GroupsSplit();
    RetainedListed();
    OrphanedListed();
    assert Faithful(ctx, rs);
    hide Tally, TallySafe, TallyNamed, SumOver, Classify, Splits, Distinct, Retained, Orphaned, AllClasses,
         RetainedOrder, OrphanedOrder;
    TallyOfAll(rs);
    SumIsTally(rs, report.byClass, RetainedOrder(), Retained());
    SumIsTally(rs, report.byClass, OrphanedOrder(), Orphaned());
    TallySplits(rs, Retained() + {Fenced}, Retained(), {Fenced});
    TallySplits(rs, Retained() + {Fenced} + Orphaned(), Retained() + {Fenced}, Orphaned());
    TallySplits(rs, AllClasses(), Retained() + {Fenced} + Orphaned(), {NotOurs});
    CandidatesAreReclaimable(ctx, rs);
  }

  lemma GroupsSplit()
    ensures Splits(Retained() + {Fenced}, Retained(), {Fenced})
    ensures Splits(Retained() + {Fenced} + Orphaned(), Retained() + {Fenced}, Orphaned())
    ensures Splits(AllClasses(), Retained() + {Fenced} + Orphaned(), {NotOurs})
    ensures Fenced in AllClasses() && NotOurs in AllClasses()
  {
  }

  lemma RetainedListed()
    ensures forall c :: c in RetainedOrder() <==> c in Retained()
    ensures Retained() <= AllClasses() && Distinct(RetainedOrder())
  {
  }

  lemma OrphanedListed()
    ensures forall c :: c in OrphanedOrder() <==> c in Orphaned()
    ensures Orphaned() <= AllClasses() && Distinct(OrphanedOrder())
  {
  }

  ghost predicate Distinct(classes: seq<Class>)
  {
    forall i, j :: 0 <= i < j < |classes| ==> classes[i] != classes[j]
  }

  // ---- the pass ----

  /** What the guard finds when its turn under the Room lock comes. */
  datatype Fresh = Fresh(startedAt: int, observed: Option<Volume>, context: Context, removalFails: bool)

  /** A single-volume observation laid over the planned inventory; only the plan knows sizes. */
  function Overlay(planned: Volume, observed: Volume): Volume
  {
    observed.(name := planned.name, sizeBytes := planned.sizeBytes, sizeKnown := planned.sizeKnown)
  }

  /** A new look proves the candidate unneeded, in time, within the bytes left, and Docker lets it go. */
  ghost predicate Removable(candidate: Volume, remainingBytes: int, deadlineAt: int, seen: Fresh)
  {
    && candidate.identity.roomId.Some? && seen.startedAt < deadlineAt && seen.observed.Some?
    && ProvablyUnneeded(seen.context, Overlay(candidate, seen.observed.value))
    && candidate.sizeBytes <= remainingBytes && !seen.removalFails
  }

  /** Re-proves one candidate and removes it; `None` stands for an exception. */
  method RemoveCandidateIfStillSafe(candidate: Volume, remainingBytes: int, deadlineAt: int, seen: Fresh)
    returns (removedBytes: Option<nat>)
    ensures removedBytes.Some? <==> Removable(candidate, remainingBytes, deadlineAt, seen)
    ensures removedBytes.Some? ==> removedBytes.value == candidate.sizeBytes
  {
    hide Classify, ProvablyUnneeded;
    if candidate.identity.roomId.None? { return None; }
    if seen.startedAt >= deadlineAt { return None; }
    if seen.observed.None? { return None; }
    var v := Overlay(candidate, seen.observed.value);
    var current := Classify(seen.context, v);
    SafeIsUnneeded(seen.context, v);
    if current.safeToDelete { SafeIsOrphaned(seen.context, v); }
    if !current.safeToDelete || !v.sizeKnown || v.ownership == Unowned || !v.linksKnown || v.links > 0
       || v.sizeBytes > remainingBytes {
      return None;
    }
    if seen.removalFails { return None; }
    return Some(v.sizeBytes);
  }

  const MAX_SAFE_INTEGER := 9007199254740991
  const MAX_VOLUMES := 500
  const MAX_DEADLINE_MS := 60 * 60 * 1000

  /** `None` where the option is missing or not a number. */
  datatype Options = Options(
    dryRun: Option<bool>, maxVolumes: Option<int>, maxBytes: Option<int>, deadlineMs: Option<int>)

  predicate Bounded(o: Option<int>, limit: int)
  {
    o.Some? && 0 < o.value <= limit
  }

  predicate Accepts(opts: Options)
  {
    && Bounded(opts.maxVolumes, MAX_VOLUMES) && Bounded(opts.maxBytes, MAX_SAFE_INTEGER)
    && Bounded(opts.deadlineMs, MAX_DEADLINE_MS)
  }

  /** What became of one candidate, with the bytes a deletion gave back. */
  datatype Fate =
    | Deleted(bytes: nat) | Failed | Refused
    | OverAttempts | PastDeadline | OverBytes
  {
    predicate Attempted() { Deleted? || Failed? }

    function Kind(): Kind
    {
      if Deleted? then InDeleted else if Failed? || Refused? then InErrors else InSkipped
    }
  }

  /** The three lists of the result. */
  datatype Kind = InDeleted | InErrors | InSkipped

  datatype Outcome =
    | Rejected
    | Planned(report: Report)
    | Ran(report: Report, deleted: seq<string>, errors: seq<string>, skipped: seq<string>,
          reclaimedBytes: nat, attemptedCount: nat, deadlineReached: bool)

  function Candidates(records: seq<Record>): seq<Record>
  {
    if records == [] then []
    else
      var r := records[|records| - 1];
      Candidates(records[..|records| - 1]) + (if r.verdict.safeToDelete then [r] else [])
  }

  /** The loop's own last look at a candidate before it is attempted. */
  predicate LooksSafe(r: Record)
  {
    && r.verdict.safeToDelete && r.volume.linksKnown && !(r.volume.links > 0)
    && r.verdict.class_ !in Retained() + {Fenced, NotOurs}
  }

  function Attempts(fates: seq<Fate>): nat
  {
    if fates == [] then 0
    else Attempts(fates[..|fates| - 1]) + (if fates[|fates| - 1].Attempted() then 1 else 0)
  }

  function Reclaimed(fates: seq<Fate>): nat
  {
    if fates == [] then 0
    else Reclaimed(fates[..|fates| - 1]) + (if fates[|fates| - 1].Deleted? then fates[|fates| - 1].bytes else 0)
  }

  /** Names of the candidates whose fate puts them in one of the lists, in order. */
  function NamesWhere(cs: seq<Record>, fates: seq<Fate>, kind: Kind): seq<string>
    requires |fates| <= |cs|
  {
    if fates == [] then []
    else
      var n := |fates| - 1;
      NamesWhere(cs, fates[..n], kind) + (if fates[n].Kind() == kind then [cs[n].volume.name] else [])
  }

  /** What one candidate's fate says about the moment it was decided. */
  ghost predicate Justified(cs: seq<Record>, fates: seq<Fate>, i: nat, opts: Options, deadlineAt: int,
                            clock: nat -> int, seen: nat -> Fresh)
    requires i < |fates| <= |cs| && Accepts(opts)
  {
    var before := fates[..i];
    var room := opts.maxBytes.value - Reclaimed(before);
    match fates[i]
    case OverAttempts => Attempts(before) == opts.maxVolumes.value
    case PastDeadline => Attempts(before) < opts.maxVolumes.value && clock(i + 1) >= deadlineAt
    case OverBytes =>
      Attempts(before) < opts.maxVolumes.value && clock(i + 1) < deadlineAt && cs[i].volume.sizeBytes > room
    case Refused => !LooksSafe(cs[i])
    case Failed =>
      && clock(i + 1) < deadlineAt && Attempts(before) < opts.maxVolumes.value
      && cs[i].volume.sizeBytes <= room && !Removable(cs[i].volume, room, deadlineAt, seen(i))
    case Deleted(bytes) =>
      && clock(i + 1) < deadlineAt && Attempts(before) < opts.maxVolumes.value
      && bytes == cs[i].volume.sizeBytes <= room && Removable(cs[i].volume, room, deadlineAt, seen(i))
  }

  lemma {:induction false} CandidatesAreSafe(ctx: Context, records: seq<Record>)
    requires Faithful(ctx, records)
    ensures Faithful(ctx, Candidates(records))
    ensures forall r :: r in Candidates(records) ==> LooksSafe(r)
  {
    hide Classify;
    if records != [] {
      var r := records[|records| - 1];
      CandidatesAreSafe(ctx, records[..|records| - 1]);
      if r.verdict.safeToDelete { SafeIsOrphaned(ctx, r.volume); }
    }
  }

  ghost predicate AllJustified(cs: seq<Record>, fates: seq<Fate>, opts: Options, deadlineAt: int,
                               clock: nat -> int, seen: nat -> Fresh)
    requires |fates| <= |cs| && Accepts(opts)
  {
    forall i :: 0 <= i < |fates| ==> Justified(cs, fates, i, opts, deadlineAt, clock, seen)
  }

  lemma JustifiedStill(cs: seq<Record>, before: seq<Fate>, fate: Fate, opts: Options, deadlineAt: int,
                       clock: nat -> int, seen: nat -> Fresh)
    requires |before| < |cs| && Accepts(opts)
    requires AllJustified(cs, before, opts, deadlineAt, clock, seen)
    requires Justified(cs, before + [fate], |before|, opts, deadlineAt, clock, seen)
    ensures AllJustified(cs, before + [fate], opts, deadlineAt, clock, seen)
  {
    hide Removable, Attempts, Reclaimed;
    forall i | 0 <= i < |before| ensures Justified(cs, before + [fate], i, opts, deadlineAt, clock, seen) {
      assert (before + [fate])[..i] == before[..i];
      assert Justified(cs, before, i, opts, deadlineAt, clock, seen);
    }
  }

  /** The candidates of a report: its safe records, in order. */
  method Plan(records: seq<Record>) returns (cs: seq<Record>)
    ensures cs == Candidates(records)
  {
    cs := [];
    for n := 0 to |records|
      invariant cs == Candidates(records[..n])
    {
      assert records[..n + 1][..n] == records[..n];
      if records[n].verdict.safeToDelete { cs := cs + [records[n]]; }
    }
    assert records[..|records|] == records;
  }

  /** One turn of the loop: skip, refuse, or attempt the next candidate. */
  method Turn(
    ctx: Context, cs: seq<Record>, ghost before: seq<Fate>, n: nat, opts: Options, deadlineAt: int, clock: nat -> int,
    seen: nat -> Fresh, attemptedCount: nat, reclaimedBytes: nat)
    returns (fate: Fate)
    requires Accepts(opts) && n < |cs| && |before| == n && Faithful(ctx, cs) && cs[n].verdict.safeToDelete
    requires attemptedCount == Attempts(before) <= opts.maxVolumes.value
    requires reclaimedBytes == Reclaimed(before) <= opts.maxBytes.value
    ensures Justified(cs, before + [fate], n, opts, deadlineAt, clock, seen)
  {
    hide Classify, Removable;
    var candidate := cs[n].volume;
    if attemptedCount >= opts.maxVolumes.value {
      fate := OverAttempts;
    } else if clock(n + 1) >= deadlineAt {
      fate := PastDeadline;
    } else if !candidate.sizeKnown || reclaimedBytes + candidate.sizeBytes > opts.maxBytes.value {
      SafeIsOrphaned(ctx, candidate);
      fate := OverBytes;
    } else if !LooksSafe(cs[n]) {
      fate := Refused;
    } else {
      var removed := RemoveCandidateIfStillSafe(candidate, opts.maxBytes.value - reclaimedBytes, deadlineAt, seen(n));
      fate := if removed.Some? then Deleted(removed.value) else Failed;
    }
    assert (before + [fate])[..n] == before;
  }

  /** Attempts every candidate the bounds allow. `clock(i + 1)` is read before candidate i. */
  method Sweep(ctx: Context, cs: seq<Record>, opts: Options, clock: nat -> int, seen: nat -> Fresh)
    returns (deleted: seq<string>, errors: seq<string>, skipped: seq<string>,
             reclaimedBytes: nat, attemptedCount: nat, deadlineReached: bool, ghost fates: seq<Fate>)
    requires Accepts(opts)
    requires Faithful(ctx, cs) && forall i :: 0 <= i < |cs| ==> cs[i].verdict.safeToDelete
    ensures |fates| == |cs|
    ensures deleted == NamesWhere(cs, fates, InDeleted)
    ensures errors == NamesWhere(cs, fates, InErrors)
    ensures skipped == NamesWhere(cs, fates, InSkipped)
    ensures attemptedCount == Attempts(fates) && reclaimedBytes == Reclaimed(fates)
    ensures attemptedCount <= opts.maxVolumes.value && reclaimedBytes <= opts.maxBytes.value
    ensures |deleted| + |errors| + |skipped| == |cs|
    ensures deadlineReached <==> PastDeadline in fates
    ensures AllJustified(cs, fates, opts, clock(0) + opts.deadlineMs.value, clock, seen)
  {
    hide Classify, Removable, Justified, AllJustified, Faithful, NamesWhere, Attempts, Reclaimed;
    var deadlineAt := clock(0) + opts.deadlineMs.value;
    deleted, errors, skipped := [], [], [];
    reclaimedBytes, attemptedCount, deadlineReached := 0, 0, false;
    fates := [];
    NothingJustified(cs, opts, deadlineAt, clock, seen);
    NothingListed(cs);
    for n := 0 to |cs|
      invariant |fates| == n
      invariant deleted == NamesWhere(cs, fates, InDeleted)
      invariant errors == NamesWhere(cs, fates, InErrors)
      invariant skipped == NamesWhere(cs, fates, InSkipped)
      invariant attemptedCount == Attempts(fates) <= opts.maxVolumes.value
      invariant reclaimedBytes == Reclaimed(fates) <= opts.maxBytes.value
      invariant deadlineReached <==> PastDeadline in fates
      invariant |deleted| + |errors| + |skipped| == n
      invariant AllJustified(cs, fates, opts, deadlineAt, clock, seen)
    {
      var name := cs[n].volume.name;
      var fate := Turn(ctx, cs, fates, n, opts, deadlineAt, clock, seen, attemptedCount, reclaimedBytes);
      JustifiedStill(cs, fates, fate, opts, deadlineAt, clock, seen);
      WithinBounds(cs, fates, fate, opts, deadlineAt, clock, seen);
      OneMoreListed(cs, fates, fate);
      fates := fates + [fate];
      match fate {
        case Deleted(bytes) =>
          deleted, reclaimedBytes, attemptedCount := deleted + [name], reclaimedBytes + bytes, attemptedCount + 1;
        case Failed => errors, attemptedCount := errors + [name], attemptedCount + 1;
        case Refused => errors := errors + [name];
        case OverAttempts => skipped := skipped + [name];
        case PastDeadline => skipped, deadlineReached := skipped + [name], true;
        case OverBytes => skipped := skipped + [name];
      }
    }
  }

  lemma NothingListed(cs: seq<Record>)
    ensures forall kind :: NamesWhere(cs, [], kind) == []
    ensures Attempts([]) == 0 && Reclaimed([]) == 0
  {
  }

  lemma OneMoreListed(cs: seq<Record>, before: seq<Fate>, fate: Fate)
    requires |before| < |cs|
    ensures forall kind :: NamesWhere(cs, before + [fate], kind)
              == NamesWhere(cs, before, kind) + (if fate.Kind() == kind then [cs[|before|].volume.name] else [])
    ensures Attempts(before + [fate]) == Attempts(before) + (if fate.Attempted() then 1 else 0)
    ensures Reclaimed(before + [fate]) == Reclaimed(before) + (if fate.Deleted? then fate.bytes else 0)
  {
    assert (before + [fate])[..|before|] == before;
  }

  lemma NothingJustified(cs: seq<Record>, opts: Options, deadlineAt: int, clock: nat -> int, seen: nat -> Fresh)
    requires Accepts(opts)
    ensures AllJustified(cs, [], opts, deadlineAt, clock, seen)
  {
  }

  lemma WithinBounds(cs: seq<Record>, before: seq<Fate>, fate: Fate, opts: Options, deadlineAt: int,
                     clock: nat -> int, seen: nat -> Fresh)
    requires |before| < |cs| && Accepts(opts)
    requires Attempts(before) <= opts.maxVolumes.value && Reclaimed(before) <= opts.maxBytes.value
    requires Justified(cs, before + [fate], |before|, opts, deadlineAt, clock, seen)
    ensures Attempts(before + [fate]) <= opts.maxVolumes.value && Reclaimed(before + [fate]) <= opts.maxBytes.value
  {
    hide Removable, LooksSafe;
    assert (before + [fate])[..|before|] == before;
  }

  ghost predicate Swept(
    cs: seq<Record>, result: Outcome, fates: seq<Fate>, opts: Options, clock: nat -> int, seen: nat -> Fresh)
    requires Accepts(opts) && result.Ran?
  {
    && |fates| == |cs|
    && result.deleted == NamesWhere(cs, fates, InDeleted)
    && result.errors == NamesWhere(cs, fates, InErrors)
    && result.skipped == NamesWhere(cs, fates, InSkipped)
    && result.attemptedCount == Attempts(fates) <= opts.maxVolumes.value
    && result.reclaimedBytes == Reclaimed(fates) <= opts.maxBytes.value
    && (result.deadlineReached <==> PastDeadline in fates)
    && AllJustified(cs, fates, opts, clock(0) + opts.deadlineMs.value, clock, seen)
    && Refused !in fates
  }

  /** The whole pass: a dry run unless told otherwise, and a real run only within explicit bounds. */
  method ExecuteVolumeGc(ctx: Context, volumes: seq<Volume>, opts: Options, clock: nat -> int, seen: nat -> Fresh)
    returns (result: Outcome, ghost fates: seq<Fate>)
    ensures result.Planned? <==> opts.dryRun != Some(false)
    ensures result.Rejected? <==> opts.dryRun == Some(false) && !Accepts(opts)
    ensures !result.Rejected? ==> Adds(ctx, volumes, result.report)
    ensures result.Ran? ==> Swept(Candidates(result.report.records), result, fates, opts, clock, seen)
  {
    hide Classify, Removable, AllJustified, NamesWhere, Attempts, Reclaimed, Candidates, Tally, TallySafe, TallyNamed;
    var report := Reconcile(ctx, volumes);
    fates := [];
    if opts.dryRun != Some(false) { return Planned(report), fates; }
    if !Accepts(opts) { return Rejected, fates; }
    var cs := Plan(report.records);
    CandidatesAreSafe(ctx, report.records);
    assert forall i :: 0 <= i < |cs| ==> LooksSafe(cs[i]);
    var deleted, errors, skipped, reclaimed, attempted, late;
    deleted, errors, skipped, reclaimed, attempted, late, fates := Sweep(ctx, cs, opts, clock, seen);
    result := Ran(report, deleted, errors, skipped, reclaimed, attempted, late);
    NeverRefused(cs, fates, opts, clock(0) + opts.deadlineMs.value, clock, seen);
  }

  lemma NeverRefused(
    cs: seq<Record>, fates: seq<Fate>, opts: Options, deadlineAt: int, clock: nat -> int, seen: nat -> Fresh)
    requires |fates| == |cs| && Accepts(opts)
    requires forall r :: r in cs ==> LooksSafe(r)
    requires AllJustified(cs, fates, opts, deadlineAt, clock, seen)
    ensures Refused !in fates
  {
    hide LooksSafe, Removable;
    forall i | 0 <= i < |fates| ensures fates[i] != Refused {
      assert Justified(cs, fates, i, opts, deadlineAt, clock, seen) && LooksSafe(cs[i]);
    }
  }

  /** How often a name stands in a list. */
  function Times(names: seq<string>, name: string): nat
  {
    multiset(names)[name]
  }

  /** Every candidate is deleted, reported in error or skipped, and in exactly one of the three lists. */
  lemma {:induction false} EveryCandidateAccounted(cs: seq<Record>, fates: seq<Fate>, name: string)
    requires |fates| <= |cs|
    ensures Times(NamesWhere(cs, fates, InDeleted), name) + Times(NamesWhere(cs, fates, InErrors), name)
            + Times(NamesWhere(cs, fates, InSkipped), name) == Times(Names(cs[..|fates|]), name)
  {
    if fates != [] {
      var n := |fates| - 1;
      EveryCandidateAccounted(cs, fates[..n], name);
      NameAdded(cs, fates, InDeleted, name);
      NameAdded(cs, fates, InErrors, name);
      NameAdded(cs, fates, InSkipped, name);
      var named := cs[..n + 1];
      assert named[..n] == cs[..n] && Names(named) == Names(cs[..n]) + [cs[n].volume.name];
      assert Times(Names(named), name) == Times(Names(cs[..n]), name) + (if cs[n].volume.name == name then 1 else 0);
      hide Names, NamesWhere, Times;
    }
  }

  lemma NameAdded(cs: seq<Record>, fates: seq<Fate>, kind: Kind, name: string)
    requires 0 < |fates| <= |cs|
    ensures var n := |fates| - 1;
            Times(NamesWhere(cs, fates, kind), name) == Times(NamesWhere(cs, fates[..n], kind), name)
            + (if fates[n].Kind() == kind && cs[n].volume.name == name then 1 else 0)
  {
  }

  function Names(records: seq<Record>): seq<string>
  {
    if records == [] then [] else Names(records[..|records| - 1]) + [records[|records| - 1].volume.name]
  }

  /** The bounds, the clock and what each new look finds decide every fate: there is one justified outcome. */
  lemma {:induction false} FatesAreDecided(cs: seq<Record>, a: seq<Fate>, b: seq<Fate>, opts: Options, deadlineAt: int,
                                           clock: nat -> int, seen: nat -> Fresh)
    requires |a| == |b| <= |cs| && Accepts(opts) && forall i :: 0 <= i < |cs| ==> LooksSafe(cs[i])
    requires AllJustified(cs, a, opts, deadlineAt, clock, seen) && AllJustified(cs, b, opts, deadlineAt, clock, seen)
    ensures a == b
  {
    hide Removable, LooksSafe;
    if a != [] {
      var n := |a| - 1;
      forall i | 0 <= i < n
        ensures Justified(cs, a[..n], i, opts, deadlineAt, clock, seen)
        ensures Justified(cs, b[..n], i, opts, deadlineAt, clock, seen)
      {
        assert a[..n][..i] == a[..i] && b[..n][..i] == b[..i];
        assert Justified(cs, a, i, opts, deadlineAt, clock, seen) && Justified(cs, b, i, opts, deadlineAt, clock, seen);
      }
      FatesAreDecided(cs, a[..n], b[..n], opts, deadlineAt, clock, seen);
      assert Justified(cs, a, n, opts, deadlineAt, clock, seen) && Justified(cs, b, n, opts, deadlineAt, clock, seen);
      assert a == a[..n] + [a[n]] && b == b[..n] + [b[n]];
    }
  }
}
