/**
 * The Android locale matrix: a durable intent recorded before every locale
 * setter, a setter whose outcome may stay unknown, an outside actor, crashes,
 * and the recovery or abandonment of what a crash left behind.
 */
module LocaleMatrix {

  import opened Wrappers

  /** An entry of a locale list: a locale, or the marker by which one operation knows its own list. */
  datatype Tag = Locale(name: string) | Marker(name: string, operation: int)

  type Tags = seq<Tag>

  predicate BearsMarker(tags: Tags)
  {
    exists i :: 0 <= i < |tags| && tags[i].Marker?
  }

  function MarkedAttempt(locale: string, operation: int): Tags
  {
    [Locale(locale), Marker(locale, operation)]
  }

  /** The flags as stored; older versions of the program left some of them out. */
  datatype StoredFlags = StoredFlags(version: int, dispatched: Option<bool>, owned: Option<bool>)

  datatype Intent = Intent(
    operation: int, original: Tags, expected: Tags, attempted: Tags, ownershipTag: Option<Tag>, flags: StoredFlags)

  datatype Flags = Flags(dispatched: bool, owned: bool)

  /** Records from before the dispatch flag existed count as dispatched. */
  function ParseFlags(f: StoredFlags): Option<Flags>
  {
    if f.version == 1 && f.dispatched.None? && f.owned.None? then Some(Flags(true, false))
    else if (f.version == 2 || f.version == 3) && f.dispatched.None? && f.owned.Some? then
      Some(Flags(true, f.owned.value))
    else if f.version == 4 && f.dispatched.Some? && f.owned.Some? && !(f.owned.value && !f.dispatched.value) then
      Some(Flags(f.dispatched.value, f.owned.value))
    else None
  }

  function Written(dispatched: bool, owned: bool): StoredFlags
  {
    StoredFlags(4, Some(dispatched), Some(owned))
  }

  predicate Dispatched(p: Intent)
  {
    ParseFlags(p.flags).Some? && ParseFlags(p.flags).value.dispatched
  }

  predicate Owned(p: Intent)
  {
    ParseFlags(p.flags).Some? && ParseFlags(p.flags).value.owned
  }

  predicate HasExactMarker(p: Intent)
  {
    && p.ownershipTag.Some? && |p.attempted| == 2 && p.attempted[1] == p.ownershipTag.value
    && p.attempted[0].Locale? && p.ownershipTag.value == Marker(p.attempted[0].name, p.operation)
  }

  /** May DevHotel claim what the device shows? */
  predicate OwnsCurrent(p: Intent, current: Tags)
  {
    || (BearsMarker(p.expected) && current == p.expected)
    || ((Owned(p) || Dispatched(p)) && HasExactMarker(p) && current == p.attempted)
  }

  // ---- state ----

  datatype Writer = Outsider | DevHotel

  datatype Device = Device(tags: Tags, writer: Writer)

  /** A started setter: what it will write, what the last look before it saw, the original on record, and the last
      write of the locale since that look. */
  datatype Flight = Flight(tags: Tags, seen: Tags, original: Tags, rival: Option<Tags>)

  /** The setter still waited for, and those whose caller went on without knowing what became of them. */
  datatype Setters = Setters(awaited: Option<Flight>, strays: seq<Flight>)

  datatype Control =
    | Idle
    | Snapped(original: Tags)
    | Prepared(held: Intent, forward: bool)
    | Checked(held: Intent, forward: bool, seen: Tags)
    | Waiting(held: Intent, forward: bool)
    | Acked(held: Intent, forward: bool)
    | Applied(held: Intent)
    | Restoring(held: Intent)
    | Seen(held: Intent, value: Tags)
    | Proven(held: Intent)
    | Judging(held: Intent, value: Tags, since: nat)

  /** One landed setter, in time or late: the locale it replaced, the original on record, and a write that raced it. */
  datatype Overwrite = Overwrite(before: Tags, original: Tags, rival: Option<Tags>)

  /** What the proofs remember and the program does not; the last two count the setters that landed after their
      caller went on, and those of them that wrote a marked list. */
  datatype History = History(
    rival: Option<Tags>, restoredTo: Option<Tags>, overwrites: seq<Overwrite>, late: nat, lateMarked: nat)

  datatype State = State(device: Device, intent: Option<Intent>, setters: Setters, control: Control, past: History)

  datatype Event =
    | OutsideWrite(tags: Tags)
    | Crash
    | Land
    | Drop
    | LandLate(i: nat)
    | DropLate(i: nat)
    | Snapshot
    | Insert(locale: string, operation: int)
    | PreCheck
    | Dispatch
    | Settle(acknowledged: bool)
    | PostCheck
    | Advance(locale: string, operation: int)
    | GiveUp
    | ReadBack
    | Recover
    | Restore(operation: int)
    | Confirm
    | Release
    | Fail
    | Examine
    | Judge

  /** What the world does: outsiders never write marker tags, and a setter lands at most once, however late. */
  predicate EnabledOutside(s: State, e: Event)
  {
    match e
    case OutsideWrite(tags) => !BearsMarker(tags)
    case Crash => true
    case Land => s.setters.awaited.Some?
    case Drop => s.setters.awaited.Some?
    case LandLate(i) => i < |s.setters.strays|
    case DropLate(i) => i < |s.setters.strays|
    case _ => false
  }

  predicate EnabledForward(s: State, e: Event)
  {
    match e
    case Snapshot => s.control.Idle? && s.intent.None?
    case Insert(_, _) => s.control.Snapped?
    case PreCheck => s.control.Prepared?
    case Dispatch => s.control.Checked?
    case Settle(_) => s.control.Waiting?
    case PostCheck => s.control.Acked? && s.control.forward
    case Advance(_, _) => s.control.Applied? && s.device.tags == s.control.held.attempted
    case GiveUp => s.control.Acked? || s.control.Applied?
    case _ => false
  }

  predicate EnabledBack(s: State, e: Event)
  {
    match e
    case ReadBack => s.control.Restoring?
    case Recover => s.control.Idle? && s.intent.Some? && ParseFlags(s.intent.value.flags).Some?
    case Restore(_) => s.control.Seen?
    case Confirm =>
      || (s.control.Seen? && s.control.value == s.control.held.original)
      || (s.control.Prepared? && !s.control.forward) || (s.control.Acked? && !s.control.forward)
    case Release => s.control.Proven?
    case Fail => !s.control.Waiting?
    case Examine =>
      && s.control.Idle? && s.intent.Some? && ParseFlags(s.intent.value.flags).Some?
      && !Dispatched(s.intent.value) && !Owned(s.intent.value)
    case Judge => s.control.Judging?
    case _ => false
  }

  function Without(strays: seq<Flight>, i: nat): seq<Flight>
    requires i < |strays|
  {
    strays[..i] + strays[i + 1..]
  }

  function Outrun(f: Flight, tags: Tags): Flight { f.(rival := Some(tags)) }

  /** A write of the locale, as every setter still out will find it. */
  function Raced(w: Setters, tags: Tags): Setters
  {
    Setters(if w.awaited.Some? then Some(Outrun(w.awaited.value, tags)) else None,
            seq(|w.strays|, i requires 0 <= i < |w.strays| => Outrun(w.strays[i], tags)))
  }

  function ApplyLand(s: State): State
    requires s.setters.awaited.Some?
  {
    var f := s.setters.awaited.value;
    s.(device := Device(f.tags, DevHotel), setters := Raced(s.setters.(awaited := None), f.tags),
       past := s.past.(overwrites := s.past.overwrites + [Overwrite(s.device.tags, f.original, f.rival)]))
  }

  /** A setter nobody waits for any more lands all the same; to every other setter it is one more rival. */
  function ApplyLandLate(s: State, i: nat): State
    requires i < |s.setters.strays|
  {
    var f := s.setters.strays[i];
    s.(device := Device(f.tags, DevHotel),
       setters := Raced(s.setters.(strays := Without(s.setters.strays, i)), f.tags),
       past := s.past.(overwrites := s.past.overwrites + [Overwrite(s.device.tags, f.original, f.rival)],
                       rival := Some(f.tags), late := s.past.late + 1,
                       lateMarked := s.past.lateMarked + if BearsMarker(f.tags) then 1 else 0))
  }

  function ApplyOutside(s: State, e: Event): State
    requires EnabledOutside(s, e)
  {
    match e
    case OutsideWrite(tags) =>
      s.(device := Device(tags, Outsider), setters := Raced(s.setters, tags), past := s.past.(rival := Some(tags)))
    case Crash => s.(control := Idle)
    case Land => ApplyLand(s)
    case Drop => s.(setters := s.setters.(awaited := None))
    case LandLate(i) => ApplyLandLate(s, i)
    case DropLate(i) => s.(setters := s.setters.(strays := Without(s.setters.strays, i)))
  }

  /** Going on without the outcome of the setter still out, if there is one. */
  function GoOn(w: Setters): Setters
  {
    if w.awaited.Some? then Setters(None, w.strays + [w.awaited.value]) else w
  }

  /** Compare-and-set of the durable intent; on a mismatch the controller stops and leaves it. */
  function Put(s: State, held: Intent, next: Intent, control: Control): State
  {
    if s.intent == Some(held) then s.(intent := Some(next), control := control) else s.(control := Idle)
  }

  function ApplyInsert(s: State, locale: string, operation: int): State
    requires s.control.Snapped?
  {
    var o, attempt := s.control.original, MarkedAttempt(locale, operation);
    var intent := Intent(operation, o, o, attempt, Some(attempt[1]), Written(false, false));
    if s.intent.None? then s.(intent := Some(intent), control := Prepared(intent, true)) else s.(control := Idle)
  }

  /** The last look before a setter: the device must show what this stage expects. */
  function ApplyPreCheck(s: State): State
    requires s.control.Prepared?
  {
    var held, shown := s.control.held, s.device.tags;
    if shown == held.expected && shown != held.attempted then
      s.(control := Checked(held, s.control.forward, shown), past := s.past.(rival := None))
    else s.(control := Idle)
  }

  /** The dispatch is durable before the setter starts. */
  function ApplyDispatch(s: State): State
    requires s.control.Checked?
  {
    var held := s.control.held;
    var next := held.(flags := Written(true, Owned(held)));
    if s.intent == Some(held) then
      s.(intent := Some(next), control := Waiting(next, s.control.forward),
         setters := GoOn(s.setters).(awaited :=
           Some(Flight(held.attempted, s.control.seen, held.original, s.past.rival))))
    else s.(control := Idle)
  }

  /** The setter's call returned: acknowledged, or failed or timed out with its outcome unknown. */
  function ApplySettle(s: State, acknowledged: bool): State
    requires s.control.Waiting?
  {
    var held, on := s.control.held, s.(setters := GoOn(s.setters));
    if acknowledged then
      var next := held.(flags := Written(true, true));
      Put(on, held, next, Acked(next, s.control.forward))
    else on.(control := if s.control.forward then Restoring(held) else Idle)
  }

  function ApplyForward(s: State, e: Event): State
    requires EnabledForward(s, e)
  {
    match e
    case Snapshot => s.(control := Snapped(s.device.tags), setters := GoOn(s.setters))
    case Insert(locale, operation) => ApplyInsert(s, locale, operation)
    case PreCheck => ApplyPreCheck(s)
    case Dispatch => ApplyDispatch(s)
    case Settle(acknowledged) => ApplySettle(s, acknowledged)
    case PostCheck =>
      var held := s.control.held;
      s.(control := if s.device.tags == held.attempted then Applied(held) else Restoring(held))
    case Advance(locale, operation) =>
      var held, attempt := s.control.held, MarkedAttempt(locale, operation);
      var next :=
        Intent(operation, held.original, held.attempted, attempt, Some(attempt[1]), Written(false, false));
      Put(s, held, next, Prepared(next, true))
    case GiveUp => s.(control := Restoring(s.control.held))
  }

  function ApplyRestore(s: State, operation: int): State
    requires s.control.Seen?
  {
    var held, v := s.control.held, s.control.value;
    if v != held.original && OwnsCurrent(held, v) then
      var next := Intent(operation, held.original, v, held.original, None, Written(false, false));
      Put(s, held, next, Prepared(next, false))
    else s.(control := Idle)
  }

  /** An intent nobody acted on may go only if the device shows something DevHotel could not have written. */
  predicate MayAbandon(p: Intent, v: Tags)
  {
    && !Dispatched(p) && !Owned(p)
    && v != p.original && v != p.expected && v != p.attempted && !BearsMarker(v)
  }

  function Delete(s: State, held: Intent): State
  {
    if s.intent == Some(held) then
      s.(intent := None, control := Idle, past := s.past.(restoredTo := Some(held.original)))
    else s.(control := Idle)
  }

  function ApplyBack(s: State, e: Event): State
    requires EnabledBack(s, e)
  {
    match e
    case ReadBack => s.(control := Seen(s.control.held, s.device.tags))
    case Recover =>
      var held := s.intent.value;
      s.(control := if s.device.tags == held.original then Proven(held) else Seen(held, s.device.tags),
         setters := GoOn(s.setters))
    case Restore(operation) => ApplyRestore(s, operation)
    case Confirm => s.(control := if s.device.tags == s.control.held.original then Proven(s.control.held) else Idle)
    case Release => Delete(s, s.control.held)
    case Fail => s.(control := Idle)
    case Examine => s.(control := Judging(s.intent.value, s.device.tags, s.past.lateMarked), setters := GoOn(s.setters))
    case Judge => if MayAbandon(s.control.held, s.control.value) then Delete(s, s.control.held) else s.(control := Idle)
  }

  predicate Enabled(s: State, e: Event)
  {
    EnabledOutside(s, e) || EnabledForward(s, e) || EnabledBack(s, e)
  }

  function Apply(s: State, e: Event): State
    requires Enabled(s, e)
  {
    if EnabledOutside(s, e) then ApplyOutside(s, e)
    else if EnabledForward(s, e) then ApplyForward(s, e)
    else ApplyBack(s, e)
  }

  ghost predicate Leads(s: State, events: seq<Event>, t: State)
  {
    if events == [] then s == t
    else
      var n := |events| - 1;
      exists m :: Leads(s, events[..n], m) && Enabled(m, events[n]) && t == Apply(m, events[n])
  }

  // ---- invariants ----

  predicate Holds(c: Control)
  {
    !c.Idle? && !c.Snapped?
  }

  predicate Forward(c: Control)
  {
    c.Applied? || ((c.Prepared? || c.Checked? || c.Waiting? || c.Acked?) && c.forward)
  }

  /** A stage moves from the original or an own marked list to a new marked list, or back to the original; records of
      older versions may attempt an unmarked list. */
  predicate WellFormed(p: Intent)
  {
    && ParseFlags(p.flags).Some?
    && if p.ownershipTag.Some? then HasExactMarker(p) else !BearsMarker(p.attempted) || p.attempted == p.original
  }

  predicate Steps(p: Intent)
  {
    && p.flags.version == 4 && (p.expected == p.original || BearsMarker(p.expected))
    && (p.ownershipTag.None? ==> p.attempted == p.original)
  }

  ghost predicate IntentHolds(s: State)
  {
    && (s.intent.Some? ==> WellFormed(s.intent.value))
    && (Holds(s.control) ==> s.intent == Some(s.control.held))
    && (s.control.Snapped? ==> s.intent.None?)
    && (s.control.Prepared? || s.control.Checked? ==> Steps(s.control.held))
    && (s.control.Prepared? || s.control.Checked? || s.control.Judging? ==> !Dispatched(s.control.held))
    && (s.control.Waiting? || s.control.Acked? || s.control.Applied? ==> Dispatched(s.control.held))
    && (Forward(s.control) ==> s.control.held.ownershipTag.Some?)
  }

  /** What a setter in flight, or about to fly, last saw was the original or a marked list. */
  predicate Looked(shown: Tags, seen: Tags, original: Tags, rival: Option<Tags>)
  {
    && (seen == original || BearsMarker(seen))
    && shown == (if rival.Some? then rival.value else seen)
  }

  predicate Accounted(shown: Tags, f: Flight)
  {
    Looked(shown, f.seen, f.original, f.rival)
  }

  ghost predicate StraysHold(s: State)
  {
    forall i :: 0 <= i < |s.setters.strays| ==> Accounted(s.device.tags, s.setters.strays[i])
  }

  /** The setter waited for is on record, and nothing else moves until its caller goes on. */
  ghost predicate FlightHolds(s: State)
  {
    && (s.setters.awaited.Some? ==>
          var f := s.setters.awaited.value;
          && s.intent.Some? && Dispatched(s.intent.value)
          && s.intent.value.attempted == f.tags && s.intent.value.original == f.original
          && (s.control.Idle? || s.control.Waiting?) && Accounted(s.device.tags, f))
    && (s.control.Checked? ==> Looked(s.device.tags, s.control.seen, s.control.held.original, s.past.rival))
  }

  /** What the controller last read still bounds the marked lists the device can show. */
  predicate ReadHolds(s: State)
  {
    match s.control
    case Snapped(original) => !BearsMarker(original)
    case Applied(held) => BearsMarker(s.device.tags) ==> s.device.tags == held.attempted
    case Seen(_, value) => BearsMarker(s.device.tags) ==> s.device.tags == value
    case Proven(_) => !BearsMarker(s.device.tags)
    case _ => true
  }

  /** A marked list that came up after an abandonment looked is one that landed late since. */
  predicate JudgeHolds(s: State)
  {
    s.control.Judging? ==>
      && s.control.since <= s.past.lateMarked
      && (BearsMarker(s.device.tags) ==> s.device.tags == s.control.value || s.control.since < s.past.lateMarked)
  }

  /** Unless a marked list landed late, whatever marked list DevHotel wrote is on record until it is gone. */
  ghost predicate MarkHolds(s: State)
  {
    s.past.lateMarked == 0 ==>
      && (BearsMarker(s.device.tags) ==> s.intent.Some? && OwnsCurrent(s.intent.value, s.device.tags))
      && (s.intent.Some? ==> !BearsMarker(s.intent.value.original)) && ReadHolds(s)
  }

  /** Unless something landed late, an own list on the device is the one last read, or one the record names. */
  ghost predicate WriterHolds(s: State)
  {
    s.past.late == 0 && s.device.writer.DevHotel? ==>
      && Named(s.intent, s.past.restoredTo, s.device.tags)
      && match s.control
         case Snapped(original) => s.device.tags == original
         case Seen(_, value) => s.device.tags == value
         case Proven(held) => s.device.tags == held.original
         case Judging(_, value, _) => s.device.tags == value
         case _ => true
  }

  predicate Named(intent: Option<Intent>, restoredTo: Option<Tags>, tags: Tags)
  {
    if intent.None? then restoredTo == Some(tags)
    else BearsMarker(tags) || tags == intent.value.original || tags == intent.value.attempted
  }

  /** An overwritten locale was somebody else's exactly when another unmarked value won the race. */
  ghost predicate Explained(o: Overwrite)
  {
    o.before != o.original && !BearsMarker(o.before)
    <==> o.rival.Some? && o.rival.value != o.original && !BearsMarker(o.rival.value)
  }

  ghost predicate PastHolds(s: State)
  {
    && s.past.lateMarked <= s.past.late
    && (forall i :: 0 <= i < |s.past.overwrites| ==> Explained(s.past.overwrites[i])) && JudgeHolds(s)
  }

  ghost predicate Inv(s: State)
  {
    IntentHolds(s) && FlightHolds(s) && StraysHold(s) && MarkHolds(s) && WriterHolds(s) && PastHolds(s)
  }

  /** No intent, no setter, and a locale DevHotel never touched. */
  predicate Untouched(s: State)
  {
    s.intent.None? && s.setters.awaited.None? && s.device.writer.Outsider? && !BearsMarker(s.device.tags)
  }

  /** A record that an older version of the program left when it crashed, perhaps with its setter still out. */
  predicate Inherited(s: State)
  {
    && s.intent.Some? && s.intent.value.flags.version < 4 && WellFormed(s.intent.value)
    && var p := s.intent.value;
       && !BearsMarker(p.original)
       && (BearsMarker(s.device.tags) ==>
             s.device.tags == p.expected || (p.ownershipTag.Some? && s.device.tags == p.attempted))
       && (s.device.writer.DevHotel? ==>
             BearsMarker(s.device.tags) || s.device.tags == p.original || s.device.tags == p.attempted)
       && (s.setters.awaited.Some? ==>
             && s.setters.awaited.value == Flight(p.attempted, s.device.tags, p.original, None)
             && (s.device.tags == p.original || BearsMarker(s.device.tags)))
  }

  ghost predicate Initial(s: State)
  {
    && s.control.Idle? && s.setters.strays == [] && s.past == History(None, None, [], 0, 0)
    && (Untouched(s) || Inherited(s))
  }

  lemma MarkedBears(locale: string, operation: int)
    ensures BearsMarker(MarkedAttempt(locale, operation))
  {
    assert MarkedAttempt(locale, operation)[1].Marker?;
  }

  lemma ExactBears(p: Intent)
    requires HasExactMarker(p)
    ensures BearsMarker(p.attempted)
  {
    assert p.attempted[1].Marker?;
  }

  /** Whatever is written, every setter still out has been raced by it. */
  lemma WriteRaces(s: State, t: State, w: Setters, tags: Tags)
    requires StraysHold(s) && t.device.tags == tags && t.setters == Raced(w, tags)
    requires forall i :: 0 <= i < |w.strays| ==> w.strays[i] in s.setters.strays
    ensures StraysHold(t)
  {
    hide BearsMarker;
  }

  lemma OutsideKeepsStrays(s: State, e: Event)
    requires EnabledOutside(s, e) && StraysHold(s)
    ensures StraysHold(ApplyOutside(s, e))
  {
    hide BearsMarker, Accounted;
    var t := ApplyOutside(s, e);
    match e
    case OutsideWrite(tags) => WriteRaces(s, t, s.setters, tags);
    case Land => WriteRaces(s, t, s.setters.(awaited := None), s.setters.awaited.value.tags);
    case LandLate(i) => WriteRaces(s, t, s.setters.(strays := Without(s.setters.strays, i)), s.setters.strays[i].tags);
    case _ =>
  }

  lemma OutsideKeeps(s: State, e: Event)
    requires EnabledOutside(s, e) && Inv(s)
    ensures Inv(ApplyOutside(s, e))
  {
    OutsideKeepsStrays(s, e);
    hide BearsMarker, ParseFlags, Without;
    if e.LandLate? { assert Accounted(s.device.tags, s.setters.strays[e.i]); }
    hide StraysHold;
    if s.intent.Some? && HasExactMarker(s.intent.value) { ExactBears(s.intent.value); }
  }

  lemma DispatchKeeps(s: State)
    requires s.control.Checked? && Inv(s)
    ensures Inv(ApplyDispatch(s))
  {
    hide BearsMarker;
    if HasExactMarker(s.intent.value) { ExactBears(s.intent.value); }
  }

  lemma SettleKeeps(s: State, acknowledged: bool)
    requires s.control.Waiting? && Inv(s)
    ensures Inv(ApplySettle(s, acknowledged))
  {
    hide BearsMarker;
    if HasExactMarker(s.intent.value) { ExactBears(s.intent.value); }
  }

  lemma ForwardKeeps(s: State, e: Event)
    requires EnabledForward(s, e) && !e.Dispatch? && !e.Settle? && Inv(s)
    ensures Inv(ApplyForward(s, e))
  {
    hide BearsMarker, ApplyDispatch, ApplySettle;
    if s.intent.Some? && HasExactMarker(s.intent.value) { ExactBears(s.intent.value); }
    if e.Insert? || e.Advance? { MarkedBears(e.locale, e.operation); }
  }

  lemma BackKeeps(s: State, e: Event)
    requires EnabledBack(s, e) && Inv(s)
    ensures Inv(ApplyBack(s, e))
  {
    hide BearsMarker;
    if s.intent.Some? && HasExactMarker(s.intent.value) { ExactBears(s.intent.value); }
    var t := ApplyBack(s, e);
    assert IntentHolds(t) && FlightHolds(t);
    assert MarkHolds(t) && WriterHolds(t);
  }

  /** No step of the controller, the device, an outsider, a late setter or a crash breaks any of it. */
  lemma StepKeeps(s: State, e: Event)
    requires Enabled(s, e) && Inv(s)
    ensures Inv(Apply(s, e))
  {
    hide Inv, EnabledOutside, EnabledBack, ApplyOutside, ApplyBack, ApplyDispatch, ApplySettle;
    if EnabledOutside(s, e) {
      OutsideKeeps(s, e);
    } else if EnabledForward(s, e) {
      match e
      case Dispatch => DispatchKeeps(s);
      case Settle(acknowledged) => SettleKeeps(s, acknowledged);
      case _ => ForwardKeeps(s, e);
    } else {
      BackKeeps(s, e);
    }
  }

  lemma InitialHolds(s: State)
    requires Initial(s)
    ensures Inv(s)
  {
    hide BearsMarker;
    if s.intent.Some? && HasExactMarker(s.intent.value) { ExactBears(s.intent.value); }
  }

  lemma {:induction false} RunKeeps(s: State, events: seq<Event>, t: State)
    requires Inv(s) && Leads(s, events, t)
    ensures Inv(t)
  {
    hide Inv, Enabled, Apply;
    if events != [] {
      var n := |events| - 1;
      var m :| Leads(s, events[..n], m) && Enabled(m, events[n]) && t == Apply(m, events[n]);
      RunKeeps(s, events[..n], m);
      StepKeeps(m, events[n]);
    }
  }

  // ---- what every run keeps ----

  /** A marked locale on the device is claimed by a durable intent that knows the way back. */
  ghost predicate Recoverable(t: State)
  {
    BearsMarker(t.device.tags) ==>
      t.intent.Some? && OwnsCurrent(t.intent.value, t.device.tags) && !BearsMarker(t.intent.value.original)
  }

  /** Without an intent the device shows what a finished run put back, or what an outsider wrote. */
  ghost predicate Clean(t: State)
  {
    t.intent.None? ==>
      !BearsMarker(t.device.tags) && (t.device.writer.Outsider? || t.past.restoredTo == Some(t.device.tags))
  }

  /** Unless a setter wrote a marked list after its caller went on, every marked locale can be recovered. */
  lemma MarkedIsRecoverable(s: State, events: seq<Event>, t: State)
    requires Initial(s) && Leads(s, events, t) && t.past.lateMarked == 0
    ensures Recoverable(t)
  {
    InitialHolds(s);
    RunKeeps(s, events, t);
  }

  /** Unless a setter landed after its caller went on, a device without an intent shows what a finished run put
      back, or what an outsider wrote. */
  lemma UnheldIsClean(s: State, events: seq<Event>, t: State)
    requires Initial(s) && Leads(s, events, t) && t.intent.None? && t.past.late == 0
    ensures Clean(t) && t.setters.awaited.None?
  {
    InitialHolds(s);
    RunKeeps(s, events, t);
  }

  /** A stage is owned only after it was dispatched, and a setter is waited for only in a dispatched stage. */
  lemma DispatchComesFirst(s: State, events: seq<Event>, t: State)
    requires Initial(s) && Leads(s, events, t)
    ensures t.intent.Some? && Owned(t.intent.value) ==> Dispatched(t.intent.value)
    ensures t.setters.awaited.Some? ==>
              t.intent.Some? && Dispatched(t.intent.value) && t.intent.value.attempted == t.setters.awaited.value.tags
  {
    InitialHolds(s);
    RunKeeps(s, events, t);
  }

  /** A setter, in time or late, replaced a foreign locale exactly when one was written after its last look. */
  lemma OverwritesAreExplained(s: State, events: seq<Event>, t: State, k: nat)
    requires Initial(s) && Leads(s, events, t) && k < |t.past.overwrites|
    ensures var o := t.past.overwrites[k];
            o.before != o.original && !BearsMarker(o.before)
            <==> o.rival.Some? && o.rival.value != o.original && !BearsMarker(o.rival.value)
  {
    InitialHolds(s);
    RunKeeps(s, events, t);
    assert Explained(t.past.overwrites[k]);
  }

  /** Abandoning releases an intent only while an outsider's locale is on the device and no setter is waited for. */
  lemma AbandonIsSafe(s: State, events: seq<Event>, t: State)
    requires Initial(s) && Leads(s, events, t) && t.past.late == 0
    requires t.control.Judging? && ApplyBack(t, Judge).intent.None?
    ensures t.device.writer.Outsider? && !BearsMarker(t.device.tags) && t.setters.awaited.None?
    ensures t.control.held.flags == Written(false, false)
  {
    InitialHolds(s);
    RunKeeps(s, events, t);
  }

  /** In every run: over a marked device an intent is abandoned only if a marked list landed late after the look. */
  lemma AbandonedMarkIsLate(s: State, events: seq<Event>, t: State)
    requires Initial(s) && Leads(s, events, t)
    requires t.control.Judging? && ApplyBack(t, Judge).intent.None? && BearsMarker(t.device.tags)
    ensures t.control.since < t.past.lateMarked
  {
    InitialHolds(s);
    RunKeeps(s, events, t);
  }

  ghost predicate Reaches(s: State, t: State)
  {
    exists events :: Leads(s, events, t)
  }

  lemma ReachesOn(s: State, m: State, e: Event)
    requires Reaches(s, m) && Enabled(m, e)
    ensures Reaches(s, Apply(m, e))
  {
    hide Enabled, Apply;
    var events :| Leads(s, events, m);
    assert (events + [e])[..|events|] == events;
    assert Leads(s, events + [e], Apply(m, e));
  }

  // ---- setters that land late ----

  /** A run in which no caller goes on while its setter is out. */
  ghost predicate LeadsPatiently(s: State, events: seq<Event>, t: State)
  {
    if events == [] then s == t
    else
      var n := |events| - 1;
      exists m :: LeadsPatiently(s, events[..n], m) && PatientStep(m, events[n], t)
  }

  predicate PatientStep(m: State, e: Event, t: State)
  {
    Enabled(m, e) && t == Apply(m, e) && |t.setters.strays| <= |m.setters.strays|
  }

  ghost predicate NoneMarked(strays: seq<Flight>)
  {
    forall i :: 0 <= i < |strays| ==> !BearsMarker(strays[i].tags)
  }

  lemma PatientStepKeeps(m: State, e: Event, t: State)
    requires PatientStep(m, e, t) && NoneMarked(m.setters.strays)
    ensures NoneMarked(t.setters.strays) && t.past.lateMarked == m.past.lateMarked
  {
    hide BearsMarker;
  }

  lemma {:induction false} PatientRunKeeps(s: State, events: seq<Event>, t: State)
    requires LeadsPatiently(s, events, t) && Inv(s) && NoneMarked(s.setters.strays)
    ensures Inv(t) && NoneMarked(t.setters.strays) && t.past.lateMarked == s.past.lateMarked
  {
    hide Inv, Enabled, Apply, NoneMarked;
    if events != [] {
      var n := |events| - 1;
      var m :| LeadsPatiently(s, events[..n], m) && PatientStep(m, events[n], t);
      PatientRunKeeps(s, events[..n], m);
      PatientStepKeeps(m, events[n], t);
      StepKeeps(m, events[n]);
    }
  }

  ghost predicate ReachesPatiently(s: State, t: State)
  {
    exists events :: LeadsPatiently(s, events, t)
  }

  lemma PatientlyOn(s: State, m: State, e: Event)
    requires ReachesPatiently(s, m) && Enabled(m, e) && PatientStep(m, e, Apply(m, e))
    ensures ReachesPatiently(s, Apply(m, e))
  {
    hide Enabled, Apply;
    var events :| LeadsPatiently(s, events, m);
    assert (events + [e])[..|events|] == events;
    assert LeadsPatiently(s, events + [e], Apply(m, e));
  }

  /** What the setters nobody waits for will write. */
  function Lists(strays: seq<Flight>): (lists: seq<Tags>)
    ensures |lists| == |strays|
  {
    seq(|strays|, i requires 0 <= i < |strays| => strays[i].tags)
  }

  /** Whoever is at work goes down, an outsider puts the original back, and recovery lets the record go. */
  lemma ToUnheld(s: State) returns (m: State)
    requires Inv(s) && s.past.lateMarked == 0
    ensures ReachesPatiently(s, m) && m.control.Idle? && m.setters.awaited.None? && m.intent.None?
    ensures Lists(m.setters.strays) == Lists(s.setters.strays)
  {
    hide BearsMarker;
    assert LeadsPatiently(s, [], s);
    assert ReachesPatiently(s, s);
    hide ReachesPatiently;
    m := Apply(s, Crash);
    PatientlyOn(s, s, Crash);
    if m.setters.awaited.Some? {
      PatientlyOn(s, m, Drop);
      m := Apply(m, Drop);
    }
    if m.intent.Some? { m := Unhold(s, m); }
  }

  lemma Unhold(s: State, m: State) returns (u: State)
    requires ReachesPatiently(s, m) && m.control.Idle? && m.setters.awaited.None?
    requires m.intent.Some? && ParseFlags(m.intent.value.flags).Some? && !BearsMarker(m.intent.value.original)
    ensures ReachesPatiently(s, u) && u.control.Idle? && u.setters.awaited.None? && u.intent.None?
    ensures Lists(u.setters.strays) == Lists(m.setters.strays)
    ensures u.past.restoredTo == Some(m.intent.value.original)
  {
    hide BearsMarker, ReachesPatiently;
    var original := m.intent.value.original;
    var written := Apply(m, OutsideWrite(original));
    PatientlyOn(s, m, OutsideWrite(original));
    var read := Apply(written, Recover);
    PatientlyOn(s, written, Recover);
    u := Apply(read, Release);
    PatientlyOn(s, read, Release);
  }

  /** A matrix that gets no further than its record puts another original on file. */
  lemma OtherOriginal(s: State, m: State, other: Tags) returns (u: State)
    requires ReachesPatiently(s, m) && m.control.Idle? && m.setters.awaited.None? && m.intent.None?
    requires !BearsMarker(other)
    ensures ReachesPatiently(s, u) && u.control.Idle? && u.setters.awaited.None? && u.intent.None?
    ensures Lists(u.setters.strays) == Lists(m.setters.strays)
    ensures u.past.restoredTo == Some(other)
  {
    hide BearsMarker, ReachesPatiently;
    var written := Apply(m, OutsideWrite(other));
    PatientlyOn(s, m, OutsideWrite(other));
    var snapped := Apply(written, Snapshot);
    PatientlyOn(s, written, Snapshot);
    var prepared := Apply(snapped, Insert("", 0));
    PatientlyOn(s, snapped, Insert("", 0));
    var failed := Apply(prepared, Fail);
    PatientlyOn(s, prepared, Fail);
    u := Unhold(s, failed);
  }

  /** From here a marked list can be lost though no caller goes on without its setter's outcome any more. */
  ghost predicate CanLose(s: State)
  {
    exists t :: ReachesPatiently(s, t) && !Recoverable(t)
  }

  /** The exact condition: while every caller waits for its setter, a marked list can be lost exactly when a setter
      of one, whose caller had gone on before, is still out. */
  lemma OnlyStraysLose(s: State, events: seq<Event>, t: State)
    requires Initial(s) && Leads(s, events, t) && t.past.lateMarked == 0
    ensures CanLose(t) <==> exists i :: 0 <= i < |t.setters.strays| && BearsMarker(t.setters.strays[i].tags)
  {
    InitialHolds(s);
    RunKeeps(s, events, t);
    if i :| 0 <= i < |t.setters.strays| && BearsMarker(t.setters.strays[i].tags) {
      var m := ToUnheld(t);
      hide ReachesPatiently;
      PatientlyOn(t, m, LandLate(i));
      assert Lists(m.setters.strays)[i] == Lists(t.setters.strays)[i];
      assert !Recoverable(Apply(m, LandLate(i)));
    } else if CanLose(t) {
      assert NoneMarked(t.setters.strays);
      var u :| ReachesPatiently(t, u) && !Recoverable(u);
      var more :| LeadsPatiently(t, more, u);
      PatientRunKeeps(t, more, u);
      assert false by { hide *; KeptIsRecoverable(u); }
    }
  }

  ghost predicate CanStain(s: State)
  {
    exists t :: ReachesPatiently(s, t) && !Clean(t)
  }

  lemma PatientStepAddsNone(m: State, e: Event, t: State)
    requires PatientStep(m, e, t) && m.setters.strays == []
    ensures t.setters.strays == [] && t.past.late == m.past.late
  {
    hide BearsMarker;
  }

  lemma {:induction false} PatientWithoutStrays(s: State, events: seq<Event>, t: State)
    requires LeadsPatiently(s, events, t) && s.setters.strays == []
    ensures t.setters.strays == [] && t.past.late == s.past.late
  {
    hide Enabled, Apply, PatientStep;
    if events != [] {
      var n := |events| - 1;
      var m :| LeadsPatiently(s, events[..n], m) && PatientStep(m, events[n], t);
      PatientWithoutStrays(s, events[..n], m);
      PatientStepAddsNone(m, events[n], t);
    }
  }

  /** The same for a device without an intent: it can come to show an own list that no finished run put back exactly
      when a setter whose caller had gone on before is still out. */
  lemma OnlyStraysStain(s: State, events: seq<Event>, t: State)
    requires Initial(s) && Leads(s, events, t) && t.past.late == 0
    ensures CanStain(t) <==> t.setters.strays != []
  {
    InitialHolds(s);
    RunKeeps(s, events, t);
    if t.setters.strays != [] {
      StrayStains(t);
    } else if CanStain(t) {
      var u :| ReachesPatiently(t, u) && !Clean(u);
      var more :| LeadsPatiently(t, more, u);
      PatientRunKeeps(t, more, u);
      PatientWithoutStrays(t, more, u);
      assert false by { hide *; KeptIsClean(u); }
    }
  }

  lemma StrayStains(t: State)
    requires Inv(t) && t.past.late == 0 && t.setters.strays != []
    ensures CanStain(t)
  {
    hide ReachesPatiently, BearsMarker;
    var tags := t.setters.strays[0].tags;
    var m := ToUnheld(t);
    if !BearsMarker(tags) && m.past.restoredTo == Some(tags) {
      OneMore(tags);
      m := OtherOriginal(t, m, tags + [Locale("")]);
    }
    PatientlyOn(t, m, LandLate(0));
    assert Lists(m.setters.strays)[0] == Lists(t.setters.strays)[0] == tags;
    assert !Clean(Apply(m, LandLate(0)));
  }

  /** An abandonment is about to release its intent over a list that DevHotel wrote. */
  predicate AbandonsOwn(t: State)
  {
    t.control.Judging? && ApplyBack(t, Judge).intent.None? && t.device.writer.DevHotel?
  }

  ghost predicate CanAbandonOwn(s: State)
  {
    exists t :: ReachesPatiently(s, t) && AbandonsOwn(t)
  }

  /** The same for abandoning: it can come to release an intent over an own list exactly when a setter whose caller
      had gone on before is still out. */
  lemma OnlyStraysAbandonOwn(s: State, events: seq<Event>, t: State)
    requires Initial(s) && Leads(s, events, t) && t.past.late == 0
    ensures CanAbandonOwn(t) <==> t.setters.strays != []
  {
    InitialHolds(s);
    RunKeeps(s, events, t);
    if t.setters.strays != [] {
      StrayIsAbandoned(t);
    } else if CanAbandonOwn(t) {
      var u :| ReachesPatiently(t, u) && AbandonsOwn(u);
      var more :| LeadsPatiently(t, more, u);
      PatientRunKeeps(t, more, u);
      PatientWithoutStrays(t, more, u);
      assert false by { hide *; KeptIsOutsiders(u); }
    }
  }

  lemma KeptIsOutsiders(u: State)
    requires Inv(u) && u.past.late == 0
    ensures !AbandonsOwn(u)
  {
  }

  lemma StrayIsAbandoned(t: State)
    requires Inv(t) && t.past.late == 0 && t.setters.strays != []
    ensures CanAbandonOwn(t)
  {
    var m := ToUnheld(t);
    hide ReachesPatiently, BearsMarker;
    assert |Lists(m.setters.strays)| > 0;
    var looked := ToAbandon(t, m);
    PatientlyOn(t, looked, LandLate(0));
    assert AbandonsOwn(Apply(looked, LandLate(0)));
  }

  /** A matrix that got no further than its record, and an outsider's locale under the look of an abandonment. */
  lemma ToAbandon(s: State, m: State) returns (u: State)
    requires ReachesPatiently(s, m) && m.control.Idle? && m.setters.awaited.None? && m.intent.None?
    requires m.setters.strays != []
    ensures ReachesPatiently(s, u) && u.control.Judging? && u.setters.strays != [] && u.intent == Some(u.control.held)
    ensures MayAbandon(u.control.held, u.control.value)
  {
    NoMarkers();
    MarkedBears("", 0);
    hide BearsMarker, ReachesPatiently;
    var written := Apply(m, OutsideWrite([]));
    PatientlyOn(s, m, OutsideWrite([]));
    var snapped := Apply(written, Snapshot);
    PatientlyOn(s, written, Snapshot);
    var prepared := Apply(snapped, Insert("", 0));
    PatientlyOn(s, snapped, Insert("", 0));
    var failed := Apply(prepared, Fail);
    PatientlyOn(s, prepared, Fail);
    u := ToLook(s, failed);
  }

  lemma ToLook(s: State, failed: State) returns (u: State)
    requires ReachesPatiently(s, failed) && failed.control.Idle? && failed.setters.awaited.None?
    requires failed.setters.strays != [] && failed.intent.Some?
    requires var p := failed.intent.value;
             p.original == [] == p.expected && p.attempted == MarkedAttempt("", 0) && p.flags == Written(false, false)
    ensures ReachesPatiently(s, u) && u.control.Judging? && u.setters.strays != [] && u.intent == Some(u.control.held)
    ensures MayAbandon(u.control.held, u.control.value)
  {
    NoMarkers();
    MarkedBears("", 0);
    hide BearsMarker, ReachesPatiently;
    var other := Apply(failed, OutsideWrite([Locale("")]));
    PatientlyOn(s, failed, OutsideWrite([Locale("")]));
    u := Apply(other, Examine);
    PatientlyOn(s, other, Examine);
  }

  lemma NoMarkers()
    ensures !BearsMarker([]) && !BearsMarker([Locale("")])
  {
  }

  lemma OneMore(tags: Tags)
    requires !BearsMarker(tags)
    ensures !BearsMarker(tags + [Locale("")]) && tags + [Locale("")] != tags
  {
    assert |tags + [Locale("")]| == |tags| + 1;
  }

  lemma KeptIsClean(u: State)
    requires Inv(u) && u.past.late == 0
    ensures Clean(u)
  {
  }

  lemma KeptIsRecoverable(u: State)
    requires Inv(u) && u.past.lateMarked == 0
    ensures Recoverable(u)
  {
  }

  /** The condition is needed: a setter times out, its caller reads the original back and releases the record, and
      then the setter lands. Nobody else takes part. */
  lemma LateSetterLosesTheWay(original: Tags, locale: string, operation: int)
    requires !BearsMarker(original)
    ensures exists s: State, t: State :: Initial(s) && t.intent.None? && BearsMarker(t.device.tags) && Leads(s,
              [Snapshot, Insert(locale, operation), PreCheck, Dispatch, Settle(false), ReadBack, Confirm, Release,
               LandLate(0)], t)
  {
    hide BearsMarker;
    var s0 := Beginning(original);
    assert Initial(s0) && Leads(s0, [], s0);
    hide Initial;
    var s4 := FirstStage(s0, locale, operation);
    var s5 := Apply(s4, Settle(false));
    var events := [Snapshot, Insert(locale, operation), PreCheck, Dispatch];
    LeadsOn(s0, events, s4, Settle(false), events + [Settle(false)]);
    LateLanding(s0, s5, events + [Settle(false)]);
    assert events + [Settle(false)] + [ReadBack, Confirm, Release, LandLate(0)]
        == [Snapshot, Insert(locale, operation), PreCheck, Dispatch, Settle(false), ReadBack, Confirm, Release,
            LandLate(0)];
  }

  /** The first setter of a matrix, started and not yet landed. */
  lemma FirstStage(s0: State, locale: string, operation: int) returns (s4: State)
    requires s0 == Beginning(s0.device.tags) && !BearsMarker(s0.device.tags)
    ensures Leads(s0, [Snapshot, Insert(locale, operation), PreCheck, Dispatch], s4)
    ensures s4.control.Waiting? && s4.control.forward && s4.intent == Some(s4.control.held)
    ensures s4.control.held.original == s4.device.tags == s0.device.tags
    ensures s4.setters.awaited.Some? && s4.setters.awaited.value.tags == MarkedAttempt(locale, operation)
    ensures s4.setters.strays == [] && s4.setters.awaited.Some? && BearsMarker(s4.setters.awaited.value.tags)
  {
    hide BearsMarker, ApplyBack, EnabledBack, ApplyOutside;
    MarkedBears(locale, operation);
    assert Leads(s0, [], s0);
    hide Leads;
    var s1 := Apply(s0, Snapshot);
    LeadsOn(s0, [], s0, Snapshot, [Snapshot]);
    var s2 := Apply(s1, Insert(locale, operation));
    LeadsOn(s0, [Snapshot], s1, Insert(locale, operation), [Snapshot, Insert(locale, operation)]);
    var s3 := Apply(s2, PreCheck);
    LeadsOn(s0, [Snapshot, Insert(locale, operation)], s2, PreCheck,
            [Snapshot, Insert(locale, operation), PreCheck]);
    s4 := Apply(s3, Dispatch);
    LeadsOn(s0, [Snapshot, Insert(locale, operation), PreCheck], s3, Dispatch,
            [Snapshot, Insert(locale, operation), PreCheck, Dispatch]);
  }

  /** The setter's caller gives it up, finds the original, and releases the record before the setter lands. */
  lemma LateLanding(s0: State, s5: State, events: seq<Event>)
    requires Leads(s0, events, s5) && s5.control.Restoring? && s5.intent == Some(s5.control.held)
    requires s5.device.tags == s5.control.held.original && |s5.setters.strays| == 1
    requires BearsMarker(s5.setters.strays[0].tags)
    ensures exists t: State :: t.intent.None? && BearsMarker(t.device.tags)
                               && Leads(s0, events + [ReadBack, Confirm, Release, LandLate(0)], t)
  {
    hide BearsMarker, Leads;
    var s6 := Apply(s5, ReadBack);
    LeadsOn(s0, events, s5, ReadBack, events + [ReadBack]);
    var s7 := Apply(s6, Confirm);
    LeadsOn(s0, events + [ReadBack], s6, Confirm, events + [ReadBack, Confirm]);
    var s8 := Apply(s7, Release);
    LeadsOn(s0, events + [ReadBack, Confirm], s7, Release, events + [ReadBack, Confirm, Release]);
    LeadsOn(s0, events + [ReadBack, Confirm, Release], s8, LandLate(0),
            events + [ReadBack, Confirm, Release, LandLate(0)]);
  }

  /** A timed-out setter of a first matrix lands between the look and the verdict of an abandonment of a second. */
  function AbandonedRun(other: Tags, locale: string, operation: int): seq<Event>
  {
    [Snapshot, Insert(locale, operation), PreCheck, Dispatch, Settle(false), ReadBack, Confirm, Release,
     Snapshot, Insert(locale, operation + 1), Crash, OutsideWrite(other), Examine, LandLate(0), Judge]
  }

  lemma AbandonedOn(s: State, other: Tags, locale: string, operation: int, n: nat, m: State)
    requires n < 15 && Leads(s, AbandonedRun(other, locale, operation)[..n], m)
    requires Enabled(m, AbandonedRun(other, locale, operation)[n])
    ensures var e := AbandonedRun(other, locale, operation)[n];
            Leads(s, AbandonedRun(other, locale, operation)[..n + 1], Apply(m, e))
  {
    hide Enabled, Apply, Leads;
    var run := AbandonedRun(other, locale, operation);
    LeadsOn(s, run[..n], m, run[n], run[..n + 1]);
  }

  /** The condition is needed there too: the second record goes while the device shows what DevHotel wrote. */
  lemma LateSetterIsAbandoned(original: Tags, other: Tags, locale: string, operation: int)
    requires !BearsMarker(original) && !BearsMarker(other) && other != original
    ensures exists s: State, t: State ::
              && Initial(s) && Leads(s, AbandonedRun(other, locale, operation), t) && t.intent.None?
              && t.device == Device(MarkedAttempt(locale, operation), DevHotel)
  {
    hide *;
    BeginningIsInitial(original);
    var s0 := Beginning(original);
    var s4 := FirstStage(s0, locale, operation);
    RunStarts(other, locale, operation);
    TimedOut(s0, original, other, locale, operation, s4);
  }

  lemma BeginningIsInitial(original: Tags)
    requires !BearsMarker(original)
    ensures Initial(Beginning(original)) && Beginning(original).device.tags == original
  {
  }

  lemma RunStarts(other: Tags, locale: string, operation: int)
    ensures AbandonedRun(other, locale, operation)[..4] == [Snapshot, Insert(locale, operation), PreCheck, Dispatch]
  {
  }

  lemma TimedOut(s0: State, original: Tags, other: Tags, locale: string, operation: int, s4: State)
    requires !BearsMarker(original) && !BearsMarker(other) && other != original
    requires Leads(s0, AbandonedRun(other, locale, operation)[..4], s4)
    requires s4.control.Waiting? && s4.control.forward && s4.intent == Some(s4.control.held)
    requires s4.control.held.original == s4.device.tags == original && s4.setters.strays == []
    requires s4.setters.awaited.Some? && s4.setters.awaited.value.tags == MarkedAttempt(locale, operation)
    ensures exists t: State ::
              && Leads(s0, AbandonedRun(other, locale, operation), t) && t.intent.None?
              && t.device == Device(MarkedAttempt(locale, operation), DevHotel)
  {
    hide BearsMarker, Leads;
    AbandonedOn(s0, other, locale, operation, 4, s4);
    var s5 := Apply(s4, Settle(false));
    AbandonedOn(s0, other, locale, operation, 5, s5);
    var s6 := Apply(s5, ReadBack);
    AbandonedOn(s0, other, locale, operation, 6, s6);
    var s7 := Apply(s6, Confirm);
    AbandonedOn(s0, other, locale, operation, 7, s7);
    SecondMatrix(s0, original, other, locale, operation, Apply(s7, Release));
  }

  lemma SecondMatrix(s0: State, original: Tags, other: Tags, locale: string, operation: int, s8: State)
    requires !BearsMarker(original) && !BearsMarker(other) && other != original
    requires Leads(s0, AbandonedRun(other, locale, operation)[..8], s8)
    requires s8.control.Idle? && s8.intent.None? && s8.device.tags == original && s8.setters.awaited.None?
    requires |s8.setters.strays| == 1 && s8.setters.strays[0].tags == MarkedAttempt(locale, operation)
    ensures exists t: State ::
              && Leads(s0, AbandonedRun(other, locale, operation), t) && t.intent.None?
              && t.device == Device(MarkedAttempt(locale, operation), DevHotel)
  {
    hide BearsMarker, Leads;
    AbandonedOn(s0, other, locale, operation, 8, s8);
    var s9 := Apply(s8, Snapshot);
    AbandonedOn(s0, other, locale, operation, 9, s9);
    var s10 := Apply(s9, Insert(locale, operation + 1));
    AbandonedOn(s0, other, locale, operation, 10, s10);
    var s11 := Apply(s10, Crash);
    AbandonedOn(s0, other, locale, operation, 11, s11);
    OverOwn(s0, original, other, locale, operation, Apply(s11, OutsideWrite(other)));
  }

  lemma OverOwn(s0: State, original: Tags, other: Tags, locale: string, operation: int, s12: State)
    requires !BearsMarker(other) && other != original
    requires Leads(s0, AbandonedRun(other, locale, operation)[..12], s12)
    requires s12.control.Idle? && s12.device.tags == other && s12.setters.awaited.None? && s12.intent.Some?
    requires var p := s12.intent.value;
             && p.original == original == p.expected && p.attempted == MarkedAttempt(locale, operation + 1)
             && p.flags == Written(false, false)
    requires |s12.setters.strays| == 1 && s12.setters.strays[0].tags == MarkedAttempt(locale, operation)
    ensures exists t: State ::
              && Leads(s0, AbandonedRun(other, locale, operation), t) && t.intent.None?
              && t.device == Device(MarkedAttempt(locale, operation), DevHotel)
  {
    MarkedBears(locale, operation + 1);
    hide BearsMarker, Leads;
    AbandonedOn(s0, other, locale, operation, 12, s12);
    var s13 := Apply(s12, Examine);
    AbandonedOn(s0, other, locale, operation, 13, s13);
    var s14 := Apply(s13, LandLate(0));
    AbandonedOn(s0, other, locale, operation, 14, s14);
    var t, run := Apply(s14, Judge), AbandonedRun(other, locale, operation);
    assert run[..15] == run;
    assert t.intent.None?;
  }

  lemma LeadsOn(s: State, events: seq<Event>, m: State, e: Event, longer: seq<Event>)
    requires Leads(s, events, m) && Enabled(m, e) && longer == events + [e]
    ensures Leads(s, longer, Apply(m, e))
  {
    hide Enabled, Apply;
    assert longer[..|events|] == events;
  }

  function Beginning(original: Tags): State
  {
    State(Device(original, Outsider), None, Setters(None, []), Idle, History(None, None, [], 0, 0))
  }

  /** From a finished run's last look on: the setter is dispatched, an outsider writes, the setter lands. */
  lemma RaceLands(m: State, rival: Tags)
    requires m.control.Checked? && m.intent == Some(m.control.held) && m.past.overwrites == []
    requires !BearsMarker(rival)
    ensures Enabled(m, Dispatch)
    ensures Enabled(Apply(m, Dispatch), OutsideWrite(rival))
    ensures var flying := Apply(Apply(m, Dispatch), OutsideWrite(rival));
            Enabled(flying, Land)
            && Apply(flying, Land).past.overwrites == [Overwrite(rival, m.control.held.original, Some(rival))]
  {
    hide BearsMarker;
  }

  /** The race is real: a write between the last look and the setter's landing is overwritten. */
  lemma RaceOverwrites(original: Tags, rival: Tags, locale: string, operation: int)
    requires !BearsMarker(original) && !BearsMarker(rival) && rival != original
    ensures exists s, t :: Initial(s) && Reaches(s, t) && |t.past.overwrites| == 1
                           && t.past.overwrites[0].before == rival != t.past.overwrites[0].original
  {
    hide BearsMarker;
    var s0 := Beginning(original);
    MarkedBears(locale, operation);
    assert Leads(s0, [], s0);
    assert Reaches(s0, s0) && Initial(s0);
    hide Reaches, Leads, Initial;
    var s1 := Apply(s0, Snapshot);
    ReachesOn(s0, s0, Snapshot);
    var s2 := Apply(s1, Insert(locale, operation));
    ReachesOn(s0, s1, Insert(locale, operation));
    var s3 := Apply(s2, PreCheck);
    ReachesOn(s0, s2, PreCheck);
    assert s3.control.Checked? && s3.control.held.original == original;
    RaceLands(s3, rival);
    hide Apply, Enabled;
    var s4 := Apply(s3, Dispatch);
    ReachesOn(s0, s3, Dispatch);
    var s5 := Apply(s4, OutsideWrite(rival));
    ReachesOn(s0, s4, OutsideWrite(rival));
    ReachesOn(s0, s5, Land);
  }

  /** Left alone after a crash, recovery takes an own or original locale back to the original and lets go. */
  lemma RecoveryRestores(s: State, operation: int)
    requires Inv(s) && s.past.lateMarked == 0 && s.control.Idle? && s.intent.Some?
    requires BearsMarker(s.device.tags) || s.device.tags == s.intent.value.original
    ensures exists t :: Reaches(s, t) && t.intent.None? && t.device.tags == s.intent.value.original
  {
    hide BearsMarker;
    var original := s.intent.value.original;
    assert Leads(s, [], s);
    assert Reaches(s, s);
    hide Reaches, Leads;
    var read := Apply(s, Recover);
    ReachesOn(s, s, Recover);
    if s.device.tags == original {
      ReachesOn(s, read, Release);
      assert Apply(read, Release).intent.None?;
    } else {
      var ready := Apply(read, Restore(operation));
      ReachesOn(s, read, Restore(operation));
      RestoreRuns(s, ready, original);
    }
  }

  lemma RestoreRuns(s: State, ready: State, original: Tags)
    requires Reaches(s, ready) && ready.control.Prepared? && !ready.control.forward
    requires ready.intent == Some(ready.control.held) && ready.control.held.original == original
    requires ready.control.held.attempted == original && ready.device.tags == ready.control.held.expected != original
    ensures exists t :: Reaches(s, t) && t.intent.None? && t.device.tags == original
  {
    hide Reaches;
    var looked := Apply(ready, PreCheck);
    ReachesOn(s, ready, PreCheck);
    var flying := Apply(looked, Dispatch);
    ReachesOn(s, looked, Dispatch);
    SetterRuns(s, flying, original);
  }

  lemma SetterRuns(s: State, flying: State, original: Tags)
    requires Reaches(s, flying) && flying.control.Waiting? && !flying.control.forward
    requires flying.intent == Some(flying.control.held) && flying.control.held.original == original
    requires flying.setters.awaited.Some? && flying.setters.awaited.value.tags == original
    ensures exists t :: Reaches(s, t) && t.intent.None? && t.device.tags == original
  {
    hide Reaches;
    var landed := Apply(flying, Land);
    ReachesOn(s, flying, Land);
    var settled := Apply(landed, Settle(true));
    ReachesOn(s, landed, Settle(true));
    var proven := Apply(settled, Confirm);
    ReachesOn(s, settled, Confirm);
    ReachesOn(s, proven, Release);
    assert Apply(proven, Release).intent.None?;
  }

  /** A foreign locale makes recovery stop with the device and the record as they were. */
  lemma RecoveryRespectsOutsiders(s: State, operation: int)
    requires Inv(s) && s.control.Idle? && s.intent.Some?
    requires !BearsMarker(s.device.tags) && s.device.tags != s.intent.value.original
    ensures Enabled(s, Recover) && Enabled(Apply(s, Recover), Restore(operation))
    ensures Apply(Apply(s, Recover), Restore(operation)) == s.(setters := GoOn(s.setters))
  {
    hide BearsMarker;
    if HasExactMarker(s.intent.value) { ExactBears(s.intent.value); }
  }
}
