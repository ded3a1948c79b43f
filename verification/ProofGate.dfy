/**
 * The durable rows that keep a final read-only proof of a physical device apart
 * from every process's device writers. Each transaction is one step.
 */
module ProofGate {

  datatype Lease = Lease(device: int, room: int, active: bool, acceptance: bool)

  /** A row of either table: an acceptance proof's gate, or a writer's intent. Owners are process ids. */
  datatype Row = Row(lease: int, device: int, room: int, owner: int)

  datatype Tables = Tables(leases: map<int, Lease>, gates: map<int, Row>, intents: map<int, Row>)

  /** Live processes, what each of them holds in memory, and the Host ADB children writers have started. */
  datatype World = World(alive: set<int>, proofs: map<int, Row>, writers: map<int, Row>, children: map<int, int>)

  datatype Commit = Commit(gate: int, device: int, since: nat, upto: nat, lease: Lease)

  /** Identifiers used up, devices of all writers begun so far, where each gate came in, and the reports. */
  datatype History = History(used: set<int>, begun: seq<int>, since: map<int, nat>, commits: seq<Commit>)

  datatype State = State(tables: Tables, world: World, past: History)

  datatype Event =
    | Spawn(pid: int)
    | Die(pid: int)
    | LeaseChanges(lease: int, now: Lease)
    | RemoveDead(gate: int)
    | BeginWriter(id: int, pid: int, lease: int, device: int, room: int)
    | StartChild(id: int)
    | CloseChild(id: int)
    | FinishWriter(id: int)
    | BeginProof(gate: int, pid: int, lease: int, device: int, room: int)
    | ReleaseProof(gate: int)
    | CommitReport(gate: int, stillSame: bool)

  /** The gate on a device, if any; the table's device column is unique. */
  ghost predicate Gated(t: Tables, device: int)
  {
    exists gate :: gate in t.gates && t.gates[gate].device == device
  }

  ghost predicate Intended(t: Tables, device: int)
  {
    exists id :: id in t.intents && t.intents[id].device == device
  }

  predicate LeaseMatches(t: Tables, lease: int, device: int, room: int)
  {
    lease in t.leases && t.leases[lease].device == device && t.leases[lease].room == room && t.leases[lease].active
  }

  function WithoutDeadGates(s: State, device: int): map<int, Row>
  {
    map gate | gate in s.tables.gates
                && !(s.tables.gates[gate].device == device && s.tables.gates[gate].owner !in s.world.alive) ::
      s.tables.gates[gate]
  }

  function WithGates(s: State, gates: map<int, Row>): State { s.(tables := s.tables.(gates := gates)) }

  // ---- steps ----

  ghost predicate EnabledWorld(s: State, e: Event)
  {
    match e
    case Spawn(pid) => pid !in s.world.alive
    case Die(pid) => pid in s.world.alive
    case LeaseChanges(lease, now) => lease in s.tables.leases ==> s.tables.leases[lease].device == now.device
    case RemoveDead(gate) => gate in s.tables.gates && s.tables.gates[gate].owner !in s.world.alive
    case StartChild(id) => id in s.world.writers
    case CloseChild(id) => id in s.world.children
    case _ => false
  }

  ghost predicate EnabledRows(s: State, e: Event)
  {
    match e
    case BeginWriter(id, pid, _, _, _) => id !in s.past.used && pid in s.world.alive
    case FinishWriter(id) => id in s.world.writers && id !in s.world.children
    case BeginProof(gate, pid, _, _, _) => gate !in s.past.used && pid in s.world.alive
    case ReleaseProof(gate) => gate in s.world.proofs
    case CommitReport(gate, _) => gate in s.world.proofs
    case _ => false
  }

  function WithoutOwner(rows: map<int, Row>, pid: int): map<int, Row>
  {
    map id | id in rows && rows[id].owner != pid :: rows[id]
  }

  ghost function ApplyWorld(s: State, e: Event): State
    requires EnabledWorld(s, e)
  {
    match e
    case Spawn(pid) => s.(world := s.world.(alive := s.world.alive + {pid}))
    case Die(pid) =>
      s.(world := s.world.(alive := s.world.alive - {pid}, proofs := WithoutOwner(s.world.proofs, pid),
                           writers := WithoutOwner(s.world.writers, pid)))
    case LeaseChanges(lease, now) => s.(tables := s.tables.(leases := s.tables.leases[lease := now]))
    case RemoveDead(gate) => WithGates(s, s.tables.gates - {gate})
    case StartChild(id) => s.(world := s.world.(children := s.world.children[id := s.world.writers[id].device]))
    case CloseChild(id) => s.(world := s.world.(children := s.world.children - {id}))
  }

  /** A writer's transaction; refusals roll back. */
  ghost function ApplyBeginWriter(s: State, e: Event): State
    requires e.BeginWriter?
  {
    var cleared := WithoutDeadGates(s, e.device);
    var row := Row(e.lease, e.device, e.room, e.pid);
    if !LeaseMatches(s.tables, e.lease, e.device, e.room) then s
    else if Gated(s.tables.(gates := cleared), e.device) then s
    else if Intended(s.tables, e.device) then s
    else
      s.(tables := s.tables.(gates := cleared, intents := s.tables.intents[e.id := row]),
         world := s.world.(writers := s.world.writers[e.id := row]),
         past := s.past.(used := s.past.used + {e.id}, begun := s.past.begun + [e.device]))
  }

  function ApplyFinishWriter(s: State, id: int): State
    requires id in s.world.writers
  {
    var held := s.world.writers[id];
    var kept := s.(world := s.world.(writers := s.world.writers - {id}));
    if id in s.tables.intents && s.tables.intents[id] == held
    then kept.(tables := s.tables.(intents := s.tables.intents - {id})) else kept
  }

  ghost function ApplyBeginProof(s: State, e: Event): State
    requires e.BeginProof?
  {
    var cleared := WithoutDeadGates(s, e.device);
    var row := Row(e.lease, e.device, e.room, e.pid);
    if !LeaseMatches(s.tables, e.lease, e.device, e.room) || !s.tables.leases[e.lease].acceptance
       || Intended(s.tables, e.device) || Gated(s.tables.(gates := cleared), e.device)
       || (exists gate :: gate in cleared && cleared[gate].lease == e.lease) then s
    else
      s.(tables := s.tables.(gates := cleared[e.gate := row]),
         world := s.world.(proofs := s.world.proofs[e.gate := row]),
         past := s.past.(used := s.past.used + {e.gate}, since := s.past.since[e.gate := |s.past.begun|]))
  }

  function ApplyReleaseProof(s: State, gate: int): State
    requires gate in s.world.proofs
  {
    var held := s.world.proofs[gate];
    var kept := s.(world := s.world.(proofs := s.world.proofs - {gate}));
    if gate in s.tables.gates && s.tables.gates[gate] == held then WithGates(kept, s.tables.gates - {gate}) else kept
  }

  /** Publication: the gate and its lease once more, everything else unchanged, then report and gate together. */
  function ApplyCommitReport(s: State, gate: int, stillSame: bool): State
    requires gate in s.world.proofs
  {
    var held := s.world.proofs[gate];
    if !(gate in s.tables.gates && s.tables.gates[gate] == held)
       || !LeaseMatches(s.tables, held.lease, held.device, held.room) || !s.tables.leases[held.lease].acceptance
       || !stillSame then s
    else
      var since := if gate in s.past.since then s.past.since[gate] else 0;
      WithGates(s, s.tables.gates - {gate})
      .(world := s.world.(proofs := s.world.proofs - {gate}),
        past := s.past.(commits :=
          s.past.commits + [Commit(gate, held.device, since, |s.past.begun|, s.tables.leases[held.lease])]))
  }

  ghost function ApplyRows(s: State, e: Event): State
    requires EnabledRows(s, e)
  {
    match e
    case BeginWriter(_, _, _, _, _) => ApplyBeginWriter(s, e)
    case FinishWriter(id) => ApplyFinishWriter(s, id)
    case BeginProof(_, _, _, _, _) => ApplyBeginProof(s, e)
    case ReleaseProof(gate) => ApplyReleaseProof(s, gate)
    case CommitReport(gate, stillSame) => ApplyCommitReport(s, gate, stillSame)
  }

  ghost predicate Enabled(s: State, e: Event) { EnabledWorld(s, e) || EnabledRows(s, e) }

  ghost function Apply(s: State, e: Event): State
    requires Enabled(s, e)
  {
    if EnabledWorld(s, e) then ApplyWorld(s, e) else ApplyRows(s, e)
  }

  ghost predicate Leads(s: State, events: seq<Event>, t: State)
  {
    if events == [] then s == t
    else
      var n := |events| - 1;
      exists m :: Leads(s, events[..n], m) && Enabled(m, events[n]) && t == Apply(m, events[n])
  }

  // ---- invariants ----

  /** One row per device over both tables. */
  ghost predicate Exclusive(t: Tables)
  {
    && (forall a, b :: a in t.gates && b in t.gates && t.gates[a].device == t.gates[b].device ==> a == b)
    && (forall a, b :: a in t.intents && b in t.intents && t.intents[a].device == t.intents[b].device ==> a == b)
    && (forall a, b :: a in t.gates && b in t.intents ==> t.gates[a].device != t.intents[b].device)
  }

  /** A live proof's gate is still its own; a writer's intent outlives its children. */
  ghost predicate Backed(s: State)
  {
    && (forall gate :: gate in s.world.proofs ==>
          gate in s.tables.gates && s.tables.gates[gate] == s.world.proofs[gate]
          && s.world.proofs[gate].owner in s.world.alive)
    && (forall id :: id in s.world.writers ==> id in s.tables.intents && s.tables.intents[id] == s.world.writers[id])
    && (forall id :: id in s.world.children ==>
         id in s.tables.intents && s.tables.intents[id].device == s.world.children[id])
    && (forall id :: id in s.tables.gates || id in s.tables.intents ==> id in s.past.used)
  }

  /** No writer has begun on a gated device since its gate came in. */
  ghost predicate Quiet(h: History, device: int, since: nat, upto: nat)
  {
    upto <= |h.begun| && forall i :: since <= i < upto ==> h.begun[i] != device
  }

  predicate Leased(c: Commit)
  {
    c.lease.active && c.lease.acceptance && c.lease.device == c.device
  }

  ghost predicate Undisturbed(s: State)
  {
    && (forall gate :: gate in s.tables.gates ==>
          gate in s.past.since && Quiet(s.past, s.tables.gates[gate].device, s.past.since[gate], |s.past.begun|))
    && (forall i :: 0 <= i < |s.past.commits| ==>
          && Quiet(s.past, s.past.commits[i].device, s.past.commits[i].since, s.past.commits[i].upto)
          && Leased(s.past.commits[i]))
  }

  ghost predicate Inv(s: State) { Exclusive(s.tables) && Backed(s) && Undisturbed(s) }

  ghost predicate Initial(s: State)
  {
    && s.tables.gates == map[] && s.tables.intents == map[]
    && s.world.proofs == map[] && s.world.writers == map[] && s.world.children == map[]
    && s.past.begun == [] && s.past.commits == []
  }

  lemma WorldKeeps(s: State, e: Event)
    requires EnabledWorld(s, e) && Inv(s)
    ensures Inv(ApplyWorld(s, e))
  {
    hide Gated, Intended, LeaseMatches;
  }

  lemma BeginWriterExclusive(s: State, e: Event)
    requires e.BeginWriter? && EnabledRows(s, e) && Inv(s)
    ensures Exclusive(ApplyBeginWriter(s, e).tables)
  {
    hide LeaseMatches, Undisturbed;
  }

  lemma BeginWriterBacked(s: State, e: Event)
    requires e.BeginWriter? && EnabledRows(s, e) && Inv(s)
    ensures Backed(ApplyBeginWriter(s, e))
  {
    hide LeaseMatches, Undisturbed, Exclusive, Gated, Intended;
  }

  lemma BeginWriterKeeps(s: State, e: Event)
    requires e.BeginWriter? && EnabledRows(s, e) && Inv(s)
    ensures Inv(ApplyBeginWriter(s, e))
  {
    BeginWriterExclusive(s, e);
    BeginWriterBacked(s, e);
    hide LeaseMatches, Exclusive, Intended;
    var t := ApplyBeginWriter(s, e);
    if t != s {
      assert forall gate :: gate in t.tables.gates ==> t.tables.gates[gate].device != e.device;
    }
  }

  lemma BeginProofExclusive(s: State, e: Event)
    requires e.BeginProof? && EnabledRows(s, e) && Inv(s)
    ensures Exclusive(ApplyBeginProof(s, e).tables)
  {
    hide LeaseMatches, Undisturbed;
  }

  lemma BeginProofBacked(s: State, e: Event)
    requires e.BeginProof? && EnabledRows(s, e) && Inv(s)
    ensures Backed(ApplyBeginProof(s, e))
  {
    hide LeaseMatches, Undisturbed, Exclusive, Gated, Intended;
  }

  lemma BeginProofKeeps(s: State, e: Event)
    requires e.BeginProof? && EnabledRows(s, e) && Inv(s)
    ensures Inv(ApplyBeginProof(s, e))
  {
    BeginProofExclusive(s, e);
    BeginProofBacked(s, e);
    hide LeaseMatches, Exclusive, Gated, Intended;
  }

  lemma CommitKeeps(s: State, gate: int, stillSame: bool)
    requires gate in s.world.proofs && Inv(s)
    ensures Inv(ApplyCommitReport(s, gate, stillSame))
  {
  }

  lemma RowsKeep(s: State, e: Event)
    requires EnabledRows(s, e) && Inv(s)
    ensures Inv(ApplyRows(s, e))
  {
    hide Gated, Intended, LeaseMatches, ApplyBeginWriter, ApplyBeginProof, ApplyCommitReport;
    if e.BeginWriter? { BeginWriterKeeps(s, e); }
    if e.BeginProof? { BeginProofKeeps(s, e); }
    if e.CommitReport? { CommitKeeps(s, e.gate, e.stillSame); }
  }

  /** No transaction, process death or child of any process breaks any of it. */
  lemma StepKeeps(s: State, e: Event)
    requires Enabled(s, e) && Inv(s)
    ensures Inv(Apply(s, e))
  {
    hide Inv, EnabledWorld, EnabledRows, ApplyWorld, ApplyRows;
    if EnabledWorld(s, e) { WorldKeeps(s, e); } else { RowsKeep(s, e); }
  }

  lemma {:induction false} RunKeeps(s: State, events: seq<Event>, t: State)
    requires Inv(s) && Leads(s, events, t)
    ensures Inv(t)
  {
    hide Inv, Enabled, Apply;
    if events != [] {
      var n := |events| - 1;
      var m :| Leads(s, events[..n], m) && Enabled(m, events[n]) && t == Apply(m, events[n]);
      RunKeeps(s, events[..n], m);
      StepKeeps(m, events[n]);
    }
  }

  // ---- what every run keeps ----

  /** Each device carries at most one row, a gate or an intent, over all processes. */
  lemma OneRowPerDevice(s: State, events: seq<Event>, t: State, a: int, b: int)
    requires Initial(s) && Leads(s, events, t)
    ensures a in t.tables.gates && b in t.tables.intents ==> t.tables.gates[a].device != t.tables.intents[b].device
    ensures a != b && a in t.tables.gates && b in t.tables.gates ==>
            t.tables.gates[a].device != t.tables.gates[b].device
    ensures a != b && a in t.tables.intents && b in t.tables.intents ==>
              t.tables.intents[a].device != t.tables.intents[b].device
  {
    RunKeeps(s, events, t);
  }

  /** While a proof runs, its gate row stands and no writer's child is on its device. */
  lemma ProofsRunAlone(s: State, events: seq<Event>, t: State, gate: int)
    requires Initial(s) && Leads(s, events, t) && gate in t.world.proofs
    ensures gate in t.tables.gates && t.tables.gates[gate] == t.world.proofs[gate]
    ensures forall id :: id in t.world.children ==> t.world.children[id] != t.world.proofs[gate].device
  {
    RunKeeps(s, events, t);
  }

  /** A published report saw no writer begin on its device between the gate and the publication,
      and was published under an active acceptance lease of that device. */
  lemma ReportsAreUndisturbed(s: State, events: seq<Event>, t: State, k: nat)
    requires Initial(s) && Leads(s, events, t) && k < |t.past.commits|
    ensures var c := t.past.commits[k];
            && c.upto <= |t.past.begun| && (forall i :: c.since <= i < c.upto ==> t.past.begun[i] != c.device)
            && c.lease.active && c.lease.acceptance && c.lease.device == c.device
  {
    RunKeeps(s, events, t);
    var c := t.past.commits[k];
    assert Quiet(t.past, c.device, c.since, c.upto) && Leased(c);
  }

  /** An intent whose process died holds its device for good: nothing removes it, nothing gets past it. */
  lemma OrphanStays(s: State, e: Event, id: int)
    requires Enabled(s, e) && Inv(s) && id in s.tables.intents && id !in s.world.writers
    ensures var t := Apply(s, e);
            && id in t.tables.intents && t.tables.intents[id] == s.tables.intents[id] && id !in t.world.writers
            && (forall gate :: gate in t.tables.gates ==> t.tables.gates[gate].device != t.tables.intents[id].device)
            && (t.past.begun == s.past.begun
                || (e.BeginWriter? && t.past.begun == s.past.begun + [e.device]
                    && e.device != s.tables.intents[id].device))
  {
    var device := s.tables.intents[id].device;
    StepKeeps(s, e);
    assert Intended(s.tables, device);
    if e.BeginWriter? {
      hide Undisturbed, LeaseMatches, Gated;
      assert ApplyBeginWriter(s, e) == s || e.device != device;
    } else {
      hide Undisturbed, LeaseMatches, Gated, Intended;
    }
  }

  lemma {:induction false} OrphanHoldsDevice(s: State, events: seq<Event>, t: State, id: int)
    requires Inv(s) && Leads(s, events, t) && id in s.tables.intents && id !in s.world.writers
    ensures id in t.tables.intents && t.tables.intents[id] == s.tables.intents[id] && id !in t.world.writers
    ensures |s.past.begun| <= |t.past.begun|
            && forall i :: |s.past.begun| <= i < |t.past.begun| ==> t.past.begun[i] != s.tables.intents[id].device
  {
    hide Inv, Enabled, Apply;
    if events != [] {
      var n := |events| - 1;
      var m :| Leads(s, events[..n], m) && Enabled(m, events[n]) && t == Apply(m, events[n]);
      RunKeeps(s, events[..n], m);
      OrphanHoldsDevice(s, events[..n], m, id);
      OrphanStays(m, events[n], id);
    }
  }
}
