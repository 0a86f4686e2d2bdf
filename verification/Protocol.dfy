/**
 One checkpoint as a step of a state machine: a request either yields new tables or leaves them
 as they were, because the whole decision and write path is one transaction.
 */
module Protocol {
  import opened Options
  import opened JsonValues
  import opened Types
  import opened Tree
  import opened Heads
  import opened ChangeLog
  import opened Verifiers
  import opened Evaluation
  import MergePatch

  // ----- Before the transaction

  /** Operations other than write exist only for result version 3. */
  function OperationOf(p: Params): Operation {
    if p.resultVersion == V3 then p.operation else Write
  }

  predicate DerivesState(op: Operation) {
    op == Record || op == Patch
  }

  predicate StringsOnly(j: Json) {
    j.Arr? && forall i :: 0 <= i < |j.items| ==> j.items[i].Str?
  }

  /** The WORKING_STATE schema: exactly six properties, three strings and three string lists. */
  predicate ValidWorkingState(j: Json) {
    var texts := {Units("objective"), Units("status"), Units("owner")};
    var lists := {Units("nextActions"), Units("blockers"), Units("guardrails")};
    && j.Obj? && j.props.Keys == texts + lists
    && (forall k :: k in texts ==> k in j.props && j.props[k].Str?)
    && (forall k :: k in lists ==> k in j.props && StringsOnly(j.props[k]))
  }

  ghost function Precheck(p: Params): Option<Error> {
    var op := OperationOf(p);
    if !DerivesState(op) && !(p.state.Some? && (p.state.value.Obj? || p.state.value.Arr?)) then Some(StateRequired)
    else if op == Patch &&
      !(p.statePatch.Some? && p.statePatch.value.Obj? && MergePatch.Admissible(p.statePatch.value)) then Some(BadPatch)
    else if op == Reconcile && Normalize(p).None? then Some(ReconcileRefused)
    else None
  }

  // ----- Fingerprint and idempotency

  ghost function ByRevision(s: Snaps, revision: Option<int>): Option<StateId> {
    if revision.Some? && exists a :: a in s && s[a].revision == revision.value then
      var a :| a in s && s[a].revision == revision.value;
      Some(a)
    else None
  }

  ghost function ByKey(s: Snaps, key: string): Option<StateId> {
    if exists a :: a in s && s[a].key == key then
      var a :| a in s && s[a].key == key;
      Some(a)
    else None
  }

  /** The content a fingerprint binds: no state for record and patch, no reconciliation record. */
  function BaseEnvelope(p: Params): Envelope {
    Envelope(if DerivesState(OperationOf(p)) then Null else Or(p.state, Null),
             p.events, p.factChanges, p.loopChanges, p.evidenceRefs, None)
  }

  ghost function FingerprintOf(p: Params, parent: Option<StateId>): Fingerprint {
    var op := OperationOf(p);
    Fingerprint(p.agent, p.expectedRevision, parent, p.resultVersion, op,
                if op == Reconcile then Normalize(p) else None,
                if op == Patch then p.statePatch else None,
                p.resultVersion == V3 && op != Reconcile && p.acknowledgeRetired,
                BaseEnvelope(p))
  }

  function BlockOf(record: ReconciliationRecord, a: StateId): ReconciledBlock {
    ReconciledBlock(record.survivor, record.retired, a, record.resolutions, record.adoptedRetired,
                    record.unresolvedDivergent)
  }

  /** A key that already has a snapshot: replay it if the fingerprints agree and its evidence verifies. */
  ghost function ReplayOf(t: Tables, p: Params, a: StateId, fingerprint: Fingerprint): (o: Outcome)
    requires a in t.snaps
    ensures !o.Written?
  {
    var snap := t.snaps[a];
    if snap.fingerprint != fingerprint then Mismatch(a, snap.fingerprint, fingerprint)
    else if snap.digest.Some? && !LedgerVerifies(t.snaps, t.ledger, a) then Failed(IntegrityFailure)
    else if snap.digest.None? &&
      (p.resultVersion != V1 || exists x :: x in t.ledger && x.state == a) then Failed(IntegrityFailure)
    else if OperationOf(p) == Reconcile &&
            (snap.envelope.reconciliation.None? || !ReconcileParity(t, a, snap.envelope.reconciliation.value)) then
      Failed(IntegrityFailure)
    else
      Replayed(a, snap.revision, snap.envelope, if p.resultVersion == V1 then None else snap.digest,
               if OperationOf(p) == Reconcile then Some(BlockOf(snap.envelope.reconciliation.value, a)) else None)
  }

  // ----- CAS validation and admission

  /** What an admitted request writes: its working state, and the record if it reconciles. */
  datatype Admitted = Admitted(state: Json, record: Option<ReconciliationRecord>)

  datatype Admission = Refuse(outcome: Outcome) | Admit(adm: Admitted)

  function ConflictOf(t: Tables, p: Params): Outcome {
    Conflict(LiveHeads(t), if p.resultVersion == V3 then ScopePointer(t) else None)
  }

  /** A conflict offers live heads; a scope without any fails closed instead. */
  function ConflictOrEmpty(t: Tables, p: Params): Outcome {
    if LiveHeads(t) == {} then Failed(EmptyScope) else ConflictOf(t, p)
  }

  ghost function AdmitDerived(t: Tables, p: Params, parent: Option<StateId>): Admission {
    var eff := EffectiveCurrentHead(t);
    if !(eff.Pointed? && parent == Some(eff.head)) then Refuse(ConflictOrEmpty(t, p))
    else
      var parentState := t.snaps[eff.head].envelope.state;
      if !ValidWorkingState(parentState) then Refuse(Failed(BadParentState))
      else
        var state := if OperationOf(p) == Record then parentState
          else MergePatch.Merge(parentState, Or(p.statePatch, Null));
        if !ValidWorkingState(state) then Refuse(Failed(BadPatch)) else Admit(Admitted(state, None))
  }

  ghost function AdmitReconcile(t: Tables, p: Params, n: Normalized, parent: Option<StateId>): Admission {
    if LiveHeads(t) == {} then Refuse(Failed(EmptyScope))
    else if LiveHeads(t) != n.expectedHeads || ScopePointer(t) != n.expectedPointer then Refuse(ConflictOf(t, p))
    else if parent != Some(n.survivor) then Refuse(Failed(ReconcileRefused))
    else if !EvidenceVerifies(t, n.survivor) then Refuse(Failed(IntegrityFailure))
    else if !Admits(t, n, p.factChanges, p.loopChanges, p.agent) then Refuse(Failed(ReconcileRefused))
    else Admit(Admitted(Or(p.state, Null), Some(RecordOf(t, n))))
  }

  ghost function AdmissionOf(t: Tables, p: Params, parent: Option<StateId>): (r: Admission)
    requires Precheck(p).None?
    ensures r.Refuse? ==> !r.outcome.Written?
  {
    var op := OperationOf(p);
    if p.expectedRevision.None? && t.snaps.Keys != {} then Refuse(ConflictOf(t, p))
    else if p.expectedRevision.Some? && parent.None? then Refuse(ConflictOrEmpty(t, p))
    else if DerivesState(op) then AdmitDerived(t, p, parent)
    else if op == Reconcile then AdmitReconcile(t, p, Normalize(p).value, parent)
    else if p.resultVersion == V3 && parent.Some? && parent.value in t.retirements && !p.acknowledgeRetired then
      Refuse(Failed(RetiredParent))
    else Admit(Admitted(Or(p.state, Null), None))
  }

  // ----- The write

  /** The first n entries of one kind of a snapshot's ledger. */
  ghost function LedgerPrefix(a: StateId, k: Kind, out: seq<Applied>, n: nat): Ledger
    requires n <= |out|
  {
    map o: nat | o < n :: Tuple(a, k, o) := out[o]
  }

  ghost function LedgerRows(a: StateId, ch: Changes): Ledger {
    LedgerPrefix(a, Fact, ch.facts, |ch.facts|) + LedgerPrefix(a, Loop, ch.loops, |ch.loops|)
  }

  ghost function WrittenCoverage(rows: Ledger): CoverageRows {
    map x | x in rows :: Coverage(rows[x].id, Materialized, ByWrite)
  }

  ghost function FactVersionsPrefix(a: StateId, out: seq<Applied>, cs: seq<FactChange>, by_: Principal, now: Time,
                                    n: nat): Versions
    requires n <= |out| == |cs|
  {
    map o: nat | o < n :: VersionKey(out[o].id, Tuple(a, Fact, o)) := Version(FactVersionValue(cs[o]), by_, now)
  }

  ghost function LoopVersionsPrefix(a: StateId, out: seq<Applied>, cs: seq<LoopChange>, owners: seq<string>,
                                    by_: Principal, now: Time, n: nat): Versions
    requires n <= |out| == |cs| == |owners|
  {
    map o: nat | o < n ::
      VersionKey(out[o].id, Tuple(a, Loop, o)) := Version(LoopVersionValue(cs[o], owners[o], by_, now), by_, now)
  }

  ghost function WrittenVersions(a: StateId, ch: Changes, p: Params, owners: seq<string>, now: Time): Versions
    requires |ch.facts| == |p.factChanges| && |ch.loops| == |p.loopChanges| == |owners|
  {
    FactVersionsPrefix(a, ch.facts, p.factChanges, p.agent, now, |ch.facts|) +
    LoopVersionsPrefix(a, ch.loops, p.loopChanges, owners, p.agent, now, |ch.loops|)
  }

  ghost function RetirementRows(record: Option<ReconciliationRecord>, a: StateId, by_: Principal,
                                now: Time): Retirements {
    if record.None? then map[]
    else map h | h in record.value.retired :: Retirement(a, now, by_, record.value.reason)
  }

  ghost function InputRows(record: Option<ReconciliationRecord>, a: StateId): set<(StateId, StateId)> {
    if record.None? then {} else set h | h in record.value.retired :: (a, h)
  }

  ghost function RecordedResolutions(record: Option<ReconciliationRecord>, a: StateId): map<ResolutionKey, Decision> {
    if record.None? then map[]
    else map key | key in record.value.resolutions :: ResolutionKey(key, a) := record.value.resolutions[key]
  }

  ghost function NewSnapshot(t: Tables, p: Params, parent: Option<StateId>, adm: Admitted, now: Time,
                             ch: Changes): Snapshot {
    Snapshot(parent, MaxRevision(t.snaps) + 1,
             Envelope(adm.state, p.events, p.factChanges, p.loopChanges, p.evidenceRefs, adm.record),
             FingerprintOf(p, parent), p.key, p.agent, now, Some(ch))
  }

  ghost predicate Sized(p: Params, u: Uuids) {
    |u.facts| == |p.factChanges| && |u.loops| == |p.loopChanges|
  }

  ghost function FactsDone(t: Tables, p: Params, u: Uuids, now: Time): Option<FactsApplied>
    requires Sized(p, u)
  {
    ApplyFacts(t.facts, p.factChanges, u.facts, p.agent, now, |p.factChanges|)
  }

  ghost function LoopsDone(t: Tables, p: Params, u: Uuids, now: Time): Option<LoopsApplied>
    requires Sized(p, u)
  {
    ApplyLoops(t.loops, p.loopChanges, u.loops, p.agent, now, |p.loopChanges|)
  }

  /** The tables after an admitted request whose changes apply. */
  ghost function WrittenTables(t: Tables, p: Params, parent: Option<StateId>, adm: Admitted, u: Uuids, now: Time,
                               f: FactsApplied, l: LoopsApplied): Tables
    requires |f.out| == |p.factChanges| && |l.out| == |l.owners| == |p.loopChanges|
  {
    var ch := Changes(f.out, l.out);
    Tables(
      t.snaps[u.state := NewSnapshot(t, p, parent, adm, now, ch)],
      if adm.record.Some? then Some(Pointer(u.state, now, p.agent, ByReconcile))
      else PointerAfterInsert(t.snaps, t.retirements.Keys, t.pointer, u.state, parent, p.agent, now),
      t.retirements + RetirementRows(adm.record, u.state, p.agent, now),
      t.inputs + InputRows(adm.record, u.state),
      t.resolutions + RecordedResolutions(adm.record, u.state),
      t.ledger + LedgerRows(u.state, ch),
      t.coverage + WrittenCoverage(LedgerRows(u.state, ch)),
      t.versions + WrittenVersions(u.state, ch, p, l.owners, now),
      t.backfilled,
      f.rows,
      l.rows)
  }

  ghost function Commit(t: Tables, p: Params, parent: Option<StateId>, adm: Admitted, u: Uuids, now: Time)
    : (Tables, Outcome)
    requires Sized(p, u)
  {
    var f, l := FactsDone(t, p, u, now), LoopsDone(t, p, u, now);
    if f.None? || l.None? then (t, Failed(BadChange))
    else
      assert |f.value.out| == |p.factChanges| by {
        FactsAppliedShape(t.facts, p.factChanges, u.facts, p.agent, now, |p.factChanges|);
      }
      assert |l.value.out| == |l.value.owners| == |p.loopChanges| by {
        LoopsAppliedShape(t.loops, p.loopChanges, u.loops, p.agent, now, |p.loopChanges|);
      }
      var t' := WrittenTables(t, p, parent, adm, u, now, f.value, l.value);
      if adm.record.Some? && !ReconcileParity(t', u.state, adm.record.value) then (t, Failed(IntegrityFailure))
      else
        (t', Written(u.state, MaxRevision(t.snaps) + 1, parent, t'.snaps[u.state].envelope,
                     if p.resultVersion == V1 then None else t'.snaps[u.state].digest,
                     if adm.record.Some? then Some(BlockOf(adm.record.value, u.state)) else None))
  }

  /** performCheckpoint */
  ghost function Step(t: Tables, p: Params, u: Uuids, now: Time): (Tables, Outcome)
    requires Sized(p, u)
  {
    if Precheck(p).Some? then (t, Failed(Precheck(p).value))
    else
      var parent := ByRevision(t.snaps, p.expectedRevision);
      var prior := ByKey(t.snaps, p.key);
      if prior.Some? then (t, ReplayOf(t, p, prior.value, FingerprintOf(p, parent)))
      else
        match AdmissionOf(t, p, parent)
        case Refuse(outcome) => (t, outcome)
        case Admit(adm) => Commit(t, p, parent, adm, u, now)
  }

  /** UUIDs are drawn fresh: none occurs in the tables, in the request, or twice in the draw. */
  ghost predicate FreshUuids(t: Tables, p: Params, u: Uuids) {
    && Sized(p, u)
    && u.state !in t.snaps && u.state !in t.backfilled && u.state !in t.retirements
    && (forall a :: a in t.snaps ==> t.snaps[a].parent != Some(u.state))
    && (t.pointer.Some? ==> t.pointer.value.state != u.state)
    && LoopIdsFresh(t.loops, p.loopChanges, u.loops)
    && FactIdsFresh(t.facts, p.factChanges, u.facts)
  }
}
