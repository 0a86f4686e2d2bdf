/**
 The entities of one (tenant, scope) of the ENG-4 control plane: requests, snapshots and the
 tables they are stored in. A table with a primary key is a map from that key to the rest of
 the row. Sorted duplicate-free lists of the source are sets, and lists sorted by a unique key
 are maps. A sha256 digest is identified with the value it digests.
 */
module Types {
  import opened Options
  import opened JsonValues

  type StateId = string
  type RowId = string
  type Principal = string
  type Time = string

  datatype Kind = Fact | Loop
  datatype FactStatus = Asserted | Verified | Disputed | Superseded
  datatype LoopStatus = Open | Blocked | Closed

  // ----- Requests

  /** Which row a change names: none, a null where an id belongs, or a text that may be empty. */
  datatype RowRef = NoRef | NullRef | Ref(id: RowId) {
    function Given(): Option<RowId> {
      if Ref? then Some(id) else None
    }
  }

  datatype FactChange = FactChange(
    factRef: RowRef, subject: string, predicate_: string, object_: string, status: FactStatus,
    evidenceRefs: seq<string>, sourceRefs: seq<string>, effectiveAt: Option<string>,
    contradicts: Option<seq<string>>) {
    const factId: Option<RowId> := factRef.Given()
  }

  datatype LoopChange = LoopChange(
    loopRef: RowRef, status: LoopStatus, nextAction: string, owner: Option<string>,
    dueAt: Option<string>, blockedOn: Option<string>, closeOutcome: Option<string>) {
    const loopId: Option<RowId> := loopRef.Given()
  }

  datatype Event = Event(kind: string, summary: string, at: Option<string>)

  /** A terminal is one (kind, id) at one snapshot; `resolutionKey` of the source. */
  datatype TerminalKey = TerminalKey(kind: Kind, id: RowId, state: StateId)

  datatype Decision = Accept(ordinal: nat) | Reject

  datatype ResolutionRequest = ResolutionRequest(key: TerminalKey, accept: bool, acceptedOrdinal: Option<int>)

  datatype ResultVersion = V1 | V2 | V3
  datatype Operation = Write | Reconcile | Record | Patch

  datatype Params = Params(
    agent: Principal, expectedRevision: Option<int>, key: string, resultVersion: ResultVersion,
    operation: Operation, state: Option<Json>, statePatch: Option<Json>,
    events: seq<Event>, factChanges: seq<FactChange>, loopChanges: seq<LoopChange>, evidenceRefs: seq<string>,
    acknowledgeRetired: bool, expectedHeads: seq<StateId>, expectedPointer: Option<StateId>,
    survivor: StateId, reason: string, strict: Option<bool>,
    resolutions: seq<ResolutionRequest>, rejectLineages: seq<StateId>)

  datatype Normalized = Normalized(
    expectedHeads: set<StateId>, expectedPointer: Option<StateId>, survivor: StateId, reason: string,
    strict: bool, resolutions: map<TerminalKey, Decision>, rejectLineages: set<StateId>,
    acknowledgeRetired: bool)

  // ----- Persisted values

  datatype Counts = Counts(facts: nat, loops: nat)

  datatype ReconciliationRecord = ReconciliationRecord(
    expectedHeads: set<StateId>, survivor: StateId, retired: set<StateId>, expectedPointer: Option<StateId>,
    reason: string, strict: bool, resolutions: map<TerminalKey, Decision>, adoptedRetired: set<StateId>,
    unresolvedDivergent: Counts)

  datatype Envelope = Envelope(
    state: Json, events: seq<Event>, factChanges: seq<FactChange>, loopChanges: seq<LoopChange>,
    evidenceRefs: seq<string>, reconciliation: Option<ReconciliationRecord>)

  datatype Fingerprint = Fingerprint(
    agent: Principal, expectedRevision: Option<int>, parent: Option<StateId>, resultVersion: ResultVersion,
    operation: Operation, reconcile: Option<Normalized>, patch: Option<Json>, acknowledgeRetired: bool,
    content: Envelope)

  datatype Applied = Applied(id: RowId, created: bool)

  datatype Changes = Changes(facts: seq<Applied>, loops: seq<Applied>) {
    function Of(k: Kind): seq<Applied> {
      if k == Fact then facts else loops
    }
  }

  /** `digest` is changes_hash; a snapshot that predates the change ledger has none. */
  datatype Snapshot = Snapshot(
    parent: Option<StateId>, revision: nat, envelope: Envelope, fingerprint: Fingerprint, key: string,
    author: Principal, recordedAt: Time, digest: Option<Changes>)

  datatype Refs = Refs(evidence: seq<string>, source: seq<string>, contradicts: seq<string>)

  datatype CloseEvent = CloseEvent(closedAt: Time, closedBy: Principal, outcome: string)

  datatype Value =
    | FactValue(subject: string, predicate_: string, object_: string, factStatus: FactStatus,
                effectiveAt: Option<string>, refs: Refs)
    | LoopValue(owner: string, loopStatus: LoopStatus, nextAction: string, dueAt: Option<string>,
                blockedOn: Option<string>, close: Option<CloseEvent>)

  datatype Version = Version(value: Value, author: Principal, recordedAt: Time)

  /** What two versions are compared by: a loop's close time and actor do not count. */
  datatype Comparable =
    | ComparableFact(fact: Value)
    | ComparableLoop(owner: string, status: LoopStatus, nextAction: string, dueAt: Option<string>,
                     blockedOn: Option<string>, closeOutcome: Option<string>)

  // ----- Tables

  /** One entry of a snapshot's change ledger. */
  datatype Tuple = Tuple(state: StateId, kind: Kind, ordinal: nat)

  datatype Disposition = Materialized | Unversioned
  datatype Source = ByWrite | ByBackfill
  datatype Coverage = Coverage(id: RowId, disposition: Disposition, source: Source)

  datatype VersionKey = VersionKey(id: RowId, tuple: Tuple)

  datatype PointerReason = FirstWrite | Advance | ByReconcile
  datatype Pointer = Pointer(state: StateId, advancedAt: Time, advancedBy: Principal, reason: PointerReason)

  datatype Retirement = Retirement(retiredBy: StateId, retiredAt: Time, actor: Principal, reason: string)

  datatype ResolutionKey = ResolutionKey(terminal: TerminalKey, resolvedBy: StateId)

  datatype FactRow = FactRow(
    subject: string, predicate_: string, object_: string, status: FactStatus, author: Principal,
    recordedAt: Time, effectiveAt: Option<string>,
    evidence: set<string>, source: set<string>, contradicts: set<string>)

  datatype LoopRow = LoopRow(
    owner: string, status: LoopStatus, openedAt: Time, updatedAt: Time, dueAt: Option<string>,
    blockedOn: Option<string>, nextAction: string, close: Option<CloseEvent>, revision: nat)

  type Snaps = map<StateId, Snapshot>
  type Ledger = map<Tuple, Applied>
  type CoverageRows = map<Tuple, Coverage>
  type Versions = map<VersionKey, Version>
  type Facts = map<RowId, FactRow>
  type Loops = map<RowId, LoopRow>
  type Retirements = map<StateId, Retirement>

  datatype Tables = Tables(
    snaps: Snaps,
    pointer: Option<Pointer>,
    retirements: Retirements,
    inputs: set<(StateId, StateId)>,
    resolutions: map<ResolutionKey, Decision>,
    ledger: Ledger,
    coverage: CoverageRows,
    versions: Versions,
    backfilled: set<StateId>,
    facts: Facts,
    loops: Loops)

  /** The UUIDs one checkpoint draws: its own, and one for each change that creates a row. */
  datatype Uuids = Uuids(state: StateId, facts: seq<RowId>, loops: seq<RowId>)

  // ----- Results

  datatype ReconciledBlock = ReconciledBlock(
    survivor: StateId, retired: set<StateId>, pointer: StateId, resolutions: map<TerminalKey, Decision>,
    adoptedRetired: set<StateId>, unresolvedDivergent: Counts)

  datatype Error =
    | StateRequired
    | BadPatch
    | BadParentState
    | EmptyScope
    | BadChange
    | ReconcileRefused
    | RetiredParent
    | IntegrityFailure

  datatype Outcome =
    | Written(stateId: StateId, revision: nat, parent: Option<StateId>, contentHash: Envelope,
              changes: Option<Changes>, reconciled: Option<ReconciledBlock>)
    | Replayed(stateId: StateId, revision: nat, contentHash: Envelope,
               changes: Option<Changes>, reconciled: Option<ReconciledBlock>)
    | Conflict(heads: set<StateId>, pointer: Option<StateId>)
    | Mismatch(stateId: StateId, expected: Fingerprint, received: Fingerprint)
    | Failed(error: Error)
}
