/**
 The stored evidence of every reconcile keeps verifying: the merge-input, retirement and
 resolution rows of each reconcile snapshot, and the values it accepted.
 */
module Evidence {
  import opened Options
  import opened Types
  import opened Tree
  import opened Heads
  import opened Newest
  import opened ChangeLog
  import opened Divergence
  import opened Verifiers
  import opened Evaluation
  import opened Protocol
  import opened Invariants
  import opened Growth

  /** What admitting a reconcile establishes. */
  ghost predicate ReconcileAdmitted(t: Tables, p: Params, parent: Option<StateId>, record: ReconciliationRecord,
                                    n: Normalized) {
    && Normalize(p) == Some(n)
    && n.survivor in n.expectedHeads && n.expectedHeads == LiveHeads(t)
    && n.expectedPointer == ScopePointer(t)
    && parent == Some(n.survivor)
    && EvidenceVerifies(t, n.survivor)
    && Admits(t, n, p.factChanges, p.loopChanges, p.agent)
    && record == RecordOf(t, n)
  }

  lemma AdmittedReconcile(t: Tables, p: Params, parent: Option<StateId>, adm: Admitted)
    requires AdmittedBy(t, p, parent, adm) && adm.record.Some?
    ensures Normalize(p).Some?
    ensures ReconcileAdmitted(t, p, parent, adm.record.value, Normalize(p).value)
  {
    hide EvidenceVerifies, Admits, RecordOf, EffectiveCurrentHead, ValidWorkingState;
  }

  lemma RecordIffReconcile(t: Tables, p: Params, parent: Option<StateId>, adm: Admitted)
    requires AdmittedBy(t, p, parent, adm)
    ensures adm.record.Some? <==> OperationOf(p) == Reconcile
  {
    hide EvidenceVerifies, Admits, RecordOf, EffectiveCurrentHead, ValidWorkingState, Normalize;
  }

  // ----- Which snapshots a reconcile retires

  /** A live head other than the survivor is on no lineage through the survivor. */
  lemma RetiredOffLineage(s: Snaps, retired: set<StateId>, head: StateId, h: StateId)
    requires TreeOk(s) && head in s && h in Live(s, retired)
    ensures h in Ancestry(s, head) ==> h == head
  {
    if h in Ancestry(s, head) {
      AncestorFacts(s, head, h);
    }
  }

  lemma RecordRetires(t: Tables, n: Normalized)
    requires n.expectedHeads == LiveHeads(t)
    ensures RecordOf(t, n).retired == LiveHeads(t) - {n.survivor}
    ensures RecordOf(t, n).retired !! t.retirements.Keys
    ensures RecordOf(t, n).retired <= t.snaps.Keys
  {
  }

  // ----- Reconciles committed earlier

  lemma AdoptedUnchanged(t: Tables, t': Tables, n: StateId, survivor: StateId)
    requires TreeOk(t.snaps) && Extends(t.snaps, t'.snaps, n) && survivor in t.snaps
    requires t.retirements.Keys <= t'.retirements.Keys
    requires forall h :: h in t'.retirements && h !in t.retirements ==> h in LiveHeads(t)
    requires survivor in t'.retirements ==> survivor in t.retirements
    ensures AdoptedBy(t', survivor) == AdoptedBy(t, survivor)
  {
    LineageExtends(t.snaps, t'.snaps, n);
    forall h | h in t'.retirements && h in Ancestry(t.snaps, survivor) ensures h in t.retirements {
      if h !in t.retirements {
        RetiredOffLineage(t.snaps, t.retirements.Keys, survivor, h);
      }
    }
  }

  lemma ComparableNewestKept(t: Tables, t': Tables, n: StateId, key: TerminalKey)
    requires TreeOk(t.snaps) && Extends(t.snaps, t'.snaps, n) && RowsGrown(t, t', n)
    requires key.state in t.snaps
    ensures ComparableNewest(t'.snaps, t'.ledger, t'.versions, key) ==
      ComparableNewest(t.snaps, t.ledger, t.versions, key)
  {
    ExtendsTreeOk(t.snaps, t'.snaps, n);
    NewestFrame(t.snaps, t.ledger, t'.snaps, t'.ledger, {key.state}, key.kind, key.id);
    NewestKeyState(t, key);
    NewestKeyState(t', key);
    ComparableFrame(t, t', n, key);
  }

  lemma NewestKeyState(t: Tables, key: TerminalKey)
    ensures var x := NewestOf(t.snaps, t.ledger, {key.state}, key.kind, key.id);
      x.Some? ==> x.value in t.ledger && x.value.state == key.state
  {
  }

  lemma ComparableFrame(t: Tables, t': Tables, n: StateId, key: TerminalKey)
    requires RowsGrown(t, t', n) && key.state != n
    requires NewestOf(t'.snaps, t'.ledger, {key.state}, key.kind, key.id) ==
      NewestOf(t.snaps, t.ledger, {key.state}, key.kind, key.id)
    requires var x := NewestOf(t.snaps, t.ledger, {key.state}, key.kind, key.id);
      x.Some? ==> x.value in t.ledger && x.value.state == key.state
    ensures ComparableNewest(t'.snaps, t'.ledger, t'.versions, key) ==
      ComparableNewest(t.snaps, t.ledger, t.versions, key)
  {
    hide NewestOf;
  }

  /** Rows of an earlier reconcile, and the accepts they back, are untouched by a later step. */
  lemma AcceptKept(t: Tables, t': Tables, n: StateId, a: StateId, key: TerminalKey, o: nat)
    requires TreeOk(t.snaps) && LedgerOk(t.snaps, t.ledger) && Extends(t.snaps, t'.snaps, n) && RowsGrown(t, t', n)
    requires a in t.snaps && AcceptBacked(t, a, key, o)
    ensures AcceptBacked(t', a, key, o)
  {
    NewestKeyState(t, key);
    ComparableNewestKept(t, t', n, key);
    hide ComparableNewest, LedgerVerifies, TreeOk;
    forall y | TupleOn(t'.ledger, {a}, key.kind, key.id, y) ensures y.ordinal <= o {
      assert TupleOn(t.ledger, {a}, key.kind, key.id, y);
    }
  }

  lemma RowsKept(t: Tables, t': Tables, n: StateId, a: StateId, record: ReconciliationRecord)
    requires EvidenceGrown(t, t', n) && a != n && a in t.snaps && a in t'.snaps && t'.snaps[a] == t.snaps[a]
    requires RowsOf(t, a, record) && ResolutionRows(t, a, record)
    ensures RowsOf(t', a, record) && ResolutionRows(t', a, record)
  {
  }

  lemma ParityKept(t: Tables, t': Tables, n: StateId, a: StateId, record: ReconciliationRecord)
    requires TreeOk(t.snaps) && LedgerOk(t.snaps, t.ledger) && LedgerOk(t'.snaps, t'.ledger)
    requires Extends(t.snaps, t'.snaps, n) && RowsGrown(t, t', n) && EvidenceGrown(t, t', n)
    requires forall h :: h in t'.retirements && h !in t.retirements ==> h in LiveHeads(t)
    requires t'.pointer == t.pointer || (t'.pointer.Some? && t'.pointer.value.state == n)
    requires ReconcileParity(t, a, record)
    ensures ReconcileParity(t', a, record)
  {
    assert HasChild(t.snaps, record.survivor);
    AdoptedUnchanged(t, t', n, record.survivor);
    RowsKept(t, t', n, a, record);
    hide RowsOf, ResolutionRows, AdoptedBy, EvidenceGrown;
    forall key | key in record.resolutions && record.resolutions[key].Accept?
      ensures AcceptBacked(t', a, key, record.resolutions[key].ordinal)
    {
      AcceptKept(t, t', n, a, key, record.resolutions[key].ordinal);
    }
    hide AcceptBacked, RowsGrown, LedgerVerifies, TreeOk;
  }

  lemma SnapReconcileKept(t: Tables, t': Tables, n: StateId, a: StateId)
    requires TreeOk(t.snaps) && LedgerOk(t.snaps, t.ledger) && LedgerOk(t'.snaps, t'.ledger)
    requires Extends(t.snaps, t'.snaps, n) && RowsGrown(t, t', n) && EvidenceGrown(t, t', n)
    requires forall h :: h in t'.retirements && h !in t.retirements ==> h in LiveHeads(t)
    requires t'.pointer == t.pointer || (t'.pointer.Some? && t'.pointer.value.state == n)
    requires a in t.snaps && SnapReconcileOk(t, a)
    ensures SnapReconcileOk(t', a)
  {
    match t.snaps[a].envelope.reconciliation
    case Some(record) => ParityKept(t, t', n, a, record);
    case None =>
      hide RowsGrown, TreeOk, LedgerOk;
      assert OwnsNoRows(t', a);
  }

  // ----- The reconcile a step commits

  lemma OwnRows(t: Tables, t': Tables, n: StateId, by_: Principal, now: Time, record: ReconciliationRecord)
    requires RowsOwned(t) && n !in t.snaps && record.retired !! t.retirements.Keys
    requires forall h :: h in t.retirements ==> t.retirements[h].retiredBy in t.snaps
    requires n in t'.snaps && t'.snaps[n].author == by_ && t'.snaps[n].recordedAt == now
    requires t'.retirements == t.retirements + RetirementRows(Some(record), n, by_, now)
    requires t'.inputs == t.inputs + InputRows(Some(record), n)
    requires t'.resolutions == t.resolutions + RecordedResolutions(Some(record), n)
    ensures RowsOf(t', n, record) && ResolutionRows(t', n, record)
  {
    forall i ensures (n, i) in t'.inputs <==> i in record.retired {
      assert (n, i) !in t.inputs;
    }
  }

  /** The ordinal an admitted accept names is the last change of the id, creations included. */
  lemma AcceptIsLast(t: Tables, p: Params, u: Uuids, now: Time, f: FactsApplied, l: LoopsApplied, key: TerminalKey,
                     o: nat)
    requires FreshUuids(t, p, u) && FactsDone(t, p, u, now) == Some(f) && LoopsDone(t, p, u, now) == Some(l)
    requires key.id != ""
    requires key.kind == Fact ==> NamesFact(p.factChanges, key.id, o)
    requires key.kind == Loop ==> NamesLoop(p.loopChanges, key.id, o)
    ensures LastNaming(Changes(f.out, l.out).Of(key.kind), key.id, o)
  {
    hide ApplyFacts, ApplyLoops;
    FactsAppliedShape(t.facts, p.factChanges, u.facts, p.agent, now, |p.factChanges|);
    LoopsAppliedShape(t.loops, p.loopChanges, u.loops, p.agent, now, |p.loopChanges|);
  }

  lemma FactAcceptRecords(t: Tables, p: Params, u: Uuids, now: Time, t': Tables, parent: Option<StateId>, adm: Admitted,
                          f: FactsApplied, l: LoopsApplied, key: TerminalKey, o: nat)
    requires RowsOk(t) && Wrote(t, p, u, now, t', parent, adm, f, l)
    requires key.kind == Fact && LastNaming(f.out, key.id, o)
    ensures ComparableAt(t'.versions, key.id, Tuple(u.state, Fact, o)) ==
      Some(Comparing(FactVersionValue(p.factChanges[o])))
  {
    VersionWritten(t, p, u, now, t', parent, adm, f, l, key.id, Tuple(u.state, Fact, o));
    hide *;
    ComparableOf(t'.versions, key.id, Tuple(u.state, Fact, o),
                 Version(FactVersionValue(p.factChanges[o]), p.agent, now));
  }

  lemma ComparableOf(v: Versions, id: RowId, x: Tuple, w: Version)
    requires VersionKey(id, x) in v && v[VersionKey(id, x)] == w
    ensures ComparableAt(v, id, x) == Some(Comparing(w.value))
  {
  }

  /** The comparable form predicted for a loop change is that of the version it records. */
  lemma PredictedLoop(rows: Loops, cs: seq<LoopChange>, ids: seq<RowId>, author: Principal, now: Time, o: nat)
    requires o < |cs| && LoopIdsFresh(rows, cs, ids) && ApplyLoops(rows, cs, ids, author, now, |cs|).Some?
    requires Truthy(cs[o].loopId)
    ensures |ApplyLoops(rows, cs, ids, author, now, |cs|).value.owners| == |cs|
    ensures Comparing(LoopVersionValue(cs[o], ApplyLoops(rows, cs, ids, author, now, |cs|).value.owners[o], author,
                                       now))
            == RequestedLoop(rows, cs, o, author)
  {
    OwnerPrediction(rows, cs, ids, author, now, |cs|, o);
    LoopsAppliedShape(rows, cs, ids, author, now, |cs|);
    hide ApplyLoops, EffectiveLoopOwnerAt, LoopIdsFresh;
  }

  lemma LoopAcceptRecords(t: Tables, p: Params, u: Uuids, now: Time, t': Tables, parent: Option<StateId>, adm: Admitted,
                          f: FactsApplied, l: LoopsApplied, key: TerminalKey, o: nat)
    requires RowsOk(t) && Wrote(t, p, u, now, t', parent, adm, f, l)
    requires key.kind == Loop && key.id != "" && NamesLoop(p.loopChanges, key.id, o) && LastNaming(l.out, key.id, o)
    ensures ComparableAt(t'.versions, key.id, Tuple(u.state, Loop, o)) ==
      Some(RequestedLoop(t.loops, p.loopChanges, o, p.agent))
  {
    VersionWritten(t, p, u, now, t', parent, adm, f, l, key.id, Tuple(u.state, Loop, o));
    PredictedLoop(t.loops, p.loopChanges, u.loops, p.agent, now, o);
    hide WrittenTables, RowsOk, ApplyLoops, ApplyFacts, RequestedLoop, LoopIdsFresh, FactIdsFresh, Comparing;
    ComparableOf(t'.versions, key.id, Tuple(u.state, Loop, o),
                 Version(LoopVersionValue(p.loopChanges[o], l.owners[o], p.agent, now), p.agent, now));
  }

  /** An admitted accept, once written, records exactly the divergent value. */
  lemma AcceptRecords(t: Tables, p: Params, u: Uuids, now: Time, t': Tables, parent: Option<StateId>, adm: Admitted,
                      f: FactsApplied, l: LoopsApplied, key: TerminalKey, o: nat)
    requires RowsOk(t) && Wrote(t, p, u, now, t', parent, adm, f, l)
    requires key.id != "" && AcceptAdmitted(t, key, o, p.factChanges, p.loopChanges, p.agent)
    requires LastNaming(Changes(f.out, l.out).Of(key.kind), key.id, o)
    ensures ComparableAt(t'.versions, key.id, Tuple(u.state, key.kind, o)).Some?
    ensures ComparableAt(t'.versions, key.id, Tuple(u.state, key.kind, o)) ==
      ComparableNewest(t.snaps, t.ledger, t.versions, key)
  {
    hide Wrote, RowsOk, ComparableNewest, RequestedLoop, ComparableAt;
    if key.kind == Fact {
      FactAcceptRecords(t, p, u, now, t', parent, adm, f, l, key, o);
    } else {
      LoopAcceptRecords(t, p, u, now, t', parent, adm, f, l, key, o);
    }
  }

  lemma AcceptBackedByStep(t: Tables, p: Params, u: Uuids, now: Time, t': Tables, parent: Option<StateId>,
                           adm: Admitted, f: FactsApplied, l: LoopsApplied, key: TerminalKey, o: nat)
    requires TreeOk(t.snaps) && RowsOk(t) && Wrote(t, p, u, now, t', parent, adm, f, l)
    requires key.id != "" && key.state in t.snaps && AcceptAdmitted(t, key, o, p.factChanges, p.loopChanges, p.agent)
    ensures AcceptBacked(t', u.state, key, o)
    ensures LastNaming(Changes(f.out, l.out).Of(key.kind), key.id, o)
  {
    var ch := Changes(f.out, l.out);
    AcceptIsLast(t, p, u, now, f, l, key, o);
    AcceptRecords(t, p, u, now, t', parent, adm, f, l, key, o);
    WroteExtends(t, p, u, now, t', parent, adm, f, l);
    WroteRowsGrown(t, p, u, now, t', parent, adm, f, l);
    ComparableNewestKept(t, t', u.state, key);
    NoRowsYet(t, u.state);
    hide Wrote, RowsOk, ComparableNewest, ComparableAt, AcceptAdmitted, TreeOk, LedgerRows, WrittenCoverage, Extends,
         RowsGrown;
    BackedBy(t', t.ledger, LedgerRows(u.state, ch), u.state, ch, key, o);
  }

  lemma BackedBy(t': Tables, l: Ledger, rows: Ledger, n: StateId, ch: Changes, key: TerminalKey, o: nat)
    requires t'.ledger == l + rows && RowsFor(rows, n, ch) && forall x :: x in l ==> x.state != n
    requires LastNaming(ch.Of(key.kind), key.id, o)
    requires ComparableAt(t'.versions, key.id, Tuple(n, key.kind, o)).Some?
    requires ComparableAt(t'.versions, key.id, Tuple(n, key.kind, o)) ==
      ComparableNewest(t'.snaps, t'.ledger, t'.versions, key)
    ensures AcceptBacked(t', n, key, o)
  {
    hide ComparableAt, ComparableNewest;
    forall y | TupleOn(t'.ledger, {n}, key.kind, key.id, y) ensures y.ordinal <= o {
      assert y in rows;
    }
  }

  lemma UnresolvedNamed(t: Tables, head: StateId, key: TerminalKey)
    requires LedgerOk(t.snaps, t.ledger) && key in Unresolved(t, head)
    ensures key.id != "" && key.state in t.snaps
  {
    var x :| x in t.ledger && KeyOf(t.ledger, x) == key;
    assert LedgerVerifies(t.snaps, t.ledger, x.state);
  }

  lemma WroteEvidence(t: Tables, p: Params, u: Uuids, now: Time, t': Tables, parent: Option<StateId>, adm: Admitted,
                      f: FactsApplied, l: LoopsApplied)
    requires Wrote(t, p, u, now, t', parent, adm, f, l)
    ensures t'.retirements == t.retirements + RetirementRows(adm.record, u.state, p.agent, now)
    ensures t'.inputs == t.inputs + InputRows(adm.record, u.state)
    ensures t'.resolutions == t.resolutions + RecordedResolutions(adm.record, u.state)
    ensures t'.pointer == if adm.record.Some? then Some(Pointer(u.state, now, p.agent, ByReconcile))
                          else PointerAfterInsert(t.snaps, t.retirements.Keys, t.pointer, u.state, parent, p.agent, now)
    ensures u.state !in t.snaps && u.state !in t.retirements
    ensures forall a :: a in t.snaps ==> t.snaps[a].parent != Some(u.state)
    ensures t.pointer.Some? ==> t.pointer.value.state != u.state
    ensures t'.backfilled == t.backfilled && u.state !in t.backfilled
  {
    hide FactsDone, LoopsDone, FingerprintOf, LedgerRows, WrittenVersions, WrittenCoverage, LoopIdsFresh, FactIdsFresh,
         RetirementRows, InputRows, RecordedResolutions, PointerAfterInsert, NewSnapshot;
  }

  lemma AcceptsBacked(t: Tables, p: Params, u: Uuids, now: Time, t': Tables, parent: Option<StateId>, adm: Admitted,
                      f: FactsApplied, l: LoopsApplied, n: Normalized)
    requires TreeOk(t.snaps) && RowsOk(t) && Wrote(t, p, u, now, t', parent, adm, f, l)
    requires adm.record.Some? && ReconcileAdmitted(t, p, parent, adm.record.value, n)
    ensures forall key :: key in adm.record.value.resolutions && adm.record.value.resolutions[key].Accept? ==>
      && AcceptBacked(t', u.state, key, adm.record.value.resolutions[key].ordinal)
      && key in n.resolutions
      && LastNaming(Changes(f.out, l.out).Of(key.kind), key.id, adm.record.value.resolutions[key].ordinal)
  {
    hide Wrote, TreeOk, EvidenceVerifies, Admits, Outcomes, LeftOpen, AcceptBacked, Normalize, LedgerOk, LastNaming,
         AdoptedBy, AcceptAdmitted;
    var record := adm.record.value;
    forall key | key in record.resolutions && record.resolutions[key].Accept?
      ensures AcceptBacked(t', u.state, key, record.resolutions[key].ordinal) && key in n.resolutions
      ensures LastNaming(Changes(f.out, l.out).Of(key.kind), key.id, record.resolutions[key].ordinal)
    {
      OutcomeIsRequested(t, p, n, key);
      AcceptBackedByStep(t, p, u, now, t', parent, adm, f, l, key, record.resolutions[key].ordinal);
    }
  }

  lemma OwnEvidence(t: Tables, p: Params, u: Uuids, now: Time, t': Tables, parent: Option<StateId>, adm: Admitted,
                    f: FactsApplied, l: LoopsApplied, n: Normalized)
    requires TreeOk(t.snaps) && RetirementsOk(t) && RowsOwned(t) && Wrote(t, p, u, now, t', parent, adm, f, l)
    requires adm.record.Some? && ReconcileAdmitted(t, p, parent, adm.record.value, n)
    ensures AdoptedBy(t', n.survivor) == AdoptedBy(t, n.survivor)
    ensures RowsOf(t', u.state, adm.record.value) && ResolutionRows(t', u.state, adm.record.value)
  {
    hide Wrote, Admits, EvidenceVerifies, Outcomes, LeftOpen, Normalize, TreeOk, AdoptedBy, RowsOf, ResolutionRows;
    RecordRetires(t, n);
    WroteExtends(t, p, u, now, t', parent, adm, f, l);
    WroteEvidence(t, p, u, now, t', parent, adm, f, l);
    AdoptedUnchanged(t, t', u.state, n.survivor);
    OwnRows(t, t', u.state, p.agent, now, adm.record.value);
  }

  /**
   A reconcile that was admitted and whose changes applied passes its own replay parity: the
   check before commit can never fail in a state that satisfies the invariant.
   */
  lemma OwnParityHolds(t: Tables, p: Params, u: Uuids, now: Time, t': Tables, parent: Option<StateId>, adm: Admitted,
                       f: FactsApplied, l: LoopsApplied, n: Normalized)
    requires TreeOk(t.snaps) && RowsOk(t) && RetirementsOk(t) && RowsOwned(t) &&
      Wrote(t, p, u, now, t', parent, adm, f, l)
    requires adm.record.Some? && ReconcileAdmitted(t, p, parent, adm.record.value, n)
    ensures ReconcileParity(t', u.state, adm.record.value)
  {
    hide Wrote, TreeOk, RetirementsOk, RowsOwned, Admits, EvidenceVerifies, Outcomes, LeftOpen, Normalize, AdoptedBy,
         AcceptBacked, RowsOf, ResolutionRows, LastNaming, LiveHeads, ScopePointer, CoverageOk, VersionsOk, RowsExist,
         LedgerVerifies;
    AcceptsBacked(t, p, u, now, t', parent, adm, f, l, n);
    OwnEvidence(t, p, u, now, t', parent, adm, f, l, n);
    RowsOkKept(t, p, u, now, t', parent, adm, f, l);
    WroteExtends(t, p, u, now, t', parent, adm, f, l);
    WroteEvidence(t, p, u, now, t', parent, adm, f, l);
  }

  lemma OutcomeIsRequested(t: Tables, p: Params, n: Normalized, key: TerminalKey)
    requires LedgerOk(t.snaps, t.ledger) && Admits(t, n, p.factChanges, p.loopChanges, p.agent)
    requires key in Outcomes(t, n) && Outcomes(t, n)[key].Accept?
    ensures key.id != "" && key.state in t.snaps && key in n.resolutions
    ensures AcceptAdmitted(t, key, Outcomes(t, n)[key].ordinal, p.factChanges, p.loopChanges, p.agent)
  {
    hide AcceptAdmitted;
    UnresolvedNamed(t, n.survivor, key);
  }
}
