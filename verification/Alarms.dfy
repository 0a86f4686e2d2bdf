/** When an integrity failure can be reported at all, and what one harmful blank costs a scope. */
module Alarms {
  import opened Options
  import opened JsonValues
  import opened Types
  import opened Tree
  import opened Heads
  import opened ChangeLog
  import opened Verifiers
  import opened Evaluation
  import opened Protocol
  import opened Invariants
  import opened Evidence
  import opened Runs
  import opened VersionFoundation

  // ----- The other verifiers never alarm

  /** Retirement attribution, scope-wide rows and reconcile parity hold in every state of the invariant. */
  lemma EvidenceNeverAlarms(t: Tables, head: StateId)
    requires Inv(t)
    ensures RetirementAttribution(t) && RowsScopeWide(t) && ResolutionRowsOnLineage(t, head)
    ensures forall a :: a in t.snaps && t.snaps[a].envelope.reconciliation.Some? ==>
      ReconcileParity(t, a, t.snaps[a].envelope.reconciliation.value)
  {
    hide TreeOk, KeysUnique, FingerprintsOk, RowsOk, InPlaceOk, PointerOk, RowsOf, ResolutionRows, AcceptBacked,
         OwnsNoRows, Ancestry, LedgerVerifies, AdoptedBy;
    forall a | a in t.snaps && t.snaps[a].envelope.reconciliation.Some?
      ensures ReconcileParity(t, a, t.snaps[a].envelope.reconciliation.value)
    {
      assert SnapReconcileOk(t, a);
    }
  }

  lemma ReplayNeverAlarms(t: Tables, p: Params, a: StateId, parent: Option<StateId>)
    requires Inv(t) && a in t.snaps
    ensures ReplayOf(t, p, a, FingerprintOf(p, parent)) != Failed(IntegrityFailure)
  {
    EvidenceNeverAlarms(t, a);
    hide TreeOk, KeysUnique, InPlaceOk, PointerOk, RetirementsOk, RowsOwned, ReconcilesOk, ReconcileParity,
         RowsScopeWide, RetirementAttribution, ResolutionRowsOnLineage, CoverageOk, VersionsOk, RowsExist,
         LedgerVerifies, Normalize;
  }

  lemma AdmissionAlarm(t: Tables, p: Params, parent: Option<StateId>)
    requires Inv(t) && Precheck(p).None? && AdmissionOf(t, p, parent) == Refuse(Failed(IntegrityFailure))
    ensures OperationOf(p) == Reconcile && !VersionParity(t)
  {
    hide Inv, AdmitDerived, AdmitReconcile, Normalize, Precheck, LiveHeads, VersionParity;
    DerivedNeverAlarms(t, p, parent);
    if OperationOf(p) == Reconcile {
      NormalizedByPrecheck(p);
      ReconcileAlarm(t, p, Normalize(p).value, parent);
    }
  }

  lemma NormalizedByPrecheck(p: Params)
    requires Precheck(p).None? && OperationOf(p) == Reconcile
    ensures Normalize(p).Some?
  {
    hide Normalize;
  }

  lemma DerivedNeverAlarms(t: Tables, p: Params, parent: Option<StateId>)
    ensures AdmitDerived(t, p, parent) != Refuse(Failed(IntegrityFailure))
  {
    hide ValidWorkingState, MergePatch.Merge, Live;
  }

  lemma ReconcileAlarm(t: Tables, p: Params, n: Normalized, parent: Option<StateId>)
    requires Inv(t) && AdmitReconcile(t, p, n, parent) == Refuse(Failed(IntegrityFailure))
    ensures !VersionParity(t)
  {
    hide Inv, VersionParity, RetirementAttribution, RowsScopeWide, ResolutionRowsOnLineage, Admits, RecordOf, Live;
    EvidenceNeverAlarms(t, n.survivor);
  }

  lemma CommitNeverAlarms(t: Tables, p: Params, u: Uuids, now: Time, parent: Option<StateId>, adm: Admitted)
    requires Inv(t) && FreshUuids(t, p, u) && ByKey(t.snaps, p.key).None?
    requires parent == ByRevision(t.snaps, p.expectedRevision) && AdmittedBy(t, p, parent, adm)
    ensures Commit(t, p, parent, adm, u, now).1 != Failed(IntegrityFailure)
  {
    hide AdmittedBy, ReconcileAdmitted, WrittenTables, ReconcileParity, TreeOk, RowsOk, RetirementsOk, RowsOwned,
         InPlaceOk, KeysUnique, FingerprintsOk, PointerOk, ReconcilesOk, ApplyFacts, ApplyLoops, LoopIdsFresh,
         FactIdsFresh, ByKey, ByRevision, Normalize;
    var f, l := FactsDone(t, p, u, now), LoopsDone(t, p, u, now);
    if f.Some? && l.Some? && adm.record.Some? {
      FactsAppliedShape(t.facts, p.factChanges, u.facts, p.agent, now, |p.factChanges|);
      LoopsAppliedShape(t.loops, p.loopChanges, u.loops, p.agent, now, |p.loopChanges|);
      AdmittedReconcile(t, p, parent, adm);
      OwnParityHolds(t, p, u, now, WrittenTables(t, p, parent, adm, u, now, f.value, l.value), parent, adm, f.value,
                     l.value, Normalize(p).value);
    }
  }

  /**
   The exact source of integrity failures: in a state that satisfies the invariant a checkpoint
   fails with one only if it is a reconcile and version parity is broken.
   */
  lemma OnlyParityAlarms(t: Tables, p: Params, u: Uuids, now: Time)
    requires Inv(t) && FreshUuids(t, p, u) && Step(t, p, u, now).1 == Failed(IntegrityFailure)
    ensures OperationOf(p) == Reconcile && !VersionParity(t)
  {
    hide Inv, AdmissionOf, ReplayOf, Commit, FingerprintOf, VersionParity, LoopIdsFresh, FactIdsFresh;
    var parent := ByRevision(t.snaps, p.expectedRevision);
    match ByKey(t.snaps, p.key)
    case Some(a) => ReplayNeverAlarms(t, p, a, parent);
    case None =>
      PrecheckNeverAlarms(p);
      match AdmissionOf(t, p, parent)
      case Refuse(_) => AdmissionAlarm(t, p, parent);
      case Admit(adm) => CommitNeverAlarms(t, p, u, now, parent, adm);
  }

  lemma PrecheckNeverAlarms(p: Params)
    ensures Precheck(p) != Some(IntegrityFailure)
  {
    hide NormalizableRequest;
  }

  // ----- Once broken, broken for good

  lemma BrokenStaysBroken(t: Tables, p: Params, u: Uuids, now: Time)
    requires Inv(t) && FreshUuids(t, p, u) && !VersionParity(t)
    ensures !VersionParity(Step(t, p, u, now).0)
    ensures OperationOf(p) == Reconcile ==> !Step(t, p, u, now).1.Written?
  {
    hide Inv, Step, VersionParity, LoopIdsFresh, FactIdsFresh, AdmittedBy, Wrote, NoBlanks, ReconcileParity, ByKey,
         Precheck, EvidenceVerifies;
    var (t', o) := Step(t, p, u, now);
    if o.Written? {
      ParityIff(t, p, u, now, t');
      var parent, adm, f, l := StepWrote(t, p, u, now, t', o);
      RecordIffReconcile(t, p, parent, adm);
      if adm.record.Some? {
        AdmittedReconcile(t, p, parent, adm);
        EvidenceGivesParity(t, p, parent, adm);
      }
    } else {
      StepRefused(t, p, u, now);
    }
  }

  lemma EvidenceGivesParity(t: Tables, p: Params, parent: Option<StateId>, adm: Admitted)
    requires AdmittedBy(t, p, parent, adm) && adm.record.Some?
    ensures VersionParity(t)
  {
    hide AdmittedBy, VersionParity, RetirementAttribution, RowsScopeWide, ResolutionRowsOnLineage, Admits, RecordOf,
         Normalize;
    AdmittedReconcile(t, p, parent, adm);
  }

  /** Some call of the run is a reconcile that was written. */
  ghost predicate AnyReconcile(t: Tables, calls: seq<Call>)
    requires Admissible(t, calls)
    decreases |calls|
  {
    calls != [] &&
    ((OperationOf(calls[0].p) == Reconcile && Step(t, calls[0].p, calls[0].u, calls[0].now).1.Written?)
     || AnyReconcile(Next(t, calls[0]), calls[1..]))
  }

  /** After one harmful blank no reconcile ever succeeds again, whatever the run. */
  lemma {:induction false} NoReconcileEverAgain(t: Tables, calls: seq<Call>)
    requires Inv(t) && !VersionParity(t) && Admissible(t, calls)
    ensures !AnyReconcile(t, calls) && !VersionParity(Run(t, calls))
    decreases |calls|
  {
    hide Inv, Step, VersionParity, FreshUuids;
    if calls != [] {
      BrokenStaysBroken(t, calls[0].p, calls[0].u, calls[0].now);
      StepInv(t, calls[0].p, calls[0].u, calls[0].now);
      NoReconcileEverAgain(Next(t, calls[0]), calls[1..]);
    }
  }

  // ----- Without a harmful blank, never an alarm

  /** Every call that is written carries no harmful blank in the state it meets. */
  ghost predicate WrittenClean(t: Tables, calls: seq<Call>)
    requires Admissible(t, calls)
    decreases |calls|
  {
    calls == [] ||
    ((Step(t, calls[0].p, calls[0].u, calls[0].now).1.Written? ==> NoBlanks(t, calls[0].p))
     && WrittenClean(Next(t, calls[0]), calls[1..]))
  }

  /** No call of the run ends in an integrity failure. */
  ghost predicate NeverAlarms(t: Tables, calls: seq<Call>)
    requires Admissible(t, calls)
    decreases |calls|
  {
    calls == [] ||
    (Step(t, calls[0].p, calls[0].u, calls[0].now).1 != Failed(IntegrityFailure) &&
     NeverAlarms(Next(t, calls[0]), calls[1..]))
  }

  lemma ParityStepIff(t: Tables, p: Params, u: Uuids, now: Time)
    requires Inv(t) && FreshUuids(t, p, u)
    ensures VersionParity(Step(t, p, u, now).0) <==>
      VersionParity(t) && (Step(t, p, u, now).1.Written? ==> NoBlanks(t, p))
  {
    hide Inv, Step, VersionParity, LoopIdsFresh, FactIdsFresh, NoBlanks;
    if Step(t, p, u, now).1.Written? {
      ParityIff(t, p, u, now, Step(t, p, u, now).0);
    } else {
      StepRefused(t, p, u, now);
    }
  }

  /** Parity after a run, exactly: it held at the start and no written call carried a harmful blank. */
  lemma {:induction false} ParityRunIff(t: Tables, calls: seq<Call>)
    requires Inv(t) && Admissible(t, calls)
    ensures VersionParity(Run(t, calls)) <==> VersionParity(t) && WrittenClean(t, calls)
    decreases |calls|
  {
    hide Inv, Step, VersionParity, FreshUuids, NoBlanks;
    if calls != [] {
      var c := calls[0];
      ParityStepIff(t, c.p, c.u, c.now);
      StepInv(t, c.p, c.u, c.now);
      ParityRunIff(Next(t, c), calls[1..]);
      if !VersionParity(Next(t, c)) {
        NoReconcileEverAgain(Next(t, c), calls[1..]);
      }
    }
  }

  /** A run without harmful blanks ends in parity, and no call on the way ends in an integrity failure. */
  lemma {:induction false} CleanRunNeverAlarms(t: Tables, calls: seq<Call>)
    requires Inv(t) && VersionParity(t) && Admissible(t, calls) && WrittenClean(t, calls)
    ensures NeverAlarms(t, calls) && VersionParity(Run(t, calls))
    decreases |calls|
  {
    hide Inv, Step, VersionParity, LoopIdsFresh, FactIdsFresh, NoBlanks;
    if calls != [] {
      var c := calls[0];
      ParityStepIff(t, c.p, c.u, c.now);
      StepInv(t, c.p, c.u, c.now);
      if Step(t, c.p, c.u, c.now).1 == Failed(IntegrityFailure) {
        OnlyParityAlarms(t, c.p, c.u, c.now);
      }
      CleanRunNeverAlarms(Next(t, c), calls[1..]);
    }
  }

  // ----- A concrete harmful blank

  function EmptyTables(): Tables {
    Tables(map[], None, map[], {}, map[], map[], map[], map[], {}, map[], map[])
  }

  lemma EmptyIsLegacy()
    ensures Legacy(EmptyTables())
  {
  }

  /** A complete working state that says nothing. */
  function IdleState(): Json {
    Obj(map[Units("objective") := Str([]), Units("status") := Str([]), Units("owner") := Str([]),
            Units("nextActions") := Arr([]), Units("blockers") := Arr([]), Units("guardrails") := Arr([])])
  }

  lemma IdleIsValid()
    ensures ValidWorkingState(IdleState())
  {
    var props := IdleState().props;
    assert |Units("objective")| == 9 && |Units("status")| == 6 && |Units("owner")| == 5;
    assert |Units("nextActions")| == 11 && |Units("blockers")| == 8 && |Units("guardrails")| == 10;
    assert props[Units("objective")] == props[Units("status")] == props[Units("owner")] == Str([]);
    assert props[Units("nextActions")] == props[Units("blockers")] == props[Units("guardrails")] == Arr([]);
    hide Units;
  }

  /** The first write of a scope, with one fact change that names its row as given. */
  function FirstWrite(row: RowRef): Params {
    Params("agent", None, "key-0001", V1, Write, Some(IdleState()), None, [],
           [FactChange(row, "s", "p", "o", Asserted, [], [], None, None)], [], [],
           false, [], None, "", "", None, [], [])
  }

  function FirstUuids(): Uuids { Uuids("state", ["row"], []) }

  /** With an empty or a null id the very first write is admitted, written, and breaks parity. */
  lemma BlankBreaksParity(row: RowRef)
    requires BlankRef(row)
    ensures var t, p, u := EmptyTables(), FirstWrite(row), FirstUuids();
      && ValidWorkingState(p.state.value)
      && FreshUuids(t, p, u) && Step(t, p, u, "now").1.Written?
      && VersionParity(t) && !VersionParity(Step(t, p, u, "now").0)
  {
    hide EmptyTables, FirstWrite, FirstUuids, Inv, Legacy, Step, LoopIdsFresh, FactIdsFresh, VersionParity, NoBlanks;
    var t, p, u := EmptyTables(), FirstWrite(row), FirstUuids();
    IdleIsValid();
    EmptyIsLegacy();
    LegacyInv(t);
    FirstWriteFields(row);
    FirstWriteWritten(row);
    ParityIff(t, p, u, "now", Step(t, p, u, "now").0);
  }

  lemma FirstWriteFields(row: RowRef)
    ensures FirstWrite(row).state == Some(IdleState())
    ensures BlankRef(row) ==> !NoBlanks(EmptyTables(), FirstWrite(row))
    ensures VersionParity(EmptyTables())
  {
    assert FirstWrite(row).factChanges[0].factRef == row;
  }

  lemma FirstWriteWritten(row: RowRef)
    requires BlankRef(row)
    ensures FreshUuids(EmptyTables(), FirstWrite(row), FirstUuids())
    ensures Step(EmptyTables(), FirstWrite(row), FirstUuids(), "now").1.Written?
  {
    var t, p, u := EmptyTables(), FirstWrite(row), FirstUuids();
    FirstWriteAdmitted(row);
    FirstWriteApplies(row);
    hide EmptyTables, FirstWrite, FirstUuids, Precheck, AdmissionOf, ByKey, ByRevision, ApplyFacts, ApplyLoops,
         LoopIdsFresh, FactIdsFresh, FingerprintOf, WrittenTables, ReconcileParity, ReplayOf;
  }

  lemma FirstWriteAdmitted(row: RowRef)
    ensures var t, p := EmptyTables(), FirstWrite(row);
      && Precheck(p).None? && ByKey(t.snaps, p.key).None?
      && AdmissionOf(t, p, ByRevision(t.snaps, p.expectedRevision)) == Admit(Admitted(IdleState(), None))
  {
    hide Normalize, AdmitReconcile, AdmitDerived, ConflictOf, ConflictOrEmpty;
  }

  lemma FirstWriteApplies(row: RowRef)
    requires BlankRef(row)
    ensures var t, p, u := EmptyTables(), FirstWrite(row), FirstUuids();
      FreshUuids(t, p, u) && FactsDone(t, p, u, "now").Some? && LoopsDone(t, p, u, "now").Some?
  {
    var t, p, u := EmptyTables(), FirstWrite(row), FirstUuids();
    assert ApplyFacts(t.facts, p.factChanges, u.facts, p.agent, "now", 0).Some?;
    assert ApplyFacts(t.facts, p.factChanges, u.facts, p.agent, "now", 1).Some?;
    assert ApplyLoops(t.loops, p.loopChanges, u.loops, p.agent, "now", 0).Some?;
  }
}
