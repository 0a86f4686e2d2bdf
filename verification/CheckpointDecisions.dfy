/**
 The decision half of performCheckpoint: guards, idempotency, compare-and-swap and admission.
 Everything here reads; nothing writes.
 */
module CheckpointDecisions {
  import opened Options
  import opened JsonValues
  import opened Types
  import opened Tree
  import opened Heads
  import opened Divergence
  import opened Verifiers
  import opened Evaluation
  import opened Protocol
  import opened Invariants
  import opened ReconcileChecks
  import opened ReconcileDecisions
  import MergePatch

  /** How a request ends, or what it goes on to write below which parent. */
  datatype Verdict = Finished(outcome: Outcome) | Proceed(parent: Option<StateId>, adm: Admitted)

  ghost function VerdictOf(t: Tables, p: Params): Verdict {
    if Precheck(p).Some? then Finished(Failed(Precheck(p).value))
    else
      var parent := ByRevision(t.snaps, p.expectedRevision);
      var prior := ByKey(t.snaps, p.key);
      if prior.Some? then Finished(ReplayOf(t, p, prior.value, FingerprintOf(p, parent)))
      else
        match AdmissionOf(t, p, parent)
        case Refuse(outcome) => Finished(outcome)
        case Admit(adm) => Proceed(parent, adm)
  }

  lemma StepDecides(t: Tables, p: Params, u: Uuids, now: Time)
    requires Sized(p, u)
    ensures Step(t, p, u, now) ==
      match VerdictOf(t, p)
      case Finished(outcome) => (t, outcome)
      case Proceed(parent, adm) => Commit(t, p, parent, adm, u, now)
  {
    hide Precheck, ReplayOf, AdmissionOf, Commit, FingerprintOf;
  }

  /** The guards that run before the transaction opens. */
  method CheckRequest(p: Params) returns (error: Option<Error>, normalized: Option<Normalized>)
    ensures error == Precheck(p)
    ensures error.None? ==> normalized == if OperationOf(p) == Reconcile then Normalize(p) else None
  {
    hide Normalize, MergePatch.Admissible;
    var op := OperationOf(p);
    normalized := None;
    if !DerivesState(op) && !(p.state.Some? && (p.state.value.Obj? || p.state.value.Arr?)) {
      return Some(StateRequired), None;
    }
    if op == Patch {
      if !(p.statePatch.Some? && p.statePatch.value.Obj?) {
        return Some(BadPatch), None;
      }
      var dry := MergePatch.ApplyMergePatch(Obj(map[]), p.statePatch.value);
      if dry.None? {
        return Some(BadPatch), None;
      }
    }
    if op == Reconcile {
      normalized := NormalizeReconcileRequest(p);
      if normalized.None? {
        return Some(ReconcileRefused), None;
      }
    }
    return None, normalized;
  }

  method FindRevision(s: Snaps, revision: Option<int>) returns (a: Option<StateId>)
    requires TreeOk(s)
    ensures a == ByRevision(s, revision)
  {
    if revision.Some? {
      if exists b :: b in s && s[b].revision == revision.value {
        var b :| b in s && s[b].revision == revision.value;
        return Some(b);
      }
    }
    return None;
  }

  method FindKey(s: Snaps, key: string) returns (a: Option<StateId>)
    requires KeysUnique(s)
    ensures a == ByKey(s, key)
  {
    if exists b :: b in s && s[b].key == key {
      var b :| b in s && s[b].key == key;
      return Some(b);
    }
    return None;
  }

  /** requestFingerprint, before hashing. */
  method FingerprintRequest(p: Params, parent: Option<StateId>, normalized: Option<Normalized>) returns (f: Fingerprint)
    requires normalized == if OperationOf(p) == Reconcile then Normalize(p) else None
    ensures f == FingerprintOf(p, parent)
  {
    hide Normalize;
    var op := OperationOf(p);
    f := Fingerprint(p.agent, p.expectedRevision, parent, p.resultVersion, op, normalized,
                     if op == Patch then p.statePatch else None,
                     p.resultVersion == V3 && op != Reconcile && p.acknowledgeRetired,
                     BaseEnvelope(p));
  }

  /** The idempotency branch: a key that already has a snapshot. */
  method Replay(t: Tables, p: Params, a: StateId, fingerprint: Fingerprint) returns (o: Outcome)
    requires a in t.snaps && LedgerKeyed(t)
    ensures o == ReplayOf(t, p, a, fingerprint)
  {
    hide ReconcileParity, LedgerVerifies, LedgerKeyed;
    var snap := t.snaps[a];
    if snap.fingerprint != fingerprint {
      return Mismatch(a, snap.fingerprint, fingerprint);
    }
    var read := ReadSnapshotChanges(t, a, p.resultVersion != V1);
    if read.LedgerFailed? {
      return Failed(IntegrityFailure);
    }
    var reconciled := None;
    if OperationOf(p) == Reconcile {
      if snap.envelope.reconciliation.None? {
        return Failed(IntegrityFailure);
      }
      var record := snap.envelope.reconciliation.value;
      var same := VerifyReconcileParity(t, a, record);
      if !same {
        return Failed(IntegrityFailure);
      }
      reconciled := Some(BlockOf(record, a));
    }
    var changes := if p.resultVersion != V1 && read.Recorded? then Some(read.changes) else None;
    return Replayed(a, snap.revision, snap.envelope, changes, reconciled);
  }

  /** record and patch: only the pointed head is a parent, and its verified payload is where the state comes from. */
  method AdmitDerivation(t: Tables, p: Params, parent: Option<StateId>) returns (r: Admission)
    requires Precheck(p).None? && DerivesState(OperationOf(p))
    ensures r == AdmitDerived(t, p, parent)
  {
    hide ValidWorkingState, MergePatch.Admissible, Live;
    var eff := EffectiveCurrentHead(t);
    if !eff.Pointed? || parent != Some(eff.head) {
      return Refuse(ConflictOrEmpty(t, p));
    }
    HeadInScope(t);
    var parentState := t.snaps[eff.head].envelope.state;
    if !ValidWorkingState(parentState) {
      return Refuse(Failed(BadParentState));
    }
    var state := parentState;
    if OperationOf(p) == Patch {
      var merged := MergePatch.ApplyMergePatch(parentState, p.statePatch.value);
      state := merged.value;
    }
    if !ValidWorkingState(state) {
      return Refuse(Failed(BadPatch));
    }
    return Admit(Admitted(state, None));
  }

  lemma HeadInScope(t: Tables)
    ensures EffectiveCurrentHead(t).Pointed? ==> EffectiveCurrentHead(t).head in t.snaps
  {
  }

  /** reconcile: both CAS values, the survivor as parent, then the causal evaluation. */
  method AdmitReconciliation(t: Tables, p: Params, n: Normalized, parent: Option<StateId>) returns (r: Admission)
    requires TreeOk(t.snaps) && RowsOk(t) && RetirementsOk(t)
    requires Normalize(p) == Some(n)
    ensures r == AdmitReconcile(t, p, n, parent)
  {
    hide TreeOk, RowsOk, RetirementsOk, EvidenceVerifies, Admits, Live, Unresolved, Outcomes, AdoptedBy, LeftOpen,
         ResolutionMap;
    var live := LiveHeads(t);
    if live == {} {
      return Refuse(Failed(EmptyScope));
    }
    if live != n.expectedHeads || ScopePointer(t) != n.expectedPointer {
      return Refuse(ConflictOf(t, p));
    }
    if parent != Some(n.survivor) {
      return Refuse(Failed(ReconcileRefused));
    }
    var evaluated := EvaluateDivergence(t, n, p.factChanges, p.loopChanges, p.agent);
    match evaluated {
      case Alarmed => return Refuse(Failed(IntegrityFailure));
      case Refused => return Refuse(Failed(ReconcileRefused));
      case Decided(resolutions, unresolvedDivergent, retired, adoptedRetired) =>
        var record := ReconciliationRecord(n.expectedHeads, n.survivor, retired, n.expectedPointer, n.reason, n.strict,
                                           resolutions, adoptedRetired, unresolvedDivergent);
        return Admit(Admitted(Or(p.state, Null), Some(record)));
    }
  }

  method AdmitRequest(t: Tables, p: Params, normalized: Option<Normalized>, parent: Option<StateId>)
    returns (r: Admission)
    requires TreeOk(t.snaps) && RowsOk(t) && RetirementsOk(t) && Precheck(p).None?
    requires normalized == if OperationOf(p) == Reconcile then Normalize(p) else None
    ensures r == AdmissionOf(t, p, parent)
  {
    hide TreeOk, RowsOk, RetirementsOk, AdmitReconcile, AdmitDerived, Live, Normalize;
    if p.expectedRevision.None? {
      if t.snaps.Keys != {} {
        return Refuse(ConflictOf(t, p));
      }
    } else if parent.None? {
      return Refuse(ConflictOrEmpty(t, p));
    }
    var op := OperationOf(p);
    if DerivesState(op) {
      r := AdmitDerivation(t, p, parent);
    } else if op == Reconcile {
      r := AdmitReconciliation(t, p, normalized.value, parent);
    } else if p.resultVersion == V3 && parent.Some? && parent.value in t.retirements && !p.acknowledgeRetired {
      r := Refuse(Failed(RetiredParent));
    } else {
      r := Admit(Admitted(Or(p.state, Null), None));
    }
  }

  /** Idempotency before compare-and-swap before admission. */
  method Decide(t: Tables, p: Params) returns (v: Verdict, fingerprint: Fingerprint)
    requires Inv(t)
    ensures v == VerdictOf(t, p)
    ensures v.Proceed? ==> fingerprint == FingerprintOf(p, v.parent)
  {
    hide TreeOk, RowsOk, RetirementsOk, KeysUnique, FingerprintsOk, InPlaceOk, PointerOk, RowsOwned, ReconcilesOk,
         Precheck, Normalize, ReplayOf, AdmissionOf, FingerprintOf, ByRevision, LedgerKeyed;
    var error, normalized := CheckRequest(p);
    fingerprint := Fingerprint(p.agent, None, None, V1, Write, None, None, false, BaseEnvelope(p));
    if error.Some? {
      return Finished(Failed(error.value)), fingerprint;
    }
    var parent := FindRevision(t.snaps, p.expectedRevision);
    fingerprint := FingerprintRequest(p, parent, normalized);
    var prior := FindKey(t.snaps, p.key);
    if prior.Some? {
      StoredKeysInScope(t, "");
      var outcome := Replay(t, p, prior.value, fingerprint);
      return Finished(outcome), fingerprint;
    }
    var admission := AdmitRequest(t, p, normalized, parent);
    match admission {
      case Refuse(outcome) => return Finished(outcome), fingerprint;
      case Admit(adm) => return Proceed(parent, adm), fingerprint;
    }
  }
}
