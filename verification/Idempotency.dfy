/** Retries: over any run nothing written is lost or altered, so a written request replays for ever. */
module Idempotency {
  import opened Options
  import opened Types
  import opened Tree
  import opened ChangeLog
  import opened Verifiers
  import opened Protocol
  import opened Invariants
  import opened Growth
  import opened Evidence
  import opened Runs
  import opened Reconciling

  /** Snapshots are immutable and never deleted, and a retired head stays retired by the same reconcile. */
  ghost predicate Keeps(t: Tables, t': Tables) {
    && (forall a :: a in t.snaps ==> a in t'.snaps && t'.snaps[a] == t.snaps[a])
    && (forall h :: h in t.retirements ==> h in t'.retirements && t'.retirements[h] == t.retirements[h])
  }

  lemma StepKeeps(t: Tables, p: Params, u: Uuids, now: Time)
    requires Inv(t) && FreshUuids(t, p, u)
    ensures Keeps(t, Step(t, p, u, now).0)
  {
    hide Step, LoopIdsFresh, FactIdsFresh, TreeOk, KeysUnique, FingerprintsOk, RowsOk, InPlaceOk, PointerOk,
         RetirementsOk, ReconcilesOk, Wrote, AdmittedBy;
    var (t', o) := Step(t, p, u, now);
    if o.Written? {
      var parent, adm, f, l := StepWrote(t, p, u, now, t', o);
      SnapsAfter(t, p, u, now, t', parent, adm, f, l);
      if adm.record.Some? {
        AdmittedRetires(t, p, parent, adm);
      }
      WroteEvidenceGrown(t, p, u, now, t', parent, adm, f, l);
    } else {
      StepRefused(t, p, u, now);
    }
  }

  lemma {:induction false} RunKeeps(t: Tables, calls: seq<Call>)
    requires Inv(t) && Admissible(t, calls)
    ensures Keeps(t, Run(t, calls))
    decreases |calls|
  {
    hide Inv, Step, FreshUuids;
    if calls != [] {
      StepKeeps(t, calls[0].p, calls[0].u, calls[0].now);
      StepInv(t, calls[0].p, calls[0].u, calls[0].now);
      RunKeeps(Next(t, calls[0]), calls[1..]);
    }
  }

  lemma RevisionStays(s: Snaps, s': Snaps, revision: Option<int>)
    requires TreeOk(s') && forall a :: a in s ==> a in s' && s'[a] == s[a]
    requires revision.None? || ByRevision(s, revision).Some?
    ensures ByRevision(s', revision) == ByRevision(s, revision)
  {
  }

  /** A key names at most one snapshot, so the one that has it is the one found. */
  lemma KeyFinds(s: Snaps, a: StateId)
    requires KeysUnique(s) && a in s
    ensures ByKey(s, s[a].key) == Some(a)
  {
  }

  lemma AdmittedParent(t: Tables, p: Params, parent: Option<StateId>, adm: Admitted)
    requires AdmittedBy(t, p, parent, adm)
    ensures Precheck(p).None? && (p.expectedRevision.None? || parent.Some?)
  {
    hide AdmitDerived, AdmitReconcile, Precheck;
  }

  /** Replaying against tables in which the snapshot and its evidence are intact. */
  lemma ReplayVerifies(t: Tables, p: Params, a: StateId)
    requires Inv(t) && a in t.snaps && t.snaps[a].digest.Some?
    requires OperationOf(p) == Reconcile <==> t.snaps[a].envelope.reconciliation.Some?
    ensures ReplayOf(t, p, a, t.snaps[a].fingerprint) ==
      Replayed(a, t.snaps[a].revision, t.snaps[a].envelope, if p.resultVersion == V1 then None else t.snaps[a].digest,
               if t.snaps[a].envelope.reconciliation.Some?
                 then Some(BlockOf(t.snaps[a].envelope.reconciliation.value, a)) else None)
  {
    hide TreeOk, KeysUnique, FingerprintsOk, CoverageOk, VersionsOk, RowsExist, InPlaceOk, PointerOk, RetirementsOk,
         RowsOwned, ReconcileParity, LedgerVerifies;
    assert SnapReconcileOk(t, a);
  }

  /**
   If a checkpoint returned `written`, then after any run of further checkpoints by anyone the
   identical request returns the same result as a replay, and changes nothing.
   */
  lemma WrittenReplays(t: Tables, p: Params, u: Uuids, now: Time, t1: Tables, o: Outcome, calls: seq<Call>, v: Uuids,
                       later: Time)
    requires Inv(t) && FreshUuids(t, p, u) && Step(t, p, u, now) == (t1, o) && o.Written?
    requires Admissible(t1, calls) && Sized(p, v)
    ensures Step(Run(t1, calls), p, v, later) ==
      (Run(t1, calls), Replayed(o.stateId, o.revision, o.contentHash, o.changes, o.reconciled))
  {
    hide Inv, Step, LoopIdsFresh, FactIdsFresh, Wrote, AdmittedBy, ReplayOf, FingerprintOf, Run, Admissible, Precheck,
         ReconcileParity, ByRevision, Keeps;
    StepInv(t, p, u, now);
    StepKeeps(t, p, u, now);
    var parent, adm, f, l := StepWrote(t, p, u, now, t1, o);
    AdmittedParent(t, p, parent, adm);
    RunInv(t1, calls);
    RunKeeps(t1, calls);
    WrittenSnap(t, p, u, now, t1, parent, adm, f, l);
    WroteParent(t, p, u, now, t1, parent, adm, f, l);
    ReplayInTables(t, p, u.state, parent, t1, Run(t1, calls), v, later);
  }

  lemma WrittenSnap(t: Tables, p: Params, u: Uuids, now: Time, t': Tables, parent: Option<StateId>, adm: Admitted,
                    f: FactsApplied, l: LoopsApplied)
    requires Inv(t) && Wrote(t, p, u, now, t', parent, adm, f, l) && AdmittedBy(t, p, parent, adm)
    ensures u.state in t'.snaps && t'.snaps[u.state].fingerprint == FingerprintOf(p, parent) &&
      t'.snaps[u.state].key == p.key
    ensures t'.snaps[u.state].revision == MaxRevision(t.snaps) + 1 &&
      t'.snaps[u.state].digest == Some(Changes(f.out, l.out))
    ensures t'.snaps[u.state].envelope.reconciliation == adm.record
    ensures adm.record.Some? <==> OperationOf(p) == Reconcile
  {
    hide Wrote, AdmittedBy, FingerprintOf, RowsOk, InPlaceOk, PointerOk, RetirementsOk, RowsOwned, ReconcilesOk,
         KeysUnique, FingerprintsOk, TreeOk, Extends;
    RecordIffReconcile(t, p, parent, adm);
    WroteFingerprints(t, p, u, now, t', parent, adm, f, l);
    WroteExtends(t, p, u, now, t', parent, adm, f, l);
  }

  lemma ReplayInTables(t: Tables, p: Params, a: StateId, parent: Option<StateId>, t1: Tables, t2: Tables, v: Uuids,
                       later: Time)
    requires Inv(t2) && Keeps(t, t1) && Keeps(t1, t2) && Sized(p, v)
    requires Precheck(p).None? && parent == ByRevision(t.snaps, p.expectedRevision)
    requires p.expectedRevision.None? || parent.Some?
    requires a in t1.snaps && t1.snaps[a].fingerprint == FingerprintOf(p, parent) && t1.snaps[a].key == p.key
    requires t1.snaps[a].digest.Some? && (OperationOf(p) == Reconcile <==> t1.snaps[a].envelope.reconciliation.Some?)
    ensures Step(t2, p, v, later) ==
      (t2, Replayed(a, t1.snaps[a].revision, t1.snaps[a].envelope,
                    if p.resultVersion == V1 then None else t1.snaps[a].digest,
                    if t1.snaps[a].envelope.reconciliation.Some?
                    then Some(BlockOf(t1.snaps[a].envelope.reconciliation.value, a)) else None))
  {
    hide FingerprintsOk, RowsOk, InPlaceOk, PointerOk, RetirementsOk, RowsOwned, ReconcilesOk, Precheck, FingerprintOf,
         ReplayOf, AdmissionOf, Commit, ByRevision, ByKey;
    assert t2.snaps[a] == t1.snaps[a];
    KeyFinds(t2.snaps, a);
    RevisionStays(t.snaps, t2.snaps, p.expectedRevision);
    hide TreeOk, KeysUnique;
    ReplayVerifies(t2, p, a);
  }
}
