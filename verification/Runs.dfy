/** Every reachable state: the invariant over whole runs of checkpoints by any writers. */
module Runs {
  import opened Options
  import opened Types
  import opened Tree
  import opened Heads
  import opened ChangeLog
  import opened Verifiers
  import opened Evaluation
  import opened Protocol
  import opened Invariants
  import opened Growth
  import opened Evidence

  // ----- The pointer

  lemma NewHeadIsLive(s: Snaps, s': Snaps, n: StateId, retired: set<StateId>)
    requires Extends(s, s', n) && n !in retired
    requires forall a :: a in s ==> s[a].parent != Some(n)
    ensures n in Live(s', retired)
  {
  }

  lemma OtherHeadsLive(s: Snaps, s': Snaps, n: StateId, retired: set<StateId>, h: StateId)
    requires Extends(s, s', n) && h in s
    ensures h in Live(s', retired) <==> h in Live(s, retired) && s'[n].parent != Some(h)
  {
    if c :| c in s && s[c].parent == Some(h) {
      assert s'[c].parent == Some(h);
    }
  }

  lemma PointerStep(t: Tables, t': Tables, n: StateId, reconciles: bool, by_: Principal, now: Time)
    requires PointerOk(t) && Extends(t.snaps, t'.snaps, n)
    requires forall a :: a in t.snaps ==> t.snaps[a].parent != Some(n)
    requires n !in t'.retirements && (reconciles || t'.retirements == t.retirements)
    requires t'.pointer == if reconciles then Some(Pointer(n, now, by_, ByReconcile))
                           else PointerAfterInsert(t.snaps, t.retirements.Keys, t.pointer, n, t'.snaps[n].parent, by_,
                                                   now)
    ensures PointerOk(t')
  {
    hide Extends, Live;
    NewHeadIsLive(t.snaps, t'.snaps, n, t'.retirements.Keys);
    if t.pointer.Some? && !reconciles {
      LiveMeaning(t.snaps, t.retirements.Keys, t.pointer.value.state);
      OtherHeadsLive(t.snaps, t'.snaps, n, t.retirements.Keys, t.pointer.value.state);
    }
  }

  lemma LiveMeaning(s: Snaps, retired: set<StateId>, h: StateId)
    ensures h in Live(s, retired) <==> h in s && !HasChild(s, h) && h !in retired
  {
  }

  lemma PointerKept(t: Tables, p: Params, u: Uuids, now: Time, t': Tables, parent: Option<StateId>, adm: Admitted,
                    f: FactsApplied, l: LoopsApplied)
    requires TreeOk(t.snaps) && PointerOk(t) && Wrote(t, p, u, now, t', parent, adm, f, l)
    requires adm.record.Some? ==> adm.record.value.retired <= t.snaps.Keys
    ensures PointerOk(t')
  {
    hide Wrote, TreeOk, PointerOk, Extends, PointerAfterInsert;
    WroteExtends(t, p, u, now, t', parent, adm, f, l);
    WroteEvidence(t, p, u, now, t', parent, adm, f, l);
    PointerStep(t, t', u.state, adm.record.Some?, p.agent, now);
  }

  // ----- Retirements, row ownership, reconciles

  lemma EvidenceStep(t: Tables, t': Tables, n: StateId, record: Option<ReconciliationRecord>, by_: Principal, now: Time)
    requires RetirementsOk(t) && RowsOwned(t) && Extends(t.snaps, t'.snaps, n)
    requires t'.snaps[n].envelope.reconciliation == record
    requires record.Some? ==> record.value.retired <= t.snaps.Keys
    requires t'.retirements == t.retirements + RetirementRows(record, n, by_, now)
    requires t'.inputs == t.inputs + InputRows(record, n)
    requires t'.resolutions == t.resolutions + RecordedResolutions(record, n)
    ensures RetirementsOk(t') && RowsOwned(t')
  {
    forall h | h in t'.retirements
      ensures RecordsRetiring(t'.snaps, t'.retirements[h].retiredBy, h)
      ensures h in t'.snaps && t'.snaps[h].revision < t'.snaps[t'.retirements[h].retiredBy].revision
    {
      if !(record.Some? && h in record.value.retired) {
        assert RecordsRetiring(t.snaps, t.retirements[h].retiredBy, h);
      }
    }
  }

  lemma EvidenceKept(t: Tables, p: Params, u: Uuids, now: Time, t': Tables, parent: Option<StateId>, adm: Admitted,
                     f: FactsApplied, l: LoopsApplied)
    requires RetirementsOk(t) && RowsOwned(t) && TreeOk(t.snaps) && Wrote(t, p, u, now, t', parent, adm, f, l)
    requires adm.record.Some? ==> adm.record.value.retired <= t.snaps.Keys
    ensures RetirementsOk(t') && RowsOwned(t')
  {
    hide Wrote, TreeOk, RetirementsOk, RowsOwned, Extends;
    WroteExtends(t, p, u, now, t', parent, adm, f, l);
    WroteEvidence(t, p, u, now, t', parent, adm, f, l);
    EvidenceStep(t, t', u.state, adm.record, p.agent, now);
  }

  lemma ReconcilesKept(t: Tables, p: Params, u: Uuids, now: Time, t': Tables, parent: Option<StateId>, adm: Admitted,
                       f: FactsApplied, l: LoopsApplied)
    requires TreeOk(t.snaps) && RowsOk(t) && RetirementsOk(t) && RowsOwned(t) && ReconcilesOk(t)
    requires Wrote(t, p, u, now, t', parent, adm, f, l)
    requires adm.record.Some? ==>
      adm.record.value.retired <= LiveHeads(t) && ReconcileParity(t', u.state, adm.record.value)
    ensures ReconcilesOk(t')
  {
    hide Wrote, TreeOk, RowsOk, ReconcileParity, Extends, RowsGrown, EvidenceGrown, OwnsNoRows, RetirementsOk,
         RowsOwned, Live, LedgerOk;
    WroteExtends(t, p, u, now, t', parent, adm, f, l);
    WroteRowsGrown(t, p, u, now, t', parent, adm, f, l);
    RowsOkKept(t, p, u, now, t', parent, adm, f, l);
    LiveUnretired(t);
    WroteEvidenceGrown(t, p, u, now, t', parent, adm, f, l);
    EvidenceMoves(t, p, u, now, t', parent, adm, f, l);
    LedgerOfRows(t);
    LedgerOfRows(t');
    ExtendsKeys(t.snaps, t'.snaps, u.state);
    if adm.record.None? {
      NewOwnsNoRows(t, p, u, now, t', parent, adm, f, l);
    }
    forall a | a in t'.snaps && a != u.state ensures SnapReconcileOk(t', a) {
      SnapReconcileKept(t, t', u.state, a);
    }
  }

  lemma LiveUnretired(t: Tables)
    ensures LiveHeads(t) !! t.retirements.Keys
  {
  }

  lemma LedgerOfRows(t: Tables)
    requires RowsOk(t)
    ensures LedgerOk(t.snaps, t.ledger)
  {
    hide LedgerOk;
  }

  /** Only live heads are newly retired, and the pointer stays or moves to the new snapshot. */
  lemma EvidenceMoves(t: Tables, p: Params, u: Uuids, now: Time, t': Tables, parent: Option<StateId>, adm: Admitted,
                      f: FactsApplied, l: LoopsApplied)
    requires Wrote(t, p, u, now, t', parent, adm, f, l)
    requires adm.record.Some? ==> adm.record.value.retired <= LiveHeads(t)
    ensures forall h :: h in t'.retirements && h !in t.retirements ==> h in LiveHeads(t)
    ensures t'.pointer == t.pointer || (t'.pointer.Some? && t'.pointer.value.state == u.state)
  {
    hide Wrote, Live;
    WroteEvidence(t, p, u, now, t', parent, adm, f, l);
  }

  lemma NewOwnsNoRows(t: Tables, p: Params, u: Uuids, now: Time, t': Tables, parent: Option<StateId>, adm: Admitted,
                      f: FactsApplied, l: LoopsApplied)
    requires RetirementsOk(t) && RowsOwned(t) && Wrote(t, p, u, now, t', parent, adm, f, l) && adm.record.None?
    ensures OwnsNoRows(t', u.state)
  {
    WroteSnap(t, p, u, now, t', parent, adm, f, l);
    hide Wrote;
    WroteEvidence(t, p, u, now, t', parent, adm, f, l);
  }

  lemma ExtendsKeys(s: Snaps, s': Snaps, n: StateId)
    requires Extends(s, s', n)
    ensures s'.Keys == s.Keys + {n}
  {
  }

  // ----- The invariant over steps and runs

  lemma AdmittedRetires(t: Tables, p: Params, parent: Option<StateId>, adm: Admitted)
    requires AdmittedBy(t, p, parent, adm) && adm.record.Some?
    ensures adm.record.value.retired <= LiveHeads(t) && adm.record.value.retired <= t.snaps.Keys
    ensures adm.record.value.retired !! t.retirements.Keys
  {
    hide AdmittedBy, EvidenceVerifies, Admits, Normalize;
    AdmittedReconcile(t, p, parent, adm);
    RecordRetires(t, Normalize(p).value);
  }

  lemma WroteInv(t: Tables, p: Params, u: Uuids, now: Time, t': Tables, parent: Option<StateId>, adm: Admitted,
                 f: FactsApplied, l: LoopsApplied)
    requires Inv(t) && Wrote(t, p, u, now, t', parent, adm, f, l) && AdmittedBy(t, p, parent, adm)
    requires adm.record.Some? ==> ReconcileParity(t', u.state, adm.record.value)
    ensures Inv(t')
  {
    hide Wrote, AdmittedBy, TreeOk, KeysUnique, FingerprintsOk, RowsOk, InPlaceOk, PointerOk, RetirementsOk, RowsOwned,
         ReconcilesOk, ReconcileParity, Extends;
    if adm.record.Some? {
      AdmittedRetires(t, p, parent, adm);
    }
    WroteExtends(t, p, u, now, t', parent, adm, f, l);
    ExtendsKeys(t.snaps, t'.snaps, u.state);
    WroteEvidence(t, p, u, now, t', parent, adm, f, l);
    WroteKeys(t, p, u, now, t', parent, adm, f, l);
    RecordIffReconcile(t, p, parent, adm);
    WroteFingerprints(t, p, u, now, t', parent, adm, f, l);
    RowsOkKept(t, p, u, now, t', parent, adm, f, l);
    InPlaceKept(t, p, u, now, t', parent, adm, f, l);
    PointerKept(t, p, u, now, t', parent, adm, f, l);
    EvidenceKept(t, p, u, now, t', parent, adm, f, l);
    ReconcilesKept(t, p, u, now, t', parent, adm, f, l);
  }

  /** Every checkpoint keeps the invariant, whatever its outcome. */
  lemma StepInv(t: Tables, p: Params, u: Uuids, now: Time)
    requires Inv(t) && FreshUuids(t, p, u)
    ensures Inv(Step(t, p, u, now).0)
  {
    hide Step, Inv, LoopIdsFresh, FactIdsFresh;
    var (t', o) := Step(t, p, u, now);
    if o.Written? {
      var parent, adm, f, l := StepWrote(t, p, u, now, t', o);
      WroteInv(t, p, u, now, t', parent, adm, f, l);
    } else {
      StepRefused(t, p, u, now);
    }
  }

  datatype Call = Call(p: Params, u: Uuids, now: Time)

  ghost predicate Callable(t: Tables, c: Call) {
    FreshUuids(t, c.p, c.u)
  }

  ghost function Next(t: Tables, c: Call): Tables
    requires Callable(t, c)
  {
    Step(t, c.p, c.u, c.now).0
  }

  /** Each call of a run draws fresh UUIDs in the state it meets. */
  ghost predicate Admissible(t: Tables, calls: seq<Call>)
    decreases |calls|
  {
    calls == [] || (Callable(t, calls[0]) && Admissible(Next(t, calls[0]), calls[1..]))
  }

  ghost function Run(t: Tables, calls: seq<Call>): Tables
    requires Admissible(t, calls)
    decreases |calls|
  {
    if calls == [] then t else Run(Next(t, calls[0]), calls[1..])
  }

  lemma {:induction false} RunInv(t: Tables, calls: seq<Call>)
    requires Inv(t) && Admissible(t, calls)
    ensures Inv(Run(t, calls))
    decreases |calls|
  {
    hide Inv, Step, FreshUuids;
    if calls != [] {
      StepInv(t, calls[0].p, calls[0].u, calls[0].now);
      RunInv(Next(t, calls[0]), calls[1..]);
    }
  }

  ghost predicate Reachable(t: Tables) {
    exists t0, calls :: Legacy(t0) && Admissible(t0, calls) && Run(t0, calls) == t
  }

  lemma ReachableInv(t: Tables)
    requires Reachable(t)
    ensures Inv(t)
  {
    hide Inv, Legacy, Admissible, Run;
    var t0, calls :| Legacy(t0) && Admissible(t0, calls) && Run(t0, calls) == t;
    LegacyInv(t0);
    RunInv(t0, calls);
  }
}
