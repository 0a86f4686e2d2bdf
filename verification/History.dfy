/** How the pointer, the lineage and the working state move over runs. */
module History {
  import opened Options
  import opened JsonValues
  import opened Types
  import opened Tree
  import opened Heads
  import opened ChangeLog
  import opened Divergence
  import opened Verifiers
  import opened Evaluation
  import opened Protocol
  import opened Invariants
  import opened Evidence
  import opened Runs
  import opened Reconciling
  import opened Selection
  import Idempotency
  import MergePatch

  // ----- Structure of every reachable state

  /** The newest snapshot of a scope is live, so a scope with history always has a head to offer. */
  lemma NewestIsLive(t: Tables, a: StateId)
    requires Inv(t) && a in t.snaps && t.snaps[a].revision == MaxRevision(t.snaps)
    ensures a in LiveHeads(t)
  {
    hide KeysUnique, FingerprintsOk, RowsOk, InPlaceOk, PointerOk, RowsOwned, ReconcilesOk;
    MaxRevisionIsLeaf(t.snaps, a);
    assert a in t.retirements ==> RecordsRetiring(t.snaps, t.retirements[a].retiredBy, a);
  }

  lemma SomeHeadLives(t: Tables)
    requires Inv(t) && t.snaps.Keys != {}
    ensures LiveHeads(t) != {}
  {
    hide Inv, Live;
    var b :| b in t.snaps;
    RevisionsPositive(t, b);
    var a :| a in t.snaps && t.snaps[a].revision == MaxRevision(t.snaps);
    NewestIsLive(t, a);
  }

  lemma RevisionsPositive(t: Tables, a: StateId)
    requires Inv(t) && a in t.snaps
    ensures t.snaps[a].revision >= 1
  {
    hide KeysUnique, FingerprintsOk, RowsOk, InPlaceOk, PointerOk, RowsOwned, ReconcilesOk, RetirementsOk;
  }

  /** A pointer never designates a dead head, and a conflict always lists a head the caller can extend. */
  lemma DesignationValid(t: Tables, p: Params, u: Uuids, now: Time)
    requires Inv(t) && Sized(p, u)
    ensures EffectiveCurrentHead(t) != InvalidDesignation
    ensures Step(t, p, u, now).1.Conflict? ==> Step(t, p, u, now).1.heads == LiveHeads(t) != {}
  {
    NeverInvalid(t);
    if t.snaps.Keys != {} {
      SomeHeadLives(t);
    }
    hide Inv, EffectiveCurrentHead;
    ConflictMeans(t, p, u, now);
  }

  lemma NeverInvalid(t: Tables)
    requires Inv(t)
    ensures EffectiveCurrentHead(t) != InvalidDesignation
  {
    hide TreeOk, KeysUnique, FingerprintsOk, RowsOk, InPlaceOk, RowsOwned, ReconcilesOk, RetirementsOk;
  }

  lemma ConflictMeans(t: Tables, p: Params, u: Uuids, now: Time)
    requires Sized(p, u)
    ensures Step(t, p, u, now).1.Conflict? ==> Step(t, p, u, now).1.heads == LiveHeads(t) && t.snaps.Keys != {}
  {
    hide AdmissionOf, ReplayOf, Commit, FingerprintOf, Precheck, LiveHeads;
    var parent := ByRevision(t.snaps, p.expectedRevision);
    match ByKey(t.snaps, p.key)
    case Some(a) => ReplayNoConflict(t, p, a, FingerprintOf(p, parent));
    case None =>
      if Precheck(p).None? {
        match AdmissionOf(t, p, parent)
        case Refuse(_) => AdmissionConflict(t, p, parent);
        case Admit(adm) => CommitNoConflict(t, p, u, now, parent, adm);
      }
  }

  lemma AdmissionConflict(t: Tables, p: Params, parent: Option<StateId>)
    requires Precheck(p).None?
    ensures AdmissionOf(t, p, parent).Refuse? && AdmissionOf(t, p, parent).outcome.Conflict? ==>
      AdmissionOf(t, p, parent).outcome.heads == LiveHeads(t) && t.snaps.Keys != {}
  {
    LiveInScope(t);
    hide EvidenceVerifies, Admits, RecordOf, Normalize, ValidWorkingState, EffectiveCurrentHead, Precheck, LiveHeads;
  }

  lemma ReplayNoConflict(t: Tables, p: Params, a: StateId, fingerprint: Fingerprint)
    requires a in t.snaps
    ensures !ReplayOf(t, p, a, fingerprint).Conflict?
  {
    hide ReconcileParity, LedgerVerifies;
  }

  lemma CommitNoConflict(t: Tables, p: Params, u: Uuids, now: Time, parent: Option<StateId>, adm: Admitted)
    requires Sized(p, u)
    ensures !Commit(t, p, parent, adm, u, now).1.Conflict?
  {
    hide ReconcileParity, WrittenTables, ApplyFacts, ApplyLoops, FingerprintOf;
  }

  /** A retired head is never live again, and no later reconcile retires it again. */
  lemma RetiredForGood(t: Tables, calls: seq<Call>, h: StateId)
    requires Inv(t) && Admissible(t, calls) && h in t.retirements
    ensures h in Run(t, calls).retirements && Run(t, calls).retirements[h] == t.retirements[h]
    ensures h !in LiveHeads(Run(t, calls))
  {
    hide Inv, Run, Admissible;
    Idempotency.RunKeeps(t, calls);
  }

  // ----- Lineages only grow, except by a reconcile

  ghost predicate ReconcileFree(calls: seq<Call>) {
    forall i :: 0 <= i < |calls| ==> OperationOf(calls[i].p) != Reconcile
  }

  /** `old` is a tail of `new`: the accepted lineage was extended at its head only. */
  predicate Suffix<T(==)>(old_: seq<T>, new_: seq<T>) {
    |old_| <= |new_| && new_[|new_| - |old_|..] == old_
  }

  lemma SuffixTransitive<T>(a: seq<T>, b: seq<T>, c: seq<T>)
    requires Suffix(a, b) && Suffix(b, c)
    ensures Suffix(a, c)
  {
  }

  lemma PointedIsAccepted(t: Tables, q: StateId)
    requires Inv(t) && ScopePointer(t) == Some(q)
    ensures q in t.snaps && q in LiveHeads(t) && AcceptedHead(t) == Some(q)
  {
    hide TreeOk, KeysUnique, FingerprintsOk, RowsOk, InPlaceOk, RowsOwned, ReconcilesOk, RetirementsOk, Live;
    LiveInScope(t);
  }

  /** One step without reconcile: the pointer stays or moves to a child of the pointed head. */
  lemma StepPointer(t: Tables, p: Params, u: Uuids, now: Time, q: StateId)
    requires Inv(t) && FreshUuids(t, p, u) && OperationOf(p) != Reconcile && ScopePointer(t) == Some(q)
    ensures var t' := Step(t, p, u, now).0;
      ScopePointer(t').Some? && Suffix(Lineage(t.snaps, q), Lineage(t'.snaps, ScopePointer(t').value))
  {
    hide Step, LoopIdsFresh, FactIdsFresh, Wrote, AdmittedBy, Inv, Extends, TreeOk, Lineage, ByRevision, Suffix;
    StepInv(t, p, u, now);
    var (t', o) := Step(t, p, u, now);
    InvHasTree(t);
    if o.Written? {
      var parent, adm, f, l := StepWrote(t, p, u, now, t', o);
      RecordIffReconcile(t, p, parent, adm);
      WroteExtends(t, p, u, now, t', parent, adm, f, l);
      WroteEvidence(t, p, u, now, t', parent, adm, f, l);
      SnapsAfter(t, p, u, now, t', parent, adm, f, l);
      LineageExtends(t.snaps, t'.snaps, u.state);
      SuffixCons(Lineage(t.snaps, q), u.state);
    } else {
      StepRefused(t, p, u, now);
      SuffixCons(Lineage(t.snaps, q), u.state);
    }
  }

  lemma SuffixCons<T>(xs: seq<T>, x: T)
    ensures Suffix(xs, [x] + xs) && Suffix(xs, xs)
  {
  }

  /** Over any run without reconcile the old accepted lineage is a suffix of the new one. */
  lemma {:induction false} LineageOnlyGrows(t: Tables, calls: seq<Call>, q: StateId)
    requires Inv(t) && Admissible(t, calls) && ReconcileFree(calls) && ScopePointer(t) == Some(q)
    ensures var t' := Run(t, calls);
      ScopePointer(t').Some? && Suffix(Lineage(t.snaps, q), Lineage(t'.snaps, ScopePointer(t').value))
    decreases |calls|
  {
    hide Inv, Step, FreshUuids, Lineage, Suffix;
    if calls == [] {
      SuffixCons(Lineage(t.snaps, q), q);
    } else {
      var c, t1 := calls[0], Next(t, calls[0]);
      StepInv(t, c.p, c.u, c.now);
      StepPointer(t, c.p, c.u, c.now, q);
      var q1 := ScopePointer(t1).value;
      LineageOnlyGrows(t1, calls[1..], q1);
      var t' := Run(t1, calls[1..]);
      SuffixTransitive(Lineage(t.snaps, q), Lineage(t1.snaps, q1), Lineage(t'.snaps, ScopePointer(t').value));
    }
  }

  // ----- A dead designation is only ever repaired by a reconcile

  /** From any state, even a corrupt one: while the pointer is not live, no other step moves it. */
  lemma DeadPointerStays(t: Tables, p: Params, u: Uuids, now: Time)
    requires FreshUuids(t, p, u) && OperationOf(p) != Reconcile
    requires t.pointer.Some? && t.pointer.value.state !in LiveHeads(t)
    ensures Step(t, p, u, now).0.pointer == t.pointer
    ensures t.pointer.value.state !in LiveHeads(Step(t, p, u, now).0)
  {
    hide Step, LoopIdsFresh, FactIdsFresh, Wrote, AdmittedBy, ByRevision, Live;
    var (t', o) := Step(t, p, u, now);
    if o.Written? {
      var parent, adm, f, l := StepWrote(t, p, u, now, t', o);
      RecordIffReconcile(t, p, parent, adm);
      WroteEvidence(t, p, u, now, t', parent, adm, f, l);
      SnapsAfter(t, p, u, now, t', parent, adm, f, l);
      WroteParent(t, p, u, now, t', parent, adm, f, l);
      DeadAfterInsert(t, t', u.state, parent, p.agent, now);
    } else {
      StepRefused(t, p, u, now);
    }
  }

  lemma DeadAfterInsert(t: Tables, t': Tables, n: StateId, parent: Option<StateId>, by_: Principal, now: Time)
    requires t.pointer.Some? && t.pointer.value.state !in LiveHeads(t) && t.pointer.value.state != n
    requires t'.snaps.Keys == t.snaps.Keys + {n} && n !in t.snaps
    requires forall a :: a in t.snaps ==> t'.snaps[a] == t.snaps[a]
    requires parent.Some? ==> parent.value in t.snaps
    requires t'.retirements == t.retirements
    requires t'.pointer == PointerAfterInsert(t.snaps, t.retirements.Keys, t.pointer, n, parent, by_, now)
    ensures t'.pointer == t.pointer && t.pointer.value.state !in LiveHeads(t')
  {
    var q := t.pointer.value.state;
    if c :| c in t.snaps && t.snaps[c].parent == Some(q) {
      assert t'.snaps[c].parent == Some(q);
    }
  }

  lemma {:induction false} DeadPointerNeverRepairsItself(t: Tables, calls: seq<Call>)
    requires Admissible(t, calls) && ReconcileFree(calls)
    requires t.pointer.Some? && t.pointer.value.state !in LiveHeads(t)
    ensures Run(t, calls).pointer == t.pointer && t.pointer.value.state !in LiveHeads(Run(t, calls))
    decreases |calls|
  {
    hide Step, FreshUuids, Live;
    if calls != [] {
      DeadPointerStays(t, calls[0].p, calls[0].u, calls[0].now);
      DeadPointerNeverRepairsItself(Next(t, calls[0]), calls[1..]);
    }
  }

  // ----- record and patch: the head's state is the fold of the patches

  /** What one derived-state operation does to the working state: record is the identity. */
  ghost function Derive(state: Json, p: Params): Json {
    if OperationOf(p) == Patch then MergePatch.Merge(state, Or(p.statePatch, Null)) else state
  }

  ghost function FoldDerived(state: Json, calls: seq<Call>): Json
    decreases |calls|
  {
    if calls == [] then state else FoldDerived(Derive(state, calls[0].p), calls[1..])
  }

  /** Every call of the run is a record or a patch, and was written. */
  ghost predicate DerivedRun(t: Tables, calls: seq<Call>)
    requires Admissible(t, calls)
    decreases |calls|
  {
    calls == [] ||
    (DerivesState(OperationOf(calls[0].p)) && Step(t, calls[0].p, calls[0].u, calls[0].now).1.Written?
     && DerivedRun(Next(t, calls[0]), calls[1..]))
  }

  lemma AdmittedDerived(t: Tables, p: Params, parent: Option<StateId>, adm: Admitted)
    requires AdmittedBy(t, p, parent, adm) && DerivesState(OperationOf(p))
    ensures EffectiveCurrentHead(t).Pointed? && parent == Some(EffectiveCurrentHead(t).head) && adm.record.None?
    ensures parent.value in t.snaps && adm.state == Derive(t.snaps[parent.value].envelope.state, p)
    ensures ValidWorkingState(adm.state)
  {
    hide Precheck, ValidWorkingState, MergePatch.Merge;
  }

  lemma DerivedStep(t: Tables, p: Params, u: Uuids, now: Time, h: StateId)
    requires Inv(t) && FreshUuids(t, p, u) && DerivesState(OperationOf(p)) && Step(t, p, u, now).1.Written?
    requires AcceptedHead(t) == Some(h)
    ensures var t' := Step(t, p, u, now).0;
      && AcceptedHead(t') == Some(u.state)
      && h in t.snaps && u.state in t'.snaps && t'.snaps[u.state].parent == Some(h)
      && t'.snaps[u.state].envelope.state == Derive(t.snaps[h].envelope.state, p)
      && ValidWorkingState(t'.snaps[u.state].envelope.state)
  {
    hide Step, LoopIdsFresh, FactIdsFresh, Wrote, AdmittedBy, Inv, ByRevision, ValidWorkingState, Derive;
    StepInv(t, p, u, now);
    var (t', o) := Step(t, p, u, now);
    var parent, adm, f, l := StepWrote(t, p, u, now, t', o);
    AdmittedDerived(t, p, parent, adm);
    WroteEvidence(t, p, u, now, t', parent, adm, f, l);
    SnapsAfter(t, p, u, now, t', parent, adm, f, l);
    WroteState(t, p, u, now, t', parent, adm, f, l);
    MovesWithHead(t, t', u.state, h, p.agent, now);
  }

  lemma WroteState(t: Tables, p: Params, u: Uuids, now: Time, t': Tables, parent: Option<StateId>, adm: Admitted,
                   f: FactsApplied, l: LoopsApplied)
    requires Wrote(t, p, u, now, t', parent, adm, f, l)
    ensures u.state in t'.snaps && t'.snaps[u.state].envelope.state == adm.state
  {
    hide FactsDone, LoopsDone, FingerprintOf, LedgerRows, WrittenVersions, WrittenCoverage, LoopIdsFresh, FactIdsFresh;
  }

  lemma MovesWithHead(t: Tables, t': Tables, n: StateId, h: StateId, by_: Principal, now: Time)
    requires Inv(t') && AcceptedHead(t) == Some(h) && n in t'.snaps
    requires t'.pointer == PointerAfterInsert(t.snaps, t.retirements.Keys, t.pointer, n, Some(h), by_, now)
    ensures AcceptedHead(t') == Some(n)
  {
    LiveMeaning(t.snaps, t.retirements.Keys, h);
    hide Live, Inv;
    PointedIsAccepted(t', n);
  }

  /** Over a run of written records and patches the pointed head's state is the left fold of the patches. */
  lemma {:induction false} DerivedRunFolds(t: Tables, calls: seq<Call>, h: StateId)
    requires Inv(t) && Admissible(t, calls) && DerivedRun(t, calls)
    requires AcceptedHead(t) == Some(h)
    ensures h in t.snaps && AcceptedHead(Run(t, calls)).Some?
    ensures var t', h' := Run(t, calls), AcceptedHead(Run(t, calls)).value;
      && h' in t'.snaps && t'.snaps[h'].envelope.state == FoldDerived(t.snaps[h].envelope.state, calls)
      && h' == if calls == [] then h else calls[|calls| - 1].u.state
    decreases |calls|
  {
    hide Inv, Step, FreshUuids, ValidWorkingState, Derive, Live;
    if calls != [] {
      var c := calls[0];
      DerivedStep(t, c.p, c.u, c.now, h);
      StepInv(t, c.p, c.u, c.now);
      DerivedRunFolds(Next(t, c), calls[1..], c.u.state);
    } else {
      AcceptedInScope(t, h);
    }
  }

  lemma AcceptedInScope(t: Tables, h: StateId)
    requires AcceptedHead(t) == Some(h)
    ensures h in t.snaps
  {
  }

  // ----- What a strict reconcile settled stays settled on the pointed head

  /** Every written call of the run is no reconcile and extends the then-pointed head. */
  ghost predicate OnPointedHead(t: Tables, calls: seq<Call>)
    requires Admissible(t, calls)
    decreases |calls|
  {
    calls == [] ||
    ((Step(t, calls[0].p, calls[0].u, calls[0].now).1.Written? ==>
        OperationOf(calls[0].p) != Reconcile && ByRevision(t.snaps, calls[0].p.expectedRevision) == ScopePointer(t))
     && OnPointedHead(Next(t, calls[0]), calls[1..]))
  }

  lemma StepKeepsUndecided(t: Tables, c: Call, q: StateId)
    requires Inv(t) && Callable(t, c) && ScopePointer(t) == Some(q)
    requires Step(t, c.p, c.u, c.now).1.Written? ==>
      OperationOf(c.p) != Reconcile && ByRevision(t.snaps, c.p.expectedRevision) == ScopePointer(t)
    ensures ScopePointer(Next(t, c)).Some?
    ensures Unresolved(Next(t, c), ScopePointer(Next(t, c)).value) == Unresolved(t, q)
  {
    hide Inv, Step, LoopIdsFresh, FactIdsFresh, Unresolved, ByRevision, Live;
    if Step(t, c.p, c.u, c.now).1.Written? {
      AdvanceKeepsUndecided(t, c.p, c.u, c.now, Next(t, c), q);
    } else {
      StepRefused(t, c.p, c.u, c.now);
    }
  }

  /**
   Over any run of writes on the pointed head the undecided terminals stay what they were: after a
   strict reconcile, none.
   */
  lemma {:induction false} UndecidedStays(t: Tables, calls: seq<Call>, q: StateId)
    requires Inv(t) && Admissible(t, calls) && OnPointedHead(t, calls) && ScopePointer(t) == Some(q)
    ensures ScopePointer(Run(t, calls)).Some?
    ensures Unresolved(Run(t, calls), ScopePointer(Run(t, calls)).value) == Unresolved(t, q)
    decreases |calls|
  {
    hide Inv, Step, FreshUuids, Unresolved, ByRevision, Live;
    if calls != [] {
      var c := calls[0];
      StepInv(t, c.p, c.u, c.now);
      StepKeepsUndecided(t, c, q);
      UndecidedStays(Next(t, c), calls[1..], ScopePointer(Next(t, c)).value);
    }
  }
}
