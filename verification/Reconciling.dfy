/** What a committed reconcile achieves, and how later writes on the pointed head preserve it. */
module Reconciling {
  import opened Options
  import opened Types
  import opened Tree
  import opened Heads
  import opened Newest
  import opened ChangeLog
  import opened Divergence
  import opened Verifiers
  import opened Evaluation
  import opened Protocol
  import opened Invariants
  import opened Growth
  import opened Evidence
  import opened Runs

  /** A committed reconcile step: what it was asked, and what it recorded. */
  ghost predicate Reconciled(t: Tables, p: Params, u: Uuids, now: Time, t': Tables, n: Normalized) {
    && FreshUuids(t, p, u)
    && Step(t, p, u, now).0 == t' && Step(t, p, u, now).1.Written?
    && OperationOf(p) == Reconcile && Normalize(p) == Some(n)
  }

  lemma ReconciledParts(t: Tables, p: Params, u: Uuids, now: Time, t': Tables, n: Normalized)
    returns (parent: Option<StateId>, adm: Admitted, f: FactsApplied, l: LoopsApplied)
    requires Reconciled(t, p, u, now, t', n)
    ensures Wrote(t, p, u, now, t', parent, adm, f, l)
    ensures adm.record.Some? && ReconcileAdmitted(t, p, parent, adm.record.value, n)
  {
    hide AdmittedBy, ReconcileAdmitted, Wrote, LoopIdsFresh, FactIdsFresh, Normalize;
    parent, adm, f, l := StepWrote(t, p, u, now, t', Step(t, p, u, now).1);
    hide Step;
    RecordIffReconcile(t, p, parent, adm);
    AdmittedReconcile(t, p, parent, adm);
  }

  /**
   From ANY state, well-formed or corrupt: after a successful reconcile the only live head is the
   new snapshot, and it is the pointed one.
   */
  lemma OneLiveHead(t: Tables, p: Params, u: Uuids, now: Time, t': Tables, n: Normalized)
    requires Reconciled(t, p, u, now, t', n)
    ensures LiveHeads(t') == {u.state}
    ensures EffectiveCurrentHead(t') == Pointed(u.state)
    ensures t'.retirements.Keys == t.retirements.Keys + (LiveHeads(t) - {n.survivor})
  {
    hide Reconciled, Wrote, ReconcileAdmitted, AdmittedBy;
    var parent, adm, f, l := ReconciledParts(t, p, u, now, t', n);
    WroteEvidence(t, p, u, now, t', parent, adm, f, l);
    RetiresAllButSurvivor(t, p, parent, adm.record.value, n);
    SnapsAfter(t, p, u, now, t', parent, adm, f, l);
    SoleHead(t, t', u.state, n.survivor);
  }

  lemma RetiresAllButSurvivor(t: Tables, p: Params, parent: Option<StateId>, record: ReconciliationRecord,
                              n: Normalized)
    requires ReconcileAdmitted(t, p, parent, record, n)
    ensures record.retired == LiveHeads(t) - {n.survivor}
    ensures n.survivor in LiveHeads(t) && parent == Some(n.survivor) && record.survivor == n.survivor
  {
    hide EvidenceVerifies, Admits, Normalize, LiveHeads;
  }

  lemma SnapsAfter(t: Tables, p: Params, u: Uuids, now: Time, t': Tables, parent: Option<StateId>, adm: Admitted,
                   f: FactsApplied, l: LoopsApplied)
    requires Wrote(t, p, u, now, t', parent, adm, f, l)
    ensures t'.snaps.Keys == t.snaps.Keys + {u.state} && u.state !in t.snaps
    ensures forall a :: a in t.snaps ==> t'.snaps[a] == t.snaps[a]
    ensures t'.snaps[u.state].parent == parent
    ensures parent.Some? ==> parent.value in t.snaps
  {
    hide FactsDone, LoopsDone, FingerprintOf, LedgerRows, WrittenVersions, WrittenCoverage, LoopIdsFresh, FactIdsFresh,
         RetirementRows, InputRows, RecordedResolutions, PointerAfterInsert;
  }

  lemma NoLongerLive(t: Tables, t': Tables, n: StateId, survivor: StateId, h: StateId)
    requires n in t'.snaps && t'.snaps[n].parent == Some(survivor) && h in t.snaps
    requires forall a :: a in t.snaps ==> a in t'.snaps && t'.snaps[a] == t.snaps[a]
    requires t'.retirements.Keys == t.retirements.Keys + (LiveHeads(t) - {survivor})
    ensures h !in LiveHeads(t')
  {
    if c :| c in t.snaps && t.snaps[c].parent == Some(h) {
      assert t'.snaps[c].parent == Some(h);
    }
  }

  lemma SoleHead(t: Tables, t': Tables, n: StateId, survivor: StateId)
    requires t'.snaps.Keys == t.snaps.Keys + {n} && n !in t.snaps
    requires forall a :: a in t.snaps ==> t'.snaps[a] == t.snaps[a] && t.snaps[a].parent != Some(n)
    requires t'.snaps[n].parent == Some(survivor) && survivor in t.snaps
    requires t'.retirements.Keys == t.retirements.Keys + (LiveHeads(t) - {survivor})
    requires n !in t.retirements
    requires t'.pointer.Some? && t'.pointer.value.state == n
    ensures LiveHeads(t') == {n} && EffectiveCurrentHead(t') == Pointed(n)
  {
    hide Live;
    forall h | h in t.snaps ensures h !in LiveHeads(t') {
      NoLongerLive(t, t', n, survivor, h);
    }
    LiveInScope(t);
    LiveInScope(t');
    LiveMeaning(t'.snaps, t'.retirements.Keys, n);
    assert !HasChild(t'.snaps, n);
    assert LiveHeads(t') == {n};
  }

  // ----- What is left to decide, relative to the new head

  lemma TerminalOfFrame(t: Tables, t': Tables, n: StateId, h: StateId, accepted: set<StateId>, key: TerminalKey)
    requires TreeOk(t.snaps) && Extends(t.snaps, t'.snaps, n) && RowsGrown(t, t', n) && h in t.snaps
    ensures TerminalOf(t'.snaps, t'.ledger, ChainSet(t'.snaps, h, {n} + accepted), key) <==>
            TerminalOf(t.snaps, t.ledger, ChainSet(t.snaps, h, accepted), key)
  {
    ExtendsTreeOk(t.snaps, t'.snaps, n);
    ChainExtends(t.snaps, t'.snaps, n, h, accepted);
    var chain := ChainSet(t.snaps, h, accepted);
    assert chain <= t.snaps.Keys;
    assert ChainSet(t'.snaps, h, {n} + accepted) == chain;
    NewestFrame(t.snaps, t.ledger, t'.snaps, t'.ledger, chain, key.kind, key.id);
    hide RowsGrown, Extends, TreeOk, ChainSet, IsNewest;
  }

  lemma TerminalsFrame(t: Tables, t': Tables, n: StateId, heads: set<StateId>, accepted: set<StateId>)
    requires TreeOk(t.snaps) && Extends(t.snaps, t'.snaps, n) && RowsGrown(t, t', n) && heads <= t.snaps.Keys
    ensures Terminals(t'.snaps, t'.ledger, heads, {n} + accepted) == Terminals(t.snaps, t.ledger, heads, accepted)
  {
    hide TreeOk, Extends, RowsGrown, ChainSet, TerminalOf, Terminals;
    forall key
      ensures key in Terminals(t'.snaps, t'.ledger, heads, {n} + accepted) <==>
              key in Terminals(t.snaps, t.ledger, heads, accepted)
    {
      TerminalInLedger(t.snaps, t.ledger, heads, accepted, key);
      TerminalInLedger(t'.snaps, t'.ledger, heads, {n} + accepted, key);
      forall h | h in heads
        ensures TerminalOf(t'.snaps, t'.ledger, ChainSet(t'.snaps, h, {n} + accepted), key) <==>
                TerminalOf(t.snaps, t.ledger, ChainSet(t.snaps, h, accepted), key)
      {
        TerminalOfFrame(t, t', n, h, accepted, key);
      }
    }
  }

  lemma ResolvedFrame(s: Snaps, s': Snaps, n: StateId, lineage: set<StateId>, key: TerminalKey)
    requires Extends(s, s', n) && lineage <= s.Keys
    ensures Resolved(s', {n} + lineage, key) <==>
      Resolved(s, lineage, key) ||
      (s'[n].envelope.reconciliation.Some? && key in s'[n].envelope.reconciliation.value.resolutions)
  {
    if Resolved(s, lineage, key) {
      var a :| a in lineage && a in s && s[a].envelope.reconciliation.Some? &&
        key in s[a].envelope.reconciliation.value.resolutions;
      assert s'[a] == s[a];
    }
  }

  ghost function RecordedKeys(snap: Snapshot): set<TerminalKey> {
    if snap.envelope.reconciliation.Some? then snap.envelope.reconciliation.value.resolutions.Keys else {}
  }

  /**
   Extending the accepted head by one snapshot leaves the undecided terminals as they were, less
   what the new snapshot itself resolves, provided the divergent lineages stay the same.
   */
  lemma UnresolvedExtends(t: Tables, t': Tables, n: StateId, h: StateId)
    requires TreeOk(t.snaps) && Extends(t.snaps, t'.snaps, n) && RowsGrown(t, t', n)
    requires h in t.snaps && t'.snaps[n].parent == Some(h)
    requires t.retirements.Keys <= t.snaps.Keys
    requires DivergentHeads(t', n) == DivergentHeads(t, h)
    ensures Unresolved(t', n) == Unresolved(t, h) - RecordedKeys(t'.snaps[n])
  {
    hide TreeOk, RowsGrown, Terminals, Resolved, ChainSet, Live;
    LineageExtends(t.snaps, t'.snaps, n);
    var accepted := Ancestry(t.snaps, h);
    assert Ancestry(t'.snaps, n) == {n} + accepted;
    LiveInScope(t);
    TerminalsFrame(t, t', n, DivergentHeads(t, h), accepted);
    AncestryInScope(t.snaps, h);
    hide Extends;
    forall key ensures key in Unresolved(t', n) <==> key in Unresolved(t, h) - RecordedKeys(t'.snaps[n]) {
      ResolvedFrame(t.snaps, t'.snaps, n, accepted, key);
    }
  }

  lemma LiveInScope(t: Tables)
    ensures LiveHeads(t) <= t.snaps.Keys
  {
  }

  lemma AncestryInScope(s: Snaps, h: StateId)
    ensures Ancestry(s, h) <= s.Keys
  {
  }

  lemma ReconciledFrame(t: Tables, p: Params, u: Uuids, now: Time, t': Tables, n: Normalized)
    requires Inv(t) && Reconciled(t, p, u, now, t', n)
    ensures Extends(t.snaps, t'.snaps, u.state) && RowsGrown(t, t', u.state)
    ensures n.survivor in t.snaps && t'.snaps[u.state].parent == Some(n.survivor)
    ensures t'.snaps[u.state].envelope.reconciliation == Some(RecordOf(t, n))
    ensures Admits(t, n, p.factChanges, p.loopChanges, p.agent)
  {
    hide Reconciled, Wrote, EvidenceVerifies, Admits, Normalize, RecordOf, AdmittedBy, InPlaceOk, KeysUnique,
         PointerOk, RetirementsOk, RowsOwned, ReconcilesOk, Extends, RowsGrown, TreeOk, RowsOk;
    var parent, adm, f, l := ReconciledParts(t, p, u, now, t', n);
    WroteExtends(t, p, u, now, t', parent, adm, f, l);
    WroteRowsGrown(t, p, u, now, t', parent, adm, f, l);
    hide ReconcileAdmitted;
    SnapsAfter(t, p, u, now, t', parent, adm, f, l);
    AdmittedSurvivor(t, p, parent, adm.record.value, n);
  }

  lemma AdmittedSurvivor(t: Tables, p: Params, parent: Option<StateId>, record: ReconciliationRecord, n: Normalized)
    requires ReconcileAdmitted(t, p, parent, record, n)
    ensures parent == Some(n.survivor) && record == RecordOf(t, n)
    ensures Admits(t, n, p.factChanges, p.loopChanges, p.agent)
  {
    hide EvidenceVerifies, Admits, Normalize, LiveHeads;
  }

  lemma DivergentSets(t: Tables, t': Tables, n: StateId, h: StateId)
    requires TreeOk(t.snaps) && h in t.snaps && n !in t.snaps && t.retirements.Keys <= t.snaps.Keys
    requires LiveHeads(t') == {n}
    requires t'.retirements.Keys == t.retirements.Keys + (LiveHeads(t) - {h})
    requires Ancestry(t'.snaps, n) == {n} + Ancestry(t.snaps, h)
    ensures DivergentHeads(t', n) == DivergentHeads(t, h)
  {
    forall g | g in LiveHeads(t) - {h} ensures g !in Ancestry(t.snaps, h) {
      RetiredOffLineage(t.snaps, t.retirements.Keys, h, g);
    }
    hide TreeOk, Ancestry, Live;
    LiveInScope(t);
  }

  /** The divergent lineages are those of the survivor before the reconcile: retiring moves none on or off. */
  lemma DivergentHeadsAfter(t: Tables, p: Params, u: Uuids, now: Time, t': Tables, n: Normalized)
    requires Inv(t) && Reconciled(t, p, u, now, t', n)
    ensures DivergentHeads(t', u.state) == DivergentHeads(t, n.survivor)
  {
    hide Reconciled, RowsOk, InPlaceOk, KeysUnique, PointerOk, RetirementsOk, RowsOwned, ReconcilesOk, RowsGrown,
         Admits, RecordOf, EffectiveCurrentHead, DivergentHeads, TreeOk, Extends, Ancestry, LiveHeads;
    ReconciledFrame(t, p, u, now, t', n);
    OneLiveHead(t, p, u, now, t', n);
    LineageExtends(t.snaps, t'.snaps, u.state);
    RetirementsInScope(t);
    ExtendsIsNew(t.snaps, t'.snaps, u.state);
    DivergentSets(t, t', u.state, n.survivor);
  }

  lemma RetirementsInScope(t: Tables)
    requires RetirementsOk(t)
    ensures t.retirements.Keys <= t.snaps.Keys
  {
  }

  /**
   After a successful reconcile nothing opaque is left to decide, what is left of each kind
   numbers exactly what the record says, and under strict nothing is left at all.
   */
  lemma ReconcileDecides(t: Tables, p: Params, u: Uuids, now: Time, t': Tables, n: Normalized)
    requires Inv(t) && Reconciled(t, p, u, now, t', n)
    ensures u.state in t'.snaps && t'.snaps[u.state].envelope.reconciliation == Some(RecordOf(t, n))
    ensures Unresolved(t', u.state) == LeftOpen(t, n)
    ensures forall key :: key in Unresolved(t', u.state) ==> !Opaque(t', key)
    ensures RecordOf(t, n).unresolvedDivergent ==
      Counts(|OfKind(Unresolved(t', u.state), Fact)|, |OfKind(Unresolved(t', u.state), Loop)|)
    ensures n.strict ==> Unresolved(t', u.state) == {}
  {
    hide Reconciled, InPlaceOk, KeysUnique, PointerOk, RowsOwned, ReconcilesOk, RowsGrown, Extends, DivergentHeads,
         Unresolved, Opaque, Outcomes, AcceptAdmitted, AdoptedBy, OnRejected, TreeOk, RetirementsOk, LedgerOk,
         CoverageOk, VersionsOk, RowsExist, OfKind;
    ReconciledFrame(t, p, u, now, t', n);
    ExtendsIsNew(t.snaps, t'.snaps, u.state);
    DivergentHeadsAfter(t, p, u, now, t', n);
    RetirementsInScope(t);
    UnresolvedExtends(t, t', u.state, n.survivor);
    forall key | key in LeftOpen(t, n) ensures !Opaque(t', key) {
      UnresolvedNamed(t, n.survivor, key);
      OpaqueFrame(t, t', u.state, key);
    }
  }

  lemma OpaqueFrame(t: Tables, t': Tables, n: StateId, key: TerminalKey)
    requires TreeOk(t.snaps) && Extends(t.snaps, t'.snaps, n) && RowsGrown(t, t', n) && key.state in t.snaps
    ensures Opaque(t', key) <==> Opaque(t, key)
  {
    ComparableNewestKept(t, t', n, key);
  }

  // ----- Accepted values

  lemma NewestOnNewHead(t: Tables, t': Tables, n: StateId, ch: Changes, rows: Ledger, k: Kind, id: RowId, o: nat)
    requires TreeOk(t'.snaps) && Extends(t.snaps, t'.snaps, n)
    requires t'.ledger == t.ledger + rows && RowsFor(rows, n, ch) && forall x :: x in t.ledger ==> x.state != n
    requires LastNaming(ch.Of(k), id, o)
    requires Ancestry(t'.snaps, n) <= t'.snaps.Keys && n in Ancestry(t'.snaps, n)
    ensures NewestOf(t'.snaps, t'.ledger, Ancestry(t'.snaps, n), k, id) == Some(Tuple(n, k, o))
  {
    var on, x := Ancestry(t'.snaps, n), Tuple(n, k, o);
    hide Ancestry;
    assert TupleOn(t'.ledger, on, k, id, x);
    forall y | TupleOn(t'.ledger, on, k, id, y) ensures !Newer(t'.snaps, y, x) {
      assert y.state in t'.snaps;
      assert y.state == n ==> y in rows;
    }
    NewestUnique(t'.snaps, t'.ledger, on, k, id, x);
  }

  /**
   After an accept, the newest change of the id on the accepted lineage is the one the request
   named, and its recorded value is the divergent terminal's.
   */
  lemma AcceptedValueIsDivergent(t: Tables, p: Params, u: Uuids, now: Time, t': Tables, n: Normalized, key: TerminalKey,
                                 o: nat)
    requires Inv(t) && Reconciled(t, p, u, now, t', n)
    requires key in n.resolutions && n.resolutions[key] == Accept(o)
    ensures NewestOf(t'.snaps, t'.ledger, Ancestry(t'.snaps, u.state), key.kind, key.id) ==
      Some(Tuple(u.state, key.kind, o))
    ensures ComparableAt(t'.versions, key.id, Tuple(u.state, key.kind, o)).Some?
    ensures ComparableAt(t'.versions, key.id, Tuple(u.state, key.kind, o)) ==
      ComparableNewest(t.snaps, t.ledger, t.versions, key)
  {
    hide Reconciled, Wrote, InPlaceOk, KeysUnique, PointerOk, RowsOwned, RetirementsOk, ReconcilesOk, AdmittedBy,
         EvidenceVerifies, AcceptAdmitted, AcceptBacked, LastNaming, LedgerRows, WrittenCoverage, RowsGrown, Normalize,
         TreeOk, Extends, Unresolved, OnRejected, RowsOk, Ancestry, RowsFor, LeftOpen, NewestOf, AdoptedBy,
         DivergentHeads, ComparableAt, ComparableNewest;
    var parent, adm, f, l := ReconciledParts(t, p, u, now, t', n);
    AdmittedSurvivor(t, p, parent, adm.record.value, n);
    AcceptInRecord(t, p, n, key);
    WroteExtends(t, p, u, now, t', parent, adm, f, l);
    WroteRowsGrown(t, p, u, now, t', parent, adm, f, l);
    AcceptBackedByStep(t, p, u, now, t', parent, adm, f, l, key, o);
    AcceptRecords(t, p, u, now, t', parent, adm, f, l, key, o);
    ExtendsIsNew(t.snaps, t'.snaps, u.state);
    NoRowsYet(t, u.state);
    AncestryInScope(t'.snaps, u.state);
    AncestryUnfold(t'.snaps, u.state);
    NewestOnNewHead(t, t', u.state, Changes(f.out, l.out), LedgerRows(u.state, Changes(f.out, l.out)), key.kind, key.id,
                    o);
  }

  lemma AcceptInRecord(t: Tables, p: Params, n: Normalized, key: TerminalKey)
    requires RowsOk(t) && Admits(t, n, p.factChanges, p.loopChanges, p.agent)
    requires key in n.resolutions && n.resolutions[key].Accept?
    ensures key.id != "" && key.state in t.snaps
    ensures AcceptAdmitted(t, key, n.resolutions[key].ordinal, p.factChanges, p.loopChanges, p.agent)
  {
    hide AcceptAdmitted;
    UnresolvedNamed(t, n.survivor, key);
  }

  // ----- Later writes on the pointed head

  /** A non-reconcile step that wrote below the pointed head. */
  ghost predicate Advanced(t: Tables, p: Params, u: Uuids, now: Time, t': Tables, q: StateId) {
    && FreshUuids(t, p, u)
    && Step(t, p, u, now).0 == t' && Step(t, p, u, now).1.Written?
    && OperationOf(p) != Reconcile
    && ScopePointer(t) == Some(q) && ByRevision(t.snaps, p.expectedRevision) == Some(q)
  }

  lemma AdvancedParts(t: Tables, p: Params, u: Uuids, now: Time, t': Tables, q: StateId)
    returns (adm: Admitted, f: FactsApplied, l: LoopsApplied)
    requires Advanced(t, p, u, now, t', q)
    ensures Wrote(t, p, u, now, t', Some(q), adm, f, l) && adm.record.None?
    ensures AdmittedBy(t, p, Some(q), adm)
  {
    hide AdmittedBy, Wrote, LoopIdsFresh, FactIdsFresh;
    var parent;
    parent, adm, f, l := StepWrote(t, p, u, now, t', Step(t, p, u, now).1);
    WroteParent(t, p, u, now, t', parent, adm, f, l);
    RecordIffReconcile(t, p, parent, adm);
  }

  lemma WroteParent(t: Tables, p: Params, u: Uuids, now: Time, t': Tables, parent: Option<StateId>, adm: Admitted,
                    f: FactsApplied, l: LoopsApplied)
    requires Wrote(t, p, u, now, t', parent, adm, f, l)
    ensures parent == ByRevision(t.snaps, p.expectedRevision)
  {
  }

  lemma AdvancedHeads(t: Tables, t': Tables, n: StateId, q: StateId)
    requires TreeOk(t.snaps) && Extends(t.snaps, t'.snaps, n) && q in LiveHeads(t)
    requires t'.snaps[n].parent == Some(q) && t'.retirements == t.retirements && n !in t.retirements
    requires forall a :: a in t.snaps ==> t.snaps[a].parent != Some(n)
    requires t.retirements.Keys <= t.snaps.Keys
    ensures LiveHeads(t') == LiveHeads(t) - {q} + {n}
    ensures DivergentHeads(t', n) == DivergentHeads(t, q)
  {
    hide TreeOk, Ancestry, Live, Extends;
    LineageExtends(t.snaps, t'.snaps, n);
    NewHeadIsLive(t.snaps, t'.snaps, n, t.retirements.Keys);
    ExtendsIsNew(t.snaps, t'.snaps, n);
    LiveInScope(t);
    LiveInScope(t');
    ExtendsKeys(t.snaps, t'.snaps, n);
    forall h | h in t.snaps ensures h in LiveHeads(t') <==> h in LiveHeads(t) && h != q {
      OtherHeadsLive(t.snaps, t'.snaps, n, t.retirements.Keys, h);
    }
    assert LiveHeads(t') == LiveHeads(t) - {q} + {n};
  }

  /** Writing below the pointed head moves the pointer there and leaves every undecided terminal as it was. */
  lemma AdvanceKeepsUndecided(t: Tables, p: Params, u: Uuids, now: Time, t': Tables, q: StateId)
    requires Inv(t) && Advanced(t, p, u, now, t', q)
    ensures ScopePointer(t') == Some(u.state)
    ensures LiveHeads(t') == LiveHeads(t) - {q} + {u.state}
    ensures Unresolved(t', u.state) == Unresolved(t, q)
  {
    hide Advanced, Wrote, RowsOk, InPlaceOk, KeysUnique, RetirementsOk, RowsOwned, ReconcilesOk, RowsGrown,
         DivergentHeads, Unresolved, TreeOk, Extends, AdmittedBy;
    AdvancedPointer(t, p, u, now, t', q);
    var adm, f, l := AdvancedParts(t, p, u, now, t', q);
    WroteExtends(t, p, u, now, t', Some(q), adm, f, l);
    WroteRowsGrown(t, p, u, now, t', Some(q), adm, f, l);
    WroteEvidence(t, p, u, now, t', Some(q), adm, f, l);
    RetirementsInScope(t);
    LiveInScope(t);
    assert t'.retirements == t.retirements;
    hide LiveHeads;
    AdvancedHeads(t, t', u.state, q);
    UnresolvedExtends(t, t', u.state, q);
    ExtendsIsNew(t.snaps, t'.snaps, u.state);
  }

  lemma AdvancedPointer(t: Tables, p: Params, u: Uuids, now: Time, t': Tables, q: StateId)
    requires PointerOk(t) && Advanced(t, p, u, now, t', q)
    ensures q in LiveHeads(t) && t'.pointer.Some? && t'.pointer.value.state == u.state
  {
    hide Advanced, Wrote, AdmittedBy, ByRevision;
    var adm, f, l := AdvancedParts(t, p, u, now, t', q);
    WroteEvidence(t, p, u, now, t', Some(q), adm, f, l);
    PointsAt(t, p, u, now, t', q);
    LiveMeaning(t.snaps, t.retirements.Keys, q);
  }

  lemma PointsAt(t: Tables, p: Params, u: Uuids, now: Time, t': Tables, q: StateId)
    requires Advanced(t, p, u, now, t', q)
    ensures t.pointer.Some? && t.pointer.value.state == q
  {
    hide FreshUuids, Step, ByRevision;
  }
}
