/** What every reachable state of a scope satisfies, and that each committed step keeps it. */
module Invariants {
  import opened Options
  import opened Types
  import opened Tree
  import opened Heads
  import opened Newest
  import opened ChangeLog
  import opened Verifiers
  import opened Evaluation
  import opened Protocol

  // ----- The invariant

  ghost predicate KeysUnique(s: Snaps) {
    forall a, b :: a in s && b in s && s[a].key == s[b].key ==> a == b
  }

  ghost predicate LedgerOk(s: Snaps, l: Ledger) {
    && (forall x :: x in l ==> x.state in s && s[x.state].digest.Some?)
    && (forall a :: a in s && s[a].digest.Some? ==> LedgerVerifies(s, l, a))
  }

  /** One coverage row per ledger entry; only loop changes may lack a version. */
  ghost predicate CoverageOk(l: Ledger, c: CoverageRows) {
    && c.Keys == l.Keys
    && (forall x :: x in c && x in l ==> c[x].id == l[x].id)
    && (forall x :: x in c && c[x].disposition == Unversioned ==> x.kind == Loop)
  }

  /** One version per materialized change, of the right kind. */
  ghost predicate VersionsOk(c: CoverageRows, v: Versions) {
    && (forall vk :: vk in v <==> vk.tuple in c && c[vk.tuple].id == vk.id && c[vk.tuple].disposition == Materialized)
    && (forall vk :: vk in v ==> (vk.tuple.kind == Fact <==> v[vk].value.FactValue?))
  }

  ghost predicate RowsExist(l: Ledger, facts: Facts, loops: Loops) {
    forall x :: x in l ==> if x.kind == Fact then l[x].id in facts else l[x].id in loops
  }

  ghost predicate GapAfter(s: Snaps, revision: nat) {
    exists g :: g in s && s[g].digest.None? && s[g].revision > revision
  }

  /** The in-place tables hold the newest change over ALL lineages, wherever it is known. */
  ghost predicate FactsInPlace(s: Snaps, l: Ledger, v: Versions, facts: Facts) {
    forall id, x :: IsNewest(s, l, s.Keys, Fact, id, x) && x.state in s && !GapAfter(s, s[x.state].revision)
                    && VersionKey(id, x) in v && id in facts ==>
      FactAgrees(facts[id], v[VersionKey(id, x)])
  }

  ghost predicate LoopsInPlace(s: Snaps, l: Ledger, v: Versions, loops: Loops) {
    forall id, x :: IsNewest(s, l, s.Keys, Loop, id, x) && x.state in s && !GapAfter(s, s[x.state].revision)
                    && VersionKey(id, x) in v && id in loops ==>
      LoopAgrees(loops[id], v[VersionKey(id, x)])
  }

  ghost predicate PointerOk(t: Tables) {
    t.pointer.Some? ==> t.pointer.value.state in LiveHeads(t)
  }

  ghost predicate RetirementsOk(t: Tables) {
    && RetirementAttribution(t)
    && (forall a :: a in t.retirements && t.retirements[a].retiredBy in t.snaps ==>
          a in t.snaps && t.snaps[a].revision < t.snaps[t.retirements[a].retiredBy].revision)
  }

  ghost predicate RowsOwned(t: Tables) {
    && (forall e :: e in t.inputs ==> e.0 in t.snaps)
    && (forall k :: k in t.resolutions ==> k.resolvedBy in t.snaps)
  }

  ghost predicate ReconcilesOk(t: Tables) {
    forall a :: a in t.snaps ==> SnapReconcileOk(t, a)
  }

  ghost predicate RowsOk(t: Tables) {
    && LedgerOk(t.snaps, t.ledger)
    && CoverageOk(t.ledger, t.coverage)
    && VersionsOk(t.coverage, t.versions)
    && RowsExist(t.ledger, t.facts, t.loops)
  }

  ghost predicate InPlaceOk(t: Tables) {
    && FactsInPlace(t.snaps, t.ledger, t.versions, t.facts)
    && LoopsInPlace(t.snaps, t.ledger, t.versions, t.loops)
  }

  /** Requests that predate the change ledger were version 1, and only reconciles carry a record. */
  ghost predicate FingerprintsOk(s: Snaps) {
    forall a :: a in s ==>
      && (s[a].digest.None? ==> s[a].fingerprint.resultVersion == V1)
      && (s[a].fingerprint.operation == Reconcile <==> s[a].envelope.reconciliation.Some?)
  }

  ghost predicate Inv(t: Tables) {
    && TreeOk(t.snaps)
    && KeysUnique(t.snaps)
    && FingerprintsOk(t.snaps)
    && RowsOk(t)
    && InPlaceOk(t)
    && PointerOk(t)
    && RetirementsOk(t)
    && RowsOwned(t)
    && ReconcilesOk(t)
    && t.backfilled <= t.snaps.Keys
  }

  /** A scope before its first write under this protocol: empty, or well-formed legacy history. */
  ghost predicate Legacy(t: Tables) {
    && TreeOk(t.snaps)
    && KeysUnique(t.snaps)
    && FingerprintsOk(t.snaps)
    && RowsOk(t)
    && InPlaceOk(t)
    && t.pointer.None? && t.retirements == map[] && t.inputs == {} && t.resolutions == map[]
    && (forall a :: a in t.snaps ==> t.snaps[a].envelope.reconciliation.None?)
    && t.backfilled <= t.snaps.Keys
  }

  lemma LegacyInv(t: Tables)
    requires Legacy(t)
    ensures Inv(t)
  {
    forall a | a in t.snaps ensures SnapReconcileOk(t, a) {
      assert OwnsNoRows(t, a);
    }
  }

  lemma InvHasRows(t: Tables)
    requires Inv(t)
    ensures RowsOk(t)
  {
    hide RowsOk;
  }

  lemma InvHasTree(t: Tables)
    requires Inv(t)
    ensures TreeOk(t.snaps)
  {
    hide TreeOk;
  }

  // ----- A committed step

  /** The tables a committed step leaves, given what it admitted and what its changes did. */
  ghost predicate Wrote(t: Tables, p: Params, u: Uuids, now: Time, t': Tables,
                        parent: Option<StateId>, adm: Admitted, f: FactsApplied, l: LoopsApplied) {
    && FreshUuids(t, p, u)
    && ByKey(t.snaps, p.key).None?
    && parent == ByRevision(t.snaps, p.expectedRevision)
    && FactsDone(t, p, u, now) == Some(f) && LoopsDone(t, p, u, now) == Some(l)
    && |f.out| == |p.factChanges| && |l.out| == |l.owners| == |p.loopChanges|
    && t' == WrittenTables(t, p, parent, adm, u, now, f, l)
  }

  ghost predicate AdmittedBy(t: Tables, p: Params, parent: Option<StateId>, adm: Admitted) {
    Precheck(p).None? && AdmissionOf(t, p, parent) == Admit(adm)
  }

  lemma StepWrote(t: Tables, p: Params, u: Uuids, now: Time, t': Tables, o: Outcome)
    returns (parent: Option<StateId>, adm: Admitted, f: FactsApplied, l: LoopsApplied)
    requires FreshUuids(t, p, u) && Step(t, p, u, now) == (t', o) && o.Written?
    ensures Wrote(t, p, u, now, t', parent, adm, f, l)
    ensures AdmittedBy(t, p, parent, adm)
    ensures adm.record.Some? ==> ReconcileParity(t', u.state, adm.record.value)
    ensures o == Written(u.state, MaxRevision(t.snaps) + 1, parent, t'.snaps[u.state].envelope,
                         if p.resultVersion == V1 then None else Some(Changes(f.out, l.out)),
                         if adm.record.Some? then Some(BlockOf(adm.record.value, u.state)) else None)
  {
    hide ReconcileParity, AdmissionOf, Precheck, FingerprintOf, ApplyFacts, ApplyLoops, ReplayOf, LoopIdsFresh,
         FactIdsFresh;
    parent := ByRevision(t.snaps, p.expectedRevision);
    adm := AdmissionOf(t, p, parent).adm;
    f := FactsDone(t, p, u, now).value;
    l := LoopsDone(t, p, u, now).value;
    FactsAppliedShape(t.facts, p.factChanges, u.facts, p.agent, now, |p.factChanges|);
    LoopsAppliedShape(t.loops, p.loopChanges, u.loops, p.agent, now, |p.loopChanges|);
  }

  /** A step that did not write left every table as it was. */
  lemma StepRefused(t: Tables, p: Params, u: Uuids, now: Time)
    requires Sized(p, u) && !Step(t, p, u, now).1.Written?
    ensures Step(t, p, u, now).0 == t
  {
    hide ReconcileParity, AdmissionOf, Precheck, FingerprintOf, FactsDone, LoopsDone, ReplayOf;
  }

  /** The snapshots after a committed step: the old ones and the new one. */
  lemma WroteSnap(t: Tables, p: Params, u: Uuids, now: Time, t': Tables, parent: Option<StateId>, adm: Admitted,
                  f: FactsApplied, l: LoopsApplied)
    requires Wrote(t, p, u, now, t', parent, adm, f, l)
    ensures u.state !in t.snaps &&
      t'.snaps == t.snaps[u.state := NewSnapshot(t, p, parent, adm, now, Changes(f.out, l.out))]
    ensures parent == ByRevision(t.snaps, p.expectedRevision)
  {
    hide FactsDone, LoopsDone, FingerprintOf, NewSnapshot, ByRevision, LedgerRows, WrittenCoverage, WrittenVersions,
         RetirementRows, InputRows, RecordedResolutions, PointerAfterInsert, LoopIdsFresh, FactIdsFresh;
  }

  lemma NewRevision(s: Snaps)
    ensures forall a :: a in s ==> s[a].revision < MaxRevision(s) + 1
  {
  }

  lemma ParentInScope(s: Snaps, revision: Option<int>)
    ensures ByRevision(s, revision).Some? ==> ByRevision(s, revision).value in s
  {
  }

  lemma Appended(s: Snaps, s': Snaps, n: StateId)
    requires n !in s && n in s' && s' == s[n := s'[n]]
    requires s'[n].parent.Some? ==> s'[n].parent.value in s
    requires s'[n].revision >= 1 && forall a :: a in s ==> s[a].revision < s'[n].revision
    ensures Extends(s, s', n)
  {
  }

  lemma WroteExtends(t: Tables, p: Params, u: Uuids, now: Time, t': Tables, parent: Option<StateId>, adm: Admitted,
                     f: FactsApplied, l: LoopsApplied)
    requires TreeOk(t.snaps) && Wrote(t, p, u, now, t', parent, adm, f, l)
    ensures Extends(t.snaps, t'.snaps, u.state) && TreeOk(t'.snaps)
    ensures t'.snaps[u.state].parent == parent && t'.snaps[u.state].digest == Some(Changes(f.out, l.out))
    ensures t'.snaps[u.state].envelope.factChanges == p.factChanges &&
      t'.snaps[u.state].envelope.loopChanges == p.loopChanges
    ensures t'.snaps[u.state].author == p.agent && t'.snaps[u.state].recordedAt == now
    ensures t'.snaps[u.state].envelope.reconciliation == adm.record
  {
    hide FactsDone, LoopsDone, FingerprintOf, LedgerRows, WrittenCoverage, WrittenVersions, RetirementRows, InputRows,
         RecordedResolutions, PointerAfterInsert, LoopIdsFresh, FactIdsFresh, TreeOk, Extends;
    NewRevision(t.snaps);
    WroteSnap(t, p, u, now, t', parent, adm, f, l);
    ParentInScope(t.snaps, p.expectedRevision);
    Appended(t.snaps, t'.snaps, u.state);
    ExtendsTreeOk(t.snaps, t'.snaps, u.state);
  }

  lemma WroteKeys(t: Tables, p: Params, u: Uuids, now: Time, t': Tables, parent: Option<StateId>, adm: Admitted,
                  f: FactsApplied, l: LoopsApplied)
    requires KeysUnique(t.snaps) && Wrote(t, p, u, now, t', parent, adm, f, l)
    ensures KeysUnique(t'.snaps)
  {
    hide FactsDone, LoopsDone, FingerprintOf, LedgerRows, WrittenCoverage, WrittenVersions, RetirementRows, InputRows,
         RecordedResolutions, PointerAfterInsert, LoopIdsFresh, FactIdsFresh;
  }

  lemma WroteFingerprints(t: Tables, p: Params, u: Uuids, now: Time, t': Tables, parent: Option<StateId>, adm: Admitted,
                          f: FactsApplied, l: LoopsApplied)
    requires FingerprintsOk(t.snaps) && Wrote(t, p, u, now, t', parent, adm, f, l)
    requires adm.record.Some? <==> OperationOf(p) == Reconcile
    ensures FingerprintsOk(t'.snaps)
    ensures u.state in t'.snaps && t'.snaps[u.state].fingerprint == FingerprintOf(p, parent) &&
      t'.snaps[u.state].key == p.key
    ensures t'.snaps[u.state].revision == MaxRevision(t.snaps) + 1
  {
    hide FactsDone, LoopsDone, Normalize, BaseEnvelope, MaxRevision, LedgerRows, WrittenCoverage, WrittenVersions,
         RetirementRows, InputRows, RecordedResolutions, PointerAfterInsert, LoopIdsFresh, FactIdsFresh;
    WroteSnap(t, p, u, now, t', parent, adm, f, l);
    hide WrittenTables;
  }
}
