/**
 What the stored-evidence verifiers leave no room for: two sets of tables with the same snapshots that
 both verify hold the same rows, and from any state nothing is merged or replayed on other evidence.
 */
module TamperEvidence {
  import opened Options
  import opened Types
  import opened Tree
  import opened Newest
  import opened ChangeLog
  import opened Divergence
  import opened Verifiers
  import opened Evaluation
  import opened Protocol
  import opened Invariants
  import opened Evidence
  import opened Reconciling

  /** Foreign keys: every row is of a snapshot of the scope. */
  ghost predicate RowsInScope(t: Tables) {
    && (forall x :: x in t.ledger ==> x.state in t.snaps)
    && (forall x :: x in t.coverage ==> x.state in t.snaps)
    && (forall vk :: vk in t.versions ==> vk.tuple.state in t.snaps)
  }

  /** Two sets of tables that verify, with the same snapshots and backfill marks. */
  ghost predicate BothVerify(t: Tables, t': Tables) {
    && VersionParity(t) && VersionParity(t') && RowsInScope(t) && RowsInScope(t')
    && t.snaps == t'.snaps && t.backfilled == t'.backfilled
  }

  lemma SameLedgerAt(t: Tables, t': Tables, x: Tuple)
    requires BothVerify(t, t')
    ensures x in t.ledger <==> x in t'.ledger
    ensures x in t.ledger ==> t.ledger[x] == t'.ledger[x]
    ensures x in t.ledger <==> x in t.coverage
    ensures x in t'.ledger <==> x in t'.coverage
    ensures x in t.ledger ==> t.coverage[x].id == t.ledger[x].id == t'.coverage[x].id
    ensures x in t.ledger ==> t.coverage[x].source == t'.coverage[x].source
    ensures x in t.ledger ==>
      x.state in t.snaps && t.snaps[x.state].digest.Some? && x.ordinal < |t.snaps[x.state].digest.value.Of(x.kind)|
  {
    hide VersionParity, RowsInScope;
    LedgerAt(t, x);
    LedgerAt(t', x);
  }

  /** The ledger and coverage rows of a set of tables that verifies, from its digests and backfill marks. */
  lemma LedgerAt(t: Tables, x: Tuple)
    requires VersionParity(t) && RowsInScope(t)
    ensures x in t.ledger <==> x in t.coverage
    ensures x in t.ledger <==>
      x.state in t.snaps && t.snaps[x.state].digest.Some? && x.ordinal < |t.snaps[x.state].digest.value.Of(x.kind)|
    ensures x in t.ledger ==>
      && t.ledger[x] == t.snaps[x.state].digest.value.Of(x.kind)[x.ordinal]
      && t.coverage[x].id == t.ledger[x].id
      && t.coverage[x].source == if x.state in t.backfilled then ByBackfill else ByWrite
  {
    if x.state in t.snaps {
      assert SnapParity(t, x.state);
      hide FactParity, LoopParity, NamesParity, VersionParity;
      if t.snaps[x.state].digest.Some? {
        assert x == Tuple(x.state, x.kind, x.ordinal);
      }
    }
  }

  /** The change ledger is the digests, and coverage lists exactly the ledger. */
  lemma SameLedger(t: Tables, t': Tables)
    requires BothVerify(t, t')
    ensures t.ledger == t'.ledger && t.coverage.Keys == t.ledger.Keys == t'.coverage.Keys
  {
    hide BothVerify;
    forall x
      ensures x in t.ledger <==> x in t'.ledger
      ensures x in t.ledger ==> t.ledger[x] == t'.ledger[x]
      ensures (x in t.ledger <==> x in t.coverage) && (x in t'.ledger <==> x in t'.coverage)
    {
      SameLedgerAt(t, t', x);
    }
  }

  /** A fact version is the one its change implies: both tables have it, and the same. */
  lemma SameFactVersion(t: Tables, t': Tables, x: Tuple)
    requires BothVerify(t, t') && x in t.ledger && x.kind == Fact
    ensures t.coverage.Keys == t'.coverage.Keys == t.ledger.Keys
    ensures t.coverage[x].disposition == t'.coverage[x].disposition == Materialized
    ensures var vk := VersionKey(t.ledger[x].id, x);
      vk in t.versions && vk in t'.versions && t.versions[vk] == t'.versions[vk]
  {
    SameLedger(t, t');
    SameLedgerAt(t, t', x);
    assert SnapParity(t, x.state) && SnapParity(t', x.state);
    hide LoopParity, VersionParity, CoverageExact, Bare;
    assert x.ordinal < |t.snaps[x.state].envelope.factChanges|;
    assert FactParity(t, x, t.snaps[x.state].envelope.factChanges[x.ordinal]);
    assert FactParity(t', x, t.snaps[x.state].envelope.factChanges[x.ordinal]);
  }

  /** Two loop versions that may only differ in an owner the change neither gives nor opens with. */
  ghost predicate SameButOwner(v: Version, w: Version) {
    && v.value.LoopValue? && w.value.LoopValue? && v.author == w.author && v.recordedAt == w.recordedAt
    && v.value.loopStatus == w.value.loopStatus && v.value.nextAction == w.value.nextAction
    && v.value.dueAt == w.value.dueAt && v.value.blockedOn == w.value.blockedOn && v.value.close == w.value.close
  }

  /** A loop version is the one its change implies, but for an inherited owner. */
  lemma SameLoopVersion(t: Tables, t': Tables, x: Tuple)
    requires BothVerify(t, t') && x in t.ledger && x.kind == Loop
    ensures x.state in t.snaps && x.ordinal < |t.snaps[x.state].envelope.loopChanges| && x in t'.ledger
    ensures var vk, c := VersionKey(t.ledger[x].id, x), t.snaps[x.state].envelope.loopChanges[x.ordinal];
      && (vk in t.versions && vk in t'.versions ==> SameButOwner(t.versions[vk], t'.versions[vk]))
      && (t.ledger[x].created || Truthy(c.owner) ==>
            vk in t.versions && vk in t'.versions && t.versions[vk] == t'.versions[vk])
  {
    SameLedger(t, t');
    SameLedgerAt(t, t', x);
    assert SnapParity(t, x.state) && SnapParity(t', x.state);
    hide FactParity, VersionParity, CoverageExact, Bare, InheritedOwner;
    assert x.ordinal < |t.snaps[x.state].envelope.loopChanges|;
    assert LoopParity(t, x, t.snaps[x.state].envelope.loopChanges[x.ordinal]);
    assert LoopParity(t', x, t.snaps[x.state].envelope.loopChanges[x.ordinal]);
  }

  /** There is no version beside those of the ledger. */
  lemma NoStrayVersion(t: Tables, vk: VersionKey)
    requires VersionParity(t) && RowsInScope(t) && vk in t.versions
    ensures vk.tuple in t.ledger && t.ledger[vk.tuple].id == vk.id
  {
    assert SnapParity(t, vk.tuple.state);
    hide FactParity, LoopParity, NamesParity, VersionParity, LedgerVerifies;
  }

  /** The payload of every snapshot agrees with its ledger on which row each change is about. */
  lemma NamesPinned(t: Tables, x: Tuple)
    requires VersionParity(t) && RowsInScope(t) && x in t.ledger
    ensures x.state in t.snaps
    ensures var env, row := t.snaps[x.state].envelope, t.ledger[x];
      var n := if x.kind == Fact then |env.factChanges| else |env.loopChanges|;
      && x.ordinal < n && row.id != ""
      && var ref := if x.kind == Fact then env.factChanges[x.ordinal].factRef else env.loopChanges[x.ordinal].loopRef;
      if ref.NoRef? then row.created else ref == Ref(row.id) && !row.created
  {
    assert SnapParity(t, x.state);
    hide FactParity, LoopParity, VersionParity, CoverageExact;
  }

  /** A snapshot's ledger verifies exactly when it is the digest, row by row, and as long as the payload's changes. */
  lemma LedgerIs(s: Snaps, l: Ledger, a: StateId)
    ensures LedgerVerifies(s, l, a) <==>
      && a in s && s[a].digest.Some?
      && |s[a].digest.value.facts| == |s[a].envelope.factChanges|
      && |s[a].digest.value.loops| == |s[a].envelope.loopChanges|
      && forall x: Tuple :: x.state == a ==> RowIs(l, x, s[a].digest.value)
  {
    if a in s && s[a].digest.Some? && forall x: Tuple :: x.state == a ==> RowIs(l, x, s[a].digest.value) {
      forall k: Kind, o: nat ensures RowIs(l, Tuple(a, k, o), s[a].digest.value) {
      }
    }
    if LedgerVerifies(s, l, a) {
      forall x: Tuple | x.state == a ensures RowIs(l, x, s[a].digest.value) {
        assert x == Tuple(a, x.kind, x.ordinal);
      }
    }
  }

  /** The row is there exactly when the digest has it, and then says the same and names a row. */
  ghost predicate RowIs(l: Ledger, x: Tuple, ch: Changes) {
    var out := if x.kind == Fact then ch.facts else ch.loops;
    (x in l <==> x.ordinal < |out|) && (x in l ==> l[x] == out[x.ordinal] && l[x].id != "")
  }

  // ----- Inherited owners

  /** Change x is the last of the loop, on any lineage, before the change `at`. */
  ghost predicate LastBefore(t: Tables, id: RowId, at: Tuple, x: Tuple) {
    && x in t.ledger && x.kind == Loop && t.ledger[x].id == id && Earlier(t, x, at)
    && forall y :: y in t.ledger && y.kind == Loop && t.ledger[y].id == id && Earlier(t, y, at) ==>
         y == x || Earlier(t, y, x)
  }

  /** By revision, and within a snapshot by ordinal. */
  ghost predicate Earlier(t: Tables, x: Tuple, y: Tuple) {
    && x.state in t.snaps && y.state in t.snaps
    && (t.snaps[x.state].revision < t.snaps[y.state].revision
        || (t.snaps[x.state].revision == t.snaps[y.state].revision && x.ordinal < y.ordinal))
  }

  /** x proves the owner before `at`: it is the last change before, versioned, with no unrecorded history between. */
  ghost predicate Proves(t: Tables, id: RowId, at: Tuple, x: Tuple) {
    && LastBefore(t, id, at, x)
    && VersionKey(id, x) in t.versions && t.versions[VersionKey(id, x)].value.LoopValue?
    && forall g :: g in t.snaps && t.snaps[g].digest.None? ==>
         t.snaps[g].revision <= t.snaps[x.state].revision || t.snaps[g].revision >= t.snaps[at.state].revision
  }

  lemma PredecessorIs(t: Tables, id: RowId, at: Tuple, x: Tuple)
    requires TreeOk(t.snaps)
    ensures IsPredecessor(t.snaps, t.ledger, id, at, x) <==> LastBefore(t, id, at, x)
  {
    forall y: Tuple, z: Tuple ensures Newer(t.snaps, y, z) <==> Earlier(t, z, y) {
    }
    if IsPredecessor(t.snaps, t.ledger, id, at, x) {
      forall y | y in t.ledger && y.kind == Loop && t.ledger[y].id == id && Earlier(t, y, at)
        ensures y == x || Earlier(t, y, x)
      {
        assert TupleOn(t.ledger, t.snaps.Keys, Loop, id, y) && !Newer(t.snaps, y, x);
      }
    }
    if LastBefore(t, id, at, x) {
      forall y | TupleOn(t.ledger, t.snaps.Keys, Loop, id, y) && Newer(t.snaps, at, y) ensures !Newer(t.snaps, y, x) {
        assert y == x || Earlier(t, y, x);
      }
    }
  }

  lemma ProvenIs(t: Tables, id: RowId, at: Tuple, x: Tuple)
    requires TreeOk(t.snaps)
    ensures ProvenBy(t, id, at, x) <==> Proves(t, id, at, x)
  {
    PredecessorIs(t, id, at, x);
    hide IsPredecessor, TreeOk;
  }

  /** The owner a loop change inherits is the one its predecessor proves, and none when nothing proves one. */
  lemma InheritedIs(t: Tables, id: RowId, at: Tuple)
    requires TreeOk(t.snaps)
    ensures InheritedOwner(t, id, at).None? <==> forall x :: !Proves(t, id, at, x)
    ensures forall x :: Proves(t, id, at, x) ==>
      InheritedOwner(t, id, at) == Some(t.versions[VersionKey(id, x)].value.owner)
  {
    hide ProvenBy, Proves, TreeOk;
    forall x ensures ProvenBy(t, id, at, x) <==> Proves(t, id, at, x) {
      ProvenIs(t, id, at, x);
    }
    forall x | Proves(t, id, at, x)
      ensures VersionKey(id, x) in t.versions && t.versions[VersionKey(id, x)].value.LoopValue?
      ensures InheritedOwner(t, id, at) == Some(t.versions[VersionKey(id, x)].value.owner)
    {
      ProofUnique(t, id, at, x);
    }
  }

  lemma ProofUnique(t: Tables, id: RowId, at: Tuple, x: Tuple)
    requires TreeOk(t.snaps) && Proves(t, id, at, x)
    ensures VersionKey(id, x) in t.versions && t.versions[VersionKey(id, x)].value.LoopValue?
    ensures InheritedOwner(t, id, at) == Some(t.versions[VersionKey(id, x)].value.owner)
  {
    ProvenIs(t, id, at, x);
    forall y | ProvenBy(t, id, at, y) ensures y == x {
      ProvenIs(t, id, at, y);
      assert LastBefore(t, id, at, x) && LastBefore(t, id, at, y);
    }
  }

  /**
   The owner a verified loop change has: given or opened with, else inherited where it is proven; where
   it is not, a write keeps what it recorded, and a backfilled change has no version at all.
   */
  lemma OwnerVerified(t: Tables, x: Tuple)
    requires VersionParity(t) && RowsInScope(t) && x in t.ledger && x.kind == Loop
    ensures x in t.coverage && x.state in t.snaps && x.ordinal < |t.snaps[x.state].envelope.loopChanges|
    ensures var c, vk := t.snaps[x.state].envelope.loopChanges[x.ordinal], VersionKey(t.ledger[x].id, x);
      var inherited := InheritedOwner(t, t.ledger[x].id, x);
      if t.ledger[x].created then
        HasOwner(t, vk, if c.owner.Some? then c.owner.value else t.snaps[x.state].author)
      else if c.owner.Some? && c.owner.value != "" then HasOwner(t, vk, c.owner.value)
      else if inherited.Some? then HasOwner(t, vk, inherited.value)
      else if x.state in t.backfilled then vk !in t.versions && t.coverage[x].disposition == Unversioned
      else vk in t.versions && t.coverage[x].disposition == Materialized
  {
    hide VersionParity, InheritedOwner, RowsInScope, LoopVersionValue;
    LedgerAt(t, x);
    LoopParityAt(t, x);
    LoopValueOwner();
  }

  lemma LoopParityAt(t: Tables, x: Tuple)
    requires VersionParity(t) && RowsInScope(t) && x in t.ledger && x.kind == Loop
    ensures x.state in t.snaps && x.ordinal < |t.snaps[x.state].envelope.loopChanges|
    ensures LoopParity(t, x, t.snaps[x.state].envelope.loopChanges[x.ordinal])
  {
    LedgerAt(t, x);
    assert SnapParity(t, x.state);
    hide FactParity, LoopParity, VersionParity, CoverageExact, Bare, RowsInScope;
    assert x == Tuple(x.state, Loop, x.ordinal);
  }

  lemma LoopValueOwner()
    ensures forall c, owner, author, now ::
      var v := LoopVersionValue(c, owner, author, now); v.LoopValue? && v.owner == owner
  {
  }

  ghost predicate HasOwner(t: Tables, vk: VersionKey, owner: string) {
    vk in t.versions && t.versions[vk].value.LoopValue? && t.versions[vk].value.owner == owner
  }

  // ----- Reconcile rows

  /** Retirements, and the merge inputs of reconciles, are what the payloads record. */
  lemma SameRetirements(t: Tables, t': Tables)
    requires t.snaps == t'.snaps
    requires RetirementAttribution(t) && RowsScopeWide(t) && RetirementAttribution(t') && RowsScopeWide(t')
    ensures t.retirements == t'.retirements
    ensures forall a, h :: a in t.snaps && t.snaps[a].envelope.reconciliation.Some? ==>
      ((a, h) in t.inputs <==> (a, h) in t'.inputs)
  {
    forall h | h in t.retirements ensures h in t'.retirements && t.retirements[h] == t'.retirements[h] {
      RetirementPinned(t, t', h);
    }
    forall h | h in t'.retirements ensures h in t.retirements && t.retirements[h] == t'.retirements[h] {
      RetirementPinned(t', t, h);
    }
    forall a, h | a in t.snaps && t.snaps[a].envelope.reconciliation.Some?
      ensures (a, h) in t.inputs <==> (a, h) in t'.inputs
    {
      assert RowsOf(t, a, t.snaps[a].envelope.reconciliation.value);
      assert RowsOf(t', a, t.snaps[a].envelope.reconciliation.value);
    }
  }

  lemma RetirementPinned(t: Tables, t': Tables, h: StateId)
    requires t.snaps == t'.snaps && h in t.retirements
    requires RetirementAttribution(t) && RowsScopeWide(t) && RetirementAttribution(t') && RowsScopeWide(t')
    ensures h in t'.retirements && t'.retirements[h] == t.retirements[h]
  {
    var a := t.retirements[h].retiredBy;
    assert RecordsRetiring(t.snaps, a, h);
    assert RowsOf(t, a, t.snaps[a].envelope.reconciliation.value);
    assert RowsOf(t', a, t.snaps[a].envelope.reconciliation.value);
  }

  /** On a lineage that verifies, resolutions and merge inputs are what the payloads record. */
  lemma SameResolutions(t: Tables, t': Tables, head: StateId, a: StateId)
    requires t.snaps == t'.snaps && a in Ancestry(t.snaps, head) && a in t.snaps
    requires ResolutionRowsOnLineage(t, head) && ResolutionRowsOnLineage(t', head)
    ensures forall key :: ResolutionKey(key, a) in t.resolutions <==> ResolutionKey(key, a) in t'.resolutions
    ensures forall key :: ResolutionKey(key, a) in t.resolutions ==>
      t.resolutions[ResolutionKey(key, a)] == t'.resolutions[ResolutionKey(key, a)]
    ensures forall h :: (a, h) in t.inputs <==> (a, h) in t'.inputs
  {
    assert SnapReconcileOk(t, a) && SnapReconcileOk(t', a);
    hide Ancestry, LedgerVerifies, AdoptedBy, AcceptBacked;
  }

  /** What a reconcile that verifies has in the tables: rows, survivor, adopted set, accepted values, pointer. */
  lemma ParityPins(t: Tables, a: StateId, record: ReconciliationRecord)
    requires ReconcileParity(t, a, record)
    ensures a in t.snaps && t.snaps[a].parent == Some(record.survivor)
    ensures forall h :: (h in record.adoptedRetired <==> h in t.retirements && h in Lineage(t.snaps, record.survivor))
    ensures forall h :: h in record.retired <==> (a, h) in t.inputs
    ensures forall h :: h in record.retired <==> h in t.retirements && t.retirements[h].retiredBy == a
    ensures forall h :: h in record.retired && h in t.retirements ==>
      && t.retirements[h].retiredAt == t.snaps[a].recordedAt && t.retirements[h].actor == t.snaps[a].author
      && t.retirements[h].reason == record.reason
    ensures forall key :: key in record.resolutions <==> ResolutionKey(key, a) in t.resolutions
    ensures forall key :: key in record.resolutions ==> t.resolutions[ResolutionKey(key, a)] == record.resolutions[key]
    ensures t.pointer.Some? && t.pointer.value.state == a ==> t.pointer.value.reason == ByReconcile
    ensures forall key :: key in record.resolutions && record.resolutions[key].Accept? ==>
      AcceptStands(t, a, key, record.resolutions[key].ordinal)
  {
    forall h ensures h in Ancestry(t.snaps, record.survivor) <==> h in Lineage(t.snaps, record.survivor) {
    }
    forall key | key in record.resolutions && record.resolutions[key].Accept?
      ensures AcceptStands(t, a, key, record.resolutions[key].ordinal)
    {
      assert AcceptBacked(t, a, key, record.resolutions[key].ordinal);
      AcceptPinned(t, a, key, record.resolutions[key].ordinal);
    }
    hide Ancestry, Lineage, LedgerVerifies, AcceptBacked, AcceptStands;
  }

  /** The change at this ordinal is the snapshot's last of the id, and recorded the divergent value. */
  ghost predicate AcceptStands(t: Tables, a: StateId, key: TerminalKey, o: nat) {
    var x := Tuple(a, key.kind, o);
    && x in t.ledger && t.ledger[x].id == key.id && VersionKey(key.id, x) in t.versions
    && (forall y: Tuple :: y in t.ledger && y.state == a && y.kind == key.kind && t.ledger[y].id == key.id ==>
          y.ordinal <= o)
    && ComparableNewest(t.snaps, t.ledger, t.versions, key) == Some(Comparing(t.versions[VersionKey(key.id, x)].value))
  }

  lemma AcceptPinned(t: Tables, a: StateId, key: TerminalKey, o: nat)
    requires AcceptBacked(t, a, key, o)
    ensures AcceptStands(t, a, key, o)
  {
    hide ComparableNewest;
    forall y: Tuple | y in t.ledger && y.state == a && y.kind == key.kind && t.ledger[y].id == key.id
      ensures y.ordinal <= o
    {
      assert TupleOn(t.ledger, {a}, key.kind, key.id, y);
    }
  }

  // ----- From any state

  /** Whatever the tables hold, a reconcile is written only on evidence that verifies, all four kinds of it. */
  lemma WrittenOnEvidence(t: Tables, p: Params, u: Uuids, now: Time, t': Tables, n: Normalized)
    requires Reconciled(t, p, u, now, t', n)
    ensures VersionParity(t) && RetirementAttribution(t) && RowsScopeWide(t)
    ensures forall a :: a in Lineage(t.snaps, n.survivor) && a in t.snaps ==>
      if t.snaps[a].envelope.reconciliation.Some?
      then ReconcileParity(t, a, t.snaps[a].envelope.reconciliation.value) else OwnsNoRows(t, a)
    ensures u.state in t'.snaps && t'.snaps[u.state].envelope.reconciliation.Some?
    ensures ReconcileParity(t', u.state, t'.snaps[u.state].envelope.reconciliation.value)
  {
    hide Step, Wrote, ReconcileAdmitted, LoopIdsFresh, FactIdsFresh, Normalize, RecordOf, ReconcileParity, AdmittedBy;
    var parent, adm, f, l := StepWrote(t, p, u, now, t', Step(t, p, u, now).1);
    RecordIffReconcile(t, p, parent, adm);
    AdmittedReconcile(t, p, parent, adm);
    WroteSnap(t, p, u, now, t', parent, adm, f, l);
    AdmittedEvidence(t, p, parent, adm.record.value, n);
  }

  lemma AdmittedEvidence(t: Tables, p: Params, parent: Option<StateId>, record: ReconciliationRecord, n: Normalized)
    requires ReconcileAdmitted(t, p, parent, record, n)
    ensures VersionParity(t) && RetirementAttribution(t) && RowsScopeWide(t)
    ensures forall a :: a in Lineage(t.snaps, n.survivor) && a in t.snaps ==>
      if t.snaps[a].envelope.reconciliation.Some?
      then ReconcileParity(t, a, t.snaps[a].envelope.reconciliation.value) else OwnsNoRows(t, a)
  {
    LineageIsAncestry(t.snaps, n.survivor);
    hide VersionParity, RetirementAttribution, RowsScopeWide, ReconcileParity, OwnsNoRows, Admits, Normalize, RecordOf,
         Lineage, Ancestry;
    forall a | a in Lineage(t.snaps, n.survivor) && a in t.snaps ensures SnapReconcileOk(t, a) {
      assert a in Ancestry(t.snaps, n.survivor);
    }
  }

  lemma LineageIsAncestry(s: Snaps, head: StateId)
    ensures forall a :: a in Lineage(s, head) <==> a in Ancestry(s, head)
  {
  }

  /** And a replay is answered only from a ledger that is the digest, and for a reconcile from rows that have parity. */
  lemma ReplayedOnEvidence(t: Tables, p: Params, a: StateId, fingerprint: Fingerprint)
    requires a in t.snaps && ReplayOf(t, p, a, fingerprint).Replayed?
    ensures t.snaps[a].fingerprint == fingerprint
    ensures t.snaps[a].digest.Some? ==> LedgerVerifies(t.snaps, t.ledger, a)
    ensures t.snaps[a].digest.None? ==> p.resultVersion == V1 && forall x :: x in t.ledger ==> x.state != a
    ensures p.resultVersion == V3 && p.operation == Reconcile ==>
      && t.snaps[a].envelope.reconciliation.Some?
      && ReconcileParity(t, a, t.snaps[a].envelope.reconciliation.value)
  {
    hide ReconcileParity, LedgerVerifies;
  }
}
