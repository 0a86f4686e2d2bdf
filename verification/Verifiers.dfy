/**
 What the stored-evidence verifiers of reconcile.ts and versions.ts check. Each predicate is
 true exactly when the verifier of the same name returns without throwing.
 */
module Verifiers {
  import opened Options
  import opened Types
  import opened Tree
  import opened Newest
  import opened ChangeLog
  import opened Divergence

  // ----- readSnapshotChanges

  /** The ledger rows of one snapshot are its digest, as many as its payload has changes, and name rows. */
  ghost predicate LedgerVerifies(s: Snaps, l: Ledger, a: StateId) {
    && a in s && s[a].digest.Some?
    && var ch := s[a].digest.value;
    && |ch.facts| == |s[a].envelope.factChanges|
    && |ch.loops| == |s[a].envelope.loopChanges|
    && (forall k: Kind, o: nat :: Tuple(a, k, o) in l <==> o < |ch.Of(k)|)
    && (forall k: Kind, o: nat :: o < |ch.Of(k)| ==> l[Tuple(a, k, o)] == ch.Of(k)[o] && ch.Of(k)[o].id != "")
  }

  // ----- verifyVersionParity

  /** The change ledger and the payload agree on which row each change is about. */
  predicate NamesAgree(named: RowRef, row: Applied) {
    match named
    case NoRef => row.created
    case NullRef => false
    case Ref(id) => id == row.id && !row.created
  }

  /** x is the latest change of loop `id` before the change `at`, on any lineage. */
  ghost predicate IsPredecessor(s: Snaps, l: Ledger, id: RowId, at: Tuple, x: Tuple) {
    && TupleOn(l, s.Keys, Loop, id, x) && Newer(s, at, x)
    && forall y :: TupleOn(l, s.Keys, Loop, id, y) && Newer(s, at, y) ==> !Newer(s, y, x)
  }

  /** A snapshot that predates the change ledger lies strictly between the two revisions. */
  ghost predicate GapBetween(s: Snaps, low: nat, high: nat) {
    exists g :: g in s && s[g].digest.None? && low < s[g].revision < high
  }

  ghost predicate ProvenBy(t: Tables, id: RowId, at: Tuple, x: Tuple) {
    && IsPredecessor(t.snaps, t.ledger, id, at, x)
    && VersionKey(id, x) in t.versions && t.versions[VersionKey(id, x)].value.LoopValue?
    && at.state in t.snaps
    && !GapBetween(t.snaps, t.snaps[x.state].revision, t.snaps[at.state].revision)
  }

  /** The owner inherited by a change that names none, where immutable data pin it down. */
  ghost function InheritedOwner(t: Tables, id: RowId, at: Tuple): Option<string> {
    if exists x :: ProvenBy(t, id, at, x) then
      var x :| ProvenBy(t, id, at, x);
      Some(t.versions[VersionKey(id, x)].value.owner)
    else None
  }

  datatype LoopExpectation = ExpectOwner(owner: string) | AsRecorded | ExpectUnversioned

  ghost function ExpectLoop(t: Tables, at: Tuple, c: LoopChange, row: Applied, source: Source): LoopExpectation
    requires at.state in t.snaps
  {
    if row.created then ExpectOwner(Or(c.owner, t.snaps[at.state].author))
    else if Truthy(c.owner) then ExpectOwner(c.owner.value)
    else if InheritedOwner(t, row.id, at).Some? then ExpectOwner(InheritedOwner(t, row.id, at).value)
    else if source == ByWrite then AsRecorded
    else ExpectUnversioned
  }

  ghost predicate FactParity(t: Tables, x: Tuple, c: FactChange) {
    && x in t.ledger && x in t.coverage && x.state in t.snaps
    && t.coverage[x].disposition == Materialized
    && VersionKey(t.ledger[x].id, x) in t.versions
    && t.versions[VersionKey(t.ledger[x].id, x)] ==
         Version(FactVersionValue(c), t.snaps[x.state].author, t.snaps[x.state].recordedAt)
  }

  ghost predicate LoopParity(t: Tables, x: Tuple, c: LoopChange) {
    && x in t.ledger && x in t.coverage && x.state in t.snaps
    && var snap, vk := t.snaps[x.state], VersionKey(t.ledger[x].id, x);
    match ExpectLoop(t, x, c, t.ledger[x], t.coverage[x].source)
    case ExpectUnversioned => t.coverage[x].disposition == Unversioned && vk !in t.versions
    case ExpectOwner(owner) =>
      && t.coverage[x].disposition == Materialized && vk in t.versions
      && t.versions[vk] == Version(LoopVersionValue(c, owner, snap.author, snap.recordedAt), snap.author,
                                   snap.recordedAt)
    case AsRecorded =>
      && t.coverage[x].disposition == Materialized && vk in t.versions && t.versions[vk].value.LoopValue?
      && t.versions[vk] == Version(LoopVersionValue(c, t.versions[vk].value.owner, snap.author, snap.recordedAt),
                                   snap.author, snap.recordedAt)
  }

  ghost predicate Bare(t: Tables, a: StateId) {
    && (forall x :: x in t.ledger ==> x.state != a)
    && (forall x :: x in t.coverage ==> x.state != a)
    && (forall vk :: vk in t.versions ==> vk.tuple.state != a)
  }

  ghost predicate CoverageExact(t: Tables, a: StateId) {
    && (forall x: Tuple :: x.state == a ==> (x in t.coverage <==> x in t.ledger))
    && (forall x: Tuple :: x.state == a && x in t.coverage && x in t.ledger ==>
          && t.coverage[x].id == t.ledger[x].id
          && t.coverage[x].source == if a in t.backfilled then ByBackfill else ByWrite)
    && (forall vk: VersionKey :: vk in t.versions && vk.tuple.state == a ==>
          vk.tuple in t.ledger && t.ledger[vk.tuple].id == vk.id)
  }

  /** One snapshot's coverage and version rows are exactly what its payload and ledger imply. */
  ghost predicate SnapParity(t: Tables, a: StateId)
    requires a in t.snaps
  {
    if t.snaps[a].digest.None? then Bare(t, a)
    else
      && LedgerVerifies(t.snaps, t.ledger, a)
      && CoverageExact(t, a)
      && NamesParity(t.snaps[a])
      && (forall o: nat :: o < |t.snaps[a].envelope.factChanges| ==>
            FactParity(t, Tuple(a, Fact, o), t.snaps[a].envelope.factChanges[o]))
      && (forall o: nat :: o < |t.snaps[a].envelope.loopChanges| ==>
            LoopParity(t, Tuple(a, Loop, o), t.snaps[a].envelope.loopChanges[o]))
  }

  ghost predicate NamesParity(snap: Snapshot)
  {
    && snap.digest.Some?
    && var ch, env := snap.digest.value, snap.envelope;
    && |ch.facts| == |env.factChanges| && |ch.loops| == |env.loopChanges|
    && (forall o: nat :: o < |ch.facts| ==> NamesAgree(env.factChanges[o].factRef, ch.facts[o]))
    && (forall o: nat :: o < |ch.loops| ==> NamesAgree(env.loopChanges[o].loopRef, ch.loops[o]))
  }

  ghost predicate VersionParity(t: Tables) {
    forall a :: a in t.snaps ==> SnapParity(t, a)
  }

  // ----- verifyRetirementAttribution, verifyReconcileRowsScopeWide

  ghost predicate RecordsRetiring(s: Snaps, by_: StateId, a: StateId) {
    by_ in s && s[by_].envelope.reconciliation.Some? && a in s[by_].envelope.reconciliation.value.retired
  }

  /** Row to payload: a retirement is recorded by the reconcile it is attributed to. */
  ghost predicate RetirementAttribution(t: Tables) {
    forall a :: a in t.retirements ==> RecordsRetiring(t.snaps, t.retirements[a].retiredBy, a)
  }

  /** Payload to row, for the merge inputs and the retirements of one reconcile snapshot. */
  ghost predicate RowsOf(t: Tables, a: StateId, record: ReconciliationRecord)
    requires a in t.snaps
  {
    && (forall i :: (a, i) in t.inputs <==> i in record.retired)
    && (forall h :: h in t.retirements && t.retirements[h].retiredBy == a <==> h in record.retired)
    && (forall h :: h in record.retired && h in t.retirements ==>
          t.retirements[h] == Retirement(a, t.snaps[a].recordedAt, t.snaps[a].author, record.reason))
  }

  ghost predicate RowsScopeWide(t: Tables) {
    forall a :: a in t.snaps && t.snaps[a].envelope.reconciliation.Some? ==>
      RowsOf(t, a, t.snaps[a].envelope.reconciliation.value)
  }

  // ----- verifyReconcileParity, verifyResolutionRowsOnLineage

  /** An accept points at the final change of the id in its own snapshot, and that change has the divergent value. */
  ghost predicate AcceptBacked(t: Tables, a: StateId, key: TerminalKey, o: nat) {
    var x := Tuple(a, key.kind, o);
    && x in t.ledger && t.ledger[x].id == key.id
    && (forall y :: TupleOn(t.ledger, {a}, key.kind, key.id, y) ==> y.ordinal <= o)
    && ComparableAt(t.versions, key.id, x).Some?
    && ComparableAt(t.versions, key.id, x) == ComparableNewest(t.snaps, t.ledger, t.versions, key)
  }

  ghost predicate ResolutionRows(t: Tables, a: StateId, record: ReconciliationRecord) {
    && (forall key :: ResolutionKey(key, a) in t.resolutions <==> key in record.resolutions)
    && (forall key :: key in record.resolutions && ResolutionKey(key, a) in t.resolutions ==>
          t.resolutions[ResolutionKey(key, a)] == record.resolutions[key])
  }

  ghost function AdoptedBy(t: Tables, survivor: StateId): set<StateId> {
    set a | a in t.retirements.Keys && a in Ancestry(t.snaps, survivor)
  }

  ghost predicate ReconcileParity(t: Tables, a: StateId, record: ReconciliationRecord) {
    && a in t.snaps
    && t.snaps[a].parent == Some(record.survivor)
    && LedgerVerifies(t.snaps, t.ledger, a)
    && AdoptedBy(t, record.survivor) == record.adoptedRetired
    && RowsOf(t, a, record)
    && ResolutionRows(t, a, record)
    && (forall key :: key in record.resolutions && record.resolutions[key].Accept? ==>
          AcceptBacked(t, a, key, record.resolutions[key].ordinal))
    && (t.pointer.Some? && t.pointer.value.state == a ==> t.pointer.value.reason == ByReconcile)
  }

  /** A snapshot whose payload records no reconciliation owns no reconcile rows. */
  ghost predicate OwnsNoRows(t: Tables, a: StateId) {
    && (forall i :: (a, i) !in t.inputs)
    && (forall h :: h in t.retirements ==> t.retirements[h].retiredBy != a)
    && (forall key :: ResolutionKey(key, a) !in t.resolutions)
  }

  ghost predicate SnapReconcileOk(t: Tables, a: StateId)
    requires a in t.snaps
  {
    match t.snaps[a].envelope.reconciliation
    case None => OwnsNoRows(t, a)
    case Some(record) => ReconcileParity(t, a, record)
  }

  ghost predicate ResolutionRowsOnLineage(t: Tables, head: StateId) {
    forall a :: a in Ancestry(t.snaps, head) && a in t.snaps ==> SnapReconcileOk(t, a)
  }

  /** All four verifiers a reconcile runs before it trusts anything. */
  ghost predicate EvidenceVerifies(t: Tables, survivor: StateId) {
    && VersionParity(t)
    && RetirementAttribution(t)
    && RowsScopeWide(t)
    && ResolutionRowsOnLineage(t, survivor)
  }
}
