/** On linear histories the version-3 read model refines to the in-place tables. */
module Linear {
  import opened Options
  import opened Types
  import opened Tree
  import opened Heads
  import opened Newest
  import opened ChangeLog
  import opened Divergence
  import opened Verifiers
  import opened Evaluation
  import opened Protocol
  import opened Invariants
  import opened Growth
  import opened Evidence
  import opened Runs
  import opened Reconciling
  import opened Selection
  import Alarms

  // ----- Scopes that began under this protocol

  ghost predicate Recorded(l: Ledger, k: Kind, id: RowId) {
    exists x :: x in l && x.kind == k && l[x].id == id
  }

  /** Nothing predates the ledger, everything is versioned, and every row was written by some snapshot. */
  ghost predicate AllRecorded(t: Tables) {
    && (forall a :: a in t.snaps ==> t.snaps[a].digest.Some?)
    && (forall x :: x in t.coverage ==> t.coverage[x].disposition == Materialized)
    && (forall id :: id in t.facts ==> Recorded(t.ledger, Fact, id))
    && (forall id :: id in t.loops ==> Recorded(t.ledger, Loop, id))
  }

  lemma RowsRecorded(l: Ledger, l': Ledger, rows: Ledger, n: StateId, ch: Changes, k: Kind, id: RowId)
    requires l' == l + rows && RowsFor(rows, n, ch) && forall x :: x in l ==> x !in rows
    requires Recorded(l, k, id) || Named(ch.Of(k), id)
    ensures Recorded(l', k, id)
  {
    if Recorded(l, k, id) {
      var x :| x in l && x.kind == k && l[x].id == id;
      assert x in l' && l'[x] == l[x];
    } else {
      var i :| 0 <= i < |ch.Of(k)| && ch.Of(k)[i].id == id;
      assert Tuple(n, k, i) in l' && l'[Tuple(n, k, i)].id == id;
    }
  }

  lemma FactsRecorded(t: Tables, p: Params, u: Uuids, now: Time, f: FactsApplied, l: LoopsApplied, l': Ledger,
                      rows: Ledger, n: StateId, id: RowId)
    requires Sized(p, u) && FactsDone(t, p, u, now) == Some(f)
    requires l' == t.ledger + rows && RowsFor(rows, n, Changes(f.out, l.out))
    requires forall x :: x in t.ledger ==> x !in rows
    requires id in f.rows && (id in t.facts ==> Recorded(t.ledger, Fact, id))
    ensures Recorded(l', Fact, id)
  {
    hide ApplyFacts, Recorded;
    FactsAppliedRows(t.facts, p.factChanges, u.facts, p.agent, now, |p.factChanges|, id);
    RowsRecorded(t.ledger, l', rows, n, Changes(f.out, l.out), Fact, id);
  }

  lemma LoopsRecorded(t: Tables, p: Params, u: Uuids, now: Time, f: FactsApplied, l: LoopsApplied, l': Ledger,
                      rows: Ledger, n: StateId, id: RowId)
    requires Sized(p, u) && LoopsDone(t, p, u, now) == Some(l)
    requires l' == t.ledger + rows && RowsFor(rows, n, Changes(f.out, l.out))
    requires forall x :: x in t.ledger ==> x !in rows
    requires id in l.rows && (id in t.loops ==> Recorded(t.ledger, Loop, id))
    ensures Recorded(l', Loop, id)
  {
    hide ApplyLoops, Recorded;
    LoopsAppliedRows(t.loops, p.loopChanges, u.loops, p.agent, now, |p.loopChanges|, id);
    RowsRecorded(t.ledger, l', rows, n, Changes(f.out, l.out), Loop, id);
  }

  lemma AllRecordedKept(t: Tables, p: Params, u: Uuids, now: Time, t': Tables, parent: Option<StateId>, adm: Admitted,
                        f: FactsApplied, l: LoopsApplied)
    requires TreeOk(t.snaps) && RowsOk(t) && AllRecorded(t) && Wrote(t, p, u, now, t', parent, adm, f, l)
    ensures AllRecorded(t')
  {
    var n, ch := u.state, Changes(f.out, l.out);
    var rows := LedgerRows(n, ch);
    hide TreeOk, RowsOk, LedgerRows, FactsDone, LoopsDone, Recorded, RowsFor, Wrote, Extends;
    WroteRecorded(t, p, u, now, t', parent, adm, f, l);
    WroteSnap(t, p, u, now, t', parent, adm, f, l);
    NoRowsYet(t, n);
    LedgerRowsFor(n, ch);
    RowsForState(rows, n, ch);
    forall id | id in t'.facts ensures Recorded(t'.ledger, Fact, id) {
      FactsRecorded(t, p, u, now, f, l, t'.ledger, rows, n, id);
    }
    forall id | id in t'.loops ensures Recorded(t'.ledger, Loop, id) {
      LoopsRecorded(t, p, u, now, f, l, t'.ledger, rows, n, id);
    }
  }

  lemma WroteRecorded(t: Tables, p: Params, u: Uuids, now: Time, t': Tables, parent: Option<StateId>, adm: Admitted,
                      f: FactsApplied, l: LoopsApplied)
    requires Wrote(t, p, u, now, t', parent, adm, f, l) && AllRecorded(t)
    ensures forall a :: a in t'.snaps ==> t'.snaps[a].digest.Some?
    ensures forall x :: x in t'.coverage ==> t'.coverage[x].disposition == Materialized
    ensures t'.facts == f.rows && t'.loops == l.rows
    ensures Sized(p, u) && FactsDone(t, p, u, now) == Some(f) && LoopsDone(t, p, u, now) == Some(l)
    ensures t'.ledger == t.ledger + LedgerRows(u.state, Changes(f.out, l.out))
    ensures |f.out| == |p.factChanges| && |l.out| == |l.owners| == |p.loopChanges|
  {
    hide LedgerRows, WrittenVersions, FactsDone, LoopsDone, FactIdsFresh, LoopIdsFresh, Recorded, FingerprintOf,
         RetirementRows, InputRows, RecordedResolutions, PointerAfterInsert;
  }

  lemma RowsForState(rows: Ledger, n: StateId, ch: Changes)
    requires RowsFor(rows, n, ch)
    ensures forall x :: x in rows ==> x.state == n
  {
  }

  // ----- Agreement on a linear history

  /** Accepted fact and in-place row show the same, reference lists compared as sets. */
  ghost predicate FactShows(a: AcceptedFact, row: FactRow) {
    && a.subject == row.subject && a.predicate_ == row.predicate_ && a.object_ == row.object_ && a.status == row.status
    && a.author == row.author && a.recordedAt == row.recordedAt && a.effectiveAt == Shown(row.effectiveAt)
    && Elements(a.refs.evidence) == row.evidence && Elements(a.refs.source) == row.source
    && Elements(a.refs.contradicts) == row.contradicts
  }

  ghost predicate LoopShows(a: AcceptedLoop, row: LoopRow) {
    && a.owner == row.owner && a.status == row.status && a.nextAction == row.nextAction
    && a.dueAt == Shown(row.dueAt) && a.blockedOn == Shown(row.blockedOn) && a.close == row.close
    && a.openedAt == row.openedAt && a.updatedAt == row.updatedAt && a.revision == row.revision
  }

  /** The pointed head's lineage is the whole scope. */
  ghost predicate OneLineage(t: Tables, h: StateId) {
    AcceptedHead(t) == Some(h) && h in t.snaps && Ancestry(t.snaps, h) == t.snaps.Keys
  }

  lemma NewestOnOneLineage(t: Tables, h: StateId, k: Kind, id: RowId)
    requires TreeOk(t.snaps) && RowsOk(t) && OneLineage(t, h) && Recorded(t.ledger, k, id)
    ensures var x := AcceptedTuple(t, h, k, id);
      x.Some? && IsNewest(t.snaps, t.ledger, t.snaps.Keys, k, id, x.value)
  {
    hide Ancestry, TreeOk, RowsOk, AcceptedHead, NewestOf, IsNewest;
    var x :| x in t.ledger && x.kind == k && t.ledger[x].id == id;
    LedgerInScope(t, x);
    assert TupleOn(t.ledger, t.snaps.Keys, k, id, x);
    NewestExists(t.snaps, t.ledger, t.snaps.Keys, k, id, x);
  }

  lemma NewestVersioned(t: Tables, k: Kind, id: RowId, x: Tuple)
    requires RowsOk(t) && AllRecorded(t) && IsNewest(t.snaps, t.ledger, t.snaps.Keys, k, id, x)
    ensures x.state in t.snaps && VersionKey(id, x) in t.versions
    ensures t.versions[VersionKey(id, x)].value.FactValue? <==> k == Fact
  {
    hide LedgerOk, RowsExist, Recorded;
  }

  lemma SelectedOnOneLineage(t: Tables, h: StateId, k: Kind, id: RowId)
    requires TreeOk(t.snaps) && RowsOk(t) && AllRecorded(t) && OneLineage(t, h) && Recorded(t.ledger, k, id)
    ensures Selected(t, h, k, id)
    ensures IsNewest(t.snaps, t.ledger, t.snaps.Keys, k, id, AcceptedTuple(t, h, k, id).value)
  {
    hide TreeOk, RowsOk, AllRecorded, OneLineage, Recorded, AcceptedTuple, IsNewest;
    NewestOnOneLineage(t, h, k, id);
    NewestVersioned(t, k, id, AcceptedTuple(t, h, k, id).value);
  }

  lemma LedgerInScope(t: Tables, x: Tuple)
    requires RowsOk(t) && x in t.ledger
    ensures x.state in t.snaps
  {
    hide LedgerVerifies;
  }

  lemma FactAgreesWithRow(t: Tables, h: StateId, id: RowId)
    requires TreeOk(t.snaps) && RowsOk(t) && InPlaceOk(t) && AllRecorded(t) && OneLineage(t, h) && id in t.facts
    ensures Selected(t, h, Fact, id) && FactAgrees(t.facts[id], SelectedVersion(t, h, Fact, id))
  {
    hide RowsOk, TreeOk, OneLineage, LoopsInPlace, IsNewest, AcceptedTuple;
    SelectedOnOneLineage(t, h, Fact, id);
  }

  lemma LoopAgreesWithRow(t: Tables, h: StateId, id: RowId)
    requires TreeOk(t.snaps) && RowsOk(t) && InPlaceOk(t) && AllRecorded(t) && OneLineage(t, h) && id in t.loops
    ensures Selected(t, h, Loop, id) && LoopAgrees(t.loops[id], SelectedVersion(t, h, Loop, id))
  {
    hide RowsOk, TreeOk, OneLineage, FactsInPlace, IsNewest, AcceptedTuple;
    SelectedOnOneLineage(t, h, Loop, id);
  }

  lemma NothingDivergent(t: Tables, h: StateId)
    requires TreeOk(t.snaps) && RetirementsOk(t) && OneLineage(t, h)
    ensures DivergentHeads(t, h) == {} && DivergentTerminals(t, h) == {} && UnresolvedOpaque(t, h) == {}
  {
    forall g | g in LiveHeads(t) ensures g == h {
      RetiredOffLineage(t.snaps, t.retirements.Keys, h, g);
    }
    RetirementsInScope(t);
    assert DivergentHeads(t, h) == {};
    hide TreeOk, Ancestry, Live, TerminalOf, RetirementsOk;
  }

  /** On one lineage v3 and the in-place view agree, and nothing is suppressed, divergent or superseded away wrongly. */
  lemma LinearRefinement(t: Tables, h: StateId)
    requires Inv(t) && AllRecorded(t) && OneLineage(t, h)
    ensures CurrentFacts(t, h).Keys == set id | id in t.facts && t.facts[id].status != Superseded
    ensures forall id :: id in CurrentFacts(t, h) && id in t.facts ==> FactShows(CurrentFacts(t, h)[id], t.facts[id])
    ensures OpenLoops(t, h).Keys == t.loops.Keys
    ensures forall id :: id in OpenLoops(t, h) && id in t.loops ==> LoopShows(OpenLoops(t, h)[id], t.loops[id])
    ensures SuppressedFacts(t, h) == {} && SuppressedLoops(t, h) == {}
    ensures DivergentTerminals(t, h) == {} && UnresolvedOpaque(t, h) == {}
  {
    hide TreeOk, KeysUnique, FingerprintsOk, RowsOk, InPlaceOk, PointerOk, RetirementsOk, RowsOwned, ReconcilesOk,
         AllRecorded, OneLineage, Selected, SelectedVersion, ProvenanceOf, DivergentTerminals, UnresolvedOpaque;
    NothingDivergent(t, h);
    forall id | id in t.facts
      ensures Selected(t, h, Fact, id) && FactAgrees(t.facts[id], SelectedVersion(t, h, Fact, id))
    {
      FactAgreesWithRow(t, h, id);
    }
    forall id | id in t.loops
      ensures Selected(t, h, Loop, id) && LoopAgrees(t.loops[id], SelectedVersion(t, h, Loop, id))
    {
      LoopAgreesWithRow(t, h, id);
    }
  }

  // ----- Runs in which every snapshot extended the then-current head

  ghost predicate LinearState(t: Tables) {
    && Inv(t) && AllRecorded(t)
    && ((t.snaps.Keys == {} && t.pointer.None?) || exists h :: OneLineage(t, h))
  }

  ghost predicate ExtendsHead(t: Tables, c: Call)
    requires Callable(t, c)
  {
    Step(t, c.p, c.u, c.now).1.Written? ==> ByRevision(t.snaps, c.p.expectedRevision) == ScopePointer(t)
  }

  ghost predicate Linearly(t: Tables, calls: seq<Call>)
    requires Admissible(t, calls)
    decreases |calls|
  {
    calls == [] || (ExtendsHead(t, calls[0]) && Linearly(Next(t, calls[0]), calls[1..]))
  }

  lemma HeadAfterInsert(t: Tables, t': Tables, n: StateId, q: Option<StateId>)
    requires TreeOk(t.snaps) && Extends(t.snaps, t'.snaps, n) && t'.snaps[n].parent == q
    requires PointerOk(t') && t'.pointer.Some? && t'.pointer.value.state == n
    requires if q.Some? then OneLineage(t, q.value) else t.snaps.Keys == {}
    ensures OneLineage(t', n)
  {
    LineageExtends(t.snaps, t'.snaps, n);
    LiveMeaning(t'.snaps, t'.retirements.Keys, n);
    hide Ancestry, Live, TreeOk;
  }

  lemma FirstWriteIsFirst(t: Tables, p: Params, parent: Option<StateId>, adm: Admitted)
    requires AdmittedBy(t, p, parent, adm) && parent.None?
    ensures t.snaps.Keys == {} && adm.record.None?
  {
    hide Precheck, EvidenceVerifies, Admits, RecordOf, Normalize, EffectiveCurrentHead, ValidWorkingState, LiveHeads;
  }

  lemma LinearStep(t: Tables, c: Call)
    requires LinearState(t) && Callable(t, c) && ExtendsHead(t, c)
    ensures LinearState(Next(t, c))
  {
    hide Step, Inv, LoopIdsFresh, FactIdsFresh, AllRecorded, OneLineage, Wrote, AdmittedBy, ByRevision;
    StepInv(t, c.p, c.u, c.now);
    var (t', o) := Step(t, c.p, c.u, c.now);
    if o.Written? {
      var parent, adm, f, l := StepWrote(t, c.p, c.u, c.now, t', o);
      WroteParent(t, c.p, c.u, c.now, t', parent, adm, f, l);
      InvParts(t);
      InvParts(t');
      AllRecordedKept(t, c.p, c.u, c.now, t', parent, adm, f, l);
      LinearWrote(t, c.p, c.u, c.now, t', parent, adm, f, l);
    } else {
      StepRefused(t, c.p, c.u, c.now);
    }
  }

  lemma InvParts(t: Tables)
    requires Inv(t)
    ensures TreeOk(t.snaps) && RowsOk(t) && PointerOk(t)
  {
    hide TreeOk, RowsOk, PointerOk, InPlaceOk, KeysUnique, FingerprintsOk, RetirementsOk, RowsOwned, ReconcilesOk;
  }

  lemma LinearWrote(t: Tables, p: Params, u: Uuids, now: Time, t': Tables, parent: Option<StateId>, adm: Admitted,
                    f: FactsApplied, l: LoopsApplied)
    requires TreeOk(t.snaps) && PointerOk(t) && PointerOk(t') && Wrote(t, p, u, now, t', parent, adm, f, l) &&
      AdmittedBy(t, p, parent, adm)
    requires (t.snaps.Keys == {} && t.pointer.None?) || exists h :: OneLineage(t, h)
    requires parent == ScopePointer(t)
    ensures OneLineage(t', u.state)
  {
    hide Wrote, AdmittedBy, TreeOk, Extends, OneLineage, Live;
    WroteExtends(t, p, u, now, t', parent, adm, f, l);
    WroteEvidence(t, p, u, now, t', parent, adm, f, l);
    if parent.None? {
      FirstWriteIsFirst(t, p, parent, adm);
      NoPointerYet(t);
    } else {
      LiveMeaning(t.snaps, t.retirements.Keys, parent.value);
      var h :| OneLineage(t, h);
      HeadIs(t, h);
    }
    HeadAfterInsert(t, t', u.state, parent);
  }

  lemma NoPointerYet(t: Tables)
    requires PointerOk(t) && t.snaps.Keys == {}
    ensures t.pointer.None?
  {
  }

  lemma HeadIs(t: Tables, h: StateId)
    requires OneLineage(t, h)
    ensures ScopePointer(t) == Some(h)
  {
    hide Ancestry, Live;
  }

  lemma {:induction false} LinearRun(t: Tables, calls: seq<Call>)
    requires LinearState(t) && Admissible(t, calls) && Linearly(t, calls)
    ensures LinearState(Run(t, calls))
    decreases |calls|
  {
    hide LinearState, ExtendsHead, Callable, Step;
    if calls != [] {
      LinearStep(t, calls[0]);
      LinearRun(Next(t, calls[0]), calls[1..]);
    }
  }

  /** From an empty scope, after any run in which every snapshot extended the then-current head. */
  lemma LinearHistoriesAgree(calls: seq<Call>, t: Tables, h: StateId)
    requires Admissible(Alarms.EmptyTables(), calls) && Linearly(Alarms.EmptyTables(), calls)
    requires t == Run(Alarms.EmptyTables(), calls) && AcceptedHead(t) == Some(h)
    ensures CurrentFacts(t, h).Keys == set id | id in t.facts && t.facts[id].status != Superseded
    ensures forall id :: id in CurrentFacts(t, h) && id in t.facts ==> FactShows(CurrentFacts(t, h)[id], t.facts[id])
    ensures OpenLoops(t, h).Keys == t.loops.Keys
    ensures forall id :: id in OpenLoops(t, h) && id in t.loops ==> LoopShows(OpenLoops(t, h)[id], t.loops[id])
    ensures SuppressedFacts(t, h) == {} && SuppressedLoops(t, h) == {}
    ensures DivergentTerminals(t, h) == {} && UnresolvedOpaque(t, h) == {}
  {
    hide Run, Admissible, Linearly, Inv, CurrentFacts, OpenLoops, SuppressedFacts, SuppressedLoops, DivergentTerminals,
         UnresolvedOpaque, FactShows, LoopShows, AllRecorded, Alarms.EmptyTables, AcceptedHead, Ancestry;
    EmptyIsLinear();
    LinearRun(Alarms.EmptyTables(), calls);
    HeadInScope(t, h);
    var g :| OneLineage(t, g);
    LinearRefinement(t, h);
  }

  lemma HeadInScope(t: Tables, h: StateId)
    requires AcceptedHead(t) == Some(h)
    ensures t.snaps.Keys != {}
  {
  }

  lemma EmptyIsRecorded()
    ensures AllRecorded(Alarms.EmptyTables()) && Alarms.EmptyTables().snaps.Keys == {} &&
      Alarms.EmptyTables().pointer.None?
  {
  }

  lemma EmptyIsLinear()
    ensures LinearState(Alarms.EmptyTables())
  {
    hide Inv, Legacy, AllRecorded, Alarms.EmptyTables;
    Alarms.EmptyIsLegacy();
    LegacyInv(Alarms.EmptyTables());
    EmptyIsRecorded();
  }
}
