/** Who can change what the version-3 read model shows, and when it agrees with the in-place view. */
module ReadModel {
  import opened Options
  import opened Types
  import opened Tree
  import opened Heads
  import opened Newest
  import opened ChangeLog
  import opened Divergence
  import opened Verifiers
  import opened Evaluation
  import opened Protocol
  import opened Invariants
  import opened Growth
  import opened Evidence
  import opened Runs
  import opened Reconciling
  import opened Selection
  import opened Ordering

  // ----- Non-interference

  lemma SelectedFrame(t: Tables, t': Tables, n: StateId, h: StateId, k: Kind, id: RowId)
    requires TreeOk(t.snaps) && LedgerOk(t.snaps, t.ledger) && Extends(t.snaps, t'.snaps, n) && RowsGrown(t, t', n) &&
      h in t.snaps
    ensures Selected(t', h, k, id) <==> Selected(t, h, k, id)
    ensures Selected(t, h, k, id) ==>
      SelectedVersion(t', h, k, id) == SelectedVersion(t, h, k, id) &&
        ProvenanceOf(t', h, k, id) == ProvenanceOf(t, h, k, id)
  {
    hide LedgerOk, Ancestry, TreeOk, NewestOf, Extends, RowsGrown;
    LineageExtends(t.snaps, t'.snaps, n);
    AncestryInScope(t.snaps, h);
    RowsKeptBelow(t, t', n, Ancestry(t.snaps, h));
    NewestFrame(t.snaps, t.ledger, t'.snaps, t'.ledger, Ancestry(t.snaps, h), k, id);
    NewestIs(t.snaps, t.ledger, h, k, id);
    VersionsKeptBelow(t, t', n, id, Ancestry(t.snaps, h));
  }

  lemma RowsKeptBelow(t: Tables, t': Tables, n: StateId, on: set<StateId>)
    requires Extends(t.snaps, t'.snaps, n) && RowsGrown(t, t', n) && on <= t.snaps.Keys
    ensures on <= t'.snaps.Keys && forall a :: a in on ==> t'.snaps[a].revision == t.snaps[a].revision
    ensures forall x: Tuple :: x.state in on ==> (x in t'.ledger <==> x in t.ledger)
    ensures forall x: Tuple :: x in t.ledger && x.state in on ==> t'.ledger[x] == t.ledger[x]
  {
  }

  lemma VersionsKeptBelow(t: Tables, t': Tables, n: StateId, id: RowId, on: set<StateId>)
    requires Extends(t.snaps, t'.snaps, n) && RowsGrown(t, t', n) && on <= t.snaps.Keys
    ensures forall x: Tuple :: x.state in on ==> (VersionKey(id, x) in t'.versions <==> VersionKey(id, x) in t.versions)
    ensures forall x: Tuple :: x.state in on && VersionKey(id, x) in t.versions ==>
      t'.versions[VersionKey(id, x)] == t.versions[VersionKey(id, x)]
  {
  }

  /** A selected id is a row of the in-place tables. */
  lemma SelectedHasRow(t: Tables, h: StateId, k: Kind, id: RowId)
    requires RowsOk(t) && Selected(t, h, k, id)
    ensures if k == Fact then id in t.facts else id in t.loops
  {
    NewestIs(t.snaps, t.ledger, h, k, id);
    hide LedgerOk, CoverageOk, VersionsOk, NewestOf, Ancestry;
  }

  ghost predicate MaterializedAt(t: Tables, x: Tuple) {
    x in t.coverage && t.coverage[x].disposition == Materialized
  }

  /** An id is selected exactly when the last change the replay of the lineage leaves for it has a version. */
  lemma SelectedIsReplayed(t: Tables, h: StateId, k: Kind, id: RowId)
    requires TreeOk(t.snaps) && RowsOk(t) && h in t.snaps
    ensures Selected(t, h, k, id) <==>
      (k, id) in Replay(t.snaps, h) && MaterializedAt(t, Replay(t.snaps, h)[(k, id)])
    ensures k == Fact && (k, id) in Replay(t.snaps, h) ==> MaterializedAt(t, Replay(t.snaps, h)[(k, id)])
  {
    hide LedgerOk, RowsExist, Replay, TreeOk, NewestOf, Ancestry;
    ReplayIsNewest(t.snaps, t.ledger, h, k, id);
    NewestIs(t.snaps, t.ledger, h, k, id);
    AncestryInScope(t.snaps, h);
  }

  lemma SuppressedExactly(t: Tables, h: StateId)
    requires TreeOk(t.snaps) && RowsOk(t) && h in t.snaps
    ensures SuppressedFacts(t, h) == set id | id in t.facts && (Fact, id) !in Replay(t.snaps, h)
    ensures SuppressedLoops(t, h) == set id | id in t.loops &&
      ((Loop, id) in Replay(t.snaps, h) ==> !MaterializedAt(t, Replay(t.snaps, h)[(Loop, id)]))
  {
    hide Selected, RowsOk, Replay, MaterializedAt, TreeOk;
    forall k, id
      ensures Selected(t, h, k, id) <==> (k, id) in Replay(t.snaps, h) && MaterializedAt(t, Replay(t.snaps, h)[(k, id)])
      ensures k == Fact && (k, id) in Replay(t.snaps, h) ==> MaterializedAt(t, Replay(t.snaps, h)[(k, id)])
    {
      SelectedIsReplayed(t, h, k, id);
    }
  }

  /**
   The suppressed rows, exactly: facts no change of the lineage names, and loops none names or whose
   last change there has no version. Every other row is selected, nothing is selected that has no
   row, and of the selected facts only superseded ones are not shown.
   */
  lemma RowsPartitioned(t: Tables, h: StateId)
    requires TreeOk(t.snaps) && RowsOk(t) && h in t.snaps
    ensures SuppressedFacts(t, h) == set id | id in t.facts && (Fact, id) !in Replay(t.snaps, h)
    ensures SuppressedLoops(t, h) == set id | id in t.loops &&
      ((Loop, id) in Replay(t.snaps, h) ==> !MaterializedAt(t, Replay(t.snaps, h)[(Loop, id)]))
    ensures OpenLoops(t, h).Keys !! SuppressedLoops(t, h) &&
      OpenLoops(t, h).Keys + SuppressedLoops(t, h) == t.loops.Keys
    ensures CurrentFacts(t, h).Keys !! SuppressedFacts(t, h)
    ensures t.facts.Keys - CurrentFacts(t, h).Keys - SuppressedFacts(t, h) ==
      set id |
        id in t.facts && Selected(t, h, Fact, id) && SelectedVersion(t, h, Fact, id).value.factStatus == Superseded
    ensures forall k, id :: Selected(t, h, k, id) ==> if k == Fact then id in t.facts else id in t.loops
  {
    SuppressedExactly(t, h);
    forall k, id | Selected(t, h, k, id) ensures if k == Fact then id in t.facts else id in t.loops {
      SelectedHasRow(t, h, k, id);
    }
    hide Selected, SelectedVersion, ProvenanceOf, RowsOk, TreeOk, Replay, MaterializedAt;
  }

  /** What two loop views agree on: everything but the in-place update counter. */
  ghost predicate SameLoop(a: AcceptedLoop, b: AcceptedLoop) {
    a.(revision := 0) == b.(revision := 0)
  }

  ghost predicate SameLoops(a: map<RowId, AcceptedLoop>, b: map<RowId, AcceptedLoop>) {
    a.Keys == b.Keys && forall id :: id in a && id in b ==> SameLoop(a[id], b[id])
  }

  lemma FactsFrame(t: Tables, t': Tables, n: StateId, h: StateId)
    requires TreeOk(t.snaps) && RowsOk(t) && Extends(t.snaps, t'.snaps, n) && RowsGrown(t, t', n) && h in t.snaps
    requires t.facts.Keys <= t'.facts.Keys
    ensures CurrentFacts(t', h) == CurrentFacts(t, h)
  {
    hide TreeOk, Extends, RowsGrown, CoverageOk, VersionsOk, RowsExist, LedgerOk, Selected, SelectedVersion,
         ProvenanceOf;
    forall id ensures Selected(t', h, Fact, id) <==> Selected(t, h, Fact, id)
      ensures Selected(t, h, Fact, id) ==>
        id in t.facts && SelectedVersion(t', h, Fact, id) == SelectedVersion(t, h, Fact, id)
        && ProvenanceOf(t', h, Fact, id) == ProvenanceOf(t, h, Fact, id)
    {
      SelectedFrame(t, t', n, h, Fact, id);
      if Selected(t, h, Fact, id) {
        SelectedHasRow(t, h, Fact, id);
      }
    }
  }

  lemma LoopsFrame(t: Tables, t': Tables, n: StateId, h: StateId)
    requires TreeOk(t.snaps) && RowsOk(t) && Extends(t.snaps, t'.snaps, n) && RowsGrown(t, t', n) && h in t.snaps
    requires forall id :: id in t.loops ==> id in t'.loops && t'.loops[id].openedAt == t.loops[id].openedAt
    ensures SameLoops(OpenLoops(t', h), OpenLoops(t, h))
  {
    hide TreeOk, Extends, RowsGrown, CoverageOk, VersionsOk, RowsExist, LedgerOk, Selected, SelectedVersion,
         ProvenanceOf;
    forall id ensures Selected(t', h, Loop, id) <==> Selected(t, h, Loop, id)
      ensures Selected(t, h, Loop, id) ==>
        id in t.loops && SelectedVersion(t', h, Loop, id) == SelectedVersion(t, h, Loop, id)
        && ProvenanceOf(t', h, Loop, id) == ProvenanceOf(t, h, Loop, id)
    {
      SelectedFrame(t, t', n, h, Loop, id);
      if Selected(t, h, Loop, id) {
        SelectedHasRow(t, h, Loop, id);
      }
    }
  }

  lemma OpenedAtKept(t: Tables, p: Params, u: Uuids, now: Time, t': Tables, parent: Option<StateId>, adm: Admitted,
                     f: FactsApplied, l: LoopsApplied)
    requires Wrote(t, p, u, now, t', parent, adm, f, l)
    ensures forall id :: id in t.loops ==> id in t'.loops && t'.loops[id].openedAt == t.loops[id].openedAt
    ensures t.facts.Keys <= t'.facts.Keys
  {
    hide ApplyFacts, ApplyLoops, FactIdsFresh, LoopIdsFresh, LedgerRows, WrittenVersions, WrittenCoverage, NewSnapshot;
    AppliedIdsExist(t, p, u, now, f, l);
    forall id | id in t.loops ensures id in t'.loops && t'.loops[id].openedAt == t.loops[id].openedAt {
      OpenedOnce(t.loops, p.loopChanges, u.loops, p.agent, now, |p.loopChanges|, id);
    }
  }

  /** A write, record or patch that was written below some other snapshot than the pointed head. */
  ghost predicate Branched(t: Tables, p: Params, u: Uuids, now: Time, t': Tables, h: StateId) {
    && FreshUuids(t, p, u)
    && Step(t, p, u, now).0 == t' && Step(t, p, u, now).1.Written?
    && OperationOf(p) != Reconcile
    && AcceptedHead(t) == Some(h) && ByRevision(t.snaps, p.expectedRevision) != Some(h)
  }

  lemma BranchedParts(t: Tables, p: Params, u: Uuids, now: Time, t': Tables, h: StateId)
    returns (parent: Option<StateId>, adm: Admitted, f: FactsApplied, l: LoopsApplied)
    requires Branched(t, p, u, now, t', h)
    ensures Wrote(t, p, u, now, t', parent, adm, f, l) && adm.record.None? && parent != Some(h)
  {
    hide AdmittedBy, Wrote, LoopIdsFresh, FactIdsFresh, AcceptedHead;
    parent, adm, f, l := StepWrote(t, p, u, now, t', Step(t, p, u, now).1);
    WroteParent(t, p, u, now, t', parent, adm, f, l);
    RecordIffReconcile(t, p, parent, adm);
  }

  lemma PointerUnmoved(t: Tables, t': Tables, n: StateId, parent: Option<StateId>, h: StateId, by_: Principal,
                       now: Time)
    requires AcceptedHead(t) == Some(h) && parent != Some(h)
    requires Extends(t.snaps, t'.snaps, n) && t'.snaps[n].parent == parent
    requires t'.retirements == t.retirements
    requires t'.pointer == PointerAfterInsert(t.snaps, t.retirements.Keys, t.pointer, n, parent, by_, now)
    ensures t'.pointer == t.pointer && AcceptedHead(t') == Some(h) && h in t.snaps
  {
    LiveMeaning(t.snaps, t.retirements.Keys, h);
    OtherHeadsLive(t.snaps, t'.snaps, n, t.retirements.Keys, h);
    hide Live;
  }

  /**
   With a live pointer, a write whose parent is not the pointed head changes nothing the accepted
   view shows: not the pointed head, its working state, any fact, or any loop with its provenance.
   */
  lemma BranchInvisible(t: Tables, p: Params, u: Uuids, now: Time, t': Tables, h: StateId)
    requires Inv(t) && Branched(t, p, u, now, t', h)
    ensures AcceptedHead(t') == Some(h)
    ensures h in t.snaps && h in t'.snaps && t'.snaps[h] == t.snaps[h]
    ensures CurrentFacts(t', h) == CurrentFacts(t, h)
    ensures SameLoops(OpenLoops(t', h), OpenLoops(t, h))
  {
    hide Branched, Wrote, RowsOk, InPlaceOk, KeysUnique, FingerprintsOk, PointerOk, RetirementsOk, RowsOwned,
         ReconcilesOk, TreeOk, Extends, RowsGrown, AcceptedHead, CurrentFacts, OpenLoops, SameLoops,
         PointerAfterInsert;
    var parent, adm, f, l := BranchedParts(t, p, u, now, t', h);
    WroteExtends(t, p, u, now, t', parent, adm, f, l);
    WroteRowsGrown(t, p, u, now, t', parent, adm, f, l);
    WroteEvidence(t, p, u, now, t', parent, adm, f, l);
    OpenedAtKept(t, p, u, now, t', parent, adm, f, l);
    HeadOf(t, p, u, now, t', h);
    PointerUnmoved(t, t', u.state, parent, h, p.agent, now);
    SnapsAfter(t, p, u, now, t', parent, adm, f, l);
    FactsFrame(t, t', u.state, h);
    LoopsFrame(t, t', u.state, h);
  }

  lemma HeadOf(t: Tables, p: Params, u: Uuids, now: Time, t': Tables, h: StateId)
    requires Branched(t, p, u, now, t', h)
    ensures AcceptedHead(t) == Some(h)
  {
    hide FreshUuids, Step, ByRevision, AcceptedHead;
  }

  // ----- After an accept the read model shows the divergent value

  lemma SelectedByComparable(t: Tables, head: StateId, k: Kind, id: RowId, x: Tuple)
    requires RowsOk(t) && AcceptedTuple(t, head, k, id) == Some(x) && x.kind == k && x.state in t.snaps
    requires ComparableAt(t.versions, id, x).Some?
    ensures Selected(t, head, k, id)
    ensures Some(Comparing(SelectedVersion(t, head, k, id).value)) == ComparableAt(t.versions, id, x)
  {
    hide LedgerOk, RowsExist, AcceptedTuple;
  }

  /**
   After an accept, the accepted head is the reconcile, the id is selected, and what v3 selects has
   the comparable form of the divergent terminal that was accepted.
   */
  lemma AcceptShowsDivergentValue(t: Tables, p: Params, u: Uuids, now: Time, t': Tables, n: Normalized,
                                  key: TerminalKey, o: nat)
    requires Inv(t) && Reconciled(t, p, u, now, t', n)
    requires key in n.resolutions && n.resolutions[key] == Accept(o)
    ensures AcceptedHead(t') == Some(u.state)
    ensures Selected(t', u.state, key.kind, key.id)
    ensures ProvenanceOf(t', u.state, key.kind, key.id).state == u.state
    ensures ProvenanceOf(t', u.state, key.kind, key.id).ordinal == o
    ensures Some(Comparing(SelectedVersion(t', u.state, key.kind, key.id).value)) ==
      ComparableNewest(t.snaps, t.ledger, t.versions, key)
  {
    hide Reconciled, Inv, NewestOf, Ancestry, ComparableAt, ComparableNewest, EffectiveCurrentHead, RowsOk, Extends;
    ReconciledStep(t, p, u, now, t', n);
    OneLiveHead(t, p, u, now, t', n);
    ReconciledFrame(t, p, u, now, t', n);
    ExtendsIsNew(t.snaps, t'.snaps, u.state);
    AcceptedValueIsDivergent(t, p, u, now, t', n, key, o);
    SelectedByComparable(t', u.state, key.kind, key.id, Tuple(u.state, key.kind, o));
  }

  lemma ReconciledStep(t: Tables, p: Params, u: Uuids, now: Time, t': Tables, n: Normalized)
    requires Inv(t) && Reconciled(t, p, u, now, t', n)
    ensures Inv(t') && RowsOk(t')
  {
    hide Inv, Step, LoopIdsFresh, FactIdsFresh, RowsOk;
    StepInv(t, p, u, now);
    InvHasRows(t');
  }

  // ----- Divergent values

  /** A strict reconcile onto `head` decides exactly the divergent values listed as unresolved. */
  lemma ListedIsDemanded(t: Tables, n: Normalized, facts: seq<FactChange>, loops: seq<LoopChange>, author: Principal)
    requires Admits(t, n, facts, loops, author) && n.strict
    ensures var values := DivergentValues(t, n.survivor);
      RecordOf(t, n).resolutions.Keys == set key | key in values && !values[key].resolved
  {
    hide OnRejected, AcceptAdmitted, Terminals, Resolved, DivergentHeads, Ancestry, AdoptedBy, Opaque, TerminalVersion,
         TerminalProvenance, IsV1Current, LineagesOf, OfKind;
    var values := DivergentValues(t, n.survivor);
    assert LeftOpen(t, n) == {};
    forall key ensures key in Outcomes(t, n) <==> key in values && !values[key].resolved {
      assert key in Unresolved(t, n.survivor) ==> key in LeftOpen(t, n) || key in Outcomes(t, n);
    }
  }

  /** A divergent value is listed under the first, by code units, of the divergent lineages that end in it. */
  lemma ListedUnderFirstLineage(t: Tables, head: StateId, key: TerminalKey)
    requires key in DivergentTerminals(t, head)
    ensures key in DivergentValues(t, head)
    ensures var h, accepted := DivergentValues(t, head)[key].lineageHead, Ancestry(t.snaps, head);
      && h in DivergentHeads(t, head) && TerminalOf(t.snaps, t.ledger, ChainSet(t.snaps, h, accepted), key)
      && forall g ::
           g in DivergentHeads(t, head) && TerminalOf(t.snaps, t.ledger, ChainSet(t.snaps, g, accepted), key) ==>
             g == h || NameBefore(h, g)
  {
    hide DivergentHeads, Ancestry, ChainSet, TerminalOf, Terminals, LineagesOf, TerminalVersion, TerminalProvenance,
         Resolved, IsV1Current, NameBefore, FirstName;
    TerminalHasLineage(t.snaps, t.ledger, DivergentHeads(t, head), Ancestry(t.snaps, head), key);
    FirstIsFirst(LineagesOf(t.snaps, t.ledger, DivergentHeads(t, head), Ancestry(t.snaps, head), key));
  }

  lemma TerminalHasLineage(s: Snaps, l: Ledger, heads: set<StateId>, accepted: set<StateId>, key: TerminalKey)
    requires key in Terminals(s, l, heads, accepted)
    ensures LineagesOf(s, l, heads, accepted, key) != {}
    ensures forall g :: g in LineagesOf(s, l, heads, accepted, key) <==>
      g in heads && TerminalOf(s, l, ChainSet(s, g, accepted), key)
  {
    hide TerminalOf, ChainSet;
    TerminalInLedger(s, l, heads, accepted, key);
    var h :| h in heads && TerminalOf(s, l, ChainSet(s, h, accepted), key);
    assert h in LineagesOf(s, l, heads, accepted, key);
  }

  lemma FirstIsFirst(names: set<StateId>)
    ensures names != {} ==> FirstName(names) in names
    ensures forall g :: g in names ==> g == FirstName(names) || NameBefore(FirstName(names), g)
  {
    hide NameBefore;
    forall g | g in names ensures g == FirstName(names) || NameBefore(FirstName(names), g) {
      assert g in SortNames(names);
    }
    if names != {} {
      assert SortNames(names)[0] in SortNames(names);
    }
  }
}
