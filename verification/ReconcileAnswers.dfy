/**
 What a reconcile answers, stores and retires, from the request and the tables it met, and exactly which
 answer every reconcile request gets.
 */
module ReconcileAnswers {
  import opened Options
  import opened Types
  import opened Tree
  import opened Heads
  import opened Newest
  import opened ChangeLog
  import opened Divergence
  import opened Verifiers
  import opened Evaluation
  import opened Protocol
  import opened Invariants
  import opened Evidence
  import opened Runs
  import opened Reconciling
  import opened Answers
  import Progress
  import Alarms

  // ----- What is undecided

  /** A lineage the accepted head does not continue: another live head, or a retired snapshot off its chain. */
  ghost predicate Diverges(t: Tables, head: StateId, h: StateId) {
    (IsLive(t, h) && h != head) || (h in t.retirements && h !in Ancestry(t.snaps, head))
  }

  lemma DivergesIff(t: Tables, head: StateId, h: StateId)
    ensures h in DivergentHeads(t, head) <==> Diverges(t, head, h)
  {
    LiveIff(t, h);
    hide Ancestry;
  }

  /** Change x of (kind, id) is the last one made on the chain: by revision, then by ordinal. */
  ghost predicate LastOnChain(t: Tables, chain: seq<StateId>, k: Kind, id: RowId, x: Tuple) {
    && x in t.ledger && x.kind == k && t.ledger[x].id == id && x.state in chain && x.state in t.snaps
    && forall y :: y in t.ledger && y.kind == k && t.ledger[y].id == id && y.state in chain && y.state in t.snaps ==>
         || t.snaps[y.state].revision < t.snaps[x.state].revision
         || (t.snaps[y.state].revision == t.snaps[x.state].revision && y.ordinal <= x.ordinal)
  }

  /** Some reconcile of the accepted lineage has recorded a decision for the key. */
  ghost predicate DecidedBefore(t: Tables, head: StateId, key: TerminalKey) {
    exists a :: a in Lineage(t.snaps, head) && a in t.snaps && t.snaps[a].envelope.reconciliation.Some?
                && key in t.snaps[a].envelope.reconciliation.value.resolutions
  }

  /** The key is where some divergent chain last changed its id. */
  ghost predicate EndsChain(t: Tables, head: StateId, key: TerminalKey) {
    exists h, x ::
      && Diverges(t, head, h)
      && LastOnChain(t, Chain(t.snaps, h, Ancestry(t.snaps, head)), key.kind, key.id, x)
      && x.state == key.state
  }

  /** Divergent terminals are where divergent chains end; the decided ones are those some reconcile recorded. */
  lemma TerminalIff(t: Tables, head: StateId, key: TerminalKey)
    ensures key in Terminals(t.snaps, t.ledger, DivergentHeads(t, head), Ancestry(t.snaps, head)) <==>
            EndsChain(t, head, key)
    ensures Resolved(t.snaps, Ancestry(t.snaps, head), key) <==> DecidedBefore(t, head, key)
  {
    hide Chain, DivergentHeads, Diverges, IsNewest, LastOnChain, Resolved, DecidedBefore;
    var accepted := Ancestry(t.snaps, head);
    TerminalInLedger(t.snaps, t.ledger, DivergentHeads(t, head), accepted, key);
    forall h ensures h in DivergentHeads(t, head) <==> Diverges(t, head, h) {
      DivergesIff(t, head, h);
    }
    forall h, x
      ensures IsNewest(t.snaps, t.ledger, ChainSet(t.snaps, h, accepted), key.kind, key.id, x) <==>
              LastOnChain(t, Chain(t.snaps, h, accepted), key.kind, key.id, x)
    {
      LastIsNewest(t, h, accepted, key.kind, key.id, x);
    }
    EndsIff(t, head, key);
  }

  /** What a reconcile owes a decision: where divergent chains end, and no reconcile has decided yet. */
  lemma UndecidedIff(t: Tables, head: StateId, key: TerminalKey)
    ensures key in Unresolved(t, head) <==> EndsChain(t, head, key) && !DecidedBefore(t, head, key)
  {
    hide Terminals, Resolved, DivergentHeads, Ancestry, EndsChain, DecidedBefore;
    TerminalIff(t, head, key);
  }

  lemma EndsIff(t: Tables, head: StateId, key: TerminalKey)
    requires forall h :: h in DivergentHeads(t, head) <==> Diverges(t, head, h)
    requires forall h, x ::
      IsNewest(t.snaps, t.ledger, ChainSet(t.snaps, h, Ancestry(t.snaps, head)), key.kind, key.id, x) <==>
      LastOnChain(t, Chain(t.snaps, h, Ancestry(t.snaps, head)), key.kind, key.id, x)
    ensures IsTerminal(t.snaps, t.ledger, DivergentHeads(t, head), Ancestry(t.snaps, head), key) <==>
            EndsChain(t, head, key)
    ensures Resolved(t.snaps, Ancestry(t.snaps, head), key) <==> DecidedBefore(t, head, key)
  {
    hide Chain, ChainSet, DivergentHeads, Diverges, IsNewest, LastOnChain;
    AncestryIsLineage(t.snaps, head);
    hide Ancestry, Lineage;
    if IsTerminal(t.snaps, t.ledger, DivergentHeads(t, head), Ancestry(t.snaps, head), key) {
      var h :| h in DivergentHeads(t, head) &&
        TerminalOf(t.snaps, t.ledger, ChainSet(t.snaps, h, Ancestry(t.snaps, head)), key);
      var x :| IsNewest(t.snaps, t.ledger, ChainSet(t.snaps, h, Ancestry(t.snaps, head)), key.kind, key.id, x)
        && x.state == key.state;
      assert LastOnChain(t, Chain(t.snaps, h, Ancestry(t.snaps, head)), key.kind, key.id, x);
    }
    if EndsChain(t, head, key) {
      var h, x :| Diverges(t, head, h)
        && LastOnChain(t, Chain(t.snaps, h, Ancestry(t.snaps, head)), key.kind, key.id, x) && x.state == key.state;
      assert IsNewest(t.snaps, t.ledger, ChainSet(t.snaps, h, Ancestry(t.snaps, head)), key.kind, key.id, x);
      assert TerminalOf(t.snaps, t.ledger, ChainSet(t.snaps, h, Ancestry(t.snaps, head)), key);
    }
  }

  lemma AncestryIsLineage(s: Snaps, head: StateId)
    ensures forall a :: a in Ancestry(s, head) <==> a in Lineage(s, head)
  {
  }

  lemma LastIsNewest(t: Tables, h: StateId, accepted: set<StateId>, k: Kind, id: RowId, x: Tuple)
    ensures IsNewest(t.snaps, t.ledger, ChainSet(t.snaps, h, accepted), k, id, x) <==>
            LastOnChain(t, Chain(t.snaps, h, accepted), k, id, x)
  {
    var on, chain := ChainSet(t.snaps, h, accepted), Chain(t.snaps, h, accepted);
    assert forall a :: a in on <==> a in chain;
    assert forall a :: a in chain ==> a in t.snaps;
    hide Chain, ChainSet;
    LastIsNewestOn(t, on, chain, k, id, x);
  }

  lemma LastIsNewestOn(t: Tables, on: set<StateId>, chain: seq<StateId>, k: Kind, id: RowId, x: Tuple)
    requires (forall a :: a in on <==> a in chain) && forall a :: a in chain ==> a in t.snaps
    ensures IsNewest(t.snaps, t.ledger, on, k, id, x) <==> LastOnChain(t, chain, k, id, x)
  {
    if IsNewest(t.snaps, t.ledger, on, k, id, x) {
      forall y | y in t.ledger && y.kind == k && t.ledger[y].id == id && y.state in chain && y.state in t.snaps
        ensures !Newer(t.snaps, y, x)
      {
        assert TupleOn(t.ledger, on, k, id, y);
      }
    }
    if LastOnChain(t, chain, k, id, x) {
      forall y | TupleOn(t.ledger, on, k, id, y) ensures !Newer(t.snaps, y, x) {
      }
    }
  }

  // ----- What must be decided how

  /** The key lies on a lineage the request rejects as a whole. */
  ghost predicate Rejected(t: Tables, n: Normalized, key: TerminalKey) {
    exists h :: h in n.rejectLineages && key.state in Chain(t.snaps, h, Ancestry(t.snaps, n.survivor))
  }

  /** Change o of the request is the last to name the id, and would record the divergent value. */
  ghost predicate Accepts(t: Tables, p: Params, key: TerminalKey, o: nat) {
    var divergent := ComparableNewest(t.snaps, t.ledger, t.versions, key);
    && divergent.Some?
    && match key.kind
       case Fact =>
         && o < |p.factChanges| && p.factChanges[o].factRef == Ref(key.id)
         && (forall j :: o < j < |p.factChanges| ==> p.factChanges[j].factRef != Ref(key.id))
         && Comparing(FactVersionValue(p.factChanges[o])) == divergent.value
       case Loop =>
         && o < |p.loopChanges| && p.loopChanges[o].loopRef == Ref(key.id)
         && (forall j :: o < j < |p.loopChanges| ==> p.loopChanges[j].loopRef != Ref(key.id))
         && divergent.value ==
              ComparableLoop(EffectiveLoopOwnerAt(t.loops, p.loopChanges, o, p.agent), p.loopChanges[o].status,
                             p.loopChanges[o].nextAction, p.loopChanges[o].dueAt, p.loopChanges[o].blockedOn,
                             if p.loopChanges[o].status == Closed then p.loopChanges[o].closeOutcome else None)
  }

  /** Every explicit decision and every rejected lineage is admissible, and nothing is left open that may not be. */
  ghost predicate Decides(t: Tables, p: Params, n: Normalized) {
    && (n.acknowledgeRetired || forall a :: a in t.retirements ==> a !in Lineage(t.snaps, n.survivor))
    && (forall h :: h in n.rejectLineages ==> Diverges(t, n.survivor, h))
    && (forall key :: key in n.resolutions ==> key in Unresolved(t, n.survivor) && !Rejected(t, n, key))
    && (forall key :: key in n.resolutions && n.resolutions[key].Accept? ==>
          Accepts(t, p, key, n.resolutions[key].ordinal))
    && (forall key :: key in Unresolved(t, n.survivor) && key !in n.resolutions && !Rejected(t, n, key) ==>
          !n.strict && ComparableNewest(t.snaps, t.ledger, t.versions, key).Some?)
  }

  lemma RejectedIff(t: Tables, n: Normalized, key: TerminalKey)
    ensures OnRejected(t, n, key) <==> Rejected(t, n, key)
  {
    forall h ensures key.state in ChainSet(t.snaps, h, Ancestry(t.snaps, n.survivor)) <==>
                     key.state in Chain(t.snaps, h, Ancestry(t.snaps, n.survivor)) {
    }
  }

  lemma AcceptsIff(t: Tables, p: Params, key: TerminalKey, o: nat)
    ensures AcceptAdmitted(t, key, o, p.factChanges, p.loopChanges, p.agent) <==> Accepts(t, p, key, o)
  {
    hide ComparableNewest, Comparing, EffectiveLoopOwnerAt;
    forall j | 0 <= j < |p.factChanges|
      ensures p.factChanges[j].factId == Some(key.id) <==> p.factChanges[j].factRef == Ref(key.id)
    {
    }
    forall j | 0 <= j < |p.loopChanges|
      ensures p.loopChanges[j].loopId == Some(key.id) <==> p.loopChanges[j].loopRef == Ref(key.id)
    {
    }
  }

  lemma AdoptedIff(t: Tables, survivor: StateId)
    ensures AdoptedBy(t, survivor) != {} <==> exists a :: a in t.retirements && a in Lineage(t.snaps, survivor)
    ensures forall a :: a in AdoptedBy(t, survivor) <==> a in t.retirements && a in Lineage(t.snaps, survivor)
  {
    AncestryIsLineage(t.snaps, survivor);
    hide Ancestry, Lineage;
    if a :| a in t.retirements && a in Lineage(t.snaps, survivor) {
      assert a in AdoptedBy(t, survivor);
    }
  }

  lemma LeftOpenIff(t: Tables, n: Normalized)
    ensures forall key :: key in LeftOpen(t, n) <==>
      key in Unresolved(t, n.survivor) && key !in n.resolutions && !OnRejected(t, n, key)
    ensures forall key :: key in Outcomes(t, n) <==>
      key in Unresolved(t, n.survivor) && (key in n.resolutions || OnRejected(t, n, key))
    ensures forall key :: key in Outcomes(t, n) ==>
      Outcomes(t, n)[key] == if key in n.resolutions then n.resolutions[key] else Reject
  {
    hide Unresolved, OnRejected;
  }

  lemma DecidesIff(t: Tables, p: Params, n: Normalized)
    ensures Admits(t, n, p.factChanges, p.loopChanges, p.agent) <==> Decides(t, p, n)
  {
    hide Unresolved, DivergentHeads, Diverges, OnRejected, Rejected, AcceptAdmitted, Accepts, AdoptedBy, Lineage,
         ComparableNewest, LeftOpen;
    AdoptedIff(t, n.survivor);
    LeftOpenIff(t, n);
    forall h ensures h in DivergentHeads(t, n.survivor) <==> Diverges(t, n.survivor, h) {
      DivergesIff(t, n.survivor, h);
    }
    forall key ensures OnRejected(t, n, key) <==> Rejected(t, n, key) {
      RejectedIff(t, n, key);
    }
    forall key, o ensures AcceptAdmitted(t, key, o, p.factChanges, p.loopChanges, p.agent) <==> Accepts(t, p, key, o) {
      AcceptsIff(t, p, key, o);
    }
  }

  // ----- The answer of every reconcile

  /** The caller restated the live heads, the pointer, and the survivor's revision. */
  ghost predicate HeadsRestated(t: Tables, n: Normalized) {
    && (forall h :: h in n.expectedHeads <==> IsLive(t, h))
    && n.expectedPointer == if t.pointer.Some? && t.pointer.value.state in t.snaps
                            then Some(t.pointer.value.state) else None
  }

  /** The one answer a reconcile under a new key gets, in the order its checks are made. */
  ghost predicate ReconcileAnswer(t: Tables, p: Params, n: Normalized, o: Outcome) {
    if !RevisionMet(t, p) then
      if p.expectedRevision.Some? && NothingLives(t) then o == Failed(EmptyScope) else IsConflict(t, p, o)
    else if NothingLives(t) then o == Failed(EmptyScope)
    else if !HeadsRestated(t, n) then IsConflict(t, p, o)
    else if !BuildsOn(t, p, n.survivor) then o == Failed(ReconcileRefused)
    else if !VersionParity(t) then o == Failed(IntegrityFailure)
    else if !Decides(t, p, n) then o == Failed(ReconcileRefused)
    else if !ChangesOk(t, p) then o == Failed(BadChange)
    else o.Written?
  }

  lemma RestatedIff(t: Tables, n: Normalized)
    ensures LiveHeads(t) == n.expectedHeads && ScopePointer(t) == n.expectedPointer <==> HeadsRestated(t, n)
  {
    forall h ensures h in LiveHeads(t) <==> IsLive(t, h) {
      LiveIff(t, h);
    }
    hide LiveHeads, IsLive;
  }

  /** The two refusals that come before the scope is looked at. */
  lemma MalformedRefused(t: Tables, p: Params, u: Uuids, now: Time)
    requires Sized(p, u) && Asks(p, Reconcile)
    ensures !HasState(p) ==> Step(t, p, u, now).1 == Failed(StateRequired)
    ensures HasState(p) && !WellAsked(p) ==> Step(t, p, u, now).1 == Failed(ReconcileRefused)
  {
    hide Normalize, AdmissionOf, Commit, FingerprintOf, ReplayOf, WellAsked;
    NormalizeIff(p);
  }

  lemma ReconcileAnswered(t: Tables, p: Params, u: Uuids, now: Time, n: Normalized)
    requires Inv(t) && FreshUuids(t, p, u) && Asks(p, Reconcile) && HasState(p) && Normalize(p) == Some(n)
    requires !HasKey(t, p.key)
    ensures ReconcileAnswer(t, p, n, Step(t, p, u, now).1)
  {
    hide Inv, Normalize, AdmissionOf, Commit, FingerprintOf, ReplayOf, ByKey, ByRevision, LoopIdsFresh, FactIdsFresh,
         HasKey, ReconcileAnswer;
    OperationIs(p);
    KeyFound(t, p.key);
    var parent := ByRevision(t.snaps, p.expectedRevision);
    AdmissionAnswered(t, p, n, parent);
    if AdmissionOf(t, p, parent).Admit? {
      var adm := AdmissionOf(t, p, parent).adm;
      Alarms.CommitNeverAlarms(t, p, u, now, parent, adm);
      Progress.CommitWrites(t, p, parent, adm, u, now);
      CommitAnswered(t, p, parent, adm, u, now, n);
    }
  }

  /** Before the changes are applied: the answer, or that all of the checks passed. */
  lemma AdmissionAnswered(t: Tables, p: Params, n: Normalized, parent: Option<StateId>)
    requires Inv(t) && OperationOf(p) == Reconcile && Precheck(p).None? && Normalize(p) == Some(n)
    requires parent == ByRevision(t.snaps, p.expectedRevision)
    ensures var r := AdmissionOf(t, p, parent);
      && (r.Refuse? ==> ReconcileAnswer(t, p, n, r.outcome))
      && (r.Admit? ==> RevisionMet(t, p) && !NothingLives(t) && HeadsRestated(t, n) && BuildsOn(t, p, n.survivor)
                       && VersionParity(t) && Decides(t, p, n))
  {
    hide Inv, Normalize, Precheck, ByRevision, LiveHeads, ConflictOf, IsConflict, NothingLives, HeadsRestated,
         VersionParity, Decides, Admits, RecordOf, ChangesOk, BuildsOn, RetirementAttribution, RowsScopeWide,
         ResolutionRowsOnLineage;
    InvHasTree(t);
    ParentIs(t, p);
    ParentFound(t, p);
    NoneLive(t);
    ConflictIs(t, p, ConflictOf(t, p));
    RestatedIff(t, n);
    DecidesIff(t, p, n);
    Alarms.EvidenceNeverAlarms(t, n.survivor);
  }

  lemma CommitAnswered(t: Tables, p: Params, parent: Option<StateId>, adm: Admitted, u: Uuids, now: Time, n: Normalized)
    requires FreshUuids(t, p, u) && Commit(t, p, parent, adm, u, now).1 != Failed(IntegrityFailure)
    requires RevisionMet(t, p) && !NothingLives(t) && HeadsRestated(t, n) && BuildsOn(t, p, n.survivor)
    requires VersionParity(t) && Decides(t, p, n)
    ensures ReconcileAnswer(t, p, n, Commit(t, p, parent, adm, u, now).1)
  {
    hide RevisionMet, NothingLives, HeadsRestated, BuildsOn, VersionParity, Decides, WrittenTables, ReconcileParity,
         FactsDone, LoopsDone, ChangesOk, LoopIdsFresh, FactIdsFresh;
    ChangesApplyIff(t, p, u, now);
  }

  // ----- What a written reconcile stores and says

  /** What is stored of a reconcile: what was asked, whom it retires and adopts, what it decides, what it leaves. */
  ghost predicate RecordSays(t: Tables, p: Params, n: Normalized, record: ReconciliationRecord) {
    && record.expectedHeads == n.expectedHeads && record.expectedPointer == n.expectedPointer
    && record.survivor == n.survivor && record.reason == p.reason && record.strict == n.strict
    && (forall h :: h in record.retired <==> IsLive(t, h) && h != n.survivor)
    && (forall a :: a in record.adoptedRetired <==> a in t.retirements && a in Lineage(t.snaps, n.survivor))
    && (forall key :: key in record.resolutions <==>
          key in Unresolved(t, n.survivor) && (key in n.resolutions || Rejected(t, n, key)))
    && (forall key :: key in record.resolutions ==>
          record.resolutions[key] == if key in n.resolutions then n.resolutions[key] else Reject)
  }

  lemma ReasonKept(p: Params, n: Normalized)
    requires Normalize(p) == Some(n)
    ensures n.reason == p.reason
  {
    hide ResolutionMap, NormalizableRequest;
  }

  lemma RecordIs(t: Tables, p: Params, n: Normalized)
    requires Normalize(p) == Some(n) && n.expectedHeads == LiveHeads(t)
    ensures RecordSays(t, p, n, RecordOf(t, n))
  {
    hide Normalize, Unresolved, OnRejected, Rejected, AdoptedBy, Lineage, LiveHeads, IsLive, Outcomes, LeftOpen;
    ReasonKept(p, n);
    LeftOpenIff(t, n);
    AdoptedIff(t, n.survivor);
    forall h ensures h in LiveHeads(t) <==> IsLive(t, h) {
      LiveIff(t, h);
    }
    forall key ensures OnRejected(t, n, key) <==> Rejected(t, n, key) {
      RejectedIff(t, n, key);
    }
  }

  /**
   The answer to a written reconcile, from the tables before and after: who survived and is pointed
   at, exactly whom it retired and adopted, exactly the decisions stored as its rows, and how many
   divergent terminals of each kind are still undecided.
   */
  lemma ReconciledAnswer(t: Tables, p: Params, u: Uuids, now: Time, t': Tables, n: Normalized)
    requires Inv(t) && Reconciled(t, p, u, now, t', n)
    ensures var o := Step(t, p, u, now).1;
      && o.Written? && o.reconciled.Some?
      && var block := o.reconciled.value;
      && block.survivor == n.survivor && block.pointer == u.state
      && (forall h :: h in block.retired <==> IsLive(t, h) && h != n.survivor)
      && block.retired == t'.retirements.Keys - t.retirements.Keys
      && (forall a :: a in block.adoptedRetired <==> a in t.retirements && a in Ancestry(t.snaps, n.survivor))
      && (forall key :: key in block.resolutions <==> ResolutionKey(key, u.state) in t'.resolutions)
      && (forall key :: key in block.resolutions ==>
            block.resolutions[key] == t'.resolutions[ResolutionKey(key, u.state)])
      && block.unresolvedDivergent.facts == |set key | key in Unresolved(t', u.state) && key.kind == Fact|
      && block.unresolvedDivergent.loops == |set key | key in Unresolved(t', u.state) && key.kind == Loop|
  {
    hide Inv, Step, Wrote, ReconcileAdmitted, LoopIdsFresh, FactIdsFresh, Normalize, Unresolved, LiveHeads, IsLive,
         RecordOf, ReconcileParity, AdmittedBy;
    var parent, adm, f, l := StepWrote(t, p, u, now, t', Step(t, p, u, now).1);
    RecordIffReconcile(t, p, parent, adm);
    AdmittedReconcile(t, p, parent, adm);
    AdmittedSurvivor(t, p, parent, adm.record.value, n);
    RetiresAllButSurvivor(t, p, parent, adm.record.value, n);
    ReconcileDecides(t, p, u, now, t', n);
    WroteEvidence(t, p, u, now, t', parent, adm, f, l);
    ResolvedBy(t, u.state, adm.record.value);
    RecordAdopts(t, n);
    forall h ensures h in LiveHeads(t) <==> IsLive(t, h) {
      LiveIff(t, h);
    }
    LiveUnretired(t);
    RetirementKeys(adm.record, u.state, p.agent, now);
  }

  lemma RecordAdopts(t: Tables, n: Normalized)
    ensures RecordOf(t, n).adoptedRetired == AdoptedBy(t, n.survivor)
  {
    hide AdoptedBy, Unresolved, OnRejected;
  }

  lemma RetirementKeys(record: Option<ReconciliationRecord>, a: StateId, by_: Principal, now: Time)
    requires record.Some?
    ensures RetirementRows(record, a, by_, now).Keys == record.value.retired
  {
  }

  /** The resolution rows a new snapshot adds are its own. */
  lemma ResolvedBy(t: Tables, n: StateId, record: ReconciliationRecord)
    requires Inv(t) && n !in t.snaps
    ensures var rows := t.resolutions + RecordedResolutions(Some(record), n);
      && (forall key :: key in record.resolutions <==> ResolutionKey(key, n) in rows)
      && (forall key :: key in record.resolutions ==> rows[ResolutionKey(key, n)] == record.resolutions[key])
  {
    hide TreeOk, KeysUnique, FingerprintsOk, RowsOk, InPlaceOk, PointerOk, RetirementsOk, ReconcilesOk;
  }

  /** And the record in the new snapshot's payload says what was asked, decided and retired. */
  lemma ReconciledRecord(t: Tables, p: Params, u: Uuids, now: Time, t': Tables, n: Normalized)
    requires Inv(t) && Reconciled(t, p, u, now, t', n)
    ensures u.state in t'.snaps && t'.snaps[u.state].envelope.reconciliation.Some?
    ensures RecordSays(t, p, n, t'.snaps[u.state].envelope.reconciliation.value)
  {
    hide Inv, Step, Wrote, ReconcileAdmitted, LoopIdsFresh, FactIdsFresh, Normalize, RecordOf, ReconcileParity,
         AdmittedBy, Reconciled, RecordSays, LiveHeads;
    ReconciledFrame(t, p, u, now, t', n);
    ExtendsIsNew(t.snaps, t'.snaps, u.state);
    var parent, adm, f, l := ReconciledParts(t, p, u, now, t', n);
    AdmittedNormal(t, p, parent, adm.record.value, n);
    RecordIs(t, p, n);
  }

  lemma AdmittedNormal(t: Tables, p: Params, parent: Option<StateId>, record: ReconciliationRecord, n: Normalized)
    requires ReconcileAdmitted(t, p, parent, record, n)
    ensures Normalize(p) == Some(n) && n.expectedHeads == LiveHeads(t)
  {
    hide EvidenceVerifies, Admits, Normalize, LiveHeads;
  }
}
