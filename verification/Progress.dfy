/** Exactly when a reconcile is written, exactly when it alarms, and that a scope can always be merged. */
module Progress {
  import opened Options
  import opened JsonValues
  import opened Types
  import opened Tree
  import opened Heads
  import opened ChangeLog
  import opened Divergence
  import opened Verifiers
  import opened Evaluation
  import opened Protocol
  import opened Invariants
  import opened Reconciling
  import opened Answers
  import Alarms

  /** The caller named the survivor's revision, the exact live heads and the pointer. */
  ghost predicate NamesScope(t: Tables, p: Params, n: Normalized) {
    && ByRevision(t.snaps, p.expectedRevision) == Some(n.survivor)
    && LiveHeads(t) == n.expectedHeads
    && ScopePointer(t) == n.expectedPointer
  }

  ghost predicate ReconcileRequest(t: Tables, p: Params, u: Uuids, n: Normalized) {
    && FreshUuids(t, p, u) && OperationOf(p) == Reconcile && Normalize(p) == Some(n)
    && Precheck(p).None? && ByKey(t.snaps, p.key).None?
  }

  lemma ReconcileAdmission(t: Tables, p: Params, n: Normalized)
    requires Inv(t) && OperationOf(p) == Reconcile && Normalize(p) == Some(n) && Precheck(p).None?
    ensures var parent := ByRevision(t.snaps, p.expectedRevision);
      AdmissionOf(t, p, parent).Admit? <==>
        NamesScope(t, p, n) && VersionParity(t) && Admits(t, n, p.factChanges, p.loopChanges, p.agent)
    ensures NamesScope(t, p, n) && VersionParity(t) && Admits(t, n, p.factChanges, p.loopChanges, p.agent) ==>
      AdmissionOf(t, p, ByRevision(t.snaps, p.expectedRevision)) ==
        Admit(Admitted(Or(p.state, Null), Some(RecordOf(t, n))))
    ensures AdmissionOf(t, p, ByRevision(t.snaps, p.expectedRevision)) == Refuse(Failed(IntegrityFailure)) <==>
      NamesScope(t, p, n) && !VersionParity(t)
  {
    hide Inv, AdmitReconcile, VersionParity, Admits, RecordOf, Normalize, Precheck, LiveHeads, ByRevision;
    SurvivorNamed(p, n);
    AdmitReconcileIff(t, p, n, ByRevision(t.snaps, p.expectedRevision));
    NoRevisionNoParent(t.snaps, p.expectedRevision);
  }

  lemma NoRevisionNoParent(s: Snaps, revision: Option<int>)
    ensures revision.None? ==> ByRevision(s, revision).None?
  {
  }

  lemma AdmitReconcileIff(t: Tables, p: Params, n: Normalized, parent: Option<StateId>)
    requires Inv(t) && n.survivor in n.expectedHeads
    ensures var named := parent == Some(n.survivor) && LiveHeads(t) == n.expectedHeads &&
      ScopePointer(t) == n.expectedPointer;
      && (AdmitReconcile(t, p, n, parent) == Refuse(Failed(IntegrityFailure)) <==> named && !VersionParity(t))
      && (AdmitReconcile(t, p, n, parent).Admit? <==>
            named && VersionParity(t) && Admits(t, n, p.factChanges, p.loopChanges, p.agent))
    ensures AdmitReconcile(t, p, n, parent).Admit? ==>
      AdmitReconcile(t, p, n, parent) == Admit(Admitted(Or(p.state, Null), Some(RecordOf(t, n))))
  {
    hide Inv, VersionParity, RetirementAttribution, RowsScopeWide, ResolutionRowsOnLineage, Admits, RecordOf,
         LiveHeads, ReconcileParity;
    Alarms.EvidenceNeverAlarms(t, n.survivor);
  }

  lemma SurvivorNamed(p: Params, n: Normalized)
    requires Normalize(p) == Some(n)
    ensures n.survivor in n.expectedHeads
  {
    hide ResolutionMap;
  }

  /**
   A reconcile is written if and only if it names the scope as it is, the versions verify, every
   divergent terminal is decided as demanded, and its own changes name rows there are and say how
   they close what they close. Nothing else can stop it: the self-check before the commit never does.
   */
  lemma ReconcileWrittenIff(t: Tables, p: Params, u: Uuids, now: Time, n: Normalized)
    requires Inv(t) && ReconcileRequest(t, p, u, n)
    ensures Step(t, p, u, now).1.Written? <==>
      && NamesScope(t, p, n) && VersionParity(t)
      && Admits(t, n, p.factChanges, p.loopChanges, p.agent)
      && ChangesOk(t, p)
  {
    hide Inv, VersionParity, Admits, Normalize, Precheck, AdmissionOf, Commit, FingerprintOf, ReplayOf, NamesScope,
         RecordOf, LoopIdsFresh, FactIdsFresh, FactsDone, LoopsDone, ChangesOk;
    ChangesApplyIff(t, p, u, now);
    ReconcileAdmission(t, p, n);
    var parent := ByRevision(t.snaps, p.expectedRevision);
    if AdmissionOf(t, p, parent).Admit? {
      Alarms.CommitNeverAlarms(t, p, u, now, parent, AdmissionOf(t, p, parent).adm);
      CommitWrites(t, p, parent, AdmissionOf(t, p, parent).adm, u, now);
    }
  }

  /**
   A checkpoint ends in an integrity failure if and only if it is a reconcile under a new key that
   names the scope as it is while version parity is broken.
   */
  lemma AlarmIff(t: Tables, p: Params, u: Uuids, now: Time)
    requires Inv(t) && FreshUuids(t, p, u)
    ensures Step(t, p, u, now).1 == Failed(IntegrityFailure) <==>
      !VersionParity(t) && exists n :: ReconcileRequest(t, p, u, n) && NamesScope(t, p, n)
  {
    hide Inv, VersionParity, Normalize, AdmissionOf, Commit, FingerprintOf, ReplayOf, NamesScope, LoopIdsFresh,
         FactIdsFresh;
    var parent := ByRevision(t.snaps, p.expectedRevision);
    var prior := ByKey(t.snaps, p.key);
    if Step(t, p, u, now).1 == Failed(IntegrityFailure) {
      Alarms.OnlyParityAlarms(t, p, u, now);
      if prior.Some? {
        Alarms.ReplayNeverAlarms(t, p, prior.value, parent);
      } else {
        Alarms.PrecheckNeverAlarms(p);
        Alarms.NormalizedByPrecheck(p);
        ReconcileAdmission(t, p, Normalize(p).value);
        assert ReconcileRequest(t, p, u, Normalize(p).value);
      }
    }
    if n :| ReconcileRequest(t, p, u, n) && NamesScope(t, p, n) {
      ReconcileAdmission(t, p, n);
    }
  }

  // ----- A scope can always be merged

  /** Whatever is undecided lies on a divergent lineage. */
  lemma OpenIsDivergent(t: Tables, n: Normalized, key: TerminalKey)
    requires key in Unresolved(t, n.survivor) && n.rejectLineages == DivergentHeads(t, n.survivor)
    ensures OnRejected(t, n, key)
  {
    hide DivergentHeads, ChainSet, Ancestry;
    TerminalInLedger(t.snaps, t.ledger, DivergentHeads(t, n.survivor), Ancestry(t.snaps, n.survivor), key);
    var h :| h in DivergentHeads(t, n.survivor) &&
      TerminalOf(t.snaps, t.ledger, ChainSet(t.snaps, h, Ancestry(t.snaps, n.survivor)), key);
    TerminalOnChain(t.snaps, t.ledger, ChainSet(t.snaps, h, Ancestry(t.snaps, n.survivor)), key);
  }

  lemma TerminalOnChain(s: Snaps, l: Ledger, chain: set<StateId>, key: TerminalKey)
    requires TerminalOf(s, l, chain, key)
    ensures key.state in chain
  {
  }

  /** Rejects every divergent lineage as a whole, and decides nothing one by one. */
  ghost predicate RejectsAll(t: Tables, n: Normalized) {
    n.resolutions == map[] && n.rejectLineages == DivergentHeads(t, n.survivor) && n.acknowledgeRetired
  }

  lemma RejectingAllDecidesAll(t: Tables, n: Normalized, facts: seq<FactChange>, loops: seq<LoopChange>,
                               author: Principal)
    requires RejectsAll(t, n)
    ensures LeftOpen(t, n) == {} && Admits(t, n, facts, loops, author)
    ensures Outcomes(t, n).Keys == Unresolved(t, n.survivor)
  {
    hide Unresolved, OnRejected, DivergentHeads, AdoptedBy;
    forall key | key in Unresolved(t, n.survivor) ensures OnRejected(t, n, key) {
      OpenIsDivergent(t, n, key);
    }
    assert Outcomes(t, n).Keys == Unresolved(t, n.survivor);
  }

  /** However a scope has diverged, the reconcile that rejects every divergent lineage is written. */
  lemma RejectingAllIsWritten(t: Tables, p: Params, u: Uuids, now: Time, n: Normalized)
    requires Inv(t) && VersionParity(t) && ReconcileRequest(t, p, u, n) && NamesScope(t, p, n)
    requires RejectsAll(t, n) && ChangesOk(t, p)
    ensures Step(t, p, u, now).1.Written?
  {
    hide Inv, VersionParity, ReconcileRequest, NamesScope, RejectsAll, ChangesOk, Step, Admits;
    RejectingAllDecidesAll(t, n, p.factChanges, p.loopChanges, p.agent);
    assert Sized(p, u) by { RequestIsSized(t, p, u, n); }
    ReconcileWrittenIff(t, p, u, now, n);
  }

  lemma RequestIsSized(t: Tables, p: Params, u: Uuids, n: Normalized)
    requires ReconcileRequest(t, p, u, n)
    ensures Sized(p, u) && FreshUuids(t, p, u)
  {
    hide LoopIdsFresh, FactIdsFresh;
  }

  // ----- The request that merges a given scope

  lemma LongestName(used: set<string>) returns (bound: nat)
    ensures forall x :: x in used ==> |x| < bound
  {
    if used == {} {
      bound := 0;
    } else {
      var x :| x in used;
      bound := LongestName(used - {x});
      bound := if |x| < bound then bound else |x| + 1;
    }
  }

  /** There is always a name not used yet, as long as the schema wants keys to be. */
  lemma FreshName(used: set<string>) returns (name: string)
    ensures name !in used && |name| >= 8
  {
    var bound := LongestName(used);
    name := seq(bound + 8, _ => 'x');
  }

  lemma Listed(xs: set<string>) returns (ys: seq<string>)
    ensures NoDuplicates(ys) && Elements(ys) == xs
  {
    if xs == {} {
      ys := [];
    } else {
      var x :| x in xs;
      var rest := Listed(xs - {x});
      assert x !in rest by { assert x !in Elements(rest); }
      ys := rest + [x];
      assert Elements(ys) == Elements(rest) + {x};
    }
  }

  /** The reconcile that keeps `survivor`, rejects every other lineage and changes nothing else. */
  function MergeRequest(agent: Principal, revision: nat, key: string, pointer: Option<StateId>, survivor: StateId,
                        heads: seq<StateId>, rejects: seq<StateId>): Params {
    Params(agent, Some(revision), key, V3, Reconcile, Some(Alarms.IdleState()), None, [], [], [], [],
           true, heads, pointer, survivor, "merge", Some(true), [], rejects)
  }

  lemma MergeNormalizes(agent: Principal, revision: nat, key: string, pointer: Option<StateId>, survivor: StateId,
                        heads: seq<StateId>, rejects: seq<StateId>)
    requires NoDuplicates(heads) && NoDuplicates(rejects) && survivor in heads && survivor !in rejects
    ensures var p := MergeRequest(agent, revision, key, pointer, survivor, heads, rejects);
      && Normalize(p) == Some(Normalized(Elements(heads), pointer, survivor, "merge", true, map[], Elements(rejects),
                                         true))
      && OperationOf(p) == Reconcile && Precheck(p).None?
  {
  }

  lemma NamedByRevision(s: Snaps, a: StateId)
    requires TreeOk(s) && a in s
    ensures ByRevision(s, Some(s[a].revision)) == Some(a)
  {
    var revision: Option<int> := Some(s[a].revision);
    assert exists b :: b in s && s[b].revision == revision.value;
  }

  lemma NoChangesApply(t: Tables, p: Params)
    requires p.factChanges == [] && p.loopChanges == []
    ensures ChangesOk(t, p)
  {
  }

  lemma FreshForScope(t: Tables, p: Params, u: Uuids)
    requires Inv(t) && u.state !in t.snaps
    requires p.factChanges == [] && p.loopChanges == [] && u.facts == [] && u.loops == []
    ensures FreshUuids(t, p, u)
  {
    hide KeysUnique, FingerprintsOk, RowsOk, InPlaceOk, RowsOwned, ReconcilesOk;
    LiveInScope(t);
    RetirementsInScope(t);
    hide Live, RetirementsOk;
  }

  lemma KeyUnused(s: Snaps, key: string)
    requires key !in set a | a in s :: s[a].key
    ensures ByKey(s, key).None?
  {
  }

  lemma SurvivorNotDivergent(t: Tables, survivor: StateId)
    requires survivor in LiveHeads(t)
    ensures survivor in t.snaps && survivor !in DivergentHeads(t, survivor)
  {
  }

  /** The reconcile is written, its head is the only live and the pointed one, and nothing is left to decide. */
  ghost predicate Merges(t: Tables, survivor: StateId, agent: Principal, now: Time, p: Params, u: Uuids) {
    && FreshUuids(t, p, u)
    && OperationOf(p) == Reconcile && p.survivor == survivor && p.agent == agent
    && p.state.Some? && ValidWorkingState(p.state.value) && |p.key| >= 8
    && Step(t, p, u, now).1.Written?
    && var t' := Step(t, p, u, now).0;
       LiveHeads(t') == {u.state} && EffectiveCurrentHead(t') == Pointed(u.state) && Unresolved(t', u.state) == {}
  }

  /** Every scope whose versions verify can be merged onto any of its live heads, however it has diverged. */
  lemma AlwaysMergeable(t: Tables, survivor: StateId, agent: Principal, now: Time)
    requires Inv(t) && VersionParity(t) && survivor in LiveHeads(t)
    ensures exists p, u :: Merges(t, survivor, agent, now, p, u)
  {
    hide Inv, VersionParity, Step, LoopIdsFresh, FactIdsFresh, Normalize, Precheck, LiveHeads, DivergentHeads,
         Unresolved, ByRevision, ByKey, EffectiveCurrentHead, ValidWorkingState, Admits, RecordOf, LeftOpen, ChangesOk;
    SurvivorNotDivergent(t, survivor);
    var heads := Listed(LiveHeads(t));
    var rejects := Listed(DivergentHeads(t, survivor));
    var key := FreshName(set a | a in t.snaps :: t.snaps[a].key);
    var state := FreshName(t.snaps.Keys);
    var p := MergeRequest(agent, t.snaps[survivor].revision, key, ScopePointer(t), survivor, heads, rejects);
    var u := Uuids(state, [], []);
    assert survivor in Elements(heads) && survivor !in Elements(rejects);
    MergeNormalizes(agent, t.snaps[survivor].revision, key, ScopePointer(t), survivor, heads, rejects);
    FreshForScope(t, p, u);
    KeyUnused(t.snaps, key);
    InvHasTree(t);
    NamedByRevision(t.snaps, survivor);
    NoChangesApply(t, p);
    RejectingAllIsWritten(t, p, u, now, Normalize(p).value);
    OneLiveHead(t, p, u, now, Step(t, p, u, now).0, Normalize(p).value);
    ReconcileDecides(t, p, u, now, Step(t, p, u, now).0, Normalize(p).value);
    Alarms.IdleIsValid();
    assert Merges(t, survivor, agent, now, p, u);
  }

  lemma CommitWrites(t: Tables, p: Params, parent: Option<StateId>, adm: Admitted, u: Uuids, now: Time)
    requires Sized(p, u) && Commit(t, p, parent, adm, u, now).1 != Failed(IntegrityFailure)
    ensures Commit(t, p, parent, adm, u, now).1.Written? <==>
      FactsDone(t, p, u, now).Some? && LoopsDone(t, p, u, now).Some?
  {
    hide ReconcileParity, WrittenTables, ApplyFacts, ApplyLoops;
  }
}
