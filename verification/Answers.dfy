/**
 What a checkpoint answers and stores, field by field from the request and the tables it met, and
 exactly which answer every request gets.
 */
module Answers {
  import opened Options
  import opened JsonValues
  import opened Types
  import opened Tree
  import opened Heads
  import opened ChangeLog
  import opened Verifiers
  import opened Evaluation
  import opened Protocol
  import opened Invariants
  import opened Evidence
  import opened Reconciling
  import opened AppliedRows
  import MergePatch

  // ----- What was asked

  /** A plain write: any operation below result version 3 is one. */
  ghost predicate Plain(p: Params) {
    p.resultVersion != V3 || p.operation == Write
  }

  ghost predicate Asks(p: Params, op: Operation) {
    p.resultVersion == V3 && p.operation == op
  }

  /** a is the snapshot the request builds on. */
  ghost predicate BuildsOn(t: Tables, p: Params, a: StateId) {
    a in t.snaps && p.expectedRevision == Some(t.snaps[a].revision)
  }

  /** A live head: no snapshot continues it, and it is not retired. */
  ghost predicate IsLive(t: Tables, a: StateId) {
    a in t.snaps && a !in t.retirements && forall c :: c in t.snaps ==> t.snaps[c].parent != Some(a)
  }

  lemma LiveIff(t: Tables, a: StateId)
    ensures a in LiveHeads(t) <==> IsLive(t, a)
  {
  }

  lemma OperationIs(p: Params)
    ensures Plain(p) <==> OperationOf(p) == Write
    ensures forall op :: op != Write ==> (Asks(p, op) <==> OperationOf(p) == op)
  {
  }

  lemma ParentIs(t: Tables, p: Params)
    requires TreeOk(t.snaps)
    ensures forall a :: ByRevision(t.snaps, p.expectedRevision) == Some(a) <==> BuildsOn(t, p, a)
  {
  }

  lemma ParentFound(t: Tables, p: Params)
    ensures var parent := ByRevision(t.snaps, p.expectedRevision);
      && (parent.None? <==> forall a :: !BuildsOn(t, p, a))
      && (parent.Some? ==> BuildsOn(t, p, parent.value))
  {
    var parent := ByRevision(t.snaps, p.expectedRevision);
    if parent.Some? {
      assert parent.value in t.snaps && t.snaps[parent.value].revision == p.expectedRevision.value;
      assert BuildsOn(t, p, parent.value);
    }
  }

  // ----- What a written checkpoint stores and says

  /** The snapshot of a request, but for its state, its reconciliation record and its parent. */
  ghost predicate Stores(t: Tables, p: Params, now: Time, snap: Snapshot) {
    && (forall a :: a in t.snaps ==> t.snaps[a].revision < snap.revision)
    && (t.snaps.Keys == {} ==> snap.revision == 1)
    && (t.snaps.Keys != {} ==> exists a :: a in t.snaps && t.snaps[a].revision + 1 == snap.revision)
    && snap.key == p.key && snap.author == p.agent && snap.recordedAt == now
    && snap.envelope.events == p.events && snap.envelope.factChanges == p.factChanges
    && snap.envelope.loopChanges == p.loopChanges && snap.envelope.evidenceRefs == p.evidenceRefs
    && snap.digest.Some?
  }

  /** The state a checkpoint stores: the one sent, the parent's, or the parent's merged with the patch. */
  ghost predicate StoresState(t: Tables, p: Params, snap: Snapshot) {
    && (Plain(p) || Asks(p, Reconcile) ==> Some(snap.envelope.state) == p.state)
    && (Asks(p, Record) ==>
          exists a :: BuildsOn(t, p, a) && snap.parent == Some(a) && snap.envelope.state == t.snaps[a].envelope.state)
    && (Asks(p, Patch) ==>
          exists a :: BuildsOn(t, p, a) && snap.parent == Some(a) && p.statePatch.Some?
                      && snap.envelope.state == MergePatch.Merge(t.snaps[a].envelope.state, p.statePatch.value))
  }

  /**
   A written checkpoint adds one snapshot that stores the request, changes no other, and answers
   with what it stored. From any state, corrupt ones included.
   */
  lemma WrittenAnswer(t: Tables, p: Params, u: Uuids, now: Time, t': Tables, o: Outcome)
    requires FreshUuids(t, p, u) && Step(t, p, u, now) == (t', o) && o.Written?
    ensures t'.snaps.Keys == t.snaps.Keys + {u.state} && u.state !in t.snaps
    ensures forall a :: a in t.snaps ==> t'.snaps[a] == t.snaps[a]
    ensures var snap := t'.snaps[u.state];
      && Stores(t, p, now, snap) && StoresState(t, p, snap)
      && (p.expectedRevision.None? ==> snap.parent == None)
      && (p.expectedRevision.Some? ==> snap.parent.Some? && BuildsOn(t, p, snap.parent.value))
      && (snap.envelope.reconciliation.Some? <==> Asks(p, Reconcile))
      && o.stateId == u.state && o.revision == snap.revision && o.parent == snap.parent
      && o.contentHash == snap.envelope
      && o.changes == (if p.resultVersion == V1 then None else snap.digest)
      && (o.reconciled.Some? <==> Asks(p, Reconcile))
  {
    hide Step, LoopIdsFresh, FactIdsFresh, Wrote, AdmittedBy, ReconcileParity, BlockOf, StoresState, ByRevision;
    var parent, adm, f, l := StepWrote(t, p, u, now, t', o);
    SnapsAfter(t, p, u, now, t', parent, adm, f, l);
    WroteSnap(t, p, u, now, t', parent, adm, f, l);
    RecordIffReconcile(t, p, parent, adm);
    OperationIs(p);
    ParentFound(t, p);
    AdmittedRevision(t, p, parent, adm);
    AdmittedState(t, p, parent, adm, t'.snaps[u.state]);
  }

  lemma AdmittedRevision(t: Tables, p: Params, parent: Option<StateId>, adm: Admitted)
    requires AdmittedBy(t, p, parent, adm)
    ensures p.expectedRevision.Some? ==> parent.Some?
    ensures p.expectedRevision.None? ==> t.snaps.Keys == {}
  {
    hide AdmitDerived, AdmitReconcile, Precheck;
  }

  lemma AdmittedState(t: Tables, p: Params, parent: Option<StateId>, adm: Admitted, snap: Snapshot)
    requires AdmittedBy(t, p, parent, adm) && parent == ByRevision(t.snaps, p.expectedRevision)
    requires snap.envelope.state == adm.state && snap.parent == parent
    ensures StoresState(t, p, snap)
  {
    hide EvidenceVerifies, Admits, RecordOf, Normalize, ValidWorkingState, EffectiveCurrentHead, LiveHeads, ByRevision,
         MergePatch.Merge, MergePatch.Admissible;
    OperationIs(p);
    ParentFound(t, p);
    if Asks(p, Record) || Asks(p, Patch) {
      assert parent == Some(EffectiveCurrentHead(t).head);
    }
  }

  // ----- The answer of every plain write

  ghost predicate HasKey(t: Tables, key: string) {
    exists a :: a in t.snaps && t.snaps[a].key == key
  }

  lemma KeyFound(t: Tables, key: string)
    ensures ByKey(t.snaps, key).Some? <==> HasKey(t, key)
  {
  }

  /** A conflict names exactly the live heads, and to version 3 the pointed snapshot. */
  ghost predicate IsConflict(t: Tables, p: Params, o: Outcome) {
    && o.Conflict? && (forall h :: h in o.heads <==> IsLive(t, h))
    && o.pointer == if p.resultVersion == V3 && t.pointer.Some? && t.pointer.value.state in t.snaps
                    then Some(t.pointer.value.state) else None
  }

  lemma ConflictIs(t: Tables, p: Params, o: Outcome)
    ensures o == ConflictOf(t, p) <==> IsConflict(t, p, o)
  {
    forall h ensures h in LiveHeads(t) <==> IsLive(t, h) {
      LiveIff(t, h);
    }
    hide LiveHeads, IsLive;
    if IsConflict(t, p, o) {
      assert o.heads == LiveHeads(t);
    }
  }

  /** The revision named is that of a snapshot, or none is named and the scope is empty. */
  ghost predicate RevisionMet(t: Tables, p: Params) {
    if p.expectedRevision.None? then t.snaps.Keys == {} else exists a :: BuildsOn(t, p, a)
  }

  /** Version 3 writes below a retired snapshot only with an acknowledgement. */
  ghost predicate RetiredUnacknowledged(t: Tables, p: Params) {
    p.resultVersion == V3 && !p.acknowledgeRetired && exists a :: BuildsOn(t, p, a) && a in t.retirements
  }

  ghost predicate HasState(p: Params) {
    p.state.Some? && (p.state.value.Obj? || p.state.value.Arr?)
  }

  ghost predicate ChangesOk(t: Tables, p: Params) {
    FactChangesOk(t.facts, p.factChanges, |p.factChanges|) && LoopChangesOk(t.loops, p.loopChanges, |p.loopChanges|)
  }

  lemma ChangesApplyIff(t: Tables, p: Params, u: Uuids, now: Time)
    requires FreshUuids(t, p, u)
    ensures FactsDone(t, p, u, now).Some? && LoopsDone(t, p, u, now).Some? <==> ChangesOk(t, p)
  {
    FactsApplyIff(t.facts, p.factChanges, u.facts, p.agent, now, |p.factChanges|);
    LoopsApplyIff(t.loops, p.loopChanges, u.loops, p.agent, now, |p.loopChanges|);
    hide FactIdsFresh, LoopIdsFresh, ApplyFacts, ApplyLoops, FactChangesOk, LoopChangesOk;
  }

  /** Nothing lives in an empty scope, and something does in any other. */
  ghost predicate NothingLives(t: Tables) {
    forall h :: !IsLive(t, h)
  }

  lemma NoneLive(t: Tables)
    ensures LiveHeads(t) == {} <==> NothingLives(t)
  {
    forall h ensures h in LiveHeads(t) <==> IsLive(t, h) {
      LiveIff(t, h);
    }
    hide LiveHeads, IsLive;
    if LiveHeads(t) != {} {
      var h :| h in LiveHeads(t);
      assert IsLive(t, h);
    }
  }

  /** The one answer a plain write under a new key gets, in the order its checks are made. */
  ghost predicate WriteAnswer(t: Tables, p: Params, o: Outcome) {
    if !HasState(p) then o == Failed(StateRequired)
    else if !RevisionMet(t, p) then
      if p.expectedRevision.Some? && NothingLives(t) then o == Failed(EmptyScope) else IsConflict(t, p, o)
    else if RetiredUnacknowledged(t, p) then o == Failed(RetiredParent)
    else if !ChangesOk(t, p) then o == Failed(BadChange)
    else o.Written?
  }

  lemma WriteAnswered(t: Tables, p: Params, u: Uuids, now: Time)
    requires TreeOk(t.snaps) && FreshUuids(t, p, u) && Plain(p) && !HasKey(t, p.key)
    ensures WriteAnswer(t, p, Step(t, p, u, now).1)
  {
    hide TreeOk, Normalize, ByKey, ByRevision, FingerprintOf, ReplayOf, AdmitDerived, AdmitReconcile, LiveHeads,
         FactsDone, LoopsDone, ConflictOf, IsConflict, ChangesOk, LoopIdsFresh, FactIdsFresh, NothingLives,
         WrittenTables, ReconcileParity, BuildsOn, HasKey;
    OperationIs(p);
    KeyFound(t, p.key);
    ParentFound(t, p);
    ParentIs(t, p);
    ChangesApplyIff(t, p, u, now);
    NoneLive(t);
    ConflictIs(t, p, ConflictOf(t, p));
  }

  /** Exactly when a plain write is written. */
  lemma WriteWrittenIff(t: Tables, p: Params, u: Uuids, now: Time)
    requires TreeOk(t.snaps) && FreshUuids(t, p, u) && Plain(p) && !HasKey(t, p.key)
    ensures Step(t, p, u, now).1.Written? <==>
      HasState(p) && RevisionMet(t, p) && !RetiredUnacknowledged(t, p) && ChangesOk(t, p)
  {
    hide TreeOk, Step, FreshUuids, HasState, RevisionMet, RetiredUnacknowledged, ChangesOk, HasKey, NothingLives;
    assert Sized(p, u) by { FreshIsSized(t, p, u); }
    WriteAnswered(t, p, u, now);
  }

  lemma FreshIsSized(t: Tables, p: Params, u: Uuids)
    requires FreshUuids(t, p, u)
    ensures Sized(p, u)
  {
    hide LoopIdsFresh, FactIdsFresh;
  }

  // ----- The current head

  ghost predicate PointerResolves(t: Tables) {
    t.pointer.Some? && t.pointer.value.state in t.snaps
  }

  /** The pointed snapshot if it is live, else an invalid designation; without a pointer, the newest live heads. */
  lemma CurrentHeadIs(t: Tables)
    ensures var eff := EffectiveCurrentHead(t);
      && (eff.EmptyScopeHead? <==> !PointerResolves(t) && NothingLives(t))
      && (eff.Pointed? <==> PointerResolves(t) && IsLive(t, t.pointer.value.state))
      && (eff.Pointed? ==> eff.head == t.pointer.value.state)
      && (eff.InvalidDesignation? <==> PointerResolves(t) && !IsLive(t, t.pointer.value.state))
      && (eff.LegacyMaxRevision? <==> !PointerResolves(t) && !NothingLives(t))
      && (eff.LegacyMaxRevision? ==>
            forall h :: h in eff.heads <==>
              IsLive(t, h) && forall g :: IsLive(t, g) ==> t.snaps[g].revision <= t.snaps[h].revision)
  {
    NoneLive(t);
    forall h ensures h in LiveHeads(t) <==> IsLive(t, h) {
      LiveIff(t, h);
    }
    hide LiveHeads;
  }

  // ----- Working states

  function TextItems(xs: seq<Text>): Json {
    Arr(seq(|xs|, i requires 0 <= i < |xs| => Str(xs[i])))
  }

  /** The working state with these texts and lists. */
  function WorkingState(objective: Text, status: Text, owner: Text, nextActions: seq<Text>, blockers: seq<Text>,
                        guardrails: seq<Text>): Json {
    Obj(map[Units("objective") := Str(objective), Units("status") := Str(status), Units("owner") := Str(owner),
            Units("nextActions") := TextItems(nextActions), Units("blockers") := TextItems(blockers),
            Units("guardrails") := TextItems(guardrails)])
  }

  ghost predicate IsWorkingState(j: Json) {
    exists objective, status, owner, nextActions, blockers, guardrails ::
      j == WorkingState(objective, status, owner, nextActions, blockers, guardrails)
  }

  lemma ItemsOf(j: Json) returns (xs: seq<Text>)
    requires StringsOnly(j)
    ensures TextItems(xs) == j
  {
    xs := seq(|j.items|, i requires 0 <= i < |j.items| => j.items[i].s);
  }

  /** A state is valid exactly when it is three texts and three lists of texts under their six names. */
  lemma ValidStateIff(j: Json)
    ensures ValidWorkingState(j) <==> IsWorkingState(j)
  {
    hide ValidWorkingState, WorkingState;
    if ValidWorkingState(j) {
      StateBuilt(j);
    }
    if IsWorkingState(j) {
      var o, s, w, a, b, c :| j == WorkingState(o, s, w, a, b, c);
      BuiltIsValid(o, s, w, a, b, c);
    }
  }

  lemma StateBuilt(j: Json)
    requires ValidWorkingState(j)
    ensures IsWorkingState(j)
  {
    hide Units, TextItems, StringsOnly;
    StateNamesDiffer();
    var a := ItemsOf(j.props[Units("nextActions")]);
    var b := ItemsOf(j.props[Units("blockers")]);
    var c := ItemsOf(j.props[Units("guardrails")]);
    var w := WorkingState(j.props[Units("objective")].s, j.props[Units("status")].s, j.props[Units("owner")].s,
                          a, b, c);
    assert w.props == j.props;
  }

  lemma BuiltIsValid(o: Text, s: Text, w: Text, a: seq<Text>, b: seq<Text>, c: seq<Text>)
    ensures ValidWorkingState(WorkingState(o, s, w, a, b, c))
  {
    hide Units, TextItems, StringsOnly;
    StateNamesDiffer();
    ItemsAreStrings(a);
    ItemsAreStrings(b);
    ItemsAreStrings(c);
    var j := WorkingState(o, s, w, a, b, c);
    assert j.props.Keys == {Units("objective"), Units("status"), Units("owner")} +
                           {Units("nextActions"), Units("blockers"), Units("guardrails")};
    assert j.props[Units("objective")].Str? && j.props[Units("status")].Str? && j.props[Units("owner")].Str?;
    assert StringsOnly(j.props[Units("nextActions")]) && StringsOnly(j.props[Units("blockers")]);
    assert StringsOnly(j.props[Units("guardrails")]);
  }

  lemma ItemsAreStrings(xs: seq<Text>)
    ensures StringsOnly(TextItems(xs))
  {
  }

  lemma StateNamesDiffer()
    ensures |Units("objective")| == 9 && |Units("status")| == 6 && |Units("owner")| == 5
    ensures |Units("nextActions")| == 11 && |Units("blockers")| == 8 && |Units("guardrails")| == 10
  {
  }

  // ----- The answer of every record and patch

  /** The pointed snapshot is live, and it is the one the request builds on. */
  ghost predicate BuildsOnPointed(t: Tables, p: Params) {
    t.pointer.Some? && IsLive(t, t.pointer.value.state) && BuildsOn(t, p, t.pointer.value.state)
  }

  ghost predicate PatchOk(p: Params) {
    p.statePatch.Some? && p.statePatch.value.Obj? && MergePatch.Admissible(p.statePatch.value)
  }

  /** The state a record or patch derives from a parent state. */
  ghost function DerivedState(p: Params, parentState: Json): Json {
    if Asks(p, Patch) && p.statePatch.Some? then MergePatch.Merge(parentState, p.statePatch.value) else parentState
  }

  ghost predicate DerivedAnswer(t: Tables, p: Params, o: Outcome) {
    if Asks(p, Patch) && !PatchOk(p) then o == Failed(BadPatch)
    else if p.expectedRevision.None? && t.snaps.Keys != {} then IsConflict(t, p, o)
    else if !BuildsOnPointed(t, p) then if NothingLives(t) then o == Failed(EmptyScope) else IsConflict(t, p, o)
    else
      var parentState := t.snaps[t.pointer.value.state].envelope.state;
      if !ValidWorkingState(parentState) then o == Failed(BadParentState)
      else if !ValidWorkingState(DerivedState(p, parentState)) then o == Failed(BadPatch)
      else if !ChangesOk(t, p) then o == Failed(BadChange)
      else o.Written?
  }

  lemma PointedIs(t: Tables, p: Params)
    requires TreeOk(t.snaps)
    ensures var eff, parent := EffectiveCurrentHead(t), ByRevision(t.snaps, p.expectedRevision);
      && (eff.Pointed? && parent == Some(eff.head) <==> BuildsOnPointed(t, p))
      && (BuildsOnPointed(t, p) ==> eff.head == t.pointer.value.state)
  {
    hide TreeOk, ByRevision;
    ParentIs(t, p);
    if t.pointer.Some? {
      LiveIff(t, t.pointer.value.state);
    }
    hide LiveHeads, IsLive;
  }

  lemma DerivedAnswered(t: Tables, p: Params, u: Uuids, now: Time)
    requires TreeOk(t.snaps) && FreshUuids(t, p, u) && (Asks(p, Record) || Asks(p, Patch)) && !HasKey(t, p.key)
    ensures DerivedAnswer(t, p, Step(t, p, u, now).1)
  {
    hide TreeOk, Normalize, ByKey, ByRevision, FingerprintOf, ReplayOf, AdmitReconcile, LiveHeads, FactsDone,
         LoopsDone, ConflictOf, IsConflict, ChangesOk, LoopIdsFresh, FactIdsFresh, NothingLives, WrittenTables,
         ReconcileParity, BuildsOn, HasKey, EffectiveCurrentHead, ValidWorkingState, MergePatch.Admissible,
         MergePatch.Merge, IsLive, BuildsOnPointed;
    OperationIs(p);
    KeyFound(t, p.key);
    ParentFound(t, p);
    PointedIs(t, p);
    PointedBuilds(t, p);
    ChangesApplyIff(t, p, u, now);
    NoneLive(t);
    ConflictIs(t, p, ConflictOf(t, p));
  }

  lemma PointedBuilds(t: Tables, p: Params)
    ensures BuildsOnPointed(t, p) ==> BuildsOn(t, p, t.pointer.value.state) && t.pointer.value.state in t.snaps
    ensures BuildsOnPointed(t, p) ==> p.expectedRevision.Some? && LiveHeads(t) != {}
  {
    if BuildsOnPointed(t, p) {
      LiveIff(t, t.pointer.value.state);
    }
  }

  // ----- The normal form of a reconcile request

  /** Heads and lineages are listed once each, the survivor is a head and not rejected, and each resolution is whole. */
  ghost predicate WellAsked(p: Params) {
    && p.expectedHeads != [] && p.survivor in p.expectedHeads && p.reason != "" && p.survivor !in p.rejectLineages
    && (forall i, j :: 0 <= i < j < |p.expectedHeads| ==> p.expectedHeads[i] != p.expectedHeads[j])
    && (forall i, j :: 0 <= i < j < |p.rejectLineages| ==> p.rejectLineages[i] != p.rejectLineages[j])
    && (forall i, j :: 0 <= i < j < |p.resolutions| ==> p.resolutions[i].key != p.resolutions[j].key)
    && (forall i :: 0 <= i < |p.resolutions| ==>
          if p.resolutions[i].accept
          then p.resolutions[i].acceptedOrdinal.Some? && p.resolutions[i].acceptedOrdinal.value >= 0
          else p.resolutions[i].acceptedOrdinal.None?)
  }

  /** The normal form says what was asked; strictness is the default, and lists forget their order. */
  ghost predicate NormalOf(p: Params, n: Normalized) {
    && (forall h :: h in n.expectedHeads <==> h in p.expectedHeads)
    && (forall h :: h in n.rejectLineages <==> h in p.rejectLineages)
    && n.expectedPointer == p.expectedPointer && n.survivor == p.survivor && n.reason == p.reason
    && (n.strict <==> p.strict.None? || p.strict.value) && n.acknowledgeRetired == p.acknowledgeRetired
    && (forall key :: key in n.resolutions ==> exists i :: 0 <= i < |p.resolutions| && p.resolutions[i].key == key)
    && (forall i :: 0 <= i < |p.resolutions| ==>
          && p.resolutions[i].key in n.resolutions
          && if p.resolutions[i].accept
             then p.resolutions[i].acceptedOrdinal.Some? && n.resolutions[p.resolutions[i].key].Accept?
                  && n.resolutions[p.resolutions[i].key].ordinal == p.resolutions[i].acceptedOrdinal.value
             else n.resolutions[p.resolutions[i].key] == Reject)
  }

  lemma NormalizeIff(p: Params)
    ensures Normalize(p).Some? <==> WellAsked(p)
    ensures WellAsked(p) ==> NormalOf(p, Normalize(p).value)
  {
    if WellAsked(p) {
      assert NormalizableRequest(p);
      ResolutionsListed(p.resolutions);
    }
    hide ResolutionMap;
  }

  lemma {:induction false} ResolutionsListed(rs: seq<ResolutionRequest>)
    requires DistinctKeys(rs) && forall i :: 0 <= i < |rs| ==> WellFormedResolution(rs[i])
    ensures forall key :: key in ResolutionMap(rs) ==> exists i :: 0 <= i < |rs| && rs[i].key == key
    ensures forall i :: 0 <= i < |rs| ==> rs[i].key in ResolutionMap(rs)
    ensures forall i :: 0 <= i < |rs| ==> ResolutionMap(rs)[rs[i].key] == DecisionOf(rs[i])
  {
    if rs != [] {
      var front := rs[..|rs| - 1];
      ResolutionsListed(front);
      forall key | key in ResolutionMap(rs) ensures exists i :: 0 <= i < |rs| && rs[i].key == key {
        if key in ResolutionMap(front) {
          var i :| 0 <= i < |front| && front[i].key == key;
          assert rs[i].key == key;
        } else {
          assert rs[|rs| - 1].key == key;
        }
      }
      forall i | 0 <= i < |rs|
        ensures rs[i].key in ResolutionMap(rs) && ResolutionMap(rs)[rs[i].key] == DecisionOf(rs[i])
      {
        assert i < |front| ==> front[i] == rs[i];
      }
    }
  }
}
