/** evaluateDivergence: which reconcile requests are admitted, and what they resolve. */
module Evaluation {
  import opened Options
  import opened Types
  import opened Tree
  import opened ChangeLog
  import opened Divergence
  import opened Verifiers

  // ----- normalizeReconcileRequest

  predicate NoDuplicates<T(==)>(xs: seq<T>) {
    forall i, j :: 0 <= i < j < |xs| ==> xs[i] != xs[j]
  }

  predicate WellFormedResolution(r: ResolutionRequest) {
    if r.accept then r.acceptedOrdinal.Some? && r.acceptedOrdinal.value >= 0 else r.acceptedOrdinal.None?
  }

  function DecisionOf(r: ResolutionRequest): Decision
    requires WellFormedResolution(r)
  {
    if r.accept then Accept(r.acceptedOrdinal.value) else Reject
  }

  ghost predicate DistinctKeys(rs: seq<ResolutionRequest>) {
    forall i, j :: 0 <= i < j < |rs| ==> rs[i].key != rs[j].key
  }

  ghost predicate NormalizableRequest(p: Params) {
    && p.expectedHeads != [] && NoDuplicates(p.expectedHeads)
    && p.survivor in p.expectedHeads
    && p.reason != ""
    && DistinctKeys(p.resolutions)
    && (forall i :: 0 <= i < |p.resolutions| ==> WellFormedResolution(p.resolutions[i]))
    && NoDuplicates(p.rejectLineages) && p.survivor !in p.rejectLineages
  }

  ghost function ResolutionMap(rs: seq<ResolutionRequest>): map<TerminalKey, Decision>
    requires forall i :: 0 <= i < |rs| ==> WellFormedResolution(rs[i])
  {
    if rs == [] then map[] else ResolutionMap(rs[..|rs| - 1])[rs[|rs| - 1].key := DecisionOf(rs[|rs| - 1])]
  }

  ghost function Normalize(p: Params): Option<Normalized> {
    if NormalizableRequest(p) then
      Some(Normalized(Elements(p.expectedHeads), p.expectedPointer, p.survivor, p.reason, p.strict != Some(false),
                      ResolutionMap(p.resolutions), Elements(p.rejectLineages), p.acknowledgeRetired))
    else None
  }

  // ----- Admission

  ghost predicate NamesFact(cs: seq<FactChange>, id: RowId, o: nat) {
    && o < |cs| && cs[o].factId == Some(id)
    && forall j :: o < j < |cs| ==> cs[j].factId != Some(id)
  }

  ghost predicate NamesLoop(cs: seq<LoopChange>, id: RowId, o: nat) {
    && o < |cs| && cs[o].loopId == Some(id)
    && forall j :: o < j < |cs| ==> cs[j].loopId != Some(id)
  }

  /** The comparable form of a requested loop change, with the owner it is predicted to record. */
  ghost function RequestedLoop(loops: Loops, cs: seq<LoopChange>, o: nat, author: Principal): Comparable
    requires o < |cs| && cs[o].loopId.Some?
  {
    ComparableLoop(EffectiveLoopOwnerAt(loops, cs, o, author), cs[o].status, cs[o].nextAction, cs[o].dueAt,
                   cs[o].blockedOn, if cs[o].status == Closed then cs[o].closeOutcome else None)
  }

  /** The request's final change of the id, at ordinal o, has exactly the divergent value. */
  ghost predicate AcceptAdmitted(t: Tables, key: TerminalKey, o: nat, facts: seq<FactChange>, loops: seq<LoopChange>,
                                 author: Principal) {
    var divergent := ComparableNewest(t.snaps, t.ledger, t.versions, key);
    && divergent.Some?
    && match key.kind
       case Fact => NamesFact(facts, key.id, o) && Comparing(FactVersionValue(facts[o])) == divergent.value
       case Loop => NamesLoop(loops, key.id, o) && RequestedLoop(t.loops, loops, o, author) == divergent.value
  }

  /** An unresolved terminal on a lineage the request rejects as a whole. */
  ghost predicate OnRejected(t: Tables, n: Normalized, key: TerminalKey) {
    exists h :: h in n.rejectLineages && key.state in ChainSet(t.snaps, h, Ancestry(t.snaps, n.survivor))
  }

  ghost function Outcomes(t: Tables, n: Normalized): map<TerminalKey, Decision> {
    var open := Unresolved(t, n.survivor);
    map key | key in open && (key in n.resolutions || OnRejected(t, n, key)) ::
      if key in n.resolutions then n.resolutions[key] else Reject
  }

  ghost function LeftOpen(t: Tables, n: Normalized): set<TerminalKey> {
    Unresolved(t, n.survivor) - Outcomes(t, n).Keys
  }

  ghost predicate Admits(t: Tables, n: Normalized, facts: seq<FactChange>, loops: seq<LoopChange>, author: Principal) {
    var open := Unresolved(t, n.survivor);
    && (AdoptedBy(t, n.survivor) != {} ==> n.acknowledgeRetired)
    && n.rejectLineages <= DivergentHeads(t, n.survivor)
    && (forall key :: key in n.resolutions ==> key in open && !OnRejected(t, n, key))
    && (forall key :: key in n.resolutions && n.resolutions[key].Accept? ==>
          AcceptAdmitted(t, key, n.resolutions[key].ordinal, facts, loops, author))
    && (forall key :: key in LeftOpen(t, n) ==> !Opaque(t, key) && !n.strict)
  }

  ghost function RecordOf(t: Tables, n: Normalized): ReconciliationRecord {
    ReconciliationRecord(
      n.expectedHeads, n.survivor, n.expectedHeads - {n.survivor}, n.expectedPointer, n.reason, n.strict,
      Outcomes(t, n), AdoptedBy(t, n.survivor),
      Counts(|OfKind(LeftOpen(t, n), Fact)|, |OfKind(LeftOpen(t, n), Loop)|))
  }
}
