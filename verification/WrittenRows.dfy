/**
 The rows a written checkpoint leaves in every table, field by field from the request and the tables it
 met.
 */
module WrittenRows {
  import opened Options
  import opened Types
  import opened Tree
  import opened Heads
  import opened ChangeLog
  import opened Verifiers
  import opened Evaluation
  import opened Protocol
  import opened Invariants
  import opened Growth
  import opened Evidence
  import opened Runs
  import opened Reconciling
  import opened AppliedRows
  import opened Answers

  /** A checkpoint that wrote, in a state that satisfies the invariant. */
  ghost predicate Writes(t: Tables, p: Params, u: Uuids, now: Time, t': Tables) {
    Inv(t) && FreshUuids(t, p, u) && Step(t, p, u, now).0 == t' && Step(t, p, u, now).1.Written?
  }

  lemma WritesParts(t: Tables, p: Params, u: Uuids, now: Time, t': Tables)
    returns (parent: Option<StateId>, adm: Admitted, f: FactsApplied, l: LoopsApplied)
    requires Writes(t, p, u, now, t')
    ensures Wrote(t, p, u, now, t', parent, adm, f, l) && AdmittedBy(t, p, parent, adm)
    ensures adm.record.Some? <==> Asks(p, Reconcile)
  {
    hide AdmittedBy, Wrote, LoopIdsFresh, FactIdsFresh, Inv;
    parent, adm, f, l := StepWrote(t, p, u, now, t', Step(t, p, u, now).1);
    RecordIffReconcile(t, p, parent, adm);
    OperationIs(p);
  }

  lemma WritesSized(t: Tables, p: Params, u: Uuids, now: Time, t': Tables)
    requires Writes(t, p, u, now, t')
    ensures Sized(p, u)
  {
    hide Inv, Step, LoopIdsFresh, FactIdsFresh;
  }

  // ----- In-place rows

  lemma AppliedTables(t: Tables, p: Params, u: Uuids, now: Time, t': Tables, parent: Option<StateId>, adm: Admitted,
                      f: FactsApplied, l: LoopsApplied)
    requires Wrote(t, p, u, now, t', parent, adm, f, l)
    ensures FactIdsFresh(t.facts, p.factChanges, u.facts) && LoopIdsFresh(t.loops, p.loopChanges, u.loops)
    ensures ApplyFacts(t.facts, p.factChanges, u.facts, p.agent, now, |p.factChanges|) == Some(f) && t'.facts == f.rows
    ensures ApplyLoops(t.loops, p.loopChanges, u.loops, p.agent, now, |p.loopChanges|) == Some(l) && t'.loops == l.rows
    ensures t'.snaps.Keys == t.snaps.Keys + {u.state} && t'.snaps[u.state].digest == Some(Changes(f.out, l.out))
  {
    hide ApplyFacts, ApplyLoops, FactIdsFresh, LoopIdsFresh, FingerprintOf, LedgerRows, WrittenCoverage,
         WrittenVersions, RetirementRows, InputRows, RecordedResolutions, PointerAfterInsert;
  }

  /** The digest names, per change, the row it wrote and whether it opened it. */
  ghost predicate DigestSays(p: Params, u: Uuids, ch: Changes)
    requires Sized(p, u)
  {
    && |ch.facts| == |p.factChanges| && |ch.loops| == |p.loopChanges|
    && (forall i :: 0 <= i < |p.factChanges| ==>
          ch.facts[i] == if p.factChanges[i].factRef.Ref? && p.factChanges[i].factRef.id != ""
                         then Applied(p.factChanges[i].factRef.id, false) else Applied(u.facts[i], true))
    && (forall i :: 0 <= i < |p.loopChanges| ==>
          ch.loops[i] == if p.loopChanges[i].loopRef.Ref? && p.loopChanges[i].loopRef.id != ""
                         then Applied(p.loopChanges[i].loopRef.id, false) else Applied(u.loops[i], true))
  }

  lemma DigestIs(t: Tables, p: Params, u: Uuids, now: Time, t': Tables)
    requires Writes(t, p, u, now, t')
    ensures Sized(p, u) && u.state in t'.snaps && t'.snaps[u.state].digest.Some?
    ensures DigestSays(p, u, t'.snaps[u.state].digest.value)
  {
    hide Writes, Wrote, AdmittedBy, ApplyFacts, ApplyLoops, FactIdsFresh, LoopIdsFresh;
    WritesSized(t, p, u, now, t');
    var parent, adm, f, l := WritesParts(t, p, u, now, t');
    AppliedTables(t, p, u, now, t', parent, adm, f, l);
    FactsAppliedShape(t.facts, p.factChanges, u.facts, p.agent, now, |p.factChanges|);
    LoopsAppliedShape(t.loops, p.loopChanges, u.loops, p.agent, now, |p.loopChanges|);
  }

  /** Facts: the last change of each says what its row says; no other row changes, and none disappears. */
  lemma FactsWritten(t: Tables, p: Params, u: Uuids, now: Time, t': Tables, id: RowId)
    requires Writes(t, p, u, now, t')
    ensures |u.facts| == |p.factChanges|
    ensures forall i: nat :: LastOfFact(p.factChanges, u.facts, id, |p.factChanges|, i) ==>
      id in t'.facts && SaysFact(t'.facts[id], p.factChanges[i], p.agent, now)
    ensures (forall i :: 0 <= i < |p.factChanges| ==> NamedFact(p.factChanges, u.facts, i) != id) ==>
      (id in t'.facts <==> id in t.facts) && (id in t.facts ==> t'.facts[id] == t.facts[id])
  {
    hide Writes, Wrote, AdmittedBy, ApplyFacts, ApplyLoops, FactIdsFresh, LoopIdsFresh, LastOfFact, SaysFact,
         NamedFact;
    WritesSized(t, p, u, now, t');
    var parent, adm, f, l := WritesParts(t, p, u, now, t');
    AppliedTables(t, p, u, now, t', parent, adm, f, l);
    FactRowAfterAll(t.facts, p.factChanges, u.facts, p.agent, now, |p.factChanges|, id);
  }

  /** Loops that were there: what the last change of each says, the last owner given, and one count per change. */
  lemma LoopsUpdated(t: Tables, p: Params, u: Uuids, now: Time, t': Tables, id: RowId)
    requires Writes(t, p, u, now, t') && id in t.loops && id != ""
    ensures id in t'.loops
    ensures t'.loops[id].openedAt == t.loops[id].openedAt
    ensures t'.loops[id].revision == t.loops[id].revision + CountOfLoop(p.loopChanges, id, |p.loopChanges|)
    ensures forall i: nat :: LastOfLoop(p.loopChanges, id, |p.loopChanges|, i) ==>
      SaysLoop(t'.loops[id], p.loopChanges[i], p.agent, now)
    ensures (forall i :: 0 <= i < |p.loopChanges| ==> p.loopChanges[i].loopRef != Ref(id)) ==>
      t'.loops[id] == t.loops[id]
    ensures forall i: nat :: LastOwner(p.loopChanges, id, |p.loopChanges|, i) ==>
      t'.loops[id].owner == p.loopChanges[i].owner.value
    ensures (forall i :: 0 <= i < |p.loopChanges| ==>
               p.loopChanges[i].loopRef != Ref(id) || p.loopChanges[i].owner.None?) ==>
      t'.loops[id].owner == t.loops[id].owner
  {
    hide Writes, Wrote, AdmittedBy, ApplyFacts, ApplyLoops, FactIdsFresh, LoopIdsFresh, LastOfLoop, SaysLoop,
         LastOwner;
    WritesSized(t, p, u, now, t');
    var parent, adm, f, l := WritesParts(t, p, u, now, t');
    AppliedTables(t, p, u, now, t', parent, adm, f, l);
    UpdatedRow(t.loops, p.loopChanges, u.loops, p.agent, now, |p.loopChanges|, id);
    UpdatedOwner(t.loops, p.loopChanges, u.loops, p.agent, now, |p.loopChanges|, id);
  }

  /** Loops that were opened: under the UUID drawn for the change, by its owner or else the author, counted from 0. */
  lemma LoopsOpened(t: Tables, p: Params, u: Uuids, now: Time, t': Tables, i: nat)
    requires Writes(t, p, u, now, t') && i < |p.loopChanges|
    requires !(p.loopChanges[i].loopRef.Ref? && p.loopChanges[i].loopRef.id != "")
    ensures i < |u.loops| && u.loops[i] in t'.loops && u.loops[i] !in t.loops
    ensures var row := t'.loops[u.loops[i]];
      && SaysLoop(row, p.loopChanges[i], p.agent, now) && row.openedAt == now && row.revision == 0
      && row.owner == if p.loopChanges[i].owner.Some? then p.loopChanges[i].owner.value else p.agent
  {
    hide Writes, Wrote, AdmittedBy, ApplyFacts, ApplyLoops, FactIdsFresh, SaysLoop;
    WritesSized(t, p, u, now, t');
    var parent, adm, f, l := WritesParts(t, p, u, now, t');
    AppliedTables(t, p, u, now, t', parent, adm, f, l);
    OpenedRow(t.loops, p.loopChanges, u.loops, p.agent, now, |p.loopChanges|, i);
  }

  /** No loop appears but under a drawn UUID. */
  lemma NoOtherLoops(t: Tables, p: Params, u: Uuids, now: Time, t': Tables, id: RowId)
    requires Writes(t, p, u, now, t') && id in t'.loops
    ensures id in t.loops || id in u.loops
  {
    hide Writes, Wrote, AdmittedBy, ApplyFacts, ApplyLoops, FactIdsFresh, LoopIdsFresh;
    WritesSized(t, p, u, now, t');
    var parent, adm, f, l := WritesParts(t, p, u, now, t');
    AppliedTables(t, p, u, now, t', parent, adm, f, l);
    RowsAreOldOrDrawn(t.loops, p.loopChanges, u.loops, p.agent, now, |p.loopChanges|, id);
  }

  // ----- Ledger, coverage, versions

  /** A ledger and a coverage row per change of the digest of n; the rows of other snapshots stay. */
  ghost predicate RowsFollow(t: Tables, t': Tables, n: StateId, ch: Changes, x: Tuple) {
    var out := if x.kind == Fact then ch.facts else ch.loops;
    && (x.state == n ==>
          && (x in t'.ledger <==> x.ordinal < |out|) && (x in t'.coverage <==> x.ordinal < |out|)
          && (x.ordinal < |out| ==> t'.ledger[x] == out[x.ordinal] && t'.coverage[x].id == out[x.ordinal].id
                                    && t'.coverage[x].disposition == Materialized && t'.coverage[x].source == ByWrite))
    && (x.state != n ==>
          && (x in t'.ledger <==> x in t.ledger) && (x in t.ledger ==> t'.ledger[x] == t.ledger[x])
          && (x in t'.coverage <==> x in t.coverage) && (x in t.coverage ==> t'.coverage[x] == t.coverage[x]))
  }

  lemma LedgerWritten(t: Tables, p: Params, u: Uuids, now: Time, t': Tables, x: Tuple)
    requires Writes(t, p, u, now, t')
    ensures u.state in t'.snaps && t'.snaps[u.state].digest.Some?
    ensures RowsFollow(t, t', u.state, t'.snaps[u.state].digest.value, x)
    ensures t'.backfilled == t.backfilled
  {
    hide Writes, Wrote, AdmittedBy, LoopIdsFresh, FactIdsFresh, LedgerRows, RowsOk, ApplyFacts, ApplyLoops, RowsFor,
         RowsGrown, WrittenCoverage, RowsFollow;
    WritesRows(t, p, u, now, t');
    var parent, adm, f, l := WritesParts(t, p, u, now, t');
    AppliedTables(t, p, u, now, t', parent, adm, f, l);
    WroteRowsGrown(t, p, u, now, t', parent, adm, f, l);
    WroteEvidence(t, p, u, now, t', parent, adm, f, l);
    if x.state == u.state {
      NoOldRows(t, u.state, x);
    }
    RowsAppended(t, t', u.state, Changes(f.out, l.out), LedgerRows(u.state, Changes(f.out, l.out)), x);
  }

  lemma WritesRows(t: Tables, p: Params, u: Uuids, now: Time, t': Tables)
    requires Writes(t, p, u, now, t')
    ensures RowsOk(t) && TreeOk(t.snaps)
  {
    hide RowsOk, TreeOk, Step, FreshUuids;
  }

  lemma RowsAppended(t: Tables, t': Tables, n: StateId, ch: Changes, rows: Ledger, x: Tuple)
    requires RowsFor(rows, n, ch) && t'.ledger == t.ledger + rows && t'.coverage == t.coverage + WrittenCoverage(rows)
    requires x.state == n ==> x !in t.ledger && x !in t.coverage
    ensures RowsFollow(t, t', n, ch, x)
  {
  }

  lemma NoOldRows(t: Tables, n: StateId, x: Tuple)
    requires RowsOk(t) && n !in t.snaps && x.state == n
    ensures x !in t.ledger && x !in t.coverage
  {
    hide VersionsOk, RowsExist, LedgerVerifies;
  }

  /** What the version of a fact change holds: every field of the change, by the author, at the time. */
  ghost predicate FactVersionSays(v: Version, c: FactChange, author: Principal, now: Time) {
    && v.author == author && v.recordedAt == now && v.value.FactValue?
    && v.value.subject == c.subject && v.value.predicate_ == c.predicate_ && v.value.object_ == c.object_
    && v.value.factStatus == c.status && v.value.effectiveAt == c.effectiveAt
    && v.value.refs.evidence == c.evidenceRefs && v.value.refs.source == c.sourceRefs
    && v.value.refs.contradicts == (if c.contradicts.Some? then c.contradicts.value else [])
  }

  /** What the version of a loop change holds: the change, the owner in effect, and how it was closed. */
  ghost predicate LoopVersionSays(v: Version, c: LoopChange, owner: string, author: Principal, now: Time) {
    && v.author == author && v.recordedAt == now && v.value.LoopValue?
    && v.value.owner == owner && v.value.loopStatus == c.status && v.value.nextAction == c.nextAction
    && v.value.dueAt == c.dueAt && v.value.blockedOn == c.blockedOn
    && (c.status != Closed ==> v.value.close == None)
    && (c.status == Closed ==> v.value.close.Some? && v.value.close.value.closedAt == now
                               && v.value.close.value.closedBy == author
                               && Some(v.value.close.value.outcome) == c.closeOutcome)
  }

  /** The owner in effect after change o: given by it, or before it in the request, or held, or else the author. */
  ghost predicate OwnerInEffect(t: Tables, p: Params, o: nat, owner: string)
    requires o < |p.loopChanges|
  {
    var c := p.loopChanges[o];
    if c.loopRef.Ref? && c.loopRef.id != "" then
      && c.loopRef.id in t.loops
      && (forall i: nat :: LastOwner(p.loopChanges, c.loopRef.id, o + 1, i) ==> p.loopChanges[i].owner == Some(owner))
      && ((forall i :: 0 <= i <= o ==> p.loopChanges[i].loopRef != c.loopRef || p.loopChanges[i].owner.None?) ==>
            owner == t.loops[c.loopRef.id].owner)
    else owner == if c.owner.Some? then c.owner.value else p.agent
  }

  lemma FactVersionWritten(t: Tables, p: Params, u: Uuids, now: Time, t': Tables, o: nat)
    requires Writes(t, p, u, now, t') && o < |p.factChanges|
    ensures Sized(p, u)
    ensures var c := p.factChanges[o];
      var vk := VersionKey(if c.factRef.Ref? && c.factRef.id != "" then c.factRef.id else u.facts[o],
                           Tuple(u.state, Fact, o));
      vk in t'.versions && FactVersionSays(t'.versions[vk], c, p.agent, now)
  {
    hide Writes, Wrote, AdmittedBy, LoopIdsFresh, FactIdsFresh, RowsOk, ApplyFacts, ApplyLoops, FactVersionValue;
    WritesRows(t, p, u, now, t');
    WritesSized(t, p, u, now, t');
    var parent, adm, f, l := WritesParts(t, p, u, now, t');
    AppliedTables(t, p, u, now, t', parent, adm, f, l);
    FactsAppliedShape(t.facts, p.factChanges, u.facts, p.agent, now, |p.factChanges|);
    VersionWritten(t, p, u, now, t', parent, adm, f, l, f.out[o].id, Tuple(u.state, Fact, o));
    FactVersionFields(p.factChanges[o]);
  }

  lemma LoopVersionWritten(t: Tables, p: Params, u: Uuids, now: Time, t': Tables, o: nat)
    requires Writes(t, p, u, now, t') && o < |p.loopChanges|
    ensures Sized(p, u)
    ensures var c := p.loopChanges[o];
      var vk := VersionKey(if c.loopRef.Ref? && c.loopRef.id != "" then c.loopRef.id else u.loops[o],
                           Tuple(u.state, Loop, o));
      && vk in t'.versions && t'.versions[vk].value.LoopValue?
      && LoopVersionSays(t'.versions[vk], c, t'.versions[vk].value.owner, p.agent, now)
      && OwnerInEffect(t, p, o, t'.versions[vk].value.owner)
  {
    hide Writes, Wrote, AdmittedBy, LoopIdsFresh, FactIdsFresh, RowsOk, ApplyFacts, ApplyLoops, LoopVersionValue,
         OwnerInEffect;
    WritesRows(t, p, u, now, t');
    WritesSized(t, p, u, now, t');
    var parent, adm, f, l := WritesParts(t, p, u, now, t');
    AppliedTables(t, p, u, now, t', parent, adm, f, l);
    LoopsAppliedShape(t.loops, p.loopChanges, u.loops, p.agent, now, |p.loopChanges|);
    VersionWritten(t, p, u, now, t', parent, adm, f, l, l.out[o].id, Tuple(u.state, Loop, o));
    LoopVersionFields(p.loopChanges[o], l.owners[o], p.agent, now);
    OwnerRecordedFor(t, p, u, now, l, o);
    ClosesWithOutcome(t, p, u, now, l, o);
  }

  lemma ClosesWithOutcome(t: Tables, p: Params, u: Uuids, now: Time, l: LoopsApplied, o: nat)
    requires LoopIdsFresh(t.loops, p.loopChanges, u.loops) && o < |p.loopChanges|
    requires ApplyLoops(t.loops, p.loopChanges, u.loops, p.agent, now, |p.loopChanges|) == Some(l)
    ensures p.loopChanges[o].status == Closed ==> p.loopChanges[o].closeOutcome.Some?
  {
    LoopsApplyIff(t.loops, p.loopChanges, u.loops, p.agent, now, |p.loopChanges|);
    hide LoopIdsFresh, ApplyLoops;
  }

  lemma OwnerRecordedFor(t: Tables, p: Params, u: Uuids, now: Time, l: LoopsApplied, o: nat)
    requires LoopIdsFresh(t.loops, p.loopChanges, u.loops) && o < |p.loopChanges|
    requires ApplyLoops(t.loops, p.loopChanges, u.loops, p.agent, now, |p.loopChanges|) == Some(l)
    ensures o < |l.owners| && OwnerInEffect(t, p, o, l.owners[o])
  {
    var cs, c := p.loopChanges, p.loopChanges[o];
    NotDrawnSized(t.loops, cs, u.loops);
    hide ApplyLoops, LoopIdsFresh, LastOwner;
    Prefix(t.loops, cs, u.loops, p.agent, now, o + 1, |cs|);
    LoopsAppliedShape(t.loops, cs, u.loops, p.agent, now, |cs|);
    if c.loopRef.Ref? && c.loopRef.id != "" {
      OwnerPrediction(t.loops, cs, u.loops, p.agent, now, |cs|, o);
      LastOwnerCounts(t.loops[c.loopRef.id].owner, cs, c.loopRef.id, o + 1);
    } else {
      CreatedOwnerIs(t.loops, cs, u.loops, p.agent, now, o);
    }
  }

  lemma NotDrawnSized(rows: Loops, cs: seq<LoopChange>, ids: seq<RowId>)
    requires LoopIdsFresh(rows, cs, ids)
    ensures |ids| == |cs|
  {
  }

  lemma CreatedOwnerIs(rows: Loops, cs: seq<LoopChange>, ids: seq<RowId>, author: Principal, now: Time, o: nat)
    requires o < |cs| == |ids| && ApplyLoops(rows, cs, ids, author, now, o + 1).Some?
    requires !(cs[o].loopRef.Ref? && cs[o].loopRef.id != "")
    ensures var owners := ApplyLoops(rows, cs, ids, author, now, o + 1).value.owners;
      |owners| == o + 1 && owners[o] == if cs[o].owner.Some? then cs[o].owner.value else author
  {
    LoopsAppliedShape(rows, cs, ids, author, now, o);
  }

  /** The versions of the new snapshot are those of its changes, and no other version is touched. */
  lemma VersionsWritten(t: Tables, p: Params, u: Uuids, now: Time, t': Tables, vk: VersionKey)
    requires Writes(t, p, u, now, t')
    ensures vk.tuple.state == u.state ==>
      (vk in t'.versions <==> vk.tuple in t'.ledger && t'.ledger[vk.tuple].id == vk.id)
    ensures vk.tuple.state != u.state ==>
      (vk in t'.versions <==> vk in t.versions) && (vk in t.versions ==> t'.versions[vk] == t.versions[vk])
  {
    hide Writes, Wrote, AdmittedBy, LoopIdsFresh, FactIdsFresh, RowsOk, TreeOk, LedgerRows, RowsFor;
    WritesRows(t, p, u, now, t');
    var parent, adm, f, l := WritesParts(t, p, u, now, t');
    WroteRowsGrown(t, p, u, now, t', parent, adm, f, l);
    RowsOkKept(t, p, u, now, t', parent, adm, f, l);
    LedgerWritten(t, p, u, now, t', vk.tuple);
    VersionsAreRows(t', vk);
  }

  lemma VersionsAreRows(t: Tables, vk: VersionKey)
    requires RowsOk(t)
    ensures vk in t.versions <==> vk.tuple in t.ledger && vk.tuple in t.coverage && t.ledger[vk.tuple].id == vk.id
                                  && t.coverage[vk.tuple].disposition == Materialized
  {
    hide LedgerOk, RowsExist;
  }

  // ----- Pointer and reconcile rows

  /** Set by the first write, moved by a live pointed parent or a reconcile, to the new snapshot; else left. */
  ghost predicate PointerSays(t: Tables, p: Params, n: StateId, parent: Option<StateId>, now: Time,
                              q: Option<Pointer>) {
    if Asks(p, Reconcile) then IsPointer(q, n, now, p.agent, ByReconcile)
    else if t.pointer.None? then if parent.None? then IsPointer(q, n, now, p.agent, FirstWrite) else q == None
    else if parent == Some(t.pointer.value.state) && t.pointer.value.state !in t.retirements
            && (forall c :: c in t.snaps ==> t.snaps[c].parent != parent)
    then IsPointer(q, n, now, p.agent, Advance)
    else q == t.pointer
  }

  ghost predicate IsPointer(q: Option<Pointer>, n: StateId, now: Time, by_: Principal, reason: PointerReason) {
    q.Some? && q.value.state == n && q.value.advancedAt == now && q.value.advancedBy == by_ && q.value.reason == reason
  }

  lemma PointerWritten(t: Tables, p: Params, u: Uuids, now: Time, t': Tables)
    requires Writes(t, p, u, now, t')
    ensures u.state in t'.snaps && PointerSays(t, p, u.state, t'.snaps[u.state].parent, now, t'.pointer)
  {
    hide Writes, Wrote, AdmittedBy, LoopIdsFresh, FactIdsFresh;
    var parent, adm, f, l := WritesParts(t, p, u, now, t');
    SnapsAfter(t, p, u, now, t', parent, adm, f, l);
    WroteEvidence(t, p, u, now, t', parent, adm, f, l);
  }

  /** Retirements and merge inputs: none but those of a reconcile, one of each per other live head. */
  lemma RetirementsWritten(t: Tables, p: Params, u: Uuids, now: Time, t': Tables, h: StateId)
    requires Writes(t, p, u, now, t')
    ensures h in t.retirements ==> h in t'.retirements && t'.retirements[h] == t.retirements[h]
    ensures h !in t.retirements ==>
      && (h in t'.retirements <==> Asks(p, Reconcile) && IsLive(t, h) && h != p.survivor)
      && (h in t'.retirements ==> t'.retirements[h].retiredBy == u.state && t'.retirements[h].retiredAt == now
                                  && t'.retirements[h].actor == p.agent && t'.retirements[h].reason == p.reason)
    ensures forall a :: (a, h) in t'.inputs <==>
      (a, h) in t.inputs || (a == u.state && Asks(p, Reconcile) && IsLive(t, h) && h != p.survivor)
  {
    hide Writes, Wrote, AdmittedBy, LoopIdsFresh, FactIdsFresh, LiveHeads, IsLive, Asks, ReconcileAdmitted;
    var parent, adm, f, l := WritesParts(t, p, u, now, t');
    WroteEvidence(t, p, u, now, t', parent, adm, f, l);
    LiveUnretired(t);
    LiveIff(t, h);
    if adm.record.Some? {
      AdmittedReconcile(t, p, parent, adm);
      RecordAsked(t, p, parent, adm.record.value, Normalize(p).value);
    }
  }

  lemma RecordAsked(t: Tables, p: Params, parent: Option<StateId>, record: ReconciliationRecord, n: Normalized)
    requires ReconcileAdmitted(t, p, parent, record, n)
    ensures record.retired == LiveHeads(t) - {p.survivor} && record.reason == p.reason
  {
    RetiresAllButSurvivor(t, p, parent, record, n);
    hide EvidenceVerifies, Admits, LiveHeads, NormalizableRequest, ResolutionMap, Outcomes, LeftOpen, AdoptedBy;
  }
}
