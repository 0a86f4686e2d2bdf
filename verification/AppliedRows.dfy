/**
 What applying the changes of a checkpoint does to the in-place rows, field by field from the request:
 when the changes apply at all, and what each row then says.
 */
module AppliedRows {
  import opened Options
  import opened Types
  import opened ChangeLog

  // ----- When changes apply

  /** Every row named exists, and whatever is closed says how. */
  ghost predicate LoopChangesOk(rows: Loops, cs: seq<LoopChange>, n: nat)
    requires n <= |cs|
  {
    forall i :: 0 <= i < n ==>
      && (cs[i].status == Closed ==> cs[i].closeOutcome.Some? && cs[i].closeOutcome.value != "")
      && (cs[i].loopRef.Ref? && cs[i].loopRef.id != "" ==> cs[i].loopRef.id in rows)
  }

  ghost predicate FactChangesOk(rows: Facts, cs: seq<FactChange>, n: nat)
    requires n <= |cs|
  {
    forall i :: 0 <= i < n ==> cs[i].factRef.Ref? && cs[i].factRef.id != "" ==> cs[i].factRef.id in rows
  }

  lemma {:induction false} LoopsApplyIff(rows: Loops, cs: seq<LoopChange>, ids: seq<RowId>, author: Principal,
                                         now: Time, n: nat)
    requires n <= |cs| && LoopIdsFresh(rows, cs, ids)
    ensures ApplyLoops(rows, cs, ids, author, now, n).Some? <==> LoopChangesOk(rows, cs, n)
  {
    if n > 0 {
      assert |ids| == |cs|;
      hide ApplyLoops, LoopIdsFresh;
      LoopStep(rows, cs, ids, author, now, n);
      LoopsApplyIff(rows, cs, ids, author, now, n - 1);
      if ApplyLoops(rows, cs, ids, author, now, n - 1).Some? && cs[n - 1].loopRef.Ref? && cs[n - 1].loopRef.id != "" {
        LoopFound(rows, cs, ids, author, now, n - 1, cs[n - 1].loopRef.id);
      }
    }
  }

  lemma LoopStep(rows: Loops, cs: seq<LoopChange>, ids: seq<RowId>, author: Principal, now: Time, n: nat)
    requires 0 < n <= |cs| == |ids|
    ensures var before := ApplyLoops(rows, cs, ids, author, now, n - 1);
      var c := cs[n - 1];
      ApplyLoops(rows, cs, ids, author, now, n).Some? <==>
        && before.Some? && (c.status == Closed ==> c.closeOutcome.Some? && c.closeOutcome.value != "")
        && (c.loopRef.Ref? && c.loopRef.id != "" ==> c.loopRef.id in before.value.rows)
  {
  }

  /** An id the request names is a row in the middle exactly when it was one at the start. */
  lemma LoopFound(rows: Loops, cs: seq<LoopChange>, ids: seq<RowId>, author: Principal, now: Time, n: nat, id: RowId)
    requires n < |cs| && LoopIdsFresh(rows, cs, ids) && ApplyLoops(rows, cs, ids, author, now, n).Some?
    requires cs[n].loopRef == Ref(id)
    ensures id in ApplyLoops(rows, cs, ids, author, now, n).value.rows <==> id in rows
  {
    NotDrawn(rows, cs, ids, n);
    LoopsAppliedRows(rows, cs, ids, author, now, n, id);
    if id in ApplyLoops(rows, cs, ids, author, now, n).value.rows {
      RowsAreOldOrDrawn(rows, cs, ids, author, now, n, id);
    }
  }

  lemma {:induction false} FactsApplyIff(rows: Facts, cs: seq<FactChange>, ids: seq<RowId>, author: Principal,
                                         now: Time, n: nat)
    requires n <= |cs| && FactIdsFresh(rows, cs, ids)
    ensures ApplyFacts(rows, cs, ids, author, now, n).Some? <==> FactChangesOk(rows, cs, n)
  {
    if n > 0 {
      FactStep(rows, cs, ids, author, now, n);
      hide ApplyFacts;
      FactsApplyIff(rows, cs, ids, author, now, n - 1);
      if ApplyFacts(rows, cs, ids, author, now, n - 1).Some? && cs[n - 1].factRef.Ref? && cs[n - 1].factRef.id != "" {
        FactFound(rows, cs, ids, author, now, n - 1, cs[n - 1].factRef.id, n - 1);
      }
    }
  }

  lemma FactStep(rows: Facts, cs: seq<FactChange>, ids: seq<RowId>, author: Principal, now: Time, n: nat)
    requires 0 < n <= |cs| == |ids|
    ensures var before := ApplyFacts(rows, cs, ids, author, now, n - 1);
      var c := cs[n - 1];
      ApplyFacts(rows, cs, ids, author, now, n).Some? <==>
        before.Some? && (c.factRef.Ref? && c.factRef.id != "" ==> c.factRef.id in before.value.rows)
  {
  }

  lemma {:induction false} FactFound(rows: Facts, cs: seq<FactChange>, ids: seq<RowId>, author: Principal, now: Time,
                                     n: nat, id: RowId, i: nat)
    requires n <= i < |cs| && FactIdsFresh(rows, cs, ids) && ApplyFacts(rows, cs, ids, author, now, n).Some?
    requires cs[i].factRef == Ref(id)
    ensures id in ApplyFacts(rows, cs, ids, author, now, n).value.rows <==> id in rows
  {
    if n > 0 {
      FactFound(rows, cs, ids, author, now, n - 1, id, i);
      assert ids[n - 1] != id;
    }
  }

  // ----- Loop rows

  /** Change i is the last one that names the row. */
  ghost predicate LastOfLoop(cs: seq<LoopChange>, id: RowId, n: nat, i: nat)
    requires n <= |cs|
  {
    i < n && cs[i].loopRef == Ref(id) && forall j :: i < j < n ==> cs[j].loopRef != Ref(id)
  }

  ghost function CountOfLoop(cs: seq<LoopChange>, id: RowId, n: nat): nat
    requires n <= |cs|
  {
    if n == 0 then 0 else CountOfLoop(cs, id, n - 1) + if cs[n - 1].loopRef == Ref(id) then 1 else 0
  }

  /** What a row says after a change, but for its owner, its opening and its update counter. */
  ghost predicate SaysLoop(row: LoopRow, c: LoopChange, author: Principal, now: Time) {
    && row.status == c.status && row.nextAction == c.nextAction && row.updatedAt == now
    && row.dueAt == c.dueAt && row.blockedOn == c.blockedOn
    && (c.status != Closed ==> row.close == None)
    && (c.status == Closed ==> row.close.Some? && row.close.value.closedAt == now && row.close.value.closedBy == author
                               && Some(row.close.value.outcome) == c.closeOutcome)
  }

  /** The last owner given among the first n changes of the row, if any is. */
  ghost predicate LastOwner(cs: seq<LoopChange>, id: RowId, n: nat, i: nat)
    requires n <= |cs|
  {
    && i < n && cs[i].loopRef == Ref(id) && cs[i].owner.Some?
    && forall j :: i < j < n ==> cs[j].loopRef != Ref(id) || cs[j].owner.None?
  }

  /**
   A row that was there: its opening stays, its counter counts the changes that name it, and what it
   says is what the last of them says.
   */
  ghost predicate UpdatedBy(old_: LoopRow, row: LoopRow, cs: seq<LoopChange>, author: Principal, now: Time, n: nat,
                            id: RowId)
    requires n <= |cs|
  {
    && row.openedAt == old_.openedAt && row.revision == old_.revision + CountOfLoop(cs, id, n)
    && (forall i: nat :: LastOfLoop(cs, id, n, i) ==> SaysLoop(row, cs[i], author, now))
    && ((forall i :: 0 <= i < n ==> cs[i].loopRef != Ref(id)) ==> row == old_)
  }

  lemma {:induction false} UpdatedRow(rows: Loops, cs: seq<LoopChange>, ids: seq<RowId>, author: Principal, now: Time,
                                      n: nat, id: RowId)
    requires n <= |cs| && LoopIdsFresh(rows, cs, ids) && ApplyLoops(rows, cs, ids, author, now, n).Some?
    requires id in rows && id != ""
    ensures var r := ApplyLoops(rows, cs, ids, author, now, n).value.rows;
      id in r && UpdatedBy(rows[id], r[id], cs, author, now, n, id)
  {
    if n > 0 {
      LoopRowStep(rows, cs, ids, author, now, n, id);
      UpdatedRow(rows, cs, ids, author, now, n - 1, id);
      var b, r := ApplyLoops(rows, cs, ids, author, now, n - 1).value.rows,
                  ApplyLoops(rows, cs, ids, author, now, n).value.rows;
      hide ApplyLoops, LoopIdsFresh, SaysLoop, UpdatedBy;
      UpdatedOnce(rows[id], b[id], r[id], cs, author, now, n, id);
    }
  }

  lemma UpdatedOnce(old_: LoopRow, b: LoopRow, r: LoopRow, cs: seq<LoopChange>, author: Principal, now: Time, n: nat,
                    id: RowId)
    requires 0 < n <= |cs| && UpdatedBy(old_, b, cs, author, now, n - 1, id)
    requires cs[n - 1].loopRef != Ref(id) ==> r == b
    requires cs[n - 1].loopRef == Ref(id) ==>
      SaysLoop(r, cs[n - 1], author, now) && r.openedAt == b.openedAt && r.revision == b.revision + 1
    ensures UpdatedBy(old_, r, cs, author, now, n, id)
  {
    hide SaysLoop, LastOfLoop;
    LastLoopMoves(cs, id, n);
  }

  lemma LastLoopMoves(cs: seq<LoopChange>, id: RowId, n: nat)
    requires 0 < n <= |cs|
    ensures cs[n - 1].loopRef == Ref(id) ==> forall i: nat :: LastOfLoop(cs, id, n, i) <==> i == n - 1
    ensures cs[n - 1].loopRef != Ref(id) ==>
      forall i: nat :: LastOfLoop(cs, id, n, i) <==> LastOfLoop(cs, id, n - 1, i)
  {
  }

  /** Its owner is the last any of the changes gave, and else the one it had. */
  lemma UpdatedOwner(rows: Loops, cs: seq<LoopChange>, ids: seq<RowId>, author: Principal, now: Time, n: nat, id: RowId)
    requires n <= |cs| && LoopIdsFresh(rows, cs, ids) && ApplyLoops(rows, cs, ids, author, now, n).Some?
    requires id in rows && id != ""
    ensures var r := ApplyLoops(rows, cs, ids, author, now, n).value.rows;
      && id in r
      && (forall i: nat :: LastOwner(cs, id, n, i) ==> r[id].owner == cs[i].owner.value)
      && ((forall i :: 0 <= i < n ==> cs[i].loopRef != Ref(id) || cs[i].owner.None?) ==> r[id].owner == rows[id].owner)
  {
    OwnersTracked(rows, cs, ids, author, now, n, id);
    LastOwnerCounts(rows[id].owner, cs, id, n);
  }

  lemma {:induction false} LastOwnerCounts(base: string, cs: seq<LoopChange>, id: RowId, n: nat)
    requires n <= |cs|
    ensures forall i: nat :: LastOwner(cs, id, n, i) ==> OwnerAfter(base, cs, id, n) == cs[i].owner.value
    ensures (forall i :: 0 <= i < n ==> cs[i].loopRef != Ref(id) || cs[i].owner.None?) ==>
      OwnerAfter(base, cs, id, n) == base
  {
    if n > 0 {
      LastOwnerCounts(base, cs, id, n - 1);
      OwnerMoves(cs, id, n);
      assert cs[n - 1].loopRef == Ref(id) <==> cs[n - 1].loopId == Some(id);
    }
  }

  lemma OwnerMoves(cs: seq<LoopChange>, id: RowId, n: nat)
    requires 0 < n <= |cs|
    ensures cs[n - 1].loopRef == Ref(id) && cs[n - 1].owner.Some? ==>
      forall i: nat :: LastOwner(cs, id, n, i) <==> i == n - 1
    ensures cs[n - 1].loopRef != Ref(id) || cs[n - 1].owner.None? ==>
      forall i: nat :: LastOwner(cs, id, n, i) <==> LastOwner(cs, id, n - 1, i)
  {
  }

  /** One change: the row it names says what it says, and every other old row is untouched. */
  lemma LoopRowStep(rows: Loops, cs: seq<LoopChange>, ids: seq<RowId>, author: Principal, now: Time, n: nat, id: RowId)
    requires 0 < n <= |cs| && LoopIdsFresh(rows, cs, ids) && ApplyLoops(rows, cs, ids, author, now, n).Some?
    requires id in rows && id != ""
    ensures ApplyLoops(rows, cs, ids, author, now, n - 1).Some?
    ensures var b, r := ApplyLoops(rows, cs, ids, author, now, n - 1).value.rows,
                        ApplyLoops(rows, cs, ids, author, now, n).value.rows;
      id in b ==>
        && id in r && (cs[n - 1].loopRef != Ref(id) ==> r[id] == b[id])
        && (cs[n - 1].loopRef == Ref(id) ==>
              && SaysLoop(r[id], cs[n - 1], author, now)
              && r[id].openedAt == b[id].openedAt && r[id].revision == b[id].revision + 1)
  {
    assert ids[n - 1] != id;
  }

  /** A row that was opened: by change i, which names none, under the UUID drawn for it. */
  lemma {:induction false} OpenedRow(rows: Loops, cs: seq<LoopChange>, ids: seq<RowId>, author: Principal, now: Time,
                                     n: nat, i: nat)
    requires i < n <= |cs| && LoopIdsFresh(rows, cs, ids) && ApplyLoops(rows, cs, ids, author, now, n).Some?
    requires !(cs[i].loopRef.Ref? && cs[i].loopRef.id != "")
    ensures var r := ApplyLoops(rows, cs, ids, author, now, n).value.rows;
      && ids[i] in r && SaysLoop(r[ids[i]], cs[i], author, now)
      && r[ids[i]].openedAt == now && r[ids[i]].revision == 0
      && r[ids[i]].owner == (if cs[i].owner.Some? then cs[i].owner.value else author)
    decreases n
  {
    if i < n - 1 {
      OpenedRow(rows, cs, ids, author, now, n - 1, i);
      assert ids[n - 1] != ids[i];
    }
  }

  // ----- Fact rows

  ghost predicate LastOfFact(cs: seq<FactChange>, ids: seq<RowId>, id: RowId, n: nat, i: nat)
    requires n <= |cs| == |ids|
  {
    && i < n && NamedFact(cs, ids, i) == id
    && forall j :: i < j < n ==> NamedFact(cs, ids, j) != id
  }

  /** The row change i writes: the one it names, or the one drawn for it. */
  ghost function NamedFact(cs: seq<FactChange>, ids: seq<RowId>, i: nat): RowId
    requires i < |cs| == |ids|
  {
    if cs[i].factRef.Ref? && cs[i].factRef.id != "" then cs[i].factRef.id else ids[i]
  }

  /** What a fact row says after a change; its references are the listed ones, repetition aside. */
  ghost predicate SaysFact(row: FactRow, c: FactChange, author: Principal, now: Time) {
    && row.subject == c.subject && row.predicate_ == c.predicate_ && row.object_ == c.object_
    && row.status == c.status && row.author == author && row.recordedAt == now && row.effectiveAt == c.effectiveAt
    && (forall r :: r in row.evidence <==> r in c.evidenceRefs)
    && (forall r :: r in row.source <==> r in c.sourceRefs)
    && (forall r :: r in row.contradicts <==> c.contradicts.Some? && r in c.contradicts.value)
  }

  /** A row says what the last change of it says; rows no change names are as they were, and none disappears. */
  lemma {:induction false} FactRowAfterAll(rows: Facts, cs: seq<FactChange>, ids: seq<RowId>, author: Principal,
                                           now: Time, n: nat, id: RowId)
    requires n <= |cs| == |ids| && ApplyFacts(rows, cs, ids, author, now, n).Some?
    ensures var r := ApplyFacts(rows, cs, ids, author, now, n).value.rows;
      && (forall i: nat :: LastOfFact(cs, ids, id, n, i) ==> id in r && SaysFact(r[id], cs[i], author, now))
      && ((forall i :: 0 <= i < n ==> NamedFact(cs, ids, i) != id) ==>
            (id in r <==> id in rows) && (id in rows ==> r[id] == rows[id]))
      && (id in rows ==> id in r)
  {
    if n > 0 {
      FactRowStep(rows, cs, ids, author, now, n, id);
      LastMoves(cs, ids, id, n);
      hide ApplyFacts, SaysFact;
      FactRowAfterAll(rows, cs, ids, author, now, n - 1, id);
      hide NamedFact, LastOfFact;
    }
  }

  lemma FactRowStep(rows: Facts, cs: seq<FactChange>, ids: seq<RowId>, author: Principal, now: Time, n: nat, id: RowId)
    requires 0 < n <= |cs| == |ids| && ApplyFacts(rows, cs, ids, author, now, n).Some?
    ensures ApplyFacts(rows, cs, ids, author, now, n - 1).Some?
    ensures var b, r := ApplyFacts(rows, cs, ids, author, now, n - 1).value.rows,
                        ApplyFacts(rows, cs, ids, author, now, n).value.rows;
      if NamedFact(cs, ids, n - 1) == id then id in r && SaysFact(r[id], cs[n - 1], author, now)
      else (id in r <==> id in b) && (id in b ==> r[id] == b[id])
  {
  }

  lemma LastMoves(cs: seq<FactChange>, ids: seq<RowId>, id: RowId, n: nat)
    requires 0 < n <= |cs| == |ids|
    ensures NamedFact(cs, ids, n - 1) == id ==> forall i: nat :: LastOfFact(cs, ids, id, n, i) <==> i == n - 1
    ensures NamedFact(cs, ids, n - 1) != id ==>
      forall i: nat :: LastOfFact(cs, ids, id, n, i) <==> LastOfFact(cs, ids, id, n - 1, i)
  {
  }

  // ----- Versions

  /** A fact version holds every field of the change; a missing list of contradictions is an empty one. */
  lemma FactVersionFields(c: FactChange)
    ensures var v := FactVersionValue(c);
      && v.FactValue? && v.subject == c.subject && v.predicate_ == c.predicate_ && v.object_ == c.object_
      && v.factStatus == c.status && v.effectiveAt == c.effectiveAt
      && v.refs.evidence == c.evidenceRefs && v.refs.source == c.sourceRefs
      && v.refs.contradicts == (if c.contradicts.Some? then c.contradicts.value else [])
  {
  }

  /** A loop version holds the change, the owner in effect, and who closed the loop when and how. */
  lemma LoopVersionFields(c: LoopChange, owner: string, author: Principal, now: Time)
    ensures var v := LoopVersionValue(c, owner, author, now);
      && v.LoopValue? && v.owner == owner && v.loopStatus == c.status && v.nextAction == c.nextAction
      && v.dueAt == c.dueAt && v.blockedOn == c.blockedOn
      && (v.close.Some? <==> c.status == Closed)
      && (c.status == Closed ==> v.close.value.closedAt == now && v.close.value.closedBy == author)
      && (c.status == Closed && c.closeOutcome.Some? ==> v.close.value.outcome == c.closeOutcome.value)
  {
  }

  /** Two versions compare equal exactly when all they store agrees, but for a loop's close time and actor. */
  lemma ComparingIff(v: Value, w: Value)
    ensures Comparing(v) == Comparing(w) <==>
      || (v.FactValue? && w.FactValue? && v == w)
      || (v.LoopValue? && w.LoopValue? && v.owner == w.owner && v.loopStatus == w.loopStatus
          && v.nextAction == w.nextAction && v.dueAt == w.dueAt && v.blockedOn == w.blockedOn
          && (v.close.Some? <==> w.close.Some?)
          && (v.close.Some? && w.close.Some? ==> v.close.value.outcome == w.close.value.outcome))
  {
  }
}
