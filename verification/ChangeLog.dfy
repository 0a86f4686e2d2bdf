/**
 Applying the fact and loop changes of a checkpoint to the in-place tables, which are
 last-writer-wins over the whole scope, and the version values the same changes record.
 */
module ChangeLog {
  import opened Options
  import opened Types

  // ----- Version values

  function FactVersionValue(c: FactChange): Value {
    FactValue(c.subject, c.predicate_, c.object_, c.status, c.effectiveAt,
              Refs(c.evidenceRefs, c.sourceRefs, Or(c.contradicts, [])))
  }

  function ClosingOf(c: LoopChange, author: Principal, now: Time): Option<CloseEvent> {
    if c.status == Closed then Some(CloseEvent(now, author, Or(c.closeOutcome, ""))) else None
  }

  function LoopVersionValue(c: LoopChange, owner: string, author: Principal, now: Time): Value {
    LoopValue(owner, c.status, c.nextAction, c.dueAt, c.blockedOn, ClosingOf(c, author, now))
  }

  /** The comparable form of a version: everything it stores, except a loop's close time and actor. */
  function Comparing(v: Value): Comparable {
    match v
    case FactValue(_, _, _, _, _, _) => ComparableFact(v)
    case LoopValue(owner, status, nextAction, dueAt, blockedOn, close) =>
      ComparableLoop(owner, status, nextAction, dueAt, blockedOn,
                     if close.Some? then Some(close.value.outcome) else None)
  }

  // ----- Facts

  function Elements(xs: seq<string>): set<string> {
    set x | x in xs
  }

  function FactRowOf(c: FactChange, author: Principal, now: Time): FactRow {
    FactRow(c.subject, c.predicate_, c.object_, c.status, author, now, c.effectiveAt,
            Elements(c.evidenceRefs), Elements(c.sourceRefs), Elements(Or(c.contradicts, [])))
  }

  datatype FactsApplied = FactsApplied(rows: Facts, out: seq<Applied>)

  /** The first n fact changes: an update of an unknown id refuses the whole checkpoint. */
  ghost function ApplyFacts(rows: Facts, cs: seq<FactChange>, ids: seq<RowId>, author: Principal, now: Time,
                            n: nat): Option<FactsApplied>
    requires n <= |cs| == |ids|
  {
    if n == 0 then Some(FactsApplied(rows, []))
    else
      var before := ApplyFacts(rows, cs, ids, author, now, n - 1);
      if before.None? then None
      else
        var c := cs[n - 1];
        if Truthy(c.factId) && c.factId.value !in before.value.rows then None
        else
          var id := if Truthy(c.factId) then c.factId.value else ids[n - 1];
          Some(FactsApplied(before.value.rows[id := FactRowOf(c, author, now)],
                            before.value.out + [Applied(id, !Truthy(c.factId))]))
  }

  // ----- Loops

  datatype LoopsApplied = LoopsApplied(rows: Loops, out: seq<Applied>, owners: seq<string>)

  /** Closing a loop without saying how is refused. */
  predicate LacksOutcome(c: LoopChange) {
    c.status == Closed && !Truthy(c.closeOutcome)
  }

  function UpdatedLoop(row: LoopRow, c: LoopChange, author: Principal, now: Time): LoopRow {
    LoopRow(Or(c.owner, row.owner), c.status, row.openedAt, now, c.dueAt, c.blockedOn, c.nextAction,
            ClosingOf(c, author, now), row.revision + 1)
  }

  function OpenedLoop(c: LoopChange, author: Principal, now: Time): LoopRow {
    LoopRow(Or(c.owner, author), c.status, now, now, c.dueAt, c.blockedOn, c.nextAction,
            ClosingOf(c, author, now), 0)
  }

  /** The first n loop changes, with the owner in effect after each of them. */
  ghost function ApplyLoops(rows: Loops, cs: seq<LoopChange>, ids: seq<RowId>, author: Principal, now: Time,
                            n: nat): Option<LoopsApplied>
    requires n <= |cs| == |ids|
  {
    if n == 0 then Some(LoopsApplied(rows, [], []))
    else
      var before := ApplyLoops(rows, cs, ids, author, now, n - 1);
      if before.None? || LacksOutcome(cs[n - 1]) then None
      else
        var c, b := cs[n - 1], before.value;
        if Truthy(c.loopId) then
          if c.loopId.value !in b.rows then None
          else
            var row := UpdatedLoop(b.rows[c.loopId.value], c, author, now);
            Some(LoopsApplied(b.rows[c.loopId.value := row], b.out + [Applied(c.loopId.value, false)],
                              b.owners + [row.owner]))
        else
          var row := OpenedLoop(c, author, now);
          Some(LoopsApplied(b.rows[ids[n - 1] := row], b.out + [Applied(ids[n - 1], true)], b.owners + [row.owner]))
  }

  // ----- What the two loops report and leave behind

  /** i is the last position of `out` that names `id`. */
  ghost predicate LastNaming(out: seq<Applied>, id: RowId, i: nat) {
    i < |out| && out[i].id == id && forall j :: i < j < |out| ==> out[j].id != id
  }

  ghost predicate Named(out: seq<Applied>, id: RowId) {
    exists i :: 0 <= i < |out| && out[i].id == id
  }

  lemma NamingSnoc(out: seq<Applied>, x: Applied, id: RowId)
    ensures Named(out + [x], id) <==> Named(out, id) || x.id == id
    ensures forall i: nat :: LastNaming(out + [x], id, i) <==>
      if x.id == id then i == |out| else LastNaming(out, id, i)
  {
    var out' := out + [x];
    assert out'[|out|] == x;
    assert forall j :: 0 <= j < |out| ==> out'[j] == out[j];
  }

  /** In-place fact row and version say the same thing (the row keeps reference lists as sets). */
  ghost predicate FactAgrees(row: FactRow, v: Version) {
    && v.value.FactValue?
    && row == FactRow(v.value.subject, v.value.predicate_, v.value.object_, v.value.factStatus, v.author, v.recordedAt,
                      v.value.effectiveAt, Elements(v.value.refs.evidence), Elements(v.value.refs.source),
                      Elements(v.value.refs.contradicts))
  }

  ghost predicate LoopAgrees(row: LoopRow, v: Version) {
    && v.value.LoopValue?
    && v.value == LoopValue(row.owner, row.status, row.nextAction, row.dueAt, row.blockedOn, row.close)
    && row.updatedAt == v.recordedAt
  }

  lemma {:induction false} FactsAppliedShape(rows: Facts, cs: seq<FactChange>, ids: seq<RowId>, author: Principal,
                                             now: Time, n: nat)
    requires n <= |cs| == |ids| && ApplyFacts(rows, cs, ids, author, now, n).Some?
    ensures var r := ApplyFacts(rows, cs, ids, author, now, n).value;
      && |r.out| == n
      && (forall i :: 0 <= i < n ==>
            r.out[i] == if Truthy(cs[i].factId) then Applied(cs[i].factId.value, false) else Applied(ids[i], true))
  {
    if n > 0 {
      FactsAppliedShape(rows, cs, ids, author, now, n - 1);
    }
  }

  /** Last writer wins: a row equals the version of the last change that names it. */
  lemma {:induction false} FactsAppliedRows(rows: Facts, cs: seq<FactChange>, ids: seq<RowId>, author: Principal,
                                            now: Time, n: nat, id: RowId)
    requires n <= |cs| == |ids| && ApplyFacts(rows, cs, ids, author, now, n).Some?
    ensures var r := ApplyFacts(rows, cs, ids, author, now, n).value;
      && |r.out| == n
      && (forall i: nat :: i < n && LastNaming(r.out, id, i) ==>
            id in r.rows && FactAgrees(r.rows[id], Version(FactVersionValue(cs[i]), author, now)))
      && (id in r.rows <==> id in rows || Named(r.out, id))
      && (!Named(r.out, id) && id in rows ==> r.rows[id] == rows[id])
  {
    if n > 0 {
      FactsAppliedRows(rows, cs, ids, author, now, n - 1, id);
      var b := ApplyFacts(rows, cs, ids, author, now, n - 1).value;
      var r := ApplyFacts(rows, cs, ids, author, now, n).value;
      NamingSnoc(b.out, r.out[|b.out|], id);
    }
  }

  lemma {:induction false} LoopsAppliedShape(rows: Loops, cs: seq<LoopChange>, ids: seq<RowId>, author: Principal,
                                             now: Time, n: nat)
    requires n <= |cs| == |ids| && ApplyLoops(rows, cs, ids, author, now, n).Some?
    ensures var r := ApplyLoops(rows, cs, ids, author, now, n).value;
      && |r.out| == n && |r.owners| == n
      && (forall i :: 0 <= i < n ==> !LacksOutcome(cs[i]))
      && (forall i :: 0 <= i < n ==>
            r.out[i] == if Truthy(cs[i].loopId) then Applied(cs[i].loopId.value, false) else Applied(ids[i], true))
  {
    if n > 0 {
      LoopsAppliedShape(rows, cs, ids, author, now, n - 1);
    }
  }

  lemma {:induction false} LoopsAppliedRows(rows: Loops, cs: seq<LoopChange>, ids: seq<RowId>, author: Principal,
                                            now: Time, n: nat, id: RowId)
    requires n <= |cs| == |ids| && ApplyLoops(rows, cs, ids, author, now, n).Some?
    ensures var r := ApplyLoops(rows, cs, ids, author, now, n).value;
      && |r.out| == n && |r.owners| == n
      && (forall i: nat :: i < n && LastNaming(r.out, id, i) ==>
            id in r.rows && LoopAgrees(r.rows[id],
                                       Version(LoopVersionValue(cs[i], r.owners[i], author, now), author, now)))
      && (id in r.rows <==> id in rows || Named(r.out, id))
      && (!Named(r.out, id) && id in rows ==> r.rows[id] == rows[id])
  {
    if n > 0 {
      LoopsAppliedRows(rows, cs, ids, author, now, n - 1, id);
      var b := ApplyLoops(rows, cs, ids, author, now, n - 1).value;
      var r := ApplyLoops(rows, cs, ids, author, now, n).value;
      NamingSnoc(b.out, r.out[|b.out|], id);
    }
  }

  /** The time a loop was opened is written once. */
  lemma {:induction false} OpenedOnce(rows: Loops, cs: seq<LoopChange>, ids: seq<RowId>, author: Principal, now: Time,
                                      n: nat, id: RowId)
    requires n <= |cs| && LoopIdsFresh(rows, cs, ids) && ApplyLoops(rows, cs, ids, author, now, n).Some?
    requires id in rows
    ensures var r := ApplyLoops(rows, cs, ids, author, now, n).value.rows;
      id in r && r[id].openedAt == rows[id].openedAt
  {
    if n > 0 {
      OpenedOnce(rows, cs, ids, author, now, n - 1, id);
    }
  }

  // ----- The owner a reconcile predicts is the owner the writer records

  /** The running owner of loop `id` after the first n changes, starting from `base`. */
  ghost function OwnerAfter(base: string, cs: seq<LoopChange>, id: RowId, n: nat): string
    requires n <= |cs|
  {
    if n == 0 then base
    else
      var owner := OwnerAfter(base, cs, id, n - 1);
      if cs[n - 1].loopId != Some(id) then owner else Or(cs[n - 1].owner, owner)
  }

  /** The in-place owner before the request, or the author, advanced by each change of the same loop up to `ordinal`. */
  ghost function EffectiveLoopOwnerAt(rows: Loops, cs: seq<LoopChange>, ordinal: nat, author: Principal): string
    requires ordinal < |cs| && cs[ordinal].loopId.Some?
  {
    var id := cs[ordinal].loopId.value;
    OwnerAfter(if id != "" && id in rows then rows[id].owner else author, cs, id, ordinal + 1)
  }

  ghost predicate FactIdsFresh(rows: Facts, cs: seq<FactChange>, ids: seq<RowId>) {
    && |ids| == |cs|
    && (forall i :: 0 <= i < |ids| ==> ids[i] != "" && ids[i] !in rows)
    && (forall i, j :: 0 <= i < |ids| && 0 <= j < |cs| ==> cs[j].factId != Some(ids[i]))
    && (forall i, j :: 0 <= i < j < |ids| ==> ids[i] != ids[j])
  }

  /** No UUID drawn for a new row is a row already, and none is named by the request. */
  ghost predicate LoopIdsFresh(rows: Loops, cs: seq<LoopChange>, ids: seq<RowId>) {
    && |ids| == |cs|
    && (forall i :: 0 <= i < |ids| ==> ids[i] != "" && ids[i] !in rows)
    && (forall i, j :: 0 <= i < |ids| && 0 <= j < |cs| ==> cs[j].loopId != Some(ids[i]))
    && (forall i, j :: 0 <= i < j < |ids| ==> ids[i] != ids[j])
  }

  lemma {:induction false} OwnersTracked(rows: Loops, cs: seq<LoopChange>, ids: seq<RowId>, author: Principal,
                                         now: Time, n: nat, id: RowId)
    requires n <= |cs| && LoopIdsFresh(rows, cs, ids) && ApplyLoops(rows, cs, ids, author, now, n).Some?
    requires id in rows && id != ""
    ensures var r := ApplyLoops(rows, cs, ids, author, now, n).value;
      id in r.rows && r.rows[id].owner == OwnerAfter(rows[id].owner, cs, id, n)
  {
    if n > 0 {
      OwnersTracked(rows, cs, ids, author, now, n - 1, id);
    }
  }

  /** No row appears but by an update of an old one or under a drawn UUID. */
  lemma {:induction false} RowsAreOldOrDrawn(rows: Loops, cs: seq<LoopChange>, ids: seq<RowId>, author: Principal,
                                             now: Time, n: nat, id: RowId)
    requires n <= |cs| && LoopIdsFresh(rows, cs, ids) && ApplyLoops(rows, cs, ids, author, now, n).Some?
    requires id in ApplyLoops(rows, cs, ids, author, now, n).value.rows
    ensures id in rows || id in ids
  {
    if n > 0 {
      var b := ApplyLoops(rows, cs, ids, author, now, n - 1).value;
      if id in b.rows {
        RowsAreOldOrDrawn(rows, cs, ids, author, now, n - 1, id);
      }
    }
  }

  lemma {:induction false} Prefix(rows: Loops, cs: seq<LoopChange>, ids: seq<RowId>, author: Principal, now: Time,
                                  m: nat, n: nat)
    requires m <= n <= |cs| == |ids| && ApplyLoops(rows, cs, ids, author, now, n).Some?
    ensures ApplyLoops(rows, cs, ids, author, now, m).Some?
    ensures |ApplyLoops(rows, cs, ids, author, now, m).value.owners| == m
    ensures ApplyLoops(rows, cs, ids, author, now, m).value.owners
         <= ApplyLoops(rows, cs, ids, author, now, n).value.owners
    decreases n
  {
    LoopsAppliedShape(rows, cs, ids, author, now, n);
    if m < n {
      Prefix(rows, cs, ids, author, now, m, n - 1);
    }
  }

  /**
   For every change list and every ordinal that updates a loop, the owner computed before any
   write is the owner applyLoopChanges really records.
   */
  lemma OwnerPrediction(rows: Loops, cs: seq<LoopChange>, ids: seq<RowId>, author: Principal, now: Time, n: nat, i: nat)
    requires i < n <= |cs| && LoopIdsFresh(rows, cs, ids) && ApplyLoops(rows, cs, ids, author, now, n).Some?
    requires Truthy(cs[i].loopId)
    ensures cs[i].loopId.value in rows
    ensures |ApplyLoops(rows, cs, ids, author, now, n).value.owners| == n
    ensures ApplyLoops(rows, cs, ids, author, now, n).value.owners[i] == EffectiveLoopOwnerAt(rows, cs, i, author)
  {
    hide ApplyLoops, LoopIdsFresh, OwnerAfter;
    var id := cs[i].loopId.value;
    NotDrawn(rows, cs, ids, i);
    Prefix(rows, cs, ids, author, now, i + 1, n);
    Prefix(rows, cs, ids, author, now, n, n);
    OwnerRecorded(rows, cs, ids, author, now, i);
    Prefix(rows, cs, ids, author, now, i, n);
    RowsAreOldOrDrawn(rows, cs, ids, author, now, i, id);
    OwnersTracked(rows, cs, ids, author, now, i + 1, id);
  }

  /** The owner recorded for an update is the row's owner right after it. */
  lemma OwnerRecorded(rows: Loops, cs: seq<LoopChange>, ids: seq<RowId>, author: Principal, now: Time, i: nat)
    requires i < |cs| == |ids| && ApplyLoops(rows, cs, ids, author, now, i + 1).Some? && Truthy(cs[i].loopId)
    ensures ApplyLoops(rows, cs, ids, author, now, i).Some?
    ensures cs[i].loopId.value in ApplyLoops(rows, cs, ids, author, now, i).value.rows
    ensures var r := ApplyLoops(rows, cs, ids, author, now, i + 1).value;
      cs[i].loopId.value in r.rows && |r.owners| == i + 1 && r.owners[i] == r.rows[cs[i].loopId.value].owner
  {
    LoopsAppliedShape(rows, cs, ids, author, now, i + 1);
    LoopsAppliedShape(rows, cs, ids, author, now, i);
  }

  lemma NotDrawn(rows: Loops, cs: seq<LoopChange>, ids: seq<RowId>, i: nat)
    requires i < |cs| && LoopIdsFresh(rows, cs, ids) && cs[i].loopId.Some?
    ensures |ids| == |cs| && cs[i].loopId.value !in ids
  {
  }
}
