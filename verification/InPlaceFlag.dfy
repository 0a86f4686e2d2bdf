/**
 isV1CurrentValue, the flag on a divergent value that is meant to tell whether the in-place view
 shows exactly this value: what it says of every divergent value, and exactly when it is right.
 */
module InPlaceFlag {
  import opened Options
  import opened Types
  import opened Tree
  import opened Newest
  import opened ChangeLog
  import opened Divergence
  import opened Verifiers
  import opened Invariants
  import opened Selection

  // ----- What the two views show

  /** What a view of a fact asserts; the order and repetition of references aside. */
  datatype FactSays = FactSays(
    subject: string, predicate_: string, object_: string, status: FactStatus, effectiveAt: Option<string>,
    evidence: set<string>, source: set<string>, contradicts: set<string>)

  /** The in-place view of a fact. */
  function FactRowSays(row: FactRow): FactSays {
    FactSays(row.subject, row.predicate_, row.object_, row.status, Shown(row.effectiveAt), row.evidence, row.source,
             row.contradicts)
  }

  /** A listed value of a fact, as it is shown. */
  function FactSaying(v: Value): FactSays
    requires v.FactValue?
  {
    FactSays(v.subject, v.predicate_, v.object_, v.factStatus, v.effectiveAt, Elements(v.refs.evidence),
             Elements(v.refs.source), Elements(v.refs.contradicts))
  }

  /** The in-place view of a loop, in the form listed values have. */
  function LoopRowSays(row: LoopRow): Value {
    LoopValue(row.owner, row.status, row.nextAction, Shown(row.dueAt), Shown(row.blockedOn), row.close)
  }

  /** Every optional text of a loop version is missing or not empty. */
  predicate NoEmptyTexts(v: Value) {
    v.LoopValue? ==> v.dueAt != Some("") && v.blockedOn != Some("")
  }

  // ----- Every divergent value

  lemma NewestOfItsSnapshot(t: Tables, key: TerminalKey, x: Tuple)
    requires TreeOk(t.snaps) && x.state == key.state && IsNewest(t.snaps, t.ledger, t.snaps.Keys, key.kind, key.id, x)
    ensures NewestOf(t.snaps, t.ledger, {key.state}, key.kind, key.id) == Some(x)
  {
    forall y | TupleOn(t.ledger, {key.state}, key.kind, key.id, y) ensures !Newer(t.snaps, y, x) {
      assert TupleOn(t.ledger, t.snaps.Keys, key.kind, key.id, y);
    }
    assert IsNewest(t.snaps, t.ledger, {key.state}, key.kind, key.id, x);
    NewestUnique(t.snaps, t.ledger, {key.state}, key.kind, key.id, x);
  }

  /** A divergent terminal is a change of the ledger, newest of its id in its snapshot. */
  lemma TerminalChange(t: Tables, head: StateId, key: TerminalKey)
    requires TreeOk(t.snaps) && RowsOk(t) && key in DivergentTerminals(t, head)
    ensures var x := NewestOf(t.snaps, t.ledger, {key.state}, key.kind, key.id);
      x.Some? && x.value in t.ledger && x.value.kind == key.kind && t.ledger[x.value].id == key.id
  {
    hide IsTerminal, CoverageOk, VersionsOk, RowsExist, LedgerVerifies;
    var x :| x in t.ledger && KeyOf(t.ledger, x) == key;
    assert TupleOn(t.ledger, {key.state}, key.kind, key.id, x);
    NewestExists(t.snaps, t.ledger, {key.state}, key.kind, key.id, x);
  }

  /** Its id has a row, a version of it is of its kind, and a fact always has one. */
  lemma TerminalRows(t: Tables, head: StateId, key: TerminalKey)
    requires TreeOk(t.snaps) && RowsOk(t) && key in DivergentTerminals(t, head)
    ensures if key.kind == Fact then key.id in t.facts else key.id in t.loops
    ensures key.kind == Fact ==> TerminalVersion(t, key).Some?
    ensures TerminalVersion(t, key).Some? ==> (TerminalVersion(t, key).value.value.FactValue? <==> key.kind == Fact)
  {
    hide LedgerOk, NewestOf, DivergentTerminals, TreeOk, CoverageOk, VersionsOk, RowsExist;
    TerminalChange(t, head, key);
    VersionedByKind(t, key.id, NewestOf(t.snaps, t.ledger, {key.state}, key.kind, key.id).value);
  }

  lemma VersionedByKind(t: Tables, id: RowId, x: Tuple)
    requires RowsOk(t) && x in t.ledger && t.ledger[x].id == id
    ensures if x.kind == Fact then id in t.facts else id in t.loops
    ensures x.kind == Fact ==> VersionKey(id, x) in t.versions
    ensures VersionKey(id, x) in t.versions ==> (t.versions[VersionKey(id, x)].value.FactValue? <==> x.kind == Fact)
  {
    hide LedgerOk;
  }

  /** A fact is flagged exactly when the in-place view asserts what the listed value asserts. */
  lemma FactFlagIff(t: Tables, head: StateId, key: TerminalKey)
    requires Inv(t) && key in DivergentTerminals(t, head) && key.kind == Fact
    ensures key.id in t.facts && key in DivergentValues(t, head)
    ensures var d := DivergentValues(t, head)[key];
      && d.value.Some? && d.value.value.value.FactValue?
      && (d.isV1CurrentValue <==> FactRowSays(t.facts[key.id]) == FactSaying(d.value.value.value))
  {
    hide TreeOk, KeysUnique, FingerprintsOk, RowsOk, InPlaceOk, PointerOk, RetirementsOk, RowsOwned, ReconcilesOk,
         DivergentTerminals, TerminalVersion, LineagesOf, Resolved, TerminalProvenance, Elements;
    TerminalRows(t, head, key);
  }

  /**
   A loop is flagged exactly when the two views compare equal, which close time and actor do not
   enter, and the stored version has no empty text; an opaque one never is.
   */
  lemma LoopFlagIff(t: Tables, head: StateId, key: TerminalKey)
    requires Inv(t) && key in DivergentTerminals(t, head) && key.kind == Loop
    ensures key.id in t.loops && key in DivergentValues(t, head)
    ensures var d, stored := DivergentValues(t, head)[key], TerminalVersion(t, key);
      && (d.value.Some? <==> stored.Some?) && (d.value.None? ==> !d.isV1CurrentValue)
      && (stored.Some? ==>
            && d.value.value.value.LoopValue?
            && (d.isV1CurrentValue <==>
                  Comparing(LoopRowSays(t.loops[key.id])) == Comparing(d.value.value.value) &&
                  NoEmptyTexts(stored.value.value)))
  {
    hide TreeOk, KeysUnique, FingerprintsOk, RowsOk, InPlaceOk, PointerOk, RetirementsOk, RowsOwned, ReconcilesOk,
         DivergentTerminals, TerminalVersion, LineagesOf, Resolved, TerminalProvenance;
    TerminalRows(t, head, key);
  }

  /**
   When the flag on a loop is right: unless the two views compare equal it always is, and then it
   is if and only if they agree on the close event just when the version has no empty text.
   */
  lemma LoopFlagRightIff(t: Tables, head: StateId, key: TerminalKey)
    requires Inv(t) && key in DivergentTerminals(t, head) && key.kind == Loop && TerminalVersion(t, key).Some?
    ensures key.id in t.loops && key in DivergentValues(t, head) && DivergentValues(t, head)[key].value.Some?
    ensures var row, d := t.loops[key.id], DivergentValues(t, head)[key];
      var v, stored := d.value.value.value, TerminalVersion(t, key).value.value;
      && v.LoopValue?
      && ((d.isV1CurrentValue <==> LoopRowSays(row) == v) <==>
          (Comparing(LoopRowSays(row)) == Comparing(v) ==> (row.close == v.close <==> NoEmptyTexts(stored))))
  {
    hide Inv, DivergentTerminals, TerminalVersion, DivergentValues, NoEmptyTexts;
    LoopFlagIff(t, head, key);
  }

  // ----- The last writer

  /**
   The last writer of an id over all lineages holds its in-place row, so a divergent terminal that
   is this last write is flagged: a fact always, a loop exactly when its due time and its blocker
   are not empty texts, which the in-place view drops and the version keeps.
   */
  lemma LastWriterIsV1Current(t: Tables, head: StateId, key: TerminalKey, x: Tuple)
    requires Inv(t) && key in DivergentTerminals(t, head)
    requires x.state == key.state && IsNewest(t.snaps, t.ledger, t.snaps.Keys, key.kind, key.id, x)
    requires !GapAfter(t.snaps, t.snaps[x.state].revision) && VersionKey(key.id, x) in t.versions
    ensures key in DivergentValues(t, head)
    ensures DivergentValues(t, head)[key].isV1CurrentValue <==> NoEmptyTexts(t.versions[VersionKey(key.id, x)].value)
  {
    hide TreeOk, KeysUnique, FingerprintsOk, RowsOk, PointerOk, RetirementsOk, RowsOwned, ReconcilesOk,
         DivergentTerminals, DivergentValues, Elements;
    NewestOfItsSnapshot(t, key, x);
    TerminalRows(t, head, key);
    assert TerminalVersion(t, key) == Some(t.versions[VersionKey(key.id, x)]);
    assert ListedAs(t, head, key) by { ListedValue(t, head, key); }
    if key.kind == Fact {
      FactFlagIff(t, head, key);
    } else {
      LoopFlagIff(t, head, key);
    }
    hide IsNewest, GapAfter, NewestOf;
  }

  ghost predicate ListedAs(t: Tables, head: StateId, key: TerminalKey) {
    && key in DivergentValues(t, head) && TerminalVersion(t, key).Some?
    && DivergentValues(t, head)[key].value == Some(ShownVersion(TerminalVersion(t, key).value))
  }

  lemma ListedValue(t: Tables, head: StateId, key: TerminalKey)
    requires key in DivergentTerminals(t, head) && TerminalVersion(t, key).Some?
    ensures ListedAs(t, head, key)
  {
    hide DivergentTerminals, TerminalVersion, LineagesOf, Resolved, TerminalProvenance, IsV1Current;
  }
}
