/**
 The verifiers of reconcile.ts and checkpoint.ts that re-derive the stored evidence from the
 payload records, as the loops they are: each returns true exactly when its predicate holds.
 */
module ReconcileChecks {
  import opened Options
  import opened Types
  import opened Tree
  import opened Newest
  import opened ChangeLog
  import opened Divergence
  import opened Verifiers
  import opened ReconcileWalks

  // ----- readSnapshotChanges

  datatype LedgerRead = LedgerFailed | Unrecorded | Recorded(changes: Changes)

  /** What reading back the change ledger of snapshot `a` must answer. */
  ghost function LedgerReadOf(t: Tables, a: StateId, requireLedger: bool): LedgerRead
    requires a in t.snaps
  {
    var snap := t.snaps[a];
    if snap.digest.Some? then
      if LedgerVerifies(t.snaps, t.ledger, a) then Recorded(snap.digest.value) else LedgerFailed
    else if requireLedger || exists x :: x in t.ledger && x.state == a then LedgerFailed
    else if snap.envelope.factChanges == [] && snap.envelope.loopChanges == [] then Recorded(Changes([], []))
    else Unrecorded
  }

  function OrdinalsOf(l: Ledger, a: StateId, k: Kind): set<nat> {
    set x | x in l && x.state == a && x.kind == k :: x.ordinal
  }

  lemma {:induction false} DenseOrdinals(s: set<nat>, n: nat)
    requires |s| == n && forall i :: 0 <= i < n ==> i in s
    ensures forall i :: i in s ==> i < n
  {
    if n > 0 {
      if i :| i in s && i >= n {
        DenseShort(s - {i}, n);
      }
    } else {
      assert s == {};
    }
  }

  lemma {:induction false} DenseShort(s: set<nat>, n: nat)
    requires forall i :: 0 <= i < n ==> i in s
    ensures |s| >= n
    decreases n
  {
    if n > 0 {
      DenseShort(s - {n - 1}, n - 1);
    }
  }

  /** The ledger rows of one kind, in ordinal order; none if they are too few, too many, not contiguous or nameless. */
  method ReadRows(l: Ledger, a: StateId, k: Kind, expected: nat) returns (rows: Option<seq<Applied>>)
    ensures rows.Some? <==>
      && (forall o: nat :: Tuple(a, k, o) in l <==> o < expected)
      && (forall o: nat :: o < expected && Tuple(a, k, o) in l ==> l[Tuple(a, k, o)].id != "")
    ensures rows.Some? ==>
      |rows.value| == expected && forall o: nat :: o < expected ==> rows.value[o] == l[Tuple(a, k, o)]
  {
    var ordinals := OrdinalsOf(l, a, k);
    MeaningOfOrdinals(l, a, k);
    if |ordinals| != expected {
      if forall o: nat :: Tuple(a, k, o) in l <==> o < expected {
        DenseCount(ordinals, expected);
        assert false;
      }
      return None;
    }
    var out := [];
    for i := 0 to expected
      invariant |out| == i
      invariant forall o: nat :: o < i ==> o in ordinals && out[o] == l[Tuple(a, k, o)] && l[Tuple(a, k, o)].id != ""
    {
      if i !in ordinals || l[Tuple(a, k, i)].id == "" {
        return None;
      }
      out := out + [l[Tuple(a, k, i)]];
    }
    DenseOrdinals(ordinals, expected);
    return Some(out);
  }

  lemma MeaningOfOrdinals(l: Ledger, a: StateId, k: Kind)
    ensures forall o: nat :: o in OrdinalsOf(l, a, k) <==> Tuple(a, k, o) in l
  {
    forall o: nat ensures o in OrdinalsOf(l, a, k) <==> Tuple(a, k, o) in l {
      if Tuple(a, k, o) in l {
        assert Tuple(a, k, o).ordinal in OrdinalsOf(l, a, k);
      }
    }
  }

  lemma {:induction false} DenseCount(s: set<nat>, n: nat)
    requires forall i: nat :: i in s <==> i < n
    ensures |s| == n
  {
    if n > 0 {
      DenseCount(s - {n - 1}, n - 1);
    } else {
      assert s == {};
    }
  }

  /** Read a snapshot's ledger back and check it against its payload and digest, failing closed. */
  method ReadSnapshotChanges(t: Tables, a: StateId, requireLedger: bool) returns (r: LedgerRead)
    requires a in t.snaps
    ensures r == LedgerReadOf(t, a, requireLedger)
  {
    var snap := t.snaps[a];
    if (forall x :: x in t.ledger ==> x.state != a) && snap.digest.None? {
      if requireLedger {
        return LedgerFailed;
      }
      return if snap.envelope.factChanges == [] && snap.envelope.loopChanges == []
        then Recorded(Changes([], [])) else Unrecorded;
    }
    var facts := ReadRows(t.ledger, a, Fact, |snap.envelope.factChanges|);
    if facts.None? {
      return LedgerFailed;
    }
    var loops := ReadRows(t.ledger, a, Loop, |snap.envelope.loopChanges|);
    if loops.None? {
      return LedgerFailed;
    }
    var changes := Changes(facts.value, loops.value);
    if snap.digest != Some(changes) {
      if LedgerVerifies(t.snaps, t.ledger, a) {
        LedgerIsDigest(t, a, changes);
        assert false;
      }
      return LedgerFailed;
    }
    return Recorded(changes);
  }

  lemma RequiredRead(t: Tables, a: StateId)
    requires a in t.snaps
    ensures LedgerReadOf(t, a, true).LedgerFailed? <==> !LedgerVerifies(t.snaps, t.ledger, a)
  {
  }

  lemma LedgerIsDigest(t: Tables, a: StateId, ch: Changes)
    requires LedgerVerifies(t.snaps, t.ledger, a)
    requires |ch.facts| == |t.snaps[a].envelope.factChanges| && |ch.loops| == |t.snaps[a].envelope.loopChanges|
    requires forall o: nat :: o < |ch.facts| ==>
      Tuple(a, Fact, o) in t.ledger && ch.facts[o] == t.ledger[Tuple(a, Fact, o)]
    requires forall o: nat :: o < |ch.loops| ==>
      Tuple(a, Loop, o) in t.ledger && ch.loops[o] == t.ledger[Tuple(a, Loop, o)]
    ensures t.snaps[a].digest == Some(ch)
  {
    var d := t.snaps[a].digest.value;
    assert d.Of(Fact) == d.facts && d.Of(Loop) == d.loops;
    assert d.facts == ch.facts;
    assert d.loops == ch.loops;
  }

  // ----- verifyRetirementAttribution, verifyReconcileRowsScopeWide

  /** Row to payload, scope-wide, reading each reconcile payload once. */
  method VerifyRetirementAttribution(t: Tables) returns (ok: bool)
    ensures ok <==> RetirementAttribution(t)
  {
    var cache: map<StateId, Option<ReconciliationRecord>> := map[];
    var todo := t.retirements.Keys;
    while todo != {}
      invariant todo <= t.retirements.Keys
      invariant forall b :: b in cache ==> b in t.snaps && cache[b] == t.snaps[b].envelope.reconciliation
      invariant forall h :: h in t.retirements.Keys - todo ==> RecordsRetiring(t.snaps, t.retirements[h].retiredBy, h)
      decreases todo
    {
      var h :| h in todo;
      var by_ := t.retirements[h].retiredBy;
      if by_ !in t.snaps {
        return false;
      }
      if by_ !in cache {
        cache := cache[by_ := t.snaps[by_].envelope.reconciliation];
      }
      if cache[by_].None? || h !in cache[by_].value.retired {
        return false;
      }
      todo := todo - {h};
    }
    return true;
  }

  /** The merge-input and retirement rows attributed to one reconcile, against its payload record. */
  method VerifyRowsOf(t: Tables, a: StateId, record: ReconciliationRecord) returns (ok: bool)
    requires a in t.snaps
    ensures ok <==> RowsOf(t, a, record)
  {
    var inputs := set e | e in t.inputs && e.0 == a :: e.1;
    InputsMeaning(t, a, inputs);
    if inputs != record.retired {
      return false;
    }
    var retirements := set h | h in t.retirements && t.retirements[h].retiredBy == a;
    if retirements != record.retired {
      return false;
    }
    var todo := retirements;
    while todo != {}
      invariant todo <= retirements
      invariant forall h :: h in retirements - todo ==>
        t.retirements[h] == Retirement(a, t.snaps[a].recordedAt, t.snaps[a].author, record.reason)
      decreases todo
    {
      var h :| h in todo;
      var r := t.retirements[h];
      if r.actor != t.snaps[a].author || r.retiredAt != t.snaps[a].recordedAt || r.reason != record.reason {
        return false;
      }
      todo := todo - {h};
    }
    return true;
  }

  lemma InputsMeaning(t: Tables, a: StateId, inputs: set<StateId>)
    requires inputs == set e | e in t.inputs && e.0 == a :: e.1
    ensures forall i :: i in inputs <==> (a, i) in t.inputs
  {
    forall i ensures i in inputs <==> (a, i) in t.inputs {
      if (a, i) in t.inputs {
        assert (a, i).1 in inputs;
      }
    }
  }

  /** Payload to row for every reconcile of the scope, on or off the accepted lineage. */
  method VerifyReconcileRowsScopeWide(t: Tables) returns (ok: bool)
    ensures ok <==> RowsScopeWide(t)
  {
    hide RowsOf;
    var todo := t.snaps.Keys;
    while todo != {}
      invariant todo <= t.snaps.Keys
      invariant forall a :: a in t.snaps.Keys - todo && t.snaps[a].envelope.reconciliation.Some? ==>
        RowsOf(t, a, t.snaps[a].envelope.reconciliation.value)
      decreases todo
    {
      var a :| a in todo;
      todo := todo - {a};
      var record := t.snaps[a].envelope.reconciliation;
      if record.None? {
        continue;
      }
      var same := VerifyRowsOf(t, a, record.value);
      if !same {
        return false;
      }
    }
    return true;
  }

  // ----- verifyReconcileParity, verifyResolutionRowsOnLineage

  /** Every ledger row belongs to a snapshot, as its foreign key demands. */
  ghost predicate LedgerKeyed(t: Tables) {
    forall x :: x in t.ledger ==> x.state in t.snaps
  }

  lemma NewestOfOne(t: Tables, key: TerminalKey, x: Tuple)
    requires LedgerKeyed(t) && x in t.ledger && x.state == key.state && x.kind == key.kind && t.ledger[x].id == key.id
    requires forall y :: y in t.ledger && y.state == key.state && y.kind == key.kind && t.ledger[y].id == key.id ==>
      y.ordinal <= x.ordinal
    ensures NewestOf(t.snaps, t.ledger, {key.state}, key.kind, key.id) == Some(x)
  {
    assert IsNewest(t.snaps, t.ledger, {key.state}, key.kind, key.id, x);
    forall y | IsNewest(t.snaps, t.ledger, {key.state}, key.kind, key.id, y) ensures y == x {
      assert !Newer(t.snaps, x, y);
    }
  }

  /** comparableAtNewest: the version of the highest ordinal one snapshot has for the id. */
  method ComparableAtNewest(t: Tables, key: TerminalKey) returns (c: Option<Comparable>)
    requires LedgerKeyed(t)
    ensures c == ComparableNewest(t.snaps, t.ledger, t.versions, key)
  {
    var rows := set x | x in t.ledger && x.state == key.state && x.kind == key.kind && t.ledger[x].id == key.id;
    if rows == {} {
      NoNewest(t, key, rows);
      return None;
    }
    HasTop(rows);
    var x :| x in rows && forall y :: y in rows ==> y.ordinal <= x.ordinal;
    NewestOfOne(t, key, x);
    hide NewestOf;
    c := ComparableOfChange(t.versions, key.id, x);
  }

  lemma NoNewest(t: Tables, key: TerminalKey, rows: set<Tuple>)
    requires rows == {} == set x | x in t.ledger && x.state == key.state && x.kind == key.kind &&
      t.ledger[x].id == key.id
    ensures NewestOf(t.snaps, t.ledger, {key.state}, key.kind, key.id).None?
  {
    forall x ensures !IsNewest(t.snaps, t.ledger, {key.state}, key.kind, key.id, x) {
      assert x !in rows;
    }
  }

  /** comparableAt */
  method ComparableOfChange(v: Versions, id: RowId, x: Tuple) returns (c: Option<Comparable>)
    ensures c == ComparableAt(v, id, x)
  {
    if VersionKey(id, x) in v {
      return Some(Comparing(v[VersionKey(id, x)].value));
    }
    return None;
  }

  /** Retired snapshots among the rows of a chain. */
  method RetiredAmong(t: Tables, rows: seq<StateId>) returns (out: set<StateId>)
    ensures out == set a | a in t.retirements.Keys && a in rows
  {
    out := {};
    for i := 0 to |rows|
      invariant out == set a | a in t.retirements.Keys && a in rows[..i]
    {
      if rows[i] in t.retirements {
        out := out + {rows[i]};
      }
    }
    assert rows[..|rows|] == rows;
  }

  /** One accept: its own ledger row, no later change of the id, and the divergent value. */
  method VerifyAccept(t: Tables, a: StateId, key: TerminalKey, o: nat) returns (ok: bool)
    requires LedgerKeyed(t)
    ensures ok <==> AcceptBacked(t, a, key, o)
  {
    hide ComparableNewest, ComparableAt;
    var x := Tuple(a, key.kind, o);
    if x !in t.ledger || t.ledger[x].id != key.id {
      return false;
    }
    if exists y :: y in t.ledger && y.state == a && y.kind == key.kind && t.ledger[y].id == key.id && y.ordinal > o {
      ghost var y :| y in t.ledger && y.state == a && y.kind == key.kind && t.ledger[y].id == key.id && y.ordinal > o;
      assert TupleOn(t.ledger, {a}, key.kind, key.id, y);
      return false;
    }
    var own := ComparableOfChange(t.versions, key.id, x);
    var divergent := ComparableAtNewest(t, key);
    return own.Some? && divergent.Some? && own == divergent;
  }

  ghost predicate AcceptsOf(t: Tables, a: StateId, record: ReconciliationRecord, keys: set<TerminalKey>) {
    forall key :: key in keys && key in record.resolutions && record.resolutions[key].Accept? ==>
      AcceptBacked(t, a, key, record.resolutions[key].ordinal)
  }

  method VerifyAccepts(t: Tables, a: StateId, record: ReconciliationRecord) returns (ok: bool)
    requires LedgerKeyed(t)
    ensures ok <==> AcceptsOf(t, a, record, record.resolutions.Keys)
  {
    hide AcceptBacked;
    var todo := record.resolutions.Keys;
    while todo != {}
      invariant todo <= record.resolutions.Keys
      invariant AcceptsOf(t, a, record, record.resolutions.Keys - todo)
      decreases todo
    {
      var key :| key in todo;
      todo := todo - {key};
      match record.resolutions[key] {
        case Reject =>
        case Accept(o) =>
          var backed := VerifyAccept(t, a, key, o);
          if !backed {
            return false;
          }
      }
    }
    return true;
  }

  method VerifyResolutionRows(t: Tables, a: StateId, record: ReconciliationRecord) returns (ok: bool)
    ensures ok <==> ResolutionRows(t, a, record)
  {
    var rows := map rk | rk in t.resolutions && rk.resolvedBy == a :: rk.terminal := t.resolutions[rk];
    ResolutionRowsMeaning(t, a, rows);
    SameResolutionRows(t, a, record, rows);
    return rows == record.resolutions;
  }

  lemma ResolutionRowsMeaning(t: Tables, a: StateId, rows: map<TerminalKey, Decision>)
    requires rows == map rk | rk in t.resolutions && rk.resolvedBy == a :: rk.terminal := t.resolutions[rk]
    ensures forall key :: key in rows <==> ResolutionKey(key, a) in t.resolutions
    ensures forall key :: key in rows ==> rows[key] == t.resolutions[ResolutionKey(key, a)]
  {
    forall key ensures key in rows <==> ResolutionKey(key, a) in t.resolutions
      ensures key in rows ==> rows[key] == t.resolutions[ResolutionKey(key, a)]
    {
      if ResolutionKey(key, a) in t.resolutions {
        assert ResolutionKey(key, a).terminal in rows;
      }
    }
  }

  lemma SameResolutionRows(t: Tables, a: StateId, record: ReconciliationRecord, rows: map<TerminalKey, Decision>)
    requires forall key :: key in rows <==> ResolutionKey(key, a) in t.resolutions
    requires forall key :: key in rows ==> rows[key] == t.resolutions[ResolutionKey(key, a)]
    ensures rows == record.resolutions <==> ResolutionRows(t, a, record)
  {
    if ResolutionRows(t, a, record) {
      assert rows.Keys == record.resolutions.Keys;
    }
  }

  /** Exact parity between one reconcile's payload record and every row attributed to it. */
  method VerifyReconcileParity(t: Tables, a: StateId, record: ReconciliationRecord) returns (ok: bool)
    requires LedgerKeyed(t)
    ensures ok <==> ReconcileParity(t, a, record)
  {
    hide RowsOf, ResolutionRows, AcceptBacked, LedgerVerifies, LedgerKeyed;
    if a !in t.snaps || t.snaps[a].parent != Some(record.survivor) {
      return false;
    }
    var read := ReadSnapshotChanges(t, a, true);
    RequiredRead(t, a);
    if read.LedgerFailed? {
      return false;
    }
    var chain := LineageOf(t.snaps, record.survivor);
    var adopted := RetiredAmong(t, chain);
    assert adopted == AdoptedBy(t, record.survivor);
    if adopted != record.adoptedRetired {
      return false;
    }
    var same := VerifyRowsOf(t, a, record);
    if !same {
      return false;
    }
    var sameResolutions := VerifyResolutionRows(t, a, record);
    if !sameResolutions {
      return false;
    }
    var backed := VerifyAccepts(t, a, record);
    if !backed {
      return false;
    }
    return !(t.pointer.Some? && t.pointer.value.state == a && t.pointer.value.reason != ByReconcile);
  }

  /** A snapshot that is no reconcile: no row may be attributed to it. */
  method VerifyOwnsNoRows(t: Tables, a: StateId) returns (ok: bool)
    ensures ok <==> OwnsNoRows(t, a)
  {
    return (forall e :: e in t.inputs ==> e.0 != a)
      && (forall h :: h in t.retirements ==> t.retirements[h].retiredBy != a)
      && (forall rk :: rk in t.resolutions ==> rk.resolvedBy != a);
  }

  method VerifyResolutionRowsOnLineage(t: Tables, head: StateId) returns (ok: bool)
    requires LedgerKeyed(t)
    ensures ok <==> ResolutionRowsOnLineage(t, head)
  {
    hide ReconcileParity, OwnsNoRows, LedgerKeyed;
    var chain := LineageOf(t.snaps, head);
    assert forall a :: a in Ancestry(t.snaps, head) <==> a in chain;
    hide Ancestry;
    for i := 0 to |chain|
      invariant forall j :: 0 <= j < i ==> SnapReconcileOk(t, chain[j])
    {
      var record := t.snaps[chain[i]].envelope.reconciliation;
      var fine;
      if record.None? {
        fine := VerifyOwnsNoRows(t, chain[i]);
      } else {
        fine := VerifyReconcileParity(t, chain[i], record.value);
      }
      if !fine {
        assert !SnapReconcileOk(t, chain[i]);
        return false;
      }
    }
    return true;
  }
}
