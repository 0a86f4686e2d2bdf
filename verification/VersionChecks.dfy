/** verifyVersionParity of versions.ts, as the loops it is: true exactly when version parity holds. */
module VersionChecks {
  import opened Options
  import opened Types
  import opened Tree
  import opened Newest
  import opened ChangeLog
  import opened Verifiers
  import opened VersionFoundation
  import opened ReconcileChecks

  /** predecessorOwner's query: the latest earlier change of the loop, on any lineage. */
  method PredecessorOf(t: Tables, id: RowId, at: Tuple) returns (x: Option<Tuple>)
    requires TreeOk(t.snaps)
    ensures x.Some? ==> IsPredecessor(t.snaps, t.ledger, id, at, x.value)
    ensures x.None? ==> forall y :: !IsPredecessor(t.snaps, t.ledger, id, at, y)
  {
    hide TreeOk, Newer;
    var rows := set y | y in t.ledger && y.kind == Loop && t.ledger[y].id == id && Newer(t.snaps, at, y);
    NewerInScope(t, id, at, rows);
    var todo := rows;
    x := None;
    while todo != {}
      invariant todo <= rows
      invariant x.None? <==> todo == rows
      invariant x.Some? ==> x.value in rows && forall y :: y in rows - todo ==> !Newer(t.snaps, y, x.value)
      decreases todo
    {
      var y :| y in todo;
      ghost var seen := rows - todo;
      todo := todo - {y};
      assert rows - todo == seen + {y};
      NeverNewerThanItself(t.snaps, y);
      if x.None? || Newer(t.snaps, y, x.value) {
        ghost var best := x;
        forall z | best.Some? && z in seen ensures !Newer(t.snaps, z, y) {
          NewestReplaced(t.snaps, z, best.value, y);
        }
        x := Some(y);
      }
    }
  }

  lemma NewerInScope(t: Tables, id: RowId, at: Tuple, rows: set<Tuple>)
    requires rows == set y | y in t.ledger && y.kind == Loop && t.ledger[y].id == id && Newer(t.snaps, at, y)
    ensures forall y :: y in rows <==> TupleOn(t.ledger, t.snaps.Keys, Loop, id, y) && Newer(t.snaps, at, y)
  {
  }

  lemma NeverNewerThanItself(s: Snaps, y: Tuple)
    ensures !Newer(s, y, y)
  {
  }

  /** The owner immutable data pin down: the predecessor's version, unless unknowable history lies between. */
  method PredecessorOwner(t: Tables, id: RowId, at: Tuple) returns (owner: Option<string>)
    requires TreeOk(t.snaps) && at.state in t.snaps
    ensures owner == InheritedOwner(t, id, at)
  {
    hide TreeOk, GapBetween;
    var x := PredecessorOf(t, id, at);
    if x.None? {
      return None;
    }
    forall y | ProvenBy(t, id, at, y) ensures y == x.value {
      PredecessorsEqual(t, id, at, x.value, y);
    }
    var low, high := t.snaps[x.value.state].revision, t.snaps[at.state].revision;
    var gap := exists g :: g in t.snaps && t.snaps[g].digest.None? && low < t.snaps[g].revision < high;
    assert gap <==> GapBetween(t.snaps, low, high) by { GapMeaning(t.snaps, low, high); }
    var vk := VersionKey(id, x.value);
    if gap || vk !in t.versions || !t.versions[vk].value.LoopValue? {
      return None;
    }
    assert ProvenBy(t, id, at, x.value);
    PredecessorUnique(t, id, at, x.value);
    return Some(t.versions[vk].value.owner);
  }

  lemma GapMeaning(s: Snaps, low: nat, high: nat)
    ensures GapBetween(s, low, high) <==> exists g :: g in s && s[g].digest.None? && low < s[g].revision < high
  {
  }

  lemma PredecessorsEqual(t: Tables, id: RowId, at: Tuple, x: Tuple, y: Tuple)
    requires TreeOk(t.snaps)
    requires IsPredecessor(t.snaps, t.ledger, id, at, x) && IsPredecessor(t.snaps, t.ledger, id, at, y)
    ensures x == y
  {
    assert !Newer(t.snaps, x, y) && !Newer(t.snaps, y, x);
  }

  /** Deterministic expectation for one loop change. */
  method ExpectationOf(t: Tables, at: Tuple, c: LoopChange, row: Applied, source: Source) returns (e: LoopExpectation)
    requires TreeOk(t.snaps) && at.state in t.snaps
    ensures e == ExpectLoop(t, at, c, row, source)
  {
    hide TreeOk, InheritedOwner;
    if row.created {
      return ExpectOwner(Or(c.owner, t.snaps[at.state].author));
    }
    if Truthy(c.owner) {
      return ExpectOwner(c.owner.value);
    }
    var owner := PredecessorOwner(t, row.id, at);
    if owner.Some? {
      return ExpectOwner(owner.value);
    }
    return if source == ByWrite then AsRecorded else ExpectUnversioned;
  }

  method VerifyLoopVersion(t: Tables, x: Tuple, c: LoopChange) returns (ok: bool)
    requires TreeOk(t.snaps)
    ensures ok <==> LoopParity(t, x, c)
  {
    hide TreeOk, ExpectLoop;
    if x !in t.ledger || x !in t.coverage || x.state !in t.snaps {
      return false;
    }
    var snap, vk := t.snaps[x.state], VersionKey(t.ledger[x].id, x);
    var expected := ExpectationOf(t, x, c, t.ledger[x], t.coverage[x].source);
    match expected {
      case ExpectUnversioned =>
        return t.coverage[x].disposition == Unversioned && vk !in t.versions;
      case ExpectOwner(owner) =>
        return t.coverage[x].disposition == Materialized && vk in t.versions
          && t.versions[vk] == Version(LoopVersionValue(c, owner, snap.author, snap.recordedAt), snap.author,
                                       snap.recordedAt);
      case AsRecorded =>
        return t.coverage[x].disposition == Materialized && vk in t.versions && t.versions[vk].value.LoopValue?
          && t.versions[vk] == Version(LoopVersionValue(c, t.versions[vk].value.owner, snap.author, snap.recordedAt),
                                       snap.author, snap.recordedAt);
    }
  }

  method VerifyFactVersion(t: Tables, x: Tuple, c: FactChange) returns (ok: bool)
    ensures ok <==> FactParity(t, x, c)
  {
    if x !in t.ledger || x !in t.coverage || x.state !in t.snaps || t.coverage[x].disposition != Materialized {
      return false;
    }
    var snap, vk := t.snaps[x.state], VersionKey(t.ledger[x].id, x);
    return vk in t.versions && t.versions[vk] == Version(FactVersionValue(c), snap.author, snap.recordedAt);
  }

  /** assertLedgerAgreesWithEnvelope */
  method VerifyNames(snap: Snapshot) returns (ok: bool)
    ensures ok <==> NamesParity(snap)
  {
    if snap.digest.None? {
      return false;
    }
    var ch, env := snap.digest.value, snap.envelope;
    if |env.factChanges| != |ch.facts| || |env.loopChanges| != |ch.loops| {
      return false;
    }
    for i := 0 to |ch.facts|
      invariant forall o: nat :: o < i ==> NamesAgree(env.factChanges[o].factRef, ch.facts[o])
    {
      if !NamesAgree(env.factChanges[i].factRef, ch.facts[i]) {
        return false;
      }
    }
    for i := 0 to |ch.loops|
      invariant forall o: nat :: o < i ==> NamesAgree(env.loopChanges[o].loopRef, ch.loops[o])
    {
      if !NamesAgree(env.loopChanges[i].loopRef, ch.loops[i]) {
        return false;
      }
    }
    return true;
  }

  /** Coverage rows are the ledger's, with its ids and the source the backfill mark implies; no version row is extra. */
  method VerifyCoverage(t: Tables, a: StateId) returns (ok: bool)
    ensures ok <==> CoverageExact(t, a)
  {
    var expected := if a in t.backfilled then ByBackfill else ByWrite;
    ok := (forall x :: x in t.coverage && x.state == a ==> x in t.ledger)
      && (forall x :: x in t.ledger && x.state == a ==>
            x in t.coverage && t.coverage[x].id == t.ledger[x].id && t.coverage[x].source == expected)
      && (forall vk :: vk in t.versions && vk.tuple.state == a ==>
            vk.tuple in t.ledger && t.ledger[vk.tuple].id == vk.id);
  }

  /** A snapshot without a digest has no rows at all. */
  method VerifyBare(t: Tables, a: StateId) returns (ok: bool)
    ensures ok <==> Bare(t, a)
  {
    return (forall x :: x in t.ledger ==> x.state != a)
      && (forall x :: x in t.coverage ==> x.state != a)
      && (forall vk :: vk in t.versions ==> vk.tuple.state != a);
  }

  method VerifySnapshot(t: Tables, a: StateId) returns (ok: bool)
    requires TreeOk(t.snaps) && a in t.snaps
    ensures ok <==> SnapParity(t, a)
  {
    hide TreeOk, Bare, LedgerVerifies, CoverageExact, NamesParity, FactParity, LoopParity;
    var snap := t.snaps[a];
    if snap.digest.None? {
      ok := VerifyBare(t, a);
      return;
    }
    var read := ReadSnapshotChanges(t, a, true);
    RequiredRead(t, a);
    if read.LedgerFailed? {
      return false;
    }
    ok := VerifyNames(snap);
    if !ok {
      return;
    }
    ok := VerifyCoverage(t, a);
    if !ok {
      return;
    }
    for i := 0 to |snap.envelope.factChanges|
      invariant forall o: nat :: o < i ==> FactParity(t, Tuple(a, Fact, o), snap.envelope.factChanges[o])
    {
      ok := VerifyFactVersion(t, Tuple(a, Fact, i), snap.envelope.factChanges[i]);
      if !ok {
        return;
      }
    }
    for i := 0 to |snap.envelope.loopChanges|
      invariant forall o: nat :: o < i ==> LoopParity(t, Tuple(a, Loop, o), snap.envelope.loopChanges[o])
    {
      ok := VerifyLoopVersion(t, Tuple(a, Loop, i), snap.envelope.loopChanges[i]);
      if !ok {
        return;
      }
    }
    return true;
  }

  method VerifyVersionParity(t: Tables) returns (ok: bool)
    requires TreeOk(t.snaps)
    ensures ok <==> VersionParity(t)
  {
    hide TreeOk, SnapParity;
    var todo := t.snaps.Keys;
    while todo != {}
      invariant todo <= t.snaps.Keys
      invariant forall a :: a in t.snaps.Keys - todo ==> SnapParity(t, a)
      decreases todo
    {
      var a :| a in todo;
      todo := todo - {a};
      ok := VerifySnapshot(t, a);
      if !ok {
        return;
      }
    }
    return true;
  }
}
