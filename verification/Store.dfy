/**
 The scope's database, updated in place. Every method states the whole new contents of the tables
 it touches; performCheckpoint is proved to be the atomic step of the specification.
 */
module Store {
  import opened Options
  import opened Types
  import opened Tree
  import opened Heads
  import opened ChangeLog
  import opened Verifiers
  import opened Protocol
  import opened Invariants
  import opened Growth
  import opened Runs
  import opened ReconcileChecks
  import opened CheckpointDecisions

  // ----- What the row-by-row inserts add up to

  lemma LedgerPrefixSnoc(a: StateId, k: Kind, out: seq<Applied>, n: nat)
    requires n < |out|
    ensures LedgerPrefix(a, k, out, n + 1) == LedgerPrefix(a, k, out, n)[Tuple(a, k, n) := out[n]]
  {
  }

  lemma LedgerStarts(base: Ledger, a: StateId, k: Kind, out: seq<Applied>)
    ensures base + LedgerPrefix(a, k, out, 0) == base
  {
    AddNothing(base, LedgerPrefix(a, k, out, 0));
  }

  /** One more row inserted after a prefix is the longer prefix inserted. */
  lemma LedgerInserted(base: Ledger, a: StateId, k: Kind, out: seq<Applied>, n: nat)
    requires n < |out|
    ensures (base + LedgerPrefix(a, k, out, n))[Tuple(a, k, n) := out[n]] == base + LedgerPrefix(a, k, out, n + 1)
  {
    hide LedgerPrefix;
    LedgerPrefixSnoc(a, k, out, n);
    AddThenPut(base, LedgerPrefix(a, k, out, n), Tuple(a, k, n), out[n]);
  }

  lemma AddThenPut<K, V>(m: map<K, V>, add: map<K, V>, k: K, v: V)
    ensures (m + add)[k := v] == m + add[k := v]
  {
  }

  lemma AddTwice<K, V>(m: map<K, V>, a: map<K, V>, b: map<K, V>)
    ensures m + a + b == m + (a + b)
  {
  }

  lemma AddNothing<K, V>(m: map<K, V>, none: map<K, V>)
    requires none == map[]
    ensures m + none == m
  {
  }

  /** The retirements of some of the heads a record retires, and likewise its resolutions. */
  ghost function RetirementsOf(record: ReconciliationRecord, heads: set<StateId>, a: StateId, by_: Principal,
                               now: Time): Retirements {
    map h | h in heads :: Retirement(a, now, by_, record.reason)
  }

  ghost function InputsOf(heads: set<StateId>, a: StateId): set<(StateId, StateId)> {
    set h | h in heads :: (a, h)
  }

  ghost function ResolutionsOf(record: ReconciliationRecord, keys: set<TerminalKey>,
                               a: StateId): map<ResolutionKey, Decision>
    requires keys <= record.resolutions.Keys
  {
    map key | key in keys :: ResolutionKey(key, a) := record.resolutions[key]
  }

  lemma OneMoreRetired(record: ReconciliationRecord, heads: set<StateId>, h: StateId, a: StateId, by_: Principal,
                       now: Time)
    ensures RetirementsOf(record, heads + {h}, a, by_, now) ==
      RetirementsOf(record, heads, a, by_, now)[h := Retirement(a, now, by_, record.reason)]
    ensures InputsOf(heads + {h}, a) == InputsOf(heads, a) + {(a, h)}
  {
  }

  lemma OneMoreResolved(record: ReconciliationRecord, keys: set<TerminalKey>, key: TerminalKey, a: StateId)
    requires keys <= record.resolutions.Keys && key in record.resolutions
    ensures ResolutionsOf(record, keys + {key}, a) ==
      ResolutionsOf(record, keys, a)[ResolutionKey(key, a) := record.resolutions[key]]
  {
  }

  lemma AllWritten(record: ReconciliationRecord, a: StateId, by_: Principal, now: Time)
    ensures RetirementsOf(record, record.retired, a, by_, now) == RetirementRows(Some(record), a, by_, now)
    ensures InputsOf(record.retired, a) == InputRows(Some(record), a)
    ensures ResolutionsOf(record, record.resolutions.Keys, a) == RecordedResolutions(Some(record), a)
    ensures RetirementsOf(record, {}, a, by_, now) == map[] && InputsOf({}, a) == {} &&
      ResolutionsOf(record, {}, a) == map[]
  {
  }

  ghost function CoveragePrefix(a: StateId, k: Kind, out: seq<Applied>, n: nat): CoverageRows
    requires n <= |out|
  {
    map o: nat | o < n :: Tuple(a, k, o) := Coverage(out[o].id, Materialized, ByWrite)
  }

  lemma CoveragePrefixSnoc(a: StateId, k: Kind, out: seq<Applied>, n: nat)
    requires n < |out|
    ensures CoveragePrefix(a, k, out, n + 1) ==
      CoveragePrefix(a, k, out, n)[Tuple(a, k, n) := Coverage(out[n].id, Materialized, ByWrite)]
  {
  }

  lemma FactVersionsSnoc(a: StateId, out: seq<Applied>, cs: seq<FactChange>, by_: Principal, now: Time, n: nat)
    requires n < |out| == |cs|
    ensures FactVersionsPrefix(a, out, cs, by_, now, n + 1) ==
      FactVersionsPrefix(a, out, cs, by_, now, n)[VersionKey(out[n].id, Tuple(a, Fact, n)) :=
        Version(FactVersionValue(cs[n]), by_, now)]
  {
  }

  lemma LoopVersionsSnoc(a: StateId, out: seq<Applied>, cs: seq<LoopChange>, owners: seq<string>, by_: Principal,
                         now: Time, n: nat)
    requires n < |out| == |cs| == |owners|
    ensures LoopVersionsPrefix(a, out, cs, owners, by_, now, n + 1) ==
      LoopVersionsPrefix(a, out, cs, owners, by_, now, n)[VersionKey(out[n].id, Tuple(a, Loop, n)) :=
        Version(LoopVersionValue(cs[n], owners[n], by_, now), by_, now)]
  {
  }

  lemma NothingInserted(a: StateId, k: Kind, out: seq<Applied>, fs: seq<FactChange>, ls: seq<LoopChange>,
                        owners: seq<string>, by_: Principal, now: Time)
    ensures CoveragePrefix(a, k, out, 0) == map[]
    ensures |out| == |fs| ==> FactVersionsPrefix(a, out, fs, by_, now, 0) == map[]
    ensures |out| == |ls| == |owners| ==> LoopVersionsPrefix(a, out, ls, owners, by_, now, 0) == map[]
  {
  }

  lemma CoverageIsPrefixes(a: StateId, ch: Changes)
    ensures WrittenCoverage(LedgerRows(a, ch)) ==
      CoveragePrefix(a, Fact, ch.facts, |ch.facts|) + CoveragePrefix(a, Loop, ch.loops, |ch.loops|)
  {
  }

  lemma NoRecordRows(record: Option<ReconciliationRecord>, a: StateId, by_: Principal, now: Time)
    ensures record.None? ==>
      InputRows(record, a) == {} && RetirementRows(record, a, by_, now) == map[] &&
        RecordedResolutions(record, a) == map[]
  {
  }

  class ScopeStore {
    var snaps: Snaps
    var pointer: Option<Pointer>
    var retirements: Retirements
    var inputs: set<(StateId, StateId)>
    var resolutions: map<ResolutionKey, Decision>
    var ledger: Ledger
    var coverage: CoverageRows
    var versions: Versions
    var backfilled: set<StateId>
    var facts: Facts
    var loops: Loops

    function Db(): Tables
      reads this
    {
      Tables(snaps, pointer, retirements, inputs, resolutions, ledger, coverage, versions, backfilled, facts, loops)
    }

    /** A scope as this protocol finds it: empty, or with legacy history. */
    constructor (t: Tables)
      requires Legacy(t)
      ensures Db() == t
    {
      snaps, pointer, retirements, inputs, resolutions := t.snaps, t.pointer, t.retirements, t.inputs, t.resolutions;
      ledger, coverage, versions, backfilled := t.ledger, t.coverage, t.versions, t.backfilled;
      facts, loops := t.facts, t.loops;
    }

    /** The rollback of the transaction. */
    method Restore(t: Tables)
      modifies this
      ensures Db() == t
    {
      snaps := t.snaps;
      pointer := t.pointer;
      retirements := t.retirements;
      inputs := t.inputs;
      resolutions := t.resolutions;
      ledger := t.ledger;
      coverage := t.coverage;
      versions := t.versions;
      backfilled := t.backfilled;
      facts := t.facts;
      loops := t.loops;
    }

    /** applyFactChanges: update an existing row or insert one, last writer wins; none on an unknown id. */
    method ApplyFactChanges(author: Principal, now: Time, changes: seq<FactChange>, ids: seq<RowId>)
      returns (out: Option<seq<Applied>>)
      requires |ids| == |changes|
      modifies this`facts
      ensures out.Some? <==> ApplyFacts(old(facts), changes, ids, author, now, |changes|).Some?
      ensures out.Some? ==>
        Some(FactsApplied(facts, out.value)) == ApplyFacts(old(facts), changes, ids, author, now, |changes|)
    {
      var applied := [];
      for i := 0 to |changes|
        invariant ApplyFacts(old(facts), changes, ids, author, now, i) == Some(FactsApplied(facts, applied))
      {
        var change := changes[i];
        var id := if Truthy(change.factId) then change.factId.value else ids[i];
        if Truthy(change.factId) {
          if id !in facts {
            FactsStayRefused(old(facts), changes, ids, author, now, i + 1, |changes|);
            return None;
          }
        }
        facts := facts[id := FactRowOf(change, author, now)];
        applied := applied + [Applied(id, !Truthy(change.factId))];
      }
      return Some(applied);
    }

    /** applyLoopChanges, with the owner in effect after each change. */
    method ApplyLoopChanges(author: Principal, now: Time, changes: seq<LoopChange>, ids: seq<RowId>)
      returns (out: Option<(seq<Applied>, seq<string>)>)
      requires |ids| == |changes|
      modifies this`loops
      ensures out.Some? <==> ApplyLoops(old(loops), changes, ids, author, now, |changes|).Some?
      ensures out.Some? ==>
        Some(LoopsApplied(loops, out.value.0, out.value.1)) ==
          ApplyLoops(old(loops), changes, ids, author, now, |changes|)
    {
      var applied, owners := [], [];
      for i := 0 to |changes|
        invariant ApplyLoops(old(loops), changes, ids, author, now, i) == Some(LoopsApplied(loops, applied, owners))
      {
        var change := changes[i];
        if LacksOutcome(change) {
          LoopsStayRefused(old(loops), changes, ids, author, now, i + 1, |changes|);
          return None;
        }
        if Truthy(change.loopId) {
          var id := change.loopId.value;
          if id !in loops {
            LoopsStayRefused(old(loops), changes, ids, author, now, i + 1, |changes|);
            return None;
          }
          loops := loops[id := UpdatedLoop(loops[id], change, author, now)];
          applied := applied + [Applied(id, false)];
          owners := owners + [loops[id].owner];
        } else {
          loops := loops[ids[i] := OpenedLoop(change, author, now)];
          applied := applied + [Applied(ids[i], true)];
          owners := owners + [loops[ids[i]].owner];
        }
      }
      return Some((applied, owners));
    }

    method InsertLedgerRows(a: StateId, k: Kind, out: seq<Applied>)
      modifies this`ledger
      ensures ledger == old(ledger) + LedgerPrefix(a, k, out, |out|)
    {
      hide LedgerPrefix;
      LedgerStarts(ledger, a, k, out);
      for i := 0 to |out|
        invariant ledger == old(ledger) + LedgerPrefix(a, k, out, i)
      {
        LedgerInserted(old(ledger), a, k, out, i);
        ledger := ledger[Tuple(a, k, i) := out[i]];
      }
    }

    /** recordSnapshotChanges: one ledger row per change, and their digest on the snapshot. */
    method RecordSnapshotChanges(a: StateId, ch: Changes)
      requires a in snaps
      modifies this`ledger, this`snaps
      ensures ledger == old(ledger) + LedgerRows(a, ch)
      ensures snaps == old(snaps)[a := old(snaps[a]).(digest := Some(ch))]
    {
      hide LedgerPrefix;
      InsertLedgerRows(a, Fact, ch.facts);
      InsertLedgerRows(a, Loop, ch.loops);
      AddTwice(old(ledger), LedgerPrefix(a, Fact, ch.facts, |ch.facts|), LedgerPrefix(a, Loop, ch.loops, |ch.loops|));
      snaps := snaps[a := snaps[a].(digest := Some(ch))];
    }

    method InsertFactVersions(a: StateId, out: seq<Applied>, cs: seq<FactChange>, by_: Principal, now: Time)
      requires |out| == |cs|
      modifies this`coverage, this`versions
      ensures coverage == old(coverage) + CoveragePrefix(a, Fact, out, |out|)
      ensures versions == old(versions) + FactVersionsPrefix(a, out, cs, by_, now, |out|)
    {
      hide CoveragePrefix, FactVersionsPrefix;
      NothingInserted(a, Fact, out, cs, [], [], by_, now);
      AddNothing(coverage, CoveragePrefix(a, Fact, out, 0));
      AddNothing(versions, FactVersionsPrefix(a, out, cs, by_, now, 0));
      for i := 0 to |out|
        invariant coverage == old(coverage) + CoveragePrefix(a, Fact, out, i)
        invariant versions == old(versions) + FactVersionsPrefix(a, out, cs, by_, now, i)
      {
        var x := Tuple(a, Fact, i);
        var row, version := Coverage(out[i].id, Materialized, ByWrite), Version(FactVersionValue(cs[i]), by_, now);
        CoveragePrefixSnoc(a, Fact, out, i);
        FactVersionsSnoc(a, out, cs, by_, now, i);
        AddThenPut(old(coverage), CoveragePrefix(a, Fact, out, i), x, row);
        AddThenPut(old(versions), FactVersionsPrefix(a, out, cs, by_, now, i), VersionKey(out[i].id, x), version);
        coverage := coverage[x := row];
        versions := versions[VersionKey(out[i].id, x) := version];
      }
    }

    method InsertLoopVersions(a: StateId, out: seq<Applied>, cs: seq<LoopChange>, owners: seq<string>, by_: Principal,
                              now: Time)
      requires |out| == |cs| == |owners|
      modifies this`coverage, this`versions
      ensures coverage == old(coverage) + CoveragePrefix(a, Loop, out, |out|)
      ensures versions == old(versions) + LoopVersionsPrefix(a, out, cs, owners, by_, now, |out|)
    {
      hide CoveragePrefix, LoopVersionsPrefix;
      NothingInserted(a, Loop, out, [], cs, owners, by_, now);
      AddNothing(coverage, CoveragePrefix(a, Loop, out, 0));
      AddNothing(versions, LoopVersionsPrefix(a, out, cs, owners, by_, now, 0));
      for i := 0 to |out|
        invariant coverage == old(coverage) + CoveragePrefix(a, Loop, out, i)
        invariant versions == old(versions) + LoopVersionsPrefix(a, out, cs, owners, by_, now, i)
      {
        var x := Tuple(a, Loop, i);
        var row, version := Coverage(out[i].id, Materialized, ByWrite),
          Version(LoopVersionValue(cs[i], owners[i], by_, now), by_, now);
        CoveragePrefixSnoc(a, Loop, out, i);
        LoopVersionsSnoc(a, out, cs, owners, by_, now, i);
        AddThenPut(old(coverage), CoveragePrefix(a, Loop, out, i), x, row);
        AddThenPut(old(versions), LoopVersionsPrefix(a, out, cs, owners, by_, now, i), VersionKey(out[i].id, x),
                   version);
        coverage := coverage[x := row];
        versions := versions[VersionKey(out[i].id, x) := version];
      }
    }

    /** writeVersionRows: one materialized coverage row and one exact version per change. */
    method WriteVersionRows(a: StateId, p: Params, ch: Changes, owners: seq<string>, now: Time)
      requires |ch.facts| == |p.factChanges| && |ch.loops| == |p.loopChanges| == |owners|
      modifies this`coverage, this`versions
      ensures coverage == old(coverage) + WrittenCoverage(LedgerRows(a, ch))
      ensures versions == old(versions) + WrittenVersions(a, ch, p, owners, now)
    {
      hide CoveragePrefix, FactVersionsPrefix, LoopVersionsPrefix, LedgerRows, WrittenCoverage;
      InsertFactVersions(a, ch.facts, p.factChanges, p.agent, now);
      InsertLoopVersions(a, ch.loops, p.loopChanges, owners, p.agent, now);
      AddTwice(old(coverage), CoveragePrefix(a, Fact, ch.facts, |ch.facts|),
               CoveragePrefix(a, Loop, ch.loops, |ch.loops|));
      AddTwice(old(versions), FactVersionsPrefix(a, ch.facts, p.factChanges, p.agent, now, |ch.facts|),
               LoopVersionsPrefix(a, ch.loops, p.loopChanges, owners, p.agent, now, |ch.loops|));
      CoverageIsPrefixes(a, ch);
    }

    /** advancePointerAfterInsert, run after the insert: the new snapshot itself is not counted as a child. */
    method AdvancePointerAfterInsert(a: StateId, by_: Principal, now: Time)
      requires a in snaps
      modifies this`pointer
      ensures pointer == PointerAfterInsert(old(snaps) - {a}, retirements.Keys, old(pointer), a, snaps[a].parent, by_,
                                            now)
    {
      var parent := snaps[a].parent;
      match pointer {
        case None =>
          if parent.None? {
            pointer := Some(Pointer(a, now, by_, FirstWrite));
          }
        case Some(q) =>
          if Some(q.state) != parent {
            return;
          }
          var priorChildren := set c | c in snaps && snaps[c].parent == parent && c != a;
          if priorChildren != {} {
            var c :| c in priorChildren;
            assert c in snaps - {a} && (snaps - {a})[c].parent == Some(q.state);
            return;
          }
          assert !HasChild(snaps - {a}, q.state) by {
            assert forall c :: c in snaps - {a} ==> c !in priorChildren;
          }
          if q.state in retirements {
            return;
          }
          pointer := Some(Pointer(a, now, by_, Advance));
      }
    }

    /** setPointerOnReconcile: whatever the pointer was. */
    method SetPointerOnReconcile(a: StateId, by_: Principal, now: Time)
      modifies this`pointer
      ensures pointer == Some(Pointer(a, now, by_, ByReconcile))
    {
      pointer := Some(Pointer(a, now, by_, ByReconcile));
    }

    /** writeReconcileRows: merge inputs, retirements and resolutions of one record. */
    method WriteReconcileRows(a: StateId, record: ReconciliationRecord, by_: Principal, now: Time)
      modifies this`inputs, this`retirements, this`resolutions
      ensures inputs == old(inputs) + InputRows(Some(record), a)
      ensures retirements == old(retirements) + RetirementRows(Some(record), a, by_, now)
      ensures resolutions == old(resolutions) + RecordedResolutions(Some(record), a)
    {
      hide RetirementsOf, InputsOf, ResolutionsOf, RetirementRows, InputRows, RecordedResolutions;
      AllWritten(record, a, by_, now);
      var heads := record.retired;
      assert record.retired - heads == {};
      AddNothing(retirements, RetirementsOf(record, {}, a, by_, now));
      while heads != {}
        invariant heads <= record.retired
        invariant resolutions == old(resolutions)
        invariant inputs == old(inputs) + InputsOf(record.retired - heads, a)
        invariant retirements == old(retirements) + RetirementsOf(record, record.retired - heads, a, by_, now)
        decreases heads
      {
        var h :| h in heads;
        ghost var done := record.retired - heads;
        heads := heads - {h};
        assert record.retired - heads == done + {h};
        OneMoreRetired(record, done, h, a, by_, now);
        AddThenPut(old(retirements), RetirementsOf(record, done, a, by_, now), h,
                   Retirement(a, now, by_, record.reason));
        inputs := inputs + {(a, h)};
        retirements := retirements[h := Retirement(a, now, by_, record.reason)];
      }
      assert record.retired - heads == record.retired;
      InsertResolutions(a, record);
    }

    method InsertResolutions(a: StateId, record: ReconciliationRecord)
      modifies this`resolutions
      ensures resolutions == old(resolutions) + ResolutionsOf(record, record.resolutions.Keys, a)
    {
      var keys := record.resolutions.Keys;
      assert record.resolutions.Keys - keys == {};
      AddNothing(resolutions, ResolutionsOf(record, {}, a));
      hide ResolutionsOf;
      while keys != {}
        invariant keys <= record.resolutions.Keys
        invariant resolutions == old(resolutions) + ResolutionsOf(record, record.resolutions.Keys - keys, a)
        decreases keys
      {
        var key :| key in keys;
        ghost var done := record.resolutions.Keys - keys;
        keys := keys - {key};
        assert record.resolutions.Keys - keys == done + {key};
        OneMoreResolved(record, done, key, a);
        AddThenPut(old(resolutions), ResolutionsOf(record, done, a), ResolutionKey(key, a), record.resolutions[key]);
        resolutions := resolutions[ResolutionKey(key, a) := record.resolutions[key]];
      }
      assert record.resolutions.Keys - keys == record.resolutions.Keys;
    }

    /** Revision allocation, the snapshot row, and the pointer. */
    method InsertSnapshot(p: Params, fingerprint: Fingerprint, parent: Option<StateId>, adm: Admitted, a: StateId,
                          now: Time)
      requires a !in snaps
      modifies this`snaps, this`pointer
      ensures snaps == old(snaps)[a :=
        Snapshot(parent, MaxRevision(old(snaps)) + 1,
                 Envelope(adm.state, p.events, p.factChanges, p.loopChanges, p.evidenceRefs, adm.record),
                 fingerprint, p.key, p.agent, now, None)]
      ensures pointer ==
        if adm.record.Some? then Some(Pointer(a, now, p.agent, ByReconcile))
        else PointerAfterInsert(old(snaps), retirements.Keys, old(pointer), a, parent, p.agent, now)
    {
      hide PointerAfterInsert;
      var envelope := Envelope(adm.state, p.events, p.factChanges, p.loopChanges, p.evidenceRefs, adm.record);
      var revision := MaxRevision(snaps) + 1;
      snaps := snaps[a := Snapshot(parent, revision, envelope, fingerprint, p.key, p.agent, now, None)];
      assert snaps - {a} == old(snaps);
      if adm.record.Some? {
        SetPointerOnReconcile(a, p.agent, now);
      } else {
        AdvancePointerAfterInsert(a, p.agent, now);
      }
    }

    /** The ledger, the versions, and for a reconcile its rows. */
    method WriteRows(a: StateId, p: Params, ch: Changes, owners: seq<string>, record: Option<ReconciliationRecord>,
                     now: Time)
      requires a in snaps
      requires |ch.facts| == |p.factChanges| && |ch.loops| == |p.loopChanges| == |owners|
      modifies this`snaps, this`ledger, this`coverage, this`versions, this`inputs, this`retirements, this`resolutions
      ensures snaps == old(snaps)[a := old(snaps[a]).(digest := Some(ch))]
      ensures ledger == old(ledger) + LedgerRows(a, ch)
      ensures coverage == old(coverage) + WrittenCoverage(LedgerRows(a, ch))
      ensures versions == old(versions) + WrittenVersions(a, ch, p, owners, now)
      ensures inputs == old(inputs) + InputRows(record, a)
      ensures retirements == old(retirements) + RetirementRows(record, a, p.agent, now)
      ensures resolutions == old(resolutions) + RecordedResolutions(record, a)
    {
      NoRecordRows(record, a, p.agent, now);
      hide LedgerRows, WrittenCoverage, WrittenVersions, InputRows, RetirementRows, RecordedResolutions;
      RecordSnapshotChanges(a, ch);
      WriteVersionRows(a, p, ch, owners, now);
      if record.Some? {
        WriteReconcileRows(a, record.value, p.agent, now);
      } else {
        AddNothing(retirements, RetirementRows(record, a, p.agent, now));
        AddNothing(resolutions, RecordedResolutions(record, a));
      }
    }

    /** Facts, then loops. */
    method ApplyChanges(p: Params, u: Uuids, now: Time) returns (done: Option<(FactsApplied, LoopsApplied)>)
      requires Sized(p, u)
      modifies this`facts, this`loops
      ensures done.None? <==> FactsDone(old(Db()), p, u, now).None? || LoopsDone(old(Db()), p, u, now).None?
      ensures done.Some? ==>
        && FactsDone(old(Db()), p, u, now) == Some(done.value.0)
        && LoopsDone(old(Db()), p, u, now) == Some(done.value.1)
        && |done.value.0.out| == |p.factChanges| && |done.value.1.out| == |done.value.1.owners| == |p.loopChanges|
        && facts == done.value.0.rows && loops == done.value.1.rows
    {
      hide ApplyFacts, ApplyLoops;
      var appliedFacts := ApplyFactChanges(p.agent, now, p.factChanges, u.facts);
      if appliedFacts.None? {
        return None;
      }
      var appliedLoops := ApplyLoopChanges(p.agent, now, p.loopChanges, u.loops);
      if appliedLoops.None? {
        return None;
      }
      FactsAppliedShape(old(facts), p.factChanges, u.facts, p.agent, now, |p.factChanges|);
      LoopsAppliedShape(old(loops), p.loopChanges, u.loops, p.agent, now, |p.loopChanges|);
      return Some((FactsApplied(facts, appliedFacts.value),
                   LoopsApplied(loops, appliedLoops.value.0, appliedLoops.value.1)));
    }

    /** Snapshot, pointer, changes and rows; none when a change is refused, and then the caller rolls back. */
    method Materialize(p: Params, fingerprint: Fingerprint, parent: Option<StateId>, adm: Admitted, u: Uuids, now: Time)
      returns (done: Option<(FactsApplied, LoopsApplied)>)
      requires Sized(p, u) && u.state !in snaps && fingerprint == FingerprintOf(p, parent)
      modifies this
      ensures done.None? <==> FactsDone(old(Db()), p, u, now).None? || LoopsDone(old(Db()), p, u, now).None?
      ensures done.Some? ==>
        && FactsDone(old(Db()), p, u, now) == Some(done.value.0)
        && LoopsDone(old(Db()), p, u, now) == Some(done.value.1)
        && |done.value.0.out| == |p.factChanges| && |done.value.1.out| == |done.value.1.owners| == |p.loopChanges|
        && Db() == WrittenTables(old(Db()), p, parent, adm, u, now, done.value.0, done.value.1)
    {
      hide FingerprintOf, LedgerRows, WrittenCoverage, WrittenVersions, InputRows, RetirementRows, RecordedResolutions,
           PointerAfterInsert, ApplyFacts, ApplyLoops, WrittenTables, NewSnapshot;
      ghost var t := Db();
      InsertSnapshot(p, fingerprint, parent, adm, u.state, now);
      ghost var mid := snaps;
      done := ApplyChanges(p, u, now);
      if done.None? {
        return None;
      }
      var f, l := done.value.0, done.value.1;
      WriteRows(u.state, p, Changes(f.out, l.out), l.owners, adm.record, now);
      DigestAdded(t, mid, p, parent, adm, u, now, Changes(f.out, l.out));
      Assembled(t, p, parent, adm, u, now, f, l, Db());
    }

    /** The write half: all of it, or after a bad change or a failed self-check none of it. */
    method WriteCheckpoint(p: Params, fingerprint: Fingerprint, parent: Option<StateId>, adm: Admitted, u: Uuids,
                           now: Time) returns (o: Outcome)
      requires RowsOk(Db()) && Sized(p, u) && u.state !in snaps && fingerprint == FingerprintOf(p, parent)
      modifies this
      ensures (Db(), o) == Commit(old(Db()), p, parent, adm, u, now)
    {
      hide RowsOk, FingerprintOf, ReconcileParity, WrittenTables, FactsDone, LoopsDone, LedgerKeyed;
      var saved := Db();
      var done := Materialize(p, fingerprint, parent, adm, u, now);
      if done.None? {
        Restore(saved);
        return Failed(BadChange);
      }
      var changes := Changes(done.value.0.out, done.value.1.out);
      WrittenParts(saved, p, parent, adm, u, now, done.value.0, done.value.1, Db());
      if adm.record.Some? {
        WrittenKeyed(saved, Db(), u.state, changes);
        var same := VerifyReconcileParity(Db(), u.state, adm.record.value);
        if !same {
          Restore(saved);
          return Failed(IntegrityFailure);
        }
      }
      return Written(u.state, MaxRevision(saved.snaps) + 1, parent, snaps[u.state].envelope,
                     if p.resultVersion == V1 then None else Some(changes),
                     if adm.record.Some? then Some(BlockOf(adm.record.value, u.state)) else None);
    }

    /** The transaction: decide, then write. */
    method Transact(p: Params, u: Uuids, now: Time) returns (o: Outcome)
      requires Inv(Db()) && Sized(p, u) && u.state !in snaps
      modifies this
      ensures (Db(), o) == Step(old(Db()), p, u, now)
    {
      hide Inv, Step, VerdictOf, Commit, FingerprintOf, RowsOk;
      StepDecides(Db(), p, u, now);
      var verdict, fingerprint := Decide(Db(), p);
      match verdict {
        case Finished(outcome) =>
          o := outcome;
        case Proceed(parent, adm) =>
          InvHasRows(Db());
          o := WriteCheckpoint(p, fingerprint, parent, adm, u, now);
      }
    }

    /** performCheckpoint is one atomic step of the specification, and keeps the scope's invariant. */
    method PerformCheckpoint(p: Params, u: Uuids, now: Time) returns (o: Outcome)
      requires Inv(Db()) && FreshUuids(Db(), p, u)
      modifies this
      ensures (Db(), o) == Step(old(Db()), p, u, now)
      ensures Inv(Db())
      ensures !o.Written? ==> Db() == old(Db())
    {
      hide Inv, Step, LoopIdsFresh, FactIdsFresh;
      ghost var t := Db();
      StepInv(t, p, u, now);
      if !Step(t, p, u, now).1.Written? {
        StepRefused(t, p, u, now);
      }
      o := Transact(p, u, now);
    }
  }

  lemma DigestAdded(t: Tables, mid: Snaps, p: Params, parent: Option<StateId>, adm: Admitted, u: Uuids, now: Time,
                    ch: Changes)
    requires mid == t.snaps[u.state :=
      Snapshot(parent, MaxRevision(t.snaps) + 1,
               Envelope(adm.state, p.events, p.factChanges, p.loopChanges, p.evidenceRefs, adm.record),
               FingerprintOf(p, parent), p.key, p.agent, now, None)]
    ensures mid[u.state := mid[u.state].(digest := Some(ch))] ==
      t.snaps[u.state := NewSnapshot(t, p, parent, adm, now, ch)]
  {
    hide FingerprintOf;
  }

  lemma Assembled(t: Tables, p: Params, parent: Option<StateId>, adm: Admitted, u: Uuids, now: Time, f: FactsApplied,
                  l: LoopsApplied, t': Tables)
    requires |f.out| == |p.factChanges| && |l.out| == |l.owners| == |p.loopChanges|
    requires t'.snaps == t.snaps[u.state := NewSnapshot(t, p, parent, adm, now, Changes(f.out, l.out))]
    requires t'.pointer ==
      if adm.record.Some? then Some(Pointer(u.state, now, p.agent, ByReconcile))
      else PointerAfterInsert(t.snaps, t.retirements.Keys, t.pointer, u.state, parent, p.agent, now)
    requires t'.retirements == t.retirements + RetirementRows(adm.record, u.state, p.agent, now)
    requires t'.inputs == t.inputs + InputRows(adm.record, u.state)
    requires t'.resolutions == t.resolutions + RecordedResolutions(adm.record, u.state)
    requires t'.ledger == t.ledger + LedgerRows(u.state, Changes(f.out, l.out))
    requires t'.coverage == t.coverage + WrittenCoverage(LedgerRows(u.state, Changes(f.out, l.out)))
    requires t'.versions == t.versions + WrittenVersions(u.state, Changes(f.out, l.out), p, l.owners, now)
    requires t'.backfilled == t.backfilled && t'.facts == f.rows && t'.loops == l.rows
    ensures t' == WrittenTables(t, p, parent, adm, u, now, f, l)
  {
    hide NewSnapshot, PointerAfterInsert, RetirementRows, InputRows, RecordedResolutions, LedgerRows, WrittenCoverage,
         WrittenVersions;
  }

  lemma WrittenParts(t: Tables, p: Params, parent: Option<StateId>, adm: Admitted, u: Uuids, now: Time, f: FactsApplied,
                     l: LoopsApplied, t': Tables)
    requires |f.out| == |p.factChanges| && |l.out| == |l.owners| == |p.loopChanges|
    requires t' == WrittenTables(t, p, parent, adm, u, now, f, l)
    ensures u.state in t'.snaps && t'.snaps[u.state].digest == Some(Changes(f.out, l.out))
    ensures t.snaps.Keys + {u.state} <= t'.snaps.Keys
    ensures t'.ledger == t.ledger + LedgerRows(u.state, Changes(f.out, l.out))
  {
    hide PointerAfterInsert, RetirementRows, InputRows, RecordedResolutions, LedgerRows, WrittenCoverage,
         WrittenVersions, FingerprintOf;
  }

  lemma WrittenKeyed(t: Tables, t': Tables, a: StateId, ch: Changes)
    requires RowsOk(t) && t'.ledger == t.ledger + LedgerRows(a, ch) && t.snaps.Keys + {a} <= t'.snaps.Keys
    ensures LedgerKeyed(t')
  {
    hide CoverageOk, VersionsOk, RowsExist, LedgerVerifies;
    forall x | x in t'.ledger ensures x.state in t'.snaps {
      LedgerRowsAt(a, ch, x);
    }
  }

  lemma {:induction false} FactsStayRefused(rows: Facts, cs: seq<FactChange>, ids: seq<RowId>, author: Principal,
                                            now: Time, m: nat, n: nat)
    requires m <= n <= |cs| == |ids| && ApplyFacts(rows, cs, ids, author, now, m).None?
    ensures ApplyFacts(rows, cs, ids, author, now, n).None?
    decreases n
  {
    if m < n {
      FactsStayRefused(rows, cs, ids, author, now, m, n - 1);
    }
  }

  lemma {:induction false} LoopsStayRefused(rows: Loops, cs: seq<LoopChange>, ids: seq<RowId>, author: Principal,
                                            now: Time, m: nat, n: nat)
    requires m <= n <= |cs| == |ids| && ApplyLoops(rows, cs, ids, author, now, m).None?
    ensures ApplyLoops(rows, cs, ids, author, now, n).None?
    decreases n
  {
    if m < n {
      LoopsStayRefused(rows, cs, ids, author, now, m, n - 1);
    }
  }
}
