/** A committed step appends rows for its own snapshot and keeps every table invariant. */
module Growth {
  import opened Options
  import opened Types
  import opened Tree
  import opened Heads
  import opened Newest
  import opened ChangeLog
  import opened Verifiers
  import opened Protocol
  import opened Invariants

  // ----- Ledger, coverage, versions

  lemma LedgerRowsAt(n: StateId, ch: Changes, x: Tuple)
    ensures x in LedgerRows(n, ch) <==> x.state == n && x.ordinal < |ch.Of(x.kind)|
    ensures x in LedgerRows(n, ch) ==> LedgerRows(n, ch)[x] == ch.Of(x.kind)[x.ordinal]
  {
  }

  ghost predicate RowsFor(rows: Ledger, n: StateId, ch: Changes) {
    && (forall x: Tuple :: x in rows <==> x.state == n && x.ordinal < |ch.Of(x.kind)|)
    && (forall x: Tuple :: x in rows ==> rows[x] == ch.Of(x.kind)[x.ordinal])
  }

  lemma LedgerRowsFor(n: StateId, ch: Changes)
    ensures RowsFor(LedgerRows(n, ch), n, ch)
  {
    forall x: Tuple ensures x in LedgerRows(n, ch) <==> x.state == n && x.ordinal < |ch.Of(x.kind)|
      ensures x in LedgerRows(n, ch) ==> LedgerRows(n, ch)[x] == ch.Of(x.kind)[x.ordinal]
    {
      LedgerRowsAt(n, ch, x);
    }
  }

  lemma LedgerGrows(s: Snaps, l: Ledger, s': Snaps, n: StateId, ch: Changes, rows: Ledger)
    requires LedgerOk(s, l) && Extends(s, s', n) && RowsFor(rows, n, ch)
    requires s'[n].digest == Some(ch)
    requires |ch.facts| == |s'[n].envelope.factChanges| && |ch.loops| == |s'[n].envelope.loopChanges|
    requires forall k: Kind, o: nat :: o < |ch.Of(k)| ==> ch.Of(k)[o].id != ""
    ensures LedgerOk(s', l + rows)
  {
    forall a | a in s' && s'[a].digest.Some? ensures LedgerVerifies(s', l + rows, a) {
      if a != n {
        assert LedgerVerifies(s, l, a);
      }
    }
  }

  lemma VersionRowAt(a: StateId, ch: Changes, p: Params, owners: seq<string>, now: Time, vk: VersionKey)
    requires |ch.facts| == |p.factChanges| && |ch.loops| == |p.loopChanges| == |owners|
    ensures vk in WrittenVersions(a, ch, p, owners, now) <==>
      vk.tuple in LedgerRows(a, ch) && LedgerRows(a, ch)[vk.tuple].id == vk.id
    ensures vk in WrittenVersions(a, ch, p, owners, now) ==>
      WrittenVersions(a, ch, p, owners, now)[vk] ==
        Version(if vk.tuple.kind == Fact then FactVersionValue(p.factChanges[vk.tuple.ordinal])
                else LoopVersionValue(p.loopChanges[vk.tuple.ordinal], owners[vk.tuple.ordinal], p.agent, now),
                p.agent, now)
  {
    LedgerRowsAt(a, ch, vk.tuple);
  }

  ghost predicate VersionsFor(v: Versions, rows: Ledger) {
    && (forall vk :: vk in v <==> vk.tuple in rows && rows[vk.tuple].id == vk.id)
    && (forall vk :: vk in v ==> (vk.tuple.kind == Fact <==> v[vk].value.FactValue?))
  }

  lemma WrittenVersionsFor(a: StateId, ch: Changes, p: Params, owners: seq<string>, now: Time)
    requires |ch.facts| == |p.factChanges| && |ch.loops| == |p.loopChanges| == |owners|
    ensures VersionsFor(WrittenVersions(a, ch, p, owners, now), LedgerRows(a, ch))
  {
    forall vk: VersionKey
      ensures vk in WrittenVersions(a, ch, p, owners, now) <==>
        vk.tuple in LedgerRows(a, ch) && LedgerRows(a, ch)[vk.tuple].id == vk.id
      ensures vk in WrittenVersions(a, ch, p, owners, now) ==>
        (vk.tuple.kind == Fact <==> WrittenVersions(a, ch, p, owners, now)[vk].value.FactValue?)
    {
      VersionRowAt(a, ch, p, owners, now, vk);
    }
  }

  lemma CoverageGrows(l: Ledger, c: CoverageRows, rows: Ledger)
    requires CoverageOk(l, c) && l.Keys !! rows.Keys
    ensures CoverageOk(l + rows, c + WrittenCoverage(rows))
  {
  }

  lemma VersionsGrow(c: CoverageRows, v: Versions, rows: Ledger, w: Versions)
    requires VersionsOk(c, v) && VersionsFor(w, rows) && c.Keys !! rows.Keys
    ensures VersionsOk(c + WrittenCoverage(rows), v + w)
  {
    var c' := c + WrittenCoverage(rows);
    forall vk: VersionKey
      ensures vk in v + w <==> vk.tuple in c' && c'[vk.tuple].id == vk.id && c'[vk.tuple].disposition == Materialized
    {
    }
  }

  lemma RowsExistGrow(l: Ledger, facts: Facts, loops: Loops, n: StateId, ch: Changes, rows: Ledger, facts': Facts,
                      loops': Loops)
    requires RowsExist(l, facts, loops) && RowsFor(rows, n, ch)
    requires facts.Keys <= facts'.Keys && loops.Keys <= loops'.Keys
    requires forall i :: 0 <= i < |ch.facts| ==> ch.facts[i].id in facts'
    requires forall i :: 0 <= i < |ch.loops| ==> ch.loops[i].id in loops'
    ensures RowsExist(l + rows, facts', loops')
  {
  }

  lemma AppliedIdsExist(t: Tables, p: Params, u: Uuids, now: Time, f: FactsApplied, l: LoopsApplied)
    requires Sized(p, u) && FactsDone(t, p, u, now) == Some(f) && LoopsDone(t, p, u, now) == Some(l)
    ensures t.facts.Keys <= f.rows.Keys && t.loops.Keys <= l.rows.Keys
    ensures forall i :: 0 <= i < |f.out| ==> f.out[i].id in f.rows
    ensures forall i :: 0 <= i < |l.out| ==> l.out[i].id in l.rows
  {
    hide ApplyFacts, ApplyLoops;
    forall id ensures id in f.rows <==> id in t.facts || Named(f.out, id) {
      FactsAppliedRows(t.facts, p.factChanges, u.facts, p.agent, now, |p.factChanges|, id);
    }
    forall id ensures id in l.rows <==> id in t.loops || Named(l.out, id) {
      LoopsAppliedRows(t.loops, p.loopChanges, u.loops, p.agent, now, |p.loopChanges|, id);
    }
  }

  /** The rows a step writes belong to its own snapshot, which had none before. */
  lemma NoRowsYet(t: Tables, n: StateId)
    requires RowsOk(t) && n !in t.snaps
    ensures forall x :: x in t.ledger || x in t.coverage ==> x.state in t.snaps && x.state != n
    ensures forall vk :: vk in t.versions ==> vk.tuple.state in t.snaps && vk.tuple.state != n
  {
    hide LedgerVerifies;
  }

  lemma AppliedIdsNamed(t: Tables, p: Params, u: Uuids, now: Time, f: FactsApplied, l: LoopsApplied)
    requires FreshUuids(t, p, u) && FactsDone(t, p, u, now) == Some(f) && LoopsDone(t, p, u, now) == Some(l)
    ensures forall k: Kind, o: nat :: o < |Changes(f.out, l.out).Of(k)| ==> Changes(f.out, l.out).Of(k)[o].id != ""
  {
    hide ApplyFacts, ApplyLoops;
    FactsAppliedShape(t.facts, p.factChanges, u.facts, p.agent, now, |p.factChanges|);
    LoopsAppliedShape(t.loops, p.loopChanges, u.loops, p.agent, now, |p.loopChanges|);
  }

  lemma RowsOkKept(t: Tables, p: Params, u: Uuids, now: Time, t': Tables, parent: Option<StateId>, adm: Admitted,
                   f: FactsApplied, l: LoopsApplied)
    requires TreeOk(t.snaps) && RowsOk(t) && Wrote(t, p, u, now, t', parent, adm, f, l)
    ensures RowsOk(t')
  {
    var ch := Changes(f.out, l.out);
    var rows := LedgerRows(u.state, ch);
    WroteExtends(t, p, u, now, t', parent, adm, f, l);
    AppliedIdsExist(t, p, u, now, f, l);
    NoRowsYet(t, u.state);
    LedgerRowsFor(u.state, ch);
    WrittenVersionsFor(u.state, ch, p, l.owners, now);
    AppliedIdsNamed(t, p, u, now, f, l);
    LedgerGrows(t.snaps, t.ledger, t'.snaps, u.state, ch, rows);
    hide FactsDone, LoopsDone, FingerprintOf, LedgerRows, WrittenVersions, WrittenCoverage, LedgerVerifies, Extends,
         LoopIdsFresh, FactIdsFresh;
    CoverageGrows(t.ledger, t.coverage, rows);
    VersionsGrow(t.coverage, t.versions, rows, WrittenVersions(u.state, ch, p, l.owners, now));
    RowsExistGrow(t.ledger, t.facts, t.loops, u.state, ch, rows, f.rows, l.rows);
  }

  // ----- What a step leaves alone

  ghost predicate RowsGrown(t: Tables, t': Tables, n: StateId) {
    && (forall x :: x in t.ledger ==> x in t'.ledger && t'.ledger[x] == t.ledger[x])
    && (forall x: Tuple :: x.state != n ==> (x in t'.ledger <==> x in t.ledger))
    && (forall x :: x in t.coverage ==> x in t'.coverage && t'.coverage[x] == t.coverage[x])
    && (forall x: Tuple :: x.state != n ==> (x in t'.coverage <==> x in t.coverage))
    && (forall vk :: vk in t.versions ==> vk in t'.versions && t'.versions[vk] == t.versions[vk])
    && (forall vk: VersionKey :: vk.tuple.state != n ==> (vk in t'.versions <==> vk in t.versions))
    && t'.backfilled == t.backfilled
  }

  /** The reconcile rows of every other snapshot are as they were. */
  ghost predicate EvidenceGrown(t: Tables, t': Tables, n: StateId) {
    && (forall h :: h in t.retirements ==> h in t'.retirements && t'.retirements[h] == t.retirements[h])
    && (forall h :: h in t'.retirements && h !in t.retirements ==> t'.retirements[h].retiredBy == n)
    && (forall e: (StateId, StateId) :: e.0 != n ==> (e in t'.inputs <==> e in t.inputs))
    && (forall k: ResolutionKey :: k.resolvedBy != n ==> (k in t'.resolutions <==> k in t.resolutions))
    && (forall k :: k in t.resolutions ==> k in t'.resolutions && t'.resolutions[k] == t.resolutions[k])
  }

  lemma Append<K(!new), V>(m: map<K, V>, add: map<K, V>)
    requires m.Keys !! add.Keys
    ensures forall k :: k in m ==> k in m + add && (m + add)[k] == m[k]
    ensures forall k :: k !in add ==> (k in m + add <==> k in m)
  {
  }

  lemma AppendedRows(t: Tables, t': Tables, n: StateId, rows: Ledger, w: Versions)
    requires forall x :: x in t.ledger ==> x.state != n
    requires forall x :: x in t.coverage ==> x.state != n
    requires forall vk :: vk in t.versions ==> vk.tuple.state != n
    requires forall x :: x in rows ==> x.state == n
    requires forall vk :: vk in w ==> vk.tuple.state == n
    requires t'.ledger == t.ledger + rows && t'.coverage == t.coverage + WrittenCoverage(rows)
    requires t'.versions == t.versions + w && t'.backfilled == t.backfilled
    ensures RowsGrown(t, t', n)
  {
    Append(t.ledger, rows);
    Append(t.coverage, WrittenCoverage(rows));
    Append(t.versions, w);
  }

  lemma WroteRowsGrown(t: Tables, p: Params, u: Uuids, now: Time, t': Tables, parent: Option<StateId>, adm: Admitted,
                       f: FactsApplied, l: LoopsApplied)
    requires RowsOk(t) && Wrote(t, p, u, now, t', parent, adm, f, l)
    ensures RowsGrown(t, t', u.state)
    ensures RowsFor(LedgerRows(u.state, Changes(f.out, l.out)), u.state, Changes(f.out, l.out))
    ensures t'.ledger == t.ledger + LedgerRows(u.state, Changes(f.out, l.out))
    ensures t'.coverage == t.coverage + WrittenCoverage(LedgerRows(u.state, Changes(f.out, l.out)))
  {
    var ch := Changes(f.out, l.out);
    LedgerRowsFor(u.state, ch);
    WrittenVersionsFor(u.state, ch, p, l.owners, now);
    NoRowsYet(t, u.state);
    hide FactsDone, LoopsDone, FingerprintOf, LedgerRows, WrittenVersions, WrittenCoverage, LoopIdsFresh, FactIdsFresh,
         RowsOk, RowsGrown;
    AppendedRows(t, t', u.state, LedgerRows(u.state, ch), WrittenVersions(u.state, ch, p, l.owners, now));
  }

  lemma AppendedEvidence(t: Tables, t': Tables, n: StateId, r: Retirements, i: set<(StateId, StateId)>,
                         d: map<ResolutionKey, Decision>)
    requires RowsOwned(t) && n !in t.snaps && r.Keys !! t.retirements.Keys
    requires t'.retirements == t.retirements + r && t'.inputs == t.inputs + i && t'.resolutions == t.resolutions + d
    requires forall h :: h in r ==> r[h].retiredBy == n
    requires forall e: (StateId, StateId) :: e in i ==> e.0 == n
    requires forall k: ResolutionKey :: k in d ==> k.resolvedBy == n
    ensures EvidenceGrown(t, t', n)
  {
  }

  lemma WroteEvidenceGrown(t: Tables, p: Params, u: Uuids, now: Time, t': Tables, parent: Option<StateId>,
                           adm: Admitted, f: FactsApplied, l: LoopsApplied)
    requires RowsOwned(t) && Wrote(t, p, u, now, t', parent, adm, f, l)
    requires adm.record.Some? ==> adm.record.value.retired !! t.retirements.Keys
    ensures EvidenceGrown(t, t', u.state)
  {
    hide FactsDone, LoopsDone, FingerprintOf, LedgerRows, WrittenVersions, WrittenCoverage, LoopIdsFresh, FactIdsFresh,
         EvidenceGrown, RowsOwned;
    AppendedEvidence(t, t', u.state, RetirementRows(adm.record, u.state, p.agent, now), InputRows(adm.record, u.state),
                     RecordedResolutions(adm.record, u.state));
  }

  // ----- The in-place tables stay the newest change over all lineages

  lemma NewestGrows(s: Snaps, l: Ledger, s': Snaps, n: StateId, ch: Changes, rows: Ledger, k: Kind, id: RowId, x: Tuple)
    requires TreeOk(s) && Extends(s, s', n) && RowsFor(rows, n, ch)
    requires forall y :: y in l ==> y.state in s
    requires IsNewest(s', l + rows, s'.Keys, k, id, x)
    ensures !Named(ch.Of(k), id) ==> x in l && IsNewest(s, l, s.Keys, k, id, x)
    ensures Named(ch.Of(k), id) ==> x.state == n && LastNaming(ch.Of(k), id, x.ordinal)
  {
    var l' := l + rows;
    if i :| 0 <= i < |ch.Of(k)| && ch.Of(k)[i].id == id {
      assert TupleOn(l', s'.Keys, k, id, Tuple(n, k, i));
      assert !Newer(s', Tuple(n, k, i), x);
      forall j | x.ordinal < j < |ch.Of(k)| ensures ch.Of(k)[j].id != id {
        assert !TupleOn(l', s'.Keys, k, id, Tuple(n, k, j)) || !Newer(s', Tuple(n, k, j), x);
      }
    } else {
      forall y | TupleOn(l, s.Keys, k, id, y) ensures !Newer(s, y, x) {
        assert TupleOn(l', s'.Keys, k, id, y);
      }
    }
  }

  lemma GapAfterGrows(s: Snaps, s': Snaps, n: StateId, a: StateId)
    requires Extends(s, s', n) && s'[n].digest.Some? && a in s
    ensures GapAfter(s', s'[a].revision) <==> GapAfter(s, s[a].revision)
  {
    if g :| g in s && s[g].digest.None? && s[g].revision > s[a].revision {
      assert s'[g] == s[g];
    }
  }

  lemma VersionWritten(t: Tables, p: Params, u: Uuids, now: Time, t': Tables, parent: Option<StateId>, adm: Admitted,
                       f: FactsApplied, l: LoopsApplied, id: RowId, x: Tuple)
    requires RowsOk(t) && Wrote(t, p, u, now, t', parent, adm, f, l)
    requires x.state == u.state && x.ordinal < |Changes(f.out, l.out).Of(x.kind)| &&
      Changes(f.out, l.out).Of(x.kind)[x.ordinal].id == id
    ensures VersionKey(id, x) in t'.versions
    ensures t'.versions[VersionKey(id, x)] ==
      Version(if x.kind == Fact then FactVersionValue(p.factChanges[x.ordinal])
              else LoopVersionValue(p.loopChanges[x.ordinal], l.owners[x.ordinal], p.agent, now), p.agent, now)
  {
    var ch := Changes(f.out, l.out);
    LedgerRowsAt(u.state, ch, x);
    VersionRowAt(u.state, ch, p, l.owners, now, VersionKey(id, x));
    hide FactsDone, LoopsDone, FingerprintOf, LedgerRows, WrittenVersions, LedgerVerifies, LoopIdsFresh, FactIdsFresh,
         RowsOk;
  }

  /** Where the newest change of an id after the step comes from: the request, or the tables as they were. */
  lemma NewestSource(t: Tables, p: Params, u: Uuids, now: Time, t': Tables, parent: Option<StateId>, adm: Admitted,
                     f: FactsApplied, l: LoopsApplied, k: Kind, id: RowId, x: Tuple)
    requires TreeOk(t.snaps) && RowsOk(t) && Wrote(t, p, u, now, t', parent, adm, f, l)
    requires IsNewest(t'.snaps, t'.ledger, t'.snaps.Keys, k, id, x) && x.state in t'.snaps
    requires !GapAfter(t'.snaps, t'.snaps[x.state].revision) && VersionKey(id, x) in t'.versions
    ensures x.kind == k
    ensures Named(Changes(f.out, l.out).Of(k), id) ==>
      x.state == u.state && LastNaming(Changes(f.out, l.out).Of(k), id, x.ordinal)
    ensures !Named(Changes(f.out, l.out).Of(k), id) ==>
      && IsNewest(t.snaps, t.ledger, t.snaps.Keys, k, id, x) && x.state in t.snaps
      && !GapAfter(t.snaps, t.snaps[x.state].revision)
      && VersionKey(id, x) in t.versions && t'.versions[VersionKey(id, x)] == t.versions[VersionKey(id, x)]
  {
    hide Wrote, TreeOk, RowsOk, Extends, RowsGrown, GapAfter, Named, LastNaming, LedgerRows;
    var ch := Changes(f.out, l.out);
    WroteExtends(t, p, u, now, t', parent, adm, f, l);
    WroteRowsGrown(t, p, u, now, t', parent, adm, f, l);
    WroteLedger(t, p, u, now, t', parent, adm, f, l);
    NoRowsYet(t, u.state);
    LedgerRowsFor(u.state, ch);
    hide RowsFor;
    NewestGrows(t.snaps, t.ledger, t'.snaps, u.state, ch, LedgerRows(u.state, ch), k, id, x);
    if !Named(ch.Of(k), id) {
      GapAfterGrows(t.snaps, t'.snaps, u.state, x.state);
      SourceKept(t, t', u.state, id, x);
    }
  }

  lemma WroteLedger(t: Tables, p: Params, u: Uuids, now: Time, t': Tables, parent: Option<StateId>, adm: Admitted,
                    f: FactsApplied, l: LoopsApplied)
    requires Wrote(t, p, u, now, t', parent, adm, f, l)
    ensures u.state !in t.snaps && t'.ledger == t.ledger + LedgerRows(u.state, Changes(f.out, l.out))
  {
    hide FactsDone, LoopsDone, LedgerRows, WrittenCoverage, WrittenVersions, NewSnapshot, PointerAfterInsert,
         RetirementRows, InputRows, RecordedResolutions, LoopIdsFresh, FactIdsFresh;
  }

  lemma SourceKept(t: Tables, t': Tables, n: StateId, id: RowId, x: Tuple)
    requires Extends(t.snaps, t'.snaps, n) && RowsGrown(t, t', n) && x.state in t.snaps &&
      VersionKey(id, x) in t'.versions
    ensures x.state in t'.snaps && t'.snaps[x.state] == t.snaps[x.state]
    ensures VersionKey(id, x) in t.versions && t'.versions[VersionKey(id, x)] == t.versions[VersionKey(id, x)]
  {
  }

  /** A fact row after the step: the last change that names it, or else the row as it was. */
  lemma FactRowAfter(t: Tables, p: Params, u: Uuids, now: Time, t': Tables, parent: Option<StateId>, adm: Admitted,
                     f: FactsApplied, l: LoopsApplied, id: RowId)
    requires Wrote(t, p, u, now, t', parent, adm, f, l) && id in t'.facts
    ensures |f.out| == |p.factChanges|
    ensures forall o: nat :: o < |f.out| && LastNaming(f.out, id, o) ==>
      FactAgrees(t'.facts[id], Version(FactVersionValue(p.factChanges[o]), p.agent, now))
    ensures !Named(f.out, id) ==> id in t.facts && t'.facts[id] == t.facts[id]
  {
    hide ApplyFacts, LoopsDone, LedgerRows, WrittenCoverage, WrittenVersions, NewSnapshot, PointerAfterInsert,
         RetirementRows, InputRows, RecordedResolutions, LoopIdsFresh, FactIdsFresh, LastNaming, Named, FactAgrees;
    FactsAppliedRows(t.facts, p.factChanges, u.facts, p.agent, now, |p.factChanges|, id);
  }

  lemma LoopRowAfter(t: Tables, p: Params, u: Uuids, now: Time, t': Tables, parent: Option<StateId>, adm: Admitted,
                     f: FactsApplied, l: LoopsApplied, id: RowId)
    requires Wrote(t, p, u, now, t', parent, adm, f, l) && id in t'.loops
    ensures |l.out| == |l.owners| == |p.loopChanges|
    ensures forall o: nat :: o < |l.out| && LastNaming(l.out, id, o) ==>
      LoopAgrees(t'.loops[id], Version(LoopVersionValue(p.loopChanges[o], l.owners[o], p.agent, now), p.agent, now))
    ensures !Named(l.out, id) ==> id in t.loops && t'.loops[id] == t.loops[id]
  {
    hide ApplyLoops, FactsDone, LedgerRows, WrittenCoverage, WrittenVersions, NewSnapshot, PointerAfterInsert,
         RetirementRows, InputRows, RecordedResolutions, LoopIdsFresh, FactIdsFresh, LastNaming, Named, LoopAgrees;
    LoopsAppliedRows(t.loops, p.loopChanges, u.loops, p.agent, now, |p.loopChanges|, id);
  }

  lemma FactsInPlaceKept(t: Tables, p: Params, u: Uuids, now: Time, t': Tables, parent: Option<StateId>, adm: Admitted,
                         f: FactsApplied, l: LoopsApplied, id: RowId, x: Tuple)
    requires TreeOk(t.snaps) && RowsOk(t) && FactsInPlace(t.snaps, t.ledger, t.versions, t.facts)
    requires Wrote(t, p, u, now, t', parent, adm, f, l)
    requires IsNewest(t'.snaps, t'.ledger, t'.snaps.Keys, Fact, id, x) && x.state in t'.snaps
    requires !GapAfter(t'.snaps, t'.snaps[x.state].revision)
    requires VersionKey(id, x) in t'.versions && id in t'.facts
    ensures FactAgrees(t'.facts[id], t'.versions[VersionKey(id, x)])
  {
    hide Wrote, TreeOk, RowsOk, IsNewest, GapAfter, FactAgrees, Named;
    NewestSource(t, p, u, now, t', parent, adm, f, l, Fact, id, x);
    FactRowAfter(t, p, u, now, t', parent, adm, f, l, id);
    if Named(f.out, id) {
      VersionWritten(t, p, u, now, t', parent, adm, f, l, id, x);
    }
  }

  lemma LoopsInPlaceKept(t: Tables, p: Params, u: Uuids, now: Time, t': Tables, parent: Option<StateId>, adm: Admitted,
                         f: FactsApplied, l: LoopsApplied, id: RowId, x: Tuple)
    requires TreeOk(t.snaps) && RowsOk(t) && LoopsInPlace(t.snaps, t.ledger, t.versions, t.loops)
    requires Wrote(t, p, u, now, t', parent, adm, f, l)
    requires IsNewest(t'.snaps, t'.ledger, t'.snaps.Keys, Loop, id, x) && x.state in t'.snaps
    requires !GapAfter(t'.snaps, t'.snaps[x.state].revision)
    requires VersionKey(id, x) in t'.versions && id in t'.loops
    ensures LoopAgrees(t'.loops[id], t'.versions[VersionKey(id, x)])
  {
    hide Wrote, TreeOk, RowsOk, IsNewest, GapAfter, LoopAgrees, Named;
    NewestSource(t, p, u, now, t', parent, adm, f, l, Loop, id, x);
    LoopRowAfter(t, p, u, now, t', parent, adm, f, l, id);
    if Named(l.out, id) {
      VersionWritten(t, p, u, now, t', parent, adm, f, l, id, x);
    }
  }

  lemma InPlaceKept(t: Tables, p: Params, u: Uuids, now: Time, t': Tables, parent: Option<StateId>, adm: Admitted,
                    f: FactsApplied, l: LoopsApplied)
    requires TreeOk(t.snaps) && RowsOk(t) && InPlaceOk(t) && Wrote(t, p, u, now, t', parent, adm, f, l)
    ensures InPlaceOk(t')
  {
    hide Wrote, RowsOk, TreeOk, IsNewest;
    forall id, x | IsNewest(t'.snaps, t'.ledger, t'.snaps.Keys, Fact, id, x) && x.state in t'.snaps
                   && !GapAfter(t'.snaps, t'.snaps[x.state].revision)
                   && VersionKey(id, x) in t'.versions && id in t'.facts
      ensures FactAgrees(t'.facts[id], t'.versions[VersionKey(id, x)])
    {
      FactsInPlaceKept(t, p, u, now, t', parent, adm, f, l, id, x);
    }
    forall id, x | IsNewest(t'.snaps, t'.ledger, t'.snaps.Keys, Loop, id, x) && x.state in t'.snaps
                   && !GapAfter(t'.snaps, t'.snaps[x.state].revision)
                   && VersionKey(id, x) in t'.versions && id in t'.loops
      ensures LoopAgrees(t'.loops[id], t'.versions[VersionKey(id, x)])
    {
      LoopsInPlaceKept(t, p, u, now, t', parent, adm, f, l, id, x);
    }
  }
}
