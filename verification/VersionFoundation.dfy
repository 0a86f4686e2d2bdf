/**
 The version-foundation verifier. It is the one verifier that CAN raise a false alarm: an empty
 string passes the request schema as an id or an owner, and a null id passes where that schema is
 not applied; the writer tests an id for truth, and the verifier tests it for presence. Here is
 exactly when that happens.
 */
module VersionFoundation {
  import opened Options
  import opened Types
  import opened Tree
  import opened Newest
  import opened ChangeLog
  import opened Verifiers
  import opened Protocol
  import opened Invariants
  import opened Growth
  import opened Evidence
  import opened Runs

  // ----- Older snapshots are judged the same before and after a step

  lemma PredecessorUnique(t: Tables, id: RowId, at: Tuple, x: Tuple)
    requires TreeOk(t.snaps) && ProvenBy(t, id, at, x)
    ensures InheritedOwner(t, id, at) == Some(t.versions[VersionKey(id, x)].value.owner)
  {
    forall y | ProvenBy(t, id, at, y) ensures y == x {
      assert !Newer(t.snaps, x, y) && !Newer(t.snaps, y, x);
    }
  }

  lemma PredecessorFrame(t: Tables, t': Tables, n: StateId, id: RowId, at: Tuple, x: Tuple)
    requires TreeOk(t.snaps) && Extends(t.snaps, t'.snaps, n) && RowsGrown(t, t', n) && at.state in t.snaps
    requires forall y :: y in t.ledger ==> y.state in t.snaps
    ensures IsPredecessor(t'.snaps, t'.ledger, id, at, x) <==> IsPredecessor(t.snaps, t.ledger, id, at, x)
  {
    hide TreeOk;
    forall y ensures TupleOn(t'.ledger, t'.snaps.Keys, Loop, id, y) && Newer(t'.snaps, at, y) <==>
                     TupleOn(t.ledger, t.snaps.Keys, Loop, id, y) && Newer(t.snaps, at, y)
    {
      assert y.state == n ==> !Newer(t'.snaps, at, y);
    }
    forall y: Tuple, z: Tuple | y.state in t.snaps && z.state in t.snaps
      ensures Newer(t'.snaps, y, z) <==> Newer(t.snaps, y, z)
    {
    }
  }

  lemma GapFrame(s: Snaps, s': Snaps, n: StateId, low: nat, high: nat)
    requires Extends(s, s', n) && s'[n].digest.Some?
    ensures GapBetween(s', low, high) <==> GapBetween(s, low, high)
  {
    if g :| g in s && s[g].digest.None? && low < s[g].revision < high {
      assert s'[g] == s[g];
    }
  }

  lemma InheritedOwnerFrame(t: Tables, t': Tables, n: StateId, id: RowId, at: Tuple)
    requires TreeOk(t.snaps) && Extends(t.snaps, t'.snaps, n) && RowsGrown(t, t', n) && at.state in t.snaps
    requires forall y :: y in t.ledger ==> y.state in t.snaps
    requires t'.snaps[n].digest.Some?
    ensures InheritedOwner(t', id, at) == InheritedOwner(t, id, at)
  {
    hide RowsGrown, TreeOk, Extends, ProvenBy;
    ExtendsTreeOk(t.snaps, t'.snaps, n);
    forall x ensures ProvenBy(t', id, at, x) <==> ProvenBy(t, id, at, x)
      ensures ProvenBy(t, id, at, x) ==>
        VersionKey(id, x) in t.versions && VersionKey(id, x) in t'.versions &&
          t'.versions[VersionKey(id, x)] == t.versions[VersionKey(id, x)]
    {
      ProvenFrame(t, t', n, id, at, x);
      ProvenVersioned(t, id, at, x);
      ProvenVersioned(t', id, at, x);
    }
    if x :| ProvenBy(t, id, at, x) {
      PredecessorUnique(t, id, at, x);
      PredecessorUnique(t', id, at, x);
    }
  }

  lemma ProvenVersioned(t: Tables, id: RowId, at: Tuple, x: Tuple)
    ensures ProvenBy(t, id, at, x) ==> VersionKey(id, x) in t.versions
  {
    hide IsPredecessor, GapBetween;
  }

  lemma ProvenFrame(t: Tables, t': Tables, n: StateId, id: RowId, at: Tuple, x: Tuple)
    requires TreeOk(t.snaps) && Extends(t.snaps, t'.snaps, n) && RowsGrown(t, t', n) && at.state in t.snaps
    requires forall y :: y in t.ledger ==> y.state in t.snaps
    requires t'.snaps[n].digest.Some?
    ensures ProvenBy(t', id, at, x) <==> ProvenBy(t, id, at, x)
    ensures ProvenBy(t, id, at, x) ==> t'.versions[VersionKey(id, x)] == t.versions[VersionKey(id, x)]
  {
    hide TreeOk;
    PredecessorFrame(t, t', n, id, at, x);
    if x.state in t.snaps {
      GapFrame(t.snaps, t'.snaps, n, t.snaps[x.state].revision, t.snaps[at.state].revision);
    }
    hide IsPredecessor, GapBetween;
    PredecessorOld(t, id, at, x);
  }

  lemma PredecessorOld(t: Tables, id: RowId, at: Tuple, x: Tuple)
    ensures IsPredecessor(t.snaps, t.ledger, id, at, x) ==> x in t.ledger && x.state in t.snaps
  {
  }

  lemma BareFrame(t: Tables, t': Tables, n: StateId, a: StateId)
    requires RowsGrown(t, t', n) && a != n
    ensures Bare(t', a) <==> Bare(t, a)
  {
  }

  lemma CoverageExactFrame(t: Tables, t': Tables, n: StateId, a: StateId)
    requires RowsGrown(t, t', n) && a != n
    ensures CoverageExact(t', a) <==> CoverageExact(t, a)
  {
  }

  lemma LoopParityFrame(t: Tables, t': Tables, n: StateId, x: Tuple, c: LoopChange)
    requires TreeOk(t.snaps) && Extends(t.snaps, t'.snaps, n) && RowsGrown(t, t', n) && x.state in t.snaps
    requires forall y :: y in t.ledger ==> y.state in t.snaps
    requires t'.snaps[n].digest.Some?
    ensures LoopParity(t', x, c) <==> LoopParity(t, x, c)
  {
    if x in t.ledger {
      InheritedOwnerFrame(t, t', n, t.ledger[x].id, x);
    }
    hide InheritedOwner, TreeOk, LoopVersionValue;
    LoopParityCases(t, t', n, x, c);
  }

  lemma LoopParityCases(t: Tables, t': Tables, n: StateId, x: Tuple, c: LoopChange)
    requires Extends(t.snaps, t'.snaps, n) && RowsGrown(t, t', n) && x.state in t.snaps
    requires x in t.ledger ==> InheritedOwner(t', t.ledger[x].id, x) == InheritedOwner(t, t.ledger[x].id, x)
    ensures LoopParity(t', x, c) <==> LoopParity(t, x, c)
  {
    hide InheritedOwner, LoopVersionValue;
  }

  lemma FactParityFrame(t: Tables, t': Tables, n: StateId, x: Tuple, c: FactChange)
    requires Extends(t.snaps, t'.snaps, n) && RowsGrown(t, t', n) && x.state in t.snaps
    ensures FactParity(t', x, c) <==> FactParity(t, x, c)
  {
  }

  lemma LedgerVerifiesFrame(t: Tables, t': Tables, n: StateId, a: StateId)
    requires Extends(t.snaps, t'.snaps, n) && RowsGrown(t, t', n) && a in t.snaps
    ensures LedgerVerifies(t'.snaps, t'.ledger, a) <==> LedgerVerifies(t.snaps, t.ledger, a)
  {
  }

  lemma SnapshotFrame(s: Snaps, s': Snaps, n: StateId, a: StateId)
    requires Extends(s, s', n) && a in s
    ensures a != n && a in s' && s'[a] == s[a]
  {
  }

  lemma SnapParityFrame(t: Tables, t': Tables, n: StateId, a: StateId)
    requires TreeOk(t.snaps) && Extends(t.snaps, t'.snaps, n) && RowsGrown(t, t', n) && a in t.snaps
    requires forall y :: y in t.ledger ==> y.state in t.snaps
    requires t'.snaps[n].digest.Some?
    ensures SnapParity(t', a) <==> SnapParity(t, a)
  {
    hide Bare, CoverageExact, LedgerVerifies, FactParity, LoopParity, RowsGrown, TreeOk, NamesParity, Extends;
    var env := t.snaps[a].envelope;
    SnapshotFrame(t.snaps, t'.snaps, n, a);
    BareFrame(t, t', n, a);
    CoverageExactFrame(t, t', n, a);
    LedgerVerifiesFrame(t, t', n, a);
    forall o: nat | o < |env.factChanges|
      ensures FactParity(t', Tuple(a, Fact, o), env.factChanges[o]) <==>
        FactParity(t, Tuple(a, Fact, o), env.factChanges[o])
    {
      FactParityFrame(t, t', n, Tuple(a, Fact, o), env.factChanges[o]);
    }
    forall o: nat | o < |env.loopChanges|
      ensures LoopParity(t', Tuple(a, Loop, o), env.loopChanges[o]) <==>
        LoopParity(t, Tuple(a, Loop, o), env.loopChanges[o])
    {
      LoopParityFrame(t, t', n, Tuple(a, Loop, o), env.loopChanges[o]);
    }
  }

  // ----- The new snapshot

  /** The newest change of the loop over all lineages pins its current owner down. */
  ghost predicate OwnerKnown(t: Tables, id: RowId) {
    exists x :: IsNewest(t.snaps, t.ledger, t.snaps.Keys, Loop, id, x) && x.state in t.snaps
                && !GapAfter(t.snaps, t.snaps[x.state].revision) && VersionKey(id, x) in t.versions
  }

  ghost predicate NamedBefore(cs: seq<LoopChange>, id: RowId, o: nat)
    requires o <= |cs|
  {
    exists j :: 0 <= j < o && cs[j].loopId == Some(id)
  }

  /** The owner in effect just before loop change o of the request. */
  ghost function OwnerBefore(t: Tables, cs: seq<LoopChange>, id: RowId, o: nat): string
    requires o <= |cs| && id in t.loops
  {
    OwnerAfter(t.loops[id].owner, cs, id, o)
  }

  lemma {:induction false} OwnerUntouched(base: string, cs: seq<LoopChange>, id: RowId, low: nat, n: nat)
    requires low <= n <= |cs| && forall j :: low <= j < n ==> cs[j].loopId != Some(id)
    ensures OwnerAfter(base, cs, id, n) == OwnerAfter(base, cs, id, low)
    decreases n
  {
    if low < n {
      OwnerUntouched(base, cs, id, low, n - 1);
    }
  }

  /** What the writer records for an update: the change's own owner, else the one before it. */
  lemma RecordedOwner(t: Tables, p: Params, u: Uuids, now: Time, l: LoopsApplied, o: nat)
    requires FreshUuids(t, p, u) && LoopsDone(t, p, u, now) == Some(l) && o < |p.loopChanges|
    requires Truthy(p.loopChanges[o].loopId)
    ensures p.loopChanges[o].loopId.value in t.loops && |l.owners| == |p.loopChanges|
    ensures l.owners[o] == Or(p.loopChanges[o].owner, OwnerBefore(t, p.loopChanges, p.loopChanges[o].loopId.value, o))
  {
    hide ApplyLoops, FactIdsFresh;
    OwnerPrediction(t.loops, p.loopChanges, u.loops, p.agent, now, |p.loopChanges|, o);
  }

  lemma OutNames(t: Tables, p: Params, u: Uuids, now: Time, l: LoopsApplied, id: RowId)
    requires FreshUuids(t, p, u) && LoopsDone(t, p, u, now) == Some(l) && id in t.loops && id != ""
    ensures |l.out| == |p.loopChanges|
    ensures forall j :: 0 <= j < |l.out| ==> (l.out[j].id == id <==> p.loopChanges[j].loopId == Some(id))
  {
    hide ApplyLoops, FactIdsFresh;
    LoopsAppliedShape(t.loops, p.loopChanges, u.loops, p.agent, now, |p.loopChanges|);
  }

  /** Which change precedes change o of the new snapshot n, among all changes of the loop. */
  lemma PredecessorAtNew(t: Tables, t': Tables, n: StateId, ch: Changes, rows: Ledger, id: RowId, o: nat, x: Tuple)
    requires TreeOk(t.snaps) && Extends(t.snaps, t'.snaps, n) && RowsFor(rows, n, ch) && t'.ledger == t.ledger + rows
    requires forall y :: y in t.ledger ==> y.state in t.snaps
    requires o < |ch.loops|
    ensures x.state == n ==>
      (IsPredecessor(t'.snaps, t'.ledger, id, Tuple(n, Loop, o), x) <==>
         x.kind == Loop && x.ordinal < o && ch.loops[x.ordinal].id == id &&
         forall j :: x.ordinal < j < o ==> ch.loops[j].id != id)
    ensures x.state != n ==>
      (IsPredecessor(t'.snaps, t'.ledger, id, Tuple(n, Loop, o), x) <==>
         IsNewest(t.snaps, t.ledger, t.snaps.Keys, Loop, id, x) && forall j :: 0 <= j < o ==> ch.loops[j].id != id)
  {
    var at := Tuple(n, Loop, o);
    hide TreeOk;
    forall y: Tuple ensures TupleOn(t'.ledger, t'.snaps.Keys, Loop, id, y) && Newer(t'.snaps, at, y) <==>
      if y.state == n then y.kind == Loop && y.ordinal < o && ch.loops[y.ordinal].id == id
      else TupleOn(t.ledger, t.snaps.Keys, Loop, id, y)
    {
    }
    forall y: Tuple, z: Tuple | y.state in t'.snaps && z.state in t'.snaps
      ensures Newer(t'.snaps, y, z) <==>
        if y.state == n then z.state != n || y.ordinal > z.ordinal
        else z.state != n && Newer(t.snaps, y, z)
    {
    }
    if x.state == n {
      forall j | x.ordinal < j < o ensures IsPredecessor(t'.snaps, t'.ledger, id, at, x) ==> ch.loops[j].id != id {
        assert ch.loops[j].id == id ==> TupleOn(t'.ledger, t'.snaps.Keys, Loop, id, Tuple(n, Loop, j));
      }
    } else {
      forall j | 0 <= j < o ensures IsPredecessor(t'.snaps, t'.ledger, id, at, x) ==> ch.loops[j].id != id {
        assert ch.loops[j].id == id ==> TupleOn(t'.ledger, t'.snaps.Keys, Loop, id, Tuple(n, Loop, j));
      }
      NewestIffLatest(t, t', id, at, x, n, ch, o);
    }
  }

  lemma NewestIffLatest(t: Tables, t': Tables, id: RowId, at: Tuple, x: Tuple, n: StateId, ch: Changes, o: nat)
    requires n !in t.snaps && x.state != n && at == Tuple(n, Loop, o) && o < |ch.loops|
    requires forall y :: y in t.ledger ==> y.state in t.snaps
    requires forall y: Tuple :: TupleOn(t'.ledger, t'.snaps.Keys, Loop, id, y) && Newer(t'.snaps, at, y) <==>
      if y.state == n then y.kind == Loop && y.ordinal < o && ch.loops[y.ordinal].id == id
      else TupleOn(t.ledger, t.snaps.Keys, Loop, id, y)
    requires forall y: Tuple, z: Tuple :: y.state in t'.snaps && z.state in t'.snaps ==>
        (Newer(t'.snaps, y, z) <==>
          if y.state == n then z.state != n || y.ordinal > z.ordinal else z.state != n && Newer(t.snaps, y, z))
    requires forall j :: 0 <= j < o ==> IsPredecessor(t'.snaps, t'.ledger, id, at, x) ==> ch.loops[j].id != id
    requires t.snaps.Keys <= t'.snaps.Keys
    ensures IsPredecessor(t'.snaps, t'.ledger, id, at, x) <==>
         IsNewest(t.snaps, t.ledger, t.snaps.Keys, Loop, id, x) && forall j :: 0 <= j < o ==> ch.loops[j].id != id
  {
    if IsPredecessor(t'.snaps, t'.ledger, id, at, x) {
      forall y | TupleOn(t.ledger, t.snaps.Keys, Loop, id, y) ensures !Newer(t.snaps, y, x) {
        if y.state != n {
          assert TupleOn(t'.ledger, t'.snaps.Keys, Loop, id, y) && Newer(t'.snaps, at, y);
        }
      }
    }
    if IsNewest(t.snaps, t.ledger, t.snaps.Keys, Loop, id, x) && forall j :: 0 <= j < o ==> ch.loops[j].id != id {
      forall y | TupleOn(t'.ledger, t'.snaps.Keys, Loop, id, y) && Newer(t'.snaps, at, y)
        ensures !Newer(t'.snaps, y, x)
      {
        assert y.state != n && TupleOn(t.ledger, t.snaps.Keys, Loop, id, y);
      }
    }
  }

  ghost predicate NewStep(t: Tables, p: Params, u: Uuids, now: Time, t': Tables, parent: Option<StateId>, adm: Admitted,
                          f: FactsApplied, l: LoopsApplied) {
    && TreeOk(t.snaps) && RowsOk(t) && InPlaceOk(t)
    && Wrote(t, p, u, now, t', parent, adm, f, l)
  }

  lemma NewStepFrame(t: Tables, p: Params, u: Uuids, now: Time, t': Tables, parent: Option<StateId>, adm: Admitted,
                     f: FactsApplied, l: LoopsApplied)
    requires NewStep(t, p, u, now, t', parent, adm, f, l)
    ensures TreeOk(t.snaps) && RowsOk(t)
    ensures Extends(t.snaps, t'.snaps, u.state) && TreeOk(t'.snaps) && RowsOk(t')
    ensures t'.snaps[u.state].digest == Some(Changes(f.out, l.out))
    ensures t'.ledger == t.ledger + LedgerRows(u.state, Changes(f.out, l.out))
    ensures RowsFor(LedgerRows(u.state, Changes(f.out, l.out)), u.state, Changes(f.out, l.out))
    ensures forall x :: x in t.ledger ==> x.state in t.snaps && x.state != u.state
    ensures RowsGrown(t, t', u.state)
    ensures FreshUuids(t, p, u) && LoopsDone(t, p, u, now) == Some(l)
    ensures |l.out| == |l.owners| == |p.loopChanges| && |f.out| == |p.factChanges|
  {
    hide WrittenTables, RowsOk, InPlaceOk, TreeOk, Extends, RowsGrown, LedgerRows, WrittenCoverage, RowsFor,
         LoopIdsFresh, FactIdsFresh, ApplyLoops, ApplyFacts;
    WroteExtends(t, p, u, now, t', parent, adm, f, l);
    WroteRowsGrown(t, p, u, now, t', parent, adm, f, l);
    RowsOkKept(t, p, u, now, t', parent, adm, f, l);
    NoRowsYet(t, u.state);
    ExtendsIsNew(t.snaps, t'.snaps, u.state);
  }

  /** An earlier change of the same request is the predecessor, and its recorded owner is the one in effect. */
  lemma InheritedFromRequest(t: Tables, p: Params, u: Uuids, now: Time, t': Tables, parent: Option<StateId>,
                             adm: Admitted, f: FactsApplied, l: LoopsApplied, id: RowId, o: nat, j: nat)
    requires NewStep(t, p, u, now, t', parent, adm, f, l) && id in t.loops && id != ""
    requires j < o < |p.loopChanges| && p.loopChanges[j].loopId == Some(id)
    requires forall i :: j < i < o ==> p.loopChanges[i].loopId != Some(id)
    ensures InheritedOwner(t', id, Tuple(u.state, Loop, o)) == Some(OwnerBefore(t, p.loopChanges, id, o))
  {
    hide NewStep, TreeOk, RowsOk, LedgerRows, Extends, RowsGrown, FreshUuids, ApplyLoops, RowsFor;
    var n, ch := u.state, Changes(f.out, l.out);
    NewStepFrame(t, p, u, now, t', parent, adm, f, l);
    OutNames(t, p, u, now, l, id);
    RecordedOwner(t, p, u, now, l, j);
    OwnerUntouched(t.loops[id].owner, p.loopChanges, id, j + 1, o);
    var x := Tuple(n, Loop, j);
    PredecessorAtNew(t, t', n, ch, LedgerRows(n, ch), id, o, x);
    hide IsPredecessor;
    NewVersion(t, p, u, now, t', parent, adm, f, l, id, x);
    ExtendsIsNew(t.snaps, t'.snaps, n);
    assert ProvenBy(t', id, Tuple(n, Loop, o), x);
    PredecessorUnique(t', id, Tuple(n, Loop, o), x);
  }

  lemma NewVersion(t: Tables, p: Params, u: Uuids, now: Time, t': Tables, parent: Option<StateId>, adm: Admitted,
                   f: FactsApplied, l: LoopsApplied, id: RowId, x: Tuple)
    requires NewStep(t, p, u, now, t', parent, adm, f, l)
    requires x.state == u.state && x.kind == Loop && x.ordinal < |l.out| && l.out[x.ordinal].id == id
    ensures |l.out| == |l.owners| == |p.loopChanges|
    ensures VersionKey(id, x) in t'.versions
    ensures t'.versions[VersionKey(id, x)] ==
      Version(LoopVersionValue(p.loopChanges[x.ordinal], l.owners[x.ordinal], p.agent, now), p.agent, now)
  {
    hide WrittenTables, RowsOk, InPlaceOk, TreeOk, FreshUuids, ApplyLoops, ApplyFacts;
    VersionWritten(t, p, u, now, t', parent, adm, f, l, id, x);
  }

  lemma GapIsGapAfter(s: Snaps, s': Snaps, n: StateId, a: StateId)
    requires Extends(s, s', n) && s'[n].digest.Some? && a in s
    ensures GapBetween(s', s'[a].revision, s'[n].revision) <==> GapAfter(s, s[a].revision)
  {
    if g :| g in s && s[g].digest.None? && s[g].revision > s[a].revision {
      assert s'[g] == s[g] && s'[g].revision < s'[n].revision;
    }
  }

  /** No earlier change in the request: the owner is inherited exactly when the tables pin it down. */
  lemma InheritedFromTables(t: Tables, p: Params, u: Uuids, now: Time, t': Tables, parent: Option<StateId>,
                            adm: Admitted, f: FactsApplied, l: LoopsApplied, id: RowId, o: nat)
    requires NewStep(t, p, u, now, t', parent, adm, f, l) && id in t.loops && id != ""
    requires o < |p.loopChanges| && !NamedBefore(p.loopChanges, id, o)
    ensures InheritedOwner(t', id, Tuple(u.state, Loop, o)) == if OwnerKnown(t, id) then Some(t.loops[id].owner)
      else None
  {
    hide NewStep, TreeOk, RowsOk, LedgerRows, Extends, RowsGrown, FreshUuids, ApplyLoops, RowsFor, IsNewest,
         IsPredecessor, GapAfter, GapBetween;
    var n, ch := u.state, Changes(f.out, l.out);
    var at := Tuple(n, Loop, o);
    NewStepFrame(t, p, u, now, t', parent, adm, f, l);
    OutNames(t, p, u, now, l, id);
    forall x: Tuple ensures ProvenBy(t', id, at, x) <==>
      && IsNewest(t.snaps, t.ledger, t.snaps.Keys, Loop, id, x) && x.state in t.snaps
      && !GapAfter(t.snaps, t.snaps[x.state].revision) && VersionKey(id, x) in t.versions
    {
      ProvenAtNew(t, t', n, ch, LedgerRows(n, ch), id, o, x);
    }
    hide ProvenBy;
    if OwnerKnown(t, id) {
      var x :| IsNewest(t.snaps, t.ledger, t.snaps.Keys, Loop, id, x) && x.state in t.snaps &&
               !GapAfter(t.snaps, t.snaps[x.state].revision) && VersionKey(id, x) in t.versions;
      PredecessorUnique(t', id, at, x);
      KnownOwner(t, p, u, now, t', parent, adm, f, l, id, x);
    }
  }

  lemma KnownOwner(t: Tables, p: Params, u: Uuids, now: Time, t': Tables, parent: Option<StateId>, adm: Admitted,
                   f: FactsApplied, l: LoopsApplied, id: RowId, x: Tuple)
    requires NewStep(t, p, u, now, t', parent, adm, f, l) && id in t.loops
    requires IsNewest(t.snaps, t.ledger, t.snaps.Keys, Loop, id, x) && x.state in t.snaps
    requires !GapAfter(t.snaps, t.snaps[x.state].revision) && VersionKey(id, x) in t.versions
    ensures VersionKey(id, x) in t'.versions && t'.versions[VersionKey(id, x)].value.LoopValue?
    ensures t'.versions[VersionKey(id, x)].value.owner == t.loops[id].owner
  {
    assert LoopAgrees(t.loops[id], t.versions[VersionKey(id, x)]) by { hide WrittenTables, RowsOk, TreeOk, FreshUuids; }
    assert RowsGrown(t, t', u.state) by {
      hide WrittenTables, RowsOk, TreeOk, FreshUuids, InPlaceOk, RowsGrown;
      WroteRowsGrown(t, p, u, now, t', parent, adm, f, l);
    }
    hide NewStep, IsNewest, GapAfter;
  }

  lemma ProvenAtNew(t: Tables, t': Tables, n: StateId, ch: Changes, rows: Ledger, id: RowId, o: nat, x: Tuple)
    requires TreeOk(t.snaps) && RowsOk(t) && RowsOk(t') && RowsGrown(t, t', n)
    requires Extends(t.snaps, t'.snaps, n) && RowsFor(rows, n, ch) && t'.ledger == t.ledger + rows
    requires t'.snaps[n].digest.Some?
    requires forall y :: y in t.ledger ==> y.state in t.snaps
    requires o < |ch.loops| && forall j :: 0 <= j < o ==> ch.loops[j].id != id
    ensures ProvenBy(t', id, Tuple(n, Loop, o), x) <==>
      && IsNewest(t.snaps, t.ledger, t.snaps.Keys, Loop, id, x) && x.state in t.snaps
      && !GapAfter(t.snaps, t.snaps[x.state].revision) && VersionKey(id, x) in t.versions
  {
    hide TreeOk, IsNewest, RowsFor, LedgerOk, CoverageOk, RowsExist;
    PredecessorAtNew(t, t', n, ch, rows, id, o, x);
    NewestIsOld(t, id, x);
    if x.state in t.snaps {
      GapIsGapAfter(t.snaps, t'.snaps, n, x.state);
    }
    hide IsPredecessor, GapBetween, GapAfter;
  }

  lemma NewestIsOld(t: Tables, id: RowId, x: Tuple)
    ensures IsNewest(t.snaps, t.ledger, t.snaps.Keys, Loop, id, x) ==>
      x in t.ledger && x.state in t.snaps && x.kind == Loop
  {
  }

  // ----- Exactly when the verifier accepts what was just written

  /** An id that is there but false: the writer creates a row, the verifier expects an update. */
  predicate BlankRef(ref: RowRef) {
    ref == NullRef || ref == Ref("")
  }

  predicate NoBlankIds(p: Params) {
    && (forall i :: 0 <= i < |p.factChanges| ==> !BlankRef(p.factChanges[i].factRef))
    && (forall i :: 0 <= i < |p.loopChanges| ==> !BlankRef(p.loopChanges[i].loopRef))
  }

  /**
   An update that blanks a loop's owner: harmless only if the owner in effect is blank already,
   or if neither the request nor the tables pin that owner down.
   */
  ghost predicate BlankOwnerOk(t: Tables, cs: seq<LoopChange>, o: nat)
    requires o < |cs|
  {
    cs[o].owner == Some("") && Truthy(cs[o].loopId) && cs[o].loopId.value in t.loops ==>
      && var id := cs[o].loopId.value;
      NamedBefore(cs, id, o) || OwnerKnown(t, id) ==> OwnerBefore(t, cs, id, o) == ""
  }

  ghost predicate NoBlanks(t: Tables, p: Params) {
    NoBlankIds(p) && forall o :: 0 <= o < |p.loopChanges| ==> BlankOwnerOk(t, p.loopChanges, o)
  }

  /** The owner change o would inherit, where request or tables pin it down. */
  ghost function Inherits(t: Tables, cs: seq<LoopChange>, id: RowId, o: nat): Option<string>
    requires o <= |cs| && id in t.loops
  {
    if NamedBefore(cs, id, o) || OwnerKnown(t, id) then Some(OwnerBefore(t, cs, id, o)) else None
  }

  lemma InheritedAtNew(t: Tables, p: Params, u: Uuids, now: Time, t': Tables, parent: Option<StateId>, adm: Admitted,
                       f: FactsApplied, l: LoopsApplied, id: RowId, o: nat)
    requires NewStep(t, p, u, now, t', parent, adm, f, l) && id in t.loops && id != ""
    requires o < |p.loopChanges|
    ensures InheritedOwner(t', id, Tuple(u.state, Loop, o)) == Inherits(t, p.loopChanges, id, o)
  {
    hide NewStep, OwnerKnown, InheritedOwner;
    if NamedBefore(p.loopChanges, id, o) {
      var j := LastBefore(p.loopChanges, id, o);
      InheritedFromRequest(t, p, u, now, t', parent, adm, f, l, id, o, j);
    } else {
      InheritedFromTables(t, p, u, now, t', parent, adm, f, l, id, o);
      OwnerUntouched(t.loops[id].owner, p.loopChanges, id, 0, o);
    }
  }

  lemma {:induction false} LastBefore(cs: seq<LoopChange>, id: RowId, o: nat) returns (j: nat)
    requires o <= |cs| && NamedBefore(cs, id, o)
    ensures j < o && cs[j].loopId == Some(id)
    ensures forall i :: j < i < o ==> cs[i].loopId != Some(id)
    decreases o
  {
    if cs[o - 1].loopId == Some(id) {
      j := o - 1;
    } else {
      assert NamedBefore(cs, id, o - 1);
      j := LastBefore(cs, id, o - 1);
    }
  }

  /** The owner recorded for loop change o, and the one it would have inherited. */
  ghost predicate OwnerFacts(t: Tables, t': Tables, p: Params, l: LoopsApplied, x: Tuple, o: nat)
    requires o < |p.loopChanges| == |l.owners|
  {
    var c := p.loopChanges[o];
    if Truthy(c.loopId) then
      && c.loopId.value in t.loops
      && l.owners[o] == Or(c.owner, OwnerBefore(t, p.loopChanges, c.loopId.value, o))
      && InheritedOwner(t', c.loopId.value, x) == Inherits(t, p.loopChanges, c.loopId.value, o)
    else l.owners[o] == Or(c.owner, p.agent)
  }

  lemma OwnerFactsAtNew(t: Tables, p: Params, u: Uuids, now: Time, t': Tables, parent: Option<StateId>, adm: Admitted,
                        f: FactsApplied, l: LoopsApplied, o: nat)
    requires NewStep(t, p, u, now, t', parent, adm, f, l) && o < |p.loopChanges|
    ensures |l.out| == |l.owners| == |p.loopChanges|
    ensures OwnerFacts(t, t', p, l, Tuple(u.state, Loop, o), o)
    ensures l.out[o].created <==> !Truthy(p.loopChanges[o].loopId)
    ensures Truthy(p.loopChanges[o].loopId) ==> l.out[o].id == p.loopChanges[o].loopId.value
  {
    hide NewStep, FreshUuids, LoopsDone, InheritedOwner, Inherits, OwnerBefore;
    NewStepBasics(t, p, u, now, t', parent, adm, f, l);
    LoopOut(t, p, u, now, l, o);
    if Truthy(p.loopChanges[o].loopId) {
      RecordedOwner(t, p, u, now, l, o);
      InheritedAtNew(t, p, u, now, t', parent, adm, f, l, p.loopChanges[o].loopId.value, o);
    }
  }

  lemma LoopParityAtNew(t: Tables, p: Params, u: Uuids, now: Time, t': Tables, parent: Option<StateId>, adm: Admitted,
                        f: FactsApplied, l: LoopsApplied, o: nat)
    requires NewStep(t, p, u, now, t', parent, adm, f, l) && o < |p.loopChanges|
    ensures LoopParity(t', Tuple(u.state, Loop, o), p.loopChanges[o]) <==> BlankOwnerOk(t, p.loopChanges, o)
  {
    var x := Tuple(u.state, Loop, o);
    hide NewStep, OwnerFacts, BlankOwnerOk, LoopParity;
    OwnerFactsAtNew(t, p, u, now, t', parent, adm, f, l, o);
    NewVersion(t, p, u, now, t', parent, adm, f, l, l.out[o].id, x);
    NewCoverage(t, p, u, now, t', parent, adm, f, l, x);
    LoopParityByCases(t, t', x, p, now, l, o);
  }

  lemma LoopParityByCases(t: Tables, t': Tables, x: Tuple, p: Params, now: Time, l: LoopsApplied, o: nat)
    requires o < |p.loopChanges| == |l.out| == |l.owners|
    requires x.state in t'.snaps && t'.snaps[x.state].author == p.agent && t'.snaps[x.state].recordedAt == now
    requires x in t'.ledger && t'.ledger[x] == l.out[o]
    requires x in t'.coverage && t'.coverage[x] == Coverage(l.out[o].id, Materialized, ByWrite)
    requires VersionKey(l.out[o].id, x) in t'.versions
    requires t'.versions[VersionKey(l.out[o].id, x)] ==
      Version(LoopVersionValue(p.loopChanges[o], l.owners[o], p.agent, now), p.agent, now)
    requires l.out[o].created <==> !Truthy(p.loopChanges[o].loopId)
    requires Truthy(p.loopChanges[o].loopId) ==> l.out[o].id == p.loopChanges[o].loopId.value
    requires OwnerFacts(t, t', p, l, x, o)
    ensures LoopParity(t', x, p.loopChanges[o]) <==> BlankOwnerOk(t, p.loopChanges, o)
  {
    hide InheritedOwner, OwnerKnown, NamedBefore, OwnerBefore;
  }

  lemma NewStepBasics(t: Tables, p: Params, u: Uuids, now: Time, t': Tables, parent: Option<StateId>, adm: Admitted,
                      f: FactsApplied, l: LoopsApplied)
    requires NewStep(t, p, u, now, t', parent, adm, f, l)
    ensures FreshUuids(t, p, u) && LoopsDone(t, p, u, now) == Some(l)
    ensures |l.out| == |l.owners| == |p.loopChanges| && |f.out| == |p.factChanges|
  {
    hide WrittenTables, RowsOk, InPlaceOk, FreshUuids, TreeOk, ApplyLoops, ApplyFacts;
  }

  lemma LoopOut(t: Tables, p: Params, u: Uuids, now: Time, l: LoopsApplied, o: nat)
    requires FreshUuids(t, p, u) && LoopsDone(t, p, u, now) == Some(l) && o < |p.loopChanges|
    ensures |l.out| == |l.owners| == |p.loopChanges|
    ensures l.out[o].created <==> !Truthy(p.loopChanges[o].loopId)
    ensures Truthy(p.loopChanges[o].loopId) ==> l.out[o].id == p.loopChanges[o].loopId.value
    ensures !Truthy(p.loopChanges[o].loopId) ==> l.owners[o] == Or(p.loopChanges[o].owner, p.agent)
  {
    hide LoopIdsFresh, FactIdsFresh, ApplyLoops;
    LoopsAppliedShape(t.loops, p.loopChanges, u.loops, p.agent, now, |p.loopChanges|);
    Prefix(t.loops, p.loopChanges, u.loops, p.agent, now, o + 1, |p.loopChanges|);
    if !Truthy(p.loopChanges[o].loopId) {
      CreatedOwner(t.loops, p.loopChanges, u.loops, p.agent, now, o);
    }
  }

  lemma CreatedOwner(rows: Loops, cs: seq<LoopChange>, ids: seq<RowId>, author: Principal, now: Time, o: nat)
    requires o < |cs| == |ids| && ApplyLoops(rows, cs, ids, author, now, o + 1).Some? && !Truthy(cs[o].loopId)
    ensures var owners := ApplyLoops(rows, cs, ids, author, now, o + 1).value.owners;
      |owners| == o + 1 && owners[o] == Or(cs[o].owner, author)
  {
    LoopsAppliedShape(rows, cs, ids, author, now, o);
  }

  lemma NewCoverage(t: Tables, p: Params, u: Uuids, now: Time, t': Tables, parent: Option<StateId>, adm: Admitted,
                    f: FactsApplied, l: LoopsApplied, x: Tuple)
    requires NewStep(t, p, u, now, t', parent, adm, f, l)
    requires x.state == u.state && x.ordinal < |Changes(f.out, l.out).Of(x.kind)|
    ensures x in t'.ledger && t'.ledger[x] == Changes(f.out, l.out).Of(x.kind)[x.ordinal]
    ensures x in t'.coverage && t'.coverage[x] == Coverage(t'.ledger[x].id, Materialized, ByWrite)
    ensures u.state in t'.snaps && t'.snaps[u.state].author == p.agent && t'.snaps[u.state].recordedAt == now
  {
    hide WrittenTables, RowsOk, InPlaceOk, FreshUuids, LedgerRows, TreeOk;
    WroteExtends(t, p, u, now, t', parent, adm, f, l);
    WroteRowsGrown(t, p, u, now, t', parent, adm, f, l);
  }

  lemma NamesParityAtNew(t: Tables, p: Params, u: Uuids, now: Time, t': Tables, parent: Option<StateId>, adm: Admitted,
                         f: FactsApplied, l: LoopsApplied)
    requires NewStep(t, p, u, now, t', parent, adm, f, l)
    ensures u.state in t'.snaps
    ensures NamesParity(t'.snaps[u.state]) <==> NoBlankIds(p)
  {
    hide TreeOk, RowsOk, InPlaceOk, WrittenTables, ApplyFacts, ApplyLoops;
    WroteExtends(t, p, u, now, t', parent, adm, f, l);
    FactsAppliedShape(t.facts, p.factChanges, u.facts, p.agent, now, |p.factChanges|);
    LoopsAppliedShape(t.loops, p.loopChanges, u.loops, p.agent, now, |p.loopChanges|);
    NamesByCases(t, p, u, t'.snaps[u.state], f, l);
  }

  lemma NamesByCases(t: Tables, p: Params, u: Uuids, snap: Snapshot, f: FactsApplied, l: LoopsApplied)
    requires FreshUuids(t, p, u)
    requires |f.out| == |p.factChanges| && |l.out| == |p.loopChanges|
    requires snap.digest == Some(Changes(f.out, l.out))
    requires snap.envelope.factChanges == p.factChanges && snap.envelope.loopChanges == p.loopChanges
    requires forall i :: 0 <= i < |f.out| ==>
      f.out[i] == if Truthy(p.factChanges[i].factId) then Applied(p.factChanges[i].factId.value, false)
        else Applied(u.facts[i], true)
    requires forall i :: 0 <= i < |l.out| ==>
      l.out[i] == if Truthy(p.loopChanges[i].loopId) then Applied(p.loopChanges[i].loopId.value, false)
        else Applied(u.loops[i], true)
    ensures NamesParity(snap) <==> NoBlankIds(p)
  {
  }

  lemma CoverageExactAtNew(t: Tables, p: Params, u: Uuids, now: Time, t': Tables, parent: Option<StateId>,
                           adm: Admitted, f: FactsApplied, l: LoopsApplied)
    requires NewStep(t, p, u, now, t', parent, adm, f, l)
    ensures CoverageExact(t', u.state) && LedgerVerifies(t'.snaps, t'.ledger, u.state)
  {
    hide NewStep, TreeOk, Wrote, InPlaceOk, LedgerRows, RowsGrown, Extends, FreshUuids, LoopsDone, RowsOk,
         CoverageExact, RowsFor, LedgerVerifies;
    NewStepFrame(t, p, u, now, t', parent, adm, f, l);
    ExtendsIsNew(t.snaps, t'.snaps, u.state);
    NewBackfill(t, p, u, now, t', parent, adm, f, l);
    forall x: Tuple | x.state == u.state && x in t'.ledger
      ensures x in t'.coverage && t'.coverage[x].source == ByWrite
    {
      LedgerOrdinal(t', u.state, x);
      NewCoverage(t, p, u, now, t', parent, adm, f, l, x);
    }
    RowsVerify(t', u.state);
  }

  /** A ledger entry of a digested snapshot is one of its digest's. */
  lemma LedgerOrdinal(t: Tables, n: StateId, x: Tuple)
    requires RowsOk(t) && n in t.snaps && t.snaps[n].digest.Some? && x in t.ledger && x.state == n
    ensures x.ordinal < |t.snaps[n].digest.value.Of(x.kind)|
  {
    hide CoverageOk, VersionsOk, RowsExist;
    assert LedgerVerifies(t.snaps, t.ledger, n);
  }

  lemma RowsVerify(t: Tables, n: StateId)
    requires RowsOk(t) && n in t.snaps && t.snaps[n].digest.Some? && n !in t.backfilled
    requires forall x: Tuple :: x.state == n && x in t.ledger ==> x in t.coverage && t.coverage[x].source == ByWrite
    ensures CoverageExact(t, n) && LedgerVerifies(t.snaps, t.ledger, n)
  {
    hide RowsExist, LedgerVerifies;
  }

  lemma NewBackfill(t: Tables, p: Params, u: Uuids, now: Time, t': Tables, parent: Option<StateId>, adm: Admitted,
                    f: FactsApplied, l: LoopsApplied)
    requires NewStep(t, p, u, now, t', parent, adm, f, l)
    ensures u.state !in t'.backfilled
  {
    hide TreeOk, RowsOk, InPlaceOk, Wrote;
    WroteEvidence(t, p, u, now, t', parent, adm, f, l);
  }

  lemma FactParityAtNew(t: Tables, p: Params, u: Uuids, now: Time, t': Tables, parent: Option<StateId>, adm: Admitted,
                        f: FactsApplied, l: LoopsApplied, o: nat)
    requires NewStep(t, p, u, now, t', parent, adm, f, l) && o < |p.factChanges|
    ensures FactParity(t', Tuple(u.state, Fact, o), p.factChanges[o])
  {
    var x := Tuple(u.state, Fact, o);
    NewStepBasics(t, p, u, now, t', parent, adm, f, l);
    NewCoverage(t, p, u, now, t', parent, adm, f, l, x);
    hide WrittenTables, RowsOk, InPlaceOk, TreeOk, FreshUuids, ApplyLoops, ApplyFacts;
    VersionWritten(t, p, u, now, t', parent, adm, f, l, f.out[o].id, x);
  }

  /** The verifier accepts the snapshot a step has just written exactly when the request had no harmful blank. */
  lemma SnapParityAtNew(t: Tables, p: Params, u: Uuids, now: Time, t': Tables, parent: Option<StateId>, adm: Admitted,
                        f: FactsApplied, l: LoopsApplied)
    requires NewStep(t, p, u, now, t', parent, adm, f, l)
    ensures u.state in t'.snaps
    ensures SnapParity(t', u.state) <==> NoBlanks(t, p)
  {
    hide NewStep, BlankOwnerOk, LoopParity, FactParity, CoverageExact, LedgerVerifies, NoBlankIds, NamesParity;
    NamesParityAtNew(t, p, u, now, t', parent, adm, f, l);
    CoverageExactAtNew(t, p, u, now, t', parent, adm, f, l);
    NewEnvelope(t, p, u, now, t', parent, adm, f, l);
    forall o: nat | o < |p.factChanges| ensures FactParity(t', Tuple(u.state, Fact, o), p.factChanges[o]) {
      FactParityAtNew(t, p, u, now, t', parent, adm, f, l, o);
    }
    forall o: nat | o < |p.loopChanges|
      ensures LoopParity(t', Tuple(u.state, Loop, o), p.loopChanges[o]) <==> BlankOwnerOk(t, p.loopChanges, o)
    {
      LoopParityAtNew(t, p, u, now, t', parent, adm, f, l, o);
    }
  }

  lemma NewEnvelope(t: Tables, p: Params, u: Uuids, now: Time, t': Tables, parent: Option<StateId>, adm: Admitted,
                    f: FactsApplied, l: LoopsApplied)
    requires NewStep(t, p, u, now, t', parent, adm, f, l)
    ensures u.state in t'.snaps && t'.snaps[u.state].digest.Some?
    ensures t'.snaps[u.state].envelope.factChanges == p.factChanges &&
      t'.snaps[u.state].envelope.loopChanges == p.loopChanges
  {
    hide TreeOk, RowsOk, InPlaceOk, Wrote;
    WroteExtends(t, p, u, now, t', parent, adm, f, l);
  }

  /** A checkpoint that wrote, in a state that satisfies the invariant. */
  ghost predicate Committed(t: Tables, p: Params, u: Uuids, now: Time, t': Tables) {
    Inv(t) && FreshUuids(t, p, u) && Step(t, p, u, now).0 == t' && Step(t, p, u, now).1.Written?
  }

  lemma CommittedParts(t: Tables, p: Params, u: Uuids, now: Time, t': Tables)
    returns (parent: Option<StateId>, adm: Admitted, f: FactsApplied, l: LoopsApplied)
    requires Committed(t, p, u, now, t')
    ensures NewStep(t, p, u, now, t', parent, adm, f, l) && AdmittedBy(t, p, parent, adm)
  {
    hide AdmittedBy, Wrote, LoopIdsFresh, FactIdsFresh, TreeOk, RowsOk, InPlaceOk, PointerOk, RetirementsOk, RowsOwned,
         ReconcilesOk, KeysUnique, FingerprintsOk;
    parent, adm, f, l := StepWrote(t, p, u, now, t', Step(t, p, u, now).1);
  }

  /** Every older snapshot is judged as before. */
  lemma OlderSnapshotsJudgedAlike(t: Tables, p: Params, u: Uuids, now: Time, t': Tables, a: StateId)
    requires Committed(t, p, u, now, t') && a in t.snaps
    ensures a in t'.snaps && (SnapParity(t', a) <==> SnapParity(t, a))
  {
    hide Committed, NewStep, AdmittedBy, SnapParity, Extends, RowsGrown, TreeOk, RowsOk, RowsFor, LedgerRows,
         FreshUuids, LoopsDone;
    var parent, adm, f, l := CommittedParts(t, p, u, now, t');
    NewStepFrame(t, p, u, now, t', parent, adm, f, l);
    ExtendsKeys(t.snaps, t'.snaps, u.state);
    SnapParityFrame(t, t', u.state, a);
  }

  /**
   The property the verifier is meant to have, "a committed write never breaks version parity",
   is false. Parity holds after a write if and only if it held before and the request carried no
   harmful blank.
   */
  lemma ParityIff(t: Tables, p: Params, u: Uuids, now: Time, t': Tables)
    requires Committed(t, p, u, now, t')
    ensures VersionParity(t') <==> VersionParity(t) && NoBlanks(t, p)
  {
    hide Committed, NewStep, AdmittedBy, SnapParity, NoBlanks, Extends;
    var parent, adm, f, l := CommittedParts(t, p, u, now, t');
    SnapParityAtNew(t, p, u, now, t', parent, adm, f, l);
    NewStepExtends(t, p, u, now, t', parent, adm, f, l);
    ExtendsKeys(t.snaps, t'.snaps, u.state);
    forall a | a in t.snaps ensures a in t'.snaps && (SnapParity(t', a) <==> SnapParity(t, a)) {
      OlderSnapshotsJudgedAlike(t, p, u, now, t', a);
    }
  }

  lemma NewStepExtends(t: Tables, p: Params, u: Uuids, now: Time, t': Tables, parent: Option<StateId>, adm: Admitted,
                       f: FactsApplied, l: LoopsApplied)
    requires NewStep(t, p, u, now, t', parent, adm, f, l)
    ensures Extends(t.snaps, t'.snaps, u.state)
  {
    hide TreeOk, RowsOk, InPlaceOk, Wrote;
    WroteExtends(t, p, u, now, t', parent, adm, f, l);
  }
}
