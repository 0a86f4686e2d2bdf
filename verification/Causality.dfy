/**
 Causal history: everything behind a snapshot through parents and merge inputs. It is never a source
 of accepted values, but nothing written may fall out of it.
 */
module Causality {
  import opened Options
  import opened Types
  import opened Tree
  import opened Heads
  import opened ChangeLog
  import opened Verifiers
  import opened Evaluation
  import opened Protocol
  import opened Invariants
  import opened Evidence
  import opened Runs
  import opened Reconciling

  /** What lies directly behind a snapshot: its parent, and the heads it merged. */
  function Behind(t: Tables, a: StateId): set<StateId> {
    (if a in t.snaps && t.snaps[a].parent.Some? then {t.snaps[a].parent.value} else {}) +
    (set e | e in t.inputs && e.0 == a :: e.1)
  }

  ghost predicate Closed(t: Tables, on: set<StateId>) {
    forall a :: a in on ==> Behind(t, a) <= on
  }

  /** The least set that contains the head and everything behind its members. */
  ghost predicate IsHistory(t: Tables, head: StateId, history: set<StateId>) {
    && head in history && Closed(t, history)
    && forall on :: head in on && Closed(t, on) ==> history <= on
  }

  /** All that can ever lie behind anything in the scope. */
  ghost function Named(t: Tables): set<StateId> {
    (set a | a in t.snaps && t.snaps[a].parent.Some? :: t.snaps[a].parent.value) + (set e | e in t.inputs :: e.1)
  }

  lemma BehindIsNamed(t: Tables, a: StateId)
    ensures Behind(t, a) <= Named(t)
  {
  }

  /** historicalAncestry, the deduplicating recursive query, as the worklist it is. */
  method HistoricalAncestry(t: Tables, head: StateId) returns (history: set<StateId>)
    ensures IsHistory(t, head, history)
  {
    hide Behind, Named;
    history := {head};
    var todo := {head};
    while todo != {}
      invariant head in history && todo <= history <= {head} + Named(t)
      invariant forall a :: a in history - todo ==> Behind(t, a) <= history
      invariant forall on :: head in on && Closed(t, on) ==> history <= on
      decreases {head} + Named(t) - history, todo
    {
      var a :| a in todo;
      BehindIsNamed(t, a);
      var found := Behind(t, a) - history;
      if found == {} {
        todo := todo - {a};
      } else {
        Shrinks({head} + Named(t), history, found);
        history, todo := history + found, todo - {a} + found;
      }
    }
  }

  lemma Shrinks(all: set<StateId>, history: set<StateId>, found: set<StateId>)
    requires found <= all && found !! history && found != {}
    ensures all - (history + found) < all - history
  {
    var b :| b in found;
    assert b in all - history && b !in all - (history + found);
  }

  // ----- Nothing written is lost

  lemma LeafRetired(t: Tables, a: StateId)
    requires Inv(t) && a in t.snaps && !HasChild(t.snaps, a) && a !in LiveHeads(t)
    ensures a in t.retirements
    ensures var r := t.retirements[a].retiredBy;
      r in t.snaps && t.snaps[r].revision > t.snaps[a].revision && a in Behind(t, r)
  {
    hide TreeOk, KeysUnique, FingerprintsOk, RowsOk, InPlaceOk, PointerOk, RowsOwned, ResolutionRows, AcceptBacked,
         Ancestry, LedgerVerifies, AdoptedBy;
    var r := t.retirements[a].retiredBy;
    assert RecordsRetiring(t.snaps, r, a);
    assert SnapReconcileOk(t, r);
    assert (r, a) in t.inputs;
  }

  /** A snapshot is behind its children; one without is live, or retired by a newer one that merged it. */
  lemma {:induction false} BehindSome(t: Tables, on: set<StateId>, a: StateId)
    requires Inv(t) && LiveHeads(t) <= on && Closed(t, on) && a in t.snaps
    ensures a in on
    decreases MaxRevision(t.snaps) - t.snaps[a].revision
  {
    hide Inv, LiveHeads, Behind;
    if HasChild(t.snaps, a) {
      var c :| c in t.snaps && t.snaps[c].parent == Some(a);
      ChildIsNewer(t, c, a);
      BehindSome(t, on, c);
    } else if a !in LiveHeads(t) {
      LeafRetired(t, a);
      BehindSome(t, on, t.retirements[a].retiredBy);
    }
  }

  lemma ChildIsNewer(t: Tables, c: StateId, a: StateId)
    requires Inv(t) && c in t.snaps && a in t.snaps && t.snaps[c].parent == Some(a)
    ensures t.snaps[c].revision > t.snaps[a].revision && a in Behind(t, c)
  {
    hide KeysUnique, FingerprintsOk, RowsOk, InPlaceOk, PointerOk, RowsOwned, RetirementsOk, ReconcilesOk;
  }

  /** Behind a snapshot of the scope are snapshots of the scope. */
  lemma ScopeClosed(t: Tables)
    requires Inv(t)
    ensures Closed(t, t.snaps.Keys)
  {
    hide KeysUnique, FingerprintsOk, RowsOk, InPlaceOk, PointerOk, ResolutionRows, AcceptBacked, Ancestry,
         LedgerVerifies, AdoptedBy;
    forall e | e in t.inputs ensures e.1 in t.snaps {
      assert SnapReconcileOk(t, e.0);
      assert (e.0, e.1) in t.inputs;
    }
  }

  /** Every snapshot is in the causal history of some live head. */
  lemma NothingIsLost(t: Tables, on: set<StateId>)
    requires Inv(t) && LiveHeads(t) <= on && Closed(t, on)
    ensures t.snaps.Keys <= on
  {
    hide Inv, LiveHeads, Closed;
    forall a | a in t.snaps ensures a in on {
      BehindSome(t, on, a);
    }
  }

  /** While a scope has one live head, the whole scope is its causal history. */
  lemma OneHeadHistory(t: Tables, head: StateId)
    requires Inv(t) && LiveHeads(t) == {head}
    ensures IsHistory(t, head, t.snaps.Keys)
  {
    hide Inv, Closed;
    ScopeClosed(t);
    assert head in LiveHeads(t);
    forall on | head in on && Closed(t, on) ensures t.snaps.Keys <= on {
      NothingIsLost(t, on);
    }
  }

  /** After any successful reconcile every snapshot of the scope is in the causal history of its head. */
  lemma ReconcileRemembersAll(t: Tables, p: Params, u: Uuids, now: Time, t': Tables, n: Normalized)
    requires Inv(t) && Reconciled(t, p, u, now, t', n)
    ensures IsHistory(t', u.state, t'.snaps.Keys)
  {
    hide Inv, Step, Normalize, LoopIdsFresh, FactIdsFresh, LiveHeads, IsHistory;
    StepInv(t, p, u, now);
    OneLiveHead(t, p, u, now, t', n);
    OneHeadHistory(t', u.state);
  }

  /** The accepted lineage is part of the causal history. */
  lemma {:induction false} LineageRemembered(t: Tables, on: set<StateId>, a: StateId)
    requires TreeOk(t.snaps) && Closed(t, on) && a in on && a in t.snaps
    ensures Ancestry(t.snaps, a) <= on
    decreases t.snaps[a].revision
  {
    hide Ancestry;
    AncestryUnfold(t.snaps, a);
    if t.snaps[a].parent.Some? {
      assert t.snaps[a].parent.value in Behind(t, a);
      LineageRemembered(t, on, t.snaps[a].parent.value);
    }
  }

  // ----- Causal history never changes

  lemma SameBehind(t: Tables, t': Tables, history: set<StateId>)
    requires forall a :: a in history ==> Behind(t', a) == Behind(t, a)
    ensures forall head :: IsHistory(t, head, history) ==> IsHistory(t', head, history)
  {
    hide Behind;
    forall head, on | IsHistory(t, head, history) && head in on && Closed(t', on) ensures history <= on {
      var both := on * history;
      forall a | a in both ensures Behind(t, a) <= both {
        assert Behind(t', a) == Behind(t, a);
      }
      assert Closed(t, both) && head in both;
    }
  }

  /** A written step leaves the causal history of every older snapshot as it was. */
  lemma HistoryKept(t: Tables, p: Params, u: Uuids, now: Time, head: StateId, history: set<StateId>)
    requires Inv(t) && FreshUuids(t, p, u) && head in t.snaps && IsHistory(t, head, history)
    ensures IsHistory(Step(t, p, u, now).0, head, history)
  {
    hide Inv, Step, LoopIdsFresh, FactIdsFresh, Wrote, AdmittedBy, IsHistory, Behind, Closed;
    var (t', o) := Step(t, p, u, now);
    if o.Written? {
      var parent, adm, f, l := StepWrote(t, p, u, now, t', o);
      SnapsAfter(t, p, u, now, t', parent, adm, f, l);
      HistoryInScope(t, head, history);
      WroteEvidence(t, p, u, now, t', parent, adm, f, l);
      forall a | a in history ensures Behind(t', a) == Behind(t, a) {
        BehindKept(t, t', u.state, adm.record, a);
      }
      SameBehind(t, t', history);
    } else {
      StepRefused(t, p, u, now);
    }
  }

  lemma HistoryInScope(t: Tables, head: StateId, history: set<StateId>)
    requires Inv(t) && head in t.snaps && IsHistory(t, head, history)
    ensures history <= t.snaps.Keys
  {
    hide Inv, Closed;
    ScopeClosed(t);
  }

  lemma BehindKept(t: Tables, t': Tables, n: StateId, record: Option<ReconciliationRecord>, a: StateId)
    requires a in t.snaps && a != n && a in t'.snaps && t'.snaps[a] == t.snaps[a]
    requires t'.inputs == t.inputs + InputRows(record, n)
    ensures Behind(t', a) == Behind(t, a)
  {
  }

  /** Nor does any run of them. */
  lemma {:induction false} HistoryForGood(t: Tables, calls: seq<Call>, head: StateId, history: set<StateId>)
    requires Inv(t) && Admissible(t, calls) && head in t.snaps && IsHistory(t, head, history)
    ensures IsHistory(Run(t, calls), head, history)
    decreases |calls|
  {
    hide Inv, Step, FreshUuids, IsHistory;
    if calls != [] {
      var c := calls[0];
      HistoryKept(t, c.p, c.u, c.now, head, history);
      StepInv(t, c.p, c.u, c.now);
      StaysInScope(t, c.p, c.u, c.now, head);
      HistoryForGood(Next(t, c), calls[1..], head, history);
    }
  }

  lemma StaysInScope(t: Tables, p: Params, u: Uuids, now: Time, a: StateId)
    requires FreshUuids(t, p, u) && a in t.snaps
    ensures a in Step(t, p, u, now).0.snaps
  {
    hide Step, LoopIdsFresh, FactIdsFresh, Wrote, AdmittedBy;
    var (t', o) := Step(t, p, u, now);
    if o.Written? {
      var parent, adm, f, l := StepWrote(t, p, u, now, t', o);
      SnapsAfter(t, p, u, now, t', parent, adm, f, l);
    } else {
      StepRefused(t, p, u, now);
    }
  }
}
