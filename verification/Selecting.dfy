/** selectV3Values, as the loops it is: whatever order the coverage rows arrive in, the specified selection. */
module Selecting {
  import opened Options
  import opened Types
  import opened Tree
  import opened Heads
  import opened Newest
  import opened ChangeLog
  import opened Divergence
  import opened Verifiers
  import opened Invariants
  import opened Reconciling
  import opened Selection
  import opened ReconcileWalks
  import opened ReconcileDecisions

  type ChangeId = (Kind, RowId)

  ghost predicate Names(l: Ledger, x: Tuple, id: ChangeId) {
    x in l && x.kind == id.0 && l[x].id == id.1
  }

  /** The map holds, per (kind, id), the newest of the rows seen so far. */
  ghost predicate HoldsNewest(s: Snaps, l: Ledger, seen: set<Tuple>, m: map<ChangeId, Tuple>) {
    && (forall x :: x in seen && x in l ==> (x.kind, l[x].id) in m)
    && (forall id :: id in m ==> m[id] in seen && Names(l, m[id], id))
    && (forall id, y :: id in m && y in seen && Names(l, y, id) ==> !Newer(s, y, m[id]))
  }

  lemma HoldsOneMore(s: Snaps, l: Ledger, seen: set<Tuple>, m: map<ChangeId, Tuple>, x: Tuple, m': map<ChangeId, Tuple>)
    requires HoldsNewest(s, l, seen, m) && x in l
    requires var id := (x.kind, l[x].id);
      m' == if id !in m || Newer(s, x, m[id]) then m[id := x] else m
    ensures HoldsNewest(s, l, seen + {x}, m')
  {
    forall id, y | id in m' && y in seen + {x} && Names(l, y, id) ensures !Newer(s, y, m'[id]) {
      if id == (x.kind, l[x].id) && id in m && Newer(s, x, m[id]) && y in seen {
        NewestReplaced(s, y, m[id], x);
      }
    }
  }

  ghost function ChangesOn(l: Ledger, on: set<StateId>): set<Tuple> {
    set x | x in l && x.state in on
  }

  /** One pass over the coverage rows of the lineage. */
  method NewestOnLineage(t: Tables, lineage: set<StateId>) returns (newest: map<ChangeId, Tuple>)
    requires RowsOk(t)
    ensures HoldsNewest(t.snaps, t.ledger, ChangesOn(t.ledger, lineage), newest)
  {
    hide RowsOk, HoldsNewest, Newer;
    CoverageIsLedger(t);
    var tuples := set x | x in t.coverage && x.state in lineage;
    assert tuples == ChangesOn(t.ledger, lineage);
    newest := map[];
    HoldsNothing(t.snaps, t.ledger);
    var todo := tuples;
    assert tuples - todo == {};
    while todo != {}
      invariant todo <= tuples
      invariant HoldsNewest(t.snaps, t.ledger, tuples - todo, newest)
      decreases todo
    {
      var x :| x in todo;
      ghost var seen, before := tuples - todo, newest;
      todo := todo - {x};
      assert tuples - todo == seen + {x};
      var id := (x.kind, t.coverage[x].id);
      if id !in newest || Newer(t.snaps, x, newest[id]) {
        newest := newest[id := x];
      }
      HoldsOneMore(t.snaps, t.ledger, seen, before, x, newest);
    }
    assert tuples - todo == tuples;
  }

  lemma HoldsNothing(s: Snaps, l: Ledger)
    ensures HoldsNewest(s, l, {}, map[])
  {
  }

  lemma CoverageIsLedger(t: Tables)
    requires RowsOk(t)
    ensures t.coverage.Keys == t.ledger.Keys && forall x :: x in t.ledger ==> t.coverage[x].id == t.ledger[x].id
  {
    hide LedgerOk, VersionsOk, RowsExist;
  }

  /** What the pass leaves is the accepted change of every (kind, id). */
  lemma NewestIsAccepted(t: Tables, head: StateId, newest: map<ChangeId, Tuple>, k: Kind, id: RowId)
    requires TreeOk(t.snaps)
    requires HoldsNewest(t.snaps, t.ledger, ChangesOn(t.ledger, Ancestry(t.snaps, head)), newest)
    ensures AcceptedTuple(t, head, k, id) == if (k, id) in newest then Some(newest[(k, id)]) else None
  {
    var on := Ancestry(t.snaps, head);
    var seen := ChangesOn(t.ledger, on);
    AncestryInScope(t.snaps, head);
    hide Ancestry, TreeOk;
    if (k, id) in newest {
      var x := newest[(k, id)];
      assert Names(t.ledger, x, (k, id));
      forall y | TupleOn(t.ledger, on, k, id, y) ensures !Newer(t.snaps, y, x) {
        assert y in seen && Names(t.ledger, y, (k, id));
      }
      assert IsNewest(t.snaps, t.ledger, on, k, id, x);
      NewestUnique(t.snaps, t.ledger, on, k, id, x);
    } else {
      forall x ensures !TupleOn(t.ledger, on, k, id, x) {
        assert TupleOn(t.ledger, on, k, id, x) ==> x in seen;
      }
    }
  }

  lemma AcceptedInTables(t: Tables, head: StateId, k: Kind, id: RowId)
    requires RowsOk(t) && AcceptedTuple(t, head, k, id).Some?
    ensures var x := AcceptedTuple(t, head, k, id).value;
      && x in t.coverage && x.state in t.snaps
      && (t.coverage[x].disposition == Materialized <==> Selected(t, head, k, id))
      && (Selected(t, head, k, id) ==> SelectedVersion(t, head, k, id) == t.versions[VersionKey(id, x)])
      && if k == Fact then id in t.facts else id in t.loops
  {
    NewestIs(t.snaps, t.ledger, head, k, id);
    hide LedgerVerifies, NewestOf, Ancestry;
  }

  datatype Collected = Collected(
    facts: map<RowId, AcceptedFact>, loops: map<RowId, AcceptedLoop>,
    selectedFacts: set<RowId>, selectedLoops: set<RowId>)

  /** The selection restricted to the (kind, id) pairs handled so far. */
  ghost function CollectedOf(t: Tables, head: StateId, done: set<ChangeId>): Collected {
    Collected(
      map id | id in CurrentFacts(t, head) && (Fact, id) in done :: CurrentFacts(t, head)[id],
      map id | id in OpenLoops(t, head) && (Loop, id) in done :: OpenLoops(t, head)[id],
      set id | id in t.facts && (Fact, id) in done && Selected(t, head, Fact, id),
      set id | id in t.loops && (Loop, id) in done && Selected(t, head, Loop, id))
  }

  ghost function Collecting(t: Tables, head: StateId, k: Kind, id: RowId, c: Collected): Collected {
    if !Selected(t, head, k, id) then c
    else
      var v, provenance := SelectedVersion(t, head, k, id), ProvenanceOf(t, head, k, id);
      if k == Fact then
        c.(selectedFacts := c.selectedFacts + {id},
           facts := if v.value.factStatus == Superseded then c.facts else c.facts[id := FactView(v, provenance)])
      else
        c.(selectedLoops := c.selectedLoops + {id},
           loops := if id in t.loops then c.loops[id := LoopView(v, t.loops[id], provenance)] else c.loops)
  }

  /** One newest change: suppressed unless materialized, and a superseded fact is not current. */
  method Collect(t: Tables, head: StateId, k: Kind, id: RowId, x: Tuple, c: Collected) returns (c': Collected)
    requires RowsOk(t) && AcceptedTuple(t, head, k, id) == Some(x)
    requires x in t.coverage && x.state in t.snaps
    ensures c' == Collecting(t, head, k, id, c)
  {
    AcceptedInTables(t, head, k, id);
    hide RowsOk, AcceptedTuple;
    c' := c;
    if t.coverage[x].disposition != Materialized {
      return;
    }
    var v := t.versions[VersionKey(id, x)];
    var provenance := Provenance(x.state, t.snaps[x.state].revision, x.ordinal);
    if k == Fact {
      c' := c'.(selectedFacts := c'.selectedFacts + {id});
      if v.value.factStatus == Superseded {
        return;
      }
      c' := c'.(facts := c'.facts[id := FactView(v, provenance)]);
    } else {
      c' := c'.(selectedLoops := c'.selectedLoops + {id});
      c' := c'.(loops := c'.loops[id := LoopView(v, t.loops[id], provenance)]);
    }
  }

  lemma FactCollected(t: Tables, head: StateId, done: set<ChangeId>, id: RowId)
    requires Selected(t, head, Fact, id) ==> id in t.facts
    ensures Collecting(t, head, Fact, id, CollectedOf(t, head, done)) == CollectedOf(t, head, done + {(Fact, id)})
  {
    hide SelectedVersion, ProvenanceOf, Selected, OpenLoops;
    var c, d := Collecting(t, head, Fact, id, CollectedOf(t, head, done)), CollectedOf(t, head, done + {(Fact, id)});
    assert c.facts == d.facts;
    assert c.selectedFacts == d.selectedFacts;
    assert c.loops == d.loops;
    assert c.selectedLoops == d.selectedLoops;
  }

  lemma LoopCollected(t: Tables, head: StateId, done: set<ChangeId>, id: RowId)
    requires Selected(t, head, Loop, id) ==> id in t.loops
    ensures Collecting(t, head, Loop, id, CollectedOf(t, head, done)) == CollectedOf(t, head, done + {(Loop, id)})
  {
    hide SelectedVersion, ProvenanceOf, Selected, CurrentFacts;
    var c, d := Collecting(t, head, Loop, id, CollectedOf(t, head, done)), CollectedOf(t, head, done + {(Loop, id)});
    assert c.loops == d.loops;
    assert c.selectedLoops == d.selectedLoops;
    assert c.facts == d.facts;
    assert c.selectedFacts == d.selectedFacts;
  }

  lemma CollectedOneMore(t: Tables, head: StateId, done: set<ChangeId>, k: Kind, id: RowId)
    requires RowsOk(t) && AcceptedTuple(t, head, k, id).Some?
    ensures Collecting(t, head, k, id, CollectedOf(t, head, done)) == CollectedOf(t, head, done + {(k, id)})
  {
    AcceptedInTables(t, head, k, id);
    hide RowsOk, AcceptedTuple, Selected, Collecting, CollectedOf;
    if k == Fact {
      FactCollected(t, head, done, id);
    } else {
      LoopCollected(t, head, done, id);
    }
  }

  lemma CollectedAll(t: Tables, head: StateId, done: set<ChangeId>)
    requires forall k, id :: Selected(t, head, k, id) ==> (k, id) in done
    ensures CollectedOf(t, head, done) ==
      Collected(CurrentFacts(t, head), OpenLoops(t, head),
                t.facts.Keys - SuppressedFacts(t, head), t.loops.Keys - SuppressedLoops(t, head))
  {
    hide Selected, SelectedVersion, ProvenanceOf;
  }

  lemma CollectedNone(t: Tables, head: StateId)
    ensures CollectedOf(t, head, {}) == Collected(map[], map[], {}, {})
  {
  }

  /** The accepted facts and loops, and the ids that were selected. */
  method CollectAccepted(t: Tables, head: StateId) returns (c: Collected)
    requires TreeOk(t.snaps) && RowsOk(t)
    ensures c.facts == CurrentFacts(t, head) && c.loops == OpenLoops(t, head)
    ensures c.selectedFacts == t.facts.Keys - SuppressedFacts(t, head)
    ensures c.selectedLoops == t.loops.Keys - SuppressedLoops(t, head)
  {
    hide RowsOk, TreeOk, AcceptedTuple, Selected, Collecting, CollectedOf, HoldsNewest, CurrentFacts, OpenLoops,
         SuppressedFacts, SuppressedLoops;
    var chain := LineageOf(t.snaps, head);
    var lineage := set a | a in chain;
    assert lineage == Ancestry(t.snaps, head);
    hide Ancestry;
    var newest := NewestOnLineage(t, lineage);
    forall k, id ensures AcceptedTuple(t, head, k, id) == if (k, id) in newest then Some(newest[(k, id)]) else None {
      NewestIsAccepted(t, head, newest, k, id);
    }
    c := Collected(map[], map[], {}, {});
    CollectedNone(t, head);
    var todo := newest.Keys;
    assert newest.Keys - todo == {};
    while todo != {}
      invariant todo <= newest.Keys
      invariant c == CollectedOf(t, head, newest.Keys - todo)
      decreases todo
    {
      var id :| id in todo;
      ghost var done := newest.Keys - todo;
      todo := todo - {id};
      assert newest.Keys - todo == done + {(id.0, id.1)};
      AcceptedInTables(t, head, id.0, id.1);
      c := Collect(t, head, id.0, id.1, newest[id], c);
      CollectedOneMore(t, head, done, id.0, id.1);
    }
    assert newest.Keys - todo == newest.Keys;
    forall k, id | Selected(t, head, k, id) ensures (k, id) in newest {
      SelectedIsAccepted(t, head, k, id);
    }
    CollectedAll(t, head, newest.Keys);
  }

  lemma SelectedIsAccepted(t: Tables, head: StateId, k: Kind, id: RowId)
    requires Selected(t, head, k, id)
    ensures AcceptedTuple(t, head, k, id).Some?
  {
    hide AcceptedTuple;
  }

  /** One divergent terminal: an opaque one is listed without a value. */
  method ListDivergent(t: Tables, head: StateId, key: TerminalKey, info: Terminal, resolvedKeys: set<TerminalKey>)
    returns (d: DivergentValue)
    requires RowsOk(t) && Describes(t, key, info) && key.state in t.snaps
    requires key in resolvedKeys <==> Resolved(t.snaps, Ancestry(t.snaps, head), key)
    requires info.heads == LineagesOf(t.snaps, t.ledger, DivergentHeads(t, head), Ancestry(t.snaps, head), key)
    ensures d == DivergentValueOf(t, head, key)
  {
    hide RowsOk, NewestOf, Resolved, LineagesOf, Ancestry, DivergentHeads, Comparing, ShownVersion;
    var provenance := Provenance(key.state, t.snaps[key.state].revision, info.ordinal);
    if info.comparable.None? {
      return DivergentValue(provenance, FirstName(info.heads), None, false, key in resolvedKeys);
    }
    var v := t.versions[VersionKey(key.id, Tuple(key.state, key.kind, info.ordinal))];
    var isV1CurrentValue := false;
    if key.kind == Fact {
      if key.id in t.facts {
        isV1CurrentValue := SameFactValue(t.facts[key.id], v.value);
      }
    } else if key.id in t.loops {
      isV1CurrentValue := SameLoopValue(t.loops[key.id], v.value);
    }
    d := DivergentValue(provenance, FirstName(info.heads), Some(ShownVersion(v)), isV1CurrentValue,
                        key in resolvedKeys);
  }

  /** What divergentTerminalsFor hands the loop over the terminals. */
  ghost predicate DivergentInput(t: Tables, head: StateId, terminals: TerminalMap, resolvedKeys: set<TerminalKey>) {
    && terminals.Keys == DivergentTerminals(t, head)
    && (forall key :: key in terminals ==>
          && Describes(t, key, terminals[key]) && key.state in t.snaps
          && (key in resolvedKeys <==> Resolved(t.snaps, Ancestry(t.snaps, head), key))
          && terminals[key].heads ==
            LineagesOf(t.snaps, t.ledger, DivergentHeads(t, head), Ancestry(t.snaps, head), key))
  }

  method DivergentTerminalsFor(t: Tables, head: StateId)
    returns (terminals: TerminalMap, resolvedKeys: set<TerminalKey>)
    requires TreeOk(t.snaps) && RowsOk(t) && RetirementsOk(t) && head in t.snaps
    ensures DivergentInput(t, head, terminals, resolvedKeys)
  {
    hide RowsOk, TreeOk, RetirementsOk, Terminals, Resolved, Describes, LineagesOf;
    StoredKeysInScope(t, head);
    var acceptedRows := LineageOf(t.snaps, head);
    var accepted := set a | a in acceptedRows;
    assert accepted == Ancestry(t.snaps, head) == Members(acceptedRows);
    var heads := (LiveHeads(t) - {head}) + (t.retirements.Keys - accepted);
    assert heads == DivergentHeads(t, head);
    hide Ancestry, Lineage, DivergentHeads, LiveHeads;
    resolvedKeys := VerifiedResolutionKeys(t.snaps, acceptedRows);
    var chains;
    terminals, chains := TerminalsFor(t, heads, accepted);
    forall key | key in terminals
      ensures key.state in t.snaps && terminals[key].heads == LineagesOf(t.snaps, t.ledger, heads, accepted, key)
    {
      TerminalInScope(t, heads, accepted, key);
      assert HeadsOf(terminals, key) == LineagesOf(t.snaps, t.ledger, heads, accepted, key);
    }
  }

  lemma TerminalInScope(t: Tables, heads: set<StateId>, accepted: set<StateId>, key: TerminalKey)
    requires RowsOk(t) && key in Terminals(t.snaps, t.ledger, heads, accepted)
    ensures key.state in t.snaps
  {
    hide CoverageOk, VersionsOk, RowsExist, IsTerminal;
  }

  /** The divergent values, and the opaque terminals a reconcile still has to reject. */
  method DivergentOf(t: Tables, head: StateId)
    returns (values: map<TerminalKey, DivergentValue>, opaque_: set<TerminalKey>)
    requires TreeOk(t.snaps) && RowsOk(t) && RetirementsOk(t) && head in t.snaps
    ensures values == DivergentValues(t, head)
    ensures opaque_ == UnresolvedOpaque(t, head)
  {
    hide RowsOk, TreeOk, RetirementsOk, DivergentTerminals, Describes, DivergentValueOf, Resolved, LineagesOf,
         UnresolvedOpaque;
    var terminals, resolvedKeys := DivergentTerminalsFor(t, head);
    values, opaque_ := map[], {};
    var todo := terminals.Keys;
    while todo != {}
      invariant todo <= terminals.Keys
      invariant values.Keys == terminals.Keys - todo
      invariant forall key :: key in values ==> values[key] == DivergentValueOf(t, head, key)
      invariant opaque_ ==
        set key | key in terminals.Keys - todo && terminals[key].comparable.None? && key !in resolvedKeys
      decreases todo
    {
      var key :| key in todo;
      todo := todo - {key};
      if terminals[key].comparable.None? && key !in resolvedKeys {
        opaque_ := opaque_ + {key};
      }
      var d := ListDivergent(t, head, key, terminals[key], resolvedKeys);
      values := values[key := d];
    }
    OpaqueMeaning(t, head, terminals, resolvedKeys, opaque_);
  }

  lemma OpaqueMeaning(t: Tables, head: StateId, terminals: TerminalMap, resolvedKeys: set<TerminalKey>,
                      opaque_: set<TerminalKey>)
    requires DivergentInput(t, head, terminals, resolvedKeys)
    requires opaque_ == set key | key in terminals && terminals[key].comparable.None? && key !in resolvedKeys
    ensures opaque_ == UnresolvedOpaque(t, head)
  {
    hide Terminals, Resolved, Ancestry, DivergentHeads, NewestOf, ComparableNewest, LineagesOf;
    assert forall key :: key in terminals ==> Describes(t, key, terminals[key]);
  }

  /** The v3 read model of a scope. */
  method SelectV3Values(t: Tables, acceptedHead: Option<StateId>) returns (r: V3Selection)
    requires TreeOk(t.snaps) && RowsOk(t) && RetirementsOk(t)
    requires acceptedHead.Some? ==> acceptedHead.value in t.snaps
    ensures r == SelectV3(t, acceptedHead)
  {
    hide RowsOk, TreeOk, RetirementsOk, CurrentFacts, OpenLoops, SuppressedFacts, SuppressedLoops, DivergentValues,
         UnresolvedOpaque;
    match acceptedHead {
      case None =>
        return Listed(map[], map[], t.facts.Keys, t.loops.Keys, map[], {});
      case Some(head) =>
        var c := CollectAccepted(t, head);
        var suppressedFacts := set id | id in t.facts && id !in c.selectedFacts;
        var suppressedLoops := set id | id in t.loops && id !in c.selectedLoops;
        SuppressedInTables(t, head);
        assert suppressedFacts == SuppressedFacts(t, head);
        assert suppressedLoops == SuppressedLoops(t, head);
        var values, opaque_ := DivergentOf(t, head);
        return Listed(c.facts, c.loops, suppressedFacts, suppressedLoops, values, opaque_);
    }
  }

  lemma SuppressedInTables(t: Tables, head: StateId)
    ensures SuppressedFacts(t, head) <= t.facts.Keys && SuppressedLoops(t, head) <= t.loops.Keys
  {
    hide Selected;
  }
}
