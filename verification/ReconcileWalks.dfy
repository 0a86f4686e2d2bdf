/** The loops of reconcile.ts that walk parent chains and collect divergent terminals. */
module ReconcileWalks {
  import opened Options
  import opened Types
  import opened Tree
  import opened Newest
  import opened ChangeLog
  import opened Divergence
  import opened Invariants

  // ----- lineageOf, divergentChain

  /** The chain from `head` back to the first member of `accepted`; ends on cyclic data too. */
  method DivergentChain(s: Snaps, head: StateId, accepted: set<StateId>) returns (out: seq<StateId>)
    ensures out == Chain(s, head, accepted)
  {
    out := [];
    var cursor, guard := Some(head), {};
    while cursor.Some? && cursor.value !in accepted && cursor.value !in guard
      invariant out + Walk(s, cursor, accepted, guard) == Chain(s, head, accepted)
      decreases if cursor.Some? then s.Keys - guard else {}, if cursor.Some? && cursor.value in s then 1 else 0
    {
      guard := guard + {cursor.value};
      if cursor.value !in s {
        break;
      }
      out := out + [cursor.value];
      cursor := s[cursor.value].parent;
    }
  }

  /** The head and its parent chain, head first. */
  method LineageOf(s: Snaps, head: StateId) returns (out: seq<StateId>)
    ensures out == Lineage(s, head)
  {
    out := [];
    var cursor, guard := Some(head), {};
    while cursor.Some? && cursor.value !in guard
      invariant out + Walk(s, cursor, {}, guard) == Lineage(s, head)
      decreases if cursor.Some? then s.Keys - guard else {}, if cursor.Some? && cursor.value in s then 1 else 0
    {
      guard := guard + {cursor.value};
      if cursor.value !in s {
        break;
      }
      out := out + [cursor.value];
      cursor := s[cursor.value].parent;
    }
  }

  // ----- terminalsFor

  /** What the source keeps of a terminal besides its key: the ordinal, the value unless opaque, and its lineages. */
  datatype Terminal = Terminal(ordinal: nat, comparable: Option<Comparable>, heads: set<StateId>)

  type TerminalMap = map<TerminalKey, Terminal>

  ghost predicate Describes(t: Tables, key: TerminalKey, info: Terminal) {
    && NewestOf(t.snaps, t.ledger, {key.state}, key.kind, key.id) == Some(Tuple(key.state, key.kind, info.ordinal))
    && info.comparable == ComparableNewest(t.snaps, t.ledger, t.versions, key)
  }

  ghost predicate AllDescribed(t: Tables, m: TerminalMap) {
    forall key :: key in m ==> Describes(t, key, m[key])
  }

  ghost function HeadsOf(m: TerminalMap, key: TerminalKey): set<StateId> {
    if key in m then m[key].heads else {}
  }

  /** What one walk from `head` adds to the heads of a key. */
  ghost function HeadIf(found: bool, head: StateId): set<StateId> {
    if found then {head} else {}
  }

  ghost function IdsOf(l: Ledger, a: StateId): set<(Kind, RowId)> {
    set x | x in l && x.state == a :: (x.kind, l[x].id)
  }

  /** After visiting snapshot a on the walk from `head`: a terminal for each of its ids not seen higher up. */
  ghost predicate Visited(l: Ledger, head: StateId, a: StateId, seen: set<(Kind, RowId)>, before: TerminalMap,
                          after: TerminalMap) {
    && (forall key :: key in after <==> key in before || (key.state == a && (key.kind, key.id) in IdsOf(l, a) - seen))
    && (forall key: TerminalKey ::
          HeadsOf(after, key) ==
          HeadsOf(before, key) + HeadIf(key.state == a && (key.kind, key.id) in IdsOf(l, a) - seen, head))
  }

  lemma NewestOfOwn(t: Tables, a: StateId, x: Tuple)
    requires TreeOk(t.snaps) && a in t.snaps && x in t.ledger && x.state == a
    requires forall y :: y in t.ledger && y.state == a && y.kind == x.kind && t.ledger[y].id == t.ledger[x].id ==>
      y.ordinal <= x.ordinal
    ensures NewestOf(t.snaps, t.ledger, {a}, x.kind, t.ledger[x].id) == Some(x)
  {
    assert IsNewest(t.snaps, t.ledger, {a}, x.kind, t.ledger[x].id, x);
    NewestUnique(t.snaps, t.ledger, {a}, x.kind, t.ledger[x].id, x);
  }

  /** One ledger row: the first of its id on the chain of `head` is a terminal of that lineage. */
  method VisitRow(t: Tables, head: StateId, c: Tuple, seen: set<(Kind, RowId)>, terminals: TerminalMap)
    returns (seen': set<(Kind, RowId)>, terminals': TerminalMap)
    requires TreeOk(t.snaps) && RowsOk(t) && c in t.ledger && c.state in t.snaps
    requires forall y :: y in t.ledger && y.state == c.state && y.kind == c.kind && t.ledger[y].id == t.ledger[c].id ==>
      y.ordinal <= c.ordinal || (c.kind, t.ledger[c].id) in seen
    requires AllDescribed(t, terminals)
    ensures seen' == seen + {(c.kind, t.ledger[c].id)}
    ensures forall key :: key in terminals' <==>
      key in terminals || ((c.kind, t.ledger[c].id) !in seen && key == KeyOf(t.ledger, c))
    ensures forall key: TerminalKey ::
      HeadsOf(terminals', key) ==
        HeadsOf(terminals, key) + HeadIf((c.kind, t.ledger[c].id) !in seen && key == KeyOf(t.ledger, c), head)
    ensures AllDescribed(t, terminals')
  {
    hide RowsOk, TreeOk, NewestOf, ComparableNewest;
    seen', terminals' := seen, terminals;
    var id := t.ledger[c].id;
    if (c.kind, id) !in seen' {
      seen' := seen' + {(c.kind, id)};
      var key := TerminalKey(c.kind, id, c.state);
      if key in terminals' {
        terminals' := terminals'[key := terminals'[key].(heads := terminals'[key].heads + {head})];
      } else {
        var comparable := ReadComparable(t, id, c);
        terminals' := terminals'[key := Terminal(c.ordinal, comparable, {head})];
        NewestOfOwn(t, c.state, c);
        DescribedBy(t, key, c, comparable, {head});
      }
    }
  }

  /** The ledger rows of one snapshot, highest ordinal first. */
  method SnapshotTerminals(t: Tables, head: StateId, a: StateId, seen: set<(Kind, RowId)>, terminals: TerminalMap)
    returns (seen': set<(Kind, RowId)>, terminals': TerminalMap)
    requires TreeOk(t.snaps) && RowsOk(t) && a in t.snaps
    requires AllDescribed(t, terminals)
    ensures seen' == seen + IdsOf(t.ledger, a)
    ensures Visited(t.ledger, head, a, seen, terminals, terminals')
    ensures AllDescribed(t, terminals')
  {
    hide RowsOk, TreeOk, AllDescribed, IdsIn;
    var rows := set x | x in t.ledger && x.state == a;
    ghost var all := rows;
    NoIdsIn(t.ledger);
    assert all - rows == {};
    seen', terminals' := seen, terminals;
    while rows != {}
      invariant rows <= all
      invariant forall x, y :: x in rows && y in all - rows ==> x.ordinal <= y.ordinal
      invariant seen' == seen + IdsIn(t.ledger, all - rows)
      invariant forall key :: key in terminals' <==>
        key in terminals || (key.state == a && (key.kind, key.id) in seen' - seen)
      invariant forall key: TerminalKey ::
        HeadsOf(terminals', key) ==
          HeadsOf(terminals, key) + HeadIf(key.state == a && (key.kind, key.id) in seen' - seen, head)
      invariant AllDescribed(t, terminals')
      decreases rows
    {
      HasTop(rows);
      var c :| c in rows && forall y :: y in rows ==> y.ordinal <= c.ordinal;
      assert all - (rows - {c}) == (all - rows) + {c};
      IdsInOneMore(t.ledger, all - rows, c);
      seen', terminals' := VisitRow(t, head, c, seen', terminals');
      rows := rows - {c};
    }
    assert all - rows == all;
    IdsOfAll(t.ledger, a, all);
  }

  ghost function IdsIn(l: Ledger, rows: set<Tuple>): set<(Kind, RowId)> {
    set x | x in rows && x in l :: (x.kind, l[x].id)
  }

  lemma NoIdsIn(l: Ledger)
    ensures IdsIn(l, {}) == {}
  {
  }

  lemma IdsInOneMore(l: Ledger, rows: set<Tuple>, c: Tuple)
    requires c in l
    ensures IdsIn(l, rows + {c}) == IdsIn(l, rows) + {(c.kind, l[c].id)}
    ensures forall y :: y in rows && y in l ==> (y.kind, l[y].id) in IdsIn(l, rows)
  {
  }

  lemma IdsOfAll(l: Ledger, a: StateId, all: set<Tuple>)
    requires all == set x | x in l && x.state == a
    ensures IdsIn(l, all) == IdsOf(l, a)
  {
  }

  lemma DescribedBy(t: Tables, key: TerminalKey, c: Tuple, comparable: Option<Comparable>, heads: set<StateId>)
    requires NewestOf(t.snaps, t.ledger, {key.state}, key.kind, key.id) == Some(c)
    requires c.state == key.state && c.kind == key.kind && comparable == ComparableAt(t.versions, key.id, c)
    ensures Describes(t, key, Terminal(c.ordinal, comparable, heads))
  {
    hide NewestOf;
  }

  lemma HasTop(rows: set<Tuple>)
    requires rows != {}
    ensures exists c :: c in rows && forall y :: y in rows ==> y.ordinal <= c.ordinal
  {
    var ordinals := set x | x in rows :: x.ordinal;
    var x :| x in rows;
    assert x.ordinal in ordinals;
    HasMaximum(ordinals);
    var m :| m in ordinals && forall r :: r in ordinals ==> r <= m;
    var c :| c in rows && c.ordinal == m;
    assert forall y :: y in rows ==> y.ordinal in ordinals;
  }

  /** Coverage says whether there is a value to compare; a materialized change always has its version. */
  method ReadComparable(t: Tables, id: RowId, x: Tuple) returns (c: Option<Comparable>)
    requires RowsOk(t) && x in t.ledger && t.ledger[x].id == id
    ensures c == ComparableAt(t.versions, id, x)
  {
    hide LedgerOk, RowsExist;
    if t.coverage[x].disposition == Materialized {
      c := Some(Comparing(t.versions[VersionKey(id, x)].value));
    } else {
      c := None;
    }
  }

  ghost function IdsOn(l: Ledger, on: set<StateId>): set<(Kind, RowId)> {
    set x | x in l && x.state in on :: (x.kind, l[x].id)
  }

  ghost function Members(chain: seq<StateId>): set<StateId> {
    set a | a in chain
  }

  lemma NewestBelowSeen(s: Snaps, l: Ledger, on: set<StateId>, a: StateId, k: Kind, id: RowId, x: Tuple)
    requires on <= s.Keys && a in s && forall b :: b in on ==> s[b].revision > s[a].revision
    requires (k, id) in IdsOn(l, on)
    ensures IsNewest(s, l, on + {a}, k, id, x) <==> IsNewest(s, l, on, k, id, x)
  {
    var y :| y in l && y.state in on && (y.kind, l[y].id) == (k, id);
    assert TupleOn(l, on, k, id, y) && TupleOn(l, on + {a}, k, id, y);
    if IsNewest(s, l, on + {a}, k, id, x) {
      assert !Newer(s, y, x);
      forall z | TupleOn(l, on, k, id, z) ensures !Newer(s, z, x) {
        assert TupleOn(l, on + {a}, k, id, z);
      }
    }
    if IsNewest(s, l, on, k, id, x) {
      forall z | TupleOn(l, on + {a}, k, id, z) ensures !Newer(s, z, x) {
        assert z.state != a ==> TupleOn(l, on, k, id, z);
      }
    }
  }

  lemma NewestBelowUnseen(s: Snaps, l: Ledger, on: set<StateId>, a: StateId, k: Kind, id: RowId, x: Tuple)
    requires (k, id) !in IdsOn(l, on)
    ensures IsNewest(s, l, on + {a}, k, id, x) <==> IsNewest(s, l, {a}, k, id, x)
  {
    forall z ensures TupleOn(l, on + {a}, k, id, z) <==> TupleOn(l, {a}, k, id, z) {
      TupleIsSeen(l, on, k, id, z);
    }
  }

  lemma TupleIsSeen(l: Ledger, on: set<StateId>, k: Kind, id: RowId, z: Tuple)
    ensures TupleOn(l, on, k, id, z) ==> (k, id) in IdsOn(l, on)
  {
  }

  lemma TerminalOfOne(s: Snaps, l: Ledger, a: StateId, key: TerminalKey)
    requires TreeOk(s) && a in s
    ensures TerminalOf(s, l, {a}, key) <==> key.state == a && (key.kind, key.id) in IdsOf(l, a)
  {
    if key.state == a && (key.kind, key.id) in IdsOf(l, a) {
      var x :| x in l && x.state == a && (x.kind, l[x].id) == (key.kind, key.id);
      assert TupleOn(l, {a}, key.kind, key.id, x);
      NewestExists(s, l, {a}, key.kind, key.id, x);
    }
  }

  /** Walking one snapshot further down: its ids that were not seen higher up become terminals. */
  lemma TerminalsBelow(s: Snaps, l: Ledger, on: set<StateId>, a: StateId, key: TerminalKey)
    requires TreeOk(s) && on <= s.Keys && a in s && forall b :: b in on ==> s[b].revision > s[a].revision
    ensures TerminalOf(s, l, on + {a}, key) <==>
      TerminalOf(s, l, on, key) || (key.state == a && (key.kind, key.id) in IdsOf(l, a) - IdsOn(l, on))
  {
    TerminalOfOne(s, l, a, key);
    hide TreeOk, IsNewest, IdsOf;
    if (key.kind, key.id) in IdsOn(l, on) {
      forall x ensures IsNewest(s, l, on + {a}, key.kind, key.id, x) <==> IsNewest(s, l, on, key.kind, key.id, x) {
        NewestBelowSeen(s, l, on, a, key.kind, key.id, x);
      }
    } else {
      forall x ensures IsNewest(s, l, on + {a}, key.kind, key.id, x) <==> IsNewest(s, l, {a}, key.kind, key.id, x) {
        NewestBelowUnseen(s, l, on, a, key.kind, key.id, x);
      }
      NoneUnseen(s, l, on, key);
    }
  }

  lemma NoneUnseen(s: Snaps, l: Ledger, on: set<StateId>, key: TerminalKey)
    requires (key.kind, key.id) !in IdsOn(l, on)
    ensures !TerminalOf(s, l, on, key)
  {
    forall x ensures !TupleOn(l, on, key.kind, key.id, x) {
      TupleIsSeen(l, on, key.kind, key.id, x);
    }
  }

  ghost predicate Descending(s: Snaps, chain: seq<StateId>) {
    && (forall i :: 0 <= i < |chain| ==> chain[i] in s)
    && (forall i, j :: 0 <= i < j < |chain| ==> s[chain[i]].revision > s[chain[j]].revision)
  }

  /** One divergent chain, walked from its head down. */
  method ChainTerminals(t: Tables, head: StateId, chain: seq<StateId>, terminals: TerminalMap)
    returns (terminals': TerminalMap)
    requires TreeOk(t.snaps) && RowsOk(t) && Descending(t.snaps, chain) && AllDescribed(t, terminals)
    ensures forall key :: key in terminals' <==> key in terminals || TerminalOf(t.snaps, t.ledger, Members(chain), key)
    ensures forall key ::
      HeadsOf(terminals', key) ==
      HeadsOf(terminals, key) + HeadIf(TerminalOf(t.snaps, t.ledger, Members(chain), key), head)
    ensures AllDescribed(t, terminals')
  {
    hide TreeOk, RowsOk, AllDescribed, TerminalOf, IdsOf;
    terminals' := terminals;
    var seen: set<(Kind, RowId)> := {};
    NothingOnNothing(t.snaps, t.ledger);
    for i := 0 to |chain|
      invariant seen == IdsOn(t.ledger, Members(chain[..i]))
      invariant forall key :: key in terminals' <==>
        key in terminals || TerminalOf(t.snaps, t.ledger, Members(chain[..i]), key)
      invariant forall key ::
        HeadsOf(terminals', key) ==
        HeadsOf(terminals, key) + HeadIf(TerminalOf(t.snaps, t.ledger, Members(chain[..i]), key), head)
      invariant AllDescribed(t, terminals')
    {
      ghost var on, before := Members(chain[..i]), terminals';
      assert Members(chain[..i + 1]) == on + {chain[i]};
      assert forall b :: b in on ==> b in t.snaps && t.snaps[b].revision > t.snaps[chain[i]].revision;
      seen, terminals' := SnapshotTerminals(t, head, chain[i], seen, terminals');
      IdsOnGrow(t.ledger, on, chain[i]);
      forall key ensures TerminalOf(t.snaps, t.ledger, Members(chain[..i + 1]), key) <==>
        TerminalOf(t.snaps, t.ledger, on, key) ||
          (key.state == chain[i] && (key.kind, key.id) in IdsOf(t.ledger, chain[i]) - IdsOn(t.ledger, on))
      {
        TerminalsBelow(t.snaps, t.ledger, on, chain[i], key);
      }
    }
    assert chain[..|chain|] == chain;
  }

  lemma IdsOnGrow(l: Ledger, on: set<StateId>, a: StateId)
    ensures IdsOn(l, on + {a}) == IdsOn(l, on) + IdsOf(l, a)
  {
  }

  lemma NothingOnNothing(s: Snaps, l: Ledger)
    ensures IdsOn(l, Members([])) == {}
    ensures forall key :: !TerminalOf(s, l, Members([]), key)
  {
  }

  /**
   Every divergent terminal of the lineages `heads` forked off `accepted`: whatever the order of
   the heads, exactly the terminals of the specification, each with its ordinal, value and lineages.
   */
  method TerminalsFor(t: Tables, heads: set<StateId>, accepted: set<StateId>)
    returns (terminals: TerminalMap, chains: map<StateId, set<StateId>>)
    requires TreeOk(t.snaps) && RowsOk(t) && heads <= t.snaps.Keys
    ensures terminals.Keys == Terminals(t.snaps, t.ledger, heads, accepted)
    ensures AllDescribed(t, terminals)
    ensures forall key :: HeadsOf(terminals, key) == LineagesOf(t.snaps, t.ledger, heads, accepted, key)
    ensures chains.Keys == heads
    ensures forall h :: h in heads ==> chains[h] == ChainSet(t.snaps, h, accepted)
  {
    hide RowsOk, TerminalOf, Terminals, Describes, TreeOk;
    terminals, chains := map[], map[];
    var todo := heads;
    while todo != {}
      invariant todo <= heads
      invariant forall key :: key in terminals <==> IsTerminal(t.snaps, t.ledger, heads - todo, accepted, key)
      invariant forall key :: HeadsOf(terminals, key) == LineagesOf(t.snaps, t.ledger, heads - todo, accepted, key)
      invariant AllDescribed(t, terminals)
      invariant chains.Keys == heads - todo
      invariant forall h :: h in heads - todo ==> chains[h] == ChainSet(t.snaps, h, accepted)
      decreases todo
    {
      var h :| h in todo;
      ghost var done, before := heads - todo, terminals;
      var chain := DivergentChain(t.snaps, h, accepted);
      ChainDescends(t.snaps, h, accepted);
      assert Members(chain) == ChainSet(t.snaps, h, accepted);
      chains := chains[h := set a | a in chain];
      terminals := ChainTerminals(t, h, chain, terminals);
      todo := todo - {h};
      assert heads - todo == done + {h};
      OneMoreLineage(t, before, terminals, done, h, accepted);
    }
    forall key ensures key in terminals <==> key in Terminals(t.snaps, t.ledger, heads, accepted) {
      TerminalInLedger(t.snaps, t.ledger, heads, accepted, key);
    }
  }

  lemma OneMoreLineage(t: Tables, before: TerminalMap, after: TerminalMap, done: set<StateId>, h: StateId,
                       accepted: set<StateId>)
    requires forall key :: key in before <==> IsTerminal(t.snaps, t.ledger, done, accepted, key)
    requires forall key :: HeadsOf(before, key) == LineagesOf(t.snaps, t.ledger, done, accepted, key)
    requires forall key :: key in after <==>
      key in before || TerminalOf(t.snaps, t.ledger, ChainSet(t.snaps, h, accepted), key)
    requires forall key ::
      HeadsOf(after, key) ==
      HeadsOf(before, key) + HeadIf(TerminalOf(t.snaps, t.ledger, ChainSet(t.snaps, h, accepted), key), h)
    ensures forall key :: key in after <==> IsTerminal(t.snaps, t.ledger, done + {h}, accepted, key)
    ensures forall key :: HeadsOf(after, key) == LineagesOf(t.snaps, t.ledger, done + {h}, accepted, key)
  {
    hide TerminalOf, ChainSet, HeadsOf;
    forall key: TerminalKey ensures HeadsOf(after, key) == LineagesOf(t.snaps, t.ledger, done + {h}, accepted, key) {
      assert HeadsOf(after, key) ==
        HeadsOf(before, key) + HeadIf(TerminalOf(t.snaps, t.ledger, ChainSet(t.snaps, h, accepted), key), h);
    }
  }
}
