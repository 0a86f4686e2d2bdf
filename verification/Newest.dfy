/**
 "The newest change of an id on a set of snapshots", by snapshot revision and then by ordinal.
 Every reader of the control plane (accepted selection, divergent terminals, inherited owners,
 the in-place tables) is specified by this one notion.
 */
module Newest {
  import opened Options
  import opened Types
  import opened Tree

  /** x is a change of (kind, id) made by one of the snapshots `on`. */
  ghost predicate TupleOn(l: Ledger, on: set<StateId>, k: Kind, id: RowId, x: Tuple) {
    x in l && x.state in on && x.kind == k && l[x].id == id
  }

  predicate Newer(s: Snaps, x: Tuple, y: Tuple) {
    && x.state in s && y.state in s
    && (s[x.state].revision > s[y.state].revision
        || (s[x.state].revision == s[y.state].revision && x.ordinal > y.ordinal))
  }

  ghost predicate IsNewest(s: Snaps, l: Ledger, on: set<StateId>, k: Kind, id: RowId, x: Tuple) {
    && TupleOn(l, on, k, id, x)
    && forall y :: TupleOn(l, on, k, id, y) ==> !Newer(s, y, x)
  }

  ghost function NewestOf(s: Snaps, l: Ledger, on: set<StateId>, k: Kind, id: RowId): Option<Tuple> {
    if exists x :: IsNewest(s, l, on, k, id, x) then
      var x :| IsNewest(s, l, on, k, id, x);
      Some(x)
    else None
  }

  lemma NewestUnique(s: Snaps, l: Ledger, on: set<StateId>, k: Kind, id: RowId, x: Tuple)
    requires TreeOk(s) && on <= s.Keys && IsNewest(s, l, on, k, id, x)
    ensures forall y :: IsNewest(s, l, on, k, id, y) ==> y == x
    ensures NewestOf(s, l, on, k, id) == Some(x)
  {
    forall y | IsNewest(s, l, on, k, id, y) ensures y == x {
      assert !Newer(s, x, y) && !Newer(s, y, x);
    }
  }

  lemma {:induction false} NewestAmong(s: Snaps, l: Ledger, on: set<StateId>, k: Kind, id: RowId, xs: set<Tuple>)
    returns (top: Tuple)
    requires TreeOk(s) && on <= s.Keys
    requires xs != {} && forall x :: x in xs ==> TupleOn(l, on, k, id, x)
    ensures top in xs && forall y :: y in xs ==> !Newer(s, y, top)
    decreases |xs|
  {
    var x :| x in xs;
    if xs == {x} {
      top := x;
    } else {
      top := NewestAmong(s, l, on, k, id, xs - {x});
      if Newer(s, x, top) {
        forall y | y in xs ensures !Newer(s, y, x) {
          if y != x {
            assert !Newer(s, y, top);
          }
        }
        top := x;
      }
    }
  }

  lemma NewestExists(s: Snaps, l: Ledger, on: set<StateId>, k: Kind, id: RowId, x: Tuple)
    requires TreeOk(s) && on <= s.Keys && TupleOn(l, on, k, id, x)
    ensures NewestOf(s, l, on, k, id).Some?
    ensures IsNewest(s, l, on, k, id, NewestOf(s, l, on, k, id).value)
  {
    var xs := set y | y in l && TupleOn(l, on, k, id, y);
    assert x in xs;
    var top := NewestAmong(s, l, on, k, id, xs);
    assert IsNewest(s, l, on, k, id, top);
  }

  lemma NewestReplaced(s: Snaps, z: Tuple, best: Tuple, y: Tuple)
    requires Newer(s, y, best) && !Newer(s, z, best)
    ensures !Newer(s, z, y)
  {
  }

  /** Newest changes only depend on the rows and revisions of the snapshots looked at. */
  lemma NewestFrame(s: Snaps, l: Ledger, s': Snaps, l': Ledger, on: set<StateId>, k: Kind, id: RowId)
    requires TreeOk(s) && TreeOk(s') && on <= s.Keys && on <= s'.Keys
    requires forall a :: a in on ==> s'[a].revision == s[a].revision
    requires forall x: Tuple :: x.state in on ==> (x in l' <==> x in l)
    requires forall x: Tuple :: x in l && x.state in on ==> l'[x] == l[x]
    ensures forall x :: IsNewest(s', l', on, k, id, x) <==> IsNewest(s, l, on, k, id, x)
    ensures NewestOf(s', l', on, k, id) == NewestOf(s, l, on, k, id)
  {
    forall x ensures TupleOn(l', on, k, id, x) <==> TupleOn(l, on, k, id, x) { }
    forall x, y | TupleOn(l, on, k, id, x) && TupleOn(l, on, k, id, y)
      ensures Newer(s', x, y) <==> Newer(s, x, y) { }
    forall x ensures IsNewest(s', l', on, k, id, x) <==> IsNewest(s, l, on, k, id, x) {
      if IsNewest(s, l, on, k, id, x) {
        forall y | TupleOn(l', on, k, id, y) ensures !Newer(s', y, x) {
          assert TupleOn(l, on, k, id, y);
        }
      }
      if IsNewest(s', l', on, k, id, x) {
        forall y | TupleOn(l, on, k, id, y) ensures !Newer(s, y, x) {
          assert TupleOn(l', on, k, id, y);
        }
      }
    }
    if x :| IsNewest(s, l, on, k, id, x) {
      NewestUnique(s, l, on, k, id, x);
      NewestUnique(s', l', on, k, id, x);
    }
  }
}
