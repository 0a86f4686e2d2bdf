/** The expanding nearest-neighbour window of searchWithVectorsTenantComplete. */
module Knn {
  import opened Options

  type VectorId = nat

  datatype IndexRow = IndexRow(memoryId: string, tenant: string, agent: string, memoryType: string)

  datatype Query = Query(tenant: string, agent: Option<string>, memoryType: Option<string>, limit: nat)

  /** The tenant and the optional filters; an empty filter text filters nothing. */
  predicate Matches(row: IndexRow, q: Query) {
    && row.tenant == q.tenant
    && (Truthy(q.agent) ==> row.agent == q.agent.value)
    && (Truthy(q.memoryType) ==> row.memoryType == q.memoryType.value)
  }

  /**
   `ranking` lists every stored vector, nearest to the query first; `index` holds the rows that
   have a vector id, whose vector may have been lost.
   */
  datatype Database = Database(ranking: seq<VectorId>, index: map<VectorId, IndexRow>) {
    ghost predicate Valid() {
      forall i, j :: 0 <= i < j < |ranking| ==> ranking[i] != ranking[j]
    }
  }

  predicate Wanted(db: Database, q: Query, v: VectorId) {
    v in db.index && Matches(db.index[v], q)
  }

  /** The rows of the given vectors that pass the filters, in the given order. */
  function Filtered(db: Database, q: Query, vs: seq<VectorId>): (rows: seq<VectorId>)
    ensures |rows| <= |vs|
  {
    if vs == [] then []
    else
      var rows := Filtered(db, q, vs[..|vs| - 1]);
      var last := vs[|vs| - 1];
      if Wanted(db, q, last) then rows + [last] else rows
  }

  function FilteredIndex(db: Database, q: Query): set<VectorId> {
    set v | v in db.index && Wanted(db, q, v)
  }

  function Min(a: nat, b: nat): nat { if a < b then a else b }
  function Max(a: nat, b: nat): nat { if a < b then b else a }

  function Take<T>(xs: seq<T>, n: nat): seq<T> {
    xs[..Min(n, |xs|)]
  }

  /** Filter first, then take the nearest: what the search is for. */
  function Nearest(db: Database, q: Query): seq<VectorId> {
    Take(Filtered(db, q, db.ranking), q.limit)
  }

  /** searchWithVectorWindow: the nearest k over all tenants, then the filters, then the limit. */
  function Window(db: Database, q: Query, k: nat): seq<VectorId> {
    Take(Filtered(db, q, Take(db.ranking, k)), q.limit)
  }

  lemma {:induction false} FilteredAppend(db: Database, q: Query, a: seq<VectorId>, b: seq<VectorId>)
    ensures Filtered(db, q, a + b) == Filtered(db, q, a) + Filtered(db, q, b)
  {
    if b == [] {
      assert a + b == a;
    } else {
      FilteredAppend(db, q, a, b[..|b| - 1]);
      assert (a + b)[..|a + b| - 1] == a + b[..|b| - 1];
    }
  }

  /** A window never shows a row out of place: it is a prefix of the true answer. */
  lemma WindowIsPrefix(db: Database, q: Query, k: nat)
    ensures Window(db, q, k) <= Nearest(db, q)
    ensures |Window(db, q, k)| == q.limit || k >= |db.ranking| ==> Window(db, q, k) == Nearest(db, q)
    ensures Window(db, q, k) == Nearest(db, q) || |Window(db, q, k)| == |Filtered(db, q, Take(db.ranking, k))|
  {
    var n := Min(k, |db.ranking|);
    assert db.ranking == db.ranking[..n] + db.ranking[n..];
    FilteredAppend(db, q, db.ranking[..n], db.ranking[n..]);
  }

  ghost function WantedOf(db: Database, q: Query, vs: seq<VectorId>): set<VectorId> {
    set v | v in vs && Wanted(db, q, v)
  }

  lemma WantedSnoc(db: Database, q: Query, vs: seq<VectorId>, last: VectorId)
    ensures WantedOf(db, q, vs + [last]) == if Wanted(db, q, last) then WantedOf(db, q, vs) + {last}
      else WantedOf(db, q, vs)
  {
    hide Wanted;
  }

  /** Filtered rows are exactly the wanted ones, once each, so there are at most as many as the index counts. */
  lemma {:induction false} FilteredCounted(db: Database, q: Query, vs: seq<VectorId>)
    requires forall i, j :: 0 <= i < j < |vs| ==> vs[i] != vs[j]
    ensures forall v :: v in Filtered(db, q, vs) <==> v in vs && Wanted(db, q, v)
    ensures |Filtered(db, q, vs)| == |WantedOf(db, q, vs)|
  {
    hide Wanted;
    if vs == [] {
      assert WantedOf(db, q, vs) == {};
    } else {
      var front, last := vs[..|vs| - 1], vs[|vs| - 1];
      FilteredCounted(db, q, front);
      WantedSnoc(db, q, front, last);
      assert vs == front + [last];
      assert last !in front;
    }
  }

  lemma SubsetSmaller<T>(a: set<T>, b: set<T>)
    requires a <= b
    ensures |a| <= |b|
    ensures |a| == |b| ==> a == b
  {
    assert b == a + (b - a);
    if |a| == |b| {
      assert b - a == {};
    }
  }

  lemma RankingCounted(db: Database, q: Query)
    requires db.Valid()
    ensures |Filtered(db, q, db.ranking)| <= |FilteredIndex(db, q)|
    ensures |Filtered(db, q, db.ranking)| == |FilteredIndex(db, q)| <==>
      forall v :: v in FilteredIndex(db, q) ==> v in db.ranking
  {
    FilteredCounted(db, q, db.ranking);
    var stored := WantedOf(db, q, db.ranking);
    SubsetSmaller(stored, FilteredIndex(db, q));
    if forall v :: v in FilteredIndex(db, q) ==> v in db.ranking {
      assert stored == FilteredIndex(db, q);
    }
  }

  const HARD_CAP: nat := 5000

  /** A full window is the true answer, and a complete one when the index counts no more. */
  lemma FullWindow(db: Database, q: Query, k: nat, desired: nat)
    requires db.Valid() && desired == Min(q.limit, |FilteredIndex(db, q)|)
    requires |Window(db, q, k)| >= desired
    ensures Window(db, q, k) == Nearest(db, q) && |Nearest(db, q)| == desired
  {
    WindowIsPrefix(db, q, k);
    RankingCounted(db, q);
  }

  /** With every vector in the window, a short answer proves a vector is missing. */
  lemma ShortWindow(db: Database, q: Query, k: nat, desired: nat)
    requires db.Valid() && desired == Min(q.limit, |FilteredIndex(db, q)|)
    requires |Window(db, q, k)| < desired && k >= |db.ranking|
    ensures Window(db, q, k) == Nearest(db, q)
    ensures exists v :: v in FilteredIndex(db, q) && v !in db.ranking
  {
    WindowIsPrefix(db, q, k);
    RankingCounted(db, q);
  }

  /**
   Widen the window until the answer is complete, every vector is in it, or the cap is reached.
   `counted` is whether the vectors could be counted. The exit for a window that cannot grow and
   the one after the loop are never taken.
   */
  method SearchTenantComplete(db: Database, q: Query, counted: bool)
    returns (rows: seq<VectorId>, capped: bool, indexIncomplete: bool)
    requires db.Valid() && q.limit >= 1
    ensures rows <= Nearest(db, q)
    ensures !capped && !indexIncomplete ==> rows == Nearest(db, q) && |rows| == Min(q.limit, |FilteredIndex(db, q)|)
    ensures indexIncomplete ==> exists v :: v in FilteredIndex(db, q) && v !in db.ranking
    ensures indexIncomplete ==> rows == Nearest(db, q) && |rows| < Min(q.limit, |FilteredIndex(db, q)|)
    ensures capped ==> !counted || |db.ranking| > 5000
    ensures capped ==> rows == Take(Filtered(db, q, Take(db.ranking, 5000)), q.limit)
    ensures !(capped && indexIncomplete)
  {
    var filteredCount := |FilteredIndex(db, q)|;
    RankingCounted(db, q);
    if filteredCount == 0 {
      return [], false, false;
    }
    var totalVectors := if counted then Some(|db.ranking|) else None;
    var desiredRows := Min(q.limit, filteredCount);
    if totalVectors == Some(0) {
      ShortWindow(db, q, 0, desiredRows);
      return [], false, true;
    }
    var knnLimit := Min(Min(Max(q.limit * 5, 50), if totalVectors.None? then HARD_CAP else Max(totalVectors.value, 1)),
                        HARD_CAP);
    while knnLimit > 0
      invariant 0 < knnLimit <= HARD_CAP
      invariant totalVectors.Some? ==> knnLimit <= totalVectors.value
      decreases HARD_CAP - knnLimit
    {
      rows := Window(db, q, knnLimit);
      WindowIsPrefix(db, q, knnLimit);
      if |rows| >= desiredRows {
        FullWindow(db, q, knnLimit, desiredRows);
        return rows, false, false;
      }
      if totalVectors.Some? && knnLimit >= totalVectors.value {
        ShortWindow(db, q, knnLimit, desiredRows);
        return rows, false, true;
      }
      if knnLimit >= HARD_CAP {
        return rows, true, false;
      }
      var nextLimit := Min(Min(HARD_CAP, if totalVectors.None? then HARD_CAP else Max(totalVectors.value, 1)),
                           Max(knnLimit + 1, knnLimit * 2));
      if nextLimit <= knnLimit {
        assert false;
      }
      knnLimit := nextLimit;
    }
    assert false;
  }

  // ----- What is returned

  /** The row is of the query's tenant, and of the agent and the type asked for, if any is. */
  ghost predicate Asked(db: Database, q: Query, v: VectorId) {
    && v in db.index && db.index[v].tenant == q.tenant
    && (q.agent.None? || q.agent == Some("") || q.agent == Some(db.index[v].agent))
    && (q.memoryType.None? || q.memoryType == Some("") || q.memoryType == Some(db.index[v].memoryType))
  }

  /** v is nearer to the query than w. */
  ghost predicate Nearer(db: Database, v: VectorId, w: VectorId) {
    exists i, j :: 0 <= i < j < |db.ranking| && db.ranking[i] == v && db.ranking[j] == w
  }

  lemma WantedIsAsked(db: Database, q: Query, v: VectorId)
    ensures Wanted(db, q, v) <==> Asked(db, q, v)
  {
  }

  lemma {:induction false} FilteredInOrder(db: Database, q: Query, n: nat)
    requires n <= |db.ranking|
    ensures var rows := Filtered(db, q, db.ranking[..n]);
      && (forall k :: 0 <= k < |rows| ==> exists i :: 0 <= i < n && db.ranking[i] == rows[k] && Asked(db, q, rows[k]))
      && (forall i :: 0 <= i < n && Asked(db, q, db.ranking[i]) ==> db.ranking[i] in rows)
      && (forall k, l :: 0 <= k < l < |rows| ==> Nearer(db, rows[k], rows[l]))
  {
    hide Asked;
    if n > 0 {
      FilteredInOrder(db, q, n - 1);
      WantedIsAsked(db, q, db.ranking[n - 1]);
      hide Wanted, Nearer;
      var front, last := Filtered(db, q, db.ranking[..n - 1]), db.ranking[n - 1];
      assert db.ranking[..n][..n - 1] == db.ranking[..n - 1];
      forall k | 0 <= k < |front| ensures Nearer(db, front[k], last) {
        var i :| 0 <= i < n - 1 && db.ranking[i] == front[k];
        IsNearer(db, i, n - 1);
      }
    }
  }

  lemma IsNearer(db: Database, i: nat, j: nat)
    requires i < j < |db.ranking|
    ensures Nearer(db, db.ranking[i], db.ranking[j])
  {
  }

  /**
   The true answer: only asked-for rows, nearest first, at most as many as the limit; and a stored row
   that was asked for is left out only when the limit is full of rows nearer than it.
   */
  lemma NearestIs(db: Database, q: Query)
    ensures var rows := Nearest(db, q);
      && |rows| <= q.limit
      && (forall v :: v in rows ==> v in db.ranking && Asked(db, q, v))
      && (forall k, l :: 0 <= k < l < |rows| ==> Nearer(db, rows[k], rows[l]))
      && (forall v :: v in db.ranking && Asked(db, q, v) && v !in rows ==>
            |rows| == q.limit && forall w :: w in rows ==> Nearer(db, w, v))
  {
    hide Asked, Nearer;
    var all, rows := Filtered(db, q, db.ranking), Nearest(db, q);
    FilteredInOrder(db, q, |db.ranking|);
    assert db.ranking[..|db.ranking|] == db.ranking;
    forall v | v in db.ranking && Asked(db, q, v) && v !in rows
      ensures |rows| == q.limit && forall w :: w in rows ==> Nearer(db, w, v)
    {
      var i :| 0 <= i < |db.ranking| && db.ranking[i] == v;
      var l :| 0 <= l < |all| && all[l] == v;
      assert l >= |rows|;
    }
  }

  /** Every row a search returns is the query's tenant's, and of the asked agent and type. */
  lemma ReturnedAsAsked(db: Database, q: Query, rows: seq<VectorId>, v: VectorId)
    requires rows <= Nearest(db, q) && v in rows
    ensures v in db.index && db.index[v].tenant == q.tenant
    ensures q.agent.Some? && q.agent.value != "" ==> db.index[v].agent == q.agent.value
    ensures q.memoryType.Some? && q.memoryType.value != "" ==> db.index[v].memoryType == q.memoryType.value
  {
    NearestIs(db, q);
    hide Nearest, Nearer;
    assert v in Nearest(db, q);
  }

  /** The count the flags speak of is of the asked-for rows of the index. */
  lemma CountedIs(db: Database, q: Query, v: VectorId)
    ensures v in FilteredIndex(db, q) <==> Asked(db, q, v)
  {
    WantedIsAsked(db, q, v);
  }
}
