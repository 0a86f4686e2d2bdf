/** changesSince: a cursor-paged view of a scope's snapshots in revision order, under concurrent checkpoints. */
module ChangesView {
  import opened Options
  import opened Types
  import opened Tree
  import opened ChangeLog
  import opened Protocol
  import opened Invariants
  import opened Runs

  // ----- The query

  /** The snapshot with the smallest revision after `after`. */
  predicate IsNext(s: Snaps, after: int, a: StateId) {
    a in s && s[a].revision > after && forall b :: b in s && s[b].revision > after ==> s[a].revision <= s[b].revision
  }

  lemma {:induction false} HasNext(s: Snaps, after: int, a: StateId)
    requires a in s && s[a].revision > after
    ensures exists n :: IsNext(s, after, n)
    decreases s[a].revision
  {
    if !IsNext(s, after, a) {
      var b :| b in s && after < s[b].revision < s[a].revision;
      HasNext(s, after, b);
    }
  }

  /** WHERE revision > after ORDER BY revision ASC LIMIT n */
  ghost function Rows(s: Snaps, after: int, n: nat): seq<StateId>
    decreases n
  {
    if n == 0 || !exists a :: IsNext(s, after, a) then []
    else
      var a :| IsNext(s, after, a);
      [a] + Rows(s, s[a].revision, n - 1)
  }

  datatype Page = Page(items: seq<StateId>, nextCursor: Option<int>)

  /** One row more than a page is asked for, to know whether to hand out a cursor. */
  ghost function ChangesSince(s: Snaps, since: int, cursor: Option<int>, pageSize: nat): Page
    requires pageSize >= 1
  {
    var rows := Rows(s, Or(cursor, since), pageSize + 1);
    RowsInScope(s, Or(cursor, since), pageSize + 1);
    if |rows| > pageSize then Page(rows[..pageSize], Some(s[rows[pageSize - 1]].revision)) else Page(rows, None)
  }

  // ----- What the query returns

  ghost predicate Ascending(s: Snaps, after: int, items: seq<StateId>) {
    && (forall i :: 0 <= i < |items| ==> items[i] in s && s[items[i]].revision > after)
    && (forall i, j :: 0 <= i < j < |items| ==> s[items[i]].revision < s[items[j]].revision)
  }

  /** Every snapshot with a revision in (after, upTo] is listed. */
  ghost predicate NoGap(s: Snaps, after: int, upTo: int, items: seq<StateId>) {
    forall a :: a in s && after < s[a].revision <= upTo ==> a in items
  }

  lemma {:induction false} RowsInScope(s: Snaps, after: int, n: nat)
    ensures |Rows(s, after, n)| <= n && Ascending(s, after, Rows(s, after, n))
    decreases n
  {
    if n > 0 && exists a :: IsNext(s, after, a) {
      var rows := Rows(s, after, n);
      RowsInScope(s, s[rows[0]].revision, n - 1);
      assert rows == [rows[0]] + Rows(s, s[rows[0]].revision, n - 1);
    }
  }

  lemma RowsUnfold(s: Snaps, after: int, n: nat)
    requires n > 0 && exists a :: IsNext(s, after, a)
    ensures var rows := Rows(s, after, n);
      rows != [] && IsNext(s, after, rows[0]) && rows == [rows[0]] + Rows(s, s[rows[0]].revision, n - 1)
  {
  }

  /** The listed snapshots are the lowest: none is skipped, and a short list is the whole rest. */
  ghost predicate Lowest(s: Snaps, after: int, n: nat, rows: seq<StateId>) {
    && (forall i :: 0 <= i < |rows| ==> rows[i] in s && NoGap(s, after, s[rows[i]].revision, rows[..i + 1]))
    && (|rows| < n ==> forall a :: a in s && s[a].revision > after ==> a in rows)
  }

  lemma {:induction false} RowsComplete(s: Snaps, after: int, n: nat)
    requires TreeOk(s)
    ensures Lowest(s, after, n, Rows(s, after, n))
    decreases n
  {
    hide TreeOk, Lowest, Ascending;
    if n > 0 && exists a :: IsNext(s, after, a) {
      RowsUnfold(s, after, n);
      var a := Rows(s, after, n)[0];
      RowsInScope(s, s[a].revision, n - 1);
      RowsComplete(s, s[a].revision, n - 1);
      hide Rows, IsNext;
      LowestFirst(s, after, n, a, Rows(s, s[a].revision, n - 1));
    } else {
      hide IsNext;
      LowestNone(s, after, n);
    }
  }

  lemma LowestNone(s: Snaps, after: int, n: nat)
    requires n == 0 || !exists a :: IsNext(s, after, a)
    ensures Lowest(s, after, n, [])
  {
    forall b | n > 0 && b in s && s[b].revision > after ensures false {
      HasNext(s, after, b);
    }
  }

  lemma LowestFirst(s: Snaps, after: int, n: nat, a: StateId, rest: seq<StateId>)
    requires TreeOk(s) && n > 0 && IsNext(s, after, a)
    requires Ascending(s, s[a].revision, rest) && Lowest(s, s[a].revision, n - 1, rest)
    ensures Lowest(s, after, n, [a] + rest)
  {
    var rows := [a] + rest;
    forall i | 0 <= i < |rows| ensures rows[i] in s && NoGap(s, after, s[rows[i]].revision, rows[..i + 1]) {
      FirstThenRest(s, after, a, rest, i);
    }
    if |rows| < n {
      forall b | b in s && s[b].revision > after ensures b in rows {
        assert b == a || s[b].revision > s[a].revision;
      }
    }
  }

  lemma FirstThenRest(s: Snaps, after: int, a: StateId, rest: seq<StateId>, i: nat)
    requires TreeOk(s) && IsNext(s, after, a) && i <= |rest|
    requires forall j :: 0 <= j < |rest| ==> rest[j] in s && s[rest[j]].revision > s[a].revision
    requires i > 0 ==> NoGap(s, s[a].revision, s[rest[i - 1]].revision, rest[..i])
    ensures NoGap(s, after, s[([a] + rest)[i]].revision, ([a] + rest)[..i + 1])
  {
    assert ([a] + rest)[..i + 1] == [a] + rest[..i];
  }

  // ----- Pages with checkpoints in between

  /** Snapshots are never changed or deleted, and a new one has a revision above all the old ones. */
  ghost predicate Grew(s: Snaps, s': Snaps) {
    && (forall a :: a in s ==> a in s' && s'[a] == s[a])
    && (forall a, b :: a in s && b in s' && b !in s ==> s[a].revision < s'[b].revision)
  }

  lemma GrewTwice(s: Snaps, s': Snaps, s'': Snaps)
    requires Grew(s, s') && Grew(s', s'')
    ensures Grew(s, s'')
  {
  }

  lemma StepGrew(t: Tables, c: Call)
    requires Inv(t) && Callable(t, c)
    ensures Grew(t.snaps, Next(t, c).snaps)
  {
    hide Step, LoopIdsFresh, FactIdsFresh, Wrote, AdmittedBy, RowsOk, InPlaceOk, PointerOk, RetirementsOk, RowsOwned,
         ReconcilesOk, KeysUnique, FingerprintsOk, TreeOk;
    if Step(t, c.p, c.u, c.now).1.Written? {
      var parent, adm, f, l := StepWrote(t, c.p, c.u, c.now, Next(t, c), Step(t, c.p, c.u, c.now).1);
      WroteExtends(t, c.p, c.u, c.now, Next(t, c), parent, adm, f, l);
    } else {
      StepRefused(t, c.p, c.u, c.now);
    }
  }

  /** Any run of checkpoints by anyone. */
  lemma {:induction false} RunGrew(t: Tables, calls: seq<Call>)
    requires Inv(t) && Admissible(t, calls)
    ensures Grew(t.snaps, Run(t, calls).snaps)
    decreases |calls|
  {
    hide Inv, Step, FreshUuids;
    if calls != [] {
      StepGrew(t, calls[0]);
      StepInv(t, calls[0].p, calls[0].u, calls[0].now);
      RunGrew(Next(t, calls[0]), calls[1..]);
      GrewTwice(t.snaps, Next(t, calls[0]).snaps, Run(t, calls).snaps);
    }
  }

  /** Page k is fetched from scope state k with the cursor page k - 1 handed out. */
  ghost predicate Fetched(scopes: seq<Snaps>, since: int, pageSize: nat, pages: seq<Page>) {
    && pageSize >= 1 && |scopes| == |pages|
    && (forall k :: 0 <= k < |scopes| ==> TreeOk(scopes[k]))
    && (forall k :: 0 <= k < |scopes| - 1 ==> Grew(scopes[k], scopes[k + 1]) && pages[k].nextCursor.Some?)
    && (forall k :: 0 <= k < |pages| ==> pages[k] == ChangesSince(scopes[k], since, CursorFor(pages, k), pageSize))
  }

  /** The cursor page k is asked with. */
  ghost function CursorFor(pages: seq<Page>, k: nat): Option<int>
    requires k <= |pages|
  {
    if k == 0 then None else pages[k - 1].nextCursor
  }

  ghost function AllItems(pages: seq<Page>): seq<StateId> {
    if pages == [] then [] else AllItems(pages[..|pages| - 1]) + pages[|pages| - 1].items
  }

  /** How far the pages have come. */
  ghost function Reached(since: int, s: Snaps, items: seq<StateId>): int
    requires Ascending(s, since, items)
  {
    if items == [] then since else s[items[|items| - 1]].revision
  }

  lemma PageIsExact(s: Snaps, since: int, cursor: Option<int>, pageSize: nat)
    requires TreeOk(s) && pageSize >= 1
    ensures var page := ChangesSince(s, since, cursor, pageSize);
      && Ascending(s, Or(cursor, since), page.items)
      && NoGap(s, Or(cursor, since), Reached(Or(cursor, since), s, page.items), page.items)
      && (page.nextCursor.Some? ==>
        page.items != [] && page.nextCursor.value == Reached(Or(cursor, since), s, page.items))
      && (page.nextCursor.None? ==> forall a :: a in s && s[a].revision > Or(cursor, since) ==> a in page.items)
  {
    hide TreeOk, Ascending, NoGap, Lowest, Rows, Reached;
    var after := Or(cursor, since);
    RowsInScope(s, after, pageSize + 1);
    RowsComplete(s, after, pageSize + 1);
    PageOfRows(s, after, pageSize, Rows(s, after, pageSize + 1), ChangesSince(s, since, cursor, pageSize));
  }

  lemma PageOfRows(s: Snaps, after: int, pageSize: nat, rows: seq<StateId>, page: Page)
    requires pageSize >= 1 && |rows| <= pageSize + 1 && Ascending(s, after, rows) &&
      Lowest(s, after, pageSize + 1, rows)
    requires page == if |rows| > pageSize then Page(rows[..pageSize], Some(s[rows[pageSize - 1]].revision))
      else Page(rows, None)
    ensures Ascending(s, after, page.items)
    ensures NoGap(s, after, Reached(after, s, page.items), page.items)
    ensures page.nextCursor.Some? ==> page.items != [] && page.nextCursor.value == Reached(after, s, page.items)
    ensures page.nextCursor.None? ==> forall a :: a in s && s[a].revision > after ==> a in page.items
  {
    hide Ascending, NoGap, Reached;
    if |rows| > pageSize {
      PrefixOfRows(s, after, rows, pageSize);
    } else if rows != [] {
      PrefixOfRows(s, after, rows, |rows|);
      assert rows[..|rows|] == rows;
    } else {
      NoRows(s, after);
    }
  }

  lemma NoRows(s: Snaps, after: int)
    ensures Ascending(s, after, []) && NoGap(s, after, Reached(after, s, []), [])
  {
  }

  lemma PrefixOfRows(s: Snaps, after: int, rows: seq<StateId>, n: nat)
    requires 1 <= n <= |rows| && Ascending(s, after, rows)
    requires forall i :: 0 <= i < |rows| ==> rows[i] in s && NoGap(s, after, s[rows[i]].revision, rows[..i + 1])
    ensures Ascending(s, after, rows[..n]) && NoGap(s, after, s[rows[n - 1]].revision, rows[..n])
    ensures Reached(after, s, rows[..n]) == s[rows[n - 1]].revision
  {
    hide NoGap;
    assert rows[n - 1] in s && NoGap(s, after, s[rows[n - 1]].revision, rows[..n - 1 + 1]);
  }

  /** A later state of the scope sees an earlier page as it was. */
  lemma ItemsKept(s: Snaps, s': Snaps, since: int, items: seq<StateId>)
    requires Grew(s, s') && Ascending(s, since, items)
    ensures Ascending(s', since, items) && Reached(since, s', items) == Reached(since, s, items)
    ensures NoGap(s, since, Reached(since, s, items), items) ==> NoGap(s', since, Reached(since, s, items), items)
  {
    if NoGap(s, since, Reached(since, s, items), items) && items != [] {
      forall a | a in s' && since < s'[a].revision <= Reached(since, s, items) ensures a in items {
        assert a in s;
      }
    }
  }

  lemma ItemsAppended(s: Snaps, since: int, items: seq<StateId>, more: seq<StateId>)
    requires Ascending(s, since, items) && NoGap(s, since, Reached(since, s, items), items)
    requires Ascending(s, Reached(since, s, items), more)
    requires NoGap(s, Reached(since, s, items), Reached(Reached(since, s, items), s, more), more)
    ensures Ascending(s, since, items + more)
    ensures Reached(since, s, items + more) == Reached(Reached(since, s, items), s, more)
    ensures NoGap(s, since, Reached(since, s, items + more), items + more)
  {
    var all := items + more;
    forall i, j | 0 <= i < j < |all| ensures s[all[i]].revision < s[all[j]].revision {
      if i < |items| <= j {
        assert s[items[i]].revision <= Reached(since, s, items) < s[more[j - |items|]].revision;
      }
    }
  }

  /**
   With any checkpoints between the fetches, the pages concatenate to a strictly ascending list
   without repeats or gaps of the snapshots after `since`; and when a page hands out no cursor,
   nothing that existed at that moment was missed.
   */
  lemma {:induction false} PagesAreExact(scopes: seq<Snaps>, since: int, pageSize: nat, pages: seq<Page>)
    requires Fetched(scopes, since, pageSize, pages) && pages != []
    ensures var s, items, last := scopes[|scopes| - 1], AllItems(pages), pages[|pages| - 1];
      && Ascending(s, since, items)
      && NoGap(s, since, Reached(since, s, items), items)
      && (last.nextCursor.Some? ==> last.nextCursor.value == Reached(since, s, items))
      && (last.nextCursor.None? ==> forall a :: a in s && s[a].revision > since ==> a in items)
    decreases |pages|
  {
    hide ChangesSince, TreeOk, Ascending, NoGap, Reached, Grew, Fetched;
    FetchedLast(scopes, since, pageSize, pages);
    var n := |pages|;
    var s, last := scopes[n - 1], pages[n - 1];
    if n == 1 {
      PageIsExact(s, since, None, pageSize);
      assert AllItems(pages[..0]) == [] && [] + last.items == last.items;
    } else {
      FetchedFront(scopes, since, pageSize, pages);
      PagesAreExact(scopes[..n - 1], since, pageSize, pages[..n - 1]);
      OnePageMore(scopes[n - 2], s, since, AllItems(pages[..n - 1]), CursorFor(pages, n - 1), pageSize);
    }
  }

  lemma FetchedLast(scopes: seq<Snaps>, since: int, pageSize: nat, pages: seq<Page>)
    requires Fetched(scopes, since, pageSize, pages) && pages != []
    ensures var n := |pages|;
      && pageSize >= 1 && |scopes| == n && TreeOk(scopes[n - 1])
      && pages[n - 1] == ChangesSince(scopes[n - 1], since, CursorFor(pages, n - 1), pageSize)
      && (n > 1 ==> Grew(scopes[n - 2], scopes[n - 1]))
  {
    hide ChangesSince, TreeOk, Grew;
  }

  lemma OnePageMore(s: Snaps, s': Snaps, since: int, items: seq<StateId>, cursor: Option<int>, pageSize: nat)
    requires Grew(s, s') && TreeOk(s') && pageSize >= 1
    requires Ascending(s, since, items) && NoGap(s, since, Reached(since, s, items), items)
    requires cursor == Some(Reached(since, s, items))
    ensures var page := ChangesSince(s', since, cursor, pageSize); var all := items + page.items;
      && Ascending(s', since, all)
      && NoGap(s', since, Reached(since, s', all), all)
      && (page.nextCursor.Some? ==> page.nextCursor.value == Reached(since, s', all))
      && (page.nextCursor.None? ==> forall a :: a in s' && s'[a].revision > since ==> a in all)
  {
    hide ChangesSince, TreeOk, Ascending, NoGap, Reached, Grew;
    ItemsKept(s, s', since, items);
    PageIsExact(s', since, cursor, pageSize);
    var page := ChangesSince(s', since, cursor, pageSize);
    ItemsAppended(s', since, items, page.items);
    if page.nextCursor.None? {
      NothingMissed(s', since, items, page.items);
    }
  }

  lemma NothingMissed(s: Snaps, since: int, items: seq<StateId>, more: seq<StateId>)
    requires Ascending(s, since, items) && NoGap(s, since, Reached(since, s, items), items)
    requires forall a :: a in s && s[a].revision > Reached(since, s, items) ==> a in more
    ensures forall a :: a in s && s[a].revision > since ==> a in items + more
  {
  }

  lemma FetchedFront(scopes: seq<Snaps>, since: int, pageSize: nat, pages: seq<Page>)
    requires Fetched(scopes, since, pageSize, pages) && |pages| > 1
    ensures Fetched(scopes[..|pages| - 1], since, pageSize, pages[..|pages| - 1])
    ensures pages[|pages| - 2].nextCursor.Some?
  {
    hide ChangesSince, TreeOk, Grew;
    var front := pages[..|pages| - 1];
    forall k: nat | k < |front|
      ensures front[k] == ChangesSince(scopes[k], since, CursorFor(front, k), pageSize)
    {
      assert pages[k] == ChangesSince(scopes[k], since, CursorFor(pages, k), pageSize);
    }
  }

  // ----- How many rows there are

  /** The snapshots a page could still list. */
  ghost function Later(s: Snaps, after: int): set<StateId> {
    set a | a in s && s[a].revision > after
  }

  lemma NextLeaves(s: Snaps, after: int, a: StateId)
    requires TreeOk(s) && IsNext(s, after, a)
    ensures a in Later(s, after) && Later(s, s[a].revision) == Later(s, after) - {a}
  {
  }

  /** The query returns as many rows as there are, up to its limit. */
  lemma {:induction false} RowsCounted(s: Snaps, after: int, n: nat)
    requires TreeOk(s)
    ensures |Rows(s, after, n)| == if |Later(s, after)| < n then |Later(s, after)| else n
    decreases n
  {
    hide TreeOk, IsNext;
    if n > 0 {
      if exists a :: IsNext(s, after, a) {
        RowsUnfold(s, after, n);
        var a := Rows(s, after, n)[0];
        NextLeaves(s, after, a);
        RowsCounted(s, s[a].revision, n - 1);
      } else {
        NoneLater(s, after);
      }
    }
  }

  lemma NoneLater(s: Snaps, after: int)
    requires !exists a :: IsNext(s, after, a)
    ensures Later(s, after) == {}
  {
    if a :| a in Later(s, after) {
      HasNext(s, after, a);
    }
  }

  /** A page lists as many snapshots as it may, and hands out a cursor exactly when more lie beyond it. */
  lemma PageCounts(s: Snaps, since: int, cursor: Option<int>, pageSize: nat)
    requires TreeOk(s) && pageSize >= 1
    ensures var page, later := ChangesSince(s, since, cursor, pageSize),
                               |set a | a in s && s[a].revision > (if cursor.Some? then cursor.value else since)|;
      && (page.nextCursor.Some? <==> later > pageSize)
      && |page.items| == if later < pageSize then later else pageSize
  {
    hide TreeOk, Rows;
    var after := Or(cursor, since);
    RowsCounted(s, after, pageSize + 1);
    assert Later(s, after) == set a | a in s && s[a].revision > (if cursor.Some? then cursor.value else since);
  }
}
