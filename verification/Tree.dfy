/** The parent tree of a scope: lineages, forks and live heads. */
module Tree {
  import opened Options
  import opened Types

  /** Unique revisions, and every parent present with a smaller revision than its child. */
  ghost predicate TreeOk(s: Snaps) {
    && (forall a :: a in s ==> s[a].revision >= 1)
    && (forall a :: a in s && s[a].parent.Some? ==>
          s[a].parent.value in s && s[s[a].parent.value].revision < s[a].revision)
    && (forall a, b :: a in s && b in s && s[a].revision == s[b].revision ==> a == b)
  }

  predicate HasChild(s: Snaps, a: StateId) {
    exists c :: c in s && s[c].parent == Some(a)
  }

  /** No snapshot in the scope claims it as parent and it has no retirement row. */
  function Live(s: Snaps, retired: set<StateId>): set<StateId> {
    set a | a in s && !HasChild(s, a) && a !in retired
  }

  /**
   The walk from `cursor` towards the root, head first, that ends at a member of `stop`, at a
   missing row, or at a snapshot already visited. Total on cyclic and on dangling data.
   */
  ghost function Walk(s: Snaps, cursor: Option<StateId>, stop: set<StateId>, guard: set<StateId>): (w: seq<StateId>)
    ensures forall i :: 0 <= i < |w| ==> w[i] in s && w[i] !in stop && w[i] !in guard
    decreases s.Keys - guard
  {
    if cursor.None? || cursor.value in stop || cursor.value in guard || cursor.value !in s then []
    else [cursor.value] + Walk(s, s[cursor.value].parent, stop, guard + {cursor.value})
  }

  /** The chain from `head` back to, and excluding, the first snapshot in `stop`. */
  ghost function Chain(s: Snaps, head: StateId, stop: set<StateId>): seq<StateId> {
    Walk(s, Some(head), stop, {})
  }

  ghost function ChainSet(s: Snaps, head: StateId, stop: set<StateId>): set<StateId> {
    set a | a in Chain(s, head, stop)
  }

  /** The head and its parent chain, head first. */
  ghost function Lineage(s: Snaps, head: StateId): seq<StateId> {
    Chain(s, head, {})
  }

  ghost function Ancestry(s: Snaps, head: StateId): set<StateId> {
    ChainSet(s, head, {})
  }

  // ----- The guard never fires on a well-formed tree

  lemma {:induction false} GuardIrrelevant(s: Snaps, cursor: Option<StateId>, stop: set<StateId>, g: set<StateId>,
                                           h: set<StateId>)
    requires TreeOk(s)
    requires cursor.Some? ==> cursor.value in s
    requires cursor.Some? ==> forall x :: x in g + h && x in s ==> s[x].revision > s[cursor.value].revision
    ensures Walk(s, cursor, stop, g) == Walk(s, cursor, stop, h)
    decreases if cursor.Some? then s[cursor.value].revision else 0
  {
    if cursor.Some? && cursor.value !in stop {
      var c := cursor.value;
      GuardIrrelevant(s, s[c].parent, stop, g + {c}, h + {c});
    }
  }

  /** On a well-formed tree the guarded walk is the plain recursion along parents. */
  lemma {:induction false} ChainUnfold(s: Snaps, h: StateId, stop: set<StateId>)
    requires TreeOk(s) && h in s
    ensures h in stop ==> Chain(s, h, stop) == []
    ensures h !in stop ==>
      Chain(s, h, stop) == [h] + (if s[h].parent.Some? then Chain(s, s[h].parent.value, stop) else [])
  {
    if h !in stop {
      assert {} + {h} == {h};
      GuardIrrelevant(s, s[h].parent, stop, {h}, {});
    }
  }

  lemma {:induction false} AncestryUnfold(s: Snaps, h: StateId)
    requires TreeOk(s) && h in s
    ensures Ancestry(s, h) == {h} + (if s[h].parent.Some? then Ancestry(s, s[h].parent.value) else {})
  {
    ChainUnfold(s, h, {});
  }

  // ----- Ancestors

  lemma {:induction false} AncestorFacts(s: Snaps, h: StateId, a: StateId)
    requires TreeOk(s) && h in s && a in Ancestry(s, h)
    ensures a in s && s[a].revision <= s[h].revision
    ensures a != h ==> HasChild(s, a) && s[a].revision < s[h].revision
    ensures Ancestry(s, a) <= Ancestry(s, h)
    decreases s[h].revision
  {
    AncestryUnfold(s, h);
    if a != h {
      var p := s[h].parent.value;
      AncestorFacts(s, p, a);
    }
  }

  lemma {:induction false} ChainWithinAncestry(s: Snaps, h: StateId, stop: set<StateId>)
    requires TreeOk(s) && h in s
    ensures ChainSet(s, h, stop) <= Ancestry(s, h)
    decreases s[h].revision
  {
    ChainUnfold(s, h, stop);
    AncestryUnfold(s, h);
    if h !in stop && s[h].parent.Some? {
      ChainWithinAncestry(s, s[h].parent.value, stop);
    }
  }

  /** Along a walk revisions strictly decrease, so a chain never repeats a snapshot. */
  lemma {:induction false} ChainDescends(s: Snaps, h: StateId, stop: set<StateId>)
    requires TreeOk(s) && h in s
    ensures var w := Chain(s, h, stop);
      forall i, j :: 0 <= i < j < |w| ==> s[w[i]].revision > s[w[j]].revision
    decreases s[h].revision
  {
    ChainUnfold(s, h, stop);
    if h !in stop && s[h].parent.Some? {
      var p := s[h].parent.value;
      ChainDescends(s, p, stop);
      forall x | x in Chain(s, p, stop) ensures s[x].revision <= s[p].revision {
        assert x in ChainSet(s, p, stop);
        ChainWithinAncestry(s, p, stop);
        AncestorFacts(s, p, x);
      }
    }
  }

  // ----- Adding one snapshot below an existing one

  ghost predicate Extends(s: Snaps, s': Snaps, n: StateId) {
    && n !in s && n in s'
    && s'.Keys == s.Keys + {n}
    && (forall a :: a in s ==> s'[a] == s[a])
    && (s'[n].parent.Some? ==> s'[n].parent.value in s)
    && (forall a :: a in s ==> s'[a].revision < s'[n].revision)
    && s'[n].revision >= 1
  }

  lemma ExtendsIsNew(s: Snaps, s': Snaps, n: StateId)
    requires Extends(s, s', n)
    ensures n !in s && n in s'
  {
  }

  lemma ExtendsTreeOk(s: Snaps, s': Snaps, n: StateId)
    requires TreeOk(s) && Extends(s, s', n)
    ensures TreeOk(s')
  {
  }

  lemma {:induction false} WalkExtends(s: Snaps, s': Snaps, n: StateId, c: Option<StateId>, stop: set<StateId>,
                                       stop': set<StateId>, g: set<StateId>)
    requires TreeOk(s) && Extends(s, s', n)
    requires c.Some? ==> c.value in s
    requires stop' == stop || stop' == stop + {n}
    ensures Walk(s', c, stop', g) == Walk(s, c, stop, g)
    decreases s.Keys - g
  {
    if c.Some? && c.value !in stop && c.value !in g {
      WalkExtends(s, s', n, s[c.value].parent, stop, stop', g + {c.value});
    }
  }

  lemma LineageExtends(s: Snaps, s': Snaps, n: StateId)
    requires TreeOk(s) && Extends(s, s', n)
    ensures TreeOk(s')
    ensures forall h :: h in s ==> Lineage(s', h) == Lineage(s, h)
    ensures forall h :: h in s ==> Ancestry(s', h) == Ancestry(s, h)
    ensures Lineage(s', n) == [n] + (if s'[n].parent.Some? then Lineage(s, s'[n].parent.value) else [])
    ensures Ancestry(s', n) == {n} + (if s'[n].parent.Some? then Ancestry(s, s'[n].parent.value) else {})
  {
    ExtendsTreeOk(s, s', n);
    forall h | h in s ensures Lineage(s', h) == Lineage(s, h) {
      WalkExtends(s, s', n, Some(h), {}, {}, {});
    }
    ChainUnfold(s', n, {});
  }

  lemma ChainExtends(s: Snaps, s': Snaps, n: StateId, h: StateId, stop: set<StateId>)
    requires TreeOk(s) && Extends(s, s', n) && h in s
    ensures Chain(s', h, stop) == Chain(s, h, stop)
    ensures Chain(s', h, stop + {n}) == Chain(s, h, stop)
    ensures Chain(s', h, {n} + stop) == Chain(s, h, stop)
  {
    WalkExtends(s, s', n, Some(h), stop, stop, {});
    WalkExtends(s, s', n, Some(h), stop, stop + {n}, {});
    assert {n} + stop == stop + {n};
  }

  // ----- Revision allocation

  lemma {:induction false} HasMaximum(revs: set<nat>)
    requires revs != {}
    ensures exists m :: m in revs && forall r :: r in revs ==> r <= m
    decreases |revs|
  {
    var x :| x in revs;
    if revs == {x} {
      assert x in revs;
    } else {
      HasMaximum(revs - {x});
      var m :| m in revs - {x} && forall r :: r in revs - {x} ==> r <= m;
      var top := if m < x then x else m;
      assert top in revs;
      forall r | r in revs ensures r <= top {
        assert r == x || r in revs - {x};
      }
    }
  }

  /** COALESCE(MAX(revision), 0) */
  function MaxRevision(s: Snaps): (m: nat)
    ensures forall a :: a in s ==> s[a].revision <= m
    ensures m == 0 || exists a :: a in s && s[a].revision == m
  {
    if s.Keys == {} then 0
    else
      var revs := set a | a in s :: s[a].revision;
      assert forall a :: a in s ==> s[a].revision in revs;
      HasMaximum(revs);
      var m: nat :| m in revs && forall r :: r in revs ==> r <= m;
      m
  }

  /** The newest snapshot of all has no child. */
  lemma MaxRevisionIsLeaf(s: Snaps, a: StateId)
    requires TreeOk(s) && a in s && s[a].revision == MaxRevision(s)
    ensures !HasChild(s, a)
  {
  }
}
