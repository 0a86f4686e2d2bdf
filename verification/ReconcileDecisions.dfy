/** normalizeReconcileRequest and evaluateDivergence, as the loops they are. */
module ReconcileDecisions {
  import opened Options
  import opened Types
  import opened Tree
  import opened Newest
  import opened ChangeLog
  import opened Divergence
  import opened Verifiers
  import opened Evaluation
  import opened Invariants
  import opened ReconcileWalks
  import opened ReconcileChecks
  import opened VersionChecks

  // ----- normalizeReconcileRequest

  lemma NoDuplicatesSnoc(front: seq<string>, last: string)
    ensures NoDuplicates(front + [last]) <==> NoDuplicates(front) && last !in front
  {
    var xs := front + [last];
    if NoDuplicates(xs) {
      forall i, j | 0 <= i < j < |front| ensures front[i] != front[j] {
        assert xs[i] == front[i] && xs[j] == front[j];
      }
      assert forall i :: 0 <= i < |front| ==> xs[i] == front[i] && xs[i] != xs[|front|];
    }
  }

  lemma {:induction false} SizeIsLength(xs: seq<string>)
    ensures |Elements(xs)| <= |xs|
    ensures |Elements(xs)| == |xs| <==> NoDuplicates(xs)
  {
    if xs == [] {
      assert Elements(xs) == {};
    } else {
      var front, last := xs[..|xs| - 1], xs[|xs| - 1];
      assert xs == front + [last];
      assert Elements(xs) == Elements(front) + {last};
      assert last in Elements(front) <==> last in front;
      hide Elements, NoDuplicates;
      SizeIsLength(front);
      NoDuplicatesSnoc(front, last);
    }
  }

  /** Refuse a duplicate key, an accept without a usable ordinal, and a reject with one. */
  method NormalizeResolutions(rs: seq<ResolutionRequest>) returns (out: Option<map<TerminalKey, Decision>>)
    ensures out.Some? <==> DistinctKeys(rs) && forall i :: 0 <= i < |rs| ==> WellFormedResolution(rs[i])
    ensures out.Some? ==> out.value == ResolutionMap(rs)
  {
    var seen, decided := {}, map[];
    for i := 0 to |rs|
      invariant forall j :: 0 <= j < i ==> WellFormedResolution(rs[j])
      invariant forall j, k :: 0 <= j < k < i ==> rs[j].key != rs[k].key
      invariant seen == set j | 0 <= j < i :: rs[j].key
      invariant decided == ResolutionMap(rs[..i])
    {
      if rs[i].key in seen || !WellFormedResolution(rs[i]) {
        return None;
      }
      assert rs[..i + 1][..i] == rs[..i];
      seen := seen + {rs[i].key};
      decided := decided[rs[i].key := DecisionOf(rs[i])];
    }
    assert rs[..|rs|] == rs;
    return Some(decided);
  }

  /** What can be validated without the database; the form a fingerprint binds. */
  method NormalizeReconcileRequest(p: Params) returns (r: Option<Normalized>)
    ensures r == Normalize(p)
  {
    var heads := Elements(p.expectedHeads);
    SizeIsLength(p.expectedHeads);
    if heads == {} || |p.expectedHeads| != |heads| || p.survivor !in heads || p.reason == "" {
      return None;
    }
    var resolutions := NormalizeResolutions(p.resolutions);
    if resolutions.None? {
      return None;
    }
    var rejectLineages := Elements(p.rejectLineages);
    SizeIsLength(p.rejectLineages);
    if |p.rejectLineages| != |rejectLineages| || p.survivor in rejectLineages {
      return None;
    }
    return Some(Normalized(heads, p.expectedPointer, p.survivor, p.reason, p.strict != Some(false),
                           resolutions.value, rejectLineages, p.acknowledgeRetired));
  }

  lemma {:induction false} ResolutionMapMeaning(rs: seq<ResolutionRequest>)
    requires DistinctKeys(rs) && forall i :: 0 <= i < |rs| ==> WellFormedResolution(rs[i])
    ensures forall i :: 0 <= i < |rs| ==>
      rs[i].key in ResolutionMap(rs) && ResolutionMap(rs)[rs[i].key] == DecisionOf(rs[i])
    ensures forall key :: key in ResolutionMap(rs) ==> exists i :: 0 <= i < |rs| && rs[i].key == key
  {
    if rs != [] {
      var front := rs[..|rs| - 1];
      ResolutionMapMeaning(front);
      forall key | key in ResolutionMap(rs) ensures exists i :: 0 <= i < |rs| && rs[i].key == key {
        if key != rs[|rs| - 1].key {
          assert key in ResolutionMap(front);
          var i :| 0 <= i < |front| && front[i].key == key;
          assert rs[i].key == key;
        }
      }
      forall i | 0 <= i < |rs|
        ensures rs[i].key in ResolutionMap(rs) && ResolutionMap(rs)[rs[i].key] == DecisionOf(rs[i])
      {
        if i < |front| {
          assert front[i] == rs[i];
        }
      }
    }
  }

  /** Two lists that hold the same elements the same number of times. */
  ghost predicate Permuted<T>(xs: seq<T>, ys: seq<T>) {
    multiset(xs) == multiset(ys)
  }

  lemma TwiceCounted<T>(xs: seq<T>, i: nat, j: nat)
    requires i < j < |xs| && xs[i] == xs[j]
    ensures multiset(xs)[xs[i]] >= 2
  {
    assert xs == xs[..j] + [xs[j]] + xs[j + 1..];
    assert xs[..j][i] == xs[i];
    assert xs[i] in multiset(xs[..j]);
  }

  lemma CountedTwice<T>(xs: seq<T>, x: T)
    requires multiset(xs)[x] >= 2
    ensures exists i, j :: 0 <= i < j < |xs| && xs[i] == xs[j]
  {
    assert x in xs;
    var i :| 0 <= i < |xs| && xs[i] == x;
    assert xs == xs[..i] + [xs[i]] + xs[i + 1..];
    var rest := xs[..i] + xs[i + 1..];
    assert multiset(xs) == multiset(rest) + multiset{x};
    assert x in multiset(rest);
    var j :| 0 <= j < |rest| && rest[j] == x;
    var j' := if j < i then j else j + 1;
    assert xs[j'] == x && j' != i;
  }

  lemma DuplicatesCounted<T>(xs: seq<T>)
    ensures (forall i, j :: 0 <= i < j < |xs| ==> xs[i] != xs[j]) <==> forall x :: multiset(xs)[x] <= 1
  {
    forall i: nat, j: nat | i < j < |xs| && xs[i] == xs[j] ensures multiset(xs)[xs[i]] >= 2 {
      TwiceCounted(xs, i, j);
    }
    forall x | multiset(xs)[x] >= 2 ensures exists i, j :: 0 <= i < j < |xs| && xs[i] == xs[j] {
      CountedTwice(xs, x);
    }
  }

  lemma SameMembers<T>(xs: seq<T>, ys: seq<T>, x: T)
    requires Permuted(xs, ys)
    ensures x in xs <==> x in ys
  {
    assert x in xs <==> x in multiset(xs);
    assert x in ys <==> x in multiset(ys);
  }

  lemma SameElements(xs: seq<string>, ys: seq<string>)
    requires Permuted(xs, ys)
    ensures Elements(xs) == Elements(ys) && (NoDuplicates(xs) <==> NoDuplicates(ys)) && (xs == [] <==> ys == [])
    ensures forall x :: x in xs <==> x in ys
  {
    DuplicatesCounted(xs);
    DuplicatesCounted(ys);
    forall x ensures x in xs <==> x in ys {
      SameMembers(xs, ys, x);
    }
    assert |xs| == |multiset(xs)| == |multiset(ys)| == |ys|;
  }

  ghost predicate Usable(rs: seq<ResolutionRequest>) {
    DistinctKeys(rs) && forall i :: 0 <= i < |rs| ==> WellFormedResolution(rs[i])
  }

  lemma UsableEither(xs: seq<ResolutionRequest>, ys: seq<ResolutionRequest>)
    requires Permuted(xs, ys) && Usable(xs)
    ensures Usable(ys)
  {
    DuplicatesCounted(xs);
    DuplicatesCounted(ys);
    forall i | 0 <= i < |ys| ensures WellFormedResolution(ys[i]) {
      SameMembers(xs, ys, ys[i]);
    }
    forall i, j | 0 <= i < j < |ys| ensures ys[i].key != ys[j].key {
      assert ys[i] != ys[j];
      SameMembers(xs, ys, ys[i]);
      SameMembers(xs, ys, ys[j]);
    }
  }

  lemma SameResolutions(xs: seq<ResolutionRequest>, ys: seq<ResolutionRequest>)
    requires Permuted(xs, ys) && Usable(xs) && Usable(ys)
    ensures ResolutionMap(xs) == ResolutionMap(ys)
  {
    ResolutionMapMeaning(xs);
    ResolutionMapMeaning(ys);
    forall r ensures r in xs <==> r in ys {
      SameMembers(xs, ys, r);
    }
    hide ResolutionMap;
    var a, b := ResolutionMap(xs), ResolutionMap(ys);
    forall key | key in a ensures key in b && b[key] == a[key] {
      var i :| 0 <= i < |xs| && xs[i].key == key;
      assert xs[i] in ys;
    }
    forall key | key in b ensures key in a {
      var i :| 0 <= i < |ys| && ys[i].key == key;
      assert ys[i] in xs;
    }
  }

  /** A request listed in another order normalizes to the same value, so it has the same fingerprint. */
  lemma NormalizeOrderless(p: Params, q: Params)
    requires q == p.(expectedHeads := q.expectedHeads, resolutions := q.resolutions, rejectLineages := q.rejectLineages)
    requires Permuted(p.expectedHeads, q.expectedHeads) && Permuted(p.resolutions, q.resolutions)
    requires Permuted(p.rejectLineages, q.rejectLineages)
    ensures Normalize(p) == Normalize(q)
  {
    hide ResolutionMap;
    SameElements(p.expectedHeads, q.expectedHeads);
    SameElements(p.rejectLineages, q.rejectLineages);
    assert Permuted(q.resolutions, p.resolutions);
    if Usable(p.resolutions) {
      UsableEither(p.resolutions, q.resolutions);
      SameResolutions(p.resolutions, q.resolutions);
    } else if Usable(q.resolutions) {
      UsableEither(q.resolutions, p.resolutions);
    }
    hide DistinctKeys, WellFormedResolution;
  }

  // ----- The helpers of evaluateDivergence

  /** Every resolution recorded by a reconcile on the lineage. */
  method VerifiedResolutionKeys(s: Snaps, lineage: seq<StateId>) returns (keys: set<TerminalKey>)
    requires forall i :: 0 <= i < |lineage| ==> lineage[i] in s
    ensures forall key :: key in keys <==> Resolved(s, Members(lineage), key)
  {
    keys := {};
    for i := 0 to |lineage|
      invariant forall key :: key in keys <==> Resolved(s, Members(lineage[..i]), key)
    {
      var record := s[lineage[i]].envelope.reconciliation;
      ghost var on := Members(lineage[..i]);
      assert Members(lineage[..i + 1]) == on + {lineage[i]};
      if record.Some? {
        keys := keys + record.value.resolutions.Keys;
      }
      forall key ensures key in keys <==> Resolved(s, on + {lineage[i]}, key) {
        ResolvedOneMore(s, on, lineage[i], key);
      }
    }
    assert lineage[..|lineage|] == lineage;
  }

  lemma ResolvedOneMore(s: Snaps, on: set<StateId>, a: StateId, key: TerminalKey)
    requires a in s
    ensures Resolved(s, on + {a}, key) <==>
      Resolved(s, on, key) ||
        (s[a].envelope.reconciliation.Some? && key in s[a].envelope.reconciliation.value.resolutions)
  {
  }

  /** The in-place owner or the author, advanced by each change of the same loop up to `ordinal`. */
  method EffectiveOwner(rows: Loops, cs: seq<LoopChange>, ordinal: nat, author: Principal) returns (owner: string)
    requires ordinal < |cs| && cs[ordinal].loopId.Some?
    ensures owner == EffectiveLoopOwnerAt(rows, cs, ordinal, author)
  {
    var id := cs[ordinal].loopId.value;
    owner := if id != "" && id in rows then rows[id].owner else author;
    ghost var base := owner;
    for j := 0 to ordinal + 1
      invariant owner == OwnerAfter(base, cs, id, j)
    {
      if cs[j].loopId != Some(id) {
        continue;
      }
      owner := Or(cs[j].owner, owner);
    }
  }

  function NamedAt(facts: seq<FactChange>, loops: seq<LoopChange>, k: Kind, i: nat): Option<RowId>
    requires i < if k == Fact then |facts| else |loops|
  {
    if k == Fact then facts[i].factId else loops[i].loopId
  }

  function ListLength(facts: seq<FactChange>, loops: seq<LoopChange>, k: Kind): nat {
    if k == Fact then |facts| else |loops|
  }

  /** The highest ordinal that names `id`, or -1. */
  method LastOrdinalNaming(facts: seq<FactChange>, loops: seq<LoopChange>, k: Kind, id: RowId) returns (last: int)
    ensures -1 <= last < ListLength(facts, loops, k)
    ensures last >= 0 ==> NamedAt(facts, loops, k, last) == Some(id)
    ensures forall i :: last < i < ListLength(facts, loops, k) ==> NamedAt(facts, loops, k, i) != Some(id)
  {
    last := -1;
    for i := 0 to ListLength(facts, loops, k)
      invariant -1 <= last < i
      invariant last >= 0 ==> NamedAt(facts, loops, k, last) == Some(id)
      invariant forall j :: last < j < i ==> NamedAt(facts, loops, k, j) != Some(id)
    {
      if NamedAt(facts, loops, k, i) == Some(id) {
        last := i;
      }
    }
  }

  /** One accept: the named ordinal exists, is the final change of the id, and has the divergent value. */
  method AcceptHolds(t: Tables, key: TerminalKey, o: nat, divergent: Option<Comparable>,
                     facts: seq<FactChange>, loops: seq<LoopChange>, author: Principal) returns (ok: bool)
    requires divergent == ComparableNewest(t.snaps, t.ledger, t.versions, key)
    ensures ok <==> AcceptAdmitted(t, key, o, facts, loops, author)
  {
    hide ComparableNewest, EffectiveLoopOwnerAt;
    if divergent.None? {
      return false;
    }
    if o >= ListLength(facts, loops, key.kind) {
      return false;
    }
    if NamedAt(facts, loops, key.kind, o) != Some(key.id) {
      return false;
    }
    var last := LastOrdinalNaming(facts, loops, key.kind, key.id);
    if last != o {
      return false;
    }
    if key.kind == Fact {
      assert forall j :: o < j < |facts| ==> NamedAt(facts, loops, Fact, j) == facts[j].factId;
      return Comparing(FactVersionValue(facts[o])) == divergent.value;
    }
    var owner := EffectiveOwner(t.loops, loops, o, author);
    assert forall j :: o < j < |loops| ==> NamedAt(facts, loops, Loop, j) == loops[j].loopId;
    var c := loops[o];
    return ComparableLoop(owner, c.status, c.nextAction, c.dueAt, c.blockedOn,
                          if c.status == Closed then c.closeOutcome else None) == divergent.value;
  }

  // ----- evaluateDivergence

  ghost predicate AcceptsAdmitted(t: Tables, n: Normalized, keys: set<TerminalKey>, facts: seq<FactChange>,
                                  loops: seq<LoopChange>, author: Principal) {
    forall key :: key in keys && key in n.resolutions && n.resolutions[key].Accept? ==>
      AcceptAdmitted(t, key, n.resolutions[key].ordinal, facts, loops, author)
  }

  /** The explicit resolutions: each must hit an unresolved terminal, and each accept must hold. */
  method ExplicitResolutions(t: Tables, n: Normalized, unresolved: TerminalMap,
                             facts: seq<FactChange>, loops: seq<LoopChange>, author: Principal)
    returns (outcome: Option<map<TerminalKey, Decision>>)
    requires AllDescribed(t, unresolved)
    ensures outcome.Some? <==>
      n.resolutions.Keys <= unresolved.Keys && AcceptsAdmitted(t, n, n.resolutions.Keys, facts, loops, author)
    ensures outcome.Some? ==> outcome.value == n.resolutions
  {
    hide AcceptAdmitted;
    var decided: map<TerminalKey, Decision> := map[];
    var todo := n.resolutions.Keys;
    while todo != {}
      invariant todo <= n.resolutions.Keys
      invariant n.resolutions.Keys - todo <= unresolved.Keys
      invariant AcceptsAdmitted(t, n, n.resolutions.Keys - todo, facts, loops, author)
      invariant decided.Keys == n.resolutions.Keys - todo
      invariant forall key :: key in decided ==> decided[key] == n.resolutions[key]
      decreases todo
    {
      var key :| key in todo;
      todo := todo - {key};
      if key !in unresolved {
        return None;
      }
      match n.resolutions[key] {
        case Reject =>
        case Accept(o) =>
          var held := AcceptHolds(t, key, o, unresolved[key].comparable, facts, loops, author);
          if !held {
            return None;
          }
      }
      decided := decided[key := n.resolutions[key]];
    }
    assert decided == n.resolutions;
    return Some(decided);
  }

  /** Every unresolved terminal on one rejected chain; overlapping an explicit resolution is refused. */
  method RejectChain(n: Normalized, unresolved: TerminalMap, chain: set<StateId>, outcome: map<TerminalKey, Decision>)
    returns (r: Option<map<TerminalKey, Decision>>)
    ensures r.Some? <==> forall key :: key in unresolved && key.state in chain ==> key !in n.resolutions
    ensures r.Some? ==> r.value.Keys == outcome.Keys + set key | key in unresolved && key.state in chain
    ensures r.Some? ==> forall key :: key in r.value ==> r.value[key] == if key in outcome then outcome[key] else Reject
  {
    var decided := outcome;
    var todo := unresolved.Keys;
    while todo != {}
      invariant todo <= unresolved.Keys
      invariant forall key :: key in unresolved.Keys - todo && key.state in chain ==> key !in n.resolutions
      invariant decided.Keys == outcome.Keys + set key | key in unresolved.Keys - todo && key.state in chain
      invariant forall key :: key in decided ==> decided[key] == if key in outcome then outcome[key] else Reject
      decreases todo
    {
      var key :| key in todo;
      todo := todo - {key};
      if key.state !in chain {
        continue;
      }
      if key in n.resolutions {
        return None;
      }
      if key in decided {
        continue;
      }
      decided := decided[key := Reject];
    }
    return Some(decided);
  }

  ghost predicate OnSome(chains: map<StateId, set<StateId>>, heads: set<StateId>, key: TerminalKey) {
    exists h :: h in heads && h in chains && key.state in chains[h]
  }

  method RejectLineages(n: Normalized, unresolved: TerminalMap, chains: map<StateId, set<StateId>>,
                        explicit: map<TerminalKey, Decision>)
    returns (r: Option<map<TerminalKey, Decision>>)
    requires n.rejectLineages <= chains.Keys && explicit == n.resolutions
    ensures r.Some? <==>
      forall key :: key in unresolved && OnSome(chains, n.rejectLineages, key) ==> key !in n.resolutions
    ensures r.Some? ==>
      r.value.Keys == explicit.Keys + set key | key in unresolved && OnSome(chains, n.rejectLineages, key)
    ensures r.Some? ==>
      forall key :: key in r.value ==> r.value[key] == if key in explicit then explicit[key] else Reject
  {
    var outcome := explicit;
    var todo := n.rejectLineages;
    while todo != {}
      invariant todo <= n.rejectLineages
      invariant forall key ::
        key in unresolved && OnSome(chains, n.rejectLineages - todo, key) ==> key !in n.resolutions
      invariant outcome.Keys ==
        explicit.Keys + set key | key in unresolved && OnSome(chains, n.rejectLineages - todo, key)
      invariant forall key :: key in outcome ==> outcome[key] == if key in explicit then explicit[key] else Reject
      decreases todo
    {
      var h :| h in todo;
      ghost var done := n.rejectLineages - todo;
      todo := todo - {h};
      assert n.rejectLineages - todo == done + {h};
      forall key ensures OnSome(chains, done + {h}, key) <==> OnSome(chains, done, key) || key.state in chains[h] {
      }
      var chain := if h in chains then chains[h] else {};
      var step := RejectChain(n, unresolved, chain, outcome);
      if step.None? {
        var key :| key in unresolved && key.state in chain && key in n.resolutions;
        assert OnSome(chains, n.rejectLineages, key);
        return None;
      }
      outcome := step.value;
    }
    assert n.rejectLineages - todo == n.rejectLineages;
    return Some(outcome);
  }

  /** What remains: an opaque terminal, or under strict any terminal, refuses the call; the rest is counted. */
  method CountRemaining(unresolved: TerminalMap, outcome: map<TerminalKey, Decision>, strict: bool)
    returns (refused: bool, counts: Counts)
    ensures refused <==> exists key ::
      key in unresolved.Keys - outcome.Keys && (unresolved[key].comparable.None? || strict)
    ensures var left := unresolved.Keys - outcome.Keys;
      !refused ==> counts == Counts(|OfKind(left, Fact)|, |OfKind(left, Loop)|)
  {
    refused, counts := false, Counts(0, 0);
    var todo := unresolved.Keys;
    ghost var left := unresolved.Keys - outcome.Keys;
    while todo != {}
      invariant todo <= unresolved.Keys
      invariant refused <==> exists key :: key in left - todo && (unresolved[key].comparable.None? || strict)
      invariant !refused ==> counts == Counts(|OfKind(left - todo, Fact)|, |OfKind(left - todo, Loop)|)
      decreases todo
    {
      var key :| key in todo;
      ghost var done := left - todo;
      todo := todo - {key};
      if key in outcome {
        assert left - todo == done;
        continue;
      }
      assert left - todo == done + {key};
      OneMoreOfKind(done, key);
      if unresolved[key].comparable.None? || strict {
        refused := true;
        continue;
      }
      counts := if key.kind == Fact then counts.(facts := counts.facts + 1) else counts.(loops := counts.loops + 1);
    }
    assert left - todo == left;
  }

  lemma OneMoreOfKind(keys: set<TerminalKey>, key: TerminalKey)
    requires key !in keys
    ensures forall k :: |OfKind(keys + {key}, k)| == |OfKind(keys, k)| + if key.kind == k then 1 else 0
  {
    forall k ensures |OfKind(keys + {key}, k)| == |OfKind(keys, k)| + if key.kind == k then 1 else 0 {
      if key.kind == k {
        assert OfKind(keys + {key}, k) == OfKind(keys, k) + {key};
      } else {
        assert OfKind(keys + {key}, k) == OfKind(keys, k);
      }
    }
  }

  ghost predicate Decidable(t: Tables, n: Normalized, facts: seq<FactChange>, loops: seq<LoopChange>,
                            author: Principal) {
    var open := Unresolved(t, n.survivor);
    && (forall key :: key in n.resolutions ==> key in open && !OnRejected(t, n, key))
    && AcceptsAdmitted(t, n, n.resolutions.Keys, facts, loops, author)
    && (forall key :: key in LeftOpen(t, n) ==> !Opaque(t, key) && !n.strict)
  }

  /** Match the explicit resolutions, expand the rejected lineages, and count what remains. */
  method DecideTerminals(t: Tables, n: Normalized, unresolved: TerminalMap, chains: map<StateId, set<StateId>>,
                         facts: seq<FactChange>, loops: seq<LoopChange>, author: Principal)
    returns (r: Option<(map<TerminalKey, Decision>, Counts)>)
    requires unresolved.Keys == Unresolved(t, n.survivor) && AllDescribed(t, unresolved)
    requires n.rejectLineages <= chains.Keys
    requires forall h :: h in chains ==> chains[h] == ChainSet(t.snaps, h, Ancestry(t.snaps, n.survivor))
    ensures r.Some? <==> Decidable(t, n, facts, loops, author)
    ensures r.Some? ==>
      r.value == (Outcomes(t, n), Counts(|OfKind(LeftOpen(t, n), Fact)|, |OfKind(LeftOpen(t, n), Loop)|))
  {
    hide Unresolved, ChainSet, Ancestry, AcceptsAdmitted, ComparableNewest, NewestOf, OfKind;
    var explicit := ExplicitResolutions(t, n, unresolved, facts, loops, author);
    if explicit.None? {
      return None;
    }
    var outcome := RejectLineages(n, unresolved, chains, explicit.value);
    forall key ensures OnSome(chains, n.rejectLineages, key) <==> OnRejected(t, n, key) {
    }
    hide OnSome, OnRejected;
    if outcome.None? {
      return None;
    }
    assert outcome.value == Outcomes(t, n);
    var refused, counts := CountRemaining(unresolved, outcome.value, n.strict);
    assert forall key :: key in unresolved ==> (unresolved[key].comparable.None? <==> Opaque(t, key));
    if refused {
      return None;
    }
    return Some((outcome.value, counts));
  }

  lemma StoredKeysInScope(t: Tables, head: StateId)
    requires RowsOk(t) && RetirementsOk(t)
    ensures LedgerKeyed(t) && DivergentHeads(t, head) <= t.snaps.Keys
  {
    hide CoverageOk, VersionsOk, RowsExist, LedgerVerifies;
  }

  lemma DecidableOrNot(t: Tables, n: Normalized, facts: seq<FactChange>, loops: seq<LoopChange>, author: Principal)
    ensures Admits(t, n, facts, loops, author) <==>
      && (AdoptedBy(t, n.survivor) != {} ==> n.acknowledgeRetired)
      && n.rejectLineages <= DivergentHeads(t, n.survivor)
      && Decidable(t, n, facts, loops, author)
  {
    hide AdoptedBy, DivergentHeads, LeftOpen, Opaque, AcceptAdmitted, OnRejected, Unresolved;
  }

  datatype Evaluated =
    | Alarmed
    | Refused
    | Decided(resolutions: map<TerminalKey, Decision>, unresolvedDivergent: Counts, retired: set<StateId>,
              adoptedRetired: set<StateId>)

  /** Nothing is trusted until the stored evidence checks out. */
  method VerifyEvidence(t: Tables, survivor: StateId) returns (ok: bool)
    requires TreeOk(t.snaps) && LedgerKeyed(t)
    ensures ok <==> EvidenceVerifies(t, survivor)
  {
    hide VersionParity, RetirementAttribution, RowsScopeWide, ResolutionRowsOnLineage, LedgerKeyed, TreeOk;
    ok := VerifyVersionParity(t);
    if !ok {
      return;
    }
    ok := VerifyRetirementAttribution(t);
    if !ok {
      return;
    }
    ok := VerifyReconcileRowsScopeWide(t);
    if !ok {
      return;
    }
    ok := VerifyResolutionRowsOnLineage(t, survivor);
  }

  /** The terminals off the survivor's lineage that no reconcile on it has resolved, and the divergent chains. */
  method UnresolvedTerminals(t: Tables, acceptedRows: seq<StateId>, survivor: StateId, divergentHeads: set<StateId>)
    returns (unresolved: TerminalMap, chains: map<StateId, set<StateId>>)
    requires TreeOk(t.snaps) && RowsOk(t) && survivor in t.snaps && acceptedRows == Lineage(t.snaps, survivor)
    requires divergentHeads == DivergentHeads(t, survivor) && divergentHeads <= t.snaps.Keys
    ensures unresolved.Keys == Unresolved(t, survivor) && AllDescribed(t, unresolved)
    ensures chains.Keys == divergentHeads
    ensures forall h :: h in chains ==> chains[h] == ChainSet(t.snaps, h, Ancestry(t.snaps, survivor))
  {
    hide RowsOk, TreeOk, Describes, Terminals, Resolved, DivergentHeads;
    var accepted := set a | a in acceptedRows;
    assert accepted == Ancestry(t.snaps, survivor) == Members(acceptedRows);
    hide Ancestry, ChainSet, Lineage;
    var resolvedKeys := VerifiedResolutionKeys(t.snaps, acceptedRows);
    var terminals;
    terminals, chains := TerminalsFor(t, divergentHeads, accepted);
    unresolved := map key | key in terminals && key !in resolvedKeys :: terminals[key];
  }

  /** Which terminals the request resolves, or why it is refused; writes nothing. */
  method EvaluateDivergence(t: Tables, n: Normalized, facts: seq<FactChange>, loops: seq<LoopChange>, author: Principal)
    returns (r: Evaluated)
    requires TreeOk(t.snaps) && RowsOk(t) && RetirementsOk(t)
    requires n.expectedHeads == Live(t.snaps, t.retirements.Keys) && n.survivor in n.expectedHeads
    ensures r.Alarmed? <==> !EvidenceVerifies(t, n.survivor)
    ensures r.Decided? <==> EvidenceVerifies(t, n.survivor) && Admits(t, n, facts, loops, author)
    ensures r.Decided? ==> var record := RecordOf(t, n);
      r == Decided(record.resolutions, record.unresolvedDivergent, record.retired, record.adoptedRetired)
  {
    hide EvidenceVerifies, TreeOk, RowsOk, RetirementsOk, VersionParity, Unresolved, OfKind, Outcomes, AllDescribed,
         LedgerKeyed, Admits, Decidable;
    StoredKeysInScope(t, n.survivor);
    DecidableOrNot(t, n, facts, loops, author);
    var verified := VerifyEvidence(t, n.survivor);
    if !verified {
      return Alarmed;
    }
    var acceptedRows := LineageOf(t.snaps, n.survivor);
    var accepted := set a | a in acceptedRows;
    assert accepted == Ancestry(t.snaps, n.survivor);
    var retired := n.expectedHeads - {n.survivor};
    var divergentHeads := retired + (t.retirements.Keys - accepted);
    var adopted := RetiredAmong(t, acceptedRows);
    assert adopted == AdoptedBy(t, n.survivor);
    assert divergentHeads == DivergentHeads(t, n.survivor);
    if adopted != {} && !n.acknowledgeRetired {
      return Refused;
    }
    if !(n.rejectLineages <= divergentHeads) {
      return Refused;
    }
    var unresolved, chains := UnresolvedTerminals(t, acceptedRows, n.survivor, divergentHeads);
    var decided := DecideTerminals(t, n, unresolved, chains, facts, loops, author);
    if decided.None? {
      return Refused;
    }
    return Decided(decided.value.0, decided.value.1, retired, adopted);
  }
}
