/**
 The version-3 read model as a reader sees it: what is listed, field by field from the stored versions,
 and in which order.
 */
module Listing {
  import opened Options
  import opened Types
  import opened Tree
  import opened Newest
  import opened Divergence
  import opened Verifiers
  import opened Invariants
  import opened Ordering
  import opened Canonical
  import opened TextForm
  import opened Selection
  import opened ReadModel
  import opened Answers
  import opened ReconcileAnswers
  import opened InPlaceFlag

  // ----- The order

  /** a is listed before b: by the code units of the texts. */
  ghost predicate NameFirst(a: string, b: string) {
    Precedes(Utf16(a), Utf16(b))
  }

  /** Newest first, and by id among equals. */
  ghost predicate NewestFirst(ids: seq<RowId>, times: map<RowId, Time>) {
    && (forall i :: 0 <= i < |ids| ==> ids[i] in times)
    && (forall i, j :: 0 <= i < j < |ids| ==>
          NameFirst(times[ids[j]], times[ids[i]]) || (times[ids[i]] == times[ids[j]] && NameFirst(ids[i], ids[j])))
  }

  /** Every one of xs is listed, and nothing else, and nothing twice. */
  ghost predicate ListsOnce<T(!new)>(out: seq<T>, xs: set<T>) {
    && (forall x :: x in out <==> x in xs)
    && (forall i, j :: 0 <= i < j < |out| ==> out[i] != out[j])
  }

  lemma RecentIs(times: map<RowId, Time>)
    ensures NewestFirst(SortRecent(times), times) && ListsOnce(SortRecent(times), times.Keys)
  {
    hide NameFirst, RecentBefore, SortRecent, Recent, Ascending;
    var out := SortRecent(times);
    SortedRecent(times);
    forall i, j | 0 <= i < j < |out|
      ensures NameFirst(times[out[j]], times[out[i]]) || (times[out[i]] == times[out[j]] && NameFirst(out[i], out[j]))
      ensures out[i] != out[j]
    {
      AscendsAt(out, Recent(times), i, j);
      RecentApplied(times, out[i], out[j]);
      RecentBeforeIs(times, out[i], out[j]);
    }
  }

  lemma SortedRecent(times: map<RowId, Time>)
    ensures var out := SortRecent(times);
      Ascending(out, Recent(times)) && (forall a :: a in out <==> a in times)
      && forall i :: 0 <= i < |out| ==> out[i] in times
  {
    hide Recent, Ascending;
    var out := SortRecent(times);
    forall i | 0 <= i < |out| ensures out[i] in times {
      assert out[i] in out;
    }
  }

  lemma AscendsAt<T(!new)>(xs: seq<T>, before: (T, T) -> bool, i: nat, j: nat)
    requires Ascending(xs, before) && i < j < |xs|
    ensures before(xs[i], xs[j])
  {
  }

  lemma RecentApplied(times: map<RowId, Time>, a: RowId, b: RowId)
    ensures Recent(times)(a, b) == RecentBefore(times, a, b)
  {
    hide RecentBefore;
  }

  lemma RecentBeforeIs(times: map<RowId, Time>, a: RowId, b: RowId)
    requires a in times && b in times && RecentBefore(times, a, b)
    ensures NameFirst(times[b], times[a]) || (times[a] == times[b] && NameFirst(a, b))
    ensures a != b
  {
    BelowIff(Utf16(times[b]), Utf16(times[a]));
    BelowIff(Utf16(a), Utf16(b));
    BelowIrreflexive(Utf16(times[a]));
    BelowIrreflexive(Utf16(a));
    if Utf16(times[a]) == Utf16(times[b]) {
      Utf16Injective(times[a], times[b]);
    }
    hide Below, Precedes, Utf16;
  }

  /** Facts before loops, then by id, then by snapshot. */
  ghost predicate KeyFirst(a: TerminalKey, b: TerminalKey) {
    || (a.kind == Fact && b.kind == Loop)
    || (a.kind == b.kind && (NameFirst(a.id, b.id) || (a.id == b.id && NameFirst(a.state, b.state))))
  }

  lemma KeysAre(xs: set<TerminalKey>)
    ensures ListsOnce(SortKeys(xs), xs)
    ensures forall i, j :: 0 <= i < j < |SortKeys(xs)| ==> KeyFirst(SortKeys(xs)[i], SortKeys(xs)[j])
  {
    var out := SortKeys(xs);
    KeysOrdered(xs);
    forall i, j | 0 <= i < j < |out| ensures KeyFirst(out[i], out[j]) && out[i] != out[j] {
      assert out[i] in out && out[j] in out;
      assert KeyBefore(out[i], out[j]);
      KeyBeforeIs(out[i], out[j]);
      hide KeyBefore, KeyFirst, SortKeys;
    }
  }

  lemma KeyBeforeIs(a: TerminalKey, b: TerminalKey)
    ensures KeyBefore(a, b) ==> KeyFirst(a, b)
  {
    BelowIff(Utf16(a.id), Utf16(b.id));
    BelowIff(Utf16(a.state), Utf16(b.state));
    if Utf16(a.id) == Utf16(b.id) {
      Utf16Injective(a.id, b.id);
    }
    hide Below, Precedes, Utf16;
  }

  /** Accepted facts and loops are listed newest first, divergent values facts first, by id and snapshot. */
  lemma ListedInOrder(t: Tables, h: StateId)
    ensures var r := SelectV3(t, Some(h));
      && ListsOnce(r.factOrder, r.currentFacts.Keys) && ListsOnce(r.loopOrder, r.openLoops.Keys)
      && ListsOnce(r.divergentOrder, r.divergentValues.Keys)
      && NewestFirst(r.factOrder, map id | id in r.currentFacts :: r.currentFacts[id].recordedAt)
      && NewestFirst(r.loopOrder, map id | id in r.openLoops :: r.openLoops[id].updatedAt)
      && forall i, j :: 0 <= i < j < |r.divergentOrder| ==> KeyFirst(r.divergentOrder[i], r.divergentOrder[j])
  {
    hide CurrentFacts, OpenLoops, SuppressedFacts, SuppressedLoops, DivergentValues, UnresolvedOpaque, NewestFirst,
         KeyFirst, ListsOnce, SortRecent, SortKeys;
    var r := SelectV3(t, Some(h));
    RecentIs(FactTimes(r.currentFacts));
    RecentIs(LoopTimes(r.openLoops));
    KeysAre(r.divergentValues.Keys);
    assert FactTimes(r.currentFacts).Keys == r.currentFacts.Keys;
    assert LoopTimes(r.openLoops).Keys == r.openLoops.Keys;
  }

  // ----- What is listed

  /** The version the replay of the lineage ends with, when the last change of the id has one. */
  ghost predicate EndsWith(t: Tables, h: StateId, k: Kind, id: RowId, x: Tuple, v: Version)
    requires TreeOk(t.snaps) && h in t.snaps
  {
    && (k, id) in Replay(t.snaps, h) && x == Replay(t.snaps, h)[(k, id)] && x.state in t.snaps
    && VersionKey(id, x) in t.versions && v == t.versions[VersionKey(id, x)]
  }

  ghost predicate ShownText(shown: Option<string>, stored: Option<string>) {
    shown == if stored.Some? && stored.value != "" then stored else None
  }

  ghost predicate FactListed(t: Tables, item: AcceptedFact, x: Tuple, v: Version)
    requires x.state in t.snaps
  {
    && v.value.FactValue? && v.value.factStatus != Superseded
    && item.subject == v.value.subject && item.predicate_ == v.value.predicate_ && item.object_ == v.value.object_
    && item.status == v.value.factStatus && ShownText(item.effectiveAt, v.value.effectiveAt)
    && item.refs == v.value.refs && item.author == v.author && item.recordedAt == v.recordedAt
    && item.provenance.state == x.state && item.provenance.revision == t.snaps[x.state].revision
    && item.provenance.ordinal == x.ordinal
  }

  ghost predicate LoopListed(t: Tables, item: AcceptedLoop, id: RowId, x: Tuple, v: Version)
    requires x.state in t.snaps && id in t.loops
  {
    && v.value.LoopValue?
    && item.owner == v.value.owner && item.status == v.value.loopStatus && item.nextAction == v.value.nextAction
    && ShownText(item.dueAt, v.value.dueAt) && ShownText(item.blockedOn, v.value.blockedOn)
    && item.close == v.value.close && item.updatedAt == v.recordedAt
    && item.openedAt == t.loops[id].openedAt && item.revision == t.loops[id].revision
    && item.provenance.state == x.state && item.provenance.revision == t.snaps[x.state].revision
    && item.provenance.ordinal == x.ordinal
  }

  lemma AcceptedIs(t: Tables, h: StateId, k: Kind, id: RowId)
    requires TreeOk(t.snaps) && RowsOk(t) && h in t.snaps
    ensures Selected(t, h, k, id) <==> exists x, v :: EndsWith(t, h, k, id, x, v)
    ensures Selected(t, h, k, id) ==>
      var x := AcceptedTuple(t, h, k, id).value; EndsWith(t, h, k, id, x, SelectedVersion(t, h, k, id))
    ensures forall x, v :: EndsWith(t, h, k, id, x, v) ==>
      && Selected(t, h, k, id) && AcceptedTuple(t, h, k, id) == Some(x) && SelectedVersion(t, h, k, id) == v
      && (v.value.FactValue? <==> k == Fact) && if k == Fact then id in t.facts else id in t.loops
  {
    hide LedgerOk, CoverageOk, RowsExist, Replay, TreeOk, NewestOf, Ancestry;
    assert LedgerOk(t.snaps, t.ledger);
    ReplayIsNewest(t.snaps, t.ledger, h, k, id);
    NewestIs(t.snaps, t.ledger, h, k, id);
    if Selected(t, h, k, id) {
      SelectedHasRow(t, h, k, id);
      assert EndsWith(t, h, k, id, AcceptedTuple(t, h, k, id).value, SelectedVersion(t, h, k, id));
    }
  }

  /** A current fact is the version its lineage ends with, unless that is superseded; nothing else is listed. */
  lemma FactsListed(t: Tables, h: StateId, id: RowId)
    requires TreeOk(t.snaps) && RowsOk(t) && h in t.snaps
    ensures id in SelectV3(t, Some(h)).currentFacts <==>
      exists x, v :: EndsWith(t, h, Fact, id, x, v) && v.value.FactValue? && v.value.factStatus != Superseded
    ensures forall x, v ::
      EndsWith(t, h, Fact, id, x, v) && id in SelectV3(t, Some(h)).currentFacts ==>
        FactListed(t, SelectV3(t, Some(h)).currentFacts[id], x, v)
  {
    hide TreeOk, RowsOk, OpenLoops, SuppressedFacts, SuppressedLoops, DivergentValues, UnresolvedOpaque, EndsWith,
         Selected, SelectedVersion, AcceptedTuple, SortRecent, SortKeys;
    AcceptedIs(t, h, Fact, id);
    CurrentFactIs(t, h, id);
  }

  lemma CurrentFactIs(t: Tables, h: StateId, id: RowId)
    ensures id in CurrentFacts(t, h) <==>
      id in t.facts && Selected(t, h, Fact, id) && SelectedVersion(t, h, Fact, id).value.factStatus != Superseded
    ensures id in CurrentFacts(t, h) ==>
      var x := AcceptedTuple(t, h, Fact, id).value;
      x.state in t.snaps && FactListed(t, CurrentFacts(t, h)[id], x, SelectedVersion(t, h, Fact, id))
  {
    hide AcceptedTuple;
  }

  /** An accepted loop, open or closed, is the version its lineage ends with, opened when its row says. */
  lemma LoopsListed(t: Tables, h: StateId, id: RowId)
    requires TreeOk(t.snaps) && RowsOk(t) && h in t.snaps
    ensures id in SelectV3(t, Some(h)).openLoops <==> exists x, v :: EndsWith(t, h, Loop, id, x, v)
    ensures forall x, v :: EndsWith(t, h, Loop, id, x, v) ==>
      && id in SelectV3(t, Some(h)).openLoops && id in t.loops && x.state in t.snaps
      && LoopListed(t, SelectV3(t, Some(h)).openLoops[id], id, x, v)
  {
    hide TreeOk, RowsOk, CurrentFacts, SuppressedFacts, SuppressedLoops, DivergentValues, UnresolvedOpaque, EndsWith,
         Selected, SelectedVersion, AcceptedTuple, SortRecent, SortKeys;
    AcceptedIs(t, h, Loop, id);
    OpenLoopIs(t, h, id);
    forall x, v ensures EndsWith(t, h, Loop, id, x, v) ==> x.state in t.snaps {
      assert EndsWith(t, h, Loop, id, x, v) ==> x.state in t.snaps by { EndsInScope(t, h, Loop, id, x, v); }
    }
  }

  lemma EndsInScope(t: Tables, h: StateId, k: Kind, id: RowId, x: Tuple, v: Version)
    requires TreeOk(t.snaps) && h in t.snaps
    ensures EndsWith(t, h, k, id, x, v) ==> x.state in t.snaps
  {
  }

  lemma OpenLoopIs(t: Tables, h: StateId, id: RowId)
    ensures id in OpenLoops(t, h) <==> id in t.loops && Selected(t, h, Loop, id)
    ensures id in OpenLoops(t, h) ==>
      var x := AcceptedTuple(t, h, Loop, id).value;
      x.state in t.snaps && LoopListed(t, OpenLoops(t, h)[id], id, x, SelectedVersion(t, h, Loop, id))
  {
    hide AcceptedTuple;
  }

  /** Suppressed are the in-place rows no version ends the lineage for. */
  lemma SuppressedListed(t: Tables, h: StateId, id: RowId)
    requires TreeOk(t.snaps) && RowsOk(t) && h in t.snaps
    ensures id in SelectV3(t, Some(h)).suppressedFacts <==>
      id in t.facts && !exists x, v :: EndsWith(t, h, Fact, id, x, v)
    ensures id in SelectV3(t, Some(h)).suppressedLoops <==>
      id in t.loops && !exists x, v :: EndsWith(t, h, Loop, id, x, v)
  {
    hide TreeOk, RowsOk, CurrentFacts, OpenLoops, DivergentValues, UnresolvedOpaque, EndsWith, Selected,
         SelectedVersion, AcceptedTuple, SortRecent, SortKeys;
    AcceptedIs(t, h, Fact, id);
    AcceptedIs(t, h, Loop, id);
  }

  /** Without an accepted head every row is suppressed and nothing is listed as accepted or divergent. */
  lemma UndesignatedListed(t: Tables)
    ensures var r := SelectV3(t, None);
      && r.currentFacts == map[] && r.openLoops == map[] && r.divergentValues == map[] && r.unresolvedOpaque == {}
      && r.suppressedFacts == t.facts.Keys && r.suppressedLoops == t.loops.Keys
      && r.factOrder == [] && r.loopOrder == [] && r.divergentOrder == []
  {
    var r := SelectV3(t, None);
    assert FactTimes(map[]).Keys == {} && LoopTimes(map[]).Keys == {};
  }

  /** Accepted is the pointed snapshot, as long as it is live. */
  lemma AcceptedHeadIs(t: Tables, h: StateId)
    ensures AcceptedHead(t) == Some(h) <==> t.pointer.Some? && t.pointer.value.state == h && IsLive(t, h)
  {
    LiveIff(t, h);
  }

  // ----- Divergent values

  ghost predicate VersionShown(shown: Version, stored: Version) {
    && shown.author == stored.author && shown.recordedAt == stored.recordedAt
    && match stored.value
       case FactValue(subject, predicate_, object_, status, effectiveAt, refs) =>
         && shown.value.FactValue? && shown.value.subject == subject && shown.value.predicate_ == predicate_
         && shown.value.object_ == object_ && shown.value.factStatus == status
         && ShownText(shown.value.effectiveAt, effectiveAt) && shown.value.refs == refs
       case LoopValue(owner, status, nextAction, dueAt, blockedOn, close) =>
         && shown.value.LoopValue? && shown.value.owner == owner && shown.value.loopStatus == status
         && shown.value.nextAction == nextAction && ShownText(shown.value.dueAt, dueAt)
         && ShownText(shown.value.blockedOn, blockedOn) && shown.value.close == close
  }

  /** What is listed of a divergent terminal: where it is, its stored version if any, and whether it is decided. */
  ghost predicate DivergentListed(t: Tables, h: StateId, key: TerminalKey, d: DivergentValue, x: Tuple) {
    && x.state == key.state && x.state in t.snaps
    && d.provenance.state == key.state && d.provenance.revision == t.snaps[key.state].revision
    && d.provenance.ordinal == x.ordinal
    && (d.value.Some? <==> VersionKey(key.id, x) in t.versions)
    && (d.value.Some? ==> VersionShown(d.value.value, t.versions[VersionKey(key.id, x)]))
    && (d.resolved <==> DecidedBefore(t, h, key))
  }

  /**
   Listed are exactly the ends of divergent chains, each with the last change its snapshot made of the
   id; opaque and still to be rejected are those without a version that no reconcile has decided.
   */
  lemma DivergentIs(t: Tables, h: StateId, key: TerminalKey)
    requires TreeOk(t.snaps) && RowsOk(t)
    ensures var r := SelectV3(t, Some(h));
      && (key in r.divergentValues <==> EndsChain(t, h, key))
      && (key in r.divergentValues ==> exists x ::
            LastOnChain(t, [key.state], key.kind, key.id, x) && DivergentListed(t, h, key, r.divergentValues[key], x))
      && (key in r.unresolvedOpaque <==>
            key in r.divergentValues && r.divergentValues[key].value.None? && !r.divergentValues[key].resolved)
  {
    hide TreeOk, RowsOk, CurrentFacts, OpenLoops, SuppressedFacts, SuppressedLoops, EndsChain, DecidedBefore,
         Terminals, Resolved, DivergentHeads, Ancestry, SortRecent, SortKeys, LastOnChain, NewestOf, DivergentValueOf,
         DivergentListed, UnresolvedOpaque;
    TerminalIff(t, h, key);
    OpaqueListed(t, h, key);
    if key in DivergentTerminals(t, h) {
      TerminalChange(t, h, key);
      var x := NewestOf(t.snaps, t.ledger, {key.state}, key.kind, key.id).value;
      OnItsSnapshot(t, key, x);
      ValueListed(t, h, key, x);
    }
  }

  lemma ValueListed(t: Tables, h: StateId, key: TerminalKey, x: Tuple)
    requires NewestOf(t.snaps, t.ledger, {key.state}, key.kind, key.id) == Some(x)
    requires x.state == key.state && x.state in t.snaps
    ensures DivergentListed(t, h, key, DivergentValueOf(t, h, key), x)
  {
    hide NewestOf, LineagesOf, IsV1Current, DivergentHeads, Terminals, FirstName, DecidedBefore, Resolved;
    TerminalIff(t, h, key);
    hide Ancestry;
  }

  lemma OpaqueListed(t: Tables, h: StateId, key: TerminalKey)
    ensures key in UnresolvedOpaque(t, h) <==>
      key in DivergentValues(t, h) && DivergentValues(t, h)[key].value.None? && !DivergentValues(t, h)[key].resolved
  {
    hide NewestOf, LineagesOf, IsV1Current, DivergentHeads, Terminals, Ancestry, FirstName, Resolved,
         TerminalProvenance;
  }

  lemma OnItsSnapshot(t: Tables, key: TerminalKey, x: Tuple)
    requires RowsOk(t) && TreeOk(t.snaps) && NewestOf(t.snaps, t.ledger, {key.state}, key.kind, key.id) == Some(x)
    ensures x.state == key.state && x.state in t.snaps && LastOnChain(t, [key.state], key.kind, key.id, x)
  {
    hide CoverageOk, VersionsOk, RowsExist, LedgerVerifies;
    assert IsNewest(t.snaps, t.ledger, {key.state}, key.kind, key.id, x);
    LastIsNewestOn(t, {key.state}, [key.state], key.kind, key.id, x);
  }

  /** It is listed under the first, by code units, of the divergent lineages that end in it. */
  lemma LineageHeadIs(t: Tables, h: StateId, key: TerminalKey)
    requires key in DivergentTerminals(t, h)
    ensures key in SelectV3(t, Some(h)).divergentValues
    ensures var first := SelectV3(t, Some(h)).divergentValues[key].lineageHead;
      && EndsIn(t, h, first, key)
      && forall g :: EndsIn(t, h, g, key) ==> g == first || NameFirst(first, g)
  {
    hide CurrentFacts, OpenLoops, SuppressedFacts, SuppressedLoops, DivergentTerminals, SortRecent, SortKeys,
         NameBefore, NameFirst, TerminalOf, DivergentHeads, Diverges, Ancestry, ChainSet, DivergentValueOf;
    ListedUnderFirstLineage(t, h, key);
    var first := DivergentValues(t, h)[key].lineageHead;
    forall g
      ensures g in DivergentHeads(t, h) <==> Diverges(t, h, g)
      ensures NameBefore(first, g) ==> NameFirst(first, g)
    {
      DivergesIff(t, h, g);
      BelowIff(Utf16(first), Utf16(g));
      NameBeforeIs(first, g);
    }
  }

  lemma NameBeforeIs(a: string, b: string)
    ensures NameBefore(a, b) <==> NameFirst(a, b)
  {
    BelowIff(Utf16(a), Utf16(b));
    hide Below, Precedes;
  }

  ghost predicate EndsIn(t: Tables, h: StateId, g: StateId, key: TerminalKey) {
    Diverges(t, h, g) && TerminalOf(t.snaps, t.ledger, ChainSet(t.snaps, g, Ancestry(t.snaps, h)), key)
  }
}
