/**
 The version-3 read model: an accepted value comes only from the pointed head's parent chain.
 The in-place tables are a separate, last-writer-wins view.
 */
module Selection {
  import opened Options
  import opened Types
  import opened Tree
  import opened Heads
  import opened Newest
  import opened ChangeLog
  import opened Divergence
  import opened Verifiers
  import opened Invariants
  import opened Reconciling
  import opened Ordering

  datatype Provenance = Provenance(state: StateId, revision: nat, ordinal: nat)

  datatype AcceptedFact = AcceptedFact(
    subject: string, predicate_: string, object_: string, status: FactStatus, effectiveAt: Option<string>,
    refs: Refs, author: Principal, recordedAt: Time, provenance: Provenance)

  datatype AcceptedLoop = AcceptedLoop(
    owner: string, status: LoopStatus, nextAction: string, dueAt: Option<string>, blockedOn: Option<string>,
    close: Option<CloseEvent>, openedAt: Time, updatedAt: Time, revision: nat, provenance: Provenance)

  /** A divergent terminal as it is listed, under the first lineage that ends in it; an opaque one has no value. */
  datatype DivergentValue = DivergentValue(
    provenance: Provenance, lineageHead: StateId, value: Option<Version>, isV1CurrentValue: bool, resolved: bool)

  /** The accepted and the divergent values, and the order in which they are listed. */
  datatype V3Selection = V3Selection(
    currentFacts: map<RowId, AcceptedFact>, openLoops: map<RowId, AcceptedLoop>,
    suppressedFacts: set<RowId>, suppressedLoops: set<RowId>,
    divergentValues: map<TerminalKey, DivergentValue>, unresolvedOpaque: set<TerminalKey>,
    factOrder: seq<RowId>, loopOrder: seq<RowId>, divergentOrder: seq<TerminalKey>)

  function FactTimes(facts: map<RowId, AcceptedFact>): map<RowId, Time> {
    map id | id in facts :: facts[id].recordedAt
  }

  function LoopTimes(loops: map<RowId, AcceptedLoop>): map<RowId, Time> {
    map id | id in loops :: loops[id].updatedAt
  }

  /** The first name in ascending order. */
  function FirstName(names: set<StateId>): StateId {
    if names == {} then "" else SortNames(names)[0]
  }

  /** Accepted facts and loops are listed newest first, divergent values by kind, id and snapshot. */
  function Listed(facts: map<RowId, AcceptedFact>, loops: map<RowId, AcceptedLoop>, suppressedFacts: set<RowId>,
                  suppressedLoops: set<RowId>, values: map<TerminalKey, DivergentValue>,
                  opaque_: set<TerminalKey>): V3Selection {
    V3Selection(facts, loops, suppressedFacts, suppressedLoops, values, opaque_, SortRecent(FactTimes(facts)),
                SortRecent(LoopTimes(loops)), SortKeys(values.Keys))
  }

  /** A view shows an optional text only when it is not empty. */
  function Shown(a: Option<string>): Option<string> {
    if Truthy(a) then a else None
  }

  function FactView(v: Version, provenance: Provenance): AcceptedFact
    requires v.value.FactValue?
  {
    AcceptedFact(v.value.subject, v.value.predicate_, v.value.object_, v.value.factStatus, Shown(v.value.effectiveAt),
                 v.value.refs, v.author, v.recordedAt, provenance)
  }

  function LoopView(v: Version, row: LoopRow, provenance: Provenance): AcceptedLoop
    requires v.value.LoopValue?
  {
    AcceptedLoop(v.value.owner, v.value.loopStatus, v.value.nextAction, Shown(v.value.dueAt), Shown(v.value.blockedOn),
                 v.value.close, row.openedAt, v.recordedAt, row.revision, provenance)
  }

  /** The newest change of (kind, id) on the accepted lineage of `head`. */
  ghost function AcceptedTuple(t: Tables, head: StateId, k: Kind, id: RowId): Option<Tuple> {
    NewestOf(t.snaps, t.ledger, Ancestry(t.snaps, head), k, id)
  }

  /** That change has a version: an unversioned newest change is suppressed, never replaced by an older one. */
  ghost predicate Selected(t: Tables, head: StateId, k: Kind, id: RowId) {
    var x := AcceptedTuple(t, head, k, id);
    x.Some? && x.value.state in t.snaps && VersionKey(id, x.value) in t.versions
    && (t.versions[VersionKey(id, x.value)].value.FactValue? <==> k == Fact)
  }

  ghost function SelectedVersion(t: Tables, head: StateId, k: Kind, id: RowId): Version
    requires Selected(t, head, k, id)
  {
    t.versions[VersionKey(id, AcceptedTuple(t, head, k, id).value)]
  }

  ghost function ProvenanceOf(t: Tables, head: StateId, k: Kind, id: RowId): Provenance
    requires Selected(t, head, k, id)
  {
    var x := AcceptedTuple(t, head, k, id).value;
    Provenance(x.state, t.snaps[x.state].revision, x.ordinal)
  }

  ghost function CurrentFacts(t: Tables, head: StateId): map<RowId, AcceptedFact> {
    map id | && id in t.facts && Selected(t, head, Fact, id)
             && SelectedVersion(t, head, Fact, id).value.factStatus != Superseded ::
      FactView(SelectedVersion(t, head, Fact, id), ProvenanceOf(t, head, Fact, id))
  }

  ghost function OpenLoops(t: Tables, head: StateId): map<RowId, AcceptedLoop> {
    map id | id in t.loops && Selected(t, head, Loop, id) ::
      LoopView(SelectedVersion(t, head, Loop, id), t.loops[id], ProvenanceOf(t, head, Loop, id))
  }

  ghost function SuppressedFacts(t: Tables, head: StateId): set<RowId> {
    set id | id in t.facts && !Selected(t, head, Fact, id)
  }

  ghost function SuppressedLoops(t: Tables, head: StateId): set<RowId> {
    set id | id in t.loops && !Selected(t, head, Loop, id)
  }

  ghost function DivergentTerminals(t: Tables, head: StateId): set<TerminalKey> {
    Terminals(t.snaps, t.ledger, DivergentHeads(t, head), Ancestry(t.snaps, head))
  }

  /** A version as a view shows it. */
  function ShownVersion(v: Version): Version {
    match v.value
    case FactValue(subject, predicate_, object_, status, effectiveAt, refs) =>
      v.(value := FactValue(subject, predicate_, object_, status, Shown(effectiveAt), refs))
    case LoopValue(owner, status, nextAction, dueAt, blockedOn, close) =>
      v.(value := LoopValue(owner, status, nextAction, Shown(dueAt), Shown(blockedOn), close))
  }

  /** The in-place fact says the same; reference lists are compared as sets. */
  predicate SameFactValue(row: FactRow, v: Value) {
    && v.FactValue?
    && row.subject == v.subject && row.predicate_ == v.predicate_ && row.object_ == v.object_
    && row.status == v.factStatus && Shown(row.effectiveAt) == Shown(v.effectiveAt)
    && row.evidence == Elements(v.refs.evidence) && row.source == Elements(v.refs.source)
    && row.contradicts == Elements(v.refs.contradicts)
  }

  /** The in-place loop, as its view shows it, compares equal to the version as it is stored. */
  predicate SameLoopValue(row: LoopRow, v: Value) {
    && v.LoopValue?
    && Comparing(LoopValue(row.owner, row.status, row.nextAction, Shown(row.dueAt), Shown(row.blockedOn), row.close))
       == Comparing(v)
  }

  predicate IsV1Current(facts: Facts, loops: Loops, k: Kind, id: RowId, v: Value) {
    if k == Fact then id in facts && SameFactValue(facts[id], v) else id in loops && SameLoopValue(loops[id], v)
  }

  /** The version of the newest change of (kind, id) made by one snapshot. */
  ghost function TerminalVersion(t: Tables, key: TerminalKey): Option<Version> {
    var x := NewestOf(t.snaps, t.ledger, {key.state}, key.kind, key.id);
    if x.Some? && VersionKey(key.id, x.value) in t.versions then Some(t.versions[VersionKey(key.id, x.value)]) else None
  }

  ghost function TerminalProvenance(t: Tables, key: TerminalKey): Provenance {
    var x := NewestOf(t.snaps, t.ledger, {key.state}, key.kind, key.id);
    Provenance(key.state, if key.state in t.snaps then t.snaps[key.state].revision else 0,
               if x.Some? then x.value.ordinal else 0)
  }

  ghost function DivergentValueOf(t: Tables, head: StateId, key: TerminalKey): DivergentValue {
    var v := TerminalVersion(t, key);
    DivergentValue(
      TerminalProvenance(t, key),
      FirstName(LineagesOf(t.snaps, t.ledger, DivergentHeads(t, head), Ancestry(t.snaps, head), key)),
      if v.Some? then Some(ShownVersion(v.value)) else None,
      v.Some? && IsV1Current(t.facts, t.loops, key.kind, key.id, v.value.value),
      Resolved(t.snaps, Ancestry(t.snaps, head), key))
  }

  ghost function DivergentValues(t: Tables, head: StateId): map<TerminalKey, DivergentValue> {
    map key | key in DivergentTerminals(t, head) :: DivergentValueOf(t, head, key)
  }

  ghost function UnresolvedOpaque(t: Tables, head: StateId): set<TerminalKey> {
    set key | key in Unresolved(t, head) && Opaque(t, key)
  }

  /** selectV3Values; without an accepted head every in-place row is suppressed and nothing is divergent. */
  ghost function SelectV3(t: Tables, head: Option<StateId>): V3Selection {
    match head
    case None => Listed(map[], map[], t.facts.Keys, t.loops.Keys, map[], {})
    case Some(h) =>
      Listed(CurrentFacts(t, h), OpenLoops(t, h), SuppressedFacts(t, h), SuppressedLoops(t, h),
             DivergentValues(t, h), UnresolvedOpaque(t, h))
  }

  /** The head whose lineage is accepted: only a live pointed one. */
  function AcceptedHead(t: Tables): Option<StateId> {
    match EffectiveCurrentHead(t)
    case Pointed(h) => Some(h)
    case _ => None
  }

  // ----- Selection is a replay of the lineage from root to head

  type Latest = map<(Kind, RowId), Tuple>

  /** The first n changes of one kind of snapshot a, each overwriting what came before. */
  ghost function Overwrite(m: Latest, a: StateId, k: Kind, out: seq<Applied>, n: nat): Latest
    requires n <= |out|
  {
    if n == 0 then m else Overwrite(m, a, k, out, n - 1)[(k, out[n - 1].id) := Tuple(a, k, n - 1)]
  }

  ghost function OverwriteAll(m: Latest, a: StateId, digest: Option<Changes>): Latest {
    if digest.None? then m
    else Overwrite(Overwrite(m, a, Fact, digest.value.facts, |digest.value.facts|), a, Loop, digest.value.loops,
                   |digest.value.loops|)
  }

  /** The left fold of the recorded changes along the parent chain, root first. */
  ghost function Replay(s: Snaps, head: StateId): Latest
    requires TreeOk(s) && head in s
    decreases s[head].revision
  {
    OverwriteAll(if s[head].parent.Some? then Replay(s, s[head].parent.value) else map[], head, s[head].digest)
  }

  ghost predicate LatestIs(m: Latest, a: StateId, k: Kind, out: seq<Applied>, id: RowId) {
    (k, id) in m && m[(k, id)].state == a && m[(k, id)].kind == k && LastNaming(out, id, m[(k, id)].ordinal)
  }

  lemma {:induction false} OverwriteMeaning(m: Latest, a: StateId, k: Kind, out: seq<Applied>, n: nat, j: Kind,
                                            id: RowId)
    requires n <= |out|
    ensures var r := Overwrite(m, a, k, out, n);
      && (j == k && Named(out[..n], id) ==> LatestIs(r, a, k, out[..n], id))
      && (j != k || !Named(out[..n], id) ==>
        ((j, id) in r <==> (j, id) in m) && ((j, id) in m ==> r[(j, id)] == m[(j, id)]))
  {
    if n > 0 {
      OverwriteMeaning(m, a, k, out, n - 1, j, id);
      assert out[..n] == out[..n - 1] + [out[n - 1]];
      NamingSnoc(out[..n - 1], out[n - 1], id);
    }
  }

  lemma OverwriteAllMeaning(m: Latest, a: StateId, ch: Changes, k: Kind, id: RowId)
    ensures var r := OverwriteAll(m, a, Some(ch));
      && (Named(ch.Of(k), id) ==> LatestIs(r, a, k, ch.Of(k), id))
      && (!Named(ch.Of(k), id) ==> ((k, id) in r <==> (k, id) in m) && ((k, id) in m ==> r[(k, id)] == m[(k, id)]))
  {
    var mid := Overwrite(m, a, Fact, ch.facts, |ch.facts|);
    OverwriteMeaning(m, a, Fact, ch.facts, |ch.facts|, k, id);
    OverwriteMeaning(mid, a, Loop, ch.loops, |ch.loops|, k, id);
    assert ch.facts[..|ch.facts|] == ch.facts && ch.loops[..|ch.loops|] == ch.loops;
  }

  /** One more snapshot at the head: its own last change of the id, or else the newest below it. */
  lemma NewestUnfold(s: Snaps, l: Ledger, head: StateId, k: Kind, id: RowId, x: Tuple)
    requires TreeOk(s) && LedgerOk(s, l) && head in s
    ensures IsNewest(s, l, Ancestry(s, head), k, id, x) <==>
      if s[head].digest.Some? && Named(s[head].digest.value.Of(k), id)
      then x.state == head && x.kind == k && LastNaming(s[head].digest.value.Of(k), id, x.ordinal)
      else s[head].parent.Some? && IsNewest(s, l, Ancestry(s, s[head].parent.value), k, id, x)
  {
    AncestryUnfold(s, head);
    var below := if s[head].parent.Some? then Ancestry(s, s[head].parent.value) else {};
    forall a | a in below ensures a in s && s[a].revision < s[head].revision {
      AncestorFacts(s, s[head].parent.value, a);
    }
    hide Ancestry, TreeOk;
    NewestAbove(s, l, below, head, k, id, x);
  }

  lemma NewestAbove(s: Snaps, l: Ledger, below: set<StateId>, head: StateId, k: Kind, id: RowId, x: Tuple)
    requires LedgerOk(s, l) && head in s
    requires forall a :: a in below ==> a in s && s[a].revision < s[head].revision
    ensures IsNewest(s, l, {head} + below, k, id, x) <==>
      if s[head].digest.Some? && Named(s[head].digest.value.Of(k), id)
      then x.state == head && x.kind == k && LastNaming(s[head].digest.value.Of(k), id, x.ordinal)
      else IsNewest(s, l, below, k, id, x)
  {
    var on := {head} + below;
    forall y ensures TupleOn(l, on, k, id, y) <==> TupleOn(l, {head}, k, id, y) || TupleOn(l, below, k, id, y) { }
    OwnTuples(s, l, head, k, id);
    if s[head].digest.Some? && Named(s[head].digest.value.Of(k), id) {
      var out := s[head].digest.value.Of(k);
      var i :| 0 <= i < |out| && out[i].id == id;
      assert TupleOn(l, {head}, k, id, Tuple(head, k, i));
      hide LedgerOk;
      HeadWins(s, l, below, head, k, id, x, i);
      if x.state == head && x.kind == k && LastNaming(out, id, x.ordinal) {
        forall y | TupleOn(l, on, k, id, y) ensures !Newer(s, y, x) {
          assert y.state == head ==> TupleOn(l, {head}, k, id, y) && out[y.ordinal].id == id;
        }
      }
      if IsNewest(s, l, on, k, id, x) {
        forall j: nat | x.ordinal < j < |out| ensures out[j].id != id {
          assert out[j].id == id ==> TupleOn(l, {head}, k, id, Tuple(head, k, j));
        }
      }
    } else {
      hide LedgerOk;
      forall y ensures TupleOn(l, on, k, id, y) <==> TupleOn(l, below, k, id, y) { }
    }
  }

  lemma HeadWins(s: Snaps, l: Ledger, below: set<StateId>, head: StateId, k: Kind, id: RowId, x: Tuple, i: nat)
    requires head in s && forall a :: a in below ==> a in s && s[a].revision < s[head].revision
    requires TupleOn(l, {head}, k, id, Tuple(head, k, i))
    ensures IsNewest(s, l, {head} + below, k, id, x) ==> x.state == head
  {
    assert TupleOn(l, {head} + below, k, id, Tuple(head, k, i));
  }

  lemma OwnTuples(s: Snaps, l: Ledger, head: StateId, k: Kind, id: RowId)
    requires LedgerOk(s, l) && head in s
    ensures forall y: Tuple :: TupleOn(l, {head}, k, id, y) <==>
      y.state == head && y.kind == k && s[head].digest.Some? && y.ordinal < |s[head].digest.value.Of(k)|
      && s[head].digest.value.Of(k)[y.ordinal].id == id
  {
    if s[head].digest.Some? {
      assert LedgerVerifies(s, l, head);
    }
  }

  /** The accepted change of every id is what the left fold along the lineage ends with. */
  lemma {:induction false} ReplayIsNewest(s: Snaps, l: Ledger, head: StateId, k: Kind, id: RowId)
    requires TreeOk(s) && LedgerOk(s, l) && head in s
    ensures var x := NewestOf(s, l, Ancestry(s, head), k, id);
      && ((k, id) in Replay(s, head) <==> x.Some?)
      && ((k, id) in Replay(s, head) ==> x == Some(Replay(s, head)[(k, id)]))
    decreases s[head].revision
  {
    hide NewestOf, LedgerOk, Ancestry;
    var m: Latest := if s[head].parent.Some? then Replay(s, s[head].parent.value) else map[];
    if s[head].parent.Some? {
      ReplayIsNewest(s, l, s[head].parent.value, k, id);
    }
    if s[head].digest.Some? {
      OverwriteAllMeaning(m, head, s[head].digest.value, k, id);
    }
    hide Overwrite, OverwriteAll;
    var r := Replay(s, head);
    if (k, id) in r {
      if s[head].parent.Some? {
        NewestIs(s, l, s[head].parent.value, k, id);
      }
      NewestUnfold(s, l, head, k, id, r[(k, id)]);
      AncestryInScope(s, head);
      NewestUnique(s, l, Ancestry(s, head), k, id, r[(k, id)]);
    } else {
      NewestIs(s, l, head, k, id);
      if NewestOf(s, l, Ancestry(s, head), k, id).Some? {
        var x := NewestOf(s, l, Ancestry(s, head), k, id).value;
        NewestUnfold(s, l, head, k, id, x);
        AncestryInScope(s, s[head].parent.value);
        NewestUnique(s, l, Ancestry(s, s[head].parent.value), k, id, x);
      }
    }
  }

  lemma NewestIs(s: Snaps, l: Ledger, head: StateId, k: Kind, id: RowId)
    ensures var x := NewestOf(s, l, Ancestry(s, head), k, id);
      x.Some? ==> IsNewest(s, l, Ancestry(s, head), k, id, x.value)
  {
  }
}
