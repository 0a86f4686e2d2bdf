/**
 One scope in which isV1CurrentValue is wrong both ways. On a branch, alice closed the loop "done"
 and opened the loop "late" with an empty due time; on the accepted lineage, bob then closed "done"
 with the same outcome.
 */
module FlagScenario {
  import opened Options
  import opened Types
  import opened Tree
  import opened Heads
  import opened Newest
  import opened ChangeLog
  import opened Divergence
  import opened Verifiers
  import opened Invariants
  import opened Selection
  import opened InPlaceFlag
  import Alarms

  // ----- The tables

  function Closing(row: RowRef): LoopChange {
    LoopChange(row, Closed, "nothing", Some("carol"), None, None, Some("done"))
  }

  function Opening(): LoopChange {
    LoopChange(NoRef, Open, "next", Some("carol"), Some(""), None, None)
  }

  function Written(parent: Option<StateId>, revision: nat, key: string, author: Principal, now: Time,
                   changes: seq<LoopChange>, out: seq<Applied>): Snapshot {
    var envelope := Envelope(Alarms.IdleState(), [], [], changes, [], None);
    Snapshot(parent, revision, envelope, Fingerprint(author, None, parent, V1, Write, None, None, false, envelope),
             key, author, now, Some(Changes([], out)))
  }

  function Snapshots(): Snaps {
    map["root" := Written(None, 1, "key-root", "carol", "monday", [], []),
        "left" := Written(Some("root"), 2, "key-left", "carol", "monday", [], []),
        "right" := Written(Some("root"), 3, "key-right", "alice", "tuesday", [Closing(NoRef), Opening()],
                           [Applied("done", true), Applied("late", true)]),
        "far" := Written(Some("left"), 4, "key-far", "bob", "friday", [Closing(Ref("done"))], [Applied("done", false)])]
  }

  function At(a: StateId, ordinal: nat): Tuple { Tuple(a, Loop, ordinal) }

  function LedgerOf(): Ledger {
    map[At("right", 0) := Applied("done", true), At("right", 1) := Applied("late", true),
        At("far", 0) := Applied("done", false)]
  }

  function CoverageOf(): CoverageRows {
    map[At("right", 0) := Coverage("done", Materialized, ByWrite),
        At("right", 1) := Coverage("late", Materialized, ByWrite),
        At("far", 0) := Coverage("done", Materialized, ByWrite)]
  }

  function VersionOf(c: LoopChange, author: Principal, now: Time): Version {
    Version(LoopVersionValue(c, "carol", author, now), author, now)
  }

  function VersionsOf(): Versions {
    map[VersionKey("done", At("right", 0)) := VersionOf(Closing(NoRef), "alice", "tuesday"),
        VersionKey("late", At("right", 1)) := VersionOf(Opening(), "alice", "tuesday"),
        VersionKey("done", At("far", 0)) := VersionOf(Closing(Ref("done")), "bob", "friday")]
  }

  function LoopsOf(): Loops {
    map["done" := UpdatedLoop(OpenedLoop(Closing(NoRef), "alice", "tuesday"), Closing(Ref("done")), "bob", "friday"),
        "late" := OpenedLoop(Opening(), "alice", "tuesday")]
  }

  function Undesignated(): Tables {
    Tables(Snapshots(), None, map[], {}, map[], LedgerOf(), CoverageOf(), VersionsOf(), {}, map[], LoopsOf())
  }

  /** The first write set the pointer, and left and far moved it on. */
  function Branched(): Tables {
    Undesignated().(pointer := Some(Pointer("far", "friday", "bob", Advance)))
  }

  // ----- The invariant

  lemma SnapshotsAre()
    ensures var s := Snapshots();
      && s.Keys == {"root", "left", "right", "far"}
      && s["root"] == Written(None, 1, "key-root", "carol", "monday", [], [])
      && s["left"] == Written(Some("root"), 2, "key-left", "carol", "monday", [], [])
      && s["right"] == Written(Some("root"), 3, "key-right", "alice", "tuesday", [Closing(NoRef), Opening()],
                               [Applied("done", true), Applied("late", true)])
      && s["far"] == Written(Some("left"), 4, "key-far", "bob", "friday", [Closing(Ref("done"))],
                             [Applied("done", false)])
  {
    hide Written, Closing, Opening;
  }

  lemma Fields()
    ensures var s := Snapshots();
      && s.Keys == {"root", "left", "right", "far"}
      && s["root"].parent == None && s["left"].parent == Some("root") && s["right"].parent == Some("root")
      && s["far"].parent == Some("left")
      && s["root"].revision == 1 && s["left"].revision == 2 && s["right"].revision == 3 && s["far"].revision == 4
    ensures KeysUnique(Snapshots()) && FingerprintsOk(Snapshots())
    ensures forall a :: a in Snapshots() ==> Snapshots()[a].envelope.reconciliation.None?
    ensures forall a :: a in Snapshots() ==> Snapshots()[a].digest.Some? && Snapshots()[a].digest.value.facts == []
  {
    hide Alarms.IdleState, Snapshots, Closing, Opening, KeysUnique, FingerprintsOk;
    SnapshotsAre();
    FourKeys(Snapshots());
    PlainWrites();
  }

  lemma PlainWrites()
    ensures FingerprintsOk(Snapshots())
    ensures forall a :: a in Snapshots() ==> Snapshots()[a].envelope.reconciliation.None?
    ensures forall a :: a in Snapshots() ==> Snapshots()[a].digest.Some? && Snapshots()[a].digest.value.facts == []
  {
    hide Alarms.IdleState, Snapshots, Closing, Opening;
    SnapshotsAre();
  }

  lemma FourKeys(s: Snaps)
    requires s.Keys == {"root", "left", "right", "far"}
    requires s["root"].key == "key-root" && s["left"].key == "key-left"
    requires s["right"].key == "key-right" && s["far"].key == "key-far"
    ensures KeysUnique(s)
  {
    assert "key-root"[4] == 'r' && "key-left"[4] == 'l' && "key-far"[4] == 'f';
  }

  lemma IsTree(s: Snaps)
    requires s.Keys == {"root", "left", "right", "far"}
    requires s["root"].parent == None && s["left"].parent == Some("root") && s["right"].parent == Some("root")
    requires s["far"].parent == Some("left")
    requires s["root"].revision == 1 && s["left"].revision == 2 && s["right"].revision == 3 && s["far"].revision == 4
    ensures TreeOk(s)
  {
  }

  lemma TwoLive(s: Snaps)
    requires s.Keys == {"root", "left", "right", "far"}
    requires s["root"].parent == None && s["left"].parent == Some("root") && s["right"].parent == Some("root")
    requires s["far"].parent == Some("left")
    ensures Live(s, {}) == {"right", "far"}
  {
    assert HasChild(s, "root") && HasChild(s, "left");
    assert !HasChild(s, "right") && !HasChild(s, "far");
  }

  lemma LedgerAtEach(a: StateId)
    requires a in Snapshots()
    ensures LedgerVerifies(Snapshots(), LedgerOf(), a)
  {
    hide Snapshots, Alarms.IdleState, Closing, Opening;
    SnapshotsAre();
    var s := Snapshots();
    assert s["root"].digest == s["left"].digest == Some(Changes([], []));
    assert s["right"].digest == Some(Changes([], [Applied("done", true), Applied("late", true)]));
    assert s["far"].digest == Some(Changes([], [Applied("done", false)]));
    assert s[a].envelope.factChanges == [] && |s[a].envelope.loopChanges| == |s[a].digest.value.loops|;
    hide Written;
    forall k: Kind, o: nat ensures Tuple(a, k, o) in LedgerOf() <==> o < |s[a].digest.value.Of(k)| {
    }
  }

  lemma LedgerFits()
    ensures LedgerOk(Snapshots(), LedgerOf())
  {
    hide Snapshots, LedgerVerifies, LedgerOf, KeysUnique, FingerprintsOk;
    forall a | a in Snapshots() ensures LedgerVerifies(Snapshots(), LedgerOf(), a) {
      LedgerAtEach(a);
    }
    Fields();
    LedgerStates();
  }

  lemma LedgerStates()
    ensures forall x :: x in LedgerOf() ==> x.state == "right" || x.state == "far"
  {
  }

  lemma RowsFit()
    ensures CoverageOk(LedgerOf(), CoverageOf()) && RowsExist(LedgerOf(), map[], LoopsOf())
    ensures LoopsOf().Keys == {"done", "late"}
  {
    hide UpdatedLoop, OpenedLoop, Closing, Opening;
  }

  lemma VersionsFit()
    ensures VersionsOk(CoverageOf(), VersionsOf())
  {
    hide Closing, Opening;
    forall vk: VersionKey ensures vk in VersionsOf() <==>
      && vk.tuple in CoverageOf() && CoverageOf()[vk.tuple].id == vk.id
      && CoverageOf()[vk.tuple].disposition == Materialized
    {
    }
  }

  lemma TablesAre()
    ensures var t := Undesignated();
      && t.snaps == Snapshots() && t.ledger == LedgerOf() && t.coverage == CoverageOf() && t.versions == VersionsOf()
      && t.facts == map[] && t.loops == LoopsOf() && t.retirements == map[] && t.backfilled == {}
      && t.inputs == {} && t.resolutions == map[] && t.pointer == None
    ensures Branched() == Undesignated().(pointer := Branched().pointer)
    ensures Branched().pointer.Some? && Branched().pointer.value.state == "far"
  {
  }

  /** The last change of each loop over all lineages. */
  lemma NewestEverywhere(k: Kind, id: RowId, x: Tuple)
    ensures IsNewest(Snapshots(), LedgerOf(), Snapshots().Keys, k, id, x) ==>
      (id == "done" && x == At("far", 0)) || (id == "late" && x == At("right", 1))
  {
    Fields();
    var s, l := Snapshots(), LedgerOf();
    hide Snapshots;
    assert TupleOn(l, s.Keys, Loop, "done", At("far", 0));
  }

  lemma RowsAgree()
    ensures "done" in LoopsOf() && "late" in LoopsOf()
    ensures forall vk :: vk in VersionsOf() && vk == VersionKey("done", At("far", 0)) ==>
      LoopAgrees(LoopsOf()["done"], VersionsOf()[vk])
    ensures forall vk :: vk in VersionsOf() && vk == VersionKey("late", At("right", 1)) ==>
      LoopAgrees(LoopsOf()["late"], VersionsOf()[vk])
  {
  }

  lemma TwoNewestInPlace(s: Snaps, l: Ledger, v: Versions, loops: Loops)
    requires forall k, id, x :: IsNewest(s, l, s.Keys, k, id, x) ==>
      (id == "done" && x == At("far", 0)) || (id == "late" && x == At("right", 1))
    requires "done" in loops && "late" in loops
    requires forall vk :: vk in v && vk == VersionKey("done", At("far", 0)) ==> LoopAgrees(loops["done"], v[vk])
    requires forall vk :: vk in v && vk == VersionKey("late", At("right", 1)) ==> LoopAgrees(loops["late"], v[vk])
    ensures FactsInPlace(s, l, v, map[]) && LoopsInPlace(s, l, v, loops)
  {
    hide IsNewest, LoopAgrees;
  }

  lemma InPlaceFits()
    ensures FactsInPlace(Snapshots(), LedgerOf(), VersionsOf(), map[])
    ensures LoopsInPlace(Snapshots(), LedgerOf(), VersionsOf(), LoopsOf())
  {
    hide Snapshots, LedgerOf, VersionsOf, LoopsOf, IsNewest, FactsInPlace, LoopsInPlace, LoopAgrees;
    forall k, id, x
      ensures IsNewest(Snapshots(), LedgerOf(), Snapshots().Keys, k, id, x) ==>
              (id == "done" && x == At("far", 0)) || (id == "late" && x == At("right", 1))
    {
      NewestEverywhere(k, id, x);
    }
    RowsAgree();
    TwoNewestInPlace(Snapshots(), LedgerOf(), VersionsOf(), LoopsOf());
  }

  lemma UndesignatedIsLegacy()
    ensures Legacy(Undesignated())
  {
    hide Undesignated, Snapshots, LedgerOf, CoverageOf, VersionsOf, LoopsOf, TreeOk, KeysUnique, FingerprintsOk,
         LedgerOk, CoverageOk, VersionsOk, RowsExist, FactsInPlace, LoopsInPlace;
    TablesAre();
    Fields();
    IsTree(Snapshots());
    LedgerFits();
    RowsFit();
    VersionsFit();
    InPlaceFits();
  }

  /** Designating a live head of legacy history keeps the invariant. */
  lemma Designated(t: Tables, pointer: Pointer)
    requires Legacy(t) && pointer.state in LiveHeads(t)
    ensures Inv(t.(pointer := Some(pointer)))
  {
    var t' := t.(pointer := Some(pointer));
    hide TreeOk, KeysUnique, FingerprintsOk, Live, LedgerOk, CoverageOk, VersionsOk, RowsExist, FactsInPlace,
         LoopsInPlace;
    forall a | a in t'.snaps ensures SnapReconcileOk(t', a) {
      assert OwnsNoRows(t', a);
    }
  }

  lemma BranchedInv()
    ensures Inv(Branched()) && LiveHeads(Branched()) == {"right", "far"}
  {
    hide Undesignated, Branched, Snapshots, Inv, Legacy, TreeOk, KeysUnique, FingerprintsOk, Live;
    UndesignatedIsLegacy();
    TablesAre();
    Fields();
    TwoLive(Snapshots());
    assert Undesignated().retirements.Keys == {} && Branched().retirements.Keys == {};
    Designated(Undesignated(), Branched().pointer.value);
  }

  lemma CoverageFits(a: StateId)
    ensures CoverageExact(Branched(), a)
  {
    hide Snapshots, LoopsOf, Closing, Opening, VersionOf;
  }

  lemma VersionsMatch()
    ensures LoopParity(Branched(), At("right", 0), Closing(NoRef))
    ensures LoopParity(Branched(), At("right", 1), Opening())
    ensures LoopParity(Branched(), At("far", 0), Closing(Ref("done")))
  {
    hide Alarms.IdleState, LoopVersionValue, LoopsOf, InheritedOwner;
  }

  lemma BranchedParity()
    ensures VersionParity(Branched())
  {
    VersionsMatch();
    TablesAre();
    hide Branched, Undesignated, LedgerOf, CoverageOf, VersionsOf, LoopsOf, CoverageExact, LoopParity, LedgerVerifies;
    forall a | a in Snapshots() ensures SnapParity(Branched(), a) {
      CoverageFits(a);
      LedgerAtEach(a);
      PayloadsNamed(a);
      SnapshotsAre();
      hide Snapshots, NamesParity, Alarms.IdleState;
    }
  }

  lemma PayloadsNamed(a: StateId)
    requires a in Snapshots()
    ensures NamesParity(Snapshots()[a])
  {
    hide Snapshots, Alarms.IdleState;
    SnapshotsAre();
  }

  // ----- What is listed

  function Done(): TerminalKey { TerminalKey(Loop, "done", "right") }
  function Late(): TerminalKey { TerminalKey(Loop, "late", "right") }

  lemma Lineages()
    ensures Ancestry(Snapshots(), "far") == {"far", "left", "root"}
    ensures ChainSet(Snapshots(), "right", {"far", "left", "root"}) == {"right"}
  {
    var s := Snapshots();
    hide Snapshots, TreeOk;
    Fields();
    IsTree(s);
    AncestryUnfold(s, "far");
    AncestryUnfold(s, "left");
    AncestryUnfold(s, "root");
    ChainUnfold(s, "right", {"far", "left", "root"});
    ChainUnfold(s, "root", {"far", "left", "root"});
    assert Chain(s, "right", {"far", "left", "root"}) == ["right"];
  }

  lemma RightTuples(k: Kind, id: RowId, x: Tuple)
    ensures TupleOn(LedgerOf(), {"right"}, k, id, x) <==>
      k == Loop && ((id == "done" && x == At("right", 0)) || (id == "late" && x == At("right", 1)))
  {
  }

  lemma OnlyOne(s: Snaps, l: Ledger, a: StateId, k: Kind, id: RowId, x: Tuple)
    requires TreeOk(s) && a in s && forall y :: TupleOn(l, {a}, k, id, y) <==> y == x
    ensures IsNewest(s, l, {a}, k, id, x) && NewestOf(s, l, {a}, k, id) == Some(x)
  {
    assert IsNewest(s, l, {a}, k, id, x);
    NewestUnique(s, l, {a}, k, id, x);
  }

  lemma OnRight(id: RowId, o: nat)
    requires (id == "done" && o == 0) || (id == "late" && o == 1)
    ensures IsNewest(Snapshots(), LedgerOf(), {"right"}, Loop, id, At("right", o))
    ensures NewestOf(Snapshots(), LedgerOf(), {"right"}, Loop, id) == Some(At("right", o))
  {
    hide Snapshots, LedgerOf, TreeOk, TupleOn, IsNewest, NewestOf;
    Fields();
    IsTree(Snapshots());
    forall y ensures TupleOn(LedgerOf(), {"right"}, Loop, id, y) <==> y == At("right", o) {
      RightTuples(Loop, id, y);
    }
    OnlyOne(Snapshots(), LedgerOf(), "right", Loop, id, At("right", o));
  }

  lemma RightTerminals(key: TerminalKey)
    ensures TerminalOf(Snapshots(), LedgerOf(), {"right"}, key) <==> key == Done() || key == Late()
  {
    hide Snapshots, LedgerOf;
    if TerminalOf(Snapshots(), LedgerOf(), {"right"}, key) {
      var x :| IsNewest(Snapshots(), LedgerOf(), {"right"}, key.kind, key.id, x) && x.state == key.state;
      RightTuples(key.kind, key.id, x);
    }
    OnRight("done", 0);
    OnRight("late", 1);
    hide IsNewest;
    assert TerminalOf(Snapshots(), LedgerOf(), {"right"}, Done());
    assert TerminalOf(Snapshots(), LedgerOf(), {"right"}, Late());
  }

  lemma RightDiverges()
    ensures DivergentHeads(Branched(), "far") == {"right"}
  {
    hide Branched, Undesignated, Snapshots, LedgerOf, Inv, Live, Ancestry;
    TablesAre();
    BranchedInv();
  }

  lemma OneLineage(s: Snaps, l: Ledger, h: StateId, accepted: set<StateId>, key: TerminalKey)
    ensures IsTerminal(s, l, {h}, accepted, key) <==> TerminalOf(s, l, ChainSet(s, h, accepted), key)
  {
    hide TerminalOf, ChainSet;
  }

  lemma TwoListed()
    ensures DivergentTerminals(Branched(), "far") == {Done(), Late()}
  {
    hide Branched, Undesignated, Snapshots, LedgerOf, DivergentHeads, Terminals, IsTerminal, Ancestry, ChainSet,
         TerminalOf, Done, Late;
    TablesAre();
    RightDiverges();
    Lineages();
    forall key ensures key in DivergentTerminals(Branched(), "far") <==> key == Done() || key == Late() {
      TerminalInLedger(Snapshots(), LedgerOf(), {"right"}, Ancestry(Snapshots(), "far"), key);
      OneLineage(Snapshots(), LedgerOf(), "right", Ancestry(Snapshots(), "far"), key);
      RightTerminals(key);
    }
  }

  lemma ListedVersions()
    ensures TerminalVersion(Branched(), Done()) == Some(VersionOf(Closing(NoRef), "alice", "tuesday"))
    ensures TerminalVersion(Branched(), Late()) == Some(VersionOf(Opening(), "alice", "tuesday"))
  {
    hide VersionOf, Branched, Undesignated, Snapshots, LedgerOf, NewestOf;
    TablesAre();
    OnRight("done", 0);
    OnRight("late", 1);
  }

  /** Row and version of both loops: what the flag compares, and what the views show. */
  lemma Compared()
    ensures var loops := LoopsOf();
      && loops.Keys == {"done", "late"}
      && var done, late := VersionOf(Closing(NoRef), "alice", "tuesday"), VersionOf(Opening(), "alice", "tuesday");
      && SameLoopValue(loops["done"], done.value) && LoopRowSays(loops["done"]) != ShownVersion(done).value
      && !SameLoopValue(loops["late"], late.value) && LoopRowSays(loops["late"]) == ShownVersion(late).value
  {
    assert LoopsOf()["done"].close != VersionOf(Closing(NoRef), "alice", "tuesday").value.close;
    assert Shown(Opening().dueAt) != Opening().dueAt;
  }

  lemma FarIsAccepted()
    ensures AcceptedHead(Branched()) == Some("far")
  {
    hide Branched, Undesignated, Snapshots, LedgerOf, Inv, Live;
    TablesAre();
    BranchedInv();
    Fields();
  }

  lemma ListedFlag(key: TerminalKey, v: Version)
    requires key in DivergentTerminals(Branched(), "far") && TerminalVersion(Branched(), key) == Some(v)
    requires key.kind == Loop && key.id in LoopsOf()
    ensures key in DivergentValues(Branched(), "far")
    ensures var d := DivergentValues(Branched(), "far")[key];
      d.value == Some(ShownVersion(v)) && (d.isV1CurrentValue <==> SameLoopValue(LoopsOf()[key.id], v.value))
  {
    hide Undesignated, Snapshots, LedgerOf, LoopsOf, DivergentTerminals, TerminalVersion, LineagesOf, Resolved,
         TerminalProvenance, SameLoopValue, ShownVersion, Ancestry, DivergentHeads;
    TablesAre();
    hide Branched;
  }

  /**
   A scope that satisfies the invariant and whose versions verify, with both wrong flags: "done" is
   flagged although the views show different close events, and "late" is not although they show
   the same.
   */
  lemma FlagIsWrongBothWays()
    ensures var t := Branched();
      && Inv(t) && VersionParity(t) && AcceptedHead(t) == Some("far")
      && DivergentValues(t, "far").Keys == {Done(), Late()} && t.loops.Keys == {"done", "late"}
      && var done, late := DivergentValues(t, "far")[Done()], DivergentValues(t, "far")[Late()];
      && done.value.Some? && late.value.Some?
      && done.isV1CurrentValue && LoopRowSays(t.loops["done"]) != done.value.value.value
      && !late.isV1CurrentValue && LoopRowSays(t.loops["late"]) == late.value.value.value
  {
    hide Branched, Undesignated, Snapshots, LedgerOf, CoverageOf, VersionsOf, LoopsOf, VersionOf, Inv, VersionParity,
         DivergentTerminals, DivergentValueOf, TerminalVersion, AcceptedHead, SameLoopValue, ShownVersion, LoopRowSays;
    BranchedInv();
    BranchedParity();
    FarIsAccepted();
    TwoListed();
    ListedVersions();
    TablesAre();
    Compared();
    ListedFlag(Done(), VersionOf(Closing(NoRef), "alice", "tuesday"));
    ListedFlag(Late(), VersionOf(Opening(), "alice", "tuesday"));
  }
}
