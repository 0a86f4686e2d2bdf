/**
 A scope with a fork, and the reconcile that merges it: the left branch survives, and the value the
 right branch gave a fact is accepted. It shows that the theorems about reconciles and accepts speak
 of something that happens.
 */
module Scenario {
  import opened Options
  import opened Types
  import opened Tree
  import opened Heads
  import opened Newest
  import opened ChangeLog
  import opened Divergence
  import opened Verifiers
  import opened Evaluation
  import opened Protocol
  import opened Invariants
  import opened Reconciling
  import opened Selection
  import opened ReadModel
  import opened Answers
  import opened Progress
  import Alarms

  function Assertion(id: RowRef, object_: string): FactChange {
    FactChange(id, "subject", "predicate", object_, Asserted, [], [], None, None)
  }

  function Recorded(parent: Option<StateId>, revision: nat, key: string, changes: seq<FactChange>,
                    out: seq<Applied>): Snapshot {
    var envelope := Envelope(Alarms.IdleState(), [], changes, [], [], None);
    Snapshot(parent, revision, envelope, Fingerprint("agent", None, parent, V1, Write, None, None, false, envelope),
             key, "agent", "earlier", Some(Changes(out, [])))
  }

  function At(a: StateId): Tuple { Tuple(a, Fact, 0) }

  function Snapshots(): Snaps {
    map["root" := Recorded(None, 1, "key-root", [Assertion(NoRef, "old")], [Applied("fact", true)]),
        "left" := Recorded(Some("root"), 2, "key-left", [], []),
        "right" := Recorded(Some("root"), 3, "key-right", [Assertion(Ref("fact"), "new")], [Applied("fact", false)])]
  }

  function LedgerOf(): Ledger {
    map[At("root") := Applied("fact", true), At("right") := Applied("fact", false)]
  }

  function CoverageOf(): CoverageRows {
    map[At("root") := Coverage("fact", Materialized, ByWrite), At("right") := Coverage("fact", Materialized, ByWrite)]
  }

  function VersionsOf(): Versions {
    map[VersionKey("fact", At("root")) := Version(FactVersionValue(Assertion(NoRef, "old")), "agent", "earlier"),
        VersionKey("fact", At("right")) := Version(FactVersionValue(Assertion(Ref("fact"), "new")), "agent", "earlier")]
  }

  function FactsOf(): Facts {
    map["fact" := FactRowOf(Assertion(Ref("fact"), "new"), "agent", "earlier")]
  }

  /** root, then left and right below it; right changed the fact root asserted. */
  function Forked(): Tables {
    Tables(Snapshots(), None, map[], {}, map[], LedgerOf(), CoverageOf(), VersionsOf(), {}, FactsOf(), map[])
  }

  lemma SnapshotsAre()
    ensures Snapshots().Keys == {"root", "left", "right"}
    ensures Snapshots()["root"] == Recorded(None, 1, "key-root", [Assertion(NoRef, "old")], [Applied("fact", true)])
    ensures Snapshots()["left"] == Recorded(Some("root"), 2, "key-left", [], [])
    ensures Snapshots()["right"] ==
      Recorded(Some("root"), 3, "key-right", [Assertion(Ref("fact"), "new")], [Applied("fact", false)])
    ensures forall a :: a in Snapshots() ==>
      && Snapshots()[a].envelope.reconciliation.None? && Snapshots()[a].digest.Some?
      && Snapshots()[a].fingerprint.operation == Write
      && Snapshots()[a].author == "agent" && Snapshots()[a].recordedAt == "earlier"
  {
  }

  lemma ForkedLedgerOk()
    ensures LedgerOk(Snapshots(), LedgerOf())
  {
    hide Snapshots, LedgerVerifies;
    forall a | a in Snapshots() ensures LedgerVerifies(Snapshots(), LedgerOf(), a) {
      LedgerAtEach(a);
    }
    SnapshotsAre();
  }

  lemma LedgerAtEach(a: StateId)
    requires a in Snapshots()
    ensures LedgerVerifies(Snapshots(), LedgerOf(), a)
  {
    hide Snapshots, Alarms.IdleState;
    SnapshotsAre();
    var s := Snapshots();
    assert s["root"].digest == Some(Changes([Applied("fact", true)], []));
    assert s["left"].digest == Some(Changes([], []));
    assert s["right"].digest == Some(Changes([Applied("fact", false)], []));
    assert |s[a].envelope.factChanges| == |s[a].digest.value.facts| && s[a].envelope.loopChanges == [];
    hide Recorded, Assertion;
    forall k: Kind, o: nat ensures Tuple(a, k, o) in LedgerOf() <==> o < |s[a].digest.value.Of(k)| {
    }
  }

  lemma CoverageFits()
    ensures CoverageOk(LedgerOf(), CoverageOf()) && RowsExist(LedgerOf(), FactsOf(), map[])
  {
    hide FactRowOf;
  }

  lemma VersionsFit()
    ensures VersionsOk(CoverageOf(), VersionsOf())
  {
    forall vk: VersionKey ensures vk in VersionsOf() <==>
      vk.tuple in CoverageOf() && CoverageOf()[vk.tuple].id == vk.id &&
        CoverageOf()[vk.tuple].disposition == Materialized
    {
    }
  }

  lemma ForkedRowsOk()
    ensures RowsOk(Forked())
  {
    hide Snapshots, LedgerOf, CoverageOf, VersionsOf, FactsOf, LedgerOk, CoverageOk, VersionsOk, RowsExist;
    ForkedLedgerOk();
    CoverageFits();
    VersionsFit();
  }

  lemma ForkIsTree(s: Snaps)
    requires s.Keys == {"root", "left", "right"}
    requires s["root"].parent == None && s["left"].parent == Some("root") && s["right"].parent == Some("root")
    requires s["root"].revision == 1 && s["left"].revision == 2 && s["right"].revision == 3
    ensures TreeOk(s)
  {
  }

  lemma ForkedTree()
    ensures TreeOk(Snapshots()) && KeysUnique(Snapshots()) && FingerprintsOk(Snapshots())
  {
    hide Snapshots, TreeOk, KeysUnique, FingerprintsOk;
    Fields();
    ForkIsTree(Snapshots());
  }

  lemma Fields()
    ensures var s := Snapshots();
      && s.Keys == {"root", "left", "right"}
      && s["root"].parent == None && s["left"].parent == Some("root") && s["right"].parent == Some("root")
      && s["root"].revision == 1 && s["left"].revision == 2 && s["right"].revision == 3
    ensures KeysUnique(Snapshots()) && FingerprintsOk(Snapshots())
  {
    hide Alarms.IdleState, Snapshots;
    SnapshotsAre();
    assert Snapshots()["root"].key == "key-root" && Snapshots()["left"].key == "key-left" &&
      Snapshots()["right"].key == "key-right";
  }

  lemma NewestEverywhere(id: RowId, x: Tuple)
    ensures IsNewest(Snapshots(), LedgerOf(), Snapshots().Keys, Fact, id, x) ==> id == "fact" && x == At("right")
    ensures !IsNewest(Snapshots(), LedgerOf(), Snapshots().Keys, Loop, id, x)
  {
    hide Alarms.IdleState;
    if IsNewest(Snapshots(), LedgerOf(), Snapshots().Keys, Fact, id, x) {
      assert TupleOn(LedgerOf(), Snapshots().Keys, Fact, "fact", At("right"));
    }
  }

  lemma ForkedInPlace()
    ensures InPlaceOk(Forked())
  {
    hide Alarms.IdleState, Snapshots, LedgerOf, VersionsOf, FactsOf, Forked, IsNewest, FactsInPlace, LoopsInPlace;
    forall id, x
      ensures IsNewest(Snapshots(), LedgerOf(), Snapshots().Keys, Fact, id, x) ==> id == "fact" && x == At("right")
      ensures !IsNewest(Snapshots(), LedgerOf(), Snapshots().Keys, Loop, id, x)
    {
      NewestEverywhere(id, x);
    }
    InPlaceAgrees();
    OneNewestInPlace(Snapshots(), LedgerOf(), VersionsOf(), FactsOf());
    ForkedTables();
  }

  lemma OneNewestInPlace(s: Snaps, l: Ledger, v: Versions, facts: Facts)
    requires forall id, x :: IsNewest(s, l, s.Keys, Fact, id, x) ==> id == "fact" && x == At("right")
    requires forall id, x :: !IsNewest(s, l, s.Keys, Loop, id, x)
    requires "fact" in facts
    requires forall vk :: vk in v && vk == VersionKey("fact", At("right")) ==> FactAgrees(facts["fact"], v[vk])
    ensures FactsInPlace(s, l, v, facts) && LoopsInPlace(s, l, v, map[])
  {
    hide IsNewest;
  }

  lemma InPlaceAgrees()
    ensures "fact" in FactsOf()
    ensures forall vk :: vk in VersionsOf() && vk == VersionKey("fact", At("right")) ==>
      FactAgrees(FactsOf()["fact"], VersionsOf()[vk])
  {
  }

  lemma ForkedTables()
    ensures var t := Forked();
      && t.snaps == Snapshots() && t.ledger == LedgerOf() && t.versions == VersionsOf()
      && t.facts == FactsOf() && t.loops == map[]
      && t.pointer == None && t.retirements == map[] && t.backfilled == {}
  {
  }

  lemma ForkedInv()
    ensures Legacy(Forked()) && Inv(Forked())
  {
    hide RowsOk, TreeOk, KeysUnique, FingerprintsOk, InPlaceOk, Inv, Snapshots, LedgerOf, CoverageOf, VersionsOf,
         FactsOf, Recorded;
    ForkedRowsOk();
    ForkedTree();
    ForkedInPlace();
    SnapshotsAre();
    LegacyInv(Forked());
  }

  lemma ForkedParity()
    ensures VersionParity(Forked())
  {
    ForkedLedgerOk();
    ForkedCoverage();
    ForkedVersions();
    SnapshotsAre();
    hide Forked, Snapshots, LedgerOf, CoverageOf, VersionsOf, LedgerOk, CoverageExact, FactParity;
    assert Forked().snaps == Snapshots() && Forked().ledger == LedgerOf() by { ForkedTables(); }
    forall a | a in Snapshots() ensures SnapParity(Forked(), a) {
      assert LedgerVerifies(Snapshots(), LedgerOf(), a) by { LedgerAt(a); }
      hide LedgerVerifies;
      assert NamesParity(Snapshots()[a]);
    }
  }

  lemma LedgerAt(a: StateId)
    requires a in Snapshots() && LedgerOk(Snapshots(), LedgerOf())
    ensures LedgerVerifies(Snapshots(), LedgerOf(), a)
  {
    SnapshotsAre();
    hide Snapshots, LedgerOf, LedgerVerifies;
  }

  lemma ForkedCoverage()
    ensures forall a :: a in Snapshots() ==> CoverageExact(Forked(), a)
  {
    hide Alarms.IdleState;
    hide Snapshots, FactsOf;
    SnapshotsAre();
  }

  lemma ForkedVersions()
    ensures FactParity(Forked(), At("root"), Assertion(NoRef, "old"))
    ensures FactParity(Forked(), At("right"), Assertion(Ref("fact"), "new"))
  {
    hide FactsOf, Alarms.IdleState, FactVersionValue;
  }

  // ----- The reconcile

  function Contested(): TerminalKey { TerminalKey(Fact, "fact", "right") }

  function Merging(): Params {
    Params("merger", Some(2), "key-merge", V3, Reconcile, Some(Alarms.IdleState()), None, [],
           [Assertion(Ref("fact"), "new")], [], [], false, ["left", "right"], None, "left", "merge the fork", None,
           [ResolutionRequest(Contested(), true, Some(0))], [])
  }

  function MergingNormal(): Normalized {
    Normalized({"left", "right"}, None, "left", "merge the fork", true, map[Contested() := Accept(0)], {}, false)
  }

  function Drawn(): Uuids { Uuids("merged", ["unused"], []) }

  lemma MergingNormalizes()
    ensures Normalize(Merging()) == Some(MergingNormal())
  {
    var p := Merging();
    assert NormalizableRequest(p);
    assert Elements(p.expectedHeads) == {"left", "right"};
    assert ResolutionMap(p.resolutions[..0]) == map[];
    assert ResolutionMap(p.resolutions) == map[Contested() := Accept(0)];
    assert Elements(p.rejectLineages) == {};
  }

  lemma KeyIsNew()
    ensures ByKey(Forked().snaps, "key-merge").None?
  {
    ForkedTables();
    SnapshotsAre();
    hide Snapshots, Forked, Alarms.IdleState;
  }

  lemma MergingIsFresh()
    ensures FreshUuids(Forked(), Merging(), Drawn())
  {
    Fields();
    ForkedTables();
    RowsAreFresh();
    hide Snapshots, Forked, FactsOf, Merging, FactIdsFresh, LoopIdsFresh;
  }

  lemma RowsAreFresh()
    ensures |Drawn().facts| == |Merging().factChanges| && |Drawn().loops| == |Merging().loopChanges|
    ensures FactIdsFresh(FactsOf(), Merging().factChanges, Drawn().facts)
    ensures LoopIdsFresh(map[], Merging().loopChanges, Drawn().loops)
  {
    hide Alarms.IdleState, FactRowOf;
  }

  lemma MergingPrechecks()
    ensures OperationOf(Merging()) == Reconcile && Normalize(Merging()) == Some(MergingNormal()) &&
      Precheck(Merging()).None?
    ensures Merging().key == "key-merge"
  {
    MergingNormalizes();
    hide Normalize;
    assert Alarms.IdleState().Obj?;
  }

  lemma MergingRequest()
    ensures ReconcileRequest(Forked(), Merging(), Drawn(), MergingNormal())
  {
    hide Forked, Merging, Drawn, MergingNormal, Normalize, Precheck, ByKey, FreshUuids, OperationOf;
    MergingIsFresh();
    MergingPrechecks();
    KeyIsNew();
  }

  lemma ForkLive(s: Snaps)
    requires s.Keys == {"root", "left", "right"}
    requires s["root"].parent == None && s["left"].parent == Some("root") && s["right"].parent == Some("root")
    ensures Live(s, {}) == {"left", "right"}
  {
    assert HasChild(s, "root");
    assert !HasChild(s, "left") && !HasChild(s, "right");
  }

  lemma ForkedLive()
    ensures LiveHeads(Forked()) == {"left", "right"}
  {
    Fields();
    ForkLive(Snapshots());
    ForkedTables();
    hide Live, Snapshots, Forked;
    assert Forked().retirements.Keys == {};
  }

  lemma ForkedHeads()
    ensures LiveHeads(Forked()) == {"left", "right"}
    ensures Ancestry(Snapshots(), "left") == {"left", "root"}
    ensures ChainSet(Snapshots(), "right", {"left", "root"}) == {"right"}
  {
    var s := Snapshots();
    hide Snapshots, TreeOk, Live, Forked;
    ForkedLive();
    Fields();
    ForkedTree();
    AncestryUnfold(s, "left");
    AncestryUnfold(s, "root");
    ChainUnfold(s, "right", {"left", "root"});
    ChainUnfold(s, "root", {"left", "root"});
    assert Chain(s, "right", {"left", "root"}) == ["right"];
  }

  lemma MergingNames()
    ensures NamesScope(Forked(), Merging(), MergingNormal())
  {
    hide Forked, Snapshots, Live, ByRevision, TreeOk;
    ForkedHeads();
    ForkedTables();
    ForkedTree();
    Fields();
    NamedByRevision(Snapshots(), "left");
  }

  lemma RightIsNewest()
    ensures IsNewest(Snapshots(), LedgerOf(), {"right"}, Fact, "fact", At("right"))
    ensures NewestOf(Snapshots(), LedgerOf(), {"right"}, Fact, "fact") == Some(At("right"))
  {
    hide Alarms.IdleState;
    assert IsNewest(Snapshots(), LedgerOf(), {"right"}, Fact, "fact", At("right"));
    ForkedTree();
    NewestUnique(Snapshots(), LedgerOf(), {"right"}, Fact, "fact", At("right"));
  }

  lemma RightTerminals(key: TerminalKey)
    ensures TerminalOf(Snapshots(), LedgerOf(), {"right"}, key) <==> key == Contested()
  {
    RightIsNewest();
    hide Snapshots, Alarms.IdleState;
    if TerminalOf(Snapshots(), LedgerOf(), {"right"}, key) {
      var x :| IsNewest(Snapshots(), LedgerOf(), {"right"}, key.kind, key.id, x) && x.state == key.state;
      assert x == At("right");
    }
    assert IsNewest(Snapshots(), LedgerOf(), {"right"}, Fact, "fact", At("right"));
  }

  lemma RightDiverges()
    ensures DivergentHeads(Forked(), "left") == {"right"}
  {
    hide Forked, Snapshots, Live, Ancestry, LedgerOf;
    ForkedTables();
    ForkedHeads();
  }

  /** The one undecided terminal is the fact as right has it. */
  lemma ForkedUndecided()
    ensures Unresolved(Forked(), "left") == {Contested()}
  {
    hide Forked, Snapshots, LedgerOf, DivergentHeads, Terminals, Ancestry, ChainSet, TerminalOf, Contested;
    ForkedTables();
    ForkedHeads();
    RightDiverges();
    SnapshotsAre();
    hide Recorded;
    forall key ensures key in Unresolved(Forked(), "left") <==> key == Contested() {
      TerminalInLedger(Snapshots(), LedgerOf(), {"right"}, {"left", "root"}, key);
      RightTerminals(key);
    }
  }

  lemma AcceptIsRight()
    ensures AcceptAdmitted(Forked(), Contested(), 0, Merging().factChanges, [], "merger")
  {
    RightIsNewest();
  }

  lemma MergingAdmitted()
    ensures Admits(Forked(), MergingNormal(), Merging().factChanges, Merging().loopChanges, Merging().agent)
  {
    hide Alarms.IdleState;
    ForkedHeads();
    ForkedUndecided();
    AcceptIsRight();
    hide Unresolved, AcceptAdmitted, Ancestry, Live, Forked;
    var t, n := Forked(), MergingNormal();
    assert AdoptedBy(t, "left") == {} by { ForkedTables(); }
    assert Outcomes(t, n).Keys == {Contested()};
  }

  lemma MergingApplies()
    ensures ChangesOk(Forked(), Merging())
  {
    hide Alarms.IdleState, Snapshots, FactRowOf;
  }

  /** Every working state of the scenario is one the request schema admits. */
  ghost predicate StatesValid() {
    && Merging().state.Some? && ValidWorkingState(Merging().state.value)
    && forall a :: a in Forked().snaps ==> ValidWorkingState(Forked().snaps[a].envelope.state)
  }

  lemma StatesAreValid()
    ensures StatesValid()
  {
    Alarms.IdleIsValid();
    SnapshotsAre();
    ForkedTables();
    assert Merging().state == Some(Alarms.IdleState());
    hide ValidWorkingState, Alarms.IdleState, Forked, Snapshots, Merging;
  }

  /** The reconcile is written, and the read model then shows the accepted value with its new provenance. */
  lemma AcceptHappens()
    ensures Legacy(Forked()) && StatesValid()
    ensures var t' := Step(Forked(), Merging(), Drawn(), "now").0;
      && Reconciled(Forked(), Merging(), Drawn(), "now", t', MergingNormal())
      && Unresolved(t', "merged") == {}
      && Selected(t', "merged", Fact, "fact")
      && SelectedVersion(t', "merged", Fact, "fact").value == FactVersionValue(Assertion(Ref("fact"), "new"))
  {
    hide Forked, Inv, Legacy, Step, FreshUuids, Normalize, Admits, VersionParity, NamesScope, Precheck, Selected,
         SelectedVersion, Unresolved;
    var t, p, u, n := Forked(), Merging(), Drawn(), MergingNormal();
    ForkedInv();
    StatesAreValid();
    MergingRequest();
    MergingNames();
    ForkedParity();
    MergingAdmitted();
    MergingApplies();
    ReconcileWrittenIff(t, p, u, "now", n);
    var t' := Step(t, p, u, "now").0;
    ReconcileDecides(t, p, u, "now", t', n);
    AcceptShowsDivergentValue(t, p, u, "now", t', n, Contested(), 0);
    ContestedValue();
  }

  lemma ContestedValue()
    ensures ComparableNewest(Forked().snaps, Forked().ledger, Forked().versions, Contested()) ==
      Some(ComparableFact(FactVersionValue(Assertion(Ref("fact"), "new"))))
  {
    RightIsNewest();
  }
}
