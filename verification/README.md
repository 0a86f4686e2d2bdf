# ENG-4 control plane: a verified model

A Dafny model of the ENG-4 control plane under `src/unified-server/eng4`: a branch-preserving,
compare-and-swap snapshot store with an explicit current-head pointer, causal reconciliation of
divergent branches, and a read model whose accepted values come only from the pointed head's parent
chain. Three small loop cores from elsewhere in the repository are modelled beside it: the message
hub's broadcast, the expanding nearest-neighbour window, and the response that states its own length.

`dafny verify dfyconfig.toml` checks the whole project.

## How it is built

One (tenant, scope) is fixed. The database of that scope is the value `Types.Tables`, and one
checkpoint is `Protocol.Step`, a function from tables, request, drawn UUIDs and time to tables and
outcome: the whole decision and write path is one transaction, so a step writes everything or
nothing. Two layers meet in it.

- **The code, in its own form.** `Store.ScopeStore` is the database as mutable tables, and its
  methods insert and update rows in the loops checkpoint.ts, heads.ts, reconcile.ts and versions.ts
  have. `Store.ScopeStore.PerformCheckpoint` is proved to be exactly `Step`, with rollback.
  `CheckpointDecisions`, `ReconcileWalks`, `ReconcileChecks`, `ReconcileDecisions` and
  `VersionChecks` are the read-only halves, `Selecting` is selectV3Values, and each is proved equal
  to a specification that mentions no loop. What these methods require of the tables is the invariant
  `Invariants.Inv` or a part of it, and every step keeps it.
- **Theorems about the specification.** They range over every state that satisfies `Inv`, which
  includes every state reachable from an empty scope or from well-formed legacy history, and over
  every run of checkpoints by any writers (`Runs.Run`). A few hold from any state at all, corrupt
  ones included, and say so.

| file | contents |
|---|---|
| `Options`, `JsonValues`, `Types` | optional values, JSON as abstract data, the entities and tables |
| `Tree`, `Newest`, `Divergence` | parent chains, "the newest change on a set of snapshots", divergent terminals |
| `ChangeLog`, `MergePatch`, `Heads`, `Evaluation`, `Verifiers`, `Protocol` | what one checkpoint does |
| `Invariants`, `Growth`, `Evidence`, `Runs` | the invariant, and that every step and run keeps it |
| `AppliedRows`, `Answers`, `ReconcileAnswers`, `WrittenRows` | which answer every request gets, and every field and row it leaves, from the request itself |
| `TamperEvidence` | what stored evidence that verifies leaves no room for |
| `Reconciling`, `Idempotency`, `VersionFoundation`, `Alarms`, `Progress`, `History` | theorems about the protocol |
| `Scenario` | a concrete fork and the reconcile that merges it, an instance of the theorems about accepts |
| `Selection`, `ReadModel`, `Listing`, `Linear` | theorems about the read model |
| `InPlaceFlag`, `FlagScenario` | the flag isV1CurrentValue, and a concrete scope in which it misleads |
| `Causality` | historicalAncestry, and that nothing written falls out of it |
| `ReconcileWalks`, `ReconcileChecks`, `VersionChecks`, `ReconcileDecisions`, `CheckpointDecisions`, `Store`, `Selecting` | the code in its own form |
| `Canonical`, `TextForm`, `Canonicalizing` | RFC 8785 text, its inverse parser, canonicalize, the fingerprint preimage |
| `Ordering`, `RequestText`, `RequestFields` | UTF-16 text and the sort orders, the hashed text of a typed request |
| `ResumePages`, `ChangesView` | budgeted pagination, the changes cursor |
| `Hub`, `Knn`, `TokenEstimate` | the three loop cores elsewhere |

A third group ties both to the outside: `Answers`, `ReconcileAnswers` and `WrittenRows` say in terms of
the request and the stored rows alone what every checkpoint answers and writes, `Listing` what a reader
is shown, `TextForm` and `RequestFields` what a canonical text is letter by letter, and `TamperEvidence`
that stored rows which verify are determined by the snapshots.

## What was abstracted

- A list that the source sorts and keeps free of duplicates is a set; a list sorted by a unique key
  is a map; a conflict's heads are the set of live heads. `resolutionKey` joins its parts with `|`;
  the model uses the triple, because the ids and state ids of terminals contain no `|`.
- A sha256 digest is identified with what it digests. For request fingerprints the step from the
  hashed text back to the typed request is `RequestText.FingerprintIff`. A number is identified with
  its ECMAScript text, so 0 and -0 are one number.
- UUIDs are drawn from outside, with the precondition that they are fresh (`Protocol.FreshUuids`).
  Times are opaque.
- `author` and `scopeKey` arrive resolved; Ajv's check of a working state is the predicate
  `Protocol.ValidWorkingState`.
- Deployment facts the tables enforce themselves (primary keys, foreign keys, unique revisions and
  idempotency keys) are the maps and the `TreeOk`, `KeysUnique` and `RowsOk` parts of `Inv`.

## Two properties that fail, and exactly when

**The stored-evidence verifiers never alarm on data the writer itself wrote.** Three of the four never
do (`Alarms.EvidenceNeverAlarms`). The fourth, verifyVersionParity, can. The writer tests a row id for
truth and a missing owner with `??` (src/unified-server/eng4/checkpoint.ts:208-210, 267, 279), and the
verifier tests the id against undefined and the owner for truth
(src/unified-server/eng4/versions.ts:138-143, 311). Two kinds of input tell the difference:

- an empty string as `factId`, `loopId` or `owner`, which the request schema admits
  (src/unified-server/eng4/schemas.ts:683, 700, 703);
- a null as `factId` or `loopId`, which that schema refuses but which reaches performCheckpoint through
  end_session, whose arguments are handed on without it (src/unified-neural-mcp-server.ts:3066-3082,
  src/unified-server/eng4/session.ts:73-80). `Types.RowRef` keeps a null apart from an absent id.

`VersionFoundation.ParityIff` gives the exact condition for every write: parity holds afterwards if and
only if it held before and the request carries no harmful blank (`VersionFoundation.NoBlanks`: no empty
or null id, and no empty owner on an update whose owner in effect is known and not empty).
`Alarms.ParityRunIff` says the same of every run. `Alarms.BlankBreaksParity` is a concrete first write,
with a complete working state, that breaks parity with either kind of id, and
`Alarms.NoReconcileEverAgain` shows the cost: whatever is written afterwards, no reconcile of that scope
succeeds again. Without a harmful blank no call of any run ends in an integrity failure
(`Alarms.CleanRunNeverAlarms`), and `Progress.AlarmIff` says exactly which calls do. These theorems
range over the requests the schema admits and, beyond it, over requests with null ids. A null in another
optional field counts as leaving it out: the writer and the verifiers treat the two alike, and only the
fingerprint of a request outside the schema would tell them apart. Values of other wrong types are not
modelled.

**isV1CurrentValue tells whether the in-place view shows exactly this value**
(src/unified-server/eng4/selection.ts:30-31). What the flag says is exact for every divergent value. A
fact is flagged if and only if the in-place view asserts the same, the order and repetition of references
aside (`InPlaceFlag.FactFlagIff`); who recorded it and when do not count. A loop is flagged if and only
if the two views compare equal and the stored version has no empty due time or blocker
(`InPlaceFlag.LoopFlagIff`). For loops "exactly this value" then fails in two ways:

- The comparison leaves out the time and the actor of a close (reconcile.ts:262-266, selection.ts:340),
  so a loop closed again with the same outcome by someone else is flagged although the views show
  different close events.
- The in-place view drops an empty text (resume.ts:270-271) and the version it is compared with keeps
  it, so a loop with an empty due time is not flagged although both views show the same.

`InPlaceFlag.LoopFlagRightIff` says exactly when the flag is right: always where the views do not compare
equal, and otherwise if and only if they agree on the close event just when the version has no empty
text. `FlagScenario.FlagIsWrongBothWays` is one scope, in the invariant and with versions that verify,
in which both failures are listed. For the last write of an id over all lineages only the second is
possible (`InPlaceFlag.LastWriterIsV1Current`).

## Model

| member | source | states |
|---|---|---|
| Tree.GuardIrrelevant | src/unified-server/eng4/reconcile.ts:143-155 | on a well-formed tree the walk's guard set never stops it |
| Tree.ChainUnfold | src/unified-server/eng4/reconcile.ts:157-170 | the guarded walk is plain recursion along parents up to the accepted set |
| Tree.AncestorFacts | src/unified-server/eng4/reconcile.ts:142-155 | an ancestor has a smaller revision, has a child, and its ancestors are ancestors too |
| Tree.ChainDescends | src/unified-server/eng4/reconcile.ts:157-170 | revisions strictly descend along a chain, so no snapshot repeats |
| Tree.MaxRevision | src/unified-server/eng4/checkpoint.ts:744-748 | the allocated base is attained and bounds every revision, 0 for an empty scope |
| Newest.NewestUnique | src/unified-server/eng4/selection.ts:228-236 | "newest by revision, then ordinal" names at most one change |
| Newest.NewestExists | src/unified-server/eng4/selection.ts:228-236 | and names one whenever the id was changed on the set at all |
| ReconcileWalks.LineageOf | src/unified-server/eng4/reconcile.ts:143-155 | the loop returns the lineage and terminates on any data, cyclic or dangling |
| ReconcileWalks.DivergentChain | src/unified-server/eng4/reconcile.ts:157-170 | likewise for the chain down to the accepted set |
| ReconcileWalks.SnapshotTerminals | src/unified-server/eng4/reconcile.ts:300-326 | one snapshot contributes exactly its ids not seen higher on the chain, each with its last ordinal and value |
| ReconcileWalks.ChainTerminals | src/unified-server/eng4/reconcile.ts:295-327 | the head-down first-seen walk finds exactly the newest change per id on its chain |
| ReconcileWalks.TerminalsFor | src/unified-server/eng4/reconcile.ts:268-330 | in any order of heads: exactly the specified terminals, each with its value, ordinal and every lineage that ends in it, and every chain |
| ReconcileWalks.TerminalsBelow | src/unified-server/eng4/reconcile.ts:298-313 | extending a chain downwards adds terminals only for ids not seen above |
| ReconcileChecks.ReadSnapshotChanges | src/unified-server/eng4/checkpoint.ts:339-383 | reading the ledger back succeeds exactly when it equals the digest, matches the payload's counts and is contiguous and named |
| ReconcileChecks.ReadRows | src/unified-server/eng4/checkpoint.ts:365-380 | the rows of one kind, in order, or nothing if too few, too many, not contiguous or nameless |
| ReconcileChecks.VerifyRetirementAttribution | src/unified-server/eng4/reconcile.ts:525-543 | succeeds exactly when every retirement is recorded by the reconcile it names |
| ReconcileChecks.VerifyReconcileRowsScopeWide | src/unified-server/eng4/reconcile.ts:675-700 | succeeds exactly when every reconcile payload has exactly its rows, with actor, time and reason |
| ReconcileChecks.VerifyAccept | src/unified-server/eng4/reconcile.ts:631-642 | succeeds exactly when the accept names the last change of the id and that change has the divergent value |
| ReconcileChecks.VerifyReconcileParity | src/unified-server/eng4/reconcile.ts:593-645 | succeeds exactly when payload record and rows agree in both directions |
| ReconcileChecks.VerifyResolutionRowsOnLineage | src/unified-server/eng4/reconcile.ts:709-725 | succeeds exactly when every snapshot of the lineage has, or owns no, reconcile rows as its payload says |
| VersionChecks.VerifyVersionParity | src/unified-server/eng4/versions.ts:478-577 | succeeds exactly when coverage and versions of every snapshot are what payload, ledger and backfill mark imply |
| VersionChecks.PredecessorOwner | src/unified-server/eng4/versions.ts:260-286 | the inherited owner, none across an unknowable gap |
| VersionChecks.ExpectationOf | src/unified-server/eng4/versions.ts:299-316 | the deterministic expectation for a loop change |
| TamperEvidence.SameLedger | src/unified-server/eng4/versions.ts:478-577 | two sets of tables that verify over the same snapshots have the same ledger and coverage keys |
| TamperEvidence.LedgerIs | src/unified-server/eng4/checkpoint.ts:339-383 | a ledger verifies if and only if it is the digest row by row, and as long as the payload's changes |
| TamperEvidence.NoStrayVersion | src/unified-server/eng4/versions.ts:478-577 | when parity holds, every stored version is that of a ledger row, under its name |
| TamperEvidence.NamesPinned | src/unified-server/eng4/versions.ts:125-145 | and payload and ledger agree on the row each change is about and on whether it opened it |
| TamperEvidence.SameFactVersion | src/unified-server/eng4/versions.ts:478-577 | and the same version of every fact change |
| TamperEvidence.SameLoopVersion | src/unified-server/eng4/versions.ts:478-577 | and of every loop change, but for an inherited owner |
| TamperEvidence.OwnerVerified | src/unified-server/eng4/versions.ts:299-316 | the owner a verified loop change has: given, opened with, inherited where proven, else as recorded, and none when backfilled |
| TamperEvidence.InheritedIs | src/unified-server/eng4/versions.ts:260-286 | an owner is inherited exactly from the last earlier change with a version and no unrecorded history between |
| TamperEvidence.SameRetirements | src/unified-server/eng4/reconcile.ts:525-543 | retirements and merge inputs that verify are what the payloads record |
| TamperEvidence.SameResolutions | src/unified-server/eng4/reconcile.ts:709-725 | so are the resolutions on a lineage that verifies |
| TamperEvidence.ParityPins | src/unified-server/eng4/reconcile.ts:593-645 | a reconcile with parity has exactly its rows, its adopted set and standing accepts |
| TamperEvidence.WrittenOnEvidence | src/unified-server/eng4/reconcile.ts:404-410 | from any state: a reconcile is written only when all four verifiers accept, and passes its own check |
| TamperEvidence.ReplayedOnEvidence | src/unified-server/eng4/checkpoint.ts:602-634 | from any state: a replay is answered only from a ledger and a record that verify |
| ReconcileDecisions.NormalizeReconcileRequest | src/unified-server/eng4/reconcile.ts:94-128 | refuses exactly the malformed requests, else the normal form |
| ReconcileDecisions.ResolutionMapMeaning | src/unified-server/eng4/reconcile.ts:102-114 | the normal form holds exactly the listed resolutions |
| ReconcileDecisions.NormalizeOrderless | src/unified-server/eng4/reconcile.ts:93-128 | permuting heads, resolutions or lineages leaves the normal form, hence the fingerprint, unchanged |
| ReconcileDecisions.VerifiedResolutionKeys | src/unified-server/eng4/reconcile.ts:199-207 | exactly the keys some reconcile on the lineage records |
| ReconcileDecisions.EffectiveOwner | src/unified-server/eng4/reconcile.ts:358-377 | the loop computes the owner that OwnerPrediction is about |
| ReconcileDecisions.LastOrdinalNaming | src/unified-server/eng4/reconcile.ts:380-387 | the last position naming the id, or -1 when there is none |
| ReconcileDecisions.ExplicitResolutions | src/unified-server/eng4/reconcile.ts:436-475 | admitted exactly when each hits an unresolved terminal and each accept has the divergent value |
| ReconcileDecisions.RejectLineages | src/unified-server/eng4/reconcile.ts:481-490 | adds a reject for exactly the unresolved terminals on the named chains, refusing an overlap with an explicit one |
| ReconcileDecisions.CountRemaining | src/unified-server/eng4/reconcile.ts:492-509 | refuses exactly for an opaque remainder, or any under strict; otherwise counts it per kind |
| ReconcileDecisions.EvaluateDivergence | src/unified-server/eng4/reconcile.ts:396-516 | alarms, refuses or decides exactly as specified, and decides the specified record |
| CheckpointDecisions.CheckRequest | src/unified-server/eng4/checkpoint.ts:511-548 | the guards before the transaction, in order |
| CheckpointDecisions.Replay | src/unified-server/eng4/checkpoint.ts:594-634 | mismatch, verified replay or integrity failure for a known key |
| CheckpointDecisions.AdmitDerivation | src/unified-server/eng4/checkpoint.ts:662-682 | record and patch admit only the pointed head and derive from its payload |
| CheckpointDecisions.AdmitReconciliation | src/unified-server/eng4/checkpoint.ts:683-709 | both compare-and-swap values, the survivor, then the evaluation |
| CheckpointDecisions.AdmitRequest | src/unified-server/eng4/checkpoint.ts:636-717 | compare-and-swap and admission of every operation |
| CheckpointDecisions.Decide | src/unified-server/eng4/checkpoint.ts:550-717 | idempotency before compare-and-swap before admission |
| Store.ScopeStore.constructor | src/unified-server/eng4/checkpoint.ts:492-497 | a store holds exactly the legacy tables it is opened on |
| Store.ScopeStore.ApplyFactChanges | src/unified-server/eng4/checkpoint.ts:195-245 | all changes applied in order, or none when one names an unknown id |
| Store.ScopeStore.ApplyLoopChanges | src/unified-server/eng4/checkpoint.ts:247-302 | likewise, with the owner in effect after each change |
| Store.ScopeStore.RecordSnapshotChanges | src/unified-server/eng4/checkpoint.ts:305-319 | adds exactly the ledger rows of the changes, and their digest |
| Store.ScopeStore.WriteVersionRows | src/unified-server/eng4/versions.ts:225-245 | adds exactly one materialized coverage row and one version per change |
| Store.ScopeStore.AdvancePointerAfterInsert | src/unified-server/eng4/heads.ts:211-244 | first write sets it, a child of the live pointed head moves it, anything else leaves it |
| Store.ScopeStore.WriteReconcileRows | src/unified-server/eng4/reconcile.ts:549-571 | adds exactly the merge inputs, retirements and resolutions of the record |
| Store.ScopeStore.InsertSnapshot | src/unified-server/eng4/checkpoint.ts:744-777 | the new snapshot row at the next revision, and the pointer after it |
| Store.ScopeStore.Materialize | src/unified-server/eng4/checkpoint.ts:722-805 | the tables are exactly the written tables, or a change was refused |
| Store.ScopeStore.WriteCheckpoint | src/unified-server/eng4/checkpoint.ts:719-817 | the write half with its self-check: everything, or everything rolled back |
| Store.ScopeStore.PerformCheckpoint | src/unified-server/eng4/checkpoint.ts:492-822 | the whole call is one step of the specification; it keeps the invariant; unless it wrote, nothing changed |
| MergePatch.ApplyMergePatch | src/unified-server/eng4/checkpoint.ts:125-136 | the loop agrees with section 2 of RFC 7396, and fails exactly on a reachable prototype key |
| MergePatch.MergeIdempotent | src/unified-server/eng4/checkpoint.ts:119-136 | applying the same patch again changes nothing |
| MergePatch.MergeIs | src/unified-server/eng4/checkpoint.ts:125-136 | name by name: left alone, removed by null, merged into an object, else replaced |
| MergePatch.PatchReaches | src/unified-server/eng4/checkpoint.ts:119-136 | any object of plain values is reached from any other by one patch |
| MergePatch.AdmissibleIff | src/unified-server/eng4/checkpoint.ts:125-136 | a patch is refused if and only if it carries __proto__, constructor or prototype at any depth |
| ChangeLog.FactsAppliedRows | src/unified-server/eng4/checkpoint.ts:195-245 | afterwards each row holds the last change that names it, and no other row changed |
| ChangeLog.LoopsAppliedRows | src/unified-server/eng4/checkpoint.ts:247-302 | likewise for loops, with the recorded owners |
| ChangeLog.OpenedOnce | src/unified-server/eng4/checkpoint.ts:274-282 | updates never touch the time a loop was opened |
| ChangeLog.OwnerPrediction | src/unified-server/eng4/reconcile.ts:351-377 | for every change list and ordinal, the owner predicted before any write is the one recorded |
| AppliedRows.LoopsApplyIff | src/unified-server/eng4/checkpoint.ts:247-302 | loop changes apply if and only if each names a row there is or none, and whatever is closed says how |
| AppliedRows.FactsApplyIff | src/unified-server/eng4/checkpoint.ts:195-245 | fact changes apply if and only if each names a row there is or none |
| AppliedRows.ComparingIff | src/unified-server/eng4/reconcile.ts:258-266 | two versions compare equal if and only if all they store agrees but a loop's close time and actor |
| Answers.WrittenAnswer | src/unified-server/eng4/checkpoint.ts:719-817 | from any state: what was written is the request, with the state sent, the parent's or the patched one, and the answer says what was stored |
| Answers.WriteAnswered | src/unified-server/eng4/checkpoint.ts:511-817 | the one answer of every plain write under a new key: which failure, a conflict with exactly the live heads and the pointer, or written |
| Answers.WriteWrittenIff | src/unified-server/eng4/checkpoint.ts:636-717 | a plain write is written if and only if it has a state, names a revision there is (or none in an empty scope), acknowledges a retired parent and its changes apply |
| Answers.DerivedAnswered | src/unified-server/eng4/checkpoint.ts:662-682 | the one answer of every record and patch under a new key |
| Answers.NormalizeIff | src/unified-server/eng4/reconcile.ts:94-128 | exactly the well-asked reconcile requests have a normal form, and it says what was asked |
| Answers.CurrentHeadIs | src/unified-server/eng4/heads.ts:163-186 | the current head is the pointed snapshot if live, else invalid; without a pointer the live head of greatest revision |
| Answers.ValidStateIff | src/unified-server/eng4/schemas.ts:121-133 | a state is valid if and only if it is three texts and three lists of texts under their six names |
| ReconcileAnswers.UndecidedIff | src/unified-server/eng4/reconcile.ts:237-330 | undecided are exactly the ends of divergent chains that no reconcile on the accepted lineage has decided |
| ReconcileAnswers.DecidesIff | src/unified-server/eng4/reconcile.ts:396-516 | a reconcile is admitted if and only if every decision, rejected lineage and remainder is as demanded |
| ReconcileAnswers.MalformedRefused | src/unified-server/eng4/checkpoint.ts:536-548 | no state or no normal form: refused before the scope is looked at |
| ReconcileAnswers.ReconcileAnswered | src/unified-server/eng4/checkpoint.ts:683-709 | the one answer of every well-formed reconcile under a new key |
| ReconcileAnswers.ReconciledAnswer | src/unified-server/eng4/checkpoint.ts:799-803 | the answer names the survivor, the new head, exactly who was retired and who adopted, the stored decisions and the undecided counts |
| ReconcileAnswers.ReconciledRecord | src/unified-server/eng4/checkpoint.ts:693-709 | the stored record says what was asked, whom it retires and adopts, and what it decides |
| WrittenRows.DigestIs | src/unified-server/eng4/checkpoint.ts:305-319 | the digest names, per change, the row it wrote and whether it opened it |
| WrittenRows.FactsWritten | src/unified-server/eng4/checkpoint.ts:195-245 | each fact row says, field by field, what the last change of it says |
| WrittenRows.LoopsUpdated | src/unified-server/eng4/checkpoint.ts:267-282 | an updated loop keeps its opening, counts its changes, takes the last owner given and says what the last change says, close event included |
| WrittenRows.LoopsOpened | src/unified-server/eng4/checkpoint.ts:283-298 | an opened loop says what its change says, by its owner or the author, counted from 0 |
| WrittenRows.NoOtherLoops | src/unified-server/eng4/checkpoint.ts:283-298 | no loop appears but under a drawn UUID |
| WrittenRows.LedgerWritten | src/unified-server/eng4/versions.ts:225-245 | one ledger row and one materialized coverage row per change, and no other row touched |
| WrittenRows.FactVersionWritten | src/unified-server/eng4/versions.ts:195-209 | the version of a fact change holds every field of it, its author and time |
| WrittenRows.LoopVersionWritten | src/unified-server/eng4/versions.ts:210-222 | the version of a loop change holds every field of it, the owner in effect, and who closed it when and how |
| WrittenRows.VersionsWritten | src/unified-server/eng4/versions.ts:225-245 | the new snapshot has exactly the versions of its changes, and no other is touched |
| WrittenRows.PointerWritten | src/unified-server/eng4/heads.ts:188-244 | where the pointer is afterwards, since when, by whom and why |
| WrittenRows.RetirementsWritten | src/unified-server/eng4/reconcile.ts:549-571 | exactly the other live heads are retired and merged, by this reconcile, now, by this author, for this reason |
| Growth.RowsOkKept | src/unified-server/eng4/checkpoint.ts:779-789 | ledger, coverage, versions and in-place rows stay consistent |
| Growth.InPlaceKept | src/unified-server/eng4/checkpoint.ts:195-302 | the in-place tables hold the newest change over all lineages, wherever it is known |
| Runs.StepInv | src/unified-server/eng4/checkpoint.ts:492-822 | every checkpoint keeps the invariant, whatever its outcome |
| Runs.RunInv | src/unified-server/eng4/checkpoint.ts:492-822 | so does every run by any writers |
| Runs.ReachableInv | src/unified-server/eng4/checkpoint.ts:492-822 | every reachable state has unique revisions and keys, ordered parents, a live pointer and exact evidence |
| Runs.PointerKept | src/unified-server/eng4/heads.ts:188-244 | the pointer designates a live head after every write |
| Runs.ReconcilesKept | src/unified-server/eng4/reconcile.ts:593-645 | every earlier reconcile still has parity after any further write |
| Evidence.ParityKept | src/unified-server/eng4/reconcile.ts:609-645 | one earlier reconcile keeps parity, its adopted set included |
| Evidence.AdoptedUnchanged | src/unified-server/eng4/reconcile.ts:610-612 | no snapshot on a survivor's chain can be retired later, so the adopted set stays exact |
| Evidence.RetiredOffLineage | src/unified-server/eng4/reconcile.ts:415-419 | a live head other than the accepted one is not on its lineage |
| Evidence.OwnParityHolds | src/unified-server/eng4/checkpoint.ts:795-799 | an admitted reconcile always passes its own parity check |
| Reconciling.OneLiveHead | src/unified-server/eng4/checkpoint.ts:683-709 | from any state, even a corrupt one: right after a reconcile the new snapshot is the only live head and the pointed one |
| Reconciling.ReconcileDecides | src/unified-server/eng4/reconcile.ts:396-516 | nothing opaque is left undecided, what is left numbers exactly unresolvedDivergent, and nothing under strict |
| Reconciling.UnresolvedExtends | src/unified-server/eng4/reconcile.ts:237-256 | extending the accepted head removes exactly what the new snapshot resolves |
| Reconciling.AcceptedValueIsDivergent | src/unified-server/eng4/reconcile.ts:445-474 | after an accept the newest change on the accepted lineage is the named one, with the divergent value |
| Reconciling.AdvanceKeepsUndecided | src/unified-server/eng4/checkpoint.ts:764-777 | a write on the pointed head moves the pointer there and changes no undecided terminal |
| History.UndecidedStays | src/unified-server/eng4/checkpoint.ts:764-777 | over any run of such writes: after a strict reconcile the undecided count stays zero |
| Idempotency.RunKeeps | src/unified-server/eng4/checkpoint.ts:6-22 | over any run snapshots never change or vanish, and retirements never change |
| Idempotency.WrittenReplays | src/unified-server/eng4/checkpoint.ts:583-634 | after any run the identical request replays the written result and changes nothing |
| VersionFoundation.InheritedAtNew | src/unified-server/eng4/versions.ts:260-286 | the owner the verifier inherits for a new change is the one request and tables pin down |
| VersionFoundation.OlderSnapshotsJudgedAlike | src/unified-server/eng4/versions.ts:478-577 | a write changes the verdict on no older snapshot |
| VersionFoundation.ParityIff | src/unified-server/eng4/versions.ts:478-577 | after a write parity holds if and only if it held and the request has no harmful blank, null ids included |
| Progress.ReconcileWrittenIff | src/unified-server/eng4/checkpoint.ts:683-709 | a reconcile is written if and only if it names heads, pointer and survivor as they are, versions verify, the terminals are decided as demanded, and its changes name rows there are and say how they close; the self-check never stops it |
| Progress.AlarmIff | src/unified-server/eng4/reconcile.ts:404-410 | a call ends in an integrity failure if and only if it is a new reconcile that names the scope as it is while version parity is broken |
| Progress.RejectingAllDecidesAll | src/unified-server/eng4/reconcile.ts:481-509 | rejecting every divergent lineage is always admitted, decides every undecided terminal and leaves none |
| Progress.RejectingAllIsWritten | src/unified-server/eng4/checkpoint.ts:683-709 | that reconcile is written whenever it names the scope, versions verify and its changes apply |
| Progress.AlwaysMergeable | src/unified-server/eng4/reconcile.ts:396-516 | every scope in parity can be merged onto any live head: some valid request is written, leaves one live and pointed head and nothing to decide |
| Scenario.AcceptHappens | src/unified-server/eng4/reconcile.ts:445-474 | a concrete fork, all working states valid, whose divergent fact is accepted: the reconcile is written, nothing stays undecided, the read model shows the value |
| Alarms.EvidenceNeverAlarms | src/unified-server/eng4/reconcile.ts:525-543 | attribution, scope-wide rows, lineage rows and reconcile parity hold in every state of the invariant |
| Alarms.OnlyParityAlarms | src/unified-server/eng4/reconcile.ts:404-410 | an integrity failure means a reconcile met broken version parity, nothing else |
| Alarms.BrokenStaysBroken | src/unified-server/eng4/versions.ts:130-145 | broken parity survives every step, and a reconcile is then never written |
| Alarms.NoReconcileEverAgain | src/unified-server/eng4/versions.ts:130-145 | nor anywhere in any run |
| Alarms.ParityRunIff | src/unified-server/eng4/versions.ts:478-577 | parity holds after any run if and only if it held before and no written call carried a harmful blank |
| Alarms.CleanRunNeverAlarms | src/unified-server/eng4/versions.ts:478-577 | then no call of the run ends in an integrity failure |
| Alarms.BlankBreaksParity | src/unified-server/eng4/versions.ts:137-140 | a first write with a valid working state and an empty or null factId is written and breaks parity |
| History.SomeHeadLives | src/unified-server/eng4/heads.ts:54-79 | a scope with history has a live head |
| History.NewestIsLive | src/unified-server/eng4/heads.ts:54-79 | its newest snapshot is one |
| History.DesignationValid | src/unified-server/eng4/heads.ts:172-186 | invalid-designation is unreachable, and a conflict lists exactly the live heads, at least one |
| History.RetiredForGood | src/unified-server/eng4/reconcile.ts:549-565 | a retired head is never live again and keeps its one retirement |
| History.LineageOnlyGrows | src/unified-server/eng4/heads.ts:188-244 | without reconcile the old accepted lineage stays a suffix of the new one |
| History.DeadPointerStays | src/unified-server/eng4/heads.ts:200-238 | from any state: no write, record or patch moves a pointer that is not live |
| History.DeadPointerNeverRepairsItself | src/unified-server/eng4/heads.ts:200-238 | nor does any run of them |
| History.DerivedRunFolds | src/unified-server/eng4/checkpoint.ts:662-682 | over written records and patches the head's state is the left fold of the patches, and each step advances the pointer |
| Selection.ReplayIsNewest | src/unified-server/eng4/selection.ts:210-236 | the accepted change of every id is what a left fold from root to head ends with |
| Selecting.NewestOnLineage | src/unified-server/eng4/selection.ts:228-236 | the map holds the newest change per id whatever order the rows come in |
| Selecting.NewestIsAccepted | src/unified-server/eng4/selection.ts:210-236 | and that is the accepted change of the specification |
| Selecting.CollectAccepted | src/unified-server/eng4/selection.ts:238-293 | accepted facts and loops, superseded facts dropped, unversioned ids suppressed |
| Selecting.DivergentTerminalsFor | src/unified-server/eng4/reconcile.ts:237-256 | every divergent terminal of the head with its lineages, and exactly the resolution keys recorded on its own lineage |
| Selecting.SelectV3Values | src/unified-server/eng4/selection.ts:190-349 | the whole read model in its listed order, which `Listing` spells out; an undesignated scope accepts nothing |
| Listing.ListedInOrder | src/unified-server/eng4/selection.ts:285-286 | facts and loops are listed newest first and then by id, divergent values facts first, then by id and snapshot, each once |
| Listing.FactsListed | src/unified-server/eng4/selection.ts:247-261 | a fact is listed if and only if its lineage ends with a version that is not superseded, with the fields of that version |
| Listing.LoopsListed | src/unified-server/eng4/selection.ts:262-283 | a loop is listed if and only if its lineage ends with a version, with its fields and the row's opening |
| Listing.SuppressedListed | src/unified-server/eng4/selection.ts:288-293 | suppressed are exactly the rows no version ends the lineage for |
| Listing.UndesignatedListed | src/unified-server/eng4/selection.ts:202-208 | without an accepted head every row is suppressed and nothing is accepted or divergent |
| Listing.AcceptedHeadIs | src/unified-server/eng4/heads.ts:172-186 | accepted is the pointed snapshot, as long as it is live |
| Listing.DivergentIs | src/unified-server/eng4/selection.ts:295-344 | listed are exactly the ends of divergent chains, with stored version, provenance and whether decided; opaque undecided ones are counted |
| Listing.LineageHeadIs | src/unified-server/eng4/selection.ts:319 | lineageHead is the first, by code units, of the divergent lineages that end in the value |
| ReadModel.RowsPartitioned | src/unified-server/eng4/selection.ts:288-293 | suppressed are exactly the facts no change of the lineage names and the loops none names or whose last change there has no version; whatever is selected has an in-place row |
| ReadModel.ListedIsDemanded | src/unified-server/eng4/reconcile.ts:228-236 | what a strict reconcile decides is exactly what the read model lists as divergent and not resolved |
| InPlaceFlag.FactFlagIff | src/unified-server/eng4/selection.ts:321-333 | a divergent fact is flagged if and only if the in-place view asserts what the listed value asserts |
| InPlaceFlag.LoopFlagIff | src/unified-server/eng4/selection.ts:334-343 | a divergent loop is flagged if and only if both views compare equal and the version has no empty text; an opaque one never is |
| InPlaceFlag.LoopFlagRightIff | src/unified-server/eng4/selection.ts:26-34 | the flag on a loop is right unless the views compare equal, and then if and only if they agree on the close event just when no text is empty |
| InPlaceFlag.LastWriterIsV1Current | src/unified-server/eng4/selection.ts:316-344 | the last writer over all lineages is flagged: a fact always, a loop if and only if its due time and blocker are not empty texts |
| FlagScenario.FlagIsWrongBothWays | src/unified-server/eng4/selection.ts:338-341 | one scope lists a flagged loop whose close event the in-place view does not show, and an unflagged one that it shows exactly |
| Causality.HistoricalAncestry | src/unified-server/eng4/selection.ts:155-171 | the worklist returns the least set that contains the head and is closed under parents and merge inputs |
| Causality.NothingIsLost | src/unified-server/eng4/selection.ts:155-171 | every snapshot is in the causal history of some live head |
| Causality.OneHeadHistory | src/unified-server/eng4/selection.ts:155-171 | while one head lives, the whole scope is its causal history |
| Causality.ReconcileRemembersAll | src/unified-server/eng4/reconcile.ts:549-571 | after any successful reconcile no snapshot is outside the causal history of its head |
| Causality.LineageRemembered | src/unified-server/eng4/selection.ts:173-176 | the accepted lineage is part of the causal history |
| Causality.HistoryForGood | src/unified-server/eng4/selection.ts:155-171 | no run of checkpoints changes the causal history of a snapshot |
| ReadModel.BranchInvisible | src/unified-server/eng4/selection.ts:190-284 | a write below another snapshot changes no accepted fact, no accepted loop but its update counter, nor the pointed head |
| ReadModel.AcceptShowsDivergentValue | src/unified-server/eng4/selection.ts:228-284 | after an accept the read model selects the named change, with the divergent terminal's comparable value |
| Linear.LinearRefinement | src/unified-server/eng4/selection.ts:245-293 | when the lineage is the whole scope, the read model agrees with the in-place view and nothing is suppressed or divergent |
| Linear.LinearRun | src/unified-server/eng4/heads.ts:188-244 | extending the then-current head keeps the scope one lineage |
| Linear.LinearHistoriesAgree | src/unified-server/eng4/resume.ts:255-274 | hence from an empty scope, after any such run, both views agree |
| TextForm.BelowIff | src/unified-server/eng4/canonical.ts:82 | the order of names is by the smaller code unit where they first differ, a prefix first |
| TextForm.SortedByCodeUnits | src/unified-server/eng4/canonical.ts:82 | the names of an object come in that order, each once |
| TextForm.EscapeIs | src/unified-server/eng4/canonical.ts:56 | seven short escapes, lower-case hexadecimal for other controls, everything else as it is |
| TextForm.TextOfPair | src/unified-server/eng4/canonical.ts:80-91 | one object with two properties, as a literal |
| TextForm.TextOfList | src/unified-server/eng4/canonical.ts:47-79 | one list of a null, both booleans, a number and an escaped text, as a literal |
| TextForm.WellFormedIff | src/unified-server/eng4/canonical.ts:32-45 | a text is accepted if and only if it is the UTF-16 of a string of Unicode scalar values |
| TextForm.AcceptedIff | src/unified-server/eng4/canonical.ts:47-93 | a value is accepted if and only if nothing inside it is undefined, a function, a symbol, a hole, not finite or ill-formed text |
| TextForm.MeaningIs | src/unified-server/eng4/canonical.ts:47-93 | what the text says of each kind of value: itself, items in order, properties under their names |
| Canonical.ReadEscaped | src/unified-server/eng4/canonical.ts:56 | an escaped string reads back as itself, whatever follows |
| Canonical.RoundTrip | src/unified-server/eng4/canonical.ts:47-93 | the inverse parser reads any value back from its text, whatever follows |
| Canonical.WriteInjective | src/unified-server/eng4/canonical.ts:47-93 | equal texts if and only if equal values |
| Canonicalizing.AssertWellFormed | src/unified-server/eng4/canonical.ts:32-45 | the index loop accepts exactly the strings whose surrogates come in pairs |
| Canonicalizing.Canonicalize | src/unified-server/eng4/canonical.ts:47-93 | fails exactly on data without an I-JSON form, else the canonical text of the value |
| Canonicalizing.CanonicalizeArray | src/unified-server/eng4/canonical.ts:62-79 | in index order, refusing holes and undefined |
| Canonicalizing.CanonicalizeObject | src/unified-server/eng4/canonical.ts:80-91 | in sorted order, refusing undefined and malformed names |
| Canonicalizing.CanonicalIffSame | src/unified-server/eng4/canonical.ts:14-16 | two accepted values share a canonical text if and only if they are the same value |
| Canonicalizing.OrderIsIrrelevant | src/unified-server/eng4/canonical.ts:82 | insertion order at any depth affects neither acceptance nor text |
| Canonicalizing.PreimageIff | src/unified-server/eng4/canonical.ts:143-212 | two fingerprint preimages are equal if and only if all their components are |
| Ordering.SortedUnique | src/unified-server/eng4/selection.ts:285-286 | a strict order has only one ascending listing, so the sorted lists are the specified ones however they are sorted |
| Ordering.Utf16Injective | src/unified-server/eng4/canonical.ts:82 | texts with the same code units are the same text |
| RequestText.NormalDetermines | src/unified-server/eng4/reconcile.ts:118-127 | the sorted lists of a normal form determine its sets and resolutions |
| RequestText.FingerprintIff | src/unified-server/eng4/checkpoint.ts:561-572 | two requests have the same hashed text if and only if author, position, parent, version, operation and every field of the content agree |
| RequestText.FingerprintIsIntent | src/unified-server/eng4/canonical.ts:143-212 | two requests share a fingerprint if and only if author, position, parent, version, operation and all that operation reads agree |
| RequestFields.PreimageIs | src/unified-server/eng4/canonical.ts:188-212 | the hashed text property by property: under which name each part of a request is written and when it is left out |
| RequestFields.FactFields | src/unified-server/eng4/schemas.ts:677-694 | a fact change as its JSON object, property by property |
| RequestFields.LoopFields | src/unified-server/eng4/schemas.ts:695-710 | a loop change as its JSON object |
| RequestFields.NormalFields | src/unified-server/eng4/reconcile.ts:118-127 | a normal form as its JSON object, its heads, lineages and resolutions in ascending order |
| RequestFields.NumberIs | src/unified-server/eng4/canonical.ts:57-61 | a number is its decimal digits without leading zeros |
| RequestText.KnownKeyAnswered | src/unified-server/eng4/checkpoint.ts:594-634 | under a known key: a mismatch with both fingerprints, or a replay that says what is stored, reconcile block included |
| RequestText.RetryIff | src/unified-server/eng4/checkpoint.ts:583-634 | after any run, a request under a known key is a replay if its text is the one hashed then and a mismatch if not, and changes nothing |
| ResumePages.TakeWithinBudget | src/unified-server/eng4/resume.ts:477-489 | takes a prefix within budget and stops only at an item that does not fit |
| ResumePages.DeliverSection | src/unified-server/eng4/resume.ts:475-507 | a stretch of the section; complete if and only if it is all of it with nothing hidden, else the one reason why; a cursor exactly when cut |
| ResumePages.AssemblePage | src/unified-server/eng4/resume.ts:438-508 | within budget; one cursor; every coverage entry closed; each section delivers exactly up to where the next page starts |
| ResumePages.TotalIsCost | src/unified-server/eng4/resume.ts:474-489 | a page's total is what its items cost together |
| ResumePages.PageContinues | src/unified-server/eng4/resume.ts:442-445 | the only cursor a page's coverage carries is where the next page starts |
| ResumePages.EverythingOnce | src/unified-server/eng4/resume.ts:438-508 | following the cursors to the end delivers each requested section's items exactly once, in order |
| ResumePages.FollowingEnds | src/unified-server/eng4/resume.ts:480-489 | when every item fits, there are at most as many continuations as items |
| ResumePages.EndsOnlyIfAllFit | src/unified-server/eng4/resume.ts:480-489 | and the end is reached only then |
| ResumePages.StuckForEver | src/unified-server/eng4/resume.ts:480-507 | an item that does not fit yields an empty page with the same cursor again |
| ChangesView.PageIsExact | src/unified-server/eng4/resource.ts:203-238 | one page is ascending and gapless, and without a cursor it is everything |
| ChangesView.PageCounts | src/unified-server/eng4/resource.ts:234-236 | a page lists as many as it may, and hands out a cursor if and only if more lie beyond it |
| ChangesView.PagesAreExact | src/unified-server/eng4/resource.ts:203-238 | pages with any checkpoints in between concatenate without gap or repeat; a null cursor missed nothing |
| ChangesView.RunGrew | src/unified-server/eng4/checkpoint.ts:744-762 | over any run new revisions are above all old ones and old snapshots stay |
| Hub.MessageHub.constructor | src/message-hub/websocket-server.ts:163-185 | a new hub has no clients and is valid |
| Hub.MessageHub.BroadcastEvent | src/message-hub/websocket-server.ts:466-503 | terminates; announces each removed client once; leaves only active clients; in a stable world reaches exactly its audience |
| Hub.MessageHub.HandleClientDisconnect | src/message-hub/websocket-server.ts:445-460 | the client is gone, and every removal on the way is announced exactly once |
| Hub.MessageHub.HandleClientRegistration | src/message-hub/websocket-server.ts:328-385 | only the authenticated identity is registered, subscribed to itself |
| Hub.MessageHub.HandleSubscription | src/message-hub/websocket-server.ts:387-411 | subscribes to nobody but oneself |
| Hub.MessageHub.HandleUnsubscription | src/message-hub/websocket-server.ts:413-427 | removes the named subscription and nothing else |
| Hub.MessageHub.HandleHeartbeat | src/message-hub/websocket-server.ts:429-443 | moves the client's time, or disconnects it when its credential is gone |
| Hub.MessageHub.VisitClient | src/message-hub/websocket-server.ts:478-495 | one visited client: removed, skipped or sent to |
| Hub.RemovalTwice | src/message-hub/websocket-server.ts:445-460 | removals of nested broadcasts compose without repeating a client |
| Hub.NotifiedIff | src/message-hub/websocket-server.ts:505-528 | nobody of another tenant, and within the tenant by the kind of event |
| Hub.StableIff | src/message-hub/websocket-server.ts:478-495 | a stable world answers every question about a client as it did the first time |
| Hub.FaultyIff | src/message-hub/websocket-server.ts:478-495 | a client is removed exactly when its credential is gone, or its open socket does not take what is sent |
| Hub.AudienceIff | src/message-hub/websocket-server.ts:478-495 | in a stable world the audience is who is registered, interested, active, open and takes what is sent |
| Hub.AnnouncedAs | src/message-hub/websocket-server.ts:445-460 | each removed client is announced as its agent going offline, to its tenant, in order |
| Hub.TenantIs | src/message-hub/websocket-server.ts:468-473 | a tenant identity has 1 to 128 letters, digits and four signs |
| Knn.SearchTenantComplete | src/memory/sqlite-vec-client.ts:468-533 | without flags the true nearest rows; with flags a prefix of them; a missing vector is reported only if one is missing; the dead exits are dead |
| Knn.WindowIsPrefix | src/memory/sqlite-vec-client.ts:425-460 | a filtered window is always a prefix of "filter first, then take the nearest" |
| Knn.FilteredCounted | src/memory/sqlite-vec-client.ts:425-460 | filtered rows are exactly the wanted ones, once each |
| Knn.NearestIs | src/memory/sqlite-vec-client.ts:425-460 | only asked-for rows, nearest first, and one is left out only when the limit is full of nearer ones |
| Knn.ReturnedAsAsked | src/memory/sqlite-vec-client.ts:438-452 | every returned row is of the tenant, the agent and the type asked for |
| Knn.CountedIs | src/memory/sqlite-vec-client.ts:468-533 | the rows the flags count are the asked-for rows of the index |
| TokenEstimate.SerializeWithTokenEstimate | src/unified-neural-mcp-server.ts:4996-5021 | the text is as long as it says, the estimate is a quarter rounded up, within five passes for every payload |
| TokenEstimate.WidthGrowsOnceEach | src/unified-neural-mcp-server.ts:5008-5018 | after the first correction each digit count grows at most once |
| TokenEstimate.DecimalSpells | src/unified-neural-mcp-server.ts:5008-5018 | the stated numbers are decimal digits that spell them |

## Left out

- Store.ScopeStore.PerformCheckpoint: takes request text as valid; canonicalEnvelopeBytes rejecting a lone surrogate before the transaction is modelled only in `Canonicalizing`.
- RequestText.InputOf: writes a revision or an ordinal in decimal digits, which is its ECMAScript text below 10^21; strings with lone surrogates have no counterpart in typed requests.
- Selecting.SelectV3Values: the order of legacyValues, which is that of the in-place query, is left out.
- Protocol.Step: on tables outside the invariant it does not model the integrity failures of terminalsFor for a ledger row without coverage or version; the theorems from any state speak of written steps, which those failures only make fewer.
- Hub.MessageHub.BroadcastEvent: visits clients in any order rather than in insertion order; credentials, sockets and sends are answers from outside.
- Hub.MessageHub.HandleClientRegistration: takes the authenticated tenant to be one exact tenant identity, as the handshake's tenants are.
- Knn.SearchTenantComplete: distances are a ranking of the stored vectors, and a vector belongs to at most one index row.
- ResumePages.AssemblePage: item lists and costs are given; sourcing of messages, handoffs, capsules, definitions and decisions is not part of this model.
- SQLite, SQL text, triggers and DDL; sha256, UTF-8 and base64url; clocks and UUID generation.
- Payload corruption and the per-call memo: the verifiers are modelled as checks of the stored tables, and proved to raise no false alarm but the one above.
- Scope resolution, credentials, tenant quotas and policy: decision tables that would add easy members.
- The schema-apply backfill and migrations: a backfilled scope is one of the legacy states.
- WebSocket transport and lifecycle, the heartbeat sweep, express server, dashboards, search scoring, embeddings, SLO metrics.
