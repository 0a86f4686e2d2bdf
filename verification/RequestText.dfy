/**
 The text that is hashed into a request fingerprint, from the typed request: every field as the JSON
 property of its name, an absent one left out, sets and resolutions as the sorted lists of the normal
 form. Two requests have the same text exactly when the protocol's fingerprints agree.
 */
module RequestText {
  import opened Options
  import opened JsonValues
  import opened Ordering
  import opened Types
  import opened ChangeLog
  import opened Evaluation
  import opened Protocol
  import opened Tree
  import opened Verifiers
  import opened Invariants
  import opened Runs
  import opened Reconciling
  import opened Idempotency
  import C = Canonicalizing

  // ----- Scalars

  function TextJson(s: string): Json {
    Str(Utf16(s))
  }

  lemma TextDetermines(a: string, b: string)
    requires TextJson(a) == TextJson(b)
    ensures a == b
  {
    Utf16Injective(a, b);
  }

  /** An optional text is a property only when it is there. */
  function OptionalText(a: Option<string>): Option<Json> {
    if a.Some? then Some(TextJson(a.value)) else None
  }

  lemma OptionalTextDetermines(a: Option<string>, b: Option<string>)
    requires OptionalText(a) == OptionalText(b)
    ensures a == b
  {
    if a.Some? && b.Some? {
      TextDetermines(a.value, b.value);
    }
  }

  function OptionalUtf16(a: Option<string>): Option<Text> {
    if a.Some? then Some(Utf16(a.value)) else None
  }

  lemma OptionalUtf16Determines(a: Option<string>, b: Option<string>)
    requires OptionalUtf16(a) == OptionalUtf16(b)
    ensures a == b
  {
    if a.Some? && b.Some? {
      Utf16Injective(a.value, b.value);
    }
  }

  /** No id is no property, and a null id is a null. */
  function RefJson(r: RowRef): Option<Json> {
    match r
    case NoRef => None
    case NullRef => Some(Null)
    case Ref(id) => Some(TextJson(id))
  }

  lemma RefDetermines(a: RowRef, b: RowRef)
    requires RefJson(a) == RefJson(b)
    ensures a == b
  {
    if a.Ref? && b.Ref? {
      TextDetermines(a.id, b.id);
    }
  }

  /** Decimal digits, as a number below 10^21 is written. */
  function Digits(n: nat): (t: Text)
    ensures |t| > 0 && forall i :: 0 <= i < |t| ==> 48 <= t[i] <= 57
  {
    if n < 10 then [(48 + n) as CodeUnit] else Digits(n / 10) + [(48 + n % 10) as CodeUnit]
  }

  lemma {:induction false} DigitsDetermine(m: nat, n: nat)
    requires Digits(m) == Digits(n)
    ensures m == n
  {
    var s, t := Digits(m), Digits(n);
    assert (m >= 10 ==> |s| > 1) && (n >= 10 ==> |t| > 1);
    if m >= 10 && n >= 10 {
      assert Digits(m / 10) == s[..|s| - 1] == t[..|t| - 1] == Digits(n / 10);
      DigitsDetermine(m / 10, n / 10);
      assert s[|s| - 1] == t[|t| - 1];
    } else if m < 10 && n < 10 {
      assert s[0] == t[0];
    }
  }

  function IntText(n: int): NumberText {
    if n >= 0 then Digits(n) else [45] + Digits(-n)
  }

  lemma IntDetermines(m: int, n: int)
    requires IntText(m) == IntText(n)
    ensures m == n
  {
    assert m < 0 ==> IntText(m)[0] == 45 && IntText(m)[1..] == Digits(-m);
    assert n < 0 ==> IntText(n)[0] == 45 && IntText(n)[1..] == Digits(-n);
    if m < 0 && n < 0 {
      DigitsDetermine(-m, -n);
    } else if m >= 0 && n >= 0 {
      DigitsDetermine(m, n);
    }
  }

  // ----- Lists

  function Texts(xs: seq<string>): Json {
    Arr(seq(|xs|, i requires 0 <= i < |xs| => TextJson(xs[i])))
  }

  lemma TextsDetermine(a: seq<string>, b: seq<string>)
    requires Texts(a) == Texts(b)
    ensures a == b
  {
    assert |a| == |Texts(a).items| == |b|;
    forall i | 0 <= i < |a| ensures a[i] == b[i] {
      assert Texts(a).items[i] == Texts(b).items[i];
      TextDetermines(a[i], b[i]);
    }
  }

  function OptionalTexts(a: Option<seq<string>>): Option<Json> {
    if a.Some? then Some(Texts(a.value)) else None
  }

  lemma OptionalTextsDetermine(a: Option<seq<string>>, b: Option<seq<string>>)
    requires OptionalTexts(a) == OptionalTexts(b)
    ensures a == b
  {
    if a.Some? && b.Some? {
      TextsDetermine(a.value, b.value);
    }
  }

  lemma SortedNamesDetermine(a: set<string>, b: set<string>)
    requires Texts(SortNames(a)) == Texts(SortNames(b))
    ensures a == b
  {
    TextsDetermine(SortNames(a), SortNames(b));
    assert forall x :: x in a <==> x in SortNames(a);
    assert forall x :: x in b <==> x in SortNames(b);
  }

  // ----- Events and changes

  function EventNames(): seq<Text> { [Units("kind"), Units("summary"), Units("at")] }

  function EventJson(e: Event): Json {
    C.Record(EventNames(), [Some(TextJson(e.kind)), Some(TextJson(e.summary)), OptionalText(e.at)])
  }

  lemma EventDetermines(a: Event, b: Event)
    requires EventJson(a) == EventJson(b)
    ensures a == b
  {
    var x := [Some(TextJson(a.kind)), Some(TextJson(a.summary)), OptionalText(a.at)];
    var y := [Some(TextJson(b.kind)), Some(TextJson(b.summary)), OptionalText(b.at)];
    ChangeNamesDistinct();
    hide C.Record, EventNames, TextJson, OptionalText;
    C.RecordDetermines(EventNames(), x, y);
    assert x[0] == y[0] && x[1] == y[1] && x[2] == y[2];
    TextDetermines(a.kind, b.kind);
    TextDetermines(a.summary, b.summary);
    OptionalTextDetermines(a.at, b.at);
  }

  function StatusText(s: FactStatus): string {
    match s
    case Asserted => "asserted"
    case Verified => "verified"
    case Disputed => "disputed"
    case Superseded => "superseded"
  }

  lemma StatusDetermines(a: FactStatus, b: FactStatus)
    requires StatusText(a) == StatusText(b)
    ensures a == b
  {
    assert StatusText(a)[0] == StatusText(b)[0];
  }

  function AssertionNames(): seq<Text> { [Units("subject"), Units("predicate"), Units("object")] }

  function AssertionValues(c: FactChange): seq<Option<Json>> {
    [Some(TextJson(c.subject)), Some(TextJson(c.predicate_)), Some(TextJson(c.object_))]
  }

  function FactNames(): seq<Text> {
    [Units("factId"), Units("assertion"), Units("status"), Units("evidenceRefs"), Units("sourceRefs"),
     Units("effectiveAt"), Units("contradicts")]
  }

  function FactValues(c: FactChange): seq<Option<Json>> {
    [RefJson(c.factRef), Some(C.Record(AssertionNames(), AssertionValues(c))), Some(TextJson(StatusText(c.status))),
     Some(Texts(c.evidenceRefs)), Some(Texts(c.sourceRefs)), OptionalText(c.effectiveAt), OptionalTexts(c.contradicts)]
  }

  function FactJson(c: FactChange): Json {
    C.Record(FactNames(), FactValues(c))
  }

  lemma FactDetermines(a: FactChange, b: FactChange)
    requires FactJson(a) == FactJson(b)
    ensures a == b
  {
    var x, y := FactValues(a), FactValues(b);
    var s, t := AssertionValues(a), AssertionValues(b);
    ChangeNamesDistinct();
    hide C.Record, FactNames, AssertionNames, TextJson, OptionalText, Texts, OptionalTexts, RefJson, StatusText;
    C.RecordDetermines(FactNames(), x, y);
    assert x[0] == y[0] && x[1] == y[1] && x[2] == y[2] && x[3] == y[3] && x[4] == y[4] && x[5] == y[5] && x[6] == y[6];
    C.RecordDetermines(AssertionNames(), s, t);
    assert s[0] == t[0] && s[1] == t[1] && s[2] == t[2];
    TextDetermines(a.subject, b.subject);
    TextDetermines(a.predicate_, b.predicate_);
    TextDetermines(a.object_, b.object_);
    RefDetermines(a.factRef, b.factRef);
    TextDetermines(StatusText(a.status), StatusText(b.status));
    StatusDetermines(a.status, b.status);
    TextsDetermine(a.evidenceRefs, b.evidenceRefs);
    TextsDetermine(a.sourceRefs, b.sourceRefs);
    OptionalTextDetermines(a.effectiveAt, b.effectiveAt);
    OptionalTextsDetermine(a.contradicts, b.contradicts);
  }

  function LoopStatusText(s: LoopStatus): string {
    match s
    case Open => "open"
    case Blocked => "blocked"
    case Closed => "closed"
  }

  lemma LoopStatusDetermines(a: LoopStatus, b: LoopStatus)
    requires LoopStatusText(a) == LoopStatusText(b)
    ensures a == b
  {
    assert LoopStatusText(a)[0] == LoopStatusText(b)[0];
  }

  function LoopNames(): seq<Text> {
    [Units("loopId"), Units("status"), Units("nextAction"), Units("owner"), Units("dueAt"), Units("blockedOn"),
     Units("closeOutcome")]
  }

  function LoopValues(c: LoopChange): seq<Option<Json>> {
    [RefJson(c.loopRef), Some(TextJson(LoopStatusText(c.status))), Some(TextJson(c.nextAction)), OptionalText(c.owner),
     OptionalText(c.dueAt), OptionalText(c.blockedOn), OptionalText(c.closeOutcome)]
  }

  function LoopJson(c: LoopChange): Json {
    C.Record(LoopNames(), LoopValues(c))
  }

  lemma LoopDetermines(a: LoopChange, b: LoopChange)
    requires LoopJson(a) == LoopJson(b)
    ensures a == b
  {
    var x, y := LoopValues(a), LoopValues(b);
    ChangeNamesDistinct();
    hide C.Record, LoopNames, TextJson, OptionalText, RefJson, LoopStatusText;
    C.RecordDetermines(LoopNames(), x, y);
    assert x[0] == y[0] && x[1] == y[1] && x[2] == y[2] && x[3] == y[3] && x[4] == y[4] && x[5] == y[5] && x[6] == y[6];
    RefDetermines(a.loopRef, b.loopRef);
    TextDetermines(LoopStatusText(a.status), LoopStatusText(b.status));
    LoopStatusDetermines(a.status, b.status);
    TextDetermines(a.nextAction, b.nextAction);
    OptionalTextDetermines(a.owner, b.owner);
    OptionalTextDetermines(a.dueAt, b.dueAt);
    OptionalTextDetermines(a.blockedOn, b.blockedOn);
    OptionalTextDetermines(a.closeOutcome, b.closeOutcome);
  }

  // ----- The normal form of a reconcile

  function KindText(k: Kind): string { if k == Fact then "fact" else "loop" }

  function ResolutionNames(): seq<Text> {
    [Units("kind"), Units("id"), Units("divergentStateId"), Units("decision"), Units("acceptedOrdinal")]
  }

  function ResolutionValues(key: TerminalKey, d: Decision): seq<Option<Json>> {
    [Some(TextJson(KindText(key.kind))), Some(TextJson(key.id)), Some(TextJson(key.state)),
     Some(TextJson(if d.Accept? then "accept" else "reject")),
     if d.Accept? then Some(Num(IntText(d.ordinal))) else None]
  }

  function ResolutionJson(key: TerminalKey, d: Decision): Json {
    C.Record(ResolutionNames(), ResolutionValues(key, d))
  }

  lemma ResolutionDetermines(a: TerminalKey, d: Decision, b: TerminalKey, e: Decision)
    requires ResolutionJson(a, d) == ResolutionJson(b, e)
    ensures a == b && d == e
  {
    var x, y := ResolutionValues(a, d), ResolutionValues(b, e);
    NormalNamesDistinct();
    hide C.Record, ResolutionNames, TextJson, IntText;
    C.RecordDetermines(ResolutionNames(), x, y);
    assert x[0] == y[0] && x[1] == y[1] && x[2] == y[2] && x[3] == y[3] && x[4] == y[4];
    TextDetermines(KindText(a.kind), KindText(b.kind));
    assert KindText(Fact)[0] != KindText(Loop)[0];
    TextDetermines(a.id, b.id);
    TextDetermines(a.state, b.state);
    if d.Accept? && e.Accept? {
      IntDetermines(d.ordinal, e.ordinal);
    }
  }

  /** The resolutions in the order of their keys. */
  function ResolutionList(m: map<TerminalKey, Decision>): seq<Json> {
    var keys := SortKeys(m.Keys);
    seq(|keys|, i requires 0 <= i < |keys| => ResolutionJson(keys[i], if keys[i] in m then m[keys[i]] else Reject))
  }

  lemma ResolutionAt(m: map<TerminalKey, Decision>, i: nat)
    requires i < |SortKeys(m.Keys)|
    ensures var key := SortKeys(m.Keys)[i];
      |ResolutionList(m)| == |SortKeys(m.Keys)| && key in m && ResolutionList(m)[i] == ResolutionJson(key, m[key])
  {
    assert SortKeys(m.Keys)[i] in SortKeys(m.Keys);
    hide ResolutionJson, SortKeys;
  }

  lemma KeysListed(xs: set<TerminalKey>, ys: set<TerminalKey>)
    requires SortKeys(xs) == SortKeys(ys)
    ensures xs == ys
  {
    assert forall key :: key in xs <==> key in SortKeys(xs);
    assert forall key :: key in ys <==> key in SortKeys(ys);
  }

  lemma ResolutionsDetermine(m: map<TerminalKey, Decision>, n: map<TerminalKey, Decision>)
    requires ResolutionList(m) == ResolutionList(n)
    ensures m == n
  {
    var ks, ls := SortKeys(m.Keys), SortKeys(n.Keys);
    assert |ks| == |ResolutionList(m)| == |ls|;
    hide ResolutionJson, ResolutionList;
    forall i | 0 <= i < |ks| ensures ks[i] == ls[i] && ks[i] in m && ls[i] in n && m[ks[i]] == n[ls[i]] {
      ResolutionAt(m, i);
      ResolutionAt(n, i);
      ResolutionDetermines(ks[i], m[ks[i]], ls[i], n[ls[i]]);
    }
    assert ks == ls;
    KeysListed(m.Keys, n.Keys);
    forall key | key in m ensures m[key] == n[key] {
      assert key in ks;
    }
  }

  function NormalNames(): seq<Text> {
    [Units("expectedHeads"), Units("expectedPointer"), Units("survivor"), Units("reason"), Units("strict"),
     Units("resolutions"), Units("rejectLineages"), Units("acknowledgeRetired")]
  }

  function NormalValues(n: Normalized): seq<Option<Json>> {
    [Some(Texts(SortNames(n.expectedHeads))), Some(C.OrNull(OptionalUtf16(n.expectedPointer))),
     Some(TextJson(n.survivor)), Some(TextJson(n.reason)), Some(Bool(n.strict)),
     Some(Arr(ResolutionList(n.resolutions))), Some(Texts(SortNames(n.rejectLineages))),
     Some(Bool(n.acknowledgeRetired))]
  }

  function NormalJson(n: Normalized): Json {
    C.Record(NormalNames(), NormalValues(n))
  }

  lemma NormalDetermines(a: Normalized, b: Normalized)
    requires NormalJson(a) == NormalJson(b)
    ensures a == b
  {
    var x, y := NormalValues(a), NormalValues(b);
    NormalNamesDistinct();
    hide C.Record, NormalNames, TextJson, Texts, SortNames, ResolutionList, OptionalUtf16;
    C.RecordDetermines(NormalNames(), x, y);
    assert x[0] == y[0] && x[1] == y[1] && x[2] == y[2] && x[3] == y[3];
    assert x[4] == y[4] && x[5] == y[5] && x[6] == y[6] && x[7] == y[7];
    SortedNamesDetermine(a.expectedHeads, b.expectedHeads);
    OptionalUtf16Determines(a.expectedPointer, b.expectedPointer);
    TextDetermines(a.survivor, b.survivor);
    TextDetermines(a.reason, b.reason);
    ResolutionsDetermine(a.resolutions, b.resolutions);
    SortedNamesDetermine(a.rejectLineages, b.rejectLineages);
  }

  lemma ChangeNamesDistinct()
    ensures C.Distinct(EventNames()) && C.Distinct(AssertionNames())
    ensures C.Distinct(FactNames()) && C.Distinct(LoopNames())
    ensures |EventNames()| == |AssertionNames()| == 3 && |FactNames()| == |LoopNames()| == 7
  {
    assert Units("status")[0] == 115 && Units("factId")[0] == 102 && Units("loopId")[0] == 108;
    assert Units("effectiveAt")[0] == 101 && Units("contradicts")[0] == 99;
    assert Units("dueAt")[0] == 100 && Units("owner")[0] == 111;
  }

  lemma NormalNamesDistinct()
    ensures C.Distinct(ResolutionNames()) && C.Distinct(NormalNames())
    ensures |ResolutionNames()| == 5 && |NormalNames()| == 8
  {
    assert Units("survivor")[0] == 115 && Units("decision")[0] == 100;
    assert Units("reason")[0] == 114;
  }

  // ----- The whole input

  function VersionClassOf(v: ResultVersion): C.VersionClass {
    match v
    case V1 => C.Legacy
    case V2 => C.Version2
    case V3 => C.Version3
  }

  function OperationNameOf(op: Operation): C.OperationName {
    match op
    case Write => C.WriteOperation
    case Reconcile => C.ReconcileOperation
    case Record => C.RecordOperation
    case Patch => C.PatchOperation
  }

  function ContentOf(scope: Text, e: Envelope): C.Content {
    C.Content(scope, e.state, Arr(seq(|e.events|, i requires 0 <= i < |e.events| => EventJson(e.events[i]))),
              Arr(seq(|e.factChanges|, i requires 0 <= i < |e.factChanges| => FactJson(e.factChanges[i]))),
              Arr(seq(|e.loopChanges|, i requires 0 <= i < |e.loopChanges| => LoopJson(e.loopChanges[i]))),
              Texts(e.evidenceRefs))
  }

  lemma ContentDetermines(scope: Text, a: Envelope, b: Envelope)
    requires ContentOf(scope, a) == ContentOf(scope, b) && a.reconciliation == b.reconciliation
    ensures a == b
  {
    hide EventJson, FactJson, LoopJson, Texts;
    var x, y := ContentOf(scope, a), ContentOf(scope, b);
    assert |a.events| == |x.events.items| == |b.events|;
    assert |a.factChanges| == |x.factChanges.items| == |b.factChanges|;
    assert |a.loopChanges| == |x.loopChanges.items| == |b.loopChanges|;
    forall i | 0 <= i < |a.events| ensures a.events[i] == b.events[i] {
      assert x.events.items[i] == y.events.items[i];
      EventDetermines(a.events[i], b.events[i]);
    }
    forall i | 0 <= i < |a.factChanges| ensures a.factChanges[i] == b.factChanges[i] {
      assert x.factChanges.items[i] == y.factChanges.items[i];
      FactDetermines(a.factChanges[i], b.factChanges[i]);
    }
    forall i | 0 <= i < |a.loopChanges| ensures a.loopChanges[i] == b.loopChanges[i] {
      assert x.loopChanges.items[i] == y.loopChanges.items[i];
      LoopDetermines(a.loopChanges[i], b.loopChanges[i]);
    }
    TextsDetermine(a.evidenceRefs, b.evidenceRefs);
  }

  /** What performCheckpoint hands requestFingerprint for a request and the parent it resolved. */
  ghost function InputOf(scope: Text, p: Params, parent: Option<StateId>): C.FingerprintInput {
    var op := OperationOf(p);
    var normalized := if op == Reconcile then Normalize(p) else None;
    C.FingerprintInput(
      Utf16(p.agent), scope, if p.expectedRevision.Some? then Some(IntText(p.expectedRevision.value)) else None,
      OptionalUtf16(parent), VersionClassOf(p.resultVersion), OperationNameOf(op),
      if normalized.Some? then Some(NormalJson(normalized.value)) else None, if op == Patch then p.statePatch else None,
      p.resultVersion == V3 && op != Reconcile && p.acknowledgeRetired, ContentOf(scope, BaseEnvelope(p)))
  }

  /** The text of a request is that of its fingerprint. */
  function Encoded(scope: Text, f: Fingerprint): C.FingerprintInput {
    C.FingerprintInput(
      Utf16(f.agent), scope, if f.expectedRevision.Some? then Some(IntText(f.expectedRevision.value)) else None,
      OptionalUtf16(f.parent), VersionClassOf(f.resultVersion), OperationNameOf(f.operation),
      if f.reconcile.Some? then Some(NormalJson(f.reconcile.value)) else None, f.patch, f.acknowledgeRetired,
      ContentOf(scope, f.content))
  }

  lemma InputIsEncoded(scope: Text, p: Params, parent: Option<StateId>)
    ensures InputOf(scope, p, parent) == Encoded(scope, FingerprintOf(p, parent))
    ensures FingerprintOf(p, parent).content.reconciliation == None
  {
    hide Normalize, NormalJson, ContentOf;
  }

  lemma EncodedDetermines(scope: Text, f: Fingerprint, g: Fingerprint)
    requires Encoded(scope, f) == Encoded(scope, g) && f.content.reconciliation == g.content.reconciliation
    ensures f == g
  {
    hide NormalJson, ContentOf, OptionalUtf16, IntText;
    Utf16Injective(f.agent, g.agent);
    if f.expectedRevision.Some? && g.expectedRevision.Some? {
      IntDetermines(f.expectedRevision.value, g.expectedRevision.value);
    }
    OptionalUtf16Determines(f.parent, g.parent);
    if f.reconcile.Some? && g.reconcile.Some? {
      NormalDetermines(f.reconcile.value, g.reconcile.value);
    }
    ContentDetermines(scope, f.content, g.content);
  }

  /** Two requests of a scope have the same hashed text if and only if their fingerprints agree. */
  lemma FingerprintIff(scope: Text, p: Params, a: Option<StateId>, q: Params, b: Option<StateId>)
    ensures FingerprintOf(p, a) == FingerprintOf(q, b) <==>
      C.Preimage(InputOf(scope, p, a)) == C.Preimage(InputOf(scope, q, b))
  {
    hide C.Preimage, InputOf, Encoded, FingerprintOf;
    InputIsEncoded(scope, p, a);
    InputIsEncoded(scope, q, b);
    C.PreimageIff(InputOf(scope, p, a), InputOf(scope, q, b));
    if InputOf(scope, p, a) == InputOf(scope, q, b) {
      EncodedDetermines(scope, FingerprintOf(p, a), FingerprintOf(q, b));
    }
  }

  /** Everything a request asks for, in the position it asks from: what a retry has to repeat. */
  ghost predicate SameIntent(p: Params, a: Option<StateId>, q: Params, b: Option<StateId>) {
    var third, op := p.resultVersion == V3, if p.resultVersion == V3 then p.operation else Write;
    && p.agent == q.agent && p.expectedRevision == q.expectedRevision && a == b && p.resultVersion == q.resultVersion
    && (third ==> p.operation == q.operation)
    && p.events == q.events && p.factChanges == q.factChanges && p.loopChanges == q.loopChanges
    && p.evidenceRefs == q.evidenceRefs
    && (op == Write || op == Reconcile ==> Or(p.state, Null) == Or(q.state, Null))
    && (op == Patch ==> p.statePatch == q.statePatch)
    && (op == Reconcile ==> Normalize(p) == Normalize(q))
    && (third && op != Reconcile ==> p.acknowledgeRetired == q.acknowledgeRetired)
  }

  lemma FingerprintIsIntent(p: Params, a: Option<StateId>, q: Params, b: Option<StateId>)
    ensures FingerprintOf(p, a) == FingerprintOf(q, b) <==> SameIntent(p, a, q, b)
  {
    hide Normalize;
  }

  // ----- Retries

  /** A request whose key already has a snapshot is judged by that snapshot's fingerprint alone. */
  lemma KnownKey(t: Tables, q: Params, a: StateId, v: Uuids, later: Time)
    requires Inv(t) && a in t.snaps && t.snaps[a].key == q.key && Precheck(q).None? && Sized(q, v)
    ensures Step(t, q, v, later) == (t, ReplayOf(t, q, a, FingerprintOf(q, ByRevision(t.snaps, q.expectedRevision))))
  {
    hide TreeOk, FingerprintsOk, RowsOk, InPlaceOk, PointerOk, RetirementsOk, RowsOwned, ReconcilesOk, Precheck,
         FingerprintOf, ReplayOf, AdmissionOf, Commit, ByRevision, ByKey;
    KeyFinds(t.snaps, a);
  }

  /** The block of a reconcile's answer says what its record says. */
  ghost predicate BlockSays(block: ReconciledBlock, record: ReconciliationRecord, a: StateId) {
    && block.survivor == record.survivor && block.pointer == a && block.retired == record.retired
    && block.adoptedRetired == record.adoptedRetired && block.resolutions == record.resolutions
    && block.unresolvedDivergent.facts == record.unresolvedDivergent.facts
    && block.unresolvedDivergent.loops == record.unresolvedDivergent.loops
  }

  /** What a request under a known key is told: a mismatch with both fingerprints, or what its snapshot stores. */
  ghost predicate KeyAnswer(t: Tables, q: Params, a: StateId, received: Fingerprint, o: Outcome)
    requires a in t.snaps
  {
    var snap := t.snaps[a];
    if received != snap.fingerprint then
      o.Mismatch? && o.stateId == a && o.expected == snap.fingerprint && o.received == received
    else
      && o.Replayed? && o.stateId == a && o.revision == snap.revision && o.contentHash == snap.envelope
      && o.changes == (if q.resultVersion == V1 then None else snap.digest)
      && (o.reconciled.Some? <==> snap.envelope.reconciliation.Some?)
      && (o.reconciled.Some? ==> BlockSays(o.reconciled.value, snap.envelope.reconciliation.value, a))
  }

  lemma KnownKeyAnswered(t: Tables, q: Params, a: StateId, v: Uuids, later: Time)
    requires Inv(t) && a in t.snaps && t.snaps[a].key == q.key && Precheck(q).None? && Sized(q, v)
    ensures Step(t, q, v, later).0 == t
    ensures KeyAnswer(t, q, a, FingerprintOf(q, ByRevision(t.snaps, q.expectedRevision)), Step(t, q, v, later).1)
  {
    hide Inv, Precheck, Step, FingerprintOf, ByRevision, ReplayOf, KeyAnswer;
    KnownKey(t, q, a, v, later);
    OperationBound(q, ByRevision(t.snaps, q.expectedRevision));
    ReplayAnswers(t, q, a, FingerprintOf(q, ByRevision(t.snaps, q.expectedRevision)));
  }

  lemma ReplayAnswers(t: Tables, q: Params, a: StateId, received: Fingerprint)
    requires Inv(t) && a in t.snaps && received.operation == OperationOf(q) && received.resultVersion == q.resultVersion
    ensures KeyAnswer(t, q, a, received, ReplayOf(t, q, a, received))
  {
    if received == t.snaps[a].fingerprint {
      OperationRecorded(t, a);
      EvidenceOf(t, a);
    }
    hide Inv, ReconcileParity, LedgerVerifies;
  }

  lemma EvidenceOf(t: Tables, a: StateId)
    requires Inv(t) && a in t.snaps
    ensures t.snaps[a].digest.Some? ==> LedgerVerifies(t.snaps, t.ledger, a)
    ensures t.snaps[a].digest.None? ==> t.snaps[a].fingerprint.resultVersion == V1
    ensures t.snaps[a].digest.None? ==> forall x :: x in t.ledger ==> x.state != a
    ensures t.snaps[a].envelope.reconciliation.Some? ==>
      ReconcileParity(t, a, t.snaps[a].envelope.reconciliation.value)
  {
    hide TreeOk, KeysUnique, InPlaceOk, PointerOk, RetirementsOk, RowsOwned, CoverageOk, VersionsOk, RowsExist,
         LedgerVerifies, ReconcileParity;
    assert SnapReconcileOk(t, a);
  }

  lemma ReplayedIff(t: Tables, q: Params, a: StateId, fingerprint: Fingerprint)
    requires Inv(t) && a in t.snaps && t.snaps[a].digest.Some? && fingerprint.operation == OperationOf(q)
    ensures ReplayOf(t, q, a, fingerprint).Mismatch? <==> t.snaps[a].fingerprint != fingerprint
    ensures ReplayOf(t, q, a, fingerprint).Replayed? <==> t.snaps[a].fingerprint == fingerprint
  {
    if t.snaps[a].fingerprint == fingerprint {
      OperationRecorded(t, a);
      hide Inv, ReplayOf;
      ReplayVerifies(t, q, a);
    }
  }

  lemma OperationRecorded(t: Tables, a: StateId)
    requires Inv(t) && a in t.snaps
    ensures t.snaps[a].fingerprint.operation == Reconcile <==> t.snaps[a].envelope.reconciliation.Some?
  {
    hide TreeOk, KeysUnique, RowsOk, InPlaceOk, PointerOk, RetirementsOk, RowsOwned, ReconcilesOk;
  }

  /**
   After a checkpoint was written and any run of others, a request under its key changes nothing: it
   is a replay if its text is the one that was hashed then, and a mismatch if it is not.
   */
  lemma RetryIff(scope: Text, t: Tables, p: Params, u: Uuids, now: Time, t1: Tables, o: Outcome, calls: seq<Call>,
                 q: Params, v: Uuids, later: Time)
    requires Inv(t) && FreshUuids(t, p, u) && Step(t, p, u, now) == (t1, o) && o.Written?
    requires Admissible(t1, calls) && q.key == p.key && Precheck(q).None? && Sized(q, v)
    ensures var t2 := Run(t1, calls);
      var then_ := C.Preimage(InputOf(scope, p, ByRevision(t.snaps, p.expectedRevision)));
      var received := C.Preimage(InputOf(scope, q, ByRevision(t2.snaps, q.expectedRevision)));
      && Step(t2, q, v, later).0 == t2
      && (Step(t2, q, v, later).1.Mismatch? <==> received != then_)
      && (Step(t2, q, v, later).1.Replayed? <==> received == then_)
  {
    hide Inv, Step, LoopIdsFresh, FactIdsFresh, Wrote, AdmittedBy, ReplayOf, FingerprintOf, Run, Admissible, Precheck,
         ReconcileParity, ByRevision, C.Preimage, InputOf;
    StepInv(t, p, u, now);
    var parent, adm, f, l := StepWrote(t, p, u, now, t1, o);
    RunInv(t1, calls);
    RunKeeps(t1, calls);
    WrittenSnap(t, p, u, now, t1, parent, adm, f, l);
    WroteParent(t, p, u, now, t1, parent, adm, f, l);
    var t2 := Run(t1, calls);
    var b := ByRevision(t2.snaps, q.expectedRevision);
    KnownKey(t2, q, u.state, v, later);
    OperationBound(q, b);
    ReplayedIff(t2, q, u.state, FingerprintOf(q, b));
    FingerprintIff(scope, p, parent, q, b);
  }

  lemma OperationBound(q: Params, b: Option<StateId>)
    ensures FingerprintOf(q, b).operation == OperationOf(q) && FingerprintOf(q, b).resultVersion == q.resultVersion
  {
  }
}
