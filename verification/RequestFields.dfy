/**
 The hashed text property by property: under which name each field of a request is written, when it is
 left out, and how numbers, lists and choices are spelled.
 */
module RequestFields {
  import opened Options
  import opened JsonValues
  import opened Ordering
  import opened Types
  import opened Evaluation
  import opened Protocol
  import opened RequestText
  import opened Listing
  import C = Canonicalizing
  import W = Canonical

  // ----- Objects by their properties

  /** The property is there exactly when there is a value, and has it. */
  ghost predicate Field(j: Json, name: string, value: Option<Json>) {
    j.Obj? && if value.Some? then Units(name) in j.props && j.props[Units(name)] == value.value
              else Units(name) !in j.props
  }

  ghost predicate OnlyFields(j: Json, names: seq<string>) {
    j.Obj? && forall k :: k in j.props ==> exists i :: 0 <= i < |names| && k == Units(names[i])
  }

  lemma FieldAt(names: seq<Text>, values: seq<Option<Json>>, i: nat, name: string)
    requires |names| == |values| && C.Distinct(names) && i < |names| && names[i] == Units(name)
    ensures Field(C.Record(names, values), name, values[i])
  {
    C.PropertyAt(names, values, |names|, i);
  }

  lemma FieldsAre(names: seq<Text>, values: seq<Option<Json>>, spelled: seq<string>)
    requires |names| == |values| == |spelled| && C.Distinct(names)
    requires forall i :: 0 <= i < |names| ==> names[i] == Units(spelled[i])
    ensures forall i :: 0 <= i < |spelled| ==> Field(C.Record(names, values), spelled[i], values[i])
    ensures OnlyFields(C.Record(names, values), spelled)
  {
    forall i | 0 <= i < |spelled| ensures Field(C.Record(names, values), spelled[i], values[i]) {
      FieldAt(names, values, i, spelled[i]);
    }
    C.PropertiesNamed(names, values, |names|);
    assert names[..|names|] == names;
  }

  ghost function TextOf(s: string): Option<Json> {
    Some(Str(Utf16(s)))
  }

  /** A text property that is left out when the field is absent. */
  ghost function TextIfAny(a: Option<string>): Option<Json> {
    if a.Some? then Some(Str(Utf16(a.value))) else None
  }

  /** A list of texts, in order. */
  ghost predicate TextList(j: Json, xs: seq<string>) {
    j.Arr? && |j.items| == |xs| && forall i :: 0 <= i < |xs| ==> j.items[i] == Str(Utf16(xs[i]))
  }

  lemma EventFields(e: Event)
    ensures Field(EventJson(e), "kind", TextOf(e.kind)) && Field(EventJson(e), "summary", TextOf(e.summary))
    ensures Field(EventJson(e), "at", TextIfAny(e.at)) && OnlyFields(EventJson(e), ["kind", "summary", "at"])
  {
    var values := [Some(TextJson(e.kind)), Some(TextJson(e.summary)), OptionalText(e.at)];
    var spelled := ["kind", "summary", "at"];
    ChangeNamesDistinct();
    hide C.Record, C.Distinct, Units, Field, OnlyFields;
    FieldsAre(EventNames(), values, spelled);
    assert Field(EventJson(e), spelled[0], values[0]) && Field(EventJson(e), spelled[1], values[1]);
    assert Field(EventJson(e), spelled[2], values[2]);
  }

  lemma TextsListed(xs: seq<string>)
    ensures TextList(Texts(xs), xs)
  {
  }

  /** A row that is named: no property for none, a null for a null, else the id. */
  ghost function RowNamed(r: RowRef): Option<Json> {
    if r.NoRef? then None else if r.NullRef? then Some(Null) else Some(Str(Utf16(r.id)))
  }

  ghost predicate FactObject(j: Json, c: FactChange) {
    && OnlyFields(j, ["factId", "assertion", "status", "evidenceRefs", "sourceRefs", "effectiveAt", "contradicts"])
    && Field(j, "factId", RowNamed(c.factRef)) && Field(j, "effectiveAt", TextIfAny(c.effectiveAt))
    && (exists a :: Field(j, "assertion", Some(a)) && OnlyFields(a, ["subject", "predicate", "object"])
                    && Field(a, "subject", TextOf(c.subject)) && Field(a, "predicate", TextOf(c.predicate_))
                    && Field(a, "object", TextOf(c.object_)))
    && Field(j, "status", TextOf(match c.status
                                 case Asserted => "asserted"
                                 case Verified => "verified"
                                 case Disputed => "disputed"
                                 case Superseded => "superseded"))
    && (exists l :: Field(j, "evidenceRefs", Some(l)) && TextList(l, c.evidenceRefs))
    && (exists l :: Field(j, "sourceRefs", Some(l)) && TextList(l, c.sourceRefs))
    && (c.contradicts.None? ==> Field(j, "contradicts", None))
    && (c.contradicts.Some? ==> exists l :: Field(j, "contradicts", Some(l)) && TextList(l, c.contradicts.value))
  }

  lemma AssertionFields(c: FactChange)
    ensures var a := C.Record(AssertionNames(), AssertionValues(c));
      && OnlyFields(a, ["subject", "predicate", "object"])
      && Field(a, "subject", TextOf(c.subject)) && Field(a, "predicate", TextOf(c.predicate_))
      && Field(a, "object", TextOf(c.object_))
  {
    var values, spelled := AssertionValues(c), ["subject", "predicate", "object"];
    ChangeNamesDistinct();
    hide C.Record, C.Distinct, Units, Field, OnlyFields;
    FieldsAre(AssertionNames(), values, spelled);
    var a := C.Record(AssertionNames(), values);
    assert Field(a, spelled[0], values[0]) && Field(a, spelled[1], values[1]) && Field(a, spelled[2], values[2]);
  }

  lemma FactFields(c: FactChange)
    ensures FactObject(FactJson(c), c)
  {
    var values := FactValues(c);
    var spelled := ["factId", "assertion", "status", "evidenceRefs", "sourceRefs", "effectiveAt", "contradicts"];
    ChangeNamesDistinct();
    AssertionFields(c);
    TextsListed(c.evidenceRefs);
    TextsListed(c.sourceRefs);
    TextsListed(Or(c.contradicts, []));
    hide C.Record, C.Distinct, Units, Field, OnlyFields, Texts, TextList;
    FieldsAre(FactNames(), values, spelled);
    var j := FactJson(c);
    assert Field(j, spelled[0], values[0]) && Field(j, spelled[1], values[1]) && Field(j, spelled[2], values[2]);
    assert Field(j, spelled[3], values[3]) && Field(j, spelled[4], values[4]) && Field(j, spelled[5], values[5]);
    assert Field(j, spelled[6], values[6]);
  }

  ghost predicate LoopObject(j: Json, c: LoopChange) {
    && OnlyFields(j, ["loopId", "status", "nextAction", "owner", "dueAt", "blockedOn", "closeOutcome"])
    && Field(j, "loopId", RowNamed(c.loopRef))
    && Field(j, "status", TextOf(if c.status == Open then "open" else if c.status == Blocked then "blocked"
                                 else "closed"))
    && Field(j, "nextAction", TextOf(c.nextAction)) && Field(j, "owner", TextIfAny(c.owner))
    && Field(j, "dueAt", TextIfAny(c.dueAt)) && Field(j, "blockedOn", TextIfAny(c.blockedOn))
    && Field(j, "closeOutcome", TextIfAny(c.closeOutcome))
  }

  lemma LoopFields(c: LoopChange)
    ensures LoopObject(LoopJson(c), c)
  {
    var values := LoopValues(c);
    var spelled := ["loopId", "status", "nextAction", "owner", "dueAt", "blockedOn", "closeOutcome"];
    ChangeNamesDistinct();
    hide C.Record, C.Distinct, Units, Field, OnlyFields;
    FieldsAre(LoopNames(), values, spelled);
    var j := LoopJson(c);
    assert Field(j, spelled[0], values[0]) && Field(j, spelled[1], values[1]) && Field(j, spelled[2], values[2]);
    assert Field(j, spelled[3], values[3]) && Field(j, spelled[4], values[4]) && Field(j, spelled[5], values[5]);
    assert Field(j, spelled[6], values[6]);
  }

  ghost predicate ResolutionObject(j: Json, key: TerminalKey, d: Decision) {
    && OnlyFields(j, ["kind", "id", "divergentStateId", "decision", "acceptedOrdinal"])
    && Field(j, "kind", TextOf(if key.kind == Fact then "fact" else "loop"))
    && Field(j, "id", TextOf(key.id)) && Field(j, "divergentStateId", TextOf(key.state))
    && Field(j, "decision", TextOf(if d.Accept? then "accept" else "reject"))
    && Field(j, "acceptedOrdinal", if d.Accept? then Some(Num(IntText(d.ordinal))) else None)
  }

  lemma ResolutionFields(key: TerminalKey, d: Decision)
    ensures ResolutionObject(ResolutionJson(key, d), key, d)
  {
    var values, spelled := ResolutionValues(key, d), ["kind", "id", "divergentStateId", "decision", "acceptedOrdinal"];
    NormalNamesDistinct();
    hide C.Record, C.Distinct, Units, Field, OnlyFields, IntText;
    FieldsAre(ResolutionNames(), values, spelled);
    var j := ResolutionJson(key, d);
    assert Field(j, spelled[0], values[0]) && Field(j, spelled[1], values[1]) && Field(j, spelled[2], values[2]);
    assert Field(j, spelled[3], values[3]) && Field(j, spelled[4], values[4]);
  }

  // ----- The normal form

  /** The names of a set in ascending order, each once. */
  ghost predicate NameList(j: Json, names: set<string>) {
    exists xs: seq<string> :: TextList(j, xs) && ListsOnce(xs, names)
      && forall a, b :: 0 <= a < b < |xs| ==> NameFirst(xs[a], xs[b])
  }

  lemma NamesListed(names: set<string>)
    ensures NameList(Texts(SortNames(names)), names)
  {
    var xs := SortNames(names);
    TextsListed(xs);
    NamesOrdered(names);
    forall a, b | 0 <= a < b < |xs| ensures NameFirst(xs[a], xs[b]) && xs[a] != xs[b] {
      assert NameBefore(xs[a], xs[b]);
      assert xs[a] in xs && xs[b] in xs;
      NameBeforeIs(xs[a], xs[b]);
    }
    hide Texts, TextList, NameFirst, SortNames;
    assert ListsOnce(xs, names);
  }

  /** Every key once, in the order of their keys. */
  ghost predicate KeyList(keys: seq<TerminalKey>, xs: set<TerminalKey>) {
    ListsOnce(keys, xs) && forall a, b :: 0 <= a < b < |keys| ==> KeyFirst(keys[a], keys[b])
  }

  ghost predicate ResolutionItems(items: seq<Json>, keys: seq<TerminalKey>, m: map<TerminalKey, Decision>) {
    && |items| == |keys|
    && forall i :: 0 <= i < |keys| ==> keys[i] in m && ResolutionObject(items[i], keys[i], m[keys[i]])
  }

  ghost predicate ResolutionsListed(j: Json, m: map<TerminalKey, Decision>) {
    j.Arr? && exists keys: seq<TerminalKey> :: KeyList(keys, m.Keys) && ResolutionItems(j.items, keys, m)
  }

  lemma ResolutionsAre(m: map<TerminalKey, Decision>)
    ensures ResolutionsListed(Arr(ResolutionList(m)), m)
  {
    KeysAre(m.Keys);
    assert KeyList(SortKeys(m.Keys), m.Keys) by { hide KeyFirst, ListsOnce, SortKeys; }
    ItemsAre(m);
    hide SortKeys, KeyList, ResolutionItems, ResolutionList;
  }

  lemma ListSized(m: map<TerminalKey, Decision>)
    ensures |ResolutionList(m)| == |SortKeys(m.Keys)|
  {
    hide SortKeys, ResolutionJson;
  }

  lemma ItemsAre(m: map<TerminalKey, Decision>)
    ensures ResolutionItems(ResolutionList(m), SortKeys(m.Keys), m)
  {
    hide SortKeys, ResolutionObject, ResolutionList, ResolutionJson;
    var keys := SortKeys(m.Keys);
    ListSized(m);
    forall i | 0 <= i < |keys| ensures keys[i] in m && ResolutionObject(ResolutionList(m)[i], keys[i], m[keys[i]]) {
      ResolutionAt(m, i);
      ResolutionFields(keys[i], m[keys[i]]);
    }
  }

  ghost predicate NormalObject(j: Json, n: Normalized) {
    && OnlyFields(j, ["expectedHeads", "expectedPointer", "survivor", "reason", "strict", "resolutions",
                      "rejectLineages", "acknowledgeRetired"])
    && (exists l :: Field(j, "expectedHeads", Some(l)) && NameList(l, n.expectedHeads))
    && Field(j, "expectedPointer", Some(if n.expectedPointer.Some? then Str(Utf16(n.expectedPointer.value)) else Null))
    && Field(j, "survivor", TextOf(n.survivor)) && Field(j, "reason", TextOf(n.reason))
    && Field(j, "strict", Some(Bool(n.strict)))
    && (exists l :: Field(j, "resolutions", Some(l)) && ResolutionsListed(l, n.resolutions))
    && (exists l :: Field(j, "rejectLineages", Some(l)) && NameList(l, n.rejectLineages))
    && Field(j, "acknowledgeRetired", Some(Bool(n.acknowledgeRetired)))
  }

  lemma NormalFields(n: Normalized)
    ensures NormalObject(NormalJson(n), n)
  {
    var values := NormalValues(n);
    var spelled := ["expectedHeads", "expectedPointer", "survivor", "reason", "strict", "resolutions",
                    "rejectLineages", "acknowledgeRetired"];
    NormalNamesDistinct();
    hide C.Record, C.Distinct, Units, Field, OnlyFields, NameList, ResolutionsListed, Texts, SortNames, ResolutionList,
         IntText;
    NamesListed(n.expectedHeads);
    NamesListed(n.rejectLineages);
    ResolutionsAre(n.resolutions);
    FieldsAre(NormalNames(), values, spelled);
    var j := NormalJson(n);
    assert Field(j, spelled[0], values[0]) && Field(j, spelled[1], values[1]) && Field(j, spelled[2], values[2]);
    assert Field(j, spelled[3], values[3]) && Field(j, spelled[4], values[4]) && Field(j, spelled[5], values[5]);
    assert Field(j, spelled[6], values[6]) && Field(j, spelled[7], values[7]);
  }

  // ----- Numbers

  /** The number decimal digits spell. */
  ghost function Spelled(t: Text): int
    requires forall i :: 0 <= i < |t| ==> 48 <= t[i] <= 57
  {
    if t == [] then 0 else 10 * Spelled(t[..|t| - 1]) + (t[|t| - 1] as int - 48)
  }

  /** A number is its decimal digits without leading zeros, after a minus sign when it is negative. */
  lemma NumberIs(n: int)
    ensures n >= 0 ==> (forall i :: 0 <= i < |IntText(n)| ==> 48 <= IntText(n)[i] <= 57) && Spelled(IntText(n)) == n
    ensures n < 0 ==> IntText(n)[0] == 45 && IntText(n)[1..] == IntText(-n)
    ensures n > 0 ==> IntText(n)[0] != 48
    ensures |IntText(0)| == 1
  {
    if n >= 0 {
      DigitsSpell(n);
    }
  }

  lemma {:induction false} DigitsSpell(n: nat)
    ensures Spelled(Digits(n)) == n && (n > 0 ==> Digits(n)[0] != 48)
  {
    var t := Digits(n);
    if n >= 10 {
      DigitsSpell(n / 10);
      assert t[..|t| - 1] == Digits(n / 10);
    } else {
      assert t[..0] == [];
    }
  }

  // ----- The whole text

  ghost predicate EventObject(j: Json, e: Event) {
    && OnlyFields(j, ["kind", "summary", "at"])
    && Field(j, "kind", TextOf(e.kind)) && Field(j, "summary", TextOf(e.summary)) && Field(j, "at", TextIfAny(e.at))
  }

  /** The content of a request: a record or a patch has no state of its own. */
  ghost predicate ContentObject(j: Json, scope: Text, p: Params) {
    var derives := p.resultVersion == V3 && (p.operation == Record || p.operation == Patch);
    && OnlyFields(j, ["scopeKey", "state", "events", "factChanges", "loopChanges", "evidenceRefs"])
    && Field(j, "scopeKey", Some(Str(scope)))
    && Field(j, "state", Some(if derives || p.state.None? then Null else p.state.value))
    && (exists l :: Field(j, "events", Some(l)) && l.Arr? && |l.items| == |p.events|
          && forall i :: 0 <= i < |p.events| ==> EventObject(l.items[i], p.events[i]))
    && (exists l :: Field(j, "factChanges", Some(l)) && l.Arr? && |l.items| == |p.factChanges|
          && forall i :: 0 <= i < |p.factChanges| ==> FactObject(l.items[i], p.factChanges[i]))
    && (exists l :: Field(j, "loopChanges", Some(l)) && l.Arr? && |l.items| == |p.loopChanges|
          && forall i :: 0 <= i < |p.loopChanges| ==> LoopObject(l.items[i], p.loopChanges[i]))
    && (exists l :: Field(j, "evidenceRefs", Some(l)) && TextList(l, p.evidenceRefs))
  }

  lemma ContentFields(scope: Text, p: Params)
    ensures ContentObject(C.Record(C.ContentNames(), C.ContentValues(ContentOf(scope, BaseEnvelope(p)))), scope, p)
  {
    var c := ContentOf(scope, BaseEnvelope(p));
    var values := C.ContentValues(c);
    var spelled := ["scopeKey", "state", "events", "factChanges", "loopChanges", "evidenceRefs"];
    C.NamesDistinct();
    C.NameCounts();
    hide C.Record, C.Distinct, Units, Field, OnlyFields, EventJson, FactJson, LoopJson, Texts, TextList, FactObject,
         LoopObject;
    FieldsAre(C.ContentNames(), values, spelled);
    var j := C.Record(C.ContentNames(), values);
    assert Field(j, spelled[0], values[0]) && Field(j, spelled[1], values[1]) && Field(j, spelled[2], values[2]);
    assert Field(j, spelled[3], values[3]) && Field(j, spelled[4], values[4]) && Field(j, spelled[5], values[5]);
    forall i | 0 <= i < |p.events| ensures EventObject(c.events.items[i], p.events[i]) {
      EventFields(p.events[i]);
    }
    forall i | 0 <= i < |p.factChanges| ensures FactObject(c.factChanges.items[i], p.factChanges[i]) {
      FactFields(p.factChanges[i]);
    }
    forall i | 0 <= i < |p.loopChanges| ensures LoopObject(c.loopChanges.items[i], p.loopChanges[i]) {
      LoopFields(p.loopChanges[i]);
    }
    TextsListed(p.evidenceRefs);
  }

  /** The object that is hashed for a request with the given parent. */
  ghost predicate RequestObject(j: Json, scope: Text, p: Params, parent: Option<StateId>) {
    var third := p.resultVersion == V3;
    && OnlyFields(j, ["canonicalAgentId", "scopeKey", "expectedRevision", "resolvedParentStateId", "content",
                      "resultVersion", "operation", "reconcile", "patch", "acknowledgeRetired"])
    && Field(j, "canonicalAgentId", TextOf(p.agent)) && Field(j, "scopeKey", Some(Str(scope)))
    && Field(j, "expectedRevision",
             Some(if p.expectedRevision.Some? then Num(IntText(p.expectedRevision.value)) else Null))
    && Field(j, "resolvedParentStateId", Some(if parent.Some? then Str(Utf16(parent.value)) else Null))
    && (exists c :: ContentObject(c, scope, p) && Field(j, "content", Some(Str(W.Write(c)))))
    && Field(j, "resultVersion", match p.resultVersion
                                 case V1 => None
                                 case V2 => Some(Num(IntText(2)))
                                 case V3 => Some(Num(IntText(3))))
    && Field(j, "operation", if !third || p.operation == Write then None
                             else Some(Str(Units(match p.operation
                                                 case Reconcile => "reconcile"
                                                 case Record => "record"
                                                 case _ => "patch"))))
    && (third && p.operation == Reconcile && Normalize(p).Some? ==>
          exists n :: Field(j, "reconcile", Some(n)) && NormalObject(n, Normalize(p).value))
    && (!third || p.operation != Reconcile ==> Field(j, "reconcile", None))
    && Field(j, "patch", if third && p.operation == Patch then p.statePatch else None)
    && Field(j, "acknowledgeRetired",
             if third && p.operation != Reconcile && p.acknowledgeRetired then Some(Bool(true)) else None)
  }

  /** The hashed text of a request is the canonical text of that object, whose content is a canonical text itself. */
  lemma PreimageIs(scope: Text, p: Params, parent: Option<StateId>)
    ensures exists j :: C.Preimage(InputOf(scope, p, parent)) == W.Write(j) && RequestObject(j, scope, p, parent)
  {
    hide InputOf, C.Record, W.Write, C.FingerprintNames, C.FingerprintValues, RequestObject;
    C.NameCounts();
    ValueCount(InputOf(scope, p, parent));
    InputFields(scope, p, parent, C.Record(C.FingerprintNames(), C.FingerprintValues(InputOf(scope, p, parent))));
  }

  lemma ValueCount(i: C.FingerprintInput)
    ensures |C.FingerprintValues(i)| == 10
  {
  }

  lemma FingerprintFields(i: C.FingerprintInput)
    ensures var j := C.Record(C.FingerprintNames(), C.FingerprintValues(i));
      && OnlyFields(j, ["canonicalAgentId", "scopeKey", "expectedRevision", "resolvedParentStateId", "content",
                        "resultVersion", "operation", "reconcile", "patch", "acknowledgeRetired"])
      && Field(j, "canonicalAgentId", Some(Str(i.agent))) && Field(j, "scopeKey", Some(Str(i.scopeKey)))
      && Field(j, "expectedRevision", Some(if i.expectedRevision.Some? then Num(i.expectedRevision.value) else Null))
      && Field(j, "resolvedParentStateId", Some(if i.parent.Some? then Str(i.parent.value) else Null))
      && Field(j, "content", Some(Str(W.Write(C.Record(C.ContentNames(), C.ContentValues(i.content))))))
      && Field(j, "resultVersion", C.VersionField(i.version))
      && Field(j, "operation", if i.operation.WriteOperation? then None else Some(Str(C.OperationText(i.operation))))
      && Field(j, "reconcile", i.reconcile) && Field(j, "patch", i.patch)
      && Field(j, "acknowledgeRetired", if i.acknowledgeRetired then Some(Bool(true)) else None)
  {
    var values := C.FingerprintValues(i);
    var spelled := ["canonicalAgentId", "scopeKey", "expectedRevision", "resolvedParentStateId", "content",
                    "resultVersion", "operation", "reconcile", "patch", "acknowledgeRetired"];
    C.NamesDistinct();
    C.NameCounts();
    assert forall k :: 0 <= k < 10 ==> C.FingerprintNames()[k] == Units(spelled[k]);
    hide C.Record, C.Distinct, Units, Field, OnlyFields, W.Write, C.ContentNames, C.ContentValues, C.OperationText,
         C.VersionField, C.FingerprintNames;
    FieldsAre(C.FingerprintNames(), values, spelled);
    var j := C.Record(C.FingerprintNames(), values);
    assert Field(j, spelled[0], values[0]) && Field(j, spelled[1], values[1]) && Field(j, spelled[2], values[2]);
    assert Field(j, spelled[3], values[3]) && Field(j, spelled[4], values[4]) && Field(j, spelled[5], values[5]);
    assert Field(j, spelled[6], values[6]) && Field(j, spelled[7], values[7]) && Field(j, spelled[8], values[8]);
    assert Field(j, spelled[9], values[9]);
  }

  lemma InputFields(scope: Text, p: Params, parent: Option<StateId>, j: Json)
    requires j == C.Record(C.FingerprintNames(), C.FingerprintValues(InputOf(scope, p, parent)))
    ensures RequestObject(j, scope, p, parent)
  {
    hide C.Record, Units, Field, OnlyFields, Normalize, NormalJson, NormalObject, ContentOf, ContentObject, W.Write,
         IntText, C.ContentNames, C.ContentValues, C.FingerprintNames, C.FingerprintValues, InputOf, C.VersionField,
         C.OperationText;
    FingerprintFields(InputOf(scope, p, parent));
    InputParts(scope, p, parent);
    VersionParts(p);
    ContentFields(scope, p);
    if OperationOf(p) == Reconcile && Normalize(p).Some? {
      NormalFields(Normalize(p).value);
    }
  }

  lemma InputParts(scope: Text, p: Params, parent: Option<StateId>)
    ensures var i := InputOf(scope, p, parent);
      && i.agent == Utf16(p.agent) && i.scopeKey == scope
      && i.expectedRevision == (if p.expectedRevision.Some? then Some(IntText(p.expectedRevision.value)) else None)
      && i.parent == (if parent.Some? then Some(Utf16(parent.value)) else None)
      && i.version == VersionClassOf(p.resultVersion) && i.operation == OperationNameOf(OperationOf(p))
      && i.reconcile == (if OperationOf(p) == Reconcile && Normalize(p).Some? then Some(NormalJson(Normalize(p).value))
                         else None)
      && i.patch == (if OperationOf(p) == Patch then p.statePatch else None)
      && i.acknowledgeRetired == (p.resultVersion == V3 && OperationOf(p) != Reconcile && p.acknowledgeRetired)
      && i.content == ContentOf(scope, BaseEnvelope(p))
  {
    hide Normalize, NormalJson, ContentOf, IntText;
  }

  lemma VersionParts(p: Params)
    ensures C.VersionField(VersionClassOf(p.resultVersion)) ==
      match p.resultVersion
      case V1 => None
      case V2 => Some(Num(IntText(2)))
      case V3 => Some(Num(IntText(3)))
    ensures OperationOf(p) != Write ==>
      C.OperationText(OperationNameOf(OperationOf(p))) == Units(match p.operation
                                                                case Reconcile => "reconcile"
                                                                case Record => "record"
                                                                case _ => "patch")
  {
    hide Units;
    assert IntText(2) == [50] && IntText(3) == [51];
  }
}
