/** canonicalize and requestFingerprint of canonical.ts, over JavaScript values and before hashing. */
module Canonicalizing {
  import opened Options
  import opened JsonValues
  import opened Canonical

  // ----- JavaScript values

  /**
   What canonicalize can be handed. A hole of a sparse array is None; a number that is not finite
   has no text; an object carries its property names in insertion order.
   */
  datatype JsValue =
    | JsNull
    | JsBoolean(b: bool)
    | JsNumber(text: Option<NumberText>)
    | JsString(s: Text)
    | JsArray(items: seq<Option<JsValue>>)
    | JsObject(props: map<Text, JsValue>, order: seq<Text>)
    | JsUndefined
    | JsFunctionOrSymbol

  predicate HighSurrogate(u: CodeUnit) { 0xd800 <= u <= 0xdbff }
  predicate LowSurrogate(u: CodeUnit) { 0xdc00 <= u <= 0xdfff }

  predicate PairedAt(s: Text, i: nat)
    requires i < |s|
  {
    && (HighSurrogate(s[i]) ==> i + 1 < |s| && LowSurrogate(s[i + 1]))
    && (LowSurrogate(s[i]) ==> i > 0 && HighSurrogate(s[i - 1]))
  }

  /** Surrogates come in pairs only. */
  ghost predicate WellFormed(s: Text) {
    forall i :: 0 <= i < |s| ==> PairedAt(s, i)
  }

  /** Plain data with an I-JSON form: anything else is refused rather than dropped. */
  ghost predicate Accepted(v: JsValue) {
    match v
    case JsNull => true
    case JsBoolean(_) => true
    case JsNumber(text) => text.Some?
    case JsString(s) => WellFormed(s)
    case JsArray(items) => forall i :: 0 <= i < |items| ==> items[i].Some? && Accepted(items[i].value)
    case JsObject(props, order) => forall k :: k in props ==> WellFormed(k) && Accepted(props[k])
    case JsUndefined => false
    case JsFunctionOrSymbol => false
  }

  /** The value itself: what is left of a JavaScript value when insertion order is forgotten. */
  ghost function Meaning(v: JsValue): Json
    requires Accepted(v)
  {
    match v
    case JsNull => Null
    case JsBoolean(b) => Bool(b)
    case JsNumber(text) => Num(text.value)
    case JsString(s) => Str(s)
    case JsArray(items) => Arr(seq(|items|, i requires 0 <= i < |items| && items[i].Some? &&
                                   Accepted(items[i].value) => Meaning(items[i].value)))
    case JsObject(props, order) => Obj(map k | k in props :: Meaning(props[k]))
  }

  ghost function CanonicalText(v: JsValue): Option<Text> {
    if Accepted(v) then Some(Write(Meaning(v))) else None
  }

  /** Two accepted values have the same canonical text exactly when they are the same value. */
  lemma CanonicalIffSame(v: JsValue, w: JsValue)
    requires Accepted(v) && Accepted(w)
    ensures CanonicalText(v) == CanonicalText(w) <==> Meaning(v) == Meaning(w)
  {
    hide Write;
    WriteInjective(Meaning(v), Meaning(w));
  }

  /** Same value up to the insertion order of properties, at every depth. */
  ghost predicate SameButForOrder(v: JsValue, w: JsValue) {
    match v
    case JsArray(items) =>
      && w.JsArray? && |w.items| == |items|
      && (forall i :: 0 <= i < |items| ==>
            if items[i].None? then w.items[i].None?
            else w.items[i].Some? && SameButForOrder(items[i].value, w.items[i].value))
    case JsObject(props, _) =>
      && w.JsObject? && w.props.Keys == props.Keys
      && (forall k :: k in props && k in w.props ==> SameButForOrder(props[k], w.props[k]))
    case _ => v == w
  }

  lemma {:induction false} OrderIsIrrelevant(v: JsValue, w: JsValue)
    requires SameButForOrder(v, w)
    ensures Accepted(v) <==> Accepted(w)
    ensures Accepted(v) ==> Meaning(v) == Meaning(w)
    ensures CanonicalText(v) == CanonicalText(w)
    decreases v
  {
    match v
    case JsArray(items) =>
      forall i | 0 <= i < |items| && items[i].Some? && w.items[i].Some?
        ensures Accepted(items[i].value) <==> Accepted(w.items[i].value)
        ensures Accepted(items[i].value) ==> Meaning(items[i].value) == Meaning(w.items[i].value)
      {
        OrderIsIrrelevant(items[i].value, w.items[i].value);
      }
    case JsObject(props, _) =>
      forall k | k in props && k in w.props
        ensures Accepted(props[k]) <==> Accepted(w.props[k])
        ensures Accepted(props[k]) ==> Meaning(props[k]) == Meaning(w.props[k])
      {
        OrderIsIrrelevant(props[k], w.props[k]);
      }
    case _ =>
  }

  // ----- assertWellFormed, canonicalize

  /** The index loop of assertWellFormed, which skips the low half of a valid pair. */
  method AssertWellFormed(s: Text) returns (ok: bool)
    ensures ok <==> WellFormed(s)
  {
    var i := 0;
    while i < |s|
      invariant 0 <= i <= |s|
      invariant i > 0 ==> !HighSurrogate(s[i - 1])
      invariant forall j :: 0 <= j < i ==> PairedAt(s, j)
    {
      var unit := s[i];
      assert WellFormed(s) ==> PairedAt(s, i);
      if HighSurrogate(unit) {
        if i + 1 >= |s| || !LowSurrogate(s[i + 1]) {
          return false;
        }
        assert PairedAt(s, i) && PairedAt(s, i + 1);
        i := i + 1;
      } else if LowSurrogate(unit) {
        return false;
      }
      i := i + 1;
    }
    return true;
  }

  ghost predicate ItemsAccepted(items: seq<Option<JsValue>>, n: nat)
    requires n <= |items|
  {
    forall i :: 0 <= i < n ==> items[i].Some? && Accepted(items[i].value)
  }

  lemma ArrayMeaning(v: JsValue, parts: seq<Text>)
    requires v.JsArray? && ItemsAccepted(v.items, |v.items|) && |parts| == |v.items|
    requires forall i :: 0 <= i < |parts| ==>
      v.items[i].Some? && Accepted(v.items[i].value) && parts[i] == Write(Meaning(v.items[i].value))
    ensures CanonicalText(v) == Some([91] + Join(parts) + [93])
  {
    var j := Meaning(v);
    ItemTextsAt(j);
    hide Join, ItemTexts;
    assert ItemTexts(j) == parts;
  }

  lemma MeaningOfObject(v: JsValue)
    requires v.JsObject? && Accepted(v)
    ensures Meaning(v).Obj? && Meaning(v).props.Keys == v.props.Keys
    ensures forall k :: k in v.props ==> Accepted(v.props[k]) && Meaning(v).props[k] == Meaning(v.props[k])
  {
  }

  /** The member texts of the first names, in sorted order. */
  ghost predicate MembersDone(v: JsValue, names: seq<Text>, parts: seq<Text>) {
    && v.JsObject? && |parts| <= |names|
    && (forall i :: 0 <= i < |parts| ==>
          && names[i] in v.props && WellFormed(names[i]) && Accepted(v.props[names[i]])
          && parts[i] == Quoted(names[i]) + [COLON] + Write(Meaning(v.props[names[i]])))
  }

  lemma ObjectMeaning(v: JsValue, names: seq<Text>, parts: seq<Text>)
    requires MembersDone(v, names, parts) && names == Sorted(v.props.Keys) && |parts| == |names|
    ensures CanonicalText(v) == Some([123] + Join(parts) + [125])
  {
    hide Join, Sorted, Quoted;
    AllMembers(v, names, parts);
    MeaningOfObject(v);
    hide Meaning, Accepted, WellFormed;
    var j := Meaning(v);
    MemberTextsAt(j);
    hide MemberTexts;
    assert MemberTexts(j) == parts;
  }

  lemma AllMembers(v: JsValue, names: seq<Text>, parts: seq<Text>)
    requires MembersDone(v, names, parts) && names == Sorted(v.props.Keys) && |parts| == |names|
    ensures Accepted(v)
  {
    hide Sorted, Quoted, Write, Meaning, WellFormed;
    forall k | k in v.props ensures WellFormed(k) && Accepted(v.props[k]) {
      assert k in names;
    }
  }

  lemma NotAccepted(v: JsValue, k: Text)
    requires v.JsObject? && k in v.props && (!WellFormed(k) || !Accepted(v.props[k]))
    ensures CanonicalText(v) == None
  {
  }

  /** canonicalize: fails on anything that is not plain well-formed data, else the canonical text. */
  method Canonicalize(v: JsValue) returns (r: Option<Text>)
    ensures r == CanonicalText(v)
    decreases v, 1
  {
    match v {
      case JsNull =>
        return Some(Null_());
      case JsNumber(text) =>
        return text;
      case JsString(s) =>
        var ok := AssertWellFormed(s);
        return if ok then Some(Quoted(s)) else None;
      case JsBoolean(b) =>
        return Some(if b then True_() else False_());
      case JsUndefined =>
        return None;
      case JsFunctionOrSymbol =>
        return None;
      case JsArray(_) =>
        r := CanonicalizeArray(v);
      case JsObject(_, _) =>
        r := CanonicalizeObject(v);
    }
  }

  /** In index order; a hole or an undefined element is refused. */
  method CanonicalizeArray(v: JsValue) returns (r: Option<Text>)
    requires v.JsArray?
    ensures r == CanonicalText(v)
    decreases v, 0
  {
    hide Write;
    var parts := [];
    for i := 0 to |v.items|
      invariant |parts| == i && ItemsAccepted(v.items, i)
      invariant forall j :: 0 <= j < i ==> parts[j] == Write(Meaning(v.items[j].value))
    {
      if v.items[i].None? || v.items[i].value == JsUndefined {
        assert v.items[i].Some? ==> !Accepted(v.items[i].value);
        return None;
      }
      var part := Canonicalize(v.items[i].value);
      if part.None? {
        assert !Accepted(v.items[i].value);
        return None;
      }
      parts := parts + [part.value];
    }
    ArrayMeaning(v, parts);
    return Some([91] + Join(parts) + [93]);
  }

  /** In the order of the sorted names, whatever the insertion order. */
  method CanonicalizeObject(v: JsValue) returns (r: Option<Text>)
    requires v.JsObject?
    ensures r == CanonicalText(v)
    decreases v, 0
  {
    hide Write, Quoted, Meaning, Accepted, CanonicalText, WellFormed, MembersDone, Join;
    var names := Sorted(v.props.Keys);
    hide Sorted;
    var parts := [];
    assert MembersDone(v, names, parts) by { NoMembers(v, names); }
    for i := 0 to |names|
      invariant |parts| == i && MembersDone(v, names, parts)
    {
      assert names[i] in v.props;
      var k := names[i];
      var ok := AssertWellFormed(k);
      if !ok || v.props[k] == JsUndefined {
        RefusedMember(v, k, ok);
        return None;
      }
      var value := Canonicalize(v.props[k]);
      TextOfMember(v.props[k]);
      if value.None? {
        NotAccepted(v, k);
        return None;
      }
      MemberAdded(v, names, parts, value.value);
      parts := parts + [Quoted(k) + [COLON] + value.value];
    }
    ObjectMeaning(v, names, parts);
    return Some([123] + Join(parts) + [125]);
  }

  lemma NoMembers(v: JsValue, names: seq<Text>)
    requires v.JsObject?
    ensures MembersDone(v, names, [])
  {
  }

  lemma MemberAdded(v: JsValue, names: seq<Text>, parts: seq<Text>, value: Text)
    requires MembersDone(v, names, parts) && |parts| < |names|
    requires var k := names[|parts|];
      k in v.props && WellFormed(k) && Accepted(v.props[k]) && value == Write(Meaning(v.props[k]))
    ensures MembersDone(v, names, parts + [Quoted(names[|parts|]) + [COLON] + value])
  {
    hide Write, Quoted, Meaning, Accepted, WellFormed;
  }

  lemma RefusedMember(v: JsValue, k: Text, ok: bool)
    requires v.JsObject? && k in v.props && (ok <==> WellFormed(k)) && (!ok || v.props[k] == JsUndefined)
    ensures CanonicalText(v) == None
  {
    NotAccepted(v, k);
  }

  lemma TextOfMember(v: JsValue)
    ensures CanonicalText(v).Some? <==> Accepted(v)
    ensures Accepted(v) ==> CanonicalText(v) == Some(Write(Meaning(v)))
  {
  }

  // ----- The preimage of a request fingerprint

  datatype VersionClass = Legacy | Version2 | Version3
  datatype OperationName = WriteOperation | ReconcileOperation | RecordOperation | PatchOperation

  datatype Content = Content(
    scopeKey: Text, state: Json, events: Json, factChanges: Json, loopChanges: Json, evidenceRefs: Json)

  /** What requestFingerprint is handed; a missing operation is a write, version 1 or none is legacy. */
  datatype FingerprintInput = FingerprintInput(
    agent: Text, scopeKey: Text, expectedRevision: Option<NumberText>, parent: Option<Text>,
    version: VersionClass, operation: OperationName, reconcile: Option<Json>, patch: Option<Json>,
    acknowledgeRetired: bool, content: Content)

  function OrNull(a: Option<Text>): Json {
    if a.Some? then Str(a.value) else Null
  }

  function OperationText(o: OperationName): Text
    requires o != WriteOperation
  {
    match o
    case ReconcileOperation => Units("reconcile")
    case RecordOperation => Units("record")
    case PatchOperation => Units("patch")
  }

  function VersionField(v: VersionClass): Option<Json> {
    match v
    case Legacy => None
    case Version2 => Some(Num([50]))
    case Version3 => Some(Num([51]))
  }

  function ContentNames(): seq<Text> {
    [Units("scopeKey"), Units("state"), Units("events"), Units("factChanges"), Units("loopChanges"),
     Units("evidenceRefs")]
  }

  function ContentValues(c: Content): seq<Option<Json>> {
    [Some(Str(c.scopeKey)), Some(c.state), Some(c.events), Some(c.factChanges), Some(c.loopChanges),
     Some(c.evidenceRefs)]
  }

  function FingerprintNames(): seq<Text> {
    [Units("canonicalAgentId"), Units("scopeKey"), Units("expectedRevision"), Units("resolvedParentStateId"),
     Units("content"), Units("resultVersion"), Units("operation"), Units("reconcile"), Units("patch"),
     Units("acknowledgeRetired")]
  }

  /** The always-present properties, then the optional ones; the content is a string, canonical itself. */
  function FingerprintValues(i: FingerprintInput): seq<Option<Json>> {
    [Some(Str(i.agent)), Some(Str(i.scopeKey)),
     Some(if i.expectedRevision.Some? then Num(i.expectedRevision.value) else Null), Some(OrNull(i.parent)),
     Some(Str(Write(Record(ContentNames(), ContentValues(i.content))))),
     VersionField(i.version),
     if i.operation == WriteOperation then None else Some(Str(OperationText(i.operation))),
     i.reconcile, i.patch, if i.acknowledgeRetired then Some(Bool(true)) else None]
  }

  /** An object with the given properties, absent ones left out. */
  function Record(names: seq<Text>, values: seq<Option<Json>>): Json
    requires |names| == |values|
  {
    Obj(Properties(names, values, |names|))
  }

  function Properties(names: seq<Text>, values: seq<Option<Json>>, n: nat): map<Text, Json>
    requires n <= |names| == |values|
  {
    if n == 0 then map[]
    else
      var before := Properties(names, values, n - 1);
      if values[n - 1].Some? then before[names[n - 1] := values[n - 1].value] else before
  }

  /** The exact text that is hashed. */
  function Preimage(i: FingerprintInput): Text {
    Write(Record(FingerprintNames(), FingerprintValues(i)))
  }

  ghost predicate Distinct(names: seq<Text>) {
    forall i, j :: 0 <= i < j < |names| ==> names[i] != names[j]
  }

  lemma {:induction false} PropertyAt(names: seq<Text>, values: seq<Option<Json>>, n: nat, i: nat)
    requires i < n <= |names| == |values| && Distinct(names)
    ensures names[i] in Properties(names, values, n) <==> values[i].Some?
    ensures values[i].Some? ==> Properties(names, values, n)[names[i]] == values[i].value
  {
    if i < n - 1 {
      PropertyAt(names, values, n - 1, i);
    } else {
      NotBefore(names, values, n - 1);
    }
  }

  lemma {:induction false} NotBefore(names: seq<Text>, values: seq<Option<Json>>, n: nat)
    requires n < |names| == |values| && Distinct(names)
    ensures names[n] !in Properties(names, values, n)
  {
    PropertiesNamed(names, values, n);
  }

  lemma {:induction false} PropertiesNamed(names: seq<Text>, values: seq<Option<Json>>, n: nat)
    requires n <= |names| == |values|
    ensures forall k :: k in Properties(names, values, n) ==> k in names[..n]
  {
    if n > 0 {
      PropertiesNamed(names, values, n - 1);
      assert names[..n] == names[..n - 1] + [names[n - 1]];
    }
  }

  /** An object determines every property, the absent ones included. */
  lemma RecordDetermines(names: seq<Text>, a: seq<Option<Json>>, b: seq<Option<Json>>)
    requires |names| == |a| == |b| && Distinct(names) && Record(names, a) == Record(names, b)
    ensures a == b
  {
    forall i | 0 <= i < |names| ensures a[i] == b[i] {
      PropertyAt(names, a, |names|, i);
      PropertyAt(names, b, |names|, i);
    }
  }

  lemma RecordInjective(names: seq<Text>, a: seq<Option<Json>>, b: seq<Option<Json>>)
    requires |names| == |a| == |b| && Distinct(names)
    ensures Write(Record(names, a)) == Write(Record(names, b)) <==> a == b
  {
    hide Write;
    WriteInjective(Record(names, a), Record(names, b));
    if Record(names, a) == Record(names, b) {
      RecordDetermines(names, a, b);
    }
  }

  lemma NamesDistinct()
    ensures Distinct(FingerprintNames()) && Distinct(ContentNames())
  {
    assert Units("canonicalAgentId")[0] == 99 && Units("expectedRevision")[0] == 101;
    assert Units("operation")[0] == 111 && Units("reconcile")[0] == 114;
    assert Units("factChanges")[0] == 102 && Units("loopChanges")[0] == 108;
  }

  lemma OperationTextsDiffer(a: OperationName, b: OperationName)
    requires a != WriteOperation && b != WriteOperation
    ensures OperationText(a) == OperationText(b) <==> a == b
  {
  }

  /**
   Two preimages are equal exactly when author, scope, position, parent, version class, operation,
   reconcile request, patch, acknowledgement and content are all equal.
   */
  lemma PreimageIff(a: FingerprintInput, b: FingerprintInput)
    ensures Preimage(a) == Preimage(b) <==> a == b
  {
    hide Write, Record, ContentNames, FingerprintNames, OperationText, Units;
    NamesDistinct();
    assert |FingerprintNames()| == 10 && |ContentNames()| == 6 by { NameCounts(); }
    RecordInjective(FingerprintNames(), FingerprintValues(a), FingerprintValues(b));
    RecordInjective(ContentNames(), ContentValues(a.content), ContentValues(b.content));
    if a.operation != WriteOperation && b.operation != WriteOperation {
      OperationTextsDiffer(a.operation, b.operation);
    }
    if FingerprintValues(a) == FingerprintValues(b) {
      SameValues(a, b);
    }
  }

  lemma NameCounts()
    ensures |FingerprintNames()| == 10 && |ContentNames()| == 6
  {
  }

  lemma SameValues(a: FingerprintInput, b: FingerprintInput)
    requires FingerprintValues(a) == FingerprintValues(b)
    requires Write(Record(ContentNames(), ContentValues(a.content))) ==
      Write(Record(ContentNames(), ContentValues(b.content)))
      ==> ContentValues(a.content) == ContentValues(b.content)
    requires a.operation != WriteOperation && b.operation != WriteOperation ==>
      (OperationText(a.operation) == OperationText(b.operation) <==> a.operation == b.operation)
    ensures a == b
  {
    hide Write, Record, ContentNames, FingerprintNames, OperationText, Units;
    var x, y := FingerprintValues(a), FingerprintValues(b);
    assert forall i :: 0 <= i < 10 ==> x[i] == y[i];
    assert x[0] == y[0] && x[1] == y[1] && x[2] == y[2] && x[3] == y[3] && x[4] == y[4];
    assert x[5] == y[5] && x[6] == y[6] && x[7] == y[7] && x[8] == y[8] && x[9] == y[9];
    var c, d := ContentValues(a.content), ContentValues(b.content);
    assert c[0] == d[0] && c[1] == d[1] && c[2] == d[2] && c[3] == d[3] && c[4] == d[4] && c[5] == d[5];
  }
}
