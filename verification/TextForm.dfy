/**
 The canonical text stated on its own: the order of names by their first differing code unit, the
 escapes letter by letter, which texts and values have a form at all, and whole texts as literals.
 */
module TextForm {
  import opened JsonValues
  import opened Canonical
  import opened Canonicalizing
  import opened Ordering

  // ----- The order of names

  /** k is where the texts first differ: there a ends, or has the smaller unit. */
  ghost predicate SmallerAt(a: Text, b: Text, k: nat) {
    k <= |a| && k < |b| && a[..k] == b[..k] && (k == |a| || a[k] < b[k])
  }

  /** a comes first: it is a proper prefix of b, or has the smaller unit where they first differ. */
  ghost predicate Precedes(a: Text, b: Text) {
    exists k: nat :: SmallerAt(a, b, k)
  }

  lemma SmallerBelow(a: Text, b: Text, k: nat)
    requires a != [] && b != [] && a[0] == b[0]
    ensures SmallerAt(a, b, k + 1) <==> SmallerAt(a[1..], b[1..], k)
    ensures !SmallerAt(a, b, 0)
  {
    if k < |a| && k < |b| {
      assert a[..k + 1] == [a[0]] + a[1..][..k] && b[..k + 1] == [b[0]] + b[1..][..k];
      if a[..k + 1] == b[..k + 1] {
        assert a[1..][..k] == a[..k + 1][1..] == b[..k + 1][1..] == b[1..][..k];
      }
    }
  }

  lemma {:induction false} BelowIff(a: Text, b: Text)
    ensures Below(a, b) <==> Precedes(a, b)
  {
    if a != [] && b != [] && a[0] == b[0] {
      BelowIff(a[1..], b[1..]);
      if Precedes(a[1..], b[1..]) {
        var k: nat :| SmallerAt(a[1..], b[1..], k);
        SmallerBelow(a, b, k);
      }
      if Precedes(a, b) {
        var k: nat :| SmallerAt(a, b, k);
        SmallerBelow(a, b, if k == 0 then 0 else k - 1);
        assert SmallerAt(a[1..], b[1..], k - 1);
      }
    } else {
      AtFirst(a, b);
    }
  }

  lemma AtFirst(a: Text, b: Text)
    requires a == [] || b == [] || a[0] != b[0]
    ensures Precedes(a, b) <==> b != [] && (a == [] || a[0] < b[0])
  {
    if b != [] && (a == [] || a[0] < b[0]) {
      assert SmallerAt(a, b, 0);
    }
    if Precedes(a, b) {
      var k: nat :| SmallerAt(a, b, k);
      if k > 0 {
        FirstAgrees(a, b, k);
      }
    }
  }

  lemma FirstAgrees(a: Text, b: Text, k: nat)
    requires 0 < k <= |a| && k <= |b| && a[..k] == b[..k]
    ensures a[0] == b[0]
  {
    assert a[..k][0] == b[..k][0];
  }

  /** The names of an object are written in this order, each once. */
  lemma SortedByCodeUnits(keys: set<Text>)
    ensures forall k :: k in keys <==> k in Sorted(keys)
    ensures forall i, j :: 0 <= i < j < |Sorted(keys)| ==> Precedes(Sorted(keys)[i], Sorted(keys)[j])
  {
    hide Precedes;
    var out := Sorted(keys);
    forall i, j | 0 <= i < j < |out| ensures Precedes(out[i], out[j]) {
      BelowIff(out[i], out[j]);
    }
  }

  // ----- Escapes

  predicate LowerHex(u: CodeUnit) { 48 <= u <= 57 || 97 <= u <= 102 }

  function HexValue(u: CodeUnit): int
    requires LowerHex(u)
  {
    if u <= 57 then u as int - 48 else u as int - 87
  }

  /** Section 3.2.2.2 of RFC 8785: seven short escapes, lower-case hexadecimal for other controls, the rest as is. */
  lemma EscapeIs(u: CodeUnit)
    ensures Escape(34) == Units("\\\"") && Escape(92) == Units("\\\\")
    ensures Escape(8) == Units("\\b") && Escape(9) == Units("\\t") && Escape(10) == Units("\\n")
    ensures Escape(12) == Units("\\f") && Escape(13) == Units("\\r")
    ensures u < 32 && u !in {8, 9, 10, 12, 13} ==>
      && |Escape(u)| == 6 && Escape(u)[..4] == Units("\\u00")
      && LowerHex(Escape(u)[4]) && LowerHex(Escape(u)[5])
      && HexValue(Escape(u)[4]) * 16 + HexValue(Escape(u)[5]) == u as int
    ensures u >= 32 && u !in {34, 92} ==> Escape(u) == [u]
  {
  }

  // ----- Which texts are well formed

  lemma {:induction false} EncodedWellFormed(s: string)
    ensures WellFormed(Utf16(s))
  {
    if s != "" {
      EncodedWellFormed(s[1..]);
      PrefixedWellFormed(Encode(s[0]), Utf16(s[1..]));
      CharWellFormed(s[0]);
    }
  }

  lemma CharWellFormed(c: char)
    ensures WellFormed(Encode(c))
  {
  }

  lemma PrefixedWellFormed(a: Text, b: Text)
    ensures WellFormed(a) && WellFormed(b) ==> WellFormed(a + b)
  {
    var t := a + b;
    if WellFormed(a) && WellFormed(b) {
      forall i | 0 <= i < |t| ensures PairedAt(t, i) {
        if i < |a| {
          assert PairedAt(a, i);
        } else {
          assert PairedAt(b, i - |a|);
        }
      }
    }
  }

  /** Read one character off the front. */
  lemma {:induction false} Decoded(t: Text) returns (s: string)
    requires WellFormed(t)
    ensures Utf16(s) == t
  {
    if t == [] {
      s := "";
    } else {
      assert PairedAt(t, 0);
      var n := if HighSurrogate(t[0]) then 2 else 1;
      assert n == 2 ==> LowSurrogate(t[1]);
      var u := t[0] as int;
      var c := if n == 1 then u as char
               else (0x1_0000 + (u - 0xd800) * 0x400 + (t[1] as int - 0xdc00)) as char;
      assert Encode(c) == t[..n];
      TailWellFormed(t, n);
      var rest := Decoded(t[n..]);
      s := [c] + rest;
      assert s[1..] == rest && t == t[..n] + t[n..];
    }
  }

  lemma TailWellFormed(t: Text, n: nat)
    requires WellFormed(t) && 1 <= n <= |t| && !HighSurrogate(t[n - 1])
    ensures WellFormed(t[n..])
  {
    forall i | 0 <= i < |t[n..]| ensures PairedAt(t[n..], i) {
      assert PairedAt(t, n + i);
    }
  }

  ghost predicate ScalarText(t: Text) {
    exists s: string :: Utf16(s) == t
  }

  /** A text has a canonical form exactly when it is the UTF-16 of a string of Unicode scalar values. */
  lemma WellFormedIff(t: Text)
    ensures WellFormed(t) <==> ScalarText(t)
  {
    if WellFormed(t) {
      var s := Decoded(t);
      assert Utf16(s) == t;
    }
    if ScalarText(t) {
      var s: string :| Utf16(s) == t;
      EncodedWellFormed(s);
    }
  }

  // ----- Whole texts

  /** {"a":1,"b":2}, whichever property was put in first. */
  lemma TextOfPair()
    ensures Write(Obj(map[Units("b") := Num([50]), Units("a") := Num([49])])) == Units("{\"a\":1,\"b\":2}")
  {
    hide Write;
    assert Units("a") == [97] && Units("b") == [98];
    PairLiteral();
    hide Units;
    var j := Obj(map[[98] := Num([50]), [97] := Num([49])]);
    assert j.props.Keys == {[97], [98]};
    PairSorted([97], [98]);
    MembersOfPair(j);
  }

  lemma PairLiteral()
    ensures Units("{\"a\":1,\"b\":2}") == [123, 34, 97, 34, 58, 49, 44, 34, 98, 34, 58, 50, 125]
  {
  }

  lemma NumberWritten(n: NumberText)
    ensures Write(Num(n)) == n
  {
  }

  lemma MemberAt(j: Json, i: nat)
    requires j.Obj? && i < |Sorted(j.props.Keys)|
    ensures var k := Sorted(j.props.Keys)[i];
      && |MemberTexts(j)| == |Sorted(j.props.Keys)| && k in j.props
      && MemberTexts(j)[i] == Quoted(k) + [COLON] + Write(j.props[k])
  {
    hide Quoted, Write;
  }

  lemma ObjectWritten(j: Json)
    requires j.Obj?
    ensures Write(j) == [123] + Join(MemberTexts(j)) + [125]
  {
  }

  lemma MembersOfPair(j: Json)
    requires j.Obj? && Sorted(j.props.Keys) == [[97], [98]]
    requires [97] in j.props && j.props[[97]] == Num([49]) && [98] in j.props && j.props[[98]] == Num([50])
    ensures Write(j) == [123, 34, 97, 34, 58, 49, 44, 34, 98, 34, 58, 50, 125]
  {
    hide Sorted, Quoted, Write, MemberTexts, Join;
    OneUnitQuoted(97);
    OneUnitQuoted(98);
    MemberAt(j, 0);
    MemberAt(j, 1);
    NumberWritten([49]);
    NumberWritten([50]);
    var first: Text, second: Text := [34, 97, 34, 58, 49], [34, 98, 34, 58, 50];
    assert first == [34, 97, 34] + [COLON] + [49] && second == [34, 98, 34] + [COLON] + [50];
    assert MemberTexts(j)[0] == first && MemberTexts(j)[1] == second;
    assert MemberTexts(j) == [first, second];
    JoinTwo(first, second);
    ObjectWritten(j);
  }

  lemma JoinTwo(a: Text, b: Text)
    ensures Join([a, b]) == a + [COMMA] + b
  {
    assert [a, b][1..] == [b];
  }

  lemma OneUnitQuoted(u: CodeUnit)
    requires u >= 32 && u != 34 && u != 92
    ensures Quoted([u]) == [34, u, 34]
  {
    assert Escaped([u]) == Escape(u) + Escaped([]);
  }

  lemma PairSorted(a: Text, b: Text)
    requires a != b && Below(a, b)
    ensures Sorted({a, b}) == [a, b]
  {
    var out := Sorted({a, b});
    assert |{a, b}| == 2;
    assert out[0] in {a, b} && out[1] in {a, b} && Below(out[0], out[1]);
    BelowIrreflexive(a);
    BelowIrreflexive(b);
    if out[0] == b {
      BelowTransitive(a, b, a);
    }
  }

  /** [null,true,false,-1,"\n\u0001\""] */
  lemma TextOfList()
    ensures Write(Arr([Null, Bool(true), Bool(false), Num([45, 49]), Str([10, 1, 34])])) ==
      Units("[null,true,false,-1,\"\\n\\u0001\\\"\"]")
  {
    var j := Arr([Null, Bool(true), Bool(false), Num([45, 49]), Str([10, 1, 34])]);
    var text := [34, 92, 110, 92, 117, 48, 48, 48, 49, 92, 34, 34];
    assert Quoted([10, 1, 34]) == text by { ThreeQuoted(); }
    var parts := ItemTexts(j);
    assert parts[0] == Null_() && parts[1] == True_() && parts[2] == False_() && parts[3] == [45, 49];
    assert parts[4] == text by { hide Quoted; }
    assert parts == [Null_(), True_(), False_(), [45, 49], text];
    JoinFive(Null_(), True_(), False_(), [45, 49], text);
    assert Units("null") == Null_() && Units("true") == True_() && Units("false") == False_();
    ListLiteral();
  }

  lemma ListLiteral()
    ensures Units("[null,true,false,-1,\"\\n\\u0001\\\"\"]") ==
      [91] + (Null_() + [COMMA] + (True_() + [COMMA] + (False_() + [COMMA] + ([45, 49] + [COMMA] +
       [34, 92, 110, 92, 117, 48, 48, 48, 49, 92, 34, 34])))) + [93]
  {
  }

  lemma ThreeQuoted()
    ensures Quoted([10, 1, 34]) == [34, 92, 110, 92, 117, 48, 48, 48, 49, 92, 34, 34]
  {
    ThreeEscaped(10, 1, 34);
    hide Escaped;
  }

  lemma JoinFive(a: Text, b: Text, c: Text, d: Text, e: Text)
    ensures Join([a, b, c, d, e]) == a + [COMMA] + (b + [COMMA] + (c + [COMMA] + (d + [COMMA] + e)))
  {
    assert [a, b, c, d, e][1..] == [b, c, d, e] && [b, c, d, e][1..] == [c, d, e] && [c, d, e][1..] == [d, e];
    JoinTwo(d, e);
    assert Join([c, d, e]) == c + [COMMA] + Join([d, e]);
    assert Join([b, c, d, e]) == b + [COMMA] + Join([c, d, e]);
  }

  lemma ThreeEscaped(a: CodeUnit, b: CodeUnit, c: CodeUnit)
    ensures Escaped([a, b, c]) == Escape(a) + (Escape(b) + Escape(c))
  {
    assert [a, b, c][1..] == [b, c] && [b, c][1..] == [c] && [c][1..] == [];
    assert Escaped([c]) == Escape(c) + Escaped([]);
    assert Escaped([b, c]) == Escape(b) + Escaped([c]);
  }

  // ----- Which values have a form

  /** w is v or a value somewhere inside it. */
  ghost predicate Inside(v: JsValue, w: JsValue)
    decreases v
  {
    || v == w
    || (v.JsArray? && exists i :: 0 <= i < |v.items| && v.items[i].Some? && Inside(v.items[i].value, w))
    || (v.JsObject? && exists k :: k in v.props && Inside(v.props[k], w))
  }

  /** Data on its own: no undefined, function or symbol, no hole, a finite number, texts of scalar values. */
  ghost predicate DataNode(w: JsValue) {
    && !w.JsUndefined? && !w.JsFunctionOrSymbol?
    && (w.JsNumber? ==> w.text.Some?)
    && (w.JsString? ==> ScalarText(w.s))
    && (w.JsArray? ==> forall i :: 0 <= i < |w.items| ==> w.items[i].Some?)
    && (w.JsObject? ==> forall k :: k in w.props ==> ScalarText(k))
  }

  /** A value is accepted exactly when everything inside it is data on its own. */
  lemma {:induction false} AcceptedIff(v: JsValue)
    ensures Accepted(v) <==> forall w :: Inside(v, w) ==> DataNode(w)
    decreases v
  {
    forall t ensures WellFormed(t) <==> ScalarText(t) {
      WellFormedIff(t);
    }
    hide WellFormed, ScalarText;
    match v
    case JsArray(items) =>
      forall i | 0 <= i < |items| && items[i].Some?
        ensures Accepted(items[i].value) <==> forall w :: Inside(items[i].value, w) ==> DataNode(w)
      {
        AcceptedIff(items[i].value);
      }
      ArrayAccepted(v);
    case JsObject(props, _) =>
      forall k | k in props ensures Accepted(props[k]) <==> forall w :: Inside(props[k], w) ==> DataNode(w) {
        AcceptedIff(props[k]);
      }
      ObjectAccepted(v);
    case _ => NodeAccepted(v);
  }

  lemma NodeAccepted(v: JsValue)
    requires !v.JsArray? && !v.JsObject? && forall t :: WellFormed(t) <==> ScalarText(t)
    ensures Accepted(v) <==> forall w :: Inside(v, w) ==> DataNode(w)
  {
    hide WellFormed, ScalarText, Accepted, DataNode;
    LeafAccepted(v);
    assert Inside(v, v);
    forall w | Inside(v, w) ensures w == v {
    }
  }

  lemma LeafAccepted(v: JsValue)
    requires !v.JsArray? && !v.JsObject? && (v.JsString? ==> (WellFormed(v.s) <==> ScalarText(v.s)))
    ensures Accepted(v) <==> DataNode(v)
  {
    hide WellFormed, ScalarText;
  }

  lemma ArrayAccepted(v: JsValue)
    requires v.JsArray?
    requires forall i :: 0 <= i < |v.items| && v.items[i].Some? ==>
      (Accepted(v.items[i].value) <==> forall w :: Inside(v.items[i].value, w) ==> DataNode(w))
    ensures Accepted(v) <==> forall w :: Inside(v, w) ==> DataNode(w)
  {
    hide ScalarText, WellFormed;
    assert Inside(v, v);
    if forall w :: Inside(v, w) ==> DataNode(w) {
      forall i | 0 <= i < |v.items| ensures v.items[i].Some? && Accepted(v.items[i].value) {
        forall w | Inside(v.items[i].value, w) ensures DataNode(w) {
          assert Inside(v, w);
        }
      }
    }
    if Accepted(v) {
      forall w | Inside(v, w) ensures DataNode(w) {
        if v != w {
          var i :| 0 <= i < |v.items| && v.items[i].Some? && Inside(v.items[i].value, w);
          assert Accepted(v.items[i].value);
        }
      }
    }
  }

  lemma ObjectAccepted(v: JsValue)
    requires v.JsObject? && forall t :: WellFormed(t) <==> ScalarText(t)
    requires forall k :: k in v.props ==> (Accepted(v.props[k]) <==> forall w :: Inside(v.props[k], w) ==> DataNode(w))
    ensures Accepted(v) <==> forall w :: Inside(v, w) ==> DataNode(w)
  {
    hide ScalarText, WellFormed;
    assert Inside(v, v);
    if forall w :: Inside(v, w) ==> DataNode(w) {
      forall k | k in v.props ensures WellFormed(k) && Accepted(v.props[k]) {
        forall w | Inside(v.props[k], w) ensures DataNode(w) {
          assert Inside(v, w);
        }
      }
    }
    if Accepted(v) {
      forall w | Inside(v, w) ensures DataNode(w) {
        if v != w {
          var k :| k in v.props && Inside(v.props[k], w);
          assert Accepted(v.props[k]);
        }
      }
    }
  }

  /** What each kind of value means: itself, items in order, properties under their names. */
  lemma MeaningIs(v: JsValue)
    requires Accepted(v)
    ensures v.JsNull? ==> Meaning(v) == Null
    ensures v.JsBoolean? ==> Meaning(v) == Bool(v.b)
    ensures v.JsNumber? ==> v.text.Some? && Meaning(v) == Num(v.text.value)
    ensures v.JsString? ==> Meaning(v) == Str(v.s)
    ensures v.JsArray? ==> Meaning(v).Arr? && |Meaning(v).items| == |v.items| && forall i :: 0 <= i < |v.items| ==>
      v.items[i].Some? && Accepted(v.items[i].value) && Meaning(v).items[i] == Meaning(v.items[i].value)
    ensures v.JsObject? ==> Meaning(v).Obj? && Meaning(v).props.Keys == v.props.Keys && forall k :: k in v.props ==>
      Accepted(v.props[k]) && Meaning(v).props[k] == Meaning(v.props[k])
  {
    hide WellFormed;
  }
}
