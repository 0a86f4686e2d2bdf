/**
 Canonical JSON text, RFC 8785: strings are escaped as in section 3.2.2.2, properties are sorted by
 the UTF-16 code units of their names as in section 3.2.3, and nothing insignificant is written.
 The text is read back by an inverse parser, so equal texts mean equal values.
 */
module Canonical {
  import opened Options
  import opened JsonValues

  // ----- The order of property names

  predicate Below(a: Text, b: Text) {
    b != [] && (a == [] || a[0] < b[0] || (a[0] == b[0] && Below(a[1..], b[1..])))
  }

  lemma {:induction false} BelowTotal(a: Text, b: Text)
    ensures a == b || Below(a, b) || Below(b, a)
  {
    if a != [] && b != [] && a[0] == b[0] {
      BelowTotal(a[1..], b[1..]);
      assert a == [a[0]] + a[1..] && b == [b[0]] + b[1..];
    }
  }

  lemma {:induction false} BelowTransitive(a: Text, b: Text, c: Text)
    requires Below(a, b) && Below(b, c)
    ensures Below(a, c)
  {
    if a != [] && a[0] == b[0] == c[0] {
      BelowTransitive(a[1..], b[1..], c[1..]);
    }
  }

  lemma {:induction false} BelowIrreflexive(a: Text)
    ensures !Below(a, a)
  {
    if a != [] {
      BelowIrreflexive(a[1..]);
    }
  }

  predicate IsFirst(keys: set<Text>, m: Text) {
    m in keys && forall k :: k in keys ==> k == m || Below(m, k)
  }

  lemma {:induction false} HasFirst(keys: set<Text>)
    requires keys != {}
    ensures exists m :: IsFirst(keys, m)
    decreases |keys|
  {
    var x :| x in keys;
    if keys == {x} {
      assert IsFirst(keys, x);
    } else {
      HasFirst(keys - {x});
      var m :| IsFirst(keys - {x}, m);
      BelowTotal(x, m);
      if Below(x, m) {
        forall k | k in keys ensures k == x || Below(x, k) {
          if k != x && k != m {
            BelowTransitive(x, m, k);
          }
        }
        assert IsFirst(keys, x);
      } else {
        assert IsFirst(keys, m);
      }
    }
  }

  lemma FirstUnique(keys: set<Text>, a: Text, b: Text)
    requires IsFirst(keys, a) && IsFirst(keys, b)
    ensures a == b
  {
    if a != b {
      BelowTransitive(a, b, a);
      BelowIrreflexive(a);
    }
  }

  function First(keys: set<Text>): (m: Text)
    requires keys != {}
    ensures IsFirst(keys, m)
  {
    HasFirst(keys);
    assert forall a, b :: IsFirst(keys, a) && IsFirst(keys, b) ==> a == b by {
      forall a, b | IsFirst(keys, a) && IsFirst(keys, b) ensures a == b {
        FirstUnique(keys, a, b);
      }
    }
    var m :| IsFirst(keys, m);
    m
  }

  /** The names in ascending order of their code units. */
  function Sorted(keys: set<Text>): (out: seq<Text>)
    ensures |out| == |keys|
    ensures forall i :: 0 <= i < |out| ==> out[i] in keys
    ensures forall k :: k in keys ==> k in out
    ensures forall i, j :: 0 <= i < j < |out| ==> Below(out[i], out[j])
  {
    if keys == {} then [] else
      var m := First(keys);
      [m] + Sorted(keys - {m})
  }

  // ----- Strings

  const QUOTE: CodeUnit := 34
  const BACKSLASH: CodeUnit := 92
  const COMMA: CodeUnit := 44
  const COLON: CodeUnit := 58

  function Hex(d: CodeUnit): (h: CodeUnit)
    requires d < 16
    ensures 48 <= h <= 57 || 97 <= h <= 102
  {
    if d < 10 then 48 + d else 87 + d
  }

  function FromHex(h: CodeUnit): Option<CodeUnit> {
    if 48 <= h <= 57 then Some(h - 48) else if 97 <= h <= 102 then Some(h - 87) else None
  }

  /** The two-character escapes where defined, lowercase hexadecimal for other controls. */
  function Escape(u: CodeUnit): (e: Text)
    ensures |e| > 0 && e[0] != QUOTE
  {
    if u == QUOTE then [BACKSLASH, QUOTE]
    else if u == BACKSLASH then [BACKSLASH, BACKSLASH]
    else if u == 8 then [BACKSLASH, 98]
    else if u == 9 then [BACKSLASH, 116]
    else if u == 10 then [BACKSLASH, 110]
    else if u == 12 then [BACKSLASH, 102]
    else if u == 13 then [BACKSLASH, 114]
    else if u < 32 then [BACKSLASH, 117, 48, 48, Hex(u / 16), Hex(u % 16)]
    else [u]
  }

  function Escaped(s: Text): Text {
    if s == [] then [] else Escape(s[0]) + Escaped(s[1..])
  }

  function Quoted(s: Text): Text {
    [QUOTE] + Escaped(s) + [QUOTE]
  }

  /** One character, escaped or not. */
  function ReadUnit(t: Text): (r: Option<(CodeUnit, Text)>)
    ensures r.Some? ==> |r.value.1| < |t|
  {
    if t == [] then None
    else if t[0] != BACKSLASH then Some((t[0], t[1..]))
    else if |t| < 2 then None
    else if t[1] == QUOTE || t[1] == BACKSLASH then Some((t[1], t[2..]))
    else if t[1] == 98 then Some((8, t[2..]))
    else if t[1] == 116 then Some((9, t[2..]))
    else if t[1] == 110 then Some((10, t[2..]))
    else if t[1] == 102 then Some((12, t[2..]))
    else if t[1] == 114 then Some((13, t[2..]))
    else if t[1] != 117 || |t| < 6 || t[2] != 48 || t[3] != 48 then None
    else
      var hi, lo := FromHex(t[4]), FromHex(t[5]);
      if hi.None? || lo.None? then None else Some((hi.value * 16 + lo.value, t[6..]))
  }

  /** The rest of a string literal, after its opening quote. */
  function ReadString(t: Text): (r: Option<(Text, Text)>)
    ensures r.Some? ==> |r.value.1| < |t|
    decreases |t|
  {
    if t == [] then None
    else if t[0] == QUOTE then Some(([], t[1..]))
    else
      var unit := ReadUnit(t);
      if unit.None? then None
      else
        var more := ReadString(unit.value.1);
        if more.None? then None else Some(([unit.value.0] + more.value.0, more.value.1))
  }

  lemma ReadEscape(u: CodeUnit, rest: Text)
    ensures ReadUnit(Escape(u) + rest) == Some((u, rest))
  {
    var t := Escape(u) + rest;
    assert t[|Escape(u)|..] == rest;
    if u < 32 {
      assert u == u / 16 * 16 + u % 16;
    }
  }

  lemma {:induction false} ReadEscaped(s: Text, rest: Text)
    ensures ReadString(Escaped(s) + [QUOTE] + rest) == Some((s, rest))
  {
    hide ReadUnit, Escape;
    var t := Escaped(s) + [QUOTE] + rest;
    if s == [] {
      assert t == [QUOTE] + rest;
    } else {
      var tail := Escaped(s[1..]) + [QUOTE] + rest;
      assert t == Escape(s[0]) + tail;
      ReadEscape(s[0], tail);
      ReadEscaped(s[1..], rest);
      assert s == [s[0]] + s[1..];
    }
  }

  // ----- Values

  function Join(parts: seq<Text>): Text {
    if parts == [] then [] else if |parts| == 1 then parts[0] else parts[0] + [COMMA] + Join(parts[1..])
  }

  function Null_(): Text { [110, 117, 108, 108] }
  function True_(): Text { [116, 114, 117, 101] }
  function False_(): Text { [102, 97, 108, 115, 101] }

  /** The canonical text of a value. */
  function Write(j: Json): Text
    decreases j, 1
  {
    match j
    case Null => Null_()
    case Bool(b) => if b then True_() else False_()
    case Num(n) => n
    case Str(s) => Quoted(s)
    case Arr(items) => [91] + Join(ItemTexts(j)) + [93]
    case Obj(props) => [123] + Join(MemberTexts(j)) + [125]
  }

  function ItemTexts(j: Json): seq<Text>
    requires j.Arr?
    decreases j, 0
  {
    seq(|j.items|, i requires 0 <= i < |j.items| => Write(j.items[i]))
  }

  function MemberTexts(j: Json): seq<Text>
    requires j.Obj?
    decreases j, 0
  {
    var names := Sorted(j.props.Keys);
    seq(|names|, i requires 0 <= i < |names| => Quoted(names[i]) + [COLON] + Write(j.props[names[i]]))
  }

  // ----- The inverse parser

  function NumberSpan(t: Text): (n: nat)
    ensures n <= |t|
    ensures forall i :: 0 <= i < n ==> NumberUnit(t[i])
    ensures n < |t| ==> !NumberUnit(t[n])
  {
    if t == [] || !NumberUnit(t[0]) then 0 else 1 + NumberSpan(t[1..])
  }

  predicate StartsWith(t: Text, prefix: Text) {
    |prefix| <= |t| && t[..|prefix|] == prefix
  }

  function Read(t: Text): (r: Option<(Json, Text)>)
    ensures r.Some? ==> |r.value.1| < |t|
    decreases |t|, 0
  {
    if t == [] then None
    else if NumberUnit(t[0]) then Some((Num(t[..NumberSpan(t)]), t[NumberSpan(t)..]))
    else if t[0] == QUOTE then
      var s := ReadString(t[1..]);
      if s.None? then None else Some((Str(s.value.0), s.value.1))
    else if t[0] == 91 then
      if |t| > 1 && t[1] == 93 then Some((Arr([]), t[2..]))
      else
        var items := ReadItems(t[1..]);
        if items.None? then None else Some((Arr(items.value.0), items.value.1))
    else if t[0] == 123 then
      if |t| > 1 && t[1] == 125 then Some((Obj(map[]), t[2..]))
      else
        var members := ReadMembers(t[1..]);
        if members.None? then None else Some((Obj(members.value.0), members.value.1))
    else if StartsWith(t, Null_()) then Some((Null, t[4..]))
    else if StartsWith(t, True_()) then Some((Bool(true), t[4..]))
    else if StartsWith(t, False_()) then Some((Bool(false), t[5..]))
    else None
  }

  function ReadItems(t: Text): (r: Option<(seq<Json>, Text)>)
    ensures r.Some? ==> |r.value.1| < |t|
    decreases |t|, 1
  {
    var first := Read(t);
    if first.None? || first.value.1 == [] then None
    else
      var (item, rest) := first.value;
      if rest[0] == 93 then Some(([item], rest[1..]))
      else if rest[0] != COMMA then None
      else
        var more := ReadItems(rest[1..]);
        if more.None? then None else Some(([item] + more.value.0, more.value.1))
  }

  /** One property: a string, a colon and a value. */
  function ReadMember(t: Text): (r: Option<(Text, Json, Text)>)
    ensures r.Some? ==> |r.value.2| < |t|
    decreases |t|, 1
  {
    if t == [] || t[0] != QUOTE then None
    else
      var name := ReadString(t[1..]);
      if name.None? || name.value.1 == [] || name.value.1[0] != COLON then None
      else
        var value := Read(name.value.1[1..]);
        if value.None? then None else Some((name.value.0, value.value.0, value.value.1))
  }

  function ReadMembers(t: Text): (r: Option<(map<Text, Json>, Text)>)
    ensures r.Some? ==> |r.value.1| < |t|
    decreases |t|, 2
  {
    var first := ReadMember(t);
    if first.None? || first.value.2 == [] then None
    else
      var (name, value, rest) := first.value;
      if rest[0] == 125 then Some((map[name := value], rest[1..]))
      else if rest[0] != COMMA then None
      else
        var more := ReadMembers(rest[1..]);
        if more.None? then None else Some((more.value.0[name := value], more.value.1))
  }

  // ----- The round trip

  /** A number ends where its alphabet does. */
  predicate Ends(rest: Text) {
    rest == [] || !NumberUnit(rest[0])
  }

  lemma {:induction false} SpanOfNumber(n: Text, rest: Text)
    requires Ends(rest) && forall i :: 0 <= i < |n| ==> NumberUnit(n[i])
    ensures NumberSpan(n + rest) == |n|
  {
    if n == [] {
      assert n + rest == rest;
    } else {
      assert (n + rest)[1..] == n[1..] + rest;
      SpanOfNumber(n[1..], rest);
    }
  }

  lemma ReadNumber(n: NumberText, rest: Text)
    requires Ends(rest)
    ensures Read(n + rest) == Some((Num(n), rest))
  {
    SpanOfNumber(n, rest);
    assert (n + rest)[..|n|] == n && (n + rest)[|n|..] == rest;
  }

  lemma ReadQuoted(s: Text, rest: Text)
    ensures Read(Quoted(s) + rest) == Some((Str(s), rest))
  {
    hide ReadString, Escaped;
    var t := Quoted(s) + rest;
    assert t[1..] == Escaped(s) + [QUOTE] + rest;
    ReadEscaped(s, rest);
  }

  lemma ReadLiteral(j: Json, rest: Text)
    requires j.Null? || j.Bool?
    ensures Read(Write(j) + rest) == Some((j, rest))
  {
    var w := Write(j);
    var t := w + rest;
    assert t[..|w|] == w && t[|w|..] == rest;
  }

  /** What a value's text begins with: never a closing bracket. */
  lemma FirstUnit(j: Json)
    ensures Write(j) != [] && Write(j)[0] != 93 && Write(j)[0] != 125
  {
    if j.Num? {
      assert NumberUnit(j.n[0]);
    }
  }

  lemma {:induction false} RoundTrip(j: Json, rest: Text)
    requires Ends(rest)
    ensures Read(Write(j) + rest) == Some((j, rest))
    decreases j, 1
  {
    match j
    case Null => ReadLiteral(j, rest);
    case Bool(_) => ReadLiteral(j, rest);
    case Num(n) => ReadNumber(n, rest);
    case Str(s) => ReadQuoted(s, rest);
    case Arr(items) => ArrayRoundTrip(j, rest);
    case Obj(props) => ObjectRoundTrip(j, rest);
  }

  lemma ReadArray(t: Text, items: seq<Json>, rest: Text)
    requires |t| > 1 && t[0] == 91 && t[1] != 93 && ReadItems(t[1..]) == Some((items, rest))
    ensures Read(t) == Some((Arr(items), rest))
  {
    hide ReadItems;
  }

  lemma ReadObject(t: Text, props: map<Text, Json>, rest: Text)
    requires |t| > 1 && t[0] == 123 && t[1] != 125 && ReadMembers(t[1..]) == Some((props, rest))
    ensures Read(t) == Some((Obj(props), rest))
  {
    hide ReadMembers;
  }

  lemma ReadEmpty(j: Json, rest: Text)
    requires j == Arr([]) || j == Obj(map[])
    ensures Read(Write(j) + rest) == Some((j, rest))
  {
    hide ReadItems, ReadMembers;
    if j.Arr? {
      assert ItemTexts(j) == [];
    } else {
      assert MemberTexts(j) == [];
    }
    var w := Write(j);
    assert w == if j.Arr? then [91, 93] else [123, 125];
    assert (w + rest)[2..] == rest;
  }

  lemma {:induction false} ArrayRoundTrip(j: Json, rest: Text)
    requires j.Arr?
    ensures Read(Write(j) + rest) == Some((j, rest))
    decreases j, 0, 1
  {
    if j.items == [] {
      ReadEmpty(j, rest);
    } else {
      hide Read, ReadItems, Join, ItemTexts, Write;
      ItemsRoundTrip(j, 0, rest);
      ArrayText(j, rest);
      assert ItemTexts(j)[0..] == ItemTexts(j) && j.items[0..] == j.items;
      ReadArray(Write(j) + rest, j.items, rest);
    }
  }

  lemma ArrayText(j: Json, rest: Text)
    requires j.Arr? && j.items != []
    ensures var t := Write(j) + rest;
      |t| > 1 && t[0] == 91 && t[1] != 93 && t[1..] == Join(ItemTexts(j)) + [93] + rest
  {
    hide Join, ItemTexts;
    var parts, t := ItemTexts(j), Write(j) + rest;
    ItemTextsAt(j);
    FirstUnit(j.items[0]);
    FirstOfJoin(parts);
    assert t[1..] == Join(parts) + [93] + rest;
  }

  lemma ItemTextsAt(j: Json)
    requires j.Arr?
    ensures |ItemTexts(j)| == |j.items| && forall i :: 0 <= i < |j.items| ==> ItemTexts(j)[i] == Write(j.items[i])
  {
  }

  lemma MemberTextsAt(j: Json)
    requires j.Obj?
    ensures |MemberTexts(j)| == |j.props.Keys| == |Sorted(j.props.Keys)|
    ensures forall i :: 0 <= i < |j.props.Keys| ==>
      MemberTexts(j)[i] == Quoted(Sorted(j.props.Keys)[i]) + [COLON] + Write(j.props[Sorted(j.props.Keys)[i]])
  {
  }

  lemma FirstOfJoin(parts: seq<Text>)
    requires parts != [] && parts[0] != []
    ensures Join(parts) != [] && Join(parts)[0] == parts[0][0]
  {
  }

  lemma {:induction false} ItemsRoundTrip(j: Json, i: nat, rest: Text)
    requires j.Arr? && i < |j.items|
    ensures ReadItems(Join(ItemTexts(j)[i..]) + [93] + rest) == Some((j.items[i..], rest))
    decreases j, 0, 0, |j.items| - i
  {
    hide Write, Read;
    var parts := ItemTexts(j);
    var t := Join(parts[i..]) + [93] + rest;
    assert parts[i] == Write(j.items[i]);
    if i + 1 == |j.items| {
      assert Join(parts[i..]) == parts[i];
      assert t == Write(j.items[i]) + ([93] + rest);
      RoundTrip(j.items[i], [93] + rest);
      assert j.items[i..] == [j.items[i]];
    } else {
      var more := Join(parts[i + 1..]) + [93] + rest;
      assert parts[i..][1..] == parts[i + 1..];
      assert t == Write(j.items[i]) + ([COMMA] + more);
      RoundTrip(j.items[i], [COMMA] + more);
      assert ([COMMA] + more)[1..] == more;
      ItemsRoundTrip(j, i + 1, rest);
      assert j.items[i..] == [j.items[i]] + j.items[i + 1..];
    }
  }

  lemma {:induction false} ObjectRoundTrip(j: Json, rest: Text)
    requires j.Obj?
    ensures Read(Write(j) + rest) == Some((j, rest))
    decreases j, 0, 1
  {
    if j.props.Keys == {} {
      assert j.props == map[];
      ReadEmpty(j, rest);
    } else {
      hide Read, ReadMembers, Join, MemberTexts, Sorted, Write, PropsFrom;
      MembersRoundTrip(j, 0, rest);
      ObjectText(j, rest);
      assert MemberTexts(j)[0..] == MemberTexts(j);
      PropsOfAll(j.props);
      ReadObject(Write(j) + rest, j.props, rest);
    }
  }

  lemma ObjectText(j: Json, rest: Text)
    requires j.Obj? && j.props.Keys != {}
    ensures var t := Write(j) + rest;
      |t| > 1 && t[0] == 123 && t[1] == QUOTE && t[1..] == Join(MemberTexts(j)) + [125] + rest
  {
    hide Join, MemberTexts, Sorted;
    var parts, t := MemberTexts(j), Write(j) + rest;
    MemberTextsAt(j);
    FirstOfJoin(parts);
    assert t[1..] == Join(parts) + [125] + rest;
  }

  /** The properties named by the sorted names from position i on. */
  ghost function PropsFrom(props: map<Text, Json>, i: nat): map<Text, Json>
    requires i <= |props.Keys|
  {
    map k | k in props && k in Sorted(props.Keys)[i..] :: props[k]
  }

  lemma PropsOfAll(props: map<Text, Json>)
    ensures PropsFrom(props, 0) == props
  {
    var names := Sorted(props.Keys);
    assert names[0..] == names;
    hide Sorted;
  }

  lemma PropsOneMore(props: map<Text, Json>, i: nat)
    requires i < |props.Keys|
    ensures PropsFrom(props, i) == PropsFrom(props, i + 1)[Sorted(props.Keys)[i] := props[Sorted(props.Keys)[i]]]
  {
    var names := Sorted(props.Keys);
    hide Sorted;
    assert names[i..] == [names[i]] + names[i + 1..];
    var a, b := PropsFrom(props, i), PropsFrom(props, i + 1)[names[i] := props[names[i]]];
    assert forall k :: k in a <==> k in b;
  }

  lemma PropsOfLast(props: map<Text, Json>, i: nat)
    requires i + 1 == |props.Keys|
    ensures PropsFrom(props, i) == map[Sorted(props.Keys)[i] := props[Sorted(props.Keys)[i]]]
  {
    var names := Sorted(props.Keys);
    hide Sorted;
    assert names[i..] == [names[i]];
  }

  lemma {:induction false} MemberRoundTrip(name: Text, value: Json, rest: Text)
    requires Read(Write(value) + rest) == Some((value, rest))
    ensures ReadMember(Quoted(name) + [COLON] + Write(value) + rest) == Some((name, value, rest))
  {
    hide Read, Write, ReadString, Escaped;
    var t := Quoted(name) + [COLON] + Write(value) + rest;
    var after := [COLON] + Write(value) + rest;
    assert t[1..] == Escaped(name) + [QUOTE] + after;
    ReadEscaped(name, after);
    assert after[1..] == Write(value) + rest;
  }

  lemma ReadLastMember(t: Text, name: Text, value: Json, rest: Text)
    requires ReadMember(t) == Some((name, value, [125] + rest))
    ensures ReadMembers(t) == Some((map[name := value], rest))
  {
    hide ReadMember;
    assert ([125] + rest)[1..] == rest;
  }

  lemma ReadOneMember(t: Text, name: Text, value: Json, more: Text, props: map<Text, Json>, rest: Text)
    requires ReadMember(t) == Some((name, value, [COMMA] + more)) && ReadMembers(more) == Some((props, rest))
    ensures ReadMembers(t) == Some((props[name := value], rest))
  {
    hide ReadMember;
    assert ([COMMA] + more)[1..] == more;
  }

  lemma {:induction false} MembersRoundTrip(j: Json, i: nat, rest: Text)
    requires j.Obj? && i < |j.props.Keys|
    ensures ReadMembers(Join(MemberTexts(j)[i..]) + [125] + rest) == Some((PropsFrom(j.props, i), rest))
    decreases j, 0, 0, |j.props.Keys| - i
  {
    hide Write, Read, ReadMember, ReadMembers, Quoted, PropsFrom, MemberTexts, Sorted;
    MemberTextsAt(j);
    var parts, name := MemberTexts(j), Sorted(j.props.Keys)[i];
    var value := j.props[name];
    var t := Join(parts[i..]) + [125] + rest;
    var own := Quoted(name) + [COLON] + Write(value);
    assert parts[i] == own;
    if i + 1 == |j.props.Keys| {
      assert Join(parts[i..]) == own;
      assert t == own + ([125] + rest);
      RoundTrip(value, [125] + rest);
      MemberRoundTrip(name, value, [125] + rest);
      ReadLastMember(t, name, value, rest);
      PropsOfLast(j.props, i);
    } else {
      var more := Join(parts[i + 1..]) + [125] + rest;
      assert parts[i..][1..] == parts[i + 1..];
      assert t == own + ([COMMA] + more);
      RoundTrip(value, [COMMA] + more);
      MemberRoundTrip(name, value, [COMMA] + more);
      MembersRoundTrip(j, i + 1, rest);
      ReadOneMember(t, name, value, more, PropsFrom(j.props, i + 1), rest);
      PropsOneMore(j.props, i);
    }
  }

  /** Reading back a canonical text gives the value it was written from. */
  lemma ReadBack(j: Json)
    ensures Read(Write(j)) == Some((j, []))
  {
    RoundTrip(j, []);
    assert Write(j) + [] == Write(j);
  }

  /** Equal canonical texts, equal values. */
  lemma WriteInjective(a: Json, b: Json)
    ensures Write(a) == Write(b) <==> a == b
  {
    ReadBack(a);
    ReadBack(b);
  }
}
