/**
 Text as UTF-16 and the orders of Array.prototype.sort in the read model and in normal forms: by code
 units, by the parts of a terminal's key, and newest first.
 */
module Ordering {
  import opened JsonValues
  import opened Canonical
  import opened Types

  // ----- UTF-16

  /** One character: itself, or a surrogate pair. */
  function Encode(c: char): (units: Text)
    ensures |units| == if c as int < 0x1_0000 then 1 else 2
    ensures |units| == 2 <==> 0xd800 <= units[0] < 0xdc00
  {
    var u := c as int;
    if u < 0x1_0000 then [u as CodeUnit]
    else [(0xd800 + (u - 0x1_0000) / 0x400) as CodeUnit, (0xdc00 + (u - 0x1_0000) % 0x400) as CodeUnit]
  }

  lemma EncodeInjective(c: char, d: char)
    requires Encode(c) == Encode(d)
    ensures c == d
  {
    var u, v := c as int, d as int;
    if u >= 0x1_0000 && v >= 0x1_0000 {
      assert Encode(c)[0] == Encode(d)[0] && Encode(c)[1] == Encode(d)[1];
      assert (u - 0x1_0000) / 0x400 == (v - 0x1_0000) / 0x400 && (u - 0x1_0000) % 0x400 == (v - 0x1_0000) % 0x400;
    } else if u < 0x1_0000 && v < 0x1_0000 {
      assert Encode(c)[0] == Encode(d)[0];
    }
  }

  function Utf16(s: string): Text {
    if s == "" then [] else Encode(s[0]) + Utf16(s[1..])
  }

  lemma {:induction false} Utf16Injective(s: string, r: string)
    requires Utf16(s) == Utf16(r)
    ensures s == r
  {
    if s != "" && r != "" {
      var x, y := Encode(s[0]), Encode(r[0]);
      assert x[0] == Utf16(s)[0] == Utf16(r)[0] == y[0];
      assert |x| == |y|;
      assert x == Utf16(s)[..|x|] == Utf16(r)[..|y|] == y;
      EncodeInjective(s[0], r[0]);
      assert Utf16(s[1..]) == Utf16(s)[|x|..] == Utf16(r)[|y|..] == Utf16(r[1..]);
      Utf16Injective(s[1..], r[1..]);
      assert s == [s[0]] + s[1..] && r == [r[0]] + r[1..];
    }
  }

  // ----- Sorting by a strict order

  ghost predicate StrictOrder<T(!new)>(xs: set<T>, before: (T, T) -> bool) {
    && (forall a :: a in xs ==> !before(a, a))
    && (forall a, b :: a in xs && b in xs ==> a == b || before(a, b) || before(b, a))
    && (forall a, b, c :: a in xs && b in xs && c in xs && before(a, b) && before(b, c) ==> before(a, c))
  }

  ghost predicate IsLeast<T(!new)>(xs: set<T>, before: (T, T) -> bool, m: T) {
    m in xs && forall a :: a in xs ==> a == m || before(m, a)
  }

  lemma {:induction false} HasLeast<T(!new)>(xs: set<T>, before: (T, T) -> bool)
    requires xs != {} && StrictOrder(xs, before)
    ensures exists m :: IsLeast(xs, before, m)
    decreases |xs|
  {
    var x :| x in xs;
    if xs == {x} {
      assert IsLeast(xs, before, x);
    } else {
      HasLeast(xs - {x}, before);
      var m :| IsLeast(xs - {x}, before, m);
      assert IsLeast(xs, before, if before(x, m) then x else m);
    }
  }

  function Least<T(!new, ==)>(xs: set<T>, before: (T, T) -> bool): (m: T)
    requires xs != {} && StrictOrder(xs, before)
    ensures IsLeast(xs, before, m)
  {
    HasLeast(xs, before);
    var m :| m in xs && forall a :: a in xs ==> a == m || before(m, a);
    m
  }

  ghost predicate Ascending<T(!new)>(xs: seq<T>, before: (T, T) -> bool) {
    forall i, j :: 0 <= i < j < |xs| ==> before(xs[i], xs[j])
  }

  function SortBy<T(!new, ==)>(xs: set<T>, before: (T, T) -> bool): (out: seq<T>)
    requires StrictOrder(xs, before)
    ensures |out| == |xs| && Ascending(out, before)
    ensures forall a :: a in out <==> a in xs
  {
    if xs == {} then [] else
      var m := Least(xs, before);
      [m] + SortBy(xs - {m}, before)
  }

  ghost predicate Lists<T(!new)>(out: seq<T>, xs: set<T>) {
    forall a :: a in out <==> a in xs
  }

  lemma HeadIsLeast<T(!new)>(xs: set<T>, before: (T, T) -> bool, out: seq<T>)
    requires StrictOrder(xs, before) && Ascending(out, before) && Lists(out, xs) && out != []
    ensures xs != {} && out[0] == Least(xs, before)
  {
    assert out[0] in xs;
    var m := Least(xs, before);
    assert m in out;
    var k :| 0 <= k < |out| && out[k] == m;
    assert k > 0 ==> before(out[0], out[k]);
  }

  lemma TailLists<T(!new)>(xs: set<T>, before: (T, T) -> bool, out: seq<T>)
    requires StrictOrder(xs, before) && Ascending(out, before) && Lists(out, xs) && out != []
    ensures Lists(out[1..], xs - {out[0]}) && Ascending(out[1..], before) && StrictOrder(xs - {out[0]}, before)
    ensures out == [out[0]] + out[1..]
  {
    var rest := out[1..];
    assert forall i :: 0 <= i < |rest| ==> rest[i] == out[i + 1] && before(out[0], out[i + 1]);
    assert out == [out[0]] + rest;
    assert out[0] in xs;
  }

  /** There is only one ascending listing, so it does not matter how it is arrived at. */
  lemma {:induction false} SortedUnique<T(!new)>(xs: set<T>, before: (T, T) -> bool, out: seq<T>)
    requires StrictOrder(xs, before) && Ascending(out, before) && Lists(out, xs)
    ensures out == SortBy(xs, before)
    decreases |out|
  {
    hide StrictOrder, Ascending, Lists;
    SortUnfold(xs, before);
    if out == [] {
      NothingListed(xs);
    } else {
      HeadIsLeast(xs, before, out);
      TailLists(xs, before, out);
      SortedUnique(xs - {out[0]}, before, out[1..]);
    }
  }

  lemma NothingListed<T(!new)>(xs: set<T>)
    requires Lists([], xs)
    ensures xs == {}
  {
  }

  lemma SortUnfold<T(!new)>(xs: set<T>, before: (T, T) -> bool)
    requires StrictOrder(xs, before)
    ensures SortBy(xs, before) == if xs == {} then [] else
      [Least(xs, before)] + SortBy(xs - {Least(xs, before)}, before)
  {
  }

  // ----- The orders

  predicate Lex(a1: Text, a2: Text, b1: Text, b2: Text) {
    Below(a1, b1) || (a1 == b1 && Below(a2, b2))
  }

  lemma LexTotal(a1: Text, a2: Text, b1: Text, b2: Text)
    ensures (a1 == b1 && a2 == b2) || Lex(a1, a2, b1, b2) || Lex(b1, b2, a1, a2)
  {
    BelowTotal(a1, b1);
    BelowTotal(a2, b2);
  }

  lemma LexTransitive(a1: Text, a2: Text, b1: Text, b2: Text, c1: Text, c2: Text)
    requires Lex(a1, a2, b1, b2) && Lex(b1, b2, c1, c2)
    ensures Lex(a1, a2, c1, c2)
  {
    if Below(a1, b1) && Below(b1, c1) {
      BelowTransitive(a1, b1, c1);
    } else if a1 == b1 == c1 {
      BelowTransitive(a2, b2, c2);
    }
  }

  lemma LexIrreflexive(a1: Text, a2: Text)
    ensures !Lex(a1, a2, a1, a2)
  {
    BelowIrreflexive(a1);
    BelowIrreflexive(a2);
  }

  predicate NameBefore(a: string, b: string) {
    Below(Utf16(a), Utf16(b))
  }

  lemma NamesOrdered(xs: set<string>)
    ensures StrictOrder(xs, NameBefore)
  {
    forall a: string ensures !NameBefore(a, a) {
      BelowIrreflexive(Utf16(a));
    }
    forall a: string, b: string ensures a == b || NameBefore(a, b) || NameBefore(b, a) {
      BelowTotal(Utf16(a), Utf16(b));
      if Utf16(a) == Utf16(b) {
        Utf16Injective(a, b);
      }
    }
    forall a: string, b: string, c: string | NameBefore(a, b) && NameBefore(b, c) ensures NameBefore(a, c) {
      BelowTransitive(Utf16(a), Utf16(b), Utf16(c));
    }
  }

  /** Names in ascending order. */
  function SortNames(xs: set<string>): (out: seq<string>)
    ensures |out| == |xs| && Ascending(out, NameBefore)
    ensures forall a :: a in out <==> a in xs
  {
    NamesOrdered(xs);
    SortBy(xs, NameBefore)
  }

  /** By kind, then id, then snapshot. */
  predicate KeyBefore(a: TerminalKey, b: TerminalKey) {
    (a.kind == Fact && b.kind == Loop) ||
    (a.kind == b.kind && Lex(Utf16(a.id), Utf16(a.state), Utf16(b.id), Utf16(b.state)))
  }

  lemma KeysOrdered(xs: set<TerminalKey>)
    ensures StrictOrder(xs, KeyBefore)
  {
    hide Lex;
    forall a: TerminalKey ensures !KeyBefore(a, a) {
      LexIrreflexive(Utf16(a.id), Utf16(a.state));
    }
    forall a: TerminalKey, b: TerminalKey ensures a == b || KeyBefore(a, b) || KeyBefore(b, a) {
      LexTotal(Utf16(a.id), Utf16(a.state), Utf16(b.id), Utf16(b.state));
      if Utf16(a.id) == Utf16(b.id) && Utf16(a.state) == Utf16(b.state) {
        Utf16Injective(a.id, b.id);
        Utf16Injective(a.state, b.state);
      }
    }
    forall a: TerminalKey, b: TerminalKey, c: TerminalKey | KeyBefore(a, b) && KeyBefore(b, c) ensures KeyBefore(a, c) {
      if a.kind == b.kind == c.kind {
        LexTransitive(Utf16(a.id), Utf16(a.state), Utf16(b.id), Utf16(b.state), Utf16(c.id), Utf16(c.state));
      }
    }
  }

  function SortKeys(xs: set<TerminalKey>): (out: seq<TerminalKey>)
    ensures |out| == |xs| && Ascending(out, KeyBefore)
    ensures forall a :: a in out <==> a in xs
  {
    KeysOrdered(xs);
    SortBy(xs, KeyBefore)
  }

  function TimeOf(times: map<RowId, Time>, id: RowId): Time {
    if id in times then times[id] else ""
  }

  /** Newest first, and by id among equals. */
  predicate RecentBefore(times: map<RowId, Time>, a: RowId, b: RowId) {
    var s, t := Utf16(TimeOf(times, a)), Utf16(TimeOf(times, b));
    Below(t, s) || (s == t && NameBefore(a, b))
  }

  function Recent(times: map<RowId, Time>): (RowId, RowId) -> bool {
    (a, b) => RecentBefore(times, a, b)
  }

  lemma RecentOrdered(times: map<RowId, Time>, xs: set<RowId>)
    ensures StrictOrder(xs, Recent(times))
  {
    NamesOrdered(xs);
    forall a: RowId ensures !RecentBefore(times, a, a) {
      BelowIrreflexive(Utf16(TimeOf(times, a)));
      BelowIrreflexive(Utf16(a));
    }
    forall a: RowId, b: RowId | a in xs && b in xs
      ensures a == b || RecentBefore(times, a, b) || RecentBefore(times, b, a)
    {
      BelowTotal(Utf16(TimeOf(times, a)), Utf16(TimeOf(times, b)));
    }
    forall a: RowId, b: RowId, c: RowId |
      a in xs && b in xs && c in xs && RecentBefore(times, a, b) && RecentBefore(times, b, c)
      ensures RecentBefore(times, a, c)
    {
      var s, t, u := Utf16(TimeOf(times, a)), Utf16(TimeOf(times, b)), Utf16(TimeOf(times, c));
      if Below(t, s) && Below(u, t) {
        BelowTransitive(u, t, s);
      }
    }
  }

  function SortRecent(times: map<RowId, Time>): (out: seq<RowId>)
    ensures |out| == |times.Keys| && Ascending(out, Recent(times))
    ensures forall a :: a in out <==> a in times
  {
    RecentOrdered(times, times.Keys);
    SortBy(times.Keys, Recent(times))
  }
}
