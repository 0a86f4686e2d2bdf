/**
 JSON values as abstract data. Text is a sequence of UTF-16 code units, as in ECMAScript.
 An object is a finite map, so two objects that differ only in the order in which their
 properties were inserted are the same value.
 */
module JsonValues {
  newtype CodeUnit = u: int | 0 <= u < 0x1_0000

  type Text = seq<CodeUnit>

  /** The code units of an ASCII literal. */
  function Units(s: string): (t: Text)
    ensures |t| == |s|
  {
    seq(|s|, i requires 0 <= i < |s| => if (s[i] as int) < 0x1_0000 then s[i] as int as CodeUnit else 0)
  }

  /** The alphabet of ECMAScript's shortest round-trip number format: digits + - . e */
  predicate NumberUnit(u: CodeUnit) {
    48 <= u <= 57 || u == 43 || u == 45 || u == 46 || u == 101
  }

  /** A finite number, identified with its shortest round-trip text. */
  type NumberText = t: Text | |t| > 0 && forall i :: 0 <= i < |t| ==> NumberUnit(t[i])
    witness [48]

  datatype Json =
    | Null
    | Bool(b: bool)
    | Num(n: NumberText)
    | Str(s: Text)
    | Arr(items: seq<Json>)
    | Obj(props: map<Text, Json>)
}
