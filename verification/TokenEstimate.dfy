/** A response that states its own length: the bounded fixpoint loop of serializeWithTokenEstimate. */
module TokenEstimate {
  function Decimal(n: nat): (text: string)
    ensures |text| >= 1
    ensures n >= 1 ==> |text| <= n
  {
    if n < 10 then [('0' as int + n) as char] else Decimal(n / 10) + [('0' as int + n % 10) as char]
  }

  function Digits(n: nat): nat {
    |Decimal(n)|
  }

  /** Math.ceil(n / 4) */
  function Quarter(n: nat): nat {
    (n + 3) / 4
  }

  /**
   The serialized payload around the two numbers of its meta block. A payload that already had a
   tokenEstimate keeps it in its old place, so either number may come first.
   */
  datatype Template = Template(head: string, middle: string, tail: string, charactersFirst: bool) {
    function Base(): nat {
      |head| + |middle| + |tail|
    }

    function Text(responseCharacters: nat, tokenEstimate: nat): (t: string)
      ensures |t| == Base() + Digits(responseCharacters) + Digits(tokenEstimate)
    {
      if charactersFirst then head + Decimal(responseCharacters) + middle + Decimal(tokenEstimate) + tail
      else head + Decimal(tokenEstimate) + middle + Decimal(responseCharacters) + tail
    }
  }

  lemma {:induction false} MoreDigits(m: nat, n: nat)
    requires m <= n
    ensures Digits(m) <= Digits(n)
  {
    if n >= 10 && m >= 10 {
      MoreDigits(m / 10, n / 10);
    }
  }

  /** Growing by less than a factor of ten adds at most one digit. */
  lemma OneDigitMore(m: nat, n: nat)
    requires 1 <= m <= n <= 10 * m
    ensures Digits(m) <= Digits(n) <= Digits(m) + 1
  {
    MoreDigits(m, n);
    MoreDigits(n, 10 * m);
    assert 10 * m / 10 == m;
  }

  /** How many digits the two numbers of a text of length n have. */
  function Width(n: nat): nat {
    Digits(n) + Digits(Quarter(n))
  }

  /**
   After the first correction the length is at least first = base + 2. Whatever corrections follow,
   each of the two digit counts is what it was then, or one more.
   */
  lemma WidthGrowsOnceEach(base: nat, first: nat, n: nat)
    requires first == base + 2
    requires first <= n <= base + Width(first) + 2
    ensures Digits(first) <= Digits(n) <= Digits(first) + 1
    ensures Digits(Quarter(first)) <= Digits(Quarter(n)) <= Digits(Quarter(first)) + 1
  {
    assert n <= 4 * first;
    OneDigitMore(first, n);
    OneDigitMore(Quarter(first), Quarter(n));
  }

  lemma WidthMonotone(m: nat, n: nat)
    requires m <= n
    ensures Width(m) <= Width(n)
  {
    MoreDigits(m, n);
    MoreDigits(Quarter(m), Quarter(n));
  }

  /**
   The returned text is as long as it says, its estimate is a quarter of that rounded up, and the
   fixpoint is reached within five of the eight passes, so the text after the loop is never built.
   */
  method SerializeWithTokenEstimate(payload: Template)
    returns (serialized: string, responseCharacters: nat, tokenEstimate: nat, pass: nat)
    ensures serialized == payload.Text(responseCharacters, tokenEstimate)
    ensures serialized == payload.head
              + (if payload.charactersFirst then Decimal(responseCharacters) else Decimal(tokenEstimate))
              + payload.middle
              + (if payload.charactersFirst then Decimal(tokenEstimate) else Decimal(responseCharacters))
              + payload.tail
    ensures |serialized| == responseCharacters
    ensures tokenEstimate == Quarter(responseCharacters)
    ensures 4 * tokenEstimate - 3 <= |serialized| <= 4 * tokenEstimate
    ensures pass < 5
  {
    responseCharacters, tokenEstimate, pass := 0, 0, 0;
    ghost var base := payload.Base();
    ghost var first := base + 2;
    ghost var previous := 0;
    while pass < 8
      invariant pass == 0 ==> responseCharacters == 0 && tokenEstimate == 0
      invariant pass >= 1 ==> tokenEstimate == Quarter(responseCharacters)
      invariant pass == 1 ==> responseCharacters == first
      invariant pass >= 2 ==> first <= previous < responseCharacters == base + Width(previous)
      invariant pass >= 2 ==> Width(first) + pass <= Width(previous) + 2
      invariant pass >= 2 ==> Width(previous) <= Width(first) + 2
      decreases 8 - pass
    {
      serialized := payload.Text(responseCharacters, tokenEstimate);
      var characters, estimate := |serialized|, Quarter(|serialized|);
      if responseCharacters == characters && tokenEstimate == estimate {
        return;
      }
      if pass >= 1 {
        WidthMonotone(first, responseCharacters);
        if pass >= 2 {
          WidthMonotone(previous, responseCharacters);
        }
        WidthGrowsOnceEach(base, first, responseCharacters);
        previous := responseCharacters;
      }
      responseCharacters, tokenEstimate := characters, estimate;
      pass := pass + 1;
    }
    assert false;
  }

  // ----- Decimal text

  /** The number decimal digits spell. */
  function Spelled(text: string): int
    requires forall i :: 0 <= i < |text| ==> '0' <= text[i] <= '9'
  {
    if text == "" then 0 else 10 * Spelled(text[..|text| - 1]) + (text[|text| - 1] as int - '0' as int)
  }

  /** Digits only, that spell the number, without leading zeros. */
  lemma {:induction false} DecimalSpells(n: nat)
    ensures forall i :: 0 <= i < |Decimal(n)| ==> '0' <= Decimal(n)[i] <= '9'
    ensures Spelled(Decimal(n)) == n
    ensures n > 0 ==> Decimal(n)[0] != '0'
    ensures |Decimal(0)| == 1
  {
    var text := Decimal(n);
    if n >= 10 {
      DecimalSpells(n / 10);
      assert text[..|text| - 1] == Decimal(n / 10);
    } else {
      assert text[..0] == "";
    }
  }
}
