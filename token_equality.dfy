/**
  Structural equality of tokens, `operator==` and `operator!=` on
  `parse::Token`: two tokens are equal when they hold the same alternative
  and, for the four valued alternatives, equal values.
*/
module TokenEquality {
  import opened Tokens

  /**
    `operator==`: different alternatives are unequal; a Char, Number, String
    or Id pair compares its values; any other pair of the same alternative is
    equal.
  */
  function TokEq(lhs: Token, rhs: Token): (r: bool)
    ensures r <==> KindOf(lhs) == KindOf(rhs) && PayloadOf(lhs) == PayloadOf(rhs)
  {
    if KindOf(lhs) != KindOf(rhs) then false
    else if Is(lhs, Kind.Char) then As(lhs, Kind.Char).c == As(rhs, Kind.Char).c
    else if Is(lhs, Kind.Number) then As(lhs, Kind.Number).i == As(rhs, Kind.Number).i
    else if Is(lhs, Kind.String) then As(lhs, Kind.String).s == As(rhs, Kind.String).s
    else if Is(lhs, Kind.Id) then As(lhs, Kind.Id).s == As(rhs, Kind.Id).s
    else true
  }

  /** `operator!=`: the negation of `operator==`, which is inequality of the tokens as values. */
  function TokNe(lhs: Token, rhs: Token): (r: bool)
    ensures r <==> !TokEq(lhs, rhs)
    ensures r <==> lhs != rhs
  {
    TokEqIsSameToken(lhs, rhs);
    !TokEq(lhs, rhs)
  }

  /** `operator==` holds exactly when the two tokens are the same value. */
  lemma TokEqIsSameToken(a: Token, b: Token)
    ensures TokEq(a, b) <==> a == b
  {
  }

  /** Tokens holding different alternatives are never equal. */
  lemma DifferentKindsNeverEqual(a: Token, b: Token)
    requires KindOf(a) != KindOf(b)
    ensures !TokEq(a, b) && TokNe(a, b)
  {
  }

  /** Two Char, Number, String or Id tokens are equal exactly when their values are. */
  lemma ValuedEqualIffValuesEqual(a: Token, b: Token)
    ensures a.Char? && b.Char? ==> (TokEq(a, b) <==> a.ch == b.ch)
    ensures a.Number? && b.Number? ==> (TokEq(a, b) <==> a.num == b.num)
    ensures a.String? && b.String? ==> (TokEq(a, b) <==> a.text == b.text)
    ensures a.Id? && b.Id? ==> (TokEq(a, b) <==> a.name == b.name)
  {
  }

  /** Two tokens of the same value-free alternative are always equal. */
  lemma ValueFreeAlwaysEqual(a: Token, b: Token)
    requires KindOf(a) == KindOf(b) && !HasValue(KindOf(a))
    ensures TokEq(a, b)
  {
  }

  /** `operator==` is an equivalence relation. */
  lemma TokEqIsEquivalence(a: Token, b: Token, c: Token)
    ensures TokEq(a, a)
    ensures TokEq(a, b) <==> TokEq(b, a)
    ensures TokEq(a, b) && TokEq(b, c) ==> TokEq(a, c)
  {
    TokEqIsSameToken(a, a);
    TokEqIsSameToken(a, b);
    TokEqIsSameToken(b, a);
    TokEqIsSameToken(b, c);
    TokEqIsSameToken(a, c);
  }
}
