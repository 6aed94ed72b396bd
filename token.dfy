/**
  The lexer's token: a closed tagged union of 24 alternatives. Four of them
  carry a value (a number, an identifier name, a single character, a string
  constant); the other twenty are fixed keywords, operators and structural
  markers. `Is`, `As` and `TryAs` are the variant queries of `parse::Token`.
*/
module Tokens {
  import opened Wrappers

  /** The `int` held by a Number token: a 32-bit signed integer. */
  newtype int32 = x: int | -0x8000_0000 <= x < 0x8000_0000

  /** Which alternative a token holds, listed in the variant's declaration order. */
  datatype Kind =
    | Number | Id | Char | String
    | Class | Return | If | Else | Def | Newline | Print | Indent | Dedent
    | And | Or | Not | Eq | NotEq | LessOrEq | GreaterOrEq
    | None | True | False | Eof

  /** A token: one of the 24 alternatives, with its value where it has one. */
  datatype Token =
    | Number(num: int32)
    | Id(name: string)
    | Char(ch: char)
    | String(text: string)
    | Class | Return | If | Else | Def | Newline | Print | Indent | Dedent
    | And | Or | Not | Eq | NotEq | LessOrEq | GreaterOrEq
    | None | True | False | Eof

  /** The content of an alternative's struct: `value` for the four valued ones, nothing otherwise. */
  datatype Payload = NoValue | IntValue(i: int32) | StrValue(s: string) | CharValue(c: char)

  /** The alternative a token holds (the variant's `index()`, named). */
  function KindOf(t: Token): (k: Kind)
    ensures HasValue(k) <==> t.Number? || t.Id? || t.Char? || t.String?
  {
    match t
    case Number(_) => Kind.Number
    case Id(_) => Kind.Id
    case Char(_) => Kind.Char
    case String(_) => Kind.String
    case Class => Kind.Class
    case Return => Kind.Return
    case If => Kind.If
    case Else => Kind.Else
    case Def => Kind.Def
    case Newline => Kind.Newline
    case Print => Kind.Print
    case Indent => Kind.Indent
    case Dedent => Kind.Dedent
    case And => Kind.And
    case Or => Kind.Or
    case Not => Kind.Not
    case Eq => Kind.Eq
    case NotEq => Kind.NotEq
    case LessOrEq => Kind.LessOrEq
    case GreaterOrEq => Kind.GreaterOrEq
    case None => Kind.None
    case True => Kind.True
    case False => Kind.False
    case Eof => Kind.Eof
  }

  /** The alternatives whose struct has a `value` member. */
  predicate HasValue(k: Kind) {
    k == Kind.Number || k == Kind.Id || k == Kind.Char || k == Kind.String
  }

  /** A payload has the shape of alternative `k`'s struct. */
  predicate Fits(k: Kind, p: Payload) {
    match k
    case Number => p.IntValue?
    case Id => p.StrValue?
    case Char => p.CharValue?
    case String => p.StrValue?
    case _ => p.NoValue?
  }

  /** The struct held by a token, as a payload. */
  function PayloadOf(t: Token): (p: Payload)
    ensures Fits(KindOf(t), p)
    ensures HasValue(KindOf(t)) <==> p != NoValue
  {
    match t
    case Number(n) => IntValue(n)
    case Id(s) => StrValue(s)
    case Char(c) => CharValue(c)
    case String(s) => StrValue(s)
    case _ => NoValue
  }

  /** Builds the token holding alternative `k` with struct `p` (`Token{T{p}}`). */
  function Make(k: Kind, p: Payload): (t: Token)
    requires Fits(k, p)
    ensures KindOf(t) == k
    ensures PayloadOf(t) == p
  {
    match k
    case Number => Token.Number(p.i)
    case Id => Token.Id(p.s)
    case Char => Token.Char(p.c)
    case String => Token.String(p.s)
    case Class => Token.Class
    case Return => Token.Return
    case If => Token.If
    case Else => Token.Else
    case Def => Token.Def
    case Newline => Token.Newline
    case Print => Token.Print
    case Indent => Token.Indent
    case Dedent => Token.Dedent
    case And => Token.And
    case Or => Token.Or
    case Not => Token.Not
    case Eq => Token.Eq
    case NotEq => Token.NotEq
    case LessOrEq => Token.LessOrEq
    case GreaterOrEq => Token.GreaterOrEq
    case None => Token.None
    case True => Token.True
    case False => Token.False
    case Eof => Token.Eof
  }

  /** A token is determined by its alternative and its struct: `Make` inverts (`KindOf`, `PayloadOf`). */
  lemma Decompose(t: Token)
    ensures Make(KindOf(t), PayloadOf(t)) == t
  {
  }

  /** `Token::Is<T>()`: the token holds alternative `k`. */
  predicate Is(t: Token, k: Kind)
    ensures Is(t, k) <==> Fits(k, PayloadOf(t)) && Make(k, PayloadOf(t)) == t
  {
    KindOf(t) == k
  }

  /** `Is` holds exactly when the token was built from alternative `k`'s struct. */
  lemma IsIffBuiltFrom(t: Token, k: Kind)
    ensures Is(t, k) <==> exists p :: Fits(k, p) && Make(k, p) == t
  {
  }

  /** `Token::TryAs<T>()`: the struct of alternative `k`, or null when the token holds another. */
  function TryAs(t: Token, k: Kind): (r: Option<Payload>)
    ensures r.Some? <==> Is(t, k)
    ensures r.Some? ==> Fits(k, r.value) && Make(k, r.value) == t
  {
    Decompose(t);
    if Is(t, k) then Some(PayloadOf(t)) else Option.None
  }

  /** `Token::As<T>()`: the struct of alternative `k`; only defined when the token holds it. */
  function As(t: Token, k: Kind): (p: Payload)
    requires Is(t, k)
    ensures TryAs(t, k) == Some(p)
    ensures Make(k, p) == t
  {
    Decompose(t);
    PayloadOf(t)
  }
}
