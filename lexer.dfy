/**
  The parser-facing side of `parse::Lexer`: a finished token list and one
  forward cursor over it, with the peek (`CurrentToken`), advance
  (`NextToken`) and assertion (`Expect`, `ExpectNext`) operations. The list
  never changes after construction; only the cursor moves.
*/
module Lexers {
  import opened Wrappers
  import opened Tokens
  import opened TokenEquality

  /** The two messages a `LexerError` is thrown with. */
  datatype ErrorMsg = WrongTokenType | WrongTokenValue

  /** `parse::LexerError`. */
  datatype LexerError = LexerError(msg: ErrorMsg)

  /** Cursor position after one `NextToken` from `i`: it moves only onto an existing successor. */
  function Advance(ts: seq<Token>, i: nat): (j: nat)
    requires i < |ts|
    ensures i <= j < |ts|
    ensures i + 1 < |ts| ==> j == i + 1
    ensures j == i <==> i == |ts| - 1
  {
    if i + 1 < |ts| then i + 1 else i
  }

  /** Token returned by one `NextToken` from `i`: the successor, or Eof when there is none. */
  function Yield(ts: seq<Token>, i: nat): (t: Token)
    requires i < |ts|
    ensures i + 1 < |ts| ==> t == ts[Advance(ts, i)]
    ensures i == |ts| - 1 ==> t == Token.Eof
  {
    if i + 1 < |ts| then ts[i + 1] else Token.Eof
  }

  /** Cursor position after `n` calls of `NextToken` from `i`. */
  function AdvanceMany(ts: seq<Token>, i: nat, n: nat): (j: nat)
    requires i < |ts|
    ensures j < |ts|
    decreases n
  {
    if n == 0 then i else AdvanceMany(ts, Advance(ts, i), n - 1)
  }

  /** `n` calls of `NextToken` move the cursor `n` places forward, stopping at the last token. */
  lemma {:induction false} AdvanceManyClamps(ts: seq<Token>, i: nat, n: nat)
    requires i < |ts|
    ensures AdvanceMany(ts, i, n) == if i + n < |ts| then i + n else |ts| - 1
    decreases n
  {
    if n > 0 {
      AdvanceManyClamps(ts, Advance(ts, i), n - 1);
    }
  }

  /**
    Once the stream is exhausted, calling `NextToken` again keeps returning Eof
    and leaves the cursor where it is, however many times it has been called.
  */
  lemma {:induction false} NextTokenPastEndYieldsEof(ts: seq<Token>, i: nat, n: nat)
    requires i < |ts|
    requires i + n >= |ts| - 1
    ensures AdvanceMany(ts, i, n) == |ts| - 1
    ensures Yield(ts, AdvanceMany(ts, i, n)) == Token.Eof
    ensures Advance(ts, AdvanceMany(ts, i, n)) == AdvanceMany(ts, i, n)
  {
    AdvanceManyClamps(ts, i, n);
  }

  class Lexer {
    /** `tokens_`: the finished token list, fixed once the lexer is built. */
    const tokens: seq<Token>
    /** `current_token_`, as an index into `tokens`. */
    var cur: nat

    /** The cursor is on a real token, or at 0 when there are no tokens at all. */
    ghost predicate Valid()
      reads this
    {
      if tokens == [] then cur == 0 else cur < |tokens|
    }

    /** A lexer over a finished token list, its cursor on the first token. */
    constructor (ts: seq<Token>)
      ensures Valid()
      ensures tokens == ts && cur == 0
    {
      tokens := ts;
      cur := 0;
    }

    /** `CurrentToken()`: the token under the cursor, or Eof when the stream has none. */
    function CurrentToken(): (t: Token)
      reads this
      requires Valid()
      ensures tokens != [] ==> t == tokens[cur]
      ensures tokens == [] ==> t == Token.Eof
    {
      if cur < |tokens| then tokens[cur] else Token.Eof
    }

    /**
      `NextToken()`: moves to the next token and returns it; when there is no
      next token it stays put and returns Eof. The cursor never moves back.
    */
    method NextToken() returns (t: Token)
      requires Valid()
      modifies this
      ensures Valid()
      ensures old(cur) <= cur
      ensures tokens == [] ==> cur == old(cur) && t == Token.Eof
      ensures tokens != [] ==> cur == Advance(tokens, old(cur)) && t == Yield(tokens, old(cur))
      ensures tokens != [] && tokens[|tokens| - 1] == Token.Eof ==> t == CurrentToken()
    {
      if cur + 1 < |tokens| {
        cur := cur + 1;
        t := tokens[cur];
      } else {
        t := Token.Eof;
      }
    }

    /**
      `Expect<T>()`: the struct of the current token when it holds alternative
      `k`; a "wrong token type" error otherwise. It reads the cursor only.
    */
    function Expect(k: Kind): (r: Result<Payload, LexerError>)
      reads this
      requires Valid()
      ensures r.Ok? <==> Is(CurrentToken(), k)
      ensures r.Ok? ==> Fits(k, r.value) && Make(k, r.value) == CurrentToken()
      ensures r.Err? ==> r.error == LexerError(WrongTokenType)
    {
      match TryAs(CurrentToken(), k)
      case Some(p) => Ok(p)
      case None => Err(LexerError(WrongTokenType))
    }

    /**
      `Expect<T>(value)`: succeeds exactly when the current token equals
      `T{value}`; a wrong alternative is a "wrong token type" error, the right
      alternative with another value a "wrong token value" error. Only valued
      alternatives have a `value` to compare.
    */
    function ExpectValue(k: Kind, v: Payload): (r: Outcome<LexerError>)
      reads this
      requires Valid()
      requires HasValue(k) && Fits(k, v)
      ensures r.Pass? <==> TokEq(CurrentToken(), Make(k, v))
      ensures r.Pass? ==> Expect(k) == Ok(v)
      ensures r.Fail? && !Is(CurrentToken(), k) ==> r.error == LexerError(WrongTokenType)
      ensures r.Fail? && Is(CurrentToken(), k) ==> r.error == LexerError(WrongTokenValue)
    {
      match Expect(k)
      case Err(e) => Fail(e)
      case Ok(curr) => if curr != v then Fail(LexerError(WrongTokenValue)) else Pass
    }

    /**
      `ExpectNext<T>()`: when the next token exists and holds alternative `k`,
      moves onto it and returns its struct (what `Expect<T>()` now returns);
      otherwise a "wrong token type" error with the cursor left in place. The
      cursor must be on a token: stepping past the list's end is undefined.
    */
    method ExpectNext(k: Kind) returns (r: Result<Payload, LexerError>)
      requires Valid() && cur < |tokens|
      modifies this
      ensures Valid()
      ensures r.Ok? <==> old(cur) + 1 < |tokens| && Is(tokens[old(cur) + 1], k)
      ensures cur == if r.Ok? then old(cur) + 1 else old(cur)
      ensures r.Ok? ==> r == Expect(k)
      ensures r.Err? ==> r.error == LexerError(WrongTokenType)
    {
      var it := cur + 1;
      if it == |tokens| || !Is(tokens[it], k) {
        return Err(LexerError(WrongTokenType));
      }
      cur := it;
      r := Ok(As(tokens[it], k));
    }

    /**
      `ExpectNext<T>(value)`: when the next token exists and equals `T{value}`,
      moves onto it; otherwise the cursor stays and the error is "wrong token
      type" whatever the mismatch was.
    */
    method ExpectNextValue(k: Kind, v: Payload) returns (r: Outcome<LexerError>)
      requires Valid() && cur < |tokens|
      requires HasValue(k) && Fits(k, v)
      modifies this
      ensures Valid()
      ensures r.Pass? <==> old(cur) + 1 < |tokens| && TokEq(tokens[old(cur) + 1], Make(k, v))
      ensures cur == if r.Pass? then old(cur) + 1 else old(cur)
      ensures r.Pass? ==> ExpectValue(k, v) == Pass
      ensures r.Fail? ==> r.error == LexerError(WrongTokenType)
    {
      var it := cur + 1;
      if it == |tokens| || !Is(tokens[it], k) || As(tokens[it], k) != v {
        return Fail(LexerError(WrongTokenType));
      }
      cur := it;
      r := Pass;
    }
  }
}
