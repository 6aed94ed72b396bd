# Mython lexer: token type, token equality and the cursor API

This project models the part of the Mython lexer (`parse` namespace) that has
real behaviour in the repository:

- **The token** (`src/lexer.h`): a closed tagged union of 24 alternatives.
  `Number(int)`, `Id(string)`, `Char(char)` and `String(string)` carry a value.
  The other twenty are fixed keywords, operators and the structural markers
  `Newline`, `Indent`, `Dedent` and `Eof`. `Is<T>`, `As<T>` and `TryAs<T>`
  query the alternative a token holds.
- **Token equality** (`src/lexer.cpp`): `operator==` compares the alternative
  first. For the four valued alternatives it then compares the values, and any
  two tokens of the same value-free alternative are equal. `operator!=`
  negates it.
- **The parser-facing cursor** (`src/lexer.h`): a finished token list with one
  cursor. `CurrentToken` peeks. `NextToken` advances. The `Expect` and
  `ExpectNext` families assert the current or next token's alternative, and
  optionally its value, and raise `LexerError` otherwise.

Layout:

- `wrappers.dfy`: `Option`, `Result` and `Outcome`. They model null pointers
  and thrown exceptions.
- `token.dfy` (module `Tokens`): `Token`; `Kind`, which names an
  alternative; and `Payload`, the struct inside an alternative. Also
  `KindOf`, `PayloadOf`, `Make`, `Is`, `TryAs` and `As`.
- `token_equality.dfy` (module `TokenEquality`): `TokEq` (`operator==`),
  `TokNe` (`operator!=`) and their laws.
- `lexer.dfy` (module `Lexers`): `LexerError` and `class Lexer`, plus pure
  step functions that specify `NextToken`.

Design decisions:

- `Kind` and `Token` share constructor names. They are written qualified
  (`Kind.Eof`, `Token.Eof`).
- `Number` holds a 32-bit signed integer (`int32`), as C++ `int` does.
- The token list is a `const` field, so no cursor operation can change it.
- The cursor `cur` is an index into the list, with this invariant: it is on a
  real token, or it is 0 when the list is empty. The source keeps a
  `std::list` iterator that starts at `end()`. `ExpectNext` applies
  `std::next` to that iterator, which is undefined at `end()`. So both
  `ExpectNext` operations require `cur < |tokens|`.
- The source bodies of `CurrentToken` and `NextToken` only throw
  "Not implemented". The model follows their doc comments instead:
  - `CurrentToken` returns the token under the cursor, or `Eof` when the list
    is empty.
  - `NextToken` moves onto the next token and returns it. When there is no
    next token, it stays put and returns `Eof`.
- Error messages are modelled as `ErrorMsg`. `Expect<T>(value)` reports a
  value mismatch as `WrongTokenValue`. `ExpectNext<T>(value)` reports a value
  mismatch as `WrongTokenType`. This is what the source does, and the model
  keeps it.

## Model

| member | source | states |
|---|---|---|
| `Tokens.KindOf` | src/lexer.cpp:13 | The alternative a token holds (the variant's `index()`). Its kind has a value exactly when the token is a Number, Id, Char or String. |
| `Tokens.Is` | src/lexer.h:115-119 | `Is<T>()` holds exactly when the token's struct, read as a `T`, fits `T` and rebuilds the token. |
| `Tokens.PayloadOf` | src/lexer.h:16-40 | The struct a token holds has the shape of its alternative. It carries a `value` exactly for Number, Id, Char and String. |
| `Tokens.Make` | src/lexer.h:104-113 | Building a token from alternative `k` and a fitting struct gives a token that holds `k` and that struct. |
| `Tokens.Decompose` | src/lexer.h:104-113 | A token is rebuilt exactly from its alternative and its struct, so `Make` inverts (`KindOf`, `PayloadOf`). |
| `Tokens.IsIffBuiltFrom` | src/lexer.h:115-119 | `Is<T>()` holds exactly when the token was constructed from a `T` struct. |
| `Tokens.TryAs` | src/lexer.h:127-131 | `TryAs<T>()` is non-null exactly when `Is<T>()` holds. The struct it points to rebuilds the token. |
| `Tokens.As` | src/lexer.h:121-125 | `As<T>()` is defined only when `Is<T>()` holds. It returns the struct that `TryAs<T>()` points to, and that struct rebuilds the token. |
| `TokenEquality.TokEq` | src/lexer.cpp:10-29 | `operator==` holds exactly when both tokens hold the same alternative and carry the same struct. |
| `TokenEquality.TokNe` | src/lexer.cpp:31-33 | `operator!=` is the negation of `operator==`, which is inequality of the tokens as values. |
| `TokenEquality.TokEqIsSameToken` | src/lexer.cpp:10-29 | `operator==` holds exactly when the two tokens are the same value. |
| `TokenEquality.DifferentKindsNeverEqual` | src/lexer.cpp:13-15 | Tokens holding different alternatives are never equal, and `!=` holds for them. |
| `TokenEquality.ValuedEqualIffValuesEqual` | src/lexer.cpp:16-27 | Two Char, Number, String or Id tokens are equal exactly when their values are equal. |
| `TokenEquality.ValueFreeAlwaysEqual` | src/lexer.cpp:28 | Two tokens of the same value-free alternative are always equal. |
| `TokenEquality.TokEqIsEquivalence` | src/lexer.cpp:10-29 | `operator==` is reflexive, symmetric and transitive. |
| `Lexers.Advance` | src/lexer.h:153-154 | One `NextToken` moves the cursor forward by one while a next token exists. On the last token it leaves the cursor there. |
| `Lexers.Yield` | src/lexer.h:153-154 | One `NextToken` returns the token it moves onto, or `Eof` when there is no next token. |
| `Lexers.AdvanceMany` | src/lexer.h:153-154 | Any number of `NextToken` calls keeps the cursor inside the list. |
| `Lexers.AdvanceManyClamps` | src/lexer.h:153-154 | `n` calls of `NextToken` move the cursor exactly `n` places forward, stopping at the last token. |
| `Lexers.NextTokenPastEndYieldsEof` | src/lexer.h:153-154 | Once the stream is exhausted, further `NextToken` calls keep returning `Eof` and never move the cursor. |
| `Lexers.Lexer.constructor` | src/lexer.h:148 | A lexer is built over a finished token list, with its cursor on the first token. |
| `Lexers.Lexer.CurrentToken` | src/lexer.h:150-151 | Returns the token under the cursor, or `Eof` when the stream holds no token. |
| `Lexers.Lexer.NextToken` | src/lexer.h:153-154 | Moves onto the next token and returns it, or stays put and returns `Eof` when there is none. The cursor never moves back. When the list ends in `Eof`, the result is the new current token. |
| `Lexers.Lexer.Expect` | src/lexer.h:156-171 | Succeeds exactly when the current token holds `T`, returning the struct that rebuilds it. Otherwise it fails with "wrong token type". It is a `const` query. |
| `Lexers.Lexer.ExpectValue` | src/lexer.h:173-186 | Succeeds exactly when the current token equals `T{value}` under `operator==`. A wrong alternative fails with "wrong token type". The right alternative with another value fails with "wrong token value". |
| `Lexers.Lexer.ExpectNext` | src/lexer.h:188-203 | Succeeds exactly when a next token exists and holds `T`. On success it advances by one and returns what `Expect<T>()` now returns. On failure it reports "wrong token type" and leaves the cursor unchanged. |
| `Lexers.Lexer.ExpectNextValue` | src/lexer.h:205-220 | Succeeds exactly when a next token exists and equals `T{value}`. On success it advances by one, and `Expect<T>(value)` then passes. On any failure it reports "wrong token type" and leaves the cursor unchanged. |

## Left out

- The stream-reading constructor `Lexer(std::istream&)` (src/lexer.cpp:77-88) is left out. It runs an empty read loop and produces no tokens. Construction is modelled as taking a finished token list.
- `BufferPareser` (src/lexer.cpp:90-109) is left out. It is an empty `switch`, so the repository has no scanning, indentation stack or Indent/Dedent synthesis to model.
- The bodies of `CurrentToken` and `NextToken` (src/lexer.cpp:111-121) are left out. They only throw a "Not implemented" `logic_error`, so the doc comments at src/lexer.h:150-154 are modelled instead.
- `operator<<` (src/lexer.cpp:35-75) is left out. It is stream output formatting.
- `std::list` iterator mechanics are left out. The cursor is an index. The undefined `std::next(end())` becomes a precondition of the `ExpectNext` operations.
- Tokens.As: `std::get<T>` throws `std::bad_variant_access` when the token holds another alternative. The model replaces that throw with the precondition `Is(t, k)`, because every caller in the source checks `Is` first (src/lexer.cpp:16-27, src/lexer.h:196-202 and 214).
- Exception message texts are left out. They are modelled only as the two `ErrorMsg` cases.
- Lexers.Lexer.ExpectValue and Lexers.Lexer.ExpectNextValue: `value` must have the shape of `T`'s struct. The C++ template also accepts any `U` that compares with `T::value` through implicit conversions, such as a `char` compared with a Number's `int`. Those conversions are not modelled.
- `Char` holds a Dafny `char` and strings are `seq<char>`. C++ `char` is one byte. Only equality is applied to these values, so the difference does not affect any modelled behaviour.
