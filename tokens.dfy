/** The token model the lexer produces: the fourteen kinds it recognises and
    a token record carrying its kind, its span and an optional payload. */
module Tokens {

  import opened Maybes
  import opened Spans

  datatype TokenType =
    | ParenOpen | ParenClose
    | CurlyBraceOpen | CurlyBraceClose
    | SquareBraceOpen | SquareBraceClose
    | Comma | Colon | Semicolon
    | Dot | Hash | Dollar | Question | Underscore

  /** A token. The payload is a pointer that is NULL for every kind produced
      here; `Nothing` stands for that NULL. */
  datatype Token = Token(kind: TokenType, span: Span, payload: Maybe<()>)
}
