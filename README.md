# The kit bootstrap lexer, modelled in Dafny

This project models the lexer of the kit compiler's C bootstrap:

- the one-character token scanner `scanToken`;
- the `tokenize` driver loop, which skips white space, scans a token,
  stops at the first character it cannot classify, and appends each token
  to a heap buffer that starts at 7 slots and grows by 7;
- the offset-to-position conversion `posToPosition` and `posToSpan`, and the
  `NoPos` sentinel span;
- the numeric-suffix table `parseNumSuffix` and the naming function
  `showNumSpec`;
- the optional-value convention of `maybe.h`.

Modules follow the C headers:

| module | file | C header |
|---|---|---|
| `Maybes` | `maybe.dfy` | `src/bootstrap/maybe.h` |
| `Strings` | `strings.dfy` | stand-in for `string.h`: the characters and their NUL terminator |
| `Spans` | `span.dfy` | `src/bootstrap/ast/span.h` |
| `Tokens` | `tokens.dfy` | stand-in for `tokens.h`: the 14 token kinds used and the token record |
| `Numbers` | `numbers.dfy` | `src/bootstrap/ast/numbers.h` |
| `Lexer` | `lexer.dfy` | `src/bootstrap/parser/lexer.h` |

## How the model is built

Tokenizing in the code is imperative, so it is modelled as methods:

- `Tokenize` keeps the C code's loop over `current`.
- `Pass` is one pass of that loop. `SkipWhitespace` is the inner white-space loop.
- `TokenList` is a class holding a `length` and an `array` buffer. `Add` grows
  and appends the way lines 47-55 do.

`Tokenize` and `Pass` are proved against the recursive specification function
`Lex(source, current)`. `SkipWhitespace` is proved equal to `SkipBlanks`.
`Add`, `TokenList.Resize` and `TokenList.Append` state the buffer's new
contents and capacity. `Lex` gives three things:
- the tokens produced;
- the offset each token starts at;
- the error that stopped tokenizing, if any.

The lemmas about `Lex` state what the code promises.
`posToPosition` is the method `PosToPosition`, with its `for` loop. It is
proved equal to `PositionOf`, and the closed form and the ordering lemmas are
proved about `PositionOf`.

Points where the lexer behaves differently from what a reader might expect:
- There are only the 14 one-character tokens `( ) { } [ ] , : ; . # $ ? _`. `=` is
  not a token. There are no compound tokens such as `...`, `.*` or `=>`.
- There is no error recovery. The first character that is neither white space
  nor punctuation ends tokenizing. It is reported with the empty span at its
  offset, and the tokens kept are exactly the punctuation before it
  (`LexStopsAtFirstBad`, `LexKeepsPunctuation`, `StopsAtFirstError`).
- `tokenize` returns `false` on every path. It assigns the list it builds to its
  by-value parameter, so the caller never sees that list. The model returns the
  flag as `false` (`Tokenize`) and hands back the list it builds as an explicit
  result.
- `posToPosition` also examines the character at the offset itself. So a
  character other than `\n` at the start of a line is at column 1, not 0
  (`FirstCharacterPosition`, `LineStartExamples`).
- The white-space loop does not check for the end of the text. It relies on the
  NUL terminator, which `Strings.String.At` returns at index `Length()`. So
  white space at the very end of a text makes the scanner meet the terminator
  and report an error (`TrailingSpaceIsError`).

## Model

| member | source | states |
|---|---|---|
| Maybes.MaybeConvention | src/bootstrap/maybe.h:15-20 | `nothing` is reported as nothing by `IsNothing` (defined as the `isNull` flag, `m.Nothing?`); `just(v)` is not, and its value is `v` |
| Spans.PositionOf | src/bootstrap/ast/span.h:23-39 | the position reached after examining offsets 0 through `pos` always has line at least 1 and column at least 0 |
| Spans.PosToPosition | src/bootstrap/ast/span.h:23-39 | the loop over indices 0 through `pos` inclusive computes exactly `PositionOf(source, pos)`; a negative `pos` gives line 1, column 0 |
| Spans.LineCount | src/bootstrap/ast/span.h:26-31 | the line is 1 plus the number of `\n` among the characters examined at offsets 0 through `pos` |
| Spans.ColumnCount | src/bootstrap/ast/span.h:27-33 | the column is the number of examined characters after the last examined `\n`, or all of them when there is none |
| Spans.PositionClosedForm | src/bootstrap/ast/span.h:26-36 | the line is 1 plus the number of `\n` among the examined characters; the column is the number of characters after the last examined `\n`, or all of them when there is none |
| Spans.PositionOrder | src/bootstrap/ast/span.h:26-34 | a larger offset gives a strictly later position in reading order |
| Spans.LineMonotone | src/bootstrap/ast/span.h:26-34 | the line never decreases as the offset grows |
| Spans.CarriageReturn | src/bootstrap/ast/span.h:29-33 | a lone `\r` adds one column and no line; `\r\n` moves to the next line at column 0, as `\n` alone does |
| Spans.FirstCharacterPosition | src/bootstrap/ast/span.h:26-33 | offset 0 of a text not starting with `\n` is line 1, column 1 |
| Spans.LineStartExamples | src/bootstrap/ast/span.h:26-33 | the character after `\n` or after `\r\n` is at line 2, column 1 |
| Spans.PosToSpan | src/bootstrap/ast/span.h:41-45 | the span refers to the source text, and both of its positions have line at least 1 and column at least 0 |
| Spans.NoPosIsNoPosition | src/bootstrap/ast/span.h:19 | `NoPos` has the nil text and two `(0, 0)` positions, and no offset of any text is at position `(0, 0)` |
| Spans.SpanWellFormed | src/bootstrap/ast/span.h:41-45 | `posToSpan` refers to the source text, is never `NoPos`, and its end is not before its start when the offsets are ordered |
| Numbers.ParseNumSuffix | src/bootstrap/ast/numbers.h:36-51 | the result is `Just(n)` exactly when the suffix is the table entry of `n`, and `Nothing` for every other string |
| Numbers.ParseNumSuffixExact | src/bootstrap/ast/numbers.h:36-51 | every kind's suffix parses back to it, only that suffix does, and two accepted suffixes with the same result are equal |
| Numbers.ParseNumSuffixRejects | src/bootstrap/ast/numbers.h:36-51 | a prefix (`u`), an extension (`u8x`), the empty string and a different case (`I32`) are rejected, because matching is exact |
| Numbers.ShowNumSpec | src/bootstrap/ast/numbers.h:53-84 | every kind has a non-empty name, so the `NULL` default is never reached |
| Numbers.ShowNumSpecInjective | src/bootstrap/ast/numbers.h:53-84 | distinct kinds have distinct names |
| Numbers.SuffixNames | src/bootstrap/ast/numbers.h:36-84 | naming the parsed suffix gives `i`→`Int`, `i32`→`Int32`, `c`→`Char`, `s`→`Size`, `u64`→`Uint64`, `f32`→`Float32` |
| Strings.String.At | src/bootstrap/parser/lexer.h:15-16 | reading index `i` is reading the NUL-terminated buffer `cString + ['\0']` at `i`, as the `cString[pos]` reads rely on |
| Lexer.KindOf | src/bootstrap/parser/lexer.h:69-85 | a character that has a kind spells that kind |
| Lexer.KindOfExact | src/bootstrap/parser/lexer.h:69-85 | a character has a kind exactly when it spells that kind: the 14 characters map to 14 distinct kinds |
| Lexer.ScanToken | src/bootstrap/parser/lexer.h:63-87 | a token is found exactly for a punctuation character, and then 1 character is consumed; the token has that character's kind, the span from `pos` to `pos + 1` and no payload; otherwise nothing is found and 0 is consumed |
| Lexer.ScanRejects | src/bootstrap/parser/lexer.h:84 | `=` and the terminator are not tokens: scanning them finds nothing and consumes nothing |
| Lexer.IsBlank | src/bootstrap/parser/lexer.h:40 | `isblank` in the C locale: the blanks are exactly the white space other than `\n` and `\r` |
| Lexer.IsRnEol | src/bootstrap/parser/lexer.h:15 | a `\r\n` pair that is found lies wholly inside the text, so reading `pos + 1` never passes the terminator |
| Lexer.IsEol | src/bootstrap/parser/lexer.h:16 | a line terminator starts at `pos` exactly when the character there is `\n` or `\r`; the `\r\n` test adds no case |
| Lexer.SkipBlanks | src/bootstrap/parser/lexer.h:40-42 | skipping stops at the first offset that is not a blank or line terminator; everything skipped is white space |
| Lexer.SkipWhitespace | src/bootstrap/parser/lexer.h:40-42 | the loop that steps 2 over `\r\n` and 1 over any other blank or terminator stops at `SkipBlanks(source, from)` |
| Lexer.Lex | src/bootstrap/parser/lexer.h:36-56 | the specification of tokenizing from an offset, ending when `IsAtEnd` (defined as `pos >= Length()`, the `isAtEnd` macro of line 14) holds; its own contract only pairs each token with a start offset, and the lemmas below state the rest |
| Lexer.LexPass | src/bootstrap/parser/lexer.h:37-44 | proof step for `LexSucceedsIff`, one unfolding of `Lex`: after the white space, either a punctuation character is scanned and tokenizing goes on after it with the same final error, or tokenizing stops with an error |
| Lexer.LexablePass | src/bootstrap/parser/lexer.h:37-44 | proof step for `LexSucceedsIff`: a pass keeps the rest of the text lexable exactly when it scans a punctuation character |
| Lexer.Pass | src/bootstrap/parser/lexer.h:37-44 | one pass skips to `SkipBlanks(source, current)`, scans there, and relates the tokens and error from `current` to those from the next offset |
| Lexer.LexStartAt | src/bootstrap/parser/lexer.h:36-44 | every token is what the scanner produces at its start offset, and that offset lies in the text |
| Lexer.LexStartsIncrease | src/bootstrap/parser/lexer.h:36-43 | the start offsets of the tokens increase strictly |
| Lexer.TokenShape | src/bootstrap/parser/lexer.h:63-68 | every token is spelled by the character at its start, spans that character, and has no payload |
| Lexer.TokensInSourceOrder | src/bootstrap/parser/lexer.h:36-55 | the tokens' start positions increase strictly in reading order |
| Lexer.LexErrorCharacter | src/bootstrap/parser/lexer.h:40-44 | the character reported is neither white space nor punctuation |
| Lexer.LexStopsAtFirstBad | src/bootstrap/parser/lexer.h:17-21 | when tokenizing fails, there is an offset `k` at or after `from`: its character is the first that is neither white space nor punctuation, the error is that character with `posToSpan(source, k, k)`, and every token starts before `k` |
| Lexer.StopsAfterToken | src/bootstrap/parser/lexer.h:36-44 | proof step for `LexStopsAtFirstBad`: a stop found after a pass's token is a stop from where that pass began |
| Lexer.LexKeepsPunctuation | src/bootstrap/parser/lexer.h:36-56 | every character that is not white space, with only white space and punctuation from `from` up to it, starts a token, whether tokenizing later fails or not |
| Lexer.LexSucceedsIff | src/bootstrap/parser/lexer.h:36-58 | tokenizing ends without an error exactly when the rest of the text is only white space and punctuation and ends with punctuation |
| Lexer.TrailingSpaceIsError | src/bootstrap/parser/lexer.h:40-44 | a text ending in white space always ends tokenizing in an error |
| Lexer.LexComplete | src/bootstrap/parser/lexer.h:36-56 | when tokenizing succeeds, every character that is not white space starts a token |
| Lexer.StopsAtFirstError | src/bootstrap/parser/lexer.h:17-21 | from `(@)` only `(` is kept and `@` is reported: there is no recovery |
| Lexer.CapacityPolicy | src/bootstrap/parser/lexer.h:47-48 | the capacity for `length` tokens lies between `length` and `length + 7`, is a multiple of 7, and grows by exactly 7 only when a full buffer takes one more token |
| Lexer.TokenList.constructor | src/bootstrap/parser/lexer.h:28-31 | a new list is empty, over a fresh buffer of the given capacity |
| Lexer.TokenList.Resize | src/bootstrap/parser/lexer.h:48-52 | the tokens move to a fresh buffer of the new capacity, all kept and in order |
| Lexer.TokenList.Append | src/bootstrap/parser/lexer.h:54-55 | the token is written at slot `length`, `length` grows by one, and no other slot changes |
| Lexer.Add | src/bootstrap/parser/lexer.h:47-55 | the contents gain the token at the end; the capacity grows by 7 exactly when the buffer was full, and keeps following the policy |
| Lexer.Tokenize | src/bootstrap/parser/lexer.h:26-59 | the list built holds exactly the tokens of `Lex(source, 0)`, the error is that of `Lex(source, 0)`, the buffer follows the capacity policy, and the returned flag is `false` |

## Left out

- `parseFloat` and `parseInt` (numbers.h lines 26-34) are not modelled. They only wrap the C library's `strtof` and `strtoimax`, and `parseFloat` is floating point.
- The `fprintf` in `lexError` is diagnostic output and is not modelled. The model returns the span and character the diagnostic reports.
- `malloc`, `calloc`, `free` and `memcpy` become a fresh Dafny array and a copy of its first `length` slots. The model does not represent the leaked `TokenList` record, freeing the old buffer, or byte-level copying.
- `tokenize` assigns its result to a by-value parameter. The model does not represent that aliasing; it returns the list instead.
- The `assert(tokenList == NULL)` at entry is not modelled. In the model the list is created by the method itself.
- `src/bootstrap/document.h` is a plain record with no logic, and is not part of this model.
- `tokens.h` and `string.h` are not part of this model. Only what the lexer uses is declared: the 14 token kinds, a token with kind, span and payload, and a text with its characters.
- `Tokens.Token`: the payload pointer is `NULL` for every token the lexer makes. Its pointee type is unknown, so the payload is `Maybe<()>` and always `Nothing`.
- `Strings.NilString` is modelled as the empty text. `string.h` is not part of this model.
- `isblank` is taken in the C locale, as space and tab only. Locale dependence is left out.
- Integer widths are not modelled. The `size_t` offsets and capacity and the `int` line, column and offset of `posToPosition` are unbounded integers, so overflow on texts over 2^31 characters is not captured.
- `Spans.PosToPosition` requires the offset to be at most the text's length. A larger offset reads past the NUL terminator in C, which is undefined.
- `Maybes.MaybeConvention`: the zero-initialised value that `nothing(T)` carries is not represented. `Nothing` has no value.
- `Numbers.ShowNumSpec`: the `NULL` default cannot be reached, because the datatype is closed. The `string` result is the characters of the C string before its NUL.
- `Numbers.ParseNumSuffix` takes a suffix as the characters before its NUL. A C string cannot contain a NUL, so `strcmp` comparison is equality of those characters.
- `Strings.String`: each `char` of `cString` stands for one C byte. No encoding is decoded, so columns count bytes, and a character encoded in several bytes is several elements.
- Concurrency is left out; the lexer has none.
