/** The bootstrap lexer: a one-character scanner and the loop that turns a
    whole text into a list of tokens, stopping at the first character it
    cannot classify. */
module Lexer {

  import opened Maybes
  import opened Strings
  import opened Spans
  import opened Tokens

  /** The character each token kind is written as: the reference table the
      scanner is measured against. */
  function Spelling(k: TokenType): char
  {
    match k
    case ParenOpen => '('
    case ParenClose => ')'
    case CurlyBraceOpen => '{'
    case CurlyBraceClose => '}'
    case SquareBraceOpen => '['
    case SquareBraceClose => ']'
    case Comma => ','
    case Colon => ':'
    case Semicolon => ';'
    case Dot => '.'
    case Hash => '#'
    case Dollar => '$'
    case Question => '?'
    case Underscore => '_'
  }

  /** The kind a pivot character stands for, if any: exactly the punctuation
      characters have one, and each has the kind spelled by it. */
  function KindOf(c: char): (r: Maybe<TokenType>)
    ensures r.Just? ==> Spelling(r.value) == c
  {
    match c
    case '(' => Just(ParenOpen)
    case ')' => Just(ParenClose)
    case '{' => Just(CurlyBraceOpen)
    case '}' => Just(CurlyBraceClose)
    case '[' => Just(SquareBraceOpen)
    case ']' => Just(SquareBraceClose)
    case ',' => Just(Comma)
    case ':' => Just(Colon)
    case ';' => Just(Semicolon)
    case '.' => Just(Dot)
    case '#' => Just(Hash)
    case '$' => Just(Dollar)
    case '?' => Just(Question)
    case '_' => Just(Underscore)
    case _ => Nothing
  }

  /** A character that is a token on its own. */
  predicate IsPunctuation(c: char)
  {
    KindOf(c).Just?
  }

  /** A character has a kind exactly when it spells that kind: the fourteen
      punctuation characters map to fourteen distinct kinds, and every kind
      is reached. */
  lemma KindOfExact(c: char, k: TokenType)
    ensures KindOf(c) == Just(k) <==> Spelling(k) == c
  {
  }

  /** Scans one token at offset `pos`: the token found, if any, and the number
      of characters consumed. A punctuation character is consumed as a
      one-character token spanning `pos` to `pos + 1` with no payload; any
      other character, the terminator included, consumes nothing. */
  function ScanToken(source: String, pos: nat): (r: (Maybe<Token>, nat))
    requires pos <= source.Length()
    ensures r.1 == (if r.0.Just? then 1 else 0)
    ensures r.0.Just? <==> IsPunctuation(source.At(pos))
    ensures r.0.Just? ==> && pos < source.Length()
                          && KindOf(source.At(pos)) == Just(r.0.value.kind)
                          && r.0.value.span == PosToSpan(source, pos, pos + 1)
                          && r.0.value.payload == Nothing
  {
    var start := pos;
    var c := source.At(pos);
    match KindOf(c)
    case Just(k) => (Just(Token(k, PosToSpan(source, start, pos + 1), Nothing)), 1)
    case Nothing => (Nothing, 0)
  }

  /** `=` is not a token, and neither is the terminator: scanning either
      finds nothing and consumes nothing. */
  lemma ScanRejects(source: String, pos: nat)
    requires pos <= source.Length()
    requires pos == source.Length() || source.At(pos) == '='
    ensures ScanToken(source, pos) == (Nothing, 0)
  {
  }

  /** `pos` is at or past the end of the text. */
  predicate IsAtEnd(source: String, pos: nat)
  {
    pos >= source.Length()
  }

  /** A blank in the C locale: space and tab. A blank is white space, and
      the white space that is not blank is the two line-terminator characters. */
  predicate IsBlank(c: char)
    ensures IsBlank(c) <==> IsSpace(c) && c != '\n' && c != '\r'
  {
    c == ' ' || c == '\t'
  }

  /** A `\r\n` pair starts at `pos`. The second character is read only when
      the first is `\r`, which cannot be the terminator, and a pair found lies
      wholly inside the text. */
  predicate IsRnEol(source: String, pos: nat)
    requires pos <= source.Length()
    ensures IsRnEol(source, pos) ==> pos + 1 < source.Length()
  {
    source.At(pos) == '\r' && source.At(pos + 1) == '\n'
  }

  /** A line terminator starts at `pos`. The `\r\n` case adds nothing to a
      lone `\r`: it only matters for how far the white-space loop steps. */
  predicate IsEol(source: String, pos: nat)
    requires pos <= source.Length()
    ensures IsEol(source, pos) <==> source.At(pos) == '\n' || source.At(pos) == '\r'
  {
    source.At(pos) == '\n' || source.At(pos) == '\r' || IsRnEol(source, pos)
  }

  /** The characters the tokenizer skips between tokens. */
  predicate IsSpace(c: char)
  {
    c == ' ' || c == '\t' || c == '\n' || c == '\r'
  }

  /** The offset reached by skipping blanks and line terminators from `pos`:
      everything skipped is white space, and what is reached is not. */
  function SkipBlanks(source: String, pos: nat): (r: nat)
    requires pos <= source.Length()
    ensures pos <= r <= source.Length()
    ensures !IsSpace(source.At(r))
    ensures forall k :: pos <= k < r ==> IsSpace(source.At(k))
    decreases source.Length() - pos
  {
    if IsBlank(source.At(pos)) || IsEol(source, pos) then
      SkipBlanks(source, pos + if IsRnEol(source, pos) then 2 else 1)
    else
      pos
  }

  /** What the diagnostic for an unexpected character reports: the span of
      its offset and the character itself. */
  datatype LexError = LexError(span: Span, character: char)

  /** What tokenizing from some offset yields: the tokens, the offset each of
      them starts at, and the error that stopped tokenizing, if one did. */
  datatype Lexed = Lexed(tokens: seq<Token>, starts: seq<nat>, error: Maybe<LexError>)

  /** Tokenizing the text from offset `current` on: one pass skips white
      space and scans a token; a pass that finds no token ends tokenizing
      with an error. */
  function Lex(source: String, current: nat): (r: Lexed)
    requires current <= source.Length()
    ensures |r.tokens| == |r.starts|
    decreases source.Length() - current
  {
    if IsAtEnd(source, current) then Lexed([], [], Nothing)
    else
      var start := SkipBlanks(source, current);
      var scanned := ScanToken(source, start);
      if IsNothing(scanned.0) then
        Lexed([], [], Just(LexError(PosToSpan(source, start, start), source.At(start))))
      else
        var rest := Lex(source, start + scanned.1);
        Lexed([scanned.0.value] + rest.tokens, [start] + rest.starts, rest.error)
  }

  /** Tokenizing from `from` can succeed: from there on the text holds only
      white space and punctuation, and it ends with punctuation. */
  ghost predicate Lexable(source: String, from: nat)
  {
    from >= source.Length() ||
    ((forall k :: from <= k < source.Length() ==> IsSpace(source.At(k)) || IsPunctuation(source.At(k)))
     && IsPunctuation(source.At(source.Length() - 1)))
  }

  /** One pass of tokenizing from `from`: after the white space, either a
      punctuation character is scanned and tokenizing goes on after it, or
      tokenizing stops with an error. */
  lemma LexPass(source: String, from: nat)
    requires from < source.Length()
    ensures var start := SkipBlanks(source, from);
            if start < source.Length() && IsPunctuation(source.At(start))
            then Lex(source, from).error == Lex(source, start + 1).error
            else Lex(source, from).error.Just?
  {
  }

  /** The same pass seen from `Lexable`: a lexable text stays lexable after
      the first token, and a pass that stops tokenizing meets a text that is
      not lexable. */
  lemma LexablePass(source: String, from: nat)
    requires from < source.Length()
    ensures var start := SkipBlanks(source, from);
            if start < source.Length() && IsPunctuation(source.At(start))
            then Lexable(source, from) <==> Lexable(source, start + 1)
            else !Lexable(source, from)
  {
  }

  /** Every token is what the scanner produces at its start offset, which
      lies in the text at or after the offset tokenizing began at. */
  lemma {:induction false} LexStartAt(source: String, current: nat, i: nat)
    requires current <= source.Length()
    requires i < |Lex(source, current).tokens|
    ensures current <= Lex(source, current).starts[i] < source.Length()
    ensures ScanToken(source, Lex(source, current).starts[i]) == (Just(Lex(source, current).tokens[i]), 1)
    decreases i
  {
    var start := SkipBlanks(source, current);
    if i > 0 {
      LexStartAt(source, start + 1, i - 1);
    }
  }

  /** The start offsets of the tokens increase strictly. */
  lemma {:induction false} LexStartsIncrease(source: String, current: nat, i: nat, j: nat)
    requires current <= source.Length()
    requires i < j < |Lex(source, current).starts|
    ensures Lex(source, current).starts[i] < Lex(source, current).starts[j]
    decreases i
  {
    var start := SkipBlanks(source, current);
    if i == 0 {
      LexStartAt(source, start + 1, j - 1);
    } else {
      LexStartsIncrease(source, start + 1, i - 1, j - 1);
    }
  }

  /** Every token is a punctuation character's one-character token. */
  lemma TokenShape(source: String, current: nat, i: nat)
    requires current <= source.Length()
    requires i < |Lex(source, current).tokens|
    ensures Lex(source, current).starts[i] < source.Length()
    ensures var r := Lex(source, current);
            && Spelling(r.tokens[i].kind) == source.At(r.starts[i])
            && r.tokens[i].span == PosToSpan(source, r.starts[i], r.starts[i] + 1)
            && r.tokens[i].payload == Nothing
  {
    LexStartAt(source, current, i);
    var r := Lex(source, current);
    KindOfExact(source.At(r.starts[i]), r.tokens[i].kind);
  }

  /** Tokenizing stops only at a character that is neither white space nor
      punctuation, and reports that character: a consequence of where it
      stops. */
  lemma LexErrorCharacter(source: String, current: nat)
    requires current <= source.Length()
    requires Lex(source, current).error.Just?
    ensures var c := Lex(source, current).error.value.character;
            !IsSpace(c) && !IsPunctuation(c)
  {
    LexStopsAtFirstBad(source, current);
    var k :| StopsAt(source, current, k);
  }

  /** Tokenizing ends without an error exactly when the rest of the text is lexable. */
  lemma {:induction false} LexSucceedsIff(source: String, from: nat)
    requires from <= source.Length()
    ensures Lex(source, from).error == Nothing <==> Lexable(source, from)
    decreases source.Length() - from
  {
    if from < source.Length() {
      var start := SkipBlanks(source, from);
      LexPass(source, from);
      LexablePass(source, from);
      if start < source.Length() && IsPunctuation(source.At(start)) {
        LexSucceedsIff(source, start + 1);
      }
    }
  }

  /** White space at the very end of a text always ends tokenizing in an error:
      after skipping it the scanner sees the terminator. */
  lemma TrailingSpaceIsError(source: String)
    requires source.Length() > 0 && IsSpace(source.At(source.Length() - 1))
    ensures Lex(source, 0).error.Just?
  {
    LexSucceedsIff(source, 0);
  }

  /** Every character that is not white space, with nothing but white space
      and punctuation from `from` up to it, starts a token: on an error too,
      all the punctuation before the bad character is kept. */
  lemma {:induction false} LexKeepsPunctuation(source: String, from: nat, k: nat)
    requires from <= k < source.Length()
    requires forall j :: from <= j <= k ==> IsSpace(source.At(j)) || IsPunctuation(source.At(j))
    requires !IsSpace(source.At(k))
    ensures k in Lex(source, from).starts
    decreases source.Length() - from
  {
    var start := SkipBlanks(source, from);
    if start < k {
      LexKeepsPunctuation(source, start + 1, k);
    }
  }

  /** When tokenizing succeeds, every character that is not white space
      starts a token: nothing is lost. */
  lemma LexComplete(source: String, from: nat, k: nat)
    requires from <= k < source.Length()
    requires Lex(source, from).error == Nothing
    requires !IsSpace(source.At(k))
    ensures k in Lex(source, from).starts
  {
    LexSucceedsIff(source, from);
    LexKeepsPunctuation(source, from, k);
  }

  /** Tokenizing from `from` stops at offset `k`: the character there is the
      first from `from` on that is neither white space nor punctuation, it is
      reported with the empty span at `k`, and every token starts before it. */
  ghost predicate StopsAt(source: String, from: nat, k: nat)
    requires from <= source.Length()
  {
    && from <= k <= source.Length()
    && !IsSpace(source.At(k)) && !IsPunctuation(source.At(k))
    && (forall j :: from <= j < k ==> IsSpace(source.At(j)) || IsPunctuation(source.At(j)))
    && Lex(source, from).error == Just(LexError(PosToSpan(source, k, k), source.At(k)))
    && (forall i :: 0 <= i < |Lex(source, from).starts| ==> Lex(source, from).starts[i] < k)
  }

  /** Tokenizing that fails stops at the first offset from `from` whose
      character is neither white space nor punctuation, reports that
      character with the empty span at that offset, and keeps only tokens
      that start before it. */
  lemma {:induction false} LexStopsAtFirstBad(source: String, from: nat)
    requires from <= source.Length()
    requires Lex(source, from).error.Just?
    ensures exists k :: StopsAt(source, from, k)
    decreases source.Length() - from
  {
    var start := SkipBlanks(source, from);
    if IsPunctuation(source.At(start)) {
      LexStopsAtFirstBad(source, start + 1);
      var k :| StopsAt(source, start + 1, k);
      StopsAfterToken(source, from, k);
    } else {
      assert StopsAt(source, from, start);
    }
  }

  /** A stop after the first token is a stop from where that pass began. */
  lemma StopsAfterToken(source: String, from: nat, k: nat)
    requires from < source.Length()
    requires IsPunctuation(source.At(SkipBlanks(source, from)))
    requires StopsAt(source, SkipBlanks(source, from) + 1, k)
    ensures StopsAt(source, from, k)
  {
  }

  /** The tokens come out in source order: their start positions increase strictly. */
  lemma TokensInSourceOrder(source: String, from: nat, i: nat, j: nat)
    requires from <= source.Length()
    requires i < j < |Lex(source, from).tokens|
    ensures Before(Lex(source, from).tokens[i].span.start, Lex(source, from).tokens[j].span.start)
  {
    var r := Lex(source, from);
    LexStartsIncrease(source, from, i, j);
    LexStartAt(source, from, i);
    LexStartAt(source, from, j);
    PositionOrder(source, r.starts[i], r.starts[j]);
  }

  /** Tokenizing stops at the first character it cannot classify: of `(@)`
      only the opening parenthesis is kept, and `@` is reported. */
  lemma StopsAtFirstError()
    ensures |Lex(String("(@)"), 0).tokens| == 1
    ensures Lex(String("(@)"), 0).tokens[0].kind == ParenOpen
    ensures Lex(String("(@)"), 0).error.Just? && Lex(String("(@)"), 0).error.value.character == '@'
  {
    // The two passes spelled out: without them the proof costs about twice as much.
    var source := String("(@)");
    assert source.At(0) == '(' && source.At(1) == '@';
    assert SkipBlanks(source, 0) == 0 && SkipBlanks(source, 1) == 1;
    assert Lex(source, 1).tokens == [];
  }

  /** The capacity of the token buffer once `length` tokens have been
      appended: 7 to begin with, 7 more each time a full buffer takes one more. */
  function CapacityFor(length: nat): nat
  {
    if length <= 7 then 7 else 7 * ((length + 6) / 7)
  }

  /** The buffer always has room for what it holds and never more than 7 slots
      spare, and it grows by exactly 7 when, and only when, it is full. */
  lemma CapacityPolicy(length: nat)
    ensures length <= CapacityFor(length) <= length + 7
    ensures CapacityFor(length) % 7 == 0
    ensures CapacityFor(length + 1) ==
              if CapacityFor(length) < length + 1 then CapacityFor(length) + 7 else CapacityFor(length)
  {
  }

  /** The growable list of tokens: the tokens held are the first `length`
      slots of the `tokens` buffer. */
  class TokenList {
    var length: nat
    var tokens: array<Token>

    ghost predicate Valid()
      reads this
    {
      length <= tokens.Length
    }

    ghost function Contents(): seq<Token>
      reads this, tokens
      requires Valid()
    {
      tokens[..length]
    }

    /** An empty list over a fresh, zero-initialised buffer of `capacity` slots. */
    constructor (capacity: nat)
      ensures Valid() && fresh(tokens)
      ensures tokens.Length == capacity && length == 0 && Contents() == []
    {
      length := 0;
      tokens := new Token[capacity];
    }

    /** Moves the tokens to a fresh buffer of `capacity` slots, keeping them
      all, in order. */
    method Resize(capacity: nat)
      requires Valid() && length <= capacity
      modifies this
      ensures Valid() && fresh(tokens) && tokens.Length == capacity
      ensures length == old(length) && Contents() == old(Contents())
    {
      var newList := new Token[capacity];
      forall i | 0 <= i < length {
        newList[i] := tokens[i];
      }
      tokens := newList;
    }

    /** Writes `t` into the first free slot, leaving every other slot as it was. */
    method Append(t: Token)
      requires Valid() && length < tokens.Length
      modifies this, tokens
      ensures Valid() && tokens == old(tokens)
      ensures length == old(length) + 1
      ensures Contents() == old(Contents()) + [t]
      ensures forall i :: 0 <= i < tokens.Length && i != old(length) ==> tokens[i] == old(tokens[i])
    {
      tokens[length] := t;
      length := length + 1;
    }
  }

  /** The loop that skips blanks and line terminators: a `\r\n` pair is
      skipped as one step of two characters, any other blank or terminator as
      one step of one. */
  method SkipWhitespace(source: String, from: nat) returns (current: nat)
    requires from <= source.Length()
    ensures current == SkipBlanks(source, from)
  {
    current := from;
    while IsBlank(source.At(current)) || IsEol(source, current)
      invariant from <= current <= source.Length()
      invariant SkipBlanks(source, current) == SkipBlanks(source, from)
      decreases source.Length() - current
    {
      current := current + if IsRnEol(source, current) then 2 else 1;
    }
  }

  /** Appends `t` after growing the buffer by 7 slots if it is full, and
      returns the new capacity. */
  method Add(list: TokenList, t: Token, capacity: nat) returns (newCapacity: nat)
    requires list.Valid() && capacity == list.tokens.Length == CapacityFor(list.length)
    modifies list, list.tokens
    ensures list.Valid() && newCapacity == list.tokens.Length == CapacityFor(list.length)
    ensures newCapacity == if old(list.length) == capacity then capacity + 7 else capacity
    ensures list.tokens == old(list.tokens) || fresh(list.tokens)
    ensures list.Contents() == old(list.Contents()) + [t]
  {
    newCapacity := capacity;
    CapacityPolicy(list.length);
    if newCapacity < list.length + 1 {
      newCapacity := newCapacity + 7;
      list.Resize(newCapacity);
    }
    list.Append(t);
  }

  /** One pass of the tokenizer's loop: skip white space from `current`,
      then scan one token at the offset reached. The token found continues
      tokenizing at `next`; a pass that finds none is where tokenizing ends. */
  method Pass(source: String, current: nat) returns (start: nat, t: Maybe<Token>, next: nat)
    requires current < source.Length()
    ensures start == SkipBlanks(source, current) && t == ScanToken(source, start).0
    ensures next == start + ScanToken(source, start).1 && next <= source.Length()
    ensures t.Just? ==> && Lex(source, current).tokens == [t.value] + Lex(source, next).tokens
                        && Lex(source, current).error == Lex(source, next).error
    ensures t.Nothing? ==> && Lex(source, current).tokens == []
                           && Lex(source, current).error == Just(LexError(PosToSpan(source, start, start), source.At(start)))
  {
    start := SkipWhitespace(source, current);
    var scanned := ScanToken(source, start);
    t := scanned.0;
    next := start + scanned.1;
  }

  /** Regrouping a concatenation of tokens. Dafny knows this fact; stating it
      as a lemma keeps the sequence reasoning out of `Tokenize`'s loop, whose
      proof is several times cheaper with it than with an inline `assert`. */
  lemma AppendAssociative(a: seq<Token>, b: seq<Token>, c: seq<Token>)
    ensures (a + b) + c == a + (b + c)
  {
  }

  /** Tokenizes `source`. The list built holds exactly the tokens of `Lex`, in
      a buffer whose capacity follows the growth policy; `error` is the
      diagnostic of the character that stopped tokenizing, if one did. The
      returned flag is `false` on every path. */
  method Tokenize(source: String) returns (ok: bool, list: TokenList, error: Maybe<LexError>)
    ensures fresh(list) && list.Valid()
    ensures ok == false
    ensures list.Contents() == Lex(source, 0).tokens
    ensures error == Lex(source, 0).error
    ensures list.tokens.Length == CapacityFor(list.length)
  {
    var capacity: nat := 7;
    list := new TokenList(capacity);
    error := Nothing;
    var start: nat := 0;
    var current: nat := 0;
    ghost var acc: seq<Token> := [];
    while !IsAtEnd(source, current)
      invariant current <= source.Length()
      invariant fresh(list) && fresh(list.tokens) && list.Valid()
      invariant capacity == list.tokens.Length == CapacityFor(list.length)
      invariant list.Contents() == acc
      invariant acc + Lex(source, current).tokens == Lex(source, 0).tokens
      invariant Lex(source, current).error == Lex(source, 0).error
      decreases source.Length() - current
    {
      var t;
      start, t, current := Pass(source, current);
      if IsNothing(t) {
        error := Just(LexError(PosToSpan(source, start, start), source.At(start)));
        return false, list, error;
      }
      ghost var rest := Lex(source, current).tokens;
      AppendAssociative(acc, [t.value], rest);
      acc := acc + [t.value];
      capacity := Add(list, t.value, capacity);
    }
    return false, list, error;
  }
}
