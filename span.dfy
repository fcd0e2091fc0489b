/** Source positions and spans: turning a character offset into a line and
    column, and pairing two such positions with the text they refer to. */
module Spans {

  import opened Strings

  /** A line (counted from 1) and a column. */
  datatype Position = Position(line: int, column: int)

  /** The text a span refers to and its two end positions. */
  datatype Span = Span(file: String, start: Position, end: Position)

  /** The sentinel span for "no position": a nil file and two zero positions. */
  const NoPos: Span := Span(NilString, Position(0, 0), Position(0, 0))

  /** `NoPos` is the nil text with two zero positions, and no offset of any
      text has its position: every real position is on line 1 or later. */
  lemma NoPosIsNoPosition(source: String, pos: int)
    requires pos <= source.Length()
    ensures NoPos.file == NilString && NoPos.file.Length() == 0
    ensures NoPos.start == NoPos.end == Position(0, 0)
    ensures PositionOf(source, pos) != NoPos.start
  {
  }

  /** `a` comes strictly before `b` in reading order. */
  predicate Before(a: Position, b: Position)
  {
    a.line < b.line || (a.line == b.line && a.column < b.column)
  }

  /** The position after examining one more character `c`: a newline moves
      to the next line and back to column 0, any other character (`\r`
      included) moves one column on. */
  function Advance(p: Position, c: char): Position
  {
    if c == '\n' then Position(p.line + 1, 0) else Position(p.line, p.column + 1)
  }

  /** The position of offset `pos` in `source`: start at line 1, column 0 and
      examine every index from 0 through `pos` inclusive. */
  function PositionOf(source: String, pos: int): (p: Position)
    requires pos <= source.Length()
    ensures p.line >= 1 && p.column >= 0
    decreases if pos < 0 then 0 else pos + 1
  {
    if pos < 0 then Position(1, 0)
    else Advance(PositionOf(source, pos - 1), source.At(pos))
  }

  /** The loop that computes the position of offset `pos`. */
  method PosToPosition(source: String, pos: int) returns (position: Position)
    requires pos <= source.Length()
    ensures position == PositionOf(source, pos)
  {
    var line := 1;
    var col := 0;
    var i := 0;
    while i <= pos
      invariant 0 <= i
      invariant pos >= 0 ==> i <= pos + 1
      invariant pos < 0 ==> i == 0
      invariant Position(line, col) == PositionOf(source, i - 1)
    {
      if source.At(i) == '\n' {
        line := line + 1;
        col := 0;
      } else {
        col := col + 1;
      }
      i := i + 1;
    }
    position := Position(line, col);
  }

  /** The span from offset `startPos` to offset `endPos` of `source`: it
      refers to `source`, and both its positions are real ones (line 1 or later). */
  function PosToSpan(source: String, startPos: int, endPos: int): (s: Span)
    requires startPos <= source.Length() && endPos <= source.Length()
    ensures s.file == source && s.start.line >= 1 && s.end.line >= 1
    ensures s.start.column >= 0 && s.end.column >= 0
  {
    Span(source, PositionOf(source, startPos), PositionOf(source, endPos))
  }

  /** The characters a position lookup for `pos` examines: indices 0 through
      `pos` inclusive, the terminator included when `pos` is the length. */
  function Examined(source: String, pos: int): (t: seq<char>)
    requires pos <= source.Length()
    ensures |t| == if pos < 0 then 0 else pos + 1
    ensures forall i :: 0 <= i < |t| ==> t[i] == source.At(i)
  {
    if pos < 0 then [] else source.Terminated()[..pos + 1]
  }

  /** The line of a position is 1 plus the number of newlines examined. */
  lemma {:induction false} LineCount(source: String, pos: int)
    requires pos <= source.Length()
    ensures PositionOf(source, pos).line == 1 + multiset(Examined(source, pos))['\n']
    decreases if pos < 0 then 0 else pos + 1
  {
    if pos >= 0 {
      LineCount(source, pos - 1);
      assert Examined(source, pos) == Examined(source, pos - 1) + [source.At(pos)];
    }
  }

  /** The column of a position is the number of characters examined after
      the last newline, or all of them when there is none. */
  lemma {:induction false} ColumnCount(source: String, pos: int)
    requires pos <= source.Length()
    ensures var t, p := Examined(source, pos), PositionOf(source, pos);
            && 0 <= p.column <= |t|
            && (forall k :: |t| - p.column <= k < |t| ==> t[k] != '\n')
            && (p.column < |t| ==> t[|t| - 1 - p.column] == '\n')
    decreases if pos < 0 then 0 else pos + 1
  {
    if pos >= 0 {
      ColumnCount(source, pos - 1);
    }
  }

  /** The position in closed form: the line is 1 plus the number of newlines
      examined, and the column is the number of characters examined after the
      last newline (all of them when there is none). */
  lemma PositionClosedForm(source: String, pos: int)
    requires pos <= source.Length()
    ensures var t, p := Examined(source, pos), PositionOf(source, pos);
            && p.line == 1 + multiset(t)['\n']
            && 0 <= p.column <= |t|
            && (forall k :: |t| - p.column <= k < |t| ==> t[k] != '\n')
            && (p.column < |t| ==> t[|t| - 1 - p.column] == '\n')
  {
    LineCount(source, pos);
    ColumnCount(source, pos);
  }

  /** Looking up a later offset gives a strictly later position. */
  lemma {:induction false} PositionOrder(source: String, p: int, q: int)
    requires p < q <= source.Length() && 0 <= q
    ensures Before(PositionOf(source, p), PositionOf(source, q))
    decreases q - p
  {
    assert PositionOf(source, q) == Advance(PositionOf(source, q - 1), source.At(q));
    if p < q - 1 && 0 <= q - 1 {
      PositionOrder(source, p, q - 1);
    }
  }

  /** The line never decreases as the offset increases. */
  lemma LineMonotone(source: String, p: int, q: int)
    requires p <= q <= source.Length()
    ensures PositionOf(source, p).line <= PositionOf(source, q).line
  {
    if p < q && 0 <= q {
      PositionOrder(source, p, q);
    }
  }

  /** A span refers to its text, is never the sentinel, and does not end
      before it starts. */
  lemma SpanWellFormed(source: String, startPos: int, endPos: int)
    requires startPos <= source.Length() && endPos <= source.Length()
    ensures PosToSpan(source, startPos, endPos).file == source
    ensures PosToSpan(source, startPos, endPos) != NoPos
    ensures startPos <= endPos ==>
              !Before(PosToSpan(source, startPos, endPos).end, PosToSpan(source, startPos, endPos).start)
  {
    if startPos < endPos && 0 <= endPos {
      PositionOrder(source, startPos, endPos);
    }
  }

  /** A `\r\n` pair ends a line exactly as a lone `\n` does: after it the
      position is the next line, column 0. A lone `\r` is one more column. */
  lemma CarriageReturn(source: String, pos: nat)
    requires pos < source.Length() && source.At(pos) == '\r'
    ensures PositionOf(source, pos) ==
              Position(PositionOf(source, pos - 1).line, PositionOf(source, pos - 1).column + 1)
    ensures source.At(pos + 1) == '\n' ==>
              PositionOf(source, pos + 1) == Position(PositionOf(source, pos - 1).line + 1, 0)
  {
  }

  /** Because offset `pos` itself is examined, the first character of a line
      is at column 1: offset 0 of a text that does not start with a newline is
      line 1, column 1. */
  lemma FirstCharacterPosition(source: String)
    requires source.Length() > 0 && source.At(0) != '\n'
    ensures PositionOf(source, 0) == Position(1, 1)
  {
  }

  /** The character after a line terminator is at column 1 of the next line,
      whether the terminator is `\n` or `\r\n`. */
  lemma LineStartExamples()
    ensures PositionOf(String("(\n)"), 2) == Position(2, 1)
    ensures PositionOf(String("(\r\n)"), 3) == Position(2, 1)
  {
    var s, t := String("(\n)"), String("(\r\n)");
    assert s.At(0) == '(' && s.At(1) == '\n' && s.At(2) == ')';
    assert PositionOf(s, 1) == Position(2, 0);
    assert t.At(0) == '(' && t.At(1) == '\r' && t.At(2) == '\n' && t.At(3) == ')';
    assert PositionOf(t, 2) == Position(2, 0);
  }
}
