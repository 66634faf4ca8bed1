/** Byte offsets of UTF-8 text against one-based lines and columns. */
module TextPositions {
  import opened Prelude
  import opened Utf8

  datatype Position = Position(line: nat, column: nat)

  datatype PositionError = InvalidCoordinate | OutOfRange

  // From offsets to positions.

  /** The character that starts at a byte offset, if the offset is a character boundary. */
  function CharIndex(text: string, offset: nat): (r: Option<nat>)
    ensures r.Some? ==> r.value <= |text| && Size(text[..r.value]) == offset
  {
    if offset == 0 then Some(0)
    else if text == "" || offset < CharSize(text[0]) then None
    else
      match CharIndex(text[1..], offset - CharSize(text[0]))
      case None => None
      case Some(i) =>
        assert text[..i + 1][1..] == text[1..][..i];
        Some(i + 1)
  }

  function Newlines(text: string): nat {
    if text == "" then 0 else (if text[0] == '\n' then 1 else 0) + Newlines(text[1..])
  }

  /** Where the last line of a text starts. */
  function LastLine(text: string): (r: nat)
    ensures r <= |text|
  {
    if text == "" then 0
    else if text[|text| - 1] == '\n' then |text|
    else LastLine(text[..|text| - 1])
  }

  function PositionAt(text: string, offset: nat): Option<Position> {
    match CharIndex(text, offset)
    case None => None
    case Some(i) =>
      var prefix := text[..i];
      Some(Position(Newlines(prefix) + 1, i - LastLine(prefix) + 1))
  }

  // From positions to offsets.

  /** The length of the first line, its newline included. */
  function FirstLine(text: string): (n: nat)
    requires text != ""
    ensures 0 < n <= |text|
    ensures forall i :: 0 <= i < n - 1 ==> text[i] != '\n'
    ensures n < |text| ==> text[n - 1] == '\n'
  {
    if text[0] == '\n' || |text| == 1 then 1 else FirstLine(text[1..]) + 1
  }

  function SplitInclusive(text: string): seq<string> {
    if text == "" then [] else [text[..FirstLine(text)]] + SplitInclusive(text[FirstLine(text)..])
  }

  function StripNewline(line: string): string {
    if line != "" && line[|line| - 1] == '\n' then line[..|line| - 1] else line
  }

  /** The offset of a column within a line; the end of the line is a column. */
  function InLine(line: string, column: nat): Result<nat, PositionError>
    requires column > 0
  {
    var body := StripNewline(line);
    if column - 1 <= |body| then Ok(Size(body[..column - 1])) else Err(OutOfRange)
  }

  function InLines(lines: seq<string>, p: Position): Result<nat, PositionError>
    requires p.line > 0 && p.column > 0
  {
    if lines == [] then Err(OutOfRange)
    else if p.line == 1 then InLine(lines[0], p.column)
    else
      var rest :- InLines(lines[1..], p.(line := p.line - 1));
      Ok(Size(lines[0]) + rest)
  }

  function OffsetOf(text: string, p: Position): Result<nat, PositionError> {
    if p.line == 0 || p.column == 0 then Err(InvalidCoordinate) else InLines(SplitInclusive(text), p)
  }

  method ByteOffset(text: string, p: Position) returns (r: Result<nat, PositionError>)
    ensures r == OffsetOf(text, p)
  {
    if p.line == 0 || p.column == 0 {
      return Err(InvalidCoordinate);
    }
    var lines := SplitInclusive(text);
    var prefixBytes: nat := 0;
    for index := 0 to |lines|
      invariant p.line > index
      invariant InLines(lines, p) == Shifted(InLines(lines[index..], p.(line := p.line - index)), prefixBytes)
    {
      assert lines[index..][1..] == lines[index + 1..];
      if index + 1 == p.line {
        var column := InLine(lines[index], p.column);
        if column.Err? {
          return Err(column.error);
        }
        return Ok(prefixBytes + column.value);
      }
      prefixBytes := prefixBytes + Size(lines[index]);
    }
    r := Err(OutOfRange);
  }

  function Shifted(r: Result<nat, PositionError>, bytes: nat): Result<nat, PositionError> {
    match r
    case Err(e) => Err(e)
    case Ok(n) => Ok(bytes + n)
  }

  // The inverse.

  /** The position of the `i`-th character. */
  function PositionOf(text: string, i: nat): Position
    requires i <= |text|
  {
    Position(Newlines(text[..i]) + 1, i - LastLine(text[..i]) + 1)
  }

  lemma {:induction false} NewlinesConcat(s: string, t: string)
    ensures Newlines(s + t) == Newlines(s) + Newlines(t)
  {
    if s == "" {
      assert s + t == t;
    } else {
      assert (s + t)[1..] == s[1..] + t;
      NewlinesConcat(s[1..], t);
    }
  }

  lemma {:induction false} LastLineConcat(s: string, t: string)
    requires s != "" && s[|s| - 1] == '\n'
    ensures LastLine(s + t) == |s| + LastLine(t)
  {
    if t == "" {
      assert s + t == s;
    } else {
      assert (s + t)[..|s + t| - 1] == s + t[..|t| - 1];
      LastLineConcat(s, t[..|t| - 1]);
    }
  }

  lemma {:induction false} OneLine(text: string)
    requires forall i :: 0 <= i < |text| ==> text[i] != '\n'
    ensures Newlines(text) == 0 && LastLine(text) == 0
  {
    if text != "" {
      OneLine(text[1..]);
      OneLineTail(text);
    }
  }

  lemma {:induction false} OneLineTail(text: string)
    requires forall i :: 0 <= i < |text| ==> text[i] != '\n'
    ensures LastLine(text) == 0
  {
    if text != "" {
      OneLineTail(text[..|text| - 1]);
    }
  }

  /** Characters of the first line, its newline's place included, are on line one. */
  lemma FirstLinePositions(text: string, i: nat)
    requires text != "" && i <= |StripNewline(text[..FirstLine(text)])|
    ensures PositionOf(text, i) == Position(1, i + 1)
  {
    OneLine(text[..i]);
  }

  /** Beyond the first line, positions are those of the rest of the text, one line down. */
  lemma LaterPositions(text: string, i: nat)
    requires text != "" && FirstLine(text) <= i <= |text| && text[FirstLine(text) - 1] == '\n'
    ensures var n := FirstLine(text);
      var p := PositionOf(text[n..], i - n);
      PositionOf(text, i) == p.(line := p.line + 1)
  {
    hide Newlines, LastLine, FirstLine, PositionOf;
    var n := FirstLine(text);
    assert text == text[..n] + text[n..];
    PositionAfter(text[..n], text[n..], i - n);
  }

  lemma PositionAfter(first: string, tail: string, j: nat)
    requires first != "" && first[|first| - 1] == '\n' && j <= |tail|
    requires forall k :: 0 <= k < |first| - 1 ==> first[k] != '\n'
    ensures var p := PositionOf(tail, j);
      PositionOf(first + tail, |first| + j) == p.(line := p.line + 1)
  {
    hide Newlines, LastLine;
    assert (first + tail)[..|first| + j] == first + tail[..j];
    NewlinesConcat(first, tail[..j]);
    LastLineConcat(first, tail[..j]);
    NewlineOnce(first);
  }

  lemma NewlineOnce(line: string)
    requires line != "" && line[|line| - 1] == '\n' && forall i :: 0 <= i < |line| - 1 ==> line[i] != '\n'
    ensures Newlines(line) == 1
  {
    var body := line[..|line| - 1];
    assert line == body + ['\n'];
    NewlinesConcat(body, ['\n']);
    OneLine(body);
    assert ['\n'][1..] == [] && Newlines(['\n']) == 1 + Newlines(['\n'][1..]);
  }

  lemma OffsetInFirst(text: string, column: nat)
    requires text != "" && column > 0
    ensures OffsetOf(text, Position(1, column)) == InLine(text[..FirstLine(text)], column)
  {
    hide InLine;
  }

  lemma OffsetLater(text: string, p: Position)
    requires text != "" && p.line > 1
    ensures OffsetOf(text, p) ==
      Shifted(OffsetOf(text[FirstLine(text)..], p.(line := p.line - 1)), Size(text[..FirstLine(text)]))
  {
    hide InLine, Size, InLines;
    var n := FirstLine(text);
    assert SplitInclusive(text) == [text[..n]] + SplitInclusive(text[n..]);
    if p.column > 0 {
      LinesLater(text[..n], SplitInclusive(text[n..]), p);
    }
  }

  lemma LinesLater(first: string, rest: seq<string>, p: Position)
    requires p.line > 1 && p.column > 0
    ensures InLines([first] + rest, p) == Shifted(InLines(rest, p.(line := p.line - 1)), Size(first))
  {
    hide InLine, Size;
    assert ([first] + rest)[1..] == rest;
  }

  /** The one offset without a position that leads back to it: the end of a text that is empty or ends in a newline. */
  predicate Unreachable(text: string, i: nat) {
    i == |text| && (text == "" || text[|text| - 1] == '\n')
  }

  /** Every character boundary comes back from its position, but for that one. */
  lemma {:induction false} BoundaryRoundTrip(text: string, i: nat)
    requires i <= |text|
    ensures OffsetOf(text, PositionOf(text, i)) == if Unreachable(text, i) then Err(OutOfRange) else Ok(Size(text[..i]))
    decreases |text|
  {
    hide OffsetOf, PositionOf, Size;
    if text == "" {
      EmptyRefuses(text);
    } else {
      var n := FirstLine(text);
      var body := StripNewline(text[..n]);
      if i <= |body| {
        FirstLinePositions(text, i);
        OffsetInFirst(text, i + 1);
        assert body[..i] == text[..i];
      } else {
        var rest := text[n..];
        LaterPositions(text, i);
        BoundaryRoundTrip(rest, i - n);
        PositionLine(rest, i - n);
        OffsetLater(text, PositionOf(text, i));
        assert text[..i] == text[..n] + rest[..i - n];
        SizeConcat(text[..n], rest[..i - n]);
      }
    }
  }

  lemma PositionLine(text: string, i: nat)
    requires i <= |text|
    ensures PositionOf(text, i).line > 0
  {
  }

  lemma EmptyRefuses(text: string)
    requires text == ""
    ensures OffsetOf(text, PositionOf(text, 0)) == Err(OutOfRange)
  {
  }

  /** Every accepted position is the position of a character boundary, the one whose offset is returned. */
  lemma {:induction false} AcceptedPosition(text: string, p: Position) returns (i: nat)
    requires OffsetOf(text, p).Ok?
    ensures i <= |text| && PositionOf(text, i) == p && OffsetOf(text, p) == Ok(Size(text[..i]))
    decreases |text|
  {
    hide OffsetOf, PositionOf, Size, FirstLine;
    NonEmptyAccepts(text, p);
    if p.line == 1 {
      i := AcceptedInFirst(text, p);
    } else {
      AcceptsLater(text, p);
      var n := FirstLine(text);
      var j := AcceptedPosition(text[n..], p.(line := p.line - 1));
      i := n + j;
      AcceptedLater(text, p, j);
    }
  }

  lemma AcceptsLater(text: string, p: Position)
    requires text != "" && p.line > 1 && OffsetOf(text, p).Ok?
    ensures FirstLine(text) < |text| && OffsetOf(text[FirstLine(text)..], p.(line := p.line - 1)).Ok?
  {
    OffsetLater(text, p);
    NonEmptyAccepts(text[FirstLine(text)..], p.(line := p.line - 1));
  }

  lemma AcceptedLater(text: string, p: Position, j: nat)
    requires text != "" && p.line > 1 && FirstLine(text) < |text| && j <= |text| - FirstLine(text)
    requires PositionOf(text[FirstLine(text)..], j) == p.(line := p.line - 1)
    requires OffsetOf(text[FirstLine(text)..], p.(line := p.line - 1)) == Ok(Size(text[FirstLine(text)..][..j]))
    ensures var i := FirstLine(text) + j;
      PositionOf(text, i) == p && OffsetOf(text, p) == Ok(Size(text[..i]))
  {
    hide OffsetOf, PositionOf, Size, FirstLine;
    var n := FirstLine(text);
    OffsetLater(text, p);
    LaterPositions(text, n + j);
    assert n + j - n == j;
    PrefixSplit(text, n, j);
  }

  lemma PrefixSplit(text: string, n: nat, j: nat)
    requires n <= |text| && j <= |text| - n
    ensures Size(text[..n + j]) == Size(text[..n]) + Size(text[n..][..j])
  {
    assert text[..n + j] == text[..n] + text[n..][..j];
    SizeConcat(text[..n], text[n..][..j]);
  }

  lemma AcceptedInFirst(text: string, p: Position) returns (i: nat)
    requires OffsetOf(text, p).Ok? && text != "" && p.line == 1 && p.column > 0
    ensures i <= |text| && PositionOf(text, i) == p && OffsetOf(text, p) == Ok(Size(text[..i]))
  {
    hide OffsetOf, PositionOf, Size;
    OffsetInFirst(text, p.column);
    i := p.column - 1;
    FirstLinePositions(text, i);
    assert StripNewline(text[..FirstLine(text)])[..i] == text[..i];
  }

  lemma NonEmptyAccepts(text: string, p: Position)
    requires OffsetOf(text, p).Ok?
    ensures text != "" && p.line > 0 && p.column > 0
  {
  }

  lemma {:induction false} CharIndexOf(text: string, i: nat)
    requires i <= |text|
    ensures CharIndex(text, Size(text[..i])) == Some(i)
  {
    if i > 0 {
      assert text[..i][1..] == text[1..][..i - 1];
      CharIndexOf(text[1..], i - 1);
    }
  }

  /** A position that is accepted is the position of its offset. */
  lemma PositionRoundTrip(text: string, p: Position)
    requires OffsetOf(text, p).Ok?
    ensures PositionAt(text, OffsetOf(text, p).value) == Some(p)
  {
    var i := AcceptedPosition(text, p);
    CharIndexOf(text, i);
  }

  lemma PositionAtBoundary(text: string, offset: nat)
    ensures PositionAt(text, offset) ==
      if CharIndex(text, offset).Some? then Some(PositionOf(text, CharIndex(text, offset).value)) else None
  {
    hide CharIndex, Newlines, LastLine;
  }

  /** An offset round-trips exactly when it is a character boundary and not the end of a text that is empty or ends in a
      newline. */
  lemma OffsetRoundTripExactly(text: string, offset: nat)
    ensures (PositionAt(text, offset).Some? && OffsetOf(text, PositionAt(text, offset).value) == Ok(offset)) <==>
      CharIndex(text, offset).Some? && !(offset == Size(text) && (text == "" || text[|text| - 1] == '\n'))
  {
    hide CharIndex, OffsetOf, PositionOf, Newlines, LastLine, Size;
    if CharIndex(text, offset).Some? {
      var i := CharIndex(text, offset).value;
      PositionAtBoundary(text, offset);
      BoundaryRoundTrip(text, i);
      CharIndexOf(text, |text|);
      assert text[..|text|] == text;
    }
  }

  lemma {:induction false} LinesRefuse(lines: seq<string>, p: Position)
    requires p.line > 0 && p.column > 0
    ensures InLines(lines, p).Err? ==> InLines(lines, p).error == OutOfRange
  {
    if lines != [] && p.line > 1 {
      LinesRefuse(lines[1..], p.(line := p.line - 1));
    }
  }

  /** A zero line or column is no coordinate. Any other position is out of range exactly when it is no character's and
      not the end of a text that ends within a line. */
  lemma RefusedExactly(text: string, p: Position)
    ensures OffsetOf(text, p) == Err(InvalidCoordinate) <==> p.line == 0 || p.column == 0
    ensures OffsetOf(text, p) == Err(OutOfRange) <==>
      p.line > 0 && p.column > 0 && forall i :: 0 <= i <= |text| && PositionOf(text, i) == p ==> Unreachable(text, i)
  {
    if p.line > 0 && p.column > 0 {
      LinesRefuse(SplitInclusive(text), p);
      forall i | 0 <= i <= |text| && PositionOf(text, i) == p
        ensures OffsetOf(text, p).Ok? <==> !Unreachable(text, i)
      {
        BoundaryRoundTrip(text, i);
      }
      if OffsetOf(text, p).Ok? {
        var i := AcceptedPosition(text, p);
      }
    }
  }
}
