/** Recovering a token's bytes from its line and column (internal/analysis/natural/semantictokens.go). */
module TokenRanges {
  import opened Model
  import opened SourceLines
  import opened Lexer
  import opened Text

  // ----- Every token of a source -----

  /** The tokens from a state on, up to the end. */
  function Drain(s: string, st: State): (r: seq<Lexed>)
    requires st.pos <= |s|
    ensures forall k :: 0 <= k < |r| ==> st.pos <= r[k].start < r[k].after.pos <= |s|
    decreases |s| - st.pos
  {
    var next := Next(s, st);
    if next.token.kind == EndOfFile then [] else [next] + Drain(s, next.after)
  }

  const START := State(0, 1, 1, false)

  function TokensOf(lexed: seq<Lexed>): seq<Token> {
    seq(|lexed|, i requires 0 <= i < |lexed| => lexed[i].token)
  }

  method LexAll(content: string) returns (tokens: seq<Token>)
    ensures tokens == TokensOf(Drain(content, START))
  {
    hide Drain, Next, TokensOf;
    var lexer := new Scanner(content);
    tokens := [];
    ghost var done: seq<Lexed> := [];
    NothingDrained(content);
    while true
      invariant lexer.Valid() && lexer.input == content
      invariant tokens == TokensOf(done) && Drain(content, START) == done + Drain(content, lexer.Now())
      decreases |content| - lexer.pos
    {
      ghost var next := Next(content, lexer.Now());
      DrainStep(content, lexer.Now(), done);
      var tok := lexer.NextToken();
      if tok.kind == EndOfFile {
        break;
      }
      tokens := tokens + [tok];
      done := done + [next];
    }
  }

  lemma NothingDrained(s: string)
    ensures TokensOf([]) == [] && [] + Drain(s, START) == Drain(s, START)
  {
  }

  lemma DrainStep(s: string, st: State, done: seq<Lexed>)
    requires st.pos <= |s|
    ensures var next := Next(s, st);
            && TokensOf(done + [next]) == TokensOf(done) + [next.token]
            && done + Drain(s, st)
                 == if next.token.kind == EndOfFile then done else done + [next] + Drain(s, next.after)
  {
    hide Next;
    var next := Next(s, st);
    if next.token.kind == EndOfFile {
      assert done + [] == done;
    } else {
      assert done + ([next] + Drain(s, next.after)) == done + [next] + Drain(s, next.after);
    }
  }

  // ----- When a token's line and column are the true ones -----

  lemma {:induction false} ShiftLinesOnly(s: string, from: nat, a: Position, b: Position, until: nat)
    requires from <= until <= |s|
    ensures Shift(s, from, a, until).line - a.line == Shift(s, from, b, until).line - b.line
    decreases until
  {
    if from < until {
      ShiftLinesOnly(s, from, a, b, until - 1);
    }
  }

  /** Blanks and dropped characters move the position exactly. */
  lemma {:induction false} SkipBlanksIsTrue(s: string, st: State)
    requires st.pos <= |s| && !InsideCRLF(s, st.pos)
    ensures var w := SkipBlanks(s, st); At(w) == Shift(s, st.pos, At(st), w.pos) && !InsideCRLF(s, w.pos)
    decreases |s| - st.pos
  {
    if st.pos < |s| && IsBlank(s[st.pos]) {
      var i := st.pos;
      var next := StepFrom(s, i);
      var w := SkipBlanks(s, st);
      StepIsTrue(s, i, At(st), i);
      var st1 := if IsLineEnd(s[i]) then State(next, st.line + 1, 1, false) else st.(pos := i + 1, col := st.col + 1);
      SkipBlanksIsTrue(s, st1);
      ShiftAdds(s, i, At(st), next, w.pos);
    }
  }

  /** The token is at its true position relative to the state before it, and the scan never stops inside a CRLF. */
  lemma {:induction false} NextIsTrue(s: string, st: State)
    requires st.pos <= |s| && !InsideCRLF(s, st.pos)
    ensures var r := Next(s, st);
            && Position(r.token.line, r.token.column) == Shift(s, st.pos, At(st), r.start)
            && !InsideCRLF(s, r.start) && !InsideCRLF(s, r.after.pos)
    decreases |s| - st.pos
  {
    hide SkipBlanks, TokenFrom, IsUnknown, Next;
    NextCases(s, st);
    SkipBlanksIsTrue(s, st);
    var w := SkipBlanks(s, st);
    if w.pos < |s| {
      if IsUnknown(s, w.pos) {
        UnknownIsNoLineEnd(s, w.pos);
        var i := w.pos;
        var st1 := w.(pos := i + 1, col := w.col + 1);
        StepIsTrue(s, i, At(w), i);
        NextIsTrue(s, st1);
        ShiftAdds(s, st.pos, At(st), i, i + 1);
        ShiftAdds(s, st.pos, At(st), i + 1, Next(s, st).start);
      } else {
        TokenEndsOutsideCRLF(s, w.pos, !w.lineHasNonWhitespace);
      }
    }
  }

  /** What the last byte of a token is. */
  lemma TokenEndsOutsideCRLF(s: string, i: nat, atLineStart: bool)
    requires i < |s| && !IsBlank(s[i]) && !IsUnknown(s, i)
    ensures var e := TokenFrom(s, i, atLineStart);
            && !InsideCRLF(s, e.end)
            && (e.kind == LiteralString ==>
                s[i] == '\'' && e.end == if QuoteFrom(s, i + 1) < |s| then QuoteFrom(s, i + 1) + 1 else |s|)
            && (e.kind == Comment ==> e.end == LineEndFrom(s, i))
  {
    hide TokenFrom, QuoteFrom, LineEndFrom, IsBlank, IsUnknown;
    TokenEnd(s, i, atLineStart);
    var e := TokenFrom(s, i, atLineStart);
    assert e.end < |s| && e.kind != LiteralString ==> !IsLineEnd(s[e.end - 1]);
  }

  lemma TokenEnd(s: string, i: nat, atLineStart: bool)
    requires i < |s| && !IsBlank(s[i]) && !IsUnknown(s, i)
    ensures var e := TokenFrom(s, i, atLineStart);
            && (e.kind == LiteralString ==>
                s[i] == '\'' && e.end == if QuoteFrom(s, i + 1) < |s| then QuoteFrom(s, i + 1) + 1 else |s|)
            && (e.kind == Comment ==> e.end == LineEndFrom(s, i))
  {
    hide NameEnd, NumberEnd, Upper, IsKeyword, LineEndFrom, QuoteFrom, IsBlank, IsUnknown;
  }

  /** A line end lies among the token's bytes: only in a string literal. */
  predicate CrossesLine(s: string, r: Lexed)
    requires r.after.pos <= |s|
  {
    exists k :: r.start <= k < r.after.pos && IsLineEnd(s[k])
  }

  lemma StretchHasLineEnd(s: string, from: nat, at: Position, k: nat, until: nat)
    requires from <= k < until <= |s| && IsLineEnd(s[k]) && !InsideCRLF(s, until)
    ensures Shift(s, from, at, until).line > at.line
  {
    var next := StepFrom(s, k);
    ShiftGrows(s, from, at, k);
    StepIsTrue(s, from, at, k);
    ShiftAdds(s, from, at, next, until);
    ShiftGrows(s, next, Shift(s, from, at, next), until);
  }

  /** The tracked position is the true one, or at least a line behind it. */
  ghost predicate Lags(s: string, st: State)
    requires st.pos <= |s|
  {
    && !InsideCRLF(s, st.pos)
    && (At(st) == PositionOf(s, st.pos) || st.line < PositionOf(s, st.pos).line)
  }

  lemma TokenKeepsLag(s: string, st: State)
    requires st.pos <= |s| && Lags(s, st)
    ensures var r := Next(s, st);
            && Lags(s, r.after)
            && (Position(r.token.line, r.token.column) == PositionOf(s, r.start) <==> At(st) == PositionOf(s, st.pos))
            && (r.token.kind != EndOfFile ==>
               (At(r.after) == PositionOf(s, r.after.pos) <==> At(st) == PositionOf(s, st.pos) && !CrossesLine(s, r)))
  {
    hide Next;
    var r := Next(s, st);
    var at, p := Position(r.token.line, r.token.column), PositionOf(s, r.start);
    NextIsTrue(s, st);
    NextAdvances(s, st);
    ShiftAdds(s, 0, ORIGIN, st.pos, r.start);
    ShiftLinesOnly(s, st.pos, At(st), PositionOf(s, st.pos), r.start);
    ShiftAdds(s, 0, ORIGIN, r.start, r.after.pos);
    ShiftGrows(s, r.start, p, r.after.pos);
    if CrossesLine(s, r) {
      var k :| r.start <= k < r.after.pos && IsLineEnd(s[k]);
      StretchHasLineEnd(s, r.start, p, k, r.after.pos);
    } else {
      ShiftWithinLine(s, r.start, p, r.after.pos);
    }
  }

  lemma {:induction false} NextAdvances(s: string, st: State)
    requires st.pos <= |s|
    ensures var r := Next(s, st);
            At(r.after) == Position(r.token.line, r.token.column + (r.after.pos - r.start))
    decreases |s| - st.pos
  {
    hide SkipBlanks, TokenFrom, IsUnknown, Next;
    NextCases(s, st);
    var w := SkipBlanks(s, st);
    if w.pos < |s| && IsUnknown(s, w.pos) {
      NextAdvances(s, w.(pos := w.pos + 1, col := w.col + 1));
    }
  }

  lemma {:induction false} DrainPositions(s: string, st: State, k: nat)
    requires st.pos <= |s| && Lags(s, st) && k < |Drain(s, st)|
    ensures var r := Drain(s, st);
            Position(r[k].token.line, r[k].token.column) == PositionOf(s, r[k].start) <==>
              At(st) == PositionOf(s, st.pos) && forall j :: 0 <= j < k ==> !CrossesLine(s, r[j])
    decreases k
  {
    hide Next, Lags, CrossesLine;
    var next := Next(s, st);
    TokenKeepsLag(s, st);
    if k > 0 {
      var r, rest := Drain(s, st), Drain(s, next.after);
      DrainPositions(s, next.after, k - 1);
      assert r[k] == rest[k - 1] && r[0] == next;
      assert forall j :: 0 <= j < k - 1 ==> rest[j] == r[j + 1];
      assert forall j :: 0 < j < k ==> r[j] == rest[j - 1];
    }
  }

  /** A token's line and column are its true position exactly if no string literal before it crosses a line end: the
      lexer does not count the lines inside strings. */
  lemma PositionTrueIffNoStringCrossed(s: string, k: nat)
    requires k < |Drain(s, START)|
    ensures var r := Drain(s, START);
            Position(r[k].token.line, r[k].token.column) == PositionOf(s, r[k].start) <==>
              forall j :: 0 <= j < k ==> !CrossesLine(s, r[j])
  {
    DrainPositions(s, START, k);
  }

  // ----- Finding the start -----

  /** Scanning from byte i at position `at` until the position is the target. */
  function Seek(s: string, i: nat, at: Position, target: Position): (r: nat)
    requires i <= |s|
    ensures i <= r <= |s|
    decreases |s| - i
  {
    if i == |s| || at == target then i else Seek(s, StepFrom(s, i), MovePast(s[i], at), target)
  }

  /** The starts of the lines after the one byte i is on. */
  function StartsFrom(s: string, i: nat): (r: seq<nat>)
    requires i <= |s|
    ensures forall k :: 0 <= k < |r| ==> r[k] <= |s|
    decreases |s| - i
  {
    if i == |s| then []
    else (if IsLineEnd(s[i]) then [StepFrom(s, i)] else []) + StartsFrom(s, StepFrom(s, i))
  }

  method BuildLineStarts(content: string) returns (lineStarts: seq<nat>)
    ensures lineStarts == [0] + StartsFrom(content, 0)
  {
    hide StartsFrom;
    lineStarts := [0];
    var bytePos := 0;
    while bytePos < |content|
      invariant 0 <= bytePos <= |content|
      invariant lineStarts + StartsFrom(content, bytePos) == [0] + StartsFrom(content, 0)
      decreases |content| - bytePos
    {
      StartsStep(content, bytePos, lineStarts);
      var ch := content[bytePos];
      bytePos := bytePos + 1;
      if ch == '\r' {
        if bytePos < |content| && content[bytePos] == '\n' {
          bytePos := bytePos + 1;
        }
        lineStarts := lineStarts + [bytePos];
      } else if ch == '\n' {
        lineStarts := lineStarts + [bytePos];
      }
    }
    NoStartsLeft(content, lineStarts);
  }

  lemma StartsStep(s: string, i: nat, before: seq<nat>)
    requires i < |s|
    ensures var next := StepFrom(s, i);
            before + StartsFrom(s, i) == (if IsLineEnd(s[i]) then before + [next] else before) + StartsFrom(s, next)
  {
    var next := StepFrom(s, i);
    assert before + ([next] + StartsFrom(s, next)) == before + [next] + StartsFrom(s, next);
    assert [] + StartsFrom(s, next) == StartsFrom(s, next);
  }

  lemma NoStartsLeft(s: string, before: seq<nat>)
    ensures before + StartsFrom(s, |s|) == before
  {
    assert before + [] == before;
  }

  /** Where the scan seeded from the table stops. */
  function SeededSeek(s: string, target: Position): (r: nat)
    ensures r <= |s|
  {
    var lineStarts := [0] + StartsFrom(s, 0);
    if 1 <= target.line <= |lineStarts| then Seek(s, lineStarts[target.line - 1], Position(target.line, 1), target)
    else |s|
  }

  lemma {:induction false} SeekReachesLine(s: string, i: nat, at: Position, target: Position)
    requires i <= |s| && target.line != at.line
    ensures var rest := StartsFrom(s, i);
            Seek(s, i, at, target) ==
              if 0 < target.line - at.line <= |rest| then
                Seek(s, rest[target.line - at.line - 1], Position(target.line, 1), target)
              else |s|
    decreases |s| - i
  {
    if i < |s| {
      var next, at1 := StepFrom(s, i), MovePast(s[i], at);
      if target.line == at1.line {
        assert StartsFrom(s, i)[0] == next;
      } else {
        SeekReachesLine(s, next, at1, target);
      }
    }
  }

  /** The seeded scan stops at the same byte as a scan from byte 0, for every content, line and column. */
  lemma SeededSeekIsSeekFromZero(s: string, target: Position)
    ensures SeededSeek(s, target) == Seek(s, 0, ORIGIN, target)
  {
    if target.line != 1 {
      SeekReachesLine(s, 0, ORIGIN, target);
    }
  }

  /** A scan looking for the position of a byte stops at that byte. */
  lemma {:induction false} SeekFinds(s: string, i: nat, b: nat)
    requires i <= b <= |s| && !InsideCRLF(s, i) && !InsideCRLF(s, b)
    ensures Seek(s, i, PositionOf(s, i), PositionOf(s, b)) == b
    decreases b - i
  {
    if i < b {
      PositionsIncrease(s, i, b);
      StepIsTrue(s, 0, ORIGIN, i);
      SeekFinds(s, StepFrom(s, i), b);
    }
  }

  // ----- Finding the end -----

  function Trace(s: string, i: nat, at: Position, until: nat): Position
    requires i <= |s| && until <= |s|
    decreases |s| - i
  {
    if i >= until then at else Trace(s, StepFrom(s, i), MovePast(s[i], at), until)
  }

  lemma {:induction false} TraceIsShift(s: string, i: nat, at: Position, until: nat)
    requires i <= until <= |s| && !InsideCRLF(s, until)
    ensures Trace(s, i, at, until) == Shift(s, i, at, until)
    decreases until - i
  {
    if i < until {
      StepIsTrue(s, i, at, i);
      TraceIsShift(s, StepFrom(s, i), MovePast(s[i], at), until);
      ShiftAdds(s, i, at, StepFrom(s, i), until);
    }
  }

  /** The last byte of a token of a kind, by the rescans. */
  function LastByte(s: string, start: nat, tok: Token): (r: nat)
    requires start <= |s|
    ensures start <= r <= |s|
  {
    match tok.kind
    case Comment =>
      var end := LineEndFrom(s, start);
      if end > start then end - 1 else end
    case LiteralString =>
      if start < |s| && s[start] == '\'' then QuoteFrom(s, start + 1) else start
    case _ =>
      var width := if |tok.literal| == 0 then 1 else |tok.literal|;
      var end := if start + width - 1 >= |s| then |s| - 1 else start + width - 1;
      if end < start then start else end
  }

  function RangeOf(s: string, tok: Token): Range {
    var at := Position(tok.line, tok.column);
    var start := SeededSeek(s, at);
    Range(at, Trace(s, start, at, LastByte(s, start, tok)))
  }

  method ComputeTokenRange(content: string, lineStarts: seq<nat>, tok: Token) returns (start: Position, end: Position)
    requires lineStarts == [0] + StartsFrom(content, 0)
    ensures Range(start, end) == RangeOf(content, tok)
  {
    hide StartsFrom, LastByte;
    var startLine, startCol := tok.line, tok.column;
    ghost var target := Position(startLine, startCol);
    var bytePos, line, colInLine;
    if startLine >= 1 && startLine - 1 < |lineStarts| {
      bytePos, line, colInLine := lineStarts[startLine - 1], startLine, 1;
    } else {
      bytePos, line, colInLine := |content|, startLine, 1;
    }
    while bytePos < |content|
      invariant 0 <= bytePos <= |content|
      invariant Seek(content, bytePos, Position(line, colInLine), target) == SeededSeek(content, target)
      decreases |content| - bytePos
    {
      if line == startLine && colInLine == startCol {
        break;
      }
      bytePos, line, colInLine := StepPosition(content, bytePos, line, colInLine);
    }
    var tokenStart := bytePos;
    var tokenEnd := FindLastByte(content, tokenStart, tok);
    var endLine, endCol := startLine, startCol;
    while bytePos < tokenEnd && bytePos < |content|
      invariant 0 <= bytePos <= |content|
      invariant Trace(content, bytePos, Position(endLine, endCol), tokenEnd)
                  == Trace(content, tokenStart, target, tokenEnd)
      decreases |content| - bytePos
    {
      bytePos, endLine, endCol := StepPosition(content, bytePos, endLine, endCol);
    }
    return Position(startLine, startCol), Position(endLine, endCol);
  }

  /** The loop body the two position-tracking scans share. */
  method StepPosition(content: string, bytePos: nat, line: int, col: int)
      returns (next: nat, nextLine: int, nextCol: int)
    requires bytePos < |content|
    ensures next == StepFrom(content, bytePos)
    ensures Position(nextLine, nextCol) == MovePast(content[bytePos], Position(line, col))
  {
    next, nextLine, nextCol := bytePos, line, col;
    if content[bytePos] == '\r' {
      nextLine, nextCol := line + 1, 1;
      next := next + 1;
      if next < |content| && content[next] == '\n' {
        next := next + 1;
      }
    } else if content[bytePos] == '\n' {
      nextLine, nextCol := line + 1, 1;
      next := next + 1;
    } else {
      nextCol := col + 1;
      next := next + 1;
    }
  }

  method FindLastByte(content: string, tokenStart: nat, tok: Token) returns (tokenEnd: nat)
    requires tokenStart <= |content|
    ensures tokenEnd == LastByte(content, tokenStart, tok)
  {
    tokenEnd := tokenStart;
    match tok.kind
    case Comment =>
      while tokenEnd < |content|
        invariant tokenStart <= tokenEnd <= |content|
        invariant LineEndFrom(content, tokenEnd) == LineEndFrom(content, tokenStart)
        decreases |content| - tokenEnd
      {
        if content[tokenEnd] == '\n' || content[tokenEnd] == '\r' {
          break;
        }
        tokenEnd := tokenEnd + 1;
      }
      if tokenEnd > tokenStart {
        tokenEnd := tokenEnd - 1;
      }
    case LiteralString =>
      if tokenEnd < |content| && content[tokenEnd] == '\'' {
        tokenEnd := tokenEnd + 1;
        while tokenEnd < |content|
          invariant tokenStart < tokenEnd <= |content|
          invariant QuoteFrom(content, tokenEnd) == QuoteFrom(content, tokenStart + 1)
          decreases |content| - tokenEnd
        {
          if content[tokenEnd] == '\'' {
            break;
          }
          tokenEnd := tokenEnd + 1;
        }
      }
    case _ =>
      var width := |tok.literal|;
      if width <= 0 {
        width := 1;
      }
      var last := tokenStart + width - 1;
      if last >= |content| {
        last := |content| - 1;
      }
      if last < tokenStart {
        last := tokenStart;
      }
      tokenEnd := last;
  }

  // ----- The range is the bytes the lexer consumed -----

  /** No closing quote: the token reaches to the end of the source. */
  predicate IsUnterminated(s: string, r: Lexed) {
    r.token.kind == LiteralString && r.start < |s| && QuoteFrom(s, r.start + 1) == |s|
  }

  /** The range of the bytes the lexer consumed for a token; ends are inclusive. */
  function ConsumedRange(s: string, r: Lexed): Range
    requires r.start < r.after.pos <= |s|
  {
    Range(PositionOf(s, r.start), PositionOf(s, r.after.pos - 1))
  }

  lemma {:induction false} NextShape(s: string, st: State)
    requires st.pos <= |s| && Next(s, st).token.kind != EndOfFile
    ensures var r := Next(s, st);
            && (r.token.kind == LiteralString ==>
               s[r.start] == '\'' && r.after.pos == if QuoteFrom(s, r.start + 1) < |s| then
                 QuoteFrom(s, r.start + 1) + 1 else |s|)
            && (r.token.kind == Comment ==> r.after.pos == LineEndFrom(s, r.start))
            && (r.token.kind != LiteralString ==> |r.token.literal| == r.after.pos - r.start && !CrossesLine(s, r))
    decreases |s| - st.pos
  {
    hide SkipBlanks, TokenFrom, IsUnknown, Next;
    NextCases(s, st);
    var w := SkipBlanks(s, st);
    if IsUnknown(s, w.pos) {
      NextShape(s, w.(pos := w.pos + 1, col := w.col + 1));
    } else {
      TokenEndsOutsideCRLF(s, w.pos, !w.lineHasNonWhitespace);
    }
  }

  /** The rescans stop at the token's last byte, or one past it for an unterminated string. */
  lemma LastByteIsConsumed(s: string, st: State)
    requires st.pos <= |s| && Next(s, st).token.kind != EndOfFile
    ensures var r := Next(s, st);
            && LastByte(s, r.start, r.token) == (if IsUnterminated(s, r) then r.after.pos else r.after.pos - 1)
            && !InsideCRLF(s, LastByte(s, r.start, r.token))
  {
    hide Next, LineEndFrom, QuoteFrom;
    NextShape(s, st);
    var r := Next(s, st);
    if r.token.kind != LiteralString {
      assert !IsLineEnd(s[r.after.pos - 1]);
    }
  }

  /** For a token whose position is true the computed range is the consumed bytes, except that an unterminated string's
      range ends one past its last byte. */
  lemma TruePositionGivesRange(s: string, st: State)
    requires st.pos <= |s| && !InsideCRLF(s, st.pos) && Next(s, st).token.kind != EndOfFile
    requires var r := Next(s, st); Position(r.token.line, r.token.column) == PositionOf(s, r.start)
    ensures RangeOf(s, Next(s, st).token) == ConsumedRange(s, Next(s, st)) <==> !IsUnterminated(s, Next(s, st))
  {
    hide Next, LastByte, IsUnterminated, SeededSeek, Seek, Trace;
    var r := Next(s, st);
    NextIsTrue(s, st);
    LastByteIsConsumed(s, st);
    var last := LastByte(s, r.start, r.token);
    SeededSeekIsSeekFromZero(s, PositionOf(s, r.start));
    SeekFinds(s, 0, r.start);
    TraceIsShift(s, r.start, PositionOf(s, r.start), last);
    ShiftAdds(s, 0, ORIGIN, r.start, last);
    PositionsIncrease(s, r.after.pos - 1, r.after.pos);
  }

  /** Every drained token is `Next` of some state on the way. */
  lemma {:induction false} DrainedByNext(s: string, st: State, k: nat) returns (before: State)
    requires st.pos <= |s| && !InsideCRLF(s, st.pos) && k < |Drain(s, st)|
    ensures before.pos <= |s| && !InsideCRLF(s, before.pos)
    ensures Drain(s, st)[k] == Next(s, before) && Next(s, before).token.kind != EndOfFile
    decreases k
  {
    hide Next;
    if k == 0 {
      before := st;
    } else {
      NextIsTrue(s, st);
      before := DrainedByNext(s, Next(s, st).after, k - 1);
    }
  }

  /** The range computed for a token is exactly the bytes the lexer consumed for it if and only if no string before it
      crosses a line end and it is not an unterminated string. */
  lemma RangeIsExactIff(s: string, k: nat)
    requires k < |Drain(s, START)|
    ensures var r := Drain(s, START);
            RangeOf(s, r[k].token) == ConsumedRange(s, r[k]) <==>
              (forall j :: 0 <= j < k ==> !CrossesLine(s, r[j])) && !IsUnterminated(s, r[k])
  {
    hide Drain, CrossesLine, IsUnterminated;
    var r := Drain(s, START);
    PositionTrueIffNoStringCrossed(s, k);
    var before := DrainedByNext(s, START, k);
    if Position(r[k].token.line, r[k].token.column) == PositionOf(s, r[k].start) {
      TruePositionGivesRange(s, before);
    }
  }

  // ----- Both failures occur -----

  /** A string without a closing quote: its range ends one past its only byte. */
  lemma UnterminatedStringRange()
    ensures var s := "'";
            && |Drain(s, START)| == 1 && IsUnterminated(s, Drain(s, START)[0])
            && RangeOf(s, Drain(s, START)[0].token) == Range(Position(1, 1), Position(1, 2))
            && ConsumedRange(s, Drain(s, START)[0]) == Range(Position(1, 1), Position(1, 1))
  {
    var s := "'";
    var end := State(1, 1, 2, true);
    assert SkipBlanks(s, START) == START && SkipBlanks(s, end) == end;
    assert QuoteFrom(s, 1) == 1 && TokenFrom(s, 0, true) == Extent(LiteralString, 1, "");
    assert Next(s, START) == Lexed(Token(LiteralString, "", 1, 1), 0, end);
    assert Next(s, end).token.kind == EndOfFile;
    assert Drain(s, end) == [] && Drain(s, START) == [Next(s, START)];
    SeededSeekIsSeekFromZero(s, ORIGIN);
    assert Seek(s, 0, ORIGIN, ORIGIN) == 0;
    assert Trace(s, 0, ORIGIN, 1) == Trace(s, 1, Position(1, 2), 1) == Position(1, 2);
  }

  const BROKEN := "'\n'+"
  const BEHIND := State(3, 1, 4, true)

  lemma BrokenFirst()
    ensures Next(BROKEN, START).token.kind == LiteralString
    ensures Next(BROKEN, START).start == 0 && Next(BROKEN, START).after == BEHIND
  {
    hide NameEnd, NumberEnd, Upper, IsKeyword;
    assert SkipBlanks(BROKEN, START) == START;
    assert QuoteFrom(BROKEN, 2) == 2 && QuoteFrom(BROKEN, 1) == 2;
  }

  lemma BrokenSecond()
    ensures Next(BROKEN, BEHIND) == Lexed(Token(Operator, "+", 1, 4), 3, State(4, 1, 5, true))
    ensures Next(BROKEN, State(4, 1, 5, true)).token.kind == EndOfFile
  {
    hide NameEnd, NumberEnd, Upper, IsKeyword, QuoteFrom;
    assert SkipBlanks(BROKEN, BEHIND) == BEHIND;
    assert SkipBlanks(BROKEN, State(4, 1, 5, true)) == State(4, 1, 5, true);
    assert BROKEN[3] == '+';
    assert TokenFrom(BROKEN, 3, false) == Extent(Operator, 4, "+");
  }

  /** A string over a line end: the token behind it is placed on the line the string began on. */
  lemma StringOverLineEndMisplaces()
    ensures var r := Drain(BROKEN, START);
            && |r| == 2 && CrossesLine(BROKEN, r[0])
            && r[1].token == Token(Operator, "+", 1, 4) && PositionOf(BROKEN, r[1].start) == Position(2, 2)
            && RangeOf(BROKEN, r[1].token) != ConsumedRange(BROKEN, r[1])
  {
    hide Next, RangeOf, CrossesLine;
    BrokenFirst();
    BrokenSecond();
    assert Drain(BROKEN, State(4, 1, 5, true)) == [] && Drain(BROKEN, BEHIND) == [Next(BROKEN, BEHIND)];
    assert Drain(BROKEN, START) == [Next(BROKEN, START), Next(BROKEN, BEHIND)];
    assert PositionOf(BROKEN, 1) == Position(1, 2) && PositionOf(BROKEN, 2) == Position(2, 1)
             && PositionOf(BROKEN, 3) == Position(2, 2);
    BrokenCrosses();
    hide Drain;
    RangeIsExactIff(BROKEN, 1);
  }

  lemma BrokenCrosses()
    ensures CrossesLine(BROKEN, Lexed(Next(BROKEN, START).token, 0, BEHIND))
  {
    hide Next;
    assert IsLineEnd(BROKEN[1]);
  }
}
