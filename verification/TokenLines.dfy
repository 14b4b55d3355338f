/** The ranges computed for tokens, on the lines of the protocol: where both line rules agree they are well formed
    (internal/analysis/natural/semantictokens.go and internal/server/semantic_tokens.go). */
module TokenLines {
  import opened Model
  import opened SourceLines
  import opened Lexer
  import opened TokenRanges
  import opened Utf
  import opened Positions
  import opened Text
  import TokenWire

  /** Every CR before a byte is followed by an LF: up to there the lexer's lines are the protocol's lines. */
  predicate NoLoneCR(s: string, until: int) {
    forall i :: 0 <= i < until && i < |s| && s[i] == '\r' ==> i + 1 < |s| && s[i + 1] == '\n'
  }

  predicate IsAsciiByte(c: char) {
    c as int < RUNE_SELF
  }

  // ----- Bytes that are code points of their own -----

  lemma ContinuationsAreNotAscii(s: string, i: nat, k: nat)
    requires i < |s| && i < k < i + Decode(s, i).width
    ensures !IsAsciiByte(s[k])
  {
  }

  lemma {:induction false} AsciiIsReached(s: string, from: nat, j: nat)
    requires from <= j < |s| && IsAsciiByte(s[j])
    ensures Reaches(s, from, j) && Reaches(s, from, j + 1)
    decreases j - from
  {
    hide Decode;
    var next := from + Decode(s, from).width;
    if from == j {
      assert Reaches(s, next, next);
    } else {
      if next > j {
        ContinuationsAreNotAscii(s, from, j);
      }
      AsciiIsReached(s, next, j);
    }
  }

  // ----- Lines -----

  /** The text is the stretch of the source from byte a up to a line end or the end of the source. */
  ghost predicate IsLineAt(s: string, text: string, a: int) {
    && 0 <= a && a + |text| <= |s| && text == s[a..a + |text|]
    && (a + |text| < |s| ==> IsLineEnd(s[a + |text|]))
  }

  lemma {:induction false} LineIsAt(s: string, start: nat)
    requires start <= |s|
    ensures IsLineAt(s, LinesFrom(s, start)[0], start)
    ensures var lf, end := NextLF(s, start), start + |LinesFrom(s, start)[0]|;
            end == lf || (end + 1 == lf && s[end] == '\r')
  {
    hide LinesFrom, NextLF;
    FirstLineText(s, start);
    var lf := NextLF(s, start);
    StripCRSlice(s, start, lf);
    if lf == |s| {
      assert LinesFrom(s, start)[0] == s[start..|s|];
    }
  }

  lemma {:induction false} FirstLineText(s: string, start: nat)
    requires start <= |s|
    ensures var lf, lines := NextLF(s, start), LinesFrom(s, start);
            if lf == |s| then lines == [s[start..]] else lines == [StripCR(s[start..lf])] + LinesFrom(s, lf + 1)
  {
  }

  /** Up to the next LF the position moves along the line. */
  lemma {:induction false} WithinLine(s: string, start: nat, i: nat)
    requires start <= i <= |s| && NoLoneCR(s, i) && i <= NextLF(s, start)
    ensures PositionOf(s, i) == Position(PositionOf(s, start).line, PositionOf(s, start).column + i - start)
    decreases i
  {
    hide NextLF;
    if start < i {
      WithinLine(s, start, i - 1);
    }
  }

  /** Byte i, which ends no line, lies on the line its position names, at the column its position names. */
  lemma {:induction false} ByteOnLine(s: string, start: nat, i: nat)
    requires start <= i < |s| && NoLoneCR(s, i) && !IsLineEnd(s[i]) && PositionOf(s, start).column == 1
    ensures var n, p, lines := PositionOf(s, start).line, PositionOf(s, i), LinesFrom(s, start);
            && n <= p.line < n + |lines| && 1 <= p.column <= |lines[p.line - n]|
            && IsLineAt(s, lines[p.line - n], i - (p.column - 1))
    decreases |s| - start
  {
    hide LinesFrom, NextLF, IsLineAt, PositionOf;
    var lf := NextLF(s, start);
    FirstLineText(s, start);
    LineIsAt(s, start);
    if i <= lf {
      WithinLine(s, start, i);
    } else {
      WithinLine(s, start, lf);
      NextLineStarts(s, lf);
      ByteOnLine(s, lf + 1, i);
      var n, p := PositionOf(s, start).line, PositionOf(s, i);
      assert LinesFrom(s, start)[p.line - n] == LinesFrom(s, lf + 1)[p.line - n - 1];
    }
  }

  lemma NextLineStarts(s: string, lf: nat)
    requires lf < |s| && s[lf] == '\n'
    ensures PositionOf(s, lf + 1) == Position(PositionOf(s, lf).line + 1, 1)
  {
  }

  // ----- The edges of a token -----

  /** A token starts with an ASCII byte, and ends with one unless it is a comment or an unterminated string. */
  lemma TokenEdges(s: string, i: nat, atLineStart: bool)
    requires i < |s| && !IsBlank(s[i]) && !IsUnknown(s, i)
    ensures var e := TokenFrom(s, i, atLineStart);
            && IsAsciiByte(s[i])
            && (e.kind != Comment && !(e.kind == LiteralString && QuoteFrom(s, i + 1) == |s|) ==>
               IsAsciiByte(s[e.end - 1]) && !IsLineEnd(s[e.end - 1]))
            && (e.kind == Comment ==> e.end == LineEndFrom(s, i))
  {
    hide LineEndFrom, QuoteFrom, IsKeyword, Upper;
    if IsIdentStart(s[i]) {
      assert NameContinues(s, NameEnd(s, i) - 1);
    } else if IsDigit(s[i]) {
      NumberIsAscii(s, i);
    }
  }

  lemma NumberIsAscii(s: string, i: nat)
    requires i < |s| && IsDigit(s[i])
    ensures i < NumberEnd(s, i) && forall k :: i <= k < NumberEnd(s, i) ==> IsAsciiByte(s[k]) && !IsLineEnd(s[k])
  {
    NumberHasNoLineEnd(s, i);
  }

  lemma {:induction false} NextEdges(s: string, st: State)
    requires st.pos <= |s| && Next(s, st).token.kind != EndOfFile
    ensures var r := Next(s, st);
            && IsAsciiByte(s[r.start]) && !IsLineEnd(s[r.start])
            && (r.token.kind != Comment && !IsUnterminated(s, r) ==>
                IsAsciiByte(s[r.after.pos - 1]) && !IsLineEnd(s[r.after.pos - 1]))
            && (r.token.kind == Comment ==> r.after.pos == LineEndFrom(s, r.start))
    decreases |s| - st.pos
  {
    hide SkipBlanks, TokenFrom, IsUnknown, Next, QuoteFrom, LineEndFrom;
    NextCases(s, st);
    var w := SkipBlanks(s, st);
    if IsUnknown(s, w.pos) {
      NextEdges(s, w.(pos := w.pos + 1, col := w.col + 1));
    } else {
      TokenEdges(s, w.pos, !w.lineHasNonWhitespace);
    }
  }

  // ----- Well-formed ranges -----

  lemma ByteOnSourceLine(s: string, i: nat)
    requires i < |s| && NoLoneCR(s, i) && !IsLineEnd(s[i])
    ensures var p := PositionOf(s, i);
            && 1 <= p.line <= |Lines(s)| && 1 <= p.column <= |LineText(s, p.line - 1)|
            && IsLineAt(s, LineText(s, p.line - 1), i - (p.column - 1))
  {
    hide LinesFrom, IsLineAt;
    assert PositionOf(s, 0) == ORIGIN;
    ByteOnLine(s, 0, i);
  }

  lemma ByteOfLine(s: string, text: string, a: nat, k: nat)
    requires IsLineAt(s, text, a) && k < |text|
    ensures text[k] == s[a + k]
  {
  }

  lemma StartIsBoundary(s: string, i: nat)
    requires i < |s| && NoLoneCR(s, i) && !IsLineEnd(s[i]) && IsAsciiByte(s[i])
    ensures var p := PositionOf(s, i);
            && 1 <= p.line <= |Lines(s)| && 1 <= p.column
            && IsBoundary(LineText(s, p.line - 1), p.column - 1) && IsBoundary(LineText(s, p.line - 1), p.column)
  {
    hide LinesFrom, LineText, PositionOf, Utf.Reaches;
    ByteOnSourceLine(s, i);
    var p := PositionOf(s, i);
    var text := LineText(s, p.line - 1);
    ByteOfLine(s, text, i - (p.column - 1), p.column - 1);
    AsciiIsReached(text, 0, p.column - 1);
  }

  /** The last byte before a line end, be it one of the protocol or a lone CR. */
  lemma LineEndIsBoundary(s: string, i: nat)
    requires i < |s| && NoLoneCR(s, i) && !IsLineEnd(s[i]) && (i + 1 < |s| ==> IsLineEnd(s[i + 1]))
    ensures var p := PositionOf(s, i);
            1 <= p.line <= |Lines(s)| && 1 <= p.column && IsBoundary(LineText(s, p.line - 1), p.column)
  {
    hide LinesFrom, LineText, PositionOf, Utf.Reaches;
    ByteOnSourceLine(s, i);
    var p := PositionOf(s, i);
    var text := LineText(s, p.line - 1);
    if p.column < |text| {
      ByteOfLine(s, text, i - (p.column - 1), p.column);
      AsciiIsReached(text, 0, p.column);
    } else {
      EndIsBoundary(text, 0);
    }
  }

  /** The bytes consumed for a token, but an unterminated string, start and end on code points of existing lines. */
  lemma {:induction false} ConsumedIsWellFormed(s: string, st: State)
    requires |s| < UINT32 && st.pos <= |s| && NoLoneCR(s, Next(s, st).after.pos - 1)
    requires Next(s, st).token.kind != EndOfFile && !IsUnterminated(s, Next(s, st))
    ensures TokenWire.WellFormed(ConsumedRange(s, Next(s, st)), s)
  {
    hide Next, Lines, LineText, PositionOf, IsBoundary, LineEndFrom, IsUnterminated;
    var r := Next(s, st);
    var first, last := r.start, r.after.pos - 1;
    NextEdges(s, st);
    LastIsNoLineEnd(s, r);
    StartIsBoundary(s, first);
    if r.token.kind == Comment {
      LineEndIsBoundary(s, last);
    } else {
      StartIsBoundary(s, last);
    }
    if first < last {
      PositionsIncrease(s, first, last);
    }
  }

  lemma LastIsNoLineEnd(s: string, r: Lexed)
    requires r.start < r.after.pos <= |s|
    requires r.token.kind == Comment ==> r.after.pos == LineEndFrom(s, r.start)
    requires r.token.kind != Comment ==> !IsLineEnd(s[r.after.pos - 1])
    ensures !IsLineEnd(s[r.after.pos - 1])
  {
  }

  /** Where every CR before its last byte is followed by an LF, a drained token whose computed range is exact has a
      range the encoder can split without underflow. */
  lemma ExactRangesAreWellFormed(s: string, k: nat)
    requires |s| < UINT32 && k < |Drain(s, START)| && NoLoneCR(s, Drain(s, START)[k].after.pos - 1)
    requires RangeOf(s, Drain(s, START)[k].token) == ConsumedRange(s, Drain(s, START)[k])
    ensures TokenWire.WellFormed(RangeOf(s, Drain(s, START)[k].token), s)
  {
    hide Drain, RangeOf, IsUnterminated, CrossesLine, TokenWire.WellFormed;
    RangeIsExactIff(s, k);
    var before := DrainedByNext(s, START, k);
    ConsumedIsWellFormed(s, before);
  }

  // ----- Behind a lone CR -----

  /** The LFs among bytes a to b. */
  function LFsIn(s: string, a: nat, b: nat): nat
    requires a <= b <= |s|
  {
    if a == b then 0 else LFsIn(s, a, b - 1) + if s[b - 1] == '\n' then 1 else 0
  }

  /** The CRs among the first b bytes that no LF follows. */
  function LoneCRs(s: string, b: nat): nat
    requires b <= |s|
  {
    if b == 0 then 0 else LoneCRs(s, b - 1) + if s[b - 1] == '\r' && !(b < |s| && s[b] == '\n') then 1 else 0
  }

  lemma {:induction false} LexerLine(s: string, i: nat)
    requires i <= |s|
    ensures PositionOf(s, i).line == 1 + LFsIn(s, 0, i) + LoneCRs(s, i)
  {
    if i > 0 {
      LexerLine(s, i - 1);
    }
  }

  lemma {:induction false} LFsAdd(s: string, a: nat, b: nat, c: nat)
    requires a <= b <= c <= |s|
    ensures LFsIn(s, a, c) == LFsIn(s, a, b) + LFsIn(s, b, c)
    decreases c
  {
    if b < c {
      LFsAdd(s, a, b, c - 1);
    }
  }

  lemma {:induction false} NoLFsIn(s: string, a: nat, b: nat)
    requires a <= b <= |s| && forall k :: a <= k < b ==> s[k] != '\n'
    ensures LFsIn(s, a, b) == 0
  {
    if a < b {
      NoLFsIn(s, a, b - 1);
    }
  }

  lemma {:induction false} ProtocolLines(s: string, start: nat)
    requires start <= |s|
    ensures |LinesFrom(s, start)| == 1 + LFsIn(s, start, |s|)
    decreases |s| - start
  {
    hide LinesFrom, NextLF;
    var lf := NextLF(s, start);
    FirstLineText(s, start);
    NoLFsIn(s, start, lf);
    if lf < |s| {
      ProtocolLines(s, lf + 1);
      LFsAdd(s, start, lf, lf + 1);
      LFsAdd(s, start, lf + 1, |s|);
    }
  }

  /** The line of a byte exists in the protocol exactly if no more lone CRs stand before the byte than LFs behind it. */
  lemma LineExistsIff(s: string, i: nat)
    requires i <= |s|
    ensures 1 <= PositionOf(s, i).line
    ensures PositionOf(s, i).line <= |Lines(s)| <==> LoneCRs(s, i) <= LFsIn(s, i, |s|)
  {
    LexerLine(s, i);
    ProtocolLines(s, 0);
    LFsAdd(s, 0, i, |s|);
  }

  /** An exact range lies on existing lines exactly if no more lone CRs stand before its last byte than LFs behind. */
  lemma ExactRangeExistsIff(s: string, k: nat)
    requires k < |Drain(s, START)|
    requires RangeOf(s, Drain(s, START)[k].token) == ConsumedRange(s, Drain(s, START)[k])
    ensures var r, last := RangeOf(s, Drain(s, START)[k].token), Drain(s, START)[k].after.pos - 1;
            && 1 <= r.start.line <= r.end.line
            && (r.end.line <= |Lines(s)| <==> LoneCRs(s, last) <= LFsIn(s, last, |s|))
  {
    hide Drain, RangeOf, PositionOf, Lines, LoneCRs, LFsIn;
    var lexed := Drain(s, START)[k];
    LineExistsIff(s, lexed.start);
    LineExistsIff(s, lexed.after.pos - 1);
    if lexed.start < lexed.after.pos - 1 {
      PositionsIncrease(s, lexed.start, lexed.after.pos - 1);
    }
  }

  /** With a lone CR the two line rules differ: the range names a line the protocol does not have. */
  lemma LoneCRHasNoLine()
    ensures var s := "\r+";
            && |Drain(s, START)| == 1 && RangeOf(s, Drain(s, START)[0].token) == ConsumedRange(s, Drain(s, START)[0])
            && RangeOf(s, Drain(s, START)[0].token).start.line == 2 && |Lines(s)| == 1
  {
    var s := "\r+";
    var plus := State(1, 2, 1, false);
    var end := State(2, 2, 2, true);
    assert SkipBlanks(s, START) == SkipBlanks(s, plus) == plus;
    assert TokenFrom(s, 1, true) == Extent(Operator, 2, "+");
    assert Next(s, START) == Lexed(Token(Operator, "+", 2, 1), 1, end);
    assert SkipBlanks(s, end) == end && Next(s, end).token.kind == EndOfFile;
    assert Drain(s, end) == [] && Drain(s, START) == [Next(s, START)];
    hide Drain, Next, SkipBlanks;
    RangeIsExactIff(s, 0);
    assert !IsUnterminated(s, Drain(s, START)[0]);
    assert NextLF(s, 2) == 2 && NextLF(s, 1) == 2 && NextLF(s, 0) == 2;
  }
}
