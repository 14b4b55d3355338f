/** The Natural lexer (internal/analysis/natural/lexer.go).  A byte string is a string of characters below 256. */
module Lexer {
  import opened Model
  import opened SourceLines
  import opened Text

  datatype TokenType =
    | Keyword | Identifier | LiteralString | LiteralNumeric | Operator
    | Punctuation | Comment | SQLOpaque | EndOfFile

  datatype Token = Token(kind: TokenType, literal: string, line: int, column: int)

  // ----- Character classes -----

  predicate IsIdentStart(c: char) {
    IsLetter(c) || c == '#' || c == '&' || c == '@'
  }

  predicate IsIdentBody(c: char) {
    IsLetter(c) || IsDigit(c) || c == '_' || c == '#' || c == '&' || c == '@'
  }

  predicate IsBlank(c: char) {
    c == ' ' || c == '\t' || IsLineEnd(c)
  }

  predicate IsOperatorChar(c: char) {
    c in {'=', '+', '-', '*', '/', '|', '!', '^', '<', '>'}
  }

  predicate IsPunctuationChar(c: char) {
    c in {',', ';', ':', '(', ')', '[', ']', '{', '}', '.'}
  }

  predicate IsKeyword(s: string) {
    s in {
      "CALLNAT", "PERFORM", "INCLUDE", "FETCH", "RUN", "DEFINE", "END",
      "IF", "THEN", "ELSE", "ENDIF", "MOVE", "COMPUTE", "TO", "WRITE", "READ", "STORE",
      "DELETE", "UPDATE", "INSERT", "SELECT", "FROM", "WHERE", "SET",
      "GET", "PUT", "EXIT", "RETURN", "WHILE", "WEND", "FOR", "NEXT",
      "DO", "LOOP", "UNTIL", "BREAK", "CONTINUE", "GOTO", "CALL",
      "EXITNAT", "PERFORMNAT", "DISPLAY", "PROMPT", "ACCEPT", "INPUT",
      "OUTPUT", "PRINT", "OPEN", "CLOSE", "LOCK", "UNLOCK", "LOCKNAT",
      "UNLOCKNAT", "SEARCH", "SEARCHNAT", "FIND", "FINDNAT", "REPLACE",
      "REPLACENAT", "SUBSTITUTE", "SUBST", "CONCAT", "CONCATENATE",
      "LENGTH", "LEN", "TRIM", "LTRIM", "RTRIM", "UPPER", "LOWER",
      "SUBSTR", "SUBSTRING", "INDEX", "POSITION", "ASSERT", "ASSERTNAT",
      "ERROR", "RAISE", "CATCH", "TRY", "ABORT", "TERMINATE", "STOP",
      "HALT", "RESUME", "RETRY", "RESTART", "REINIT", "RESET", "CLEAR",
      "FLUSH", "SYNC", "SYNCNAT", "FLUSHNAT", "ID", "IDNAT", "VERSION",
      "VERSIONNAT", "DATE", "DATENAT", "TIME", "TIMENAT", "DATETIME",
      "DATETIMENAT", "DATA", "LOCAL", "PARAMETER", "REDEFINE",
      "SINGLE", "INTO", "VALUES", "MERGE", "COMMIT", "ROLLBACK", "CALLDBPROC",
      "PROCESS", "RESULT", "END-SELECT", "END-RESULT"
    }
  }

  // ----- How far each kind of token reaches -----

  /** A name takes a hyphen along only when a body character follows it. */
  predicate NameContinues(s: string, i: nat)
    requires i < |s|
  {
    IsIdentBody(s[i]) || (s[i] == '-' && i + 1 < |s| && IsIdentBody(s[i + 1]))
  }

  function NameEnd(s: string, i: nat): (r: nat)
    requires i <= |s|
    ensures i <= r <= |s|
    ensures forall k: nat :: i <= k < r ==> NameContinues(s, k)
    ensures forall k :: i <= k < r ==> !IsLineEnd(s[k])
    ensures r < |s| ==> !NameContinues(s, r)
    decreases |s| - i
  {
    if i == |s| || !NameContinues(s, i) then i else NameEnd(s, i + 1)
  }

  function DigitsEnd(s: string, i: nat): (r: nat)
    requires i <= |s|
    ensures i <= r <= |s|
    ensures forall k :: i <= k < r ==> IsDigit(s[k])
    ensures r < |s| ==> !IsDigit(s[r])
    decreases |s| - i
  {
    if i == |s| || !IsDigit(s[i]) then i else DigitsEnd(s, i + 1)
  }

  function FractionEnd(s: string, i: nat): (r: nat)
    requires i <= |s|
    ensures i <= r <= |s|
  {
    if i < |s| && s[i] == '.' then DigitsEnd(s, i + 1) else i
  }

  function ExponentEnd(s: string, i: nat): (r: nat)
    requires i <= |s|
    ensures i <= r <= |s|
  {
    if i < |s| && (s[i] == 'E' || s[i] == 'e') then
      DigitsEnd(s, if i + 1 < |s| && (s[i + 1] == '+' || s[i + 1] == '-') then i + 2 else i + 1)
    else i
  }

  function NumberEnd(s: string, i: nat): (r: nat)
    requires i <= |s|
    ensures i <= r <= |s|
  {
    ExponentEnd(s, FractionEnd(s, DigitsEnd(s, i)))
  }

  /** The first line end at or after i. */
  function LineEndFrom(s: string, i: nat): (r: nat)
    requires i <= |s|
    ensures i <= r <= |s|
    ensures forall k :: i <= k < r ==> !IsLineEnd(s[k])
    ensures r < |s| ==> IsLineEnd(s[r])
    decreases |s| - i
  {
    if i == |s| || IsLineEnd(s[i]) then i else LineEndFrom(s, i + 1)
  }

  /** The first quote at or after i. */
  function QuoteFrom(s: string, i: nat): (r: nat)
    requires i <= |s|
    ensures i <= r <= |s|
    ensures forall k :: i <= k < r ==> s[k] != '\''
    ensures r < |s| ==> s[r] == '\''
    decreases |s| - i
  {
    if i == |s| || s[i] == '\'' then i else QuoteFrom(s, i + 1)
  }

  predicate ClosesSpan(s: string, i: nat)
    requires i < |s|
  {
    s[i] == '>' && i + 1 < |s| && s[i + 1] == '>'
  }

  /** The first `>>` at or after i. */
  function SpanCloseFrom(s: string, i: nat): (r: nat)
    requires i <= |s|
    ensures i <= r <= |s|
    ensures forall k: nat :: i <= k < r ==> !ClosesSpan(s, k)
    ensures r < |s| ==> ClosesSpan(s, r)
    decreases |s| - i
  {
    if i == |s| || ClosesSpan(s, i) then i else SpanCloseFrom(s, i + 1)
  }

  predicate IsPair(s: string, i: nat)
    requires i < |s|
  {
    && i + 1 < |s|
    && ((s[i] == '<' && s[i + 1] in {'>', '='}) || (s[i] == '>' && s[i + 1] == '=') || (s[i] == ':' && s[i + 1] == '='))
  }

  predicate OpensComment(s: string, i: nat)
    requires i < |s|
  {
    s[i] == '/' && i + 1 < |s| && s[i + 1] == '*'
  }

  /** A character no token starts with; the lexer drops it. */
  predicate IsUnknown(s: string, i: nat)
    requires i < |s|
  {
    var c := s[i];
    && !IsBlank(c) && !IsIdentStart(c) && c != '\'' && !IsDigit(c)
    && !IsOperatorChar(c) && !IsPunctuationChar(c)
  }

  datatype Extent = Extent(kind: TokenType, end: nat, literal: string)

  /** The token starting at byte i. */
  function TokenFrom(s: string, i: nat, atLineStart: bool): (r: Extent)
    requires i < |s| && !IsBlank(s[i]) && !IsUnknown(s, i)
    ensures i < r.end <= |s|
    ensures r.kind != EndOfFile && r.kind != SQLOpaque
    ensures r.kind != LiteralString ==> |r.literal| == r.end - i && forall k :: i <= k < r.end ==> !IsLineEnd(s[k])
  {
    var c := s[i];
    if c == '*' && atLineStart then
      var end := LineEndFrom(s, i);
      Extent(Comment, end, s[i..end])
    else if IsIdentStart(c) then
      var end := NameEnd(s, i);
      var name := Upper(s[i..end]);
      Extent(if IsKeyword(name) then Keyword else Identifier, end, name)
    else if c == '\'' then
      var quote := QuoteFrom(s, i + 1);
      if quote < |s| then Extent(LiteralString, quote + 1, s[i..quote + 1])
      else Extent(LiteralString, |s|, s[i + 1..])
    else if IsDigit(c) then
      var end := NumberEnd(s, i);
      NumberHasNoLineEnd(s, i);
      Extent(LiteralNumeric, end, s[i..end])
    else if OpensComment(s, i) then
      var end := LineEndFrom(s, i);
      Extent(Comment, end, s[i..end])
    else if IsPair(s, i) then Extent(Operator, i + 2, s[i..i + 2])
    else Extent(if IsOperatorChar(c) then Operator else Punctuation, i + 1, [c])
  }

  lemma NumberHasNoLineEnd(s: string, i: nat)
    requires i <= |s|
    ensures forall k :: i <= k < NumberEnd(s, i) ==> !IsLineEnd(s[k])
    ensures i < |s| && IsDigit(s[i]) ==> i < NumberEnd(s, i)
  {
  }

  // ----- The lexer as a function of its state -----

  datatype State = State(pos: nat, line: int, col: int, lineHasNonWhitespace: bool)

  function At(st: State): Position {
    Position(st.line, st.col)
  }

  function SkipBlanks(s: string, st: State): (r: State)
    requires st.pos <= |s|
    ensures st.pos <= r.pos <= |s|
    ensures forall k :: st.pos <= k < r.pos ==> IsBlank(s[k])
    ensures r.pos < |s| ==> !IsBlank(s[r.pos])
    decreases |s| - st.pos
  {
    if st.pos == |s| || !IsBlank(s[st.pos]) then st
    else if IsLineEnd(s[st.pos]) then SkipBlanks(s, State(StepFrom(s, st.pos), st.line + 1, 1, false))
    else SkipBlanks(s, st.(pos := st.pos + 1, col := st.col + 1))
  }

  /** Every token advances the column by its bytes and leaves the line alone. */
  function AfterToken(st: State, end: nat): State {
    State(end, st.line, st.col + (end - st.pos), true)
  }

  /** A token, the byte it starts at, and the state after it. */
  datatype Lexed = Lexed(token: Token, start: nat, after: State)

  function Next(s: string, st: State): (r: Lexed)
    requires st.pos <= |s|
    ensures st.pos <= r.start <= r.after.pos <= |s|
    ensures r.token.kind != EndOfFile ==> r.start < r.after.pos
    ensures r.token.kind == EndOfFile ==> r.after.pos == |s|
    ensures forall k: nat :: st.pos <= k < r.start ==> IsBlank(s[k]) || IsUnknown(s, k)
    decreases |s| - st.pos
  {
    var w := SkipBlanks(s, st);
    if w.pos == |s| then Lexed(Token(EndOfFile, "", w.line, w.col), w.pos, w)
    else if IsUnknown(s, w.pos) then Next(s, w.(pos := w.pos + 1, col := w.col + 1))
    else
      var e := TokenFrom(s, w.pos, !w.lineHasNonWhitespace);
      Lexed(Token(e.kind, e.literal, w.line, w.col), w.pos, AfterToken(w, e.end))
  }

  datatype Span = Span(token: Token, unterminated: bool, after: State)

  function OpaqueSpan(s: string, st: State): (r: Span)
    requires st.pos <= |s|
    ensures st.pos <= r.after.pos <= |s|
    ensures r.token.kind == SQLOpaque
  {
    var w := SkipBlanks(s, st);
    if w.pos + 1 >= |s| || s[w.pos] != '<' || s[w.pos + 1] != '<' then
      Span(Token(SQLOpaque, "", w.line, w.col), false, w)
    else
      var close := SpanCloseFrom(s, w.pos + 2);
      Span(Token(SQLOpaque, s[w.pos + 2..close], w.line, w.col), close == |s|,
           AfterInterior(s, w.pos + 2, Position(w.line, w.col + 2), close))
  }

  /** After the interior from `start` to `close` and, unless that is the end, the `>>` there. */
  function AfterInterior(s: string, start: nat, at: Position, close: nat): State
    requires close <= |s|
  {
    var end := Shift(s, start, at, close);
    if close < |s| then State(close + 2, end.line, end.column + 2, true)
    else State(close, end.line, end.column, end.line == at.line)
  }

  /** Going back over the opener token, never before the start of the input or of the line. */
  function Rewind(st: State, opener: Token): (r: State)
    ensures r.pos <= st.pos
  {
    var n := |opener.literal|;
    if n == 0 then st
    else st.(pos := if st.pos >= n then st.pos - n else 0, col := if st.col > n then st.col - n else 1)
  }

  // ----- Positions only move forward -----

  lemma UnknownIsNoLineEnd(s: string, i: nat)
    requires i < |s| && IsUnknown(s, i)
    ensures !IsLineEnd(s[i])
  {
  }

  /** One step of `Next`. */
  lemma {:induction false} NextCases(s: string, st: State)
    requires st.pos <= |s|
    ensures var w, r := SkipBlanks(s, st), Next(s, st);
            if w.pos == |s| then r == Lexed(Token(EndOfFile, "", w.line, w.col), w.pos, w)
            else if IsUnknown(s, w.pos) then r == Next(s, w.(pos := w.pos + 1, col := w.col + 1))
            else var e := TokenFrom(s, w.pos, !w.lineHasNonWhitespace);
                 r == Lexed(Token(e.kind, e.literal, w.line, w.col), w.pos, AfterToken(w, e.end))
  {
    hide SkipBlanks, TokenFrom, IsUnknown;
  }

  predicate AtOrBefore(a: Position, b: Position) {
    !Earlier(b, a)
  }

  function Start(tok: Token): Position {
    Position(tok.line, tok.column)
  }

  /** The column behind the token's literal. */
  function Behind(tok: Token): Position {
    Position(tok.line, tok.column + |tok.literal|)
  }

  lemma {:induction false} SkipBlanksMovesOn(s: string, st: State)
    requires st.pos <= |s| && st.col >= 1
    ensures AtOrBefore(At(st), At(SkipBlanks(s, st))) && SkipBlanks(s, st).col >= 1
    decreases |s| - st.pos
  {
    if st.pos < |s| && IsBlank(s[st.pos]) {
      if IsLineEnd(s[st.pos]) {
        SkipBlanksMovesOn(s, State(StepFrom(s, st.pos), st.line + 1, 1, false));
      } else {
        SkipBlanksMovesOn(s, st.(pos := st.pos + 1, col := st.col + 1));
      }
    }
  }

  /** A token starts at or behind the lexer's position and leaves it behind the token; at the end nothing moves. */
  lemma {:induction false} NextMovesOn(s: string, st: State)
    requires st.pos <= |s| && st.col >= 1
    ensures var r := Next(s, st);
            && AtOrBefore(At(st), Start(r.token)) && r.token.column >= 1 && r.after.col >= 1
            && (r.token.kind == EndOfFile ==> At(r.after) == Start(r.token) && r.token.literal == "")
            && (r.token.kind != EndOfFile ==>
                Earlier(Start(r.token), At(r.after)) && AtOrBefore(Behind(r.token), At(r.after)))
            && (r.token.kind == Operator ==>
                Behind(r.token) == At(r.after) && |r.token.literal| == r.after.pos - r.start)
            && (st.pos == |s| ==> r.token == Token(EndOfFile, "", st.line, st.col) && r.after == st)
    decreases |s| - st.pos
  {
    hide SkipBlanks, TokenFrom, IsUnknown, Next;
    NextCases(s, st);
    SkipBlanksMovesOn(s, st);
    if st.pos == |s| {
      SkipBlanksAtEnd(s, st);
    }
    var w := SkipBlanks(s, st);
    if w.pos < |s| {
      if IsUnknown(s, w.pos) {
        NextMovesOn(s, w.(pos := w.pos + 1, col := w.col + 1));
      } else {
        LiteralFits(s, w.pos, !w.lineHasNonWhitespace);
      }
    }
  }

  lemma SkipBlanksAtEnd(s: string, st: State)
    requires st.pos == |s|
    ensures SkipBlanks(s, st) == st
  {
  }

  lemma LiteralFits(s: string, i: nat, atLineStart: bool)
    requires i < |s| && !IsBlank(s[i]) && !IsUnknown(s, i)
    ensures var e := TokenFrom(s, i, atLineStart); |e.literal| <= e.end - i
  {
    hide NameEnd, NumberEnd, LineEndFrom, QuoteFrom, Upper, IsKeyword;
  }

  /** Rewinding over an operator just lexed restores its start exactly, on the same line. */
  lemma RewindIsExact(s: string, st: State)
    requires st.pos <= |s| && st.col >= 1 && Next(s, st).token.kind == Operator
    ensures var r := Next(s, st); Rewind(r.after, r.token) == State(r.start, r.token.line, r.token.column, true)
  {
    hide Next;
    NextMovesOn(s, st);
    OperatorSetsFlag(s, st);
  }

  lemma {:induction false} OperatorSetsFlag(s: string, st: State)
    requires st.pos <= |s| && Next(s, st).token.kind != EndOfFile
    ensures Next(s, st).after.lineHasNonWhitespace
    decreases |s| - st.pos
  {
    hide SkipBlanks, TokenFrom, IsUnknown, Next;
    NextCases(s, st);
    var w := SkipBlanks(s, st);
    if w.pos < |s| && IsUnknown(s, w.pos) {
      OperatorSetsFlag(s, w.(pos := w.pos + 1, col := w.col + 1));
    }
  }

  lemma {:induction false} OperatorIsSource(s: string, st: State)
    requires st.pos <= |s| && Next(s, st).token.kind == Operator
    ensures var r := Next(s, st); r.token.literal == s[r.start..r.after.pos] && !IsBlank(s[r.start])
    decreases |s| - st.pos
  {
    hide SkipBlanks, IsUnknown, Next, NameEnd, NumberEnd, LineEndFrom, QuoteFrom, IsKeyword, Upper;
    NextCases(s, st);
    var w := SkipBlanks(s, st);
    if w.pos < |s| && IsUnknown(s, w.pos) {
      OperatorIsSource(s, w.(pos := w.pos + 1, col := w.col + 1));
    }
  }

  /** The opaque scan never moves back. */
  lemma SpanMovesOn(s: string, st: State)
    requires st.pos <= |s| && st.col >= 1
    ensures var r := OpaqueSpan(s, st);
            AtOrBefore(At(st), Start(r.token)) && AtOrBefore(Start(r.token), At(r.after)) && r.after.col >= 1
    ensures var r := OpaqueSpan(s, st); r.after.pos > SkipBlanks(s, st).pos ==> Earlier(Start(r.token), At(r.after))
  {
    hide SkipBlanks, Shift, SpanCloseFrom;
    SkipBlanksMovesOn(s, st);
    var w := SkipBlanks(s, st);
    if w.pos + 2 <= |s| {
      ShiftGrows(s, w.pos + 2, Position(w.line, w.col + 2), SpanCloseFrom(s, w.pos + 2));
    }
  }

  class Scanner {
    const input: string
    var pos: nat
    var line: int
    var col: int
    var lineHasNonWhitespace: bool

    ghost predicate Valid()
      reads this
    {
      pos <= |input|
    }

    ghost function Now(): State
      reads this
    {
      State(pos, line, col, lineHasNonWhitespace)
    }

    constructor (input: string)
      ensures this.input == input && Valid() && Now() == State(0, 1, 1, false)
    {
      this.input := input;
      pos, line, col, lineHasNonWhitespace := 0, 1, 1, false;
    }

    /** CR, LF or CRLF: the next line starts blank. */
    method PassLineEnd()
      requires Valid() && pos < |input| && IsLineEnd(input[pos])
      modifies this
      ensures Valid() && Now() == State(StepFrom(input, old(pos)), old(line) + 1, 1, false)
    {
      line := line + 1;
      col := 1;
      lineHasNonWhitespace := false;
      var cr := input[pos] == '\r';
      pos := pos + 1;
      if cr && pos < |input| && input[pos] == '\n' {
        pos := pos + 1;
      }
    }

    method SkipWhitespace()
      requires Valid()
      modifies this
      ensures Valid() && Now() == SkipBlanks(input, old(Now()))
    {
      while pos < |input|
        invariant Valid() && SkipBlanks(input, Now()) == SkipBlanks(input, old(Now()))
        decreases |input| - pos
      {
        var ch := input[pos];
        if ch == '\r' || ch == '\n' {
          PassLineEnd();
        } else if ch == ' ' || ch == '\t' {
          col := col + 1;
          pos := pos + 1;
        } else {
          break;
        }
      }
    }

    method ConsumeToEOL()
      requires Valid()
      modifies this`pos, this`col
      ensures Valid() && pos == LineEndFrom(input, old(pos)) && col == old(col) + (pos - old(pos))
    {
      while pos < |input|
        invariant old(pos) <= pos <= |input| && LineEndFrom(input, pos) == LineEndFrom(input, old(pos))
        invariant col == old(col) + (pos - old(pos))
        decreases |input| - pos
      {
        var c := input[pos];
        if c == '\n' || c == '\r' {
          break;
        }
        pos := pos + 1;
        col := col + 1;
      }
    }

    method ConsumeName()
      requires Valid()
      modifies this`pos, this`col
      ensures Valid() && pos == NameEnd(input, old(pos)) && col == old(col) + (pos - old(pos))
    {
      while pos < |input|
        invariant old(pos) <= pos <= |input| && NameEnd(input, pos) == NameEnd(input, old(pos))
        invariant col == old(col) + (pos - old(pos))
        decreases |input| - pos
      {
        var c := input[pos];
        if IsIdentBody(c) {
          pos := pos + 1;
          col := col + 1;
        } else if c == '-' && pos + 1 < |input| && IsIdentBody(input[pos + 1]) {
          pos := pos + 1;
          col := col + 1;
        } else {
          break;
        }
      }
    }

    method ConsumeDigits()
      requires Valid()
      modifies this`pos, this`col
      ensures Valid() && pos == DigitsEnd(input, old(pos)) && col == old(col) + (pos - old(pos))
    {
      while pos < |input|
        invariant old(pos) <= pos <= |input| && DigitsEnd(input, pos) == DigitsEnd(input, old(pos))
        invariant col == old(col) + (pos - old(pos))
        decreases |input| - pos
      {
        if !IsDigit(input[pos]) {
          break;
        }
        pos := pos + 1;
        col := col + 1;
      }
    }

    method ConsumeFraction()
      requires Valid()
      modifies this`pos, this`col
      ensures Valid() && pos == FractionEnd(input, old(pos)) && col == old(col) + (pos - old(pos))
    {
      if pos < |input| && input[pos] == '.' {
        pos := pos + 1;
        col := col + 1;
        ConsumeDigits();
      }
    }

    method ConsumeExponent()
      requires Valid()
      modifies this`pos, this`col
      ensures Valid() && pos == ExponentEnd(input, old(pos)) && col == old(col) + (pos - old(pos))
    {
      hide DigitsEnd;
      if pos < |input| {
        var c := input[pos];
        if c == 'E' || c == 'e' {
          pos := pos + 1;
          col := col + 1;
          if pos < |input| {
            c := input[pos];
            if c == '+' || c == '-' {
              pos := pos + 1;
              col := col + 1;
            }
          }
          ConsumeDigits();
        }
      }
    }

    method ConsumeNumber()
      requires Valid()
      modifies this`pos, this`col
      ensures Valid() && pos == NumberEnd(input, old(pos)) && col == old(col) + (pos - old(pos))
    {
      hide DigitsEnd, FractionEnd, ExponentEnd;
      ConsumeDigits();
      ConsumeFraction();
      ConsumeExponent();
    }

    /** Past the opening quote: to behind the closing one, or to the end. */
    method ConsumeString() returns (closed: bool)
      requires Valid()
      modifies this`pos, this`col
      ensures Valid() && col == old(col) + (pos - old(pos))
      ensures var quote := QuoteFrom(input, old(pos));
              closed == (quote < |input|) && pos == if closed then quote + 1 else |input|
    {
      while pos < |input|
        invariant old(pos) <= pos <= |input| && QuoteFrom(input, pos) == QuoteFrom(input, old(pos))
        invariant col == old(col) + (pos - old(pos))
        decreases |input| - pos
      {
        if input[pos] == '\'' {
          pos := pos + 1;
          col := col + 1;
          return true;
        }
        pos := pos + 1;
        col := col + 1;
      }
      return false;
    }

    /** The token is the one starting at the old position, and has been consumed. */
    twostate predicate HasRead(tok: Token)
      requires old(Valid()) && old(pos) < |input| && !IsBlank(input[old(pos)]) && !IsUnknown(input, old(pos))
      reads this
    {
      var e := TokenFrom(input, old(pos), old(!lineHasNonWhitespace));
      tok == Token(e.kind, e.literal, line, old(col)) && Now() == AfterToken(old(Now()), e.end)
    }

    /** A string literal, its quotes kept when it is closed. */
    method ReadString() returns (tok: Token)
      requires Valid() && pos < |input| && input[pos] == '\''
      modifies this`pos, this`col
      ensures Valid()
      ensures pos == (if QuoteFrom(input, old(pos) + 1) < |input| then QuoteFrom(input, old(pos) + 1) + 1 else |input|)
      ensures col == old(col) + (pos - old(pos))
      ensures tok == Token(LiteralString,
                           if QuoteFrom(input, old(pos) + 1) < |input| then input[old(pos)..pos]
                           else input[old(pos) + 1..], line, old(col))
    {
      hide QuoteFrom;
      var start, startCol := pos, col;
      pos := pos + 1;
      col := col + 1;
      var closed := ConsumeString();
      if closed {
        assert input[start..pos] == ['\''] + input[start + 1..pos - 1] + ['\''];
        tok := Token(LiteralString, ['\''] + input[start + 1..pos - 1] + ['\''], line, startCol);
      } else {
        tok := Token(LiteralString, input[start + 1..], line, startCol);
      }
    }

    method ReadWord() returns (tok: Token)
      requires Valid() && pos < |input|
      requires (input[pos] == '*' && !lineHasNonWhitespace) || IsIdentStart(input[pos]) || input[pos] == '\''
                 || IsDigit(input[pos])
      modifies this`pos, this`col, this`lineHasNonWhitespace
      ensures Valid() && HasRead(tok)
    {
      hide NameEnd, LineEndFrom, NumberEnd, QuoteFrom, IsKeyword, Upper;
      var ch := input[pos];
      var start, startCol := pos, col;
      if ch == '*' {
        ConsumeToEOL();
        tok := Token(Comment, input[start..pos], line, startCol);
      } else if IsIdentStart(ch) {
        ConsumeName();
        var normalized := Upper(input[start..pos]);
        tok := Token(if IsKeyword(normalized) then Keyword else Identifier, normalized, line, startCol);
      } else if ch == '\'' {
        tok := ReadString();
      } else {
        ConsumeNumber();
        tok := Token(LiteralNumeric, input[start..pos], line, startCol);
      }
      lineHasNonWhitespace := true;
    }

    method ReadSymbol() returns (tok: Token, known: bool)
      requires Valid() && pos < |input| && !IsBlank(input[pos])
      requires !(input[pos] == '*' && !lineHasNonWhitespace)
      requires !IsIdentStart(input[pos]) && input[pos] != '\'' && !IsDigit(input[pos])
      modifies this`pos, this`col, this`lineHasNonWhitespace
      ensures Valid() && known == !IsUnknown(input, old(pos))
      ensures if known then HasRead(tok) else Now() == old(Now())
    {
      hide LineEndFrom;
      known := true;
      var ch := input[pos];
      var start, startCol := pos, col;
      if OpensComment(input, pos) {
        ConsumeToEOL();
        tok := Token(Comment, input[start..pos], line, startCol);
      } else if IsPair(input, pos) {
        pos := pos + 2;
        col := col + 2;
        tok := Token(Operator, input[start..pos], line, startCol);
      } else if IsOperatorChar(ch) {
        pos := pos + 1;
        col := col + 1;
        tok := Token(Operator, [ch], line, startCol);
      } else if IsPunctuationChar(ch) {
        pos := pos + 1;
        col := col + 1;
        tok := Token(Punctuation, [ch], line, startCol);
      } else {
        return Token(EndOfFile, "", line, col), false;
      }
      lineHasNonWhitespace := true;
    }

    method NextToken() returns (tok: Token)
      requires Valid()
      modifies this
      ensures Valid()
      ensures var r := Next(input, old(Now())); tok == r.token && Now() == r.after
      decreases |input| - pos
    {
      hide SkipBlanks, TokenFrom;
      SkipWhitespace();
      if pos >= |input| {
        return Token(EndOfFile, "", line, col);
      }
      var ch := input[pos];
      if (ch == '*' && !lineHasNonWhitespace) || IsIdentStart(ch) || ch == '\'' || IsDigit(ch) {
        tok := ReadWord();
        return;
      }
      var known;
      tok, known := ReadSymbol();
      if !known {
        pos := pos + 1;
        col := col + 1;
        tok := NextToken();
      }
    }

    /** Behind `<<`: to behind the closing `>>`, or to the end. */
    method ScanInterior() returns (interior: string, closed: bool)
      requires Valid() && lineHasNonWhitespace
      modifies this
      ensures Valid()
      ensures var close := SpanCloseFrom(input, old(pos));
              && closed == (close < |input|) && interior == input[old(pos)..close]
              && Now() == AfterInterior(input, old(pos), Position(old(line), old(col)), close)
    {
      ghost var at := Position(line, col);
      var interiorStart := pos;
      assert Shift(input, interiorStart, at, pos) == at;
      hide Shift;
      while pos < |input|
        invariant interiorStart <= pos <= |input| && SpanCloseFrom(input, pos) == SpanCloseFrom(input, interiorStart)
        invariant Position(line, col) == Shift(input, interiorStart, at, pos)
        invariant at.line <= line && lineHasNonWhitespace == (line == at.line)
        decreases |input| - pos
      {
        StepIsTrue(input, interiorStart, at, pos);
        var ch := input[pos];
        if ch == '\r' || ch == '\n' {
          PassLineEnd();
        } else if ch == '>' && pos + 1 < |input| && input[pos + 1] == '>' {
          interior := input[interiorStart..pos];
          pos := pos + 2;
          col := col + 2;
          lineHasNonWhitespace := true;
          return interior, true;
        } else {
          pos := pos + 1;
          col := col + 1;
        }
      }
      return input[interiorStart..], false;
    }

    method ScanOpaqueSpan() returns (tok: Token, unterminated: bool)
      requires Valid()
      modifies this
      ensures Valid()
      ensures var r := OpaqueSpan(input, old(Now()));
              tok == r.token && unterminated == r.unterminated && Now() == r.after
    {
      hide SkipBlanks;
      SkipWhitespace();
      var startLine, startCol := line, col;
      if pos + 1 >= |input| || input[pos] != '<' || input[pos + 1] != '<' {
        return Token(SQLOpaque, "", startLine, startCol), false;
      }
      pos := pos + 2;
      col := col + 2;
      lineHasNonWhitespace := true;
      var interior, closed := ScanInterior();
      return Token(SQLOpaque, interior, startLine, startCol), !closed;
    }

    method ScanOpaqueSpanFrom(opener: Token) returns (tok: Token, endLine: int, endCol: int, unterminated: bool)
      requires Valid()
      modifies this
      ensures Valid() && endLine == line && endCol == col
      ensures var r := OpaqueSpan(input, Rewind(old(Now()), opener));
              tok == r.token && unterminated == r.unterminated && Now() == r.after
    {
      var n := |opener.literal|;
      if n > 0 {
        if pos >= n {
          pos := pos - n;
        } else {
          pos := 0;
        }
        if col > n {
          col := col - n;
        } else {
          col := 1;
        }
      }
      tok, unterminated := ScanOpaqueSpan();
      return tok, line, col, unterminated;
    }
  }
}
