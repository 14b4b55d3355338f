/** Which bytes make which kind of token, and with what literal (`NextToken` in internal/analysis/natural/lexer.go). */
module TokenKinds {
  import opened Model
  import opened SourceLines
  import opened Text
  import opened Lexer
  import opened TokenRanges

  predicate IsPairAt(s: string, i: nat)
    requires i < |s|
  {
    i + 1 < |s| && s[i..i + 2] in {"<>", "<=", ">=", ":="}
  }

  /** The first byte, and for some the one behind it, decides the kind; a `*` is a comment only where the flag says that
      nothing stands before it on the line. */
  lemma FirstByteDecides(s: string, i: nat, atLineStart: bool)
    requires i < |s| && !IsBlank(s[i]) && !IsUnknown(s, i)
    ensures var kind, c := TokenFrom(s, i, atLineStart).kind, s[i];
            var slashStar := c == '/' && i + 1 < |s| && s[i + 1] == '*';
            && (kind == Comment <==> (c == '*' && atLineStart) || slashStar)
            && (kind == Keyword || kind == Identifier <==>
                 'A' <= c <= 'Z' || 'a' <= c <= 'z' || c == '#' || c == '&' || c == '@')
            && (kind == LiteralString <==> c == '\'')
            && (kind == LiteralNumeric <==> '0' <= c <= '9')
            && (kind == Operator <==>
                 || IsPairAt(s, i)
                 || (c in {'=', '+', '-', '*', '/', '|', '!', '^', '<', '>'} && !(c == '*' && atLineStart)
                     && !slashStar))
            && (kind == Punctuation <==>
                 c in {',', ';', ':', '(', ')', '[', ']', '{', '}', '.'} && !IsPairAt(s, i))
  {
    hide NameEnd, NumberEnd, LineEndFrom, QuoteFrom, IsKeyword, Upper;
    PairBytes(s, i);
  }

  /** What is dropped between tokens: blanks and line ends, and the bytes no token starts with. */
  lemma DroppedBytes(s: string, i: nat)
    requires i < |s|
    ensures IsBlank(s[i]) <==> s[i] in {' ', '\t', '\n', '\r'}
    ensures !IsBlank(s[i]) ==>
              (IsUnknown(s, i) <==>
               var c := s[i];
               && !('A' <= c <= 'Z' || 'a' <= c <= 'z' || '0' <= c <= '9')
               && c !in {'#', '&', '@', '\'', '=', '+', '-', '*', '/', '|', '!', '^', '<', '>'}
               && c !in {',', ';', ':', '(', ')', '[', ']', '{', '}', '.'})
  {
    PairBytes(s, i);
  }

  lemma PairBytes(s: string, i: nat)
    requires i < |s|
    ensures IsPairAt(s, i) <==> IsPair(s, i)
  {
    if i + 1 < |s| {
      var two := s[i..i + 2];
      assert two[0] == s[i] && two[1] == s[i + 1];
      assert IsPair(s, i) ==> two == "<>" || two == "<=" || two == ">=" || two == ":=";
    }
  }

  /** The literal is the bytes read: as they stand for comments, numbers, operators and punctuation; in upper case for
      words, which are keywords exactly if listed; with its quotes for a closed string, without the one it has for an
      open one. */
  lemma LiteralIsBytes(s: string, i: nat, atLineStart: bool)
    requires i < |s| && !IsBlank(s[i]) && !IsUnknown(s, i)
    ensures var e := TokenFrom(s, i, atLineStart);
            && (e.kind == Comment || e.kind == LiteralNumeric || e.kind == Operator || e.kind == Punctuation ==>
                 e.literal == s[i..e.end])
            && (e.kind == Keyword || e.kind == Identifier ==>
                 e.literal == Upper(s[i..e.end]) && (e.kind == Keyword <==> IsKeyword(e.literal)))
            && (e.kind == LiteralString ==>
                 e.literal == if i + 1 < e.end && s[e.end - 1] == '\'' then s[i..e.end] else s[i + 1..e.end])
  {
    hide NameEnd, NumberEnd, LineEndFrom, QuoteFrom, IsKeyword, Upper, IsIdentStart, IsOperatorChar, IsPunctuationChar,
      OpensComment;
    if s[i] == '\'' {
      assert s[i + 1..] == s[i + 1..|s|];
    }
  }

  /** A number: digits, then a point and digits, then an E, a sign and digits, the last two parts each if there. */
  ghost predicate IsNumber(s: string, i: nat, end: nat) {
    exists a, b :: NumberParts(s, i, a, b, end)
  }

  predicate Digits(s: string, i: int, e: int) {
    0 <= i <= e <= |s| && (forall k :: i <= k < e ==> '0' <= s[k] <= '9') && (e < |s| ==> !('0' <= s[e] <= '9'))
  }

  /** The whole part ends at a, the fraction at b. */
  predicate NumberParts(s: string, i: int, a: int, b: int, end: int) {
    && Digits(s, i, a) && i < a
    && (if a < |s| && s[a] == '.' then Digits(s, a + 1, b) else b == a)
    && if 0 <= b < |s| && (s[b] == 'E' || s[b] == 'e') then
         Digits(s, if b + 1 < |s| && (s[b + 1] == '+' || s[b + 1] == '-') then b + 2 else b + 1, end)
       else end == b
  }

  lemma NumberIsNumber(s: string, i: nat)
    requires i < |s| && '0' <= s[i] <= '9'
    ensures IsNumber(s, i, NumberEnd(s, i))
  {
    var a := DigitsEnd(s, i);
    var b := FractionEnd(s, a);
    assert NumberParts(s, i, a, b, NumberEnd(s, i));
  }

  /** How far each kind reaches: a comment to the line end; a word over letters, digits, `_`, `#`, `&`, `@` and hyphens
      with one of these behind; a string to the first quote or the end of the source; a number over its parts; an
      operator over one byte or a pair; punctuation over one. */
  lemma ExtentIsMaximal(s: string, i: nat, atLineStart: bool)
    requires i < |s| && !IsBlank(s[i]) && !IsUnknown(s, i)
    ensures var e := TokenFrom(s, i, atLineStart);
            && (e.kind == Comment ==>
                 (forall k :: i <= k < e.end ==> s[k] !in {'\n', '\r'}) && (e.end < |s| ==> s[e.end] in {'\n', '\r'}))
            && (e.kind == Keyword || e.kind == Identifier ==>
                 (forall k :: i <= k < e.end ==> IsNameByte(s, k)) && (e.end < |s| ==> !IsNameByte(s, e.end)))
            && (e.kind == LiteralString ==>
                 && (forall k :: i < k < e.end - 1 ==> s[k] != '\'')
                 && (e.end < |s| ==> i + 1 < e.end && s[e.end - 1] == '\''))
            && (e.kind == LiteralNumeric ==> IsNumber(s, i, e.end))
            && (e.kind == Operator ==> e.end == if IsPairAt(s, i) then i + 2 else i + 1)
            && (e.kind == Punctuation ==> e.end == i + 1)
  {
    hide NameEnd, NumberEnd, LineEndFrom, QuoteFrom, IsKeyword, Upper, IsNumber;
    PairBytes(s, i);
    if '0' <= s[i] <= '9' {
      NumberIsNumber(s, i);
    }
    if IsIdentStart(s[i]) {
      assert forall k :: i <= k < |s| ==> (IsNameByte(s, k) <==> NameContinues(s, k));
    }
  }

  predicate IsBodyByte(c: char) {
    'A' <= c <= 'Z' || 'a' <= c <= 'z' || '0' <= c <= '9' || c == '_' || c == '#' || c == '&' || c == '@'
  }

  predicate IsNameByte(s: string, k: int) {
    0 <= k < |s| && (IsBodyByte(s[k]) || (s[k] == '-' && k + 1 < |s| && IsBodyByte(s[k + 1])))
  }

  // ----- The start of a line -----

  predicate LineEndIn(s: string, a: int, b: int) {
    exists m :: a <= m < b && 0 <= m < |s| && IsLineEnd(s[m])
  }

  /** The flag falls exactly when blanks hold a line end. */
  lemma {:induction false} SkipBlanksFlag(s: string, st: State)
    requires st.pos <= |s|
    ensures var w := SkipBlanks(s, st);
            w.lineHasNonWhitespace <==> st.lineHasNonWhitespace && !LineEndIn(s, st.pos, w.pos)
    decreases |s| - st.pos
  {
    if st.pos < |s| && IsBlank(s[st.pos]) {
      var w := SkipBlanks(s, st);
      if IsLineEnd(s[st.pos]) {
        SkipBlanksFlag(s, State(StepFrom(s, st.pos), st.line + 1, 1, false));
      } else {
        SkipBlanksFlag(s, st.(pos := st.pos + 1, col := st.col + 1));
        LineEndBehind(s, st.pos, w.pos);
      }
    }
  }

  lemma LineEndBehind(s: string, a: nat, b: nat)
    requires a < b <= |s| && !IsLineEnd(s[a])
    ensures LineEndIn(s, a, b) <==> LineEndIn(s, a + 1, b)
  {
    if LineEndIn(s, a, b) {
      var m :| a <= m < b && 0 <= m < |s| && IsLineEnd(s[m]);
      assert m != a;
    }
    if LineEndIn(s, a + 1, b) {
      var m :| a + 1 <= m < b && 0 <= m < |s| && IsLineEnd(s[m]);
    }
  }

  /** The next token is what stands at its first byte; it is at the start of a line unless something was before the
      state on its line. */
  lemma {:induction false} NextIsTokenFrom(s: string, st: State)
    requires st.pos <= |s| && Next(s, st).token.kind != EndOfFile
    ensures var r := Next(s, st);
            var atLineStart := !st.lineHasNonWhitespace || LineEndIn(s, st.pos, r.start);
            && r.start < |s| && !IsBlank(s[r.start]) && !IsUnknown(s, r.start)
            && var e := TokenFrom(s, r.start, atLineStart);
               && r.token.kind == e.kind && r.token.literal == e.literal && r.after.pos == e.end
               && r.after.lineHasNonWhitespace
    decreases |s| - st.pos
  {
    hide SkipBlanks, TokenFrom, IsUnknown, Next, LineEndIn;
    NextCases(s, st);
    SkipBlanksFlag(s, st);
    var w := SkipBlanks(s, st);
    if IsUnknown(s, w.pos) {
      var past := w.(pos := w.pos + 1, col := w.col + 1);
      NextIsTokenFrom(s, past);
      UnknownIsNoLineEnd(s, w.pos);
      LineEndApart(s, st.pos, w.pos, Next(s, st).start);
    }
  }

  lemma LineEndApart(s: string, a: nat, w: nat, b: nat)
    requires a <= w < b <= |s| && !IsLineEnd(s[w])
    ensures LineEndIn(s, a, b) <==> LineEndIn(s, a, w) || LineEndIn(s, w + 1, b)
  {
    if LineEndIn(s, a, b) {
      var m :| a <= m < b && 0 <= m < |s| && IsLineEnd(s[m]);
      assert m != w;
      assert m < w ==> LineEndIn(s, a, w);
      assert m > w ==> LineEndIn(s, w + 1, b);
    }
    if LineEndIn(s, a, w) {
      var m :| a <= m < w && 0 <= m < |s| && IsLineEnd(s[m]);
    }
    if LineEndIn(s, w + 1, b) {
      var m :| w + 1 <= m < b && 0 <= m < |s| && IsLineEnd(s[m]);
    }
  }

  lemma {:induction false} DrainedFrom(s: string, st: State, k: nat)
    requires st.pos <= |s| && k < |Drain(s, st)|
    ensures var before := if k == 0 then st else Drain(s, st)[k - 1].after;
            before.pos <= |s| && Drain(s, st)[k] == Next(s, before) && Next(s, before).token.kind != EndOfFile
    decreases k
  {
    hide Next;
    if k > 0 {
      DrainedFrom(s, Next(s, st).after, k - 1);
    }
  }

  /** Token k is on a fresh line if it is the first, or a line end stands between it and the token before. */
  predicate OnFreshLine(s: string, lexed: seq<Lexed>, k: nat)
    requires k < |lexed|
  {
    k == 0 || LineEndIn(s, lexed[k - 1].after.pos, lexed[k].start)
  }

  /** In a source every token is decided by its bytes and by whether a token stands before it on the line: a comment
      is a star on a fresh line, or a slash and a star anywhere. */
  lemma DrainedByBytes(s: string, k: nat)
    requires k < |Drain(s, START)|
    ensures var r, i := Drain(s, START)[k], Drain(s, START)[k].start;
            && i < r.after.pos <= |s| && !IsBlank(s[i]) && !IsUnknown(s, i)
            && TokenFrom(s, i, OnFreshLine(s, Drain(s, START), k)) == Extent(r.token.kind, r.after.pos, r.token.literal)
            && (r.token.kind == Comment <==>
                 || (s[i] == '*' && OnFreshLine(s, Drain(s, START), k))
                 || (s[i] == '/' && i + 1 < |s| && s[i + 1] == '*'))
  {
    hide Drain, TokenFrom, LineEndIn, IsUnknown, Next, IsBlank;
    var drained := Drain(s, START);
    DrainedFrom(s, START, k);
    if k > 0 {
      FlagBehind(s, k - 1);
      NextIsTokenFrom(s, drained[k - 1].after);
    } else {
      NextIsTokenFrom(s, START);
    }
    FirstByteDecides(s, drained[k].start, OnFreshLine(s, drained, k));
  }

  lemma FlagBehind(s: string, k: nat)
    requires k < |Drain(s, START)|
    ensures Drain(s, START)[k].after.lineHasNonWhitespace
  {
    hide Drain, Next, TokenFrom;
    DrainedFrom(s, START, k);
    NextIsTokenFrom(s, if k == 0 then START else Drain(s, START)[k - 1].after);
  }
}
