/** The relative token stream of Language Server Protocol 3.17, section "Semantic Tokens"
    (`encodeSemanticTokens` in internal/server/semantic_tokens.go). */
module TokenWire {
  import opened Model
  import opened Utf
  import opened Positions

  datatype TokenType =
    | Keyword | Comment | StringLiteral | Number | Operator
    | Variable | Parameter | Function | TypeName | Property
    | Unknown

  datatype SemanticToken = SemanticToken(range: Range, tokenType: TokenType, modifiers: nat)

  datatype Entry = Entry(line: int, startChar: nat, length: nat, typeIndex: nat, modifiers: nat)

  /** The position in the legend; unknown types have none and are skipped. */
  function TypeIndex(t: TokenType): Option<nat> {
    match t
    case Keyword => Some(0)
    case Comment => Some(1)
    case StringLiteral => Some(2)
    case Number => Some(3)
    case Operator => Some(4)
    case Variable => Some(5)
    case Parameter => Some(6)
    case Function => Some(7)
    case TypeName => Some(8)
    case Property => Some(9)
    case Unknown => None
  }

  /** The numbers on the wire are the places of the ten kinds in the announced legend. */
  lemma LegendPlaces(t: TokenType)
    ensures TypeIndex(t) == None <==> t == Unknown
    ensures var legend := [Keyword, Comment, StringLiteral, Number, Operator, Variable, Parameter, Function, TypeName,
                            Property];
            TypeIndex(t).Some? ==> TypeIndex(t).value < |legend| && legend[TypeIndex(t).value] == t
  {
  }

  /** Units from `start` to the exclusive `end`; bytes past the line end count one unit each. */
  function SpanUnits(text: string, start: nat, end: int, enc: Encoding): nat
    requires start <= |text|
  {
    if enc == Utf8 then
      if end < start then 0 else Uint32(end - start)
    else
      var clipped := if end > |text| then |text| else end;
      var spanEnd := if clipped < start then start else clipped;
      Uint32(Units(text[start..spanEnd]) + if end > spanEnd then end - spanEnd else 0)
  }

  function SingleLine(tok: SemanticToken, index: nat, content: string, enc: Encoding): Entry {
    var line := tok.range.start.line - 1;
    var text := LineText(content, line);
    var start := Clamp(tok.range.start.column - 1, |text|);
    Entry(line, CharacterAt(text, start, enc), SpanUnits(text, start, tok.range.end.column, enc), index, tok.modifiers)
  }

  function FirstLine(tok: SemanticToken, index: nat, content: string, enc: Encoding): Entry {
    var line := tok.range.start.line - 1;
    var text := LineText(content, line);
    var start := CharacterAt(text, tok.range.start.column - 1, enc);
    Entry(line, start, Uint32(CharacterAt(text, |text|, enc) - start), index, tok.modifiers)
  }

  function WholeLine(line: int, tok: SemanticToken, index: nat, content: string, enc: Encoding): Entry {
    var text := LineText(content, line);
    Entry(line, 0, CharacterAt(text, |text|, enc), index, tok.modifiers)
  }

  function LastLineEntry(tok: SemanticToken, index: nat, content: string, enc: Encoding): Entry {
    var line := tok.range.end.line - 1;
    Entry(line, 0, CharacterAt(LineText(content, line), tok.range.end.column, enc), index, tok.modifiers)
  }

  function MiddleLines(first: int, past: int, tok: SemanticToken, index: nat, content: string,
      enc: Encoding): (r: seq<Entry>)
    ensures |r| == if first < past then past - first else 0
    ensures forall k :: 0 <= k < |r| ==> r[k] == WholeLine(first + k, tok, index, content, enc)
    decreases past - first
  {
    if first >= past then []
    else MiddleLines(first, past - 1, tok, index, content, enc) + [WholeLine(past - 1, tok, index, content, enc)]
  }

  /** One entry per line the token covers. */
  function Split(tok: SemanticToken, content: string, enc: Encoding): seq<Entry> {
    var index := TypeIndex(tok.tokenType);
    if index.None? then []
    else if tok.range.start.line == tok.range.end.line then [SingleLine(tok, index.value, content, enc)]
    else
      [FirstLine(tok, index.value, content, enc)]
        + MiddleLines(tok.range.start.line, tok.range.end.line - 1, tok, index.value, content, enc)
        + [LastLineEntry(tok, index.value, content, enc)]
  }

  function SplitAll(tokens: seq<SemanticToken>, content: string, enc: Encoding): seq<Entry> {
    if tokens == [] then []
    else SplitAll(tokens[..|tokens| - 1], content, enc) + Split(tokens[|tokens| - 1], content, enc)
  }

  // ----- What an entry covers -----

  /** The range lies on existing lines and starts and ends on code-point boundaries. */
  ghost predicate WellFormed(r: Range, content: string) {
    && |content| < UINT32
    && 1 <= r.start.line <= r.end.line <= |Lines(content)|
    && 1 <= r.start.column && IsBoundary(LineText(content, r.start.line - 1), r.start.column - 1)
    && 0 <= r.end.column && IsBoundary(LineText(content, r.end.line - 1), r.end.column)
    && (r.start.line == r.end.line ==> r.start.column - 1 <= r.end.column)
  }

  lemma DecodeOfSuffix(s: string, a: nat, i: nat)
    requires a + i < |s|
    ensures Decode(s[a..], i) == Decode(s, a + i)
  {
    var t := s[a..];
    assert forall k: nat :: a + k < |s| ==> t[k] == s[a + k];
  }

  lemma {:induction false} UnitsOfSuffix(s: string, a: nat, i: nat)
    requires a + i <= |s|
    ensures UnitsFrom(s[a..], i) == UnitsFrom(s, a + i)
    decreases |s| - i
  {
    hide Decode;
    if a + i < |s| {
      DecodeOfSuffix(s, a, i);
      UnitsOfSuffix(s, a, i + Decode(s, a + i).width);
    }
  }

  /** Units between two boundaries are the units of the bytes between them. */
  lemma UnitsOfSlice(s: string, a: nat, b: nat)
    requires IsBoundary(s, a) && IsBoundary(s, b) && a <= b
    ensures b <= |s| && Units(s[a..b]) == UnitsBefore(s, b) - UnitsBefore(s, a)
  {
    hide Decode, UnitsFrom, UnitsBetween, Reaches;
    BoundaryInRange(s, 0, b);
    BoundariesAreOrdered(s, 0, a, b);
    assert s[a..b] == s[..b][a..];
    UnitsOfSuffix(s[..b], a, 0);
    UnitsOfPrefix(s, a, b);
    UnitsAdd(s, 0, a, b);
  }

  lemma CharacterIsExact(s: string, i: nat, enc: Encoding)
    requires |s| < UINT32 && IsBoundary(s, i)
    ensures i <= |s|
    ensures CharacterAt(s, i, enc) == if enc == Utf8 then i else UnitsBefore(s, i)
  {
    hide Decode;
    CharacterAtBoundary(s, i);
    UnitsAtMostBytes(s, 0, i);
  }

  /** On its line a well-formed single-line token covers exactly the characters from its start to its end. */
  lemma SingleLineCovers(tok: SemanticToken, index: nat, content: string, enc: Encoding)
    requires WellFormed(tok.range, content) && tok.range.start.line == tok.range.end.line
    ensures var e, text := SingleLine(tok, index, content, enc), LineText(content, tok.range.start.line - 1);
            && e.startChar == CharacterAt(text, tok.range.start.column - 1, enc)
            && e.startChar + e.length == CharacterAt(text, tok.range.end.column, enc)
  {
    hide LinesFrom, Decode, UnitsFrom, UnitsBetween, Reaches;
    LinesAreShort(content, 0);
    var text := LineText(content, tok.range.start.line - 1);
    var a, b := tok.range.start.column - 1, tok.range.end.column;
    CharacterIsExact(text, a, enc);
    CharacterIsExact(text, b, enc);
    UnitsOfSlice(text, a, b);
    UnitsAtMostBytes(text, 0, b);
  }

  /** The first line's length does not underflow: it reaches from the token's start to the end of the line. */
  lemma FirstLineCovers(tok: SemanticToken, index: nat, content: string, enc: Encoding)
    requires WellFormed(tok.range, content)
    ensures var e, text := FirstLine(tok, index, content, enc), LineText(content, tok.range.start.line - 1);
            && e.startChar == CharacterAt(text, tok.range.start.column - 1, enc)
            && e.startChar + e.length == CharacterAt(text, |text|, enc)
  {
    hide LinesFrom, Decode, UnitsFrom, UnitsBetween, Reaches;
    LinesAreShort(content, 0);
    var text := LineText(content, tok.range.start.line - 1);
    var a := tok.range.start.column - 1;
    EndIsBoundary(text, 0);
    CharacterIsExact(text, a, enc);
    CharacterIsExact(text, |text|, enc);
    UnitsOfSlice(text, a, |text|);
  }

  /** Where a token starts and ends on the k-th of the lines it covers. */
  function CoverStart(r: Range, content: string, k: nat, enc: Encoding): nat {
    if k == 0 then CharacterAt(LineText(content, r.start.line - 1), r.start.column - 1, enc) else 0
  }

  function CoverEnd(r: Range, content: string, k: nat, enc: Encoding): nat {
    var text := LineText(content, r.start.line - 1 + k);
    CharacterAt(text, if r.start.line + k == r.end.line then r.end.column else |text|, enc)
  }

  /** Entry e spans exactly the token's characters on the k-th of its lines. */
  ghost predicate CoversLine(e: Entry, tok: SemanticToken, content: string, k: nat, enc: Encoding) {
    && e.line == tok.range.start.line - 1 + k
    && e.startChar == CoverStart(tok.range, content, k, enc)
    && e.startChar + e.length == CoverEnd(tok.range, content, k, enc)
    && Some(e.typeIndex) == TypeIndex(tok.tokenType) && e.modifiers == tok.modifiers
  }

  lemma MultiLineCovers(tok: SemanticToken, index: nat, content: string, k: nat, enc: Encoding)
    requires WellFormed(tok.range, content) && TypeIndex(tok.tokenType) == Some(index)
    requires tok.range.start.line + k <= tok.range.end.line && tok.range.start.line < tok.range.end.line
    ensures k == 0 ==> CoversLine(FirstLine(tok, index, content, enc), tok, content, k, enc)
    ensures 0 < k ==> tok.range.start.line + k < tok.range.end.line ==>
              CoversLine(WholeLine(tok.range.start.line + k - 1, tok, index, content, enc), tok, content, k, enc)
    ensures tok.range.start.line + k == tok.range.end.line ==>
              CoversLine(LastLineEntry(tok, index, content, enc), tok, content, k, enc)
  {
    hide WellFormed, LineText, CharacterAt, SpanUnits, Uint32, TypeIndex, SingleLine;
    FirstLineCovers(tok, index, content, enc);
  }

  lemma OneLineCovers(tok: SemanticToken, index: nat, content: string, enc: Encoding)
    requires WellFormed(tok.range, content) && TypeIndex(tok.tokenType) == Some(index)
    requires tok.range.start.line == tok.range.end.line
    ensures CoversLine(SingleLine(tok, index, content, enc), tok, content, 0, enc)
  {
    hide WellFormed, LineText, CharacterAt, SpanUnits, Uint32, TypeIndex;
    SingleLineCovers(tok, index, content, enc);
  }

  /** A well-formed token of a known type yields one entry per line it covers, in line order, and each entry spans
      exactly the token's characters on that line: nothing underflows. */
  lemma SplitCoversToken(tok: SemanticToken, content: string, enc: Encoding)
    requires WellFormed(tok.range, content) && tok.tokenType != Unknown
    ensures |Split(tok, content, enc)| == tok.range.end.line - tok.range.start.line + 1
    ensures forall k :: 0 <= k < |Split(tok, content, enc)| ==>
              CoversLine(Split(tok, content, enc)[k], tok, content, k, enc)
  {
    hide WellFormed, CoversLine, SingleLine, FirstLine, WholeLine, LastLineEntry, MiddleLines;
    var index := TypeIndex(tok.tokenType).value;
    var r := Split(tok, content, enc);
    OnExistingLines(tok.range, content);
    forall k | 0 <= k < |r| ensures CoversLine(r[k], tok, content, k, enc) {
      if tok.range.start.line == tok.range.end.line {
        OneLineCovers(tok, index, content, enc);
      } else {
        MultiLineCovers(tok, index, content, k, enc);
      }
    }
  }

  lemma OnExistingLines(r: Range, content: string)
    requires WellFormed(r, content)
    ensures 1 <= r.start.line <= r.end.line
  {
  }

  // ----- The in-place sort -----

  predicate Before(a: Entry, b: Entry) {
    a.line < b.line || (a.line == b.line && a.startChar < b.startChar)
  }

  ghost predicate InOrder(s: seq<Entry>) {
    forall i, j :: 0 <= i < j < |s| ==> !Before(s[j], s[i])
  }

  ghost predicate IsPermutation(s: seq<Entry>, t: seq<Entry>) {
    multiset(s) == multiset(t)
  }

  lemma SwapKeepsPermutation(s: seq<Entry>, t: seq<Entry>, i: nat, j: nat)
    requires i < j < |s| && IsPermutation(s, t)
    ensures IsPermutation(Swap(s, i, j), t)
  {
  }

  /** Nothing after one of the first i entries comes before it. */
  ghost predicate Settled(s: seq<Entry>, i: nat) {
    forall p, q :: 0 <= p < i && p < q < |s| ==> !Before(s[q], s[p])
  }

  /** Nothing in the range (i, j) comes before entry i. */
  ghost predicate LeastSoFar(s: seq<Entry>, i: nat, j: nat)
    requires i < |s| && j <= |s|
  {
    forall q :: i < q < j ==> !Before(s[q], s[i])
  }

  lemma SwapSettles(s: seq<Entry>, i: nat, j: nat)
    requires i < j < |s| && Settled(s, i) && LeastSoFar(s, i, j) && Before(s[j], s[i])
    ensures Settled(Swap(s, i, j), i) && LeastSoFar(Swap(s, i, j), i, j + 1)
  {
    var t := Swap(s, i, j);
    forall p, q | 0 <= p < i && p < q < |t| ensures !Before(t[q], t[p]) {
      assert !Before(s[if q == i then j else if q == j then i else q], s[p]);
    }
  }

  lemma RoundSettles(s: seq<Entry>, i: nat)
    requires i < |s| && Settled(s, i) && LeastSoFar(s, i, |s|)
    ensures Settled(s, i + 1)
  {
  }

  lemma AllSettled(s: seq<Entry>)
    requires Settled(s, |s|)
    ensures InOrder(s)
  {
  }

  function Swap(s: seq<Entry>, i: nat, j: nat): (r: seq<Entry>)
    requires i < j < |s|
    ensures |r| == |s|
  {
    s[i := s[j]][j := s[i]]
  }

  /** What the two nested loops do from the comparison of entries i and j on. */
  function Exchanged(s: seq<Entry>, i: nat, j: nat): (r: seq<Entry>)
    requires i < j
    ensures |r| == |s|
    decreases |s| - i, |s| - j
  {
    if i >= |s| then s
    else if j >= |s| then Exchanged(s, i + 1, i + 2)
    else Exchanged(if Before(s[j], s[i]) then Swap(s, i, j) else s, i, j + 1)
  }

  lemma RoundStarts(s: seq<Entry>, i: nat)
    requires i < |s|
    ensures LeastSoFar(s, i, i + 1)
  {
  }

  lemma RoundEnds(s: seq<Entry>, i: nat)
    ensures i < |s| ==> Exchanged(s, i, |s|) == Exchanged(s, i + 1, i + 2)
    ensures i >= |s| ==> Exchanged(s, i, i + 1) == s
  {
  }

  lemma Compared(s: seq<Entry>, i: nat, j: nat)
    requires i < j < |s|
    ensures Exchanged(s, i, j) == Exchanged(if Before(s[j], s[i]) then Swap(s, i, j) else s, i, j + 1)
    ensures LeastSoFar(s, i, j) && !Before(s[j], s[i]) ==> LeastSoFar(s, i, j + 1)
  {
  }

  lemma SwapIs(t: seq<Entry>, s: seq<Entry>, i: nat, j: nat)
    requires i < j < |s| && t == s[i := s[j]][j := s[i]]
    ensures t == Swap(s, i, j)
  {
  }

  /** Exchange sort, in place: sorted, a permutation, and exactly what the loops make of the old contents. */
  method SortEntries(a: array<Entry>)
    modifies a
    ensures InOrder(a[..])
    ensures IsPermutation(a[..], old(a[..]))
    ensures a[..] == Exchanged(old(a[..]), 0, 1)
  {
    ghost var was := a[..];
    assert IsPermutation(a[..], was) && Settled(a[..], 0);
    hide IsPermutation, Settled, Before, InOrder, LeastSoFar, Exchanged, Swap;
    for i := 0 to a.Length
      invariant IsPermutation(a[..], was) && Settled(a[..], i)
      invariant Exchanged(a[..], i, i + 1) == Exchanged(was, 0, 1)
    {
      RoundStarts(a[..], i);
      for j := i + 1 to a.Length
        invariant IsPermutation(a[..], was) && Settled(a[..], i) && LeastSoFar(a[..], i, j)
        invariant Exchanged(a[..], i, j) == Exchanged(was, 0, 1)
      {
        ghost var s := a[..];
        Compared(s, i, j);
        if Before(a[j], a[i]) {
          SwapKeepsPermutation(s, was, i, j);
          SwapSettles(s, i, j);
          a[i], a[j] := a[j], a[i];
          SwapIs(a[..], s, i, j);
        }
      }
      RoundSettles(a[..], i);
      RoundEnds(a[..], i);
    }
    AllSettled(a[..]);
    RoundEnds(a[..], a.Length);
  }

  // ----- The delta stream -----

  function Deltas(entries: seq<Entry>, prevLine: int, prevChar: nat): seq<nat> {
    if entries == [] then []
    else
      Delta(entries[0], prevLine, prevChar) + Deltas(entries[1..], entries[0].line, entries[0].startChar)
  }

  /** The client's reading: a line delta, and a start relative to the previous token only on the same line. */
  function Undelta(data: seq<nat>, prevLine: int, prevChar: nat): seq<Entry>
    requires |data| % 5 == 0
    decreases |data|
  {
    if data == [] then []
    else
      var line := prevLine + data[0];
      var start := if data[0] == 0 then prevChar + data[1] else data[1];
      [Entry(line, start, data[2], data[3], data[4])] + Undelta(data[5..], line, start)
  }

  predicate Fits(e: Entry) {
    0 <= e.line < UINT32 && e.startChar < UINT32
  }

  lemma {:induction false} UndeltaInverts(entries: seq<Entry>, prevLine: int, prevChar: nat)
    requires InOrder(entries) && forall e :: e in entries ==> Fits(e)
    requires entries != [] ==>
               entries[0].line > prevLine || (entries[0].line == prevLine && entries[0].startChar >= prevChar)
    requires prevLine >= 0
    ensures |Deltas(entries, prevLine, prevChar)| == 5 * |entries|
    ensures Undelta(Deltas(entries, prevLine, prevChar), prevLine, prevChar) == entries
  {
    if entries != [] {
      hide Uint32;
      var e, rest := entries[0], entries[1..];
      assert entries == [e] + rest && e in entries;
      if rest != [] {
        assert !Before(entries[1], entries[0]);
      }
      UndeltaInverts(rest, e.line, e.startChar);
      var data := Deltas(entries, prevLine, prevChar);
      assert data[5..] == Deltas(rest, e.line, e.startChar);
    }
  }

  /** The five numbers sent for one entry. */
  function Delta(e: Entry, prevLine: int, prevChar: nat): seq<nat> {
    [Uint32(e.line - prevLine), if e.line == prevLine then Uint32(e.startChar - prevChar) else e.startChar,
     e.length, e.typeIndex, e.modifiers]
  }

  lemma DeltaStep(entries: seq<Entry>, i: nat, prevLine: int, prevChar: nat, sent: seq<nat>)
    requires i < |entries|
    ensures sent + Deltas(entries[i..], prevLine, prevChar)
         == sent + Delta(entries[i], prevLine, prevChar)
           + Deltas(entries[i + 1..], entries[i].line, entries[i].startChar)
  {
    assert entries[i..][1..] == entries[i + 1..];
    hide Uint32;
  }

  method EncodeDeltas(entries: seq<Entry>) returns (data: seq<nat>)
    ensures data == Deltas(entries, 0, 0)
  {
    hide Deltas;
    data := [];
    var prevLine: int, prevStartChar := 0, 0;
    assert entries[0..] == entries && [] + Deltas(entries, 0, 0) == Deltas(entries, 0, 0);
    for i := 0 to |entries|
      invariant data + Deltas(entries[i..], prevLine, prevStartChar) == Deltas(entries, 0, 0)
    {
      DeltaStep(entries, i, prevLine, prevStartChar, data);
      var e := entries[i];
      var deltaLine := Uint32(e.line - prevLine);
      var deltaStartChar := if e.line == prevLine then Uint32(e.startChar - prevStartChar) else e.startChar;
      data := data + [deltaLine, deltaStartChar, e.length, e.typeIndex, e.modifiers];
      prevLine, prevStartChar := e.line, e.startChar;
    }
    NoDeltas(prevLine, prevStartChar);
    assert entries[|entries|..] == [] && data + [] == data;
  }

  lemma NoDeltas(prevLine: int, prevChar: nat)
    ensures Deltas([], prevLine, prevChar) == []
  {
  }

  /** The stream of some sorted permutation of the split entries. */
  ghost predicate IsEncoding(data: seq<nat>, entries: seq<Entry>, tokens: seq<SemanticToken>, content: string,
      enc: Encoding) {
    InOrder(entries) && IsPermutation(entries, SplitAll(tokens, content, enc)) && data == Deltas(entries, 0, 0)
  }

  /** The lines are counted from 1 and fit the wire; where the columns lie, or whether the lines exist, does not
      matter. */
  predicate LinesFit(r: Range) {
    1 <= r.start.line <= r.end.line <= UINT32
  }

  predicate AllLinesFit(tokens: seq<SemanticToken>) {
    forall t :: t in tokens ==> LinesFit(t.range)
  }

  method SplitTokens(tokens: seq<SemanticToken>, content: string, enc: Encoding) returns (all: seq<Entry>)
    ensures all == SplitAll(tokens, content, enc)
  {
    hide Split;
    all := [];
    for i := 0 to |tokens|
      invariant all == SplitAll(tokens[..i], content, enc)
    {
      assert tokens[..i + 1][..i] == tokens[..i];
      all := all + Split(tokens[i], content, enc);
    }
    assert tokens[..|tokens|] == tokens;
  }

  /** The whole encoder.  A client decoding the stream gets exactly the per-line entries of all tokens, sorted. */
  method EncodeSemanticTokens(tokens: seq<SemanticToken>, content: string, enc: Encoding) returns (data: seq<nat>)
    ensures exists entries :: IsEncoding(data, entries, tokens, content, enc)
    ensures AllLinesFit(tokens) ==>
              |data| % 5 == 0 && InOrder(Undelta(data, 0, 0))
                && IsPermutation(Undelta(data, 0, 0), SplitAll(tokens, content, enc))
  {
    hide Split, SplitAll, Deltas, Undelta, LinesFit, InOrder, LinesFrom, LineText;
    var all := SplitTokens(tokens, content, enc);
    var a := new Entry[|all|](k requires 0 <= k < |all| => all[k]);
    assert a[..] == all;
    SortEntries(a);
    data := EncodeDeltas(a[..]);
    assert IsEncoding(data, a[..], tokens, content, enc);
    if AllLinesFit(tokens) {
      StreamDecodes(tokens, content, enc, a[..]);
    }
  }

  lemma {:induction false} SplitsFit(tokens: seq<SemanticToken>, content: string, enc: Encoding)
    requires AllLinesFit(tokens)
    ensures forall e :: e in SplitAll(tokens, content, enc) ==> Fits(e)
  {
    hide LineText, CharacterAt, SpanUnits, Lines;
    if tokens != [] {
      var n := |tokens| - 1;
      SplitsFit(tokens[..n], content, enc);
      var tok := tokens[n];
      assert tok in tokens;
      SplitFits(tok, content, enc);
    }
  }

  lemma SplitFits(tok: SemanticToken, content: string, enc: Encoding)
    requires LinesFit(tok.range)
    ensures forall e :: e in Split(tok, content, enc) ==> Fits(e)
  {
    hide LinesFrom, SpanUnits, IsBoundary, Units;
  }

  /** Decoding the stream gives back the per-line entries of all tokens: nothing is lost, repeated, wrapped or
      out of order. */
  lemma StreamDecodes(tokens: seq<SemanticToken>, content: string, enc: Encoding, entries: seq<Entry>)
    requires AllLinesFit(tokens)
    requires InOrder(entries) && IsPermutation(entries, SplitAll(tokens, content, enc))
    ensures |Deltas(entries, 0, 0)| % 5 == 0
    ensures Undelta(Deltas(entries, 0, 0), 0, 0) == entries
  {
    hide LinesFit, SplitAll;
    SplitsFit(tokens, content, enc);
    PermutationMembers(entries, SplitAll(tokens, content, enc));
    assert entries != [] ==> entries[0] in entries;
    UndeltaInverts(entries, 0, 0);
  }

  lemma PermutationMembers(s: seq<Entry>, t: seq<Entry>)
    requires IsPermutation(s, t)
    ensures forall e :: e in s ==> e in t
  {
    forall e | e in s ensures e in t {
      assert e in multiset(s);
    }
  }
}
