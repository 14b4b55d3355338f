/** The syntax tree and the keyword sets of the parser (internal/analysis/natural/parser.go, ast.go). */
module Syntax {
  import opened Model
  import opened SourceLines
  import opened Lexer
  import opened Text

  datatype NodeKind =
    | DataSection | Subroutine | Map | WorkFile
    | Call | Perform | Include | Fetch | Run | Read | ReadResultSet | Find | Get | Store
    | Commit | Rollback | CallDBProc | Select | SelectSingle | Insert
    | SQLUpdate | RecordUpdate | SQLDelete | RecordDelete | Merge | ProcessSQL

  datatype Clause = Using | RunLibrary | Columns | Into | From | Where | Values | Table | SetTargets

  /** A name captured from a clause. */
  datatype Operand = Operand(clause: Clause, name: string, at: Position, hostVar: bool)

  datatype Field = Field(level: int, name: string, redefines: string, typeSpec: string, viewOf: string, start: Position)

  /** One node of any kind.  A program keeps its nodes in one sequence in the order they were appended; the source's
      slice per kind is the subsequence of that kind, and its list per clause that of a clause. */
  datatype Node = Node(kind: NodeKind, start: Position, end: Position, name: string, text: string,
                       operands: seq<Operand>, fields: seq<Field>, body: seq<Node>)

  class Program {
    var nodes: seq<Node>

    constructor ()
      ensures nodes == []
    {
      nodes := [];
    }
  }

  /** The syntax diagnostics, one constructor a message. */
  datatype Problem =
    | UnterminatedString
    | MissingTarget(statement: NodeKind)
    | WorkWithoutFile | MissingFileNumber | FileNumberNotInteger | MissingFileName
    | UnterminatedLoop(loop: NodeKind)
    | MissingSQL | MissingDDMName | DDMNameNotIdentifier | MissingSpan | UnterminatedSpan

  datatype Diag = Diag(problem: Problem, range: Range)

  function Leaf(kind: NodeKind, start: Position, end: Position, name: string): Node {
    Node(kind, start, end, name, "", [], [], [])
  }

  /** The node without its end, which depends on what was skipped behind it. */
  function Bare(n: Node): Node {
    n.(end := n.start, body := BareAll(n.body))
  }

  function BareAll(nodes: seq<Node>): (r: seq<Node>)
    ensures |r| == |nodes| && forall i :: 0 <= i < |r| ==> r[i] == Bare(nodes[i])
  {
    seq(|nodes|, i requires 0 <= i < |nodes| => Bare(nodes[i]))
  }

  // ----- Keyword sets -----

  predicate IsStatementKeyword(literal: string) {
    literal in {
      "DEFINE", "CALLNAT", "PERFORM", "INCLUDE", "FETCH", "RUN", "READ", "FIND", "FINDNAT", "STORE",
      "GET", "COMMIT", "ROLLBACK", "CALLDBPROC", "SELECT", "INSERT", "UPDATE", "DELETE", "MERGE", "PROCESS"
    }
  }

  predicate IsProgramBoundary(literal: string) {
    literal in {"END", "END-DEFINE"}
  }

  predicate IsLoopTerminator(literal: string) {
    literal in {"END-SELECT", "LOOP", "END-RESULT"}
  }

  predicate IsSectionKeyword(literal: string) {
    literal in {"LOCAL", "PARAMETER", "GLOBAL", "LINKAGE", "INDEPENDENT", "CONTEXT", "OBJECT"}
  }

  predicate StartsStatement(tok: Token) {
    tok.kind == Keyword && IsStatementKeyword(tok.literal)
  }

  predicate StopsSelect(tok: Token) {
    tok.literal in {"END-SELECT", "LOOP"} || IsProgramBoundary(tok.literal) || StartsStatement(tok)
  }

  predicate IsName(tok: Token) {
    tok.kind == Identifier || tok.kind == Keyword
  }

  // ----- The stop sets of the skip helpers -----

  datatype StopSet = NextStatement | LoopBody | SQLClause

  predicate Stops(stops: StopSet, tok: Token) {
    match stops
    case NextStatement =>
      tok.kind == Keyword
        && (IsStatementKeyword(tok.literal) || IsLoopTerminator(tok.literal) || IsProgramBoundary(tok.literal))
    case LoopBody => StartsStatement(tok) || IsLoopTerminator(tok.literal)
    case SQLClause =>
      || tok.literal in {"END-SELECT", "LOOP"} || IsProgramBoundary(tok.literal) || StartsStatement(tok)
      || tok.literal in {"GROUP", "HAVING", "ORDER", "WHERE", "FROM", "INTO"}
  }

  /** The first token from the current one on that is in the stop set or the end, and the lexer behind it. */
  function SkipTo(s: string, current: Token, st: State, stops: StopSet): (r: (Token, State))
    requires st.pos <= |s|
    ensures r.1.pos <= |s|
    ensures r.0.kind == EndOfFile || Stops(stops, r.0)
    decreases 2 * (|s| - st.pos) + if current.kind == EndOfFile then 0 else 1
  {
    if current.kind == EndOfFile || Stops(stops, current) then (current, st)
    else
      var next := Next(s, st);
      SkipTo(s, next.token, next.after, stops)
  }

  // ----- Optional parts before a target -----

  /** The current token and the lexer behind it. */
  datatype Cursor = Cursor(token: Token, lexer: State)

  function Step(s: string, c: Cursor): (r: Cursor)
    requires c.lexer.pos <= |s|
    ensures c.lexer.pos <= r.lexer.pos <= |s|
    ensures r.token.kind != EndOfFile ==> c.lexer.pos < r.lexer.pos
  {
    Cursor(Next(s, c.lexer).token, Next(s, c.lexer).after)
  }

  /** Something read, and the cursor behind it. */
  datatype Taken<T> = Taken(value: T, after: Cursor)

  /** What was read before comes first. */
  function Joined<T>(before: seq<T>, rest: Taken<seq<T>>): Taken<seq<T>> {
    rest.(value := before + rest.value)
  }

  /** The measure of a cursor: unread bytes, and the current token. */
  function Ahead(s: string, c: Cursor): int {
    2 * (|s| - c.lexer.pos) + if c.token.kind == EndOfFile then 0 else 1
  }

  /** The cursor has not moved back. */
  predicate Moved(s: string, c: Cursor, after: Cursor) {
    after.lexer.pos <= |s| && Ahead(s, after) <= Ahead(s, c)
  }

  lemma {:induction false} SkipToMoves(s: string, current: Token, st: State, stops: StopSet)
    requires st.pos <= |s|
    ensures var r := SkipTo(s, current, st, stops); Moved(s, Cursor(current, st), Cursor(r.0, r.1))
    decreases Ahead(s, Cursor(current, st))
  {
    hide Stops;
    if current.kind != EndOfFile && !Stops(stops, current) {
      var next := Step(s, Cursor(current, st));
      SkipToMoves(s, next.token, next.lexer, stops);
    }
  }

  /** Behind the rest of the statement. */
  function Rest(s: string, c: Cursor): (r: Cursor)
    requires c.lexer.pos <= |s|
    ensures Moved(s, c, r)
  {
    SkipToMoves(s, c.token, c.lexer, NextStatement);
    var stop := SkipTo(s, c.token, c.lexer, NextStatement);
    Cursor(stop.0, stop.1)
  }

  predicate IsOpening(tok: Token) {
    tok.kind == Punctuation && tok.literal == "("
  }

  predicate IsClosing(tok: Token) {
    tok.kind == Punctuation && tok.literal == ")"
  }

  lemma JoinedNothing<T>(before: seq<T>, c: Cursor)
    ensures Joined(before, Taken([], c)) == Taken(before, c)
  {
    assert before + [] == before;
  }

  lemma JoinedTwice<T>(a: seq<T>, b: seq<T>, rest: Taken<seq<T>>)
    ensures Joined(a, Joined(b, rest)) == Joined(a + b, rest)
  {
    assert a + (b + rest.value) == a + b + rest.value;
  }

  lemma AfterJoined<T>(before: seq<T>, rest: Taken<seq<T>>)
    ensures Joined(before, rest) == Taken(before + rest.value, rest.after)
  {
  }

  lemma NothingBefore<T>(rest: Taken<seq<T>>)
    ensures Joined([], rest) == rest
  {
    assert [] + rest.value == rest.value;
  }

  predicate Closes(tok: Token) {
    tok.kind == EndOfFile || IsClosing(tok)
  }

  /** The first closing parenthesis or the end. */
  function ParenEnd(s: string, c: Cursor): (r: Cursor)
    requires c.lexer.pos <= |s|
    ensures Moved(s, c, r) && Closes(r.token)
    decreases Ahead(s, c)
  {
    if Closes(c.token) then c else ParenEnd(s, Step(s, c))
  }

  /** Behind the parenthesised run that opens here. */
  function AfterParens(s: string, c: Cursor): (r: Cursor)
    requires c.lexer.pos <= |s|
    ensures Moved(s, c, r)
  {
    var e := ParenEnd(s, Step(s, c));
    if e.token.kind == EndOfFile then e else Step(s, e)
  }

  /** Behind a row limit on the line, if there is one. */
  function AfterRowLimit(s: string, c: Cursor, line: int): (r: Cursor)
    requires c.lexer.pos <= |s|
    ensures Moved(s, c, r)
  {
    if c.token.line == line && IsOpening(c.token) then AfterParens(s, c) else c
  }

  /** Behind one of the words on the line, if there is one. */
  function AfterOptional(s: string, c: Cursor, line: int, words: set<string>): (r: Cursor)
    requires c.lexer.pos <= |s|
    ensures Moved(s, c, r)
  {
    if c.token.line == line && c.token.literal in words then Step(s, c) else c
  }

  /** Behind all of the words on the line. */
  function AfterWords(s: string, c: Cursor, line: int, words: set<string>): (r: Cursor)
    requires c.lexer.pos <= |s| && "" !in words
    ensures Moved(s, c, r)
    decreases Ahead(s, c)
  {
    if c.token.kind != EndOfFile && c.token.line == line && c.token.literal in words then
      AfterWords(s, Step(s, c), line, words)
    else c
  }

  function IdentifierOf(tok: Token): string {
    if tok.kind == Identifier then tok.literal else ""
  }

  /** Where READ goes on when RESULT is not followed by SET: the tokens as they were, the lexer one token further. */
  function Restored(s: string, c: Cursor): (r: Cursor)
    requires c.lexer.pos <= |s|
    ensures Moved(s, c, r)
  {
    if c.token.literal == "RESULT" then Cursor(c.token, Step(s, c).lexer) else c
  }

  predicate IsResultSet(s: string, c: Cursor)
    requires c.lexer.pos <= |s|
  {
    c.token.literal == "RESULT" && Step(s, c).token.literal == "SET"
  }

  predicate OpensBody(tok: Token) {
    tok.kind == Operator && tok.literal == "<"
  }

  /** The opaque span from the `<` on, although the lexer is already past it. */
  function SpanAt(s: string, c: Cursor): (r: Span)
    requires c.lexer.pos <= |s|
    ensures c.lexer.pos <= r.after.pos + 1 && r.after.pos <= |s|
  {
    OpaqueSpan(s, c.lexer.(pos := if c.lexer.pos >= 1 then c.lexer.pos - 1 else 0, line := c.token.line,
                           col := c.token.column))
  }

  /** The opaque body behind the DDM name. */
  function BodyText(s: string, c: Cursor): string
    requires c.lexer.pos <= |s|
  {
    if OpensBody(c.token) then SpanAt(s, c).token.literal else ""
  }

  /** When `<` has been read, the body taken is the source from behind `<<` to the first `>>` or the end, and nothing
      unless another `<` follows directly. */
  lemma {:induction false} BodyIsInterior(s: string, st: State)
    requires st.pos <= |s| && st.col >= 1 && Next(s, st).token.kind == Operator && Next(s, st).token.literal == "<"
    ensures var r := Next(s, st);
            && r.start < |s| && s[r.start] == '<'
            && BodyText(s, Cursor(r.token, r.after)) ==
                 if r.start + 1 < |s| && s[r.start + 1] == '<' then s[r.start + 2..SpanCloseFrom(s, r.start + 2)]
                 else ""
  {
    hide Next, SpanCloseFrom;
    var r := Next(s, st);
    NextMovesOn(s, st);
    OperatorIsSource(s, st);
    assert r.after.pos == r.start + 1 && s[r.start..r.after.pos][0] == s[r.start];
    var opener := r.after.(pos := r.start, line := r.token.line, col := r.token.column);
    assert SkipBlanks(s, opener) == opener;
  }

  // ----- Literals -----

  predicate IsTerminatedString(s: string) {
    |s| >= 2 && s[0] == '\'' && s[|s| - 1] == '\''
  }

  function Unquote(s: string): string {
    if IsTerminatedString(s) then s[1..|s| - 1] else s
  }

  function DigitsValue(s: string): nat {
    if s == "" then 0
    else DigitsValue(s[..|s| - 1]) * 10 + if IsDigit(s[|s| - 1]) then (s[|s| - 1] - '0') as nat else 0
  }

  const MAX_INT := 0x7FFF_FFFF_FFFF_FFFF

  predicate IsPlainInteger(s: string) {
    s != "" && forall i :: 0 <= i < |s| ==> IsDigit(s[i])
  }

  /** `strconv.Atoi` on a numeric literal: zero if it is not a plain integer, the largest integer if it is too large. */
  function Atoi(s: string): int {
    if !IsPlainInteger(s) then 0 else if DigitsValue(s) > MAX_INT then MAX_INT else DigitsValue(s)
  }

  predicate AtoiSucceeds(s: string) {
    IsPlainInteger(s) && DigitsValue(s) <= MAX_INT
  }

  // ----- Source order -----

  /** Each node ends before the next one starts. */
  ghost predicate InSourceOrder(nodes: seq<Node>) {
    forall i, j :: 0 <= i < j < |nodes| ==> Earlier(nodes[i].end, nodes[j].start)
  }

  /** Operands in the order of the source, behind the statement's start. */
  ghost predicate OperandsInOrder(start: Position, operands: seq<Operand>) {
    && (forall i :: 0 <= i < |operands| ==> Earlier(start, operands[i].at))
    && (forall i, j :: 0 <= i < j < |operands| ==> Earlier(operands[i].at, operands[j].at))
  }

  /** A node's span is not empty, its operands and body are in source order behind its start, and each body statement
      starts before the node ends and is itself well placed. */
  ghost predicate WellPlaced(n: Node) {
    && AtOrBefore(n.start, n.end)
    && OperandsInOrder(n.start, n.operands)
    && InSourceOrder(n.body)
    && (forall i :: 0 <= i < |n.body| ==> Earlier(n.start, n.body[i].start) && AtOrBefore(n.body[i].start, n.end))
    && (forall i :: 0 <= i < |n.body| ==> WellPlaced(n.body[i]))
  }

  /** The end lies before the token, which may be the end of the source. */
  predicate EndsBefore(end: Position, current: Token) {
    AtOrBefore(end, Start(current)) && (current.kind != EndOfFile ==> Earlier(end, Start(current)))
  }

  /** Nodes in source order, all behind a position and ending before the current token. */
  ghost predicate Settled(nodes: seq<Node>, from: Position, current: Token) {
    && InSourceOrder(nodes)
    && (forall i :: 0 <= i < |nodes| ==> WellPlaced(nodes[i]))
    && (forall i :: 0 <= i < |nodes| ==> AtOrBefore(from, nodes[i].start))
    && (forall i :: 0 <= i < |nodes| ==> EndsBefore(nodes[i].end, current))
  }

  lemma SettledNone(from: Position, current: Token)
    ensures Settled([], from, current)
  {
  }

  lemma SettledOne(n: Node, from: Position, current: Token)
    requires WellPlaced(n) && AtOrBefore(from, n.start) && EndsBefore(n.end, current)
    ensures Settled([n], from, current)
  {
  }

  lemma NoSectionAtEnd(tok: Token)
    requires IsSectionKeyword(tok.literal)
    ensures tok.literal != ""
  {
  }

  lemma SettledConcat(a: seq<Node>, b: seq<Node>, from: Position, mid: Token, current: Token)
    requires Settled(a, from, mid) && Settled(b, Start(mid), current)
    requires AtOrBefore(from, Start(mid)) && AtOrBefore(Start(mid), Start(current)) && mid.kind != EndOfFile
    ensures Settled(a + b, from, current)
  {
    hide WellPlaced;
  }

  lemma SettledAppend(a: seq<Node>, n: Node, from: Position, mid: Token, current: Token)
    requires Settled(a, from, mid)
    requires AtOrBefore(Start(mid), Start(current)) && mid.kind != EndOfFile
    requires WellPlaced(n) && AtOrBefore(from, n.start) && EndsBefore(n.end, current)
    requires a != [] ==> AtOrBefore(Start(mid), n.start)
    ensures Settled(a + [n], from, current)
  {
    hide WellPlaced;
  }

  /** `strings.ToLower` on a section keyword. */
  function Lowercase(s: string): string {
    seq(|s|, i requires 0 <= i < |s| => if 'A' <= s[i] <= 'Z' then s[i] - 'A' + 'a' else s[i])
  }

  /** Operands gathered before the current token. */
  ghost predicate Gathered(start: Position, operands: seq<Operand>, current: Token) {
    && Earlier(start, Start(current)) && OperandsInOrder(start, operands)
    && (forall i :: 0 <= i < |operands| ==> Earlier(operands[i].at, Start(current)))
  }

  lemma GatheredLater(start: Position, operands: seq<Operand>, mid: Token, current: Token)
    requires Gathered(start, operands, mid) && AtOrBefore(Start(mid), Start(current))
    ensures Gathered(start, operands, current)
  {
  }

  lemma GatheredAppend(start: Position, operands: seq<Operand>, o: Operand, mid: Token, current: Token)
    requires Gathered(start, operands, mid) && o.at == Start(mid) && Earlier(Start(mid), Start(current))
    ensures Gathered(start, operands + [o], current)
  {
  }

  // ----- What each statement can append -----

  /** The operand a token names: the content of a string, the text of an identifier. */
  function TargetOf(tok: Token): string {
    if tok.kind == LiteralString then Unquote(tok.literal) else if tok.kind == Identifier then tok.literal else ""
  }

  predicate OnLine(tok: Token, line: int) {
    tok.kind != EndOfFile && tok.line == line
  }

  predicate HasTarget(tok: Token) {
    tok.kind == LiteralString || tok.kind == Identifier
  }

  /** The name PERFORM takes: PERFORM BREAK is another statement and names nothing. */
  function PerformTarget(tok: Token): string {
    if (tok.kind == Keyword && tok.literal == "BREAK") || !IsName(tok) then "" else tok.literal
  }

  /** The call and record statements. */
  predicate IsCallOrRecord(tok: Token) {
    && tok.kind == Keyword
    && tok.literal in {"CALLNAT", "PERFORM", "INCLUDE", "FETCH", "RUN", "READ", "FIND", "FINDNAT", "GET", "STORE"}
  }

  predicate IsDefinition(k: NodeKind) {
    k.DataSection? || k.Subroutine? || k.Map? || k.WorkFile?
  }

  /** When `firstStatementNode` looks at the slice of a kind: the kinds without a turn are overlooked. */
  function Turn(k: NodeKind): Option<nat> {
    match k
    case Call => Some(0)
    case Perform => Some(1)
    case Include => Some(2)
    case Fetch => Some(3)
    case Run => Some(4)
    case Read => Some(5)
    case Store => Some(6)
    case Commit => Some(7)
    case Rollback => Some(8)
    case CallDBProc => Some(9)
    case Select => Some(10)
    case SelectSingle => Some(11)
    case ReadResultSet => Some(12)
    case ProcessSQL => Some(13)
    case Insert => Some(14)
    case SQLUpdate => Some(15)
    case SQLDelete => Some(16)
    case Merge => Some(17)
    case _ => None
  }

  const TURNS := 18

  predicate IsOverlooked(k: NodeKind) {
    k.Find? || k.Get? || k.RecordUpdate? || k.RecordDelete? || IsDefinition(k)
  }

  function FirstAtTurn(nodes: seq<Node>, turn: nat): Option<Node> {
    if nodes == [] then None else if Turn(nodes[0].kind) == Some(turn) then Some(nodes[0])
    else FirstAtTurn(nodes[1..], turn)
  }

  function FirstFromTurn(nodes: seq<Node>, turn: nat): Option<Node>
    decreases TURNS - turn
  {
    if turn >= TURNS then None
    else if FirstAtTurn(nodes, turn).Some? then FirstAtTurn(nodes, turn)
    else FirstFromTurn(nodes, turn + 1)
  }

  function FirstStatementNode(nodes: seq<Node>): Option<Node> {
    FirstFromTurn(nodes, 0)
  }

  lemma {:induction false} FirstFromTurnOfOne(nodes: seq<Node>, turn: nat)
    requires |nodes| <= 1
    ensures FirstFromTurn(nodes, turn)
         == if nodes != [] && Turn(nodes[0].kind).Some? && Turn(nodes[0].kind).value >= turn then Some(nodes[0])
         else None
    decreases TURNS - turn
  {
    if turn < TURNS {
      assert nodes != [] ==> FirstAtTurn(nodes[1..], turn).None?;
      FirstFromTurnOfOne(nodes, turn + 1);
    }
  }

  /** The statement a loop body keeps of what one dispatch appended. */
  function Kept(nodes: seq<Node>): seq<Node> {
    if nodes == [] then []
    else Kept(nodes[..|nodes| - 1]) + if IsOverlooked(nodes[|nodes| - 1].kind) then [] else [nodes[|nodes| - 1]]
  }

  lemma {:induction false} KeptOfAtMostOne(nodes: seq<Node>)
    requires |nodes| <= 1
    ensures Kept(nodes) == if nodes == [] || IsOverlooked(nodes[0].kind) then [] else nodes
  {
    assert nodes != [] ==> nodes[..0] == [] && nodes == [nodes[0]];
  }

  /** Of at most one appended node, the first statement node is that node, unless its kind is overlooked. */
  lemma {:induction false} FirstStatementOfAtMostOne(nodes: seq<Node>)
    requires |nodes| <= 1
    ensures (if FirstStatementNode(nodes).Some? then [FirstStatementNode(nodes).value] else []) == Kept(nodes)
  {
    hide FirstFromTurn;
    FirstFromTurnOfOne(nodes, 0);
    if nodes != [] {
      assert nodes == [nodes[0]] && nodes[..0] == [];
    }
  }

  lemma NothingBare()
    ensures BareAll([]) == []
  {
  }

  lemma BareConcat(a: seq<Node>, b: seq<Node>)
    ensures BareAll(a + b) == BareAll(a) + BareAll(b)
  {
  }

  lemma BareOne(n: Node)
    ensures BareAll([n]) == [Bare(n)]
  {
  }

  lemma {:induction false} KeptOfBare(nodes: seq<Node>)
    ensures Kept(BareAll(nodes)) == BareAll(Kept(nodes))
  {
    if nodes != [] {
      var n := |nodes| - 1;
      KeptOfBare(nodes[..n]);
      assert BareAll(nodes)[..n] == BareAll(nodes[..n]);
      BareConcat(Kept(nodes[..n]), if IsOverlooked(nodes[n].kind) then [] else [nodes[n]]);
      BareOne(nodes[n]);
    }
  }

  /** The statement node of at most one, bare, is what a body keeps of the bare nodes. */
  lemma KeptOfAtMostOneBare(nodes: seq<Node>)
    requires |nodes| <= 1
    ensures var kept := if FirstStatementNode(nodes).Some? then [FirstStatementNode(nodes).value] else [];
            kept == Kept(nodes) && BareAll(kept) == Kept(BareAll(nodes))
  {
    hide FirstStatementNode, Kept, BareAll;
    FirstStatementOfAtMostOne(nodes);
    KeptOfBare(nodes);
  }

  // ----- Loop bodies -----

  function LoopTerminators(loop: NodeKind): set<string> {
    if loop.ReadResultSet? then {"END-RESULT", "LOOP"} else {"END-SELECT", "LOOP"}
  }

  /** Every node starts at or before a token. */
  ghost predicate StartBy(nodes: seq<Node>, tok: Token) {
    forall i :: 0 <= i < |nodes| ==> AtOrBefore(nodes[i].start, Start(tok))
  }

  lemma NothingStarts(tok: Token)
    ensures StartBy([], tok) && Kept([]) == []
  {
  }

  lemma StartByLater(nodes: seq<Node>, a: Token, b: Token)
    requires StartBy(nodes, a) && AtOrBefore(Start(a), Start(b))
    ensures StartBy(nodes, b)
  {
  }

  lemma StartByConcat(a: seq<Node>, b: seq<Node>, before: Token, at: Token, prev: Token, current: Token)
    requires StartBy(a, before) && AtOrBefore(Start(before), Start(prev)) && AtOrBefore(Start(at), Start(prev))
    requires forall i :: 0 <= i < |b| ==> b[i].start == Start(at)
    ensures StartBy(a + b, prev)
  {
  }

  lemma {:induction false} KeptConcat(a: seq<Node>, b: seq<Node>)
    ensures Kept(a + b) == Kept(a) + Kept(b)
  {
    if b == [] {
      assert a + b == a;
    } else {
      var n := |b| - 1;
      assert (a + b)[..|a| + n] == a + b[..n];
      KeptConcat(a, b[..n]);
    }
  }

  lemma SettledLater(nodes: seq<Node>, from: Position, mid: Token, current: Token)
    requires Settled(nodes, from, mid) && mid.kind != EndOfFile && AtOrBefore(Start(mid), Start(current))
    ensures Settled(nodes, from, current)
  {
    hide WellPlaced;
  }

  lemma SettledAtMostOne(nodes: seq<Node>, from: Position, current: Token)
    requires |nodes| <= 1
    requires forall i :: 0 <= i < |nodes| ==>
               WellPlaced(nodes[i]) && nodes[i].start == from && EndsBefore(nodes[i].end, current)
    ensures Settled(nodes, from, current)
  {
    hide WellPlaced;
  }

  lemma {:induction false} KeptMembers(nodes: seq<Node>)
    ensures forall n :: n in Kept(nodes) ==> n in nodes
  {
    if nodes != [] {
      KeptMembers(nodes[..|nodes| - 1]);
      assert nodes == nodes[..|nodes| - 1] + [nodes[|nodes| - 1]];
    }
  }

  lemma SettledInit(nodes: seq<Node>, from: Position, current: Token, tok: Token)
    requires Settled(nodes, from, current) && StartBy(nodes, tok) && nodes != []
    ensures var init, last := nodes[..|nodes| - 1], nodes[|nodes| - 1];
            && Settled(init, from, current) && StartBy(init, tok)
                 && (forall n :: n in init ==> Earlier(n.end, last.start))
            && WellPlaced(last) && AtOrBefore(from, last.start) && EndsBefore(last.end, current)
                 && AtOrBefore(last.start, Start(tok))
  {
    hide WellPlaced;
  }

  lemma SettledPush(a: seq<Node>, n: Node, from: Position, current: Token, tok: Token)
    requires Settled(a, from, current) && StartBy(a, tok) && forall m :: m in a ==> Earlier(m.end, n.start)
    requires WellPlaced(n) && AtOrBefore(from, n.start) && EndsBefore(n.end, current) && AtOrBefore(n.start, Start(tok))
    ensures Settled(a + [n], from, current) && StartBy(a + [n], tok)
  {
    hide WellPlaced;
  }

  /** The kept statements are in source order behind the same position, and still start by the same token. */
  lemma {:induction false} KeptStaysSettled(nodes: seq<Node>, from: Position, current: Token, tok: Token)
    requires Settled(nodes, from, current) && StartBy(nodes, tok)
    ensures Settled(Kept(nodes), from, current) && StartBy(Kept(nodes), tok)
  {
    hide WellPlaced, Settled, StartBy;
    if nodes == [] {
      NothingStarts(tok);
      SettledNone(from, current);
    } else {
      var init, last := nodes[..|nodes| - 1], nodes[|nodes| - 1];
      SettledInit(nodes, from, current, tok);
      KeptStaysSettled(init, from, current, tok);
      KeptMembers(init);
      if !IsOverlooked(last.kind) {
        SettledPush(Kept(init), last, from, current, tok);
      } else {
        assert Kept(init) + [] == Kept(init);
      }
    }
  }

  lemma LoopIsWellPlaced(n: Node, from: Position, statements: seq<Node>, prev: Token, current: Token)
    requires Settled(statements, from, current) && StartBy(statements, prev) && n.body == Kept(statements)
    requires Earlier(n.start, from) && AtOrBefore(n.start, n.end) && n.end == Start(prev)
    requires OperandsInOrder(n.start, n.operands)
    ensures WellPlaced(n)
  {
    KeptStaysSettled(statements, from, current, prev);
  }
}
