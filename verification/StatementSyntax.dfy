/** What a source leaves in the tree, as a function of its tokens: the reference the parser is proved against
    (internal/analysis/natural/parser.go).  Nodes are bare: without their ends. */
module StatementSyntax {
  import opened Model
  import opened Text
  import opened Lexer
  import opened Syntax
  import opened DefineSyntax
  import opened ClauseSyntax

  /** The cursor has moved on. */
  predicate Passed(s: string, c: Cursor, after: Cursor) {
    after.lexer.pos <= |s| && Ahead(s, after) < Ahead(s, c)
  }

  function Outline(kind: NodeKind, at: Position, name: string): Node {
    Leaf(kind, at, at, name)
  }

  /** At most one node, at the statement. */
  predicate AtMostOne(nodes: seq<Node>, at: Position) {
    |nodes| <= 1 && (nodes != [] ==> nodes[0].start == at)
  }

  // ----- Calls, from behind the keyword -----

  /** A missing or other operand leaves no node and stays; an empty target leaves no node. */
  function CallFrom(s: string, at: Position, c: Cursor): (r: Taken<seq<Node>>)
    requires c.lexer.pos <= |s|
    ensures Moved(s, c, r.after) && AtMostOne(r.value, at)
  {
    if !OnLine(c.token, at.line) || !HasTarget(c.token) then Taken([], c)
    else
      var name := TargetOf(c.token);
      Taken(if name == "" then [] else [Outline(Call, at, name)], Rest(s, Step(s, c)))
  }

  function PerformFrom(s: string, at: Position, c: Cursor): (r: Taken<seq<Node>>)
    requires c.lexer.pos <= |s|
    ensures Moved(s, c, r.after) && AtMostOne(r.value, at)
  {
    if !OnLine(c.token, at.line) then Taken([], c)
    else
      var named := IsName(c.token) && !(c.token.kind == Keyword && c.token.literal == "BREAK");
      Taken([Outline(Perform, at, PerformTarget(c.token))], Rest(s, if named then Step(s, c) else c))
  }

  function IncludeFrom(s: string, at: Position, c: Cursor): (r: Taken<seq<Node>>)
    requires c.lexer.pos <= |s|
    ensures Moved(s, c, r.after) && AtMostOne(r.value, at)
  {
    if !OnLine(c.token, at.line) then Taken([], c)
    else Taken([Outline(Include, at, TargetOf(c.token))], Rest(s, AfterTarget(s, c)))
  }

  /** FETCH leaves a node even without a target. */
  function FetchFrom(s: string, at: Position, c: Cursor): (r: Taken<seq<Node>>)
    requires c.lexer.pos <= |s|
    ensures Moved(s, c, r.after) && AtMostOne(r.value, at)
  {
    var e := AfterOptional(s, c, at.line, {"REPEAT", "RETURN"});
    if !OnLine(e.token, at.line) then Taken([Outline(Fetch, at, "")], e)
    else Taken([Outline(Fetch, at, TargetOf(e.token))], Rest(s, AfterTarget(s, e)))
  }

  /** The program, and the library behind it. */
  function RunFrom(s: string, at: Position, c: Cursor): (r: Taken<seq<Node>>)
    requires c.lexer.pos <= |s|
    ensures Moved(s, c, r.after) && AtMostOne(r.value, at)
  {
    if !OnLine(c.token, at.line) then Taken([], c)
    else
      var library := LibraryAt(s, AfterTarget(s, c), at.line);
      Taken([Outline(Run, at, TargetOf(c.token)).(operands := library.value)], Rest(s, library.after))
  }

  // ----- Record access -----

  /** A node for the identifier at the cursor, or without a name. */
  function NamedFrom(s: string, kind: NodeKind, at: Position, c: Cursor): (r: Taken<seq<Node>>)
    requires c.lexer.pos <= |s|
    ensures Moved(s, c, r.after) && AtMostOne(r.value, at)
  {
    Taken([Outline(kind, at, IdentifierOf(c.token))], Rest(s, if c.token.kind == Identifier then Step(s, c) else c))
  }

  function FindFrom(s: string, at: Position, c: Cursor): (r: Taken<seq<Node>>)
    requires c.lexer.pos <= |s|
    ensures Moved(s, c, r.after) && AtMostOne(r.value, at)
  {
    var e := AfterOptional(s, AfterRowLimit(s, c, at.line), at.line, {"NUMBER"});
    if OnLine(e.token, at.line) then NamedFrom(s, Find, at, e) else Taken([], e)
  }

  /** GET SAME has no operand. */
  function GetFrom(s: string, at: Position, c: Cursor): (r: Taken<seq<Node>>)
    requires c.lexer.pos <= |s|
    ensures Moved(s, c, r.after) && AtMostOne(r.value, at)
  {
    if c.token.line == at.line && c.token.literal == "SAME" then Taken([Outline(Get, at, "")], Rest(s, Step(s, c)))
    else if !OnLine(c.token, at.line) then Taken([], c)
    else
      var e := if c.token.kind == Identifier then Step(s, c) else c;
      Taken([Outline(Get, at, IdentifierOf(c.token))], Rest(s, AfterRowLimit(s, e, at.line)))
  }

  /** STORE leaves a node even without a file. */
  function StoreFrom(s: string, at: Position, c: Cursor): (r: Taken<seq<Node>>)
    requires c.lexer.pos <= |s|
    ensures Moved(s, c, r.after) && AtMostOne(r.value, at)
  {
    var e := AfterWords(s, c, at.line, {"RECORD", "IN", "FILE"});
    if OnLine(e.token, at.line) then NamedFrom(s, Store, at, e) else Taken([Outline(Store, at, "")], e)
  }

  function PlainReadFrom(s: string, at: Position, c: Cursor): (r: Taken<seq<Node>>)
    requires c.lexer.pos <= |s|
    ensures Moved(s, c, r.after) && AtMostOne(r.value, at)
  {
    var e := AfterRowLimit(s, c, at.line);
    if OnLine(e.token, at.line) then NamedFrom(s, Read, at, e) else Taken([Outline(Read, at, "")], e)
  }

  /** UPDATE or DELETE of the record read: the label in parentheses is all that is kept. */
  function RecordFrom(s: string, kind: NodeKind, at: Position, c: Cursor): (r: Taken<seq<Node>>)
    requires c.lexer.pos <= |s|
    ensures Moved(s, c, r.after) && AtMostOne(r.value, at)
  {
    var mark := LabelText(s, c);
    Taken([Outline(kind, at, "").(text := mark.value)], Rest(s, mark.after))
  }

  // ----- Embedded SQL -----

  function TransactionFrom(s: string, kind: NodeKind, at: Position, c: Cursor): (r: Taken<seq<Node>>)
    requires c.lexer.pos <= |s|
    ensures Moved(s, c, r.after) && AtMostOne(r.value, at)
  {
    Taken([Outline(kind, at, "")], Rest(s, c))
  }

  function CallDBProcFrom(s: string, at: Position, c: Cursor): (r: Taken<seq<Node>>)
    requires c.lexer.pos <= |s|
    ensures Moved(s, c, r.after) && AtMostOne(r.value, at)
  {
    Taken([Outline(CallDBProc, at, TargetOf(c.token))], Rest(s, AfterTarget(s, c)))
  }

  /** A node with the operands taken, and the rest skipped. */
  function ClausesFrom(s: string, kind: NodeKind, at: Position, operands: Taken<seq<Operand>>): (r: Taken<seq<Node>>)
    requires operands.after.lexer.pos <= |s|
    ensures Moved(s, operands.after, r.after) && AtMostOne(r.value, at)
  {
    Taken([Outline(kind, at, "").(operands := operands.value)], Rest(s, operands.after))
  }

  function InsertFrom(s: string, at: Position, c: Cursor): (r: Taken<seq<Node>>)
    requires c.lexer.pos <= |s|
    ensures Moved(s, c, r.after) && AtMostOne(r.value, at)
  {
    if c.token.literal == "INTO" then ClausesFrom(s, Insert, at, InsertOperands(s, Step(s, c)))
    else Taken([], Rest(s, c))
  }

  /** Without an identifier the record read is updated; behind a table SET or WHERE must follow. */
  function UpdateFrom(s: string, at: Position, c: Cursor): (r: Taken<seq<Node>>)
    requires c.lexer.pos <= |s|
    ensures Moved(s, c, r.after) && AtMostOne(r.value, at)
  {
    if c.token.kind != Identifier then RecordFrom(s, RecordUpdate, at, c) else TableUpdateFrom(s, at, c)
  }

  function TableUpdateFrom(s: string, at: Position, c: Cursor): (r: Taken<seq<Node>>)
    requires c.lexer.pos <= |s|
    ensures Moved(s, c, r.after) && AtMostOne(r.value, at)
  {
    var e := Step(s, c);
    if e.token.literal in {"SET", "WHERE"} then
      ClausesFrom(s, SQLUpdate, at, Joined([OperandOf(Table, c.token, false)], UpdateOperands(s, e)))
    else Taken([], Rest(s, e))
  }

  function DeleteFrom(s: string, at: Position, c: Cursor): (r: Taken<seq<Node>>)
    requires c.lexer.pos <= |s|
    ensures Moved(s, c, r.after) && AtMostOne(r.value, at)
  {
    if c.token.literal == "FROM" then ClausesFrom(s, SQLDelete, at, DeleteOperands(s, Step(s, c)))
    else RecordFrom(s, RecordDelete, at, c)
  }

  function MergeFrom(s: string, at: Position, c: Cursor): (r: Taken<seq<Node>>)
    requires c.lexer.pos <= |s|
    ensures Moved(s, c, r.after) && AtMostOne(r.value, at)
  {
    if c.token.literal == "INTO" then ClausesFrom(s, Merge, at, TableAt(s, Step(s, c), Into)) else Taken([], Rest(s, c))
  }

  /** Behind the opaque body, if a `<` is next. */
  function AfterBody(s: string, c: Cursor): (r: Cursor)
    requires c.lexer.pos <= |s|
    ensures r.lexer.pos <= |s| && c.lexer.pos <= r.lexer.pos + if OpensBody(c.token) then 1 else 0
  {
    if !OpensBody(c.token) then c
    else
      var span := SpanAt(s, c);
      Cursor(Next(s, span.after).token, Next(s, span.after).after)
  }

  /** Going back over the `<` never goes back behind the token before it. */
  lemma BodyMovesOn(s: string, c: Cursor)
    requires c.lexer.pos <= |s| && c.token.kind != EndOfFile
    ensures Passed(s, c, AfterBody(s, Step(s, c)))
  {
    hide Next, OpaqueSpan;
    if OpensBody(Step(s, c).token) {
      OperatorIsSource(s, c.lexer);
      var r := Next(s, c.lexer);
      assert |s[r.start..r.after.pos]| == 1;
    }
  }

  /** PROCESS SQL and a DDM name on the line. */
  function ProcessFrom(s: string, at: Position, c: Cursor): (r: Taken<seq<Node>>)
    requires c.lexer.pos <= |s|
    ensures Moved(s, c, r.after) && AtMostOne(r.value, at)
  {
    if !OnLine(c.token, at.line) then Taken([], c)
    else if c.token.literal != "SQL" then Taken([], Rest(s, c))
    else ProcessNameFrom(s, at, Step(s, c))
  }

  /** The DDM name, and the body behind it. */
  function ProcessNameFrom(s: string, at: Position, c: Cursor): (r: Taken<seq<Node>>)
    requires c.lexer.pos <= |s|
    ensures Moved(s, c, r.after) && AtMostOne(r.value, at)
  {
    if !OnLine(c.token, at.line) || c.token.kind != Identifier then Taken([], c)
    else
      BodyMovesOn(s, c);
      var body := Step(s, c);
      Taken([Outline(ProcessSQL, at, c.token.literal).(text := BodyText(s, body))], AfterBody(s, body))
  }

  // ----- Statements and loop bodies -----

  /** To the first statement of the body. */
  function BodyStart(s: string, c: Cursor): (r: Cursor)
    requires c.lexer.pos <= |s|
    ensures Moved(s, c, r)
  {
    SkipToMoves(s, c.token, c.lexer, LoopBody);
    var stop := SkipTo(s, c.token, c.lexer, LoopBody);
    Cursor(stop.0, stop.1)
  }

  /** DEFINE starts a statement, so the skip to the next loop body stops on it. */
  lemma DefineStopsSkip(s: string, c: Cursor)
    requires c.lexer.pos <= |s| && IsDefine(c.token)
    ensures BodyStart(s, c) == c
  {
  }

  /** READ RESULT SET is a loop; READ RESULT without SET goes on as a plain READ, with one token lost. */
  function ReadFrom(s: string, at: Position, c: Cursor): (r: Taken<seq<Node>>)
    requires c.lexer.pos <= |s|
    ensures Moved(s, c, r.after) && AtMostOne(r.value, at)
    decreases Ahead(s, c), 4
  {
    if !IsResultSet(s, c) then PlainReadFrom(s, at, Restored(s, c))
    else
      var table := TableAt(s, Step(s, Step(s, c)), Table);
      LoopFrom(s, ReadResultSet, at, table.value, BodyStart(s, table.after))
  }

  /** SELECT is a loop, SELECT SINGLE is not. */
  function SelectFrom(s: string, at: Position, c: Cursor): (r: Taken<seq<Node>>)
    requires c.lexer.pos <= |s|
    ensures Moved(s, c, r.after) && AtMostOne(r.value, at)
    decreases Ahead(s, c), 4
  {
    if c.token.literal == "SINGLE" then ClausesFrom(s, SelectSingle, at, SelectOperands(s, Step(s, c)))
    else
      var operands := SelectOperands(s, c);
      LoopFrom(s, Select, at, operands.value, operands.after)
  }

  function LoopFrom(s: string, kind: NodeKind, at: Position, operands: seq<Operand>, c: Cursor): (r: Taken<seq<Node>>)
    requires c.lexer.pos <= |s|
    ensures Moved(s, c, r.after) && AtMostOne(r.value, at)
    decreases Ahead(s, c), 3
  {
    var body := BodyAt(s, c, LoopTerminators(kind));
    Taken([Outline(kind, at, "").(operands := operands, body := body.value)], body.after)
  }

  predicate IsDefine(tok: Token) {
    tok.kind == Keyword && tok.literal == "DEFINE"
  }

  /** One turn of a body: what it keeps of a statement; at a DEFINE only the keyword is passed. */
  function TurnAt(s: string, c: Cursor): (r: Taken<seq<Node>>)
    requires c.lexer.pos <= |s| && c.token.kind != EndOfFile
    ensures Passed(s, c, r.after)
    decreases Ahead(s, c), 1
  {
    if IsDefine(c.token) then Taken([], Step(s, c)) else Taken(Kept(StatementAt(s, c).value), StatementAt(s, c).after)
  }

  /** The statements up to a terminator or the end. */
  function BodyAt(s: string, c: Cursor, terminators: set<string>): (r: Taken<seq<Node>>)
    requires c.lexer.pos <= |s|
    ensures Moved(s, c, r.after)
    decreases Ahead(s, c), 2
  {
    if c.token.kind == EndOfFile then Taken([], c)
    else if c.token.literal in terminators then Taken([], Step(s, c))
    else
      var turn := TurnAt(s, c);
      Joined(turn.value, BodyAt(s, turn.after, terminators))
  }

  /** The turns of a body that stand at a DEFINE. */
  function DefinesIn(s: string, c: Cursor, terminators: set<string>): nat
    requires c.lexer.pos <= |s|
    decreases Ahead(s, c)
  {
    if c.token.kind == EndOfFile || c.token.literal in terminators then 0
    else (if IsDefine(c.token) then 1 else 0) + DefinesIn(s, TurnAt(s, c).after, terminators)
  }

  lemma BodyStep(s: string, c: Cursor, terminators: set<string>, before: seq<Node>)
    requires c.lexer.pos <= |s|
    ensures var all := Joined(before, BodyAt(s, c, terminators));
            if c.token.kind == EndOfFile then all == Taken(before, c)
            else if c.token.literal in terminators then all == Taken(before, Step(s, c))
            else all == Joined(before + TurnAt(s, c).value, BodyAt(s, TurnAt(s, c).after, terminators))
    ensures DefinesIn(s, c, terminators)
         == if c.token.kind == EndOfFile || c.token.literal in terminators then 0
            else (if IsDefine(c.token) then 1 else 0) + DefinesIn(s, TurnAt(s, c).after, terminators)
  {
    hide TurnAt, Step;
    JoinedNothing(before, c);
    JoinedNothing(before, Step(s, c));
    if c.token.kind != EndOfFile {
      JoinedTwice(before, TurnAt(s, c).value, BodyAt(s, TurnAt(s, c).after, terminators));
    }
  }

  /** One statement, or one token that starts none. */
  function StatementAt(s: string, c: Cursor): (r: Taken<seq<Node>>)
    requires c.lexer.pos <= |s| && c.token.kind != EndOfFile
    ensures Passed(s, c, r.after) && AtMostOne(r.value, Start(c.token))
    decreases Ahead(s, c), 0
  {
    var e := Step(s, c);
    if IsCallOrRecord(c.token) then CallOrRecordFrom(s, c.token.literal, Start(c.token), e)
    else if IsSQL(c.token) then SQLFrom(s, c.token.literal, Start(c.token), e)
    else Taken([], e)
  }

  function CallOrRecordFrom(s: string, keyword: string, at: Position, c: Cursor): (r: Taken<seq<Node>>)
    requires c.lexer.pos <= |s|
    ensures Moved(s, c, r.after) && AtMostOne(r.value, at)
    decreases Ahead(s, c), 5
  {
    match keyword
    case "CALLNAT" => CallFrom(s, at, c)
    case "PERFORM" => PerformFrom(s, at, c)
    case "INCLUDE" => IncludeFrom(s, at, c)
    case "FETCH" => FetchFrom(s, at, c)
    case "RUN" => RunFrom(s, at, c)
    case "READ" => ReadFrom(s, at, c)
    case "GET" => GetFrom(s, at, c)
    case "STORE" => StoreFrom(s, at, c)
    case _ => FindFrom(s, at, c)
  }

  predicate IsSQL(tok: Token) {
    && tok.kind == Keyword
    && tok.literal in {"COMMIT", "ROLLBACK", "CALLDBPROC", "SELECT", "INSERT", "UPDATE", "DELETE", "MERGE", "PROCESS"}
  }

  function SQLFrom(s: string, keyword: string, at: Position, c: Cursor): (r: Taken<seq<Node>>)
    requires c.lexer.pos <= |s|
    ensures Moved(s, c, r.after) && AtMostOne(r.value, at)
    decreases Ahead(s, c), 5
  {
    match keyword
    case "COMMIT" => TransactionFrom(s, Commit, at, c)
    case "ROLLBACK" => TransactionFrom(s, Rollback, at, c)
    case "CALLDBPROC" => CallDBProcFrom(s, at, c)
    case "SELECT" => SelectFrom(s, at, c)
    case "INSERT" => InsertFrom(s, at, c)
    case "UPDATE" => UpdateFrom(s, at, c)
    case "DELETE" => DeleteFrom(s, at, c)
    case "MERGE" => MergeFrom(s, at, c)
    case _ => ProcessFrom(s, at, c)
  }

  // ----- Whole programs -----

  /** Behind DEFINE WORK: FILE, a plain integer and a name, or none. */
  function WorkFileName(s: string, c: Cursor): (r: Taken<Option<string>>)
    requires c.lexer.pos <= |s|
    ensures Moved(s, c, r.after)
  {
    var number := Step(s, c);
    var name := Step(s, number);
    if c.token.literal != "FILE" then Taken(None, c)
    else if number.token.kind != LiteralNumeric || !AtoiSucceeds(number.token.literal) then Taken(None, number)
    else if !HasTarget(name.token) then Taken(None, name)
    else Taken(Some(TargetOf(name.token)), Step(s, name))
  }

  function WorkFileFrom(s: string, at: Position, c: Cursor): (r: Taken<seq<Node>>)
    requires c.lexer.pos <= |s|
    ensures Moved(s, c, r.after)
  {
    var name := WorkFileName(s, c);
    Taken(if name.value.Some? then [Outline(WorkFile, at, name.value.value)] else [], Rest(s, name.after))
  }

  function SubroutineFrom(s: string, at: Position, c: Cursor): (r: Taken<seq<Node>>)
    requires c.lexer.pos <= |s|
    ensures Moved(s, c, r.after)
  {
    var name := BlockName(s, c);
    Taken([Outline(Subroutine, at, name.value)], AfterBlock(s, name.after, "SUBROUTINE", "END-SUBROUTINE"))
  }

  function MapFrom(s: string, at: Position, c: Cursor): (r: Taken<seq<Node>>)
    requires c.lexer.pos <= |s|
    ensures Moved(s, c, r.after)
  {
    var name := MapName(s, c);
    var fields := MapFields(s, name.after);
    Taken([Outline(Map, at, name.value).(fields := fields.value)], fields.after)
  }

  /** By the word behind DEFINE; anything else is skipped. */
  function DefinitionFrom(s: string, at: Position, c: Cursor): (r: Taken<seq<Node>>)
    requires c.lexer.pos <= |s|
    ensures Moved(s, c, r.after)
  {
    var e := Step(s, c);
    if c.token.kind == Keyword && c.token.literal == "DATA" then Sections(s, e, Some(at))
    else if c.token.literal == "SUBROUTINE" then SubroutineFrom(s, at, e)
    else if c.token.literal == "MAP" then MapFrom(s, at, e)
    else if c.token.literal == "WORK" then WorkFileFrom(s, at, e)
    else Taken([], Rest(s, c))
  }

  /** A definition, a statement, or one token. */
  function DispatchAt(s: string, c: Cursor): (r: Taken<seq<Node>>)
    requires c.lexer.pos <= |s| && c.token.kind != EndOfFile
    ensures Passed(s, c, r.after)
  {
    if IsDefine(c.token) then DefinitionFrom(s, Start(c.token), Step(s, c)) else StatementAt(s, c)
  }

  /** Where a parse of the source begins. */
  function FirstCursor(s: string): (r: Cursor)
    ensures r.lexer.pos <= |s|
  {
    var first := Next(s, State(0, 1, 1, false));
    Cursor(first.token, first.after)
  }

  /** All nodes of a source, in the order of their statements. */
  function ProgramAt(s: string, c: Cursor): seq<Node>
    requires c.lexer.pos <= |s|
    decreases Ahead(s, c)
  {
    if c.token.kind == EndOfFile then []
    else
      var turn := DispatchAt(s, c);
      turn.value + ProgramAt(s, turn.after)
  }

  lemma ProgramStep(s: string, c: Cursor, before: seq<Node>)
    requires c.lexer.pos <= |s| && c.token.kind != EndOfFile
    ensures before + ProgramAt(s, c) == before + DispatchAt(s, c).value + ProgramAt(s, DispatchAt(s, c).after)
  {
    hide DispatchAt;
    var turn := DispatchAt(s, c);
    assert before + (turn.value + ProgramAt(s, turn.after)) == before + turn.value + ProgramAt(s, turn.after);
  }

  lemma NoProgramLeft(s: string, c: Cursor, before: seq<Node>)
    requires c.lexer.pos <= |s| && c.token.kind == EndOfFile
    ensures before + ProgramAt(s, c) == before
  {
    assert before + [] == before;
  }

  // ----- What a loop body loses -----

  /** The statements whose nodes a body overlooks: FIND, GET, and UPDATE and DELETE of the record read. */
  predicate IsLost(s: string, c: Cursor)
    requires c.lexer.pos <= |s|
  {
    && c.token.kind == Keyword
    && (|| c.token.literal in {"FIND", "FINDNAT", "GET"}
        || (c.token.literal == "DELETE" && Step(s, c).token.literal != "FROM")
        || (c.token.literal == "UPDATE" && Step(s, c).token.kind != Identifier))
  }

  /** At most one node, and one of an overlooked kind exactly if so said. */
  predicate AreOverlooked(nodes: seq<Node>, lost: bool) {
    nodes != [] ==> (IsOverlooked(nodes[0].kind) <==> lost)
  }

  lemma CallKinds(s: string, at: Position, c: Cursor)
    requires c.lexer.pos <= |s|
    ensures AreOverlooked(CallFrom(s, at, c).value, false) && AreOverlooked(PerformFrom(s, at, c).value, false)
    ensures AreOverlooked(IncludeFrom(s, at, c).value, false) && AreOverlooked(FetchFrom(s, at, c).value, false)
    ensures AreOverlooked(RunFrom(s, at, c).value, false)
  {
    hide Step, Rest, TargetOf, PerformTarget, AfterOptional, AfterTarget, LibraryAt;
  }

  lemma RecordKinds(s: string, at: Position, c: Cursor)
    requires c.lexer.pos <= |s|
    ensures AreOverlooked(FindFrom(s, at, c).value, true) && AreOverlooked(GetFrom(s, at, c).value, true)
    ensures AreOverlooked(StoreFrom(s, at, c).value, false)
  {
    hide Step, Rest, AfterOptional, AfterRowLimit, AfterWords;
  }

  lemma LoopKinds(s: string, at: Position, c: Cursor)
    requires c.lexer.pos <= |s|
    ensures AreOverlooked(ReadFrom(s, at, c).value, false) && AreOverlooked(SelectFrom(s, at, c).value, false)
  {
    hide Step, Rest, AfterRowLimit, BodyAt, TableAt, BodyStart, Restored, IsResultSet, SelectOperands;
  }

  lemma SQLKinds(s: string, at: Position, c: Cursor)
    requires c.lexer.pos <= |s|
    ensures AreOverlooked(TransactionFrom(s, Commit, at, c).value, false)
    ensures AreOverlooked(TransactionFrom(s, Rollback, at, c).value, false)
    ensures AreOverlooked(CallDBProcFrom(s, at, c).value, false) && AreOverlooked(InsertFrom(s, at, c).value, false)
    ensures AreOverlooked(MergeFrom(s, at, c).value, false) && AreOverlooked(ProcessFrom(s, at, c).value, false)
  {
    hide Step, Rest, TargetOf, AfterTarget, InsertOperands, TableAt, BodyText, AfterBody;
  }

  lemma ModifyKinds(s: string, at: Position, c: Cursor)
    requires c.lexer.pos <= |s|
    ensures AreOverlooked(UpdateFrom(s, at, c).value, c.token.kind != Identifier)
    ensures AreOverlooked(DeleteFrom(s, at, c).value, c.token.literal != "FROM")
  {
    hide Step, Rest, UpdateOperands, DeleteOperands, LabelText, OperandOf;
  }

  lemma CallOrRecordOverlooked(s: string, keyword: string, at: Position, c: Cursor)
    requires c.lexer.pos <= |s|
    requires keyword in {"CALLNAT", "PERFORM", "INCLUDE", "FETCH", "RUN", "READ", "FIND", "FINDNAT", "GET", "STORE"}
    ensures AreOverlooked(CallOrRecordFrom(s, keyword, at, c).value, keyword in {"FIND", "FINDNAT", "GET"})
  {
    hide AreOverlooked, CallFrom, PerformFrom, IncludeFrom, FetchFrom, RunFrom, ReadFrom, FindFrom, GetFrom, StoreFrom;
    CallKinds(s, at, c);
    RecordKinds(s, at, c);
    LoopKinds(s, at, c);
  }

  lemma OtherSQLOverlooked(s: string, keyword: string, at: Position, c: Cursor)
    requires c.lexer.pos <= |s| && keyword != "DELETE" && keyword != "UPDATE"
    ensures AreOverlooked(SQLFrom(s, keyword, at, c).value, false)
  {
    hide AreOverlooked, Step, TransactionFrom, CallDBProcFrom, SelectFrom, InsertFrom, UpdateFrom, DeleteFrom,
      MergeFrom,
      ProcessFrom;
    SQLKinds(s, at, c);
    LoopKinds(s, at, c);
  }

  lemma SQLOverlooked(s: string, keyword: string, at: Position, c: Cursor)
    requires c.lexer.pos <= |s|
    ensures AreOverlooked(SQLFrom(s, keyword, at, c).value,
                          || (keyword == "DELETE" && c.token.literal != "FROM")
                          || (keyword == "UPDATE" && c.token.kind != Identifier))
  {
    ModifyKinds(s, at, c);
    ModifySQL(s, at, c);
    hide SQLFrom, AreOverlooked, UpdateFrom, DeleteFrom;
    if keyword != "DELETE" && keyword != "UPDATE" {
      OtherSQLOverlooked(s, keyword, at, c);
    }
  }

  lemma ModifySQL(s: string, at: Position, c: Cursor)
    requires c.lexer.pos <= |s|
    ensures SQLFrom(s, "DELETE", at, c) == DeleteFrom(s, at, c) && SQLFrom(s, "UPDATE", at, c) == UpdateFrom(s, at, c)
  {
    hide UpdateFrom, DeleteFrom;
  }

  lemma StatementOverlooked(s: string, c: Cursor)
    requires c.lexer.pos <= |s| && c.token.kind != EndOfFile
    ensures AreOverlooked(StatementAt(s, c).value, IsLost(s, c))
  {
    hide Step, CallOrRecordFrom, SQLFrom, IsOverlooked;
    if IsCallOrRecord(c.token) {
      CallOrRecordOverlooked(s, c.token.literal, Start(c.token), Step(s, c));
    } else if IsSQL(c.token) {
      SQLOverlooked(s, c.token.literal, Start(c.token), Step(s, c));
    }
  }

  /** A turn of a body keeps the statement's node, if it leaves one, exactly unless the statement is one of those; at a
      DEFINE, and at a token that starts no statement, there is nothing to keep. */
  lemma TurnLosesIff(s: string, c: Cursor)
    requires c.lexer.pos <= |s| && c.token.kind != EndOfFile
    ensures var turn := TurnAt(s, c);
            && (IsDefine(c.token) ==> turn == Taken([], Step(s, c)))
            && (!StartsStatement(c.token) ==> turn == Taken([], Step(s, c)))
            && (!IsDefine(c.token) ==>
                 && turn.after == StatementAt(s, c).after
                 && turn.value == if IsLost(s, c) then [] else StatementAt(s, c).value)
  {
    hide Step, StatementAt, IsOverlooked, IsLost;
    if !IsDefine(c.token) {
      StatementOverlooked(s, c);
      KeptOfAtMostOne(StatementAt(s, c).value);
      if !StartsStatement(c.token) {
        NoStatementHere(s, c);
      }
    }
  }

  lemma NoStatementHere(s: string, c: Cursor)
    requires c.lexer.pos <= |s| && c.token.kind != EndOfFile && !StartsStatement(c.token)
    ensures StatementAt(s, c) == Taken([], Step(s, c)) && !IsLost(s, c)
  {
    hide Step, CallOrRecordFrom, SQLFrom;
  }

  // ----- A body that loses a statement -----

  const LOSING := "DELETE LOOP"
  const DELETE_AT := Cursor(Token(Keyword, "DELETE", 1, 1), State(6, 1, 7, true))
  const LOOP_AT := Cursor(Token(Keyword, "LOOP", 1, 8), State(11, 1, 12, true))
  const END_AT := Cursor(Token(EndOfFile, "", 1, 12), State(11, 1, 12, true))

  lemma {:induction false} WordEnds(s: string, i: nat, e: nat)
    requires i <= e <= |s| && (forall k :: i <= k < e ==> IsIdentBody(s[k])) && (e < |s| ==> !NameContinues(s, e))
    ensures NameEnd(s, i) == e
    decreases e - i
  {
    if i < e {
      WordEnds(s, i + 1, e);
    }
  }

  /** A keyword behind the blanks. */
  lemma NextKeyword(s: string, st: State, i: nat, e: nat)
    requires st.pos <= i < e <= |s| && SkipBlanks(s, st).pos == i && IsIdentStart(s[i]) && NameEnd(s, i) == e
    requires IsKeyword(Upper(s[i..e]))
    ensures var w, r := SkipBlanks(s, st), Next(s, st);
            r == Lexed(Token(Keyword, Upper(s[i..e]), w.line, w.col), i, AfterToken(w, e))
  {
    hide SkipBlanks, NameEnd, Upper, IsKeyword;
  }

  lemma NoBlanks(s: string, st: State)
    requires st.pos <= |s| && (st.pos < |s| ==> !IsBlank(s[st.pos]))
    ensures SkipBlanks(s, st) == st
  {
  }

  lemma LosingWords()
    ensures NameEnd(LOSING, 0) == 6 && NameEnd(LOSING, 7) == 11
    ensures Upper(LOSING[0..6]) == "DELETE" && Upper(LOSING[7..11]) == "LOOP" && IsKeyword("DELETE")
    ensures IsKeyword("LOOP")
  {
    WordEnds(LOSING, 0, 6);
    WordEnds(LOSING, 7, 11);
    assert LOSING[0..6] == "DELETE" && LOSING[7..11] == "LOOP";
    assert Upper("DELETE") == "DELETE" && Upper("LOOP") == "LOOP";
  }

  lemma LosingTokens()
    ensures FirstCursor(LOSING) == DELETE_AT && Step(LOSING, DELETE_AT) == LOOP_AT && Step(LOSING, LOOP_AT) == END_AT
  {
    LosingWords();
    hide NameEnd, Upper, IsKeyword;
    NoBlanks(LOSING, State(0, 1, 1, false));
    NoBlanks(LOSING, State(7, 1, 8, true));
    NoBlanks(LOSING, LOOP_AT.lexer);
    assert SkipBlanks(LOSING, DELETE_AT.lexer) == SkipBlanks(LOSING, State(7, 1, 8, true));
    hide SkipBlanks;
    NextKeyword(LOSING, State(0, 1, 1, false), 0, 6);
    NextKeyword(LOSING, DELETE_AT.lexer, 7, 11);
  }

  /** LOOP is no label, and stops the skip behind a DELETE. */
  lemma LoopStays(s: string, c: Cursor)
    requires c.lexer.pos <= |s| && c.token.kind == Keyword && c.token.literal == "LOOP"
    ensures RecordFrom(s, RecordDelete, Position(1, 1), c) == Taken([Outline(RecordDelete, Position(1, 1), "")], c)
  {
    hide Step, LabelRun;
  }

  lemma LosingStatements()
    ensures StatementAt(LOSING, DELETE_AT) == Taken([Outline(RecordDelete, Position(1, 1), "")], LOOP_AT)
    ensures StatementAt(LOSING, LOOP_AT) == Taken([], END_AT)
  {
    hide Step, CallOrRecordFrom, SQLFrom, RecordFrom;
    LosingTokens();
    LoopStays(LOSING, LOOP_AT);
    ModifySQL(LOSING, Position(1, 1), LOOP_AT);
    NoStatementHere(LOSING, LOOP_AT);
  }

  /** By itself the DELETE leaves a node; as the body of a SELECT the same source leaves none. */
  lemma BodyLosesDelete()
    ensures FirstCursor(LOSING) == DELETE_AT
    ensures ProgramAt(LOSING, DELETE_AT) == [Outline(RecordDelete, Position(1, 1), "")]
    ensures BodyAt(LOSING, DELETE_AT, LoopTerminators(Select)) == Taken([], END_AT)
  {
    hide Step, FirstCursor, StatementAt;
    LosingTokens();
    LosingStatements();
    TurnLosesIff(LOSING, DELETE_AT);
    hide TurnAt;
    assert ProgramAt(LOSING, END_AT) == [] && ProgramAt(LOSING, LOOP_AT) == [];
    assert BodyAt(LOSING, LOOP_AT, LoopTerminators(Select)) == Taken([], END_AT);
  }
}
