/** Which node each statement leaves, keyword by keyword, in terms of the tokens and bytes behind the keyword
    (internal/analysis/natural/parser.go). */
module StatementMeaning {
  import opened Model
  import opened Text
  import opened Lexer
  import opened TokenKinds
  import opened Syntax
  import opened DefineSyntax
  import opened ClauseSyntax
  import opened StatementSyntax

  // ----- Names -----

  /** The name a target token gives is its source text: what stands between the quotes, or the identifier in upper
      case; any other token gives none. */
  lemma TargetIsText(s: string, st: State)
    requires st.pos <= |s| && Next(s, st).token.kind != EndOfFile
    ensures var r := Next(s, st);
            && (r.token.kind == LiteralString ==>
                 && s[r.start] == '\''
                 && TargetOf(r.token) ==
                      if r.start + 1 < r.after.pos && s[r.after.pos - 1] == '\'' then s[r.start + 1..r.after.pos - 1]
                      else s[r.start + 1..r.after.pos])
            && (r.token.kind == Identifier ==> TargetOf(r.token) == Upper(s[r.start..r.after.pos]))
            && (r.token.kind != LiteralString && r.token.kind != Identifier ==> TargetOf(r.token) == "")
  {
    hide Next, TokenFrom, IsBlank, IsUnknown, LineEndIn, Upper, Unquote;
    var r := Next(s, st);
    NextIsTokenFrom(s, st);
    var onFresh := !st.lineHasNonWhitespace || LineEndIn(s, st.pos, r.start);
    LiteralIsBytes(s, r.start, onFresh);
    if r.token.kind == LiteralString {
      StringIsQuoted(s, r.start, onFresh);
    }
  }

  lemma StringIsQuoted(s: string, i: nat, onFresh: bool)
    requires i < |s| && !IsBlank(s[i]) && !IsUnknown(s, i) && TokenFrom(s, i, onFresh).kind == LiteralString
    ensures var e := TokenFrom(s, i, onFresh);
            && s[i] == '\''
            && Unquote(e.literal) == if i + 1 < e.end && s[e.end - 1] == '\'' then s[i + 1..e.end - 1]
                                     else s[i + 1..e.end]
  {
    hide TokenFrom, IsBlank, IsUnknown, Unquote;
    FirstByteDecides(s, i, onFresh);
    LiteralIsBytes(s, i, onFresh);
    ExtentIsMaximal(s, i, onFresh);
    UnquotedText(s, i, TokenFrom(s, i, onFresh).end);
  }

  lemma UnquotedText(s: string, i: nat, e: nat)
    requires i < e <= |s| && s[i] == '\'' && forall k :: i < k < e - 1 ==> s[k] != '\''
    ensures i + 1 < e && s[e - 1] == '\'' ==> Unquote(s[i..e]) == s[i + 1..e - 1]
    ensures !(i + 1 < e && s[e - 1] == '\'') ==> Unquote(s[i + 1..e]) == s[i + 1..e]
  {
    if i + 1 < e && s[e - 1] == '\'' {
      var quoted := s[i..e];
      assert quoted[|quoted| - 1] == s[e - 1] && quoted[0] == s[i];
      assert quoted[1..] == s[i + 1..e];
      assert quoted[1..|quoted| - 1] == quoted[1..][..|quoted| - 2] == s[i + 1..e - 1];
    } else if i + 1 < e {
      assert s[i + 1..e][|s[i + 1..e]| - 1] == s[e - 1];
    }
  }

  // ----- One node of a kind -----

  /** One node of the kind and name, at the keyword, with nothing else in it. */
  predicate IsPlain(nodes: seq<Node>, kind: NodeKind, name: string, at: Position) {
    nodes == [Node(kind, at, at, name, "", [], [], [])]
  }

  /** One node of the kind at the keyword, with no name, text or body of its own. */
  predicate HoldsOperands(nodes: seq<Node>, kind: NodeKind, at: Position, operands: seq<Operand>) {
    nodes == [Node(kind, at, at, "", "", operands, [], [])]
  }

  /** CALLNAT leaves a call of the target on its line, if that is a string or an identifier and not empty. */
  lemma CallLeaves(s: string, c: Cursor)
    requires c.lexer.pos <= |s| && c.token.kind == Keyword && c.token.literal == "CALLNAT"
    ensures var t, nodes := Step(s, c).token, StatementAt(s, c).value;
            if (t.kind == LiteralString || t.kind == Identifier) && t.line == c.token.line && TargetOf(t) != ""
            then IsPlain(nodes, Call, TargetOf(t), Start(c.token)) else nodes == []
  {
    hide Step, Rest, TargetOf, SQLFrom;
  }

  /** PERFORM leaves the name on its line, even a keyword's, but none for BREAK. */
  lemma PerformLeaves(s: string, c: Cursor)
    requires c.lexer.pos <= |s| && c.token.kind == Keyword && c.token.literal == "PERFORM"
    ensures var t, nodes := Step(s, c).token, StatementAt(s, c).value;
            if t.kind == EndOfFile || t.line != c.token.line then nodes == []
            else if t.kind == Identifier || (t.kind == Keyword && t.literal != "BREAK")
            then IsPlain(nodes, Perform, t.literal, Start(c.token))
            else IsPlain(nodes, Perform, "", Start(c.token))
  {
    hide Step, Rest, SQLFrom;
  }

  lemma IncludeLeaves(s: string, c: Cursor)
    requires c.lexer.pos <= |s| && c.token.kind == Keyword && c.token.literal == "INCLUDE"
    ensures var t, nodes := Step(s, c).token, StatementAt(s, c).value;
            if t.kind == EndOfFile || t.line != c.token.line then nodes == []
            else IsPlain(nodes, Include, TargetOf(t), Start(c.token))
  {
    hide Step, Rest, TargetOf, AfterTarget, SQLFrom;
  }

  /** FETCH always leaves a node: of the target on its line, behind REPEAT or RETURN if there, or of none. */
  lemma FetchLeaves(s: string, c: Cursor)
    requires c.lexer.pos <= |s| && c.token.kind == Keyword && c.token.literal == "FETCH"
    ensures var e := Step(s, c);
            var t := if e.token.line == c.token.line && (e.token.literal == "REPEAT" || e.token.literal == "RETURN")
                     then Step(s, e).token else e.token;
            IsPlain(StatementAt(s, c).value, Fetch,
                    if t.kind != EndOfFile && t.line == c.token.line then TargetOf(t) else "", Start(c.token))
  {
    hide Step, Rest, TargetOf, AfterTarget, SQLFrom;
  }

  /** RUN leaves the program on its line, and the library behind it as an operand. */
  lemma RunLeaves(s: string, c: Cursor)
    requires c.lexer.pos <= |s| && c.token.kind == Keyword && c.token.literal == "RUN"
    ensures var e, line, nodes := Step(s, c), c.token.line, StatementAt(s, c).value;
            var t := e.token;
            var l := if t.kind == LiteralString || t.kind == Identifier then Step(s, e).token else t;
            if t.kind == EndOfFile || t.line != line then nodes == []
            else nodes == [Node(Run, Start(c.token), Start(c.token), TargetOf(t), "",
                                if (l.kind == LiteralString || l.kind == Identifier) && l.line == line
                                then [Operand(RunLibrary, TargetOf(l), Start(l), false)] else [], [], [])]
  {
    hide Step, Rest, TargetOf, SQLFrom;
  }

  // ----- Record access -----

  /** FIND and FINDNAT leave the view on their line, behind a row limit and NUMBER. */
  lemma FindLeaves(s: string, c: Cursor)
    requires c.lexer.pos <= |s| && c.token.kind == Keyword
    requires c.token.literal == "FIND" || c.token.literal == "FINDNAT"
    ensures var line, nodes := c.token.line, StatementAt(s, c).value;
            var e := AfterRowLimit(s, Step(s, c), line);
            var t := if e.token.line == line && e.token.literal == "NUMBER" then Step(s, e).token else e.token;
            if t.kind == EndOfFile || t.line != line then nodes == []
            else IsPlain(nodes, Find, if t.kind == Identifier then t.literal else "", Start(c.token))
  {
    hide Step, Rest, AfterRowLimit, SQLFrom;
  }

  /** READ RESULT SET leaves a loop over the table behind; any other READ the view on its line, behind a row limit. */
  lemma ReadLeaves(s: string, c: Cursor)
    requires c.lexer.pos <= |s| && c.token.kind == Keyword && c.token.literal == "READ"
    ensures var e, line, nodes := Step(s, c), c.token.line, StatementAt(s, c).value;
            if e.token.literal == "RESULT" && Step(s, e).token.literal == "SET" then
              && |nodes| == 1 && nodes[0].kind == ReadResultSet && nodes[0].start == Start(c.token)
              && var t := Step(s, Step(s, e)).token;
                 nodes[0].operands == if t.kind == Identifier then [Operand(Table, t.literal, Start(t), false)] else []
            else
              var from := if e.token.literal == "RESULT" then Cursor(e.token, Step(s, e).lexer) else e;
              var t := AfterRowLimit(s, from, line).token;
              IsPlain(nodes, Read, if t.kind == Identifier && t.line == line then t.literal else "", Start(c.token))
  {
    hide Step, Rest, AfterRowLimit, BodyAt, BodyStart, SQLFrom;
    var e := Step(s, c);
    assert StatementAt(s, c) == ReadFrom(s, Start(c.token), e);
    if IsResultSet(s, e) {
      var table := TableAt(s, Step(s, Step(s, e)), Table);
      assert ReadFrom(s, Start(c.token), e)
          == LoopFrom(s, ReadResultSet, Start(c.token), table.value, BodyStart(s, table.after));
    }
  }

  /** GET leaves the view on its line; GET SAME leaves a node without one. */
  lemma GetLeaves(s: string, c: Cursor)
    requires c.lexer.pos <= |s| && c.token.kind == Keyword && c.token.literal == "GET"
    ensures var t, nodes := Step(s, c).token, StatementAt(s, c).value;
            if t.literal == "SAME" && t.line == c.token.line then IsPlain(nodes, Get, "", Start(c.token))
            else if t.kind == EndOfFile || t.line != c.token.line then nodes == []
            else IsPlain(nodes, Get, if t.kind == Identifier then t.literal else "", Start(c.token))
  {
    hide Step, Rest, AfterRowLimit, SQLFrom;
  }

  /** STORE always leaves a node: of the file on its line, behind RECORD, IN and FILE, or of none. */
  lemma StoreLeaves(s: string, c: Cursor)
    requires c.lexer.pos <= |s| && c.token.kind == Keyword && c.token.literal == "STORE"
    ensures var t := AfterWords(s, Step(s, c), c.token.line, {"RECORD", "IN", "FILE"}).token;
            IsPlain(StatementAt(s, c).value, Store,
                    if t.kind == Identifier && t.line == c.token.line then t.literal else "", Start(c.token))
  {
    hide Step, Rest, AfterWords, SQLFrom;
  }

  // ----- Embedded SQL -----

  lemma TransactionLeaves(s: string, c: Cursor)
    requires c.lexer.pos <= |s| && c.token.kind == Keyword
    ensures c.token.literal == "COMMIT" ==> IsPlain(StatementAt(s, c).value, Commit, "", Start(c.token))
    ensures c.token.literal == "ROLLBACK" ==> IsPlain(StatementAt(s, c).value, Rollback, "", Start(c.token))
    ensures c.token.literal == "CALLDBPROC" ==>
              IsPlain(StatementAt(s, c).value, CallDBProc, TargetOf(Step(s, c).token), Start(c.token))
  {
    hide Step, Rest, TargetOf, AfterTarget, CallOrRecordFrom;
  }

  /** INSERT INTO leaves the table and the values, any other INSERT nothing. */
  lemma InsertLeaves(s: string, c: Cursor)
    requires c.lexer.pos <= |s| && c.token.kind == Keyword && c.token.literal == "INSERT"
    ensures var e, nodes := Step(s, c), StatementAt(s, c).value;
            if e.token.literal == "INTO"
            then HoldsOperands(nodes, Insert, Start(c.token), InsertOperands(s, Step(s, e)).value) else nodes == []
  {
    hide Step, Rest, InsertOperands, CallOrRecordFrom;
  }

  lemma MergeLeaves(s: string, c: Cursor)
    requires c.lexer.pos <= |s| && c.token.kind == Keyword && c.token.literal == "MERGE"
    ensures var e, nodes := Step(s, c), StatementAt(s, c).value;
            var t := Step(s, e).token;
            if e.token.literal == "INTO"
            then HoldsOperands(nodes, Merge, Start(c.token),
                               if t.kind == Identifier then [Operand(Into, t.literal, Start(t), false)] else [])
            else nodes == []
  {
    hide Step, Rest, CallOrRecordFrom;
  }

  /** UPDATE of the record read keeps the label; with a table and SET or WHERE it keeps the operands; with a table alone
      it leaves nothing. */
  lemma UpdateLeaves(s: string, c: Cursor)
    requires c.lexer.pos <= |s| && c.token.kind == Keyword && c.token.literal == "UPDATE"
    ensures var e, at, nodes := Step(s, c), Start(c.token), StatementAt(s, c).value;
            if e.token.kind != Identifier
            then nodes == [Node(RecordUpdate, at, at, "", LabelText(s, e).value, [], [], [])]
            else if Step(s, e).token.literal == "SET" || Step(s, e).token.literal == "WHERE"
            then HoldsOperands(nodes, SQLUpdate, at, [Operand(Table, e.token.literal, Start(e.token), false)]
                                                       + UpdateOperands(s, Step(s, e)).value)
            else nodes == []
  {
    hide Step, Rest, UpdateOperands, LabelText, CallOrRecordFrom;
  }

  lemma DeleteLeaves(s: string, c: Cursor)
    requires c.lexer.pos <= |s| && c.token.kind == Keyword && c.token.literal == "DELETE"
    ensures var e, at, nodes := Step(s, c), Start(c.token), StatementAt(s, c).value;
            if e.token.literal == "FROM" then HoldsOperands(nodes, SQLDelete, at, DeleteOperands(s, Step(s, e)).value)
            else nodes == [Node(RecordDelete, at, at, "", LabelText(s, e).value, [], [], [])]
  {
    hide Step, Rest, DeleteOperands, LabelText, CallOrRecordFrom;
  }

  /** SELECT SINGLE has no body; the body of any other SELECT ends at END-SELECT or LOOP. */
  lemma SelectLeaves(s: string, c: Cursor)
    requires c.lexer.pos <= |s| && c.token.kind == Keyword && c.token.literal == "SELECT"
    ensures var e, at, nodes := Step(s, c), Start(c.token), StatementAt(s, c).value;
            if e.token.literal == "SINGLE"
            then HoldsOperands(nodes, SelectSingle, at, SelectOperands(s, Step(s, e)).value)
            else
              var operands := SelectOperands(s, e);
              nodes == [Node(Select, at, at, "", "", operands.value, [],
                             BodyAt(s, operands.after, {"END-SELECT", "LOOP"}).value)]
  {
    hide Step, Rest, SelectOperands, BodyAt, CallOrRecordFrom;
    assert StatementAt(s, c) == SelectFrom(s, Start(c.token), Step(s, c));
  }

  /** PROCESS SQL leaves the DDM on its line, with the opaque body as its text. */
  lemma ProcessLeaves(s: string, c: Cursor)
    requires c.lexer.pos <= |s| && c.token.kind == Keyword && c.token.literal == "PROCESS"
    ensures var e, at, nodes := Step(s, c), Start(c.token), StatementAt(s, c).value;
            var t := Step(s, e).token;
            if e.token.kind != EndOfFile && e.token.line == at.line && e.token.literal == "SQL"
               && t.kind == Identifier && t.line == at.line
            then nodes == [Node(ProcessSQL, at, at, t.literal, BodyText(s, Step(s, Step(s, e))), [], [], [])]
            else nodes == []
  {
    hide Step, Rest, BodyText, AfterBody, CallOrRecordFrom;
  }

  // ----- Definitions -----

  /** DEFINE SUBROUTINE and DEFINE MAP leave one node of the name behind, a map with its fields. */
  lemma BlockLeaves(s: string, at: Position, c: Cursor)
    requires c.lexer.pos <= |s|
    ensures var e, nodes := Step(s, c), DefinitionFrom(s, at, c).value;
            var t := e.token;
            && (c.token.literal == "SUBROUTINE" ==>
                 IsPlain(nodes, Subroutine, if t.kind == Identifier || t.kind == Keyword then t.literal else "", at))
            && (c.token.literal == "MAP" ==>
                 var fields := MapFields(s, if t.kind == LiteralString || t.kind == Identifier then Step(s, e) else e);
                 nodes == [Node(Map, at, at, TargetOf(t), "", [], fields.value, [])])
  {
    hide Step, Rest, MapFields, AfterBlock, Unquote, WorkFileFrom, Sections;
  }

  /** DEFINE WORK FILE leaves the name behind a plain number. */
  lemma WorkFileLeaves(s: string, at: Position, c: Cursor)
    requires c.lexer.pos <= |s| && c.token.literal == "WORK"
    ensures var file := Step(s, c);
            var number := Step(s, file);
            var name, nodes := Step(s, number).token, DefinitionFrom(s, at, c).value;
            if file.token.literal == "FILE" && number.token.kind == LiteralNumeric && AtoiSucceeds(number.token.literal)
               && (name.kind == LiteralString || name.kind == Identifier)
            then IsPlain(nodes, WorkFile, TargetOf(name), at) else nodes == []
  {
    hide Step, Rest, TargetOf, AtoiSucceeds, Sections, SubroutineFrom, MapFrom;
  }

  /** DEFINE DATA leaves a node for each section keyword that follows another section's fields, the first at DEFINE. */
  lemma {:induction false} SectionsLeave(s: string, c: Cursor, first: Option<Position>, k: nat)
    requires c.lexer.pos <= |s| && k < |Sections(s, c, first).value|
    ensures var n := Sections(s, c, first).value[k];
            && n.kind == DataSection && n.text == "" && n.body == []
            && n.name in {"local", "parameter", "global", "linkage", "independent", "context", "object"}
            && (forall o :: o in n.operands ==> o.clause == Using && !o.hostVar)
            && |n.operands| <= 1
            && (k == 0 && first.Some? ==> n.start == first.value)
    decreases Ahead(s, c)
  {
    hide Step, FieldLines;
    LowercaseSection(c.token.literal);
    var one := SectionAt(s, c, if first.Some? then first.value else Start(c.token));
    if k > 0 {
      SectionsLeave(s, one.after, None, k - 1);
    }
  }

  lemma LowercaseSection(literal: string)
    requires IsSectionKeyword(literal)
    ensures Lowercase(literal) in {"local", "parameter", "global", "linkage", "independent", "context", "object"}
  {
    assert Lowercase("LOCAL") == "local" && Lowercase("PARAMETER") == "parameter" && Lowercase("GLOBAL") == "global";
    assert Lowercase("LINKAGE") == "linkage" && Lowercase("INDEPENDENT") == "independent";
    assert Lowercase("CONTEXT") == "context" && Lowercase("OBJECT") == "object";
  }

  // ----- What the skip behind a statement passes -----

  /** It passes no statement, no loop terminator and no program boundary, and stops at nothing else. */
  lemma SkipStopsAt(tok: Token)
    ensures Stops(NextStatement, tok) <==>
      && tok.kind == Keyword
      && (|| IsDefine(tok) || IsCallOrRecord(tok) || IsSQL(tok)
          || tok.literal in {"END-SELECT", "LOOP", "END-RESULT", "END", "END-DEFINE"})
    ensures StartsStatement(tok) <==> IsDefine(tok) || IsCallOrRecord(tok) || IsSQL(tok)
  {
  }

  // ----- Token by token -----

  /** The tokens from a cursor on are of these kinds and literals. */
  predicate Reads(s: string, c: Cursor, words: seq<(TokenType, string)>)
    requires c.lexer.pos <= |s|
    decreases |words|
  {
    words == [] || (c.token.kind == words[0].0 && c.token.literal == words[0].1 && Reads(s, Step(s, c), words[1..]))
  }

  /** An operand without its place. */
  function Brief(o: Operand): (Clause, string, bool) {
    (o.clause, o.name, o.hostVar)
  }

  lemma Reading(s: string, c: Cursor, words: seq<(TokenType, string)>)
    requires c.lexer.pos <= |s| && words != [] && Reads(s, c, words)
    ensures c.token.kind == words[0].0 && c.token.literal == words[0].1 && Reads(s, Step(s, c), words[1..])
  {
  }

  /** In (:A, 1) the colon marks the name behind it, and a number is an operand too. */
  lemma ValuesExample(s: string, c: Cursor)
    requires c.lexer.pos <= |s|
    requires Reads(s, c, [(Punctuation, ":"), (Identifier, "A"), (Punctuation, ","), (LiteralNumeric, "1"),
                          (Punctuation, ")")])
    ensures var r := ValueRun(s, c).value;
            |r| == 2 && Brief(r[0]) == (Values, "A", true) && Brief(r[1]) == (Values, "1", false)
  {
    hide Step, Reads;
    var words := [(Punctuation, ":"), (Identifier, "A"), (Punctuation, ","), (LiteralNumeric, "1"), (Punctuation, ")")];
    var a := Step(s, c);
    var comma := Step(s, a);
    var one := Step(s, comma);
    var close := Step(s, one);
    Reading(s, c, words);
    Reading(s, a, words[1..]);
    Reading(s, comma, words[2..]);
    Reading(s, one, words[3..]);
    Reading(s, close, words[4..]);
    assert ValueRun(s, close).value == [];
    assert ValueRun(s, one).value == [OperandOf(Values, one.token, false)] + ValueRun(s, close).value;
    assert ValueRun(s, comma).value == [] + ValueRun(s, one).value;
    assert ValueRun(s, c).value == [OperandOf(Values, a.token, true)] + ValueRun(s, comma).value;
  }

  /** INSERT INTO T VALUES (...): the table, then the values. */
  lemma InsertHoldsValues(s: string, c: Cursor)
    requires c.lexer.pos <= |s| && Reads(s, c, [(Identifier, "T"), (Keyword, "VALUES"), (Punctuation, "(")])
    ensures var r, values := InsertOperands(s, c).value, ValueRun(s, Step(s, Step(s, Step(s, c)))).value;
            |r| == 1 + |values| && Brief(r[0]) == (Into, "T", false) && r[1..] == values
  {
    hide Step, Reads, ValueRun;
    var words := [(Identifier, "T"), (Keyword, "VALUES"), (Punctuation, "(")];
    Reading(s, c, words);
    Reading(s, Step(s, c), words[1..]);
    Reading(s, Step(s, Step(s, c)), words[2..]);
    assert ValuesAt(s, Step(s, c)) == Step(s, c);
  }

  /** UPDATE T SET ... WHERE ...: each clause's names carry its tag; a clause that is not there has none. */
  lemma UpdateClauseTags(s: string, c: Cursor)
    requires c.lexer.pos <= |s|
    ensures c.token.literal == "SET" ==>
              var targets := Assignments(s, Step(s, c), SetTargets, false);
              && AllOf(targets.value, SetTargets) && UpdateOperands(s, c).value[..|targets.value|] == targets.value
              && (targets.after.token.literal == "WHERE" ==>
                   UpdateOperands(s, c).value[|targets.value|..]
                     == Assignments(s, Step(s, targets.after), Where, false).value)
              && (targets.after.token.literal != "WHERE" ==> UpdateOperands(s, c).value == targets.value)
    ensures c.token.literal == "WHERE" ==>
              UpdateOperands(s, c).value == Assignments(s, Step(s, c), Where, false).value
              && AllOf(UpdateOperands(s, c).value, Where)
  {
    hide Step, Assignments, AllOf;
    AssignmentTags(s, Step(s, c), SetTargets, false);
    AssignmentTags(s, Step(s, c), Where, false);
  }

  lemma {:induction false} AssignmentTags(s: string, c: Cursor, clause: Clause, pending: bool)
    requires c.lexer.pos <= |s|
    ensures AllOf(Assignments(s, c, clause, pending).value, clause)
    decreases Ahead(s, c)
  {
    hide Step, IsStatementKeyword, IsProgramBoundary;
    if !EndsAssignments(c.token, clause) {
      AssignmentTags(s, Step(s, c), clause, if IsName(c.token) then false else pending || IsColon(c.token));
    }
  }

  /** DELETE FROM T WHERE ...: the table is tagged From, what stands behind WHERE is tagged Where. */
  lemma DeleteClauseTags(s: string, c: Cursor)
    requires c.lexer.pos <= |s| && c.token.kind == Identifier
    ensures var r, e := DeleteOperands(s, c).value, Step(s, c);
            && r != [] && Brief(r[0]) == (From, c.token.literal, false) && AllOf(r[1..], Where)
            && (e.token.literal != "WHERE" ==> r[1..] == [])
            && (e.token.literal == "WHERE" ==> r[1..] == DeleteRun(s, Step(s, e)).value)
  {
    hide Step, DeleteRun;
    var e := Step(s, c);
    DeleteRunTags(s, Step(s, e));
  }

  lemma {:induction false} DeleteRunTags(s: string, c: Cursor)
    requires c.lexer.pos <= |s|
    ensures AllOf(DeleteRun(s, c).value, Where)
    decreases Ahead(s, c)
  {
    hide Step, IsStatementKeyword, IsProgramBoundary;
    if !EndsAssignments(c.token, Where) {
      DeleteRunTags(s, OneOperand(s, c, Where, false).after);
    }
  }

  /** (A10): the text between the parentheses; a gap before the closing one leaves a space. */
  lemma TypeExample(s: string, c: Cursor, name: string)
    requires c.lexer.pos <= |s| && Reads(s, c, [(Punctuation, "("), (Identifier, "A10"), (Punctuation, ")")])
    ensures var text := Step(s, c);
            var close := Step(s, text);
            TypeText(s, c, name) == Taken(if Gap(text.token, close.token) then "A10 " else "A10", Step(s, close))
  {
    hide Step, Reads;
    var words := [(Punctuation, "("), (Identifier, "A10"), (Punctuation, ")")];
    var text := Step(s, c);
    var close := Step(s, text);
    Reading(s, c, words);
    Reading(s, text, words[1..]);
    Reading(s, close, words[2..]);
    assert SpecTokens(s, close, 0) == Taken([], close);
    assert SpecTokens(s, text, 0) == Taken([text.token] + [], close);
    assert SpecText([]) == "" && [text.token][..0] == [];
    assert SpecText([text.token]) == "" + "" + "A10" == "A10";
    assert "A10" + "" == "A10" && "A10" + " " == "A10 ";
  }

  /** 1 #A (A10): level, name and type. */
  lemma TypedFieldExample(s: string, c: Cursor)
    requires c.lexer.pos <= |s|
    requires Reads(s, c, [(LiteralNumeric, "1"), (Identifier, "#A"), (Punctuation, "("), (Identifier, "A10"),
                          (Punctuation, ")")])
    ensures var text := Step(s, Step(s, Step(s, c)));
            var typeText := if Gap(text.token, Step(s, text).token) then "A10 " else "A10";
            FieldLine(s, c).value == Some(Field(1, "#A", "", typeText, "", Start(c.token)))
  {
    hide Step, Reads, TypeText;
    var words := [(LiteralNumeric, "1"), (Identifier, "#A"), (Punctuation, "("), (Identifier, "A10"),
                  (Punctuation, ")")];
    Reading(s, c, words);
    Reading(s, Step(s, c), words[1..]);
    assert words[1..][1..] == [(Punctuation, "("), (Identifier, "A10"), (Punctuation, ")")];
    Reading(s, Step(s, Step(s, c)), words[1..][1..]);
    TypeExample(s, Step(s, Step(s, c)), "#A");
    LevelOne();
  }

  lemma LevelOne()
    ensures Atoi("1") == 1
  {
    assert "1"[..0] == "" && DigitsValue("") == 0;
  }

  /** 1 V VIEW OF X: a view of X, if that is on the line. */
  lemma ViewFieldExample(s: string, c: Cursor)
    requires c.lexer.pos <= |s|
    requires Reads(s, c, [(LiteralNumeric, "1"), (Identifier, "V"), (Identifier, "VIEW"), (Identifier, "OF"),
                          (Identifier, "X"), (EndOfFile, "")])
    ensures var x := Step(s, Step(s, Step(s, Step(s, c)))).token;
            var view := if x.line == Step(s, Step(s, c)).token.line then "X" else "";
            FieldLine(s, c).value == Some(Field(1, "V", "", "", view, Start(c.token)))
  {
    hide Step, Reads, SpecTokens;
    var words := [(LiteralNumeric, "1"), (Identifier, "V"), (Identifier, "VIEW"), (Identifier, "OF"), (Identifier, "X"),
                  (EndOfFile, "")];
    var name := Step(s, c);
    var view := Step(s, name);
    var of := Step(s, view);
    var x := Step(s, of);
    Reading(s, c, words);
    Reading(s, name, words[1..]);
    Reading(s, view, words[2..]);
    Reading(s, of, words[3..]);
    Reading(s, x, words[4..]);
    Reading(s, Step(s, x), words[5..]);
    LevelOne();
  }

  /** 1 REDEFINE #A: a redefinition, without a name of its own. */
  lemma RedefineExample(s: string, c: Cursor)
    requires c.lexer.pos <= |s| && Reads(s, c, [(LiteralNumeric, "1"), (Keyword, "REDEFINE"), (Identifier, "#A")])
    ensures FieldLine(s, c).value == Some(Field(1, "", "#A", "", "", Start(c.token)))
  {
    hide Step, Reads;
    var words := [(LiteralNumeric, "1"), (Keyword, "REDEFINE"), (Identifier, "#A")];
    Reading(s, c, words);
    Reading(s, Step(s, c), words[1..]);
    Reading(s, Step(s, Step(s, c)), words[2..]);
    LevelOne();
  }

  // ----- One whole source -----

  const CALLING := "CALLNAT 'SUB1'"

  lemma CallingWords()
    ensures NameEnd(CALLING, 0) == 7 && Upper(CALLING[0..7]) == "CALLNAT" && IsKeyword("CALLNAT")
  {
    WordEnds(CALLING, 0, 7);
    assert CALLING[0..7] == "CALLNAT" && Upper("CALLNAT") == "CALLNAT";
  }

  lemma CallingTokens()
    ensures FirstCursor(CALLING) == Cursor(Token(Keyword, "CALLNAT", 1, 1), State(7, 1, 8, true))
    ensures Step(CALLING, FirstCursor(CALLING)) == Cursor(Token(LiteralString, "'SUB1'", 1, 9), State(14, 1, 15, true))
    ensures Step(CALLING, Step(CALLING, FirstCursor(CALLING))).token.kind == EndOfFile
  {
    CallingWords();
    hide NameEnd, Upper, IsKeyword;
    NoBlanks(CALLING, State(0, 1, 1, false));
    NoBlanks(CALLING, State(8, 1, 9, true));
    NoBlanks(CALLING, State(14, 1, 15, true));
    assert SkipBlanks(CALLING, State(7, 1, 8, true)) == SkipBlanks(CALLING, State(8, 1, 9, true));
    hide SkipBlanks;
    NextKeyword(CALLING, State(0, 1, 1, false), 0, 7);
    QuoteAt(CALLING, 9, 13);
    assert CALLING[8..14] == "'SUB1'";
  }

  lemma {:induction false} QuoteAt(s: string, i: nat, q: nat)
    requires i <= q < |s| && s[q] == '\'' && forall k :: i <= k < q ==> s[k] != '\''
    ensures QuoteFrom(s, i) == q
    decreases q - i
  {
    if i < q {
      QuoteAt(s, i + 1, q);
    }
  }

  /** The source is one call of SUB1. */
  lemma CallingProgram()
    ensures ProgramAt(CALLING, FirstCursor(CALLING))
         == [Node(Call, Position(1, 1), Position(1, 1), "SUB1", "", [], [], [])]
  {
    CallingTokens();
    hide Step, FirstCursor;
    var c := FirstCursor(CALLING);
    var t := Step(CALLING, c);
    assert "'SUB1'"[1..5] == "SUB1" && TargetOf(t.token) == "SUB1";
    CallLeaves(CALLING, c);
    assert StatementAt(CALLING, c).after == Rest(CALLING, Step(CALLING, t)) == Step(CALLING, t);
    hide StatementAt;
    assert ProgramAt(CALLING, Step(CALLING, t)) == [];
    assert ProgramAt(CALLING, c) == StatementAt(CALLING, c).value + [];
  }
}
