/** The operands SQL statements and RUN capture, as functions of the cursor (internal/analysis/natural/parser.go). */
module ClauseSyntax {
  import opened Model
  import opened Lexer
  import opened Syntax

  predicate IsColon(tok: Token) {
    tok.kind == Punctuation && tok.literal == ":"
  }

  function OperandOf(clause: Clause, tok: Token, hostVar: bool): Operand {
    Operand(clause, tok.literal, Start(tok), hostVar)
  }

  /** Behind a string or identifier, if one is there. */
  function AfterTarget(s: string, c: Cursor): (r: Cursor)
    requires c.lexer.pos <= |s|
    ensures Moved(s, c, r)
  {
    if HasTarget(c.token) then Step(s, c) else c
  }

  /** The library RUN names behind its program, on the keyword's line. */
  function LibraryAt(s: string, c: Cursor, line: int): (r: Taken<seq<Operand>>)
    requires c.lexer.pos <= |s|
    ensures Moved(s, c, r.after)
  {
    if OnLine(c.token, line) && HasTarget(c.token)
    then Taken([Operand(RunLibrary, TargetOf(c.token), Start(c.token), false)], Step(s, c))
    else Taken([], c)
  }

  /** An identifier behind INTO, FROM or a verb. */
  function TableAt(s: string, c: Cursor, clause: Clause): (r: Taken<seq<Operand>>)
    requires c.lexer.pos <= |s|
    ensures Moved(s, c, r.after)
  {
    if c.token.kind == Identifier then Taken([OperandOf(clause, c.token, false)], Step(s, c)) else Taken([], c)
  }

  /** The literals up to the closing parenthesis. */
  function LabelRun(s: string, c: Cursor): (r: Taken<string>)
    requires c.lexer.pos <= |s|
    ensures Moved(s, c, r.after)
    decreases Ahead(s, c)
  {
    if Closes(c.token) then Taken("", c) else Joined(c.token.literal, LabelRun(s, Step(s, c)))
  }

  /** The label of a record statement, if one is there. */
  function LabelText(s: string, c: Cursor): (r: Taken<string>)
    requires c.lexer.pos <= |s|
    ensures Moved(s, c, r.after)
  {
    if !IsOpening(c.token) then Taken("", c)
    else
      var run := LabelRun(s, Step(s, c));
      Taken(run.value, if IsClosing(run.after.token) then Step(s, run.after) else run.after)
  }

  lemma LabelRunStep(s: string, c: Cursor, before: string)
    requires c.lexer.pos <= |s|
    ensures var all := Joined(before, LabelRun(s, c));
            if Closes(c.token) then all == Taken(before, c)
            else all == Joined(before + c.token.literal, LabelRun(s, Step(s, c)))
  {
    hide Step;
    JoinedNothing(before, c);
    if c.token.kind != EndOfFile {
      JoinedTwice(before, c.token.literal, LabelRun(s, Step(s, c)));
    }
  }

  // ----- Assignments -----

  predicate EndsAssignments(tok: Token, clause: Clause) {
    || tok.kind == EndOfFile || (clause == SetTargets && tok.literal == "WHERE")
    || IsStatementKeyword(tok.literal) || IsProgramBoundary(tok.literal)
  }

  /** The names of SET, up to WHERE, or of WHERE.  A colon marks the next name, whatever stands between them. */
  function Assignments(s: string, c: Cursor, clause: Clause, colonPending: bool): (r: Taken<seq<Operand>>)
    requires c.lexer.pos <= |s|
    ensures Moved(s, c, r.after)
    decreases Ahead(s, c)
  {
    if EndsAssignments(c.token, clause) then Taken([], c)
    else if IsName(c.token) then
           Joined([OperandOf(clause, c.token, colonPending)], Assignments(s, Step(s, c), clause, false))
    else Assignments(s, Step(s, c), clause, colonPending || IsColon(c.token))
  }

  lemma AssignmentsStep(s: string, c: Cursor, clause: Clause, colonPending: bool, before: seq<Operand>)
    requires c.lexer.pos <= |s|
    ensures var all := Joined(before, Assignments(s, c, clause, colonPending));
            if EndsAssignments(c.token, clause) then all == Taken(before, c)
            else if IsName(c.token) then
              all == Joined(before + [OperandOf(clause, c.token, colonPending)],
                            Assignments(s, Step(s, c), clause, false))
            else all == Joined(before, Assignments(s, Step(s, c), clause, colonPending || IsColon(c.token)))
  {
    hide Step, EndsAssignments;
    JoinedNothing(before, c);
    if IsName(c.token) {
      JoinedTwice(before, [OperandOf(clause, c.token, colonPending)], Assignments(s, Step(s, c), clause, false));
    }
  }

  /** Behind the table of UPDATE: SET and its targets, then WHERE and its names, each if it is there. */
  function UpdateOperands(s: string, c: Cursor): (r: Taken<seq<Operand>>)
    requires c.lexer.pos <= |s|
    ensures Moved(s, c, r.after)
  {
    var targets := AssignmentClause(s, c, "SET", SetTargets);
    Joined(targets.value, AssignmentClause(s, targets.after, "WHERE", Where))
  }

  function AssignmentClause(s: string, c: Cursor, word: string, clause: Clause): (r: Taken<seq<Operand>>)
    requires c.lexer.pos <= |s|
    ensures Moved(s, c, r.after)
  {
    if c.token.literal == word then Assignments(s, Step(s, c), clause, false) else Taken([], c)
  }

  // ----- Single operands -----

  /** An optional colon and a name, or a number where one will do; otherwise the token is passed over. */
  function OneOperand(s: string, c: Cursor, clause: Clause, numberToo: bool): (r: Taken<seq<Operand>>)
    requires c.lexer.pos <= |s| && c.token.kind != EndOfFile
    ensures Moved(s, c, r.after) && Ahead(s, r.after) < Ahead(s, c)
  {
    NameOrNothing(s, if IsColon(c.token) then Step(s, c) else c, clause, numberToo, IsColon(c.token))
  }

  function NameOrNothing(s: string, c: Cursor, clause: Clause, numberToo: bool, hostVar: bool): (r: Taken<seq<Operand>>)
    requires c.lexer.pos <= |s|
    ensures Moved(s, c, r.after) && (c.token.kind != EndOfFile ==> Ahead(s, r.after) < Ahead(s, c))
  {
    var taken := IsName(c.token) || (numberToo && c.token.kind == LiteralNumeric);
    Taken(if taken then [OperandOf(clause, c.token, hostVar)] else [], Step(s, c))
  }

  /** The operands of a VALUES list, up to its closing parenthesis. */
  function ValueRun(s: string, c: Cursor): (r: Taken<seq<Operand>>)
    requires c.lexer.pos <= |s|
    ensures Moved(s, c, r.after)
    decreases Ahead(s, c)
  {
    if Closes(c.token) then Taken([], c)
    else
      var one := OneOperand(s, c, Values, true);
      Joined(one.value, ValueRun(s, one.after))
  }

  lemma ValueRunStep(s: string, c: Cursor, before: seq<Operand>)
    requires c.lexer.pos <= |s|
    ensures var all := Joined(before, ValueRun(s, c));
            if Closes(c.token) then all == Taken(before, c)
            else var one := OneOperand(s, c, Values, true); all == Joined(before + one.value, ValueRun(s, one.after))
  {
    hide OneOperand;
    JoinedNothing(before, c);
    if c.token.kind != EndOfFile {
      var one := OneOperand(s, c, Values, true);
      JoinedTwice(before, one.value, ValueRun(s, one.after));
    }
  }

  /** Where VALUES is looked for: the first VALUES, statement or program boundary. */
  function ValuesAt(s: string, c: Cursor): (r: Cursor)
    requires c.lexer.pos <= |s|
    ensures Moved(s, c, r)
    decreases Ahead(s, c)
  {
    if c.token.kind == EndOfFile || c.token.literal == "VALUES" || IsProgramBoundary(c.token.literal)
      || StartsStatement(c.token) then c
    else ValuesAt(s, Step(s, c))
  }

  /** A parenthesised list of values, if one is there. */
  function ValueList(s: string, c: Cursor): (r: Taken<seq<Operand>>)
    requires c.lexer.pos <= |s|
    ensures Moved(s, c, r.after)
  {
    if !IsOpening(c.token) then Taken([], c)
    else
      var run := ValueRun(s, Step(s, c));
      Taken(run.value, if IsClosing(run.after.token) then Step(s, run.after) else run.after)
  }

  /** Behind INSERT INTO: the table and the values. */
  function InsertOperands(s: string, c: Cursor): (r: Taken<seq<Operand>>)
    requires c.lexer.pos <= |s|
    ensures Moved(s, c, r.after)
  {
    var table := TableAt(s, c, Into);
    var v := ValuesAt(s, table.after);
    Joined(table.value, if v.token.literal == "VALUES" then ValueList(s, Step(s, v)) else Taken([], v))
  }

  /** The operands of WHERE in a DELETE, up to the next statement. */
  function DeleteRun(s: string, c: Cursor): (r: Taken<seq<Operand>>)
    requires c.lexer.pos <= |s|
    ensures Moved(s, c, r.after)
    decreases Ahead(s, c)
  {
    if EndsAssignments(c.token, Where) then Taken([], c)
    else
      var one := OneOperand(s, c, Where, false);
      Joined(one.value, DeleteRun(s, one.after))
  }

  lemma DeleteRunStep(s: string, c: Cursor, before: seq<Operand>)
    requires c.lexer.pos <= |s|
    ensures var all := Joined(before, DeleteRun(s, c));
            if EndsAssignments(c.token, Where) then all == Taken(before, c)
            else var one := OneOperand(s, c, Where, false); all == Joined(before + one.value, DeleteRun(s, one.after))
  {
    hide OneOperand;
    JoinedNothing(before, c);
    if c.token.kind != EndOfFile {
      var one := OneOperand(s, c, Where, false);
      JoinedTwice(before, one.value, DeleteRun(s, one.after));
    }
  }

  /** Behind DELETE FROM: the table and the operands of WHERE. */
  function DeleteOperands(s: string, c: Cursor): (r: Taken<seq<Operand>>)
    requires c.lexer.pos <= |s|
    ensures Moved(s, c, r.after)
  {
    var table := TableAt(s, c, From);
    var e := table.after;
    Joined(table.value, if e.token.literal == "WHERE" then DeleteRun(s, Step(s, e)) else Taken([], e))
  }

  // ----- SELECT -----

  /** The names up to a stop of the statement or one of the words. */
  function NameRun(s: string, c: Cursor, clause: Clause, words: set<string>): (r: Taken<seq<Operand>>)
    requires c.lexer.pos <= |s|
    ensures Moved(s, c, r.after)
    decreases Ahead(s, c)
  {
    if c.token.kind == EndOfFile || StopsSelect(c.token) || c.token.literal in words then Taken([], c)
    else Joined(if IsName(c.token) then [OperandOf(clause, c.token, false)] else [],
                NameRun(s, Step(s, c), clause, words))
  }

  lemma NameRunStep(s: string, c: Cursor, clause: Clause, words: set<string>, before: seq<Operand>)
    requires c.lexer.pos <= |s|
    ensures var all := Joined(before, NameRun(s, c, clause, words));
            if c.token.kind == EndOfFile || StopsSelect(c.token) || c.token.literal in words then
              all == Taken(before, c)
            else if IsName(c.token) then
                   all == Joined(before + [OperandOf(clause, c.token, false)], NameRun(s, Step(s, c), clause, words))
            else all == Joined(before, NameRun(s, Step(s, c), clause, words))
  {
    hide Step, StopsSelect, OperandOf;
    JoinedNothing(before, c);
    if c.token.kind != EndOfFile {
      var rest := NameRun(s, Step(s, c), clause, words);
      JoinedTwice(before, [OperandOf(clause, c.token, false)], rest);
      NothingBefore(rest);
    }
  }

  /** INTO or FROM and its names, if the clause is there. */
  function SelectClause(s: string, c: Cursor, word: string, clause: Clause,
      words: set<string>): (r: Taken<seq<Operand>>)
    requires c.lexer.pos <= |s|
    ensures Moved(s, c, r.after)
  {
    if c.token.literal == word then NameRun(s, Step(s, c), clause, words) else Taken([], c)
  }

  predicate OpensSQLClause(tok: Token) {
    tok.literal in {"GROUP", "HAVING", "ORDER"}
  }

  /** Behind a GROUP, HAVING or ORDER clause. */
  function AfterSQLClause(s: string, c: Cursor): (r: Cursor)
    requires c.lexer.pos <= |s| && c.token.kind != EndOfFile
    ensures Moved(s, c, r) && Ahead(s, r) < Ahead(s, c)
  {
    var next := Step(s, c);
    var e := if next.token.literal == "BY" then Step(s, next) else next;
    SkipToMoves(s, e.token, e.lexer, SQLClause);
    var stop := SkipTo(s, e.token, e.lexer, SQLClause);
    Cursor(stop.0, stop.1)
  }

  /** The operands behind WHERE, without those of GROUP, HAVING and ORDER. */
  function WhereRun(s: string, c: Cursor): (r: Taken<seq<Operand>>)
    requires c.lexer.pos <= |s|
    ensures Moved(s, c, r.after)
    decreases Ahead(s, c)
  {
    if c.token.kind == EndOfFile || StopsSelect(c.token) then Taken([], c)
    else if OpensSQLClause(c.token) then WhereRun(s, AfterSQLClause(s, c))
    else
      var one := OneOperand(s, c, Where, false);
      Joined(one.value, WhereRun(s, one.after))
  }

  lemma WhereRunStep(s: string, c: Cursor, before: seq<Operand>)
    requires c.lexer.pos <= |s|
    ensures var all := Joined(before, WhereRun(s, c));
            if c.token.kind == EndOfFile || StopsSelect(c.token) then all == Taken(before, c)
            else if OpensSQLClause(c.token) then all == Joined(before, WhereRun(s, AfterSQLClause(s, c)))
            else var one := OneOperand(s, c, Where, false); all == Joined(before + one.value, WhereRun(s, one.after))
  {
    hide OneOperand, StopsSelect, AfterSQLClause, OpensSQLClause;
    JoinedNothing(before, c);
    if c.token.kind != EndOfFile {
      var one := OneOperand(s, c, Where, false);
      JoinedTwice(before, one.value, WhereRun(s, one.after));
    }
  }

  function WhereClause(s: string, c: Cursor): (r: Taken<seq<Operand>>)
    requires c.lexer.pos <= |s|
    ensures Moved(s, c, r.after)
  {
    if c.token.literal == "WHERE" then WhereRun(s, Step(s, c)) else Taken([], c)
  }

  /** Behind SELECT [SINGLE]: columns, INTO, FROM and WHERE, each up to the words that may follow it. */
  function SelectOperands(s: string, c: Cursor): (r: Taken<seq<Operand>>)
    requires c.lexer.pos <= |s|
    ensures Moved(s, c, r.after)
  {
    var columns := NameRun(s, c, Columns, {"INTO", "FROM", "WHERE"});
    var into := SelectClause(s, columns.after, "INTO", Into, {"FROM", "WHERE"});
    var from := SelectClause(s, into.after, "FROM", From, {"WHERE"});
    Joined(columns.value + into.value + from.value, WhereClause(s, from.after))
  }

  // ----- What the operands are -----

  /** The tokens of an assignment list. */
  function AssignmentTokens(s: string, c: Cursor, clause: Clause): seq<Token>
    requires c.lexer.pos <= |s|
    decreases Ahead(s, c)
  {
    if EndsAssignments(c.token, clause) then [] else [c.token] + AssignmentTokens(s, Step(s, c), clause)
  }

  function Names(tokens: seq<Token>): nat {
    if tokens == [] then 0 else (if IsName(tokens[0]) then 1 else 0) + Names(tokens[1..])
  }

  /** No name stands between a colon and token i, or between the start and token i if a colon was pending there. */
  predicate ColonBefore(tokens: seq<Token>, i: nat, pending: bool)
    requires i <= |tokens|
  {
    || (pending && forall m :: 0 <= m < i ==> !IsName(tokens[m]))
    || exists j :: 0 <= j < i && IsColon(tokens[j]) && forall m :: j < m < i ==> !IsName(tokens[m])
  }

  lemma ColonBeforeTail(tokens: seq<Token>, i: nat, pending: bool)
    requires 0 < i <= |tokens|
    ensures var rest := if IsName(tokens[0]) then false else pending || IsColon(tokens[0]);
            ColonBefore(tokens, i, pending) <==> ColonBefore(tokens[1..], i - 1, rest)
  {
    var tail := tokens[1..];
    var rest := if IsName(tokens[0]) then false else pending || IsColon(tokens[0]);
    if ColonBefore(tokens, i, pending) && !(rest && forall m :: 0 <= m < i - 1 ==> !IsName(tail[m])) {
      assert forall m :: 0 <= m < i - 1 ==> tail[m] == tokens[m + 1];
      assert forall m :: 0 < m < i ==> tokens[m] == tail[m - 1];
      var j :| 0 <= j < i && IsColon(tokens[j]) && forall m :: j < m < i ==> !IsName(tokens[m]);
      assert j > 0;
      assert IsColon(tail[j - 1]) && forall m :: j - 1 < m < i - 1 ==> !IsName(tail[m]);
    }
    if ColonBefore(tail, i - 1, rest) {
      ColonBeforeFromTail(tokens, i, pending, rest);
    }
  }

  lemma ColonBeforeFromTail(tokens: seq<Token>, i: nat, pending: bool, rest: bool)
    requires 0 < i <= |tokens| && rest == (if IsName(tokens[0]) then false else pending || IsColon(tokens[0]))
    requires ColonBefore(tokens[1..], i - 1, rest)
    ensures ColonBefore(tokens, i, pending)
  {
    var tail := tokens[1..];
    assert forall m :: 0 < m < i ==> tokens[m] == tail[m - 1];
    if !(rest && forall m :: 0 <= m < i - 1 ==> !IsName(tail[m])) {
      var j :| 0 <= j < i - 1 && IsColon(tail[j]) && forall m :: j < m < i - 1 ==> !IsName(tail[m]);
      assert IsColon(tokens[j + 1]);
    }
  }

  /** The operands of SET or WHERE are the names of the list, each taken once and in order; one is a host variable
      exactly if a colon stands before it with no name between. */
  lemma {:induction false} AssignmentAt(s: string, c: Cursor, clause: Clause, pending: bool, i: nat)
    requires c.lexer.pos <= |s| && i < |AssignmentTokens(s, c, clause)| && IsName(AssignmentTokens(s, c, clause)[i])
    ensures var tokens, operands := AssignmentTokens(s, c, clause), Assignments(s, c, clause, pending).value;
            var k := Names(tokens[..i]);
            k < |operands| && operands[k] == OperandOf(clause, tokens[i], ColonBefore(tokens, i, pending))
    decreases Ahead(s, c)
  {
    hide Step, IsStatementKeyword, IsProgramBoundary, OperandOf, ColonBefore;
    var tokens := AssignmentTokens(s, c, clause);
    var rest := if IsName(c.token) then false else pending || IsColon(c.token);
    if i == 0 {
      NoTokenBefore(tokens, pending);
    } else {
      AssignmentAt(s, Step(s, c), clause, rest, i - 1);
      ColonBeforeTail(tokens, i, pending);
      assert tokens[1..] == AssignmentTokens(s, Step(s, c), clause);
      assert tokens[..i][1..] == tokens[1..][..i - 1] && tokens[..i][0] == c.token;
    }
  }

  lemma NoTokenBefore(tokens: seq<Token>, pending: bool)
    ensures ColonBefore(tokens, 0, pending) <==> pending
    ensures Names(tokens[..0]) == 0
  {
  }

  lemma {:induction false} AssignmentCount(s: string, c: Cursor, clause: Clause, pending: bool)
    requires c.lexer.pos <= |s|
    ensures |Assignments(s, c, clause, pending).value| == Names(AssignmentTokens(s, c, clause))
    decreases Ahead(s, c)
  {
    hide Step, IsStatementKeyword, IsProgramBoundary, OperandOf;
    if !EndsAssignments(c.token, clause) {
      AssignmentCount(s, Step(s, c), clause, if IsName(c.token) then false else pending || IsColon(c.token));
      assert AssignmentTokens(s, c, clause)[1..] == AssignmentTokens(s, Step(s, c), clause);
    }
  }

  /** The tokens of a run of names. */
  function RunTokens(s: string, c: Cursor, words: set<string>): seq<Token>
    requires c.lexer.pos <= |s|
    decreases Ahead(s, c)
  {
    if c.token.kind == EndOfFile || StopsSelect(c.token) || c.token.literal in words then []
    else [c.token] + RunTokens(s, Step(s, c), words)
  }

  function NameOperands(tokens: seq<Token>, clause: Clause): seq<Operand> {
    if tokens == [] then []
    else (if IsName(tokens[0]) then [OperandOf(clause, tokens[0], false)] else []) + NameOperands(tokens[1..], clause)
  }

  /** A clause takes each name of its run once, in order. */
  lemma {:induction false} NameRunTakesNames(s: string, c: Cursor, clause: Clause, words: set<string>)
    requires c.lexer.pos <= |s|
    ensures NameRun(s, c, clause, words).value == NameOperands(RunTokens(s, c, words), clause)
    decreases Ahead(s, c)
  {
    hide Step, StopsSelect, OperandOf;
    if !(c.token.kind == EndOfFile || StopsSelect(c.token) || c.token.literal in words) {
      NameRunTakesNames(s, Step(s, c), clause, words);
      assert RunTokens(s, c, words)[1..] == RunTokens(s, Step(s, c), words);
    }
  }

  predicate AllOf(operands: seq<Operand>, clause: Clause) {
    forall o :: o in operands ==> o.clause == clause
  }

  lemma {:induction false} NameRunClause(s: string, c: Cursor, clause: Clause, words: set<string>)
    requires c.lexer.pos <= |s|
    ensures AllOf(NameRun(s, c, clause, words).value, clause)
    decreases Ahead(s, c)
  {
    hide Step, StopsSelect;
    if !(c.token.kind == EndOfFile || StopsSelect(c.token) || c.token.literal in words) {
      NameRunClause(s, Step(s, c), clause, words);
    }
  }

  lemma {:induction false} WhereRunClause(s: string, c: Cursor)
    requires c.lexer.pos <= |s|
    ensures AllOf(WhereRun(s, c).value, Where)
    decreases Ahead(s, c)
  {
    hide Step, StopsSelect, AfterSQLClause, OpensSQLClause;
    if !(c.token.kind == EndOfFile || StopsSelect(c.token)) {
      if OpensSQLClause(c.token) {
        WhereRunClause(s, AfterSQLClause(s, c));
      } else {
        WhereRunClause(s, OneOperand(s, c, Where, false).after);
      }
    }
  }

  /** The operands of a SELECT are its columns, then those of INTO, FROM and WHERE: each clause's names are those of its
      own run, and a clause that is not next, though it may come later, has none. */
  lemma SelectIsInClauseOrder(s: string, c: Cursor)
    requires c.lexer.pos <= |s|
    ensures var columns := NameRun(s, c, Columns, {"INTO", "FROM", "WHERE"});
            var into := SelectClause(s, columns.after, "INTO", Into, {"FROM", "WHERE"});
            var from := SelectClause(s, into.after, "FROM", From, {"WHERE"});
            var where := WhereClause(s, from.after);
            && SelectOperands(s, c).value == columns.value + into.value + from.value + where.value
            && AllOf(columns.value, Columns) && AllOf(into.value, Into) && AllOf(from.value, From)
            && AllOf(where.value, Where)
            && columns.value == NameOperands(RunTokens(s, c, {"INTO", "FROM", "WHERE"}), Columns)
            && (columns.after.token.literal != "INTO" ==> into == Taken([], columns.after))
            && (into.after.token.literal != "FROM" ==> from == Taken([], into.after))
            && (from.after.token.literal != "WHERE" ==> where == Taken([], from.after))
  {
    hide Step, NameRun, WhereRun, RunTokens, NameOperands, AllOf;
    var columns := NameRun(s, c, Columns, {"INTO", "FROM", "WHERE"});
    NameRunClause(s, c, Columns, {"INTO", "FROM", "WHERE"});
    NameRunTakesNames(s, c, Columns, {"INTO", "FROM", "WHERE"});
    SelectClauseOf(s, columns.after, "INTO", Into, {"FROM", "WHERE"});
    var into := SelectClause(s, columns.after, "INTO", Into, {"FROM", "WHERE"});
    SelectClauseOf(s, into.after, "FROM", From, {"WHERE"});
    var from := SelectClause(s, into.after, "FROM", From, {"WHERE"});
    WhereClauseOf(s, from.after);
  }

  lemma SelectClauseOf(s: string, c: Cursor, word: string, clause: Clause, words: set<string>)
    requires c.lexer.pos <= |s|
    ensures AllOf(SelectClause(s, c, word, clause, words).value, clause)
  {
    NameRunClause(s, Step(s, c), clause, words);
  }

  lemma WhereClauseOf(s: string, c: Cursor)
    requires c.lexer.pos <= |s|
    ensures AllOf(WhereClause(s, c).value, Where)
  {
    WhereRunClause(s, Step(s, c));
  }
}
