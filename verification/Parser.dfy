/** The recursive-descent parser (internal/analysis/natural/parser.go): one token of lookahead, tentative reads that
    restore the tokens but not the lexer, and an opaque scan that rewinds the lexer. */
module Parser {
  import opened Model
  import opened SourceLines
  import opened Lexer
  import opened Syntax
  import opened DefineSyntax
  import opened ClauseSyntax
  import opened StatementSyntax

  /** The last column of a token's literal. */
  function EndOf(tok: Token): Position {
    Position(tok.line, tok.column + |tok.literal| - 1)
  }

  class TokenParser {
    const lexer: Scanner
    /** The next token to consume. */
    var current: Token
    /** The token consumed last. */
    var prev: Token
    var diagnostics: seq<Diag>

    /** The lexer is behind the current token, which is at or behind the previous one. */
    ghost predicate Valid()
      reads this, lexer
    {
      && lexer.Valid() && lexer.col >= 1 && current.column >= 1
      && AtOrBefore(Start(prev), Start(current))
      && (current.kind == EndOfFile ==>
          lexer.pos == |lexer.input| && current == Token(EndOfFile, "", lexer.line, lexer.col))
      && (current.kind != EndOfFile ==>
          Earlier(Start(current), At(lexer.Now())) && AtOrBefore(Behind(current), At(lexer.Now())))
    }

    /** The measure: unread bytes, and the current token. */
    ghost function Left(): int
      reads this, lexer
    {
      2 * (|lexer.input| - lexer.pos) + if current.kind == EndOfFile then 0 else 1
    }

    ghost function Here(): Cursor
      reads this, lexer
    {
      Cursor(current, lexer.Now())
    }

    /** The previous token is strictly before the current one. */
    ghost predicate Apart()
      reads this
    {
      current.kind != EndOfFile ==> Earlier(Start(prev), Start(current))
    }

    /** No step back: in the measure, in the source, in the diagnostics. */
    twostate predicate Forward()
      reads this, lexer
    {
      && Valid() && Left() <= old(Left())
      && AtOrBefore(Start(old(current)), Start(current)) && AtOrBefore(Start(old(prev)), Start(prev))
      && old(diagnostics) <= diagnostics
      && ((current == old(current) && prev == old(prev)) || Apart())
    }

    /** At least the old current token is behind. */
    twostate predicate Past()
      reads this, lexer
    {
      && Forward() && Left() < old(Left()) && Apart()
      && Earlier(Start(old(current)), Start(current)) && AtOrBefore(Start(old(current)), Start(prev))
    }

    /** The program has grown by nodes in source order, from the old current token up to the current one. */
    twostate predicate Appends(ast: Program)
      reads this, lexer, ast
    {
      old(ast.nodes) <= ast.nodes && Settled(ast.nodes[|old(ast.nodes)|..], Start(old(current)), current)
    }

    /** A node for the statement at the old current token. */
    twostate predicate Fits(n: Node)
      reads this
    {
      n.start == Start(old(current)) && WellPlaced(n) && EndsBefore(n.end, current)
    }

    /** Nodes of a DEFINE starting at a position. */
    twostate predicate AppendsDefinitions(ast: Program, start: Position)
      reads this, ast
    {
      && old(ast.nodes) <= ast.nodes && Settled(ast.nodes[|old(ast.nodes)|..], start, current)
      && forall i :: |old(ast.nodes)| <= i < |ast.nodes| ==> IsDefinition(ast.nodes[i].kind)
    }

    twostate predicate AppendsAtMostOne(ast: Program)
      reads this, ast
    {
      || ast.nodes == old(ast.nodes)
      || (var n := |ast.nodes| - 1; n >= 0 && ast.nodes == old(ast.nodes) + [ast.nodes[n]] && Fits(ast.nodes[n]))
    }

    /** Exactly one node more: that one, but for its end. */
    twostate predicate AppendsBare(ast: Program, n: Node)
      reads ast
    {
      var last := |ast.nodes| - 1;
      last >= 0 && ast.nodes == old(ast.nodes) + [ast.nodes[last]] && Bare(ast.nodes[last]) == n
    }

    /** The same, well placed and ending before the current token. */
    twostate predicate AppendsFitting(ast: Program, n: Node)
      reads this, ast
    {
      AppendsBare(ast, n) && WellPlaced(ast.nodes[|ast.nodes| - 1])
        && EndsBefore(ast.nodes[|ast.nodes| - 1].end, current)
    }

    /** The first of the nodes, if there is one, has been appended, and the parser stands behind what was read. */
    twostate predicate Yields(ast: Program, r: Taken<seq<Node>>)
      reads this, lexer, ast
    {
      && Here() == r.after
      && if r.value == [] then ast.nodes == old(ast.nodes) else AppendsFitting(ast, r.value[0])
    }

    /** The nodes have been appended, and the parser stands behind what was read. */
    twostate predicate Leaves(ast: Program, r: Taken<seq<Node>>)
      reads this, lexer, ast
    {
      Here() == r.after && old(ast.nodes) <= ast.nodes && BareAll(ast.nodes[|old(ast.nodes)|..]) == r.value
    }

    predicate Matches(kind: TokenType, literal: string)
      reads this
    {
      current.kind == kind && current.literal == literal
    }

    constructor (lexer: Scanner)
      requires lexer.Now() == State(0, 1, 1, false) && lexer.Valid()
      modifies lexer
      ensures this.lexer == lexer && Valid() && diagnostics == [] && prev == current
      ensures Here() == FirstCursor(lexer.input)
    {
      NextMovesOn(lexer.input, lexer.Now());
      var tok := lexer.NextToken();
      this.lexer := lexer;
      this.current := tok;
      this.prev := tok;
      this.diagnostics := [];
    }

    method Advance()
      requires Valid()
      modifies this`current, this`prev, lexer
      ensures Valid() && prev == old(current)
      ensures var r := Next(lexer.input, old(lexer.Now())); current == r.token && lexer.Now() == r.after
      ensures Here() == Step(lexer.input, old(Here()))
      ensures old(current.kind) != EndOfFile ==> Past() && AtOrBefore(Behind(old(current)), Start(current))
      ensures old(current.kind) == EndOfFile ==> current == old(current) && Left() == old(Left())
      ensures current.kind == Operator ==>
                lexer.pos - |current.literal| >= old(lexer.pos) && At(lexer.Now()) == Behind(current)
    {
      hide Next;
      NextMovesOn(lexer.input, lexer.Now());
      prev := current;
      current := lexer.NextToken();
    }

    method AddDiagnostic(problem: Problem, start: Position, end: Position)
      modifies this`diagnostics
      ensures diagnostics == old(diagnostics) + [Diag(problem, Range(start, end))]
    {
      diagnostics := diagnostics + [Diag(problem, Range(start, end))];
    }

    /** The three skip helpers: each stops at the first token of its stop set. */
    method Skip(stops: StopSet)
      requires Valid()
      modifies this, lexer
      ensures Forward() && diagnostics == old(diagnostics)
      ensures (current, lexer.Now()) == SkipTo(lexer.input, old(current), old(lexer.Now()), stops)
      ensures Stops(stops, old(current)) ==> prev == old(prev)
    {
      hide Next, Stops;
      while current.kind != EndOfFile
        invariant Forward() && diagnostics == old(diagnostics)
        invariant (current == old(current) && prev == old(prev)) || !Stops(stops, old(current))
        invariant SkipTo(lexer.input, current, lexer.Now(), stops)
                    == SkipTo(lexer.input, old(current), old(lexer.Now()), stops)
        decreases Left()
      {
        if Stops(stops, current) {
          return;
        }
        Advance();
      }
    }

    method SkipToNextStatement()
      requires Valid()
      modifies this, lexer
      ensures Forward() && diagnostics == old(diagnostics)
      ensures Here() == Rest(lexer.input, old(Here()))
    {
      Skip(NextStatement);
    }

    method SkipToNextLoopBody()
      requires Valid()
      modifies this, lexer
      ensures Forward() && diagnostics == old(diagnostics)
      ensures Here() == BodyStart(lexer.input, old(Here()))
      ensures Stops(LoopBody, old(current)) ==> prev == old(prev)
    {
      Skip(LoopBody);
    }

    /** Consumes the clause keyword first, so that it never stays in place. */
    method SkipSQLClause()
      requires Valid() && current.kind != EndOfFile && OpensSQLClause(current)
      modifies this, lexer
      ensures Past() && diagnostics == old(diagnostics) && Here() == AfterSQLClause(lexer.input, old(Here()))
    {
      hide Next, Step, SkipTo;
      Advance();
      if current.literal == "BY" {
        Advance();
      }
      Skip(SQLClause);
    }

    /** A parenthesised run, closing parenthesis included if there is one. */
    method SkipParens()
      requires Valid() && Matches(Punctuation, "(")
      modifies this, lexer
      ensures Past() && diagnostics == old(diagnostics)
      ensures Here() == AfterParens(lexer.input, old(Here()))
    {
      hide Next, Step;
      Advance();
      while current.kind != EndOfFile && !Matches(Punctuation, ")")
        invariant Past() && diagnostics == old(diagnostics)
        invariant ParenEnd(lexer.input, Here()) == ParenEnd(lexer.input, Step(lexer.input, old(Here())))
        decreases Left()
      {
        Advance();
      }
      if Matches(Punctuation, ")") {
        Advance();
      }
    }

    method ParseLabelParens() returns (text: string)
      requires Valid()
      modifies this, lexer
      ensures Forward() && diagnostics == old(diagnostics)
      ensures !old(Matches(Punctuation, "(")) ==> text == "" && current == old(current) && prev == old(prev)
      ensures Taken(text, Here()) == LabelText(lexer.input, old(Here()))
    {
      hide Next, Step, LabelRun, Joined;
      if !Matches(Punctuation, "(") {
        return "";
      }
      Advance();
      text := "";
      ghost var c := Here();
      NothingBefore(LabelRun(lexer.input, c));
      while current.kind != EndOfFile && !Matches(Punctuation, ")")
        invariant Past() && diagnostics == old(diagnostics)
        invariant Joined(text, LabelRun(lexer.input, Here())) == LabelRun(lexer.input, c)
        decreases Left()
      {
        LabelRunStep(lexer.input, Here(), text);
        text := text + current.literal;
        Advance();
      }
      LabelRunStep(lexer.input, Here(), text);
      if Matches(Punctuation, ")") {
        Advance();
      }
    }

    method ConsumeStringTarget() returns (target: string)
      requires Valid() && current.kind == LiteralString
      modifies this, lexer
      ensures Past() && target == Unquote(old(current.literal)) && prev == old(current)
      ensures Here() == Step(lexer.input, old(Here()))
      ensures |diagnostics| == |old(diagnostics)| + if IsTerminatedString(old(current.literal)) then 0 else 1
    {
      hide Next;
      var tok := current;
      if !IsTerminatedString(tok.literal) {
        AddDiagnostic(UnterminatedString, Start(tok), Start(tok));
      }
      target := Unquote(tok.literal);
      Advance();
    }

    // ----- DEFINE -----

    /** The tokens up to the closing parenthesis, with one space wherever the source has a gap within a line. */
    method ParseTypeSpec() returns (spec: string)
      requires Valid()
      modifies this, lexer
      ensures Forward() && diagnostics == old(diagnostics)
      ensures var run := SpecTokens(lexer.input, old(Here()), 0); spec == Spec(run) && Here() == run.after
    {
      hide Next, Step, SpecTokens, SpecText, Joined;
      spec := "";
      var depth := 0;
      ghost var done: seq<Token> := [];
      NoSpecText();
      NothingBefore(SpecTokens(lexer.input, Here(), 0));
      while current.kind != EndOfFile
        invariant Forward() && diagnostics == old(diagnostics) && depth >= 0
        invariant spec == SpecText(done) && (done != [] ==> prev == done[|done| - 1])
        invariant Joined(done, SpecTokens(lexer.input, Here(), depth)) == SpecTokens(lexer.input, old(Here()), 0)
        decreases Left()
      {
        SpecTokensStep(lexer.input, Here(), depth, done);
        SpecTextStep(done, current);
        if spec != "" && prev.line == current.line {
          var prevEnd := prev.column + |prev.literal| - 1;
          if current.column > prevEnd + 1 {
            spec := spec + " ";
          }
        }
        if Matches(Punctuation, "(") {
          depth := depth + 1;
        } else if Matches(Punctuation, ")") {
          if depth == 0 {
            break;
          }
          depth := depth - 1;
        }
        spec := spec + current.literal;
        done := done + [current];
        Advance();
      }
      SpecTokensStep(lexer.input, Here(), depth, done);
    }

    /** The name behind a level number; a `+` joins an adjacent name, and otherwise stays the current token although the
        lexer has gone on. */
    method ParseFieldName(fieldStart: Position) returns (name: string, start: Position)
      requires Valid()
      modifies this, lexer
      ensures Forward() && diagnostics == old(diagnostics)
      ensures Taken(name, Here()) == FieldName(lexer.input, old(Here()))
      ensures start == if old(IsPlus(current)) && name != "" then old(Start(current)) else fieldStart
      ensures old(Matches(Operator, "+")) ==>
                var next := Next(lexer.input, old(lexer.Now())).token;
                && (name == "" <==>
                    !(IsName(next) && next.line == old(current.line) && next.column == old(current.column) + 1))
                && (name == "" ==>
                    current == old(current) && prev == old(prev)
                      && lexer.Now() == Next(lexer.input, old(lexer.Now())).after)
                && (name != "" ==> name == "+" + next.literal)
    {
      hide Next;
      name, start := "", fieldStart;
      if Matches(Operator, "+") {
        var savedPlus, savedPlusPrev := current, prev;
        Advance();
        if IsName(current) && current.line == savedPlus.line && current.column == savedPlus.column + 1 {
          name := "+" + current.literal;
          start := Start(savedPlus);
          Advance();
        } else {
          current := savedPlus;
          prev := savedPlusPrev;
        }
      } else if IsName(current) {
        name := current.literal;
        Advance();
      }
    }

    method ParseViewOf() returns (viewOf: string)
      requires Valid()
      modifies this, lexer
      ensures Forward() && diagnostics == old(diagnostics)
      ensures Taken(viewOf, Here()) == ViewName(lexer.input, old(Here()))
    {
      hide Next, Step;
      viewOf := "";
      if current.literal == "VIEW" {
        var viewLine := current.line;
        Advance();
        if current.literal == "OF" {
          Advance();
        }
        if IsName(current) && current.line == viewLine {
          viewOf := current.literal;
          Advance();
        }
      }
    }

    method ParseFieldType(name: string) returns (spec: string)
      requires Valid()
      modifies this, lexer
      ensures Forward() && diagnostics == old(diagnostics)
      ensures Taken(spec, Here()) == TypeText(lexer.input, old(Here()), name)
    {
      hide Next, Step, SpecTokens, SpecText;
      spec := "";
      if Matches(Punctuation, "(") {
        Advance();
        spec := ParseTypeSpec();
        if Matches(Punctuation, ")") {
          Advance();
        }
      } else if name == "FILLER" && current.kind == LiteralNumeric {
        var numLine := current.line;
        spec := current.literal;
        Advance();
        if current.kind == Identifier && current.line == numLine {
          spec := spec + current.literal;
          Advance();
        }
      }
    }

    /** One field line; None for a bare level number. */
    method ParseDataField() returns (field: Option<Field>)
      requires Valid() && current.kind == LiteralNumeric
      modifies this, lexer
      ensures Past() && diagnostics == old(diagnostics) && Taken(field, Here()) == FieldLine(lexer.input, old(Here()))
    {
      hide Next, Step, Atoi, Redefinition, NamedField;
      var level, start := Atoi(current.literal), Start(current);
      Advance();
      if Matches(Keyword, "REDEFINE") {
        Advance();
        field := ParseRedefinition(level, start);
      } else {
        field := ParseNamedField(level, start);
      }
    }

    method ParseRedefinition(level: int, start: Position) returns (field: Option<Field>)
      requires Valid()
      modifies this, lexer
      ensures Forward() && diagnostics == old(diagnostics)
      ensures Taken(field, Here()) == Redefinition(lexer.input, old(Here()), level, start)
    {
      hide Next, Step;
      var redefines := "";
      if IsName(current) {
        redefines := current.literal;
        Advance();
      }
      return Some(Field(level, "", redefines, "", "", start));
    }

    method ParseNamedField(level: int, fieldStart: Position) returns (field: Option<Field>)
      requires Valid()
      modifies this, lexer
      ensures Forward() && diagnostics == old(diagnostics)
      ensures Taken(field, Here()) == NamedField(lexer.input, old(Here()), level, fieldStart)
    {
      hide Next, Step, FieldName, ViewName, TypeText;
      var name, start := ParseFieldName(fieldStart);
      if name == "" {
        return None;
      }
      var viewOf := ParseViewOf();
      var spec := ParseFieldType(name);
      return Some(Field(level, name, "", spec, viewOf, start));
    }

    /** The field lines of a section, up to a section keyword, a program boundary or a statement, which stay. */
    method ParseDataFields() returns (fields: seq<Field>)
      requires Valid()
      modifies this, lexer
      ensures Forward() && diagnostics == old(diagnostics)
      ensures Taken(fields, Here()) == FieldLines(lexer.input, old(Here()))
    {
      hide Next, Step, IsSectionKeyword, IsProgramBoundary, IsStatementKeyword, FieldLine, FieldLines;
      fields := [];
      NothingBefore(FieldLines(lexer.input, Here()));
      while current.kind != EndOfFile
        invariant Forward() && diagnostics == old(diagnostics)
        invariant Joined(fields, FieldLines(lexer.input, Here())) == FieldLines(lexer.input, old(Here()))
        decreases Left()
      {
        FieldLinesStep(lexer.input, Here(), fields);
        if IsSectionKeyword(current.literal) || IsProgramBoundary(current.literal) || StartsStatement(current) {
          break;
        }
        if current.kind != LiteralNumeric {
          Advance();
          continue;
        }
        var field := ParseDataField();
        if field.Some? {
          fields := fields + [field.value];
        } else {
          assert fields + [] == fields;
        }
      }
      FieldLinesStep(lexer.input, Here(), fields);
    }

    /** The name behind USING, if the clause is there. */
    method ParseUsing() returns (using: seq<Operand>)
      requires Valid()
      modifies this, lexer
      ensures Forward() && diagnostics == old(diagnostics)
      ensures |using| <= 1 && forall i :: 0 <= i < |using| ==> Earlier(old(Start(current)), using[i].at)
      ensures Taken(using, Here()) == UsingName(lexer.input, old(Here()))
    {
      hide Next, Step;
      using := [];
      if current.literal == "USING" {
        Advance();
        if IsName(current) {
          using := [Operand(Using, current.literal, Start(current), false)];
          Advance();
        }
      }
    }

    /** One section: its keyword, its USING clause and its fields. */
    method ParseSection(start: Position) returns (section: Node)
      requires Valid() && current.kind != EndOfFile && AtOrBefore(start, Start(current))
      modifies this, lexer
      ensures Past() && diagnostics == old(diagnostics)
      ensures section.kind == DataSection && section.start == start && WellPlaced(section)
      ensures EndsBefore(section.end, current)
      ensures Taken(Bare(section), Here()) == SectionAt(lexer.input, old(Here()), start)
    {
      hide Next, Step, UsingName, FieldLines;
      var kind := Lowercase(current.literal);
      Advance();
      var using := ParseUsing();
      var fields := ParseDataFields();
      section := Node(DataSection, start, Start(prev), kind, "", using, fields, []);
    }

    method ParseDataSection(ast: Program, startPos: Position)
      requires Valid() && current.kind != EndOfFile && AtOrBefore(startPos, Start(current))
      modifies this, lexer, ast
      ensures Past() && diagnostics == old(diagnostics) && AppendsDefinitions(ast, startPos)
      ensures forall i :: |old(ast.nodes)| <= i < |ast.nodes| ==> ast.nodes[i].kind == DataSection
      ensures Leaves(ast, Sections(lexer.input, Step(lexer.input, old(Here())), Some(startPos)))
    {
      hide Next, Step, Settled, Sections, BareAll;
      Advance();
      ParseSections(ast, startPos);
    }

    /** The sections, while their keywords follow. */
    method ParseSections(ast: Program, startPos: Position)
      requires Valid() && Apart() && AtOrBefore(startPos, Start(current))
      modifies this, lexer, ast
      ensures Forward() && Apart() && diagnostics == old(diagnostics) && AppendsDefinitions(ast, startPos)
      ensures forall i :: |old(ast.nodes)| <= i < |ast.nodes| ==> ast.nodes[i].kind == DataSection
      ensures Leaves(ast, Sections(lexer.input, old(Here()), Some(startPos)))
    {
      hide Next, Settled, IsSectionKeyword, Step, Sections, SectionAt, BareAll, Bare, Joined;
      var firstSection := true;
      ghost var added: seq<Node> := [];
      SettledNone(startPos, current);
      NothingBare();
      NothingBefore(Sections(lexer.input, Here(), Some(startPos)));
      while IsSectionKeyword(current.literal)
        invariant Forward() && Apart() && diagnostics == old(diagnostics) && ast.nodes == old(ast.nodes) + added
        invariant Settled(added, startPos, current) && firstSection == (added == [])
        invariant forall i :: 0 <= i < |added| ==> added[i].kind == DataSection
        invariant Joined(BareAll(added), Sections(lexer.input, Here(), if added == [] then Some(startPos) else None))
               == Sections(lexer.input, old(Here()), Some(startPos))
        decreases Left()
      {
        ghost var c := Here();
        NoSectionAtEnd(current);
        var sectionStart := if firstSection then startPos else Start(current);
        firstSection := false;
        ghost var mid := current;
        var section := ParseSection(sectionStart);
        SettledAppend(added, section, startPos, mid, current);
        SectionsStep(lexer.input, c, if added == [] then Some(startPos) else None, BareAll(added));
        BareConcat(added, [section]);
        BareOne(section);
        added := added + [section];
        ast.nodes := ast.nodes + [section];
      }
      assert ast.nodes[|old(ast.nodes)|..] == added;
      SectionsEnd(lexer.input, Here(), if added == [] then Some(startPos) else None, BareAll(added));
    }

    method AppendDefinition(ast: Program, node: Node)
      requires IsDefinition(node.kind) && WellPlaced(node) && EndsBefore(node.end, current)
      modifies ast
      ensures AppendsDefinitions(ast, node.start) && ast.nodes == old(ast.nodes) + [node]
      ensures BareAll(ast.nodes[|old(ast.nodes)|..]) == [Bare(node)]
    {
      SettledOne(node, node.start, current);
      ast.nodes := ast.nodes + [node];
      assert ast.nodes[|old(ast.nodes)|..] == [node];
      BareOne(node);
    }

    /** The name, then everything up to END [SUBROUTINE] or END-SUBROUTINE. */
    method ParseSubroutine(ast: Program, startPos: Position)
      requires Valid() && current.kind != EndOfFile && AtOrBefore(startPos, Start(current))
      modifies this, lexer, ast
      ensures Past() && diagnostics == old(diagnostics) && AppendsDefinitions(ast, startPos)
      ensures Leaves(ast, SubroutineFrom(lexer.input, startPos, Step(lexer.input, old(Here()))))
    {
      hide Next, Step, AfterBlock, Settled, WellPlaced;
      Advance();
      var name := "";
      if IsName(current) {
        name := current.literal;
        Advance();
      }
      FinishSubroutine(ast, startPos, name);
    }

    method FinishSubroutine(ast: Program, startPos: Position, name: string)
      requires Valid() && Apart() && AtOrBefore(startPos, Start(prev))
      modifies this, lexer, ast
      ensures Forward() && Apart() && diagnostics == old(diagnostics) && AppendsDefinitions(ast, startPos)
      ensures var after := AfterBlock(lexer.input, old(Here()), "SUBROUTINE", "END-SUBROUTINE");
              Leaves(ast, Taken([Outline(Subroutine, startPos, name)], after))
    {
      hide AfterBlock;
      SkipBlock("SUBROUTINE", "END-SUBROUTINE");
      AppendDefinition(ast, Leaf(Subroutine, startPos, Start(prev), name));
    }

    /** Up to and with END, an optional word behind it, or the joined form. */
    method SkipBlock(word: string, joined: string)
      requires Valid()
      modifies this, lexer
      ensures Forward() && diagnostics == old(diagnostics)
      ensures Here() == AfterBlock(lexer.input, old(Here()), word, joined)
    {
      hide Next, Step;
      while current.kind != EndOfFile
        invariant Forward() && diagnostics == old(diagnostics)
        invariant AfterBlock(lexer.input, Here(), word, joined) == AfterBlock(lexer.input, old(Here()), word, joined)
        decreases Left()
      {
        if Matches(Keyword, "END") {
          Advance();
          if current.literal == word {
            Advance();
          }
          break;
        }
        if Matches(Identifier, joined) {
          Advance();
          break;
        }
        Advance();
      }
    }

    /** The fields of a map, up to and with its end. */
    method ParseMapFields() returns (fields: seq<Field>)
      requires Valid()
      modifies this, lexer
      ensures Forward() && diagnostics == old(diagnostics)
      ensures Taken(fields, Here()) == MapFields(lexer.input, old(Here()))
    {
      hide Next, Step, FieldLine, MapFields, Joined;
      fields := [];
      NothingBefore(MapFields(lexer.input, Here()));
      while current.kind != EndOfFile
        invariant Forward() && diagnostics == old(diagnostics)
        invariant Joined(fields, MapFields(lexer.input, Here())) == MapFields(lexer.input, old(Here()))
        decreases Left()
      {
        MapFieldsStep(lexer.input, Here(), fields);
        if Matches(Keyword, "END") {
          Advance();
          if current.literal == "MAP" {
            Advance();
          }
          return;
        }
        if Matches(Identifier, "END-MAP") {
          Advance();
          return;
        }
        if current.kind != LiteralNumeric {
          Advance();
          continue;
        }
        var field := ParseDataField();
        if field.Some? {
          fields := fields + [field.value];
        } else {
          assert fields + [] == fields;
        }
      }
      MapFieldsStep(lexer.input, Here(), fields);
    }

    method ParseMap(ast: Program, startPos: Position)
      requires Valid() && current.kind != EndOfFile && AtOrBefore(startPos, Start(current))
      modifies this, lexer, ast
      ensures Past() && AppendsDefinitions(ast, startPos)
      ensures Leaves(ast, MapFrom(lexer.input, startPos, Step(lexer.input, old(Here()))))
    {
      hide Next, Step, MapFields, Unquote, Settled, WellPlaced, BareAll;
      Advance();
      var name := ConsumeTarget();
      FinishMap(ast, startPos, name);
    }

    method FinishMap(ast: Program, startPos: Position, name: string)
      requires Valid() && Apart() && AtOrBefore(startPos, Start(prev))
      modifies this, lexer, ast
      ensures Forward() && Apart() && diagnostics == old(diagnostics) && AppendsDefinitions(ast, startPos)
      ensures var fields := MapFields(lexer.input, old(Here()));
              Leaves(ast, Taken([Outline(Map, startPos, name).(fields := fields.value)], fields.after))
    {
      hide MapFields;
      var fields := ParseMapFields();
      AppendDefinition(ast, Node(Map, startPos, Start(prev), name, "", [], fields, []));
    }

    /** FILE, a plain integer and a name must follow; otherwise there is a problem. */
    method ParseWorkFileOperands() returns (problem: Option<Problem>, name: string)
      requires Valid()
      modifies this, lexer
      ensures Forward() && diagnostics == old(diagnostics)
      ensures problem.None? ==> Past()
      ensures Taken(if problem.None? then Some(name) else None, Here()) == WorkFileName(lexer.input, old(Here()))
    {
      hide Next, Step, AtoiSucceeds, Unquote;
      name := "";
      if current.literal != "FILE" {
        return Some(WorkWithoutFile), name;
      }
      Advance();
      if current.kind != LiteralNumeric {
        return Some(MissingFileNumber), name;
      }
      if !AtoiSucceeds(current.literal) {
        return Some(FileNumberNotInteger), name;
      }
      Advance();
      if current.kind != LiteralString && current.kind != Identifier {
        return Some(MissingFileName), name;
      }
      name := if current.kind == LiteralString then Unquote(current.literal) else current.literal;
      Advance();
      return None, name;
    }

    /** A work file with a problem is dropped with one diagnostic. */
    method ParseWorkFile(ast: Program, startPos: Position)
      requires Valid() && current.kind != EndOfFile && AtOrBefore(startPos, Start(current))
      modifies this, lexer, ast
      ensures Past() && AppendsDefinitions(ast, startPos)
      ensures |ast.nodes| - |old(ast.nodes)| + |diagnostics| - |old(diagnostics)| == 1
      ensures Leaves(ast, WorkFileFrom(lexer.input, startPos, Step(lexer.input, old(Here()))))
    {
      hide Next, Step, Rest, Settled, WellPlaced, WorkFileName, BareAll;
      Advance();
      var problem, name := ParseWorkFileOperands();
      if problem.None? {
        FinishWorkFile(ast, startPos, name);
      } else {
        AddDiagnostic(problem.value, startPos, Start(prev));
        SkipToNextStatement();
        SettledNone(startPos, current);
        NothingBare();
        assert ast.nodes[|old(ast.nodes)|..] == [];
      }
    }

    method FinishWorkFile(ast: Program, startPos: Position, name: string)
      requires Valid() && Apart() && AtOrBefore(startPos, Start(prev))
      modifies this, lexer, ast
      ensures Forward() && Apart() && diagnostics == old(diagnostics)
      ensures AppendsDefinitions(ast, startPos) && |ast.nodes| == |old(ast.nodes)| + 1
      ensures Leaves(ast, Taken([Outline(WorkFile, startPos, name)], Rest(lexer.input, old(Here()))))
    {
      hide Next, Rest, Settled;
      var node := Leaf(WorkFile, startPos, Start(prev), name);
      SkipToNextStatement();
      AppendDefinition(ast, node);
    }

    method ParseDefine(ast: Program)
      requires Valid() && Matches(Keyword, "DEFINE")
      modifies this, lexer, ast
      ensures Past() && Appends(ast)
      ensures forall i :: |old(ast.nodes)| <= i < |ast.nodes| ==> IsDefinition(ast.nodes[i].kind)
      ensures Leaves(ast, DefinitionFrom(lexer.input, old(Start(current)), Step(lexer.input, old(Here()))))
    {
      hide Next, Step, Settled, WellPlaced, DefinitionFrom, BareAll;
      var defStartPos := Start(current);
      Advance();
      ParseDefinition(ast, defStartPos);
    }

    /** By the word behind DEFINE; anything else is skipped. */
    method ParseDefinition(ast: Program, defStartPos: Position)
      requires Valid() && Apart() && AtOrBefore(defStartPos, Start(prev)) && Earlier(defStartPos, Start(current))
      modifies this, lexer, ast
      ensures Forward() && Apart() && AppendsDefinitions(ast, defStartPos)
      ensures Leaves(ast, DefinitionFrom(lexer.input, defStartPos, old(Here())))
    {
      hide Next, Step, Rest, Settled, WellPlaced, Sections, SubroutineFrom, MapFrom, WorkFileFrom, BareAll;
      if Matches(Keyword, "DATA") {
        ParseDataSection(ast, defStartPos);
      } else if current.literal == "SUBROUTINE" {
        ParseSubroutine(ast, defStartPos);
      } else if current.literal == "MAP" {
        ParseMap(ast, defStartPos);
      } else if current.literal == "WORK" {
        ParseWorkFile(ast, defStartPos);
      } else {
        SkipToNextStatement();
        SettledNone(defStartPos, current);
        NothingBare();
        assert ast.nodes[|old(ast.nodes)|..] == [];
      }
    }

    // ----- Statements naming a target -----

    /** One word of a set on the keyword's line, if it is there. */
    method SkipOptional(startLine: int, words: set<string>)
      requires Valid() && "" !in words
      modifies this, lexer
      ensures Forward() && diagnostics == old(diagnostics)
      ensures Here() == AfterOptional(lexer.input, old(Here()), startLine, words)
    {
      hide Next, Step;
      if current.line == startLine && current.literal in words {
        Advance();
      }
    }

    /** All words of a set on the keyword's line. */
    method SkipWords(startLine: int, words: set<string>)
      requires Valid() && "" !in words
      modifies this, lexer
      ensures Forward() && diagnostics == old(diagnostics)
      ensures Here() == AfterWords(lexer.input, old(Here()), startLine, words)
    {
      hide Next, Step;
      while current.line == startLine && current.literal in words
        invariant Forward() && diagnostics == old(diagnostics)
        invariant AfterWords(lexer.input, Here(), startLine, words)
                    == AfterWords(lexer.input, old(Here()), startLine, words)
        decreases Left()
      {
        Advance();
      }
    }

    /** A parenthesised row limit on the keyword's line, if it is there. */
    method SkipRowLimit(startLine: int)
      requires Valid()
      modifies this, lexer
      ensures Forward() && diagnostics == old(diagnostics)
      ensures Here() == AfterRowLimit(lexer.input, old(Here()), startLine)
    {
      hide AfterParens;
      if current.line == startLine && Matches(Punctuation, "(") {
        SkipParens();
      }
    }

    /** The rest of the statement, and its node. */
    method Finish(ast: Program, kind: NodeKind, startPos: Position, name: string, operands: seq<Operand>)
      requires Valid() && Apart() && AtOrBefore(startPos, Start(prev)) && OperandsInOrder(startPos, operands)
      modifies this, lexer, ast
      ensures Forward() && Apart() && diagnostics == old(diagnostics)
      ensures AppendsFitting(ast, Outline(kind, startPos, name).(operands := operands))
      ensures Here() == Rest(lexer.input, old(Here()))
    {
      hide Next, SkipTo, OperandsInOrder;
      SkipToNextStatement();
      ast.nodes := ast.nodes + [Node(kind, startPos, Start(prev), name, "", operands, [], [])];
    }

    method AppendEmpty(ast: Program, kind: NodeKind, startPos: Position)
      requires Valid() && Apart() && AtOrBefore(startPos, Start(prev))
      modifies ast
      ensures AppendsFitting(ast, Outline(kind, startPos, ""))
    {
      ast.nodes := ast.nodes + [Leaf(kind, startPos, Start(prev), "")];
    }

    /** A string or identifier operand; anything else stays. */
    method ConsumeTarget() returns (name: string)
      requires Valid()
      modifies this, lexer
      ensures Forward() && name == TargetOf(old(current))
      ensures Here() == AfterTarget(lexer.input, old(Here()))
    {
      hide Next;
      if current.kind == LiteralString {
        name := ConsumeStringTarget();
      } else if current.kind == Identifier {
        name := current.literal;
        Advance();
      } else {
        name := "";
      }
    }

    /** A call with a string or identifier target on the keyword's line leaves a node of that name; a missing or
        other operand is reported, an empty target dropped. */
    method ParseCallStatement(ast: Program)
      requires Valid() && Matches(Keyword, "CALLNAT")
      modifies this, lexer, ast
      ensures Past() && Yields(ast, CallFrom(lexer.input, old(Start(current)), Step(lexer.input, old(Here()))))
    {
      hide Next, Step, CallFrom, WellPlaced, Bare;
      var startPos := Start(current);
      Advance();
      RecordCall(ast, startPos);
    }

    method RecordCall(ast: Program, startPos: Position)
      requires Valid() && Apart() && AtOrBefore(startPos, Start(prev))
      modifies this, lexer, ast
      ensures Forward() && Apart() && Yields(ast, CallFrom(lexer.input, startPos, old(Here())))
    {
      hide WellPlaced, Step, Rest, TargetOf;
      if !OnLine(current, startPos.line) || !HasTarget(current) {
        AddDiagnostic(MissingTarget(Call), startPos, Position(startPos.line, startPos.column + 6));
        return;
      }
      var target := ConsumeTarget();
      if target != "" {
        Finish(ast, Call, startPos, target, []);
      } else {
        SkipToNextStatement();
      }
    }

    method ParsePerformStatement(ast: Program)
      requires Valid() && Matches(Keyword, "PERFORM")
      modifies this, lexer, ast
      ensures Past() && Yields(ast, PerformFrom(lexer.input, old(Start(current)), Step(lexer.input, old(Here()))))
    {
      hide Next, Step, PerformFrom, WellPlaced, Bare;
      var startPos := Start(current);
      Advance();
      RecordPerform(ast, startPos);
    }

    method RecordPerform(ast: Program, startPos: Position)
      requires Valid() && Apart() && AtOrBefore(startPos, Start(prev))
      modifies this, lexer, ast
      ensures Forward() && Apart() && Yields(ast, PerformFrom(lexer.input, startPos, old(Here())))
    {
      hide WellPlaced, Step, Next, Rest;
      if !OnLine(current, startPos.line) {
        AddDiagnostic(MissingTarget(Perform), startPos, Position(startPos.line, startPos.column + 6));
        return;
      }
      var target := "";
      if !Matches(Keyword, "BREAK") && IsName(current) {
        target := current.literal;
        Advance();
      }
      Finish(ast, Perform, startPos, target, []);
    }

    method ParseIncludeStatement(ast: Program)
      requires Valid() && Matches(Keyword, "INCLUDE")
      modifies this, lexer, ast
      ensures Past() && Yields(ast, IncludeFrom(lexer.input, old(Start(current)), Step(lexer.input, old(Here()))))
    {
      hide Next, Step, IncludeFrom, WellPlaced, Bare;
      var startPos := Start(current);
      Advance();
      RecordInclude(ast, startPos);
    }

    method RecordInclude(ast: Program, startPos: Position)
      requires Valid() && Apart() && AtOrBefore(startPos, Start(prev))
      modifies this, lexer, ast
      ensures Forward() && Apart() && Yields(ast, IncludeFrom(lexer.input, startPos, old(Here())))
    {
      hide WellPlaced, Rest, TargetOf, AfterTarget;
      if !OnLine(current, startPos.line) {
        AddDiagnostic(MissingTarget(Include), startPos, Position(startPos.line, startPos.column + 6));
        return;
      }
      var target := ConsumeTarget();
      Finish(ast, Include, startPos, target, []);
    }

    /** A FETCH leaves a node even without a target. */
    method ParseFetchStatement(ast: Program)
      requires Valid() && Matches(Keyword, "FETCH")
      modifies this, lexer, ast
      ensures Past() && Yields(ast, FetchFrom(lexer.input, old(Start(current)), Step(lexer.input, old(Here()))))
    {
      hide Next, Step, FetchFrom, WellPlaced, Bare;
      var startPos := Start(current);
      Advance();
      RecordFetch(ast, startPos);
    }

    method RecordFetch(ast: Program, startPos: Position)
      requires Valid() && Apart() && AtOrBefore(startPos, Start(prev))
      modifies this, lexer, ast
      ensures Forward() && Apart() && Yields(ast, FetchFrom(lexer.input, startPos, old(Here())))
    {
      hide WellPlaced, Rest, TargetOf, AfterOptional, AfterTarget;
      SkipOptional(startPos.line, {"REPEAT", "RETURN"});
      if !OnLine(current, startPos.line) {
        AddDiagnostic(MissingTarget(Fetch), startPos, Position(startPos.line, startPos.column + 4));
        AppendEmpty(ast, Fetch, startPos);
        return;
      }
      var target := ConsumeTarget();
      Finish(ast, Fetch, startPos, target, []);
    }

    method ParseLibrary(startLine: int) returns (library: seq<Operand>)
      requires Valid()
      modifies this, lexer
      ensures Forward() && |library| <= 1
      ensures forall i :: 0 <= i < |library| ==> AtOrBefore(old(Start(current)), library[i].at)
      ensures Taken(library, Here()) == LibraryAt(lexer.input, old(Here()), startLine)
    {
      library := [];
      if OnLine(current, startLine) && HasTarget(current) {
        var at := Start(current);
        var name := ConsumeTarget();
        library := [Operand(RunLibrary, name, at, false)];
      }
    }

    /** The library is the second operand on the keyword's line. */
    method ParseRunStatement(ast: Program)
      requires Valid() && Matches(Keyword, "RUN")
      modifies this, lexer, ast
      ensures Past() && Yields(ast, RunFrom(lexer.input, old(Start(current)), Step(lexer.input, old(Here()))))
    {
      hide Next, Step, RunFrom, WellPlaced, Bare;
      var startPos := Start(current);
      Advance();
      RecordRun(ast, startPos);
    }

    method RecordRun(ast: Program, startPos: Position)
      requires Valid() && Apart() && AtOrBefore(startPos, Start(prev)) && Earlier(startPos, Start(current))
      modifies this, lexer, ast
      ensures Forward() && Apart() && Yields(ast, RunFrom(lexer.input, startPos, old(Here())))
    {
      hide WellPlaced, Rest, TargetOf, AfterTarget, LibraryAt;
      if !OnLine(current, startPos.line) {
        AddDiagnostic(MissingTarget(Run), startPos, Position(startPos.line, startPos.column + 2));
        return;
      }
      var target := ConsumeTarget();
      var library := ParseLibrary(startPos.line);
      Finish(ast, Run, startPos, target, library);
    }

    method ParseFindStatement(ast: Program)
      requires Valid() && current.kind == Keyword && current.literal in {"FIND", "FINDNAT"}
      modifies this, lexer, ast
      ensures Past() && Yields(ast, FindFrom(lexer.input, old(Start(current)), Step(lexer.input, old(Here()))))
    {
      hide Next, Step, FindFrom, WellPlaced, Bare;
      var startPos := Start(current);
      Advance();
      RecordFind(ast, startPos);
    }

    method RecordFind(ast: Program, startPos: Position)
      requires Valid() && Apart() && AtOrBefore(startPos, Start(prev))
      modifies this, lexer, ast
      ensures Forward() && Apart() && Yields(ast, FindFrom(lexer.input, startPos, old(Here())))
    {
      hide WellPlaced, AfterOptional, AfterRowLimit, NamedFrom;
      SkipRowLimit(startPos.line);
      SkipOptional(startPos.line, {"NUMBER"});
      if !OnLine(current, startPos.line) {
        AddDiagnostic(MissingTarget(Find), startPos, Position(startPos.line, startPos.column + 3));
      } else {
        FinishWithIdentifier(ast, Find, startPos);
      }
    }

    /** An optional identifier, the rest of the statement, and the node. */
    method FinishWithIdentifier(ast: Program, kind: NodeKind, startPos: Position)
      requires Valid() && Apart() && AtOrBefore(startPos, Start(prev))
      modifies this, lexer, ast
      ensures Forward() && Apart() && diagnostics == old(diagnostics)
      ensures Yields(ast, NamedFrom(lexer.input, kind, startPos, old(Here())))
    {
      hide Next, Step, Rest, WellPlaced;
      var target := "";
      if current.kind == Identifier {
        target := current.literal;
        Advance();
      }
      Finish(ast, kind, startPos, target, []);
    }

    /** GET SAME has no operand and is not an error. */
    method ParseGetStatement(ast: Program)
      requires Valid() && Matches(Keyword, "GET")
      modifies this, lexer, ast
      ensures Past() && Yields(ast, GetFrom(lexer.input, old(Start(current)), Step(lexer.input, old(Here()))))
    {
      hide Next, Step, GetFrom, WellPlaced, Bare;
      var startPos := Start(current);
      Advance();
      RecordGet(ast, startPos);
    }

    method RecordGet(ast: Program, startPos: Position)
      requires Valid() && Apart() && AtOrBefore(startPos, Start(prev))
      modifies this, lexer, ast
      ensures Forward() && Apart() && Yields(ast, GetFrom(lexer.input, startPos, old(Here())))
    {
      hide WellPlaced, Next, Step, Rest, AfterRowLimit;
      var target := "";
      if current.line == startPos.line && current.literal == "SAME" {
        Advance();
      } else if !OnLine(current, startPos.line) {
        AddDiagnostic(MissingTarget(Get), startPos, Position(startPos.line, startPos.column + 2));
        return;
      } else {
        target := ParseGetOperand(startPos.line);
      }
      Finish(ast, Get, startPos, target, []);
    }

    method ParseGetOperand(startLine: int) returns (target: string)
      requires Valid()
      modifies this, lexer
      ensures Forward() && diagnostics == old(diagnostics) && target == IdentifierOf(old(current))
      ensures var c := old(Here());
              Here() == AfterRowLimit(lexer.input, if c.token.kind == Identifier then Step(lexer.input, c) else c,
                                      startLine)
    {
      hide Next, Step, AfterRowLimit;
      target := "";
      if current.kind == Identifier {
        target := current.literal;
        Advance();
      }
      SkipRowLimit(startLine);
    }

    method ParseStoreStatement(ast: Program)
      requires Valid() && Matches(Keyword, "STORE")
      modifies this, lexer, ast
      ensures Past() && Yields(ast, StoreFrom(lexer.input, old(Start(current)), Step(lexer.input, old(Here()))))
    {
      hide Next, Step, StoreFrom, WellPlaced, Bare;
      var startPos := Start(current);
      Advance();
      RecordStore(ast, startPos);
    }

    method RecordStore(ast: Program, startPos: Position)
      requires Valid() && Apart() && AtOrBefore(startPos, Start(prev))
      modifies this, lexer, ast
      ensures Forward() && Apart() && Yields(ast, StoreFrom(lexer.input, startPos, old(Here())))
    {
      hide WellPlaced, AfterWords, NamedFrom;
      SkipWords(startPos.line, {"RECORD", "IN", "FILE"});
      if !OnLine(current, startPos.line) {
        AddDiagnostic(MissingTarget(Store), startPos, Position(startPos.line, startPos.column + 4));
        AppendEmpty(ast, Store, startPos);
        return;
      }
      FinishWithIdentifier(ast, Store, startPos);
    }

    /** COMMIT and ROLLBACK: the node ends with the keyword, whatever is skipped behind it. */
    method ParseTransactionStatement(ast: Program, kind: NodeKind)
      requires Valid() && current.kind == Keyword && current.literal != ""
      modifies this, lexer, ast
      ensures Past()
      ensures Yields(ast, TransactionFrom(lexer.input, kind, old(Start(current)), Step(lexer.input, old(Here()))))
      ensures ast.nodes == old(ast.nodes) + [Leaf(kind, Start(old(current)), EndOf(old(current)), "")]
    {
      hide Next, Step, SkipTo;
      var keyword := current;
      Advance();
      SkipToNextStatement();
      ast.nodes := ast.nodes + [Leaf(kind, Start(keyword), EndOf(keyword), "")];
    }

    method ParseCallDBProcStatement(ast: Program)
      requires Valid() && Matches(Keyword, "CALLDBPROC")
      modifies this, lexer, ast
      ensures Past() && Yields(ast, CallDBProcFrom(lexer.input, old(Start(current)), Step(lexer.input, old(Here()))))
    {
      hide Next, Step, CallDBProcFrom, WellPlaced, Bare;
      var startPos := Start(current);
      Advance();
      RecordCallDBProc(ast, startPos);
    }

    method RecordCallDBProc(ast: Program, startPos: Position)
      requires Valid() && Apart() && AtOrBefore(startPos, Start(prev))
      modifies this, lexer, ast
      ensures Forward() && Apart() && Yields(ast, CallDBProcFrom(lexer.input, startPos, old(Here())))
    {
      hide WellPlaced, Rest, TargetOf, AfterTarget;
      var name := ConsumeTarget();
      Finish(ast, CallDBProc, startPos, name, []);
    }

    // ----- SQL statements -----

    /** Takes the current token as an operand. */
    method Capture(clause: Clause, hostVar: bool, start: Position, operands: seq<Operand>) returns (more: seq<Operand>)
      requires Valid() && current.kind != EndOfFile && Gathered(start, operands, current)
      modifies this, lexer
      ensures Past() && diagnostics == old(diagnostics) && Gathered(start, more, current)
      ensures more == operands + [OperandOf(clause, old(current), hostVar)]
      ensures Here() == Step(lexer.input, old(Here()))
    {
      hide Next;
      var o := Operand(clause, current.literal, Start(current), hostVar);
      Advance();
      GatheredAppend(start, operands, o, old(current), current);
      more := operands + [o];
    }

    /** An optional colon, then an operand, or one token skipped. */
    method CaptureOrSkip(clause: Clause, numberToo: bool, start: Position, operands: seq<Operand>)
        returns (more: seq<Operand>)
      requires Valid() && current.kind != EndOfFile && Gathered(start, operands, current)
      modifies this, lexer
      ensures Past() && diagnostics == old(diagnostics) && Gathered(start, more, current)
      ensures var one := OneOperand(lexer.input, old(Here()), clause, numberToo);
              more == operands + one.value && Here() == one.after
    {
      hide Next, Step, Gathered, OperandOf, NameOrNothing;
      var hostVar := false;
      if Matches(Punctuation, ":") {
        Advance();
        GatheredLater(start, operands, old(current), current);
        hostVar := true;
      }
      more := CaptureName(clause, numberToo, hostVar, start, operands);
    }

    method CaptureName(clause: Clause, numberToo: bool, hostVar: bool, start: Position, operands: seq<Operand>)
        returns (more: seq<Operand>)
      requires Valid() && Gathered(start, operands, current)
      modifies this, lexer
      ensures Forward() && (old(current.kind) != EndOfFile ==> Past())
      ensures diagnostics == old(diagnostics) && Gathered(start, more, current)
      ensures Taken(more, Here())
                == Joined(operands, NameOrNothing(lexer.input, old(Here()), clause, numberToo, hostVar))
    {
      hide Next, Step, Gathered, OperandOf;
      if IsName(current) || (numberToo && current.kind == LiteralNumeric) {
        more := Capture(clause, hostVar, start, operands);
      } else {
        ghost var mid := current;
        Advance();
        GatheredLater(start, operands, mid, current);
        more := operands;
        assert operands + [] == operands;
      }
    }

    /** The names up to a stop of the statement or one of the given words. */
    method CaptureNames(clause: Clause, words: set<string>, start: Position, operands: seq<Operand>)
        returns (more: seq<Operand>)
      requires Valid() && Gathered(start, operands, current)
      modifies this, lexer
      ensures Forward() && diagnostics == old(diagnostics) && Gathered(start, more, current)
      ensures Taken(more, Here()) == Joined(operands, NameRun(lexer.input, old(Here()), clause, words))
    {
      hide Next, Step, Gathered, StopsSelect, NameRun, Joined, OperandOf;
      more := operands;
      while current.kind != EndOfFile && !StopsSelect(current)
        invariant Forward() && diagnostics == old(diagnostics) && Gathered(start, more, current)
        invariant Joined(more, NameRun(lexer.input, Here(), clause, words))
                    == Joined(operands, NameRun(lexer.input, old(Here()), clause, words))
        decreases Left()
      {
        NameRunStep(lexer.input, Here(), clause, words, more);
        if current.literal in words {
          break;
        }
        if IsName(current) {
          more := Capture(clause, false, start, more);
        } else {
          ghost var mid := current;
          Advance();
          GatheredLater(start, more, mid, current);
        }
      }
      NameRunStep(lexer.input, Here(), clause, words, more);
    }

    /** INTO or FROM and its names, if the clause is there. */
    method ParseSelectClause(word: string, clause: Clause, words: set<string>, start: Position, operands: seq<Operand>)
      returns (more: seq<Operand>)
      requires Valid() && Gathered(start, operands, current)
      modifies this, lexer
      ensures Forward() && diagnostics == old(diagnostics) && Gathered(start, more, current)
      ensures Taken(more, Here()) == Joined(operands, SelectClause(lexer.input, old(Here()), word, clause, words))
    {
      hide Next, Step, Gathered, StopsSelect, NameRun, Joined;
      more := operands;
      JoinedNothing(operands, Here());
      if current.literal == word {
        Advance();
        GatheredLater(start, operands, old(current), current);
        more := CaptureNames(clause, words, start, operands);
      }
    }

    /** The operands behind WHERE; GROUP, HAVING and ORDER clauses are skipped. */
    method ParseSelectWhere(start: Position, operands: seq<Operand>) returns (more: seq<Operand>)
      requires Valid() && Gathered(start, operands, current)
      modifies this, lexer
      ensures Forward() && diagnostics == old(diagnostics) && Gathered(start, more, current)
      ensures Taken(more, Here()) == Joined(operands, WhereClause(lexer.input, old(Here())))
    {
      hide Next, Step, Gathered, WhereRun, Joined;
      more := operands;
      JoinedNothing(operands, Here());
      if current.literal == "WHERE" {
        Advance();
        GatheredLater(start, more, old(current), current);
        more := ParseWhereRun(start, more);
      }
    }

    method ParseWhereRun(start: Position, operands: seq<Operand>) returns (more: seq<Operand>)
      requires Valid() && Gathered(start, operands, current)
      modifies this, lexer
      ensures Forward() && diagnostics == old(diagnostics) && Gathered(start, more, current)
      ensures Taken(more, Here()) == Joined(operands, WhereRun(lexer.input, old(Here())))
    {
      hide Next, Step, Gathered, StopsSelect, WhereRun, Joined, OneOperand, AfterSQLClause;
      more := operands;
      while current.kind != EndOfFile && !StopsSelect(current)
        invariant Forward() && diagnostics == old(diagnostics) && Gathered(start, more, current)
        invariant Joined(more, WhereRun(lexer.input, Here())) == Joined(operands, WhereRun(lexer.input, old(Here())))
        decreases Left()
      {
        WhereRunStep(lexer.input, Here(), more);
        if current.literal in {"GROUP", "HAVING", "ORDER"} {
          ghost var mid := current;
          SkipSQLClause();
          GatheredLater(start, more, mid, current);
          continue;
        }
        more := CaptureOrSkip(Where, false, start, more);
      }
      WhereRunStep(lexer.input, Here(), more);
    }

    method ParseSelectOperands(start: Position) returns (operands: seq<Operand>)
      requires Valid() && Earlier(start, Start(current))
      modifies this, lexer
      ensures Forward() && diagnostics == old(diagnostics) && Gathered(start, operands, current)
      ensures Taken(operands, Here()) == SelectOperands(lexer.input, old(Here()))
    {
      hide StopsSelect, NameRun, SelectClause, WhereClause;
      NothingBefore(NameRun(lexer.input, Here(), Columns, {"INTO", "FROM", "WHERE"}));
      operands := CaptureNames(Columns, {"INTO", "FROM", "WHERE"}, start, []);
      hide Gathered;
      operands := ParseSelectClause("INTO", Into, {"FROM", "WHERE"}, start, operands);
      operands := ParseSelectClause("FROM", From, {"WHERE"}, start, operands);
      operands := ParseSelectWhere(start, operands);
    }

    /** Without INTO the statement is skipped and leaves no node. */
    method ParseInsertStatement(ast: Program)
      requires Valid() && Matches(Keyword, "INSERT")
      modifies this, lexer, ast
      ensures Past() && Yields(ast, InsertFrom(lexer.input, old(Start(current)), Step(lexer.input, old(Here()))))
    {
      hide Next, Step, InsertFrom, WellPlaced, Bare;
      var startPos := Start(current);
      Advance();
      RecordInsert(ast, startPos);
    }

    method RecordInsert(ast: Program, start: Position)
      requires Valid() && Apart() && AtOrBefore(start, Start(prev)) && Earlier(start, Start(current))
      modifies this, lexer, ast
      ensures Forward() && Apart() && diagnostics == old(diagnostics)
      ensures Yields(ast, InsertFrom(lexer.input, start, old(Here())))
    {
      hide WellPlaced, Next, Step, InsertOperands, Rest;
      if current.literal != "INTO" {
        SkipToNextStatement();
      } else {
        Advance();
        var operands := ParseInsertOperands(start);
        Finish(ast, Insert, start, "", operands);
      }
    }

    method ParseInsertOperands(start: Position) returns (operands: seq<Operand>)
      requires Valid() && Earlier(start, Start(current))
      modifies this, lexer
      ensures Forward() && diagnostics == old(diagnostics) && OperandsInOrder(start, operands)
      ensures Taken(operands, Here()) == InsertOperands(lexer.input, old(Here()))
    {
      hide Next, Step, ValueList, ValuesAt, Joined;
      operands := CaptureTable(Into, start);
      hide Gathered;
      ghost var mid := current;
      SkipToValues();
      GatheredLater(start, operands, mid, current);
      JoinedNothing(operands, Here());
      if current.literal == "VALUES" {
        mid := current;
        Advance();
        GatheredLater(start, operands, mid, current);
        operands := ParseValues(start, operands);
      }
      GatheredInOrder(start, operands, current);
    }

    /** The table of INSERT, DELETE or MERGE. */
    method CaptureTable(clause: Clause, start: Position) returns (operands: seq<Operand>)
      requires Valid() && Earlier(start, Start(current))
      modifies this, lexer
      ensures Forward() && diagnostics == old(diagnostics) && Gathered(start, operands, current)
      ensures Taken(operands, Here()) == TableAt(lexer.input, old(Here()), clause)
    {
      hide Next, Step;
      operands := [];
      if current.kind == Identifier {
        operands := Capture(clause, false, start, operands);
        assert [] + [OperandOf(clause, old(current), false)] == [OperandOf(clause, old(current), false)];
      }
    }

    lemma GatheredInOrder(start: Position, operands: seq<Operand>, tok: Token)
      requires Gathered(start, operands, tok)
      ensures OperandsInOrder(start, operands)
    {
    }

    method SkipToValues()
      requires Valid()
      modifies this, lexer
      ensures Forward() && diagnostics == old(diagnostics) && Here() == ValuesAt(lexer.input, old(Here()))
    {
      hide Next, Step, IsProgramBoundary, IsStatementKeyword;
      while current.kind != EndOfFile && current.literal != "VALUES"
        invariant Forward() && diagnostics == old(diagnostics)
        invariant ValuesAt(lexer.input, Here()) == ValuesAt(lexer.input, old(Here()))
        decreases Left()
      {
        if IsProgramBoundary(current.literal) || StartsStatement(current) {
          break;
        }
        Advance();
      }
    }

    method ParseValues(start: Position, operands: seq<Operand>) returns (more: seq<Operand>)
      requires Valid() && Gathered(start, operands, current)
      modifies this, lexer
      ensures Forward() && diagnostics == old(diagnostics) && Gathered(start, more, current)
      ensures Taken(more, Here()) == Joined(operands, ValueList(lexer.input, old(Here())))
    {
      hide Next, Step, Gathered, ValueRun, OneOperand;
      more := operands;
      JoinedNothing(operands, Here());
      if Matches(Punctuation, "(") {
        Advance();
        GatheredLater(start, more, old(current), current);
        ghost var run := ValueRun(lexer.input, Here());
        while current.kind != EndOfFile && !Matches(Punctuation, ")")
          invariant Forward() && diagnostics == old(diagnostics) && Gathered(start, more, current)
          invariant Joined(more, ValueRun(lexer.input, Here())) == Joined(operands, run)
          decreases Left()
        {
          ValueRunStep(lexer.input, Here(), more);
          more := CaptureOrSkip(Values, true, start, more);
        }
        ValueRunStep(lexer.input, Here(), more);
        if Matches(Punctuation, ")") {
          ghost var mid := current;
          Advance();
          GatheredLater(start, more, mid, current);
        }
      }
    }

    /** The operands of SET (up to WHERE) or of WHERE; a colon marks the next operand even across operators. */
    method ParseAssignments(clause: Clause, start: Position, operands: seq<Operand>) returns (more: seq<Operand>)
      requires Valid() && Gathered(start, operands, current)
      modifies this, lexer
      ensures Forward() && diagnostics == old(diagnostics) && Gathered(start, more, current)
      ensures Taken(more, Here()) == Joined(operands, Assignments(lexer.input, old(Here()), clause, false))
    {
      hide Next, Step, Gathered, IsStatementKeyword, IsProgramBoundary, Assignments, Joined, OperandOf;
      more := operands;
      var colonPending := false;
      while current.kind != EndOfFile && !(clause == SetTargets && current.literal == "WHERE")
        && !IsStatementKeyword(current.literal)
        invariant Forward() && diagnostics == old(diagnostics) && Gathered(start, more, current)
        invariant Joined(more, Assignments(lexer.input, Here(), clause, colonPending))
               == Joined(operands, Assignments(lexer.input, old(Here()), clause, false))
        decreases Left()
      {
        AssignmentsStep(lexer.input, Here(), clause, colonPending, more);
        if IsProgramBoundary(current.literal) {
          break;
        }
        if IsName(current) {
          more := Capture(clause, colonPending, start, more);
          colonPending := false;
        } else {
          if Matches(Punctuation, ":") {
            colonPending := true;
          }
          ghost var mid := current;
          Advance();
          GatheredLater(start, more, mid, current);
        }
      }
      AssignmentsStep(lexer.input, Here(), clause, colonPending, more);
    }

    /** UPDATE: without an identifier a record update; with one followed by SET or WHERE an SQL update; otherwise
        ambiguous, and no node. */
    method ParseUpdateStatement(ast: Program)
      requires Valid() && Matches(Keyword, "UPDATE")
      modifies this, lexer, ast
      ensures Past() && Yields(ast, UpdateFrom(lexer.input, old(Start(current)), Step(lexer.input, old(Here()))))
    {
      hide Next, Step, UpdateFrom, WellPlaced, Bare;
      var startPos := Start(current);
      Advance();
      RecordUpdateForm(ast, startPos);
    }

    method RecordUpdateForm(ast: Program, start: Position)
      requires Valid() && Apart() && AtOrBefore(start, Start(prev)) && Earlier(start, Start(current))
      modifies this, lexer, ast
      ensures Forward() && Apart() && diagnostics == old(diagnostics)
      ensures Yields(ast, UpdateFrom(lexer.input, start, old(Here())))
    {
      hide Step, RecordFrom, TableUpdateFrom, WellPlaced, Bare;
      if current.kind != Identifier {
        ParseRecordStatement(ast, RecordUpdate, start);
      } else {
        ParseSQLUpdate(ast, start);
      }
    }

    method ParseSQLUpdate(ast: Program, start: Position)
      requires Valid() && current.kind == Identifier && AtOrBefore(start, Start(prev)) && Earlier(start, Start(current))
      modifies this, lexer, ast
      ensures Past() && diagnostics == old(diagnostics)
      ensures Yields(ast, TableUpdateFrom(lexer.input, start, old(Here())))
    {
      hide Next, Step, Rest, WellPlaced, UpdateOperands, OperandOf;
      var operands := Capture(Table, false, start, []);
      assert [] + [OperandOf(Table, old(current), false)] == [OperandOf(Table, old(current), false)];
      if current.literal != "SET" && current.literal != "WHERE" {
        SkipToNextStatement();
      } else {
        FinishUpdate(ast, start, operands);
      }
    }

    method FinishUpdate(ast: Program, start: Position, operands: seq<Operand>)
      requires Valid() && Apart() && AtOrBefore(start, Start(prev)) && Gathered(start, operands, current)
      modifies this, lexer, ast
      ensures Forward() && Apart() && diagnostics == old(diagnostics)
      ensures Yields(ast, ClausesFrom(lexer.input, SQLUpdate, start,
                                      Joined(operands, UpdateOperands(lexer.input, old(Here())))))
    {
      hide WellPlaced, UpdateOperands, Gathered, Rest;
      var more := ParseUpdateClauses(start, operands);
      Finish(ast, SQLUpdate, start, "", more);
    }

    method ParseUpdateClauses(start: Position, operands: seq<Operand>) returns (more: seq<Operand>)
      requires Valid() && Gathered(start, operands, current)
      modifies this, lexer
      ensures Forward() && diagnostics == old(diagnostics) && OperandsInOrder(start, more)
      ensures Taken(more, Here()) == Joined(operands, UpdateOperands(lexer.input, old(Here())))
    {
      hide Next, Step, Gathered, AssignmentClause, Joined;
      more := ParseAssignmentClause("SET", SetTargets, start, operands);
      ghost var targets := AssignmentClause(lexer.input, old(Here()), "SET", SetTargets);
      JoinedTwice(operands, targets.value, AssignmentClause(lexer.input, targets.after, "WHERE", Where));
      AfterJoined(operands, targets);
      more := ParseAssignmentClause("WHERE", Where, start, more);
      GatheredInOrder(start, more, current);
    }

    /** SET or WHERE and its names, if the clause is there. */
    method ParseAssignmentClause(word: string, clause: Clause, start: Position, operands: seq<Operand>)
      returns (more: seq<Operand>)
      requires Valid() && Gathered(start, operands, current) && word != ""
      modifies this, lexer
      ensures Forward() && diagnostics == old(diagnostics) && Gathered(start, more, current)
      ensures Taken(more, Here()) == Joined(operands, AssignmentClause(lexer.input, old(Here()), word, clause))
    {
      hide Next, Step, Gathered, Assignments, Joined;
      more := operands;
      JoinedNothing(operands, Here());
      if current.literal == word {
        Advance();
        GatheredLater(start, more, old(current), current);
        more := ParseAssignments(clause, start, more);
      }
    }

    /** The node ends with the label; what follows is skipped. */
    method ParseRecordStatement(ast: Program, kind: NodeKind, start: Position)
      requires Valid() && Apart() && AtOrBefore(start, Start(prev))
      modifies this, lexer, ast
      ensures Forward() && Apart() && diagnostics == old(diagnostics)
      ensures Yields(ast, RecordFrom(lexer.input, kind, start, old(Here())))
    {
      hide Rest, LabelText, WellPlaced, Bare, EndsBefore;
      var text := ParseLabelParens();
      FinishRecord(ast, kind, start, text);
    }

    method FinishRecord(ast: Program, kind: NodeKind, start: Position, text: string)
      requires Valid() && Apart() && AtOrBefore(start, Start(prev))
      modifies this, lexer, ast
      ensures Forward() && Apart() && diagnostics == old(diagnostics)
      ensures AppendsFitting(ast, Outline(kind, start, "").(text := text)) && Here() == Rest(lexer.input, old(Here()))
    {
      hide Rest;
      var node := Node(kind, start, Start(prev), "", text, [], [], []);
      SkipToNextStatement();
      ast.nodes := ast.nodes + [node];
    }

    /** DELETE FROM is SQL, any other DELETE a record delete. */
    method ParseDeleteStatement(ast: Program)
      requires Valid() && Matches(Keyword, "DELETE")
      modifies this, lexer, ast
      ensures Past() && Yields(ast, DeleteFrom(lexer.input, old(Start(current)), Step(lexer.input, old(Here()))))
    {
      hide Next, Step, DeleteFrom, WellPlaced, Bare;
      var startPos := Start(current);
      Advance();
      ParseDeleteForm(ast, startPos);
    }

    method ParseDeleteForm(ast: Program, start: Position)
      requires Valid() && Apart() && AtOrBefore(start, Start(prev)) && Earlier(start, Start(current))
      modifies this, lexer, ast
      ensures Forward() && Apart() && diagnostics == old(diagnostics)
      ensures Yields(ast, DeleteFrom(lexer.input, start, old(Here())))
    {
      hide Step, DeleteOperands, ClausesFrom, RecordFrom, WellPlaced, Bare;
      if current.literal != "FROM" {
        ParseRecordStatement(ast, RecordDelete, start);
      } else {
        FinishDelete(ast, start);
      }
    }

    method FinishDelete(ast: Program, start: Position)
      requires Valid() && Apart() && current.kind != EndOfFile && AtOrBefore(start, Start(prev))
      requires Earlier(start, Start(current))
      modifies this, lexer, ast
      ensures Forward() && Apart() && diagnostics == old(diagnostics)
      ensures var c := Step(lexer.input, old(Here()));
              Yields(ast, ClausesFrom(lexer.input, SQLDelete, start, DeleteOperands(lexer.input, c)))
    {
      hide WellPlaced, Next, Step, DeleteOperands, Rest;
      Advance();
      var operands := ParseDeleteOperands(start);
      Finish(ast, SQLDelete, start, "", operands);
    }

    method ParseDeleteOperands(start: Position) returns (operands: seq<Operand>)
      requires Valid() && Earlier(start, Start(current))
      modifies this, lexer
      ensures Forward() && diagnostics == old(diagnostics) && OperandsInOrder(start, operands)
      ensures Taken(operands, Here()) == DeleteOperands(lexer.input, old(Here()))
    {
      hide Next, Step, Gathered, DeleteRun;
      operands := CaptureTable(From, start);
      JoinedNothing(operands, Here());
      if current.literal == "WHERE" {
        ghost var mid := current;
        Advance();
        GatheredLater(start, operands, mid, current);
        operands := ParseDeleteWhere(start, operands);
      }
      GatheredInOrder(start, operands, current);
    }

    method ParseDeleteWhere(start: Position, operands: seq<Operand>) returns (more: seq<Operand>)
      requires Valid() && Gathered(start, operands, current)
      modifies this, lexer
      ensures Forward() && diagnostics == old(diagnostics) && Gathered(start, more, current)
      ensures Taken(more, Here()) == Joined(operands, DeleteRun(lexer.input, old(Here())))
    {
      hide Next, Step, Gathered, IsStatementKeyword, IsProgramBoundary, DeleteRun, OneOperand;
      more := operands;
      while current.kind != EndOfFile && !IsStatementKeyword(current.literal)
        invariant Forward() && diagnostics == old(diagnostics) && Gathered(start, more, current)
        invariant Joined(more, DeleteRun(lexer.input, Here())) == Joined(operands, DeleteRun(lexer.input, old(Here())))
        decreases Left()
      {
        DeleteRunStep(lexer.input, Here(), more);
        if IsProgramBoundary(current.literal) {
          break;
        }
        more := CaptureOrSkip(Where, false, start, more);
      }
      DeleteRunStep(lexer.input, Here(), more);
    }

    /** Without INTO the statement is skipped and leaves no node. */
    method ParseMergeStatement(ast: Program)
      requires Valid() && Matches(Keyword, "MERGE")
      modifies this, lexer, ast
      ensures Past() && Yields(ast, MergeFrom(lexer.input, old(Start(current)), Step(lexer.input, old(Here()))))
    {
      hide Next, Step, MergeFrom, WellPlaced, Bare;
      var startPos := Start(current);
      Advance();
      RecordMerge(ast, startPos);
    }

    method RecordMerge(ast: Program, start: Position)
      requires Valid() && Apart() && AtOrBefore(start, Start(prev)) && Earlier(start, Start(current))
      modifies this, lexer, ast
      ensures Forward() && Apart() && diagnostics == old(diagnostics)
      ensures Yields(ast, MergeFrom(lexer.input, start, old(Here())))
    {
      hide WellPlaced, Next, Step, TableAt, Gathered, Rest;
      if current.literal != "INTO" {
        SkipToNextStatement();
      } else {
        Advance();
        var operands := CaptureTable(Into, start);
        GatheredInOrder(start, operands, current);
        Finish(ast, Merge, start, "", operands);
      }
    }

    // ----- PROCESS SQL -----

    /** The body behind the DDM name: the lexer goes back over the `<` already read, takes the span, and reads on from
        there. Only the lookahead is replaced; the previous token stays the DDM name. */
    method ParseSpan(ghost name: Token) returns (text: string, end: Position)
      requires Valid() && Apart() && Matches(Operator, "<") && prev == name
      requires lexer.pos >= 1 && At(lexer.Now()) == Behind(current)
      modifies this, lexer
      ensures Valid() && prev == name && Apart() && old(diagnostics) <= diagnostics
      ensures AtOrBefore(Start(old(current)), Start(current)) && Left() <= old(Left()) + 2
      ensures EndsBefore(end, current) && AtOrBefore(Start(old(current)), Position(end.line, end.column + 1))
      ensures Here() == AfterBody(lexer.input, old(Here()))
      ensures var span := SpanAt(lexer.input, old(Here()));
              && text == span.token.literal && end == Position(span.after.line, span.after.col - 1)
              && (span.unterminated <==> |diagnostics| == |old(diagnostics)| + 1)
    {
      hide Next, OpaqueSpan;
      SpanMovesOn(lexer.input, Rewind(lexer.Now(), current));
      var span, endLine, endCol, unterminated := lexer.ScanOpaqueSpanFrom(current);
      end := Position(endLine, endCol - 1);
      if unterminated {
        AddDiagnostic(UnterminatedSpan, Start(span), end);
      }
      NextMovesOn(lexer.input, lexer.Now());
      current := lexer.NextToken();
      return span.literal, end;
    }

    /** PROCESS SQL and a DDM name must be on one line; a missing body is reported but keeps the node. */
    method ParseProcessSQLStatement(ast: Program)
      requires Valid() && Matches(Keyword, "PROCESS")
      modifies this, lexer, ast
      ensures Past() && Yields(ast, ProcessFrom(lexer.input, old(Start(current)), Step(lexer.input, old(Here()))))
    {
      hide Next, Step, ProcessFrom, WellPlaced, Bare;
      var startPos := Start(current);
      Advance();
      ParseProcessForm(ast, startPos);
    }

    method ParseProcessForm(ast: Program, startPos: Position)
      requires Valid() && Apart() && AtOrBefore(startPos, Start(prev))
      modifies this, lexer, ast
      ensures Forward() && Apart() && Yields(ast, ProcessFrom(lexer.input, startPos, old(Here())))
    {
      hide Next, Step, Rest, ProcessNameFrom, WellPlaced, Bare;
      if !OnLine(current, startPos.line) {
        AddDiagnostic(MissingSQL, startPos, Start(prev));
        return;
      }
      if current.literal != "SQL" {
        SkipToNextStatement();
        return;
      }
      Advance();
      ParseProcessOperands(ast, startPos);
    }

    method ParseProcessOperands(ast: Program, startPos: Position)
      requires Valid() && Apart() && AtOrBefore(startPos, Start(prev))
      modifies this, lexer, ast
      ensures Forward() && Apart() && Yields(ast, ProcessNameFrom(lexer.input, startPos, old(Here())))
      ensures |ast.nodes| == |old(ast.nodes)| ==> |diagnostics| == |old(diagnostics)| + 1
      ensures |ast.nodes| > |old(ast.nodes)| <==> OnLine(old(current), startPos.line) && old(current.kind) == Identifier
    {
      hide WellPlaced, Step, BodyText, AfterBody;
      if !OnLine(current, startPos.line) {
        AddDiagnostic(MissingDDMName, startPos, Start(prev));
      } else if current.kind != Identifier {
        AddDiagnostic(DDMNameNotIdentifier, startPos, Start(prev));
      } else {
        ParseProcessBody(ast, startPos);
      }
    }

    method ParseProcessBody(ast: Program, startPos: Position)
      requires Valid() && Apart() && current.kind == Identifier && AtOrBefore(startPos, Start(prev))
      modifies this, lexer, ast
      ensures Forward() && Apart() && prev == old(current)
      ensures var body := Step(lexer.input, old(Here()));
              && AppendsFitting(ast,
                                Outline(ProcessSQL, startPos,
                                        old(current.literal)).(text := BodyText(lexer.input, body)))
              && Here() == AfterBody(lexer.input, body)
    {
      hide Next, OpaqueSpan, BodyText, AfterBody, Step, WellPlaced;
      var name := current;
      Advance();
      FinishProcess(ast, startPos, name);
    }

    /** The node, with the body if a `<` is next. */
    method FinishProcess(ast: Program, startPos: Position, name: Token)
      requires Valid() && Apart() && prev == name && Earlier(startPos, Start(name))
      requires Earlier(Start(name), Start(current))
      requires Matches(Operator, "<") ==> lexer.pos >= 1 && At(lexer.Now()) == Behind(current)
      modifies this, lexer, ast
      ensures Valid() && Apart() && prev == name && old(diagnostics) <= diagnostics
      ensures AtOrBefore(Start(old(current)), Start(current))
      ensures Left() <= old(Left()) + if old(Matches(Operator, "<")) then 2 else 0
      ensures AppendsFitting(ast,
                             Outline(ProcessSQL, startPos, name.literal).(text := BodyText(lexer.input, old(Here()))))
      ensures Here() == AfterBody(lexer.input, old(Here()))
    {
      hide Next, SpanAt;
      if Matches(Operator, "<") {
        var text, end := ParseSpan(name);
        AppendSpan(ast, Node(ProcessSQL, startPos, end, name.literal, text, [], [], []), Start(name));
      } else {
        AddDiagnostic(MissingSpan, startPos, EndOf(name));
        ast.nodes := ast.nodes + [Leaf(ProcessSQL, startPos, Start(prev), name.literal)];
      }
    }

    method AppendSpan(ast: Program, node: Node, ghost name: Position)
      requires Valid() && Earlier(node.start, name) && Earlier(name, Position(node.end.line, node.end.column + 1))
      requires EndsBefore(node.end, current) && node.body == [] && node.operands == []
      modifies ast
      ensures ast.nodes == old(ast.nodes) + [node] && WellPlaced(node)
    {
      ast.nodes := ast.nodes + [node];
    }

    // ----- Loops -----

    /** READ RESULT SET, or READ with an optional row limit and a view.  RESULT is read tentatively: without SET behind
        it the tokens are restored, but the lexer stays behind the token after RESULT. */
    method ParseReadStatement(ast: Program)
      requires Valid() && Matches(Keyword, "READ")
      modifies this, lexer, ast
      ensures Past() && Yields(ast, ReadFrom(lexer.input, old(Start(current)), Step(lexer.input, old(Here()))))
      decreases Left(), 1, 0
    {
      hide Next, Step, ReadFrom, WellPlaced, Bare;
      var readToken := current;
      Advance();
      ParseReadForm(ast, readToken);
    }

    method ParseReadForm(ast: Program, readToken: Token)
      requires Valid() && Apart() && AtOrBefore(Start(readToken), Start(prev))
      requires Earlier(Start(readToken), Start(current))
      modifies this, lexer, ast
      ensures Forward() && Apart() && Yields(ast, ReadFrom(lexer.input, Start(readToken), old(Here())))
      decreases Left(), 7, 0
    {
      hide Next, Step, Restored, IsResultSet, PlainReadFrom, LoopFrom, TableAt, BodyStart, WellPlaced, Bare;
      var isResultSet := TryResultSet();
      if isResultSet {
        ParseReadResultSet(ast, readToken);
      } else {
        ParsePlainRead(ast, readToken);
      }
    }

    /** Consumes RESULT SET if both words are there; otherwise the token behind RESULT is lost: the lexer is past it. */
    method TryResultSet() returns (found: bool)
      requires Valid() && Apart()
      modifies this, lexer
      ensures Forward() && Apart() && diagnostics == old(diagnostics)
      ensures found <==> IsResultSet(lexer.input, old(Here()))
      ensures found ==> Here() == Step(lexer.input, Step(lexer.input, old(Here())))
      ensures !found ==> prev == old(prev) && Here() == Restored(lexer.input, old(Here()))
    {
      hide Next;
      if current.literal != "RESULT" {
        return false;
      }
      var savedCurrent, savedPrev := current, prev;
      Advance();
      if current.literal == "SET" {
        Advance();
        return true;
      }
      current := savedCurrent;
      prev := savedPrev;
      return false;
    }

    method ParsePlainRead(ast: Program, readToken: Token)
      requires Valid() && Apart() && AtOrBefore(Start(readToken), Start(prev))
      modifies this, lexer, ast
      ensures Forward() && Apart() && Yields(ast, PlainReadFrom(lexer.input, Start(readToken), old(Here())))
    {
      hide WellPlaced, Next, AfterRowLimit, NamedFrom;
      var startPos, startLine := Start(readToken), readToken.line;
      SkipRowLimit(startLine);
      if !OnLine(current, startLine) {
        AddDiagnostic(MissingTarget(Read), startPos, Position(startLine, startPos.column + 3));
        AppendEmpty(ast, Read, startPos);
        return;
      }
      FinishWithIdentifier(ast, Read, startPos);
    }

    method ParseReadResultSet(ast: Program, readToken: Token)
      requires Valid() && Apart() && AtOrBefore(Start(readToken), Start(prev))
      requires Earlier(Start(readToken), Start(current))
      modifies this, lexer, ast
      ensures Forward() && Apart()
      ensures var table := TableAt(lexer.input, old(Here()), Table);
              Yields(ast, LoopFrom(lexer.input, ReadResultSet, Start(readToken), table.value,
                                   BodyStart(lexer.input, table.after)))
      decreases Left(), 6, 0
    {
      hide Next, Step, SkipTo, TableAt, Gathered, OperandsInOrder, LoopFrom, WellPlaced, Bare;
      var operands := CaptureTable(Table, Start(readToken));
      GatheredInOrder(Start(readToken), operands, current);
      SkipToNextLoopBody();
      FinishLoop(ast, ReadResultSet, readToken, operands);
    }

    /** The body, its terminator, and the node. */
    method FinishLoop(ast: Program, kind: NodeKind, opening: Token, operands: seq<Operand>)
      requires Valid() && Apart() && AtOrBefore(Start(opening), Start(prev)) && Earlier(Start(opening), Start(current))
      requires OperandsInOrder(Start(opening), operands)
      modifies this, lexer, ast
      ensures Forward() && Apart()
      ensures Yields(ast, LoopFrom(lexer.input, kind, Start(opening), operands, old(Here())))
      decreases Left(), 5, 0
    {
      hide BodyAt, DefinesIn;
      var body, statements, forced, closed := ParseLoopBody(LoopTerminators(kind), kind, opening);
      var node := Node(kind, Start(opening), Start(prev), "", "", operands, [], body);
      LoopIsWellPlaced(node, Start(old(current)), statements, prev, current);
      ast.nodes := ast.nodes + [node];
    }

    /** SELECT SINGLE has no body; any other SELECT is a loop. */
    method ParseSelectStatement(ast: Program)
      requires Valid() && Matches(Keyword, "SELECT")
      modifies this, lexer, ast
      ensures Past() && Yields(ast, SelectFrom(lexer.input, old(Start(current)), Step(lexer.input, old(Here()))))
      decreases Left(), 1, 0
    {
      hide Next, Step, SelectFrom, WellPlaced, Bare;
      var selectToken := current;
      Advance();
      ParseSelectForm(ast, selectToken);
    }

    method ParseSelectForm(ast: Program, selectToken: Token)
      requires Valid() && Apart() && AtOrBefore(Start(selectToken), Start(prev))
      requires Earlier(Start(selectToken), Start(current))
      modifies this, lexer, ast
      ensures Forward() && Apart() && Yields(ast, SelectFrom(lexer.input, Start(selectToken), old(Here())))
      decreases Left(), 7, 0
    {
      hide Next, Step, SelectOperands, ClausesFrom, LoopFrom, WellPlaced, Bare;
      var single := current.literal == "SINGLE";
      if single {
        Advance();
      }
      ParseSelectRest(ast, selectToken, single);
    }

    method ParseSelectRest(ast: Program, selectToken: Token, single: bool)
      requires Valid() && Apart() && AtOrBefore(Start(selectToken), Start(prev))
      requires Earlier(Start(selectToken), Start(current))
      modifies this, lexer, ast
      ensures Forward() && Apart()
      ensures var operands := SelectOperands(lexer.input, old(Here()));
              Yields(ast, if single then ClausesFrom(lexer.input, SelectSingle, Start(selectToken), operands)
                          else LoopFrom(lexer.input, Select, Start(selectToken), operands.value, operands.after))
      decreases Left(), 6, 0
    {
      hide WellPlaced, Next, Step, Gathered, SelectOperands, LoopFrom, Rest;
      var operands := ParseSelectOperands(Start(selectToken));
      GatheredInOrder(Start(selectToken), operands, current);
      if single {
        Finish(ast, SelectSingle, Start(selectToken), "", operands);
      } else {
        FinishLoop(ast, Select, selectToken, operands);
      }
    }

    /** The statements up to a terminator, which is consumed, or to the end, which is reported.  The body is that of the
        reference; `statements` are the nodes dispatched, overlooked kinds included.  A statement that leaves the
        current token in place is pushed on by one token: as often as a turn stands at DEFINE. */
    method ParseLoopBody(terminators: set<string>, loop: NodeKind, opening: Token)
      returns (body: seq<Node>, ghost statements: seq<Node>, ghost forced: nat, closed: bool)
      requires Valid() && Apart() && "" !in terminators
      modifies this, lexer
      ensures Forward() && Apart()
      ensures Taken(BareAll(body), Here()) == BodyAt(lexer.input, old(Here()), terminators)
      ensures Settled(statements, Start(old(current)), current) && body == Kept(statements)
      ensures StartBy(statements, prev)
      ensures forced == DefinesIn(lexer.input, old(Here()), terminators)
      ensures closed ==> prev.literal in terminators
      ensures !closed ==> current.kind == EndOfFile && diagnostics != []
                          && diagnostics[|diagnostics| - 1]
                               == Diag(UnterminatedLoop(loop), Range(Start(opening), Start(prev)))
      decreases Left(), 4, 0
    {
      hide Next, Step, Settled, Kept, StartBy, BodyAt, DefinesIn, StatementAt, BareAll, Joined;
      body, statements, forced := [], [], 0;
      SettledNone(Start(current), current);
      NothingStarts(prev);
      NothingBare();
      NothingBefore(BodyAt(lexer.input, Here(), terminators));
      while current.kind != EndOfFile
        invariant Forward() && Apart()
        invariant Settled(statements, Start(old(current)), current) && body == Kept(statements)
        invariant StartBy(statements, prev)
        invariant Joined(BareAll(body), BodyAt(lexer.input, Here(), terminators))
               == BodyAt(lexer.input, old(Here()), terminators)
        invariant forced + DefinesIn(lexer.input, Here(), terminators)
                    == DefinesIn(lexer.input, old(Here()), terminators)
        decreases Left()
      {
        BodyStep(lexer.input, Here(), terminators, BareAll(body));
        if current.literal in terminators {
          break;
        }
        ghost var at, before := current, prev;
        var stmt, dispatched, pushed := ParseBodyStatement();
        SettledConcat(statements, dispatched, Start(old(current)), at, current);
        KeptConcat(statements, dispatched);
        BareConcat(body, if stmt.Some? then [stmt.value] else []);
        StartByConcat(statements, dispatched, before, at, prev, current);
        statements := statements + dispatched;
        body := if stmt.Some? then body + [stmt.value] else body;
        forced := if pushed then forced + 1 else forced;
      }
      BodyStep(lexer.input, Here(), terminators, BareAll(body));
      if current.kind == EndOfFile {
        AddDiagnostic(UnterminatedLoop(loop), Start(opening), Start(prev));
        closed := false;
      } else {
        ghost var at, before := current, prev;
        Advance();
        SettledLater(statements, Start(old(current)), at, current);
        StartByLater(statements, before, prev);
        closed := true;
      }
    }

    /** One turn of the loop. */
    method ParseBodyStatement() returns (stmt: Option<Node>, ghost dispatched: seq<Node>, ghost forced: bool)
      requires Valid() && Apart() && current.kind != EndOfFile
      modifies this, lexer
      ensures Past()
      ensures |dispatched| <= 1 && Settled(dispatched, Start(old(current)), current)
      ensures (if stmt.Some? then [stmt.value] else []) == Kept(dispatched)
      ensures Taken(BareAll(if stmt.Some? then [stmt.value] else []), Here()) == TurnAt(lexer.input, old(Here()))
      ensures forall i :: 0 <= i < |dispatched| ==> dispatched[i].start == Start(old(current))
      ensures forced <==> old(IsDefine(current))
      decreases Left(), 3, 0
    {
      hide Next, Settled, Kept, Step, StatementAt, BareAll;
      var prevLine, prevCol := current.line, current.column;
      stmt, dispatched := ParseStatement();
      forced := current.kind != EndOfFile && current.line == prevLine && current.column == prevCol;
      if current.kind != EndOfFile && current.line == prevLine && current.column == prevCol {
        ghost var at := current;
        Advance();
        SettledLater(dispatched, Start(old(current)), at, current);
        NothingBare();
      }
    }

    /** DEFINE is not dispatched inside a loop: the skip meant to pass it stops on it at once. */
    method ParseStatement() returns (stmt: Option<Node>, ghost dispatched: seq<Node>)
      requires Valid() && Apart() && current.kind != EndOfFile
      modifies this, lexer
      ensures if old(IsDefine(current))
              then Forward() && Here() == old(Here()) && prev == old(prev) && stmt.None? && dispatched == []
              else Past()
      ensures |dispatched| <= 1 && Settled(dispatched, Start(old(current)), current)
      ensures (if stmt.Some? then [stmt.value] else []) == Kept(dispatched)
      ensures !old(IsDefine(current)) ==>
                Taken(BareAll(if stmt.Some? then [stmt.value] else []), Here()) == TurnAt(lexer.input, old(Here()))
      ensures forall i :: 0 <= i < |dispatched| ==> dispatched[i].start == Start(old(current))
      decreases Left(), 2, 0
    {
      hide Next, Settled, Kept, Step, TurnAt, BareAll;
      if Matches(Keyword, "DEFINE") {
        DefineStopsSkip(lexer.input, Here());
        SkipToNextLoopBody();
        SettledNone(Start(current), current);
        NothingStarts(current);
        return None, [];
      }
      stmt, dispatched := ParseIntoThrowaway();
    }

    /** A dispatch into a program of its own. */
    method ParseIntoThrowaway() returns (stmt: Option<Node>, ghost dispatched: seq<Node>)
      requires Valid() && Apart() && current.kind != EndOfFile && !IsDefine(current)
      modifies this, lexer
      ensures Past()
      ensures |dispatched| <= 1 && Settled(dispatched, Start(old(current)), current)
      ensures (if stmt.Some? then [stmt.value] else []) == Kept(dispatched)
      ensures Taken(BareAll(if stmt.Some? then [stmt.value] else []), Here()) == TurnAt(lexer.input, old(Here()))
      ensures forall i :: 0 <= i < |dispatched| ==> dispatched[i].start == Start(old(current))
      decreases Left(), 1, 4
    {
      hide Next, Settled, FirstStatementNode, WellPlaced, Step, Kept, StatementAt, DefinitionFrom, BareAll, EndsBefore;
      var tmp := new Program();
      DispatchStatement(tmp);
      dispatched := tmp.nodes;
      assert dispatched[0..] == dispatched;
      KeptOfAtMostOneBare(dispatched);
      stmt := FirstStatementNode(tmp.nodes);
      SettledAtMostOne(dispatched, Start(old(current)), current);
    }

    // ----- Dispatch -----

    /** Calls and record access. */
    method ParseCallOrRecord(ast: Program)
      requires Valid() && IsCallOrRecord(current)
      modifies this, lexer, ast
      ensures Past()
      ensures Yields(ast, CallOrRecordFrom(lexer.input, old(current.literal), old(Start(current)),
                                           Step(lexer.input, old(Here()))))
      decreases Left(), 1, 1
    {
      hide Next, Step, CallFrom, PerformFrom, IncludeFrom, FetchFrom, RunFrom, ReadFrom, GetFrom, StoreFrom,
        FindFrom, WellPlaced, Bare;
      match current.literal
      case "CALLNAT" => ParseCallStatement(ast);
      case "PERFORM" => ParsePerformStatement(ast);
      case "INCLUDE" => ParseIncludeStatement(ast);
      case "FETCH" => ParseFetchStatement(ast);
      case "RUN" => ParseRunStatement(ast);
      case "READ" => ParseReadStatement(ast);
      case "GET" => ParseGetStatement(ast);
      case "STORE" => ParseStoreStatement(ast);
      case _ => ParseFindStatement(ast);
    }

    /** Embedded SQL. */
    method ParseSQL(ast: Program)
      requires Valid() && IsSQL(current)
      modifies this, lexer, ast
      ensures Past()
      ensures Yields(ast, SQLFrom(lexer.input, old(current.literal), old(Start(current)),
                                  Step(lexer.input, old(Here()))))
      decreases Left(), 1, 1
    {
      hide Next, Step, TransactionFrom, CallDBProcFrom, SelectFrom, InsertFrom, UpdateFrom, DeleteFrom, MergeFrom,
        ProcessFrom, WellPlaced, Bare;
      match current.literal
      case "COMMIT" => ParseTransactionStatement(ast, Commit);
      case "ROLLBACK" => ParseTransactionStatement(ast, Rollback);
      case "CALLDBPROC" => ParseCallDBProcStatement(ast);
      case "SELECT" => ParseSelectStatement(ast);
      case "INSERT" => ParseInsertStatement(ast);
      case "UPDATE" => ParseUpdateStatement(ast);
      case "DELETE" => ParseDeleteStatement(ast);
      case "MERGE" => ParseMergeStatement(ast);
      case _ => ParseProcessSQLStatement(ast);
    }

    /** One statement but DEFINE, or one unrecognised token. */
    method DispatchOther(ast: Program)
      requires Valid() && current.kind != EndOfFile && !IsDefine(current)
      modifies this, lexer, ast
      ensures Past() && Yields(ast, StatementAt(lexer.input, old(Here())))
      ensures !old(StartsStatement(current)) ==>
                ast.nodes == old(ast.nodes) && current == Next(lexer.input, old(lexer.Now())).token
                  && prev == old(current)
      decreases Left(), 1, 2
    {
      hide Next, Step, CallOrRecordFrom, SQLFrom, WellPlaced, Bare;
      if IsCallOrRecord(current) {
        ParseCallOrRecord(ast);
      } else if IsSQL(current) {
        ParseSQL(ast);
      } else {
        Advance();
      }
    }

    /** One definition, one other statement, or one unrecognised token: the nodes are those of the reference.  The
        measure strictly decreases whatever the statement. */
    method DispatchStatement(ast: Program)
      requires Valid() && current.kind != EndOfFile
      modifies this, lexer, ast
      ensures Past() && Appends(ast) && Leaves(ast, DispatchAt(lexer.input, old(Here())))
      ensures !old(IsDefine(current)) ==> AppendsAtMostOne(ast)
      ensures !old(StartsStatement(current)) ==>
                ast.nodes == old(ast.nodes) && current == Next(lexer.input, old(lexer.Now())).token
                  && prev == old(current)
      decreases Left(), 1, 3
    {
      hide Next, Settled, WellPlaced, Step, StatementAt, DefinitionFrom;
      if Matches(Keyword, "DEFINE") {
        ParseDefine(ast);
      } else {
        DispatchOther(ast);
        ghost var added := ast.nodes[|old(ast.nodes)|..];
        SettledAtMostOne(added, Start(old(current)), current);
        if added == [] {
          NothingBare();
        } else {
          BareOne(added[0]);
          assert added == [added[0]];
        }
      }
    }

    /** The whole source.  The nodes are those of the reference, well placed and in source order. */
    method Parse() returns (ast: Program)
      requires Valid() && prev == current && diagnostics == []
      modifies this, lexer
      ensures fresh(ast) && Valid() && current.kind == EndOfFile
      ensures BareAll(ast.nodes) == ProgramAt(lexer.input, old(Here()))
      ensures Settled(ast.nodes, old(Start(current)), current)
    {
      hide Next, Settled, WellPlaced, Step, DispatchAt, ProgramAt, BareAll;
      ast := new Program();
      SettledNone(Start(current), current);
      NothingBare();
      assert [] + ProgramAt(lexer.input, Here()) == ProgramAt(lexer.input, Here());
      while current.kind != EndOfFile
        invariant Valid() && AtOrBefore(old(Start(current)), Start(current))
        invariant Settled(ast.nodes, old(Start(current)), current) && fresh(ast)
        invariant BareAll(ast.nodes) + ProgramAt(lexer.input, Here()) == ProgramAt(lexer.input, old(Here()))
        decreases Left()
      {
        ghost var before, at, c := ast.nodes, current, Here();
        DispatchStatement(ast);
        ghost var added := ast.nodes[|before|..];
        SettledConcat(before, added, Start(old(current)), at, current);
        assert ast.nodes == before + added;
        BareConcat(before, added);
        ProgramStep(lexer.input, c, BareAll(before));
      }
      NoProgramLeft(lexer.input, Here(), BareAll(ast.nodes));
    }
  }
}
