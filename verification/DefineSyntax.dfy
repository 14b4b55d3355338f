/** What DEFINE leaves in the tree, as functions of the cursor: field lines, type specifications, sections and blocks
    (internal/analysis/natural/parser.go). */
module DefineSyntax {
  import opened Model
  import opened Lexer
  import opened Syntax

  // ----- Type specifications -----

  function DepthAfter(depth: nat, tok: Token): nat {
    if IsOpening(tok) then depth + 1 else if IsClosing(tok) && depth > 0 then depth - 1 else depth
  }

  /** The tokens up to the parenthesis that closes the run, or to the end. */
  function SpecTokens(s: string, c: Cursor, depth: nat): (r: Taken<seq<Token>>)
    requires c.lexer.pos <= |s|
    ensures Moved(s, c, r.after) && (r.after.token.kind == EndOfFile || IsClosing(r.after.token))
    decreases Ahead(s, c)
  {
    if c.token.kind == EndOfFile || (IsClosing(c.token) && depth == 0) then Taken([], c)
    else
      var rest := SpecTokens(s, Step(s, c), DepthAfter(depth, c.token));
      Taken([c.token] + rest.value, rest.after)
  }

  function Balance(tokens: seq<Token>): int {
    if tokens == [] then 0
    else (if IsOpening(tokens[0]) then 1 else if IsClosing(tokens[0]) then -1 else 0) + Balance(tokens[1..])
  }

  /** No prefix closes more parentheses than it opens, and the token behind the run is the first one that would. */
  lemma {:induction false} SpecIsBalanced(s: string, c: Cursor, depth: nat, k: nat)
    requires c.lexer.pos <= |s| && k <= |SpecTokens(s, c, depth).value|
    ensures var r := SpecTokens(s, c, depth);
            && depth + Balance(r.value[..k]) >= 0
            && (r.after.token.kind != EndOfFile ==> IsClosing(r.after.token) && depth + Balance(r.value) == 0)
    decreases Ahead(s, c)
  {
    hide Step;
    var r := SpecTokens(s, c, depth);
    if r.value != [] {
      var d := DepthAfter(depth, c.token);
      SpecIsBalanced(s, Step(s, c), d, if k == 0 then 0 else k - 1);
      assert r.value[1..] == SpecTokens(s, Step(s, c), d).value;
      if k > 0 {
        assert r.value[..k][1..] == r.value[1..][..k - 1];
      }
    }
  }

  /** A gap between two tokens of a line. */
  predicate Gap(a: Token, b: Token) {
    a.line == b.line && b.column > a.column + |a.literal|
  }

  /** The tokens' text, with one space wherever the line has a gap. */
  function SpecText(tokens: seq<Token>): string {
    if tokens == [] then ""
    else
      var n := |tokens| - 1;
      var before := SpecText(tokens[..n]);
      before + Space(before, tokens[..n], tokens[n]) + tokens[n].literal
  }

  /** One space if the line has a gap before the token. */
  function Space(text: string, tokens: seq<Token>, tok: Token): string {
    if tokens != [] && text != "" && Gap(tokens[|tokens| - 1], tok) then " " else ""
  }

  /** The text of a specification: a gap before the closing parenthesis leaves a trailing space. */
  function Spec(run: Taken<seq<Token>>): string {
    var text, closing := SpecText(run.value), run.after.token;
    text + if closing.kind == EndOfFile then "" else Space(text, run.value, closing)
  }


  lemma SpecTokensStep(s: string, c: Cursor, depth: nat, done: seq<Token>)
    requires c.lexer.pos <= |s|
    ensures var all := Joined(done, SpecTokens(s, c, depth));
            if c.token.kind == EndOfFile || (IsClosing(c.token) && depth == 0) then all == Taken(done, c)
            else all == Joined(done + [c.token], SpecTokens(s, Step(s, c), DepthAfter(depth, c.token)))
  {
    hide Step, DepthAfter;
    var rest := SpecTokens(s, Step(s, c), DepthAfter(depth, c.token));
    assert done + [] == done && done + ([c.token] + rest.value) == done + [c.token] + rest.value;
  }

  lemma SpecTextStep(done: seq<Token>, tok: Token)
    ensures SpecText(done + [tok]) == SpecText(done) + Space(SpecText(done), done, tok) + tok.literal
  {
    hide Space;
    assert (done + [tok])[..|done|] == done;
  }

  lemma NoSpecText()
    ensures SpecText([]) == ""
  {
  }

  // ----- Field lines -----

  predicate IsPlus(tok: Token) {
    tok.kind == Operator && tok.literal == "+"
  }

  /** The name directly behind a `+`. */
  predicate Joins(plus: Token, tok: Token) {
    IsName(tok) && tok.line == plus.line && tok.column == plus.column + 1
  }

  /** A field's name.  A `+` that joins nothing stays the current token, but the token behind it has been read and is
      lost. */
  function FieldName(s: string, c: Cursor): (r: Taken<string>)
    requires c.lexer.pos <= |s|
    ensures Moved(s, c, r.after)
  {
    var next := Step(s, c);
    if IsPlus(c.token) then
      if Joins(c.token, next.token) then Taken("+" + next.token.literal, Step(s, next))
      else Taken("", Cursor(c.token, next.lexer))
    else if IsName(c.token) then Taken(c.token.literal, next)
    else Taken("", c)
  }

  function ViewName(s: string, c: Cursor): (r: Taken<string>)
    requires c.lexer.pos <= |s|
    ensures Moved(s, c, r.after)
  {
    if c.token.literal != "VIEW" then Taken("", c)
    else
      var behind := Step(s, c);
      var name := if behind.token.literal == "OF" then Step(s, behind) else behind;
      if IsName(name.token) && name.token.line == c.token.line then Taken(name.token.literal, Step(s, name))
      else Taken("", name)
  }

  /** A parenthesised specification, or a FILLER's width with its unit. */
  function TypeText(s: string, c: Cursor, name: string): (r: Taken<string>)
    requires c.lexer.pos <= |s|
    ensures Moved(s, c, r.after)
  {
    var next := Step(s, c);
    if IsOpening(c.token) then
      var spec := SpecTokens(s, next, 0);
      Taken(Spec(spec), if IsClosing(spec.after.token) then Step(s, spec.after) else spec.after)
    else if name == "FILLER" && c.token.kind == LiteralNumeric then
      if next.token.kind == Identifier && next.token.line == c.token.line then
        Taken(c.token.literal + next.token.literal, Step(s, next))
      else Taken(c.token.literal, next)
    else Taken("", c)
  }

  /** Behind REDEFINE, the redefined name. */
  function Redefinition(s: string, c: Cursor, level: int, start: Position): (r: Taken<Option<Field>>)
    requires c.lexer.pos <= |s|
    ensures Moved(s, c, r.after)
  {
    var name := if IsName(c.token) then c.token.literal else "";
    Taken(Some(Field(level, "", name, "", "", start)), if IsName(c.token) then Step(s, c) else c)
  }

  /** Name, view and type; none without a name. */
  function NamedField(s: string, c: Cursor, level: int, start: Position): (r: Taken<Option<Field>>)
    requires c.lexer.pos <= |s|
    ensures Moved(s, c, r.after)
  {
    var name := FieldName(s, c);
    if name.value == "" then Taken(None, name.after)
    else
      var view := ViewName(s, name.after);
      var spec := TypeText(s, view.after, name.value);
      Taken(Some(Field(level, name.value, "", spec.value, view.value,
                       if IsPlus(c.token) then Start(c.token) else start)), spec.after)
  }

  /** The field a level number starts. */
  function FieldLine(s: string, c: Cursor): (r: Taken<Option<Field>>)
    requires c.lexer.pos <= |s| && c.token.kind == LiteralNumeric
    ensures Moved(s, c, r.after) && Ahead(s, r.after) < Ahead(s, c)
  {
    var level, next := Atoi(c.token.literal), Step(s, c);
    if next.token.kind == Keyword && next.token.literal == "REDEFINE" then
      Redefinition(s, Step(s, next), level, Start(c.token))
    else NamedField(s, next, level, Start(c.token))
  }

  predicate EndsFields(tok: Token) {
    tok.kind == EndOfFile || IsSectionKeyword(tok.literal) || IsProgramBoundary(tok.literal) || StartsStatement(tok)
  }

  function ListOf(field: Option<Field>): seq<Field> {
    if field.Some? then [field.value] else []
  }

  /** The fields of a section; tokens that start no field are passed over. */
  function FieldLines(s: string, c: Cursor): (r: Taken<seq<Field>>)
    requires c.lexer.pos <= |s|
    ensures Moved(s, c, r.after) && EndsFields(r.after.token)
    decreases Ahead(s, c)
  {
    if EndsFields(c.token) then Taken([], c)
    else if c.token.kind != LiteralNumeric then FieldLines(s, Step(s, c))
    else
      var field := FieldLine(s, c);
      var rest := FieldLines(s, field.after);
      Joined(ListOf(field.value), rest)
  }

  lemma FieldLinesStep(s: string, c: Cursor, before: seq<Field>)
    requires c.lexer.pos <= |s|
    ensures var all := Joined(before, FieldLines(s, c));
            if EndsFields(c.token) then all == Taken(before, c)
            else if c.token.kind != LiteralNumeric then all == Joined(before, FieldLines(s, Step(s, c)))
            else all == Joined(before + ListOf(FieldLine(s, c).value), FieldLines(s, FieldLine(s, c).after))
  {
    hide Step, FieldLine, EndsFields;
    JoinedNothing(before, c);
    if !EndsFields(c.token) && c.token.kind == LiteralNumeric {
      JoinedTwice(before, ListOf(FieldLine(s, c).value), FieldLines(s, FieldLine(s, c).after));
    }
  }

  /** Behind a level number, a `+` that joins no name costs the token behind it, whatever that is: the fields read are
      those behind the lost token. */
  lemma BarePlusLosesToken(s: string, c: Cursor)
    requires c.lexer.pos <= |s| && c.token.kind == LiteralNumeric && !EndsFields(c.token)
    requires IsPlus(Step(s, c).token) && !Joins(Step(s, c).token, Step(s, Step(s, c)).token)
    ensures var lost := Step(s, Step(s, c));
            FieldLines(s, c) == FieldLines(s, Step(s, lost))
  {
    hide Step;
    var plus, lost := Step(s, c), Step(s, Step(s, c));
    assert FieldLine(s, c) == Taken(None, Cursor(plus.token, lost.lexer));
    assert Step(s, Cursor(plus.token, lost.lexer)) == Step(s, lost) by {
      StepIgnoresToken(s, lost, plus.token);
    }
    var rest := FieldLines(s, Cursor(plus.token, lost.lexer));
    assert rest == FieldLines(s, Step(s, lost)) && [] + rest.value == rest.value;
  }

  lemma StepIgnoresToken(s: string, c: Cursor, tok: Token)
    requires c.lexer.pos <= |s|
    ensures Step(s, Cursor(tok, c.lexer)) == Step(s, c)
  {
  }

  // ----- Sections -----

  function UsingName(s: string, c: Cursor): (r: Taken<seq<Operand>>)
    requires c.lexer.pos <= |s|
    ensures Moved(s, c, r.after)
  {
    if c.token.literal != "USING" then Taken([], c)
    else
      var name := Step(s, c);
      if IsName(name.token) then Taken([Operand(Using, name.token.literal, Start(name.token), false)], Step(s, name))
      else Taken([], name)
  }

  /** One section: its keyword, its USING name and its fields; a bare node. */
  function SectionAt(s: string, c: Cursor, start: Position): (r: Taken<Node>)
    requires c.lexer.pos <= |s| && c.token.kind != EndOfFile
    ensures Moved(s, c, r.after) && Ahead(s, r.after) < Ahead(s, c)
  {
    var using := UsingName(s, Step(s, c));
    var fields := FieldLines(s, using.after);
    Taken(Node(DataSection, start, start, Lowercase(c.token.literal), "", using.value, fields.value, []), fields.after)
  }

  /** The sections from a cursor on, each starting at its keyword, but the first where DEFINE does. */
  function Sections(s: string, c: Cursor, first: Option<Position>): (r: Taken<seq<Node>>)
    requires c.lexer.pos <= |s|
    ensures Moved(s, c, r.after)
    decreases Ahead(s, c)
  {
    if c.token.kind == EndOfFile || !IsSectionKeyword(c.token.literal) then Taken([], c)
    else
      var one := SectionAt(s, c, if first.Some? then first.value else Start(c.token));
      var rest := Sections(s, one.after, None);
      Taken([one.value] + rest.value, rest.after)
  }

  lemma SectionsEnd(s: string, c: Cursor, first: Option<Position>, before: seq<Node>)
    requires c.lexer.pos <= |s| && (c.token.kind == EndOfFile || !IsSectionKeyword(c.token.literal))
    ensures Joined(before, Sections(s, c, first)) == Taken(before, c)
  {
    JoinedNothing(before, c);
  }

  lemma SectionsStep(s: string, c: Cursor, first: Option<Position>, before: seq<Node>)
    requires c.lexer.pos <= |s|
    requires c.token.kind != EndOfFile && IsSectionKeyword(c.token.literal)
    ensures var one := SectionAt(s, c, if first.Some? then first.value else Start(c.token));
            Joined(before, Sections(s, c, first)) == Joined(before + [one.value], Sections(s, one.after, None))
  {
    hide SectionAt, IsSectionKeyword;
    var one := SectionAt(s, c, if first.Some? then first.value else Start(c.token));
    var rest := Sections(s, one.after, None).value;
    assert before + ([one.value] + rest) == before + [one.value] + rest;
  }

  // ----- Blocks -----

  /** Behind the end of a block, if it is here: END with an optional word, or the joined form. */
  function BlockEnd(s: string, c: Cursor, word: string, joined: string): (r: Option<Cursor>)
    requires c.lexer.pos <= |s|
    ensures r.Some? ==> Moved(s, c, r.value)
  {
    var next := Step(s, c);
    if c.token.kind == Keyword && c.token.literal == "END" then
      Some(if next.token.literal == word then Step(s, next) else next)
    else if c.token.kind == Identifier && c.token.literal == joined then Some(next)
    else None
  }

  /** Behind the first end of the block, or the end of the source. */
  function AfterBlock(s: string, c: Cursor, word: string, joined: string): (r: Cursor)
    requires c.lexer.pos <= |s|
    ensures Moved(s, c, r)
    decreases Ahead(s, c)
  {
    if c.token.kind == EndOfFile then c
    else
      var end := BlockEnd(s, c, word, joined);
      if end.Some? then end.value else AfterBlock(s, Step(s, c), word, joined)
  }

  /** The name behind DEFINE SUBROUTINE. */
  function BlockName(s: string, c: Cursor): (r: Taken<string>)
    requires c.lexer.pos <= |s|
    ensures Moved(s, c, r.after)
  {
    if IsName(c.token) then Taken(c.token.literal, Step(s, c)) else Taken("", c)
  }

  /** The name behind DEFINE MAP: a string or an identifier. */
  function MapName(s: string, c: Cursor): (r: Taken<string>)
    requires c.lexer.pos <= |s|
    ensures Moved(s, c, r.after)
  {
    if HasTarget(c.token) then Taken(TargetOf(c.token), Step(s, c)) else Taken("", c)
  }

  function MapFields(s: string, c: Cursor): (r: Taken<seq<Field>>)
    requires c.lexer.pos <= |s|
    ensures Moved(s, c, r.after)
    decreases Ahead(s, c)
  {
    var end := BlockEnd(s, c, "MAP", "END-MAP");
    if c.token.kind == EndOfFile then Taken([], c)
    else if end.Some? then Taken([], end.value)
    else if c.token.kind != LiteralNumeric then MapFields(s, Step(s, c))
    else
      var field := FieldLine(s, c);
      var rest := MapFields(s, field.after);
      Joined(ListOf(field.value), rest)
  }

  lemma MapFieldsStep(s: string, c: Cursor, before: seq<Field>)
    requires c.lexer.pos <= |s|
    ensures var all, end := Joined(before, MapFields(s, c)), BlockEnd(s, c, "MAP", "END-MAP");
            if c.token.kind == EndOfFile then all == Taken(before, c)
            else if end.Some? then all == Taken(before, end.value)
            else if c.token.kind != LiteralNumeric then all == Joined(before, MapFields(s, Step(s, c)))
            else all == Joined(before + ListOf(FieldLine(s, c).value), MapFields(s, FieldLine(s, c).after))
  {
    hide Step, FieldLine, BlockEnd;
    JoinedNothing(before, c);
    if c.token.kind == LiteralNumeric {
      JoinedTwice(before, ListOf(FieldLine(s, c).value), MapFields(s, FieldLine(s, c).after));
    }
  }
}
