/** Host variables in the opaque body of a PROCESS SQL statement (internal/analysis/natural/sql.go). */
module HostVars {
  import opened Model
  import opened SourceLines
  import opened Text

  datatype HostVarRef = HostVarRef(name: string, range: Range)

  predicate IsQualifier(c: char) {
    c in {'u', 'U', 'g', 'G', 't', 'T'}
  }

  predicate IsNameByte(c: char) {
    IsLetter(c) || IsDigit(c) || c == '-'
  }

  predicate IsSigil(c: char) {
    c in {'#', '&', '+', '@'}
  }

  // ----- What a colon starts -----

  function NameBytesEnd(body: string, i: nat): (r: nat)
    requires i <= |body|
    ensures i <= r <= |body| && forall k :: i <= k < r ==> !IsLineEnd(body[k])
    decreases |body| - i
  {
    if i == |body| || !IsNameByte(body[i]) then i else NameBytesEnd(body, i + 1)
  }

  /** The end of an optional sigil and the name bytes behind it. */
  function NameEnd(body: string, i: nat): (r: nat)
    requires i <= |body|
    ensures i <= r <= |body| && forall k :: i <= k < r ==> !IsLineEnd(body[k])
  {
    NameBytesEnd(body, if i < |body| && IsSigil(body[i]) then i + 1 else i)
  }

  function SpacesEnd(body: string, i: nat): (r: nat)
    requires i <= |body|
    ensures i <= r <= |body| && forall k :: i <= k < r ==> !IsLineEnd(body[k])
    decreases |body| - i
  {
    if i < |body| && (body[i] == ' ' || body[i] == '\t') then SpacesEnd(body, i + 1) else i
  }

  /** The first closing parenthesis at or behind i. */
  function ParenFrom(body: string, i: nat): (r: nat)
    requires i <= |body|
    ensures i <= r <= |body| && (forall k :: i <= k < r ==> body[k] != ')') && (r < |body| ==> body[r] == ')')
    decreases |body| - i
  {
    if i == |body| || body[i] == ')' then i else ParenFrom(body, i + 1)
  }

  /** Behind the subscript opening at i. */
  function SubscriptEnd(body: string, i: nat): (r: nat)
    requires i < |body|
    ensures i < r <= |body|
  {
    var close := ParenFrom(body, i + 1);
    if close < |body| then close + 1 else close
  }

  /** A name captured at [start, nameEnd), with its subscript up to `end`; None with the byte to go on from. */
  datatype Parsed = Name(start: nat, nameEnd: nat, end: nat) | Nothing(end: nat)

  predicate IsIndicator(name: string) {
    name == "INDICATOR" || name == "LINDICATOR"
  }

  function WithSubscript(body: string, start: nat, nameEnd: nat): (r: Parsed)
    requires start < nameEnd <= |body|
    ensures nameEnd <= r.end <= |body|
  {
    Name(start, nameEnd, if nameEnd < |body| && body[nameEnd] == '(' then SubscriptEnd(body, nameEnd) else nameEnd)
  }

  /** Where the name may start behind the colon at i: behind a qualifier letter and its colon. */
  function BehindQualifier(body: string, i: nat): (r: nat)
    requires i < |body|
    ensures i < r <= |body|
  {
    if i + 2 < |body| && IsQualifier(body[i + 1]) && body[i + 2] == ':' then i + 3 else i + 1
  }

  function AtColon(body: string, i: nat): (r: Parsed)
    requires i < |body| && body[i] == ':'
    ensures i < r.end <= |body|
    ensures r.Name? ==> i < r.start < r.nameEnd <= r.end
  {
    var j := BehindQualifier(body, i);
    var e := NameEnd(body, j);
    if (j < |body| && IsDigit(body[j])) || e == j then Nothing(j)
    else if !IsIndicator(Upper(body[j..e])) then WithSubscript(body, j, e)
    else
      var w := SpacesEnd(body, e);
      if w == |body| || body[w] != ':' then Nothing(w)
      else if NameEnd(body, w + 1) == w + 1 then Nothing(w + 1)
      else WithSubscript(body, w + 1, NameEnd(body, w + 1))
  }

  /** A reference found: the byte of its colon and the captured name. */
  datatype Found = Found(colon: nat, parsed: Parsed)

  predicate InBody(body: string, f: Found) {
    && f.colon < |body| && body[f.colon] == ':'
    && f.parsed.Name? && f.colon < f.parsed.start < f.parsed.nameEnd <= f.parsed.end <= |body|
  }

  /** The references from byte i on. */
  function Finds(body: string, i: nat): (r: seq<Found>)
    requires i <= |body|
    ensures forall k :: 0 <= k < |r| ==>
              InBody(body, r[k]) && i <= r[k].colon && r[k].parsed == AtColon(body, r[k].colon)
    decreases |body| - i
  {
    if i == |body| then []
    else if body[i] != ':' then Finds(body, StepFrom(body, i))
    else
      var p := AtColon(body, i);
      (if p.Name? then [Found(i, p)] else []) + Finds(body, p.end)
  }

  /** The interior starts two columns behind the `<<`. */
  function Interior(bodyStart: Position): Position {
    Position(bodyStart.line, bodyStart.column + 2)
  }

  /** The reference reported: its upper-case name, and its true span. */
  function RefOf(body: string, bodyStart: Position, f: Found): HostVarRef
    requires InBody(body, f)
  {
    var at := Interior(bodyStart);
    HostVarRef(Upper(body[f.parsed.start..f.parsed.nameEnd]),
               Range(Shift(body, 0, at, f.colon), Shift(body, 0, at, f.parsed.end)))
  }

  function RefsOf(body: string, bodyStart: Position, found: seq<Found>): (r: seq<HostVarRef>)
    requires forall k :: 0 <= k < |found| ==> InBody(body, found[k])
    ensures |r| == |found| && forall k :: 0 <= k < |r| ==> r[k] == RefOf(body, bodyStart, found[k])
  {
    seq(|found|, k requires 0 <= k < |found| => RefOf(body, bodyStart, found[k]))
  }

  // ----- The scan -----

  class BodyScanner {
    const body: string
    /** The position of byte 0. */
    const at: Position
    var i: nat
    var line: int
    var col: int

    /** The tracked position is the true one. */
    ghost predicate Valid()
      reads this
    {
      i <= |body| && Position(line, col) == Shift(body, 0, at, i)
    }

    constructor (body: string, bodyStart: Position)
      ensures Valid() && i == 0 && this.body == body && at == Interior(bodyStart)
    {
      this.body := body;
      this.at := Position(bodyStart.line, bodyStart.column + 2);
      i, line, col := 0, bodyStart.line, bodyStart.column + 2;
    }

    /** One byte that ends no line. */
    method Next()
      requires Valid() && i < |body| && !IsLineEnd(body[i])
      modifies this
      ensures Valid() && i == old(i) + 1
    {
      StepIsTrue(body, 0, at, i);
      i := i + 1;
      col := col + 1;
    }

    /** CR, LF or CRLF. */
    method NextLine()
      requires Valid() && i < |body| && IsLineEnd(body[i])
      modifies this
      ensures Valid() && i == StepFrom(body, old(i))
    {
      StepIsTrue(body, 0, at, i);
      line := line + 1;
      col := 1;
      var cr := body[i] == '\r';
      i := i + 1;
      if cr && i < |body| && body[i] == '\n' {
        i := i + 1;
      }
    }

    method ScanName() returns (name: string)
      requires Valid()
      modifies this
      ensures Valid() && i == NameEnd(body, old(i)) && name == body[old(i)..i]
    {
      hide Shift;
      var start := i;
      if i < |body| && IsSigil(body[i]) {
        Next();
      }
      ghost var first := i;
      while i < |body| && IsNameByte(body[i])
        invariant Valid() && start <= i && NameBytesEnd(body, i) == NameBytesEnd(body, first)
        decreases |body| - i
      {
        Next();
      }
      return body[start..i];
    }

    method SkipSpaces()
      requires Valid()
      modifies this
      ensures Valid() && i == SpacesEnd(body, old(i))
    {
      hide Shift;
      while i < |body| && (body[i] == ' ' || body[i] == '\t')
        invariant Valid() && SpacesEnd(body, i) == SpacesEnd(body, old(i))
        decreases |body| - i
      {
        Next();
      }
    }

    /** Swallows the subscript, whatever colons and line ends it holds. */
    method SkipParenSubscript()
      requires Valid() && i < |body| && body[i] == '('
      modifies this
      ensures Valid() && i == SubscriptEnd(body, old(i))
    {
      hide Shift;
      Next();
      while i < |body| && body[i] != ')'
        invariant Valid() && old(i) < i && ParenFrom(body, i) == ParenFrom(body, old(i) + 1)
        decreases |body| - i
      {
        if IsLineEnd(body[i]) {
          NextLine();
        } else {
          Next();
        }
      }
      if i < |body| {
        Next();
      }
    }

    /** Behind a colon: past the qualifier, if there is one. */
    method SkipQualifier()
      requires Valid() && 0 < i
      modifies this
      ensures Valid() && i == BehindQualifier(body, old(i) - 1)
    {
      hide Shift;
      if i < |body| && IsQualifier(body[i]) && i + 1 < |body| && body[i + 1] == ':' {
        Next();
        Next();
      }
    }

    /** The name a colon announces: empty if there is none.  An indicator word is only a prefix. */
    method ScanReference() returns (name: string, ghost parsed: Parsed)
      requires Valid() && i < |body| && body[i] == ':'
      modifies this
      ensures Valid() && parsed == AtColon(body, old(i)) && i == parsed.end
      ensures name == "" <==> parsed.Nothing?
      ensures name == if parsed.Name? then Upper(body[parsed.start..parsed.nameEnd]) else ""
    {
      hide Shift, NameEnd, SpacesEnd, SubscriptEnd;
      parsed := AtColon(body, i);
      Next();
      SkipQualifier();
      if i < |body| && IsDigit(body[i]) {
        return "", parsed;
      }
      name := ScanName();
      if name == "" {
        return "", parsed;
      }
      name := Upper(name);
      if IsIndicator(name) {
        SkipSpaces();
        if i >= |body| || body[i] != ':' {
          return "", parsed;
        }
        Next();
        name := ScanName();
        if name == "" {
          return "", parsed;
        }
        name := Upper(name);
      }
      if i < |body| && body[i] == '(' {
        SkipParenSubscript();
      }
    }
  }

  /** The scan reports exactly the references found from the start, in scan order. */
  method ScanOpaqueHostVars(body: string, bodyStart: Position) returns (refs: seq<HostVarRef>)
    ensures refs == RefsOf(body, bodyStart, Finds(body, 0))
  {
    hide Shift, AtColon, Upper;
    assert RefsFrom(body, bodyStart, 0) == RefsOf(body, bodyStart, Finds(body, 0));
    hide RefsFrom;
    refs := [];
    var s := new BodyScanner(body, bodyStart);
    while s.i < |body|
      invariant s.Valid() && s.body == body && s.at == Interior(bodyStart)
      invariant refs + RefsFrom(body, bodyStart, s.i) == RefsFrom(body, bodyStart, 0)
      decreases |body| - s.i
    {
      var ch := body[s.i];
      if IsLineEnd(ch) {
        RefsStep(body, bodyStart, s.i);
        s.NextLine();
      } else if ch != ':' {
        RefsStep(body, bodyStart, s.i);
        s.Next();
      } else {
        ghost var before := refs;
        var more := ReferenceAt(s, bodyStart);
        refs := refs + more;
        assert before + (more + RefsFrom(body, bodyStart, s.i)) == refs + RefsFrom(body, bodyStart, s.i);
      }
    }
    NoRefsAtEnd(body, bodyStart);
    assert refs + [] == refs;
  }

  /** The reference the colon announces, if there is one, over its true span. */
  method ReferenceAt(s: BodyScanner, ghost bodyStart: Position) returns (found: seq<HostVarRef>)
    requires s.Valid() && s.at == Interior(bodyStart) && s.i < |s.body| && s.body[s.i] == ':'
    modifies s
    ensures s.Valid() && old(s.i) < s.i
    ensures RefsFrom(s.body, bodyStart, old(s.i)) == found + RefsFrom(s.body, bodyStart, s.i)
  {
    hide Shift, AtColon, Upper, RefsFrom;
    RefsStep(s.body, bodyStart, s.i);
    var start := Position(s.line, s.col);
    var name, parsed := s.ScanReference();
    if name != "" {
      found := [HostVarRef(name, Range(start, Position(s.line, s.col)))];
    } else {
      found := [];
    }
  }

  function RefsFrom(body: string, bodyStart: Position, i: nat): seq<HostVarRef>
    requires i <= |body|
  {
    RefsOf(body, bodyStart, Finds(body, i))
  }

  lemma NoRefsAtEnd(body: string, bodyStart: Position)
    ensures RefsFrom(body, bodyStart, |body|) == []
  {
  }

  lemma RefsStep(body: string, bodyStart: Position, i: nat)
    requires i < |body|
    ensures body[i] != ':' ==> RefsFrom(body, bodyStart, i) == RefsFrom(body, bodyStart, StepFrom(body, i))
    ensures body[i] == ':' ==>
              var p := AtColon(body, i);
              RefsFrom(body, bodyStart, i)
                == (if p.Name? then [RefOf(body, bodyStart, Found(i, p))] else []) + RefsFrom(body, bodyStart, p.end)
  {
    hide Shift, AtColon, Upper, RefOf;
    if body[i] == ':' {
      var p := AtColon(body, i);
      assert Finds(body, i) == (if p.Name? then [Found(i, p)] else []) + Finds(body, p.end);
    }
  }

  // ----- What the references are -----

  /** References come in strictly increasing order and never overlap: each starts at a colon behind everything the one
      before consumed, its subscript included. */
  lemma {:induction false} FoundInOrder(body: string, i: nat, a: nat, b: nat)
    requires i <= |body| && a < b < |Finds(body, i)|
    ensures Finds(body, i)[a].colon < Finds(body, i)[a].parsed.end <= Finds(body, i)[b].colon
    decreases |body| - i
  {
    hide AtColon, InBody;
    if body[i] != ':' {
      FoundInOrder(body, StepFrom(body, i), a, b);
    } else {
      var p := AtColon(body, i);
      var rest := Finds(body, p.end);
      if !p.Name? {
        FoundInOrder(body, p.end, a, b);
      } else if a > 0 {
        FoundInOrder(body, p.end, a - 1, b - 1);
      }
    }
  }

  /** Each reported range starts at the true line and column of a colon of the body, and these strictly increase. */
  lemma RefsStartAtColons(body: string, bodyStart: Position, k: nat)
    requires k < |Finds(body, 0)|
    ensures var f, refs := Finds(body, 0), RefsOf(body, bodyStart, Finds(body, 0));
            && body[f[k].colon] == ':' && refs[k].range.start == Shift(body, 0, Interior(bodyStart), f[k].colon)
            && Earlier(refs[k].range.start, refs[k].range.end)
            && (k + 1 < |refs| ==> f[k].colon < f[k + 1].colon && !Earlier(refs[k + 1].range.start, refs[k].range.end))
  {
    hide Shift, AtColon, Finds;
    var f, at := Finds(body, 0), Interior(bodyStart);
    ShiftAdds(body, 0, at, f[k].colon, f[k].parsed.end);
    ShiftGrows(body, f[k].colon, Shift(body, 0, at, f[k].colon), f[k].parsed.end);
    if k + 1 < |f| {
      FoundInOrder(body, 0, k, k + 1);
      ShiftAdds(body, 0, at, f[k].parsed.end, f[k + 1].colon);
      ShiftGrows(body, f[k].parsed.end, Shift(body, 0, at, f[k].parsed.end), f[k + 1].colon);
    }
  }

  /** No reference starts inside the subscript consumed behind a captured name. */
  lemma NoReferenceInSubscript(body: string, a: nat, b: nat)
    requires a < |Finds(body, 0)| && b < |Finds(body, 0)|
    ensures var f := Finds(body, 0); !(f[a].parsed.nameEnd <= f[b].colon < f[a].parsed.end)
  {
    hide AtColon, Finds;
    if a < b {
      FoundInOrder(body, 0, a, b);
    } else if b < a {
      FoundInOrder(body, 0, b, a);
    }
  }

  lemma {:induction false} ShiftOfSlice(s: string, a: nat, b: nat, at: Position, i: nat)
    requires a <= b <= |s| && !InsideCRLF(s, b) && i <= b - a
    ensures Shift(s[a..b], 0, at, i) == Shift(s, a, at, a + i)
    decreases i
  {
    if i > 0 {
      ShiftOfSlice(s, a, b, at, i - 1);
      var body := s[a..b];
      assert body[i - 1] == s[a + i - 1] && (i < |body| ==> body[i] == s[a + i]);
    }
  }

  /** When the body is the source behind a `<<` whose position is true, every reported start is the true source position
      of a colon of the source. */
  lemma RefsStartAtSourceColons(source: string, a: nat, b: nat, k: nat)
    requires 2 <= a <= b <= |source| && source[a - 2] == source[a - 1] == '<' && !InsideCRLF(source, b)
    requires k < |Finds(source[a..b], 0)|
    ensures var body, bodyStart := source[a..b], PositionOf(source, a - 2);
            var colon := a + Finds(body, 0)[k].colon;
            colon < b && source[colon] == ':'
            && RefsOf(body, bodyStart, Finds(body, 0))[k].range.start == PositionOf(source, colon)
  {
    hide AtColon, Finds;
    var body, bodyStart := source[a..b], PositionOf(source, a - 2);
    var i := Finds(body, 0)[k].colon;
    ShiftWithinLine(source, a - 2, bodyStart, a);
    ShiftAdds(source, 0, ORIGIN, a - 2, a);
    ShiftAdds(source, 0, ORIGIN, a, a + i);
    ShiftOfSlice(source, a, b, Interior(bodyStart), i);
    assert body[i] == source[a + i];
  }

  /** The name is an indicator word and a colon follows it, so that a second name is scanned. */
  predicate HasIndicator(body: string, i: nat)
    requires i < |body|
  {
    var j := BehindQualifier(body, i);
    var w := SpacesEnd(body, NameEnd(body, j));
    IsIndicator(Upper(body[j..NameEnd(body, j)])) && w < |body| && body[w] == ':'
  }

  /** Where that second name may start. */
  function BehindIndicator(body: string, i: nat): nat
    requires i < |body|
  {
    SpacesEnd(body, NameEnd(body, BehindQualifier(body, i))) + 1
  }

  /** Where the captured name starts, if there is one. */
  function NameStart(body: string, i: nat): nat
    requires i < |body|
  {
    if HasIndicator(body, i) then BehindIndicator(body, i) else BehindQualifier(body, i)
  }

  /** The documented rule, that a captured name starts with a sigil or a letter, fails for exactly two families: a
      hyphen where the name starts, and a digit there behind an indicator word. */
  lemma NameOffRuleIff(body: string, i: nat)
    requires i < |body| && body[i] == ':'
    ensures AtColon(body, i).Name? ==> AtColon(body, i).start == NameStart(body, i)
    ensures AtColon(body, i).Name? && !IsSigil(body[NameStart(body, i)]) && !IsLetter(body[NameStart(body, i)]) <==>
      NameStart(body, i) < |body|
      && (body[NameStart(body, i)] == '-' || (IsDigit(body[NameStart(body, i)]) && HasIndicator(body, i)))
  {
    hide Upper, SpacesEnd, SubscriptEnd;
    var j := BehindQualifier(body, i);
    var e := NameEnd(body, j);
    NameNotEmpty(body, j);
    if j < |body| && !IsLetter(body[j]) {
      NoLetterNoIndicator(body[j..e]);
    }
    if SpacesEnd(body, e) < |body| {
      NameNotEmpty(body, SpacesEnd(body, e) + 1);
    }
  }

  /** A name is empty exactly where neither a sigil nor a name byte stands. */
  lemma NameNotEmpty(body: string, i: nat)
    requires i <= |body|
    ensures NameEnd(body, i) > i <==> i < |body| && (IsSigil(body[i]) || IsNameByte(body[i]))
  {
  }

  lemma NoLetterNoIndicator(name: string)
    requires name != "" ==> !IsLetter(name[0])
    ensures !IsIndicator(Upper(name))
  {
    if name != "" {
      assert Upper(name)[0] == name[0];
    }
  }

  /** One body on which it fails. */
  lemma IndicatorTakesDigits()
    ensures AtColon(":INDICATOR:10", 0) == Name(11, 13, 13)
  {
    var body := ":INDICATOR:10";
    NamesInWitness(body);
    hide NameBytesEnd;
    assert body[1..10] == "INDICATOR";
    assert Upper("INDICATOR") == "INDICATOR";
  }

  lemma NamesInWitness(body: string)
    requires body == ":INDICATOR:10"
    ensures NameBytesEnd(body, 1) == 10 && NameBytesEnd(body, 11) == 13 && SpacesEnd(body, 10) == 10
  {
    NameBytesRun(body, 1, 10);
    NameBytesRun(body, 11, 13);
  }

  lemma {:induction false} NameBytesRun(body: string, i: nat, e: nat)
    requires i <= e <= |body| && (forall k :: i <= k < e ==> IsNameByte(body[k]))
    requires (e < |body| ==> !IsNameByte(body[e]))
    ensures NameBytesEnd(body, i) == e
    decreases e - i
  {
    if i < e {
      NameBytesRun(body, i + 1, e);
    }
  }
}
