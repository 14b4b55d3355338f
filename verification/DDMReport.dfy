/** The fixed-column rows of an exported DDM report (internal/analysis/natural/ddm.go). */
module DDMReport {
  import opened Model
  import opened Nesting
  import opened DDMNesting
  import Positions
  import opened Text

  const OFFSET_TYPE := 0
  const OFFSET_LEVEL := 2
  const OFFSET_NAME := 7
  const NAME_LENGTH := 32

  predicate HasPrefix(line: string, prefix: string) {
    |prefix| <= |line| && line[..|prefix|] == prefix
  }

  predicate Contains(line: string, part: string) {
    HasPrefix(line, part) || (line != "" && Contains(line[1..], part))
  }

  predicate IsHeaderLine(line: string) {
    HasPrefix(line, "TYPE: ")
  }

  /** The exact word SQL behind the header prefix. */
  predicate IsSQLTypeLine(line: string) {
    HasPrefix(line, "TYPE: SQL") && (|line| == 9 || line[9] == ' ' || line[9] == '\r')
  }

  predicate IsDashedLine(line: string) {
    forall i :: 0 <= i < |line| ==> line[i] == '-' || line[i] == ' '
  }

  predicate ShouldSkipLine(line: string) {
    || line == ""
    || line[0] == '*'
    || HasPrefix(line, "DB: ") || HasPrefix(line, "TYPE: ")
    || (HasPrefix(line, "T ") && Contains(line, "Name"))
    || IsDashedLine(line)
    || Contains(line, "DDM OUTPUT TERMINATED")
  }

  predicate IsSpace(c: char) {
    c == ' ' || '\t' <= c <= '\r'
  }

  function TrimLeft(s: string): string {
    if s != "" && IsSpace(s[0]) then TrimLeft(s[1..]) else s
  }

  function TrimRight(s: string): string {
    if s != "" && IsSpace(s[|s| - 1]) then TrimRight(s[..|s| - 1]) else s
  }

  function NameOf(line: string): string {
    if |line| <= OFFSET_NAME then ""
    else
      var end := if OFFSET_NAME + NAME_LENGTH > |line| then |line| else OFFSET_NAME + NAME_LENGTH;
      Upper(TrimRight(TrimLeft(line[OFFSET_NAME..end])))
  }

  /** The row of a data line: a level digit in its column and a name; a G or P in the first column opens a group. */
  function RowOf(line: string): Option<Item> {
    if ShouldSkipLine(line) || |line| < OFFSET_NAME + 1 || !IsDigit(line[OFFSET_LEVEL]) || NameOf(line) == "" then None
    else Some(Item((line[OFFSET_LEVEL] - '0') as int, line[OFFSET_TYPE] == 'G' || line[OFFSET_TYPE] == 'P',
                   NameOf(line)))
  }

  // ----- The columns, told by position -----

  lemma PrefixAt(line: string, before: string, part: string, after: string)
    requires line == before + part + after
    ensures before == "" ==> HasPrefix(line, part)
  {
  }

  lemma {:induction false} ContainsAt(line: string, part: string)
    ensures Contains(line, part) <==> exists before, after :: line == before + part + after
  {
    if HasPrefix(line, part) {
      assert line == "" + part + line[|part|..];
    } else if line != "" {
      ContainsAt(line[1..], part);
      if before, after :| line[1..] == before + part + after {
        assert line == ([line[0]] + before) + part + after;
      }
      if before, after :| line == before + part + after {
        PrefixAt(line, before, part, after);
        assert line[1..] == before[1..] + part + after;
      }
    }
  }

  /** The lines of a report that carry no field. */
  lemma SkippedLines(line: string)
    ensures ShouldSkipLine(line) <==>
              || line == "" || line[0] == '*'
              || (4 <= |line| && line[..4] == "DB: ")
              || (6 <= |line| && line[..6] == "TYPE: ")
              || (2 <= |line| && line[..2] == "T " && exists before, after :: line == before + "Name" + after)
              || (forall k :: 0 <= k < |line| ==> line[k] == '-' || line[k] == ' ')
              || exists before, after :: line == before + "DDM OUTPUT TERMINATED" + after
  {
    ContainsAt(line, "Name");
    ContainsAt(line, "DDM OUTPUT TERMINATED");
    hide Contains;
  }

  /** Trimming leaves the stretch between the first and the last byte that is no blank. */
  lemma {:induction false} TrimmedBetween(s: string, a: nat, b: nat)
    requires a < b <= |s| && !IsSpace(s[a]) && !IsSpace(s[b - 1])
    requires forall k :: 0 <= k < |s| && (k < a || b <= k) ==> IsSpace(s[k])
    ensures TrimRight(TrimLeft(s)) == s[a..b]
    decreases |s|
  {
    if a > 0 {
      TrimmedBetween(s[1..], a - 1, b - 1);
      assert s[1..][a - 1..b - 1] == s[a..b];
    } else if b < |s| {
      var shorter := s[..|s| - 1];
      TrimmedBetween(shorter, a, b);
      assert TrimLeft(s) == s && TrimLeft(shorter) == shorter;
      assert shorter[a..b] == s[a..b];
    } else {
      assert s[a..b] == s;
    }
  }

  lemma {:induction false} NothingTrimmed(s: string)
    requires forall k :: 0 <= k < |s| ==> IsSpace(s[k])
    ensures TrimRight(TrimLeft(s)) == ""
  {
    if s != "" {
      NothingTrimmed(s[1..]);
    }
  }

  lemma SliceOfSlice(s: string, x: nat, y: nat, a: nat, b: nat)
    requires x <= a <= b <= y <= |s|
    ensures s[x..y][a - x..b - x] == s[a..b]
  {
    var t := s[x..y][a - x..b - x];
    assert forall k :: 0 <= k < |t| ==> t[k] == s[a..b][k];
  }

  /** The name of a line stands in columns 7 to 38, from its first to its last byte there that is no blank. */
  lemma NameIsColumns(line: string, a: nat, b: nat)
    requires 7 <= a < b <= |line| && b <= 39 && !IsSpace(line[a]) && !IsSpace(line[b - 1])
    requires forall k :: 7 <= k < |line| && k < 39 && (k < a || b <= k) ==> IsSpace(line[k])
    ensures NameOf(line) == Upper(line[a..b]) && NameOf(line) != ""
  {
    var end := if 39 > |line| then |line| else 39;
    var field := line[7..end];
    SliceOfSlice(line, 7, end, a, b);
    assert forall k :: 0 <= k < |field| ==> field[k] == line[k + 7];
    hide TrimLeft, TrimRight;
    TrimmedBetween(field, a - 7, b - 7);
    assert field[a - 7..b - 7] == line[a..b];
    assert NameOf(line) == Upper(line[a..b]);
    assert |NameOf(line)| == b - a;
  }

  lemma NoNameInColumns(line: string)
    requires forall k :: 7 <= k < |line| && k < 39 ==> IsSpace(line[k])
    ensures NameOf(line) == ""
  {
    if 7 < |line| {
      NothingTrimmed(line[7..if 39 > |line| then |line| else 39]);
    }
  }

  /** The stretch of columns a name takes. */
  lemma NameStretch(line: string, i: nat) returns (a: nat, b: nat)
    requires 7 <= i < |line| && i < 39 && !IsSpace(line[i])
    ensures 7 <= a < b <= |line| && b <= 39 && !IsSpace(line[a]) && !IsSpace(line[b - 1])
    ensures forall k :: 7 <= k < |line| && k < 39 && (k < a || b <= k) ==> IsSpace(line[k])
  {
    a, b := 7, if 39 > |line| then |line| else 39;
    while IsSpace(line[a])
      decreases i - a
      invariant 7 <= a <= i && forall k :: 7 <= k < a ==> IsSpace(line[k])
    {
      a := a + 1;
    }
    while IsSpace(line[b - 1])
      decreases b
      invariant i < b <= |line| && b <= 39 && forall k :: b <= k < |line| && k < 39 ==> IsSpace(line[k])
    {
      b := b - 1;
    }
  }

  /** Which lines are rows: those not skipped, with a digit in column 2 and a byte other than a blank among columns 7
      to 38. */
  lemma RowIffColumns(line: string)
    ensures RowOf(line).Some? <==>
              && !ShouldSkipLine(line) && 8 <= |line| && '0' <= line[2] <= '9'
              && exists i :: 7 <= i < |line| && i < 39 && !IsSpace(line[i])
  {
    hide NameOf, ShouldSkipLine;
    if i :| 7 <= i < |line| && i < 39 && !IsSpace(line[i]) {
      var a, b := NameStretch(line, i);
      NameIsColumns(line, a, b);
    } else {
      NoNameInColumns(line);
    }
  }

  /** What a row says: its level is the digit of column 2, it opens a group exactly for a G or a P in column 0, and its
      name is what stands in columns 7 to 38, without the blanks around it and in capitals. */
  lemma RowIsColumns(line: string) returns (a: nat, b: nat)
    requires RowOf(line).Some?
    ensures 7 <= a < b <= |line| && b <= 39 && !IsSpace(line[a]) && !IsSpace(line[b - 1])
    ensures forall k :: 7 <= k < |line| && k < 39 && (k < a || b <= k) ==> IsSpace(line[k])
    ensures RowOf(line) == Some(Item((line[2] - '0') as int, line[0] in {'G', 'P'}, Upper(line[a..b])))
  {
    RowIffColumns(line);
    hide NameOf, ShouldSkipLine;
    var i :| 7 <= i < |line| && i < 39 && !IsSpace(line[i]);
    a, b := NameStretch(line, i);
    NameIsColumns(line, a, b);
  }

  function RowsOf(lines: seq<string>): seq<Item> {
    if lines == [] then []
    else RowsOf(lines[..|lines| - 1]) + if RowOf(lines[|lines| - 1]).Some? then [RowOf(lines[|lines| - 1]).value]
      else []
  }

  /** The rows stand in the order of their lines, and every line is read by itself. */
  lemma {:induction false} RowsConcat(a: seq<string>, b: seq<string>)
    ensures RowsOf(a + b) == RowsOf(a) + RowsOf(b)
  {
    hide RowOf;
    if b == [] {
      assert a + b == a;
    } else {
      var n := |b| - 1;
      assert (a + b)[..|a + b| - 1] == a + b[..n];
      RowsConcat(a, b[..n]);
    }
  }

  /** The first header line decides. */
  predicate IsSQLReport(lines: seq<string>) {
    exists i :: 0 <= i < |lines| && IsSQLTypeLine(lines[i]) && forall k :: 0 <= k < i ==> !IsHeaderLine(lines[k])
  }

  lemma SQLTypeLineIsHeader(line: string)
    requires IsSQLTypeLine(line)
    ensures IsHeaderLine(line)
  {
    assert line[..9][..6] == line[..6] && "TYPE: SQL"[..6] == "TYPE: ";
  }

  method ScanHeader(lines: seq<string>) returns (isSQL: bool)
    ensures isSQL <==> IsSQLReport(lines)
  {
    for i := 0 to |lines|
      invariant forall k :: 0 <= k < i ==> !IsHeaderLine(lines[k])
    {
      if IsSQLTypeLine(lines[i]) {
        return true;
      }
      if IsHeaderLine(lines[i]) {
        if IsSQLReport(lines) {
          var j :| 0 <= j < |lines| && IsSQLTypeLine(lines[j]) && forall k :: 0 <= k < j ==> !IsHeaderLine(lines[k]);
          SQLTypeLineIsHeader(lines[j]);
        }
        return false;
      }
    }
    if IsSQLReport(lines) {
      var j :| 0 <= j < |lines| && IsSQLTypeLine(lines[j]) && forall k :: 0 <= k < j ==> !IsHeaderLine(lines[k]);
      SQLTypeLineIsHeader(lines[j]);
      assert false;
    }
    return false;
  }

  /** A relational report has no fields; any other becomes the forest of its rows. */
  method ExtractDDMDefinitions(content: string) returns (definitions: Slice)
    ensures var lines := Positions.Lines(content);
            if IsSQLReport(lines) then definitions == NIL else Holds(View(definitions), Nest(RowsOf(lines)))
  {
    hide RowOf, IsSQLReport, Holds, Nest, Positions.Lines;
    var lines := Positions.Lines(content);
    var isSQL := ScanHeader(lines);
    if isSQL {
      return NIL;
    }
    var rows: seq<Item> := [];
    for i := 0 to |lines|
      invariant rows == RowsOf(lines[..i])
    {
      assert lines[..i + 1][..i] == lines[..i];
      var row := RowOf(lines[i]);
      if row.Some? {
        rows := rows + [row.value];
      }
    }
    assert lines[..|lines|] == lines;
    definitions := NestRows(rows);
  }

  /** The first header decides, and only the whole word SQL makes a report relational. */
  lemma HeaderExamples()
    ensures IsSQLReport(["DB: 1", "TYPE: SQL", "TYPE: ADABAS"])
    ensures !IsSQLReport(["TYPE: ADABAS", "TYPE: SQL"])
    ensures !IsSQLReport(["TYPE: SQL-EXTENDED"])
  {
    var relational, adabas := ["DB: 1", "TYPE: SQL", "TYPE: ADABAS"], ["TYPE: ADABAS", "TYPE: SQL"];
    assert IsSQLTypeLine(relational[1]) && !IsHeaderLine(relational[0]);
    assert "TYPE: ADABAS"[..6] == "TYPE: " && "TYPE: ADABAS"[6] == 'A' && "TYPE: SQL"[6] == 'S';
    assert IsHeaderLine(adabas[0]) && !IsSQLTypeLine(adabas[0]);
    assert !IsSQLTypeLine("TYPE: SQL-EXTENDED");
  }
}
