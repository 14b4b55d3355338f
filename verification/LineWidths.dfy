/** The line-width table agrees with reading the file (internal/workspace/linewidth.go). */
module LineWidths {
  import opened Model
  import opened Utf
  import opened Positions

  /** `bytes` is absent for a pure-ASCII line. */
  datatype LineWidth = LineWidth(byteLen: nat, bytes: Option<string>)

  function WidthOf(line: string): LineWidth {
    LineWidth(Uint32(|line|), if IsAscii(line) then None else Some(line))
  }

  function WidthsOf(lines: seq<string>): (r: seq<LineWidth>)
    ensures |r| == |lines| && forall i :: 0 <= i < |r| ==> r[i] == WidthOf(lines[i])
  {
    seq(|lines|, i requires 0 <= i < |lines| => WidthOf(lines[i]))
  }

  method MakeLineWidth(line: string) returns (lw: LineWidth)
    ensures lw == WidthOf(line)
  {
    var ascii := true;
    for i := 0 to |line|
      invariant ascii && forall k :: 0 <= k < i ==> line[k] as int < RUNE_SELF
    {
      if line[i] as int >= RUNE_SELF {
        ascii := false;
        assert !IsAscii(line);
        break;
      }
    }
    lw := LineWidth(Uint32(|line|), if ascii then None else Some(line));
  }

  method BuildLineWidthTable(content: string) returns (table: seq<LineWidth>)
    ensures table == WidthsOf(Lines(content))
  {
    hide LinesFrom, NextLF;
    table := [];
    ghost var done: seq<string> := [];
    var start := 0;
    for i := 0 to |content|
      invariant 0 <= start <= i
      invariant forall k :: start <= k < i ==> content[k] != '\n'
      invariant Lines(content) == done + LinesFrom(content, start) && table == WidthsOf(done)
    {
      if content[i] == '\n' {
        LineEnds(content, start, i);
        var end := i;
        if end > start && content[end - 1] == '\r' {
          end := end - 1;
        }
        var lw := MakeLineWidth(content[start..end]);
        table := table + [lw];
        assert done + ([content[start..end]] + LinesFrom(content, i + 1))
                 == done + [content[start..end]] + LinesFrom(content, i + 1);
        done := done + [content[start..end]];
        start := i + 1;
      }
    }
    LastLine(content, start);
    var last := MakeLineWidth(content[start..]);
    table := table + [last];
  }

  /** `codeUnit`. */
  function CodeUnit(table: seq<LineWidth>, line: int, byteOffset: int, enc: Encoding): nat
    requires forall i :: 0 <= i < |table| && table[i].bytes.Some? ==> table[i].byteLen <= |table[i].bytes.value|
  {
    if line < 0 || line >= |table| then 0
    else
      var lw := table[line];
      var offset := Clamp(byteOffset, lw.byteLen);
      if lw.bytes.None? || enc == Utf8 then Uint32(offset) else Uint32(Units(lw.bytes.value[..offset]))
  }

  method ComputeCodeUnit(table: seq<LineWidth>, line: int, byteOffset: int, enc: Encoding) returns (unit: nat)
    requires forall i :: 0 <= i < |table| && table[i].bytes.Some? ==> table[i].byteLen <= |table[i].bytes.value|
    ensures unit == CodeUnit(table, line, byteOffset, enc)
  {
    if line < 0 || line >= |table| {
      return 0;
    }
    var lw := table[line];
    if byteOffset <= 0 {
      assert lw.bytes.Some? ==> lw.bytes.value[..0] == "";
      return 0;
    }
    var offset := if byteOffset > lw.byteLen then lw.byteLen else byteOffset;
    if lw.bytes.None? {
      return Uint32(offset);
    }
    if enc == Utf8 {
      return Uint32(offset);
    }
    var units := CountUnits(lw.bytes.value[..offset]);
    return Uint32(units);
  }

  /** `protocolRange` on a table. */
  function TableRange(table: seq<LineWidth>, r: Range, enc: Encoding): ProtocolRange
    requires forall i :: 0 <= i < |table| && table[i].bytes.Some? ==> table[i].byteLen <= |table[i].bytes.value|
  {
    var sLine := NotNegative(r.start.line - 1);
    var start := ProtocolPosition(Uint32(sLine), CodeUnit(table, sLine, NotNegative(r.start.column - 1), enc));
    if r.start.line == r.end.line && r.start.column == r.end.column then ProtocolRange(start, start)
    else
      var eLine := NotNegative(r.end.line - 1);
      ProtocolRange(start, ProtocolPosition(Uint32(eLine), CodeUnit(table, eLine, NotNegative(r.end.column), enc)))
  }

  lemma TablesAreSafe(content: string)
    ensures var t := WidthsOf(Lines(content));
            forall i :: 0 <= i < |t| && t[i].bytes.Some? ==> t[i].byteLen <= |t[i].bytes.value|
  {
  }

  lemma CodeUnitAgrees(content: string, line: int, byteOffset: int, enc: Encoding)
    requires 0 <= line < |Lines(content)| ==> |Lines(content)[line]| < UINT32
    ensures var t := WidthsOf(Lines(content));
            && (forall i :: 0 <= i < |t| && t[i].bytes.Some? ==> t[i].byteLen <= |t[i].bytes.value|)
            && CodeUnit(t, line, byteOffset, enc) == CharacterAt(LineText(content, line), byteOffset, enc)
  {
    TablesAreSafe(content);
    var text := LineText(content, line);
    var prefix := text[..Clamp(byteOffset, |text|)];
    if IsAscii(text) {
      AsciiUnits(prefix, 0);
    }
  }

  /** For every content whose lines are shorter than 4 GiB, with CRLF, malformed bytes and out-of-range positions
      included, the table gives the range that reading the content gives, in either encoding. */
  lemma TableAgreesWithContent(content: string, r: Range, enc: Encoding)
    requires forall k :: 0 <= k < |Lines(content)| ==> |Lines(content)[k]| < UINT32
    ensures var t := WidthsOf(Lines(content));
            && (forall i :: 0 <= i < |t| && t[i].bytes.Some? ==> t[i].byteLen <= |t[i].bytes.value|)
            && TableRange(t, r, enc) == ToProtocolRange(r, content, enc)
  {
    hide CodeUnit, CharacterAt, LineText, Lines, WidthsOf;
    TablesAreSafe(content);
    CodeUnitAgrees(content, NotNegative(r.start.line - 1), NotNegative(r.start.column - 1), enc);
    CodeUnitAgrees(content, NotNegative(r.end.line - 1), NotNegative(r.end.column), enc);
  }

  /** The length bound is needed: on a longer line the stored length has wrapped, and the byte just past it converts
      differently. */
  lemma LongLineDisagrees(content: string, line: nat)
    requires line < |Lines(content)| && |Lines(content)[line]| >= UINT32
    ensures var t := WidthsOf(Lines(content));
            var past := t[line].byteLen + 1;
            && (forall i :: 0 <= i < |t| && t[i].bytes.Some? ==> t[i].byteLen <= |t[i].bytes.value|)
            && CodeUnit(t, line, past, Utf8) != CharacterAt(LineText(content, line), past, Utf8)
  {
    TablesAreSafe(content);
    var n := |Lines(content)[line]|;
    var past := n % UINT32 + 1;
    assert past <= UINT32 <= n;
    assert Uint32(past) != Uint32(past - 1);
  }
}
