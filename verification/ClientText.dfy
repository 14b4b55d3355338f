/** What the client sees of positions and ranges: code points as UTF-8 writes them, UTF-16 code units, and the text a
    range selects (internal/server/position.go). */
module ClientText {
  import opened Model
  import opened Utf
  import opened Positions
  import opened LineWidths

  // ----- Encodings of one code point -----

  /** Section 3 of RFC 3629: surrogates and anything above U+10FFFF are no scalar values. */
  predicate IsScalar(code: int) {
    0 <= code < 0xD800 || 0xE000 <= code < 0x11_0000
  }

  function Utf8Of(code: int): string
    requires IsScalar(code)
  {
    if code < 0x80 then [code as char]
    else if code < 0x800 then [(0xC0 + code / 0x40) as char, (0x80 + code % 0x40) as char]
    else if code < 0x1_0000 then
      [(0xE0 + code / 0x1000) as char, (0x80 + code / 0x40 % 0x40) as char, (0x80 + code % 0x40) as char]
    else
      [(0xF0 + code / 0x4_0000) as char, (0x80 + code / 0x1000 % 0x40) as char, (0x80 + code / 0x40 % 0x40) as char,
       (0x80 + code % 0x40) as char]
  }

  /** Section 2.1 of RFC 2781: a surrogate pair from U+10000 on. */
  function Utf16Of(code: int): seq<int> {
    if code < 0x1_0000 then [code]
    else [0xD800 + (code - 0x1_0000) / 0x400, 0xDC00 + (code - 0x1_0000) % 0x400]
  }

  /** Decoding reads what UTF-8 wrote, whatever stands around it. */
  lemma DecodeInverts(before: string, code: int, behind: string)
    requires IsScalar(code)
    ensures Decode(before + Utf8Of(code) + behind, |before|) == Rune(code, |Utf8Of(code)|)
  {
    hide Decode;
    var s, w, e := before + Utf8Of(code) + behind, |before|, Utf8Of(code);
    assert forall k :: 0 <= k < |e| ==> s[w + k] == e[k];
    if code < 0x800 {
      ShortDecodes(s, w, code);
    } else if code < 0x1_0000 {
      ThreeDecodes(s, w, code);
    } else {
      FourDecodes(s, w, code);
    }
  }

  lemma ShortDecodes(s: string, w: nat, code: int)
    requires 0 <= code < 0x800 && var e := Utf8Of(code); w + |e| <= |s| && forall k :: 0 <= k < |e| ==> s[w + k] == e[k]
    ensures Decode(s, w) == Rune(code, |Utf8Of(code)|)
  {
    var e := Utf8Of(code);
    assert s[w + 0] == e[0] && (|e| == 2 ==> s[w + 1] == e[1]);
  }

  lemma ThreeDecodes(s: string, w: nat, code: int)
    requires 0x800 <= code < 0x1_0000 && IsScalar(code)
    requires var e := Utf8Of(code); w + |e| <= |s| && forall k :: 0 <= k < |e| ==> s[w + k] == e[k]
    ensures Decode(s, w) == Rune(code, 3)
  {
    var e := Utf8Of(code);
    assert s[w + 0] == e[0] && s[w + 1] == e[1] && s[w + 2] == e[2];
  }

  lemma FourDecodes(s: string, w: nat, code: int)
    requires 0x1_0000 <= code && IsScalar(code)
    requires var e := Utf8Of(code); w + |e| <= |s| && forall k :: 0 <= k < |e| ==> s[w + k] == e[k]
    ensures Decode(s, w) == Rune(code, 4)
  {
    var e := Utf8Of(code);
    assert s[w + 0] == e[0] && s[w + 1] == e[1] && s[w + 2] == e[2] && s[w + 3] == e[3];
    FourDigits(code);
  }

  lemma FourDigits(code: int)
    requires 0x1_0000 <= code < 0x11_0000
    ensures 0 <= code / 0x4_0000 <= 4
    ensures code == code / 0x4_0000 * 0x4_0000 + code / 0x1000 % 0x40 * 0x1000 + code / 0x40 % 0x40 * 0x40 + code % 0x40
    ensures code / 0x4_0000 == 0 ==> code / 0x1000 % 0x40 >= 0x10
    ensures code / 0x4_0000 == 4 ==> code / 0x1000 % 0x40 < 0x10
  {
  }

  lemma DigitsOf(a: int, b: int, c: int, d: int)
    requires 0 <= a && 0 <= b < 0x40 && 0 <= c < 0x40 && 0 <= d < 0x40
    ensures var code := a * 0x4_0000 + b * 0x1000 + c * 0x40 + d;
            && code / 0x4_0000 == a && code / 0x1000 == a * 0x40 + b && code / 0x1000 % 0x40 == b
            && code / 0x40 % 0x40 == c && code % 0x40 == d && code / 0x40 == a * 0x1000 + b * 0x40 + c
  {
  }

  lemma WrittenInTwo(s: string, i: nat)
    requires i < |s| && Decode(s, i).width == 2
    ensures IsScalar(Decode(s, i).code) && Utf8Of(Decode(s, i).code) == s[i..i + 2]
  {
    DigitsOf(0, 0, s[i] as int - 0xC0, s[i + 1] as int - 0x80);
  }

  lemma WrittenInThree(s: string, i: nat)
    requires i < |s| && Decode(s, i).width == 3
    ensures IsScalar(Decode(s, i).code) && Utf8Of(Decode(s, i).code) == s[i..i + 3]
  {
    DigitsOf(0, s[i] as int - 0xE0, s[i + 1] as int - 0x80, s[i + 2] as int - 0x80);
  }

  lemma WrittenInFour(s: string, i: nat)
    requires i < |s| && Decode(s, i).width == 4
    ensures IsScalar(Decode(s, i).code) && Utf8Of(Decode(s, i).code) == s[i..i + 4]
  {
    DigitsOf(s[i] as int - 0xF0, s[i + 1] as int - 0x80, s[i + 2] as int - 0x80, s[i + 3] as int - 0x80);
  }

  lemma NothingWritten(s: string, i: nat, code: int)
    requires i < |s| && Decode(s, i).width == 1 && s[i] as int >= 0x80 && IsScalar(code)
    ensures !(Utf8Of(code) <= s[i..])
  {
    if Utf8Of(code) <= s[i..] {
      hide Decode;
      var e := Utf8Of(code);
      assert s == s[..i] + e + s[i + |e|..];
      DecodeInverts(s[..i], code, s[i + |e|..]);
    }
  }

  lemma MalformedIsReplaced(s: string, i: nat)
    requires i < |s| && Decode(s, i).width == 1
    ensures Decode(s, i).code == if s[i] as int < 0x80 then s[i] as int else 0xFFFD
  {
  }

  /** A rune is a code point as UTF-8 writes it, or one byte that begins none. */
  lemma DecodedIsWritten(s: string, i: nat)
    requires i < |s|
    ensures var r := Decode(s, i);
            if r.width == 1 && s[i] as int >= 0x80
            then r.code == 0xFFFD && forall code | IsScalar(code) :: !(Utf8Of(code) <= s[i..])
            else IsScalar(r.code) && Utf8Of(r.code) == s[i..i + r.width]
  {
    hide Decode;
    var w := Decode(s, i).width;
    if w == 1 {
      MalformedIsReplaced(s, i);
      if s[i] as int >= 0x80 {
        hide IsScalar, Utf8Of;
        forall code | IsScalar(code) ensures !(Utf8Of(code) <= s[i..]) {
          NothingWritten(s, i, code);
        }
      }
    } else if w == 2 {
      WrittenInTwo(s, i);
    } else if w == 3 {
      WrittenInThree(s, i);
    } else {
      WrittenInFour(s, i);
    }
  }

  /** A rune counts as many units as UTF-16 writes for it. */
  lemma UnitsAreWritten(s: string, i: nat)
    requires i < |s|
    ensures UnitsAt(s, i) == |Utf16Of(Decode(s, i).code)|
  {
  }

  // ----- The client's text -----

  /** The UTF-16 units of the runes between two boundaries. */
  function ClientUnits(s: string, from: nat, to: nat): seq<int>
    requires from <= |s| && Reaches(s, from, to)
    decreases |s| - from
  {
    if from == to then []
    else Utf16Of(Decode(s, from).code) + ClientUnits(s, from + Decode(s, from).width, to)
  }

  lemma {:induction false} ClientUnitsCount(s: string, from: nat, to: nat)
    requires from <= |s| && Reaches(s, from, to)
    ensures |ClientUnits(s, from, to)| == UnitsBetween(s, from, to)
    decreases |s| - from
  {
    hide Decode, Utf16Of;
    if from != to {
      UnitsAreWritten(s, from);
      ClientUnitsCount(s, from + Decode(s, from).width, to);
    }
  }

  lemma {:induction false} ClientUnitsAdd(s: string, from: nat, mid: nat, to: nat)
    requires from <= |s| && Reaches(s, from, mid) && mid <= |s| && Reaches(s, mid, to) && Reaches(s, from, to)
    requires mid <= to
    ensures ClientUnits(s, from, to) == ClientUnits(s, from, mid) + ClientUnits(s, mid, to)
    decreases |s| - from
  {
    hide Decode, Utf16Of, ClientUnits;
    if from == mid {
      NoUnits(s, from);
    } else {
      var next := from + Decode(s, from).width;
      FirstUnits(s, from, mid);
      FirstUnits(s, from, to);
      ClientUnitsAdd(s, next, mid, to);
      hide Reaches;
      var first, before, behind := Utf16Of(Decode(s, from).code), ClientUnits(s, next, mid), ClientUnits(s, mid, to);
      assert first + (before + behind) == first + before + behind;
    }
  }

  lemma NoUnits(s: string, from: nat)
    requires from <= |s|
    ensures ClientUnits(s, from, from) == []
  {
  }

  lemma FirstUnits(s: string, from: nat, to: nat)
    requires from < |s| && Reaches(s, from, to) && from < to
    ensures var next := from + Decode(s, from).width;
            && Reaches(s, next, to) && next <= |s|
            && ClientUnits(s, from, to) == Utf16Of(Decode(s, from).code) + ClientUnits(s, next, to)
  {
    hide Decode, Utf16Of;
  }

  // ----- The text a range selects -----

  /** Both ends of an inclusive range lie on code points of existing lines, the first byte's start and the last byte's
      end being boundaries. */
  ghost predicate OnCodePoints(r: Range, content: string) {
    && |content| < UINT32
    && 1 <= r.start.line <= |Lines(content)| && 1 <= r.end.line <= |Lines(content)|
    && 1 <= r.start.column <= |LineText(content, r.start.line - 1)|
    && 1 <= r.end.column <= |LineText(content, r.end.line - 1)|
    && IsBoundary(LineText(content, r.start.line - 1), r.start.column - 1)
    && IsBoundary(LineText(content, r.end.line - 1), r.end.column)
  }

  /** A model range, whose end is its last byte, becomes the client's range from before its first byte to behind its
      last: read back, the start is the model's and the end one byte further. */
  lemma RangeRoundTrip(r: Range, content: string, enc: Encoding)
    requires OnCodePoints(r, content) && r.start != r.end
    ensures var p := ToProtocolRange(r, content, enc);
            && FromProtocol(p.start, content, enc) == r.start
            && FromProtocol(p.end, content, enc) == Position(r.end.line, r.end.column + 1)
            && p.end == ToProtocol(Position(r.end.line, r.end.column + 1), content, enc)
  {
    hide LinesFrom, CharacterAt, ByteOffsetAt, IsBoundary;
    PositionRoundTrip(r.start, content, enc);
    PositionRoundTrip(Position(r.end.line, r.end.column + 1), content, enc);
  }

  /** A caret stays one. */
  lemma CaretStaysCaret(p: Position, content: string, enc: Encoding)
    ensures var r := ToProtocolRange(Range(p, p), content, enc);
            r.start == r.end == ToProtocol(p, content, enc)
  {
  }

  /** Within a line, the units the client selects are exactly those of the model's bytes, the last one included. */
  lemma SelectionIsBytes(r: Range, content: string)
    requires OnCodePoints(r, content) && r.start.line == r.end.line && r.start.column < r.end.column
    ensures var text, p := LineText(content, r.start.line - 1), ToProtocolRange(r, content, Utf16);
            && p.start.line == p.end.line == r.start.line - 1
            && Reaches(text, 0, |text|) && Reaches(text, r.start.column - 1, r.end.column)
            && p.start.character <= p.end.character <= |ClientUnits(text, 0, |text|)|
            && ClientUnits(text, 0, |text|)[p.start.character..p.end.character]
                 == ClientUnits(text, r.start.column - 1, r.end.column)
  {
    hide LinesFrom, Decode, Utf16Of, LineText;
    var text, a, b := LineText(content, r.start.line - 1), r.start.column - 1, r.end.column;
    LinesAreShort(content, 0);
    LineIsShort(content, r.start.line - 1);
    EndIsBoundary(text, 0);
    BoundariesAreOrdered(text, 0, a, b);
    BoundariesAreOrdered(text, 0, b, |text|);
    CharacterAtBoundary(text, a);
    CharacterAtBoundary(text, b);
    UnitsAtMostBytes(text, 0, a);
    UnitsAtMostBytes(text, 0, b);
    ClientUnitsCount(text, 0, a);
    ClientUnitsCount(text, 0, b);
    ClientUnitsAdd(text, 0, a, b);
    ClientUnitsAdd(text, 0, b, |text|);
  }

  lemma LineIsShort(content: string, line: nat)
    requires |content| < UINT32 && line < |Lines(content)|
    ensures |LineText(content, line)| < UINT32 && line < UINT32
  {
    LinesAreShort(content, 0);
  }

  /** The table, which converts without reading the file, selects the same. */
  lemma TableRangeRoundTrip(r: Range, content: string, enc: Encoding)
    requires OnCodePoints(r, content) && r.start != r.end
    ensures var t := WidthsOf(Lines(content));
            && (forall i :: 0 <= i < |t| && t[i].bytes.Some? ==> t[i].byteLen <= |t[i].bytes.value|)
            && FromProtocol(TableRange(t, r, enc).start, content, enc) == r.start
            && FromProtocol(TableRange(t, r, enc).end, content, enc) == Position(r.end.line, r.end.column + 1)
  {
    hide LinesFrom, CharacterAt, ByteOffsetAt, IsBoundary, TableRange, ToProtocolRange, FromProtocol;
    LinesAreShort(content, 0);
    TableAgreesWithContent(content, r, enc);
    RangeRoundTrip(r, content, enc);
  }
}
