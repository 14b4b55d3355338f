/** Model columns (bytes) to protocol characters (code units) and back (internal/server/position.go). */
module Positions {
  import opened Model
  import opened Utf

  /** UTF-8 when negotiated; anything else counts UTF-16 units. */
  datatype Encoding = Utf8 | Utf16

  const UINT32 := 0x1_0000_0000

  /** Conversion to uint32 wraps. */
  function Uint32(x: int): (r: nat)
    ensures r < UINT32
    ensures 0 <= x < UINT32 ==> r == x
  {
    x % UINT32
  }

  datatype ProtocolPosition = ProtocolPosition(line: nat, character: nat)
  datatype ProtocolRange = ProtocolRange(start: ProtocolPosition, end: ProtocolPosition)

  function StripCR(line: string): string {
    if line != "" && line[|line| - 1] == '\r' then line[..|line| - 1] else line
  }

  function NextLF(content: string, from: nat): (i: nat)
    requires from <= |content|
    ensures from <= i <= |content|
    ensures forall k :: from <= k < i ==> content[k] != '\n'
    ensures i < |content| ==> content[i] == '\n'
    decreases |content| - from
  {
    if from == |content| || content[from] == '\n' then from else NextLF(content, from + 1)
  }

  /** The lines from a line start on: LF ends a line and takes one CR before it along; the rest is the last line. */
  function LinesFrom(content: string, start: nat): (r: seq<string>)
    requires start <= |content|
    ensures |r| >= 1
    decreases |content| - start
  {
    var lf := NextLF(content, start);
    if lf == |content| then [content[start..]] else [StripCR(content[start..lf])] + LinesFrom(content, lf + 1)
  }

  function Lines(content: string): seq<string> {
    LinesFrom(content, 0)
  }

  function LineText(content: string, line: int): string {
    if 0 <= line < |Lines(content)| then Lines(content)[line] else ""
  }

  lemma {:induction false} NextLFIsFirst(content: string, from: nat, i: nat)
    requires from <= i <= |content|
    requires forall k :: from <= k < i ==> content[k] != '\n'
    requires i == |content| || content[i] == '\n'
    ensures NextLF(content, from) == i
    decreases i - from
  {
    if from < i {
      NextLFIsFirst(content, from + 1, i);
    }
  }

  lemma StripCRSlice(content: string, start: nat, i: nat)
    requires start <= i <= |content|
    ensures StripCR(content[start..i]) == content[start..if i > start && content[i - 1] == '\r' then i - 1 else i]
  {
  }

  /** An LF ends the line begun at `start`. */
  lemma LineEnds(content: string, start: nat, i: nat)
    requires start <= i < |content| && content[i] == '\n'
    requires forall k :: start <= k < i ==> content[k] != '\n'
    ensures LinesFrom(content, start)
         == [content[start..if i > start && content[i - 1] == '\r' then i - 1 else i]] + LinesFrom(content, i + 1)
  {
    NextLFIsFirst(content, start, i);
    StripCRSlice(content, start, i);
  }

  lemma LastLine(content: string, start: nat)
    requires start <= |content|
    requires forall k :: start <= k < |content| ==> content[k] != '\n'
    ensures LinesFrom(content, start) == [content[start..]]
  {
    NextLFIsFirst(content, start, |content|);
  }

  method LineAt(content: string, line: int) returns (text: string)
    ensures text == LineText(content, line)
  {
    hide LinesFrom, NextLF;
    if line < 0 {
      return "";
    }
    ghost var done: seq<string> := [];
    var cur, start := 0, 0;
    for i := 0 to |content|
      invariant 0 <= start <= i && 0 <= cur == |done| <= line
      invariant forall k :: start <= k < i ==> content[k] != '\n'
      invariant Lines(content) == done + LinesFrom(content, start)
    {
      if content[i] == '\n' {
        LineEnds(content, start, i);
        var end := i;
        if end > start && content[end - 1] == '\r' {
          end := end - 1;
        }
        if cur == line {
          return content[start..end];
        }
        assert done + ([content[start..end]] + LinesFrom(content, i + 1))
                 == done + [content[start..end]] + LinesFrom(content, i + 1);
        done := done + [content[start..end]];
        cur := cur + 1;
        start := i + 1;
      }
    }
    LastLine(content, start);
    if cur == line {
      return content[start..];
    }
    return "";
  }

  function Clamp(byteOffset: int, length: nat): nat {
    if byteOffset <= 0 then 0 else if byteOffset > length then length else byteOffset
  }

  /** Code units of the text before the clamped offset. */
  function CharacterAt(lineText: string, byteOffset: int, enc: Encoding): nat {
    var prefix := lineText[..Clamp(byteOffset, |lineText|)];
    Uint32(if enc == Utf8 then |prefix| else Units(prefix))
  }

  method ByteOffsetToCharacter(lineText: string, byteOffset: int, enc: Encoding) returns (character: nat)
    ensures character == CharacterAt(lineText, byteOffset, enc)
  {
    var offset := byteOffset;
    if offset <= 0 {
      return 0;
    }
    if offset > |lineText| {
      offset := |lineText|;
    }
    var prefix := lineText[..offset];
    if enc == Utf8 {
      return Uint32(|prefix|);
    }
    var units := CountUnits(prefix);
    return Uint32(units);
  }

  /** The first boundary at or after i, `units` having been counted before i, with at least `character` units before
      it. */
  function OffsetFrom(lineText: string, i: nat, units: nat, character: int): nat
    requires i <= |lineText|
    decreases |lineText| - i
  {
    if i == |lineText| || units >= character then i
    else OffsetFrom(lineText, i + Decode(lineText, i).width, units + UnitsAt(lineText, i), character)
  }

  function ByteOffsetAt(lineText: string, character: int, enc: Encoding): nat {
    if enc == Utf8 then Clamp(character, |lineText|)
    else OffsetFrom(lineText, 0, 0, character)
  }

  method CharacterToByteOffset(lineText: string, character: int, enc: Encoding) returns (byteOffset: nat)
    ensures byteOffset == ByteOffsetAt(lineText, character, enc)
  {
    if character <= 0 {
      return 0;
    }
    if enc == Utf8 {
      if character > |lineText| {
        return |lineText|;
      }
      return character;
    }
    var units, i := 0, 0;
    while i < |lineText|
      invariant 0 <= i <= |lineText|
      invariant OffsetFrom(lineText, 0, 0, character) == OffsetFrom(lineText, i, units, character)
      decreases |lineText| - i
    {
      if units >= character {
        return i;
      }
      var r := Decode(lineText, i);
      if r.code > MAX_BMP {
        units := units + 2;
      } else {
        units := units + 1;
      }
      i := i + r.width;
    }
    return |lineText|;
  }

  // ----- The two conversions are inverse on boundaries -----

  /** UTF-16 units before a boundary. */
  function UnitsBefore(s: string, i: nat): nat
    requires IsBoundary(s, i)
  {
    UnitsBetween(s, 0, i)
  }

  lemma CharacterAtBoundary(s: string, i: nat)
    requires IsBoundary(s, i)
    ensures i <= |s| && CharacterAt(s, i, Utf16) == Uint32(UnitsBefore(s, i))
  {
    ReachesWithin(s, 0, i);
    BoundaryInRange(s, 0, i);
    UnitsOfPrefix(s, 0, i);
  }

  lemma BoundaryInRange(s: string, from: nat, i: nat)
    requires from <= |s| && Reaches(s, from, i)
    ensures i <= |s|
  {
  }

  lemma OneRune(s: string, i: nat)
    requires i < |s|
    ensures var next := i + Decode(s, i).width; Reaches(s, i, next) && UnitsBetween(s, i, next) == UnitsAt(s, i)
  {
    hide Decode;
    var next := i + Decode(s, i).width;
    assert Reaches(s, next, next);
    assert Reaches(s, i, next);
    assert UnitsBetween(s, next, next) == 0;
  }

  lemma {:induction false} OffsetFromIsLeast(s: string, i: nat, character: int)
    requires i <= |s| && IsBoundary(s, i)
    requires i > 0 ==> forall j: nat :: j < i && IsBoundary(s, j) ==> UnitsBefore(s, j) < character
    ensures var r := OffsetFrom(s, i, UnitsBefore(s, i), character);
            && IsBoundary(s, r) && r <= |s|
            && (UnitsBefore(s, r) >= character || r == |s|)
            && (forall j: nat :: j < r && IsBoundary(s, j) ==> UnitsBefore(s, j) < character)
    decreases |s| - i
  {
    hide Decode;
    if i < |s| && UnitsBefore(s, i) < character {
      var next := i + Decode(s, i).width;
      BoundaryAfter(s, 0, i);
      OneRune(s, i);
      UnitsAdd(s, 0, i, next);
      forall j: nat | j < next && IsBoundary(s, j) ensures UnitsBefore(s, j) < character {
        if j > i {
          BoundariesAreOrdered(s, 0, i, j);
          ReachesWithin(s, next, j);
          assert false;
        }
      }
      OffsetFromIsLeast(s, next, character);
    }
  }

  /** For any UTF-16 count the inverse returns the least boundary with at least that many units before it, or the line
      end when there is none. */
  lemma ByteOffsetIsLeastBoundary(s: string, character: int)
    ensures var r := ByteOffsetAt(s, character, Utf16);
            && IsBoundary(s, r) && r <= |s|
            && (UnitsBefore(s, r) >= character || r == |s|)
            && (forall j: nat :: j < r && IsBoundary(s, j) ==> UnitsBefore(s, j) < character)
  {
    assert UnitsBefore(s, 0) == 0;
    OffsetFromIsLeast(s, 0, character);
  }

  lemma UnitsIncrease(s: string, i: nat, j: nat)
    requires IsBoundary(s, i) && IsBoundary(s, j) && i < j
    ensures UnitsBefore(s, i) < UnitsBefore(s, j)
  {
    BoundaryInRange(s, 0, j);
    BoundariesAreOrdered(s, 0, i, j);
    UnitsAdd(s, 0, i, j);
    UnitsArePositive(s, i, j);
  }

  lemma {:induction false} UnitsAtMostBytes(s: string, from: nat, to: nat)
    requires from <= |s| && Reaches(s, from, to)
    ensures from <= to && UnitsBetween(s, from, to) <= to - from
    decreases |s| - from
  {
    if from != to {
      UnitsAtMostBytes(s, from + Decode(s, from).width, to);
    }
  }

  /** Bytes to units and back is the identity at every code-point boundary (at every byte, in UTF-8). */
  lemma OffsetRoundTrip(s: string, i: nat, enc: Encoding)
    requires |s| < UINT32 && i <= |s| && (enc == Utf16 ==> IsBoundary(s, i))
    ensures ByteOffsetAt(s, CharacterAt(s, i, enc), enc) == i
  {
    if enc == Utf16 {
      CharacterAtBoundary(s, i);
      UnitsAtMostBytes(s, 0, i);
      var c := UnitsBefore(s, i);
      ByteOffsetIsLeastBoundary(s, c);
      var r := ByteOffsetAt(s, c, Utf16);
      if r < i { UnitsIncrease(s, r, i); }
    }
  }

  /** Units to bytes and back is the identity exactly for the counts some boundary has: not inside a surrogate pair
      and not past the end. */
  lemma CharacterRoundTrip(s: string, character: nat)
    requires |s| < UINT32
    ensures CharacterAt(s, ByteOffsetAt(s, character, Utf16), Utf16) == character <==>
      exists i: nat :: IsBoundary(s, i) && UnitsBefore(s, i) == character
  {
    ByteOffsetIsLeastBoundary(s, character);
    var r := ByteOffsetAt(s, character, Utf16);
    CharacterAtBoundary(s, r);
    UnitsAtMostBytes(s, 0, r);
    if exists i: nat :: IsBoundary(s, i) && UnitsBefore(s, i) == character {
      var i: nat :| IsBoundary(s, i) && UnitsBefore(s, i) == character;
      BoundaryInRange(s, 0, i);
      if i < r { assert false; }
      if r < i { UnitsIncrease(s, r, i); }
    }
  }

  // ----- Positions and ranges -----

  function NotNegative(x: int): nat { if x < 0 then 0 else x }

  /** `modelPositionToProtocol`. */
  function ToProtocol(pos: Position, content: string, enc: Encoding): ProtocolPosition {
    var line := NotNegative(pos.line - 1);
    ProtocolPosition(Uint32(line), CharacterAt(LineText(content, line), NotNegative(pos.column - 1), enc))
  }

  /** Model ends are inclusive, protocol ends exclusive; a caret stays a caret. */
  function ToProtocolRange(r: Range, content: string, enc: Encoding): ProtocolRange {
    var start := ToProtocol(r.start, content, enc);
    if r.start == r.end then ProtocolRange(start, start)
    else
      var endLine := NotNegative(r.end.line - 1);
      ProtocolRange(start,
                    ProtocolPosition(Uint32(endLine),
                                     CharacterAt(LineText(content, endLine), NotNegative(r.end.column), enc)))
  }

  /** `fromProtocolPosition`. */
  function FromProtocol(p: ProtocolPosition, content: string, enc: Encoding): Position {
    Position(p.line + 1, ByteOffsetAt(LineText(content, p.line), p.character, enc) + 1)
  }

  lemma {:induction false} LinesAreShort(content: string, start: nat)
    requires start <= |content|
    ensures |LinesFrom(content, start)| <= |content| - start + 1
    ensures forall k :: 0 <= k < |LinesFrom(content, start)| ==> |LinesFrom(content, start)[k]| <= |content| - start
    decreases |content| - start
  {
    var lf := NextLF(content, start);
    if lf < |content| {
      LinesAreShort(content, lf + 1);
    }
  }

  /** A model position at a code-point boundary of an existing line survives the trip to the client and back. */
  lemma PositionRoundTrip(pos: Position, content: string, enc: Encoding)
    requires |content| < UINT32
    requires 1 <= pos.line <= |Lines(content)|
    requires var text := LineText(content, pos.line - 1);
             1 <= pos.column <= |text| + 1 && (enc == Utf16 ==> IsBoundary(text, pos.column - 1))
    ensures FromProtocol(ToProtocol(pos, content, enc), content, enc) == pos
  {
    hide LinesFrom, CharacterAt, ByteOffsetAt, IsBoundary;
    LinesAreShort(content, 0);
    OffsetRoundTrip(LineText(content, pos.line - 1), pos.column - 1, enc);
  }
}
