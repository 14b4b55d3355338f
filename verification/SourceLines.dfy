/** Where a byte lies in the source: 1-based line and column, with LF, CR and CRLF each ending a line. */
module SourceLines {
  import opened Model

  predicate IsLineEnd(c: char) {
    c == '\r' || c == '\n'
  }

  /** A line starts at byte i: after an LF, or after a CR that no LF follows. */
  predicate LineStartsAt(s: string, i: int) {
    0 < i <= |s| && (s[i - 1] == '\n' || (s[i - 1] == '\r' && !(i < |s| && s[i] == '\n')))
  }

  /** Byte i is the LF of a CRLF, which no scan stops at. */
  predicate InsideCRLF(s: string, i: int) {
    0 < i < |s| && s[i - 1] == '\r' && s[i] == '\n'
  }

  /** The position of byte `until`, byte `from` being at `at`. */
  function Shift(s: string, from: nat, at: Position, until: nat): Position
    requires until <= |s|
    decreases until
  {
    if until <= from then at
    else
      var before := Shift(s, from, at, until - 1);
      if LineStartsAt(s, until) then Position(before.line + 1, 1) else Position(before.line, before.column + 1)
  }

  const ORIGIN := Position(1, 1)

  /** The true position of byte i. */
  function PositionOf(s: string, i: nat): Position
    requires i <= |s|
  {
    Shift(s, 0, ORIGIN, i)
  }

  predicate Earlier(a: Position, b: Position) {
    a.line < b.line || (a.line == b.line && a.column < b.column)
  }

  lemma {:induction false} ShiftAdds(s: string, from: nat, at: Position, mid: nat, until: nat)
    requires from <= mid <= until <= |s|
    ensures Shift(s, mid, Shift(s, from, at, mid), until) == Shift(s, from, at, until)
    decreases until
  {
    if mid < until {
      ShiftAdds(s, from, at, mid, until - 1);
    }
  }

  lemma {:induction false} ShiftGrows(s: string, from: nat, at: Position, until: nat)
    requires from <= until <= |s|
    ensures at.line <= Shift(s, from, at, until).line
    ensures from < until ==> Earlier(at, Shift(s, from, at, until))
    ensures Shift(s, from, at, until).line == at.line ==> Shift(s, from, at, until).column == at.column + until - from
    ensures at.column >= 1 ==> Shift(s, from, at, until).column >= 1
    decreases until
  {
    if from < until {
      ShiftGrows(s, from, at, until - 1);
    }
  }

  /** Distinct bytes have distinct positions, in byte order. */
  lemma PositionsIncrease(s: string, i: nat, j: nat)
    requires i < j <= |s|
    ensures Earlier(PositionOf(s, i), PositionOf(s, j))
  {
    ShiftAdds(s, 0, ORIGIN, i, j);
    ShiftGrows(s, i, PositionOf(s, i), j);
  }

  /** A stretch without line ends, and not ending between a CR and its LF, is one line's worth of columns. */
  lemma {:induction false} ShiftWithinLine(s: string, from: nat, at: Position, until: nat)
    requires from <= until <= |s| && forall k :: from <= k < until ==> !IsLineEnd(s[k])
    ensures Shift(s, from, at, until) == Position(at.line, at.column + until - from)
    decreases until
  {
    if from < until {
      ShiftWithinLine(s, from, at, until - 1);
    }
  }

  /** How far every position-tracking scan moves at once: over a whole CRLF, otherwise one byte. */
  function StepFrom(s: string, i: nat): (r: nat)
    requires i < |s|
    ensures i < r <= |s|
  {
    if s[i] == '\r' && i + 1 < |s| && s[i + 1] == '\n' then i + 2 else i + 1
  }

  function MovePast(c: char, at: Position): Position {
    if IsLineEnd(c) then Position(at.line + 1, 1) else Position(at.line, at.column + 1)
  }

  /** A scan step keeps the position true and never stops inside a CRLF. */
  lemma StepIsTrue(s: string, from: nat, at: Position, i: nat)
    requires from <= i < |s|
    ensures Shift(s, from, at, StepFrom(s, i)) == MovePast(s[i], Shift(s, from, at, i))
    ensures !InsideCRLF(s, StepFrom(s, i))
  {
  }
}
