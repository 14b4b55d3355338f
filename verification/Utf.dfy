/** Go's decoding of a byte string into runes, as `for i, r := range s` performs it: well-formed sequences are those
    of section 3 of RFC 3629; any other byte is U+FFFD with width 1.  Runes above U+FFFF take two UTF-16 units
    (section 2.1 of RFC 2781). */
module Utf {

  const RUNE_SELF := 0x80
  const RUNE_ERROR := 0xFFFD
  const MAX_BMP := 0xFFFF

  datatype Rune = Rune(code: nat, width: nat)

  predicate InRange(s: string, i: nat, lo: int, hi: int) {
    i < |s| && lo <= s[i] as int <= hi
  }

  predicate Tail(s: string, i: nat) {
    InRange(s, i, 0x80, 0xBF)
  }

  predicate SecondOfThree(s: string, i: nat) requires i < |s| {
    var b := s[i] as int;
    || (b == 0xE0 && InRange(s, i + 1, 0xA0, 0xBF))
    || ((0xE1 <= b <= 0xEC || 0xEE <= b <= 0xEF) && Tail(s, i + 1))
    || (b == 0xED && InRange(s, i + 1, 0x80, 0x9F))
  }

  predicate SecondOfFour(s: string, i: nat) requires i < |s| {
    var b := s[i] as int;
    || (b == 0xF0 && InRange(s, i + 1, 0x90, 0xBF))
    || (0xF1 <= b <= 0xF3 && Tail(s, i + 1))
    || (b == 0xF4 && InRange(s, i + 1, 0x80, 0x8F))
  }

  /** The low six bits of a continuation byte. */
  function Six(s: string, i: nat): int requires i < |s| { s[i] as int - 0x80 }

  function Decode(s: string, i: nat): (r: Rune)
    requires i < |s|
    ensures 1 <= r.width <= 4 && i + r.width <= |s|
    ensures r.code > MAX_BMP <==> r.width == 4
    ensures s[i] as int < RUNE_SELF ==> r.width == 1
  {
    var b := s[i] as int;
    if b < RUNE_SELF then Rune(b, 1)
    else if 0xC2 <= b <= 0xDF && Tail(s, i + 1) then
      Rune((b - 0xC0) * 0x40 + Six(s, i + 1), 2)
    else if SecondOfThree(s, i) && Tail(s, i + 2) then
      Rune((b - 0xE0) * 0x1000 + Six(s, i + 1) * 0x40 + Six(s, i + 2), 3)
    else if SecondOfFour(s, i) && Tail(s, i + 2) && Tail(s, i + 3) then
      Rune((b - 0xF0) * 0x40000 + Six(s, i + 1) * 0x1000 + Six(s, i + 2) * 0x40 + Six(s, i + 3), 4)
    else Rune(RUNE_ERROR, 1)
  }

  /** The UTF-16 units of the rune at i. */
  function UnitsAt(s: string, i: nat): nat
    requires i < |s|
  {
    if Decode(s, i).code > MAX_BMP then 2 else 1
  }

  /** UTF-16 units of the runes from i on. */
  function UnitsFrom(s: string, i: nat): nat
    requires i <= |s|
    decreases |s| - i
  {
    if i == |s| then 0 else UnitsAt(s, i) + UnitsFrom(s, i + Decode(s, i).width)
  }

  function Units(s: string): nat {
    UnitsFrom(s, 0)
  }

  /** Position `to` is a code-point boundary reached by decoding from boundary `from`. */
  predicate Reaches(s: string, from: nat, to: nat)
    requires from <= |s|
    decreases |s| - from
  {
    from == to || (from < to <= |s| && Reaches(s, from + Decode(s, from).width, to))
  }

  predicate IsBoundary(s: string, i: nat) {
    Reaches(s, 0, i)
  }

  lemma {:induction false} BoundaryAfter(s: string, from: nat, i: nat)
    requires from <= |s| && Reaches(s, from, i) && i < |s|
    ensures Reaches(s, from, i + Decode(s, i).width)
    decreases |s| - from
  {
    if from != i {
      BoundaryAfter(s, from + Decode(s, from).width, i);
    }
  }

  lemma {:induction false} EndIsBoundary(s: string, from: nat)
    requires from <= |s|
    ensures Reaches(s, from, |s|)
    decreases |s| - from
  {
    if from < |s| {
      EndIsBoundary(s, from + Decode(s, from).width);
    }
  }

  /** Of two boundaries the earlier one reaches the later. */
  lemma {:induction false} BoundariesAreOrdered(s: string, from: nat, i: nat, j: nat)
    requires from <= |s| && Reaches(s, from, i) && Reaches(s, from, j) && i <= j
    ensures Reaches(s, i, j)
    decreases |s| - from
  {
    if from != i {
      BoundariesAreOrdered(s, from + Decode(s, from).width, i, j);
    }
  }

  /** Cutting a string at a boundary does not change how the part before the cut decodes. */
  lemma DecodeOfPrefix(s: string, i: nat, cut: nat)
    requires i < |s| && i + Decode(s, i).width <= cut <= |s|
    ensures Decode(s[..cut], i) == Decode(s, i)
  {
    var p := s[..cut];
    assert forall k: nat :: k < cut ==> p[k] == s[k];
  }

  /** Units between two boundaries. */
  function UnitsBetween(s: string, from: nat, to: nat): nat
    requires from <= |s| && Reaches(s, from, to)
    decreases |s| - from
  {
    if from == to then 0 else UnitsAt(s, from) + UnitsBetween(s, from + Decode(s, from).width, to)
  }

  lemma {:induction false} UnitsOfPrefix(s: string, from: nat, cut: nat)
    requires from <= cut <= |s| && Reaches(s, from, cut)
    ensures UnitsFrom(s[..cut], from) == UnitsBetween(s, from, cut)
    decreases |s| - from
  {
    if from < cut {
      var next := from + Decode(s, from).width;
      ReachesWithin(s, next, cut);
      DecodeOfPrefix(s, from, cut);
      UnitsOfPrefix(s, next, cut);
    }
  }

  lemma ReachesWithin(s: string, from: nat, to: nat)
    requires from <= |s| && Reaches(s, from, to)
    ensures from <= to
  {
  }

  lemma {:induction false} UnitsAdd(s: string, from: nat, mid: nat, to: nat)
    requires from <= |s| && Reaches(s, from, mid) && mid <= |s| && Reaches(s, mid, to)
    ensures Reaches(s, from, to)
    ensures UnitsBetween(s, from, to) == UnitsBetween(s, from, mid) + UnitsBetween(s, mid, to)
    decreases |s| - from
  {
    ReachesWithin(s, mid, to);
    if from != mid {
      UnitsAdd(s, from + Decode(s, from).width, mid, to);
    }
  }

  lemma {:induction false} UnitsArePositive(s: string, from: nat, to: nat)
    requires from <= |s| && Reaches(s, from, to) && from < to
    ensures UnitsBetween(s, from, to) > 0
  {
  }

  predicate IsAscii(s: string) {
    forall i :: 0 <= i < |s| ==> s[i] as int < RUNE_SELF
  }

  lemma {:induction false} AsciiUnits(s: string, i: nat)
    requires IsAscii(s) && i <= |s|
    ensures UnitsFrom(s, i) == |s| - i
    decreases |s| - i
  {
    if i < |s| {
      AsciiUnits(s, i + 1);
    }
  }

  /** The counting loop. */
  method CountUnits(s: string) returns (units: nat)
    ensures units == Units(s)
  {
    var i := 0;
    units := 0;
    while i < |s|
      invariant 0 <= i <= |s|
      invariant units + UnitsFrom(s, i) == Units(s)
      decreases |s| - i
    {
      var r := Decode(s, i);
      if r.code > MAX_BMP {
        units := units + 2;
      } else {
        units := units + 1;
      }
      i := i + r.width;
    }
  }
}
