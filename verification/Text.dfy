/**
 Byte strings as the server handles them.  A Go string is a sequence of bytes; it is
 modelled as a sequence of characters of which code points 0 to 255 stand for bytes.
 Every function is total, so nothing depends on a character being a byte.
*/
module Text {

  /** Go's `<` on strings: lexicographic on bytes. */
  predicate Less(a: string, b: string) {
    b != [] && (a == [] || a[0] < b[0] || (a[0] == b[0] && Less(a[1..], b[1..])))
  }

  lemma LessIrreflexive(a: string)
    ensures !Less(a, a)
  {
  }

  lemma {:induction false} LessTransitive(a: string, b: string, c: string)
    requires Less(a, b) && Less(b, c)
    ensures Less(a, c)
  {
    if a != [] && a[0] == b[0] && b[0] == c[0] {
      LessTransitive(a[1..], b[1..], c[1..]);
    }
  }

  lemma {:induction false} LessTotal(a: string, b: string)
    ensures a == b || Less(a, b) || Less(b, a)
  {
    if a != [] && b != [] && a[0] == b[0] {
      LessTotal(a[1..], b[1..]);
      assert a == [a[0]] + a[1..] && b == [b[0]] + b[1..];
    }
  }

  ghost predicate StrictlySorted(s: seq<string>) {
    forall i, j :: 0 <= i < j < |s| ==> Less(s[i], s[j])
  }

  function Elements<T>(s: seq<T>): set<T> {
    set x | x in s
  }

  lemma ElementsAppend<T>(s: seq<T>, x: T)
    ensures Elements(s + [x]) == Elements(s) + {x}
  {
  }

  lemma ElementsOfTail<T>(s: seq<T>)
    requires s != []
    ensures Elements(s) == {s[0]} + Elements(s[1..])
  {
    var tail := s[1..];
    assert s == [s[0]] + tail;
    assert forall x :: x in s <==> x == s[0] || x in tail;
  }

  /** Sorting decides the order completely: a set of strings has one strictly sorted listing. */
  lemma {:induction false} StrictlySortedIsUnique(a: seq<string>, b: seq<string>)
    requires StrictlySorted(a) && StrictlySorted(b)
    requires Elements(a) == Elements(b)
    ensures a == b
  {
    if a == [] {
      assert forall i :: 0 <= i < |b| ==> b[i] in Elements(b);
    } else {
      assert a[0] in Elements(b);
      var k :| 0 <= k < |b| && b[k] == a[0];
      assert b[0] in Elements(a);
      var m :| 0 <= m < |a| && a[m] == b[0];
      if k != 0 || m != 0 {
        LessAntisymmetric(a[0], b[0]);
        assert false;
      }
      forall x ensures x in Elements(a[1..]) <==> x in Elements(b[1..]) {
        TailElements(a, x);
        TailElements(b, x);
      }
      StrictlySortedIsUnique(a[1..], b[1..]);
      assert a == [a[0]] + a[1..] && b == [b[0]] + b[1..];
    }
  }

  lemma LessAntisymmetric(a: string, b: string)
    ensures !(Less(a, b) && Less(b, a))
  {
    if Less(a, b) && Less(b, a) {
      LessTransitive(a, b, a);
      LessIrreflexive(a);
    }
  }

  lemma TailElements(s: seq<string>, x: string)
    requires s != [] && StrictlySorted(s)
    ensures x in Elements(s[1..]) <==> x in Elements(s) && x != s[0]
  {
    if x in s[1..] {
      var i :| 0 <= i < |s[1..]| && s[1..][i] == x;
      assert Less(s[0], s[i + 1]);
      LessIrreflexive(x);
    }
    if x in s && x != s[0] {
      var i :| 0 <= i < |s| && s[i] == x;
      assert s[1..][i - 1] == x;
    }
  }

  /** The least string of a nonempty set. */
  lemma {:induction false} HasLeast(s: set<string>) returns (m: string)
    requires s != {}
    ensures m in s && forall x :: x in s && x != m ==> Less(m, x)
    decreases s
  {
    m :| m in s;
    if s != {m} {
      var rest := s - {m};
      var r := HasLeast(rest);
      LessTotal(m, r);
      if Less(r, m) {
        m := r;
      } else {
        forall x | x in s && x != m ensures Less(m, x) {
          if x != r { LessTransitive(m, r, x); }
        }
      }
    }
  }

  /** The strictly sorted listing of a set, as `sort.Strings` yields it for distinct keys. */
  ghost function Sorted(s: set<string>): (r: seq<string>)
    ensures StrictlySorted(r) && Elements(r) == s
  {
    if s == {} then
      []
    else
      HasLeastExists(s);
      var m :| m in s && forall x :: x in s && x != m ==> Less(m, x);
      var rest := Sorted(s - {m});
      assert Elements([m] + rest) == {m} + Elements(rest);
      [m] + rest
  }

  lemma HasLeastExists(s: set<string>)
    requires s != {}
    ensures exists m :: m in s && forall x :: x in s && x != m ==> Less(m, x)
  {
    var m := HasLeast(s);
  }

  /** Inserts a new string into a strictly sorted sequence. */
  function InsertSorted(s: seq<string>, x: string): (r: seq<string>) {
    if s == [] || Less(x, s[0]) then [x] + s else [s[0]] + InsertSorted(s[1..], x)
  }

  lemma {:induction false} InsertKeepsSorted(s: seq<string>, x: string)
    requires StrictlySorted(s) && x !in s
    ensures StrictlySorted(InsertSorted(s, x))
    ensures Elements(InsertSorted(s, x)) == Elements(s) + {x}
  {
    var r := InsertSorted(s, x);
    if s == [] {
    } else if Less(x, s[0]) {
      forall i, j | 0 <= i < j < |r| ensures Less(r[i], r[j]) {
        if i == 0 && j > 1 { LessTransitive(x, s[0], s[j - 1]); }
      }
    } else {
      LessTotal(x, s[0]);
      InsertKeepsSorted(s[1..], x);
      var t := InsertSorted(s[1..], x);
      assert s == [s[0]] + s[1..];
      forall i, j | 0 <= i < j < |r| ensures Less(r[i], r[j]) {
        if i == 0 {
          assert t[j - 1] in Elements(t);
        }
      }
      assert Elements(r) == {s[0]} + Elements(t);
      assert Elements(s) == {s[0]} + Elements(s[1..]);
    }
  }

  predicate IsLetter(c: char) {
    'A' <= c <= 'Z' || 'a' <= c <= 'z'
  }

  predicate IsDigit(c: char) {
    '0' <= c <= '9'
  }

  /** ASCII upper-casing; Natural names are ASCII. */
  function UpperChar(c: char): char {
    if 'a' <= c <= 'z' then c - 'a' + 'A' else c
  }

  function Upper(s: string): (u: string)
    ensures |u| == |s|
  {
    seq(|s|, i requires 0 <= i < |s| => UpperChar(s[i]))
  }

  /** Concatenation with a separator, as `strings.Join`. */
  function Join(parts: seq<string>, sep: string): string {
    if parts == [] then ""
    else if |parts| == 1 then parts[0]
    else parts[0] + sep + Join(parts[1..], sep)
  }

  /** `path.Base` on slash-separated keys. */
  function PathBase(p: string): string {
    if p == "" then "." else
    var q := StripSlashes(p);
    if q == "" then "/" else AfterLastSlash(q)
  }

  function StripSlashes(p: string): string {
    if p != "" && p[|p| - 1] == '/' then StripSlashes(p[..|p| - 1]) else p
  }

  function AfterLastSlash(p: string): string {
    if p == "" || p[|p| - 1] == '/' then ""
    else AfterLastSlash(p[..|p| - 1]) + [p[|p| - 1]]
  }

  /** `path.Ext`: the suffix from the last dot after the last slash, or "". */
  function PathExt(p: string): (e: string)
    ensures |e| <= |p| && e == p[|p| - |e|..]
  {
    PathExtFrom(p, |p|)
  }

  function PathExtFrom(p: string, i: nat): (e: string)
    requires i <= |p|
    ensures |e| <= |p| && e == p[|p| - |e|..]
  {
    if i == 0 || p[i - 1] == '/' then ""
    else if p[i - 1] == '.' then p[i - 1..]
    else PathExtFrom(p, i - 1)
  }
}
