/** Nesting by level number: the rows of a sequence become a forest in which a row that opens a group takes the rows
    behind it, up to the first whose level is not above its own. */
module Nesting {

  /** What nesting looks at, and the rest as a payload.  Every field of a DEFINE DATA section opens a group; of the rows
      of a DDM report only groups and periodic groups do. */
  datatype Item = Item(level: int, opens: bool, payload: string)

  datatype Tree = Tree(item: Item, children: seq<Tree>)

  /** The items of a forest in the order of the source: a parent before its children. */
  function Flatten(forest: seq<Tree>): seq<Item> {
    if forest == [] then [] else [forest[0].item] + Flatten(forest[0].children) + Flatten(forest[1..])
  }

  /** Only groups have children, each of a level above its parent's, and the sibling behind a group is not above it. */
  predicate WellNested(forest: seq<Tree>) {
    forest != [] ==>
      var t, rest := forest[0], forest[1..];
      && (if t.item.opens then
            && (forall i :: 0 <= i < |t.children| ==> t.children[i].item.level > t.item.level)
            && (rest != [] ==> rest[0].item.level <= t.item.level)
          else t.children == [])
      && WellNested(t.children) && WellNested(rest)
  }

  predicate AllOpen(forest: seq<Tree>) {
    forall i :: 0 <= i < |forest| ==> forest[i].item.opens
  }

  /** Where every item opens a group, a later sibling never has a higher level. */
  lemma {:induction false} SiblingsNeverRise(forest: seq<Tree>, i: nat, j: nat)
    requires WellNested(forest) && AllOpen(forest) && i < j < |forest|
    ensures forest[j].item.level <= forest[i].item.level
    decreases j
  {
    if i == 0 {
      if j > 1 {
        SiblingsNeverRise(forest[1..], 0, j - 1);
      }
    } else {
      SiblingsNeverRise(forest[1..], i - 1, j - 1);
    }
  }

  // ----- The forest of a sequence -----

  /** The first item from a position on, before b, whose level is not above the given one. */
  function EndIn(items: seq<Item>, level: int, from: nat, b: nat): (r: nat)
    requires from <= b <= |items|
    ensures from <= r <= b
    ensures forall k :: from <= k < r ==> items[k].level > level
    ensures r < b ==> items[r].level <= level
    decreases b - from
  {
    if from == b || items[from].level <= level then from else EndIn(items, level, from + 1, b)
  }

  /** The end of a's subtree within [a, b). */
  function SubEnd(items: seq<Item>, a: nat, b: nat): (r: nat)
    requires a < b <= |items|
    ensures a < r <= b
    ensures items[a].opens ==> forall k :: a < k < r ==> items[k].level > items[a].level
    ensures items[a].opens && r < b ==> items[r].level <= items[a].level
    ensures !items[a].opens ==> r == a + 1
  {
    if items[a].opens then EndIn(items, items[a].level, a + 1, b) else a + 1
  }

  function NestRange(items: seq<Item>, a: nat, b: nat): seq<Tree>
    requires a <= b <= |items|
    decreases b - a
  {
    if a == b then []
    else
      var end := SubEnd(items, a, b);
      [Tree(items[a], NestRange(items, a + 1, end))] + NestRange(items, end, b)
  }

  function Nest(items: seq<Item>): seq<Tree> {
    NestRange(items, 0, |items|)
  }

  lemma {:induction false} NestStep(items: seq<Item>, a: nat, b: nat)
    requires a < b <= |items|
    ensures var end, r := SubEnd(items, a, b), NestRange(items, a, b);
            r != [] && r[0] == Tree(items[a], NestRange(items, a + 1, end)) && r[1..] == NestRange(items, end, b)
  {
    hide SubEnd;
  }

  lemma {:induction false} RootsAreHigher(items: seq<Item>, a: nat, b: nat, level: int)
    requires a <= b <= |items| && forall k :: a <= k < b ==> items[k].level > level
    ensures var r := NestRange(items, a, b); forall i :: 0 <= i < |r| ==> r[i].item.level > level
    decreases b - a
  {
    hide NestRange, SubEnd;
    if a < b {
      NestStep(items, a, b);
      var end, r := SubEnd(items, a, b), NestRange(items, a, b);
      RootsAreHigher(items, end, b, level);
      forall i | 0 <= i < |r| ensures r[i].item.level > level {
        if i > 0 { assert r[i] == r[1..][i - 1]; }
      }
    } else {
      NestNothing(items, a);
    }
  }

  lemma NestNothing(items: seq<Item>, a: nat)
    requires a <= |items|
    ensures NestRange(items, a, a) == []
  {
  }

  lemma {:induction false} FlattenNestRange(items: seq<Item>, a: nat, b: nat)
    requires a <= b <= |items|
    ensures Flatten(NestRange(items, a, b)) == items[a..b]
    decreases b - a
  {
    hide NestRange, SubEnd;
    if a < b {
      var end := SubEnd(items, a, b);
      NestStep(items, a, b);
      FlattenNestRange(items, a + 1, end);
      FlattenNestRange(items, end, b);
      SplitRange(items, a, end, b);
    } else {
      NestNothing(items, a);
    }
  }

  lemma SplitRange(items: seq<Item>, a: nat, end: nat, b: nat)
    requires a < end <= b <= |items|
    ensures items[a..b] == [items[a]] + items[a + 1..end] + items[end..b]
  {
    assert items[a..end] == [items[a]] + items[a + 1..end];
    assert items[a..b] == items[a..end] + items[end..b];
  }

  lemma {:induction false} NestRangeIsWellNested(items: seq<Item>, a: nat, b: nat)
    requires a <= b <= |items|
    ensures WellNested(NestRange(items, a, b))
    decreases b - a
  {
    hide NestRange, SubEnd;
    if a < b {
      var end := SubEnd(items, a, b);
      NestStep(items, a, b);
      NestRangeIsWellNested(items, a + 1, end);
      NestRangeIsWellNested(items, end, b);
      if items[a].opens {
        RootsAreHigher(items, a + 1, end, items[a].level);
      } else {
        NestNothing(items, end);
      }
      if end < b {
        NestStep(items, end, b);
      } else {
        NestNothing(items, b);
      }
    } else {
      NestNothing(items, a);
    }
  }

  // ----- It is the only well-nested forest of its items -----

  lemma {:induction false} DescendantsAreHigher(forest: seq<Tree>, level: int)
    requires WellNested(forest) && forall i :: 0 <= i < |forest| ==> forest[i].item.level > level
    ensures forall f :: f in Flatten(forest) ==> f.level > level
  {
    if forest != [] {
      DescendantsAreHigher(forest[0].children, level);
      DescendantsAreHigher(forest[1..], level);
    }
  }

  lemma {:induction false} SubEndIsFirst(items: seq<Item>, a: nat, end: nat, b: nat)
    requires a < end <= b <= |items|
    requires items[a].opens ==> forall k :: a < k < end ==> items[k].level > items[a].level
    requires items[a].opens && end < b ==> items[end].level <= items[a].level
    requires !items[a].opens ==> end == a + 1
    ensures SubEnd(items, a, b) == end
  {
    if items[a].opens {
      EndIsFirst(items, items[a].level, a + 1, end, b);
    }
  }

  lemma {:induction false} EndIsFirst(items: seq<Item>, level: int, from: nat, end: nat, b: nat)
    requires from <= end <= b <= |items|
    requires forall k :: from <= k < end ==> items[k].level > level
    requires end < b ==> items[end].level <= level
    ensures EndIn(items, level, from, b) == end
    decreases end - from
  {
    if from < end {
      EndIsFirst(items, level, from + 1, end, b);
    }
  }

  lemma SliceOfSlice(items: seq<Item>, a: nat, b: nat, x: nat, y: nat)
    requires a <= b <= |items| && x <= y <= b - a
    ensures items[a..b][x..y] == items[a + x..a + y]
  {
    var whole, l, r := items[a..b], items[a..b][x..y], items[a + x..a + y];
    forall k | 0 <= k < y - x ensures l[k] == r[k] {
      assert l[k] == whole[x + k] == items[a + (x + k)];
      assert r[k] == items[(a + x) + k];
    }
  }

  lemma ThreeParts(s: seq<Item>, first: Item, inner: seq<Item>, outer: seq<Item>)
    requires s == [first] + inner + outer
    ensures |s| == 1 + |inner| + |outer| && s[0] == first && s[1..1 + |inner|] == inner && s[1 + |inner|..|s|] == outer
  {
  }

  /** Where the parts of a flattened forest lie. */
  lemma FlattenedParts(items: seq<Item>, a: nat, b: nat, first: Item, inner: seq<Item>, outer: seq<Item>)
    requires a <= b <= |items| && items[a..b] == [first] + inner + outer
    ensures var end := a + 1 + |inner|;
            && end <= b && a < b && items[a] == first && inner == items[a + 1..end] && outer == items[end..b]
  {
    var s := items[a..b];
    ThreeParts(s, first, inner, outer);
    SliceOfSlice(items, a, b, 1, 1 + |inner|);
    SliceOfSlice(items, a, b, 1 + |inner|, b - a);
  }

  lemma {:induction false} NestRangeOfFlatten(items: seq<Item>, a: nat, b: nat, forest: seq<Tree>)
    requires a <= b <= |items| && WellNested(forest) && Flatten(forest) == items[a..b]
    ensures NestRange(items, a, b) == forest
    decreases forest
  {
    hide NestRange, SubEnd;
    if forest == [] {
      NestNothing(items, a);
    } else {
      var t, rest := forest[0], forest[1..];
      var inner := Flatten(t.children);
      var end := a + 1 + |inner|;
      FlattenedParts(items, a, b, t.item, inner, Flatten(rest));
      assert end < b ==> rest != [] && Flatten(rest)[0] == rest[0].item == items[end];
      if t.item.opens {
        DescendantsAreHigher(t.children, t.item.level);
        forall k | a + 1 <= k < end ensures items[k].level > t.item.level {
          assert items[k] == inner[k - a - 1];
        }
      }
      SubEndIsFirst(items, a, end, b);
      NestRangeOfFlatten(items, a + 1, end, t.children);
      NestRangeOfFlatten(items, end, b, rest);
      NestStep(items, a, b);
      assert forest == [t] + rest
               && NestRange(items, a, b) == [NestRange(items, a, b)[0]] + NestRange(items, a, b)[1..];
    }
  }

  /** Flattening and nesting undo each other, and nesting is well nested: the forest is the only one of its kind. */
  lemma FlattenNest(items: seq<Item>)
    ensures Flatten(Nest(items)) == items && WellNested(Nest(items))
  {
    FlattenNestRange(items, 0, |items|);
    NestRangeIsWellNested(items, 0, |items|);
  }

  lemma NestFlatten(forest: seq<Tree>)
    requires WellNested(forest)
    ensures Nest(Flatten(forest)) == forest
  {
    var items := Flatten(forest);
    NestRangeOfFlatten(items, 0, |items|, forest);
  }

  // ----- Which item is whose parent -----

  /** Item j opens a group that item c and everything between leaves open. */
  predicate IsOpen(items: seq<Item>, j: int, c: int) {
    0 <= j < |items| && items[j].opens && forall k :: j < k <= c < |items| ==> items[k].level > items[j].level
  }

  /** The innermost group of a level below the given one that is open behind item c; -1 if there is none. */
  function Search(items: seq<Item>, level: int, c: int): (r: int)
    requires -1 <= c < |items|
    ensures -1 <= r <= c
    ensures r >= 0 ==> IsOpen(items, r, c) && items[r].level < level
    ensures forall j :: r < j <= c && IsOpen(items, j, c) ==> items[j].level >= level
    decreases c + 1
  {
    if c < 0 then -1
    else if items[c].opens && items[c].level < level then c
    else
      var bound := if items[c].level < level then items[c].level else level;
      assert forall j :: 0 <= j < c && IsOpen(items, j, c) ==>
               IsOpen(items, j, c - 1) && items[j].level < items[c].level;
      var r := Search(items, bound, c - 1);
      assert forall j :: r < j < c && IsOpen(items, j, c) ==> items[j].level >= bound;
      r
  }

  /** The innermost still-open group of lower level. */
  function Parent(items: seq<Item>, i: nat): (r: int)
    requires i < |items|
    ensures -1 <= r < i
  {
    Search(items, items[i].level, i - 1)
  }

  lemma {:induction false} SearchIsUnique(items: seq<Item>, level: int, c: int, r: int)
    requires -1 <= r <= c < |items|
    requires r >= 0 ==> IsOpen(items, r, c) && items[r].level < level
    requires forall j :: r < j <= c && IsOpen(items, j, c) ==> items[j].level >= level
    ensures Search(items, level, c) == r
  {
    hide Search, IsOpen;
  }

  /** The items of [a, b) whose parent is j (the roots, for j = -1). */
  function KidsIn(items: seq<Item>, j: int, a: nat, b: nat): (r: seq<nat>)
    requires a <= b <= |items|
    ensures forall k :: 0 <= k < |r| ==> a <= r[k] < b
    decreases b - a
  {
    if a == b then [] else (if Parent(items, a) == j then [a] else []) + KidsIn(items, j, a + 1, b)
  }

  lemma {:induction false} KidsSnoc(items: seq<Item>, j: int, a: nat, b: nat)
    requires a <= b < |items|
    ensures KidsIn(items, j, a, b + 1) == KidsIn(items, j, a, b) + if Parent(items, b) == j then [b] else []
    decreases b - a
  {
    if a < b {
      KidsSnoc(items, j, a + 1, b);
    }
  }

  lemma {:induction false} KidsSkip(items: seq<Item>, j: int, a: nat, x: nat, b: nat)
    requires a <= x <= b <= |items| && forall k :: a <= k < x ==> Parent(items, k) != j
    ensures KidsIn(items, j, a, b) == KidsIn(items, j, x, b)
    decreases x - a
  {
    if a < x {
      KidsSkip(items, j, a + 1, x, b);
    }
  }

  /** The end of j's subtree; of the whole sequence, for -1. */
  function EndOf(items: seq<Item>, j: int): (r: nat)
    requires -1 <= j < |items|
    ensures j < r <= |items|
  {
    if j < 0 then |items| else SubEnd(items, j, |items|)
  }

  lemma {:induction false} NoKidsBehindEnd(items: seq<Item>, j: int, k: nat)
    requires -1 <= j < |items| && EndOf(items, j) <= k < |items|
    ensures Parent(items, k) != j
  {
    hide Search, SubEnd;
    assert j >= 0 && items[j].opens ==> EndOf(items, j) < |items| && items[EndOf(items, j)].level <= items[j].level;
  }

  lemma {:induction false} NoKidsInsideSubtree(items: seq<Item>, j: int, a: nat, k: nat)
    requires j < a < k < |items| && k < EndOf(items, a)
    ensures Parent(items, k) != j
  {
    hide Search, SubEnd;
    assert IsOpen(items, a, k - 1) && items[a].level < items[k].level;
  }

  /** After the subtree of a child of j comes the next child of j, or the end of j's own subtree. */
  lemma {:induction false} NextSibling(items: seq<Item>, j: int, a: nat)
    requires -1 <= j < a < |items| && a < EndOf(items, j) && Parent(items, a) == j
    ensures EndOf(items, a) <= EndOf(items, j)
    ensures EndOf(items, a) < EndOf(items, j) ==> Parent(items, EndOf(items, a)) == j
    ensures SubEnd(items, a, EndOf(items, j)) == EndOf(items, a)
  {
    hide Search, SubEnd;
    var x, e := EndOf(items, a), EndOf(items, j);
    assert x <= e;
    if x < e {
      var beforeA, beforeX := a - 1, x - 1;
      assert forall k :: j < k < a && IsOpen(items, k, beforeX) ==> IsOpen(items, k, beforeA);
      assert forall k :: j < k < x && IsOpen(items, k, beforeX) ==> items[k].level >= items[x].level;
      SearchIsUnique(items, items[x].level, x - 1, j);
    }
    SubEndIsFirst(items, a, x, e);
  }

  lemma {:induction false} FirstChild(items: seq<Item>, j: int)
    requires -1 <= j < |items| && j + 1 < EndOf(items, j)
    ensures Parent(items, j + 1) == j
  {
    hide Search, SubEnd;
    SearchIsUnique(items, items[j + 1].level, j, j);
  }

  // ----- The stack of open groups -----

  /** The groups open behind item c, outermost first. */
  function Chain(items: seq<Item>, c: int): (r: seq<nat>)
    requires -1 <= c < |items|
    ensures forall k :: 0 <= k < |r| ==> r[k] <= c
    ensures c >= 0 && items[c].opens ==> r != [] && r[|r| - 1] == c
    decreases c + 1
  {
    if c < 0 then [] else Chain(items, Parent(items, c)) + if items[c].opens then [c] else []
  }

  /** The innermost group open behind item c. */
  function Top(items: seq<Item>, c: int): (r: int)
    requires -1 <= c < |items|
    ensures -1 <= r <= c && (r >= 0 ==> items[r].opens)
    ensures Chain(items, c) == Chain(items, r)
  {
    if c < 0 || items[c].opens then c
    else
      assert Chain(items, Parent(items, c)) + [] == Chain(items, Parent(items, c));
      Parent(items, c)
  }

  /** Searching from the group a search with a higher bound found is searching from where that search began. */
  lemma {:induction false} SearchFromFound(items: seq<Item>, level: int, bound: int, c: int)
    requires -1 <= c < |items| && level <= bound
    ensures Search(items, level, c) == Search(items, level, Search(items, bound, c))
  {
    hide Search;
    var r := Search(items, bound, c);
    var s := Search(items, level, r);
    forall j | s < j <= c && IsOpen(items, j, c) ensures items[j].level >= level {
      if j <= r {
        assert IsOpen(items, j, r);
      }
    }
    assert s >= 0 ==> IsOpen(items, s, c);
    SearchIsUnique(items, level, c, s);
  }

  /** The parent of item n is found from the top of the stack. */
  lemma {:induction false} PopStart(items: seq<Item>, n: nat)
    requires n < |items|
    ensures Parent(items, n) == Search(items, items[n].level, Top(items, n - 1))
  {
    var c, level := n - 1, items[n].level;
    if c >= 0 && !items[c].opens && level <= items[c].level {
      SearchFromFound(items, level, items[c].level, c - 1);
    }
  }

  /** A group that is not below the level can be popped. */
  lemma {:induction false} PopStep(items: seq<Item>, level: int, d: nat)
    requires d < |items| && items[d].level >= level
    ensures Search(items, level, d) == Search(items, level, Parent(items, d))
    ensures Parent(items, d) >= 0 ==> items[Parent(items, d)].opens
  {
    SearchFromFound(items, level, items[d].level, d - 1);
  }

  lemma FoundAtOnce(items: seq<Item>, level: int, d: int)
    requires -1 <= d < |items| && (d >= 0 ==> items[d].opens && items[d].level < level)
    ensures Search(items, level, d) == d
  {
  }

  lemma ChainGrows(items: seq<Item>, n: nat)
    requires n < |items|
    ensures Chain(items, n) == Chain(items, Parent(items, n)) + if items[n].opens then [n] else []
  {
  }

  // ----- Children by number -----

  /** The kids of j from its kid a on: a itself, then those behind a's subtree; the kids of a lie behind a. */
  lemma {:induction false} KidsFrom(items: seq<Item>, j: int, a: nat)
    requires -1 <= j < a < |items| && a < EndOf(items, j) && Parent(items, a) == j
    ensures var n := |items|;
            && KidsIn(items, j, a, n) == [a] + KidsIn(items, j, EndOf(items, a), n)
            && KidsIn(items, a, 0, n) == KidsIn(items, a, a + 1, n)
  {
    hide EndOf, Parent;
    var n, x := |items|, EndOf(items, a);
    forall k | a < k < x ensures Parent(items, k) != j {
      NoKidsInsideSubtree(items, j, a, k);
    }
    KidsSkip(items, j, a + 1, x, n);
    KidsSkip(items, a, 0, a + 1, n);
  }

  lemma {:induction false} NoKidsFromEnd(items: seq<Item>, j: int)
    requires -1 <= j < |items|
    ensures KidsIn(items, j, EndOf(items, j), |items|) == []
  {
    hide EndOf, Parent;
    forall k | EndOf(items, j) <= k < |items| ensures Parent(items, k) != j {
      NoKidsBehindEnd(items, j, k);
    }
    KidsSkip(items, j, EndOf(items, j), |items|, |items|);
  }

  lemma {:induction false} NoKidsYet(items: seq<Item>, n: nat)
    requires n < |items|
    ensures KidsIn(items, n, 0, n) == []
  {
    hide Parent;
    KidsSkip(items, n, 0, n, n);
  }

  /** Item n becomes the last kid of its parent, and nothing else changes. */
  lemma {:induction false} KidsGrow(items: seq<Item>, n: nat)
    requires n < |items|
    ensures forall j :: -1 <= j <= n ==>
              KidsIn(items, j, 0, n + 1) == KidsIn(items, j, 0, n) + if j == Parent(items, n) then [n] else []
    ensures KidsIn(items, n, 0, n) == []
  {
    hide KidsIn, Parent;
    forall j | -1 <= j <= n
      ensures KidsIn(items, j, 0, n + 1) == KidsIn(items, j, 0, n) + if j == Parent(items, n) then [n] else []
    {
      KidsSnoc(items, j, 0, n);
    }
    NoKidsYet(items, n);
  }
}
