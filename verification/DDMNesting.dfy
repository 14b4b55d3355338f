/** The field rows of a DDM report, nested with a stack of pointers into slices that grow
    (internal/analysis/natural/ddm.go). */
module DDMNesting {
  import opened Model
  import opened Nesting

  // ----- Slices: a length over a backing array that an append may fill or replace -----

  datatype Def = Def(item: Item, children: Slice)
  datatype Slice = Slice(buf: array?<Def>, len: nat)
  /** The address of an array element. */
  datatype Pointer = Pointer(buf: array<Def>, index: nat)

  const NIL := Slice(null, 0)

  /** Go's append: in place while there is capacity, otherwise into a new array of any larger capacity. */
  method Append(s: Slice, d: Def) returns (r: Slice)
    requires if s.buf == null then s.len == 0 else s.len <= s.buf.Length
    modifies if s.buf == null then {} else {s.buf}
    ensures r.buf != null && r.len == s.len + 1 <= r.buf.Length
    ensures r.buf == s.buf || (fresh(r.buf) && (s.buf != null ==> s.buf[..] == old(s.buf[..])))
    ensures forall k :: 0 <= k < s.len ==> r.buf[k] == old(s.buf[k])
    ensures r.buf[s.len] == d
  {
    if s.buf != null && s.len < s.buf.Length {
      s.buf[s.len] := d;
      return Slice(s.buf, s.len + 1);
    }
    var capacity :| capacity > s.len;
    var grown := new Def[capacity](i requires 0 <= i reads if s.buf == null then {} else {s.buf} =>
      if i < s.len && s.buf != null && i < s.buf.Length then s.buf[i] else d);
    return Slice(grown, s.len + 1);
  }

  // ----- Where the rows lie -----

  /** How many of the first n rows are children of row j (or roots, for -1). */
  function Count(items: seq<Item>, j: int, n: nat): nat
    requires n <= |items|
  {
    |KidsIn(items, j, 0, n)|
  }

  /** The place of row k among its siblings. */
  function Rank(items: seq<Item>, k: nat): nat
    requires k < |items|
  {
    Count(items, Parent(items, k), k)
  }

  /** `bufs[j + 1]` is the current backing array of the children of row j; `bufs[0]` that of the roots. */
  function SliceOf(items: seq<Item>, bufs: seq<array?<Def>>, j: int, n: nat): Slice
    requires n <= |items| && -1 <= j && j + 1 < |bufs|
  {
    Slice(bufs[j + 1], Count(items, j, n))
  }

  /** Row k is in its parent's current array at its rank, with its own children's current slice. */
  ghost predicate Placed(items: seq<Item>, bufs: seq<array?<Def>>, n: nat, k: int)
    requires n <= |items| && |bufs| == n + 1 && 0 <= k < n
    reads bufs
  {
    var b := bufs[Parent(items, k) + 1];
    b != null && Rank(items, k) < b.Length && b[Rank(items, k)] == Def(items[k], SliceOf(items, bufs, k, n))
  }

  /** The children of row j fit their array. */
  predicate Fits(items: seq<Item>, bufs: seq<array?<Def>>, j: int, n: nat)
    requires n <= |items| && -1 <= j && j + 1 < |bufs|
  {
    if bufs[j + 1] == null then Count(items, j, n) == 0 else Count(items, j, n) <= bufs[j + 1].Length
  }

  ghost predicate Laid(items: seq<Item>, bufs: seq<array?<Def>>, n: nat)
    reads bufs
  {
    && n <= |items| && |bufs| == n + 1
    && (forall i, j :: 0 <= i < j <= n && bufs[i] != null ==> bufs[i] != bufs[j])
    && (forall j :: -1 <= j < n ==> Fits(items, bufs, j, n))
    && (forall k :: 0 <= k < n ==> Placed(items, bufs, n, k))
  }

  function PointerTo(items: seq<Item>, bufs: seq<array?<Def>>, k: nat): Pointer
    requires k < |items| && k < |bufs| && bufs[Parent(items, k) + 1] != null
  {
    Pointer(bufs[Parent(items, k) + 1], Rank(items, k))
  }

  /** The stack holds the addresses of the open groups where they lie now: no pointer is into a replaced array. */
  ghost predicate Points(items: seq<Item>, bufs: seq<array?<Def>>, open: seq<nat>, stack: seq<Pointer>)
  {
    && |stack| == |open|
    && forall i :: 0 <= i < |open| ==>
         && open[i] < |items| && open[i] < |bufs| && bufs[Parent(items, open[i]) + 1] != null
         && stack[i] == PointerTo(items, bufs, open[i])
  }

  lemma {:induction false} CountGrows(items: seq<Item>, j: int, a: nat, n: nat)
    requires a <= n <= |items|
    ensures Count(items, j, a) <= Count(items, j, n)
    ensures a < n && Parent(items, a) == j ==> Count(items, j, a) < Count(items, j, n)
    decreases n
  {
    if a < n {
      KidsSnoc(items, j, 0, n - 1);
      CountGrows(items, j, a, n - 1);
    }
  }

  /** Two rows never lie at the same place. */
  lemma {:induction false} RanksDiffer(items: seq<Item>, i: nat, k: nat)
    requires i < k < |items| && Parent(items, i) == Parent(items, k)
    ensures Rank(items, i) < Rank(items, k)
  {
    CountGrows(items, Parent(items, i), i, k);
  }

  lemma {:induction false} RanksApart(items: seq<Item>, i: nat, k: nat)
    requires i < |items| && k < |items| && i != k
    ensures Parent(items, i) == Parent(items, k) ==> Rank(items, i) != Rank(items, k)
    ensures i < k && Parent(items, i) == Parent(items, k) ==> Rank(items, i) < Rank(items, k)
  {
    if Parent(items, i) == Parent(items, k) {
      if i < k {
        RanksDiffer(items, i, k);
      } else {
        RanksDiffer(items, k, i);
      }
    }
  }

  lemma {:induction false} CountStep(items: seq<Item>, n: nat)
    requires n < |items|
    ensures var p := Parent(items, n);
            && (forall j :: -1 <= j <= n ==> Count(items, j, n + 1) == Count(items, j, n) + if j == p then 1 else 0)
            && Count(items, n, n + 1) == 0 && Count(items, n, n) == 0 && Rank(items, n) == Count(items, p, n)
  {
    hide KidsIn, Parent;
    KidsGrow(items, n);
  }

  /** Row n becomes a child of its parent, at the end of the parent's array or of the one replacing it. */
  method Place(item: Item, parent: Option<Pointer>, definitions: Slice, ghost items: seq<Item>,
      ghost bufs: seq<array?<Def>>, ghost n: nat)
    returns (address: Pointer, roots: Slice, ghost now: seq<array?<Def>>)
    requires Laid(items, bufs, n) && n < |items| && item == items[n]
    requires definitions == SliceOf(items, bufs, -1, n)
    requires var p := Parent(items, n);
             if p < 0 then parent.None?
             else bufs[Parent(items, p) + 1] != null && parent == Some(PointerTo(items, bufs, p))
    modifies bufs
    ensures |now| == n + 2 && now == bufs[Parent(items, n) + 1 := now[Parent(items, n) + 1]] + [null]
    ensures now[Parent(items, n) + 1] != null
    ensures Laid(items, now, n + 1) && roots == SliceOf(items, now, -1, n + 1)
    ensures address == PointerTo(items, now, n)
    ensures var b := now[Parent(items, n) + 1]; b == bufs[Parent(items, n) + 1] || fresh(b)
  {
    hide KidsIn, Parent, Count, Rank;
    ghost var p := Parent(items, n);
    CountStep(items, n);
    var slice := definitions;
    if parent.Some? {
      assert Placed(items, bufs, n, p);
      slice := parent.value.buf[parent.value.index].children;
    }
    assert slice == SliceOf(items, bufs, p, n) && Fits(items, bufs, p, n);
    var grown := Append(slice, Def(item, NIL));
    roots := definitions;
    if parent.Some? {
      var def := parent.value.buf[parent.value.index];
      parent.value.buf[parent.value.index] := def.(children := grown);
    } else {
      roots := grown;
    }
    now := bufs[p + 1 := grown.buf] + [null];
    address := Pointer(grown.buf, grown.len - 1);
    ghost var m := n + 1;
    assert forall i, j :: 0 <= i < j <= m && now[i] != null ==> now[i] != now[j];
    forall j | -1 <= j < m ensures Fits(items, now, j, m) {
      assert j < n ==> Fits(items, bufs, j, n);
    }
    forall k | 0 <= k < n ensures Placed(items, now, m, k) {
      assert old(Placed(items, bufs, n, k));
      RanksApart(items, k, n);
      if p >= 0 && k != p {
        RanksApart(items, k, p);
      }
    }
    assert Placed(items, now, m, n);
  }

  // ----- The stack -----

  /** The stack of row d: its own address on top of the stack of its parent. */
  lemma {:induction false} ChainPoints(items: seq<Item>, bufs: seq<array?<Def>>, d: int, stack: seq<Pointer>)
    requires -1 <= d < |items| && (d >= 0 ==> items[d].opens)
    requires Points(items, bufs, Chain(items, d), stack)
    ensures d < 0 ==> stack == []
    ensures d >= 0 ==>
              && stack != [] && d < |bufs| && bufs[Parent(items, d) + 1] != null
              && stack[|stack| - 1] == PointerTo(items, bufs, d)
    ensures d >= 0 ==> Points(items, bufs, Chain(items, Parent(items, d)), stack[..|stack| - 1])
  {
    hide Search, Parent;
    if d >= 0 {
      var o, q, rest := Chain(items, d), Chain(items, Parent(items, d)), stack[..|stack| - 1];
      assert o == q + [d];
      forall i | 0 <= i < |q| ensures q[i] == o[i] && rest[i] == stack[i] {
      }
    }
  }

  lemma {:induction false} TopPoints(items: seq<Item>, bufs: seq<array?<Def>>, c: int, stack: seq<Pointer>)
    requires -1 <= c < |items| && Points(items, bufs, Chain(items, c), stack)
    ensures Points(items, bufs, Chain(items, Top(items, c)), stack)
  {
    hide Search, Parent;
  }

  /** Any row, group or not, pops the groups whose level is not below its own; what remains on top is its parent. */
  method Pop(stack: seq<Pointer>, level: int, ghost items: seq<Item>, ghost bufs: seq<array?<Def>>, ghost n: nat)
    returns (rest: seq<Pointer>)
    requires Laid(items, bufs, n) && n < |items| && level == items[n].level
    requires Points(items, bufs, Chain(items, n - 1), stack)
    ensures Points(items, bufs, Chain(items, Parent(items, n)), rest)
    ensures var p := Parent(items, n);
            if p < 0 then rest == []
            else rest != [] && bufs[Parent(items, p) + 1] != null && rest[|rest| - 1] == PointerTo(items, bufs, p)
  {
    hide Search, Parent, Chain, Points;
    ghost var d := Top(items, n - 1);
    rest := stack;
    TopPoints(items, bufs, n - 1, stack);
    PopStart(items, n);
    ChainPoints(items, bufs, d, rest);
    while |rest| > 0 && rest[|rest| - 1].buf[rest[|rest| - 1].index].item.level >= level
      invariant Laid(items, bufs, n) && -1 <= d < n && (d >= 0 ==> items[d].opens)
      invariant Points(items, bufs, Chain(items, d), rest) && Search(items, level, d) == Parent(items, n)
      invariant if d < 0 then rest == []
                else rest != [] && bufs[Parent(items, d) + 1] != null && rest[|rest| - 1] == PointerTo(items, bufs, d)
      invariant d >= 0 ==> Placed(items, bufs, n, d)
    {
      ChainPoints(items, bufs, d, rest);
      PopStep(items, level, d);
      rest := rest[..|rest| - 1];
      d := Parent(items, d);
      ChainPoints(items, bufs, d, rest);
    }
    FoundAtOnce(items, level, d);
  }

  /** Placing row n moves no open group: the array it may replace holds the children of its parent, all closed. */
  lemma {:induction false} OpenGroupsStay(items: seq<Item>, bufs: seq<array?<Def>>, now: seq<array?<Def>>, n: nat,
      stack: seq<Pointer>)
    requires n < |items| && |bufs| == n + 1 && |now| == n + 2
    requires now == bufs[Parent(items, n) + 1 := now[Parent(items, n) + 1]] + [null]
    requires Points(items, bufs, Chain(items, Parent(items, n)), stack)
    ensures Points(items, now, Chain(items, Parent(items, n)), stack)
  {
    hide Search, Parent;
    var p := Parent(items, n);
    var o := Chain(items, p);
    forall i | 0 <= i < |o| ensures Parent(items, o[i]) != p {
      assert o[i] <= p;
    }
  }

  lemma {:induction false} PushPoints(items: seq<Item>, now: seq<array?<Def>>, n: nat, stack: seq<Pointer>)
    requires n < |items| && n < |now| && now[Parent(items, n) + 1] != null
    requires Points(items, now, Chain(items, Parent(items, n)), stack)
    ensures Points(items, now, Chain(items, n), if items[n].opens then stack + [PointerTo(items, now, n)] else stack)
  {
    ChainGrows(items, n);
    hide Search, Parent, Chain, PointerTo;
    var c := Chain(items, Parent(items, n));
    if items[n].opens {
      PointsAppend(items, now, c, stack, n);
    } else {
      assert c + [] == c;
    }
  }

  lemma {:induction false} PointsAppend(items: seq<Item>, bufs: seq<array?<Def>>, open: seq<nat>,
      stack: seq<Pointer>, k: nat)
    requires Points(items, bufs, open, stack)
    requires k < |items| && k < |bufs| && bufs[Parent(items, k) + 1] != null
    ensures Points(items, bufs, open + [k], stack + [PointerTo(items, bufs, k)])
  {
    hide Parent, PointerTo;
  }

  // ----- The result -----

  ghost function View(s: Slice): seq<Def>
    reads s.buf
  {
    if s.buf == null || s.len > s.buf.Length then [] else s.buf[..s.len]
  }

  /** The definitions and all below them form exactly the given trees. */
  ghost predicate Holds(defs: seq<Def>, trees: seq<Tree>)
    reads *
    decreases trees
  {
    && |defs| == |trees|
    && forall i :: 0 <= i < |trees| ==>
         defs[i].item == trees[i].item && Holds(View(defs[i].children), trees[i].children)
  }

  lemma HoldsCons(def: Def, defs: seq<Def>, t: Tree, trees: seq<Tree>)
    requires def.item == t.item && Holds(View(def.children), t.children) && Holds(defs, trees)
    ensures Holds([def] + defs, [t] + trees)
  {
  }

  function DefsOf(items: seq<Item>, bufs: seq<array?<Def>>, indices: seq<nat>): (r: seq<Def>)
    requires |bufs| == |items| + 1 && forall k :: 0 <= k < |indices| ==> indices[k] < |items|
    ensures |r| == |indices| && forall k :: 0 <= k < |r| ==>
              r[k] == Def(items[indices[k]], SliceOf(items, bufs, indices[k], |items|))
  {
    seq(|indices|, k requires 0 <= k < |indices| => Def(items[indices[k]], SliceOf(items, bufs, indices[k], |items|)))
  }

  lemma {:induction false} KidAt(items: seq<Item>, j: int, n: nat, m: nat)
    requires n <= |items| && m < Count(items, j, n)
    ensures var k := KidsIn(items, j, 0, n)[m]; Parent(items, k) == j && Rank(items, k) == m
    decreases n
  {
    hide Parent;
    KidsSnoc(items, j, 0, n - 1);
    if m < Count(items, j, n - 1) {
      KidAt(items, j, n - 1, m);
    }
  }

  /** The children's slice of row j is its children. */
  lemma {:induction false} ViewIsKids(items: seq<Item>, bufs: seq<array?<Def>>, j: int)
    requires Laid(items, bufs, |items|) && -1 <= j < |items|
    ensures View(SliceOf(items, bufs, j, |items|)) == DefsOf(items, bufs, KidsIn(items, j, 0, |items|))
  {
    hide KidsIn, Parent;
    var n := |items|;
    assert Fits(items, bufs, j, n);
    forall m | 0 <= m < Count(items, j, n)
      ensures bufs[j + 1] != null && bufs[j + 1][m] == DefsOf(items, bufs, KidsIn(items, j, 0, n))[m]
    {
      KidAt(items, j, n, m);
      assert Placed(items, bufs, n, KidsIn(items, j, 0, n)[m]);
    }
  }

  lemma {:induction false} KidsHold(items: seq<Item>, bufs: seq<array?<Def>>, j: int, a: nat)
    requires Laid(items, bufs, |items|)
    requires -1 <= j < |items| && j < a <= EndOf(items, j) && (a < EndOf(items, j) ==> Parent(items, a) == j)
    ensures Holds(DefsOf(items, bufs, KidsIn(items, j, a, |items|)), NestRange(items, a, EndOf(items, j)))
    decreases EndOf(items, j) - a
  {
    hide EndOf, SubEnd, Parent, NestRange, Laid, KidsIn, SliceOf, DefsOf;
    var n, e := |items|, EndOf(items, j);
    LaidLength(items, bufs);
    if a == e {
      NoKidsFromEnd(items, j);
      NestNothing(items, a);
    } else {
      NextSibling(items, j, a);
      KidsFrom(items, j, a);
      NestStep(items, a, e);
      ViewIsKids(items, bufs, a);
      var x := EndOf(items, a);
      KidsHold(items, bufs, j, x);
      if a + 1 < x {
        FirstChild(items, a);
      }
      KidsHold(items, bufs, a, a + 1);
      KidJoins(items, bufs, a, KidsIn(items, j, x, n), NestRange(items, a, e));
    }
  }

  lemma DefsCons(items: seq<Item>, bufs: seq<array?<Def>>, a: nat, rest: seq<nat>)
    requires |bufs| == |items| + 1 && a < |items| && forall k :: 0 <= k < |rest| ==> rest[k] < |items|
    ensures DefsOf(items, bufs, [a] + rest)
         == [Def(items[a], SliceOf(items, bufs, a, |items|))] + DefsOf(items, bufs, rest)
  {
    hide SliceOf;
  }

  /** A row and what lies below it, before what lies below its later siblings. */
  lemma KidJoins(items: seq<Item>, bufs: seq<array?<Def>>, a: nat, rest: seq<nat>, trees: seq<Tree>)
    requires |bufs| == |items| + 1 && a < |items| && (forall k :: 0 <= k < |rest| ==> rest[k] < |items|)
    requires trees != [] && trees[0].item == items[a]
    requires Holds(View(SliceOf(items, bufs, a, |items|)), trees[0].children)
    requires Holds(DefsOf(items, bufs, rest), trees[1..])
    ensures Holds(DefsOf(items, bufs, [a] + rest), trees)
  {
    hide SliceOf, DefsOf, Holds;
    DefsCons(items, bufs, a, rest);
    HoldsCons(Def(items[a], SliceOf(items, bufs, a, |items|)), DefsOf(items, bufs, rest), trees[0], trees[1..]);
    assert trees == [trees[0]] + trees[1..];
  }

  lemma LaidLength(items: seq<Item>, bufs: seq<array?<Def>>)
    requires Laid(items, bufs, |items|)
    ensures |bufs| == |items| + 1
  {
  }

  lemma {:induction false} RootsHold(items: seq<Item>, bufs: seq<array?<Def>>)
    requires Laid(items, bufs, |items|)
    ensures Holds(View(SliceOf(items, bufs, -1, |items|)), Nest(items))
  {
    hide NestRange, Laid, Parent, KidsIn;
    if |items| > 0 {
      FirstChild(items, -1);
    }
    ViewIsKids(items, bufs, -1);
    KidsHold(items, bufs, -1, 0);
  }

  /** Rows in the order of the report become the forest of the rows, by appending values and keeping addresses. */
  method NestRows(items: seq<Item>) returns (definitions: Slice)
    ensures Holds(View(definitions), Nest(items))
  {
    hide Parent, KidsIn, NestRange, Nest, Laid, Holds, Points, Chain, Placed;
    definitions := NIL;
    var stack: seq<Pointer> := [];
    ghost var bufs: seq<array?<Def>> := [null];
    NothingLaid(items);
    for n := 0 to |items|
      invariant Laid(items, bufs, n) && |bufs| == n + 1 && forall i :: 0 <= i <= n && bufs[i] != null ==> fresh(bufs[i])
      invariant definitions == SliceOf(items, bufs, -1, n)
      invariant Points(items, bufs, Chain(items, n - 1), stack)
    {
      stack := Pop(stack, items[n].level, items, bufs, n);
      var parent := if |stack| > 0 then Some(stack[|stack| - 1]) else None;
      var address;
      ghost var now;
      address, definitions, now := Place(items[n], parent, definitions, items, bufs, n);
      OpenGroupsStay(items, bufs, now, n, stack);
      PushPoints(items, now, n, stack);
      if items[n].opens {
        stack := stack + [address];
      }
      bufs := now;
    }
    RootsHold(items, bufs);
  }

  lemma {:induction false} NothingLaid(items: seq<Item>)
    ensures Laid(items, [null], 0) && NIL == SliceOf(items, [null], -1, 0)
    ensures Points(items, [null], Chain(items, -1), [])
  {
  }
}
