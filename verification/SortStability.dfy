/** When the exchange sort of the token encoder keeps the order of ties (internal/server/semantic_tokens.go). */
module SortStability {
  import opened TokenWire

  predicate Tied(a: Entry, b: Entry) {
    a.line == b.line && a.startChar == b.startChar
  }

  /** The entries tied with one, in order. */
  function TiesOf(s: seq<Entry>, e: Entry): seq<Entry> {
    if s == [] then [] else TiesOf(s[..|s| - 1], e) + if Tied(s[|s| - 1], e) then [s[|s| - 1]] else []
  }

  /** The order of ties is kept. */
  ghost predicate KeepsTies(s: seq<Entry>, t: seq<Entry>) {
    forall e :: TiesOf(s, e) == TiesOf(t, e)
  }

  /** No smaller entry follows two tied ones. */
  predicate IsCalm(s: seq<Entry>) {
    forall p, q, r :: 0 <= p < q < r < |s| && Tied(s[p], s[q]) ==> !Before(s[r], s[p])
  }

  lemma {:induction false} NoTies(s: seq<Entry>, e: Entry)
    requires forall k :: 0 <= k < |s| ==> !Tied(s[k], e)
    ensures TiesOf(s, e) == []
  {
    if s != [] {
      NoTies(s[..|s| - 1], e);
    }
  }

  // ----- What the sort does to the ties -----

  /** The first becomes the last. */
  function Rotated(t: seq<Entry>): (r: seq<Entry>)
    ensures |r| == |t|
  {
    if t == [] then [] else t[1..] + [t[0]]
  }

  /** A tie joins the others at the end; a smaller entry rotates those before it; a larger one leaves them alone. */
  function Turn(t: seq<Entry>, x: Entry, e: Entry): seq<Entry> {
    if Tied(x, e) then t + [x] else if Before(x, e) then Rotated(t) else t
  }

  /** The ties of e after all turns the entries of s give them, t being those before s. */
  function Turned(t: seq<Entry>, s: seq<Entry>, e: Entry): seq<Entry> {
    if s == [] then t else Turn(Turned(t, s[..|s| - 1], e), s[|s| - 1], e)
  }

  lemma {:induction false} TurnedConcat(t: seq<Entry>, a: seq<Entry>, b: seq<Entry>, e: Entry)
    ensures Turned(t, a + b, e) == Turned(Turned(t, a, e), b, e)
  {
    hide Turn;
    if b == [] {
      assert a + b == a;
    } else {
      var n := |b| - 1;
      assert (a + b)[..|a| + n] == a + b[..n];
      TurnedConcat(t, a, b[..n], e);
    }
  }

  lemma TurnedOne(t: seq<Entry>, x: Entry, e: Entry)
    ensures Turned(t, [x], e) == Turn(t, x, e)
  {
    hide Turn;
    assert [x][..0] == [];
  }

  /** The turns of a sequence taken apart around two entries. */
  lemma TurnedParts(a: seq<Entry>, x: Entry, m: seq<Entry>, y: Entry, b: seq<Entry>, e: Entry)
    ensures Turned([], a + [x] + m + [y] + b, e) == Turned(Turn(Turned(Turn(Turned([], a, e), x, e), m, e), y, e), b, e)
  {
    hide Turn, Turned;
    TurnedConcat([], a, [x], e);
    TurnedConcat([], a + [x], m, e);
    TurnedConcat([], a + [x] + m, [y], e);
    TurnedConcat([], a + [x] + m + [y], b, e);
    TurnedOne(Turned([], a, e), x, e);
    TurnedOne(Turned([], a + [x] + m, e), y, e);
  }

  /** Without smaller entries the ties only gather. */
  lemma {:induction false} NothingTurns(t: seq<Entry>, s: seq<Entry>, e: Entry)
    requires forall k :: 0 <= k < |s| ==> !Before(s[k], e)
    ensures Turned(t, s, e) == t + TiesOf(s, e)
  {
    if s != [] {
      NothingTurns(t, s[..|s| - 1], e);
    }
  }

  /** Without ties there is nothing to turn. */
  lemma {:induction false} NothingToTurn(s: seq<Entry>, e: Entry)
    requires forall k :: 0 <= k < |s| ==> !Tied(s[k], e)
    ensures Turned([], s, e) == []
  {
    if s != [] {
      NothingToTurn(s[..|s| - 1], e);
    }
  }

  /** A smaller entry moves before all ties: a tie it moves behind the others rotates them once, as it would have. */
  lemma SmallerSwapped(t: seq<Entry>, x: Entry, m: seq<Entry>, y: Entry, e: Entry)
    requires t == [] && Before(y, e) && !Before(x, e) && forall k :: 0 <= k < |m| ==> !Before(m[k], x)
    ensures Turn(Turned(Turn(t, y, e), m, e), x, e) == Turn(Turned(Turn(t, x, e), m, e), y, e)
  {
    hide Turned, TiesOf;
    if Tied(x, e) {
      var ties := TiesOf(m, e);
      NothingTurns([], m, e);
      NothingTurns([x], m, e);
      assert [] + [x] == [x] && [] + ties == ties && ([x] + ties)[1..] == ties;
    } else {
      NothingToTurn(m, e);
    }
  }

  /** A tie moves before larger entries, which turn nothing. */
  lemma TieSwapped(t: seq<Entry>, x: Entry, m: seq<Entry>, y: Entry, e: Entry)
    requires Before(e, x) && Tied(y, e) && forall k :: 0 <= k < |m| ==> !Before(m[k], x)
    ensures Turn(Turned(Turn(t, y, e), m, e), x, e) == Turn(Turned(Turn(t, x, e), m, e), y, e)
  {
    hide Turned, TiesOf;
    NothingTurns(t, m, e);
    NothingTurns(t + [y], m, e);
    NoTies(m, e);
    assert t + [] == t && t + [y] + [] == t + [y];
  }

  /** Every exchange of the sort leaves the turned ties as they are: one that moves a tie over k - 1 others rotates the
      first k ties once, and takes away the smaller entry behind them. */
  lemma SwapKeepsTurned(s: seq<Entry>, i: nat, j: nat, e: Entry)
    requires i < j < |s| && Settled(s, i) && LeastSoFar(s, i, j) && Before(s[j], s[i])
    ensures Turned([], Swap(s, i, j), e) == Turned([], s, e)
  {
    hide Turned, Swap, TiesOf;
    var a, x, m, y, b := s[..i], s[i], s[i + 1..j], s[j], s[j + 1..];
    SwapParts(s, i, j);
    TurnedParts(a, x, m, y, b, e);
    TurnedParts(a, y, m, x, b, e);
    assert forall k :: 0 <= k < |m| ==> m[k] == s[i + 1 + k] && !Before(m[k], x);
    if Before(y, e) && !Before(x, e) {
      assert forall k :: 0 <= k < i ==> a[k] == s[k] && !Before(y, s[k]);
      NothingToTurn(a, e);
      SmallerSwapped(Turned([], a, e), x, m, y, e);
    } else if Before(e, x) && Tied(y, e) {
      TieSwapped(Turned([], a, e), x, m, y, e);
    }
  }

  lemma SwapParts(s: seq<Entry>, i: nat, j: nat)
    requires i < j < |s|
    ensures s == s[..i] + [s[i]] + s[i + 1..j] + [s[j]] + s[j + 1..]
    ensures Swap(s, i, j) == s[..i] + [s[j]] + s[i + 1..j] + [s[i]] + s[j + 1..]
  {
  }

  /** The sort turns the ties to the end, and leaves the entries in order. */
  lemma {:induction false} ExchangedKeepsTurned(s: seq<Entry>, i: nat, j: nat, e: Entry)
    requires i < j && i <= |s| && Settled(s, i) && (i < |s| ==> LeastSoFar(s, i, if j < |s| then j else |s|))
    ensures Turned([], Exchanged(s, i, j), e) == Turned([], s, e) && InOrder(Exchanged(s, i, j))
    decreases |s| - i, |s| - j
  {
    hide Settled, LeastSoFar, Turned, Before, InOrder;
    if i >= |s| {
      AllSettled(s);
    } else if j >= |s| {
      RoundSettles(s, i);
      NothingCompared(s, i + 1);
      ExchangedKeepsTurned(s, i + 1, i + 2, e);
    } else if Before(s[j], s[i]) {
      SwapKeepsTurned(s, i, j, e);
      SwapSettles(s, i, j);
      ExchangedKeepsTurned(Swap(s, i, j), i, j + 1, e);
    } else {
      OneMoreCompared(s, i, j);
      ExchangedKeepsTurned(s, i, j + 1, e);
    }
  }

  lemma NothingCompared(s: seq<Entry>, i: nat)
    ensures i < |s| ==> LeastSoFar(s, i, if i + 1 < |s| then i + 1 else |s|)
  {
  }

  lemma OneMoreCompared(s: seq<Entry>, i: nat, j: nat)
    requires i < j < |s| && LeastSoFar(s, i, j) && !Before(s[j], s[i])
    ensures LeastSoFar(s, i, j + 1)
  {
  }

  lemma {:induction false} InOrderTurnsNothing(s: seq<Entry>, e: Entry)
    requires InOrder(s)
    ensures Turned([], s, e) == TiesOf(s, e)
  {
    if s != [] {
      var n := |s| - 1;
      InOrderTurnsNothing(s[..n], e);
      if Before(s[n], e) {
        NoTies(s[..n], e);
      }
    }
  }

  /** On every input the sort leaves the ties of an entry in the order the smaller entries between them turn them to. */
  lemma SortTurnsTies(s: seq<Entry>, e: Entry)
    ensures TiesOf(Exchanged(s, 0, 1), e) == Turned([], s, e)
  {
    NothingCompared(s, 0);
    ExchangedKeepsTurned(s, 0, 1, e);
    InOrderTurnsNothing(Exchanged(s, 0, 1), e);
  }

  // ----- When the ties come back to their order -----

  /** The smaller entries behind exactly k ties of e: those between the k-th and the next, or behind the last. */
  function Smaller(s: seq<Entry>, e: Entry, k: nat): nat {
    if s == [] then 0
    else
      var n := |s| - 1;
      Smaller(s[..n], e, k) + if Before(s[n], e) && |TiesOf(s[..n], e)| == k then 1 else 0
  }

  /** For each k from 2 to n, the smaller entries behind k ties turn these all the way round. */
  predicate FullTurns(s: seq<Entry>, e: Entry, n: int) {
    forall k :: 2 <= k <= n ==> Smaller(s, e, k) % k == 0
  }

  /** Rotated c times. */
  function Cut(t: seq<Entry>, c: nat): seq<Entry>
    requires c <= |t|
  {
    t[c..] + t[..c]
  }

  lemma RotatedCut(t: seq<Entry>, r: nat)
    requires t != []
    ensures Rotated(Cut(t, r % |t|)) == Cut(t, (r + 1) % |t|)
  {
    NextRemainder(r, |t|);
    CutAgain(t, r % |t|);
  }

  lemma NextRemainder(r: nat, n: nat)
    requires n > 0
    ensures (r + 1) % n == if r % n + 1 == n then 0 else r % n + 1
  {
    var q, c := r / n, r % n;
    assert r == n * q + c;
    if c + 1 == n {
      Remainder(q + 1, 0, n);
      assert r + 1 == n * (q + 1);
    } else {
      Remainder(q, c + 1, n);
    }
  }

  lemma Remainder(q: nat, c: nat, n: nat)
    requires c < n
    ensures (n * q + c) % n == c
  {
    var m := n * q + c;
    assert m == n * (m / n) + m % n;
    SmallMultiple(n, m / n - q);
  }

  lemma SmallMultiple(n: nat, k: int)
    requires 0 - n < n * k < n
    ensures k == 0
  {
  }

  lemma {:induction false} SmallerBehindAll(s: seq<Entry>, e: Entry, k: nat)
    requires k > |TiesOf(s, e)|
    ensures Smaller(s, e, k) == 0
  {
    if s != [] {
      SmallerBehindAll(s[..|s| - 1], e, k);
    }
  }

  /** What one more entry changes. */
  lemma LastEntry(s: seq<Entry>, e: Entry)
    requires s != []
    ensures var init, x, t := s[..|s| - 1], s[|s| - 1], TiesOf(s[..|s| - 1], e);
            && TiesOf(s, e) == (if Tied(x, e) then t + [x] else t)
            && Turned([], s, e) == Turn(Turned([], init, e), x, e)
            && (forall k: nat :: k != |t| || !Before(x, e) ==> Smaller(s, e, k) == Smaller(init, e, k))
            && (Before(x, e) ==> Smaller(s, e, |t|) == Smaller(init, e, |t|) + 1)
  {
  }

  /** If all but the last gap turn the ties all the way round, the last one decides where they end up. */
  lemma {:induction false} LastGapDecides(s: seq<Entry>, e: Entry)
    requires FullTurns(s, e, |TiesOf(s, e)| - 1)
    ensures var t := TiesOf(s, e);
            Turned([], s, e) == if t == [] then [] else Cut(t, Smaller(s, e, |t|) % |t|)
  {
    hide TiesOf, Turned, Smaller, FullTurns, Cut;
    if s == [] {
      NothingThere(e);
    } else {
      var init, x, t := s[..|s| - 1], s[|s| - 1], TiesOf(s[..|s| - 1], e);
      LastEntry(s, e);
      FullTurnsBefore(s, e);
      LastGapDecides(init, e);
      if Tied(x, e) {
        SmallerBehindAll(init, e, |t| + 1);
        GapWasFull(s, e);
        CutNothing(t);
        CutNothing(t + [x]);
      } else if Before(x, e) && t != [] {
        RotatedCut(t, Smaller(init, e, |t|));
      }
    }
  }

  lemma NothingThere(e: Entry)
    ensures TiesOf([], e) == [] && Turned([], [], e) == []
  {
  }

  lemma CutNothing(t: seq<Entry>)
    ensures Cut(t, 0) == t
  {
  }

  /** The gaps before the last entry. */
  lemma FullTurnsBefore(s: seq<Entry>, e: Entry)
    requires s != [] && FullTurns(s, e, |TiesOf(s, e)| - 1)
    ensures FullTurns(s[..|s| - 1], e, |TiesOf(s[..|s| - 1], e)| - 1)
  {
    hide TiesOf, Turned, Smaller;
    LastEntry(s, e);
  }

  /** A tie closes the gap before it. */
  lemma GapWasFull(s: seq<Entry>, e: Entry)
    requires s != [] && Tied(s[|s| - 1], e) && FullTurns(s, e, |TiesOf(s, e)| - 1)
    ensures var t := TiesOf(s[..|s| - 1], e); t != [] ==> Smaller(s[..|s| - 1], e, |t|) % |t| == 0
  {
    hide TiesOf, Turned, Smaller;
    LastEntry(s, e);
    var t := TiesOf(s[..|s| - 1], e);
    assert |t| >= 2 ==> Smaller(s, e, |t|) % |t| == 0;
  }

  predicate Distinct(t: seq<Entry>) {
    forall p, q :: 0 <= p < q < |t| ==> t[p] != t[q]
  }

  ghost predicate IsCut(t: seq<Entry>, u: seq<Entry>) {
    exists c :: 0 <= c < |t| && u == Cut(t, c)
  }

  lemma {:induction false} TurnedLength(s: seq<Entry>, e: Entry)
    ensures |Turned([], s, e)| == |TiesOf(s, e)|
  {
    if s != [] {
      TurnedLength(s[..|s| - 1], e);
    }
  }

  lemma RotatedIsNoCut(t: seq<Entry>, u: seq<Entry>)
    requires |u| == |t| && !IsCut(t, u)
    ensures !IsCut(t, Rotated(u))
  {
    if IsCut(t, Rotated(u)) {
      var c :| 0 <= c < |t| && Rotated(u) == Cut(t, c);
      var n := |t|;
      var b := if c == 0 then n - 1 else c - 1;
      CutAgain(t, b);
      RotatedIsOneToOne(u, Cut(t, b));
    }
  }

  lemma CutAgain(t: seq<Entry>, b: nat)
    requires b < |t|
    ensures Rotated(Cut(t, b)) == Cut(t, if b + 1 == |t| then 0 else b + 1)
  {
    assert Cut(t, b)[0] == t[b];
    assert Cut(t, b)[1..] + [t[b]] == if b + 1 == |t| then Cut(t, 0) else Cut(t, b + 1);
  }

  lemma RotatedIsOneToOne(u: seq<Entry>, v: seq<Entry>)
    requires |u| == |v| > 0 && Rotated(u) == Rotated(v)
    ensures u == v
  {
    var n := |u| - 1;
    assert Rotated(u)[..n] == u[1..] && Rotated(v)[..n] == v[1..];
    assert Rotated(u)[n] == u[0] && Rotated(v)[n] == v[0];
    assert u == [u[0]] + u[1..] && v == [v[0]] + v[1..];
  }

  lemma AppendedIsNoCut(t: seq<Entry>, u: seq<Entry>, x: Entry)
    requires |u| == |t| && u != t && Distinct(t + [x])
    ensures !IsCut(t + [x], u + [x])
  {
    var n := |t|;
    forall c | 0 <= c < n + 1 ensures u + [x] != Cut(t + [x], c) {
      if c == 0 {
        CutNothing(t + [x]);
        assert (u + [x])[..n] == u && (t + [x])[..n] == t;
      } else {
        assert Cut(t + [x], c)[n] == (t + [x])[c - 1] && (t + [x])[n] == x;
      }
    }
  }

  lemma CutMoves(t: seq<Entry>, c: nat)
    requires 0 < c < |t| && Distinct(t)
    ensures Cut(t, c) != t
  {
    assert Cut(t, c)[0] == t[c];
  }

  /** A gap that leaves different ties turned leaves them out of order behind the next tie. */
  lemma TieKeepsTurned(s: seq<Entry>, e: Entry)
    requires s != [] && Tied(s[|s| - 1], e) && Distinct(TiesOf(s, e))
    requires Turned([], s[..|s| - 1], e) != TiesOf(s[..|s| - 1], e)
    ensures !IsCut(TiesOf(s, e), Turned([], s, e))
  {
    hide TiesOf, Turned, Distinct, IsCut;
    LastEntry(s, e);
    TurnedLength(s[..|s| - 1], e);
    AppendedIsNoCut(TiesOf(s[..|s| - 1], e), Turned([], s[..|s| - 1], e), s[|s| - 1]);
  }

  /** Where the last gap is the one that leaves them turned. */
  lemma OpenLastGap(s: seq<Entry>, e: Entry)
    requires var n := |TiesOf(s, e)|; FullTurns(s, e, n - 1) && !FullTurns(s, e, n)
    requires Distinct(TiesOf(s, e))
    ensures Turned([], s, e) != TiesOf(s, e)
  {
    hide TiesOf, Turned, Smaller, Cut, Distinct;
    LastGapDecides(s, e);
    var t := TiesOf(s, e);
    CutMoves(t, Smaller(s, e, |t|) % |t|);
  }

  lemma FullTurnsBut(s: seq<Entry>, e: Entry, n: int)
    requires s != [] && !FullTurns(s, e, n) && n <= |TiesOf(s[..|s| - 1], e)|
    requires n == |TiesOf(s[..|s| - 1], e)| ==> !Before(s[|s| - 1], e)
    ensures !FullTurns(s[..|s| - 1], e, n)
  {
    hide TiesOf, Turned, Smaller;
    LastEntry(s, e);
    var k :| 2 <= k <= n && Smaller(s, e, k) % k != 0;
    assert Smaller(s[..|s| - 1], e, k) == Smaller(s, e, k);
  }

  lemma InitIsDistinct(s: seq<Entry>, e: Entry)
    requires s != [] && Distinct(TiesOf(s, e))
    ensures Distinct(TiesOf(s[..|s| - 1], e))
  {
    hide TiesOf, Turned, Smaller;
    LastEntry(s, e);
    var t := TiesOf(s[..|s| - 1], e);
    assert TiesOf(s, e)[..|t|] == t;
    assert forall p :: 0 <= p < |t| ==> t[p] == TiesOf(s, e)[p];
  }

  /** If some gap before the last leaves different ties turned, nothing behind it brings them back, not even turned. */
  lemma {:induction false} OpenGapStays(s: seq<Entry>, e: Entry)
    requires !FullTurns(s, e, |TiesOf(s, e)| - 1) && Distinct(TiesOf(s, e))
    ensures !IsCut(TiesOf(s, e), Turned([], s, e))
  {
    hide TiesOf, Turned, Smaller, FullTurns, IsCut, Cut, Distinct;
    if s == [] {
      NoGaps(e);
    } else {
      var init, x, t := s[..|s| - 1], s[|s| - 1], TiesOf(s[..|s| - 1], e);
      LastEntry(s, e);
      InitIsDistinct(s, e);
      FullTurnsBut(s, e, |TiesOf(s, e)| - 1);
      if !FullTurns(init, e, |t| - 1) {
        OpenGapStays(init, e);
        TurnedLength(init, e);
      }
      if Tied(x, e) {
        if FullTurns(init, e, |t| - 1) {
          OpenLastGap(init, e);
        } else {
          OpenIsNoOrder(init, e);
        }
        TieKeepsTurned(s, e);
      } else if Before(x, e) {
        RotatedIsNoCut(t, Turned([], init, e));
      }
    }
  }

  lemma NoGaps(e: Entry)
    ensures FullTurns([], e, |TiesOf([], e)| - 1)
  {
  }

  lemma OpenIsNoOrder(s: seq<Entry>, e: Entry)
    requires !FullTurns(s, e, |TiesOf(s, e)| - 1) && !IsCut(TiesOf(s, e), Turned([], s, e))
    ensures Turned([], s, e) != TiesOf(s, e)
  {
    hide TiesOf, Turned, Smaller, Cut;
    CutNothing(TiesOf(s, e));
  }

  /** If every gap turns the ties before it all the way round, the ties of e come out in order: equal or not. */
  lemma FullTurnsKeepOrder(s: seq<Entry>, e: Entry)
    requires FullTurns(s, e, |TiesOf(s, e)|)
    ensures TiesOf(Exchanged(s, 0, 1), e) == TiesOf(s, e)
  {
    hide TiesOf, Turned, Smaller, Cut, Exchanged;
    SortTurnsTies(s, e);
    LastGapDecides(s, e);
    var t := TiesOf(s, e);
    CutNothing(t);
    assert |t| >= 2 ==> Smaller(s, e, |t|) % |t| == 0;
  }

  /** Different ties of e come out in order exactly if every gap turns the ties before it all the way round. */
  lemma OrderKeptIff(s: seq<Entry>, e: Entry)
    requires Distinct(TiesOf(s, e))
    ensures TiesOf(Exchanged(s, 0, 1), e) == TiesOf(s, e) <==> FullTurns(s, e, |TiesOf(s, e)|)
  {
    hide TiesOf, Turned, Smaller, Exchanged, FullTurns, IsCut, Distinct;
    if FullTurns(s, e, |TiesOf(s, e)|) {
      FullTurnsKeepOrder(s, e);
    } else {
      SortTurnsTies(s, e);
      if FullTurns(s, e, |TiesOf(s, e)| - 1) {
        OpenLastGap(s, e);
      } else {
        OpenGapStays(s, e);
        OpenIsNoOrder(s, e);
      }
    }
  }

  /** For each entry and each k from 2 on, k divides the number of smaller entries between its k-th and its next tie, or
      behind its last if it has k. */
  predicate ComesBack(s: seq<Entry>) {
    forall p :: 0 <= p < |s| ==> FullTurns(s, s[p], |TiesOf(s, s[p])|)
  }

  lemma {:induction false} TiesOfTied(s: seq<Entry>, d: Entry, e: Entry)
    requires Tied(d, e)
    ensures TiesOf(s, d) == TiesOf(s, e)
  {
    if s != [] {
      TiesOfTied(s[..|s| - 1], d, e);
    }
  }

  lemma {:induction false} TiesOfDistinct(s: seq<Entry>, e: Entry)
    requires forall p, q :: 0 <= p < q < |s| && Tied(s[p], s[q]) ==> s[p] != s[q]
    ensures Distinct(TiesOf(s, e)) && forall d :: d in TiesOf(s, e) ==> d in s && Tied(d, e)
  {
    if s != [] {
      var init, x, t := s[..|s| - 1], s[|s| - 1], TiesOf(s[..|s| - 1], e);
      TiesOfDistinct(init, e);
      forall p | 0 <= p < |init| ensures init[p] != x && init[p] in s {
        assert Tied(s[p], s[|s| - 1]) ==> s[p] != s[|s| - 1];
      }
    }
  }

  /** The exchange sort is stable on a list whose ties differ exactly if, around every entry, each gap turns the ties
      before it all the way round. */
  lemma StableIff(s: seq<Entry>)
    requires forall p, q :: 0 <= p < q < |s| && Tied(s[p], s[q]) ==> s[p] != s[q]
    ensures KeepsTies(s, Exchanged(s, 0, 1)) <==> ComesBack(s)
  {
    hide TiesOf, Exchanged, FullTurns, Distinct, Tied;
    var r := Exchanged(s, 0, 1);
    if KeepsTies(s, r) {
      forall p | 0 <= p < |s| ensures FullTurns(s, s[p], |TiesOf(s, s[p])|) {
        TiesOfDistinct(s, s[p]);
        OrderKeptIff(s, s[p]);
      }
    }
    if ComesBack(s) {
      ComesBackKeepsTies(s);
    }
  }

  /** The condition suffices also where ties are equal. */
  lemma ComesBackKeepsTies(s: seq<Entry>)
    requires ComesBack(s)
    ensures KeepsTies(s, Exchanged(s, 0, 1))
  {
    hide TiesOf, Exchanged, FullTurns, Tied, Turned;
    var r := Exchanged(s, 0, 1);
    forall e ensures TiesOf(s, e) == TiesOf(r, e) {
      if p :| 0 <= p < |s| && Tied(s[p], e) {
        FullTurnsKeepOrder(s, s[p]);
        TiesOfTied(s, s[p], e);
        TiesOfTied(r, s[p], e);
      } else {
        SortTurnsTies(s, e);
        NothingToTurn(s, e);
        NoTies(s, e);
      }
    }
  }

  /** In particular it is stable where no smaller entry follows two tied ones, and so where no two entries tie. */
  lemma CalmInputIsSortedStably(s: seq<Entry>)
    requires IsCalm(s)
    ensures KeepsTies(s, Exchanged(s, 0, 1))
  {
    hide FullTurns, Exchanged;
    forall p | 0 <= p < |s| ensures FullTurns(s, s[p], |TiesOf(s, s[p])|) {
      CalmTurnsNothing(s, s[p]);
    }
    ComesBackKeepsTies(s);
  }

  lemma CalmTurnsNothing(s: seq<Entry>, e: Entry)
    requires IsCalm(s)
    ensures FullTurns(s, e, |TiesOf(s, e)|)
  {
    hide IsCalm, TiesOf, Smaller;
    forall k | 2 <= k <= |TiesOf(s, e)| ensures Smaller(s, e, k) % k == 0 {
      NoneSmallerBehind(s, e, k);
    }
  }

  lemma {:induction false} NoneSmallerBehind(s: seq<Entry>, e: Entry, k: nat)
    requires IsCalm(s) && k >= 2
    ensures Smaller(s, e, k) == 0
  {
    hide TiesOf;
    if s != [] {
      var n := |s| - 1;
      assert IsCalm(s[..n]);
      NoneSmallerBehind(s[..n], e, k);
      if Before(s[n], e) && |TiesOf(s[..n], e)| == k {
        TwoTies(s[..n], e);
      }
    }
  }

  lemma {:induction false} TwoTies(s: seq<Entry>, e: Entry)
    requires |TiesOf(s, e)| >= 2
    ensures exists p, q :: 0 <= p < q < |s| && Tied(s[p], e) && Tied(s[q], e)
  {
    var n := |s| - 1;
    if Tied(s[n], e) {
      OneTie(s[..n], e);
    } else {
      TwoTies(s[..n], e);
    }
  }

  lemma {:induction false} OneTie(s: seq<Entry>, e: Entry)
    requires |TiesOf(s, e)| >= 1
    ensures exists p :: 0 <= p < |s| && Tied(s[p], e)
  {
    if !Tied(s[|s| - 1], e) {
      OneTie(s[..|s| - 1], e);
    }
  }

  // ----- Examples -----

  /** Two tied entries before a smaller one come out reversed, whatever they are. */
  lemma SmallerBehindTiesReverses(x: Entry, y: Entry, z: Entry)
    requires Tied(x, y) && Before(z, x)
    ensures Exchanged([x, y, z], 0, 1) == [z, y, x]
    ensures x != y ==> !KeepsTies([x, y, z], Exchanged([x, y, z], 0, 1))
  {
    var s, t := [x, y, z], [z, y, x];
    assert Swap(s, 0, 2) == t;
    assert Exchanged(t, 1, 2) == Exchanged(t, 1, 3) == Exchanged(t, 2, 3) == Exchanged(t, 3, 4) == t;
    assert Exchanged(s, 0, 1) == Exchanged(s, 0, 2) == Exchanged(t, 0, 3) == Exchanged(t, 1, 2);
    SortTurnsTies(s, x);
    assert s[..2] == [x, y] && [x, y][..1] == [x] && [x][..0] == [];
    assert TiesOf([x], x) == [x] == Turned([], [x], x);
    assert TiesOf([x, y], x) == [x, y] == Turned([], [x, y], x);
    assert TiesOf(s, x) == [x, y] && Turned([], s, x) == Rotated([x, y]) == [y, x];
    assert [x, y][0] == x && [y, x][0] == y;
  }

  /** A second smaller entry behind them turns the two all the way round. */
  lemma TwoSmallerRestore(x: Entry, y: Entry, z: Entry, w: Entry)
    requires Tied(x, y) && Before(z, x) && Before(w, x) && !Before(w, z)
    ensures !IsCalm([x, y, z, w]) && Exchanged([x, y, z, w], 0, 1) == [z, w, x, y]
  {
    var s, t, u := [x, y, z, w], [z, y, x, w], [z, w, x, y];
    assert Tied(s[0], s[1]) && Before(s[2], s[0]);
    assert Swap(s, 0, 2) == t && Swap(t, 1, 3) == u;
    assert Exchanged(u, 1, 4) == Exchanged(u, 2, 3) == Exchanged(u, 2, 4) == Exchanged(u, 3, 4) == Exchanged(u, 4, 5)
             == u;
    assert Exchanged(t, 0, 3) == Exchanged(t, 0, 4) == Exchanged(t, 1, 2) == Exchanged(t, 1, 3) == Exchanged(u, 1, 4);
    assert Exchanged(s, 0, 1) == Exchanged(s, 0, 2) == Exchanged(t, 0, 3);
  }
}
