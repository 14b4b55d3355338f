/** Merging the token classifications of a file (`semanticTokensPhaseB` in
    internal/analysis/natural/semantictokens.go). */
module TokenMerge {
  import opened Model
  import opened SourceLines
  import opened TokenWire

  datatype Modifier = Declaration | Definition | Readonly | Modification | DefaultLibrary

  /** The modifier bitset is taken as the set of its bits; bitwise or is union. */
  datatype Classified = Classified(range: Range, tokenType: TokenType, modifiers: set<Modifier>)

  /** A type missing from the precedence table reads as 0. */
  function Precedence(t: TokenType): nat {
    match t
    case Function => 5
    case TypeName => 4
    case Property => 3
    case Parameter => 2
    case Variable => 2
    case Unknown => 0
    case _ => 1
  }

  ghost predicate InStartOrder(s: seq<Classified>) {
    forall i, j :: 0 <= i < j < |s| ==> !Earlier(s[j].range.start, s[i].range.start)
  }

  ghost predicate StrictlyIncreasing(s: seq<Classified>) {
    forall i, j :: 0 <= i < j < |s| ==> Earlier(s[i].range.start, s[j].range.start)
  }

  /** The tokens starting at a position, in order. */
  function AtStart(s: seq<Classified>, k: Position): seq<Classified> {
    if s == [] then []
    else AtStart(s[..|s| - 1], k) + if s[|s| - 1].range.start == k then [s[|s| - 1]] else []
  }

  // ----- The stable sort -----

  /** Puts a token behind every one that does not start after it. */
  function InsertStable(s: seq<Classified>, t: Classified): seq<Classified> {
    if s == [] || !Earlier(t.range.start, s[|s| - 1].range.start) then s + [t]
    else InsertStable(s[..|s| - 1], t) + [s[|s| - 1]]
  }

  /** `sort.SliceStable` by start position. */
  function SortByStart(s: seq<Classified>): seq<Classified> {
    if s == [] then [] else InsertStable(SortByStart(s[..|s| - 1]), s[|s| - 1])
  }

  lemma AtStartAppend(s: seq<Classified>, t: Classified, k: Position)
    ensures AtStart(s + [t], k) == AtStart(s, k) + if t.range.start == k then [t] else []
  {
    assert (s + [t])[..|s|] == s;
  }

  lemma {:induction false} InsertStableMembers(s: seq<Classified>, t: Classified)
    ensures forall x :: x in InsertStable(s, t) <==> x == t || x in s
  {
    if s != [] && Earlier(t.range.start, s[|s| - 1].range.start) {
      InsertStableMembers(s[..|s| - 1], t);
      assert s == s[..|s| - 1] + [s[|s| - 1]];
    }
  }

  lemma {:induction false} InsertStableOrders(s: seq<Classified>, t: Classified)
    requires InStartOrder(s)
    ensures InStartOrder(InsertStable(s, t))
  {
    if s != [] && Earlier(t.range.start, s[|s| - 1].range.start) {
      var init, last := s[..|s| - 1], s[|s| - 1];
      InsertStableOrders(init, t);
      InsertStableMembers(init, t);
      var r := InsertStable(init, t);
      forall i | 0 <= i < |r| ensures !Earlier(last.range.start, r[i].range.start) {
        assert r[i] in r;
      }
    }
  }

  lemma {:induction false} InsertStableKeepsTies(s: seq<Classified>, t: Classified, k: Position)
    ensures AtStart(InsertStable(s, t), k) == AtStart(s, k) + if t.range.start == k then [t] else []
  {
    if s == [] || !Earlier(t.range.start, s[|s| - 1].range.start) {
      AtStartAppend(s, t, k);
    } else {
      var init, last := s[..|s| - 1], s[|s| - 1];
      assert s == init + [last];
      InsertStableKeepsTies(init, t, k);
      AtStartAppend(InsertStable(init, t), last, k);
      AtStartAppend(init, last, k);
    }
  }

  lemma {:induction false} SortByStartSorts(s: seq<Classified>, k: Position)
    ensures InStartOrder(SortByStart(s))
    ensures forall x :: x in SortByStart(s) <==> x in s
    ensures AtStart(SortByStart(s), k) == AtStart(s, k)
  {
    if s != [] {
      hide InStartOrder, AtStart, InsertStable;
      var n := |s| - 1;
      var sorted := SortByStart(s[..n]);
      SortByStartSorts(s[..n], k);
      InsertStableMembers(sorted, s[n]);
      InsertStableOrders(sorted, s[n]);
      InsertStableKeepsTies(sorted, s[n], k);
      AtStartAppend(s[..n], s[n], k);
      MembersAppend(s);
      assert SortByStart(s) == InsertStable(sorted, s[n]);
      hide SortByStart;
    }
  }

  lemma MembersAppend(s: seq<Classified>)
    requires s != []
    ensures var n := |s| - 1; s == s[..n] + [s[n]] && forall x :: x in s <==> x in s[..n] || x == s[n]
  {
    assert s == s[..|s| - 1] + [s[|s| - 1]];
  }

  // ----- Choosing among the tokens of one start -----

  /** A higher precedence replaces; an equal one lends its modifiers; a lower one is dropped. */
  function Combine(existing: Classified, tok: Classified): Classified {
    if Precedence(tok.tokenType) > Precedence(existing.tokenType) then tok
    else if Precedence(tok.tokenType) == Precedence(existing.tokenType) then
           existing.(modifiers := existing.modifiers + tok.modifiers)
    else existing
  }

  function Pick(s: seq<Classified>): Classified
    requires s != []
  {
    if |s| == 1 then s[0] else Combine(Pick(s[..|s| - 1]), s[|s| - 1])
  }

  /** Token i is the first of the highest precedence. */
  ghost predicate FirstHighest(s: seq<Classified>, i: int) {
    && 0 <= i < |s|
    && (forall j :: 0 <= j < |s| ==> Precedence(s[j].tokenType) <= Precedence(s[i].tokenType))
    && (forall j :: 0 <= j < i ==> Precedence(s[j].tokenType) < Precedence(s[i].tokenType))
  }

  /** The modifiers of all tokens of a precedence. */
  function ModifiersOf(s: seq<Classified>, precedence: nat): set<Modifier> {
    if s == [] then {}
    else ModifiersOf(s[..|s| - 1], precedence)
         + if Precedence(s[|s| - 1].tokenType) == precedence then s[|s| - 1].modifiers else {}
  }

  lemma {:induction false} NoModifiersAbove(s: seq<Classified>, precedence: nat)
    requires forall j :: 0 <= j < |s| ==> Precedence(s[j].tokenType) < precedence
    ensures ModifiersOf(s, precedence) == {}
  {
    if s != [] {
      NoModifiersAbove(s[..|s| - 1], precedence);
    }
  }

  /** The picked token is the first of the highest precedence, carrying the modifiers of every token of that
      precedence. */
  lemma {:induction false} PickIsFirstHighest(s: seq<Classified>) returns (i: int)
    requires s != []
    ensures FirstHighest(s, i)
    ensures Pick(s).range == s[i].range && Pick(s).tokenType == s[i].tokenType
    ensures Pick(s).modifiers == ModifiersOf(s, Precedence(s[i].tokenType))
  {
    var n := |s| - 1;
    if n == 0 {
      i := 0;
      assert s[..0] == [];
    } else {
      i := PickIsFirstHighest(s[..n]);
      if Precedence(s[n].tokenType) > Precedence(s[i].tokenType) {
        i := n;
        NoModifiersAbove(s[..n], Precedence(s[n].tokenType));
      }
    }
  }

  // ----- The merge -----

  /** A readonly variable (a system variable) starts here. */
  predicate ReadonlyStartsAt(s: seq<Classified>, k: Position) {
    exists r :: r in s && r.tokenType == Variable && Readonly in r.modifiers && r.range.start == k
  }

  /** An operator right before a readonly variable is part of its name. */
  predicate Suppressed(s: seq<Classified>, t: Classified) {
    t.tokenType == Operator && ReadonlyStartsAt(s, Position(t.range.start.line, t.range.end.column + 1))
  }

  /** What the merge must send: exactly the picked tokens of the starts that are not suppressed, in strict order. */
  ghost predicate IsMerge(s: seq<Classified>, out: seq<Classified>) {
    && StrictlyIncreasing(out)
    && (forall o :: o in out ==>
        AtStart(s, o.range.start) != [] && o == Pick(AtStart(s, o.range.start)) && !Suppressed(s, o))
    && (forall t :: t in s ==> AtStart(s, t.range.start) != [])
    && (forall t :: t in s ==> Suppressed(s, Pick(AtStart(s, t.range.start))) || Pick(AtStart(s, t.range.start)) in out)
  }

  lemma {:induction false} AtStartMembers(s: seq<Classified>, k: Position)
    ensures forall t :: t in AtStart(s, k) <==> t in s && t.range.start == k
  {
    if s != [] {
      var n := |s| - 1;
      AtStartMembers(s[..n], k);
      assert s == s[..n] + [s[n]];
    }
  }

  lemma PickStartsThere(s: seq<Classified>, k: Position)
    requires AtStart(s, k) != []
    ensures Pick(AtStart(s, k)).range.start == k
  {
    var i := PickIsFirstHighest(AtStart(s, k));
    AtStartMembers(s, k);
    assert AtStart(s, k)[i] in AtStart(s, k);
  }

  lemma PickAppend(s: seq<Classified>, t: Classified)
    ensures Pick(s + [t]) == if s == [] then t else Combine(Pick(s), t)
  {
    assert (s + [t])[..|s|] == s;
  }

  /** The map holds the picked token of every start. */
  ghost predicate HoldsPicks(tokenMap: map<Position, Classified>, s: seq<Classified>) {
    && (forall k :: k in tokenMap <==> AtStart(s, k) != [])
    && (forall k :: k in tokenMap ==> tokenMap[k] == Pick(AtStart(s, k)))
  }

  lemma HoldsPicksAppend(tokenMap: map<Position, Classified>, s: seq<Classified>, t: Classified)
    requires HoldsPicks(tokenMap, s)
    ensures var key := t.range.start;
            HoldsPicks(tokenMap[key := if key in tokenMap then Combine(tokenMap[key], t) else t], s + [t])
  {
    hide Pick, Combine;
    var key := t.range.start;
    PickAppend(AtStart(s, key), t);
    assert AtStart(s, key) == [] ==> AtStart(s, key) + [t] == [t];
    forall k ensures AtStart(s + [t], k) == if key == k then AtStart(s, k) + [t] else AtStart(s, k) {
      AtStartAppend(s, t, k);
      assert AtStart(s, k) + [] == AtStart(s, k);
    }
  }

  method BuildTokenMap(all: seq<Classified>) returns (tokenMap: map<Position, Classified>)
    ensures HoldsPicks(tokenMap, all)
  {
    tokenMap := map[];
    assert HoldsPicks(tokenMap, []);
    hide HoldsPicks;
    for i := 0 to |all|
      invariant HoldsPicks(tokenMap, all[..i])
    {
      var tok := all[i];
      var key := tok.range.start;
      assert all[..i + 1] == all[..i] + [tok];
      HoldsPicksAppend(tokenMap, all[..i], tok);
      if key !in tokenMap {
        tokenMap := tokenMap[key := tok];
      } else {
        var existing := tokenMap[key];
        if Precedence(tok.tokenType) > Precedence(existing.tokenType) {
          tokenMap := tokenMap[key := tok];
        } else if Precedence(tok.tokenType) == Precedence(existing.tokenType) {
          tokenMap := tokenMap[key := existing.(modifiers := existing.modifiers + tok.modifiers)];
        } else {
          assert tokenMap[key := existing] == tokenMap;
        }
      }
    }
    assert all[..|all|] == all;
  }

  method CollectReadonlyStarts(all: seq<Classified>) returns (starts: set<Position>)
    ensures forall k :: k in starts <==> ReadonlyStartsAt(all, k)
  {
    starts := {};
    for i := 0 to |all|
      invariant forall k :: k in starts <==> ReadonlyStartsAt(all[..i], k)
    {
      var tok := all[i];
      assert all[..i + 1] == all[..i] + [tok];
      if tok.tokenType == Variable && Readonly in tok.modifiers {
        assert ReadonlyStartsAt(all[..i + 1], tok.range.start);
        starts := starts + {tok.range.start};
      }
    }
    assert all[..|all|] == all;
  }

  lemma StrictlyIncreasingAppend(out: seq<Classified>, t: Classified)
    requires StrictlyIncreasing(out) && forall o :: o in out ==> Earlier(o.range.start, t.range.start)
    ensures StrictlyIncreasing(out + [t])
  {
  }

  /** The reconstruction over sorted tokens. */
  method Reconstruct(all: seq<Classified>) returns (out: seq<Classified>)
    requires InStartOrder(all)
    ensures IsMerge(all, out)
  {
    var tokenMap := BuildTokenMap(all);
    var readonlyStarts := CollectReadonlyStarts(all);
    hide Pick, AtStart, ReadonlyStartsAt;
    out := [];
    var seen: set<Position> := {};
    for i := 0 to |all|
      invariant StrictlyIncreasing(out)
      invariant forall k :: k in seen <==> exists o :: o in out && o.range.start == k
      invariant forall o :: o in out ==>
                  o.range.start in tokenMap && o == tokenMap[o.range.start] && !Suppressed(all, o)
      invariant forall o :: o in out ==> exists j :: 0 <= j < i && all[j].range.start == o.range.start
      invariant forall j :: 0 <= j < i ==> all[j].range.start in tokenMap
      invariant forall j :: 0 <= j < i ==>
                  Suppressed(all, tokenMap[all[j].range.start]) || tokenMap[all[j].range.start] in out
    {
      var key := all[i].range.start;
      AtStartMembers(all, key);
      assert all[i] in AtStart(all, key);
      PickStartsThere(all, key);
      var selected := tokenMap[key];
      if key in seen {
        continue;
      }
      if selected.tokenType == Operator {
        var after := Position(selected.range.start.line, selected.range.end.column + 1);
        if after in readonlyStarts {
          continue;
        }
      }
      forall o | o in out ensures Earlier(o.range.start, selected.range.start) {
        var j :| 0 <= j < i && all[j].range.start == o.range.start;
        assert !Earlier(all[i].range.start, all[j].range.start);
      }
      StrictlyIncreasingAppend(out, selected);
      seen := seen + {key};
      out := out + [selected];
    }
    forall t | t in all
      ensures AtStart(all, t.range.start) != []
      ensures Suppressed(all, Pick(AtStart(all, t.range.start))) || Pick(AtStart(all, t.range.start)) in out
    {
      var j :| 0 <= j < |all| && all[j] == t;
      assert all[j].range.start in tokenMap;
    }
  }

  /** The whole merge: the phases' tokens, in phase order, sorted stably and then reduced. */
  method MergeTokens(tokens: seq<Classified>) returns (out: seq<Classified>)
    ensures IsMerge(tokens, out)
  {
    var all := SortByStart(tokens);
    forall k ensures InStartOrder(all) && AtStart(all, k) == AtStart(tokens, k)
      && (forall x :: x in all <==> x in tokens) {
      SortByStartSorts(tokens, k);
    }
    SortByStartSorts(tokens, Position(0, 0));
    out := Reconstruct(all);
    SameTokensSameMerge(all, tokens, out);
  }

  lemma SameTokensSameMerge(a: seq<Classified>, b: seq<Classified>, out: seq<Classified>)
    requires IsMerge(a, out)
    requires forall x :: x in a <==> x in b
    requires forall k :: AtStart(a, k) == AtStart(b, k)
    ensures IsMerge(b, out)
  {
    hide AtStart, Pick;
  }

  /** Spelled out: every token sent has the range and type of the first highest-precedence input at its start and the
      union of the modifiers of all inputs of that precedence there, and its start is no other token's. */
  lemma MergedTokenMeaning(s: seq<Classified>, out: seq<Classified>, n: nat) returns (i: int)
    requires IsMerge(s, out) && n < |out|
    ensures var here := AtStart(s, out[n].range.start);
            && FirstHighest(here, i) && out[n].range == here[i].range && out[n].tokenType == here[i].tokenType
            && out[n].modifiers == ModifiersOf(here, Precedence(here[i].tokenType))
    ensures forall m :: 0 <= m < |out| && out[m].range.start == out[n].range.start ==> m == n
  {
    assert out[n] in out;
    i := PickIsFirstHighest(AtStart(s, out[n].range.start));
    forall m | 0 <= m < |out| && m != n ensures out[m].range.start != out[n].range.start {
      assert if m < n then Earlier(out[m].range.start, out[n].range.start)
             else Earlier(out[n].range.start, out[m].range.start);
    }
  }

  /** Which kinds start at a position. */
  function KindsAt(s: seq<Classified>, k: Position): set<TokenType> {
    set t | t in s && t.range.start == k :: t.tokenType
  }

  /** Which kind wins a start: a callable's name before a type's, then a field's, then a parameter's or a variable's,
      whichever comes first, then what the lexer alone says. */
  lemma MergedKind(s: seq<Classified>, out: seq<Classified>, o: Classified)
    requires IsMerge(s, out) && o in out
    ensures var kinds := KindsAt(s, o.range.start);
            && o.tokenType in kinds
            && (Function in kinds ==> o.tokenType == Function)
            && (TypeName in kinds && Function !in kinds ==> o.tokenType == TypeName)
            && (Property in kinds && Function !in kinds && TypeName !in kinds ==> o.tokenType == Property)
            && (o.tokenType in {Keyword, Comment, StringLiteral, Number, Operator} ==>
                kinds <= {Keyword, Comment, StringLiteral, Number, Operator, Unknown})
            && (o.tokenType == Unknown ==> kinds == {Unknown})
  {
    hide IsMerge, Precedence, AtStart;
    var n := MergedHere(s, out, o);
    var i := MergedTokenMeaning(s, out, n);
    AtStartMembers(s, o.range.start);
    var here := AtStart(s, o.range.start);
    assert here[i] in here;
    var kinds := KindsAt(s, o.range.start);
    forall kind | kind in kinds ensures Precedence(kind) <= Precedence(o.tokenType) {
      var t :| t in s && t.range.start == o.range.start && t.tokenType == kind;
      assert t in here;
    }
    hide KindsAt;
    HighestKind(kinds, o.tokenType);
  }

  lemma HighestKind(kinds: set<TokenType>, best: TokenType)
    requires best in kinds && forall kind :: kind in kinds ==> Precedence(kind) <= Precedence(best)
    ensures Function in kinds ==> best == Function
    ensures TypeName in kinds && Function !in kinds ==> best == TypeName
    ensures Property in kinds && Function !in kinds && TypeName !in kinds ==> best == Property
    ensures best in {Keyword, Comment, StringLiteral, Number, Operator} ==>
              kinds <= {Keyword, Comment, StringLiteral, Number, Operator, Unknown}
    ensures best == Unknown ==> kinds == {Unknown}
  {
  }

  lemma MergedHere(s: seq<Classified>, out: seq<Classified>, o: Classified) returns (n: nat)
    requires o in out
    ensures n < |out| && out[n] == o
  {
    n :| 0 <= n < |out| && out[n] == o;
  }

  /** Among a parameter and variables of one start the first in phase order gives the kind, and every one of them its
      modifiers. */
  lemma FirstOfEqualsWins(s: seq<Classified>, out: seq<Classified>, o: Classified) returns (i: int)
    requires IsMerge(s, out) && o in out && o.tokenType in {Parameter, Variable}
    ensures var here := AtStart(s, o.range.start);
            && 0 <= i < |here| && here[i].tokenType == o.tokenType && here[i].range == o.range
            && (forall j :: 0 <= j < i ==> here[j].tokenType !in {Parameter, Variable})
            && (forall j :: 0 <= j < |here| && here[j].tokenType in {Parameter, Variable} ==>
                here[j].modifiers <= o.modifiers)
  {
    hide IsMerge;
    var n := MergedHere(s, out, o);
    i := MergedTokenMeaning(s, out, n);
    var here := AtStart(s, o.range.start);
    forall j | 0 <= j < |here| && here[j].tokenType in {Parameter, Variable}
      ensures here[j].modifiers <= o.modifiers
    {
      ModifiersHold(here, j);
    }
  }

  lemma {:induction false} ModifiersHold(s: seq<Classified>, j: nat)
    requires j < |s|
    ensures s[j].modifiers <= ModifiersOf(s, Precedence(s[j].tokenType))
  {
    if j < |s| - 1 {
      ModifiersHold(s[..|s| - 1], j);
    }
  }

  /** A start is missing from the output exactly when the token picked there is an operator with a readonly variable
      starting in the column right behind its last one, as the star before a system variable has. */
  lemma StartIsDroppedIff(s: seq<Classified>, out: seq<Classified>, t: Classified)
    requires IsMerge(s, out) && t in s
    ensures AtStart(s, t.range.start) != []
    ensures var picked := Pick(AtStart(s, t.range.start));
            (forall o :: o in out ==> o.range.start != t.range.start) <==>
              && picked.tokenType == Operator
              && exists r :: r in s && r.tokenType == Variable && Readonly in r.modifiers
                             && r.range.start.line == t.range.start.line
                             && r.range.start.column == picked.range.end.column + 1
  {
    hide Pick, AtStart;
    AtStartMembers(s, t.range.start);
    assert t in AtStart(s, t.range.start);
    PickStartsThere(s, t.range.start);
    var picked := Pick(AtStart(s, t.range.start));
    if Suppressed(s, picked) {
      var k := Position(picked.range.start.line, picked.range.end.column + 1);
      var r :| r in s && r.tokenType == Variable && Readonly in r.modifiers && r.range.start == k;
      assert r.range.start.line == t.range.start.line;
    } else {
      assert picked in out;
      if r :| r in s && r.tokenType == Variable && Readonly in r.modifiers
              && r.range.start.line == t.range.start.line && r.range.start.column == picked.range.end.column + 1
      {
        assert r.range.start == Position(picked.range.start.line, picked.range.end.column + 1);
      }
    }
  }

  /** Two merges of the same tokens are equal: the description leaves no freedom. */
  lemma MergeIsUnique(s: seq<Classified>, a: seq<Classified>, b: seq<Classified>)
    requires IsMerge(s, a) && IsMerge(s, b)
    ensures a == b
  {
    hide AtStart, Pick, Suppressed;
    forall o ensures o in a <==> o in b {
      MergeMembers(s, a, o);
      MergeMembers(s, b, o);
    }
    IncreasingIsUnique(a, b);
  }

  lemma MergeMembers(s: seq<Classified>, out: seq<Classified>, o: Classified)
    requires IsMerge(s, out)
    ensures o in out <==> AtStart(s, o.range.start) != [] && o == Pick(AtStart(s, o.range.start)) && !Suppressed(s, o)
  {
    hide Pick, Suppressed;
    var here := AtStart(s, o.range.start);
    if here != [] && o == Pick(here) && !Suppressed(s, o) {
      AtStartMembers(s, o.range.start);
      assert here[0] in here;
      assert here[0] in s;
    }
  }

  lemma {:induction false} IncreasingIsUnique(a: seq<Classified>, b: seq<Classified>)
    requires StrictlyIncreasing(a) && StrictlyIncreasing(b)
    requires forall o :: o in a <==> o in b
    ensures a == b
  {
    assert (a != [] ==> a[0] in a) && (b != [] ==> b[0] in b);
    if a != [] && b != [] {
      var x, y := a[|a| - 1], b[|b| - 1];
      assert x in b && y in a;
      var i :| 0 <= i < |b| && b[i] == x;
      var j :| 0 <= j < |a| && a[j] == y;
      assert x == y;
      var p, q := a[..|a| - 1], b[..|b| - 1];
      forall o ensures o in p <==> o in q {
        LastIsApart(a, o);
        LastIsApart(b, o);
      }
      IncreasingIsUnique(p, q);
      assert a == a[..|a| - 1] + [x] && b == b[..|b| - 1] + [y];
    }
  }

  lemma LastIsApart(a: seq<Classified>, o: Classified)
    requires a != [] && StrictlyIncreasing(a)
    ensures o in a[..|a| - 1] <==> o in a && o != a[|a| - 1]
  {
    var n := |a| - 1;
    assert a == a[..n] + [a[n]];
    if o in a[..n] {
      var i :| 0 <= i < n && a[i] == o;
      assert Earlier(a[i].range.start, a[n].range.start);
    }
  }
}
