/** Transitive INCLUDE dependents of a file (`Index.Invalidate`). */
module Invalidation {
  import opened Model
  import opened Text
  import opened Identity

  /** The file has an INCLUDE edge naming this object. */
  predicate IncludesName(fa: FileAnalysis, name: string) {
    exists e :: e in fa.edges && e.kind == Includes && Upper(e.targetName) == name
  }

  /** `dependent` directly includes the object of file `path`. */
  predicate Includes1(entries: Entries, path: string, dependent: string) {
    dependent in entries && IncludesName(entries[dependent], ObjectName(path))
  }

  /** A trail of direct inclusions, each file including the one before it. */
  ghost predicate IsTrail(entries: Entries, trail: seq<string>) {
    |trail| > 0 && forall i :: 0 < i < |trail| ==> Includes1(entries, trail[i - 1], trail[i])
  }

  /** The file includes `path` directly or through other copycodes, in one or more steps. */
  ghost predicate DependsOn(entries: Entries, path: string, dependent: string) {
    exists trail :: IsTrail(entries, trail) && |trail| > 1 && trail[0] == path && trail[|trail| - 1] == dependent
  }

  /** The path itself counts only when it directly includes its own name. */
  ghost predicate IsInvalidated(entries: Entries, path: string, dependent: string) {
    DependsOn(entries, path, dependent) && (dependent == path ==> Includes1(entries, path, path))
  }

  lemma DirectDepends(entries: Entries, path: string, d: string)
    requires Includes1(entries, path, d)
    ensures DependsOn(entries, path, d)
  {
    hide Includes1;
    assert IsTrail(entries, [path, d]);
  }

  lemma DependsStep(entries: Entries, path: string, via: string, d: string)
    requires DependsOn(entries, path, via) && Includes1(entries, via, d)
    ensures DependsOn(entries, path, d)
  {
    hide Includes1;
    var trail :| IsTrail(entries, trail) && |trail| > 1 && trail[0] == path && trail[|trail| - 1] == via;
    assert IsTrail(entries, trail + [d]);
  }

  /** A set of dependents closed under inclusion holds the end of every trail, except perhaps the path itself. */
  lemma {:induction false} ClosedHoldsTrails(entries: Entries, path: string, deps: set<string>, trail: seq<string>)
    requires forall d :: Includes1(entries, path, d) ==> d in deps
    requires forall c, d :: c in deps && Includes1(entries, c, d) ==> d in deps || d == path
    requires IsTrail(entries, trail) && |trail| > 1 && trail[0] == path
    ensures var last := trail[|trail| - 1]; last in deps || last == path
  {
    hide Includes1;
    var n := |trail| - 1;
    if n > 1 {
      assert IsTrail(entries, trail[..n]);
      ClosedHoldsTrails(entries, path, deps, trail[..n]);
    }
    assert Includes1(entries, trail[n - 1], trail[n]);
  }

  method ScanIncludes(fa: FileAnalysis, name: string) returns (found: bool)
    ensures found <==> IncludesName(fa, name)
  {
    for i := 0 to |fa.edges|
      invariant forall e :: e in fa.edges[..i] ==> !(e.kind == Includes && Upper(e.targetName) == name)
    {
      if fa.edges[i].kind == Includes && Upper(fa.edges[i].targetName) == name {
        return true;
      }
      assert fa.edges[..i + 1] == fa.edges[..i] + [fa.edges[i]];
    }
    assert fa.edges[..|fa.edges|] == fa.edges;
    return false;
  }

  /** The files outside `skip` that directly include the object of `current`; the index is walked in arbitrary order. */
  method DirectDependents(entries: Entries, current: string, skip: set<string>)
      returns (found: set<string>, order: seq<string>)
    ensures found == set d | d in entries && d !in skip && Includes1(entries, current, d)
    ensures Elements(order) == found
  {
    hide ObjectName, IncludesName;
    var name, _ := ObjectIdentity(current, Config([]));
    found, order := {}, [];
    var todo := entries.Keys;
    while todo != {}
      invariant todo <= entries.Keys
      invariant found == set d | d in entries && d !in todo && d !in skip && Includes1(entries, current, d)
      invariant Elements(order) == found
      decreases todo
    {
      var depPath :| depPath in todo;
      todo := todo - {depPath};
      if depPath !in skip {
        var hit := ScanIncludes(entries[depPath], name);
        if hit {
          ElementsAppend(order, depPath);
          found, order := found + {depPath}, order + [depPath];
        }
      }
    }
  }

  /** Breadth-first search; `visited` starts with the path, so the path is added only by the first pass. */
  method Invalidate(entries: Entries, path: string) returns (result: seq<string>)
    ensures StrictlySorted(result)
    ensures forall d :: d in result <==> IsInvalidated(entries, path, d)
  {
    hide Includes1, DependsOn, IsTrail, Less;
    var dependents, queue := DirectDependents(entries, path, {});
    var visited := {path} + dependents;
    DirectAll(entries, path, dependents);
    while |queue| > 0
      invariant dependents <= entries.Keys && visited == dependents + {path}
      invariant Elements(queue) <= dependents
      invariant forall d :: Includes1(entries, path, d) ==> d in dependents
      invariant forall c, d :: c in dependents && c !in Elements(queue) && Includes1(entries, c, d) ==> d in visited
      invariant forall d :: d in dependents ==> DependsOn(entries, path, d)
      invariant path in dependents ==> Includes1(entries, path, path)
      decreases entries.Keys - visited, |queue|
    {
      var current := queue[0];
      ghost var before := queue;
      assert current in Elements(before);
      var found, order := DirectDependents(entries, current, visited);
      queue := queue[1..] + order;
      QueueMoves(before, order);
      forall d | d in found ensures DependsOn(entries, path, d) {
        DependsStep(entries, path, current, d);
      }
      IncludesIndexed(entries, current);
      assert order != [] ==> order[0] in found;
      assert found != {} ==> entries.Keys - (visited + found) < entries.Keys - visited by {
        if found != {} {
          var x :| x in found;
          assert x in entries.Keys - visited;
        }
      }
      dependents, visited := dependents + found, visited + found;
    }
    result := SortSet(dependents);
    forall d | IsInvalidated(entries, path, d) ensures d in dependents {
      InvalidatedIsClosed(entries, path, dependents, d);
    }
    forall d ensures d in result <==> d in dependents {
      assert d in result <==> d in Elements(result);
    }
  }

  lemma IncludesIndexed(entries: Entries, path: string)
    ensures forall d :: Includes1(entries, path, d) ==> d in entries
  {
  }

  lemma DirectAll(entries: Entries, path: string, direct: set<string>)
    requires direct == set d | d in entries && d !in {} && Includes1(entries, path, d)
    ensures forall d :: Includes1(entries, path, d) ==> d in direct
    ensures forall d :: d in direct ==> DependsOn(entries, path, d) && d in entries
  {
    hide DependsOn;
    forall d | d in direct ensures DependsOn(entries, path, d) {
      DirectDepends(entries, path, d);
    }
  }

  lemma QueueMoves(queue: seq<string>, order: seq<string>)
    requires queue != []
    ensures Elements(queue[1..] + order) <= Elements(queue) + Elements(order)
    ensures forall x :: x in Elements(queue) && x != queue[0] ==> x in Elements(queue[1..] + order)
    ensures Elements(order) <= Elements(queue[1..] + order)
  {
    assert queue == [queue[0]] + queue[1..];
  }

  lemma InvalidatedIsClosed(entries: Entries, path: string, deps: set<string>, d: string)
    requires forall x :: Includes1(entries, path, x) ==> x in deps
    requires forall c, x :: c in deps && Includes1(entries, c, x) ==> x in deps || x == path
    requires IsInvalidated(entries, path, d)
    ensures d in deps
  {
    hide Includes1;
    var trail :| IsTrail(entries, trail) && |trail| > 1 && trail[0] == path && trail[|trail| - 1] == d;
    ClosedHoldsTrails(entries, path, deps, trail);
  }

  method SortSet(s: set<string>) returns (r: seq<string>)
    ensures StrictlySorted(r) && Elements(r) == s
  {
    r := [];
    var todo := s;
    while todo != {}
      invariant todo <= s && StrictlySorted(r) && Elements(r) == s - todo
      decreases todo
    {
      var x :| x in todo;
      assert x !in Elements(r);
      InsertKeepsSorted(r, x);
      r, todo := InsertSorted(r, x), todo - {x};
    }
  }
}
