/** Find-references as the inverse of resolution (`referenceSites`, `edgeMatchesTarget` in
    internal/server/references.go). */
module References {
  import opened Model
  import opened Text
  import opened Identity
  import opened NameIndex
  import opened Resolution

  type Sites = map<SiteKey, Resolution>

  /** Backslashes become slashes. */
  function NormalizeKey(path: string): string {
    seq(|path|, i requires 0 <= i < |path| => if path[i] == '\\' then '/' else path[i])
  }

  /** No two indexed keys differ only in separators; the index keeps every key normalized. */
  ghost predicate DistinctKeys(paths: set<string>) {
    forall p, q :: p in paths && q in paths && NormalizeKey(p) == NormalizeKey(q) ==> p == q
  }

  predicate EdgeMatchesTarget(r: Resolution, targetPath: string, targetType: ObjectType) {
    && r.Resolved?
    && NormalizeKey(r.path) == NormalizeKey(targetPath)
    && (targetType != NoType ==> r.objectType == targetType)
  }

  predicate IsReference(edge: Edge, filePath: string, sites: Sites, targetPath: string, targetType: ObjectType) {
    var key := SiteKey(filePath, edge.source);
    key in sites && EdgeMatchesTarget(sites[key], targetPath, targetType)
  }

  predicate IsResolvedEdge(edge: Edge, filePath: string, sites: Sites) {
    var key := SiteKey(filePath, edge.source);
    key in sites && sites[key].Resolved?
  }

  function ReferencesIn(edges: seq<Edge>, filePath: string, sites: Sites, targetPath: string,
      targetType: ObjectType): seq<SiteKey> {
    if edges == [] then []
    else
      var n := |edges| - 1;
      ReferencesIn(edges[..n], filePath, sites, targetPath, targetType)
        + if IsReference(edges[n], filePath, sites, targetPath, targetType) then [SiteKey(filePath, edges[n].source)]
        else []
  }

  /** The edge sites found for a target over a list of files. */
  function ReferencesOver(files: seq<string>, entries: Entries, sites: Sites, targetPath: string,
      targetType: ObjectType): seq<SiteKey>
    requires forall p :: p in files ==> p in entries
  {
    if files == [] then []
    else
      var n := |files| - 1;
      ReferencesOver(files[..n], entries, sites, targetPath, targetType)
        + ReferencesIn(entries[files[n]].edges, files[n], sites, targetPath, targetType)
  }

  method ScanFile(filePath: string, edges: seq<Edge>, res: ResolutionSet, targetPath: string, targetType: ObjectType)
    returns (found: seq<SiteKey>)
    ensures found == ReferencesIn(edges, filePath, res.entries, targetPath, targetType)
  {
    found := [];
    for i := 0 to |edges|
      invariant found == ReferencesIn(edges[..i], filePath, res.entries, targetPath, targetType)
    {
      assert edges[..i + 1][..i] == edges[..i];
      var resolution := res.Lookup(filePath, edges[i].source);
      if resolution.Some? && EdgeMatchesTarget(resolution.value, targetPath, targetType) {
        found := found + [SiteKey(filePath, edges[i].source)];
      }
    }
    assert edges[..|edges|] == edges;
  }

  /** The sites found walking each of the files `done` once, in the order of `files`. */
  ghost predicate IsSweep(locations: seq<SiteKey>, files: seq<string>, done: set<string>, entries: Entries,
      sites: Sites,
      targetPath: string, targetType: ObjectType) {
    && Elements(files) == done && |files| == |done| && done <= entries.Keys
    && (forall p :: p in files ==> p in entries)
    && locations == ReferencesOver(files, entries, sites, targetPath, targetType)
  }

  lemma {:induction false} SweepOneMore(locations: seq<SiteKey>, files: seq<string>, done: set<string>,
      entries: Entries,
      sites: Sites, targetPath: string, targetType: ObjectType, p: string)
    requires IsSweep(locations, files, done, entries, sites, targetPath, targetType) && p in entries && p !in done
    ensures IsSweep(locations + ReferencesIn(entries[p].edges, p, sites, targetPath, targetType), files + [p],
                    done + {p},
                    entries, sites, targetPath, targetType)
  {
    hide ReferencesIn;
    ElementsAppend(files, p);
    assert (files + [p])[..|files|] == files;
  }

  lemma NothingSwept(entries: Entries, sites: Sites, targetPath: string, targetType: ObjectType)
    ensures IsSweep([], [], {}, entries, sites, targetPath, targetType)
  {
  }

  /** The sweep walks the whole index, each file once, in an arbitrary order. */
  method ReferenceSites(idx: Index, res: ResolutionSet, targetPath: string, targetType: ObjectType)
    returns (locations: seq<SiteKey>)
    ensures exists files :: IsSweep(locations, files, idx.entries.Keys, idx.entries, res.entries, targetPath,
                                    targetType)
  {
    hide ReferencesIn, IsSweep;
    locations := [];
    ghost var files: seq<string>, done: set<string> := [], {};
    NothingSwept(idx.entries, res.entries, targetPath, targetType);
    var todo := idx.entries.Keys;
    while todo != {}
      invariant todo <= idx.entries.Keys && done == idx.entries.Keys - todo
      invariant IsSweep(locations, files, done, idx.entries, res.entries, targetPath, targetType)
      decreases todo
    {
      var filePath :| filePath in todo;
      var found := ScanFile(filePath, idx.entries[filePath].edges, res, targetPath, targetType);
      SweepOneMore(locations, files, done, idx.entries, res.entries, targetPath, targetType, filePath);
      locations := locations + found;
      files, done, todo := files + [filePath], done + {filePath}, todo - {filePath};
    }
    assert done == idx.entries.Keys;
  }

  // ----- Every resolved site belongs to exactly one target -----

  function SumOverTargets(targets: seq<string>, files: seq<string>, entries: Entries, sites: Sites, typed: bool): nat
    requires forall p :: p in files ==> p in entries
    requires forall t :: t in targets ==> t in entries
  {
    if targets == [] then 0
    else
      var n := |targets| - 1;
      assert targets[n] in targets;
      SumOverTargets(targets[..n], files, entries, sites, typed)
        + |ReferencesOver(files, entries, sites, targets[n], if typed then entries[targets[n]].objectType else NoType)|
  }

  /** Edges of a file whose resolution points into a set of paths. */
  function CountInto(edges: seq<Edge>, filePath: string, sites: Sites, paths: set<string>): nat {
    if edges == [] then 0
    else
      var n := |edges| - 1;
      CountInto(edges[..n], filePath, sites, paths)
        + if IsResolvedEdge(edges[n], filePath, sites) && sites[SiteKey(filePath, edges[n].source)].path in paths then 1
        else 0
  }

  function CountIntoOver(files: seq<string>, entries: Entries, sites: Sites, paths: set<string>): nat
    requires forall p :: p in files ==> p in entries
  {
    if files == [] then 0
    else
      var n := |files| - 1;
      CountIntoOver(files[..n], entries, sites, paths) + CountInto(entries[files[n]].edges, files[n], sites, paths)
  }

  function CountResolved(edges: seq<Edge>, filePath: string, sites: Sites): nat {
    if edges == [] then 0
    else CountResolved(edges[..|edges| - 1], filePath, sites)
           + if IsResolvedEdge(edges[|edges| - 1], filePath, sites) then 1 else 0
  }

  /** Number of edges, over a list of files, whose resolution is Resolved. */
  function CountResolvedOver(files: seq<string>, entries: Entries, sites: Sites): nat
    requires forall p :: p in files ==> p in entries
  {
    if files == [] then 0
    else CountResolvedOver(files[..|files| - 1], entries, sites)
           + CountResolved(entries[files[|files| - 1]].edges, files[|files| - 1], sites)
  }

  /** Resolved sites point at indexed objects and carry their types. */
  ghost predicate PointsIntoIndex(entries: Entries, sites: Sites) {
    forall k :: k in sites && sites[k].Resolved? ==>
      sites[k].path in entries && sites[k].objectType == entries[sites[k].path].objectType
  }

  lemma {:induction false} OneMoreTargetInFile(edges: seq<Edge>, filePath: string, entries: Entries, sites: Sites,
      paths: set<string>, t: string, typed: bool)
    requires PointsIntoIndex(entries, sites) && DistinctKeys(entries.Keys)
    requires t in entries && t !in paths
    ensures CountInto(edges, filePath, sites, paths + {t}) == CountInto(edges, filePath, sites, paths)
          + |ReferencesIn(edges, filePath, sites, t, if typed then entries[t].objectType else NoType)|
  {
    hide NormalizeKey;
    if edges != [] {
      OneMoreTargetInFile(edges[..|edges| - 1], filePath, entries, sites, paths, t, typed);
    }
  }

  lemma {:induction false} OneMoreTarget(files: seq<string>, entries: Entries, sites: Sites, paths: set<string>,
      t: string, typed: bool)
    requires forall p :: p in files ==> p in entries
    requires PointsIntoIndex(entries, sites) && DistinctKeys(entries.Keys)
    requires t in entries && t !in paths
    ensures CountIntoOver(files, entries, sites, paths + {t}) == CountIntoOver(files, entries, sites, paths)
          + |ReferencesOver(files, entries, sites, t, if typed then entries[t].objectType else NoType)|
  {
    hide NormalizeKey, CountInto, ReferencesIn, PointsIntoIndex, DistinctKeys;
    if files != [] {
      var n := |files| - 1;
      OneMoreTarget(files[..n], entries, sites, paths, t, typed);
      OneMoreTargetInFile(entries[files[n]].edges, files[n], entries, sites, paths, t, typed);
    }
  }

  ghost predicate Distinct(s: seq<string>) {
    forall i, j :: 0 <= i < j < |s| ==> s[i] != s[j]
  }

  lemma {:induction false} SumIsCountInto(targets: seq<string>, files: seq<string>, entries: Entries, sites: Sites,
      typed: bool)
    requires forall p :: p in files ==> p in entries
    requires forall t :: t in targets ==> t in entries
    requires Distinct(targets) && PointsIntoIndex(entries, sites) && DistinctKeys(entries.Keys)
    ensures SumOverTargets(targets, files, entries, sites, typed)
              == CountIntoOver(files, entries, sites, Elements(targets))
  {
    hide NormalizeKey, CountIntoOver, ReferencesOver, PointsIntoIndex, DistinctKeys;
    if targets == [] {
      assert Elements(targets) == {};
      NoneInto(files, entries, sites);
    } else {
      var n := |targets| - 1;
      SumIsCountInto(targets[..n], files, entries, sites, typed);
      assert targets == targets[..n] + [targets[n]];
      ElementsAppend(targets[..n], targets[n]);
      assert forall i :: 0 <= i < n ==> targets[..n][i] != targets[n];
      OneMoreTarget(files, entries, sites, Elements(targets[..n]), targets[n], typed);
    }
  }

  lemma {:induction false} NoneInto(files: seq<string>, entries: Entries, sites: Sites)
    requires forall p :: p in files ==> p in entries
    ensures CountIntoOver(files, entries, sites, {}) == 0
  {
    if files != [] {
      NoneInto(files[..|files| - 1], entries, sites);
      NoneIntoFile(entries[files[|files| - 1]].edges, files[|files| - 1], sites);
    }
  }

  lemma {:induction false} NoneIntoFile(edges: seq<Edge>, filePath: string, sites: Sites)
    ensures CountInto(edges, filePath, sites, {}) == 0
  {
    if edges != [] {
      NoneIntoFile(edges[..|edges| - 1], filePath, sites);
    }
  }

  lemma {:induction false} AllIntoFile(edges: seq<Edge>, filePath: string, entries: Entries, sites: Sites)
    requires PointsIntoIndex(entries, sites)
    ensures CountInto(edges, filePath, sites, entries.Keys) == CountResolved(edges, filePath, sites)
  {
    if edges != [] {
      AllIntoFile(edges[..|edges| - 1], filePath, entries, sites);
    }
  }

  lemma {:induction false} AllInto(files: seq<string>, entries: Entries, sites: Sites)
    requires forall p :: p in files ==> p in entries
    requires PointsIntoIndex(entries, sites)
    ensures CountIntoOver(files, entries, sites, entries.Keys) == CountResolvedOver(files, entries, sites)
  {
    hide CountInto, CountResolved;
    if files != [] {
      AllInto(files[..|files| - 1], entries, sites);
      AllIntoFile(entries[files[|files| - 1]].edges, files[|files| - 1], entries, sites);
    }
  }

  /** Summed over every indexed target, the reference sites are exactly the resolved edges: no site is lost and
      none is reported for two targets, whether the target's type is asked for or not. */
  lemma ReferencesInvertResolution(targets: seq<string>, files: seq<string>, entries: Entries, cfg: Config, typed: bool)
    requires Distinct(targets) && Elements(targets) == entries.Keys
    requires forall p :: p in files ==> p in entries
    requires DistinctKeys(entries.Keys)
    ensures (forall t :: t in targets ==> t in entries)
    ensures SumOverTargets(targets, files, entries, FullBindings(entries, cfg).sites, typed)
         == CountResolvedOver(files, entries, FullBindings(entries, cfg).sites)
  {
    hide NormalizeKey, FullBindings, SumOverTargets, CountResolvedOver, DistinctKeys, Distinct;
    var sites := FullBindings(entries, cfg).sites;
    assert forall t :: t in targets ==> t in Elements(targets);
    assert PointsIntoIndex(entries, sites) by {
      forall k | k in sites && sites[k].Resolved?
        ensures sites[k].path in entries && sites[k].objectType == entries[sites[k].path].objectType
      {
        ResolvedSiteIsIndexed(entries, cfg, k);
      }
    }
    SumIsCountInto(targets, files, entries, sites, typed);
    AllInto(files, entries, sites);
  }
}
