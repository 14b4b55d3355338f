/** Binding of edges to definitions, in full and incrementally (internal/workspace/resolution.go). */
module Resolution {
  import opened Model
  import opened Text
  import opened Identity
  import opened NameIndex

  datatype UnresolvedReason = NoTarget | Dynamic

  datatype Resolution =
    | Unresolved(reason: UnresolvedReason)
    | Resolved(path: string, objectType: ObjectType)
    | Ambiguous(candidates: seq<string>)

  datatype SiteKey = SiteKey(filePath: string, source: Range)

  /** What binding one edge yields: the resolution and, for an ambiguity, the warning appended to the file. */
  datatype Outcome = Outcome(resolution: Resolution, warnings: seq<Diagnostic>)

  const NOT_FOUND := Outcome(Unresolved(NoTarget), [])

  function SortStrings(s: seq<string>): seq<string> {
    if s == [] then [] else InsertSorted(SortStrings(s[..|s| - 1]), s[|s| - 1])
  }

  function AmbiguityMessage(targetName: string, candidates: seq<string>): string {
    "ambiguous reference '" + targetName + "': matches " + Join(SortStrings(candidates), ", ")
  }

  function FromCandidate(found: Option<Candidate>): Outcome {
    if found.Some? then Outcome(Resolved(found.value.path, found.value.objectType), []) else NOT_FOUND
  }

  function Flat(targetName: string, edge: Edge, candidates: seq<Candidate>): Outcome {
    if |candidates| == 0 then NOT_FOUND
    else if |candidates| == 1 then FromCandidate(Some(candidates[0]))
    else
      var paths := SortStrings(PathsOf(candidates));
      Outcome(Ambiguous(paths), [AmbiguityWarning(AmbiguityMessage(targetName, paths), edge.source)])
  }

  /** Explicit library, then steplib chain, then flat namespace. */
  function ByName(targetName: string, typ: ObjectType, filePath: string, edge: Edge, names: NameMap,
      cfg: Config): Outcome {
    if Upper(targetName) == "" then NOT_FOUND
    else
      var candidates := FilterByType(BucketIn(names, Upper(targetName)), typ);
      if edge.library != "" then FromCandidate(FirstInLibrary(candidates, edge.library))
      else if ChainOf(filePath, cfg) != [] then FromCandidate(ViaChain(candidates, ChainOf(filePath, cfg)))
      else Flat(targetName, edge, candidates)
  }

  const DATA_AREA_TYPES := [LocalDataArea, ParameterDataArea, GlobalDataArea]

  function ByDataArea(types: seq<ObjectType>, filePath: string, edge: Edge, names: NameMap, cfg: Config): Outcome {
    if types == [] then NOT_FOUND
    else
      var first := ByName(edge.targetName, types[0], filePath, edge, names, cfg);
      if first.resolution.Unresolved? then ByDataArea(types[1..], filePath, edge, names, cfg) else first
  }

  function EdgeOutcome(edge: Edge, filePath: string, fileType: ObjectType, names: NameMap, cfg: Config): Outcome {
    match edge.kind
    case CallsDynamic => Outcome(Unresolved(Dynamic), [])
    case NavigatesToDynamic => Outcome(Unresolved(Dynamic), [])
    case Performs =>
      if edge.target != ZERO_RANGE then Outcome(Resolved(filePath, fileType), [])
      else ByName(edge.targetName, ExternalSubroutine, filePath, edge, names, cfg)
    case Calls => ByName(edge.targetName, Subprogram, filePath, edge, names, cfg)
    case NavigatesTo => ByName(edge.targetName, Program, filePath, edge, names, cfg)
    case Includes => ByName(edge.targetName, Copycode, filePath, edge, names, cfg)
    case UsesDataArea => ByDataArea(DATA_AREA_TYPES, filePath, edge, names, cfg)
    case Reads => NOT_FOUND
    case Writes => NOT_FOUND
  }

  /** The contents of a resolution set. */
  datatype Bindings = Bindings(sites: map<SiteKey, Resolution>, warnings: map<string, seq<Diagnostic>>)

  const NO_BINDINGS := Bindings(map[], map[])

  /** Sites of one file; of two edges with one source range the later wins. */
  function FileSites(edges: seq<Edge>, filePath: string, fileType: ObjectType, names: NameMap,
      cfg: Config): (r: map<SiteKey, Resolution>)
    ensures forall k :: k in r ==> k.filePath == filePath
  {
    if edges == [] then map[]
    else
      var last := edges[|edges| - 1];
      FileSites(edges[..|edges| - 1], filePath, fileType, names, cfg)
        [SiteKey(filePath, last.source) := EdgeOutcome(last, filePath, fileType, names, cfg).resolution]
  }

  function FileWarnings(edges: seq<Edge>, filePath: string, fileType: ObjectType, names: NameMap,
      cfg: Config): seq<Diagnostic> {
    if edges == [] then []
    else
      FileWarnings(edges[..|edges| - 1], filePath, fileType, names, cfg)
        + EdgeOutcome(edges[|edges| - 1], filePath, fileType, names, cfg).warnings
  }

  function SitesAt(p: string, entries: Entries, names: NameMap, cfg: Config): (r: map<SiteKey, Resolution>)
    requires p in entries
    ensures forall k :: k in r ==> k.filePath == p
  {
    FileSites(entries[p].edges, p, entries[p].objectType, names, cfg)
  }

  function WarningsAt(p: string, entries: Entries, names: NameMap, cfg: Config): seq<Diagnostic>
    requires p in entries
  {
    FileWarnings(entries[p].edges, p, entries[p].objectType, names, cfg)
  }

  ghost function SiteKeys(files: set<string>, entries: Entries, names: NameMap, cfg: Config): (r: set<SiteKey>)
    requires files <= entries.Keys
    ensures forall k :: k in r <==> k.filePath in files && k in SitesAt(k.filePath, entries, names, cfg)
  {
    set p, k | p in files && k in SitesAt(p, entries, names, cfg) :: k
  }

  /** The bindings of a set of indexed files. */
  ghost function BindingsOf(files: set<string>, entries: Entries, names: NameMap, cfg: Config): Bindings
    requires files <= entries.Keys
  {
    Bindings(
      map k | k in SiteKeys(files, entries, names, cfg) :: SitesAt(k.filePath, entries, names, cfg)[k],
      map p | p in files && WarningsAt(p, entries, names, cfg) != [] :: WarningsAt(p, entries, names, cfg))
  }

  /** What `Resolve` computes for an index state. */
  ghost function FullBindings(entries: Entries, cfg: Config): Bindings {
    BindingsOf(entries.Keys, entries, NameMapOf(entries, cfg), cfg)
  }

  ghost function Merge(a: Bindings, b: Bindings): Bindings {
    Bindings(a.sites + b.sites, a.warnings + b.warnings)
  }

  ghost function Without(a: Bindings, files: set<string>): Bindings {
    Bindings(map k | k in a.sites && k.filePath !in files :: a.sites[k],
             map p | p in a.warnings && p !in files :: a.warnings[p])
  }

  function ChangedNames(entries: Entries, changed: seq<string>): set<string> {
    set p | p in changed && p in entries :: ObjectName(p)
  }

  predicate Mentions(fa: FileAnalysis, objectNames: set<string>) {
    exists e :: e in fa.edges && Upper(e.targetName) in objectNames
  }

  /** The changed paths and every file with an edge naming a changed object. */
  ghost function Affected(entries: Entries, changed: seq<string>): set<string> {
    Elements(changed) + set p | p in entries && Mentions(entries[p], ChangedNames(entries, changed))
  }

  /** What `ResolveInto` computes from earlier bindings. */
  ghost function IncrementalBindings(before: Bindings, entries: Entries, cfg: Config, changed: seq<string>): Bindings {
    if changed == [] then before
    else
      var affected := Affected(entries, changed);
      Merge(Without(before, affected), BindingsOf(affected * entries.Keys, entries, NameMapOf(entries, cfg), cfg))
  }

  // ----- Incremental equals full -----

  /** The later index state is the earlier one with entries stored at the changed paths; none is removed. */
  ghost predicate OnlyAdds(before: Entries, after: Entries, changed: seq<string>) {
    && before.Keys <= after.Keys
    && forall p :: p in after && p !in changed ==> p in before && before[p] == after[p]
  }

  lemma UntouchedNameKeepsBucket(name: string, before: Entries, after: Entries, cfg: Config, changed: seq<string>)
    requires OnlyAdds(before, after, changed)
    requires name !in ChangedNames(after, changed)
    ensures Bucket(name, before, cfg) == Bucket(name, after, cfg)
  {
    hide ObjectName, OwningLibrary;
    forall p ensures p in PathsNamed(name, before) <==> p in PathsNamed(name, after) {
      if p in changed && p in after {
        assert ObjectName(p) in ChangedNames(after, changed);
      }
    }
    assert PathsNamed(name, before) == PathsNamed(name, after);
  }

  lemma ByNameDependsOnBucket(typ: ObjectType, edge: Edge, filePath: string, a: NameMap, b: NameMap, cfg: Config)
    requires BucketIn(a, Upper(edge.targetName)) == BucketIn(b, Upper(edge.targetName))
    ensures ByName(edge.targetName, typ, filePath, edge, a, cfg) == ByName(edge.targetName, typ, filePath, edge, b, cfg)
  {
    hide ChainOf, BucketIn, FilterByType, Upper, Flat;
  }

  lemma {:induction false} DataAreaDependsOnBucket(types: seq<ObjectType>, edge: Edge, filePath: string, a: NameMap,
      b: NameMap, cfg: Config)
    requires BucketIn(a, Upper(edge.targetName)) == BucketIn(b, Upper(edge.targetName))
    ensures ByDataArea(types, filePath, edge, a, cfg) == ByDataArea(types, filePath, edge, b, cfg)
  {
    hide ByName, BucketIn, Upper;
    if types != [] {
      ByNameDependsOnBucket(types[0], edge, filePath, a, b, cfg);
      DataAreaDependsOnBucket(types[1..], edge, filePath, a, b, cfg);
    }
  }

  lemma OutcomeDependsOnBucket(edge: Edge, filePath: string, fileType: ObjectType, a: NameMap, b: NameMap, cfg: Config)
    requires BucketIn(a, Upper(edge.targetName)) == BucketIn(b, Upper(edge.targetName))
    ensures EdgeOutcome(edge, filePath, fileType, a, cfg) == EdgeOutcome(edge, filePath, fileType, b, cfg)
  {
    hide ByName, ByDataArea, BucketIn, Upper;
    ByNameDependsOnBucket(ExternalSubroutine, edge, filePath, a, b, cfg);
    ByNameDependsOnBucket(Subprogram, edge, filePath, a, b, cfg);
    ByNameDependsOnBucket(Program, edge, filePath, a, b, cfg);
    ByNameDependsOnBucket(Copycode, edge, filePath, a, b, cfg);
    DataAreaDependsOnBucket(DATA_AREA_TYPES, edge, filePath, a, b, cfg);
  }

  lemma {:induction false} FileDependsOnBuckets(edges: seq<Edge>, filePath: string, fileType: ObjectType, a: NameMap,
      b: NameMap, cfg: Config)
    requires forall e :: e in edges ==> BucketIn(a, Upper(e.targetName)) == BucketIn(b, Upper(e.targetName))
    ensures FileSites(edges, filePath, fileType, a, cfg) == FileSites(edges, filePath, fileType, b, cfg)
    ensures FileWarnings(edges, filePath, fileType, a, cfg) == FileWarnings(edges, filePath, fileType, b, cfg)
  {
    hide EdgeOutcome, BucketIn, Upper;
    if edges != [] {
      var n := |edges| - 1;
      assert edges[n] in edges;
      OutcomeDependsOnBucket(edges[n], filePath, fileType, a, b, cfg);
      FileDependsOnBuckets(edges[..n], filePath, fileType, a, b, cfg);
    }
  }

  /** A file outside the affected set binds as it did before. */
  lemma UnaffectedFileKeepsBindings(p: string, before: Entries, after: Entries, cfg: Config, changed: seq<string>)
    requires OnlyAdds(before, after, changed)
    requires p in after && p !in Affected(after, changed)
    ensures p in before
    ensures SitesAt(p, before, NameMapOf(before, cfg), cfg) == SitesAt(p, after, NameMapOf(after, cfg), cfg)
    ensures WarningsAt(p, before, NameMapOf(before, cfg), cfg) == WarningsAt(p, after, NameMapOf(after, cfg), cfg)
  {
    hide NameMapOf, ObjectName, OwningLibrary, FileSites, FileWarnings, Upper, ChangedNames;
    assert p !in changed && before[p] == after[p];
    var a, b := NameMapOf(before, cfg), NameMapOf(after, cfg);
    forall e | e in after[p].edges ensures BucketIn(a, Upper(e.targetName)) == BucketIn(b, Upper(e.targetName)) {
      var name := Upper(e.targetName);
      assert name !in ChangedNames(after, changed);
      UntouchedNameKeepsBucket(name, before, after, cfg, changed);
      BucketInNameMap(name, before, cfg);
      BucketInNameMap(name, after, cfg);
    }
    FileDependsOnBuckets(after[p].edges, p, after[p].objectType, a, b, cfg);
  }

  /** Bindings are kept per file: those of a union are the merge of those of its parts. */
  lemma {:induction false} BindingsOfUnion(x: set<string>, y: set<string>, entries: Entries, names: NameMap,
      cfg: Config)
    requires x <= entries.Keys && y <= entries.Keys && x !! y
    ensures Merge(BindingsOf(x, entries, names, cfg), BindingsOf(y, entries, names, cfg))
              == BindingsOf(x + y, entries, names, cfg)
  {
    hide SitesAt, WarningsAt, SiteKeys;
    SitesOfUnion(x, y, entries, names, cfg);
    WarningsOfUnion(x, y, entries, names, cfg);
    hide BindingsOf;
  }

  lemma {:induction false} SitesOfUnion(x: set<string>, y: set<string>, entries: Entries, names: NameMap, cfg: Config)
    requires x <= entries.Keys && y <= entries.Keys && x !! y
    ensures BindingsOf(x, entries, names, cfg).sites + BindingsOf(y, entries, names, cfg).sites
              == BindingsOf(x + y, entries, names, cfg).sites
  {
    hide SitesAt, WarningsAt, SiteKeys;
  }

  lemma {:induction false} WarningsOfUnion(x: set<string>, y: set<string>, entries: Entries, names: NameMap,
      cfg: Config)
    requires x <= entries.Keys && y <= entries.Keys && x !! y
    ensures BindingsOf(x, entries, names, cfg).warnings + BindingsOf(y, entries, names, cfg).warnings
              == BindingsOf(x + y, entries, names, cfg).warnings
  {
    hide SitesAt, WarningsAt, SiteKeys;
  }

  lemma {:induction false} WithoutKeepsTheRest(x: set<string>, gone: set<string>, entries: Entries, names: NameMap,
      cfg: Config)
    requires x <= entries.Keys
    ensures Without(BindingsOf(x, entries, names, cfg), gone) == BindingsOf(x - gone, entries, names, cfg)
  {
    hide SitesAt, WarningsAt, SiteKeys;
    var left, rest := Without(BindingsOf(x, entries, names, cfg), gone), BindingsOf(x - gone, entries, names, cfg);
    assert left.sites == rest.sites;
    assert left.warnings == rest.warnings;
  }

  lemma {:induction false} SameFilesSameBindings(x: set<string>, before: Entries, after: Entries, a: NameMap,
      b: NameMap, cfg: Config)
    requires x <= before.Keys && x <= after.Keys
    requires forall p :: p in x ==> SitesAt(p, before, a, cfg) == SitesAt(p, after, b, cfg)
    requires forall p :: p in x ==> WarningsAt(p, before, a, cfg) == WarningsAt(p, after, b, cfg)
    ensures BindingsOf(x, before, a, cfg) == BindingsOf(x, after, b, cfg)
  {
    hide SitesAt, WarningsAt, SiteKeys;
    assert BindingsOf(x, before, a, cfg).sites == BindingsOf(x, after, b, cfg).sites;
    assert BindingsOf(x, before, a, cfg).warnings == BindingsOf(x, after, b, cfg).warnings;
  }

  /** Re-resolving only the affected files gives what resolving everything gives: bindings and warnings. */
  lemma IncrementalEqualsFull(before: Entries, after: Entries, cfg: Config, changed: seq<string>)
    requires OnlyAdds(before, after, changed)
    ensures IncrementalBindings(FullBindings(before, cfg), after, cfg, changed) == FullBindings(after, cfg)
  {
    hide NameMapOf, SitesAt, WarningsAt, Affected, BindingsOf, Without, Merge;
    if changed == [] {
      assert before == after;
    } else {
      var affected := Affected(after, changed);
      var a, b := NameMapOf(before, cfg), NameMapOf(after, cfg);
      AffectedHasChanged(after, changed);
      forall p | p in after.Keys - affected
        ensures p in before
        ensures SitesAt(p, before, a, cfg) == SitesAt(p, after, b, cfg)
        ensures WarningsAt(p, before, a, cfg) == WarningsAt(p, after, b, cfg)
      {
        UnaffectedFileKeepsBindings(p, before, after, cfg, changed);
      }
      assert before.Keys - affected == after.Keys - affected;
      WithoutKeepsTheRest(before.Keys, affected, before, a, cfg);
      SameFilesSameBindings(after.Keys - affected, before, after, a, b, cfg);
      BindingsOfUnion(after.Keys - affected, affected * after.Keys, after, b, cfg);
      assert (after.Keys - affected) + affected * after.Keys == after.Keys;
    }
  }

  lemma AffectedHasChanged(entries: Entries, changed: seq<string>)
    ensures forall p :: p in changed ==> p in Affected(entries, changed)
  {
  }

  // ----- Where a resolved edge points -----

  /** A candidate list holding only current entries of one type. */
  ghost predicate Indexed(candidates: seq<Candidate>, typ: ObjectType, entries: Entries) {
    forall c :: c in candidates ==> c.path in entries && c.objectType == typ == entries[c.path].objectType
  }

  lemma BucketIsIndexed(name: string, typ: ObjectType, entries: Entries, cfg: Config)
    ensures Indexed(FilterByType(BucketIn(NameMapOf(entries, cfg), name), typ), typ, entries)
  {
    hide ObjectName, OwningLibrary, NameMapOf;
    BucketInNameMap(name, entries, cfg);
    var bucket := Bucket(name, entries, cfg);
    forall c | c in FilterByType(bucket, typ)
      ensures c.path in entries && c.objectType == typ == entries[c.path].objectType {
      FilterByTypeMembers(bucket, typ, c);
      ListingMembers(PathsNamed(name, entries), entries, cfg, c);
    }
  }

  lemma ByNameIsIndexed(targetName: string, typ: ObjectType, filePath: string, edge: Edge, entries: Entries,
      cfg: Config)
    ensures var r := ByName(targetName, typ, filePath, edge, NameMapOf(entries, cfg), cfg).resolution;
            r.Resolved? ==> r.path in entries && r.objectType == typ == entries[r.path].objectType
  {
    hide ObjectName, OwningLibrary, NameMapOf, Upper, ChainOf;
    var candidates := FilterByType(BucketIn(NameMapOf(entries, cfg), Upper(targetName)), typ);
    BucketIsIndexed(Upper(targetName), typ, entries, cfg);
    FirstInLibraryPicks(candidates, edge.library);
    ViaChainIsEarliest(candidates, ChainOf(filePath, cfg));
  }

  lemma {:induction false} ByDataAreaIsIndexed(types: seq<ObjectType>, filePath: string, edge: Edge,
      entries: Entries, cfg: Config)
    ensures var r := ByDataArea(types, filePath, edge, NameMapOf(entries, cfg), cfg).resolution;
            r.Resolved? ==> r.path in entries && r.objectType == entries[r.path].objectType
  {
    hide ByName, NameMapOf;
    if types != [] {
      ByNameIsIndexed(edge.targetName, types[0], filePath, edge, entries, cfg);
      ByDataAreaIsIndexed(types[1..], filePath, edge, entries, cfg);
    }
  }

  /** A resolved edge points at an indexed object and carries that object's type. */
  lemma ResolvedIsIndexed(edge: Edge, p: string, entries: Entries, cfg: Config)
    requires p in entries
    ensures var r := EdgeOutcome(edge, p, entries[p].objectType, NameMapOf(entries, cfg), cfg).resolution;
            r.Resolved? ==> r.path in entries && r.objectType == entries[r.path].objectType
  {
    hide ByName, ByDataArea, NameMapOf;
    ByNameIsIndexed(edge.targetName, ExternalSubroutine, p, edge, entries, cfg);
    ByNameIsIndexed(edge.targetName, Subprogram, p, edge, entries, cfg);
    ByNameIsIndexed(edge.targetName, Program, p, edge, entries, cfg);
    ByNameIsIndexed(edge.targetName, Copycode, p, edge, entries, cfg);
    ByDataAreaIsIndexed(DATA_AREA_TYPES, p, edge, entries, cfg);
  }

  /** Every site of a file carries the outcome of one of its edges, the last with that source range. */
  lemma {:induction false} SiteHasEdge(edges: seq<Edge>, filePath: string, fileType: ObjectType, names: NameMap,
      cfg: Config, key: SiteKey)
    returns (i: nat)
    requires key in FileSites(edges, filePath, fileType, names, cfg)
    ensures i < |edges| && edges[i].source == key.source
    ensures FileSites(edges, filePath, fileType, names, cfg)[key]
              == EdgeOutcome(edges[i], filePath, fileType, names, cfg).resolution
    ensures forall j :: i < j < |edges| ==> edges[j].source != key.source
  {
    hide EdgeOutcome;
    var n := |edges| - 1;
    if edges[n].source == key.source {
      i := n;
    } else {
      i := SiteHasEdge(edges[..n], filePath, fileType, names, cfg, key);
    }
  }

  lemma ResolvedSiteIsIndexed(entries: Entries, cfg: Config, key: SiteKey)
    requires key in FullBindings(entries, cfg).sites && FullBindings(entries, cfg).sites[key].Resolved?
    ensures var r := FullBindings(entries, cfg).sites[key];
            r.path in entries && r.objectType == entries[r.path].objectType
  {
    hide EdgeOutcome, NameMapOf, FileSites, SiteKeys;
    var fa := entries[key.filePath];
    var i := SiteHasEdge(fa.edges, key.filePath, fa.objectType, NameMapOf(entries, cfg), cfg, key);
    ResolvedIsIndexed(fa.edges[i], key.filePath, entries, cfg);
  }

  // ----- Why nothing may be removed -----

  /** Names of changed paths that are no longer indexed are skipped, so if an object were removed every
      caller bound to it would keep that binding, while a full resolve would not. */
  lemma RemovalWouldLeaveStaleBinding(before: Entries, cfg: Config, gone: string, key: SiteKey)
    requires gone in before && key.filePath != gone
    requires key in FullBindings(before, cfg).sites
    requires FullBindings(before, cfg).sites[key].Resolved? && FullBindings(before, cfg).sites[key].path == gone
    ensures var after: Entries := before - {gone};
            var kept := IncrementalBindings(FullBindings(before, cfg), after, cfg, [gone]).sites;
            && key in kept && kept[key] == FullBindings(before, cfg).sites[key]
            && (key in FullBindings(after, cfg).sites ==> FullBindings(after, cfg).sites[key] != kept[key])
  {
    hide NameMapOf, SiteKeys, SitesAt, ObjectName;
    var after: Entries := before - {gone};
    assert ChangedNames(after, [gone]) == {};
    assert Affected(after, [gone]) == {gone};
    assert {gone} * after.Keys == {};
    assert BindingsOf({}, after, NameMapOf(after, cfg), cfg).sites == map[];
    if key in FullBindings(after, cfg).sites && FullBindings(after, cfg).sites[key].Resolved? {
      ResolvedSiteIsIndexed(after, cfg, key);
    }
  }

  // ----- The operations -----

  class ResolutionSet {
    var entries: map<SiteKey, Resolution>
    var ambigDiagnostics: map<string, seq<Diagnostic>>

    ghost function Value(): Bindings
      reads this
    {
      Bindings(entries, ambigDiagnostics)
    }

    constructor ()
      ensures Value() == NO_BINDINGS
    {
      entries, ambigDiagnostics := map[], map[];
    }

    method Lookup(filePath: string, source: Range) returns (found: Option<Resolution>)
      ensures found == if SiteKey(filePath, source) in entries then Some(entries[SiteKey(filePath, source)]) else None
    {
      var key := SiteKey(filePath, source);
      found := if key in entries then Some(entries[key]) else None;
    }
  }

  /** The warnings of a file after more are appended; a file without warnings has no entry. */
  function Appended(all: map<string, seq<Diagnostic>>, filePath: string, more: seq<Diagnostic>): map<string,
      seq<Diagnostic>> {
    if more == [] then all else all[filePath := (if filePath in all then all[filePath] else []) + more]
  }

  method FindInLibrary(candidates: seq<Candidate>, lib: string) returns (found: Option<Candidate>)
    ensures found == FirstInLibrary(candidates, lib)
  {
    var k := 0;
    while k < |candidates|
      invariant 0 <= k <= |candidates|
      invariant FirstInLibrary(candidates, lib) == FirstInLibrary(candidates[k..], lib)
    {
      if candidates[k].library == lib {
        return Some(candidates[k]);
      }
      k := k + 1;
    }
    return None;
  }

  method ResolveFlat(targetName: string, filePath: string, edge: Edge, candidates: seq<Candidate>, rs: ResolutionSet)
    returns (r: Resolution)
    modifies rs`ambigDiagnostics
    ensures var o := Flat(targetName, edge, candidates);
            r == o.resolution && rs.ambigDiagnostics == Appended(old(rs.ambigDiagnostics), filePath, o.warnings)
  {
    if |candidates| == 1 {
      return Resolved(candidates[0].path, candidates[0].objectType);
    } else if |candidates| == 0 {
      return Unresolved(NoTarget);
    }
    var paths := SortStrings(PathsOf(candidates));
    var warning := AmbiguityWarning(AmbiguityMessage(targetName, paths), edge.source);
    var earlier := if filePath in rs.ambigDiagnostics then rs.ambigDiagnostics[filePath] else [];
    rs.ambigDiagnostics := rs.ambigDiagnostics[filePath := earlier + [warning]];
    return Ambiguous(paths);
  }

  method ResolveByName(targetName: string, typ: ObjectType, filePath: string, edge: Edge, names: NameMap,
      cfg: Config, rs: ResolutionSet)
    returns (r: Resolution)
    modifies rs`ambigDiagnostics
    ensures var o := ByName(targetName, typ, filePath, edge, names, cfg);
            r == o.resolution && rs.ambigDiagnostics == Appended(old(rs.ambigDiagnostics), filePath, o.warnings)
  {
    hide ObjectName, OwningLibrary, FirstInLibrary, ViaChain, Flat, FilterByType, BucketIn, SearchChain;
    var upTargetName := Upper(targetName);
    if upTargetName == "" {
      return Unresolved(NoTarget);
    }
    var candidates := CollectByType(BucketIn(names, upTargetName), typ);
    if edge.library != "" {
      var found := FindInLibrary(candidates, edge.library);
      if found.Some? {
        return Resolved(found.value.path, found.value.objectType);
      }
      return Unresolved(NoTarget);
    }
    NoLibrariesNoChain(filePath, cfg);
    if |cfg.libraries| > 0 {
      var _, currentLibrary := ObjectIdentity(filePath, cfg);
      var chain := BuildSearchChain(currentLibrary, cfg);
      if |chain| > 0 {
        var matched := ResolveViaChain(candidates, chain);
        if matched.Some? {
          return Resolved(matched.value.path, matched.value.objectType);
        }
        return Unresolved(NoTarget);
      }
    }
    r := ResolveFlat(targetName, filePath, edge, candidates, rs);
  }

  lemma NoLibrariesNoChain(filePath: string, cfg: Config)
    ensures cfg.libraries == [] ==> ChainOf(filePath, cfg) == []
  {
  }

  method ResolveDataAreaEdge(filePath: string, edge: Edge, names: NameMap, cfg: Config, rs: ResolutionSet)
      returns (r: Resolution)
    modifies rs`ambigDiagnostics
    ensures var o := ByDataArea(DATA_AREA_TYPES, filePath, edge, names, cfg);
            r == o.resolution && rs.ambigDiagnostics == Appended(old(rs.ambigDiagnostics), filePath, o.warnings)
  {
    hide ByName;
    var k := 0;
    while k < |DATA_AREA_TYPES|
      invariant 0 <= k <= |DATA_AREA_TYPES|
      invariant rs.ambigDiagnostics == old(rs.ambigDiagnostics)
      invariant ByDataArea(DATA_AREA_TYPES, filePath, edge, names, cfg)
                  == ByDataArea(DATA_AREA_TYPES[k..], filePath, edge, names, cfg)
    {
      UnresolvedHasNoWarning(edge.targetName, DATA_AREA_TYPES[k], filePath, edge, names, cfg);
      r := ResolveByName(edge.targetName, DATA_AREA_TYPES[k], filePath, edge, names, cfg, rs);
      if r.Resolved? || r.Ambiguous? {
        return;
      }
      k := k + 1;
    }
    return Unresolved(NoTarget);
  }

  lemma UnresolvedHasNoWarning(targetName: string, typ: ObjectType, filePath: string, edge: Edge, names: NameMap,
      cfg: Config)
    ensures var o := ByName(targetName, typ, filePath, edge, names, cfg);
            |o.warnings| == (if o.resolution.Ambiguous? then 1 else 0)
  {
    hide ChainOf, Upper, BucketIn, FilterByType;
  }

  method ResolveEdge(edge: Edge, filePath: string, fileType: ObjectType, names: NameMap, cfg: Config, rs: ResolutionSet)
    returns (r: Resolution)
    modifies rs`ambigDiagnostics
    ensures var o := EdgeOutcome(edge, filePath, fileType, names, cfg);
            r == o.resolution && rs.ambigDiagnostics == Appended(old(rs.ambigDiagnostics), filePath, o.warnings)
  {
    hide ByName, ByDataArea;
    match edge.kind {
      case CallsDynamic => return Unresolved(Dynamic);
      case NavigatesToDynamic => return Unresolved(Dynamic);
      case Performs =>
        if edge.target != ZERO_RANGE {
          return Resolved(filePath, fileType);
        }
        r := ResolveByName(edge.targetName, ExternalSubroutine, filePath, edge, names, cfg, rs);
      case Calls =>
        r := ResolveByName(edge.targetName, Subprogram, filePath, edge, names, cfg, rs);
      case NavigatesTo =>
        r := ResolveByName(edge.targetName, Program, filePath, edge, names, cfg, rs);
      case Includes =>
        r := ResolveByName(edge.targetName, Copycode, filePath, edge, names, cfg, rs);
      case UsesDataArea =>
        r := ResolveDataAreaEdge(filePath, edge, names, cfg, rs);
      case Reads => return Unresolved(NoTarget);
      case Writes => return Unresolved(NoTarget);
    }
  }

  /** The edge loop both `Resolve` and `ResolveInto` run on a file. */
  method ResolveFile(filePath: string, fa: FileAnalysis, names: NameMap, cfg: Config, rs: ResolutionSet)
    modifies rs
    ensures rs.entries == old(rs.entries) + FileSites(fa.edges, filePath, fa.objectType, names, cfg)
    ensures rs.ambigDiagnostics
              == Appended(old(rs.ambigDiagnostics), filePath,
                          FileWarnings(fa.edges, filePath, fa.objectType, names, cfg))
  {
    hide EdgeOutcome, Appended, FileSites, FileWarnings;
    NothingAppended(rs.ambigDiagnostics, filePath);
    FileStep([], filePath, fa.objectType, names, cfg);
    for i := 0 to |fa.edges|
      invariant rs.entries == old(rs.entries) + FileSites(fa.edges[..i], filePath, fa.objectType, names, cfg)
      invariant rs.ambigDiagnostics
                  == Appended(old(rs.ambigDiagnostics), filePath,
                              FileWarnings(fa.edges[..i], filePath, fa.objectType, names, cfg))
    {
      var edge := fa.edges[i];
      assert fa.edges[..i + 1][..i] == fa.edges[..i];
      FileStep(fa.edges[..i + 1], filePath, fa.objectType, names, cfg);
      AppendedTwice(old(rs.ambigDiagnostics), filePath,
                    FileWarnings(fa.edges[..i], filePath, fa.objectType, names, cfg),
                    EdgeOutcome(edge, filePath, fa.objectType, names, cfg).warnings);
      var r := ResolveEdge(edge, filePath, fa.objectType, names, cfg, rs);
      rs.entries := rs.entries[SiteKey(filePath, edge.source) := r];
    }
    assert fa.edges[..|fa.edges|] == fa.edges;
  }

  lemma FileStep(edges: seq<Edge>, filePath: string, fileType: ObjectType, names: NameMap, cfg: Config)
    ensures edges == [] ==>
              FileSites(edges, filePath, fileType, names, cfg) == map[]
                && FileWarnings(edges, filePath, fileType, names, cfg) == []
    ensures edges != [] ==>
      var last, init := edges[|edges| - 1], edges[..|edges| - 1];
      var o := EdgeOutcome(last, filePath, fileType, names, cfg);
      && FileSites(edges, filePath, fileType, names, cfg)
      == FileSites(init, filePath, fileType, names, cfg)[SiteKey(filePath, last.source) := o.resolution]
      && FileWarnings(edges, filePath, fileType, names, cfg)
           == FileWarnings(init, filePath, fileType, names, cfg) + o.warnings
  {
    hide EdgeOutcome;
  }

  lemma AppendedFresh(all: map<string, seq<Diagnostic>>, filePath: string, more: seq<Diagnostic>)
    requires filePath !in all
    ensures Appended(all, filePath, more) == all + if more == [] then map[] else map[filePath := more]
  {
    assert [] + more == more;
    assert all + map[] == all;
  }

  lemma NothingAppended(all: map<string, seq<Diagnostic>>, filePath: string)
    ensures Appended(all, filePath, []) == all
  {
  }

  lemma AppendedTwice(all: map<string, seq<Diagnostic>>, filePath: string, a: seq<Diagnostic>, b: seq<Diagnostic>)
    ensures Appended(Appended(all, filePath, a), filePath, b) == Appended(all, filePath, a + b)
  {
    var earlier := if filePath in all then all[filePath] else [];
    assert earlier + a + b == earlier + (a + b);
    assert a + [] == a && [] + b == b;
  }

  lemma OneFileBindings(p: string, entries: Entries, names: NameMap, cfg: Config)
    requires p in entries
    ensures BindingsOf({p}, entries, names, cfg) == Bindings(SitesAt(p, entries, names, cfg),
              if WarningsAt(p, entries, names, cfg) == [] then map[] else map[p := WarningsAt(p, entries, names, cfg)])
  {
    hide SitesAt, WarningsAt, SiteKeys;
    assert BindingsOf({p}, entries, names, cfg).sites == SitesAt(p, entries, names, cfg);
  }

  /** The bindings after the edge loop has run on one more file. */
  ghost function WithFile(b: Bindings, p: string, entries: Entries, names: NameMap, cfg: Config): Bindings
    requires p in entries
  {
    Bindings(b.sites + SitesAt(p, entries, names, cfg), Appended(b.warnings, p, WarningsAt(p, entries, names, cfg)))
  }

  /** Processing one more file extends the bindings of the files processed. */
  lemma OneMoreFile(base: Bindings, done: set<string>, p: string, entries: Entries, names: NameMap, cfg: Config)
    requires done <= entries.Keys && p in entries && p !in done
    requires p !in base.warnings
    ensures Merge(base, BindingsOf(done + {p}, entries, names, cfg))
         == WithFile(Merge(base, BindingsOf(done, entries, names, cfg)), p, entries, names, cfg)
  {
    hide SitesAt, WarningsAt, SiteKeys;
    var b, one := BindingsOf(done, entries, names, cfg), BindingsOf({p}, entries, names, cfg);
    assert p !in b.warnings;
    BindingsOfUnion(done, {p}, entries, names, cfg);
    OneFileBindings(p, entries, names, cfg);
    hide BindingsOf, Appended;
    MapsAssociate(base.sites, b.sites, one.sites);
    MapsAssociate(base.warnings, b.warnings, one.warnings);
    AppendedFresh(base.warnings + b.warnings, p, WarningsAt(p, entries, names, cfg));
  }

  lemma MapsAssociate<K, V>(a: map<K, V>, b: map<K, V>, c: map<K, V>)
    ensures a + b + c == a + (b + c)
  {
  }

  method Resolve(idx: Index, cfg: Config) returns (rs: ResolutionSet)
    ensures fresh(rs) && rs.Value() == FullBindings(idx.entries, cfg)
  {
    hide NameMapOf, BindingsOf, SitesAt, WarningsAt, Merge;
    rs := new ResolutionSet();
    var names := idx.BuildNameIndex(cfg);
    MergeNothing(idx.entries, names, cfg);
    ghost var done := {};
    var todo := idx.entries.Keys;
    while todo != {}
      invariant todo + done == idx.entries.Keys && todo !! done
      invariant rs.Value() == Merge(NO_BINDINGS, BindingsOf(done, idx.entries, names, cfg))
      decreases todo
    {
      var filePath :| filePath in todo;
      ResolveFileAt(filePath, idx.entries, names, cfg, rs);
      OneMoreFile(NO_BINDINGS, done, filePath, idx.entries, names, cfg);
      todo, done := todo - {filePath}, done + {filePath};
    }
    assert done == idx.entries.Keys;
  }

  method ResolveFileAt(filePath: string, entries: Entries, names: NameMap, cfg: Config, rs: ResolutionSet)
    requires filePath in entries
    modifies rs
    ensures rs.Value() == WithFile(old(rs.Value()), filePath, entries, names, cfg)
  {
    ResolveFile(filePath, entries[filePath], names, cfg, rs);
  }

  lemma MergeNothing(entries: Entries, names: NameMap, cfg: Config)
    ensures Merge(NO_BINDINGS, BindingsOf({}, entries, names, cfg)) == NO_BINDINGS
    ensures forall b: Bindings :: Merge(NO_BINDINGS, b) == b && Merge(b, BindingsOf({}, entries, names, cfg)) == b
  {
    assert BindingsOf({}, entries, names, cfg) == NO_BINDINGS;
    forall b: Bindings ensures Merge(NO_BINDINGS, b) == b && Merge(b, NO_BINDINGS) == b {
      assert map[] + b.sites == b.sites && map[] + b.warnings == b.warnings;
      assert b.sites + map[] == b.sites && b.warnings + map[] == b.warnings;
    }
  }

  method CollectChangedNames(idx: Index, changed: seq<string>, cfg: Config) returns (objectNames: set<string>)
    ensures objectNames == ChangedNames(idx.entries, changed)
  {
    hide ObjectName;
    objectNames := {};
    for i := 0 to |changed|
      invariant objectNames == ChangedNames(idx.entries, changed[..i])
    {
      if changed[i] in idx.entries {
        var name, _ := ObjectIdentity(changed[i], cfg);
        objectNames := objectNames + {name};
      }
      assert changed[..i + 1] == changed[..i] + [changed[i]];
    }
    assert changed[..|changed|] == changed;
  }

  method ScanForMention(fa: FileAnalysis, objectNames: set<string>) returns (hit: bool)
    ensures hit <==> Mentions(fa, objectNames)
  {
    hit := false;
    for i := 0 to |fa.edges|
      invariant hit <==> exists e :: e in fa.edges[..i] && Upper(e.targetName) in objectNames
    {
      assert fa.edges[..i + 1] == fa.edges[..i] + [fa.edges[i]];
      if Upper(fa.edges[i].targetName) in objectNames {
        hit := true;
      }
    }
    assert fa.edges[..|fa.edges|] == fa.edges;
  }

  method CollectPaths(changed: seq<string>) returns (paths: set<string>)
    ensures paths == Elements(changed)
  {
    paths := {};
    for i := 0 to |changed|
      invariant paths == Elements(changed[..i])
    {
      paths := paths + {changed[i]};
      assert changed[..i + 1] == changed[..i] + [changed[i]];
    }
    assert changed[..|changed|] == changed;
  }

  method CollectAffected(idx: Index, changed: seq<string>, cfg: Config) returns (affected: set<string>)
    ensures affected == Affected(idx.entries, changed)
  {
    affected := CollectPaths(changed);
    var objectNames := CollectChangedNames(idx, changed, cfg);
    hide ChangedNames, ObjectName, Mentions, Elements;
    var todo := idx.entries.Keys;
    while todo != {}
      invariant todo <= idx.entries.Keys
      invariant affected == Elements(changed) + set p | p in idx.entries && p !in todo
                  && Mentions(idx.entries[p], objectNames)
      decreases todo
    {
      var filePath :| filePath in todo;
      todo := todo - {filePath};
      var hit := ScanForMention(idx.entries[filePath], objectNames);
      if hit {
        affected := affected + {filePath};
      }
    }
  }

  method CopyExcept(from: ResolutionSet, skipped: set<string>) returns (rs: ResolutionSet)
    ensures fresh(rs) && rs.Value() == Without(from.Value(), skipped)
  {
    rs := new ResolutionSet();
    var keys := from.entries.Keys;
    while keys != {}
      invariant keys <= from.entries.Keys && rs.ambigDiagnostics == map[]
      invariant rs.entries == map k | k in from.entries && k !in keys && k.filePath !in skipped :: from.entries[k]
      decreases keys
    {
      var key :| key in keys;
      keys := keys - {key};
      if key.filePath !in skipped {
        rs.entries := rs.entries[key := from.entries[key]];
      }
    }
    var files := from.ambigDiagnostics.Keys;
    while files != {}
      invariant files <= from.ambigDiagnostics.Keys
      invariant rs.entries == Without(from.Value(), skipped).sites
      invariant rs.ambigDiagnostics == map p | p in from.ambigDiagnostics && p !in files
                  && p !in skipped :: from.ambigDiagnostics[p]
      decreases files
    {
      var file :| file in files;
      files := files - {file};
      if file !in skipped {
        rs.ambigDiagnostics := rs.ambigDiagnostics[file := from.ambigDiagnostics[file]];
      }
    }
  }

  /** The input set may be absent and is left untouched: nothing is modified. */
  method ResolveInto(rs: ResolutionSet?, idx: Index, cfg: Config, changed: seq<string>) returns (newRS: ResolutionSet)
    ensures fresh(newRS)
    ensures newRS.Value()
              == IncrementalBindings(if rs == null then NO_BINDINGS else rs.Value(), idx.entries, cfg, changed)
  {
    hide NameMapOf, BindingsOf, SitesAt, WarningsAt, Merge, Affected;
    if |changed| == 0 {
      if rs == null {
        newRS := new ResolutionSet();
      } else {
        newRS := CopyExcept(rs, {});
        assert Without(rs.Value(), {}) == rs.Value() by {
          assert Without(rs.Value(), {}).sites == rs.Value().sites
                   && Without(rs.Value(), {}).warnings == rs.Value().warnings;
        }
      }
      return;
    }
    var affected := CollectAffected(idx, changed, cfg);
    if rs != null {
      newRS := CopyExcept(rs, affected);
    } else {
      newRS := new ResolutionSet();
      assert Without(NO_BINDINGS, affected) == NO_BINDINGS by {
        assert Without(NO_BINDINGS, affected).sites == map[] && Without(NO_BINDINGS, affected).warnings == map[];
      }
    }
    ghost var base := newRS.Value();
    var names := idx.BuildNameIndex(cfg);
    MergeNothing(idx.entries, names, cfg);
    ghost var done := {};
    var todo := affected;
    while todo != {}
      invariant todo <= affected && done == (affected - todo) * idx.entries.Keys
      invariant newRS.Value() == Merge(base, BindingsOf(done, idx.entries, names, cfg))
      decreases todo
    {
      var path :| path in todo;
      if path in idx.entries {
        ResolveFileAt(path, idx.entries, names, cfg, newRS);
        OneMoreFile(base, done, path, idx.entries, names, cfg);
        done := done + {path};
      }
      todo := todo - {path};
    }
    assert done == affected * idx.entries.Keys;
  }
}
