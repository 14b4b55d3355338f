/** Warm starts over a changing disk (`BuildWithCache` in internal/workspace/index.go, `Load` and `saveIndex` in
    internal/workspace/cache.go).  The codec is the identity on the persisted fields.  The hash is injective, so
    content stands for its own hash. */
module IndexCache {
  import opened Model
  import opened Text
  import opened NameIndex

  type Hash = string

  datatype DiskFile = Content(bytes: string) | Unreadable

  /** The indexed files found by the directory walk.  What the walk selects depends on the path only. */
  type Disk = map<string, DiskFile>

  /** The fields of an analysis the cache keeps. */
  datatype Persisted = Persisted(objectType: ObjectType, edges: seq<Edge>, cached: Payload)

  datatype CacheEntry = CacheEntry(fields: Persisted, contentHash: Hash)

  datatype CacheFile = Missing | Corrupt | OtherVersion | Valid(entries: map<string, CacheEntry>)

  type Analyzer = (string, string) -> FileAnalysis

  function Keep(fa: FileAnalysis): Persisted {
    Persisted(fa.objectType, fa.edges, fa.cached)
  }

  /** Diagnostics and AST do not survive the cache. */
  function Restore(f: Persisted): FileAnalysis {
    FileAnalysis(f.objectType, f.edges, f.cached, "")
  }

  function LoadedEntries(cache: CacheFile): map<string, CacheEntry> {
    if cache.Valid? then cache.entries else map[]
  }

  /** The entry's content hash differs from the file's. */
  predicate Stale(p: string, disk: Disk, cache: CacheFile) {
    p in LoadedEntries(cache) && p in disk && disk[p].Content? && disk[p].bytes != LoadedEntries(cache)[p].contentHash
  }

  predicate Indexable(f: DiskFile, maxFileSize: nat) {
    f.Content? && |f.bytes| <= maxFileSize
  }

  /** Scanned, in need of analysis, and fit for it. */
  predicate Analyzed(p: string, disk: Disk, cache: CacheFile, maxFileSize: nat) {
    p in disk && (Stale(p, disk, cache) || p !in LoadedEntries(cache)) && Indexable(disk[p], maxFileSize)
  }

  function AnalyzedPaths(disk: Disk, cache: CacheFile, maxFileSize: nat): set<string> {
    set p | p in disk && Analyzed(p, disk, cache, maxFileSize)
  }

  /** The index a build yields: fresh analyses over whatever was loaded. */
  function BuiltEntries(disk: Disk, cache: CacheFile, maxFileSize: nat, analyze: Analyzer): Entries {
    (map p | p in LoadedEntries(cache) :: Restore(LoadedEntries(cache)[p].fields))
      + map p | p in AnalyzedPaths(disk, cache, maxFileSize) :: analyze(p, disk[p].bytes)
  }

  /** A file that cannot be read is recorded under the hash of its own path. */
  function SavedEntry(p: string, fa: FileAnalysis, disk: Disk): CacheEntry {
    CacheEntry(Keep(fa), if p in disk && disk[p].Content? then disk[p].bytes else p)
  }

  function Saved(entries: Entries, disk: Disk): CacheFile {
    Valid(map p | p in entries :: SavedEntry(p, entries[p], disk))
  }

  /** Written when something was analyzed or no cache file exists. */
  function CacheAfter(disk: Disk, cache: CacheFile, maxFileSize: nat, analyze: Analyzer): CacheFile {
    if AnalyzedPaths(disk, cache, maxFileSize) != {} || cache.Missing?
    then Saved(BuiltEntries(disk, cache, maxFileSize, analyze), disk)
    else cache
  }

  // ----- The operations -----

  method Load(cache: CacheFile, currentHashes: map<string, Hash>) returns (ok: bool, idx: Index, stale: set<string>)
    ensures fresh(idx) && idx.Valid()
    ensures ok <==> cache.Valid?
    ensures idx.entries == map p | p in LoadedEntries(cache) :: Restore(LoadedEntries(cache)[p].fields)
    ensures stale == set p | p in LoadedEntries(cache) && p in currentHashes
              && currentHashes[p] != LoadedEntries(cache)[p].contentHash
  {
    idx := new Index();
    stale := {};
    if !cache.Valid? {
      ok := false;
      return;
    }
    ok := true;
    var todo := cache.entries.Keys;
    while todo != {}
      invariant fresh(idx) && idx.Valid() && todo <= cache.entries.Keys
      invariant idx.entries == map p | p in cache.entries && p !in todo :: Restore(cache.entries[p].fields)
      invariant stale == set p | p in cache.entries && p !in todo && p in currentHashes
                  && currentHashes[p] != cache.entries[p].contentHash
      decreases todo
    {
      var p :| p in todo;
      todo := todo - {p};
      idx.Add(p, Restore(cache.entries[p].fields));
      if p in currentHashes && currentHashes[p] != cache.entries[p].contentHash {
        stale := stale + {p};
      }
    }
  }

  method SaveIndex(idx: Index, disk: Disk) returns (cache: CacheFile)
    ensures cache == Saved(idx.entries, disk)
  {
    var entries: map<string, CacheEntry> := map[];
    var todo := idx.entries.Keys;
    while todo != {}
      invariant todo <= idx.entries.Keys
      invariant entries == map p | p in idx.entries && p !in todo :: SavedEntry(p, idx.entries[p], disk)
      decreases todo
    {
      var p :| p in todo;
      todo := todo - {p};
      var hash := if p in disk && disk[p].Content? then disk[p].bytes else p;
      entries := entries[p := CacheEntry(Keep(idx.entries[p]), hash)];
    }
    return Valid(entries);
  }

  /** The index when only some files have been scanned. */
  function ScannedEntries(scanned: set<string>, disk: Disk, cache: CacheFile, maxFileSize: nat,
      analyze: Analyzer): Entries {
    (map p | p in LoadedEntries(cache) :: Restore(LoadedEntries(cache)[p].fields))
      + map p | p in scanned * AnalyzedPaths(disk, cache, maxFileSize) :: analyze(p, disk[p].bytes)
  }

  lemma ScanOne(scanned: set<string>, p: string, disk: Disk, cache: CacheFile, maxFileSize: nat, analyze: Analyzer)
    requires p in disk && p !in scanned
    ensures var before := ScannedEntries(scanned, disk, cache, maxFileSize, analyze);
            ScannedEntries(scanned + {p}, disk, cache, maxFileSize, analyze)
              == if Analyzed(p, disk, cache, maxFileSize) then before[p := analyze(p, disk[p].bytes)] else before
    ensures p in ScannedEntries(scanned, disk, cache, maxFileSize, analyze) <==> p in LoadedEntries(cache)
  {
    hide LoadedEntries, Stale;
    var before, after := ScannedEntries(scanned, disk, cache, maxFileSize, analyze),
          ScannedEntries(scanned + {p}, disk, cache, maxFileSize, analyze);
    if Analyzed(p, disk, cache, maxFileSize) {
      assert (scanned + {p}) * AnalyzedPaths(disk, cache, maxFileSize)
               == scanned * AnalyzedPaths(disk, cache, maxFileSize) + {p};
      assert after == before[p := analyze(p, disk[p].bytes)];
    } else {
      assert (scanned + {p}) * AnalyzedPaths(disk, cache, maxFileSize)
               == scanned * AnalyzedPaths(disk, cache, maxFileSize);
    }
  }

  /** The files re-analyzed because their content changed since the cached run. */
  function Refreshed(scanned: set<string>, disk: Disk, cache: CacheFile, maxFileSize: nat): set<string> {
    set p | p in scanned && p in disk && Stale(p, disk, cache) && Indexable(disk[p], maxFileSize)
  }

  lemma RefreshOne(scanned: set<string>, p: string, disk: Disk, cache: CacheFile, maxFileSize: nat)
    requires p in disk && p !in scanned
    ensures |Refreshed(scanned + {p}, disk, cache, maxFileSize)| == |Refreshed(scanned, disk, cache, maxFileSize)|
          + if Stale(p, disk, cache) && Indexable(disk[p], maxFileSize) then 1 else 0
  {
    hide Stale, Indexable;
    var before := Refreshed(scanned, disk, cache, maxFileSize);
    assert Refreshed(scanned + {p}, disk, cache, maxFileSize)
        == before + if Stale(p, disk, cache) && Indexable(disk[p], maxFileSize) then {p} else {};
  }

  lemma AnalyzeOne(scanned: set<string>, p: string, disk: Disk, cache: CacheFile, maxFileSize: nat)
    requires p in disk && p !in scanned
    ensures (scanned + {p}) * AnalyzedPaths(disk, cache, maxFileSize) != {} <==>
              scanned * AnalyzedPaths(disk, cache, maxFileSize) != {} || Analyzed(p, disk, cache, maxFileSize)
  {
    hide Analyzed;
    assert (scanned + {p}) * AnalyzedPaths(disk, cache, maxFileSize)
        == scanned * AnalyzedPaths(disk, cache, maxFileSize) + if Analyzed(p, disk, cache, maxFileSize) then {p}
        else {};
  }

  /** The body of the scan loop: a retained or skipped file leaves the index as it is. */
  method IndexFile(p: string, file: DiskFile, idx: Index, isStale: bool, maxFileSize: nat, analyze: Analyzer)
      returns (analyzed: bool)
    requires idx.Valid()
    modifies idx
    ensures idx.Valid()
    ensures analyzed <==> (isStale || p !in old(idx.entries)) && Indexable(file, maxFileSize)
    ensures idx.entries == if analyzed then old(idx.entries)[p := analyze(p, file.bytes)] else old(idx.entries)
  {
    hide NameMapOf;
    analyzed := false;
    if isStale || p !in idx.entries {
      if file.Unreadable? {
        return;
      }
      if |file.bytes| > maxFileSize {
        return;
      }
      idx.Add(p, analyze(p, file.bytes));
      analyzed := true;
    }
  }

  /** The scan loop of a build.  The walk sorts the files; the outcome is the same in any order. */
  method Scan(disk: Disk, cache: CacheFile, idx: Index, stale: set<string>, maxFileSize: nat, analyze: Analyzer)
    returns (staleCount: nat, analyzedAny: bool)
    requires idx.Valid() && idx.entries == ScannedEntries({}, disk, cache, maxFileSize, analyze)
    requires forall p :: p in disk ==> (p in stale <==> Stale(p, disk, cache))
    modifies idx
    ensures idx.Valid() && idx.entries == ScannedEntries(disk.Keys, disk, cache, maxFileSize, analyze)
    ensures analyzedAny <==> AnalyzedPaths(disk, cache, maxFileSize) != {}
    ensures staleCount == |Refreshed(disk.Keys, disk, cache, maxFileSize)|
  {
    hide ScannedEntries, AnalyzedPaths, NameMapOf, Index.Valid, Progress, Stale, Indexable, LoadedEntries;
    NoProgress(disk, cache, maxFileSize, analyze);
    analyzedAny, staleCount := false, 0;
    var todo := disk.Keys;
    while todo != {}
      invariant idx.Valid() && todo <= disk.Keys
      invariant Progress(todo, idx.entries, analyzedAny, staleCount, disk, cache, maxFileSize, analyze)
      decreases todo
    {
      var p :| p in todo;
      ProgressOne(todo, p, idx.entries, analyzedAny, staleCount, disk, cache, maxFileSize, analyze);
      todo := todo - {p};
      var analyzed := IndexFile(p, disk[p], idx, p in stale, maxFileSize, analyze);
      if analyzed {
        analyzedAny := true;
        if p in stale {
          staleCount := staleCount + 1;
        }
      }
    }
    AllProgress(idx.entries, analyzedAny, staleCount, disk, cache, maxFileSize, analyze);
  }

  /** What the scan has done when some files are still to do. */
  ghost predicate Progress(todo: set<string>, entries: Entries, analyzedAny: bool, staleCount: nat, disk: Disk,
      cache: CacheFile,
      maxFileSize: nat, analyze: Analyzer) {
    var scanned := disk.Keys - todo;
    && entries == ScannedEntries(scanned, disk, cache, maxFileSize, analyze)
    && (analyzedAny <==> scanned * AnalyzedPaths(disk, cache, maxFileSize) != {})
    && staleCount == |Refreshed(scanned, disk, cache, maxFileSize)|
  }

  lemma NoProgress(disk: Disk, cache: CacheFile, maxFileSize: nat, analyze: Analyzer)
    ensures Progress(disk.Keys, ScannedEntries({}, disk, cache, maxFileSize, analyze), false, 0, disk, cache,
                     maxFileSize, analyze)
  {
    hide ScannedEntries, AnalyzedPaths;
    assert disk.Keys - disk.Keys == {};
    NothingRefreshed(disk, cache, maxFileSize);
  }

  lemma ProgressOne(todo: set<string>, p: string, entries: Entries, analyzedAny: bool, staleCount: nat, disk: Disk,
      cache: CacheFile, maxFileSize: nat, analyze: Analyzer)
    requires p in todo && p in disk
    requires Progress(todo, entries, analyzedAny, staleCount, disk, cache, maxFileSize, analyze)
    ensures p in entries <==> p in LoadedEntries(cache)
    ensures var analyzed := Analyzed(p, disk, cache, maxFileSize);
            Progress(todo - {p}, if analyzed then entries[p := analyze(p, disk[p].bytes)] else entries,
                     analyzedAny || analyzed,
                     if analyzed && Stale(p, disk, cache) then staleCount + 1 else staleCount, disk, cache, maxFileSize,
                       analyze)
  {
    hide ScannedEntries, AnalyzedPaths, Refreshed, Stale, Indexable, LoadedEntries;
    var scanned := disk.Keys - todo;
    assert disk.Keys - (todo - {p}) == scanned + {p};
    ScanOne(scanned, p, disk, cache, maxFileSize, analyze);
    RefreshOne(scanned, p, disk, cache, maxFileSize);
    AnalyzeOne(scanned, p, disk, cache, maxFileSize);
  }

  lemma AllProgress(entries: Entries, analyzedAny: bool, staleCount: nat, disk: Disk, cache: CacheFile,
      maxFileSize: nat,
      analyze: Analyzer)
    requires Progress({}, entries, analyzedAny, staleCount, disk, cache, maxFileSize, analyze)
    ensures entries == ScannedEntries(disk.Keys, disk, cache, maxFileSize, analyze)
    ensures analyzedAny <==> AnalyzedPaths(disk, cache, maxFileSize) != {}
    ensures staleCount == |Refreshed(disk.Keys, disk, cache, maxFileSize)|
  {
    hide ScannedEntries, AnalyzedPaths, Refreshed;
    assert disk.Keys - {} == disk.Keys;
    AnalyzedAreScanned(disk, cache, maxFileSize);
  }

  lemma NothingRefreshed(disk: Disk, cache: CacheFile, maxFileSize: nat)
    ensures Refreshed({}, disk, cache, maxFileSize) == {}
  {
  }

  lemma AnalyzedAreScanned(disk: Disk, cache: CacheFile, maxFileSize: nat)
    ensures disk.Keys * AnalyzedPaths(disk, cache, maxFileSize) == AnalyzedPaths(disk, cache, maxFileSize)
  {
  }

  method BuildWithCache(disk: Disk, cache: CacheFile, maxFileSize: nat, analyze: Analyzer)
    returns (idx: Index, staleCount: nat, newCache: CacheFile)
    ensures fresh(idx) && idx.entries == BuiltEntries(disk, cache, maxFileSize, analyze)
    ensures newCache == CacheAfter(disk, cache, maxFileSize, analyze)
    ensures staleCount == |Refreshed(disk.Keys, disk, cache, maxFileSize)|
  {
    var currentHashes := map p | p in disk && disk[p].Content? :: disk[p].bytes;
    var ok, loaded, stale := Load(cache, currentHashes);
    idx := loaded;
    assert idx.entries == ScannedEntries({}, disk, cache, maxFileSize, analyze);
    var analyzedAny;
    staleCount, analyzedAny := Scan(disk, cache, idx, stale, maxFileSize, analyze);
    AnalyzedAreScanned(disk, cache, maxFileSize);
    if analyzedAny || cache.Missing? {
      newCache := SaveIndex(idx, disk);
    } else {
      newCache := cache;
    }
  }

  // ----- Warm builds agree with cold builds -----

  /** Each entry is the analysis of the content its hash names, unless the hash is the placeholder for an unreadable
      file or names content too large to be analyzed. */
  ghost predicate Sound(cache: CacheFile, maxFileSize: nat, analyze: Analyzer) {
    forall p :: p in LoadedEntries(cache) ==>
      var e := LoadedEntries(cache)[p];
      e.fields == Keep(analyze(p, e.contentHash)) || e.contentHash == p || |e.contentHash| > maxFileSize
  }

  lemma BuildKeepsSound(disk: Disk, cache: CacheFile, maxFileSize: nat, analyze: Analyzer)
    requires Sound(cache, maxFileSize, analyze)
    ensures Sound(CacheAfter(disk, cache, maxFileSize, analyze), maxFileSize, analyze)
  {
    var built := BuiltEntries(disk, cache, maxFileSize, analyze);
    forall p | p in built
      ensures var e := SavedEntry(p, built[p], disk);
              e.fields == Keep(analyze(p, e.contentHash)) || e.contentHash == p || |e.contentHash| > maxFileSize
    {
    }
  }

  /** What happens between two looks at the index: a build of the disk as it is then, or the cache file being lost or
      damaged.  Cancelled builds write nothing and are not steps. */
  datatype Step = Build(disk: Disk) | Lose(cache: CacheFile)

  predicate Allowed(step: Step) {
    step.Lose? ==> !step.cache.Valid?
  }

  function After(cache: CacheFile, steps: seq<Step>, maxFileSize: nat, analyze: Analyzer): CacheFile {
    if steps == [] then cache
    else
      var before := After(cache, steps[..|steps| - 1], maxFileSize, analyze);
      match steps[|steps| - 1]
      case Build(disk) => CacheAfter(disk, before, maxFileSize, analyze)
      case Lose(left) => left
  }

  lemma {:induction false} RunKeepsSound(cache: CacheFile, steps: seq<Step>, maxFileSize: nat, analyze: Analyzer)
    requires Sound(cache, maxFileSize, analyze) && (forall s :: s in steps ==> Allowed(s))
    ensures Sound(After(cache, steps, maxFileSize, analyze), maxFileSize, analyze)
  {
    hide CacheAfter;
    if steps != [] {
      var n := |steps| - 1;
      assert steps[n] in steps;
      RunKeepsSound(cache, steps[..n], maxFileSize, analyze);
      var before := After(cache, steps[..n], maxFileSize, analyze);
      if steps[n].Build? {
        BuildKeepsSound(steps[n].disk, before, maxFileSize, analyze);
      }
    }
  }

  /** The index of a build with no cache. */
  function ColdEntries(disk: Disk, maxFileSize: nat, analyze: Analyzer): Entries {
    BuiltEntries(disk, Missing, maxFileSize, analyze)
  }

  /** After any sequence of builds and cache losses, over any sequence of disks, a build gives every file that can be
      indexed now, and whose content is not its own path, the fields a cold build of the present disk gives it; files
      that were unreadable, too large or deleted at any earlier time do no harm. */
  lemma WarmAgreesWithCold(cache: CacheFile, steps: seq<Step>, disk: Disk, maxFileSize: nat, analyze: Analyzer,
      p: string)
    requires !cache.Valid? && (forall s :: s in steps ==> Allowed(s))
    requires p in disk && Indexable(disk[p], maxFileSize) && disk[p].bytes != p
    ensures p in ColdEntries(disk, maxFileSize, analyze)
    ensures p in BuiltEntries(disk, After(cache, steps, maxFileSize, analyze), maxFileSize, analyze)
    ensures Keep(BuiltEntries(disk, After(cache, steps, maxFileSize, analyze), maxFileSize, analyze)[p])
         == Keep(ColdEntries(disk, maxFileSize, analyze)[p])
    ensures var warm := BuiltEntries(disk, After(cache, steps, maxFileSize, analyze), maxFileSize, analyze)[p];
            var cold := ColdEntries(disk, maxFileSize, analyze)[p];
            && warm.objectType == cold.objectType && warm.edges == cold.edges && warm.cached == cold.cached
            && cold == analyze(p, disk[p].bytes)
  {
    RunKeepsSound(cache, steps, maxFileSize, analyze);
    hide After;
  }

  /** Only diagnostics and the syntax tree are lost on the way through the cache. */
  lemma RestoreAfterKeep(fa: FileAnalysis)
    ensures Restore(Keep(fa)) == fa.(transient := "")
  {
  }

  /** A build without a cache indexes exactly the files that can be, each with its analysis. */
  lemma ColdIsAnalysis(disk: Disk, maxFileSize: nat, analyze: Analyzer, p: string)
    ensures var cold := ColdEntries(disk, maxFileSize, analyze);
            && (p in cold <==> p in disk && disk[p].Content? && |disk[p].bytes| <= maxFileSize)
            && (p in cold ==> cold[p] == analyze(p, disk[p].bytes))
  {
  }

  /** A file the disk no longer holds keeps its entry, if the cache has one. */
  lemma DeletedServesOldAnalysis(cache: CacheFile, disk: Disk, maxFileSize: nat, analyze: Analyzer, p: string)
    requires p !in disk
    ensures p in BuiltEntries(disk, cache, maxFileSize, analyze) <==> p in LoadedEntries(cache)
    ensures p in LoadedEntries(cache) ==>
      BuiltEntries(disk, cache, maxFileSize, analyze)[p] == Restore(LoadedEntries(cache)[p].fields)
  {
  }

  /** The cache is used: the build after a build, of the same disk, analyzes nothing and writes nothing. */
  lemma SecondBuildIsIdle(disk: Disk, cache: CacheFile, maxFileSize: nat, analyze: Analyzer)
    ensures var left := CacheAfter(disk, cache, maxFileSize, analyze);
            && AnalyzedPaths(disk, left, maxFileSize) == {}
            && CacheAfter(disk, left, maxFileSize, analyze) == left
            && Refreshed(disk.Keys, disk, left, maxFileSize) == {}
  {
    var left := CacheAfter(disk, cache, maxFileSize, analyze);
    if AnalyzedPaths(disk, cache, maxFileSize) != {} || cache.Missing? {
      forall p | p in disk ensures !Analyzed(p, disk, left, maxFileSize) && !Stale(p, disk, left) {
        WrittenIsFresh(disk, cache, maxFileSize, analyze, p);
      }
    } else {
      assert forall p :: p in disk && Stale(p, disk, cache) && Indexable(disk[p], maxFileSize) ==>
          p in AnalyzedPaths(disk, cache, maxFileSize);
    }
  }

  /** A written cache lists each indexable file, under the hash of its content. */
  lemma WrittenIsFresh(disk: Disk, cache: CacheFile, maxFileSize: nat, analyze: Analyzer, p: string)
    requires p in disk
    ensures var left := Saved(BuiltEntries(disk, cache, maxFileSize, analyze), disk);
            && (Indexable(disk[p], maxFileSize) ==> p in LoadedEntries(left))
            && (p in LoadedEntries(left) && disk[p].Content? ==>
                 LoadedEntries(left)[p].contentHash == disk[p].bytes)
  {
  }

  /** A scanned file that cannot be indexed now has no cold entry, and a warm one exactly when the cache holds one:
      the old analysis is served. */
  lemma UnindexableServesOldAnalysis(cache: CacheFile, disk: Disk, maxFileSize: nat, analyze: Analyzer, p: string)
    requires p in disk && !Indexable(disk[p], maxFileSize)
    ensures p !in ColdEntries(disk, maxFileSize, analyze)
    ensures p in BuiltEntries(disk, cache, maxFileSize, analyze) <==> p in LoadedEntries(cache)
    ensures p in LoadedEntries(cache) ==>
      BuiltEntries(disk, cache, maxFileSize, analyze)[p] == Restore(LoadedEntries(cache)[p].fields)
  {
  }

  /** After any history, a file that can be indexed now gets other fields than from a cold build exactly if it holds its
      own path and the entry loaded for it carries the placeholder hash with the fields of another content. */
  lemma WarmDiffersIff(cache: CacheFile, steps: seq<Step>, disk: Disk, maxFileSize: nat, analyze: Analyzer, p: string)
    requires !cache.Valid? && (forall s :: s in steps ==> Allowed(s))
    requires p in disk && Indexable(disk[p], maxFileSize)
    ensures var left := After(cache, steps, maxFileSize, analyze);
            var warm, cold := BuiltEntries(disk, left, maxFileSize, analyze), ColdEntries(disk, maxFileSize, analyze);
            var loaded := LoadedEntries(left);
            && p in warm && p in cold
            && (Keep(warm[p]) != Keep(cold[p]) <==>
                && disk[p].bytes == p && p in loaded && loaded[p].contentHash == p
                && loaded[p].fields != Keep(analyze(p, p)))
            && (Keep(warm[p]) == Keep(cold[p]) <==>
                && warm[p].objectType == cold[p].objectType && warm[p].edges == cold[p].edges
                && warm[p].cached == cold[p].cached)
  {
    RunKeepsSound(cache, steps, maxFileSize, analyze);
    hide After;
  }

  /** Why the content must differ from the path: a file is indexed, then deleted while another appears, then comes
      back holding its own path.  The placeholder recorded for the deleted file matches, and the first analysis is
      served. */
  lemma ContentEqualToPathIsMistaken(p: string, q: string, first: string, other: string, maxFileSize: nat,
      analyze: Analyzer)
    requires p != q && |p| <= maxFileSize && |first| <= maxFileSize && |other| <= maxFileSize
    ensures var steps := [Build(map[p := Content(first)]), Build(map[q := Content(other)])];
            var disk: Disk := map[p := Content(p)];
            var warm := BuiltEntries(disk, After(Missing, steps, maxFileSize, analyze), maxFileSize, analyze);
            && p in warm && Keep(warm[p]) == Keep(analyze(p, first))
            && p in ColdEntries(disk, maxFileSize, analyze)
                 && ColdEntries(disk, maxFileSize, analyze)[p] == analyze(p, p)
  {
    var d1: Disk := map[p := Content(first)];
    var d2: Disk := map[q := Content(other)];
    var disk: Disk := map[p := Content(p)];
    var steps := [Build(d1), Build(d2)];
    assert steps[..1] == [Build(d1)] && steps[..1][..0] == [];
    var c1 := CacheAfter(d1, Missing, maxFileSize, analyze);
    assert p in BuiltEntries(d1, Missing, maxFileSize, analyze);
    assert c1.entries[p] == CacheEntry(Keep(analyze(p, first)), first);
    assert q in AnalyzedPaths(d2, c1, maxFileSize);
    var c2 := CacheAfter(d2, c1, maxFileSize, analyze);
    assert p !in AnalyzedPaths(d2, c1, maxFileSize);
    assert c2.entries[p] == CacheEntry(Keep(analyze(p, first)), p);
    assert After(Missing, steps[..1][..0], maxFileSize, analyze) == Missing;
    assert After(Missing, steps[..1], maxFileSize, analyze) == c1;
    assert After(Missing, steps, maxFileSize, analyze) == c2;
    assert p !in AnalyzedPaths(disk, c2, maxFileSize);
  }
}
