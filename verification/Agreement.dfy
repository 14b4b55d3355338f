/** Where the separate lookups agree: completion, edge resolution and the field resolver
    (`NamesWithPrefix`, `resolveByName`, internal/workspace/field_resolution.go). */
module Agreement {
  import opened Model
  import opened Text
  import opened Identity
  import opened NameIndex
  import opened Resolution

  /** The candidates `resolveByName` chooses among. */
  ghost function Typed(name: string, typ: ObjectType, entries: Entries, cfg: Config): seq<Candidate> {
    FilterByType(BucketIn(NameMapOf(entries, cfg), Upper(name)), typ)
  }

  ghost function TypedPaths(name: string, typ: ObjectType, entries: Entries): set<string> {
    OfType(PathsNamed(Upper(name), entries), typ, entries)
  }

  lemma TypedArrives(name: string, typ: ObjectType, entries: Entries, cfg: Config)
    ensures Arrival(Typed(name, typ, entries, cfg), TypedPaths(name, typ, entries), entries, cfg)
  {
    hide ObjectName, OwningLibrary, Upper, NameMapOf, Listing, Arrival, FilterByType, OfType;
    BucketInNameMap(Upper(name), entries, cfg);
    BucketArrives(Upper(name), entries, cfg);
    FilteredArrives(Bucket(Upper(name), entries, cfg), PathsNamed(Upper(name), entries), typ, entries, cfg);
  }

  lemma TypedMembers(name: string, typ: ObjectType, entries: Entries, cfg: Config)
    ensures forall c :: c in Typed(name, typ, entries, cfg) <==>
              c.path in entries && ObjectName(c.path) == Upper(name) && entries[c.path].objectType == typ
                && c == CandidateAt(c.path, entries, cfg)
  {
    hide ObjectName, OwningLibrary, Upper, NameMapOf;
    BucketInNameMap(Upper(name), entries, cfg);
    var bucket := Bucket(Upper(name), entries, cfg);
    forall c ensures c in Typed(name, typ, entries, cfg) <==>
        c.path in entries && ObjectName(c.path) == Upper(name) && entries[c.path].objectType == typ
          && c == CandidateAt(c.path, entries, cfg)
    {
      FilterByTypeMembers(bucket, typ, c);
      ListingMembers(PathsNamed(Upper(name), entries), entries, cfg, c);
    }
  }

  // ----- Completion agrees with resolution -----

  /** Some candidate offered for this prefix has exactly this name. */
  ghost predicate OffersName(name: string, prefix: string, typ: ObjectType, filePath: string, entries: Entries,
      cfg: Config) {
    exists c :: c in Listing(OfferedPaths(prefix, typ, filePath, entries, cfg), entries, cfg) && c.name == Upper(name)
  }

  lemma OffersNameMeans(name: string, prefix: string, typ: ObjectType, filePath: string, entries: Entries, cfg: Config)
    requires Upper(prefix) <= Upper(name)
    ensures OffersName(name, prefix, typ, filePath, entries, cfg) <==>
      exists c :: c in Typed(name, typ, entries, cfg)
        && (ChainOf(filePath, cfg) != [] ==> c.library in ChainOf(filePath, cfg))
  {
    hide ObjectName, OwningLibrary, Upper, ChainOf, Typed, Listing;
    TypedMembers(name, typ, entries, cfg);
    var offered := OfferedPaths(prefix, typ, filePath, entries, cfg);
    if OffersName(name, prefix, typ, filePath, entries, cfg) {
      var c :| c in Listing(offered, entries, cfg) && c.name == Upper(name);
      ListingMembers(offered, entries, cfg, c);
      assert c in Typed(name, typ, entries, cfg);
    }
    if exists c :: c in Typed(name, typ, entries, cfg) && (ChainOf(filePath, cfg) != [] ==>
                                                             c.library in ChainOf(filePath, cfg)) {
      var c :| c in Typed(name, typ, entries, cfg)
            && (ChainOf(filePath, cfg) != [] ==> c.library in ChainOf(filePath, cfg));
      ListingMembers(offered, entries, cfg, c);
    }
  }

  /** For an unqualified, non-empty name, resolution binds (uniquely or ambiguously) exactly when completion, asked
      with any prefix of the name, offers a candidate of that name and type. */
  lemma CompletionAgreesWithResolution(name: string, prefix: string, typ: ObjectType, filePath: string, edge: Edge,
      entries: Entries, cfg: Config)
    requires Upper(name) != "" && edge.library == "" && Upper(prefix) <= Upper(name)
    ensures var r := ByName(name, typ, filePath, edge, NameMapOf(entries, cfg), cfg).resolution;
            (r.Resolved? || r.Ambiguous?) <==> OffersName(name, prefix, typ, filePath, entries, cfg)
  {
    hide ObjectName, OwningLibrary, Upper, ChainOf, NameMapOf, OffersName, FilterByType, BucketIn;
    OffersNameMeans(name, prefix, typ, filePath, entries, cfg);
    var candidates := Typed(name, typ, entries, cfg);
    ViaChainIsEarliest(candidates, ChainOf(filePath, cfg));
    assert |candidates| > 0 ==> candidates[0] in candidates;
  }

  /** Under a steplib chain a resolved path lies in the earliest chain library holding an object of that name and
      type, and is the first such object there in path order. */
  lemma ResolvedInEarliestLibrary(name: string, typ: ObjectType, filePath: string, edge: Edge, entries: Entries,
      cfg: Config)
    returns (m: nat)
    requires edge.library == "" && ChainOf(filePath, cfg) != []
    requires ByName(name, typ, filePath, edge, NameMapOf(entries, cfg), cfg).resolution.Resolved?
    ensures var path := ByName(name, typ, filePath, edge, NameMapOf(entries, cfg), cfg).resolution.path;
            var chain := ChainOf(filePath, cfg);
            && m < |chain| && path in TypedPaths(name, typ, entries) && OwningLibrary(path, cfg) == chain[m]
            && (forall q, p :: 0 <= q < m && p in TypedPaths(name, typ, entries) ==> OwningLibrary(p, cfg) != chain[q])
            && (forall p :: p in TypedPaths(name, typ, entries) && OwningLibrary(p, cfg) == chain[m] && p != path ==>
                Less(path, p))
  {
    hide ObjectName, OwningLibrary, Upper, ChainOf, NameMapOf, FilterByType, BucketIn;
    var candidates, chain := Typed(name, typ, entries, cfg), ChainOf(filePath, cfg);
    ViaChainIsEarliest(candidates, chain);
    var k: int;
    m, k :| EarliestReachable(candidates, chain, m) && FirstOfItsLibrary(candidates, k)
            && candidates[k].library == chain[m] && ViaChain(candidates, chain) == Some(candidates[k]);
    TypedMembers(name, typ, entries, cfg);
    assert candidates[k] in candidates;
    var path := candidates[k].path;
    forall q, p | 0 <= q < m && p in TypedPaths(name, typ, entries) ensures OwningLibrary(p, cfg) != chain[q] {
      assert CandidateAt(p, entries, cfg) in candidates;
    }
    forall p | p in TypedPaths(name, typ, entries) && OwningLibrary(p, cfg) == chain[m] && p != path
      ensures Less(path, p) {
      assert CandidateAt(p, entries, cfg) in candidates;
      var j :| 0 <= j < |candidates| && candidates[j] == CandidateAt(p, entries, cfg);
      TypedInPathOrder(name, typ, entries, cfg);
      assert j > k;
    }
  }

  ghost predicate InPathOrder(list: seq<Candidate>) {
    forall i, j :: 0 <= i < j < |list| ==> Less(list[i].path, list[j].path)
  }

  lemma {:induction false} FilterKeepsPathOrder(list: seq<Candidate>, typ: ObjectType)
    requires InPathOrder(list)
    ensures InPathOrder(FilterByType(list, typ))
  {
    if list != [] {
      FilterKeepsPathOrder(list[1..], typ);
      forall c | c in FilterByType(list[1..], typ) ensures Less(list[0].path, c.path) {
        FilterByTypeMembers(list[1..], typ, c);
        var i :| 0 <= i < |list[1..]| && list[1..][i] == c;
        assert list[i + 1] == c;
      }
    }
  }

  lemma TypedInPathOrder(name: string, typ: ObjectType, entries: Entries, cfg: Config)
    ensures InPathOrder(Typed(name, typ, entries, cfg))
  {
    hide ObjectName, OwningLibrary, Upper, NameMapOf;
    BucketInNameMap(Upper(name), entries, cfg);
    var bucket, order := Bucket(Upper(name), entries, cfg), Sorted(PathsNamed(Upper(name), entries));
    assert StrictlySorted(order);
    FilterKeepsPathOrder(bucket, typ);
  }

  /** Outside any chain, two or more objects of the name and type make the edge ambiguous among exactly those, in path
      order. */
  lemma AmbiguousListsAll(name: string, typ: ObjectType, filePath: string, edge: Edge, entries: Entries, cfg: Config)
    requires Upper(name) != "" && edge.library == ""
    ensures var r := ByName(name, typ, filePath, edge, NameMapOf(entries, cfg), cfg).resolution;
            && (r.Ambiguous? <==> ChainOf(filePath, cfg) == [] && |TypedPaths(name, typ, entries)| >= 2)
            && (r.Ambiguous? ==> r.candidates == Sorted(TypedPaths(name, typ, entries)))
  {
    hide ObjectName, OwningLibrary, Upper, ChainOf, NameMapOf, FilterByType, BucketIn;
    var candidates, paths := Typed(name, typ, entries, cfg), TypedPaths(name, typ, entries);
    TypedArrives(name, typ, entries, cfg);
    TypedInPathOrder(name, typ, entries, cfg);
    assert StrictlySorted(PathsOf(candidates));
    StrictlySortedIsUnique(PathsOf(candidates), Sorted(paths));
    SortingSorted(Sorted(paths));
    SortedLength(Sorted(paths));
  }

  lemma {:induction false} SortedLength(s: seq<string>)
    requires StrictlySorted(s)
    ensures |Elements(s)| == |s|
  {
    if s != [] {
      var n := |s| - 1;
      SortedLength(s[..n]);
      ElementsAppend(s[..n], s[n]);
      assert s == s[..n] + [s[n]];
      if s[n] in Elements(s[..n]) {
        var i :| 0 <= i < n && s[i] == s[n];
        LessIrreflexive(s[n]);
        assert false;
      }
    }
  }

  lemma {:induction false} SortingSorted(s: seq<string>)
    requires StrictlySorted(s)
    ensures SortStrings(s) == s
  {
    if s != [] {
      var n := |s| - 1;
      SortingSorted(s[..n]);
      InsertGreatest(s[..n], s[n]);
      assert s == s[..n] + [s[n]];
    }
  }

  lemma {:induction false} InsertGreatest(s: seq<string>, x: string)
    requires forall i :: 0 <= i < |s| ==> Less(s[i], x)
    ensures InsertSorted(s, x) == s + [x]
  {
    if s != [] {
      LessAntisymmetric(s[0], x);
      InsertGreatest(s[1..], x);
      assert s + [x] == [s[0]] + (s[1..] + [x]);
    }
  }

  // ----- The field resolver agrees with edge resolution -----

  /** `resolveCandidateViaChain`. */
  function CandidateViaChain(candidates: seq<Candidate>, filePath: string, cfg: Config): Option<Candidate> {
    if candidates == [] then None
    else if ChainOf(filePath, cfg) != [] then ViaChain(candidates, ChainOf(filePath, cfg))
    else Some(candidates[0])
  }

  /** The first data-area type with any candidate at all decides, reachable or not. */
  function FirstNonEmpty(name: string, types: seq<ObjectType>, names: NameMap): seq<Candidate> {
    if types == [] then []
    else
      var found := Lookup(name, types[0], names);
      if found != [] then found else FirstNonEmpty(name, types[1..], names)
  }

  /** `resolveDataAreaCandidate`. */
  function DataAreaCandidate(name: string, filePath: string, names: NameMap, cfg: Config): Option<Candidate> {
    CandidateViaChain(FirstNonEmpty(name, DATA_AREA_TYPES, names), filePath, cfg)
  }

  /** `ResolveDDMPath`; "" when nothing is reachable. */
  function DDMPath(name: string, filePath: string, names: NameMap, cfg: Config): string {
    var found := CandidateViaChain(Lookup(name, DDM, names), filePath, cfg);
    if found.Some? then found.value.path else ""
  }

  /** Under a chain a DDM path is that of the first candidate of the earliest chain library that has one: a same-named
      DDM outside the chain is never returned, and without one inside the result is empty. */
  lemma DDMPathIsReachable(name: string, filePath: string, names: NameMap, cfg: Config)
    requires ChainOf(filePath, cfg) != []
    ensures var found, chain := Lookup(name, DDM, names), ChainOf(filePath, cfg);
            if forall c :: c in found ==> c.library !in chain then DDMPath(name, filePath, names, cfg) == ""
            else exists m, k :: EarliestReachable(found, chain, m) && FirstOfItsLibrary(found, k)
                   && found[k].library == chain[m] && DDMPath(name, filePath, names, cfg) == found[k].path
  {
    hide ChainOf, Lookup, ViaChain;
    var found, chain := Lookup(name, DDM, names), ChainOf(filePath, cfg);
    ViaChainIsEarliest(found, chain);
    if ViaChain(found, chain).Some? {
      var m, k :| EarliestReachable(found, chain, m) && FirstOfItsLibrary(found, k)
                  && found[k].library == chain[m] && ViaChain(found, chain) == Some(found[k]);
      assert found[k] in found && found[k].library in chain;
    }
  }

  /** An edge outcome that binds to the candidate, alone or among others. */
  predicate BindsTo(r: Resolution, c: Candidate) {
    r == Resolved(c.path, c.objectType) || (r.Ambiguous? && c.path in r.candidates)
  }

  lemma {:induction false} SortStringsMembers(s: seq<string>, x: string)
    ensures x in SortStrings(s) <==> x in s
  {
    if s != [] {
      var n := |s| - 1;
      SortStringsMembers(s[..n], x);
      InsertMembers(SortStrings(s[..n]), s[n], x);
      assert s == s[..n] + [s[n]];
    }
  }

  lemma {:induction false} InsertMembers(s: seq<string>, y: string, x: string)
    ensures x in InsertSorted(s, y) <==> x == y || x in s
  {
    if s != [] && !Less(y, s[0]) {
      InsertMembers(s[1..], y, x);
      assert s == [s[0]] + s[1..];
    }
  }

  /** On one type's candidates the two resolvers bind to the same object, or both to none. */
  lemma OneTypeAgrees(typ: ObjectType, filePath: string, edge: Edge, names: NameMap, cfg: Config)
    requires Upper(edge.targetName) != "" && edge.library == "" && typ != NoType
    ensures var r := ByName(edge.targetName, typ, filePath, edge, names, cfg).resolution;
            var c := CandidateViaChain(Lookup(edge.targetName, typ, names), filePath, cfg);
            && (c.None? <==> r.Unresolved?)
            && (c.Some? ==> BindsTo(r, c.value))
  {
    hide Upper, ChainOf, BucketIn, FilterByType, ViaChain;
    var candidates := Lookup(edge.targetName, typ, names);
    ViaChainIsEarliest(candidates, ChainOf(filePath, cfg));
    if |candidates| >= 2 {
      SortStringsMembers(PathsOf(candidates), candidates[0].path);
      assert PathsOf(candidates)[0] == candidates[0].path;
    }
  }

  /** Some candidate lies in a library of the chain. */
  ghost predicate Reaches(candidates: seq<Candidate>, chain: seq<string>) {
    exists c :: c in candidates && c.library in chain
  }

  /** Type i is the first with an object of the name, all of them outside the chain, while the later type k has one
      inside. */
  ghost predicate ShadowedAt(types: seq<ObjectType>, name: string, names: NameMap, chain: seq<string>, i: int, k: int) {
    && 0 <= i < k < |types|
    && (forall j :: 0 <= j < i ==> Lookup(name, types[j], names) == [])
    && Lookup(name, types[i], names) != [] && !Reaches(Lookup(name, types[i], names), chain)
    && Reaches(Lookup(name, types[k], names), chain)
  }

  /** An unreachable object of an earlier type hides a reachable one of a later type. */
  ghost predicate IsShadowed(types: seq<ObjectType>, name: string, names: NameMap, chain: seq<string>) {
    chain != [] && exists i, k :: ShadowedAt(types, name, names, chain, i, k)
  }

  lemma ShadowedBehindEmpty(types: seq<ObjectType>, name: string, names: NameMap, chain: seq<string>)
    requires types != [] && Lookup(name, types[0], names) == []
    ensures IsShadowed(types, name, names, chain) <==> IsShadowed(types[1..], name, names, chain)
  {
    hide Lookup, Reaches;
    var rest := types[1..];
    if IsShadowed(types, name, names, chain) {
      var i, k :| ShadowedAt(types, name, names, chain, i, k);
      assert forall j :: 0 <= j < i - 1 ==> rest[j] == types[j + 1];
      assert ShadowedAt(rest, name, names, chain, i - 1, k - 1);
    }
    if IsShadowed(rest, name, names, chain) {
      var i, k :| ShadowedAt(rest, name, names, chain, i, k);
      assert forall j :: 0 < j < i + 1 ==> types[j] == rest[j - 1];
      assert ShadowedAt(types, name, names, chain, i + 1, k + 1);
    }
  }

  lemma ShadowedByFirst(types: seq<ObjectType>, name: string, names: NameMap, chain: seq<string>)
    requires types != [] && Lookup(name, types[0], names) != [] && chain != []
    ensures IsShadowed(types, name, names, chain) <==>
      && !Reaches(Lookup(name, types[0], names), chain)
      && exists k :: 0 < k < |types| && Reaches(Lookup(name, types[k], names), chain)
  {
    hide Lookup, Reaches;
    if !Reaches(Lookup(name, types[0], names), chain)
       && exists k :: 0 < k < |types| && Reaches(Lookup(name, types[k], names), chain) {
      var k :| 0 < k < |types| && Reaches(Lookup(name, types[k], names), chain);
      assert ShadowedAt(types, name, names, chain, 0, k);
    }
  }

  lemma CandidateIffReachable(candidates: seq<Candidate>, filePath: string, cfg: Config)
    requires candidates != []
    ensures CandidateViaChain(candidates, filePath, cfg).None? <==>
      ChainOf(filePath, cfg) != [] && !Reaches(candidates, ChainOf(filePath, cfg))
  {
    hide ChainOf, ViaChain;
    ViaChainIsEarliest(candidates, ChainOf(filePath, cfg));
  }

  /** Under a chain a data-area edge binds exactly if some data-area type has an object in the chain. */
  lemma {:induction false} BindsIffReachable(types: seq<ObjectType>, filePath: string, edge: Edge, names: NameMap,
      cfg: Config)
    requires Upper(edge.targetName) != "" && edge.library == "" && NoType !in types && ChainOf(filePath, cfg) != []
    ensures !ByDataArea(types, filePath, edge, names, cfg).resolution.Unresolved? <==>
      exists k :: 0 <= k < |types| && Reaches(Lookup(edge.targetName, types[k], names), ChainOf(filePath, cfg))
  {
    hide Upper, ChainOf, Lookup, ByName, CandidateViaChain, Reaches, BindsTo;
    if types != [] {
      var name, chain, rest := edge.targetName, ChainOf(filePath, cfg), types[1..];
      OneTypeAgrees(types[0], filePath, edge, names, cfg);
      BindsIffReachable(rest, filePath, edge, names, cfg);
      if Lookup(name, types[0], names) != [] {
        CandidateIffReachable(Lookup(name, types[0], names), filePath, cfg);
      } else {
        NothingReachable(filePath, cfg);
      }
      assert forall k :: 0 <= k < |rest| ==> rest[k] == types[k + 1];
      assert forall k :: 0 < k < |types| ==> types[k] == rest[k - 1];
    }
  }

  lemma NothingReachable(filePath: string, cfg: Config)
    ensures CandidateViaChain([], filePath, cfg).None? && forall chain :: !Reaches([], chain)
  {
  }

  lemma {:induction false} DataAreaTypesAgree(types: seq<ObjectType>, filePath: string, edge: Edge, names: NameMap,
      cfg: Config)
    requires Upper(edge.targetName) != "" && edge.library == "" && NoType !in types
    ensures var r := ByDataArea(types, filePath, edge, names, cfg).resolution;
            var c := CandidateViaChain(FirstNonEmpty(edge.targetName, types, names), filePath, cfg);
            && (c.Some? ==> BindsTo(r, c.value))
            && (c.None? && !r.Unresolved? <==> IsShadowed(types, edge.targetName, names, ChainOf(filePath, cfg)))
  {
    hide Upper, ChainOf, ByName, Lookup, BindsTo, CandidateViaChain, IsShadowed, Reaches;
    if types == [] {
      NothingReachable(filePath, cfg);
      NothingShadowed(edge.targetName, names, ChainOf(filePath, cfg));
    } else {
      var name, chain, rest := edge.targetName, ChainOf(filePath, cfg), types[1..];
      var found := Lookup(name, types[0], names);
      OneTypeAgrees(types[0], filePath, edge, names, cfg);
      DataAreaTypesAgree(rest, filePath, edge, names, cfg);
      if found == [] {
        NothingReachable(filePath, cfg);
        ShadowedBehindEmpty(types, name, names, chain);
      } else {
        BindsToIsBound(filePath, edge, types[0], names, cfg);
        CandidateIffReachable(found, filePath, cfg);
        if chain == [] {
          NoChainNoShadow(types, name, names);
        } else {
          ShadowedByFirst(types, name, names, chain);
          BindsIffReachable(rest, filePath, edge, names, cfg);
          assert forall k :: 0 <= k < |rest| ==> rest[k] == types[k + 1];
          assert forall k :: 0 < k < |types| ==> types[k] == rest[k - 1];
        }
      }
    }
  }

  lemma NothingShadowed(name: string, names: NameMap, chain: seq<string>)
    ensures !IsShadowed([], name, names, chain)
  {
  }

  lemma NoChainNoShadow(types: seq<ObjectType>, name: string, names: NameMap)
    ensures !IsShadowed(types, name, names, [])
  {
  }

  lemma BindsToIsBound(filePath: string, edge: Edge, typ: ObjectType, names: NameMap, cfg: Config)
    ensures var r := ByName(edge.targetName, typ, filePath, edge, names, cfg).resolution;
            forall c :: BindsTo(r, c) ==> !r.Unresolved?
  {
  }

  /** Whatever object the field resolver picks for a data area is the one the USING edge of that name binds to, alone or
      among others.  It misses an object the edge binds to exactly if, under a chain, the first data-area type with the
      name has it only outside the chain while a later type has it inside. */
  lemma FieldResolverAgreesWithEdge(filePath: string, fileType: ObjectType, edge: Edge, names: NameMap, cfg: Config)
    requires edge.kind == UsesDataArea && edge.library == "" && Upper(edge.targetName) != ""
    ensures var r := EdgeOutcome(edge, filePath, fileType, names, cfg).resolution;
            var c := DataAreaCandidate(edge.targetName, filePath, names, cfg);
            && (c.Some? ==> BindsTo(r, c.value))
            && (c.None? && !r.Unresolved? <==>
                IsShadowed(DATA_AREA_TYPES, edge.targetName, names, ChainOf(filePath, cfg)))
  {
    hide ByDataArea, FirstNonEmpty, CandidateViaChain, BindsTo, IsShadowed, Upper, ChainOf;
    DataAreaTypesAgree(DATA_AREA_TYPES, filePath, edge, names, cfg);
  }

  // ----- A workspace where the two disagree -----

  const SHADOW_CONFIG := Config([Library("A", "a", [])])

  /** A local data area outside every library and a parameter data area of the same name in library A. */
  function ShadowEntries(local: FileAnalysis, parameter: FileAnalysis): Entries {
    map["b/X" := local, "a/X" := parameter]
  }

  lemma ShadowName(path: string)
    requires |path| == 3 && path[1..] == "/X"
    ensures ObjectName(path) == "X" && Upper("X") == "X"
  {
    assert PathExt("X") == "" by {
      assert PathExtFrom("X", 0) == "" && PathExtFrom("X", 1) == "";
    }
    assert Upper("X") == "X";
    hide PathExt, Upper;
    assert path[2] == path[1..][1] && path[1] == path[1..][0];
    assert StripSlashes(path) == path && AfterLastSlash(path[..2]) == "";
    assert PathBase(path) == AfterLastSlash(path) == "X" && "X"[..1] == "X";
  }

  lemma ShadowLibraries()
    ensures OwningLibrary("b/X", SHADOW_CONFIG) == "" && OwningLibrary("a/X", SHADOW_CONFIG) == "A"
    ensures ChainOf("a/M", SHADOW_CONFIG) == ["A", "SYSTEM"]
  {
    var libs := SHADOW_CONFIG.libraries;
    assert libs[0].path[0] != "b/X"[0];
    assert !Owns(libs[0], "b/X") && Owns(libs[0], "a/X") && Owns(libs[0], "a/M");
    assert BestMatch("b/X", libs, 0).None? && BestMatch("a/X", libs, 0).None? && BestMatch("a/M", libs, 0).None?;
    assert BestMatch("a/M", libs, 1) == Some(libs[0]) && BestMatch("a/X", libs, 1) == Some(libs[0]);
  }

  /** From a file of library A the edge binds the parameter data area; the field resolver finds nothing. */
  lemma ShadowedDataAreaIsMissed(local: FileAnalysis, parameter: FileAnalysis, fileType: ObjectType, edge: Edge)
    requires local.objectType == LocalDataArea && parameter.objectType == ParameterDataArea
    requires edge.kind == UsesDataArea && edge.library == "" && edge.targetName == "X"
    ensures var names := NameMapOf(ShadowEntries(local, parameter), SHADOW_CONFIG);
            && EdgeOutcome(edge, "a/M", fileType, names, SHADOW_CONFIG).resolution == Resolved("a/X", ParameterDataArea)
            && DataAreaCandidate("X", "a/M", names, SHADOW_CONFIG).None?
  {
    hide ObjectName, OwningLibrary, NameMapOf, ChainOf, Upper, Lookup, ByName, BindsTo, FirstNonEmpty,
      CandidateViaChain;
    ShadowName("b/X");
    ShadowName("a/X");
    ShadowLibraries();
    var entries, cfg, chain := ShadowEntries(local, parameter), SHADOW_CONFIG, ChainOf("a/M", SHADOW_CONFIG);
    var names := NameMapOf(entries, cfg);
    var outside, inside := CandidateAt("b/X", entries, cfg), CandidateAt("a/X", entries, cfg);
    assert TypedPaths("X", LocalDataArea, entries) == {"b/X"} && TypedPaths("X", ParameterDataArea, entries) == {"a/X"};
    OnlyCandidate("X", LocalDataArea, "b/X", entries, cfg);
    OnlyCandidate("X", ParameterDataArea, "a/X", entries, cfg);
    assert !Reaches([outside], chain) && inside in [inside] && Reaches([inside], chain);
    CandidateIffReachable([outside], "a/M", cfg);
    CandidateIffReachable([inside], "a/M", cfg);
    OneTypeAgrees(LocalDataArea, "a/M", edge, names, cfg);
    ChainBinds(ParameterDataArea, "a/M", edge, inside, names, cfg);
    FirstDecides("X", DATA_AREA_TYPES, names);
    var rest := DATA_AREA_TYPES[1..];
    assert rest[0] == ParameterDataArea && inside.path == "a/X" && inside.objectType == ParameterDataArea;
    assert ByDataArea(rest, "a/M", edge, names, cfg) == ByName("X", ParameterDataArea, "a/M", edge, names, cfg);
    assert ByDataArea(DATA_AREA_TYPES, "a/M", edge, names, cfg) == ByDataArea(rest, "a/M", edge, names, cfg);
  }

  lemma FirstDecides(name: string, types: seq<ObjectType>, names: NameMap)
    requires types != [] && Lookup(name, types[0], names) != []
    ensures FirstNonEmpty(name, types, names) == Lookup(name, types[0], names)
  {
  }

  lemma OnlyCandidate(name: string, typ: ObjectType, path: string, entries: Entries, cfg: Config)
    requires typ != NoType && TypedPaths(name, typ, entries) == {path} && path in entries
    ensures Lookup(name, typ, NameMapOf(entries, cfg)) == [CandidateAt(path, entries, cfg)]
  {
    hide ObjectName, OwningLibrary, NameMapOf, Upper;
    TypedArrives(name, typ, entries, cfg);
    var found, c := Typed(name, typ, entries, cfg), CandidateAt(path, entries, cfg);
    TypedMembers(name, typ, entries, cfg);
    assert path in TypedPaths(name, typ, entries);
    assert c in found;
    forall i | 0 <= i < |found| ensures found[i] == c {
      assert found[i] in found && found[i].path in TypedPaths(name, typ, entries);
    }
    assert |found| > 1 ==> found[0].path != found[1].path;
  }

  /** A type whose one candidate lies in the chain binds to it. */
  lemma ChainBinds(typ: ObjectType, filePath: string, edge: Edge, c: Candidate, names: NameMap, cfg: Config)
    requires Upper(edge.targetName) != "" && edge.library == "" && typ != NoType && ChainOf(filePath, cfg) != []
    requires Lookup(edge.targetName, typ, names) == [c] && c.library in ChainOf(filePath, cfg)
    ensures ByName(edge.targetName, typ, filePath, edge, names, cfg).resolution == Resolved(c.path, c.objectType)
  {
    hide Upper, ChainOf, BucketIn, FilterByType, ViaChain;
    ViaChainIsEarliest([c], ChainOf(filePath, cfg));
    assert c in [c];
  }
}
