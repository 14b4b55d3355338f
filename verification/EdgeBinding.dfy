/** What an edge binds to, told of the indexed files alone (`resolveEdge`, `resolveByName` in
    internal/workspace/resolution.go). */
module EdgeBinding {
  import opened Model
  import opened Text
  import opened Identity
  import opened NameIndex
  import opened Resolution
  import opened Agreement
  import Invalidation

  /** The file is an object of the name and type, and lies where the edge may look: in the library it names; without
      one, in the referencing file's chain, or anywhere if that file has no chain. */
  ghost predicate Visible(path: string, edge: Edge, typ: ObjectType, filePath: string, entries: Entries, cfg: Config) {
    && path in entries && ObjectName(path) == Upper(edge.targetName) && entries[path].objectType == typ
    && if edge.library != "" then OwningLibrary(path, cfg) == edge.library
       else ChainOf(filePath, cfg) != [] ==> OwningLibrary(path, cfg) in ChainOf(filePath, cfg)
  }

  /** One visible file goes before another: in the library named, by path; in the chain, by library and then by path;
      with neither, never. */
  ghost predicate GoesBefore(path: string, other: string, edge: Edge, filePath: string, cfg: Config) {
    if edge.library != "" then Less(path, other)
    else exists m :: ComesFirst(path, other, ChainOf(filePath, cfg), m, cfg)
  }

  /** The one file lies in library m of the chain; the other in none before it, and behind the one if in the same. */
  ghost predicate ComesFirst(path: string, other: string, chain: seq<string>, m: int, cfg: Config) {
    && 0 <= m < |chain| && OwningLibrary(path, cfg) == chain[m]
    && (forall q :: 0 <= q < m ==> OwningLibrary(other, cfg) != chain[q])
    && (OwningLibrary(other, cfg) == chain[m] ==> Less(path, other))
  }

  /** The outcome for an edge that asks for a type: unresolved exactly without a name or a visible file; resolved to a
      file that goes before every other visible one; or ambiguous, with a warning, among all of two or more. */
  ghost predicate BindsAs(o: Outcome, edge: Edge, typ: ObjectType, filePath: string, entries: Entries, cfg: Config) {
    var r := o.resolution;
    && (r.Unresolved? <==>
         Upper(edge.targetName) == "" || forall p :: !Visible(p, edge, typ, filePath, entries, cfg))
    && (r.Unresolved? ==> r.reason == NoTarget)
    && (r.Resolved? ==>
         && r.objectType == typ && Visible(r.path, edge, typ, filePath, entries, cfg)
         && forall p :: Visible(p, edge, typ, filePath, entries, cfg) && p != r.path ==>
              GoesBefore(r.path, p, edge, filePath, cfg))
    && (r.Ambiguous? ==>
         && edge.library == "" && ChainOf(filePath, cfg) == [] && |r.candidates| >= 2 && StrictlySorted(r.candidates)
         && forall p :: p in r.candidates <==> Visible(p, edge, typ, filePath, entries, cfg))
    && o.warnings == if r.Ambiguous? then [Warning(edge, r.candidates)] else []
  }

  /** The message names the target and the files in order. */
  function Warning(edge: Edge, paths: seq<string>): Diagnostic {
    AmbiguityWarning("ambiguous reference '" + edge.targetName + "': matches " + Join(paths, ", "), edge.source)
  }

  /** The candidates hold each visible file, at some place. */
  lemma SeenAt(p: string, edge: Edge, typ: ObjectType, filePath: string, entries: Entries, cfg: Config)
    returns (j: nat)
    requires Visible(p, edge, typ, filePath, entries, cfg)
    ensures j < |Typed(edge.targetName, typ, entries, cfg)|
    ensures Typed(edge.targetName, typ, entries, cfg)[j] == CandidateAt(p, entries, cfg)
  {
    hide ObjectName, OwningLibrary, Upper, ChainOf, Typed;
    TypedMembers(edge.targetName, typ, entries, cfg);
    var list := Typed(edge.targetName, typ, entries, cfg);
    assert CandidateAt(p, entries, cfg) in list;
    j :| 0 <= j < |list| && list[j] == CandidateAt(p, entries, cfg);
  }

  /** And nothing else of the name and type. */
  lemma MemberIs(edge: Edge, typ: ObjectType, entries: Entries, cfg: Config, k: nat)
    requires k < |Typed(edge.targetName, typ, entries, cfg)|
    ensures var c := Typed(edge.targetName, typ, entries, cfg)[k];
            && c.path in entries && ObjectName(c.path) == Upper(edge.targetName)
            && c.objectType == entries[c.path].objectType == typ && c.library == OwningLibrary(c.path, cfg)
  {
    hide ObjectName, OwningLibrary, Upper, ChainOf, Typed;
    TypedMembers(edge.targetName, typ, entries, cfg);
    assert Typed(edge.targetName, typ, entries, cfg)[k] in Typed(edge.targetName, typ, entries, cfg);
  }

  lemma InOrder(edge: Edge, typ: ObjectType, entries: Entries, cfg: Config, i: nat, j: nat)
    requires i < j < |Typed(edge.targetName, typ, entries, cfg)|
    ensures Less(Typed(edge.targetName, typ, entries, cfg)[i].path, Typed(edge.targetName, typ, entries, cfg)[j].path)
  {
    hide Typed;
    TypedInPathOrder(edge.targetName, typ, entries, cfg);
  }

  lemma InLibrary(edge: Edge, typ: ObjectType, filePath: string, entries: Entries, cfg: Config)
    requires edge.library != "" && Upper(edge.targetName) != ""
    ensures var found := FirstInLibrary(Typed(edge.targetName, typ, entries, cfg), edge.library);
            BindsAs(FromCandidate(found), edge, typ, filePath, entries, cfg)
  {
    hide ObjectName, OwningLibrary, Upper, ChainOf, Typed, Less, Warning;
    var list := Typed(edge.targetName, typ, entries, cfg);
    FirstInLibraryPicks(list, edge.library);
    hide FirstInLibrary;
    if FirstInLibrary(list, edge.library).None? {
      assert forall j :: 0 <= j < |list| ==> list[j] in list;
      forall p ensures !Visible(p, edge, typ, filePath, entries, cfg) {
        if Visible(p, edge, typ, filePath, entries, cfg) {
          var j := SeenAt(p, edge, typ, filePath, entries, cfg);
        }
      }
    } else {
      var k :| FirstOfItsLibrary(list, k) && list[k].library == edge.library
               && FirstInLibrary(list, edge.library) == Some(list[k]);
      MemberIs(edge, typ, entries, cfg, k);
      assert Visible(list[k].path, edge, typ, filePath, entries, cfg);
      forall p | Visible(p, edge, typ, filePath, entries, cfg) && p != list[k].path
        ensures GoesBefore(list[k].path, p, edge, filePath, cfg)
      {
        var j := SeenAt(p, edge, typ, filePath, entries, cfg);
        InOrder(edge, typ, entries, cfg, k, j);
      }
    }
  }

  lemma InChain(edge: Edge, typ: ObjectType, filePath: string, entries: Entries, cfg: Config)
    requires edge.library == "" && ChainOf(filePath, cfg) != [] && Upper(edge.targetName) != ""
    ensures var found := ViaChain(Typed(edge.targetName, typ, entries, cfg), ChainOf(filePath, cfg));
            BindsAs(FromCandidate(found), edge, typ, filePath, entries, cfg)
  {
    hide ObjectName, OwningLibrary, Upper, ChainOf, Typed, Less, Warning;
    var list, chain := Typed(edge.targetName, typ, entries, cfg), ChainOf(filePath, cfg);
    ViaChainIsEarliest(list, chain);
    hide ViaChain;
    if ViaChain(list, chain).None? {
      assert forall j :: 0 <= j < |list| ==> list[j] in list;
      forall p ensures !Visible(p, edge, typ, filePath, entries, cfg) {
        if Visible(p, edge, typ, filePath, entries, cfg) {
          var j := SeenAt(p, edge, typ, filePath, entries, cfg);
        }
      }
    } else {
      var m, k :| EarliestReachable(list, chain, m) && FirstOfItsLibrary(list, k) && list[k].library == chain[m]
                  && ViaChain(list, chain) == Some(list[k]);
      MemberIs(edge, typ, entries, cfg, k);
      assert Visible(list[k].path, edge, typ, filePath, entries, cfg);
      forall p | Visible(p, edge, typ, filePath, entries, cfg) && p != list[k].path
        ensures GoesBefore(list[k].path, p, edge, filePath, cfg)
      {
        FirstOfChain(edge, typ, filePath, entries, cfg, m, k, p);
      }
    }
  }

  lemma FirstOfChain(edge: Edge, typ: ObjectType, filePath: string, entries: Entries, cfg: Config, m: int, k: int,
      p: string)
    requires var list, chain := Typed(edge.targetName, typ, entries, cfg), ChainOf(filePath, cfg);
             && EarliestReachable(list, chain, m) && FirstOfItsLibrary(list, k) && list[k].library == chain[m]
             && Visible(p, edge, typ, filePath, entries, cfg) && p != list[k].path
    ensures ComesFirst(Typed(edge.targetName, typ, entries, cfg)[k].path, p, ChainOf(filePath, cfg), m, cfg)
  {
    hide ObjectName, OwningLibrary, Upper, ChainOf, Typed, Less;
    var list, chain := Typed(edge.targetName, typ, entries, cfg), ChainOf(filePath, cfg);
    MemberIs(edge, typ, entries, cfg, k);
    var j := SeenAt(p, edge, typ, filePath, entries, cfg);
    assert list[j] in list;
    if OwningLibrary(p, cfg) == chain[m] {
      InOrder(edge, typ, entries, cfg, k, j);
    }
  }

  lemma InFlat(edge: Edge, typ: ObjectType, filePath: string, entries: Entries, cfg: Config)
    requires edge.library == "" && ChainOf(filePath, cfg) == [] && Upper(edge.targetName) != ""
    ensures BindsAs(Flat(edge.targetName, edge, Typed(edge.targetName, typ, entries, cfg)), edge, typ, filePath,
                    entries, cfg)
  {
    hide ObjectName, OwningLibrary, Upper, ChainOf, Typed, Less, Warning, Flat, Visible, BindsAs;
    var list := Typed(edge.targetName, typ, entries, cfg);
    TypedInPathOrder(edge.targetName, typ, entries, cfg);
    FlatOutcome(edge, list);
    forall p ensures p in PathsOf(list) <==> Visible(p, edge, typ, filePath, entries, cfg) {
      FlatSees(p, edge, typ, filePath, entries, cfg);
    }
    if |list| > 0 {
      MemberIs(edge, typ, entries, cfg, 0);
    }
    FlatBinds(edge, typ, filePath, entries, cfg, PathsOf(list));
  }

  lemma FlatBinds(edge: Edge, typ: ObjectType, filePath: string, entries: Entries, cfg: Config, paths: seq<string>)
    requires edge.library == "" && ChainOf(filePath, cfg) == [] && Upper(edge.targetName) != ""
    requires StrictlySorted(paths)
    requires forall p :: p in paths <==> Visible(p, edge, typ, filePath, entries, cfg)
    ensures BindsAs(if |paths| == 0 then Outcome(Unresolved(NoTarget), [])
                    else if |paths| == 1 then Outcome(Resolved(paths[0], typ), [])
                    else Outcome(Ambiguous(paths), [Warning(edge, paths)]), edge, typ, filePath, entries, cfg)
  {
    hide Visible, ChainOf, Warning, Less, Upper, GoesBefore;
    assert |paths| > 0 ==> paths[0] in paths;
  }

  lemma FlatOutcome(edge: Edge, list: seq<Candidate>)
    requires StrictlySorted(PathsOf(list))
    ensures Flat(edge.targetName, edge, list)
         == if |list| == 0 then Outcome(Unresolved(NoTarget), [])
            else if |list| == 1 then Outcome(Resolved(list[0].path, list[0].objectType), [])
            else Outcome(Ambiguous(PathsOf(list)), [Warning(edge, PathsOf(list))])
  {
    hide Join, SortStrings;
    SortingSorted(PathsOf(list));
  }

  lemma FlatSees(p: string, edge: Edge, typ: ObjectType, filePath: string, entries: Entries, cfg: Config)
    requires edge.library == "" && ChainOf(filePath, cfg) == []
    ensures p in PathsOf(Typed(edge.targetName, typ, entries, cfg)) <==> Visible(p, edge, typ, filePath, entries, cfg)
  {
    hide ObjectName, OwningLibrary, Upper, ChainOf, Typed;
    var list := Typed(edge.targetName, typ, entries, cfg);
    if Visible(p, edge, typ, filePath, entries, cfg) {
      var j := SeenAt(p, edge, typ, filePath, entries, cfg);
      assert PathsOf(list)[j] == p;
    }
    if p in PathsOf(list) {
      var j :| 0 <= j < |list| && PathsOf(list)[j] == p;
      MemberIs(edge, typ, entries, cfg, j);
    }
  }

  lemma NameBinds(edge: Edge, typ: ObjectType, filePath: string, entries: Entries, cfg: Config)
    ensures BindsAs(ByName(edge.targetName, typ, filePath, edge, NameMapOf(entries, cfg), cfg), edge, typ, filePath,
                    entries, cfg)
  {
    hide ObjectName, OwningLibrary, Upper, ChainOf, NameMapOf, FilterByType, BucketIn, Flat, ViaChain, FirstInLibrary,
      BindsAs;
    if Upper(edge.targetName) == "" {
      NothingNamed(edge, typ, filePath, entries, cfg);
    } else if edge.library != "" {
      InLibrary(edge, typ, filePath, entries, cfg);
    } else if ChainOf(filePath, cfg) != [] {
      InChain(edge, typ, filePath, entries, cfg);
    } else {
      InFlat(edge, typ, filePath, entries, cfg);
    }
  }

  lemma NothingNamed(edge: Edge, typ: ObjectType, filePath: string, entries: Entries, cfg: Config)
    requires Upper(edge.targetName) == ""
    ensures BindsAs(NOT_FOUND, edge, typ, filePath, entries, cfg)
  {
  }

  /** What each kind of edge asks for.  A call binds a subprogram, a navigation a program, an inclusion a copycode, a
      PERFORM without a target range an external subroutine, and with one the file itself; a data area is looked for as
      local, then as parameter, then as global; a dynamic target and a data access bind nothing. */
  lemma EdgeBinds(edge: Edge, filePath: string, fileType: ObjectType, entries: Entries, cfg: Config)
    ensures var o := EdgeOutcome(edge, filePath, fileType, NameMapOf(entries, cfg), cfg);
            && (edge.kind == Calls ==> BindsAs(o, edge, Subprogram, filePath, entries, cfg))
            && (edge.kind == NavigatesTo ==> BindsAs(o, edge, Program, filePath, entries, cfg))
            && (edge.kind == Includes ==> BindsAs(o, edge, Copycode, filePath, entries, cfg))
            && (edge.kind == Performs && edge.target == ZERO_RANGE ==>
                 BindsAs(o, edge, ExternalSubroutine, filePath, entries, cfg))
            && (edge.kind == Performs && edge.target != ZERO_RANGE ==> o == Outcome(Resolved(filePath, fileType), []))
            && (edge.kind == CallsDynamic || edge.kind == NavigatesToDynamic ==> o == Outcome(Unresolved(Dynamic), []))
            && (edge.kind == Reads || edge.kind == Writes ==> o == Outcome(Unresolved(NoTarget), []))
            && (edge.kind == UsesDataArea ==>
                 || BindsAs(o, edge, LocalDataArea, filePath, entries, cfg)
                 || (Hidden(edge, LocalDataArea, filePath, entries, cfg)
                     && BindsAs(o, edge, ParameterDataArea, filePath, entries, cfg))
                 || (Hidden(edge, LocalDataArea, filePath, entries, cfg)
                     && Hidden(edge, ParameterDataArea, filePath, entries, cfg)
                     && BindsAs(o, edge, GlobalDataArea, filePath, entries, cfg)))
  {
    hide ByName, NameMapOf, BindsAs;
    NameBinds(edge, Subprogram, filePath, entries, cfg);
    NameBinds(edge, Program, filePath, entries, cfg);
    NameBinds(edge, Copycode, filePath, entries, cfg);
    NameBinds(edge, ExternalSubroutine, filePath, entries, cfg);
    if edge.kind == UsesDataArea {
      DataAreaBinds(edge, filePath, entries, cfg);
    }
  }

  /** Nothing of that type to bind. */
  ghost predicate Hidden(edge: Edge, typ: ObjectType, filePath: string, entries: Entries, cfg: Config) {
    Upper(edge.targetName) == "" || forall p :: !Visible(p, edge, typ, filePath, entries, cfg)
  }

  lemma UnresolvedIsHidden(o: Outcome, edge: Edge, typ: ObjectType, filePath: string, entries: Entries, cfg: Config)
    requires BindsAs(o, edge, typ, filePath, entries, cfg)
    ensures o.resolution.Unresolved? <==> Hidden(edge, typ, filePath, entries, cfg)
    ensures o.resolution.Unresolved? ==> o == NOT_FOUND
  {
    hide Visible, GoesBefore, Warning, ChainOf;
  }

  lemma DataAreaBinds(edge: Edge, filePath: string, entries: Entries, cfg: Config)
    ensures var o := ByDataArea(DATA_AREA_TYPES, filePath, edge, NameMapOf(entries, cfg), cfg);
            || BindsAs(o, edge, LocalDataArea, filePath, entries, cfg)
            || (Hidden(edge, LocalDataArea, filePath, entries, cfg)
                && BindsAs(o, edge, ParameterDataArea, filePath, entries, cfg))
            || (Hidden(edge, LocalDataArea, filePath, entries, cfg)
                && Hidden(edge, ParameterDataArea, filePath, entries, cfg)
                && BindsAs(o, edge, GlobalDataArea, filePath, entries, cfg))
  {
    hide ByName, NameMapOf, BindsAs, Hidden;
    var names := NameMapOf(entries, cfg);
    var l, p, g := ByName(edge.targetName, LocalDataArea, filePath, edge, names, cfg),
          ByName(edge.targetName, ParameterDataArea, filePath, edge, names, cfg),
          ByName(edge.targetName, GlobalDataArea, filePath, edge, names, cfg);
    NameBinds(edge, LocalDataArea, filePath, entries, cfg);
    NameBinds(edge, ParameterDataArea, filePath, entries, cfg);
    NameBinds(edge, GlobalDataArea, filePath, entries, cfg);
    UnresolvedIsHidden(l, edge, LocalDataArea, filePath, entries, cfg);
    UnresolvedIsHidden(p, edge, ParameterDataArea, filePath, entries, cfg);
    UnresolvedIsHidden(g, edge, GlobalDataArea, filePath, entries, cfg);
    var global: seq<ObjectType> := [GlobalDataArea];
    var later: seq<ObjectType> := [ParameterDataArea, GlobalDataArea];
    assert global[1..] == [] && later[1..] == global && DATA_AREA_TYPES[1..] == later;
    assert ByDataArea(global, filePath, edge, names, cfg) == if g.resolution.Unresolved? then NOT_FOUND else g;
    assert ByDataArea(later, filePath, edge, names, cfg)
        == if p.resolution.Unresolved? then ByDataArea(global, filePath, edge, names, cfg) else p;
  }

  /** The only object of the name and type is what an unqualified edge outside any chain binds to. */
  lemma LoneObjectIsBound(o: Outcome, edge: Edge, typ: ObjectType, filePath: string, entries: Entries, cfg: Config,
      path: string)
    requires BindsAs(o, edge, typ, filePath, entries, cfg)
    requires Upper(edge.targetName) != "" && edge.library == "" && ChainOf(filePath, cfg) == []
    requires forall p :: p in entries && ObjectName(p) == Upper(edge.targetName) && entries[p].objectType == typ <==>
               p == path
    ensures o == Outcome(Resolved(path, typ), [])
  {
    hide ObjectName, OwningLibrary, ChainOf, Upper;
    assert Visible(path, edge, typ, filePath, entries, cfg);
    if o.resolution.Ambiguous? {
      var list := o.resolution.candidates;
      assert list[0] in list && list[1] in list;
      LessIrreflexive(path);
    }
  }

  /** A qualified edge never leaves the library it names. */
  lemma QualifiedStaysInside(o: Outcome, edge: Edge, typ: ObjectType, filePath: string, entries: Entries, cfg: Config)
    requires BindsAs(o, edge, typ, filePath, entries, cfg) && edge.library != ""
    ensures !o.resolution.Ambiguous?
    ensures o.resolution.Resolved? ==> OwningLibrary(o.resolution.path, cfg) == edge.library
  {
    hide ObjectName, OwningLibrary, ChainOf, Upper;
  }

  // ----- Whole files -----

  /** Each source range of a file's edges has a site, that of its last edge, and nothing else has. */
  lemma {:induction false} SitesAreSources(edges: seq<Edge>, filePath: string, fileType: ObjectType, names: NameMap,
      cfg: Config, key: SiteKey)
    ensures key in FileSites(edges, filePath, fileType, names, cfg) <==>
      key.filePath == filePath && exists i :: 0 <= i < |edges| && edges[i].source == key.source
  {
    hide EdgeOutcome;
    if edges != [] {
      var n := |edges| - 1;
      SitesAreSources(edges[..n], filePath, fileType, names, cfg, key);
      assert forall i :: 0 <= i < n ==> edges[..n][i] == edges[i];
    }
  }

  /** The last edge of its range, in any file of the index, has its binding in the full result. */
  lemma EdgeIsBound(entries: Entries, cfg: Config, p: string, i: nat)
    requires p in entries && i < |entries[p].edges|
    requires forall j :: i < j < |entries[p].edges| ==> entries[p].edges[j].source != entries[p].edges[i].source
    ensures var edge, sites := entries[p].edges[i], FullBindings(entries, cfg).sites;
            && SiteKey(p, edge.source) in sites
            && sites[SiteKey(p, edge.source)]
                 == EdgeOutcome(edge, p, entries[p].objectType, NameMapOf(entries, cfg), cfg).resolution
  {
    hide EdgeOutcome, NameMapOf, FileSites, SiteKeys;
    var fa, names, key := entries[p], NameMapOf(entries, cfg), SiteKey(p, entries[p].edges[i].source);
    SitesAreSources(fa.edges, p, fa.objectType, names, cfg, key);
    var k := SiteHasEdge(fa.edges, p, fa.objectType, names, cfg, key);
    assert k == i;
  }

  /** The warnings of a file are those of its edges. */
  lemma {:induction false} WarningsAreEdges(edges: seq<Edge>, filePath: string, fileType: ObjectType, names: NameMap,
      cfg: Config, d: Diagnostic)
    ensures d in FileWarnings(edges, filePath, fileType, names, cfg) <==>
      exists i :: 0 <= i < |edges| && d in EdgeOutcome(edges[i], filePath, fileType, names, cfg).warnings
  {
    hide EdgeOutcome;
    if edges != [] {
      var n := |edges| - 1;
      WarningsAreEdges(edges[..n], filePath, fileType, names, cfg, d);
      assert forall i :: 0 <= i < n ==> edges[..n][i] == edges[i];
    }
  }

  // ----- Invalidation -----

  /** A file whose INCLUDE resolves to a copycode is invalidated with it. */
  lemma IncluderIsInvalidated(entries: Entries, cfg: Config, d: string, edge: Edge, path: string)
    requires d in entries && edge in entries[d].edges && edge.kind == Includes
    requires var r := EdgeOutcome(edge, d, entries[d].objectType, NameMapOf(entries, cfg), cfg).resolution;
             r.Resolved? && r.path == path
    ensures path in entries && entries[path].objectType == Copycode && Invalidation.IsInvalidated(entries, path, d)
  {
    hide EdgeOutcome, NameMapOf, ObjectName, Upper, OwningLibrary, ChainOf, GoesBefore;
    EdgeBinds(edge, d, entries[d].objectType, entries, cfg);
    assert Visible(path, edge, Copycode, d, entries, cfg);
    assert Invalidation.IncludesName(entries[d], ObjectName(path));
    Invalidation.DirectDepends(entries, path, d);
  }

  /** And only files with an INCLUDE are: the object it names is the changed one or another that is invalidated. */
  lemma OnlyIncludersAreInvalidated(entries: Entries, path: string, d: string) returns (edge: Edge, via: string)
    requires Invalidation.IsInvalidated(entries, path, d)
    ensures d in entries && edge in entries[d].edges && edge.kind == Includes
    ensures Upper(edge.targetName) == ObjectName(via)
    ensures via == path || Invalidation.DependsOn(entries, path, via)
  {
    hide ObjectName, Upper;
    var trail :| Invalidation.IsTrail(entries, trail) && |trail| > 1 && trail[0] == path && trail[|trail| - 1] == d;
    var n := |trail| - 1;
    via := trail[n - 1];
    assert Invalidation.Includes1(entries, trail[n - 1], trail[n]);
    edge :| edge in entries[d].edges && edge.kind == Includes && Upper(edge.targetName) == ObjectName(via);
    if n > 1 {
      assert Invalidation.IsTrail(entries, trail[..n]);
    }
  }

  // ----- A workspace -----

  lemma SubNames()
    ensures ObjectName("lib/SUB1.NSN") == "SUB1" && Upper("sub1") == "SUB1"
    ensures ChainOf("P.NSP", Config([])) == []
  {
    assert Upper("sub1") == "SUB1" && Upper("SUB1") == "SUB1";
    hide Upper, ObjectName;
    StemOf("lib/", "SUB1", "NSN");
    assert "lib/" + "SUB1" + "." + "NSN" == "lib/SUB1.NSN";
  }

  /** One subprogram, called and fetched by its name: the call binds it, the fetch binds nothing. */
  lemma CallBindsSubprogram(sub: FileAnalysis, edge: Edge)
    requires sub.objectType == Subprogram && edge.targetName == "sub1" && edge.library == ""
    ensures var entries, cfg := map["lib/SUB1.NSN" := sub], Config([]);
            var r := EdgeOutcome(edge, "P.NSP", Program, NameMapOf(entries, cfg), cfg).resolution;
            && (edge.kind == Calls ==> r == Resolved("lib/SUB1.NSN", Subprogram))
            && (edge.kind == NavigatesTo ==> r == Unresolved(NoTarget))
  {
    hide ObjectName, Upper, EdgeOutcome, NameMapOf, BindsAs, OwningLibrary;
    SubNames();
    var entries, cfg: Config := map["lib/SUB1.NSN" := sub], Config([]);
    EdgeBinds(edge, "P.NSP", Program, entries, cfg);
    var o := EdgeOutcome(edge, "P.NSP", Program, NameMapOf(entries, cfg), cfg);
    if edge.kind == Calls {
      LoneObjectIsBound(o, edge, Subprogram, "P.NSP", entries, cfg, "lib/SUB1.NSN");
    } else if edge.kind == NavigatesTo {
      UnresolvedIsHidden(o, edge, Program, "P.NSP", entries, cfg);
    }
  }
}
