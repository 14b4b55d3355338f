/** The workspace index and its lazily built name cache (`Index` in internal/workspace/index.go). */
module NameIndex {
  import opened Model
  import opened Text
  import opened Identity

  type NameMap = map<string, seq<Candidate>>

  function CandidateAt(path: string, entries: Entries, cfg: Config): Candidate
    requires path in entries
  {
    Candidate(path, ObjectName(path), OwningLibrary(path, cfg), entries[path].objectType)
  }

  /** The candidates of a set of indexed paths, in path order. */
  ghost function Listing(paths: set<string>, entries: Entries, cfg: Config): (r: seq<Candidate>)
    requires paths <= entries.Keys
    ensures |r| == |Sorted(paths)|
    ensures forall i :: 0 <= i < |r| ==>
              r[i].path == Sorted(paths)[i] && r[i].path in paths && r[i] == CandidateAt(r[i].path, entries, cfg)
  {
    var order := Sorted(paths);
    assert forall i :: 0 <= i < |order| ==> order[i] in Elements(order);
    seq(|order|, i requires 0 <= i < |order| => CandidateAt(order[i], entries, cfg))
  }

  lemma ListingMembers(paths: set<string>, entries: Entries, cfg: Config, c: Candidate)
    requires paths <= entries.Keys
    ensures c in Listing(paths, entries, cfg) <==> c.path in paths && c == CandidateAt(c.path, entries, cfg)
  {
    var order := Sorted(paths);
    if c.path in paths && c == CandidateAt(c.path, entries, cfg) {
      assert c.path in Elements(order);
      var i :| 0 <= i < |order| && order[i] == c.path;
      assert Listing(paths, entries, cfg)[i] == c;
    }
  }

  function PathsNamed(name: string, entries: Entries): (r: set<string>)
    ensures r <= entries.Keys
  {
    set p | p in entries && ObjectName(p) == name
  }

  ghost function Bucket(name: string, entries: Entries, cfg: Config): seq<Candidate> {
    Listing(PathsNamed(name, entries), entries, cfg)
  }

  /** The name map of an index state: every object name with its candidates in path order. */
  ghost function NameMapOf(entries: Entries, cfg: Config): NameMap {
    map n | n in NamesOf(entries.Keys) :: Bucket(n, entries, cfg)
  }

  /** Go's read of a missing map key yields the empty slice. */
  function BucketIn(names: NameMap, name: string): seq<Candidate> {
    if name in names then names[name] else []
  }

  lemma BucketInNameMap(name: string, entries: Entries, cfg: Config)
    ensures BucketIn(NameMapOf(entries, cfg), name) == Bucket(name, entries, cfg)
  {
    if name !in NameMapOf(entries, cfg) {
      assert PathsNamed(name, entries) == {};
    }
  }

  function PathsOf(list: seq<Candidate>): (r: seq<string>)
    ensures |r| == |list| && forall i :: 0 <= i < |r| ==> r[i] == list[i].path
  {
    seq(|list|, i requires 0 <= i < |list| => list[i].path)
  }

  function InsertByPath(list: seq<Candidate>, c: Candidate): seq<Candidate> {
    if list == [] || Less(c.path, list[0].path) then [c] + list else [list[0]] + InsertByPath(list[1..], c)
  }

  /** `sort.Slice` by path; paths are map keys, so no two are equal. */
  function SortByPath(list: seq<Candidate>): seq<Candidate> {
    if list == [] then [] else InsertByPath(SortByPath(list[..|list| - 1]), list[|list| - 1])
  }

  lemma PathsOfTail(list: seq<Candidate>)
    requires list != []
    ensures PathsOf(list) == [list[0].path] + PathsOf(list[1..])
  {
  }

  lemma {:induction false} InsertByPathTracksInsert(list: seq<Candidate>, c: Candidate)
    ensures PathsOf(InsertByPath(list, c)) == InsertSorted(PathsOf(list), c.path)
    ensures Elements(InsertByPath(list, c)) == Elements(list) + {c}
  {
    hide PathsOf, Elements;
    var r := InsertByPath(list, c);
    PathsOfTail(r);
    ElementsOfTail(r);
    if list != [] {
      PathsOfTail(list);
      ElementsOfTail(list);
    }
    if list != [] && !Less(c.path, list[0].path) {
      InsertByPathTracksInsert(list[1..], c);
      assert r[1..] == InsertByPath(list[1..], c);
    } else {
      assert r[1..] == list;
    }
  }

  ghost predicate DistinctPaths(list: seq<Candidate>) {
    forall i, j :: 0 <= i < j < |list| ==> list[i].path != list[j].path
  }

  lemma {:induction false} SortByPathSorts(list: seq<Candidate>)
    requires DistinctPaths(list)
    ensures StrictlySorted(PathsOf(SortByPath(list)))
    ensures Elements(SortByPath(list)) == Elements(list)
    ensures Elements(PathsOf(SortByPath(list))) == Elements(PathsOf(list))
  {
    if list != [] {
      var n := |list| - 1;
      SortByPathSorts(list[..n]);
      assert list == list[..n] + [list[n]];
      assert PathsOf(list) == PathsOf(list[..n]) + [list[n].path];
      InsertByPathTracksInsert(SortByPath(list[..n]), list[n]);
      forall i | 0 <= i < n ensures PathsOf(list[..n])[i] != list[n].path {
      }
      assert list[n].path !in Elements(PathsOf(list[..n]));
      InsertKeepsSorted(PathsOf(SortByPath(list[..n])), list[n].path);
    }
  }

  /** The list holds each of these paths once, in any order. */
  ghost predicate Arrival(list: seq<Candidate>, paths: set<string>, entries: Entries, cfg: Config)
    requires paths <= entries.Keys
  {
    && DistinctPaths(list)
    && Elements(PathsOf(list)) == paths
    && forall c :: c in list ==> c.path in paths && c == CandidateAt(c.path, entries, cfg)
  }

  lemma ArrivalGrows(list: seq<Candidate>, paths: set<string>, entries: Entries, cfg: Config, p: string)
    requires paths <= entries.Keys && Arrival(list, paths, entries, cfg)
    requires p in entries && p !in paths
    ensures Arrival(list + [CandidateAt(p, entries, cfg)], paths + {p}, entries, cfg)
  {
    hide ObjectName, OwningLibrary;
    var more := list + [CandidateAt(p, entries, cfg)];
    assert PathsOf(more) == PathsOf(list) + [p];
    forall i | 0 <= i < |list| ensures list[i].path in paths {
      assert list[i] in list;
    }
  }

  /** Sorting removes every trace of the order in which a map was walked. */
  lemma SortedArrivalIsListing(list: seq<Candidate>, paths: set<string>, entries: Entries, cfg: Config)
    requires paths <= entries.Keys && Arrival(list, paths, entries, cfg)
    ensures SortByPath(list) == Listing(paths, entries, cfg)
  {
    hide ObjectName, OwningLibrary;
    SortByPathSorts(list);
    var s := SortByPath(list);
    StrictlySortedIsUnique(PathsOf(s), Sorted(paths));
    forall i | 0 <= i < |s| ensures s[i] == CandidateAt(Sorted(paths)[i], entries, cfg) {
      assert s[i] in Elements(s);
    }
  }

  function NamesOf(paths: set<string>): set<string> {
    set p | p in paths :: ObjectName(p)
  }

  /** The paths walked so far are filed under their names, each bucket in arrival order. */
  ghost predicate Grouped(names: NameMap, done: set<string>, entries: Entries, cfg: Config) {
    && done <= entries.Keys
    && names.Keys == NamesOf(done)
    && forall n :: n in names ==> Arrival(names[n], PathsNamed(n, entries) * done, entries, cfg)
  }

  lemma GroupedGrows(names: NameMap, done: set<string>, entries: Entries, cfg: Config, path: string)
    requires Grouped(names, done, entries, cfg) && path in entries && path !in done
    ensures Grouped(names[ObjectName(path) := BucketIn(names, ObjectName(path)) + [CandidateAt(path, entries, cfg)]],
                    done + {path}, entries, cfg)
  {
    hide ObjectName, OwningLibrary;
    var name := ObjectName(path);
    var bucket := BucketIn(names, name);
    var more := names[name := bucket + [CandidateAt(path, entries, cfg)]];
    if name !in names {
      assert PathsNamed(name, entries) * done == {};
    }
    ArrivalGrows(bucket, PathsNamed(name, entries) * done, entries, cfg, path);
    assert NamesOf(done + {path}) == NamesOf(done) + {name};
    forall n | n in more ensures Arrival(more[n], PathsNamed(n, entries) * (done + {path}), entries, cfg) {
      if n == name {
        assert PathsNamed(n, entries) * (done + {path}) == PathsNamed(n, entries) * done + {path};
      } else {
        assert PathsNamed(n, entries) * (done + {path}) == PathsNamed(n, entries) * done;
      }
    }
  }

  method GroupByName(entries: Entries, cfg: Config) returns (names: NameMap)
    ensures Grouped(names, entries.Keys, entries, cfg)
  {
    hide ObjectName, OwningLibrary;
    names := map[];
    ghost var done := {};
    var todo := entries.Keys;
    while todo != {}
      invariant todo + done == entries.Keys && todo !! done
      invariant Grouped(names, done, entries, cfg)
      decreases todo
    {
      var path :| path in todo;
      var name, library := ObjectIdentity(path, cfg);
      GroupedGrows(names, done, entries, cfg, path);
      names := names[name := BucketIn(names, name) + [Candidate(path, name, library, entries[path].objectType)]];
      todo, done := todo - {path}, done + {path};
    }
    assert done == entries.Keys;
  }

  method BuildNameMapFrom(entries: Entries, cfg: Config) returns (names: NameMap)
    ensures names == NameMapOf(entries, cfg)
  {
    hide ObjectName, OwningLibrary;
    names := GroupByName(entries, cfg);
    ghost var unsorted := names;
    var todo := names.Keys;
    while todo != {}
      invariant todo <= names.Keys == unsorted.Keys
      invariant forall n :: n in todo ==> names[n] == unsorted[n]
      invariant forall n :: n in names && n !in todo ==> names[n] == Bucket(n, entries, cfg)
      decreases todo
    {
      var name :| name in todo;
      todo := todo - {name};
      assert PathsNamed(name, entries) * entries.Keys == PathsNamed(name, entries);
      SortedArrivalIsListing(names[name], PathsNamed(name, entries), entries, cfg);
      names := names[name := SortByPath(names[name])];
    }
  }

  function FilterByType(candidates: seq<Candidate>, typ: ObjectType): seq<Candidate> {
    if candidates == [] then []
    else (if candidates[0].objectType == typ then [candidates[0]] else []) + FilterByType(candidates[1..], typ)
  }

  lemma {:induction false} FilterByTypeMembers(candidates: seq<Candidate>, typ: ObjectType, c: Candidate)
    ensures c in FilterByType(candidates, typ) <==> c in candidates && c.objectType == typ
  {
    if candidates != [] {
      FilterByTypeMembers(candidates[1..], typ, c);
      assert candidates == [candidates[0]] + candidates[1..];
    }
  }

  lemma {:induction false} FilterByTypeStep(candidates: seq<Candidate>, typ: ObjectType, i: nat)
    requires i < |candidates|
    ensures FilterByType(candidates[..i + 1], typ)
         == FilterByType(candidates[..i], typ) + if candidates[i].objectType == typ then [candidates[i]] else []
  {
    if i == 0 {
      assert candidates[..1] == [candidates[0]];
    } else {
      FilterByTypeStep(candidates[1..], typ, i - 1);
      assert candidates[..i + 1][1..] == candidates[1..][..i];
      assert candidates[..i][1..] == candidates[1..][..i - 1];
    }
  }

  method CollectByType(candidates: seq<Candidate>, typ: ObjectType) returns (out: seq<Candidate>)
    ensures out == FilterByType(candidates, typ)
  {
    out := [];
    for i := 0 to |candidates|
      invariant out == FilterByType(candidates[..i], typ)
    {
      FilterByTypeStep(candidates, typ, i);
      if candidates[i].objectType == typ {
        out := out + [candidates[i]];
      }
    }
    assert candidates[..|candidates|] == candidates;
  }

  lemma FilterByTypeNone(typ: ObjectType)
    ensures FilterByType([], typ) == []
  {
  }

  /** NoType is the "any type" sentinel. */
  function Selected(bucket: seq<Candidate>, typ: ObjectType): seq<Candidate> {
    if typ == NoType then bucket else FilterByType(bucket, typ)
  }

  function Lookup(name: string, typ: ObjectType, names: NameMap): seq<Candidate> {
    Selected(BucketIn(names, Upper(name)), typ)
  }

  lemma SelectedStep(bucket: seq<Candidate>, typ: ObjectType, i: nat)
    requires i < |bucket|
    ensures Selected(bucket[..i + 1], typ)
         == Selected(bucket[..i], typ) + if typ == NoType || bucket[i].objectType == typ then [bucket[i]] else []
  {
    FilterByTypeStep(bucket, typ, i);
    assert bucket[..i + 1] == bucket[..i] + [bucket[i]];
  }

  /** What completion offers: prefix and type match, and the library lies in the caller's chain when there is one. */
  ghost predicate IsOffered(path: string, prefix: string, typ: ObjectType, referencingPath: string, entries: Entries,
      cfg: Config) {
    && path in entries && Upper(prefix) <= ObjectName(path) && entries[path].objectType == typ
    && (ChainOf(referencingPath, cfg) != [] ==> OwningLibrary(path, cfg) in ChainOf(referencingPath, cfg))
  }

  ghost function OfferedPaths(prefix: string, typ: ObjectType, referencingPath: string, entries: Entries,
      cfg: Config): set<string> {
    set p | p in entries && IsOffered(p, prefix, typ, referencingPath, entries, cfg)
  }

  /** A configuration pointer: two references are equal only if they are the same pointer. */
  datatype ConfigRef = ConfigRef(address: nat, config: Config)

  class Index {
    var entries: Entries
    var nameIndex: Option<NameMap>
    var nameIndexCfg: Option<ConfigRef>

    /** A present cache is the name map of the current entries for the configuration it is tagged with. */
    ghost predicate Valid()
      reads this
    {
      nameIndex.Some? ==> nameIndexCfg.Some? && nameIndex.value == NameMapOf(entries, nameIndexCfg.value.config)
    }

    constructor ()
      ensures Valid() && entries == map[]
    {
      entries, nameIndex, nameIndexCfg := map[], None, None;
    }

    method Add(path: string, analysis: FileAnalysis)
      requires Valid()
      modifies this
      ensures Valid() && entries == old(entries)[path := analysis] && nameIndex.None?
    {
      entries := entries[path := analysis];
      nameIndex := None;
      nameIndexCfg := None;
    }

    method Get(path: string) returns (analysis: Option<FileAnalysis>)
      ensures analysis == if path in entries then Some(entries[path]) else None
    {
      analysis := if path in entries then Some(entries[path]) else None;
    }

    method BuildNameIndex(cfg: Config) returns (names: NameMap)
      ensures names == NameMapOf(entries, cfg)
    {
      names := BuildNameMapFrom(entries, cfg);
    }

    method CachedNameIndex(cfg: ConfigRef) returns (names: NameMap)
      requires Valid()
      modifies this`nameIndex, this`nameIndexCfg
      ensures Valid() && names == NameMapOf(entries, cfg.config)
      ensures nameIndex == Some(names) && nameIndexCfg == Some(cfg)
    {
      if nameIndex.Some? && nameIndexCfg == Some(cfg) {
        return nameIndex.value;
      }
      names := BuildNameMapFrom(entries, cfg.config);
      nameIndex := Some(names);
      nameIndexCfg := Some(cfg);
    }

    method LookupByName(name: string, typ: ObjectType, cfg: ConfigRef) returns (candidates: seq<Candidate>)
      requires Valid()
      modifies this`nameIndex, this`nameIndexCfg
      ensures Valid() && candidates == Lookup(name, typ, NameMapOf(entries, cfg.config))
    {
      hide NameMapOf, Upper, BucketIn, FilterByType;
      var names := CachedNameIndex(cfg);
      var bucket := BucketIn(names, Upper(name));
      candidates := [];
      assert candidates == Selected(bucket[..0], typ) by {
        FilterByTypeNone(typ);
      }
      hide Selected;
      for i := 0 to |bucket|
        invariant Valid()
        invariant candidates == Selected(bucket[..i], typ)
      {
        SelectedStep(bucket, typ, i);
        if typ != NoType && bucket[i].objectType != typ {
          continue;
        }
        candidates := candidates + [bucket[i]];
      }
      assert bucket[..|bucket|] == bucket;
    }

    method NamesWithPrefix(prefix: string, typ: ObjectType, referencingPath: string, cfg: ConfigRef)
      returns (offered: seq<Candidate>)
      requires Valid()
      modifies this`nameIndex, this`nameIndexCfg
      ensures Valid()
      ensures offered == Listing(OfferedPaths(prefix, typ, referencingPath, entries, cfg.config), entries, cfg.config)
    {
      hide ObjectName, OwningLibrary, NameMapOf, Arrival, PrefixPaths, OfferedPaths, Listing, ReachableIn, SortByPath,
        SearchChain;
      var names := CachedNameIndex(cfg);
      var all := CollectWithPrefix(names, Upper(prefix), typ, entries, cfg.config);
      var _, currentLibrary := ObjectIdentity(referencingPath, cfg.config);
      var chain := BuildSearchChain(currentLibrary, cfg.config);
      ghost var wanted := OfferedPaths(prefix, typ, referencingPath, entries, cfg.config);
      ghost var matched := PrefixPaths(Upper(prefix), typ, entries);
      OfferedAreReachable(prefix, typ, referencingPath, entries, cfg.config);
      if |chain| > 0 {
        var reachable := KeepReachable(all, chain, matched, entries, cfg.config);
        SortedArrivalIsListing(reachable, wanted, entries, cfg.config);
        return SortByPath(reachable);
      }
      SortedArrivalIsListing(all, wanted, entries, cfg.config);
      return SortByPath(all);
    }
  }

  ghost function PrefixPaths(upperPrefix: string, typ: ObjectType, entries: Entries): (r: set<string>)
    ensures r <= entries.Keys
  {
    set p | p in entries && upperPrefix <= ObjectName(p) && entries[p].objectType == typ
  }

  /** The paths whose library is in the chain. */
  ghost function ReachableIn(paths: set<string>, chain: seq<string>, cfg: Config): (r: set<string>)
    ensures r <= paths
  {
    set p | p in paths && OwningLibrary(p, cfg) in chain
  }

  lemma OfferedAreReachable(prefix: string, typ: ObjectType, referencingPath: string, entries: Entries, cfg: Config)
    ensures var matched, chain := PrefixPaths(Upper(prefix), typ, entries), ChainOf(referencingPath, cfg);
            && matched <= entries.Keys
            && OfferedPaths(prefix, typ, referencingPath, entries, cfg) == if chain == [] then matched
               else ReachableIn(matched, chain, cfg)
  {
    hide ObjectName, OwningLibrary, ChainOf, Upper;
  }

  function OfType(paths: set<string>, typ: ObjectType, entries: Entries): (r: set<string>)
    requires paths <= entries.Keys
    ensures r <= paths
  {
    set p | p in paths && entries[p].objectType == typ
  }

  lemma ArrivalJoins(a: seq<Candidate>, pa: set<string>, b: seq<Candidate>, pb: set<string>, entries: Entries,
      cfg: Config)
    requires pa <= entries.Keys && pb <= entries.Keys && pa !! pb
    requires Arrival(a, pa, entries, cfg) && Arrival(b, pb, entries, cfg)
    ensures Arrival(a + b, pa + pb, entries, cfg)
  {
    hide ObjectName, OwningLibrary;
    assert PathsOf(a + b) == PathsOf(a) + PathsOf(b);
    assert forall i :: 0 <= i < |a| ==> a[i] in a;
    assert forall i :: 0 <= i < |b| ==> b[i] in b;
  }

  lemma ArrivalTail(list: seq<Candidate>, paths: set<string>, entries: Entries, cfg: Config)
    requires paths <= entries.Keys && Arrival(list, paths, entries, cfg) && list != []
    ensures list[0].path in paths && list[0] == CandidateAt(list[0].path, entries, cfg)
    ensures Arrival([list[0]], {list[0].path}, entries, cfg)
    ensures Arrival(list[1..], paths - {list[0].path}, entries, cfg)
  {
    hide ObjectName, OwningLibrary, PathsOf;
    assert list[0] in list;
    SingleArrives(list[0], entries, cfg);
    TailMembers(list);
    PathsOfTail(list);
    ElementsOfTail(PathsOf(list));
    assert PathsOf(list)[1..] == PathsOf(list[1..]);
    DistinctTail(list);
  }

  lemma SingleArrives(c: Candidate, entries: Entries, cfg: Config)
    requires c.path in entries && c == CandidateAt(c.path, entries, cfg)
    ensures Arrival([c], {c.path}, entries, cfg)
  {
    hide ObjectName, OwningLibrary;
    assert PathsOf([c]) == [c.path];
  }

  lemma DistinctTail(list: seq<Candidate>)
    requires DistinctPaths(list) && list != []
    ensures DistinctPaths(list[1..]) && list[0].path !in Elements(PathsOf(list[1..]))
  {
    var tail := list[1..];
    assert forall k :: 0 <= k < |tail| ==> tail[k] == list[k + 1];
  }

  lemma TailMembers(list: seq<Candidate>)
    requires DistinctPaths(list) && list != []
    ensures forall c :: c in list[1..] ==> c in list && c.path != list[0].path
  {
    var tail := list[1..];
    forall c | c in tail ensures c in list && c.path != list[0].path {
      var i :| 0 <= i < |tail| && tail[i] == c;
      assert list[i + 1] == c;
    }
  }

  lemma ArrivalEmpty(list: seq<Candidate>, paths: set<string>, entries: Entries, cfg: Config)
    requires paths <= entries.Keys && Arrival(list, paths, entries, cfg)
    ensures list == [] <==> paths == {}
  {
    hide ObjectName, OwningLibrary;
    assert list != [] ==> PathsOf(list)[0] in paths;
  }

  lemma OfTypeSplits(paths: set<string>, p: string, typ: ObjectType, entries: Entries)
    requires paths <= entries.Keys && p in paths
    ensures OfType(paths, typ, entries)
         == (if entries[p].objectType == typ then {p} else {}) + OfType(paths - {p}, typ, entries)
  {
  }

  lemma {:induction false} FilteredArrives(list: seq<Candidate>, paths: set<string>, typ: ObjectType,
      entries: Entries, cfg: Config)
    requires paths <= entries.Keys && Arrival(list, paths, entries, cfg)
    ensures Arrival(FilterByType(list, typ), OfType(paths, typ, entries), entries, cfg)
    decreases list
  {
    hide ObjectName, OwningLibrary, Arrival, OfType;
    ArrivalEmpty(list, paths, entries, cfg);
    if list == [] {
      assert OfType({}, typ, entries) == {};
    } else {
      var p := list[0].path;
      ArrivalTail(list, paths, entries, cfg);
      FilteredArrives(list[1..], paths - {p}, typ, entries, cfg);
      OfTypeSplits(paths, p, typ, entries);
      var typedRest := OfType(paths - {p}, typ, entries);
      if list[0].objectType == typ {
        ArrivalJoins([list[0]], {p}, FilterByType(list[1..], typ), typedRest, entries, cfg);
      } else {
        assert [] + FilterByType(list[1..], typ) == FilterByType(list[1..], typ);
        assert {} + typedRest == typedRest;
      }
    }
  }

  lemma TypedBucketArrives(name: string, typ: ObjectType, entries: Entries, cfg: Config)
    requires name in NameMapOf(entries, cfg)
    ensures Arrival(FilterByType(NameMapOf(entries, cfg)[name], typ), OfType(PathsNamed(name, entries), typ, entries),
                    entries, cfg)
  {
    hide ObjectName, OwningLibrary, Listing, Arrival;
    BucketArrives(name, entries, cfg);
    FilteredArrives(Bucket(name, entries, cfg), PathsNamed(name, entries), typ, entries, cfg);
  }

  lemma NameMapKeys(entries: Entries, cfg: Config)
    ensures NameMapOf(entries, cfg).Keys == NamesOf(entries.Keys)
  {
  }

  /** The candidates of the wanted paths whose names have been walked. */
  ghost predicate Collected(all: seq<Candidate>, todo: set<string>, upperPrefix: string, typ: ObjectType,
      entries: Entries,
      cfg: Config) {
    Arrival(all, NamedOutside(PrefixPaths(upperPrefix, typ, entries), todo), entries, cfg)
  }

  ghost function NamedOutside(paths: set<string>, todo: set<string>): (r: set<string>)
    ensures r <= paths
  {
    set p | p in paths && ObjectName(p) !in todo
  }

  lemma CollectedNone(upperPrefix: string, typ: ObjectType, entries: Entries, cfg: Config)
    ensures Collected([], NamesOf(entries.Keys), upperPrefix, typ, entries, cfg)
  {
    hide ObjectName, OwningLibrary;
    assert NamedOutside(PrefixPaths(upperPrefix, typ, entries), NamesOf(entries.Keys)) == {};
  }

  lemma CollectedAll(all: seq<Candidate>, upperPrefix: string, typ: ObjectType, entries: Entries, cfg: Config)
    requires Collected(all, {}, upperPrefix, typ, entries, cfg)
    ensures Arrival(all, PrefixPaths(upperPrefix, typ, entries), entries, cfg)
  {
    hide Arrival;
    assert NamedOutside(PrefixPaths(upperPrefix, typ, entries), {}) == PrefixPaths(upperPrefix, typ, entries);
  }

  lemma WalkedName(todo: set<string>, name: string, upperPrefix: string, typ: ObjectType, entries: Entries)
    requires name in todo
    ensures var wanted, named := PrefixPaths(upperPrefix, typ, entries), PathsNamed(name, entries);
            && NamedOutside(wanted, todo) !! named
            && NamedOutside(wanted, todo - {name})
                 == NamedOutside(wanted, todo) + if upperPrefix <= name then OfType(named, typ, entries) else {}
  {
    hide ObjectName;
  }

  lemma CollectedStep(all: seq<Candidate>, todo: set<string>, name: string, upperPrefix: string, typ: ObjectType,
      entries: Entries,
      cfg: Config)
    requires Collected(all, todo, upperPrefix, typ, entries, cfg) && name in todo && name in NameMapOf(entries, cfg)
    ensures Collected(all + if upperPrefix <= name then FilterByType(NameMapOf(entries, cfg)[name], typ) else [],
                      todo - {name}, upperPrefix, typ, entries, cfg)
  {
    hide Arrival, NameMapOf, PrefixPaths, NamedOutside, OfType, FilterByType, PathsNamed;
    var before := NamedOutside(PrefixPaths(upperPrefix, typ, entries), todo);
    WalkedName(todo, name, upperPrefix, typ, entries);
    if upperPrefix <= name {
      TypedBucketArrives(name, typ, entries, cfg);
      ArrivalJoins(all, before, FilterByType(NameMapOf(entries, cfg)[name], typ),
                   OfType(PathsNamed(name, entries), typ, entries), entries, cfg);
    } else {
      assert all + [] == all && before + {} == before;
    }
  }

  method CollectWithPrefix(names: NameMap, upperPrefix: string, typ: ObjectType, ghost entries: Entries,
      ghost cfg: Config)
    returns (all: seq<Candidate>)
    requires names == NameMapOf(entries, cfg)
    ensures Arrival(all, PrefixPaths(upperPrefix, typ, entries), entries, cfg)
  {
    hide NameMapOf, FilterByType, Arrival, PrefixPaths, Collected;
    all := [];
    var todo := names.Keys;
    NameMapKeys(entries, cfg);
    CollectedNone(upperPrefix, typ, entries, cfg);
    while todo != {}
      invariant todo <= names.Keys && Collected(all, todo, upperPrefix, typ, entries, cfg)
      decreases todo
    {
      var name :| name in todo;
      CollectedStep(all, todo, name, upperPrefix, typ, entries, cfg);
      todo := todo - {name};
      if upperPrefix <= name {
        var typed := CollectByType(names[name], typ);
        all := all + typed;
      } else {
        assert all + [] == all;
      }
    }
    CollectedAll(all, upperPrefix, typ, entries, cfg);
  }

  /** What is kept of the first n candidates: those whose library is in the chain. */
  ghost predicate Kept(result: seq<Candidate>, all: seq<Candidate>, n: nat, chain: seq<string>, entries: Entries,
      cfg: Config)
    requires n <= |all|
  {
    var paths := ReachableIn(Elements(PathsOf(all[..n])), chain, cfg);
    paths <= entries.Keys && Arrival(result, paths, entries, cfg)
  }

  lemma KeptStep(result: seq<Candidate>, all: seq<Candidate>, i: nat, chain: seq<string>, paths: set<string>,
      entries: Entries,
      cfg: Config)
    requires i < |all| && paths <= entries.Keys && Arrival(all, paths, entries, cfg)
    requires Kept(result, all, i, chain, entries, cfg)
    ensures Kept(if all[i].library in chain then result + [all[i]] else result, all, i + 1, chain, entries, cfg)
  {
    hide ObjectName, OwningLibrary, Arrival;
    var p, before, after := all[i].path, Elements(PathsOf(all[..i])), Elements(PathsOf(all[..i + 1]));
    assert PathsOf(all[..i + 1]) == PathsOf(all[..i]) + [p];
    assert after == before + {p};
    ArrivalAt(all, i, paths, entries, cfg);
    if all[i].library in chain {
      ArrivalGrows(result, ReachableIn(before, chain, cfg), entries, cfg, p);
      assert ReachableIn(after, chain, cfg) == ReachableIn(before, chain, cfg) + {p};
    } else {
      assert ReachableIn(after, chain, cfg) == ReachableIn(before, chain, cfg);
    }
  }

  lemma ArrivalAt(all: seq<Candidate>, i: nat, paths: set<string>, entries: Entries, cfg: Config)
    requires i < |all| && paths <= entries.Keys && Arrival(all, paths, entries, cfg)
    ensures all[i].path in entries && all[i] == CandidateAt(all[i].path, entries, cfg)
    ensures all[i].path !in Elements(PathsOf(all[..i]))
  {
    hide CandidateAt;
    assert all[i] in all;
    assert forall k :: 0 <= k < i ==> PathsOf(all[..i])[k] == all[k].path;
  }

  method KeepReachable(all: seq<Candidate>, chain: seq<string>, ghost paths: set<string>, ghost entries: Entries,
      ghost cfg: Config)
    returns (result: seq<Candidate>)
    requires paths <= entries.Keys && Arrival(all, paths, entries, cfg)
    ensures Arrival(result, ReachableIn(paths, chain, cfg), entries, cfg)
  {
    hide ObjectName, OwningLibrary;
    result := [];
    assert ReachableIn(Elements(PathsOf(all[..0])), chain, cfg) == {};
    assert Kept(result, all, 0, chain, entries, cfg);
    hide Kept;
    for i := 0 to |all|
      invariant Kept(result, all, i, chain, entries, cfg)
    {
      KeptStep(result, all, i, chain, paths, entries, cfg);
      var inChain := InChain(all[i].library, chain);
      if inChain {
        result := result + [all[i]];
      }
    }
    KeptAll(result, all, chain, paths, entries, cfg);
  }

  lemma KeptAll(result: seq<Candidate>, all: seq<Candidate>, chain: seq<string>, paths: set<string>,
      entries: Entries, cfg: Config)
    requires paths <= entries.Keys && Arrival(all, paths, entries, cfg) && Kept(result, all, |all|, chain, entries, cfg)
    ensures Arrival(result, ReachableIn(paths, chain, cfg), entries, cfg)
  {
    assert all[..|all|] == all;
  }

  method InChain(library: string, chain: seq<string>) returns (found: bool)
    ensures found <==> library in chain
  {
    found := false;
    for j := 0 to |chain|
      invariant found <==> library in chain[..j]
    {
      if library == chain[j] {
        found := true;
        break;
      }
    }
  }

  /** A bucket lists exactly the indexed paths of that name, each once. */
  lemma BucketArrives(name: string, entries: Entries, cfg: Config)
    ensures Arrival(Bucket(name, entries, cfg), PathsNamed(name, entries), entries, cfg)
  {
    hide ObjectName, OwningLibrary;
    var b, order := Bucket(name, entries, cfg), Sorted(PathsNamed(name, entries));
    assert PathsOf(b) == order;
    forall i, j | 0 <= i < j < |order| ensures order[i] != order[j] {
      LessIrreflexive(order[i]);
    }
  }
}
