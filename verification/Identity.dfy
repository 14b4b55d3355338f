/** Object names, owning libraries and steplib chains (`objectIdentity`, `buildSearchChain`, `resolveViaChain`). */
module Identity {
  import opened Model
  import opened Text

  const SYSTEM_LIBRARY := "SYSTEM"

  /** The upper-cased file stem. */
  function ObjectName(path: string): string {
    var base := PathBase(path);
    Upper(base[..|base| - |PathExt(base)|])
  }

  lemma {:induction false} NoSlashFrom(p: string, a: nat)
    requires a <= |p| && (a > 0 ==> p[a - 1] == '/') && forall k :: a <= k < |p| ==> p[k] != '/'
    ensures AfterLastSlash(p) == p[a..]
    decreases |p|
  {
    if a < |p| {
      var n := |p| - 1;
      NoSlashFrom(p[..n], a);
      assert p[..n][a..] + [p[n]] == p[a..];
    }
  }

  lemma {:induction false} ExtBehindDot(p: string, i: nat, dot: nat)
    requires dot < i <= |p| && p[dot] == '.' && forall k :: dot < k < i ==> p[k] != '.' && p[k] != '/'
    ensures PathExtFrom(p, i) == p[dot..]
    decreases i
  {
    if dot + 1 < i {
      ExtBehindDot(p, i - 1, dot);
    }
  }

  lemma {:induction false} NoDotNoExt(p: string, i: nat)
    requires i <= |p| && forall k :: 0 <= k < i ==> p[k] != '.'
    ensures PathExtFrom(p, i) == ""
    decreases i
  {
    if i > 0 {
      NoDotNoExt(p, i - 1);
    }
  }

  predicate IsSegment(s: string) {
    forall k :: 0 <= k < |s| ==> s[k] != '/'
  }

  lemma BaseBehind(dir: string, base: string)
    requires (dir == "" || dir[|dir| - 1] == '/') && IsSegment(base) && base != ""
    ensures PathBase(dir + base) == base
  {
    var path := dir + base;
    assert path[|path| - 1] == base[|base| - 1];
    assert path[|dir|..] == base;
    NoSlashFrom(path, |dir|);
  }

  lemma ExtOf(stem: string, ext: string)
    requires ext != "" && forall k :: 0 <= k < |ext| ==> ext[k] != '.' && ext[k] != '/'
    ensures PathExt(stem + "." + ext) == "." + ext
  {
    var base := stem + "." + ext;
    assert base[|stem|..] == "." + ext && base[|stem|] == '.';
    assert forall k :: |stem| < k < |base| ==> base[k] == ext[k - |stem| - 1];
    ExtBehindDot(base, |base|, |stem|);
  }

  /** The name of a file is its stem in upper case: without the directories before it and the extension behind it. */
  lemma StemOf(dir: string, stem: string, ext: string)
    requires (dir == "" || dir[|dir| - 1] == '/') && IsSegment(stem) && IsSegment(ext)
    requires ext != "" && forall k :: 0 <= k < |ext| ==> ext[k] != '.'
    ensures ObjectName(dir + stem + "." + ext) == Upper(stem)
  {
    hide Upper, PathBase, PathExt;
    var base := stem + "." + ext;
    assert dir + stem + "." + ext == dir + base;
    BaseBehind(dir, base);
    ExtOf(stem, ext);
    assert base[..|base| - |"." + ext|] == stem;
  }

  /** Without an extension it is the whole last segment. */
  lemma StemWithoutExt(dir: string, stem: string)
    requires (dir == "" || dir[|dir| - 1] == '/') && IsSegment(stem) && stem != ""
    requires forall k :: 0 <= k < |stem| ==> stem[k] != '.'
    ensures ObjectName(dir + stem) == Upper(stem)
  {
    hide Upper, PathBase;
    BaseBehind(dir, stem);
    NoDotNoExt(stem, |stem|);
    assert stem[..|stem|] == stem;
  }

  /** The library path is the whole key, or a prefix of it ending at a separator. */
  predicate Owns(lib: Library, path: string) {
    lib.path <= path && (|path| == |lib.path| || path[|lib.path|] == '/')
  }

  /** The running longest match over the first n libraries. */
  function BestMatch(path: string, libs: seq<Library>, n: nat): Option<Library>
    requires n <= |libs|
  {
    if n == 0 then None
    else
      var best := BestMatch(path, libs, n - 1);
      if Owns(libs[n - 1], path) && |libs[n - 1].path| > MatchLength(best) then Some(libs[n - 1]) else best
  }

  function MatchLength(best: Option<Library>): nat {
    if best.Some? then |best.value.path| else 0
  }

  function OwningLibrary(path: string, cfg: Config): string {
    var best := BestMatch(path, cfg.libraries, |cfg.libraries|);
    if best.Some? then best.value.name else ""
  }

  /** Among the first n libraries, `libs[i]` is the first, as declared, with the longest path owning the key. */
  ghost predicate IsOwner(path: string, libs: seq<Library>, n: nat, i: int)
    requires n <= |libs|
  {
    && 0 <= i < n && Owns(libs[i], path) && libs[i].path != ""
    && (forall j :: 0 <= j < n && Owns(libs[j], path) ==> |libs[j].path| <= |libs[i].path|)
    && (forall j :: 0 <= j < i && Owns(libs[j], path) ==> |libs[j].path| < |libs[i].path|)
  }

  lemma OwnerStays(path: string, libs: seq<Library>, n: nat, i: nat)
    requires n < |libs| && IsOwner(path, libs, n, i)
    requires Owns(libs[n], path) ==> |libs[n].path| <= |libs[i].path|
    ensures IsOwner(path, libs, n + 1, i)
  {
    hide Owns;
  }

  lemma LongerOwns(path: string, libs: seq<Library>, n: nat, i: nat)
    requires n < |libs| && IsOwner(path, libs, n, i)
    requires Owns(libs[n], path) && |libs[n].path| > |libs[i].path|
    ensures IsOwner(path, libs, n + 1, n)
  {
    hide Owns;
  }

  lemma FirstOwns(path: string, libs: seq<Library>, n: nat)
    requires n < |libs| && Owns(libs[n], path) && libs[n].path != ""
    requires forall j :: 0 <= j < n && Owns(libs[j], path) ==> libs[j].path == ""
    ensures IsOwner(path, libs, n + 1, n)
  {
    hide Owns;
  }

  lemma {:induction false} BestMatchPicks(path: string, libs: seq<Library>, n: nat)
    requires n <= |libs|
    ensures BestMatch(path, libs, n).Some? ==>
      exists i :: IsOwner(path, libs, n, i) && BestMatch(path, libs, n) == Some(libs[i])
    ensures BestMatch(path, libs, n).None? ==>
      forall j :: 0 <= j < n && Owns(libs[j], path) ==> libs[j].path == ""
  {
    if n > 0 {
      hide Owns, IsOwner;
      var m := n - 1;
      BestMatchPicks(path, libs, m);
      var best := BestMatch(path, libs, m);
      var owns := Owns(libs[m], path) && |libs[m].path| > MatchLength(best);
      if best.Some? {
        var i :| IsOwner(path, libs, m, i) && best == Some(libs[i]);
        OwnerInRange(path, libs, m, i);
        if owns {
          LongerOwns(path, libs, m, i);
        } else {
          OwnerStays(path, libs, m, i);
        }
      } else if owns {
        FirstOwns(path, libs, m);
      }
    }
  }

  lemma OwnerInRange(path: string, libs: seq<Library>, n: nat, i: int)
    requires n <= |libs| && IsOwner(path, libs, n, i)
    ensures 0 <= i < n
  {
  }

  /** A key belongs to the longest owning library path, ties going to the first declared. */
  lemma OwningLibraryIsLongest(path: string, cfg: Config, i: nat)
    requires IsOwner(path, cfg.libraries, |cfg.libraries|, i)
    ensures OwningLibrary(path, cfg) == cfg.libraries[i].name
  {
    var libs := cfg.libraries;
    BestMatchPicks(path, libs, |libs|);
    var k :| IsOwner(path, libs, |libs|, k) && BestMatch(path, libs, |libs|) == Some(libs[k]);
    assert i == k;
  }

  /** A key no declared path owns falls into the flat namespace, and only such a key does when names are non-empty. */
  lemma UnownedIffNoMatch(path: string, cfg: Config)
    requires forall lib :: lib in cfg.libraries ==> lib.name != ""
    ensures OwningLibrary(path, cfg) == "" <==>
      forall j :: 0 <= j < |cfg.libraries| && Owns(cfg.libraries[j], path) ==> cfg.libraries[j].path == ""
  {
    var libs := cfg.libraries;
    BestMatchPicks(path, libs, |libs|);
    if BestMatch(path, libs, |libs|).Some? {
      var k :| IsOwner(path, libs, |libs|, k) && BestMatch(path, libs, |libs|) == Some(libs[k]);
      assert libs[k] in libs;
    }
  }

  method ObjectIdentity(relPath: string, cfg: Config) returns (name: string, library: string)
    ensures name == ObjectName(relPath) && library == OwningLibrary(relPath, cfg)
  {
    hide PathBase, PathExt, Upper;
    var base := PathBase(relPath);
    var ext := PathExt(base);
    name := Upper(base[..|base| - |ext|]);
    hide ObjectName;
    var longestName, longestLen := "", 0;
    var i := 0;
    while i < |cfg.libraries|
      invariant 0 <= i <= |cfg.libraries|
      invariant longestLen == MatchLength(BestMatch(relPath, cfg.libraries, i))
      invariant longestName == (var b := BestMatch(relPath, cfg.libraries, i); if b.Some? then b.value.name else "")
      invariant longestLen == 0 ==> BestMatch(relPath, cfg.libraries, i).None?
    {
      var lib := cfg.libraries[i];
      if lib.path <= relPath {
        if |relPath| == |lib.path| || relPath[|lib.path|] == '/' {
          if |lib.path| > longestLen {
            longestName, longestLen := lib.name, |lib.path|;
          }
        }
      }
      i := i + 1;
    }
    library := if longestLen > 0 then longestName else "";
  }

  /** The steplibs declared by the first library of that name. */
  function DeclaredSteplibs(name: string, libs: seq<Library>): seq<string> {
    if libs == [] then [] else if libs[0].name == name then libs[0].steplibs else DeclaredSteplibs(name, libs[1..])
  }

  /** Current library, its own steplibs in order, SYSTEM; empty for the flat namespace. */
  function SearchChain(currentLibrary: string, cfg: Config): seq<string> {
    if currentLibrary == "" then []
    else [currentLibrary] + DeclaredSteplibs(currentLibrary, cfg.libraries) + [SYSTEM_LIBRARY]
  }

  function ChainOf(path: string, cfg: Config): seq<string> {
    SearchChain(OwningLibrary(path, cfg), cfg)
  }

  lemma {:induction false} FirstDeclaration(name: string, libs: seq<Library>, i: nat)
    requires i < |libs| && libs[i].name == name && forall j :: 0 <= j < i ==> libs[j].name != name
    ensures DeclaredSteplibs(name, libs) == libs[i].steplibs
    decreases i
  {
    if i > 0 {
      FirstDeclaration(name, libs[1..], i - 1);
    }
  }

  lemma {:induction false} NoDeclaration(name: string, libs: seq<Library>)
    requires forall j :: 0 <= j < |libs| ==> libs[j].name != name
    ensures DeclaredSteplibs(name, libs) == []
  {
    if libs != [] {
      NoDeclaration(name, libs[1..]);
    }
  }

  /** A chain is searched in this order: the library itself, the steplibs its first declaration gives, in that order,
      and SYSTEM last. */
  lemma ChainInOrder(current: string, cfg: Config, i: nat)
    requires current != "" && i < |cfg.libraries| && cfg.libraries[i].name == current
    requires forall j :: 0 <= j < i ==> cfg.libraries[j].name != current
    ensures var chain, steplibs := SearchChain(current, cfg), cfg.libraries[i].steplibs;
            && |chain| == |steplibs| + 2 && chain[0] == current && chain[|chain| - 1] == "SYSTEM"
            && forall k :: 0 <= k < |steplibs| ==> chain[k + 1] == steplibs[k]
  {
    FirstDeclaration(current, cfg.libraries, i);
  }

  lemma UndeclaredChain(current: string, cfg: Config)
    requires forall j :: 0 <= j < |cfg.libraries| ==> cfg.libraries[j].name != current
    ensures SearchChain(current, cfg) == if current == "" then [] else [current, "SYSTEM"]
  {
    NoDeclaration(current, cfg.libraries);
  }

  method BuildSearchChain(currentLibrary: string, cfg: Config) returns (chain: seq<string>)
    ensures chain == SearchChain(currentLibrary, cfg)
  {
    if currentLibrary == "" {
      return [];
    }
    chain := [currentLibrary];
    var i := 0;
    while i < |cfg.libraries|
      invariant 0 <= i <= |cfg.libraries|
      invariant chain == [currentLibrary]
      invariant DeclaredSteplibs(currentLibrary, cfg.libraries) == DeclaredSteplibs(currentLibrary, cfg.libraries[i..])
    {
      if cfg.libraries[i].name == currentLibrary {
        chain := chain + cfg.libraries[i].steplibs;
        break;
      }
      i := i + 1;
    }
    chain := chain + [SYSTEM_LIBRARY];
  }

  function FirstInLibrary(candidates: seq<Candidate>, lib: string): Option<Candidate> {
    if candidates == [] then None
    else if candidates[0].library == lib then Some(candidates[0])
    else FirstInLibrary(candidates[1..], lib)
  }

  function ViaChain(candidates: seq<Candidate>, chain: seq<string>): Option<Candidate> {
    if chain == [] then None
    else
      var first := FirstInLibrary(candidates, chain[0]);
      if first.Some? then first else ViaChain(candidates, chain[1..])
  }

  /** Candidate k is the first one of its library. */
  ghost predicate FirstOfItsLibrary(candidates: seq<Candidate>, k: int) {
    0 <= k < |candidates| && forall j :: 0 <= j < k ==> candidates[j].library != candidates[k].library
  }

  lemma {:induction false} FirstInLibraryPicks(candidates: seq<Candidate>, lib: string)
    ensures FirstInLibrary(candidates, lib).None? <==> forall c :: c in candidates ==> c.library != lib
    ensures FirstInLibrary(candidates, lib).Some? ==>
      exists k :: FirstOfItsLibrary(candidates, k) && candidates[k].library == lib
                  && FirstInLibrary(candidates, lib) == Some(candidates[k])
  {
    if candidates != [] {
      FirstInLibraryPicks(candidates[1..], lib);
      assert candidates == [candidates[0]] + candidates[1..];
      if candidates[0].library == lib {
        assert FirstOfItsLibrary(candidates, 0);
      } else if FirstInLibrary(candidates[1..], lib).Some? {
        var k :| FirstOfItsLibrary(candidates[1..], k) && candidates[1..][k].library == lib
                 && FirstInLibrary(candidates[1..], lib) == Some(candidates[1..][k]);
        assert FirstOfItsLibrary(candidates, k + 1);
      }
    }
  }

  /** Position m of the chain is the earliest one any candidate belongs to. */
  ghost predicate EarliestReachable(candidates: seq<Candidate>, chain: seq<string>, m: int) {
    && 0 <= m < |chain|
    && (exists c :: c in candidates && c.library == chain[m])
    && (forall q, c :: 0 <= q < m && c in candidates ==> c.library != chain[q])
  }

  /** The chain walk returns the first candidate of the earliest chain library that has one, and nothing
      exactly when every candidate lies outside the chain. */
  lemma {:induction false} ViaChainIsEarliest(candidates: seq<Candidate>, chain: seq<string>)
    ensures ViaChain(candidates, chain).None? <==> forall c :: c in candidates ==> c.library !in chain
    ensures ViaChain(candidates, chain).Some? ==>
      exists m, k :: EarliestReachable(candidates, chain, m) && FirstOfItsLibrary(candidates, k)
                     && candidates[k].library == chain[m] && ViaChain(candidates, chain) == Some(candidates[k])
  {
    if chain != [] {
      FirstInLibraryPicks(candidates, chain[0]);
      var first := FirstInLibrary(candidates, chain[0]);
      assert chain == [chain[0]] + chain[1..];
      if first.Some? {
        var k :| FirstOfItsLibrary(candidates, k) && candidates[k].library == chain[0] && first == Some(candidates[k]);
        assert candidates[k] in candidates;
        assert EarliestReachable(candidates, chain, 0);
      } else {
        ViaChainIsEarliest(candidates, chain[1..]);
        if ViaChain(candidates, chain[1..]).Some? {
          var m, k :| EarliestReachable(candidates, chain[1..], m) && FirstOfItsLibrary(candidates, k)
                      && candidates[k].library == chain[1..][m]
                           && ViaChain(candidates, chain[1..]) == Some(candidates[k]);
          assert EarliestReachable(candidates, chain, m + 1);
        }
      }
    }
  }

  method ResolveViaChain(candidates: seq<Candidate>, chain: seq<string>) returns (found: Option<Candidate>)
    ensures found == ViaChain(candidates, chain)
  {
    var i := 0;
    while i < |chain|
      invariant 0 <= i <= |chain|
      invariant ViaChain(candidates, chain) == ViaChain(candidates, chain[i..])
    {
      var j := 0;
      while j < |candidates|
        invariant 0 <= j <= |candidates|
        invariant FirstInLibrary(candidates, chain[i]) == FirstInLibrary(candidates[j..], chain[i])
      {
        if candidates[j].library == chain[i] {
          return Some(candidates[j]);
        }
        j := j + 1;
      }
      i := i + 1;
    }
    return None;
  }
}
