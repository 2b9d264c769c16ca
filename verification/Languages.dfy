/** Language detection: the extension ranking of rx/trex/toolchain/manifest.py and
    the detector of rx/trex/toolchain/lang_detector.py. */
module Languages {
  // ------------------------------------------------------------ extensions

  /** The last position of a character, or -1. */
  function LastIndex(s: string, c: char): int
    ensures -1 <= LastIndex(s, c) < |s|
    ensures LastIndex(s, c) >= 0 ==> s[LastIndex(s, c)] == c
  {
    if s == "" then -1
    else if s[|s| - 1] == c then |s| - 1
    else LastIndex(s[..|s| - 1], c)
  }

  /** The extension of `os.path.splitext`: from the last dot of the last
      component, unless only dots come before it there. */
  function Extension(path: string): string {
    var sep, dot := LastIndex(path, '/'), LastIndex(path, '.');
    if dot > sep && exists i :: sep < i < dot && path[i] != '.' then path[dot..] else ""
  }

  lemma {:induction false} LastIndexIs(s: string, c: char, k: int)
    requires -1 <= k < |s| && (k >= 0 ==> s[k] == c)
    requires forall i :: k < i < |s| ==> s[i] != c
    ensures LastIndex(s, c) == k
  {
    if s != "" && k < |s| - 1 {
      LastIndexIs(s[..|s| - 1], c, k);
    }
  }

  /** A file in a directory (empty, or up to a slash) has the text after its last
      dot as its extension if its stem is more than dots, and none otherwise: a
      leading dot makes a hidden file. */
  lemma ExtensionOf(dir: string, stem: string, ext: string)
    requires dir == "" || dir[|dir| - 1] == '/'
    requires '/' !in stem && '/' !in ext && '.' !in ext
    ensures Extension(dir + stem + "." + ext) == if exists i :: 0 <= i < |stem| && stem[i] != '.' then "." + ext else ""
  {
    var path := dir + stem + "." + ext;
    var dot := |dir| + |stem|;
    LastIndexIs(path, '/', |dir| - 1);
    LastIndexIs(path, '.', dot);
    assert path[dot..] == "." + ext;
    assert forall i :: 0 <= i < |stem| ==> path[|dir| + i] == stem[i];
    if i :| |dir| - 1 < i < dot && path[i] != '.' {
      assert stem[i - |dir|] != '.';
    }
  }

  /** A file without a dot in its name has no extension. */
  lemma NoExtension(dir: string, name: string)
    requires dir == "" || dir[|dir| - 1] == '/'
    requires '/' !in name && '.' !in name
    ensures Extension(dir + name) == ""
  {
    var path := dir + name;
    LastIndexIs(path, '/', |dir| - 1);
    assert forall i :: |dir| <= i < |path| ==> path[i] == name[i - |dir|];
  }

  function Extensions(files: seq<string>): seq<string> {
    seq(|files|, i requires 0 <= i < |files| => Extension(files[i]))
  }

  // --------------------------------------------------------------- ranking

  /** The distinct elements in the order of their first occurrence: the keys of
      a dictionary filled in this order. */
  function FirstSeen(xs: seq<string>): seq<string> {
    if xs == [] then []
    else
      var keys := FirstSeen(xs[..|xs| - 1]);
      if xs[|xs| - 1] in keys then keys else keys + [xs[|xs| - 1]]
  }

  function FirstIndex(xs: seq<string>, x: string): nat
    requires x in xs
    ensures FirstIndex(xs, x) < |xs| && xs[FirstIndex(xs, x)] == x
    ensures forall i :: 0 <= i < FirstIndex(xs, x) ==> xs[i] != x
  {
    if xs[0] == x then 0 else 1 + FirstIndex(xs[1..], x)
  }

  /** How often an element occurs. */
  function Count(xs: seq<string>, x: string): nat {
    if xs == [] then 0 else Count(xs[..|xs| - 1], x) + (if xs[|xs| - 1] == x then 1 else 0)
  }

  lemma {:induction false} CountIsMultiplicity(xs: seq<string>, x: string)
    ensures Count(xs, x) == multiset(xs)[x]
  {
    if xs != [] {
      CountIsMultiplicity(xs[..|xs| - 1], x);
      assert xs == xs[..|xs| - 1] + [xs[|xs| - 1]];
    }
  }

  lemma {:induction false} CountOfAbsent(xs: seq<string>, x: string)
    requires x !in xs
    ensures Count(xs, x) == 0
  {
    if xs != [] {
      CountOfAbsent(xs[..|xs| - 1], x);
    }
  }

  /** x ranks before y: it occurs more often, or as often and first. */
  predicate Before(xs: seq<string>, x: string, y: string)
    requires x in xs && y in xs
  {
    Count(xs, x) > Count(xs, y) || (Count(xs, x) == Count(xs, y) && FirstIndex(xs, x) < FirstIndex(xs, y))
  }

  /** Every element once, each before all that follow it. */
  ghost predicate IsRanking(r: seq<string>, xs: seq<string>) {
    && (forall x :: x in r <==> x in xs)
    && Ordered(r, xs)
  }

  predicate Ordered(r: seq<string>, xs: seq<string>) {
    && (forall i :: 0 <= i < |r| ==> r[i] in xs)
    && (forall i, j :: 0 <= i < j < |r| ==> Before(xs, r[i], r[j]))
  }

  /** Stable insertion by descending key. */
  function Insert(r: seq<string>, x: string, key: string -> nat): seq<string> {
    if r == [] || key(r[|r| - 1]) >= key(x) then r + [x]
    else Insert(r[..|r| - 1], x, key) + [r[|r| - 1]]
  }

  /** `sorted(items, key=key, reverse=True)` keeps ties in order. */
  function SortBy(items: seq<string>, key: string -> nat): seq<string> {
    if items == [] then [] else Insert(SortBy(items[..|items| - 1], key), items[|items| - 1], key)
  }

  /** The true count. */
  function CountIn(xs: seq<string>): string -> nat {
    x => Count(xs, x)
  }

  /** The count a dictionary has for its keys. */
  function Lookup(counts: map<string, nat>): string -> nat {
    x => if x in counts then counts[x] else 0
  }

  /** The distinct elements, sorted by their true counts. */
  function Ranking(xs: seq<string>): seq<string> {
    SortBy(FirstSeen(xs), CountIn(xs))
  }

  lemma {:induction false} InsertMembers(r: seq<string>, x: string, key: string -> nat)
    ensures forall y :: y in Insert(r, x, key) <==> y in r || y == x
  {
    if !(r == [] || key(r[|r| - 1]) >= key(x)) {
      InsertMembers(r[..|r| - 1], x, key);
      assert r == r[..|r| - 1] + [r[|r| - 1]];
    }
  }

  lemma {:induction false} InsertAgrees(r: seq<string>, x: string, f: string -> nat, g: string -> nat)
    requires f(x) == g(x) && forall y :: y in r ==> f(y) == g(y)
    ensures Insert(r, x, f) == Insert(r, x, g)
  {
    if r != [] {
      assert r[|r| - 1] in r;
      InsertAgrees(r[..|r| - 1], x, f, g);
    }
  }

  /** Sorting looks only at the keys of its items. */
  lemma {:induction false} SortAgrees(items: seq<string>, f: string -> nat, g: string -> nat)
    requires forall y :: y in items ==> f(y) == g(y)
    ensures SortBy(items, f) == SortBy(items, g)
    ensures forall y :: y in SortBy(items, f) <==> y in items
  {
    if items != [] {
      var init, x := items[..|items| - 1], items[|items| - 1];
      assert items == init + [x];
      SortAgrees(init, f, g);
      InsertAgrees(SortBy(init, f), x, f, g);
      InsertMembers(SortBy(init, f), x, f);
    }
  }

  /** The first occurrence does not depend on what follows. */
  lemma FirstIndexIn(xs: seq<string>, all: seq<string>, x: string)
    requires xs <= all
    ensures x in xs ==> x in all && FirstIndex(all, x) < |xs|
    ensures x in all && x !in xs ==> FirstIndex(all, x) >= |xs|
  {
    if x in xs {
      var i :| 0 <= i < |xs| && xs[i] == x;
      assert all[i] == x;
    } else if x in all {
      assert forall k :: 0 <= k < |xs| ==> all[k] == xs[k] && xs[k] != x;
    }
  }

  lemma {:induction false} FirstSeenMembers(xs: seq<string>)
    ensures forall x :: x in FirstSeen(xs) <==> x in xs
  {
    if xs != [] {
      FirstSeenMembers(xs[..|xs| - 1]);
      assert xs == xs[..|xs| - 1] + [xs[|xs| - 1]];
    }
  }

  ghost predicate ByFirstIndex(keys: seq<string>, all: seq<string>) {
    && (forall i :: 0 <= i < |keys| ==> keys[i] in all)
    && (forall i, j :: 0 <= i < j < |keys| ==> FirstIndex(all, keys[i]) < FirstIndex(all, keys[j]))
  }

  lemma {:induction false} FirstSeenOrder(xs: seq<string>, all: seq<string>)
    requires xs <= all
    ensures ByFirstIndex(FirstSeen(xs), all)
  {
    if xs != [] {
      var init, x := xs[..|xs| - 1], xs[|xs| - 1];
      FirstSeenOrder(init, all);
      FirstSeenMembers(init);
      assert all[|xs| - 1] == x;
      var keys := FirstSeen(init);
      if x !in keys {
        FirstIndexIn(init, all, x);
        forall i | 0 <= i < |keys| ensures FirstIndex(all, keys[i]) < FirstIndex(all, x) {
          assert keys[i] in init;
          FirstIndexIn(init, all, keys[i]);
        }
      }
    }
  }

  lemma OrderedSnoc(r: seq<string>, x: string, xs: seq<string>)
    requires Ordered(r, xs) && x in xs
    requires forall y :: y in r ==> Before(xs, y, x)
    ensures Ordered(r + [x], xs)
  {
    var s := r + [x];
    forall i, j | 0 <= i < j < |s| ensures Before(xs, s[i], s[j]) {
      assert j < |r| || r[i] in r;
    }
  }

  lemma {:induction false} InsertKeepsOrder(r: seq<string>, x: string, xs: seq<string>)
    requires Ordered(r, xs) && x in xs
    requires forall i :: 0 <= i < |r| ==> FirstIndex(xs, r[i]) < FirstIndex(xs, x)
    ensures Ordered(Insert(r, x, CountIn(xs)), xs)
    ensures forall y :: y in Insert(r, x, CountIn(xs)) <==> y in r || y == x
  {
    if r == [] || Count(xs, r[|r| - 1]) >= Count(xs, x) {
      forall y | y in r ensures Before(xs, y, x) {
        var i :| 0 <= i < |r| && r[i] == y;
        assert i == |r| - 1 || Before(xs, r[i], r[|r| - 1]);
      }
      OrderedSnoc(r, x, xs);
    } else {
      var init, last := r[..|r| - 1], r[|r| - 1];
      InsertKeepsOrder(init, x, xs);
      forall y | y in Insert(init, x, CountIn(xs)) ensures Before(xs, y, last) {
        if y != x {
          var k :| 0 <= k < |init| && init[k] == y;
          assert Before(xs, r[k], r[|r| - 1]);
        }
      }
      OrderedSnoc(Insert(init, x, CountIn(xs)), last, xs);
      assert r == init + [last];
    }
  }

  lemma {:induction false} SortKeepsOrder(keys: seq<string>, xs: seq<string>)
    requires ByFirstIndex(keys, xs)
    ensures Ordered(SortBy(keys, CountIn(xs)), xs)
    ensures forall y :: y in SortBy(keys, CountIn(xs)) <==> y in keys
  {
    if keys != [] {
      var init, x := keys[..|keys| - 1], keys[|keys| - 1];
      SortKeepsOrder(init, xs);
      var r := SortBy(init, CountIn(xs));
      forall i | 0 <= i < |r| ensures FirstIndex(xs, r[i]) < FirstIndex(xs, x) {
        assert r[i] in init;
      }
      InsertKeepsOrder(r, x, xs);
    }
  }

  /** The ranking has each distinct element exactly once, in non-increasing true
      count, with ties in the order first seen. */
  lemma RankingIsRanking(xs: seq<string>)
    ensures IsRanking(Ranking(xs), xs)
  {
    FirstSeenOrder(xs, xs);
    FirstSeenMembers(xs);
    SortKeepsOrder(FirstSeen(xs), xs);
  }

  /** There is only one such sequence. */
  lemma {:induction false} OrderIsUnique(r: seq<string>, s: seq<string>, xs: seq<string>)
    requires Ordered(r, xs) && Ordered(s, xs)
    requires forall x :: x in r <==> x in s
    ensures r == s
  {
    assert s != [] ==> s[0] in r;
    if r != [] {
      assert r[0] in s;
      HeadFirst(s, xs, r[0]);
      HeadFirst(r, xs, s[0]);
      TailOf(r, xs);
      TailOf(s, xs);
      OrderIsUnique(r[1..], s[1..], xs);
      assert r == [r[0]] + r[1..] && s == [s[0]] + s[1..];
    }
  }

  lemma HeadFirst(r: seq<string>, xs: seq<string>, x: string)
    requires Ordered(r, xs) && x in r
    ensures x == r[0] || Before(xs, r[0], x)
  {
    var i :| 0 <= i < |r| && r[i] == x;
    assert i == 0 || Before(xs, r[0], r[i]);
  }

  lemma TailOf(r: seq<string>, xs: seq<string>)
    requires r != [] && Ordered(r, xs)
    ensures forall x :: x in r[1..] <==> x in r && x != r[0]
    ensures Ordered(r[1..], xs)
  {
    forall i | 0 <= i < |r[1..]| ensures r[1..][i] != r[0] {
      assert Before(xs, r[0], r[i + 1]);
    }
    assert r == [r[0]] + r[1..];
  }

  lemma RankingIsUnique(xs: seq<string>, r: seq<string>)
    ensures IsRanking(r, xs) <==> r == Ranking(xs)
  {
    RankingIsRanking(xs);
    if IsRanking(r, xs) {
      OrderIsUnique(r, Ranking(xs), xs);
    }
  }

  // -------------------------------------------------------------- manifest

  /** The dictionary after these extensions were counted. */
  ghost predicate Tallied(order: seq<string>, counts: map<string, nat>, xs: seq<string>) {
    && order == FirstSeen(xs)
    && (forall x :: x in counts <==> x in xs)
    && (forall x :: x in counts ==> counts[x] == Count(xs, x))
  }

  /** The dictionary after one more extension. */
  function Bumped(counts: map<string, nat>, ext: string): map<string, nat> {
    counts[ext := (if ext in counts then counts[ext] else 0) + 1]
  }

  lemma FirstSeenSnoc(xs: seq<string>, ext: string)
    ensures FirstSeen(xs + [ext]) == if ext in FirstSeen(xs) then FirstSeen(xs) else FirstSeen(xs) + [ext]
  {
    assert (xs + [ext])[..|xs|] == xs;
  }

  lemma CountSnoc(xs: seq<string>, ext: string, x: string)
    ensures Count(xs + [ext], x) == Count(xs, x) + if x == ext then 1 else 0
    ensures x in xs + [ext] <==> x in xs || x == ext
  {
    assert (xs + [ext])[..|xs|] == xs;
  }

  lemma TalliedSnoc(order: seq<string>, counts: map<string, nat>, xs: seq<string>, ext: string)
    requires Tallied(order, counts, xs)
    ensures Tallied(if ext in counts then order else order + [ext], Bumped(counts, ext), xs + [ext])
  {
    var ys := xs + [ext];
    FirstSeenSnoc(xs, ext);
    assert ext in FirstSeen(xs) <==> ext in counts by {
      FirstSeenMembers(xs);
    }
    forall x ensures x in Bumped(counts, ext) <==> x in ys {
      CountSnoc(xs, ext, x);
    }
    forall x | x in Bumped(counts, ext) ensures Bumped(counts, ext)[x] == Count(ys, x) {
      CountSnoc(xs, ext, x);
      if x !in counts {
        CountOfAbsent(xs, x);
      }
    }
  }

  lemma ExtensionsSnoc(files: seq<string>, k: nat)
    requires k < |files|
    ensures Extensions(files[..k + 1]) == Extensions(files[..k]) + [Extension(files[k])]
  {
  }

  /** One more file. */
  lemma TalliedNext(order: seq<string>, counts: map<string, nat>, files: seq<string>, k: nat)
    requires k < |files| && Tallied(order, counts, Extensions(files[..k]))
    ensures
      var ext := Extension(files[k]);
      Tallied(if ext in counts then order else order + [ext], Bumped(counts, ext), Extensions(files[..k + 1]))
  {
    TalliedSnoc(order, counts, Extensions(files[..k]), Extension(files[k]));
    ExtensionsSnoc(files, k);
  }

  /** `Manifest`: the counts are filled by the first query. `order` is the
      insertion order of the dictionary. */
  class Manifest {
    const manifest: seq<string>
    var order: seq<string>
    var counts: map<string, nat>
    var processed: bool

    ghost predicate Valid()
      reads this
    {
      Tallied(order, counts, if processed then Extensions(manifest) else [])
    }

    constructor (files: seq<string>)
      ensures Valid() && manifest == files && !processed
    {
      manifest, order, counts, processed := files, [], map[], false;
    }

    /** The body of the loop: a new key goes to the end of the dictionary. */
    method CountOne(ext: string)
      modifies this
      ensures order == if ext in old(counts) then old(order) else old(order) + [ext]
      ensures counts == Bumped(old(counts), ext) && processed == old(processed)
    {
      var count := if ext in counts then counts[ext] else 0;
      if ext !in counts {
        order := order + [ext];
      }
      counts := counts[ext := count + 1];
    }

    /** `_process`. */
    method Process()
      requires Valid() && !processed
      modifies this
      ensures Valid() && processed
    {
      processed := true;
      assert Extensions(manifest[..0]) == [];
      for k := 0 to |manifest|
        invariant Tallied(order, counts, Extensions(manifest[..k])) && processed
      {
        TalliedNext(order, counts, manifest, k);
        CountOne(Extension(manifest[k]));
      }
      assert manifest[..|manifest|] == manifest;
    }

    /** The same ranking whatever was asked before. */
    method MostPopularExtensions() returns (ranked: seq<string>)
      requires Valid()
      modifies this
      ensures Valid() && processed
      ensures IsRanking(ranked, Extensions(manifest))
    {
      if !processed {
        Process();
      }
      ghost var xs := Extensions(manifest);
      FirstSeenMembers(xs);
      SortAgrees(order, Lookup(counts), CountIn(xs));
      RankingIsRanking(xs);
      ranked := SortBy(order, Lookup(counts));
    }

    method Contains(fullpath: string) returns (found: bool)
      requires Valid()
      modifies this
      ensures Valid() && processed
      ensures found <==> fullpath in manifest
    {
      if !processed {
        Process();
      }
      found := fullpath in manifest;
    }
  }

  // -------------------------------------------------------------- detector

  const KNOWN_EXTENSION: map<string, string> := map[
    ".c" := "c", ".cc" := "cpp", ".go" := "golang", ".java" := "java", ".js" := "node", ".jsx" := "node",
    ".php" := "php", ".py" := "python", ".rs" := "rust", ".ts" := "node", ".tsx" := "node"]

  datatype Reason = PackageManager | FileExtension

  /** Tools compare by name only, so adding one that is there changes nothing. */
  datatype DetectedTool = DetectedTool(name: string, why: Reason)

  function Names(tools: seq<DetectedTool>): set<string> {
    set i | 0 <= i < |tools| :: tools[i].name
  }

  function Add(tools: seq<DetectedTool>, name: string, why: Reason): seq<DetectedTool> {
    if name in Names(tools) then tools else tools + [DetectedTool(name, why)]
  }

  /** The files that give a tool away by its package manager. */
  const MARKERS: seq<(string, string)> := [
    ("environment.yaml", "conda"), ("environment.yml", "conda"), ("requirements.txt", "pip"),
    ("pom.xml", "maven"), ("package.json", "node"), ("Cargo.toml", "rust")]

  ghost predicate ByManager(files: seq<string>, name: string) {
    exists i :: 0 <= i < |MARKERS| && MARKERS[i].1 == name && MARKERS[i].0 in files
  }

  ghost predicate ByExtension(files: seq<string>, name: string) {
    exists f :: f in files && Extension(f) in KNOWN_EXTENSION && KNOWN_EXTENSION[Extension(f)] == name
  }

  ghost predicate Distinct(tools: seq<DetectedTool>) {
    forall i, j :: 0 <= i < j < |tools| ==> tools[i].name != tools[j].name
  }

  /** No name twice; a name is there exactly if a marker file or a known
      extension gives it, and the package manager is the reason if it can be. */
  ghost predicate Detects(tools: seq<DetectedTool>, files: seq<string>) {
    && Distinct(tools)
    && (forall name :: name in Names(tools) <==> ByManager(files, name) || ByExtension(files, name))
    && (forall i :: 0 <= i < |tools| ==> (tools[i].why.PackageManager? <==> ByManager(files, tools[i].name)))
  }

  /** More files, at the end or anywhere else, never remove a detected name. */
  lemma DetectionIsMonotone(tools: seq<DetectedTool>, files: seq<string>, more: seq<DetectedTool>, all: seq<string>)
    requires Detects(tools, files) && Detects(more, all)
    requires forall f :: f in files ==> f in all
    ensures Names(tools) <= Names(more)
  {
    forall name | name in Names(tools) ensures name in Names(more) {
      if ByManager(files, name) {
        assert ByManager(all, name);
      } else {
        assert ByExtension(all, name);
      }
    }
  }

  /** More tools, all of them for their file extension. */
  ghost predicate Extends(managed: seq<DetectedTool>, tools: seq<DetectedTool>) {
    && managed <= tools && Distinct(tools)
    && (forall i :: |managed| <= i < |tools| ==> tools[i].why.FileExtension?)
  }

  lemma AddKeeps(tools: seq<DetectedTool>, name: string, why: Reason)
    requires Distinct(tools)
    ensures
      var added := Add(tools, name, why);
      && Distinct(added)
      && Names(added) == Names(tools) + {name}
      && tools <= added
      && (name !in Names(tools) ==> added == tools + [DetectedTool(name, why)])
  {
    var added := Add(tools, name, why);
    if name !in Names(tools) {
      assert forall i :: 0 <= i < |tools| ==> tools[i].name in Names(tools);
      assert added[|tools|].name == name;
      assert forall i :: 0 <= i < |tools| ==> added[i] == tools[i];
    }
  }

  function NamesFor(conda: bool, pip: bool, maven: bool, node: bool, rust: bool): set<string> {
    {} + (if conda then {"conda"} else {}) + (if pip then {"pip"} else {}) + (if maven then {"maven"} else {})
    + (if node then {"node"} else {}) + (if rust then {"rust"} else {})
  }

  /** The names the package managers give. */
  function ManagerNames(files: seq<string>): set<string> {
    NamesFor("environment.yaml" in files || "environment.yml" in files, "requirements.txt" in files,
             "pom.xml" in files, "package.json" in files, "Cargo.toml" in files)
  }

  lemma ManagerNamesIff(files: seq<string>, name: string)
    ensures name in ManagerNames(files) <==> ByManager(files, name)
  {
    if ByManager(files, name) {
      var i :| 0 <= i < |MARKERS| && MARKERS[i].1 == name && MARKERS[i].0 in files;
      assert i == 0 || i == 1 || i == 2 || i == 3 || i == 4 || i == 5;
    }
    assert MARKERS[0] == ("environment.yaml", "conda") && MARKERS[1] == ("environment.yml", "conda");
    assert MARKERS[2] == ("requirements.txt", "pip") && MARKERS[3] == ("pom.xml", "maven");
    assert MARKERS[4] == ("package.json", "node") && MARKERS[5] == ("Cargo.toml", "rust");
  }

  /** All found by a package manager, each once. */
  ghost predicate Managed(tools: seq<DetectedTool>, names: set<string>) {
    && Distinct(tools)
    && (forall i :: 0 <= i < |tools| ==> tools[i].why.PackageManager?)
    && Names(tools) == names
  }

  method AddIf(tools: seq<DetectedTool>, ghost names: set<string>, found: bool, name: string)
    returns (r: seq<DetectedTool>)
    requires Managed(tools, names)
    ensures Managed(r, names + (if found then {name} else {}))
  {
    r := tools;
    if found {
      AddKeeps(tools, name, PackageManager);
      r := Add(tools, name, PackageManager);
    }
  }

  method AddManaged(conda: bool, pip: bool, maven: bool, node: bool, rust: bool) returns (tools: seq<DetectedTool>)
    ensures Managed(tools, NamesFor(conda, pip, maven, node, rust))
  {
    ghost var names := {};
    tools := AddIf([], names, conda, "conda");
    names := names + (if conda then {"conda"} else {});
    tools := AddIf(tools, names, pip, "pip");
    names := names + (if pip then {"pip"} else {});
    tools := AddIf(tools, names, maven, "maven");
    names := names + (if maven then {"maven"} else {});
    tools := AddIf(tools, names, node, "node");
    names := names + (if node then {"node"} else {});
    tools := AddIf(tools, names, rust, "rust");
  }

  /** The first half of `get_languages`. */
  method ManagerTools(m: Manifest) returns (tools: seq<DetectedTool>)
    requires m.Valid()
    modifies m
    ensures m.Valid() && Managed(tools, ManagerNames(m.manifest))
  {
    var conda := m.Contains("environment.yaml");
    if !conda {
      conda := m.Contains("environment.yml");
    }
    var pip := m.Contains("requirements.txt");
    var maven := m.Contains("pom.xml");
    var node := m.Contains("package.json");
    var rust := m.Contains("Cargo.toml");
    tools := AddManaged(conda, pip, maven, node, rust);
  }

  /** The names known extensions give. */
  function ExtensionNames(ranked: seq<string>): set<string> {
    set e | e in ranked && e in KNOWN_EXTENSION :: KNOWN_EXTENSION[e]
  }

  lemma ExtensionNamesIff(ranked: seq<string>, files: seq<string>, name: string)
    requires IsRanking(ranked, Extensions(files))
    ensures name in ExtensionNames(ranked) <==> ByExtension(files, name)
  {
    var xs := Extensions(files);
    if name in ExtensionNames(ranked) {
      var e :| e in ranked && e in KNOWN_EXTENSION && KNOWN_EXTENSION[e] == name;
      var i :| 0 <= i < |xs| && xs[i] == e;
      assert files[i] in files;
    }
    if ByExtension(files, name) {
      var f :| f in files && Extension(f) in KNOWN_EXTENSION && KNOWN_EXTENSION[Extension(f)] == name;
      var i :| 0 <= i < |files| && files[i] == f;
      assert xs[i] in xs;
    }
  }

  /** The extensions that give each name, and that no other extension is known. */
  lemma ExtensionsByName(ext: string)
    ensures
      var names := KnownName(ext);
      && ("c" in names <==> ext == ".c") && ("cpp" in names <==> ext == ".cc")
      && ("golang" in names <==> ext == ".go") && ("java" in names <==> ext == ".java")
      && ("node" in names <==> ext in [".js", ".jsx", ".ts", ".tsx"])
      && ("php" in names <==> ext == ".php") && ("python" in names <==> ext == ".py")
      && ("rust" in names <==> ext == ".rs")
      && (forall name :: name in names ==> name in ["c", "cpp", "golang", "java", "node", "php", "python", "rust"])
  {
  }

  /** The files by which each package manager is found. */
  lemma MarkersByName(files: seq<string>, name: string)
    ensures
      ByManager(files, name) <==>
        || (name == "conda" && ("environment.yaml" in files || "environment.yml" in files))
        || (name == "pip" && "requirements.txt" in files)
        || (name == "maven" && "pom.xml" in files)
        || (name == "node" && "package.json" in files)
        || (name == "rust" && "Cargo.toml" in files)
  {
    ManagerNamesIff(files, name);
  }

  /** The second half of `get_languages`: the name a known extension gives. */
  function KnownName(lang: string): set<string> {
    if lang in KNOWN_EXTENSION then {KNOWN_EXTENSION[lang]} else {}
  }

  /** Beside the managed tools, the tools are those of the first `k` extensions. */
  ghost predicate Added(managed: seq<DetectedTool>, tools: seq<DetectedTool>, ranked: seq<string>, k: nat)
    requires k <= |ranked|
  {
    Extends(managed, tools) && Names(tools) == Names(managed) + ExtensionNames(ranked[..k])
  }

  /** The body of the loop over the extensions. */
  method AddExtension(ghost managed: seq<DetectedTool>, tools: seq<DetectedTool>, ranked: seq<string>, k: nat)
    returns (r: seq<DetectedTool>)
    requires k < |ranked| && Added(managed, tools, ranked, k)
    ensures Added(managed, r, ranked, k + 1)
  {
    ghost var before := ExtensionNames(ranked[..k]);
    ExtensionNamesSnoc(ranked[..k], ranked[k]);
    assert ranked[..k + 1] == ranked[..k] + [ranked[k]];
    r := AddKnown(managed, tools, ranked[k]);
    assert (Names(managed) + before) + KnownName(ranked[k]) == Names(managed) + (before + KnownName(ranked[k]));
  }

  method AddKnown(ghost managed: seq<DetectedTool>, tools: seq<DetectedTool>, lang: string)
    returns (r: seq<DetectedTool>)
    requires Extends(managed, tools)
    ensures Extends(managed, r) && Names(r) == Names(tools) + KnownName(lang)
  {
    r := tools;
    if lang in KNOWN_EXTENSION {
      AddExtends(managed, tools, KNOWN_EXTENSION[lang]);
      r := Add(tools, KNOWN_EXTENSION[lang], FileExtension);
    }
  }

  method AddExtensions(managed: seq<DetectedTool>, ranked: seq<string>) returns (tools: seq<DetectedTool>)
    requires Distinct(managed)
    ensures Added(managed, tools, ranked, |ranked|)
  {
    tools := managed;
    assert Names(managed) == Names(managed) + ExtensionNames(ranked[..0]);
    for k := 0 to |ranked|
      invariant Added(managed, tools, ranked, k)
    {
      tools := AddExtension(managed, tools, ranked, k);
    }
  }

  lemma AddExtends(managed: seq<DetectedTool>, tools: seq<DetectedTool>, name: string)
    requires Extends(managed, tools)
    ensures Extends(managed, Add(tools, name, FileExtension))
    ensures Names(Add(tools, name, FileExtension)) == Names(tools) + {name}
  {
    AddKeeps(tools, name, FileExtension);
  }

  lemma ExtensionNamesSnoc(ranked: seq<string>, lang: string)
    ensures ExtensionNames(ranked + [lang]) == ExtensionNames(ranked) + KnownName(lang)
  {
  }

  lemma HalvesDetect(managed: seq<DetectedTool>, tools: seq<DetectedTool>, ranked: seq<string>, files: seq<string>)
    requires Managed(managed, ManagerNames(files)) && IsRanking(ranked, Extensions(files))
    requires Extends(managed, tools)
    requires Names(tools) == Names(managed) + ExtensionNames(ranked)
    ensures Detects(tools, files)
  {
    forall name ensures name in Names(tools) <==> ByManager(files, name) || ByExtension(files, name) {
      ManagerNamesIff(files, name);
      ExtensionNamesIff(ranked, files, name);
    }
    forall i | 0 <= i < |tools| ensures tools[i].why.PackageManager? <==> ByManager(files, tools[i].name) {
      ManagerNamesIff(files, tools[i].name);
      if i < |managed| {
        assert tools[i] == managed[i] && managed[i].name in Names(managed);
      } else {
        assert forall j :: 0 <= j < |managed| ==> tools[j] == managed[j] && tools[j].name != tools[i].name;
      }
    }
  }

  /** `get_languages`. */
  method GetLanguages(m: Manifest) returns (tools: seq<DetectedTool>)
    requires m.Valid()
    modifies m
    ensures m.Valid() && Detects(tools, m.manifest)
  {
    var managed := ManagerTools(m);
    var ranked := m.MostPopularExtensions();
    tools := AddExtensions(managed, ranked);
    HalvesDetect(managed, tools, ranked, m.manifest);
  }
}
