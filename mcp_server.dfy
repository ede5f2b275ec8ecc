/** The helpers of `mcp-server/src/index.ts`, the developer-tool server that
    inspects the project: page and component discovery, the import check,
    the directory tree, the unused-component check and the translation key
    count. File-system reads are replaced by values: a directory is the
    sequence of its entries, a source file its path and text. */
module McpServer {
  import opened Common
  import opened Seqs

  /** A directory entry as `readdirSync(dir, { withFileTypes: true })`
      yields it, with a directory's own entries inside it. */
  datatype Entry = Dir(name: string, children: seq<Entry>) | File(name: string)

  /** A file under `src`: its path relative to `src` and its text. */
  datatype SourceFile = SourceFile(path: string, content: string)

  // ---------------------------------------------------------------------
  // findPages

  /** The file names the server counts as pages. */
  const SERVER_PAGE_FILES: set<string> := {"page.tsx", "page.ts"}

  /** A page is listed as `prefix || "/"`. */
  function RouteOf(prefix: string): string {
    if prefix == "" then "/" else prefix
  }

  /** The prefix below `prefix` after descending into `dirs` in turn. */
  function Under(prefix: string, dirs: seq<string>): string
    decreases |dirs|
  {
    if dirs == [] then prefix else Under(prefix + "/" + dirs[0], dirs[1..])
  }

  /** What the walk lists for the entries `es[k..]` of a directory reached
      by `prefix`, in `readdirSync` order, depth first. */
  function PagesFrom(es: seq<Entry>, prefix: string, pageFiles: set<string>, k: nat): seq<string>
    decreases es, |es| - k
  {
    if k >= |es| then [] else PagesAt(es[k], prefix, pageFiles) + PagesFrom(es, prefix, pageFiles, k + 1)
  }

  function PagesAt(e: Entry, prefix: string, pageFiles: set<string>): seq<string>
    decreases e
  {
    match e
    case Dir(n, cs) => PagesFrom(cs, prefix + "/" + n, pageFiles, 0)
    case File(n) => if n in pageFiles then [RouteOf(prefix)] else []
  }

  /** A page file sits in the directory reached from `es` by the directory
      names `dirs`. */
  predicate PageAt(es: seq<Entry>, dirs: seq<string>, pageFiles: set<string>)
    decreases |dirs|
  {
    if dirs == [] then exists k :: 0 <= k < |es| && es[k].File? && es[k].name in pageFiles
    else exists k :: (0 <= k < |es| && es[k].Dir? && es[k].name == dirs[0] &&
                      PageAt(es[k].children, dirs[1..], pageFiles))
  }

  /** The inner `scanDir(currentDir, prefix)`: it appends to the shared
      `pages` array what the walk lists for `es`. */
  method ScanDir(es: seq<Entry>, prefix: string, pages: seq<string>) returns (out: seq<string>)
    ensures out == pages + PagesFrom(es, prefix, SERVER_PAGE_FILES, 0)
    decreases es
  {
    out := pages;
    var i := 0;
    while i < |es|
      invariant 0 <= i <= |es|
      invariant out + PagesFrom(es, prefix, SERVER_PAGE_FILES, i) == pages + PagesFrom(es, prefix, SERVER_PAGE_FILES, 0)
    {
      var entry := es[i];
      if entry.Dir? {
        out := ScanDir(entry.children, prefix + "/" + entry.name, out);
      } else if entry.name == "page.tsx" || entry.name == "page.ts" {
        out := out + [RouteOf(prefix)];
      }
      i := i + 1;
    }
  }

  /** `findPages(dir)`: nothing when the directory does not exist. */
  method FindPages(app: Option<seq<Entry>>) returns (pages: seq<string>)
    ensures app.None? ==> pages == []
    ensures app.Some? ==> pages == PagesFrom(app.value, "", SERVER_PAGE_FILES, 0)
  {
    if app.None? {
      return [];
    }
    pages := ScanDir(app.value, "", []);
  }

  /** The pages of `es[k]` are among the pages of `es[j..]` for `j <= k`. */
  lemma {:induction false} PagesFromHas(es: seq<Entry>, prefix: string, pageFiles: set<string>, j: nat, k: nat, x: string)
    requires j <= k < |es| && x in PagesAt(es[k], prefix, pageFiles)
    ensures x in PagesFrom(es, prefix, pageFiles, j)
    decreases k - j
  {
    if j < k {
      PagesFromHas(es, prefix, pageFiles, j + 1, k, x);
    }
  }

  /** A page file under the directories `d1 … dk` is listed as
      `prefix/d1/…/dk`, and one at the top as `prefix`, or `/` when that
      is empty. */
  lemma {:induction false} PageListed(es: seq<Entry>, dirs: seq<string>, prefix: string, pageFiles: set<string>)
    requires PageAt(es, dirs, pageFiles)
    ensures RouteOf(Under(prefix, dirs)) in PagesFrom(es, prefix, pageFiles, 0)
    decreases |dirs|
  {
    if dirs == [] {
      var k :| 0 <= k < |es| && es[k].File? && es[k].name in pageFiles;
      PagesFromHas(es, prefix, pageFiles, 0, k, RouteOf(prefix));
    } else {
      var k :| 0 <= k < |es| && es[k].Dir? && es[k].name == dirs[0] && PageAt(es[k].children, dirs[1..], pageFiles);
      PageListed(es[k].children, dirs[1..], prefix + "/" + dirs[0], pageFiles);
      PagesFromHas(es, prefix, pageFiles, 0, k, RouteOf(Under(prefix, dirs)));
    }
  }

  /** Conversely, every listed route is that of a page file. */
  lemma {:induction false} OnlyPagesListed(es: seq<Entry>, prefix: string, pageFiles: set<string>, k: nat, x: string)
    requires x in PagesFrom(es, prefix, pageFiles, k)
    ensures exists dirs :: PageAt(es, dirs, pageFiles) && x == RouteOf(Under(prefix, dirs))
    decreases es, |es| - k
  {
    var e := es[k];
    if x in PagesAt(e, prefix, pageFiles) {
      match e
      case File(n) =>
        assert PageAt(es, [], pageFiles);
        assert x == RouteOf(Under(prefix, []));
      case Dir(n, cs) =>
        OnlyPagesListed(cs, prefix + "/" + n, pageFiles, 0, x);
        var ds :| PageAt(cs, ds, pageFiles) && x == RouteOf(Under(prefix + "/" + n, ds));
        var dirs := [n] + ds;
        assert dirs[1..] == ds;
        assert PageAt(es, dirs, pageFiles);
        assert x == RouteOf(Under(prefix, dirs));
    } else {
      OnlyPagesListed(es, prefix, pageFiles, k + 1, x);
    }
  }

  // ---------------------------------------------------------------------
  // findComponents

  /** `files.filter((f) => f.endsWith(".tsx") || f.endsWith(".ts"))`, and
      nothing when the directory does not exist. */
  function FindComponents(dir: Option<seq<string>>): (r: seq<string>)
    ensures dir.None? ==> r == []
    ensures dir.Some? ==> IsSubsequence(r, dir.value)
    ensures dir.Some? ==> forall f :: f in r <==> f in dir.value && (EndsWith(f, ".tsx") || EndsWith(f, ".ts"))
  {
    if dir.None? then []
    else
      var p := (f: string) => EndsWith(f, ".tsx") || EndsWith(f, ".ts");
      FilterKeepsOrder(dir.value, p);
      FilterMembers(dir.value, p);
      Filter(dir.value, p)
  }

  // ---------------------------------------------------------------------
  // checkAllImports

  predicate IsQuote(c: char) {
    c == '\'' || c == '"'
  }

  /** The regular expression `from ['"]([^'"]+)['"]` matches at the start
      of `s`, with the closing quote at `j`. */
  predicate MatchAt(s: string, j: nat) {
    StartsWith(s, "from ") && 6 < j < |s| && IsQuote(s[5]) && IsQuote(s[j]) &&
    forall t :: 6 <= t < j ==> !IsQuote(s[t])
  }

  /** `[^'"]+` from `k`: the first index at or after `k` holding a quote,
      or the end. */
  function QuoteEnd(s: string, k: nat): (j: nat)
    requires k <= |s|
    ensures k <= j <= |s|
    ensures forall t :: k <= t < j ==> !IsQuote(s[t])
    ensures j < |s| ==> IsQuote(s[j])
    decreases |s| - k
  {
    if k == |s| || IsQuote(s[k]) then k else QuoteEnd(s, k + 1)
  }

  /** The module name of a match at the start of `s`: the text between the
      quotes, which is what `match.replace(/from ['"]|['"]/g, "")` leaves. */
  function ImportAt(s: string): (r: Option<string>)
    ensures r.Some? <==> exists j :: MatchAt(s, j)
    ensures r.Some? ==> MatchAt(s, 6 + |r.value|) && r.value == s[6..6 + |r.value|]
  {
    if StartsWith(s, "from ") && |s| > 6 && IsQuote(s[5]) then
      var j := QuoteEnd(s, 6);
      if 6 < j < |s| then
        assert MatchAt(s, j);
        Some(s[6..j])
      else None
    else None
  }

  predicate NoQuote(m: string) {
    forall t :: 0 <= t < |m| ==> !IsQuote(m[t])
  }

  /** The module names of every match of the global regular expression,
      left to right: after a match the search resumes past its closing
      quote, otherwise one character further on. */
  function Specifiers(s: string): (r: seq<string>)
    ensures forall m :: m in r ==> m != [] && NoQuote(m)
    decreases |s|
  {
    if s == [] then []
    else match ImportAt(s)
      case Some(m) => [m] + Specifiers(s[|m| + 7..])
      case None => Specifiers(s[1..])
  }

  /** Not a relative (`.`) or aliased (`@/`) import. */
  predicate External(m: string) {
    !StartsWith(m, ".") && !StartsWith(m, "@/")
  }

  /** The package a module name belongs to: the first two `/`-separated
      segments when it starts with `@`, else the first. */
  function PackageName(m: string): (r: string)
    ensures StartsWith(m, r)
    ensures !StartsWith(m, "@") ==> '/' !in r && (|r| < |m| ==> m[|r|] == '/')
  {
    var i := IndexOfChar(m, '/');
    if StartsWith(m, "@") && i < |m| then
      var j := IndexOfChar(m[i + 1..], '/');
      m[..i + 1 + j]
    else m[..i]
  }

  lemma {:induction false} FirstSlash(a: string, b: string)
    requires '/' !in a
    ensures IndexOfChar(a + "/" + b, '/') == |a|
  {
    var s := a + "/" + b;
    var i := IndexOfChar(s, '/');
    assert s[|a|] == '/';
    assert forall t :: 0 <= t < |a| ==> s[t] == a[t];
  }

  /** The package of `@scope/pkg/sub` is `@scope/pkg` and of `pkg/sub` is
      `pkg`; a bare name is its own package. */
  lemma {:induction false} PackageNames(scope: string, pkg: string, sub: string)
    requires '/' !in scope && '/' !in pkg
    requires pkg != [] && pkg[0] != '@'
    ensures PackageName("@" + scope + "/" + pkg + "/" + sub) == "@" + scope + "/" + pkg
    ensures PackageName("@" + scope + "/" + pkg) == "@" + scope + "/" + pkg
    ensures PackageName(pkg + "/" + sub) == pkg
    ensures PackageName(pkg) == pkg
  {
    ScopedPackage(scope, pkg, sub);
    ScopedPackage(scope, pkg, "");
    PlainPackage(pkg, sub);
  }

  lemma {:induction false} ScopedPackage(scope: string, pkg: string, sub: string)
    requires '/' !in scope && '/' !in pkg
    ensures PackageName("@" + scope + "/" + pkg + "/" + sub) == "@" + scope + "/" + pkg
    ensures PackageName("@" + scope + "/" + pkg) == "@" + scope + "/" + pkg
  {
    ScopedSub(scope, pkg, sub);
    ScopedBare(scope, pkg);
  }

  lemma {:induction false} ScopedSub(scope: string, pkg: string, sub: string)
    requires '/' !in scope && '/' !in pkg
    ensures PackageName("@" + scope + "/" + pkg + "/" + sub) == "@" + scope + "/" + pkg
  {
    var at := "@" + scope;
    var rest := pkg + "/" + sub;
    FirstSlash(pkg, sub);
    ScopedWith(at, rest, |pkg|);
    assert at + "/" + rest == "@" + scope + "/" + pkg + "/" + sub;
    assert rest[..|pkg|] == pkg;
  }

  lemma {:induction false} ScopedBare(scope: string, pkg: string)
    requires '/' !in scope && '/' !in pkg
    ensures PackageName("@" + scope + "/" + pkg) == "@" + scope + "/" + pkg
  {
    var at := "@" + scope;
    NoSlashIndex(pkg);
    ScopedWith(at, pkg, |pkg|);
    assert at + "/" + pkg == "@" + scope + "/" + pkg;
    assert pkg[..|pkg|] == pkg;
  }

  /** The package of `at/rest`, for a scope `at` with no `/`, ends where
      `rest` first has a `/`. */
  lemma {:induction false} ScopedWith(at: string, rest: string, n: nat)
    requires at != [] && at[0] == '@' && '/' !in at
    requires n == IndexOfChar(rest, '/')
    ensures PackageName(at + "/" + rest) == at + "/" + rest[..n]
  {
    var m := at + "/" + rest;
    FirstSlash(at, rest);
    assert StartsWith(m, "@");
    assert m[|at| + 1..] == rest;
    assert m[..|at| + 1 + n] == at + "/" + rest[..n];
  }

  lemma {:induction false} PlainPackage(pkg: string, sub: string)
    requires '/' !in pkg
    requires pkg != [] && pkg[0] != '@'
    ensures PackageName(pkg + "/" + sub) == pkg
    ensures PackageName(pkg) == pkg
  {
    FirstSlash(pkg, sub);
    assert (pkg + "/" + sub)[..|pkg|] == pkg;
    assert !StartsWith(pkg + "/" + sub, "@");
    NoSlashIndex(pkg);
    assert !StartsWith(pkg, "@");
  }

  lemma NoSlashIndex(s: string)
    requires '/' !in s
    ensures IndexOfChar(s, '/') == |s|
  {
  }

  /** The packages named by the module names `ms`, one per external name. */
  function PackagesOf(ms: seq<string>): seq<string> {
    if ms == [] then []
    else PackagesOf(ms[..|ms| - 1]) + (if External(ms[|ms| - 1]) then [PackageName(ms[|ms| - 1])] else [])
  }

  /** The packages named by the imports of `files`, file after file. */
  function AllPackages(files: seq<SourceFile>): seq<string> {
    if files == [] then []
    else AllPackages(files[..|files| - 1]) + PackagesOf(Specifiers(files[|files| - 1].content))
  }

  /** A package is collected exactly when some file's imports yield it. */
  lemma AllPackagesMeaning(files: seq<SourceFile>, x: string)
    ensures x in AllPackages(files) <==>
      exists k :: 0 <= k < |files| && x in PackagesOf(Specifiers(files[k].content))
  {
    if x in AllPackages(files) {
      var k := PackageSource(files, x);
    }
    if exists k :: 0 <= k < |files| && x in PackagesOf(Specifiers(files[k].content)) {
      var k :| 0 <= k < |files| && x in PackagesOf(Specifiers(files[k].content));
      PackageCollected(files, k, x);
    }
  }

  /** A collected package comes from some file. */
  lemma {:induction false} PackageSource(files: seq<SourceFile>, x: string) returns (k: nat)
    requires x in AllPackages(files)
    ensures k < |files| && x in PackagesOf(Specifiers(files[k].content))
    decreases |files|
  {
    var init := files[..|files| - 1];
    assert AllPackages(files) == AllPackages(init) + PackagesOf(Specifiers(files[|files| - 1].content));
    if x in AllPackages(init) {
      k := PackageSource(init, x);
      assert files[k] == init[k];
    } else {
      k := |files| - 1;
    }
  }

  /** Every package of every file is collected. */
  lemma {:induction false} PackageCollected(files: seq<SourceFile>, k: nat, x: string)
    requires k < |files| && x in PackagesOf(Specifiers(files[k].content))
    ensures x in AllPackages(files)
    decreases |files|
  {
    var init := files[..|files| - 1];
    assert AllPackages(files) == AllPackages(init) + PackagesOf(Specifiers(files[|files| - 1].content));
    if k < |init| {
      assert files[k] == init[k];
      PackageCollected(init, k, x);
    }
  }

  /** A module list yields a package exactly when one of its names is
      neither relative nor aliased and belongs to that package. */
  lemma {:induction false} PackagesOfMeaning(ms: seq<string>, x: string)
    ensures x in PackagesOf(ms) <==> exists m :: m in ms && External(m) && PackageName(m) == x
  {
    if ms != [] {
      var init := ms[..|ms| - 1];
      PackagesOfMeaning(init, x);
      assert ms == init + [ms[|ms| - 1]];
    }
  }

  /** Relative and aliased imports never yield a package. */
  lemma RelativeImportsIgnored(files: seq<SourceFile>)
    requires forall k, m :: 0 <= k < |files| && m in Specifiers(files[k].content) ==> !External(m)
    ensures AllPackages(files) == []
  {
    if AllPackages(files) != [] {
      var x := AllPackages(files)[0];
      AllPackagesMeaning(files, x);
      var k :| 0 <= k < |files| && x in PackagesOf(Specifiers(files[k].content));
      PackagesOfMeaning(Specifiers(files[k].content), x);
    }
  }

  /** Adds the packages of one file's module names to the set
      `externalPackages`, kept as a sequence without repeats in insertion
      order: the new packages follow the old ones, in the order of their
      first occurrence among the module names. */
  method AddPackages(ms: seq<string>, external: seq<string>) returns (out: seq<string>)
    requires forall a, b :: 0 <= a < b < |external| ==> external[a] != external[b]
    ensures forall a, b :: 0 <= a < b < |out| ==> out[a] != out[b]
    ensures forall x :: x in out <==> x in external || x in PackagesOf(ms)
    ensures out == external + DedupAfter(PackagesOf(ms), Elems(external))
    ensures FirstOrdered(PackagesOf(ms), out[|external|..])
  {
    ghost var seen := Elems(external);
    out := external;
    var j := 0;
    while j < |ms|
      invariant 0 <= j <= |ms|
      invariant out == external + DedupAfter(PackagesOf(ms[..j]), seen)
    {
      var moduleName := ms[j];
      AddPackagesStep(ms, j, external, out);
      if External(moduleName) {
        var packageName := PackageName(moduleName);
        if packageName !in out {
          out := out + [packageName];
        }
      }
      j := j + 1;
    }
    assert ms[..|ms|] == ms;
    FreshAfter(external, DedupAfter(PackagesOf(ms), seen));
    DedupOrdered(PackagesOf(ms), seen);
    assert out[|external|..] == DedupAfter(PackagesOf(ms), seen);
  }

  /** One turn of the loop in `AddPackages`. */
  lemma AddPackagesStep(ms: seq<string>, j: nat, external: seq<string>, out: seq<string>)
    requires j < |ms|
    requires out == external + DedupAfter(PackagesOf(ms[..j]), Elems(external))
    ensures (if External(ms[j]) && PackageName(ms[j]) !in out then out + [PackageName(ms[j])] else out)
      == external + DedupAfter(PackagesOf(ms[..j + 1]), Elems(external))
  {
    var before := PackagesOf(ms[..j]);
    assert ms[..j + 1][..j] == ms[..j];
    assert PackagesOf(ms[..j + 1]) == before + (if External(ms[j]) then [PackageName(ms[j])] else []);
    if External(ms[j]) {
      AddToSet(out, external, before, PackageName(ms[j]));
    } else {
      assert before + [] == before;
    }
  }

  /** Appending fresh distinct elements to a sequence without repeats. */
  lemma FreshAfter(xs: seq<string>, ys: seq<string>)
    requires forall a, b :: 0 <= a < b < |xs| ==> xs[a] != xs[b]
    requires forall a, b :: 0 <= a < b < |ys| ==> ys[a] != ys[b]
    requires forall a :: 0 <= a < |ys| ==> ys[a] !in xs
    ensures forall a, b :: 0 <= a < b < |xs + ys| ==> (xs + ys)[a] != (xs + ys)[b]
  {
  }

  /** The loop over `files` that fills the set `externalPackages`: each
      package once, in the order it is first imported. */
  method CollectPackages(files: seq<SourceFile>) returns (external: seq<string>)
    ensures forall a, b :: 0 <= a < b < |external| ==> external[a] != external[b]
    ensures forall x :: x in external <==> x in AllPackages(files)
    ensures external == Dedup(AllPackages(files))
    ensures FirstOrdered(AllPackages(files), external)
  {
    external := [];
    var i := 0;
    while i < |files|
      invariant 0 <= i <= |files|
      invariant external == Dedup(AllPackages(files[..i]))
    {
      var content := files[i].content;
      CollectPackagesStep(files, i, external);
      external := AddPackages(Specifiers(content), external);
      i := i + 1;
    }
    assert files[..|files|] == files;
    DedupOrdered(AllPackages(files), {});
  }

  /** One turn of the loop in `CollectPackages`. */
  lemma CollectPackagesStep(files: seq<SourceFile>, i: nat, external: seq<string>)
    requires i < |files|
    requires external == Dedup(AllPackages(files[..i]))
    ensures external + DedupAfter(PackagesOf(Specifiers(files[i].content)), Elems(external))
      == Dedup(AllPackages(files[..i + 1]))
  {
    var before := AllPackages(files[..i]);
    assert files[..i + 1][..i] == files[..i];
    assert (Elems(external)) == {} + Elems(before);
    DedupAppend(before, PackagesOf(Specifiers(files[i].content)), {});
  }

  /** The packages `package.json` declares, `{ ...dependencies,
      ...devDependencies }`: a development entry overrides a runtime one. */
  function InstalledDeps(dependencies: map<string, string>, devDependencies: map<string, string>): (r: map<string, string>)
    ensures forall p :: p in r <==> p in dependencies || p in devDependencies
    ensures forall p :: p in devDependencies ==> r[p] == devDependencies[p]
    ensures forall p :: p in dependencies && p !in devDependencies ==> r[p] == dependencies[p]
  {
    dependencies + devDependencies
  }

  /** `installedDeps[pkg]` is truthy: declared with a non-empty version. */
  predicate Installed(installed: map<string, string>, pkg: string) {
    pkg in installed && installed[pkg] != ""
  }

  const BUILT_IN_MODULES: seq<string> := ["react", "react-dom", "next", "fs", "path", "crypto"]

  /** The condition under which a collected package is reported missing. */
  predicate Missing(installed: map<string, string>, pkg: string) {
    !Installed(installed, pkg) && pkg !in BUILT_IN_MODULES && !StartsWith(pkg, "next/")
  }

  function MissingIn(installed: map<string, string>): string -> bool {
    p => Missing(installed, p)
  }

  /** `missingPackages`, filled by `externalPackages.forEach`. */
  function MissingPackages(external: seq<string>, installed: map<string, string>): (r: seq<string>)
    ensures IsSubsequence(r, external)
    ensures forall p :: p in r <==>
      p in external && !Installed(installed, p) && p !in BUILT_IN_MODULES && !StartsWith(p, "next/")
  {
    FilterKeepsOrder(external, MissingIn(installed));
    FilterMembers(external, MissingIn(installed));
    Filter(external, MissingIn(installed))
  }

  /** Built-in modules and `next/` subpaths are never reported, whatever
      `package.json` says. */
  lemma {:induction false} BuiltInsNeverMissing(external: seq<string>, installed: map<string, string>, sub: string)
    ensures "react" !in MissingPackages(external, installed)
    ensures "next/" + sub !in MissingPackages(external, installed)
  {
    assert StartsWith("next/" + sub, "next/");
    assert "react" in BUILT_IN_MODULES;
  }

  // ---------------------------------------------------------------------
  // getProjectStructure: buildTree

  function Connector(isLast: bool): string {
    if isLast then "\U{2514}\U{2500}\U{2500} " else "\U{251C}\U{2500}\U{2500} "
  }

  function ChildPrefix(isLast: bool): string {
    if isLast then "    " else "\U{2502}   "
  }

  const TSX_ICON: string := "\U{269B}\U{FE0F}"
  const TS_ICON: string := "\U{1F4D8}"
  const CSS_ICON: string := "\U{1F3A8}"
  const FILE_ICON: string := "\U{1F4C4}"
  const FOLDER_ICON: string := "\U{1F4C1}"

  /** The icon of a file, by the first of `.tsx`, `.ts`, `.css` it ends with. */
  function FileIcon(name: string): string {
    if EndsWith(name, ".tsx") then TSX_ICON
    else if EndsWith(name, ".ts") then TS_ICON
    else if EndsWith(name, ".css") then CSS_ICON
    else FILE_ICON
  }

  /** Each extension gets its own icon; no other name gets one of them. */
  lemma IconByExtension(stem: string, other: string)
    requires !EndsWith(other, ".tsx") && !EndsWith(other, ".ts") && !EndsWith(other, ".css")
    ensures FileIcon(stem + ".tsx") == TSX_ICON
    ensures FileIcon(stem + ".ts") == TS_ICON
    ensures FileIcon(stem + ".css") == CSS_ICON
    ensures FileIcon(other) == FILE_ICON
  {
    var tsx := stem + ".tsx";
    assert tsx[|tsx| - 4..] == ".tsx";
    var ts := stem + ".ts";
    assert ts[|ts| - 3..] == ".ts";
    assert ts[|ts| - 1] == 's';
    var css := stem + ".css";
    assert css[|css| - 4..] == ".css";
    assert css[|css| - 1] == 's';
    assert css[|css| - 2] == 's';
  }

  /** What follows the connector on an entry's line. */
  function Label(e: Entry): string {
    match e
    case Dir(n, _) => FOLDER_ICON + " " + n + "/"
    case File(n) => FileIcon(n) + " " + n
  }

  /** The number of entries in a tree, at every depth. */
  function Size(e: Entry): (n: nat)
    ensures n >= 1
    decreases e
  {
    match e
    case Dir(_, cs) => 1 + SizeFrom(cs, 0)
    case File(_) => 1
  }

  function SizeFrom(es: seq<Entry>, k: nat): nat
    decreases es, |es| - k
  {
    if k >= |es| then 0 else Size(es[k]) + SizeFrom(es, k + 1)
  }

  /** The lines `buildTree` writes for `e`, the entry at `index` of a
      directory whose last entry it is when `isLast`. */
  function EntryLines(e: Entry, prefix: string, isLast: bool): seq<string>
    decreases e
  {
    match e
    case Dir(_, cs) => [prefix + Connector(isLast) + Label(e)] + TreeLines(cs, prefix + ChildPrefix(isLast), 0)
    case File(_) => [prefix + Connector(isLast) + Label(e)]
  }

  /** The lines for the entries `es[k..]`; the last entry of `es` is the one
      at `entries.length - 1`. */
  function TreeLines(es: seq<Entry>, prefix: string, k: nat): seq<string>
    decreases es, |es| - k
  {
    if k >= |es| then [] else EntryLines(es[k], prefix, k == |es| - 1) + TreeLines(es, prefix, k + 1)
  }

  /** Each line ended by a newline. */
  function Text(lines: seq<string>): string {
    if lines == [] then "" else lines[0] + "\n" + Text(lines[1..])
  }

  lemma {:induction false} TextAppend(a: seq<string>, b: seq<string>)
    ensures Text(a + b) == Text(a) + Text(b)
  {
    if a != [] {
      TextAppend(a[1..], b);
      assert (a + b)[1..] == a[1..] + b;
    } else {
      assert a + b == b;
    }
  }

  /** The text of an entry: its own line, then its subtree's lines. */
  lemma {:induction false} EntryText(e: Entry, prefix: string, isLast: bool)
    ensures Text(EntryLines(e, prefix, isLast)) ==
      prefix + Connector(isLast) + Label(e) + "\n" +
      (if e.Dir? then Text(TreeLines(e.children, prefix + ChildPrefix(isLast), 0)) else "")
  {
    var head := prefix + Connector(isLast) + Label(e);
    match e
    case Dir(_, cs) =>
      TextAppend([head], TreeLines(cs, prefix + ChildPrefix(isLast), 0));
      assert Text([head]) == head + "\n" + Text([]);
    case File(_) =>
      assert Text([head]) == head + "\n" + Text([]);
  }

  /** The text of `es[k..]`: that of `es[k]`, then that of the rest. */
  lemma TreeText(es: seq<Entry>, prefix: string, k: nat)
    requires k < |es|
    ensures Text(TreeLines(es, prefix, k)) ==
      Text(EntryLines(es[k], prefix, k == |es| - 1)) + Text(TreeLines(es, prefix, k + 1))
  {
    TextAppend(EntryLines(es[k], prefix, k == |es| - 1), TreeLines(es, prefix, k + 1));
  }

  /** `buildTree(dir, prefix)` over the entries of `dir`. */
  method BuildTree(es: seq<Entry>, prefix: string) returns (result: string)
    ensures result == Text(TreeLines(es, prefix, 0))
    decreases es
  {
    result := "";
    var index := 0;
    assert result + Text(TreeLines(es, prefix, 0)) == Text(TreeLines(es, prefix, 0));
    while index < |es|
      invariant 0 <= index <= |es|
      invariant result + Text(TreeLines(es, prefix, index)) == Text(TreeLines(es, prefix, 0))
    {
      var isLast := index == |es| - 1;
      var text := WriteEntry(es[index], prefix, isLast);
      TreeText(es, prefix, index);
      result := result + text;
      index := index + 1;
    }
    assert TreeLines(es, prefix, index) == [];
  }

  /** One turn of the `entries.forEach` in `buildTree`: the entry's line,
      then, for a directory, the tree below it. */
  method WriteEntry(entry: Entry, prefix: string, isLast: bool) returns (text: string)
    ensures text == Text(EntryLines(entry, prefix, isLast))
    decreases entry
  {
    var connector := Connector(isLast);
    var childPrefix := ChildPrefix(isLast);
    EntryText(entry, prefix, isLast);
    match entry {
      case Dir(name, children) =>
        var sub := BuildTree(children, prefix + childPrefix);
        text := prefix + connector + Label(entry) + "\n" + sub;
      case File(name) =>
        var icon := FileIcon(name);
        text := prefix + connector + icon + " " + name + "\n";
    }
  }

  lemma PrefixOfLonger(s: string, p: string, q: string)
    requires StartsWith(s, p + q)
    ensures StartsWith(s, p)
  {
    assert s[..|p|] == (p + q)[..|p|];
  }

  /** An entry takes one line per entry of its subtree. Its own line is the
      prefix, the connector (`└── ` only for the last entry of a directory)
      and its label; every line below it starts with the prefix and the
      child prefix (`    ` below the last entry, `│   ` below the others). */
  lemma {:induction false} EntryShape(e: Entry, prefix: string, isLast: bool)
    ensures |EntryLines(e, prefix, isLast)| == Size(e)
    ensures EntryLines(e, prefix, isLast)[0] == prefix + Connector(isLast) + Label(e)
    ensures forall i :: 1 <= i < |EntryLines(e, prefix, isLast)| ==>
      StartsWith(EntryLines(e, prefix, isLast)[i], prefix + ChildPrefix(isLast))
    ensures forall i :: 0 <= i < |EntryLines(e, prefix, isLast)| ==>
      StartsWith(EntryLines(e, prefix, isLast)[i], prefix)
    decreases e
  {
    var lines := EntryLines(e, prefix, isLast);
    assert StartsWith(lines[0], prefix) by {
      assert lines[0][..|prefix|] == prefix;
    }
    match e
    case Dir(_, cs) =>
      var below := prefix + ChildPrefix(isLast);
      TreeShape(cs, below, 0);
      forall i | 1 <= i < |lines|
        ensures StartsWith(lines[i], below) && StartsWith(lines[i], prefix)
      {
        assert lines[i] == TreeLines(cs, below, 0)[i - 1];
        PrefixOfLonger(lines[i], prefix, ChildPrefix(isLast));
      }
    case File(_) =>
  }

  /** The lines of `es[k..]`: one per entry at any depth, each starting with
      the prefix. */
  lemma {:induction false} TreeShape(es: seq<Entry>, prefix: string, k: nat)
    ensures |TreeLines(es, prefix, k)| == SizeFrom(es, k)
    ensures forall i :: 0 <= i < |TreeLines(es, prefix, k)| ==> StartsWith(TreeLines(es, prefix, k)[i], prefix)
    decreases es, |es| - k
  {
    if k < |es| {
      var head := EntryLines(es[k], prefix, k == |es| - 1);
      var tail := TreeLines(es, prefix, k + 1);
      EntryShape(es[k], prefix, k == |es| - 1);
      TreeShape(es, prefix, k + 1);
      AllStartWith(head, tail, prefix);
    }
  }

  lemma AllStartWith(head: seq<string>, tail: seq<string>, prefix: string)
    requires forall i :: 0 <= i < |head| ==> StartsWith(head[i], prefix)
    requires forall i :: 0 <= i < |tail| ==> StartsWith(tail[i], prefix)
    ensures forall i :: 0 <= i < |head + tail| ==> StartsWith((head + tail)[i], prefix)
  {
    forall i | 0 <= i < |head + tail|
      ensures StartsWith((head + tail)[i], prefix)
    {
      if i >= |head| {
        assert (head + tail)[i] == tail[i - |head|];
      }
    }
  }

  /** The entry at `k` is written first among the lines of `es[k..]`, with
      `└── ` exactly when it is the last entry. */
  lemma {:induction false} HeadLine(es: seq<Entry>, prefix: string, k: nat)
    requires k < |es|
    ensures |TreeLines(es, prefix, k)| > 0 &&
      TreeLines(es, prefix, k)[0] == prefix + Connector(k == |es| - 1) + Label(es[k])
    ensures StartsWith(TreeLines(es, prefix, k)[0], prefix + Connector(true)) <==> k == |es| - 1
  {
    var isLast := k == |es| - 1;
    EntryShape(es[k], prefix, isLast);
    var line := TreeLines(es, prefix, k)[0];
    assert line == EntryLines(es[k], prefix, isLast)[0];
    assert line[|prefix|] == Connector(isLast)[0];
    assert (prefix + Connector(true))[|prefix|] == Connector(true)[0];
  }

  // ---------------------------------------------------------------------
  // findUnusedComponents

  /** `readdirSync(componentsDir).filter((f) => f.endsWith(".tsx"))` */
  function TsxFiles(names: seq<string>): (r: seq<string>)
    ensures IsSubsequence(r, names)
    ensures forall f :: f in r <==> f in names && EndsWith(f, ".tsx")
  {
    var isTsx := (f: string) => EndsWith(f, ".tsx");
    FilterKeepsOrder(names, isTsx);
    FilterMembers(names, isTsx);
    Filter(names, isTsx)
  }

  predicate OccursAt(s: string, p: string, i: nat) {
    i <= |s| && StartsWith(s[i..], p)
  }

  /** The position of the first occurrence of `p` in `s`, if any. */
  function IndexOf(s: string, p: string): (r: Option<nat>)
    ensures r.Some? ==> OccursAt(s, p, r.value)
    ensures forall i :: OccursAt(s, p, i) ==> r.Some? && r.value <= i
    decreases |s|
  {
    if |s| < |p| then None
    else if StartsWith(s, p) then Some(0)
    else
      var rest := IndexOf(s[1..], p);
      forall i | 1 <= i <= |s|
        ensures OccursAt(s, p, i) <==> OccursAt(s[1..], p, i - 1)
      {
        assert s[1..][i - 1..] == s[i..];
      }
      if rest.None? then None else Some(rest.value + 1)
  }

  /** `component.replace(".tsx", "")`: the first occurrence is removed. */
  function ComponentName(component: string): (r: string)
    ensures IndexOf(component, ".tsx").None? ==> r == component
    ensures IndexOf(component, ".tsx").Some? ==>
      var i := IndexOf(component, ".tsx").value; r == component[..i] + component[i + 4..]
  {
    match IndexOf(component, ".tsx")
    case None => component
    case Some(i) => component[..i] + component[i + 4..]
  }

  /** A file other than the component's own that mentions `from` and the
      component's name. */
  predicate ImportsComponent(f: SourceFile, component: string) {
    f.path != "components/" + component &&
    Contains(f.content, "from") && Contains(f.content, ComponentName(component))
  }

  predicate UsedSomewhere(component: string, files: seq<SourceFile>) {
    exists k :: 0 <= k < |files| && ImportsComponent(files[k], component)
  }

  function UnusedIn(files: seq<SourceFile>): string -> bool {
    c => !UsedSomewhere(c, files)
  }

  /** The inner loop: whether a file other than the component's own
      mentions `from` and the component's name. */
  method IsUsed(component: string, files: seq<SourceFile>) returns (isUsed: bool)
    ensures isUsed <==> UsedSomewhere(component, files)
  {
    var componentName := ComponentName(component);
    isUsed := false;
    var j := 0;
    while j < |files|
      invariant 0 <= j <= |files|
      invariant forall t :: 0 <= t < j ==> !ImportsComponent(files[t], component)
    {
      if files[j].path == "components/" + component {
        j := j + 1;
        continue;
      }
      if Contains(files[j].content, "from") && Contains(files[j].content, componentName) {
        isUsed := true;
        break;
      }
      j := j + 1;
    }
  }

  /** The unused-component check: the `.tsx` files of the components
      directory that no other source file imports by this test, in
      directory order, and how many components were examined. */
  method FindUnusedComponents(componentFiles: seq<string>, files: seq<SourceFile>)
    returns (unused: seq<string>, analyzed: nat)
    ensures unused == Filter(TsxFiles(componentFiles), UnusedIn(files))
    ensures analyzed == |TsxFiles(componentFiles)|
  {
    var components := TsxFiles(componentFiles);
    var notUsed := UnusedIn(files);
    unused := [];
    var i := 0;
    while i < |components|
      invariant 0 <= i <= |components|
      invariant unused == Filter(components[..i], notUsed)
    {
      var component := components[i];
      var isUsed := IsUsed(component, files);
      FilterStep(components, i, notUsed);
      assert notUsed(component) == !isUsed;
      if !isUsed {
        unused := unused + [component];
      }
      i := i + 1;
    }
    assert components[..|components|] == components;
    analyzed := |components|;
  }

  /** A component is reported exactly when it is a `.tsx` file of the
      directory and no other file mentions both `from` and its name. */
  lemma UnusedMeaning(componentFiles: seq<string>, files: seq<SourceFile>, c: string)
    ensures c in Filter(TsxFiles(componentFiles), UnusedIn(files)) <==>
      c in componentFiles && EndsWith(c, ".tsx") &&
      forall k :: 0 <= k < |files| && files[k].path != "components/" + c ==>
        !(Contains(files[k].content, "from") && Contains(files[k].content, ComponentName(c)))
  {
    FilterMember(TsxFiles(componentFiles), UnusedIn(files), c);
  }

  // ---------------------------------------------------------------------
  // checkTranslations

  /** `\w`: an ASCII letter, digit or underscore. */
  predicate IsWordChar(c: char) {
    'a' <= c <= 'z' || 'A' <= c <= 'Z' || '0' <= c <= '9' || c == '_'
  }

  /** The number of matches of `/\w+:/g`. A match ends at a colon right
      after a word character and takes the whole run of word characters
      before it; no two matches share a colon and every such colon ends
      one, so the count is that of colons preceded by a word character. */
  function KeyCount(s: string): nat
    decreases |s|
  {
    if |s| < 2 then 0
    else KeyCount(s[..|s| - 1]) + (if s[|s| - 1] == ':' && IsWordChar(s[|s| - 2]) then 1 else 0)
  }

  /** `\s*` from `k`: the first index at or after `k` that is not a space. */
  function SkipSpaces(s: string, k: nat): (j: nat)
    requires k <= |s|
    ensures k <= j <= |s|
    ensures forall t :: k <= t < j ==> IsJsSpace(s[t])
    ensures j < |s| ==> !IsJsSpace(s[j])
    decreases |s| - k
  {
    if k == |s| || !IsJsSpace(s[k]) then k else SkipSpaces(s, k + 1)
  }

  /** `tag\s*{` matches at `i`; the index just past the brace. */
  function HeaderEnd(s: string, i: nat, tag: string): (r: Option<nat>)
    requires i <= |s|
    ensures r.Some? ==> i + |tag| < r.value <= |s| && s[r.value - 1] == '{'
  {
    if !StartsWith(s[i..], tag) then None
    else
      var j := SkipSpaces(s, i + |tag|);
      if j < |s| && s[j] == '{' then Some(j + 1) else None
  }

  /** The leftmost `i >= from` where `tag\s*{` matches, with the index just
      past its brace. */
  function FirstHeader(s: string, tag: string, from: nat): (r: Option<(nat, nat)>)
    requires from <= |s|
    ensures r.Some? ==> from <= r.value.0 <= |s| && HeaderEnd(s, r.value.0, tag) == Some(r.value.1)
    ensures r.Some? ==> forall j :: from <= j < r.value.0 ==> HeaderEnd(s, j, tag).None?
    ensures r.None? ==> forall j :: from <= j <= |s| ==> HeaderEnd(s, j, tag).None?
    decreases |s| - from
  {
    match HeaderEnd(s, from, tag)
    case Some(k) => Some((from, k))
    case None => if from == |s| then None else FirstHeader(s, tag, from + 1)
  }

  /** The lazy `[\s\S]*?(?=ar:|$)` from `k`: up to the first `ar:` at or
      after `k`, or to the end. */
  function StopAt(s: string, pat: string, k: nat): (j: nat)
    requires k <= |s|
    ensures k <= j <= |s|
    ensures j < |s| ==> StartsWith(s[j..], pat)
    ensures forall t :: k <= t < j ==> !StartsWith(s[t..], pat)
    decreases |s| - k
  {
    if k == |s| || StartsWith(s[k..], pat) then k else StopAt(s, pat, k + 1)
  }

  /** The match of `/en:\s*{[\s\S]*?(?=ar:|$)/`, or "" without one. */
  function EnglishBlock(s: string): (r: string)
    ensures r != [] ==> exists i, j :: 0 <= i < j <= |s| && r == s[i..j] && StartsWith(r, "en:")
  {
    match FirstHeader(s, "en:", 0)
    case None => ""
    case Some((i, k)) => s[i..StopAt(s, "ar:", k)]
  }

  /** The match of `/ar:\s*{[\s\S]*$/`: from the first `ar:` header to the
      end, or "" without one. */
  function ArabicBlock(s: string): (r: string)
    ensures r != [] ==> StartsWith(r, "ar:") && EndsWith(s, r)
    ensures r == [] <==> forall j :: 0 <= j <= |s| ==> HeaderEnd(s, j, "ar:").None?
  {
    match FirstHeader(s, "ar:", 0)
    case None => ""
    case Some((i, _)) =>
      assert s[|s| - |s[i..]|..] == s[i..];
      s[i..]
  }

  /** What the translation check reports: nothing for a missing file, else
      both key counts and whether they agree. */
  datatype TranslationReport = FileNotFound | KeyCounts(english: nat, arabic: nat, matching: bool)

  function CheckTranslations(content: Option<string>): (r: TranslationReport)
    ensures content.None? <==> r.FileNotFound?
    ensures r.KeyCounts? ==> r.english == KeyCount(EnglishBlock(content.value))
    ensures r.KeyCounts? ==> r.arabic == KeyCount(ArabicBlock(content.value))
    ensures r.KeyCounts? ==> (r.matching <==> r.english == r.arabic)
  {
    if content.None? then FileNotFound
    else
      var en := KeyCount(EnglishBlock(content.value));
      var ar := KeyCount(ArabicBlock(content.value));
      KeyCounts(en, ar, en == ar)
  }

  /** The English block stops at the first `ar:` after its header, even
      when that text ends a longer key: in `en:{dar:` the key `dar:` is
      cut at its `ar:`, so only `en:` is counted of the text's two keys,
      and without an Arabic header the counts then differ. */
  lemma EnglishBlockStops()
    ensures KeyCount(CutKey) == 2
    ensures CheckTranslations(Some(CutKey)) == KeyCounts(1, 0, false)
  {
    EnglishOfCutKey();
    ArabicOfCutKey();
    KeysOfCutKey();
  }

  lemma KeysOfCutKey()
    ensures KeyCount(CutKey) == 2
  {
    var s := CutKey;
    assert s[..1] == "e";
    KeyCountStep(s, 2);
    KeyCountStep(s, 3);
    KeyCountStep(s, 4);
    KeyCountStep(s, 5);
    KeyCountStep(s, 6);
    KeyCountStep(s, 7);
    KeyCountStep(s, 8);
    assert s[..8] == s;
  }

  /** Extending a prefix by one character adds the key that character ends. */
  lemma KeyCountStep(s: string, k: nat)
    requires 2 <= k <= |s|
    ensures KeyCount(s[..k]) == KeyCount(s[..k - 1]) + (if s[k - 1] == ':' && IsWordChar(s[k - 2]) then 1 else 0)
  {
    assert s[..k][..k - 1] == s[..k - 1];
  }

  /** An English table whose one key ends in `ar`. */
  const CutKey: string := "en:{dar:"

  lemma EnglishOfCutKey()
    ensures EnglishBlock(CutKey) == "en:{d"
    ensures KeyCount("en:{d") == 1
  {
    var s := CutKey;
    assert HeaderEnd(s, 0, "en:") == Some(4) by {
      assert s[0..][..3] == "en:";
      assert SkipSpaces(s, 3) == 3;
    }
    assert StopAt(s, "ar:", 4) == 5 by {
      assert s[4..][..3][0] == s[4] == 'd';
      assert s[5..][..3] == "ar:";
    }
    assert "en:{d"[..4] == "en:{" && "en:{"[..3] == "en:" && "en:"[..2] == "en";
  }

  lemma ArabicOfCutKey()
    ensures ArabicBlock(CutKey) == []
  {
    var s := CutKey;
    assert |s| == 8;
    NoTagAt(s, 8, "ar:");
    assert FirstHeader(s, "ar:", 8).None?;
    NoTagAt(s, 7, "ar:");
    assert FirstHeader(s, "ar:", 7).None?;
    NoTagAt(s, 6, "ar:");
    assert FirstHeader(s, "ar:", 6).None?;
    assert HeaderEnd(s, 5, "ar:").None? by {
      assert SkipSpaces(s, 8) == 8;
    }
    assert FirstHeader(s, "ar:", 5).None?;
    assert s[4] == 'd';
    NoTagAt(s, 4, "ar:");
    assert FirstHeader(s, "ar:", 4).None?;
    assert s[3] == '{';
    NoTagAt(s, 3, "ar:");
    assert FirstHeader(s, "ar:", 3).None?;
    assert s[2] == ':';
    NoTagAt(s, 2, "ar:");
    assert FirstHeader(s, "ar:", 2).None?;
    assert s[1] == 'n';
    NoTagAt(s, 1, "ar:");
    assert FirstHeader(s, "ar:", 1).None?;
    assert s[0] == 'e';
    NoTagAt(s, 0, "ar:");
  }

  /** No header starts where the text does not start with the tag. */
  lemma NoTagAt(s: string, j: nat, tag: string)
    requires j <= |s| && tag != []
    requires |s| - j < |tag| || s[j] != tag[0]
    ensures HeaderEnd(s, j, tag).None?
  {
    if |tag| <= |s| - j {
      assert s[j..][..|tag|][0] == s[j];
    }
  }

  /** The leftmost header at or after `from` is the one at `i` when none
      matches before it. */
  lemma {:induction false} FirstHeaderAt(s: string, tag: string, from: nat, i: nat, k: nat)
    requires from <= i <= |s|
    requires forall j :: from <= j < i ==> HeaderEnd(s, j, tag).None?
    requires HeaderEnd(s, i, tag) == Some(k)
    ensures FirstHeader(s, tag, from) == Some((i, k))
    decreases i - from
  {
    if from < i {
      FirstHeaderAt(s, tag, from + 1, i, k);
    }
  }
}
