/** `mcp-server/analyze.js`, the one-shot analysis script: it lists pages and
    components, warns about files that call React hooks without the
    `"use client"` directive, reports missing packages and unused
    components, counts console calls and names the heavy packages. Each
    numbered step of the script is a method or function here; what it
    prints is left out. */
module Analyze {
  import opened Common
  import opened Seqs
  import opened McpServer

  // ---------------------------------------------------------------------
  // 1. findPages

  /** The script counts only `page.tsx` files as pages. */
  const SCRIPT_PAGE_FILES: set<string> := {"page.tsx"}

  /** `findPages(dir, prefix)`: a fresh array per directory, into which
      each subdirectory's pages are spread. */
  method FindPages(es: seq<Entry>, prefix: string) returns (pages: seq<string>)
    ensures pages == PagesFrom(es, prefix, SCRIPT_PAGE_FILES, 0)
    decreases es
  {
    pages := [];
    var i := 0;
    while i < |es|
      invariant 0 <= i <= |es|
      invariant pages + PagesFrom(es, prefix, SCRIPT_PAGE_FILES, i) == PagesFrom(es, prefix, SCRIPT_PAGE_FILES, 0)
    {
      var entry := es[i];
      if entry.Dir? {
        var sub := FindPages(entry.children, prefix + "/" + entry.name);
        pages := pages + sub;
      } else if entry.name == "page.tsx" {
        pages := pages + [RouteOf(prefix)];
      }
      i := i + 1;
    }
  }

  /** Counting more file names as pages only adds routes. */
  lemma {:induction false} PagesGrowWithNames(es: seq<Entry>, prefix: string, few: set<string>, many: set<string>, k: nat, x: string)
    requires few <= many
    requires x in PagesFrom(es, prefix, few, k)
    ensures x in PagesFrom(es, prefix, many, k)
    decreases es, |es| - k
  {
    var e := es[k];
    if x in PagesAt(e, prefix, few) {
      match e
      case File(n) =>
      case Dir(n, cs) =>
        PagesGrowWithNames(cs, prefix + "/" + n, few, many, 0, x);
    } else {
      PagesGrowWithNames(es, prefix, few, many, k + 1, x);
    }
  }

  /** Every page the script lists the server lists too; a route whose only
      page file is `page.ts` is listed by the server alone. */
  lemma ScriptPagesAreServerPages(es: seq<Entry>, x: string)
    ensures x in PagesFrom(es, "", SCRIPT_PAGE_FILES, 0) ==> x in PagesFrom(es, "", SERVER_PAGE_FILES, 0)
    ensures PagesFrom([File("page.ts")], "", SCRIPT_PAGE_FILES, 0) == []
    ensures PagesFrom([File("page.ts")], "", SERVER_PAGE_FILES, 0) == ["/"]
  {
    if x in PagesFrom(es, "", SCRIPT_PAGE_FILES, 0) {
      PagesGrowWithNames(es, "", SCRIPT_PAGE_FILES, SERVER_PAGE_FILES, 0, x);
    }
  }

  // ---------------------------------------------------------------------
  // 3. The loop over the source files: hooks and imports

  /** What the script collects in `potentialIssues`. */
  datatype Issue = HooksWithoutDirective(file: string) | MissingPackage(pkg: string)

  const HOOKS: seq<string> := ["State", "Effect", "Context", "Ref", "Memo", "Callback"]

  /** `/use(State|Effect|Context|Ref|Memo|Callback)\s*\(/` matches at `i`. */
  predicate HookCallAt(s: string, i: nat) {
    exists h :: h in HOOKS && OccursAt(s, "use" + h, i) && i + 3 + |h| <= |s| &&
      (var k := SkipSpaces(s, i + 3 + |h|); k < |s| && s[k] == '(')
  }

  predicate UsesHooks(content: string) {
    exists i :: 0 <= i <= |content| && HookCallAt(content, i)
  }

  predicate HasUseClient(content: string) {
    Contains(content, "\"use client\"") || Contains(content, "'use client'")
  }

  /** The warning condition: hooks, no directive, and not under `context/`. */
  predicate NeedsDirective(f: SourceFile) {
    UsesHooks(f.content) && !HasUseClient(f.content) && !Contains(f.path, "context/")
  }

  function NeedsDirectiveBy(): SourceFile -> bool {
    f => NeedsDirective(f)
  }

  /** A warning for each of `files`, in order. */
  function Warnings(files: seq<SourceFile>): (r: seq<Issue>)
    ensures |r| == |files|
    ensures forall k :: 0 <= k < |r| ==> r[k] == HooksWithoutDirective(files[k].path)
  {
    seq(|files|, k requires 0 <= k < |files| => HooksWithoutDirective(files[k].path))
  }

  /** The hook warnings for `files`, in file order. */
  function HookIssues(files: seq<SourceFile>): seq<Issue> {
    Warnings(Filter(files, NeedsDirectiveBy()))
  }

  /** A file is warned about exactly when it calls a hook, lacks the
      directive in either quoting, and its path does not contain
      `context/`; no other kind of issue is raised here. */
  lemma HookIssuesMeaning(files: seq<SourceFile>, issue: Issue)
    ensures issue in HookIssues(files) <==>
      issue.HooksWithoutDirective? && exists f :: f in files && f.path == issue.file && NeedsDirective(f)
  {
    WarningsMeaning(files, NeedsDirectiveBy(), issue);
  }

  lemma WarningsMeaning(files: seq<SourceFile>, p: SourceFile -> bool, issue: Issue)
    ensures issue in Warnings(Filter(files, p)) <==>
      issue.HooksWithoutDirective? && exists f :: f in files && f.path == issue.file && p(f)
  {
    var kept := Filter(files, p);
    if issue in Warnings(kept) {
      var k :| 0 <= k < |kept| && Warnings(kept)[k] == issue;
      FilterMember(files, p, kept[k]);
    }
    if issue.HooksWithoutDirective? && exists f :: f in files && f.path == issue.file && p(f) {
      var f :| f in files && f.path == issue.file && p(f);
      FilterMember(files, p, f);
      var k :| 0 <= k < |kept| && kept[k] == f;
      assert Warnings(kept)[k] == issue;
    }
  }

  /** The issues of one more file are added after those before it. */
  lemma HookIssuesStep(files: seq<SourceFile>, i: nat)
    requires i < |files|
    ensures HookIssues(files[..i + 1]) ==
      HookIssues(files[..i]) + (if NeedsDirective(files[i]) then [HooksWithoutDirective(files[i].path)] else [])
  {
    WarningsStep(files, i, NeedsDirectiveBy());
  }

  lemma WarningsStep(files: seq<SourceFile>, i: nat, p: SourceFile -> bool)
    requires i < |files|
    ensures Warnings(Filter(files[..i + 1], p)) ==
      Warnings(Filter(files[..i], p)) + (if p(files[i]) then [HooksWithoutDirective(files[i].path)] else [])
  {
    assert files[..i + 1] == files[..i] + [files[i]];
    FilterAppend(files[..i], [files[i]], p);
    var b := Filter([files[i]], p);
    assert b == if p(files[i]) then [files[i]] else [];
    WarningsAppend(Filter(files[..i], p), b);
  }

  lemma WarningsAppend(a: seq<SourceFile>, b: seq<SourceFile>)
    ensures Warnings(a + b) == Warnings(a) + Warnings(b)
  {
  }

  /** A call such as `useEffect  (` counts, with spaces before the
      parenthesis. */
  lemma HookWithSpaces()
    ensures UsesHooks("useEffect  (")
  {
    var s := "useEffect  (";
    var h := "Effect";
    assert HOOKS[1] == h;
    assert s[0..] == s;
    assert "use" + h == s[..9];
    assert OccursAt(s, "use" + h, 0);
    assert s[9] == ' ' && s[10] == ' ' && s[11] == '(';
    assert SkipSpaces(s, 11) == 11;
    assert SkipSpaces(s, 10) == 11;
    assert SkipSpaces(s, 9) == 11;
    assert HookCallAt(s, 0);
  }

  /** Steps 3's loop: the hook warnings and the set of external packages. */
  method ScanSources(files: seq<SourceFile>) returns (issues: seq<Issue>, external: seq<string>)
    ensures issues == HookIssues(files)
    ensures forall a, b :: 0 <= a < b < |external| ==> external[a] != external[b]
    ensures forall x :: x in external <==> x in AllPackages(files)
    ensures external == Dedup(AllPackages(files))
  {
    issues := [];
    external := [];
    var i := 0;
    assert files[..0] == [];
    while i < |files|
      invariant 0 <= i <= |files|
      invariant issues == HookIssues(files[..i])
      invariant external == Dedup(AllPackages(files[..i]))
    {
      var file := files[i];
      var usesHooks := UsesHooks(file.content);
      var hasUseClient := HasUseClient(file.content);
      if usesHooks && !hasUseClient && !Contains(file.path, "context/") {
        issues := issues + [HooksWithoutDirective(file.path)];
      }
      assert issues == HookIssues(files[..i + 1]) by {
        HookIssuesStep(files, i);
      }
      ghost var before := external;
      external := AddPackages(Specifiers(file.content), external);
      assert external == Dedup(AllPackages(files[..i + 1])) by {
        CollectPackagesStep(files, i, before);
      }
      i := i + 1;
    }
    assert files[..|files|] == files;
  }

  lemma MissingIssuesAppend(a: seq<string>, b: seq<string>)
    ensures MissingIssues(a + b) == MissingIssues(a) + MissingIssues(b)
  {
  }

  /** The issues of one more package are added after those before it. */
  lemma MissingStep(external: seq<string>, i: nat, installed: map<string, string>)
    requires i < |external|
    ensures MissingIssues(MissingPackages(external[..i + 1], installed)) ==
      MissingIssues(MissingPackages(external[..i], installed)) +
      (if Missing(installed, external[i]) then [MissingPackage(external[i])] else [])
  {
    assert external[..i + 1] == external[..i] + [external[i]];
    FilterAppend(external[..i], [external[i]], MissingIn(installed));
    MissingIssuesAppend(MissingPackages(external[..i], installed), Filter([external[i]], MissingIn(installed)));
  }

  lemma ReportStep(external: seq<string>, i: nat, installed: map<string, string>, issues: seq<Issue>, out: seq<Issue>)
    requires i < |external|
    requires out == issues + MissingIssues(MissingPackages(external[..i], installed))
    ensures out + (if Missing(installed, external[i]) then [MissingPackage(external[i])] else []) ==
      issues + MissingIssues(MissingPackages(external[..i + 1], installed))
  {
    MissingStep(external, i, installed);
  }

  /** The issue for each missing package, in order. */
  function MissingIssues(pkgs: seq<string>): (r: seq<Issue>)
    ensures |r| == |pkgs|
    ensures forall k :: 0 <= k < |r| ==> r[k] == MissingPackage(pkgs[k])
  {
    seq(|pkgs|, k requires 0 <= k < |pkgs| => MissingPackage(pkgs[k]))
  }

  /** The `externalPackages.forEach` of the script: an installed package is
      passed over, any other one that is not built in and not a `next/`
      subpath becomes an issue. It reports exactly the server's missing
      packages. */
  method ReportPackages(external: seq<string>, installed: map<string, string>, issues: seq<Issue>)
    returns (out: seq<Issue>)
    ensures out == issues + MissingIssues(MissingPackages(external, installed))
  {
    out := issues;
    var i := 0;
    while i < |external|
      invariant 0 <= i <= |external|
      invariant out == issues + MissingIssues(MissingPackages(external[..i], installed))
    {
      var pkg := external[i];
      ReportStep(external, i, installed, issues, out);
      if Installed(installed, pkg) {
        assert out + [] == out;
      } else if pkg !in BUILT_IN_MODULES && !StartsWith(pkg, "next/") {
        out := out + [MissingPackage(pkg)];
      } else {
        assert out + [] == out;
      }
      i := i + 1;
    }
    assert external[..|external|] == external;
  }

  /** An installed package, one with a non-empty version, is never
      reported, whichever of the two dependency maps declares it. */
  lemma InstalledNeverReported(external: seq<string>, dependencies: map<string, string>,
                               devDependencies: map<string, string>, pkg: string)
    requires (pkg in devDependencies && devDependencies[pkg] != "") ||
             (pkg !in devDependencies && pkg in dependencies && dependencies[pkg] != "")
    ensures pkg !in MissingPackages(external, InstalledDeps(dependencies, devDependencies))
  {
  }

  // ---------------------------------------------------------------------
  // 4. Unused components

  /** A file other than the component's own whose text contains the
      component's name; the `importPattern` the script builds is never
      consulted. */
  predicate MentionsComponent(f: SourceFile, component: string) {
    f.path != "components/" + component && Contains(f.content, ComponentName(component))
  }

  predicate MentionedSomewhere(component: string, files: seq<SourceFile>) {
    exists k :: 0 <= k < |files| && MentionsComponent(files[k], component)
  }

  function UnmentionedIn(files: seq<SourceFile>): string -> bool {
    c => !MentionedSomewhere(c, files)
  }

  /** The inner loop over the files for one component. */
  method IsMentioned(component: string, files: seq<SourceFile>) returns (isUsed: bool)
    ensures isUsed <==> MentionedSomewhere(component, files)
  {
    var componentName := ComponentName(component);
    var selfFile := "components/" + component;
    isUsed := false;
    var j := 0;
    while j < |files|
      invariant 0 <= j <= |files|
      invariant forall t :: 0 <= t < j ==> !MentionsComponent(files[t], component)
    {
      if files[j].path == selfFile {
        j := j + 1;
        continue;
      }
      if Contains(files[j].content, componentName) {
        isUsed := true;
        break;
      }
      j := j + 1;
    }
  }

  /** Step 4: the `.tsx` components no other file mentions, in order. */
  method FindUnused(componentFiles: seq<string>, files: seq<SourceFile>) returns (unused: seq<string>)
    ensures unused == Filter(TsxFiles(componentFiles), UnmentionedIn(files))
  {
    var components := TsxFiles(componentFiles);
    unused := [];
    var i := 0;
    while i < |components|
      invariant 0 <= i <= |components|
      invariant unused == Filter(components[..i], UnmentionedIn(files))
    {
      var component := components[i];
      var isUsed := IsMentioned(component, files);
      FilterStep(components, i, UnmentionedIn(files));
      assert UnmentionedIn(files)(component) == !isUsed;
      if !isUsed {
        unused := unused + [component];
      }
      i := i + 1;
    }
    assert components[..|components|] == components;
  }

  /** The script's test is looser than the server's (a mention need not sit
      in a file that also says `from`), so whatever the script reports as
      unused the server reports too. */
  lemma ScriptUnusedAlsoServerUnused(componentFiles: seq<string>, files: seq<SourceFile>, c: string)
    requires c in Filter(TsxFiles(componentFiles), UnmentionedIn(files))
    ensures c in Filter(TsxFiles(componentFiles), UnusedIn(files))
  {
    FilterMember(TsxFiles(componentFiles), UnmentionedIn(files), c);
    FilterMember(TsxFiles(componentFiles), UnusedIn(files), c);
    forall k | 0 <= k < |files|
      ensures !ImportsComponent(files[k], c)
    {
      assert !MentionsComponent(files[k], c);
    }
  }

  // ---------------------------------------------------------------------
  // 6. Console calls

  const CONSOLE_CALLS: seq<string> := ["console.log(", "console.warn(", "console.error("]

  /** `/console\.(log|warn|error)\(/` matches at `i`. */
  predicate CallAt(s: string, i: nat) {
    exists c :: c in CONSOLE_CALLS && OccursAt(s, c, i)
  }

  /** The length of the console call `s` starts with, or 0. */
  function CallLength(s: string): (n: nat)
    ensures n == 0 <==> !CallAt(s, 0)
    ensures n > 0 ==> 12 <= n <= |s|
  {
    assert s[0..] == s;
    assert CONSOLE_CALLS[0] == "console.log(" && CONSOLE_CALLS[1] == "console.warn(" && CONSOLE_CALLS[2] == "console.error(";
    if StartsWith(s, "console.log(") then
      assert OccursAt(s, CONSOLE_CALLS[0], 0);
      12
    else if StartsWith(s, "console.warn(") then
      assert OccursAt(s, CONSOLE_CALLS[1], 0);
      13
    else if StartsWith(s, "console.error(") then
      assert OccursAt(s, CONSOLE_CALLS[2], 0);
      14
    else 0
  }

  /** The number of matches of the global expression: after a match the
      search resumes past it, otherwise one character further on. */
  function ConsoleCalls(s: string): nat
    decreases |s|
  {
    if s == [] then 0
    else
      var n := CallLength(s);
      if n > 0 then 1 + ConsoleCalls(s[n..]) else ConsoleCalls(s[1..])
  }

  /** A text has no console call exactly when the expression matches
      nowhere in it; each call takes at least twelve characters. */
  lemma {:induction false} ConsoleCallsMeaning(s: string)
    ensures ConsoleCalls(s) == 0 <==> forall i :: 0 <= i <= |s| ==> !CallAt(s, i)
    ensures 12 * ConsoleCalls(s) <= |s|
    decreases |s|
  {
    if s == [] {
      assert !CallAt(s, 0);
    } else {
      var n := CallLength(s);
      if n > 0 {
        ConsoleCallsMeaning(s[n..]);
        assert CallAt(s, 0);
      } else {
        ConsoleCallsMeaning(s[1..]);
        assert ConsoleCalls(s) == ConsoleCalls(s[1..]);
        assert !CallAt(s, 0);
        forall j | 0 <= j <= |s| - 1
          ensures CallAt(s, j + 1) <==> CallAt(s[1..], j)
        {
          assert s[1..][j..] == s[j + 1..];
        }
        forall i | 1 <= i <= |s|
          ensures CallAt(s, i) <==> CallAt(s[1..], i - 1)
        {
          assert s[1..][i - 1..] == s[i..];
        }
      }
    }
  }

  /** The console calls of all `files`. */
  function TotalCalls(files: seq<SourceFile>): nat {
    if files == [] then 0 else TotalCalls(files[..|files| - 1]) + ConsoleCalls(files[|files| - 1].content)
  }

  /** Step 6: `consoleLogCount`, summed file by file. */
  method CountConsoleCalls(files: seq<SourceFile>) returns (consoleLogCount: nat)
    ensures consoleLogCount == TotalCalls(files)
  {
    consoleLogCount := 0;
    var i := 0;
    while i < |files|
      invariant 0 <= i <= |files|
      invariant consoleLogCount == TotalCalls(files[..i])
    {
      var matches := ConsoleCalls(files[i].content);
      if matches > 0 {
        consoleLogCount := consoleLogCount + matches;
      }
      TotalCallsStep(files, i);
      i := i + 1;
    }
    assert files[..|files|] == files;
  }

  lemma TotalCallsStep(files: seq<SourceFile>, i: nat)
    requires i < |files|
    ensures TotalCalls(files[..i + 1]) == TotalCalls(files[..i]) + ConsoleCalls(files[i].content)
  {
    assert files[..i + 1][..i] == files[..i];
  }

  /** The total is zero exactly when no file contains a console call. */
  lemma {:induction false} NoCallsNoCount(files: seq<SourceFile>)
    ensures TotalCalls(files) == 0 <==>
      forall k, i :: 0 <= k < |files| && 0 <= i <= |files[k].content| ==> !CallAt(files[k].content, i)
  {
    if files != [] {
      var init := files[..|files| - 1];
      NoCallsNoCount(init);
      ConsoleCallsMeaning(files[|files| - 1].content);
      assert forall k :: 0 <= k < |init| ==> files[k] == init[k];
    }
  }

  // ---------------------------------------------------------------------
  // 7. Heavy packages

  const HEAVY_PACKAGES: seq<string> := ["three", "@react-three/fiber", "@react-three/drei", "framer-motion"]

  function InstalledIn(installed: map<string, string>): string -> bool {
    p => Installed(installed, p)
  }

  /** `heavyPackages.filter(pkg => installedDeps[pkg])`: the heavy packages
      that are installed, in the order of the list. */
  function FoundHeavy(installed: map<string, string>): (r: seq<string>)
    ensures IsSubsequence(r, HEAVY_PACKAGES)
    ensures forall p :: p in r <==> p in HEAVY_PACKAGES && Installed(installed, p)
  {
    FilterKeepsOrder(HEAVY_PACKAGES, InstalledIn(installed));
    FilterMembers(HEAVY_PACKAGES, InstalledIn(installed));
    Filter(HEAVY_PACKAGES, InstalledIn(installed))
  }
}
