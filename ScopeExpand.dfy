/**
 * The scope expander (src/safe_boundary/scope_expand.py): from a node's
 * anchors to its ScopeBound, the sorted list of `repo_sim/`-prefixed paths
 * and patterns the node may touch.
 *
 * The repository on disk is abstracted as a `Repo`: the set of existing
 * files (as `repo_sim/...` paths) and, per Python file, the module names its
 * `import` statements mention. The dependency graph is a function of it.
 */
module ScopeExpand {
  import opened Strings
  import opened Models

  // ---------------------------------------------------------------------
  // Pure string logic.
  // ---------------------------------------------------------------------

  /** `s.split("::", 1)[0]`: the text before the first `::`. */
  function StripTestSelector(s: string): (r: string)
    ensures StartsWith(s, r)
    ensures forall i :: 0 <= i < |r| ==> !OccursAt(s, "::", i)
    ensures |r| < |s| ==> OccursAt(s, "::", |r|)
    decreases |s|
  {
    if |s| < 2 then s
    else if s[..2] == "::" then ""
    else
      var t := StripTestSelector(s[1..]);
      assert forall i :: 1 <= i <= |t| ==> (OccursAt(s, "::", i) <==> OccursAt(s[1..], "::", i - 1)) by {
        forall i | 1 <= i <= |t| ensures OccursAt(s, "::", i) <==> OccursAt(s[1..], "::", i - 1) {
          OccursAtTail(s, "::", i);
        }
      }
      assert s[..1 + |t|] == [s[0]] + s[1..][..|t|];
      [s[0]] + t
  }

  /** Text without `::` is returned unchanged, and only such text is. */
  lemma StripTestSelectorUnchanged(s: string)
    ensures StripTestSelector(s) == s <==> !IsSubstring("::", s)
  {
  }

  /** Stripping twice is stripping once: the result holds no `::`. */
  lemma StripTestSelectorIdempotent(s: string)
    ensures StripTestSelector(StripTestSelector(s)) == StripTestSelector(s)
  {
    var r := StripTestSelector(s);
    assert r == s[..|r|];
    forall i | 0 <= i && i + 2 <= |r| ensures !OccursAt(r, "::", i) {
      assert !OccursAt(s, "::", i);
      assert r[i..i + 2] == s[..|r|][i..i + 2] == s[i..i + 2];
    }
    StripTestSelectorUnchanged(r);
  }

  lemma RepoPrefixNoBackslash()
    ensures '\\' !in "repo_sim/"
  {
  }

  /** `repo_sim/` is prefixed, after dropping leading `/`, unless already present. */
  function RepoRel(p: string): (r: string)
    requires '\\' !in p
    ensures StartsWith(r, "repo_sim/") && '\\' !in r
    ensures StartsWith(p, "repo_sim/") ==> r == p
    ensures !StartsWith(p, "repo_sim/") ==> r == "repo_sim/" + LStrip(p, '/')
  {
    if StartsWith(p, "repo_sim/") then p
    else
      var q := LStrip(p, '/');
      RepoPrefixNoBackslash();
      PrefixedSuffix("repo_sim/", p, |p| - |q|, '\\');
      "repo_sim/" + q
  }

  /**
   * A seed from a `path` or `test` anchor: `\` becomes `/`, the test selector
   * is dropped, and `repo_sim/` is prefixed as `RepoRel` does.
   */
  function SeedEntry(raw: string): (r: string)
    ensures StartsWith(r, "repo_sim/")
    ensures '\\' !in r
    ensures StartsWith(StripTestSelector(NormalizeSlashes(raw)), "repo_sim/") ==> r == StripTestSelector(NormalizeSlashes(raw))
    ensures !StartsWith(StripTestSelector(NormalizeSlashes(raw)), "repo_sim/") ==>
      r == "repo_sim/" + LStrip(StripTestSelector(NormalizeSlashes(raw)), '/')
  {
    var n := NormalizeSlashes(raw);
    var p := StripTestSelector(n);
    assert '\\' !in n;
    SliceChars(n, 0, |p|);
    RepoRel(p)
  }

  // ---------------------------------------------------------------------
  // The repository and its import graph.
  // ---------------------------------------------------------------------

  /** The repository: existing files (as `repo_sim/...` paths) and each Python file's imported module names. */
  datatype Repo = Repo(files: set<string>, imports: map<string, set<string>>)

  /** `_is_file_path`: a `repo_sim/`-relative or plain relative path names an existing file. */
  predicate FileExists(repo: Repo, p: string) {
    var q := NormalizeSlashes(p);
    (if StartsWith(q, "repo_sim/") then q else "repo_sim/" + q) in repo.files
  }

  /** `_list_py_files`: every file whose name ends in `.py`. */
  function PyFiles(repo: Repo): set<string> {
    set f | f in repo.files && EndsWith(f, ".py")
  }

  /** `_imports_in_file`: a file that cannot be read or parsed imports nothing. */
  function ImportsOf(repo: Repo, f: string): set<string> {
    if f in repo.imports then repo.imports[f] else {}
  }

  /** `module.replace("\\", ".").strip(".")`. */
  function ModuleName(moduleName: string): (r: string)
    ensures '\\' !in r
  {
    var a := ReplaceChar(moduleName, '\\', '.');
    var b := LStrip(a, '.');
    var c := RStrip(b, '.');
    ReplaceCharRemoves(moduleName, '\\', '.');
    SliceChars(a, |a| - |b|, |a|);
    SliceChars(b, 0, |c|);
    c
  }

  /** `repo_sim/` + the module's dotted parts joined by `/` + `suffix`. */
  function ModulePath(m: string, suffix: string): string {
    "repo_sim/" + ReplaceChar(m, '.', '/') + suffix
  }

  /** `_module_to_file`. */
  function ModuleToFile(moduleName: string, repo: Repo): Option<string> {
    ResolveModule(ModuleName(moduleName), repo)
  }

  /** `_module_to_file` after the name is cleaned: only `src.` modules, `.py` before `__init__.py`. */
  function ResolveModule(m: string, repo: Repo): Option<string> {
    if !StartsWith(m, "src.") then None
    else if FileExists(repo, ModulePath(m, ".py")) then Some(ModulePath(m, ".py"))
    else if FileExists(repo, ModulePath(m, "/__init__.py")) then Some(ModulePath(m, "/__init__.py"))
    else None
  }

  /**
   * Only `src.` modules resolve; a resolved module is an existing Python file
   * under `repo_sim/src/`, and `<parts>.py` wins over `<parts>/__init__.py`.
   */
  lemma ModuleToFileSpec(moduleName: string, repo: Repo)
    ensures var m := ModuleName(moduleName); var r := ModuleToFile(moduleName, repo);
      (!StartsWith(m, "src.") ==> r == None) &&
      (r.Some? ==> r.value in PyFiles(repo) && StartsWith(r.value, "repo_sim/src/")) &&
      (r.Some? ==> r.value == ModulePath(m, ".py") || r.value == ModulePath(m, "/__init__.py")) &&
      (StartsWith(m, "src.") && ModulePath(m, ".py") in repo.files ==> r == Some(ModulePath(m, ".py"))) &&
      (StartsWith(m, "src.") && ModulePath(m, ".py") !in repo.files && ModulePath(m, "/__init__.py") in repo.files ==>
         r == Some(ModulePath(m, "/__init__.py")))
  {
    ResolveModuleSpec(ModuleName(moduleName), repo);
  }

  lemma ResolveModuleSpec(m: string, repo: Repo)
    requires '\\' !in m
    ensures var r := ResolveModule(m, repo);
      (!StartsWith(m, "src.") ==> r == None) &&
      (r.Some? ==> r.value in PyFiles(repo) && StartsWith(r.value, "repo_sim/src/")) &&
      (r.Some? ==> r.value == ModulePath(m, ".py") || r.value == ModulePath(m, "/__init__.py")) &&
      (StartsWith(m, "src.") && ModulePath(m, ".py") in repo.files ==> r == Some(ModulePath(m, ".py"))) &&
      (StartsWith(m, "src.") && ModulePath(m, ".py") !in repo.files && ModulePath(m, "/__init__.py") in repo.files ==>
         r == Some(ModulePath(m, "/__init__.py")))
  {
    var r := ResolveModule(m, repo);
    if StartsWith(m, "src.") {
      var p1 := ModulePath(m, ".py");
      var p2 := ModulePath(m, "/__init__.py");
      ModulePathFacts(m, ".py", repo);
      ModulePathFacts(m, "/__init__.py", repo);
      if p1 in repo.files {
        assert r == Some(p1);
      } else if p2 in repo.files {
        assert r == Some(p2);
      } else {
        assert r == None;
      }
    }
  }

  /** A module path lies under `repo_sim/src/`, names a Python file, and exists iff it is listed. */
  lemma ModulePathFacts(m: string, suffix: string, repo: Repo)
    requires StartsWith(m, "src.") && '\\' !in m
    requires EndsWith(suffix, ".py") && '\\' !in suffix
    ensures var c := ModulePath(m, suffix);
      StartsWith(c, "repo_sim/src/") && EndsWith(c, ".py") && (c in PyFiles(repo) <==> c in repo.files) &&
      (FileExists(repo, c) <==> c in repo.files)
  {
    var c := ModulePath(m, suffix);
    var body := ReplaceChar(m, '.', '/');
    assert body[..4] == "src/";
    assert c == "repo_sim/" + body + suffix;
    assert c[..13] == "repo_sim/" + body[..4];
    assert c[..9] == "repo_sim/";
    assert c[|c| - 3..] == suffix[|suffix| - 3..];
    ReplaceCharNoChar(m, '.', '/', '\\');
    ConcatNoChar("repo_sim/", body, '\\');
    ConcatNoChar("repo_sim/" + body, suffix, '\\');
    NormalizeNoBackslash(c);
  }

  /** The import targets of one file that resolve to repository files. */
  function Targets(repo: Repo, f: string): set<string> {
    set m | m in ImportsOf(repo, f) && ModuleToFile(m, repo).Some? :: ModuleToFile(m, repo).value
  }

  /** `(deps, rev_deps)`: `deps[a]` is what `a` imports, `rev_deps[b]` who imports `b`. */
  datatype DepGraph = DepGraph(deps: map<string, set<string>>, rev: map<string, set<string>>)

  /** `_build_dep_graph`: every Python file gets an entry in both maps, every target one in `rev`. */
  function BuildDepGraph(repo: Repo): DepGraph {
    var py := PyFiles(repo);
    var keys := py + (set f, t | f in py && t in Targets(repo, f) :: t);
    DepGraph(map f | f in py :: Targets(repo, f),
             map t | t in keys :: set f | f in py && t in Targets(repo, f))
  }

  /** `get_dependencies`: a copy of the entry, empty for an unknown key. */
  function GetDependencies(g: DepGraph, p: string): set<string> {
    if p in g.deps then g.deps[p] else {}
  }

  /** `get_reverse_deps`: a copy of the entry, empty for an unknown key. */
  function GetReverseDeps(g: DepGraph, p: string): set<string> {
    if p in g.rev then g.rev[p] else {}
  }

  /**
   * `rev` is exactly the inverse of `deps`, both maps are keyed by the
   * repository's Python files, and every dependency is itself one of them.
   */
  lemma DepGraphInverse(repo: Repo)
    ensures var g := BuildDepGraph(repo);
      g.deps.Keys == PyFiles(repo) && g.rev.Keys == PyFiles(repo) &&
      (forall a, b :: b in GetReverseDeps(g, a) <==> a in GetDependencies(g, b)) &&
      (forall a, b :: b in GetDependencies(g, a) ==> b in PyFiles(repo))
  {
    var g := BuildDepGraph(repo);
    var py := PyFiles(repo);
    forall f, t | f in py && t in Targets(repo, f) ensures t in py {
      var m :| m in ImportsOf(repo, f) && ModuleToFile(m, repo).Some? && ModuleToFile(m, repo).value == t;
      ModuleToFileSpec(m, repo);
    }
  }

  // ---------------------------------------------------------------------
  // Removing sensitive paths.
  // ---------------------------------------------------------------------

  /** The entries of `scope` that match no forbidden pattern of `org`. */
  function Clean(scope: set<string>, org: OrgPolicy): set<string> {
    set p | p in scope && !AnyMatch(p, org.forbiddenPaths)
  }

  /** `_remove_sensitive`: keeps exactly the entries that match no forbidden pattern. */
  method RemoveSensitive(scope: set<string>, org: OrgPolicy) returns (cleaned: set<string>)
    ensures cleaned == Clean(scope, org)
    ensures forall p :: p in cleaned <==>
      p in scope && forall i :: 0 <= i < |org.forbiddenPaths| ==> !MatchPath(p, org.forbiddenPaths[i])
  {
    cleaned := {};
    var rest := scope;
    while rest != {}
      invariant rest <= scope
      invariant cleaned == Clean(scope - rest, org)
      decreases |rest|
    {
      var p :| p in rest;
      var blocked := AnyMatch(p, org.forbiddenPaths);
      if !blocked {
        cleaned := cleaned + {p};
      }
      rest := rest - {p};
    }
  }

  // ---------------------------------------------------------------------
  // Dependency rounds.
  // ---------------------------------------------------------------------

  /** Only concrete files are expanded: not a `*` pattern, and an existing file. */
  predicate Concrete(repo: Repo, p: string) {
    !(EndsWith(p, "/**") || EndsWith(p, "*")) && FileExists(repo, p)
  }

  function Neighbours(g: DepGraph, p: string): set<string> {
    GetDependencies(g, p) + GetReverseDeps(g, p)
  }

  /** What one round collects from `scope`: the neighbours of its concrete entries. */
  function NewNodes(repo: Repo, scope: set<string>): set<string> {
    set p, x | p in scope && Concrete(repo, p) && x in Neighbours(BuildDepGraph(repo), p) :: x
  }

  /** One round: add the new nodes, then remove sensitive entries again. */
  function Round(repo: Repo, org: OrgPolicy, scope: set<string>): set<string> {
    Clean(scope + NewNodes(repo, scope), org)
  }

  /** The rounds loop as written: at most `n` rounds, stopping when one changes nothing. */
  function Rounds(repo: Repo, org: OrgPolicy, scope: set<string>, n: int): set<string>
    decreases n
  {
    if n <= 0 then scope
    else
      var next := Round(repo, org, scope);
      if next == scope then scope else Rounds(repo, org, next, n - 1)
  }

  /** The same `n` rounds with no early stop. */
  function AllRounds(repo: Repo, org: OrgPolicy, scope: set<string>, n: int): set<string>
    decreases n
  {
    if n <= 0 then scope else AllRounds(repo, org, Round(repo, org, scope), n - 1)
  }

  /** The early stop is only a shortcut: a round that changes nothing is a fixed point. */
  lemma {:induction false} EarlyStopIsShortcut(repo: Repo, org: OrgPolicy, scope: set<string>, n: int)
    ensures Rounds(repo, org, scope, n) == AllRounds(repo, org, scope, n)
    decreases n
  {
    if n > 0 {
      var next := Round(repo, org, scope);
      if next == scope {
        FixedPointStays(repo, org, scope, n - 1);
      } else {
        EarlyStopIsShortcut(repo, org, next, n - 1);
      }
    }
  }

  lemma {:induction false} FixedPointStays(repo: Repo, org: OrgPolicy, scope: set<string>, n: int)
    requires Round(repo, org, scope) == scope
    ensures AllRounds(repo, org, scope, n) == scope
    decreases n
  {
    if n > 0 {
      FixedPointStays(repo, org, scope, n - 1);
    }
  }

  /**
   * From a clean scope, a round never drops an entry, never lets a sensitive
   * one in, and adds exactly the clean neighbours of concrete entries.
   */
  lemma RoundSpec(repo: Repo, org: OrgPolicy, scope: set<string>)
    requires Clean(scope, org) == scope
    ensures scope <= Round(repo, org, scope)
    ensures Clean(Round(repo, org, scope), org) == Round(repo, org, scope)
    ensures forall x :: x in Round(repo, org, scope) <==> x in scope || (x in NewNodes(repo, scope) && !AnyMatch(x, org.forbiddenPaths))
  {
    forall x | x in scope ensures x in Round(repo, org, scope) {
      assert x in Clean(scope, org);
    }
  }

  /** After every round the scope is still clean and has not shrunk; the rounds stop within `n`. */
  lemma {:induction false} RoundsSpec(repo: Repo, org: OrgPolicy, scope: set<string>, n: int)
    requires Clean(scope, org) == scope
    ensures scope <= Rounds(repo, org, scope, n)
    ensures Clean(Rounds(repo, org, scope, n), org) == Rounds(repo, org, scope, n)
    decreases n
  {
    if n > 0 {
      var next := Round(repo, org, scope);
      RoundSpec(repo, org, scope);
      if next != scope {
        RoundsSpec(repo, org, next, n - 1);
      }
    }
  }

  // ---------------------------------------------------------------------
  // Directory wildcards.
  // ---------------------------------------------------------------------

  predicate SrcPy(p: string) {
    StartsWith(p, "repo_sim/src/") && EndsWith(p, ".py")
  }

  predicate TestPy(p: string) {
    StartsWith(p, "repo_sim/tests/") && EndsWith(p, ".py")
  }

  // The wildcards `extra` collects: the parent-directory wildcard of every
  // source file, and the tests wildcard when any test file is present.
  function Extra(scope: set<string>): set<string> {
    DirWildcards(scope) + (if HasTestFile(scope) then {"repo_sim/tests/**"} else {})
  }

  function DirWildcards(scope: set<string>): set<string> {
    set p | p in scope && SrcPy(p) :: BeforeLastSlash(p) + "/**"
  }

  predicate HasTestFile(scope: set<string>) {
    exists p :: p in scope && TestPy(p)
  }

  /** What one entry contributes to `extra`. */
  function ExtraOf(p: string): set<string> {
    (if SrcPy(p) then {BeforeLastSlash(p) + "/**"} else {}) + (if TestPy(p) then {"repo_sim/tests/**"} else {})
  }

  lemma ExtraAdd(scope: set<string>, p: string)
    ensures Extra(scope + {p}) == Extra(scope) + ExtraOf(p)
  {
    if TestPy(p) {
      assert p in scope + {p};
    }
    if HasTestFile(scope) {
      var q :| q in scope && TestPy(q);
      assert q in scope + {p};
    }
    assert DirWildcards(scope + {p}) == DirWildcards(scope) + (if SrcPy(p) then {BeforeLastSlash(p) + "/**"} else {});
  }

  function WithDirWildcards(scope: set<string>): set<string> {
    scope + Extra(scope)
  }

  /** The loop body of `_add_dir_wildcards` for one entry `p`. */
  method WildcardsFor(p: string) returns (e: set<string>)
    ensures e == ExtraOf(p)
  {
    e := {};
    if StartsWith(p, "repo_sim/src/") && EndsWith(p, ".py") {
      var dirp := BeforeLastSlash(p);
      e := e + {dirp + "/**"};
    }
    if StartsWith(p, "repo_sim/tests/") && EndsWith(p, ".py") {
      e := e + {"repo_sim/tests/**"};
    }
  }

  /** Moving one element from what is left to what is done keeps the whole and shrinks what is left. */
  lemma MoveOne(scope: set<string>, done: set<string>, rest: set<string>, p: string)
    requires done + rest == scope && p in rest
    ensures (done + {p}) + (rest - {p}) == scope && |rest - {p}| < |rest|
  {
  }

  /** `_add_dir_wildcards`. */
  method AddDirWildcards(scope: set<string>) returns (r: set<string>)
    ensures r == WithDirWildcards(scope)
  {
    var extra: set<string> := {};
    var rest := scope;
    ghost var done: set<string> := {};
    while rest != {}
      invariant done + rest == scope
      invariant extra == Extra(done)
      decreases |rest|
    {
      var p :| p in rest;
      var e := WildcardsFor(p);
      MoveOne(scope, done, rest, p);
      ExtraAdd(done, p);
      extra := extra + e;
      done := done + {p};
      rest := rest - {p};
    }
    r := scope + extra;
  }

  // The wildcards only add: every source file brings its directory wildcard,
  // every test file the tests wildcard, and nothing else is added.
  lemma DirWildcardsSpec(scope: set<string>)
    ensures scope <= WithDirWildcards(scope)
    ensures forall p :: p in scope && SrcPy(p) ==> BeforeLastSlash(p) + "/**" in WithDirWildcards(scope)
    ensures forall p :: p in scope && TestPy(p) ==> "repo_sim/tests/**" in WithDirWildcards(scope)
    ensures forall x :: x in WithDirWildcards(scope) ==>
      (x in scope || x == "repo_sim/tests/**" || exists p :: p in scope && SrcPy(p) && x == BeforeLastSlash(p) + "/**")
  {
  }

  /** The wildcard added for a source file matches that file under `match_path`. */
  lemma DirWildcardCovers(p: string)
    requires SrcPy(p) && NoStar(p) && '\\' !in p
    ensures MatchPath(p, BeforeLastSlash(p) + "/**")
  {
    var d := BeforeLastSlash(p);
    assert p[..13] == "repo_sim/src/";
    assert p[8] == '/';
    assert '/' in p;
    assert d == p[..|d|] && p[|d|] == '/';
    assert p[..|d| + 1] == d + "/";
    assert NoStar(d) by {
      forall i | 0 <= i < |d| ensures d[i] != '*' { assert d[i] == p[i]; }
    }
    assert '\\' !in d by {
      forall i | 0 <= i < |d| ensures d[i] != '\\' { assert d[i] == p[i]; }
    }
    MatchPathDirWildcardPlain(p, d);
  }

  // ---------------------------------------------------------------------
  // expand_scope.
  // ---------------------------------------------------------------------

  /** The default `depth_limit` of `expand_scope`. */
  const DefaultDepthLimit: int := 2

  /** The seed entries of the `path` and `test` anchors. */
  function Seeds(anchors: map<string, string>): set<string> {
    (if "path" in anchors then {SeedEntry(anchors["path"])} else {}) +
      (if "test" in anchors then {SeedEntry(anchors["test"])} else {})
  }

  /** The set `expand_scope` sorts and returns. */
  function ExpandSet(anchors: map<string, string>, org: OrgPolicy, depthLimit: int, repo: Repo): set<string> {
    if |anchors| == 0 then Clean({"repo_sim/**"}, org)
    else WithDirWildcards(Rounds(repo, org, Clean(Seeds(anchors), org), depthLimit))
  }

  lemma NewNodesAdd(repo: Repo, done: set<string>, p: string)
    ensures NewNodes(repo, done + {p}) ==
      NewNodes(repo, done) + (if Concrete(repo, p) then Neighbours(BuildDepGraph(repo), p) else {})
  {
  }

  /** One round's `new_nodes`: the neighbours of every concrete file in `scope`. */
  method CollectNewNodes(repo: Repo, g: DepGraph, scope: set<string>) returns (newNodes: set<string>)
    requires g == BuildDepGraph(repo)
    ensures newNodes == NewNodes(repo, scope)
  {
    newNodes := {};
    var rest := scope;
    ghost var done: set<string> := {};
    while rest != {}
      invariant done + rest == scope
      invariant newNodes == NewNodes(repo, done)
      decreases |rest|
    {
      var p :| p in rest;
      MoveOne(scope, done, rest, p);
      NewNodesAdd(repo, done, p);
      var more := ExpandOne(repo, g, p);
      newNodes := newNodes + more;
      done := done + {p};
      rest := rest - {p};
    }
  }

  /** The rounds loop of `expand_scope`, with its early `break`. */
  method RunRounds(repo: Repo, org: OrgPolicy, g: DepGraph, seeds: set<string>, depthLimit: int) returns (scope: set<string>)
    requires g == BuildDepGraph(repo)
    ensures scope == Rounds(repo, org, seeds, depthLimit)
  {
    scope := seeds;
    ghost var target := Rounds(repo, org, seeds, depthLimit);
    // `left` counts the rounds of `range(depth_limit)` still to run
    var left := depthLimit;
    while left > 0
      invariant Rounds(repo, org, scope, left) == target
      decreases left
    {
      var next := OneRound(repo, org, g, scope);
      if next == scope {
        RoundsStop(repo, org, scope, left);
        break;
      }
      ghost var (before, n) := (scope, left);
      scope := next;
      left := left - 1;
      RoundsAdvance(repo, org, before, n, scope, left);
    }
  }

  /** A round that changes nothing ends the loop with the current scope. */
  lemma RoundsStop(repo: Repo, org: OrgPolicy, scope: set<string>, n: int)
    requires n > 0 && Round(repo, org, scope) == scope
    ensures Rounds(repo, org, scope, n) == scope
  {
  }

  /** A round that changes the scope uses up one of the remaining rounds. */
  lemma RoundsAdvance(repo: Repo, org: OrgPolicy, scope: set<string>, n: int, next: set<string>, m: int)
    requires n > 0 && next == Round(repo, org, scope) && next != scope && m == n - 1
    ensures Rounds(repo, org, next, m) == Rounds(repo, org, scope, n)
  {
  }

  /** One round of `expand_scope`: add the new nodes, then remove sensitive entries. */
  method OneRound(repo: Repo, org: OrgPolicy, g: DepGraph, scope: set<string>) returns (next: set<string>)
    requires g == BuildDepGraph(repo)
    ensures next == Round(repo, org, scope)
  {
    var newNodes := CollectNewNodes(repo, g, scope);
    next := scope + newNodes;
    next := RemoveSensitive(next, org);
  }

  /**
   * `expand_scope`: seed from the anchors, remove sensitive entries, run at
   * most `depthLimit` dependency rounds (stopping early when a round adds
   * nothing), add directory wildcards, and return the entries sorted.
   */
  method ExpandScope(anchors: map<string, string>, org: OrgPolicy, depthLimit: int, repo: Repo) returns (r: seq<string>)
    ensures StrictlySorted(r)
    ensures forall x :: x in r <==> x in ExpandSet(anchors, org, depthLimit, repo)
    ensures r == SortedOf(ExpandSet(anchors, org, depthLimit, repo))
  {
    if |anchors| == 0 {
      var only := RemoveSensitive({"repo_sim/**"}, org);
      r := SortSet(only);
      StrictlySortedUnique(r, SortedOf(ExpandSet(anchors, org, depthLimit, repo)));
      return;
    }
    var scope: set<string> := {};
    if "path" in anchors {
      scope := scope + {SeedEntry(anchors["path"])};
    }
    if "test" in anchors {
      scope := scope + {SeedEntry(anchors["test"])};
    }
    assert scope == Seeds(anchors);
    scope := RemoveSensitive(scope, org);
    // the graph `_DEPS, _REV` is built once from the repository
    var g := BuildDepGraph(repo);
    scope := RunRounds(repo, org, g, scope, depthLimit);
    scope := AddDirWildcards(scope);
    r := SortSet(scope);
    StrictlySortedUnique(r, SortedOf(ExpandSet(anchors, org, depthLimit, repo)));
  }

  /** The loop body of one round for one entry `p`: only concrete files are expanded. */
  method ExpandOne(repo: Repo, g: DepGraph, p: string) returns (more: set<string>)
    ensures more == (if Concrete(repo, p) then Neighbours(g, p) else {})
  {
    more := {};
    if EndsWith(p, "/**") || EndsWith(p, "*") {
      return;
    }
    if !FileExists(repo, p) {
      return;
    }
    more := more + GetDependencies(g, p);
    more := more + GetReverseDeps(g, p);
  }

  // With no anchors the scope is the whole-repository wildcard, unless an org pattern forbids it.
  lemma ExpandEmptyAnchors(anchors: map<string, string>, org: OrgPolicy, depthLimit: int, repo: Repo)
    requires |anchors| == 0
    ensures forall x :: x in ExpandSet(anchors, org, depthLimit, repo) <==>
      x == "repo_sim/**" && !AnyMatch("repo_sim/**", org.forbiddenPaths)
  {
  }

  /**
   * Every clean seed survives into the result; the entries reached by the
   * rounds match no forbidden pattern; and with `depthLimit <= 0` no round runs.
   */
  lemma ExpandKeepsCleanSeeds(anchors: map<string, string>, org: OrgPolicy, depthLimit: int, repo: Repo)
    requires |anchors| > 0
    ensures Clean(Seeds(anchors), org) <= ExpandSet(anchors, org, depthLimit, repo)
    ensures var reached := Rounds(repo, org, Clean(Seeds(anchors), org), depthLimit);
      reached <= ExpandSet(anchors, org, depthLimit, repo) &&
      forall x :: x in reached ==> !AnyMatch(x, org.forbiddenPaths)
    ensures depthLimit <= 0 ==> ExpandSet(anchors, org, depthLimit, repo) == WithDirWildcards(Clean(Seeds(anchors), org))
  {
    var s0 := Clean(Seeds(anchors), org);
    assert Clean(s0, org) == s0;
    RoundsSpec(repo, org, s0, depthLimit);
    DirWildcardsSpec(Rounds(repo, org, s0, depthLimit));
  }

  /**
   * No entry of the expanded scope matches a forbidden pattern, the added
   * directory wildcards included: a pattern matching the wildcard of a
   * directory would match the clean file in that directory that brought it in.
   */
  lemma ExpandSetClean(anchors: map<string, string>, org: OrgPolicy, depthLimit: int, repo: Repo)
    ensures forall x :: x in ExpandSet(anchors, org, depthLimit, repo) ==> !AnyMatch(x, org.forbiddenPaths)
  {
    if |anchors| > 0 {
      ExpandKeepsCleanSeeds(anchors, org, depthLimit, repo);
      WildcardsKeepClean(Rounds(repo, org, Clean(Seeds(anchors), org), depthLimit), org);
    }
  }

  /** Adding the wildcards of `_add_dir_wildcards` to a clean scope keeps it clean. */
  lemma WildcardsKeepClean(scope: set<string>, org: OrgPolicy)
    requires forall x :: x in scope ==> !AnyMatch(x, org.forbiddenPaths)
    ensures forall x :: x in WithDirWildcards(scope) ==> !AnyMatch(x, org.forbiddenPaths)
  {
    forall x | x in Extra(scope) ensures !AnyMatch(x, org.forbiddenPaths) {
      if x in DirWildcards(scope) {
        var p :| p in scope && SrcPy(p) && x == BeforeLastSlash(p) + "/**";
        WildcardFromClean(p, BeforeLastSlash(p), org);
      } else {
        var p :| p in scope && TestPy(p);
        TestWildcardFromClean(p, org);
      }
    }
  }

  // The tests wildcard added for a clean test file is clean.
  lemma TestWildcardFromClean(p: string, org: OrgPolicy)
    requires TestPy(p) && !AnyMatch(p, org.forbiddenPaths)
    ensures !AnyMatch("repo_sim/tests/**", org.forbiddenPaths)
  {
    assert p == "repo_sim/tests/" + p[15..];
    assert "repo_sim/tests/**" == "repo_sim/tests/" + "**";
    AnyMatchStarTail("repo_sim/tests/", p[15..], org.forbiddenPaths);
  }

  // The directory wildcard added for a clean source file is clean.
  lemma WildcardFromClean(p: string, d: string, org: OrgPolicy)
    requires SrcPy(p) && d == BeforeLastSlash(p) && !AnyMatch(p, org.forbiddenPaths)
    ensures !AnyMatch(d + "/**", org.forbiddenPaths)
  {
    assert p[8] == '/';
    assert '/' in p;
    assert p == (d + "/") + p[|d| + 1..];
    assert d + "/**" == (d + "/") + "**";
    AnyMatchStarTail(d + "/", p[|d| + 1..], org.forbiddenPaths);
  }
}
