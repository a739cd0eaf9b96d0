# Safe-Boundary authorization engine, modelled in Dafny

Safe-Boundary decides whether a coding agent may perform a request: a
*capability* (`exec:test`, `write:src`, `network:egress`, ...) on a
*scope* (a repository path). It works from a *requirement node*: the
user's goal, anchors (a test or a path) and constraints (such as
`no-network`), together with the evidence gathered so far.

The decision is the intersection of three bounds:

- the **capability bound** `T_max(goal)`: a 0/1 knapsack over risk and
  utility that picks the most capabilities, and then the most utility,
  within the goal's risk budget, never picking a hard-banned one;
- the **scope bound**: the anchors expanded along the import graph of the
  simulated repository (`repo_sim/`) for a bounded number of rounds, with
  sensitive paths removed and directory wildcards added;
- the **constraint bound**: the organisation's forbidden paths, plus
  `network:egress` under `no-network`, plus `exec:deploy` always.

A request inside the resulting safe boundary is granted only if the
evidence supports it (writing source needs a failing test on record). A
grant carries a time-limited lease; a denial carries a diagnosis and two
suggestions. The requirement graph keeps the nodes and an event log, and
updates them when instructions, test runs and patches arrive.

One module per source file:

| Dafny file | source |
|---|---|
| `Strings.dfy` | the Python string and `sorted` primitives the source relies on |
| `Models.dfy` | `models.py`: records, `SafeBoundary.allows`, `match_path` |
| `TemplateSearch.dfy` | `template_search.py`: the knapsack solver |
| `Templates.dfy` | `templates.py`: the configuration and the cached `t_max` |
| `ScopeExpand.dfy` | `scope_expand.py`: the dependency graph and `expand_scope` |
| `Policy.dfy` | `policy.py`: `build_constraint_bound` |
| `Boundary.dfy` | `boundary.py`: `compute_safe_boundary` |
| `EvidenceGate.dfy` | `evidence.py`: `evidence_supported` |
| `Authorize.dfy` | `authorize.py`: `authorize` and its diagnosis |
| `Graph.dfy` | `graph.py`: the requirement graph and its event handlers |

Pure code is modelled as functions. Every loop of the source is a method
with a loop, proved equal to a specification function, except two kinds:
the nested loop of `_build_dep_graph` becomes the map comprehension
`ScopeExpand.BuildDepGraph` over the `Repo` value, and the debug-printing
loops of `solve_tmax_knapsack` are left out. The properties of the
specification functions are then stated as lemmas. Two pieces of module-level
mutable state become classes:

- the `_TMAX_CACHE` dictionary is `Templates.TemplateCache`;
- the graph is `Graph.RequirementGraph`.

The knapsack keeps its in-place `dp` list as an `array`.

Where the documentation and the code disagree, the model follows the code:

- **`*` in `match_path`.** The docstring says `*` matches one path
  level. The code hands the pattern to `fnmatch`, where `*` also matches
  `/`. `Models.MatchPathExampleStarCrossesSlash` proves that `a/*`
  matches `a/b/c`.
- **Keyword filter.** `compute_safe_boundary` removes a scope pattern
  when it contains the first path segment of a forbidden pattern, with
  its stars removed. It does not glob-match the pattern. For
  `**/*.pem` that keyword is empty, so the rule never fires
  (`Boundary.DefaultKeywords`, `Boundary.EmptyKeywordBlocksNothing`).

## Model

| member | source | states |
|---|---|---|
| Strings.ReplaceChar | src/safe_boundary/scope_expand.py:175 | same length, each `a` becomes `b` and every other character is kept, as `str.replace` with one-character arguments |
| Strings.LStrip | src/safe_boundary/scope_expand.py:178 | the result is a suffix of the input, only `c` characters were removed, and it does not start with `c`, as `lstrip` |
| Strings.RStrip | src/safe_boundary/scope_expand.py:67 | the result is a prefix of the input, only `c` characters were removed, and it does not end with `c`, as the right half of `strip` |
| Strings.BeforeLastSlash | src/safe_boundary/scope_expand.py:150 | `rsplit("/", 1)[0]`: the prefix before the last `/`, or the whole string when it has none |
| Strings.Stars | src/safe_boundary/boundary.py:32 | a run of exactly `n` stars; used to describe what the two star replacements do to each run |
| Strings.SortSet | src/safe_boundary/scope_expand.py:215 | the result is strictly increasing in code-point order and holds exactly the elements of the set, so its length is the set's size |
| Strings.SortedOf | src/safe_boundary/scope_expand.py:171 | the specification of `sorted(set)`: a strictly increasing sequence with exactly the set's elements |
| Strings.StrictlySortedUnique | src/safe_boundary/scope_expand.py:215 | two strictly sorted sequences with the same elements are equal, so `sorted` has a single possible result |
| Strings.StrLessTransitive | src/safe_boundary/scope_expand.py:215 | the code-point order used by `sorted` is transitive |
| Strings.StrLessTotal | src/safe_boundary/scope_expand.py:215 | any two distinct strings are ordered one way or the other |
| Strings.MinOf | src/safe_boundary/scope_expand.py:215 | returns a member of a non-empty set that is below every other member |
| Models.StateName | src/safe_boundary/models.py:28 | a node's state is one of `active`, `completed`, `stale`, and is `active` exactly for the active state |
| Models.NewRequirementNode | src/safe_boundary/models.py:19-29 | a new node keeps the given rid, goal, anchors and constraints, is active and has no evidence |
| Models.LeaseExpiry | src/safe_boundary/models.py:51-52 | a lease is expired at its expiry time, stays expired later, and is live before it |
| Models.SafeBoundary.Allows | src/safe_boundary/models.py:79-84 | a request is allowed iff its capability is a key and some pattern listed for it matches the scope |
| Models.AnyMatch | src/safe_boundary/scope_expand.py:137 | true iff some pattern of the list matches the path |
| Models.Glob | src/safe_boundary/models.py:98 | `fnmatch` restricted to literal characters and `*`, anchored at both ends; characterised by `GlobLiteral`, `GlobStarAll`, `GlobPrefixStar`, `GlobCollapse` and `GlobStarTail` |
| Models.CollapseDoubleStar | src/safe_boundary/models.py:97 | `replace("**", "*")`: the result is never longer; `CollapseRun` and `CollapseKeeps` pin it down |
| Models.CollapseRun | src/safe_boundary/models.py:97 | a maximal run of `n` stars becomes `(n + 1) / 2` stars, and what follows the run is rewritten on its own |
| Models.CollapseKeeps | src/safe_boundary/models.py:97 | a character other than `*` is kept, and the rest is rewritten on its own |
| Models.MatchPath | src/safe_boundary/models.py:86-98 | normalise both slashes, collapse `**` in the pattern, then `Glob`; characterised by the `MatchPath...` lemmas below |
| Models.GlobLiteral | src/safe_boundary/models.py:98 | a pattern without stars matches exactly itself |
| Models.GlobStarAll | src/safe_boundary/models.py:98 | `*` matches every string |
| Models.GlobPrefixStar | src/safe_boundary/models.py:98 | `q*` with a literal `q` matches exactly the strings that start with `q` |
| Models.GlobCollapse | src/safe_boundary/models.py:97-98 | replacing `**` by `*` does not change which strings a pattern matches |
| Models.NormalizeCollapseCommute | src/safe_boundary/models.py:94-97 | normalising slashes and collapsing double stars commute |
| Models.MatchPathSeparatorBlind | src/safe_boundary/models.py:94-95 | matching is unchanged if either side has its backslashes turned into slashes first |
| Models.MatchPathDoubleStar | src/safe_boundary/models.py:97 | a pattern with `**` matches the same paths as the pattern with `*` |
| Models.MatchPathDirWildcard | src/safe_boundary/models.py:86-98 | `d/**` for a literal directory `d` matches exactly the paths under `d/`, after the path's slashes are normalised |
| Models.MatchPathDirWildcardPlain | src/safe_boundary/models.py:86-98 | for paths without backslashes, `d/**` matches exactly the paths that start with `d/` |
| Models.MatchPathExampleDirs | src/safe_boundary/models.py:86-98 | `repo_sim/src/auth/login.py` matches `repo_sim/src/auth/**` and does not match `repo_sim/tests/**` |
| Models.GlobStarTail | src/safe_boundary/models.py:98 | a pattern that matches a string ending in one or more stars matches the string with those stars replaced by any suffix |
| Models.MatchPathStarTail | src/safe_boundary/models.py:86-98 | a pattern that matches `u**` matches `u` followed by anything |
| Models.AnyMatchStarTail | src/safe_boundary/scope_expand.py:137 | if some forbidden pattern matches `u**`, then some forbidden pattern matches `u` followed by any suffix |
| Models.MatchPathExampleStarCrossesSlash | src/safe_boundary/models.py:90-98 | `a/*` matches both `a/b` and `a/b/c`: a single star crosses directory levels |
| TemplateSearch.BetterIsStrictLexOrder | src/safe_boundary/template_search.py:28-32 | `_better` is irreflexive, asymmetric and transitive, and two entries are incomparable iff count and utility are equal |
| TemplateSearch.AttrOf | src/safe_boundary/template_search.py:69 | a capability without attributes gets risk 2 and utility 0 |
| TemplateSearch.ItemsOf | src/safe_boundary/template_search.py:63-70 | every item is a capability of `C` outside the hard ban, carrying its attributes |
| TemplateSearch.ItemsKept | src/safe_boundary/template_search.py:63-70 | the items' capabilities are `C` with the banned ones removed, in order |
| TemplateSearch.InitDp | src/safe_boundary/template_search.py:82 | the table has `budget + 1` cells, all empty |
| TemplateSearch.BestIndex | src/safe_boundary/template_search.py:123 | picks the first cell no other cell is better than, as `max` does |
| TemplateSearch.InOrderMembers | src/safe_boundary/template_search.py:124-128 | the ordered result holds exactly the chosen capabilities that occur in `C` |
| TemplateSearch.InOrderSubseq | src/safe_boundary/template_search.py:128 | the ordered result is a subsequence of `C`, and duplicate-free when `C` is |
| TemplateSearch.RelaxCorrect | src/safe_boundary/template_search.py:94-106 | one relaxation of cell `b` keeps the cell a feasible and best selection within budget `b` over the items seen |
| TemplateSearch.DpCorrect | src/safe_boundary/template_search.py:87-113 | after all items, every cell `b` holds a subsequence of the items within risk `b` that no other such subsequence beats |
| TemplateSearch.BestEntryOptimal | src/safe_boundary/template_search.py:122-123 | the cell `max` picks holds a selection within the budget, and no subsequence of the items within the budget is better than it |
| TemplateSearch.SolveTmax | src/safe_boundary/template_search.py:45-138 | the DP's chosen list in `C`'s order, for the goal's attributes and budget; characterised by `SolveTmaxNoHardBan`, `SolveTmaxOptimal` and `SolveTmaxBudgetMonotone` |
| TemplateSearch.SolveTmaxNoHardBan | src/safe_boundary/template_search.py:45-138 | the result uses only capabilities of `C` outside the hard ban, in `C`'s order, without repeats when `C` has none |
| TemplateSearch.SolveTmaxBudgetMonotone | src/safe_boundary/template_search.py:45-138 | raising the risk budget never lowers the number of chosen capabilities, and at the same count never lowers the utility |
| TemplateSearch.SolveTmaxOptimal | src/safe_boundary/template_search.py:45-138 | the result's risk is within the budget, and no subsequence of `C` avoiding the ban and within the budget has more capabilities, or as many with more utility |
| TemplateSearch.CollectItems | src/safe_boundary/template_search.py:63-70 | the loop builds the item list of the specification |
| TemplateSearch.RelaxAll | src/safe_boundary/template_search.py:94-113 | the downward budget loop over the array leaves the table of one specification step |
| TemplateSearch.RunDp | src/safe_boundary/template_search.py:80-113 | the table built in a fresh array over all items equals the specification's table |
| TemplateSearch.SolveTmaxKnapsack | src/safe_boundary/template_search.py:45-138 | the method returns the specification's result, so the lemmas above hold of it |
| Templates.TMaxSpec | src/safe_boundary/templates.py:78-93 | `T_max(goal)`: the solver on `C_ALL`, the shipped attribute and budget tables and `HARD_BAN`; characterised by `TMaxNoHardBan`, `TMaxOptimal`, `TMaxFixFailingTest` and `TMaxUnconfigured` |
| Templates.TMaxNoHardBan | src/safe_boundary/templates.py:34-38 | `T_max` of any goal contains no hard-banned capability, only capabilities of `C_ALL`, and no repeats |
| Templates.TMaxOptimal | src/safe_boundary/templates.py:78-93 | `T_max(goal)` is within the goal's risk budget and beats or ties every other admissible selection |
| Templates.TMaxFixFailingTest | src/safe_boundary/templates.py:42-63 | for `fix_failing_test` the result is exactly `exec:test, read:repo, write:src, exec:lint, exec:build`, with utility 35 |
| Templates.TMaxUnconfigured | src/safe_boundary/templates.py:42-63 | any other goal, with the default budget 3 and default attributes, gets exactly `exec:test` |
| Templates.TemplateCache.TMax | src/safe_boundary/templates.py:78-93 | returns `T_max(goal)` whether or not it was cached, and afterwards the cache maps the goal to it |
| ScopeExpand.StripTestSelector | src/safe_boundary/scope_expand.py:45-47 | the result is the longest prefix that does not contain `::` |
| ScopeExpand.StripTestSelectorUnchanged | src/safe_boundary/scope_expand.py:45-47 | a string is left alone iff it contains no `::` |
| ScopeExpand.StripTestSelectorIdempotent | src/safe_boundary/scope_expand.py:45-47 | stripping twice is stripping once |
| ScopeExpand.RepoRel | src/safe_boundary/scope_expand.py:176-177 | the result starts with `repo_sim/` and has no backslash; a path already under `repo_sim/` is kept as it is, and any other path becomes `repo_sim/` followed by the path with its leading slashes dropped |
| ScopeExpand.SeedEntry | src/safe_boundary/scope_expand.py:174-187 | a seed starts with `repo_sim/` and has no backslash; with `n` the anchor after slash normalisation and selector stripping, the seed is `n` itself when `n` starts with `repo_sim/`, and otherwise `repo_sim/` followed by `n` without its leading slashes |
| ScopeExpand.ModuleName | src/safe_boundary/scope_expand.py:67 | the normalised module name contains no backslash |
| ScopeExpand.ModuleToFile | src/safe_boundary/scope_expand.py:61-80 | `_module_to_file`: clean the name, then resolve it; characterised by `ModuleToFileSpec` |
| ScopeExpand.ModuleToFileSpec | src/safe_boundary/scope_expand.py:61-80 | only `src.` modules resolve, to an existing file under `repo_sim/src/`; the `.py` file wins over the package's `__init__.py` |
| ScopeExpand.ResolveModuleSpec | src/safe_boundary/scope_expand.py:68-80 | for a cleaned name: only `src.` modules resolve, to a listed Python file under `repo_sim/src/`; `<parts>.py` is tried before `<parts>/__init__.py` |
| ScopeExpand.BuildDepGraph | src/safe_boundary/scope_expand.py:103-120 | `_build_dep_graph` as a map comprehension over the `Repo`; characterised by `DepGraphInverse` |
| ScopeExpand.GetDependencies | src/safe_boundary/scope_expand.py:125-126 | the file's entry in `deps`, empty for an unknown file; `DepGraphInverse` says what the entries hold |
| ScopeExpand.GetReverseDeps | src/safe_boundary/scope_expand.py:128-129 | the file's entry in `rev`, empty for an unknown file; `DepGraphInverse` proves it is the inverse of `GetDependencies` |
| ScopeExpand.DepGraphInverse | src/safe_boundary/scope_expand.py:103-129 | both maps are keyed by every Python file, and `b` is a reverse dependency of `a` iff `a` is a dependency of `b` |
| ScopeExpand.RemoveSensitive | src/safe_boundary/scope_expand.py:131-140 | keeps exactly the paths that no forbidden pattern matches |
| ScopeExpand.EarlyStopIsShortcut | src/safe_boundary/scope_expand.py:204-209 | stopping when a round adds nothing gives the same scope as running all rounds |
| ScopeExpand.FixedPointStays | src/safe_boundary/scope_expand.py:193-209 | once a round changes nothing, further rounds change nothing |
| ScopeExpand.RoundSpec | src/safe_boundary/scope_expand.py:193-206 | a round keeps the clean scope and adds exactly the clean neighbours of its concrete files |
| ScopeExpand.RoundsSpec | src/safe_boundary/scope_expand.py:193-209 | any number of rounds only grows a clean scope and keeps it clean |
| ScopeExpand.ExtraAdd | src/safe_boundary/scope_expand.py:147-154 | the wildcards of a set are the union of the wildcards of its members |
| ScopeExpand.WildcardsFor | src/safe_boundary/scope_expand.py:149-154 | computes the wildcards one path contributes |
| ScopeExpand.AddDirWildcards | src/safe_boundary/scope_expand.py:142-155 | the loop builds the specification's scope with directory wildcards |
| ScopeExpand.DirWildcardsSpec | src/safe_boundary/scope_expand.py:142-155 | keeps the scope; adds the directory of every source file and `repo_sim/tests/**` for any test file; adds nothing else |
| ScopeExpand.DirWildcardCovers | src/safe_boundary/scope_expand.py:149-151 | the wildcard added for a source file matches that file |
| ScopeExpand.NewNodesAdd | src/safe_boundary/scope_expand.py:195-202 | the neighbours of a scope grow by the neighbours of each concrete file added |
| ScopeExpand.ExpandOne | src/safe_boundary/scope_expand.py:196-202 | patterns and missing files contribute nothing; a concrete file contributes its dependencies and reverse dependencies |
| ScopeExpand.CollectNewNodes | src/safe_boundary/scope_expand.py:194-202 | the inner loop collects exactly the specification's new nodes |
| ScopeExpand.OneRound | src/safe_boundary/scope_expand.py:194-206 | one pass of the depth loop computes exactly one specification round |
| ScopeExpand.RoundsStop | src/safe_boundary/scope_expand.py:208-209 | the `break` on an unchanged scope gives the specification's result |
| ScopeExpand.RoundsAdvance | src/safe_boundary/scope_expand.py:193-209 | a round that changes the scope uses up one unit of depth |
| ScopeExpand.RunRounds | src/safe_boundary/scope_expand.py:193-209 | the depth loop with its early stop computes the specification's rounds |
| ScopeExpand.ExpandSet | src/safe_boundary/scope_expand.py:157-215 | the set `expand_scope` sorts; characterised by `ExpandEmptyAnchors`, `ExpandKeepsCleanSeeds` and `ExpandSetClean` |
| ScopeExpand.ExpandScope | src/safe_boundary/scope_expand.py:157-215 | the result is strictly sorted and holds exactly the elements of the specification's expanded set |
| ScopeExpand.ExpandEmptyAnchors | src/safe_boundary/scope_expand.py:168-171 | with no anchors the scope is `repo_sim/**` alone, unless a forbidden pattern matches it, and then empty |
| ScopeExpand.ExpandKeepsCleanSeeds | src/safe_boundary/scope_expand.py:172-212 | the clean seeds and everything reached from them are in the scope and match no forbidden pattern; with depth 0 the scope is the clean seeds plus wildcards |
| ScopeExpand.ExpandSetClean | src/safe_boundary/scope_expand.py:157-215 | no entry of the returned scope matches a forbidden pattern, including the directory and tests wildcards added after the last `_remove_sensitive` |
| ScopeExpand.WildcardsKeepClean | src/safe_boundary/scope_expand.py:142-155 | adding the wildcards of `_add_dir_wildcards` to a scope free of forbidden matches leaves it free of forbidden matches |
| ScopeExpand.WildcardFromClean | src/safe_boundary/scope_expand.py:149-151 | the parent-directory wildcard of a source file that matches no forbidden pattern matches no forbidden pattern either |
| ScopeExpand.TestWildcardFromClean | src/safe_boundary/scope_expand.py:152-154 | if some test file matches no forbidden pattern, neither does `repo_sim/tests/**` |
| Policy.ConstraintBoundOf | src/safe_boundary/policy.py:11-23 | forbids the org's paths, `exec:deploy` always, `network:egress` exactly under `no-network`, and no other capability |
| Policy.BuildConstraintBound | src/safe_boundary/policy.py:11-23 | the source's step-by-step construction gives that bound |
| Policy.ConstraintBoundDependsOnlyOnNoNetwork | src/safe_boundary/policy.py:17-18 | user constraints that agree on `no-network` give the same bound |
| Boundary.DropDoubleStars | src/safe_boundary/boundary.py:32 | `replace("**", "")`: never longer, no new characters; `DropDoubleStarsRun` and `DropDoubleStarsKeeps` pin it down |
| Boundary.DropDoubleStarsRun | src/safe_boundary/boundary.py:32 | a maximal run of `n` stars becomes `n % 2` stars, and what follows the run is rewritten on its own |
| Boundary.DropDoubleStarsKeeps | src/safe_boundary/boundary.py:32 | a character other than `*` is kept, and the rest is rewritten on its own |
| Boundary.FirstSegment | src/safe_boundary/boundary.py:32 | the result is the prefix before the first `/` |
| Boundary.DropStars | src/safe_boundary/boundary.py:32 | the result has no star, uses only characters of the input, and is the input itself when that has no star; `DropStarsConcat` and `DropStarsChar` show that exactly the stars are removed |
| Boundary.DropStarsConcat | src/safe_boundary/boundary.py:32 | `replace("*", "")` distributes over concatenation; with `DropStarsChar` this fixes the result of every string |
| Boundary.DropStarsChar | src/safe_boundary/boundary.py:32 | one star becomes empty, and any other character is kept |
| Boundary.Keyword | src/safe_boundary/boundary.py:32 | a keyword contains neither `*` nor `/` |
| Boundary.KeywordOfPlain | src/safe_boundary/boundary.py:32 | the keyword of a literal first segment `d` or of `d/rest` is `d` |
| Boundary.DefaultKeywords | src/safe_boundary/boundary.py:32 | the default forbidden paths give the keywords `.env`, `secrets` and the empty string |
| Boundary.EmptyKeywordBlocksNothing | src/safe_boundary/boundary.py:33 | a forbidden pattern with an empty keyword never blocks |
| Boundary.AllowedScopeMembers | src/safe_boundary/boundary.py:27-37 | the allowed scope is exactly the scope patterns that no keyword blocks |
| Boundary.AllowedScopeSorted | src/safe_boundary/boundary.py:27-37 | filtering keeps a sorted scope sorted |
| Boundary.IsBlocked | src/safe_boundary/boundary.py:29-35 | the loop with `break` finds whether some keyword occurs in the pattern |
| Boundary.FilterScope | src/safe_boundary/boundary.py:27-37 | the loop builds the specification's allowed scope, in order |
| Boundary.Compose | src/safe_boundary/boundary.py:18-41 | the boundary map built from the three bounds; characterised by `ComposeSpec` |
| Boundary.ComposeSpec | src/safe_boundary/boundary.py:18-41 | a capability is a key iff it is offered, not forbidden and the allowed scope is non-empty; every key maps to that scope |
| Boundary.AllowedKey | src/safe_boundary/boundary.py:18-41 | a capability the boundary lists is offered by the template and not forbidden, and each of its patterns comes from the expanded scope, is unblocked and matches no forbidden pattern |
| Boundary.ComposeLoop | src/safe_boundary/boundary.py:18-41 | the source's loop over the capability bound builds that map |
| Boundary.ComputeSafeBoundary | src/safe_boundary/boundary.py:13-43 | returns the boundary of the three bounds; the template cache stays valid and gains exactly the entry of `T_max` for the node's goal |
| Boundary.SafeBoundaryOf | src/safe_boundary/boundary.py:13-43 | `compute_safe_boundary` on values: `Compose` of `T_max`, the sorted expanded scope and the constraint bound; characterised by `SafeBoundaryOfSpec` and `AllowedKey` |
| Boundary.SafeBoundaryOfSpec | src/safe_boundary/boundary.py:13-43 | never allows `exec:deploy`, nor `network:egress` under `no-network`; only `T_max` capabilities; one shared, non-empty, sorted scope list drawn from the expanded scope, free of blocked patterns and matching no forbidden pattern |
| EvidenceGate.HasTestFail | src/safe_boundary/evidence.py:22 | true iff some evidence has kind `test_fail` |
| EvidenceGate.EvidenceSupported | src/safe_boundary/evidence.py:16-26 | the five evidence-gathering capabilities are supported; `write:src` iff a failing test is on record; anything else is not |
| EvidenceGate.EvidenceMonotone | src/safe_boundary/evidence.py:16-26 | appending evidence never withdraws support |
| EvidenceGate.EvidenceIgnoresNode | src/safe_boundary/evidence.py:16 | the node argument does not affect the answer |
| EvidenceGate.EvidenceDependsOnKinds | src/safe_boundary/evidence.py:16-26 | only the set of evidence kinds matters |
| Authorize.Diagnose | src/safe_boundary/authorize.py:55-64 | a scope violation iff the capability is a key; the no-network violation iff it is not a key, is `network:egress` and `no-network` holds |
| Authorize.DiagnoseViolation | src/safe_boundary/authorize.py:55-64 | every diagnosis text is non-empty |
| Authorize.Suggest | src/safe_boundary/authorize.py:66-74 | always two suggestions |
| Authorize.SuggestFollowsDiagnosis | src/safe_boundary/authorize.py:55-74 | the suggestions follow the diagnosis, except that `network:egress` under `no-network` always gets the no-network advice |
| Authorize.Decide | src/safe_boundary/authorize.py:24-53 | granted iff the boundary allows and the evidence supports; a denial has no lease, a reason and suggestions; a grant has the lease for the capability's patterns, the node's rid and evidence, expiring `ttl` after `now` |
| Authorize.GrantedLease | src/safe_boundary/authorize.py:46-53 | a granted lease covers the requested scope, is live until the TTL has passed and is expired then |
| Authorize.AuthorizeSpec | src/safe_boundary/authorize.py:24-53 | `Decide` on the node's `SafeBoundaryOf`; characterised by `GrantMeans`, `NoNetworkAlwaysDenied`, `DeployNeverGranted` and `ScopeViolationDiagnosed` |
| Authorize.AuthorizeRequest | src/safe_boundary/authorize.py:24-53 | computes the boundary and returns the specified decision; the template cache stays valid and gains exactly the entry of `T_max` for the node's goal |
| Authorize.NoNetworkAlwaysDenied | src/safe_boundary/authorize.py:24-71 | under `no-network`, `network:egress` is always denied with the no-network reason and advice |
| Authorize.DeployNeverGranted | src/safe_boundary/authorize.py:24-53 | `exec:deploy` is never granted |
| Authorize.ScopeViolationDiagnosed | src/safe_boundary/authorize.py:63-64 | a listed capability whose patterns miss the scope is denied as a scope violation |
| Authorize.GrantMeans | src/safe_boundary/authorize.py:24-53 | a grant implies the capability is in `T_max`, is not forbidden, has evidence, and the scope matches a pattern of the expanded scope that is unblocked and matches no forbidden pattern |
| Graph.SkipSpaces | src/safe_boundary/graph.py:58 | `\s+` consumes a maximal run of whitespace |
| Graph.TokenEnd | src/safe_boundary/graph.py:58 | `\S+` reaches the first whitespace or the end |
| Graph.WordPrefix | src/safe_boundary/graph.py:58 | `\w*` takes the longest prefix of word characters |
| Graph.GroupEnd | src/safe_boundary/graph.py:58 | the greedy first group ends at the last `.py::` position available |
| Graph.MatchAt | src/safe_boundary/graph.py:58 | the regular expression tried at one position; characterised by `MatchAtShape` |
| Graph.MatchAtShape | src/safe_boundary/graph.py:58 | a match at `i` starts with `FAILED`, the file is a non-space token ending in `.py`, and the name is an identifier |
| Graph.SearchFromLeftmost | src/safe_boundary/graph.py:58 | `re.search` returns the match at the leftmost position that has one, and nothing when no position does |
| Graph.FindFailedTest | src/safe_boundary/graph.py:58-61 | `re.search` of the pattern over the output; characterised by `SearchFromLeftmost`, `FoundFileIsPy` and `FindFailedTestExample` |
| Graph.FoundFileIsPy | src/safe_boundary/graph.py:58-61 | the file of a failing test found in the output ends in `.py` |
| Graph.FindFailedTestExample | src/safe_boundary/graph.py:58-61 | `FAILED a.py::t_1 x` yields file `a.py` and test `t_1` |
| Graph.AnchorsAfterRun | src/safe_boundary/graph.py:56-63 | the anchors after a run; characterised by `AnchorsAfterRunSpec` |
| Graph.NodeAfterRun | src/safe_boundary/graph.py:52-69 | the node after a run; characterised by `RunTestsSpec` |
| Graph.RunTestsEvents | src/safe_boundary/graph.py:54-70 | the events a run logs; characterised by `RunTestsSpec` |
| Graph.RunTestsSpec | src/safe_boundary/graph.py:51-70 | one evidence is appended, `test_pass` iff ok; the node completes iff ok and the goal is `fix_failing_test`, otherwise keeps its state; the log gets `RUN_TESTS` and then `TASK_COMPLETE` exactly on completion |
| Graph.AnchorsAfterRunSpec | src/safe_boundary/graph.py:56-64 | a failed run with a match sets `path` to the file and `test` to `file::name` and keeps the other anchors; otherwise the anchors are unchanged |
| Graph.NodeAfterPatch | src/safe_boundary/graph.py:72-75 | a patch appends one `diff` evidence and changes nothing else of the node |
| Graph.EvidenceKinds | src/safe_boundary/graph.py:86 | the view lists the evidence kinds in order |
| Graph.EventViews | src/safe_boundary/graph.py:91 | one view per event, in order, with its type, rid and payload |
| Graph.RequirementGraph.constructor | src/safe_boundary/graph.py:25-29 | a new graph has no nodes, no active node and an empty log |
| Graph.RequirementGraph.AddNode | src/safe_boundary/graph.py:31-33 | stores the node under its rid and makes it active; the log is unchanged |
| Graph.RequirementGraph.ActiveNode | src/safe_boundary/graph.py:35-38 | a node exists iff the active rid is set, non-empty and stored, and it is the stored node; under the graph invariant the returned node carries the active rid, and a set, non-empty active rid always yields a node |
| Graph.RequirementGraph.Log | src/safe_boundary/graph.py:40-41 | appends one event with the given time, type, rid and payload; nothing else changes |
| Graph.RequirementGraph.OnUserInstruction | src/safe_boundary/graph.py:45-49 | stores a new active node and logs `USER_INSTRUCTION` with the goal, the sorted constraints and the anchors |
| Graph.RequirementGraph.OnRunTests | src/safe_boundary/graph.py:51-70 | the node becomes the node after the run, and the log grows by the run's events |
| Graph.RequirementGraph.OnCodePatch | src/safe_boundary/graph.py:72-75 | the node gets the `diff` evidence and the log gets `CODE_PATCH` with the path and summary |
| Graph.RequirementGraph.Snapshot | src/safe_boundary/graph.py:78-92 | the view has the active rid, one node view per stored node, and the event views |

## Left out

- File system and parsing: `_list_py_files`, `_is_file_path`, `_imports_in_file` and `os.walk` become the `Repo` value. It holds the repository's files and each file's imported module names. Python parsing and I/O are not modelled.
- The module-level `_DEPS`/`_REV` graph is built once at import time in the source. `ExpandScope` builds it from the `Repo` it is given, which equals the source whenever the repository has not changed since import.
- Clock: `time.time()` becomes a `now` parameter of `Decide`, `Log` and the graph handlers. `Lease.is_expired` takes `now`. All events of one handler call share one time.
- `Decide`: `ttl_seconds` is an integer added to a real-valued clock. Floating-point rounding is not modelled.
- `match_path`: `fnmatch`'s `?` and `[...]` classes are not modelled, and patterns are assumed not to use them. `ScopeExpand.ExpandSetClean` relies on this: `*` is the only special character, so a pattern cannot match a literal `*`. Case normalisation (`os.path.normcase`) is the identity, as on POSIX.
- `Graph.MatchAtShape`: the regular expression's `\s` and `\w` are modelled on ASCII only. Python's Unicode classes are wider.
- Node and payload aliasing: nodes and event payloads are values. The source returns the same node object it stores, so later changes made through that reference are not captured. The node keeps its own copy of the anchors (`src/safe_boundary/graph.py:46`), but the `USER_INSTRUCTION` payload holds the caller's own `anchors` dictionary (`src/safe_boundary/graph.py:48`), and `snapshot` hands out event payloads by reference (`src/safe_boundary/graph.py:91`). A caller's later change to that dictionary therefore reaches the logged event in the source and not in the model.
- `Graph.RequirementGraph.OnRunTests` and `Graph.RequirementGraph.OnCodePatch` require the rid to be stored. The source raises `KeyError` otherwise.
- `Graph.RequirementGraph.ActiveNode` returns `None` where the source raises `RuntimeError`.
- Dictionary order: Python dictionaries keep insertion order and Dafny maps have none. `SafeBoundary.allowed` is built in the order of the capability bound (`src/safe_boundary/boundary.py:41`), and the snapshot's `nodes` follow insertion order (`src/safe_boundary/graph.py:90`). The model drops both orders. Nothing in the core reads them.
- `_build_dep_graph`: its nested loop over files and their imports is modelled as the map comprehension `ScopeExpand.BuildDepGraph`, not as a loop. The result is the same pair of maps of sets; the order in which the source adds entries changes nothing observable.
- `solve_tmax_knapsack`: the debug printing, `_dp_summary` and the `updated_any` flag only produce output and are left out.
- `TemplateSearch.SolveTmaxOptimal`: requires `C` to be duplicate-free, as `C_ALL` is. With repeats, the ordered output lists every copy of a chosen capability, and the budget can then be exceeded.
- `TemplateSearch.SolveTmaxKnapsack`: requires a non-negative budget and non-negative risks. With a negative budget the source's `max` of an empty list raises; negative risks are not part of any shipped configuration.
- `Templates.TMaxFixFailingTest`: states the risk as at most 7, the budget, not as its exact value.
- `T_MIN` is defined in `templates.py` but never used, so it is not modelled.
- `audit.py`, `extract.py`, `src/demo_agent/` and `run_demo.py` are outside the authorization core and are not part of this model.
- `ConstraintBound.forbidden_combinations` is carried as an always-empty list. The source never fills it or reads it.
