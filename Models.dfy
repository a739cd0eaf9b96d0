/**
 * The shared data model of the Safe-Boundary engine (src/safe_boundary/models.py):
 * evidence, requirement nodes, requests, leases, organisation policy, the
 * constraint bound, the safe boundary with its `allows` check, and the glob
 * matcher `match_path` that every scope decision goes through.
 */
module Models {
  import opened Strings

  datatype Option<T> = None | Some(value: T)

  type Capability = string
  type PathPattern = string

  /** A record of tool output (test logs, diffs) bound to a requirement. */
  datatype Evidence = Evidence(kind: string, payload: map<string, string>)

  /** The source keeps the state as one of the strings "active", "completed", "stale". */
  datatype NodeState = Active | Completed | Stale

  function StateName(s: NodeState): (r: string)
    ensures r in {"active", "completed", "stale"}
    ensures r == "active" <==> s == Active
  {
    match s
    case Active => "active"
    case Completed => "completed"
    case Stale => "stale"
  }

  /** The task context: goal, anchors, constraints, state and the evidence gathered so far. */
  datatype RequirementNode = RequirementNode(
    rid: string,
    goal: string,
    anchors: map<string, string>,
    constraints: set<string>,
    state: NodeState,
    evidences: seq<Evidence>)

  /** The dataclass constructor with its defaults: a node starts active with no evidence. */
  function NewRequirementNode(rid: string, goal: string, anchors: map<string, string>, constraints: set<string>): (n: RequirementNode)
    ensures n.rid == rid && n.goal == goal && n.anchors == anchors && n.constraints == constraints
    ensures n.state == Active && n.evidences == []
  {
    RequirementNode(rid, goal, anchors, constraints, Active, [])
  }

  /** One permission ask: a capability applied to a scope (a path or a command string). */
  datatype Request = Request(capability: Capability, scope: string)

  /** A time-boxed grant. `now` stands for the wall clock the source reads. */
  datatype Lease = Lease(
    capability: Capability,
    scopePatterns: seq<PathPattern>,
    expiresAt: real,
    boundRid: string,
    evidenceSnapshot: seq<Evidence>)
  {
    predicate IsExpired(now: real) {
      now >= expiresAt
    }
  }

  /** Expiry is the boundary instant and every later instant, and never an earlier one. */
  lemma LeaseExpiry(l: Lease, now: real, later: real)
    requires now <= later
    ensures l.IsExpired(l.expiresAt)
    ensures l.IsExpired(now) ==> l.IsExpired(later)
    ensures now < l.expiresAt ==> !l.IsExpired(now)
  {
  }

  datatype OrgPolicy = OrgPolicy(forbiddenPaths: seq<PathPattern>)

  /** `OrgPolicy()` with its default sensitive patterns. */
  const DefaultOrgPolicy: OrgPolicy := OrgPolicy([".env", "secrets/**", "**/*.pem"])

  /** Forbidden capabilities and paths; the combinations list is reserved and always empty. */
  datatype ConstraintBound = ConstraintBound(
    forbiddenCapabilities: set<Capability>,
    forbiddenPaths: seq<PathPattern>,
    forbiddenCombinations: seq<(Capability, PathPattern)>)

  const EmptyConstraintBound: ConstraintBound := ConstraintBound({}, [], [])

  /** The permitted capability -> scope-pattern mapping. */
  datatype SafeBoundary = SafeBoundary(allowed: map<Capability, seq<PathPattern>>)
  {
    /** `allows`: the capability is a key and some of its patterns matches the scope. */
    predicate Allows(req: Request)
      ensures Allows(req) <==>
        req.capability in allowed &&
        exists i :: 0 <= i < |allowed[req.capability]| && MatchPath(req.scope, allowed[req.capability][i])
    {
      req.capability in allowed && AnyMatch(req.scope, allowed[req.capability])
    }
  }

  /** Python's `any(match_path(path, p) for p in patterns)`. */
  predicate AnyMatch(path: string, patterns: seq<PathPattern>)
    ensures AnyMatch(path, patterns) <==> exists i :: 0 <= i < |patterns| && MatchPath(path, patterns[i])
  {
    if |patterns| == 0 then false
    else
      var rest := AnyMatch(path, patterns[1..]);
      assert rest <==> exists i :: 1 <= i < |patterns| && MatchPath(path, patterns[i]) by {
        if rest {
          var i :| 0 <= i < |patterns| - 1 && MatchPath(path, patterns[1..][i]);
          assert patterns[1..][i] == patterns[i + 1];
        }
        if exists i :: 1 <= i < |patterns| && MatchPath(path, patterns[i]) {
          var i :| 1 <= i < |patterns| && MatchPath(path, patterns[i]);
          assert patterns[1..][i - 1] == patterns[i];
        }
      }
      MatchPath(path, patterns[0]) || rest
  }

  // ---------------------------------------------------------------------
  // match_path: separator normalisation, `**` -> `*`, then fnmatch with
  // `*` as "any character sequence" (it crosses `/`).
  // ---------------------------------------------------------------------

  /** `s.replace("\\", "/")`. */
  function NormalizeSlashes(s: string): string {
    ReplaceChar(s, '\\', '/')
  }

  /** `s.replace("**", "*")`: leftmost, non-overlapping replacement. */
  function CollapseDoubleStar(s: string): (r: string)
    ensures |r| <= |s|
  {
    if |s| >= 2 && s[0] == '*' && s[1] == '*' then "*" + CollapseDoubleStar(s[2..])
    else if |s| == 0 then ""
    else [s[0]] + CollapseDoubleStar(s[1..])
  }

  /**
   * What `replace("**", "*")` does to a maximal run of `n` stars: it leaves
   * `(n + 1) / 2` of them, and what follows the run is rewritten on its own.
   */
  lemma {:induction false} CollapseRun(n: nat, rest: string)
    requires |rest| == 0 || rest[0] != '*'
    ensures CollapseDoubleStar(Stars(n) + rest) == Stars((n + 1) / 2) + CollapseDoubleStar(rest)
    decreases n
  {
    var s := Stars(n) + rest;
    if n >= 2 {
      var t := Stars(n - 2) + rest;
      assert Stars(n) == "*" + ("*" + Stars(n - 2));
      assert s[0] == '*' && s[1] == '*';
      assert s[2..] == t;
      CollapseRun(n - 2, rest);
      assert (n + 1) / 2 == (n - 1) / 2 + 1;
      assert Stars((n + 1) / 2) == "*" + Stars((n - 1) / 2);
    } else if n == 1 {
      assert s == "*" + rest;
      assert s[1..] == rest;
      assert |s| >= 2 ==> s[1] == rest[0];
    } else {
      assert s == rest;
    }
  }

  /** A character other than `*` is kept by `replace("**", "*")`. */
  lemma CollapseKeeps(c: char, rest: string)
    requires c != '*'
    ensures CollapseDoubleStar([c] + rest) == [c] + CollapseDoubleStar(rest)
  {
    assert ([c] + rest)[1..] == rest;
  }

  /** fnmatch restricted to literal characters and `*`, anchored at both ends. */
  predicate Glob(s: string, p: string)
    decreases |s| + |p|
  {
    if |p| == 0 then |s| == 0
    else if p[0] == '*' then Glob(s, p[1..]) || (|s| > 0 && Glob(s[1..], p))
    else |s| > 0 && s[0] == p[0] && Glob(s[1..], p[1..])
  }

  predicate MatchPath(path: string, pattern: string) {
    Glob(NormalizeSlashes(path), CollapseDoubleStar(NormalizeSlashes(pattern)))
  }

  predicate NoStar(p: string) {
    forall i :: 0 <= i < |p| ==> p[i] != '*'
  }

  /** A leading star whose rest matches the empty string matches every string. */
  lemma {:induction false} GlobStarEatsAll(s: string, p: string)
    requires |p| > 0 && p[0] == '*' && Glob("", p[1..])
    ensures Glob(s, p)
    decreases |s|
  {
    if |s| > 0 {
      GlobStarEatsAll(s[1..], p);
    }
  }

  /**
   * A pattern that matches `a` followed by literal stars matches `a` followed
   * by anything: the only pattern characters that can match a `*` of the
   * text are wildcards.
   */
  lemma {:induction false} GlobStarTail(a: string, t: string, b: string, p: string)
    requires |t| > 0 && forall i :: 0 <= i < |t| ==> t[i] == '*'
    requires Glob(a + t, p)
    ensures Glob(a + b, p)
    decreases |a| + |t| + |p|
  {
    var s := a + t;
    assert |p| > 0;
    if p[0] == '*' {
      if Glob(s, p[1..]) {
        GlobStarTail(a, t, b, p[1..]);
      } else if |a| > 0 {
        assert s[1..] == a[1..] + t;
        GlobStarTail(a[1..], t, b, p);
        assert (a + b)[1..] == a[1..] + b;
      } else if |t| > 1 {
        assert s[1..] == a + t[1..];
        GlobStarTail(a, t[1..], b, p);
      } else {
        assert s[1..] == "";
        GlobStarEatsAll(a + b, p);
      }
    } else {
      assert |a| > 0;
      assert s[1..] == a[1..] + t;
      GlobStarTail(a[1..], t, b, p[1..]);
      assert (a + b)[1..] == a[1..] + b;
    }
  }

  /** A pattern that matches `u**` as a path matches every path that starts with `u`. */
  lemma MatchPathStarTail(u: string, v: string, pattern: string)
    ensures MatchPath(u + "**", pattern) ==> MatchPath(u + v, pattern)
  {
    ReplaceCharConcat(u, "**", '\\', '/');
    ReplaceCharConcat(u, v, '\\', '/');
    var t := ReplaceChar("**", '\\', '/');
    assert t == "**";
    if MatchPath(u + "**", pattern) {
      GlobStarTail(NormalizeSlashes(u), t, NormalizeSlashes(v), CollapseDoubleStar(NormalizeSlashes(pattern)));
    }
  }

  /** If some pattern matches `u**`, that pattern matches every path starting with `u`. */
  lemma AnyMatchStarTail(u: string, v: string, patterns: seq<PathPattern>)
    ensures AnyMatch(u + "**", patterns) ==> AnyMatch(u + v, patterns)
  {
    if AnyMatch(u + "**", patterns) {
      var i :| 0 <= i < |patterns| && MatchPath(u + "**", patterns[i]);
      MatchPathStarTail(u, v, patterns[i]);
    }
  }

  /** A pattern without `*` matches exactly itself. */
  lemma {:induction false} GlobLiteral(s: string, p: string)
    requires NoStar(p)
    ensures Glob(s, p) <==> s == p
    decreases |p|
  {
    if |p| > 0 && |s| > 0 {
      GlobLiteral(s[1..], p[1..]);
      assert s == [s[0]] + s[1..] && p == [p[0]] + p[1..];
    }
  }

  /** A lone `*` matches every string, `/` included. */
  lemma {:induction false} GlobStarAll(s: string)
    ensures Glob(s, "*")
    decreases |s|
  {
    assert "*"[1..] == "";
    if |s| > 0 { GlobStarAll(s[1..]); }
  }

  /** `q*` with a literal `q` matches exactly the strings that start with `q`. */
  lemma {:induction false} GlobPrefixStar(s: string, q: string)
    requires NoStar(q)
    ensures Glob(s, q + "*") <==> StartsWith(s, q)
    decreases |q|
  {
    if |q| == 0 {
      assert q + "*" == "*";
      GlobStarAll(s);
    } else {
      assert (q + "*")[1..] == q[1..] + "*";
      if |s| > 0 {
        GlobPrefixStar(s[1..], q[1..]);
        assert StartsWith(s, q) <==> s[0] == q[0] && StartsWith(s[1..], q[1..]) by {
          if StartsWith(s, q) { assert s[1..][..|q| - 1] == s[..|q|][1..]; }
          if s[0] == q[0] && StartsWith(s[1..], q[1..]) {
            assert s[..|q|] == [s[0]] + s[1..][..|q| - 1];
          }
        }
      }
    }
  }

  /** Two leading stars match as one. */
  lemma {:induction false} GlobDoubleStarLead(s: string, r: string)
    ensures Glob(s, "**" + r) == Glob(s, "*" + r)
    decreases |s|
  {
    assert ("**" + r)[1..] == "*" + r;
    assert ("*" + r)[1..] == r;
    if |s| > 0 { GlobDoubleStarLead(s[1..], r); }
  }

  /** `*X` and `*Y` agree whenever `X` and `Y` agree on every string. */
  lemma {:induction false} GlobStarCongruence(s: string, x: string, y: string)
    requires forall t :: Glob(t, x) == Glob(t, y)
    ensures Glob(s, "*" + x) == Glob(s, "*" + y)
    decreases |s|
  {
    assert ("*" + x)[1..] == x && ("*" + y)[1..] == y;
    if |s| > 0 { GlobStarCongruence(s[1..], x, y); }
  }

  /** Replacing `**` by `*` never changes what a pattern matches. */
  lemma {:induction false} GlobCollapse(p: string)
    ensures forall s :: Glob(s, CollapseDoubleStar(p)) == Glob(s, p)
    decreases |p|
  {
    if |p| >= 2 && p[0] == '*' && p[1] == '*' {
      GlobCollapse(p[2..]);
      var c := CollapseDoubleStar(p[2..]);
      forall s ensures Glob(s, CollapseDoubleStar(p)) == Glob(s, p) {
        assert p == "**" + p[2..];
        GlobStarCongruence(s, c, p[2..]);
        GlobDoubleStarLead(s, p[2..]);
      }
    } else if |p| > 0 {
      GlobCollapse(p[1..]);
      var c := CollapseDoubleStar(p[1..]);
      assert CollapseDoubleStar(p) == [p[0]] + c;
      forall s ensures Glob(s, CollapseDoubleStar(p)) == Glob(s, p) {
        assert p == [p[0]] + p[1..];
        if p[0] == '*' {
          GlobStarCongruence(s, c, p[1..]);
        } else if |s| > 0 {
          assert ([p[0]] + c)[1..] == c;
        }
      }
    }
  }

  /** Normalising separators commutes with collapsing stars. */
  lemma {:induction false} NormalizeCollapseCommute(p: string)
    ensures NormalizeSlashes(CollapseDoubleStar(p)) == CollapseDoubleStar(NormalizeSlashes(p))
    decreases |p|
  {
    var n := NormalizeSlashes(p);
    if |p| >= 2 && p[0] == '*' && p[1] == '*' {
      NormalizeCollapseCommute(p[2..]);
      assert n[2..] == NormalizeSlashes(p[2..]);
      assert NormalizeSlashes("*" + CollapseDoubleStar(p[2..])) == "*" + NormalizeSlashes(CollapseDoubleStar(p[2..]));
    } else if |p| > 0 {
      NormalizeCollapseCommute(p[1..]);
      assert n[1..] == NormalizeSlashes(p[1..]);
      assert NormalizeSlashes([p[0]] + CollapseDoubleStar(p[1..])) == [n[0]] + NormalizeSlashes(CollapseDoubleStar(p[1..]));
    }
  }

  /** `\` and `/` are the same separator to `match_path`, in the path and in the pattern. */
  lemma MatchPathSeparatorBlind(path: string, pattern: string)
    ensures MatchPath(path, pattern) == MatchPath(NormalizeSlashes(path), NormalizeSlashes(pattern))
  {
    ReplaceCharIdempotent(path, '\\', '/');
    ReplaceCharIdempotent(pattern, '\\', '/');
  }

  /** Pre-collapsing `**` in the pattern makes no difference to `match_path`. */
  lemma MatchPathDoubleStar(path: string, pattern: string)
    ensures MatchPath(path, pattern) == MatchPath(path, CollapseDoubleStar(pattern))
  {
    var n := NormalizeSlashes(pattern);
    NormalizeCollapseCommute(pattern);
    GlobCollapse(CollapseDoubleStar(n));
  }

  // A directory pattern d + "/**" (with d free of stars and backslashes) matches
  // exactly the paths that, once separators are normalised, lie under d + "/".
  lemma MatchPathDirWildcard(path: string, d: string)
    requires NoStar(d) && '\\' !in d
    ensures MatchPath(path, d + "/**") <==> StartsWith(NormalizeSlashes(path), d + "/")
  {
    var pat := d + "/**";
    assert NormalizeSlashes(pat) == pat;
    MatchPathDoubleStar(path, pat);
    assert CollapseDoubleStar("**") == "*" by {
      assert "**"[2..] == "";
    }
    CollapseLiteralPrefix(d + "/", "**");
    assert pat == (d + "/") + "**";
    assert CollapseDoubleStar(pat) == (d + "/") + "*";
    assert NormalizeSlashes((d + "/") + "*") == (d + "/") + "*";
    GlobCollapse((d + "/") + "*");
    GlobPrefixStar(NormalizeSlashes(path), d + "/");
  }

  /** Collapsing passes over a star-free prefix unchanged. */
  lemma {:induction false} CollapseLiteralPrefix(q: string, r: string)
    requires NoStar(q)
    ensures CollapseDoubleStar(q + r) == q + CollapseDoubleStar(r)
    decreases |q|
  {
    if |q| > 0 {
      assert q[0] != '*';
      assert (q + r)[0] == q[0];
      assert (q + r)[1..] == q[1..] + r;
      assert NoStar(q[1..]) by {
        forall i | 0 <= i < |q[1..]| ensures q[1..][i] != '*' { assert q[1..][i] == q[i + 1]; }
      }
      CollapseLiteralPrefix(q[1..], r);
      assert CollapseDoubleStar(q + r) == [q[0]] + CollapseDoubleStar(q[1..] + r);
      assert q == [q[0]] + q[1..];
      assert [q[0]] + (q[1..] + CollapseDoubleStar(r)) == q + CollapseDoubleStar(r);
    } else {
      assert q + r == r;
    }
  }

  /** A string without `\` is its own normal form. */
  lemma NormalizeNoBackslash(s: string)
    requires '\\' !in s
    ensures NormalizeSlashes(s) == s
  {
  }

  // For a path without backslashes, d + "/**" matches it exactly when it lies under d + "/".
  lemma MatchPathDirWildcardPlain(path: string, d: string)
    requires '\\' !in path && '\\' !in d && NoStar(d)
    ensures MatchPath(path, d + "/**") <==> StartsWith(path, d + "/")
  {
    NormalizeNoBackslash(path);
    MatchPathDirWildcard(path, d);
  }

  /** `**` reaches every file under a directory, and not a sibling directory. */
  lemma MatchPathExampleDirs()
    ensures MatchPath("repo_sim/src/auth/login.py", "repo_sim/src/auth/**")
    ensures !MatchPath("repo_sim/src/auth/login.py", "repo_sim/tests/**")
  {
    MatchPathDirWildcardPlain("repo_sim/src/auth/login.py", "repo_sim/src/auth");
    assert "repo_sim/src/auth" + "/**" == "repo_sim/src/auth/**";
    MatchPathDirWildcardPlain("repo_sim/src/auth/login.py", "repo_sim/tests");
    assert "repo_sim/tests" + "/**" == "repo_sim/tests/**";
    assert "repo_sim/src/auth/login.py"[9] != ("repo_sim/tests" + "/")[9];
  }

  /** `*` matches one segment, and, as fnmatch does, several segments too. */
  lemma MatchPathExampleStarCrossesSlash()
    ensures MatchPath("a/b", "a/*")
    ensures MatchPath("a/b/c", "a/*")
  {
    NormalizeNoBackslash("a/b");
    NormalizeNoBackslash("a/b/c");
    NormalizeNoBackslash("a/*");
    assert CollapseDoubleStar("a/*") == "a/*" by {
      CollapseLiteralPrefix("a/", "*");
      assert "a/*" == "a/" + "*";
    }
    GlobPrefixStar("a/b", "a/");
    GlobPrefixStar("a/b/c", "a/");
  }
}
