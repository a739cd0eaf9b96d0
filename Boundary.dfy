/**
 * `compute_safe_boundary`: capabilities from the template, scope patterns
 * from the expanded scope, minus the constraint bound. Patterns are filtered
 * by a keyword heuristic: the first `/`-segment of each forbidden path with
 * its `*`s removed; a pattern containing a non-empty keyword is dropped.
 */
module Boundary {
  import opened Strings
  import opened Models
  import opened TemplateSearch
  import opened Templates
  import opened ScopeExpand
  import opened Policy

  // ---------------------------------------------------------------------
  // Keywords of forbidden paths.
  // ---------------------------------------------------------------------

  /** Python's `fp.split("/")[0]`: the text before the first `/`. */
  function FirstSegment(fp: string): (r: string)
    ensures '/' !in r
    ensures StartsWith(fp, r)
    ensures |r| < |fp| ==> fp[|r|] == '/'
  {
    if |fp| == 0 || fp[0] == '/' then ""
    else [fp[0]] + FirstSegment(fp[1..])
  }

  /** Python's `s.replace("**", "")`: removes the pairs of stars, scanning from the left. */
  function DropDoubleStars(s: string): (r: string)
    ensures |r| <= |s|
    ensures forall ch :: ch in r ==> ch in s
  {
    if |s| == 0 then ""
    else if |s| >= 2 && s[..2] == "**" then DropDoubleStars(s[2..])
    else [s[0]] + DropDoubleStars(s[1..])
  }

  /** Python's `s.replace("*", "")`: removes every star. */
  function DropStars(s: string): (r: string)
    ensures '*' !in r
    ensures forall ch :: ch in r ==> ch in s
    ensures '*' !in s ==> r == s
  {
    if |s| == 0 then ""
    else if s[0] == '*' then DropStars(s[1..])
    else [s[0]] + DropStars(s[1..])
  }

  /**
   * What `replace("**", "")` does to a maximal run of `n` stars: it leaves
   * `n % 2` of them, and what follows the run is rewritten on its own.
   */
  lemma {:induction false} DropDoubleStarsRun(n: nat, rest: string)
    requires |rest| == 0 || rest[0] != '*'
    ensures DropDoubleStars(Stars(n) + rest) == Stars(n % 2) + DropDoubleStars(rest)
    decreases n
  {
    var s := Stars(n) + rest;
    if n >= 2 {
      var t := Stars(n - 2) + rest;
      assert Stars(n) == "*" + ("*" + Stars(n - 2));
      assert s[..2] == "**";
      assert s[2..] == t;
      DropDoubleStarsRun(n - 2, rest);
    } else if n == 1 {
      assert s == "*" + rest;
      assert s[1..] == rest;
      assert |s| >= 2 ==> s[1] == rest[0] && s[..2] != "**";
    } else {
      assert s == rest;
    }
  }

  /** A character other than `*` is kept by `replace("**", "")`. */
  lemma DropDoubleStarsKeeps(c: char, rest: string)
    requires c != '*'
    ensures DropDoubleStars([c] + rest) == [c] + DropDoubleStars(rest)
  {
    var s := [c] + rest;
    assert s[0] == c;
    assert |s| >= 2 ==> s[..2][0] == c && s[..2] != "**";
    assert s[1..] == rest;
  }

  /** `replace("*", "")` works piecewise: it distributes over concatenation. */
  lemma {:induction false} DropStarsConcat(a: string, b: string)
    ensures DropStars(a + b) == DropStars(a) + DropStars(b)
    decreases |a|
  {
    if |a| > 0 {
      assert (a + b)[0] == a[0] && (a + b)[1..] == a[1..] + b;
      DropStarsConcat(a[1..], b);
    } else {
      assert a + b == b;
    }
  }

  /** On one character, `replace("*", "")` drops a star and keeps anything else. */
  lemma DropStarsChar(c: char)
    ensures DropStars([c]) == (if c == '*' then "" else [c])
  {
  }

  /** The keyword of a forbidden path: no star and no slash left. */
  function Keyword(fp: string): (k: string)
    ensures '*' !in k && '/' !in k
  {
    DropStars(DropDoubleStars(FirstSegment(fp)))
  }

  lemma {:induction false} FirstSegmentOf(d: string, rest: string)
    requires '/' !in d
    ensures FirstSegment(d) == d
    ensures FirstSegment(d + "/" + rest) == d
    decreases |d|
  {
    if |d| > 0 {
      FirstSegmentOf(d[1..], rest);
      assert (d + "/" + rest)[1..] == d[1..] + "/" + rest;
      assert d == [d[0]] + d[1..];
    } else {
      assert d + "/" + rest == "/" + rest;
    }
  }

  lemma {:induction false} DropDoubleStarsNoStar(s: string)
    requires '*' !in s
    ensures DropDoubleStars(s) == s
    decreases |s|
  {
    if |s| > 0 {
      assert s[0] != '*';
      DropDoubleStarsNoStar(s[1..]);
      assert s == [s[0]] + s[1..];
    }
  }

  /** A keyword of a path whose first segment has no star is that segment. */
  lemma KeywordOfPlain(d: string, rest: string)
    requires '/' !in d && '*' !in d
    ensures Keyword(d) == d
    ensures Keyword(d + "/" + rest) == d
  {
    FirstSegmentOf(d, rest);
    DropDoubleStarsNoStar(d);
  }

  /**
   * The default organisation policy's keywords: `.env`, `secrets`, and none
   * for the third pattern, whose first segment is all stars.
   */
  lemma DefaultKeywords(org: OrgPolicy)
    requires org == DefaultOrgPolicy
    ensures Keyword(org.forbiddenPaths[0]) == ".env"
    ensures Keyword(org.forbiddenPaths[1]) == "secrets"
    ensures Keyword(org.forbiddenPaths[2]) == ""
  {
    KeywordOfPlain(org.forbiddenPaths[0], "");
    DefaultKeywordSecrets(org.forbiddenPaths[1]);
    DefaultKeywordPem(org.forbiddenPaths[2]);
  }

  lemma DefaultKeywordSecrets(p: string)
    requires p == "secrets/**"
    ensures Keyword(p) == "secrets"
  {
    var d := p[..7];
    assert d == "secrets";
    assert p == d + "/" + p[8..];
    KeywordOfPlain(d, p[8..]);
  }

  lemma DefaultKeywordPem(p: string)
    requires p == "**/*.pem"
    ensures Keyword(p) == ""
  {
    var d := p[..2];
    assert p == d + "/" + p[3..];
    FirstSegmentOf(d, p[3..]);
    assert d[..2] == "**";
    assert DropDoubleStars(d) == DropDoubleStars(d[2..]);
    assert d[2..] == "";
  }

  /** One iteration of the innermost loop: the keyword of `fp` blocks `sp`. */
  predicate KeyBlocks(fp: PathPattern, sp: string) {
    var key := Keyword(fp);
    |key| > 0 && IsSubstring(key, sp)
  }

  /** The `blocked` flag: some forbidden path's keyword blocks `sp`. */
  predicate Blocked(sp: string, forbidden: seq<PathPattern>) {
    exists k :: 0 <= k < |forbidden| && KeyBlocks(forbidden[k], sp)
  }

  /** An empty keyword filters nothing: a forbidden path whose first segment is all stars never blocks. */
  lemma EmptyKeywordBlocksNothing(fp: PathPattern, sp: string)
    requires Keyword(fp) == ""
    ensures !KeyBlocks(fp, sp)
  {
  }

  // ---------------------------------------------------------------------
  // The allowed scope and the composed boundary.
  // ---------------------------------------------------------------------

  /** `allowed_scope`: the patterns of `scope_bound` that are not blocked, in order. */
  function AllowedScope(scope: seq<string>, forbidden: seq<PathPattern>): seq<string>
  {
    if |scope| == 0 then []
    else
      var last := scope[|scope| - 1];
      AllowedScope(scope[..|scope| - 1], forbidden) + (if Blocked(last, forbidden) then [] else [last])
  }

  /** The filter keeps exactly the unblocked patterns of the scope bound. */
  lemma {:induction false} AllowedScopeMembers(scope: seq<string>, forbidden: seq<PathPattern>)
    ensures forall x :: x in AllowedScope(scope, forbidden) <==> x in scope && !Blocked(x, forbidden)
  {
    if |scope| > 0 {
      var init := scope[..|scope| - 1];
      AllowedScopeMembers(init, forbidden);
      assert scope == init + [scope[|scope| - 1]];
    }
  }

  /** The filter keeps the scope bound's order: a sorted scope bound gives a sorted result. */
  lemma {:induction false} AllowedScopeSorted(scope: seq<string>, forbidden: seq<PathPattern>)
    requires StrictlySorted(scope)
    ensures StrictlySorted(AllowedScope(scope, forbidden))
  {
    if |scope| > 0 {
      var init := scope[..|scope| - 1];
      var last := scope[|scope| - 1];
      assert StrictlySorted(init);
      AllowedScopeSorted(init, forbidden);
      AllowedScopeMembers(init, forbidden);
      var a := AllowedScope(init, forbidden);
      forall i | 0 <= i < |a| ensures StrLess(a[i], last) {
        assert a[i] in init;
        var k :| 0 <= k < |init| && init[k] == a[i];
        assert scope[k] == a[i];
      }
    }
  }

  /** The boundary `compute_safe_boundary` builds from the three bounds. */
  function Compose(capBound: seq<Capability>, scopeBound: seq<string>, cb: ConstraintBound): SafeBoundary {
    var allowedScope := AllowedScope(scopeBound, cb.forbiddenPaths);
    SafeBoundary(map c | c in capBound && c !in cb.forbiddenCapabilities && |allowedScope| > 0 :: allowedScope)
  }

  /**
   * A capability is a key exactly when the template offers it, it is not
   * forbidden, and the allowed scope is non-empty; every key maps to that
   * same non-empty list of unblocked scope patterns.
   */
  lemma ComposeSpec(capBound: seq<Capability>, scopeBound: seq<string>, cb: ConstraintBound)
    ensures var sb := Compose(capBound, scopeBound, cb);
      forall c :: c in sb.allowed <==>
        c in capBound && c !in cb.forbiddenCapabilities && |AllowedScope(scopeBound, cb.forbiddenPaths)| > 0
    ensures var sb := Compose(capBound, scopeBound, cb);
      forall c :: c in sb.allowed ==>
        sb.allowed[c] == AllowedScope(scopeBound, cb.forbiddenPaths) && |sb.allowed[c]| > 0 &&
        forall x :: x in sb.allowed[c] ==> x in scopeBound && !Blocked(x, cb.forbiddenPaths)
  {
    AllowedScopeMembers(scopeBound, cb.forbiddenPaths);
  }

  // ---------------------------------------------------------------------
  // The loops of compute_safe_boundary.
  // ---------------------------------------------------------------------

  /** The innermost loop, with its `break` on the first blocking keyword. */
  method IsBlocked(sp: string, forbidden: seq<PathPattern>) returns (blocked: bool)
    ensures blocked == Blocked(sp, forbidden)
  {
    blocked := false;
    var k := 0;
    while k < |forbidden|
      invariant 0 <= k <= |forbidden|
      invariant forall j :: 0 <= j < k ==> !KeyBlocks(forbidden[j], sp)
    {
      var key := Keyword(forbidden[k]);
      if |key| > 0 && IsSubstring(key, sp) {
        blocked := true;
        break;
      }
      k := k + 1;
    }
  }

  /** The middle loop: build `allowed_scope` by appending the unblocked patterns. */
  method FilterScope(scopeBound: seq<string>, forbidden: seq<PathPattern>) returns (allowedScope: seq<string>)
    ensures allowedScope == AllowedScope(scopeBound, forbidden)
  {
    allowedScope := [];
    var i := 0;
    while i < |scopeBound|
      invariant 0 <= i <= |scopeBound|
      invariant allowedScope == AllowedScope(scopeBound[..i], forbidden)
    {
      var sp := scopeBound[i];
      var blocked := IsBlocked(sp, forbidden);
      assert scopeBound[..i + 1][..i] == scopeBound[..i];
      if !blocked {
        allowedScope := allowedScope + [sp];
      }
      i := i + 1;
    }
    assert scopeBound[..i] == scopeBound;
  }

  /** The outer loop: one `allowed[c]` per permitted capability with a non-empty scope. */
  method ComposeLoop(capBound: seq<Capability>, scopeBound: seq<string>, cb: ConstraintBound)
    returns (allowed: map<Capability, seq<PathPattern>>)
    ensures SafeBoundary(allowed) == Compose(capBound, scopeBound, cb)
  {
    allowed := map[];
    var i := 0;
    ghost var fixedScope := AllowedScope(scopeBound, cb.forbiddenPaths);
    while i < |capBound|
      invariant 0 <= i <= |capBound|
      invariant allowed == map c | c in capBound[..i] && c !in cb.forbiddenCapabilities && |fixedScope| > 0 :: fixedScope
    {
      var c := capBound[i];
      assert capBound[..i + 1] == capBound[..i] + [c];
      if c !in cb.forbiddenCapabilities {
        var allowedScope := FilterScope(scopeBound, cb.forbiddenPaths);
        if |allowedScope| > 0 {
          allowed := allowed[c := allowedScope];
        }
      }
      i := i + 1;
    }
    assert capBound[..i] == capBound;
  }

  // ---------------------------------------------------------------------
  // compute_safe_boundary.
  // ---------------------------------------------------------------------

  /** The boundary of node `r`: template caps, the expanded scope, and the node's constraints. */
  ghost function SafeBoundaryOf(r: RequirementNode, org: OrgPolicy, repo: Repo): SafeBoundary {
    Compose(
      TMaxSpec(r.goal),
      SortedOf(ExpandSet(r.anchors, org, DefaultDepthLimit, repo)),
      ConstraintBoundOf(r.constraints, org))
  }

  /** `compute_safe_boundary(r, org)`, reading the template cache. */
  method ComputeSafeBoundary(tc: TemplateCache, r: RequirementNode, org: OrgPolicy, repo: Repo)
    returns (sb: SafeBoundary)
    requires tc.Valid()
    modifies tc
    ensures tc.Valid()
    ensures tc.cache == old(tc.cache)[r.goal := TMaxSpec(r.goal)]
    ensures sb == SafeBoundaryOf(r, org, repo)
  {
    var capBound := tc.TMax(r.goal);
    var scopeBound := ExpandScope(r.anchors, org, DefaultDepthLimit, repo);
    var cb := BuildConstraintBound(r.constraints, org);
    var allowed := ComposeLoop(capBound, scopeBound, cb);
    sb := SafeBoundary(allowed);
  }

  /** One permitted capability: offered by the template, not forbidden, and every pattern from the expanded scope, unblocked and clean. */
  lemma AllowedKey(r: RequirementNode, org: OrgPolicy, repo: Repo, c: Capability)
    requires c in SafeBoundaryOf(r, org, repo).allowed
    ensures c in TMaxSpec(r.goal) && c !in ConstraintBoundOf(r.constraints, org).forbiddenCapabilities
    ensures forall x :: x in SafeBoundaryOf(r, org, repo).allowed[c] ==>
      x in ExpandSet(r.anchors, org, DefaultDepthLimit, repo) && !Blocked(x, org.forbiddenPaths) &&
      !AnyMatch(x, org.forbiddenPaths)
  {
    var scopeBound := SortedOf(ExpandSet(r.anchors, org, DefaultDepthLimit, repo));
    var cb := ConstraintBoundOf(r.constraints, org);
    AllowedScopeMembers(scopeBound, cb.forbiddenPaths);
    ExpandSetClean(r.anchors, org, DefaultDepthLimit, repo);
  }

  /**
   * What the boundary of a node promises: no forbidden capability (so never
   * `exec:deploy`, and never `network:egress` under `no-network`); only
   * capabilities of the template; every list non-empty and the same for all
   * capabilities, sorted, drawn from the expanded scope, free of keywords and
   * matching no forbidden pattern.
   */
  lemma SafeBoundaryOfSpec(r: RequirementNode, org: OrgPolicy, repo: Repo)
    ensures var sb := SafeBoundaryOf(r, org, repo);
      ExecDeploy !in sb.allowed &&
      (NoNetwork in r.constraints ==> NetworkEgress !in sb.allowed)
    ensures var sb := SafeBoundaryOf(r, org, repo);
      forall c :: c in sb.allowed ==> c in TMaxSpec(r.goal) && c !in HardBan
    ensures var sb := SafeBoundaryOf(r, org, repo);
      forall c, d :: c in sb.allowed && d in sb.allowed ==> sb.allowed[c] == sb.allowed[d]
    ensures var sb := SafeBoundaryOf(r, org, repo);
      forall c :: c in sb.allowed ==>
        |sb.allowed[c]| > 0 && StrictlySorted(sb.allowed[c]) &&
        forall x :: x in sb.allowed[c] ==>
          x in ExpandSet(r.anchors, org, DefaultDepthLimit, repo) && !Blocked(x, org.forbiddenPaths) &&
          !AnyMatch(x, org.forbiddenPaths)
  {
    var scopeBound := SortedOf(ExpandSet(r.anchors, org, DefaultDepthLimit, repo));
    var cb := ConstraintBoundOf(r.constraints, org);
    ExpandSetClean(r.anchors, org, DefaultDepthLimit, repo);
    ComposeSpec(TMaxSpec(r.goal), scopeBound, cb);
    AllowedScopeSorted(scopeBound, cb.forbiddenPaths);
    TMaxNoHardBan(r.goal);
  }
}
