/**
 * `authorize`: grant a request iff it lies inside the node's safe boundary
 * and the node's evidence supports it. A grant carries a lease; a denial
 * carries a diagnosis and suggestions. Both carry the boundary.
 */
module Authorize {
  import opened Strings
  import opened Models
  import opened Templates
  import opened ScopeExpand
  import opened Policy
  import opened Boundary
  import opened EvidenceGate

  /** The default `ttl_seconds`. */
  const DefaultTtl: int := 300

  datatype Decision = Decision(
    ok: bool,
    lease: Option<Lease>,
    reason: Option<string>,
    suggestion: Option<seq<string>>,
    safeBoundary: Option<SafeBoundary>)

  // ---------------------------------------------------------------------
  // The texts of the diagnoses and suggestions.
  // ---------------------------------------------------------------------

  const NoNetworkReason: string := "拒绝：违反约束 no-network（network:egress 被硬禁止）"
  const EvidenceReason: string := "需要更多证据支持该请求（EvidenceSupported=false）"

  function CapabilityReason(req: Request, r: RequirementNode): string {
    "拒绝：能力越界（" + req.capability + " 不在当前 goal=" + r.goal + " 的安全能力范围内）"
  }

  function ScopeReason(req: Request): string {
    "拒绝：作用域越界（" + req.scope + " 不在 " + req.capability + " 的允许作用域内）"
  }

  const NoNetworkSuggestions: seq<string> := [
    "如果确实需要联网：请用户解除 no-network 约束，或创建新需求节点显式升级权限",
    "优先尝试离线方案（使用本地缓存/锁文件/镜像）"]
  const CapabilitySuggestions: seq<string> := ["检查是否需要该能力完成任务", "考虑拆分任务并创建新需求节点"]
  const ScopeSuggestions: seq<string> := ["检查该路径是否与当前 anchors 相关", "扩展 anchors 以包含该路径（或创建新需求）"]
  const EvidenceSuggestions: seq<string> := ["运行相关测试/构建以收集证据", "或补充 anchors/上下文以缩小作用域"]

  // ---------------------------------------------------------------------
  // _diagnose_violation and _suggest.
  // ---------------------------------------------------------------------

  /** The three kinds of boundary violation `_diagnose_violation` tells apart. */
  datatype Violation = NoNetworkViolation | CapabilityViolation | ScopeViolation

  /** Which violation a request outside the boundary is. */
  function Diagnose(req: Request, sb: SafeBoundary, r: RequirementNode): (v: Violation)
    ensures v == ScopeViolation <==> req.capability in sb.allowed
    ensures v == NoNetworkViolation <==>
      req.capability !in sb.allowed && req.capability == NetworkEgress && NoNetwork in r.constraints
  {
    if req.capability !in sb.allowed then
      if req.capability == NetworkEgress && NoNetwork in r.constraints then NoNetworkViolation
      else CapabilityViolation
    else ScopeViolation
  }

  /** `_diagnose_violation`: the text for the violation. */
  function DiagnoseViolation(req: Request, sb: SafeBoundary, r: RequirementNode): (s: string)
    ensures |s| > 0
  {
    match Diagnose(req, sb, r)
    case NoNetworkViolation => NoNetworkReason
    case CapabilityViolation => CapabilityReason(req, r)
    case ScopeViolation => ScopeReason(req)
  }

  /** `_suggest`: the no-network advice is checked first, before the key test. */
  function Suggest(req: Request, sb: SafeBoundary, r: RequirementNode): (s: seq<string>)
    ensures |s| == 2
  {
    if req.capability == NetworkEgress && NoNetwork in r.constraints then NoNetworkSuggestions
    else if req.capability !in sb.allowed then CapabilitySuggestions
    else ScopeSuggestions
  }

  /**
   * The suggestions follow the diagnosis, except that a `network:egress`
   * request under `no-network` always gets the no-network advice, even when
   * the boundary lists that capability and the violation is one of scope.
   */
  lemma SuggestFollowsDiagnosis(req: Request, sb: SafeBoundary, r: RequirementNode)
    ensures Diagnose(req, sb, r) == NoNetworkViolation ==> Suggest(req, sb, r) == NoNetworkSuggestions
    ensures Diagnose(req, sb, r) == CapabilityViolation ==> Suggest(req, sb, r) == CapabilitySuggestions
    ensures Diagnose(req, sb, r) == ScopeViolation ==>
      Suggest(req, sb, r) == (if req.capability == NetworkEgress && NoNetwork in r.constraints
                              then NoNetworkSuggestions else ScopeSuggestions)
  {
  }

  // ---------------------------------------------------------------------
  // authorize.
  // ---------------------------------------------------------------------

  /** The decision for a request against an already computed boundary; `now` stands for the clock. */
  function Decide(req: Request, r: RequirementNode, sb: SafeBoundary, now: real, ttl: int): (d: Decision)
    ensures d.safeBoundary == Some(sb)
    ensures d.ok <==> sb.Allows(req) && EvidenceSupported(req, r, r.evidences)
    ensures !d.ok ==>
      d.lease == None && d.reason.Some? && |d.reason.value| > 0 &&
      d.suggestion.Some? && |d.suggestion.value| > 0
    ensures !sb.Allows(req) ==>
      d.reason == Some(DiagnoseViolation(req, sb, r)) && d.suggestion == Some(Suggest(req, sb, r))
    ensures sb.Allows(req) && !d.ok ==>
      d.reason == Some(EvidenceReason) && d.suggestion == Some(EvidenceSuggestions)
    ensures d.ok ==>
      d.reason == None && d.suggestion == None &&
      d.lease == Some(Lease(req.capability, sb.allowed[req.capability], now + ttl as real, r.rid, r.evidences))
  {
    if !sb.Allows(req) then
      Decision(false, None, Some(DiagnoseViolation(req, sb, r)), Some(Suggest(req, sb, r)), Some(sb))
    else if !EvidenceSupported(req, r, r.evidences) then
      Decision(false, None, Some(EvidenceReason), Some(EvidenceSuggestions), Some(sb))
    else
      var patterns := if req.capability in sb.allowed then sb.allowed[req.capability] else [];
      var lease := Lease(req.capability, patterns, now + ttl as real, r.rid, r.evidences);
      Decision(true, Some(lease), None, None, Some(sb))
  }

  /** A lease covers the requested scope, is live until `ttl` has passed, and expires then. */
  lemma GrantedLease(req: Request, r: RequirementNode, sb: SafeBoundary, now: real, ttl: int)
    requires Decide(req, r, sb, now, ttl).ok
    ensures var l := Decide(req, r, sb, now, ttl).lease.value;
      l.capability == req.capability && l.boundRid == r.rid && l.evidenceSnapshot == r.evidences &&
      AnyMatch(req.scope, l.scopePatterns) &&
      (ttl > 0 ==> !l.IsExpired(now)) && l.IsExpired(now + ttl as real)
  {
  }

  /** `authorize(req, r, org, ttl_seconds)` as a value, over the node's boundary. */
  ghost function AuthorizeSpec(req: Request, r: RequirementNode, org: OrgPolicy, repo: Repo, now: real, ttl: int): Decision {
    Decide(req, r, SafeBoundaryOf(r, org, repo), now, ttl)
  }

  /** `authorize`: compute the boundary, then decide. */
  method AuthorizeRequest(tc: TemplateCache, req: Request, r: RequirementNode, org: OrgPolicy, repo: Repo, now: real, ttl: int)
    returns (d: Decision)
    requires tc.Valid()
    modifies tc
    ensures tc.Valid()
    ensures tc.cache == old(tc.cache)[r.goal := TMaxSpec(r.goal)]
    ensures d == AuthorizeSpec(req, r, org, repo, now, ttl)
  {
    var sb := ComputeSafeBoundary(tc, r, org, repo);
    d := Decide(req, r, sb, now, ttl);
  }

  /** Under `no-network`, `network:egress` is denied with the no-network reason, whatever else holds. */
  lemma NoNetworkAlwaysDenied(req: Request, r: RequirementNode, org: OrgPolicy, repo: Repo, now: real, ttl: int)
    requires NoNetwork in r.constraints && req.capability == NetworkEgress
    ensures var d := AuthorizeSpec(req, r, org, repo, now, ttl);
      !d.ok && d.lease == None && d.reason == Some(NoNetworkReason) && d.suggestion == Some(NoNetworkSuggestions)
  {
    SafeBoundaryOfSpec(r, org, repo);
  }

  /** `exec:deploy` is never granted. */
  lemma DeployNeverGranted(req: Request, r: RequirementNode, org: OrgPolicy, repo: Repo, now: real, ttl: int)
    requires req.capability == ExecDeploy
    ensures !AuthorizeSpec(req, r, org, repo, now, ttl).ok
  {
    SafeBoundaryOfSpec(r, org, repo);
  }

  /** A listed capability whose patterns miss the scope is a scope violation, with the anchor advice. */
  lemma ScopeViolationDiagnosed(req: Request, r: RequirementNode, org: OrgPolicy, repo: Repo, now: real, ttl: int)
    requires req.capability in SafeBoundaryOf(r, org, repo).allowed
    requires !AnyMatch(req.scope, SafeBoundaryOf(r, org, repo).allowed[req.capability])
    ensures var d := AuthorizeSpec(req, r, org, repo, now, ttl);
      !d.ok && d.reason == Some(ScopeReason(req)) && d.suggestion == Some(ScopeSuggestions)
  {
    SafeBoundaryOfSpec(r, org, repo);
  }

  /**
   * A grant means: the template offers the capability, it is not forbidden,
   * the evidence supports it, and the scope matches a pattern of the
   * expanded scope that no forbidden keyword blocks and no forbidden pattern
   * matches.
   */
  lemma GrantMeans(req: Request, r: RequirementNode, org: OrgPolicy, repo: Repo, now: real, ttl: int)
    requires AuthorizeSpec(req, r, org, repo, now, ttl).ok
    ensures req.capability in TMaxSpec(r.goal)
    ensures req.capability !in ConstraintBoundOf(r.constraints, org).forbiddenCapabilities
    ensures EvidenceSupported(req, r, r.evidences)
    ensures exists x :: (x in ExpandSet(r.anchors, org, DefaultDepthLimit, repo) &&
                         !Blocked(x, org.forbiddenPaths) && !AnyMatch(x, org.forbiddenPaths) &&
                         MatchPath(req.scope, x))
  {
    var sb := SafeBoundaryOf(r, org, repo);
    assert sb.Allows(req);
    AllowedKey(r, org, repo, req.capability);
    var ps := sb.allowed[req.capability];
    var i :| 0 <= i < |ps| && MatchPath(req.scope, ps[i]);
    assert ps[i] in ps;
  }
}
