/**
 * `build_constraint_bound`: the organisation's sensitive paths, the
 * user's `no-network` constraint, and the task-implied ban on deploying.
 */
module Policy {
  import opened Models

  const NoNetwork: string := "no-network"
  const NetworkEgress: Capability := "network:egress"
  const ExecDeploy: Capability := "exec:deploy"

  /** The constraint bound as a value, characterised by what each field holds. */
  function ConstraintBoundOf(userConstraints: set<string>, org: OrgPolicy): (cb: ConstraintBound)
    ensures cb.forbiddenPaths == org.forbiddenPaths
    ensures ExecDeploy in cb.forbiddenCapabilities
    ensures NetworkEgress in cb.forbiddenCapabilities <==> NoNetwork in userConstraints
    ensures forall c :: c in cb.forbiddenCapabilities ==> c == NetworkEgress || c == ExecDeploy
    ensures cb.forbiddenCombinations == []
  {
    ConstraintBound(
      (if NoNetwork in userConstraints then {NetworkEgress} else {}) + {ExecDeploy},
      org.forbiddenPaths,
      [])
  }

  /**
   * The source's steps: start from an empty bound, extend the paths with the
   * org's list, add `network:egress` under `no-network`, then add `exec:deploy`.
   */
  method BuildConstraintBound(userConstraints: set<string>, org: OrgPolicy) returns (cb: ConstraintBound)
    ensures cb == ConstraintBoundOf(userConstraints, org)
  {
    cb := EmptyConstraintBound;
    cb := cb.(forbiddenPaths := cb.forbiddenPaths + org.forbiddenPaths);
    if NoNetwork in userConstraints {
      cb := cb.(forbiddenCapabilities := cb.forbiddenCapabilities + {NetworkEgress});
    }
    cb := cb.(forbiddenCapabilities := cb.forbiddenCapabilities + {ExecDeploy});
  }

  /** Only `no-network` matters among the user's constraints. */
  lemma ConstraintBoundDependsOnlyOnNoNetwork(u1: set<string>, u2: set<string>, org: OrgPolicy)
    requires NoNetwork in u1 <==> NoNetwork in u2
    ensures ConstraintBoundOf(u1, org) == ConstraintBoundOf(u2, org)
  {
  }
}
