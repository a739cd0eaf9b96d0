/**
 * `evidence_supported`: whether the gathered evidence supports a request.
 * Evidence-gathering capabilities are always supported, writing source
 * needs a failing test on record, and anything else is refused.
 */
module EvidenceGate {
  import opened Models

  /** The capabilities that gather evidence themselves or only read. */
  const AlwaysSupported: set<Capability> := {"exec:test", "read:repo", "exec:lint", "exec:format", "exec:build"}

  const WriteSrc: Capability := "write:src"
  const TestFail: string := "test_fail"

  /** Python's `any(e.kind == "test_fail" for e in evidences)`. */
  predicate HasTestFail(evidences: seq<Evidence>)
    ensures HasTestFail(evidences) <==> exists i :: 0 <= i < |evidences| && evidences[i].kind == TestFail
  {
    if |evidences| == 0 then false
    else evidences[0].kind == TestFail || HasTestFail(evidences[1..])
  }

  /** `evidence_supported(req, r, evidences)`; the node `r` is not consulted. */
  function EvidenceSupported(req: Request, r: RequirementNode, evidences: seq<Evidence>): (ok: bool)
    ensures req.capability in AlwaysSupported ==> ok
    ensures req.capability == WriteSrc ==>
      (ok <==> exists i :: 0 <= i < |evidences| && evidences[i].kind == TestFail)
    ensures req.capability !in AlwaysSupported && req.capability != WriteSrc ==> !ok
  {
    if req.capability in AlwaysSupported then true
    else if req.capability == WriteSrc then HasTestFail(evidences)
    else false
  }

  /** Appending evidence never withdraws support. */
  lemma EvidenceMonotone(req: Request, r: RequirementNode, evidences: seq<Evidence>, more: seq<Evidence>)
    requires EvidenceSupported(req, r, evidences)
    ensures EvidenceSupported(req, r, evidences + more)
  {
    if req.capability == WriteSrc {
      var i :| 0 <= i < |evidences| && evidences[i].kind == TestFail;
      assert (evidences + more)[i] == evidences[i];
    }
  }

  /** The answer is the same for any node. */
  lemma EvidenceIgnoresNode(req: Request, r1: RequirementNode, r2: RequirementNode, evidences: seq<Evidence>)
    ensures EvidenceSupported(req, r1, evidences) == EvidenceSupported(req, r2, evidences)
  {
  }

  /** The set of evidence kinds on record. */
  function Kinds(evidences: seq<Evidence>): set<string> {
    set i | 0 <= i < |evidences| :: evidences[i].kind
  }

  /** Only the set of evidence kinds matters: not the payloads, the order or repeats. */
  lemma EvidenceDependsOnKinds(req: Request, r: RequirementNode, e1: seq<Evidence>, e2: seq<Evidence>)
    requires Kinds(e1) == Kinds(e2)
    ensures EvidenceSupported(req, r, e1) == EvidenceSupported(req, r, e2)
  {
    if req.capability == WriteSrc {
      if HasTestFail(e1) {
        var i :| 0 <= i < |e1| && e1[i].kind == TestFail;
        assert TestFail in Kinds(e2);
      }
      if HasTestFail(e2) {
        var j :| 0 <= j < |e2| && e2[j].kind == TestFail;
        assert TestFail in Kinds(e1);
      }
    }
  }
}
