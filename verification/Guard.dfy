/**
  The safety pipeline, as a fixed composition of three deterministic stages.
  The policy tables behind the stages are parameters.
 */
module Guard {
  import opened Contracts

  datatype Safety = Safety(
    staticOutcome: Outcome, policyVersion: string, intentOutcome: Outcome,
    intentDigest: Digest, risk: Risk, finalOutcome: Outcome)

  /** One loaded catalog: its version and the decisions it determines. */
  datatype Pipeline = Pipeline(
    versionId: string,
    precheckAllows: Proposal -> bool,
    intentAllows: Proposal -> bool,
    riskOf: Proposal -> Risk,
    requiresApproval: string -> bool)

  const NO_RISK := Risk(L0, 0, [])

  /** SafetyPipeline.Evaluate. */
  function Evaluate(g: Pipeline, p: Proposal): (s: Safety)
    ensures s.policyVersion == g.versionId
    ensures s.finalOutcome == RequireApproval ==>
              s.staticOutcome == Allow && s.intentOutcome == Allow && s.intentDigest == OfIntent(p.intent)
  {
    if !g.precheckAllows(p) then
      Safety(Deny, g.versionId, Unset, NoDigest, NO_RISK, Deny)
    else if !g.intentAllows(p) then
      Safety(Allow, g.versionId, Deny, OfIntent(p.intent), NO_RISK, Deny)
    else
      var risk := g.riskOf(p);
      var final :=
        if risk.level == L3 then Deny
        else if p.effect == Write && (g.requiresApproval(p.tool) || risk.level == L2) then RequireApproval
        else Allow;
      Safety(Allow, g.versionId, Allow, OfIntent(p.intent), risk, final)
  }

  predicate Denied(s: Safety) {
    s.staticOutcome == Deny || s.intentOutcome == Deny || s.finalOutcome == Deny
  }

  /** What the policy lets through at all: both checks pass, and the risk is not of the highest level. */
  predicate Tolerated(g: Pipeline, p: Proposal) {
    g.precheckAllows(p) && g.intentAllows(p) && g.riskOf(p).level != L3
  }

  /** A write by a tool that is marked, or of the second highest level, waits for the operator. */
  predicate NeedsApproval(g: Pipeline, p: Proposal) {
    p.effect == Write && (g.requiresApproval(p.tool) || g.riskOf(p).level == L2)
  }

  /** What the three stages come to, whichever of them decides. */
  lemma {:induction false} EvaluateMeans(g: Pipeline, p: Proposal)
    ensures var s := Evaluate(g, p);
            && (Denied(s) <==> !Tolerated(g, p))
            && (s.finalOutcome == Deny <==> !Tolerated(g, p))
            && (s.finalOutcome == RequireApproval <==> Tolerated(g, p) && NeedsApproval(g, p))
            && (s.finalOutcome == Allow <==> Tolerated(g, p) && !NeedsApproval(g, p))
            && (s.staticOutcome == Deny <==> !g.precheckAllows(p))
            && (s.intentOutcome == Deny <==> g.precheckAllows(p) && !g.intentAllows(p))
            && (Tolerated(g, p) ==> s.risk == g.riskOf(p) && s.intentDigest == OfIntent(p.intent))
  {
  }
}
