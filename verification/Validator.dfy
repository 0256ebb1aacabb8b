/** The executor's checks on an envelope, and the order in which it spends an approval. */
module Validator {
  import opened Wrappers
  import Paths
  import opened Contracts
  import opened Guard
  import Approval
  import Nonce

  datatype Refusal =
    | NoHandler | UnsupportedSchema | MissingCorrelation | CorrelationMismatch | MissingTool | MissingNonce
    | EnvelopeExpired | TtlTooLong | BadSignature | ProposalMismatch | PolicyMismatch | TargetMismatch
    | SafetyDenied | IntentMismatch | RiskMismatch | ApprovalMissing | ApprovalRefused(approval: Approval.Refusal)
    | ScopeDenied | TargetChanged | NonceRefused(nonce: Nonce.Refusal)

  datatype Config = Config(secret: string, pipeline: Pipeline, maxTtl: int)

  datatype Validation = Validation(binding: Binding, approvalRequired: bool)

  const DEFAULT_MAX_TTL := 900_000_000_000

  function MaxTtl(c: Config): int {
    if c.maxTtl <= 0 then DEFAULT_MAX_TTL else c.maxTtl
  }

  /** The binding the executor rebuilds from the envelope alone. */
  function Rebound(e: Envelope): Binding {
    Binding(e.taskId, e.proposalDigest, OfSnapshot(e.snapshot), e.intentDigest, e.policyVersion, e.risk.level, e.proposal.tool, e.nonce)
  }

  /** Validate up to the first effect: everything that depends on the envelope, the policy and one clock reading. */
  function Check(c: Config, e: Envelope, now: int): Result<Validation, Refusal> {
    if e.schemaVersion != 1 then Err(UnsupportedSchema)
    else if e.traceId == "" || e.taskId == "" || e.sessionId == "" then Err(MissingCorrelation)
    else if e.proposal.taskId != e.taskId || e.proposal.sessionId != e.sessionId then Err(CorrelationMismatch)
    else if e.proposal.tool == "" then Err(MissingTool)
    else if e.nonce == "" then Err(MissingNonce)
    else if now >= e.expiresAt then Err(EnvelopeExpired)
    else if e.expiresAt > now + MaxTtl(c) then Err(TtlTooLong)
    else if !VerifySignature(e, c.secret) then Err(BadSignature)
    else if e.proposalDigest != OfProposal(e.proposal) then Err(ProposalMismatch)
    else if e.policyVersion != c.pipeline.versionId then Err(PolicyMismatch)
    else if CanonicalTarget(e.proposal.target) != CanonicalTarget(TargetRef(e.snapshot.typ, e.snapshot.id)) then Err(TargetMismatch)
    else
      var safety := Evaluate(c.pipeline, e.proposal);
      if Denied(safety) then Err(SafetyDenied)
      else if safety.intentDigest != e.intentDigest then Err(IntentMismatch)
      else if safety.risk != e.risk then Err(RiskMismatch)
      else
        var required := safety.finalOutcome == RequireApproval;
        if required && e.approvalId == "" then Err(ApprovalMissing)
        else Ok(Validation(Rebound(e), required))
  }

  // ----- what an acceptable envelope is, said without the checks

  /** It carries the executor's own signature over all of its fields. */
  predicate Authentic(c: Config, e: Envelope) {
    |c.secret| >= 32 && e.signature == Mac(c.secret, e.(signature := Unsigned))
  }

  /** Its parts belong together: one task and session, the proposal it names, the target it was made for. */
  predicate Coherent(e: Envelope) {
    && e.schemaVersion == 1 && e.traceId != "" && e.taskId != "" && e.sessionId != "" && e.nonce != ""
    && e.proposal.taskId == e.taskId && e.proposal.sessionId == e.sessionId && e.proposal.tool != ""
    && e.proposalDigest == OfProposal(e.proposal)
    && CanonicalTarget(e.proposal.target) == CanonicalTarget(TargetRef(e.snapshot.typ, e.snapshot.id))
  }

  /** The executor's own policy tolerates it, and comes to the same intent and risk. */
  predicate Warranted(c: Config, e: Envelope) {
    && Tolerated(c.pipeline, e.proposal)
    && e.policyVersion == c.pipeline.versionId && e.risk == c.pipeline.riskOf(e.proposal) && e.intentDigest == OfIntent(e.proposal.intent)
  }

  predicate Acceptable(c: Config, e: Envelope) {
    Authentic(c, e) && Coherent(e) && Warranted(c, e) && (NeedsApproval(c.pipeline, e.proposal) ==> e.approvalId != "")
  }

  /** It has not expired, and does not live longer than the executor allows. */
  predicate Alive(c: Config, e: Envelope, now: int) {
    now < e.expiresAt <= now + (if c.maxTtl <= 0 then 900_000_000_000 else c.maxTtl)
  }

  /** A binding describes an envelope: action, target, intent, policy, risk and use. */
  predicate Describes(b: Binding, e: Envelope) {
    && b.taskId == e.taskId && b.nonce == e.nonce && b.tool == e.proposal.tool
    && b.proposalDigest == OfProposal(e.proposal) && b.snapshotDigest == OfSnapshot(e.snapshot)
    && b.intentDigest == OfIntent(e.proposal.intent) && b.policyVersion == e.policyVersion && b.riskLevel == e.risk.level
  }

  /** The checks accept exactly the acceptable envelopes that are alive, and rebuild the binding that describes them. */
  lemma {:induction false} CheckIff(c: Config, e: Envelope, now: int)
    ensures Check(c, e, now).Ok? <==> Acceptable(c, e) && Alive(c, e, now)
    ensures Check(c, e, now).Ok? ==>
              && Check(c, e, now).value == Validation(Rebound(e), NeedsApproval(c.pipeline, e.proposal))
              && forall b :: b == Rebound(e) <==> Describes(b, e)
  {
    EvaluateMeans(c.pipeline, e.proposal);
  }

  lemma {:induction false} ReboundDescribes(c: Config, e: Envelope)
    requires Acceptable(c, e)
    ensures forall b :: b == Rebound(e) <==> Describes(b, e)
  {
  }

  /** Two envelopes agree on everything a handler acts on and a policy decides by. */
  predicate SameAction(e1: Envelope, e2: Envelope) {
    && e1.proposal == e2.proposal && e1.snapshot == e2.snapshot && e1.risk == e2.risk
    && e1.taskId == e2.taskId && e1.sessionId == e2.sessionId && e1.nonce == e2.nonce
    && e1.intentDigest == e2.intentDigest && e1.policyVersion == e2.policyVersion
  }

  /**
    An approval authorises one action: two acceptable envelopes that rebuild
    one binding carry the same one.
   */
  lemma {:induction false} BindingDeterminesAction(c: Config, e1: Envelope, e2: Envelope)
    requires Acceptable(c, e1) && Acceptable(c, e2)
    requires Rebound(e1) == Rebound(e2)
    ensures SameAction(e1, e2)
  {
    assert OfProposal(e1.proposal) == e1.proposalDigest == e2.proposalDigest == OfProposal(e2.proposal);
    assert OfSnapshot(e1.snapshot) == OfSnapshot(e2.snapshot);
  }

  /** The interfaces the executor calls between the approval check and the nonce: their answers for this envelope. */
  datatype Surroundings = Surroundings(scopeAllows: Envelope -> bool, targetUnchanged: Snapshot -> bool)

  /** The clock readings and the disk faults one Execute call meets, in order. */
  datatype Moment = Moment(
    check: int, approval: int, reserve: int, consume: int, stamp: int,
    reserveFault: Fault, consumeFault: Fault)

  predicate Ordered(m: Moment) {
    m.check <= m.approval <= m.reserve <= m.consume <= m.stamp
  }

  const FIXED_HANDLERS := {
    "service.restart", "service.start", "service.stop", "process.terminate",
    "file.quarantine", "file.restore_quarantine", "file.create", "file.delete" }

  /** The answer of Approvals.Validate, by the record file the identifier names. */
  function ApprovalReply(files: map<string, Approval.Record>, id: string, b: Binding, now: int): Result<Approval.Record, Approval.Refusal> {
    if !Paths.ValidId(id) then Err(Approval.InvalidId)
    else if id !in files then Err(Approval.NotFound)
    else Approval.ValidateReply(files[id], b, now)
  }

  /**
    Exactly when Validate accepts: the pure checks pass, the approval (if one
    is needed) is live, approved and identically bound, the scope and target
    agree, and the nonce can be reserved and stored.
   */
  ghost predicate Accepts(
      c: Config, w: Surroundings, files: map<string, Approval.Record>, nonces: Nonce.State, e: Envelope, m: Moment)
  {
    && Entitled(c, w, files, e, m)
    && Nonce.AfterReserve(nonces, e.nonce, e.expiresAt, m.reserve, m.reserveFault).1.Ok?
  }

  /** Everything but the nonce: a call that fails here uses nothing up. */
  ghost predicate Entitled(c: Config, w: Surroundings, files: map<string, Approval.Record>, e: Envelope, m: Moment) {
    && Check(c, e, m.check).Ok?
    && (Check(c, e, m.check).value.approvalRequired ==> ApprovalReply(files, e.approvalId, Rebound(e), m.approval).Ok?)
    && w.scopeAllows(e)
    && w.targetUnchanged(e.snapshot)
  }

  /** The approval an envelope names was granted for what the envelope says, and has not expired. */
  ghost predicate Granted(files: map<string, Approval.Record>, e: Envelope, now: int) {
    && Paths.ValidId(e.approvalId) && e.approvalId in files
    && files[e.approvalId].status == Approval.Approved && Describes(files[e.approvalId].binding, e) && now <= files[e.approvalId].expiresAt
  }

  /** What acceptance comes to, said without the checks and the stores. */
  lemma {:induction false} AcceptsIff(
      c: Config, w: Surroundings, files: map<string, Approval.Record>, nonces: Nonce.State, e: Envelope, m: Moment)
    ensures Accepts(c, w, files, nonces, e, m) <==>
              && Acceptable(c, e) && Alive(c, e, m.check)
              && (NeedsApproval(c.pipeline, e.proposal) ==> Granted(files, e, m.approval))
              && w.scopeAllows(e) && w.targetUnchanged(e.snapshot)
              && (e.nonce in nonces.used ==> nonces.used[e.nonce] < m.reserve) && m.reserveFault.Clean?
  {
    CheckIff(c, e, m.check);
    if Check(c, e, m.check).Ok? && e.approvalId in files {
      assert files[e.approvalId].binding == Rebound(e) <==> Describes(files[e.approvalId].binding, e);
    }
  }

  class Executor {
    const config: Config
    const surroundings: Surroundings
    const registered: set<string>
    const approvals: Approval.Store
    const nonces: Nonce.NonceStore
    /** The envelopes handed to a handler, oldest first. */
    var handled: seq<Envelope>

    constructor (config: Config, surroundings: Surroundings, registered: set<string>, approvals: Approval.Store, nonces: Nonce.NonceStore)
      ensures this.config == config && this.surroundings == surroundings && this.registered == registered
      ensures this.approvals == approvals && this.nonces == nonces && handled == []
    {
      this.config := config;
      this.surroundings := surroundings;
      this.registered := registered;
      this.approvals := approvals;
      this.nonces := nonces;
      handled := [];
    }

    method Validate(e: Envelope, m: Moment) returns (r: Result<Validation, Refusal>)
      modifies nonces
      ensures r.Ok? <==> Accepts(config, surroundings, approvals.files, old(nonces.Now()), e, m)
      ensures r.Ok? ==> Describes(r.value.binding, e) && (r.value.approvalRequired <==> NeedsApproval(config.pipeline, e.proposal))
      ensures r.Ok? ==> r == Check(config, e, m.check)
      ensures nonces.Now() == old(nonces.Now())
              || nonces.Now() == Nonce.AfterReserve(old(nonces.Now()), e.nonce, e.expiresAt, m.reserve, m.reserveFault).0
      ensures r.Ok? ==> nonces.Now() == Nonce.AfterReserve(old(nonces.Now()), e.nonce, e.expiresAt, m.reserve, m.reserveFault).0
      ensures !Entitled(config, surroundings, approvals.files, e, m) ==> nonces.Now() == old(nonces.Now())
    {
      CheckIff(config, e, m.check);
      r := Check(config, e, m.check);
      if r.Err? {
        return;
      }
      if r.value.approvalRequired {
        var approved := approvals.Validate(e.approvalId, r.value.binding, m.approval);
        if approved.Err? {
          return Err(ApprovalRefused(approved.error));
        }
      }
      if !surroundings.scopeAllows(e) {
        return Err(ScopeDenied);
      }
      if !surroundings.targetUnchanged(e.snapshot) {
        return Err(TargetChanged);
      }
      var reserved := nonces.Reserve(e.nonce, e.expiresAt, m.reserve, m.reserveFault);
      if reserved.Err? {
        return Err(NonceRefused(reserved.error));
      }
    }

    /**
      Execute: the handler runs last, and never for an approval that this call
      did not itself move from APPROVED to CONSUMED.
     */
    method Execute(e: Envelope, m: Moment) returns (r: Result<(), Refusal>)
      requires Ordered(m)
      modifies this, approvals, nonces
      ensures r.Ok? <==>
                && e.proposal.tool in registered * FIXED_HANDLERS
                && Acceptable(config, e) && Alive(config, e, m.check)
                && (NeedsApproval(config.pipeline, e.proposal) ==> Granted(old(approvals.files), e, m.consume) && m.consumeFault.Clean?)
                && surroundings.scopeAllows(e) && surroundings.targetUnchanged(e.snapshot)
                && (e.nonce in old(nonces.Now()).used ==> old(nonces.Now()).used[e.nonce] < m.reserve) && m.reserveFault.Clean?
      ensures r.Ok? ==> handled == old(handled) + [e]
      ensures r.Err? ==> handled == old(handled)
      ensures r.Ok? ==> Accepts(config, surroundings, old(approvals.files), old(nonces.Now()), e, m) && Nonce.Holds(nonces.Now(), e.nonce, e.expiresAt)
      ensures r.Ok? && NeedsApproval(config.pipeline, e.proposal) ==>
                && e.approvalId in old(approvals.files)
                && var before := old(approvals.files)[e.approvalId];
                   && before.status == Approval.Approved
                   && Describes(before.binding, e)
                   && m.consume <= before.expiresAt
                   && approvals.files == Approval.Saved(old(approvals.files), before.(status := Approval.Consumed, consumedAt := m.stamp), Clean)
      ensures r.Ok? && !NeedsApproval(config.pipeline, e.proposal) ==> approvals.files == old(approvals.files)
      ensures r.Err? && !m.consumeFault.AfterRename? ==> approvals.files == old(approvals.files)
      ensures r.Err? && e.proposal.tool in registered * FIXED_HANDLERS && Accepts(config, surroundings, old(approvals.files), old(nonces.Now()), e, m) ==>
                && NeedsApproval(config.pipeline, e.proposal)
                && (m.consume > old(approvals.files)[e.approvalId].expiresAt || !m.consumeFault.Clean?)
    {
      AcceptsIff(config, surroundings, approvals.files, nonces.Now(), e, m);
      CheckIff(config, e, m.check);
      if e.proposal.tool !in registered || e.proposal.tool !in FIXED_HANDLERS {
        return Err(NoHandler);
      }
      var validation := Validate(e, m);
      if validation.Err? {
        return Err(validation.error);
      }
      if validation.value.approvalRequired {
        var consumed := approvals.Consume(e.approvalId, validation.value.binding, m.consume, m.stamp, m.consumeFault);
        if consumed.Err? {
          return Err(ApprovalRefused(consumed.error));
        }
      }
      handled := handled + [e];
      return Ok(());
    }
  }

  /**
    The nonce alone does not stop a replay: Validate reads the clock before
    Reserve does, so a second call that straddles the expiry passes both.
   */
  lemma {:induction false} NonceAloneAllowsReplay(s: Nonce.State, nonce: string, expiresAt: int, first: int, check: int, reserve: int)
    requires Nonce.AfterReserve(s, nonce, expiresAt, first, Clean).1.Ok?
    requires check < expiresAt && check <= reserve
    ensures Nonce.AfterReserve(Nonce.AfterReserve(s, nonce, expiresAt, first, Clean).0, nonce, expiresAt, reserve, Clean).1.Ok?
            <==> reserve > expiresAt
  {
    Nonce.ReplayRefusedUntilExpiry(s, nonce, expiresAt, first, [], reserve, expiresAt);
  }
}
