/**
  Preparing a write action: the agent's side of the envelope that the executor
  validates. The two sides build the binding independently and must agree.
 */
module Preparer {
  import opened Wrappers
  import Paths
  import opened Contracts
  import opened Guard
  import opened Tasks
  import Approval
  import FileStore
  import Nonce
  import Validator

  datatype Config = Config(secret: string, pipeline: Pipeline, scope: Option<Envelope -> bool>, approvalTtl: int, envelopeTtl: int)

  datatype Refusal =
    | CorrelationMismatch | NotAWrite | TargetMismatch | TraceFailed | StaticDenied | IntentDenied | NoApprovalNeeded
    | MissingTool | ScopeDenied | TtlOrder | ApprovalRefused(approval: Approval.Refusal) | SigningFailed | SaveFailed(store: FileStore.Error)

  const DEFAULT_ENVELOPE_TTL := 600_000_000_000

  function EnvelopeTtl(c: Config): int {
    if c.envelopeTtl <= 0 then DEFAULT_ENVELOPE_TTL else c.envelopeTtl
  }

  function ApprovalTtl(c: Config): int {
    if c.approvalTtl <= 0 then EnvelopeTtl(c) else c.approvalTtl
  }

  /** The envelope without its approval and signature. */
  function Unsealed(c: Config, t: Task, p: Proposal, s: Snapshot, now: int, nonce: string): Envelope {
    var safety := Evaluate(c.pipeline, p);
    Envelope(1, t.id, t.id, t.sessionId, p, OfProposal(p), s, safety.risk, safety.intentDigest, safety.policyVersion,
             now + EnvelopeTtl(c), nonce, "", Unsigned)
  }

  /** The binding the agent asks the operator to approve. */
  function Bound(c: Config, t: Task, p: Proposal, s: Snapshot, nonce: string): Binding {
    var safety := Evaluate(c.pipeline, p);
    Binding(t.id, OfProposal(p), OfSnapshot(s), safety.intentDigest, safety.policyVersion, safety.risk.level, p.tool, nonce)
  }

  /** Why Prepare refuses before it creates an approval, trace failures aside. */
  function Refused(c: Config, t: Task, p: Proposal, s: Snapshot): Option<Refusal> {
    if p.taskId != t.id || p.sessionId != t.sessionId then Some(CorrelationMismatch)
    else if p.effect != Write then Some(NotAWrite)
    else if CanonicalTarget(p.target) != CanonicalTarget(TargetRef(s.typ, s.id)) then Some(TargetMismatch)
    else if p.tool == "" then Some(MissingTool)
    else
      var safety := Evaluate(c.pipeline, p);
      if safety.staticOutcome == Deny then Some(StaticDenied)
      else if safety.intentOutcome == Deny then Some(IntentDenied)
      else if safety.finalOutcome != RequireApproval then Some(NoApprovalNeeded)
      else if c.scope.Some? && !c.scope.value(Unsealed(c, t, p, s, 0, "").(expiresAt := 0)) then Some(ScopeDenied)
      else if ApprovalTtl(c) > EnvelopeTtl(c) then Some(TtlOrder)
      else None
  }

  /** A sealed envelope: approval attached, then signed. */
  function Sealed(c: Config, t: Task, p: Proposal, s: Snapshot, now: int, nonce: string, approvalId: string): Option<Envelope> {
    Sign(Unsealed(c, t, p, s, now, nonce).(approvalId := approvalId), c.secret)
  }

  /** How long an envelope lives: as configured, or ten minutes. */
  function Lifetime(c: Config): int {
    if c.envelopeTtl > 0 then c.envelopeTtl else 600_000_000_000
  }

  /** Exactly which proposals get as far as an approval: a write of this task on its target, tolerated by the policy and in need of approval, in scope, with lifetimes that fit. */
  lemma {:induction false} PreparableIff(c: Config, t: Task, p: Proposal, s: Snapshot)
    ensures Refused(c, t, p, s).None? <==>
              && p.taskId == t.id && p.sessionId == t.sessionId && p.effect == Write && p.tool != ""
              && CanonicalTarget(p.target) == CanonicalTarget(TargetRef(s.typ, s.id))
              && Tolerated(c.pipeline, p) && NeedsApproval(c.pipeline, p)
              && (c.scope.Some? ==> c.scope.value(Unsealed(c, t, p, s, 0, "").(expiresAt := 0)))
              && c.approvalTtl <= Lifetime(c)
  {
    EvaluateMeans(c.pipeline, p);
  }

  /** What is sealed: the proposal, target and policy at hand, for this task, approval and time, under the secret. */
  lemma {:induction false} SealedSays(c: Config, t: Task, p: Proposal, s: Snapshot, now: int, nonce: string, approvalId: string)
    requires Tolerated(c.pipeline, p)
    ensures Sealed(c, t, p, s, now, nonce, approvalId).Some? <==> |c.secret| >= 32
    ensures |c.secret| >= 32 ==>
              var e := Sealed(c, t, p, s, now, nonce, approvalId).value;
              && e == Envelope(1, t.id, t.id, t.sessionId, p, OfProposal(p), s, c.pipeline.riskOf(p), OfIntent(p.intent),
                               c.pipeline.versionId, now + Lifetime(c), nonce, approvalId, e.signature)
              && e.signature == Mac(c.secret, e.(signature := Unsigned))
  {
    EvaluateMeans(c.pipeline, p);
    var body := Unsealed(c, t, p, s, now, nonce).(approvalId := approvalId);
    assert |c.secret| >= 32 ==> Sealed(c, t, p, s, now, nonce, approvalId).value.(signature := Unsigned) == body;
  }

  /** The binding put to the operator describes the envelope that will be sealed, and the approval does not outlive it. */
  lemma {:induction false} AskedIsSealed(c: Config, t: Task, p: Proposal, s: Snapshot, now: int, nonce: string, approvalId: string)
    requires Refused(c, t, p, s).None? && |c.secret| >= 32
    ensures Validator.Describes(Bound(c, t, p, s, nonce), Sealed(c, t, p, s, now, nonce, approvalId).value)
    ensures Approval.Complete(Bound(c, t, p, s, nonce)) <==> t.id != "" && c.pipeline.versionId != ""
    ensures 0 < Approval.NewRecord(approvalId, Bound(c, t, p, s, nonce), ApprovalTtl(c), now).expiresAt - now <= Lifetime(c)
    ensures Approval.NewRecord(approvalId, Bound(c, t, p, s, nonce), ApprovalTtl(c), now).expiresAt
              == now + if c.approvalTtl > 0 then c.approvalTtl else Lifetime(c)
  {
    PreparableIff(c, t, p, s);
    SealedSays(c, t, p, s, now, nonce, approvalId);
    EvaluateMeans(c.pipeline, p);
  }

  /**
    Preparer and validator agree. The executor rebuilds exactly the binding
    that was approved, and accepts the envelope exactly while it is alive and
    within the executor's maximum lifetime, the approval stands, the scope and
    target agree, and the nonce is unused.
   */
  lemma {:induction false} PreparedEnvelopeAccepted(
      c: Config, t: Task, p: Proposal, s: Snapshot, made: int, nonce: string, approvalId: string,
      v: Validator.Config, w: Validator.Surroundings, files: map<string, Approval.Record>, nonces: Nonce.State, m: Validator.Moment)
    requires Refused(c, t, p, s).None? && t.id != "" && t.sessionId != ""
    requires nonce != "" && Paths.ValidId(approvalId) && approvalId in files
    requires Sealed(c, t, p, s, made, nonce, approvalId).Some?
    requires v.secret == c.secret && v.pipeline == c.pipeline
    ensures var e := Sealed(c, t, p, s, made, nonce, approvalId).value;
            && Validator.Rebound(e) == Bound(c, t, p, s, nonce)
            && (Validator.Check(v, e, m.check) == Ok(Validator.Validation(Bound(c, t, p, s, nonce), true))
                <==> m.check < made + EnvelopeTtl(c) <= m.check + Validator.MaxTtl(v))
            && (Validator.Accepts(v, w, files, nonces, e, m) <==>
                  && m.check < made + EnvelopeTtl(c) <= m.check + Validator.MaxTtl(v)
                  && files[approvalId].status == Approval.Approved
                  && m.approval <= files[approvalId].expiresAt
                  && files[approvalId].binding == Bound(c, t, p, s, nonce)
                  && w.scopeAllows(e) && w.targetUnchanged(s)
                  && (nonce !in nonces.used || m.reserve > nonces.used[nonce])
                  && m.reserveFault.Clean?)
  {
    var body := Unsealed(c, t, p, s, made, nonce).(approvalId := approvalId);
    var e := Sealed(c, t, p, s, made, nonce, approvalId).value;
    SignedOrRefused(body, e, c.secret);
    assert !Denied(Evaluate(c.pipeline, p));
    assert Validator.Check(v, e, m.check).Ok? <==> m.check < e.expiresAt <= m.check + Validator.MaxTtl(v);
    assert Validator.Check(v, e, m.check).Ok? ==>
        Validator.Check(v, e, m.check) == Ok(Validator.Validation(Validator.Rebound(e), true));
  }

  /**
    Whatever is bound cannot be changed: an envelope that needs approval and
    differs from the approved one in its proposal, target snapshot, intent,
    policy, risk level, tool, task or nonce is refused, even correctly signed.
   */
  lemma {:induction false} BoundComponentsAreFixed(
      v: Validator.Config, w: Validator.Surroundings, files: map<string, Approval.Record>, nonces: Nonce.State, m: Validator.Moment,
      approved: Envelope, other: Envelope)
    requires approved.approvalId in files && files[approved.approvalId].binding == Validator.Rebound(approved)
    requires other.approvalId == approved.approvalId
    requires Validator.Check(v, other, m.check).Ok? && Validator.Check(v, other, m.check).value.approvalRequired
    requires approved.proposalDigest == OfProposal(approved.proposal)
    ensures Validator.Accepts(v, w, files, nonces, other, m) ==>
              && other.proposal == approved.proposal && other.snapshot == approved.snapshot
              && other.intentDigest == approved.intentDigest && other.policyVersion == approved.policyVersion
              && other.risk.level == approved.risk.level && other.taskId == approved.taskId && other.nonce == approved.nonce
  {
    if Validator.Accepts(v, w, files, nonces, other, m) {
      assert files[other.approvalId].binding == Validator.Rebound(other);
      assert OfProposal(other.proposal) == OfProposal(approved.proposal);
      assert OfSnapshot(other.snapshot) == OfSnapshot(approved.snapshot);
    }
  }

  /**
    The clock readings, fresh names and faults one Prepare call meets, and what
    others do to the approval while the call is under way: the record can be
    listed, judged and spent from the moment it is on disk. Nothing in the call
    reads it before the withdrawal, so these acts may as well come first.
   */
  datatype Moment = Moment(
    appends: nat,  // how many of the five trace appends succeed
    now: int, created: int, nonce: string, approvalId: string, saved: int, rejected: int,
    createFault: Fault, saveFault: Fault, rejectFault: Fault, failFault: Fault, meanwhile: seq<Approval.Act>)

  const PREPARE_APPENDS := 5

  /** The task that waits for an approval. */
  function Awaiting(t: Task, signed: Envelope, approvalId: string): Task {
    t.(pendingAction := Some(signed), pendingApproval := approvalId, state := WaitingApproval)
  }

  /** Prepare gets as far as writing an approval record. */
  predicate ReachesCreate(c: Config, t: Task, p: Proposal, s: Snapshot, m: Moment) {
    Refused(c, t, p, s).None? && m.appends >= PREPARE_APPENDS - 1 && Approval.Complete(Bound(c, t, p, s, m.nonce))
  }

  /** The approval as the withdrawal finds it. */
  function Judged(c: Config, t: Task, p: Proposal, s: Snapshot, m: Moment): Approval.Record {
    Approval.ActedAll(Approval.NewRecord(m.approvalId, Bound(c, t, p, s, m.nonce), ApprovalTtl(c), m.created), m.meanwhile)
  }

  /** A withdrawal has no effect: its save fails before the rename, or the operator has approved in the meantime. */
  predicate WithdrawalFails(r: Approval.Record, m: Moment) {
    m.rejectFault.BeforeRename? || (r.status == Approval.Approved && m.rejected < r.expiresAt)
  }

  /**
    When a failed call leaves an approval that can still be granted or spent:
    Create published its record before it reported failure, or the record was
    created and its withdrawal has no effect.
   */
  predicate LeavesUsable(c: Config, t: Task, p: Proposal, s: Snapshot, m: Moment) {
    && ReachesCreate(c, t, p, s, m)
    && var judged := Judged(c, t, p, s, m);
       && !Approval.Settled(judged.status)
       && (m.createFault.AfterRename? || (m.createFault.Clean? && WithdrawalFails(judged, m)))
  }

  /** Exactly when Prepare succeeds. */
  predicate Preparable(c: Config, tasks: map<string, Task>, t: Task, p: Proposal, s: Snapshot, m: Moment) {
    && ReachesCreate(c, t, p, s, m) && m.appends >= PREPARE_APPENDS && m.createFault.Clean?
    && var e := Sealed(c, t, p, s, m.now, m.nonce, m.approvalId);
       e.Some? && FileStore.Outcome(tasks, FileStore.Save(Awaiting(t, e.value, m.approvalId), m.saved)).Ok? && m.saveFault.Clean?
  }

  /** Two failing writes in a row are enough: any successful call that nobody interferes with becomes one. */
  lemma {:induction false} WithdrawalCanBeLost(c: Config, tasks: map<string, Task>, t: Task, p: Proposal, s: Snapshot, m: Moment)
    requires Preparable(c, tasks, t, p, s, m) && m.meanwhile == []
    ensures var unlucky := m.(saveFault := BeforeRename, rejectFault := BeforeRename);
            !Preparable(c, tasks, t, p, s, unlucky) && LeavesUsable(c, t, p, s, unlucky)
  {
  }

  /** And without any failing write: an operator who approves before the last trace append fails cannot be overruled. */
  lemma {:induction false} VerdictOutlivesFailure(c: Config, tasks: map<string, Task>, t: Task, p: Proposal, s: Snapshot, m: Moment, at: int)
    requires Preparable(c, tasks, t, p, s, m)
    requires at < m.created + ApprovalTtl(c) && m.rejected < m.created + ApprovalTtl(c)
    ensures var early := m.(appends := PREPARE_APPENDS - 1, meanwhile := [Approval.Judge(true, "", at, Clean)]);
            && !Preparable(c, tasks, t, p, s, early) && LeavesUsable(c, t, p, s, early)
            && Judged(c, t, p, s, early).status == Approval.Approved
  {
    var made := Approval.NewRecord(m.approvalId, Bound(c, t, p, s, m.nonce), ApprovalTtl(c), m.created);
    var judge := Approval.Judge(true, "", at, Clean);
    assert Approval.ActedAll(made, [judge]) == Approval.ActedAll(Approval.Acted(made, judge), []);
  }

  class ActionPreparer {
    const config: Config
    const approvals: Approval.Store
    const store: FileStore.Store

    constructor (config: Config, approvals: Approval.Store, store: FileStore.Store)
      ensures this.config == config && this.approvals == approvals && this.store == store
    {
      this.config := config;
      this.approvals := approvals;
      this.store := store;
    }

    /** Everything Prepare checks before it creates the approval, interleaved with the trace appends. */
    method Screen(value: Task, p: Proposal, s: Snapshot, appends: nat) returns (refused: Option<Refusal>)
      ensures refused.None? <==> Refused(config, value, p, s).None? && appends >= PREPARE_APPENDS - 1
      ensures refused.Some? ==> !refused.value.ApprovalRefused?
    {
      if p.taskId != value.id || p.sessionId != value.sessionId {
        return Some(CorrelationMismatch);
      }
      if p.effect != Write {
        return Some(NotAWrite);
      }
      if CanonicalTarget(p.target) != CanonicalTarget(TargetRef(s.typ, s.id)) {
        return Some(TargetMismatch);
      }
      var safety := Evaluate(config.pipeline, p);
      if p.tool == "" {
        return Some(MissingTool);
      }
      if appends < 2 {
        return Some(TraceFailed);
      }
      if safety.staticOutcome == Deny {
        return Some(StaticDenied);
      }
      if appends < 3 {
        return Some(TraceFailed);
      }
      if safety.intentOutcome == Deny {
        return Some(IntentDenied);
      }
      if appends < 4 {
        return Some(TraceFailed);
      }
      if safety.finalOutcome != RequireApproval {
        return Some(NoApprovalNeeded);
      }
      if config.scope.Some? {
        var scopeEnvelope := Unsealed(config, value, p, s, 0, "").(expiresAt := 0);
        if !config.scope.value(scopeEnvelope) {
          return Some(ScopeDenied);
        }
      }
      if ApprovalTtl(config) > EnvelopeTtl(config) {
        return Some(TtlOrder);
      }
      return None;
    }

    /**
      Sign the envelope, store the waiting task, and withdraw the approval if
      any of it fails. The withdrawal is not checked: if its own save fails
      before the rename, or the approval has been judged by then, it stays as
      it was.
     */
    method Seal(value: Task, envelope: Envelope, m: Moment) returns (r: Result<Task, Refusal>)
      requires Paths.ValidId(m.approvalId) && m.approvalId in approvals.files && approvals.files[m.approvalId].id == m.approvalId
      modifies approvals, store
      ensures m.approvalId in approvals.files
      ensures approvals.files == old(approvals.files)[m.approvalId := approvals.files[m.approvalId]]
      ensures r.Ok? ==>
                && approvals.files == old(approvals.files)
                && r.value.id in store.tasks && store.tasks[r.value.id] == r.value
                && r.value == value.(state := WaitingApproval, pendingApproval := m.approvalId, pendingAction := Sign(envelope, config.secret))
                && r.value.pendingAction.Some?
      ensures r.Err? ==>
                var before := old(approvals.files)[m.approvalId];
                if m.rejectFault.BeforeRename? then approvals.files == old(approvals.files)
                else if m.rejected >= before.expiresAt then approvals.files[m.approvalId].status == Approval.Expired
                else if before.status == Approval.Pending then approvals.files[m.approvalId].status == Approval.Rejected
                else approvals.files == old(approvals.files)
      ensures r.Err? ==> !r.error.ApprovalRefused?
      ensures var signed := Sign(envelope, config.secret);
              if signed.None? then r.Err? && store.tasks == old(store.tasks)
              else
                var waiting := Awaiting(value, signed.value, m.approvalId);
                var stored := FileStore.AfterOp(old(store.tasks), FileStore.Save(waiting, m.saved), m.saveFault);
                var kept := FileStore.Outcome(old(store.tasks), FileStore.Save(waiting, m.saved)).Ok? && m.saveFault.Clean?;
                && (r.Ok? <==> kept && m.appends >= PREPARE_APPENDS)
                && store.tasks == if kept && r.Err?
                                  then FileStore.AfterOp(stored, FileStore.Save(waiting.(state := Failed, failure := "trace append failed"), m.saved), m.failFault)
                                  else stored
    {
      var signed := Sign(envelope, config.secret);
      if signed.None? {
        var _ := approvals.Resolve(m.approvalId, false, "ActionEnvelope signing failed", m.rejected, m.rejectFault);
        return Err(SigningFailed);
      }
      var next := Awaiting(value, signed.value, m.approvalId);
      var saved := store.SaveTask(next, m.saved, m.saveFault);
      if saved.Err? {
        var _ := approvals.Resolve(m.approvalId, false, "Task persistence failed", m.rejected, m.rejectFault);
        return Err(SaveFailed(saved.error));
      }
      if m.appends < PREPARE_APPENDS {
        var _ := approvals.Resolve(m.approvalId, false, "Audit trace append failed", m.rejected, m.rejectFault);
        var _ := store.SaveTask(next.(state := Failed, failure := "trace append failed"), m.saved, m.failFault);
        return Err(TraceFailed);
      }
      return Ok(next);
    }

    /** Others act on the approval, if it is there. */
    method Meanwhile(id: string, acts: seq<Approval.Act>)
      requires Paths.ValidId(id) && (id in approvals.files ==> approvals.files[id].id == id)
      modifies approvals
      ensures approvals.files == if id in old(approvals.files) then old(approvals.files)[id := Approval.ActedAll(old(approvals.files)[id], acts)] else old(approvals.files)
    {
      ghost var before := approvals.files;
      var k := 0;
      assert acts[0..] == acts;
      while k < |acts| && id in approvals.files
        invariant 0 <= k <= |acts| && (id in approvals.files <==> id in before)
        invariant id in before ==> approvals.files[id].id == id && approvals.files == before[id := approvals.files[id]]
        invariant id in before ==> Approval.ActedAll(approvals.files[id], acts[k..]) == Approval.ActedAll(before[id], acts)
        invariant id !in before ==> approvals.files == before
      {
        ActOn(id, acts[k]);
        assert acts[k..][0] == acts[k] && acts[k..][1..] == acts[k + 1..];
        k := k + 1;
      }
    }

    method ActOn(id: string, act: Approval.Act)
      requires Paths.ValidId(id) && id in approvals.files && approvals.files[id].id == id
      modifies approvals
      ensures approvals.files == old(approvals.files)[id := Approval.Acted(old(approvals.files)[id], act)]
      ensures approvals.files[id].id == id
    {
      match act {
        case Judge(approve, reason, now, fault) => var _ := approvals.Resolve(id, approve, reason, now, fault);
        case Look(now, later, fault) => var _ := approvals.Get(id, Approval.Readings(now, later), fault);
        case Spend(b, now, later, fault) => var _ := approvals.Consume(id, b, now, later, fault);
      }
    }

    /**
      Prepare. On success the stored task waits for the approval, holding the
      signed envelope, and the approval is as others have left it: pending, if
      nobody was quick. LeavesUsable says exactly when a failure leaves an
      approval behind that can still be granted or spent.
     */
    method Prepare(value: Task, p: Proposal, s: Snapshot, m: Moment) returns (r: Result<Task, Refusal>)
      requires Paths.ValidId(m.approvalId) && m.approvalId !in approvals.files
      modifies approvals, store
      ensures forall id | id in old(approvals.files) :: id in approvals.files && approvals.files[id] == old(approvals.files)[id]
      ensures r.Ok? ==>
                && m.approvalId in approvals.files
                && approvals.files[m.approvalId] == Judged(config, value, p, s, m)
                && (m.meanwhile == [] ==> approvals.files[m.approvalId].status == Approval.Pending)
                && approvals.files[m.approvalId].binding == Bound(config, value, p, s, m.nonce)
                && r.value.id in store.tasks && store.tasks[r.value.id] == r.value
                && r.value == value.(state := WaitingApproval, pendingApproval := m.approvalId, pendingAction := r.value.pendingAction)
                && r.value.pendingAction == Sealed(config, value, p, s, m.now, m.nonce, m.approvalId)
                && r.value.pendingAction.Some?
      ensures r.Ok? <==> Preparable(config, old(store.tasks), value, p, s, m)
      ensures r.Ok? ==> m.appends >= 5 && m.createFault.Clean? && m.saveFault.Clean?
      ensures m.approvalId !in approvals.files ==> store.tasks == old(store.tasks)
      ensures r.Err? ==>
                (m.approvalId in approvals.files && approvals.files[m.approvalId].status in {Approval.Pending, Approval.Approved}
                 <==> LeavesUsable(config, value, p, s, m))
    {
      var refused := Screen(value, p, s, m.appends);
      if refused.Some? {
        return Err(refused.value);
      }
      var envelope := Unsealed(config, value, p, s, m.now, m.nonce);
      var binding := Binding(value.id, OfProposal(p), OfSnapshot(s), envelope.intentDigest, envelope.policyVersion, envelope.risk.level, p.tool, m.nonce);
      var record := approvals.Create(m.approvalId, binding, ApprovalTtl(config), m.created, m.createFault);
      Meanwhile(m.approvalId, m.meanwhile);
      ghost var made := Approval.NewRecord(m.approvalId, Bound(config, value, p, s, m.nonce), ApprovalTtl(config), m.created);
      Approval.ActsKeep(made, m.meanwhile);
      if record.Err? {
        return Err(ApprovalRefused(record.error));
      }
      r := Seal(value, envelope.(approvalId := record.value.id), m);
    }
  }
}
