/**
  Two processes over one directory of approval records.

  The server creates and resolves approvals; the executor validates and
  consumes them. Each process has its own mutex and there is no lock between
  them, so an operation is three steps (load, decide, save) and the other
  process may move between any two of them. Either process may die at any
  point and restart. A step that is not enabled leaves the state alone.
 */
module Protocol {
  import opened Wrappers
  import Paths
  import opened Contracts
  import opened Guard
  import Approval
  import Nonce
  import Validator

  type Record = Approval.Record

  datatype ServerOp = Resolve(approve: bool, reason: string) | Expire

  /** What the server process has in hand, under its mutex. */
  datatype ServerPc =
    | ServerIdle
    | ServerLoaded(op: ServerOp, record: Record)
    | ServerSaving(record: Record)

  datatype Stage = Checked | Validated | Reserved | Authorized

  /** One Execute call in flight. */
  datatype Request = Request(envelope: Envelope, required: bool, stage: Stage)

  /** The Consume call that holds the executor's mutex, if any. */
  datatype ExecutorPc =
    | ExecutorIdle
    | ConsumeLoaded(call: nat, record: Record)
    | ConsumeSaving(call: nat, record: Record)

  /** History: an approval published, and an envelope handed to its handler. */
  datatype Event = Granted(id: string, binding: Binding) | Ran(envelope: Envelope, required: bool)

  datatype State = State(
    clock: int,
    records: map<string, Record>,
    server: ServerPc,
    calls: map<nat, Request>,
    executor: ExecutorPc,
    nonces: Nonce.State,
    owners: map<string, Option<nat>>,  // history: each approval whose Consume succeeded, with the call that may still use it
    log: seq<Event>)

  datatype Step =
    | Tick(delta: nat)
    | ServerCreate(id: string, binding: Binding, ttl: int, fault: Fault)
    | ServerLoad(op: ServerOp, id: string)
    | ServerDecide
    | ServerSave(fault: Fault)
    | ServerCrash
    | Accept(call: nat, envelope: Envelope)
    | ValidateApproval(call: nat)
    | ReserveNonce(call: nat, surroundingsAllow: bool, fault: Fault)
    | LoadForConsume(call: nat)
    | DecideConsume
    | SaveConsume(fault: Fault)
    | RunHandler(call: nat)
    | Drop(call: nat)
    | ExecutorCrash

  const Start := State(0, map[], ServerIdle, map[], ExecutorIdle, Nonce.State(map[], map[]), map[], [])

  function Server(s: State, step: Step): State {
    match step
    case ServerCreate(id, b, ttl, fault) =>
      // id.New draws a fresh identifier and records are never deleted.
      if s.server != ServerIdle || id in s.records || !Approval.Complete(b) then s
      else s.(records := Approval.Saved(s.records, Approval.NewRecord(id, b, ttl, s.clock), fault))
    case ServerLoad(op, id) =>
      if s.server != ServerIdle || id !in s.records then s
      else s.(server := ServerLoaded(op, s.records[id]))
    case ServerDecide =>
      if !s.server.ServerLoaded? then s
      else
        var d := match s.server.op
          case Resolve(approve, reason) => Approval.ResolveDecision(s.server.record, approve, reason, s.clock)
          case Expire => Approval.ExpireDecision(s.server.record, s.clock, s.clock);
        s.(server := if d.write.Some? then ServerSaving(d.write.value) else ServerIdle)
    case ServerSave(fault) =>
      if !s.server.ServerSaving? then s
      else
        var r := s.server.record;
        s.(server := ServerIdle,
           records := Approval.Saved(s.records, r, fault),
           log := if r.status == Approval.Approved && !fault.BeforeRename? then s.log + [Granted(r.id, r.binding)] else s.log)
    case ServerCrash => s.(server := ServerIdle)
    case _ => s
  }

  function Executor(c: Validator.Config, s: State, step: Step): State {
    match step
    case Accept(n, e) =>
      var v := Validator.Check(c, e, s.clock);
      if n in s.calls || v.Err? || e.proposal.tool !in Validator.FIXED_HANDLERS then s
      else s.(calls := s.calls[n := Request(e, v.value.approvalRequired, Checked)])
    case ValidateApproval(n) =>
      if n !in s.calls || s.calls[n].stage != Checked || s.executor != ExecutorIdle then s
      else
        var q := s.calls[n];
        if q.required && Validator.ApprovalReply(s.records, q.envelope.approvalId, Validator.Rebound(q.envelope), s.clock).Err?
        then s.(calls := s.calls - {n})
        else s.(calls := s.calls[n := q.(stage := Validated)])
    case ReserveNonce(n, allowed, fault) =>
      if n !in s.calls || s.calls[n].stage != Validated then s
      else if !allowed then s.(calls := s.calls - {n})
      else
        var q := s.calls[n];
        var (nonces, reply) := Nonce.AfterReserve(s.nonces, q.envelope.nonce, q.envelope.expiresAt, s.clock, fault);
        s.(nonces := nonces, calls := if reply.Ok? then s.calls[n := q.(stage := Reserved)] else s.calls - {n})
    case Drop(n) =>
      if !s.executor.ExecutorIdle? && s.executor.call == n then s else s.(calls := s.calls - {n})
    case ExecutorCrash =>
      s.(calls := map[], executor := ExecutorIdle, nonces := Nonce.State(s.nonces.file, s.nonces.file))
    case _ => s
  }

  function Spend(s: State, step: Step): State {
    match step
    case LoadForConsume(n) =>
      if n !in s.calls || s.executor != ExecutorIdle || s.calls[n].stage != Reserved || !s.calls[n].required
         || !Paths.ValidId(s.calls[n].envelope.approvalId) || s.calls[n].envelope.approvalId !in s.records
      then s
      else s.(executor := ConsumeLoaded(n, s.records[s.calls[n].envelope.approvalId]))
    case DecideConsume =>
      if !s.executor.ConsumeLoaded? || s.executor.call !in s.calls then s
      else
        var d := Approval.ConsumeDecision(s.executor.record, Validator.Rebound(s.calls[s.executor.call].envelope), s.clock, s.clock);
        if d.write.Some? then s.(executor := ConsumeSaving(s.executor.call, d.write.value))
        else s.(executor := ExecutorIdle, calls := s.calls - {s.executor.call})
    case SaveConsume(fault) =>
      if !s.executor.ConsumeSaving? || s.executor.call !in s.calls then s
      else
        var n, r := s.executor.call, s.executor.record;
        var saved := s.(executor := ExecutorIdle, records := Approval.Saved(s.records, r, fault));
        if fault.Clean? then saved.(calls := s.calls[n := s.calls[n].(stage := Authorized)], owners := s.owners[r.id := Some(n)])
        else saved.(calls := s.calls - {n})
    case RunHandler(n) =>
      if n !in s.calls || s.calls[n].stage != (if s.calls[n].required then Authorized else Reserved) then s
      else
        var q := s.calls[n];
        s.(calls := s.calls - {n}, log := s.log + [Ran(q.envelope, q.required)],
           owners := if q.required then s.owners[q.envelope.approvalId := None] else s.owners)
    case _ => s
  }

  function Next(c: Validator.Config, s: State, step: Step): State {
    match step
    case Tick(d) => s.(clock := s.clock + d)
    case ServerCreate(_, _, _, _) => Server(s, step)
    case ServerLoad(_, _) => Server(s, step)
    case ServerDecide => Server(s, step)
    case ServerSave(_) => Server(s, step)
    case ServerCrash => Server(s, step)
    case LoadForConsume(_) => Spend(s, step)
    case DecideConsume => Spend(s, step)
    case SaveConsume(_) => Spend(s, step)
    case RunHandler(_) => Spend(s, step)
    case _ => Executor(c, s, step)
  }

  function Run(c: Validator.Config, s: State, steps: seq<Step>): State
    decreases |steps|
  {
    if steps == [] then s else Run(c, Next(c, s, steps[0]), steps[1..])
  }

  // ----- the invariant

  /** A record in hand still names the stored record. */
  ghost predicate InHand(s: State, r: Record) {
    r.id in s.records && s.records[r.id].binding == r.binding
  }

  /** What the server loaded as pending, or is about to approve, is still pending on disk. */
  ghost predicate ServerOk(s: State) {
    s.server.ServerIdle? ||
    var r := s.server.record;
    && InHand(s, r)
    && (s.server.ServerLoaded? && r.status == Approval.Pending ==> s.records[r.id].status == Approval.Pending)
    && (s.server.ServerSaving? ==> r.status != Approval.Pending)
    && (s.server.ServerSaving? && r.status == Approval.Approved ==> s.records[r.id].status == Approval.Pending)
  }

  ghost predicate RecordsOk(s: State) {
    && Approval.WellKeyed(s.records)
    && forall id <- s.records :: s.records[id].status == Approval.Approved ==> Granted(id, s.records[id].binding) in s.log
  }

  /** The record a Consume in progress found approved: granted, no longer pending, and spent by nobody. */
  ghost predicate Available(s: State, r: Record) {
    InHand(s, r) && r.id !in s.owners && s.records[r.id].status != Approval.Pending && Granted(r.id, r.binding) in s.log
  }

  ghost predicate ConsumeOk(s: State) {
    s.executor.ExecutorIdle? ||
    var n, r := s.executor.call, s.executor.record;
    && n in s.calls && s.calls[n].stage == Reserved && s.calls[n].required && s.calls[n].envelope.approvalId == r.id
    && InHand(s, r)
    && (s.executor.ConsumeLoaded? && r.status == Approval.Approved ==> Available(s, r))
    && (s.executor.ConsumeSaving? ==>
          r.status == Approval.Consumed && r.binding == Validator.Rebound(s.calls[n].envelope) && Available(s, r))
  }

  /** A spent approval is settled on disk, and only its owner may still run with it. */
  ghost predicate OwnersOk(s: State) {
    && (forall id <- s.owners :: id in s.records && Approval.Settled(s.records[id].status))
    && (forall n <- s.calls :: s.calls[n].stage == Authorized ==>
          var e := s.calls[n].envelope;
          && s.calls[n].required
          && e.approvalId in s.owners && s.owners[e.approvalId] == Some(n)
          && Granted(e.approvalId, Validator.Rebound(e)) in s.log)
  }

  /** The property the protocol is for. */
  ghost predicate AtMostOnce(log: seq<Event>) {
    && (forall i, j | 0 <= i < j < |log| && log[i].Ran? && log[j].Ran? && log[i].required && log[j].required ::
          log[i].envelope.approvalId != log[j].envelope.approvalId)
    && (forall i | 0 <= i < |log| && log[i].Ran? && log[i].required ::
          Granted(log[i].envelope.approvalId, Validator.Rebound(log[i].envelope)) in log[..i])
  }

  /** No approval that has run has an owner left. */
  ghost predicate LogOk(s: State) {
    && AtMostOnce(s.log)
    && (forall i | 0 <= i < |s.log| && s.log[i].Ran? && s.log[i].required ::
          s.log[i].envelope.approvalId in s.owners && s.owners[s.log[i].envelope.approvalId] == None)
  }

  ghost predicate Inv(s: State) {
    ServerOk(s) && RecordsOk(s) && ConsumeOk(s) && OwnersOk(s) && LogOk(s)
  }

  /** Records are never deleted, and a settled one stays settled. */
  ghost predicate Monotone(before: map<string, Record>, after: map<string, Record>) {
    forall id <- before :: id in after && (Approval.Settled(before[id].status) ==> Approval.Settled(after[id].status))
  }

  // ----- preservation, step by step

  lemma {:induction false} AtMostOnceExtends(log: seq<Event>, e: Event)
    requires AtMostOnce(log)
    requires e.Ran? && e.required ==>
               && Granted(e.envelope.approvalId, Validator.Rebound(e.envelope)) in log
               && forall i | 0 <= i < |log| && log[i].Ran? && log[i].required :: log[i].envelope.approvalId != e.envelope.approvalId
    ensures AtMostOnce(log + [e])
  {
    assert forall i | 0 <= i < |log| :: (log + [e])[..i] == log[..i];
    assert (log + [e])[..|log|] == log;
  }

  lemma {:induction false} CreateKeepsInv(s: State, step: Step)
    requires Inv(s) && step.ServerCreate?
    ensures Inv(Server(s, step)) && Monotone(s.records, Server(s, step).records)
  {
  }

  lemma {:induction false} LoadAndDecideKeepInv(s: State, step: Step)
    requires Inv(s) && (step.ServerLoad? || step.ServerDecide? || step.ServerCrash?)
    ensures Inv(Server(s, step)) && Server(s, step).records == s.records
  {
    if step.ServerDecide? && s.server.ServerLoaded? {
      var r := s.server.record;
      match s.server.op {
        case Resolve(approve, reason) => Approval.DecisionsPreserve(r, approve, reason, r.binding, s.clock, s.clock);
        case Expire => Approval.DecisionsPreserve(r, false, "", r.binding, s.clock, s.clock);
      }
    }
  }

  lemma {:induction false} ServerSaveKeepsInv(s: State, step: Step)
    requires Inv(s) && step.ServerSave?
    ensures Inv(Server(s, step)) && Monotone(s.records, Server(s, step).records)
  {
    if s.server.ServerSaving? {
      var r := s.server.record;
      if r.status == Approval.Approved && !step.fault.BeforeRename? {
        AtMostOnceExtends(s.log, Granted(r.id, r.binding));
      }
    }
  }

  /** Calls may come, go and advance freely as long as none becomes authorised and the consuming one stays put. */
  lemma {:induction false} CallsFrame(s: State, calls: map<nat, Request>, nonces: Nonce.State)
    requires Inv(s)
    requires forall n <- calls :: calls[n].stage == Authorized ==> n in s.calls && calls[n] == s.calls[n]
    requires !s.executor.ExecutorIdle? ==> s.executor.call in calls && calls[s.executor.call] == s.calls[s.executor.call]
    ensures Inv(s.(calls := calls, nonces := nonces))
  {
    var s' := s.(calls := calls, nonces := nonces);
    assert OwnersOk(s');
    assert ConsumeOk(s');
  }

  lemma {:induction false} CallStepsFit(c: Validator.Config, s: State, step: Step)
    requires ConsumeOk(s) && !step.ExecutorCrash?
    ensures var s' := Executor(c, s, step);
            && s' == s.(calls := s'.calls, nonces := s'.nonces)
            && (forall n <- s'.calls :: s'.calls[n].stage == Authorized ==> n in s.calls && s'.calls[n] == s.calls[n])
            && (!s.executor.ExecutorIdle? ==> s.executor.call in s'.calls && s'.calls[s.executor.call] == s.calls[s.executor.call])
  {
  }

  lemma {:induction false} CrashKeepsInv(s: State)
    requires Inv(s)
    ensures Inv(s.(executor := ExecutorIdle))
  {
    var s' := s.(executor := ExecutorIdle);
    assert ServerOk(s') && RecordsOk(s') && OwnersOk(s') && LogOk(s');
  }

  lemma {:induction false} CallsKeepInv(c: Validator.Config, s: State, step: Step)
    requires Inv(s)
    ensures Inv(Executor(c, s, step)) && Executor(c, s, step).records == s.records
  {
    if step.ExecutorCrash? {
      CrashKeepsInv(s);
      CallsFrame(s.(executor := ExecutorIdle), map[], Nonce.State(s.nonces.file, s.nonces.file));
    } else {
      var s' := Executor(c, s, step);
      CallStepsFit(c, s, step);
      CallsFrame(s, s'.calls, s'.nonces);
    }
  }

  lemma {:induction false} LoadForConsumeKeepsInv(s: State, step: Step)
    requires Inv(s) && step.LoadForConsume?
    ensures Inv(Spend(s, step)) && Spend(s, step).records == s.records
  {
    var s' := Spend(s, step);
    assert s' == s.(executor := s'.executor);
    assert ConsumeOk(s');
  }

  lemma {:induction false} DecideConsumeKeepsInv(s: State, step: Step)
    requires Inv(s) && step.DecideConsume?
    ensures Inv(Spend(s, step)) && Spend(s, step).records == s.records
  {
    var s' := Spend(s, step);
    if s.executor.ConsumeLoaded? && s'.executor.ExecutorIdle? {
      CrashKeepsInv(s);
      CallsFrame(s.(executor := ExecutorIdle), s.calls - {s.executor.call}, s.nonces);
    } else {
      assert s' == s.(executor := s'.executor);
      assert ConsumeOk(s');
    }
  }

  /** The record file after the save of a Consume, whichever way the save ended. */
  lemma {:induction false} ConsumedRecordsFit(s: State, records: map<string, Record>)
    requires Inv(s) && s.executor.ConsumeSaving?
    requires records == s.records || records == s.records[s.executor.record.id := s.executor.record]
    ensures Inv(s.(records := records)) && Monotone(s.records, records)
  {
    var s' := s.(records := records);
    assert InHand(s, s.executor.record);
    assert ServerOk(s') && RecordsOk(s') && OwnersOk(s');
  }

  lemma {:induction false} SaveConsumeKeepsInv(s: State, step: Step)
    requires Inv(s) && step.SaveConsume?
    ensures Inv(Spend(s, step)) && Monotone(s.records, Spend(s, step).records)
  {
    if s.executor.ConsumeSaving? {
      var n, r := s.executor.call, s.executor.record;
      var saved := s.(records := Approval.Saved(s.records, r, step.fault));
      ConsumedRecordsFit(s, saved.records);
      var idle := saved.(executor := ExecutorIdle);
      CrashKeepsInv(saved);
      if step.fault.Clean? {
        OwnerGains(saved, idle);
      } else {
        CallsFrame(idle, s.calls - {n}, s.nonces);
      }
    }
  }

  /** A Consume that is acknowledged hands its approval to its call. */
  lemma {:induction false} OwnerGains(saved: State, idle: State)
    requires Inv(saved) && saved.executor.ConsumeSaving? && idle == saved.(executor := ExecutorIdle)
    requires saved.records[saved.executor.record.id] == saved.executor.record
    ensures var n, r := saved.executor.call, saved.executor.record;
            Inv(idle.(calls := saved.calls[n := saved.calls[n].(stage := Authorized)], owners := saved.owners[r.id := Some(n)]))
  {
    var n, r := saved.executor.call, saved.executor.record;
    var s' := idle.(calls := saved.calls[n := saved.calls[n].(stage := Authorized)], owners := saved.owners[r.id := Some(n)]);
    assert OwnersOk(s');
    assert LogOk(s');
  }

  lemma {:induction false} RunHandlerKeepsInv(s: State, step: Step)
    requires Inv(s) && step.RunHandler?
    ensures Inv(Spend(s, step)) && Spend(s, step).records == s.records
  {
    if Spend(s, step) != s {
      AtMostOnceExtends(s.log, Ran(s.calls[step.call].envelope, s.calls[step.call].required));
    }
  }

  // ----- every run

  lemma {:induction false} StepKeepsInv(c: Validator.Config, s: State, step: Step)
    requires Inv(s)
    ensures Inv(Next(c, s, step)) && Monotone(s.records, Next(c, s, step).records)
  {
    match step
    case Tick(_) =>
    case ServerCreate(_, _, _, _) => CreateKeepsInv(s, step);
    case ServerLoad(_, _) => LoadAndDecideKeepInv(s, step);
    case ServerDecide => LoadAndDecideKeepInv(s, step);
    case ServerCrash => LoadAndDecideKeepInv(s, step);
    case ServerSave(_) => ServerSaveKeepsInv(s, step);
    case LoadForConsume(_) => LoadForConsumeKeepsInv(s, step);
    case DecideConsume => DecideConsumeKeepsInv(s, step);
    case SaveConsume(_) => SaveConsumeKeepsInv(s, step);
    case RunHandler(_) => RunHandlerKeepsInv(s, step);
    case _ => CallsKeepInv(c, s, step);
  }

  lemma {:induction false} RunKeepsInv(c: Validator.Config, s: State, steps: seq<Step>)
    requires Inv(s)
    ensures Inv(Run(c, s, steps)) && Monotone(s.records, Run(c, s, steps).records)
    decreases |steps|
  {
    if steps != [] {
      StepKeepsInv(c, s, steps[0]);
      RunKeepsInv(c, Next(c, s, steps[0]), steps[1..]);
    }
  }

  /**
    Over every interleaving of the two processes, with crashes, failed saves
    and replayed envelopes: a handler runs at most once per approval, and only
    after that approval was granted for the identical binding.
   */
  lemma {:induction false} HandlerRunsAtMostOnce(c: Validator.Config, steps: seq<Step>)
    ensures AtMostOnce(Run(c, Start, steps).log)
  {
    RunKeepsInv(c, Start, steps);
  }

  /** Nothing leads back: an approval that is rejected, consumed or expired at some point of a run is never usable after it. */
  lemma {:induction false} SettledForever(c: Validator.Config, before: seq<Step>, after: seq<Step>, id: string)
    requires id in Run(c, Start, before).records
    requires Run(c, Start, before).records[id].status in {Approval.Rejected, Approval.Consumed, Approval.Expired}
    ensures id in Run(c, Run(c, Start, before), after).records
    ensures Run(c, Run(c, Start, before), after).records[id].status in {Approval.Rejected, Approval.Consumed, Approval.Expired}
  {
    RunKeepsInv(c, Start, before);
    RunKeepsInv(c, Run(c, Start, before), after);
  }

  // ----- what ran was fit to run, and is what was granted

  /** Whether an envelope, with this answer to whether it needs an approval, may be a call, and one whose nonce is reserved. */
  type Fitness = (Envelope, bool, bool) -> bool

  predicate Cleared(q: Request) {
    q.stage == Reserved || q.stage == Authorized
  }

  /** Whatever is called or has run is fit; whatever was granted is still bound as it was. */
  ghost predicate Witnessed(fit: Fitness, calls: map<nat, Request>, records: map<string, Record>, log: seq<Event>) {
    && (forall n <- calls :: fit(calls[n].envelope, calls[n].required, Cleared(calls[n])))
    && (forall ev <- log :: if ev.Ran? then fit(ev.envelope, ev.required, true) else ev.id in records && records[ev.id].binding == ev.binding)
  }

  /** Records come and change, but keep their binding. */
  ghost predicate BindingsKept(before: map<string, Record>, after: map<string, Record>) {
    forall id <- before :: id in after && after[id].binding == before[id].binding
  }

  lemma {:induction false} ServerKeepsBindings(s: State, step: Step)
    requires ServerOk(s)
    ensures BindingsKept(s.records, Server(s, step).records)
  {
  }

  lemma {:induction false} SpendKeepsBindings(s: State, step: Step)
    requires ConsumeOk(s)
    ensures BindingsKept(s.records, Spend(s, step).records)
  {
  }

  lemma {:induction false} StepKeepsBindings(c: Validator.Config, s: State, step: Step)
    requires Inv(s)
    ensures BindingsKept(s.records, Next(c, s, step).records)
  {
    ServerKeepsBindings(s, step);
    SpendKeepsBindings(s, step);
    CallsKeepInv(c, s, step);
  }

  /** A new call is fit, and so is one that gets past the scope, the target and the nonce. */
  ghost predicate Admits(c: Validator.Config, s: State, step: Step, fit: Fitness) {
    && (step.Accept? && Validator.Check(c, step.envelope, s.clock).Ok? && step.envelope.proposal.tool in Validator.FIXED_HANDLERS ==>
          fit(step.envelope, Validator.Check(c, step.envelope, s.clock).value.approvalRequired, false))
    && (step.ReserveNonce? && step.surroundingsAllow && step.fault.Clean? && step.call in s.calls ==>
          fit(s.calls[step.call].envelope, s.calls[step.call].required, true))
  }

  lemma {:induction false} CallStepsWitnessed(c: Validator.Config, s: State, step: Step, fit: Fitness)
    requires Witnessed(fit, s.calls, s.records, s.log) && Admits(c, s, step, fit)
    ensures Witnessed(fit, Executor(c, s, step).calls, s.records, s.log)
  {
  }

  lemma {:induction false} SpendWitnessed(s: State, step: Step, fit: Fitness)
    requires Inv(s) && Witnessed(fit, s.calls, s.records, s.log)
    ensures Witnessed(fit, Spend(s, step).calls, s.records, Spend(s, step).log)
  {
  }

  lemma {:induction false} ServerWitnessed(s: State, step: Step, fit: Fitness)
    requires Inv(s) && Witnessed(fit, s.calls, s.records, s.log)
    ensures Witnessed(fit, s.calls, Server(s, step).records, Server(s, step).log)
  {
    ServerKeepsBindings(s, step);
  }

  lemma {:induction false} StepKeepsWitnessed(c: Validator.Config, s: State, step: Step, fit: Fitness)
    requires Inv(s) && Witnessed(fit, s.calls, s.records, s.log) && Admits(c, s, step, fit)
    ensures var s' := Next(c, s, step); Witnessed(fit, s'.calls, s'.records, s'.log)
  {
    StepKeepsBindings(c, s, step);
    ServerWitnessed(s, step, fit);
    CallStepsWitnessed(c, s, step, fit);
    SpendWitnessed(s, step, fit);
  }

  /** The envelope was accepted at a step of the run, and was alive then. */
  ghost predicate AcceptedIn(c: Validator.Config, steps: seq<Step>, e: Envelope) {
    exists i | 0 <= i < |steps| ::
      steps[i].Accept? && steps[i].envelope == e && Validator.Alive(c, e, Run(c, Start, steps[..i]).clock)
  }

  /** At a step of the run its scope and target agreed, and its nonce was reserved and stored. */
  ghost predicate ClearedIn(c: Validator.Config, steps: seq<Step>, e: Envelope) {
    exists i | 0 <= i < |steps| ::
      && steps[i].ReserveNonce? && steps[i].surroundingsAllow && steps[i].fault.Clean?
      && IsCall(Run(c, Start, steps[..i]), steps[i].call, e)
  }

  predicate IsCall(s: State, call: nat, e: Envelope) {
    call in s.calls && s.calls[call].envelope == e
  }

  /** Signed, coherent, warranted by the policy, for a handler there is, and accepted while it was alive. */
  ghost predicate Fit(c: Validator.Config, steps: seq<Step>, e: Envelope, required: bool, cleared: bool) {
    && Validator.Acceptable(c, e) && e.proposal.tool in Validator.FIXED_HANDLERS
    && (required <==> NeedsApproval(c.pipeline, e.proposal))
    && AcceptedIn(c, steps, e) && (cleared ==> ClearedIn(c, steps, e))
  }

  ghost function FitIn(c: Validator.Config, steps: seq<Step>): Fitness {
    (e: Envelope, required: bool, cleared: bool) => Fit(c, steps, e, required, cleared)
  }

  lemma {:induction false} RunSnoc(c: Validator.Config, s: State, steps: seq<Step>, step: Step)
    ensures Run(c, s, steps + [step]) == Next(c, Run(c, s, steps), step)
  {
    RunAppend(c, s, steps, [step]);
    assert [step][1..] == [];
  }

  /** What has happened in a run has happened in every longer one. */
  lemma {:induction false} HappenedStays(c: Validator.Config, steps: seq<Step>, step: Step, e: Envelope)
    ensures AcceptedIn(c, steps, e) ==> AcceptedIn(c, steps + [step], e)
    ensures ClearedIn(c, steps, e) ==> ClearedIn(c, steps + [step], e)
  {
    var more := steps + [step];
    forall i | 0 <= i < |steps|
      ensures more[..i] == steps[..i] && more[i] == steps[i]
    {
    }
  }

  lemma {:induction false} WitnessedStays(c: Validator.Config, steps: seq<Step>, step: Step, s: State)
    requires Witnessed(FitIn(c, steps), s.calls, s.records, s.log)
    ensures Witnessed(FitIn(c, steps + [step]), s.calls, s.records, s.log)
  {
    forall e, required, cleared | FitIn(c, steps)(e, required, cleared)
      ensures FitIn(c, steps + [step])(e, required, cleared)
    {
      HappenedStays(c, steps, step, e);
    }
  }

  lemma {:induction false} AcceptAdmits(c: Validator.Config, steps: seq<Step>, step: Step)
    requires step.Accept?
    ensures Admits(c, Run(c, Start, steps), step, FitIn(c, steps + [step]))
  {
    var s, more := Run(c, Start, steps), steps + [step];
    assert more[..|steps|] == steps && more[|steps|] == step;
    Validator.CheckIff(c, step.envelope, s.clock);
    if Validator.Alive(c, step.envelope, s.clock) {
      assert AcceptedIn(c, more, step.envelope);
    }
  }

  lemma {:induction false} ReserveAdmits(c: Validator.Config, steps: seq<Step>, step: Step)
    requires step.ReserveNonce? && step.surroundingsAllow && step.fault.Clean? && step.call in Run(c, Start, steps).calls
    requires var q := Run(c, Start, steps).calls[step.call]; Fit(c, steps, q.envelope, q.required, Cleared(q))
    ensures var q := Run(c, Start, steps).calls[step.call]; Fit(c, steps + [step], q.envelope, q.required, true)
  {
    var more := steps + [step];
    assert more[..|steps|] == steps && more[|steps|] == step;
    var q := Run(c, Start, steps).calls[step.call];
    HappenedStays(c, steps, step, q.envelope);
    assert IsCall(Run(c, Start, more[..|steps|]), step.call, q.envelope);
  }

  lemma {:induction false} StepAdmits(c: Validator.Config, steps: seq<Step>, step: Step)
    requires var s := Run(c, Start, steps); Witnessed(FitIn(c, steps), s.calls, s.records, s.log)
    ensures Admits(c, Run(c, Start, steps), step, FitIn(c, steps + [step]))
  {
    var s := Run(c, Start, steps);
    if step.Accept? {
      AcceptAdmits(c, steps, step);
    } else if step.ReserveNonce? && step.surroundingsAllow && step.fault.Clean? && step.call in s.calls {
      var q := s.calls[step.call];
      assert FitIn(c, steps)(q.envelope, q.required, Cleared(q));
      ReserveAdmits(c, steps, step);
    }
  }

  lemma {:induction false} RunWitnessed(c: Validator.Config, steps: seq<Step>)
    ensures var s := Run(c, Start, steps); Witnessed(FitIn(c, steps), s.calls, s.records, s.log)
    decreases |steps|
  {
    if steps != [] {
      var before, step := steps[..|steps| - 1], steps[|steps| - 1];
      assert steps == before + [step];
      RunWitnessed(c, before);
      RunKeepsInv(c, Start, before);
      RunSnoc(c, Start, before, step);
      WitnessedStays(c, before, step, Run(c, Start, before));
      StepAdmits(c, before, step);
      StepKeepsWitnessed(c, Run(c, Start, before), step, FitIn(c, steps));
    }
  }

  /**
    Over the same runs, whatever ran was signed by the holder of the secret,
    coherent, warranted by the executor's own policy and meant for a handler
    there is; it was accepted while it was alive, and before it ran its scope
    and target agreed and its nonce was reserved.
   */
  lemma {:induction false} RanWasFit(c: Validator.Config, steps: seq<Step>, i: nat)
    requires i < |Run(c, Start, steps).log| && Run(c, Start, steps).log[i].Ran?
    ensures var e := Run(c, Start, steps).log[i].envelope;
            && Validator.Authentic(c, e) && Validator.Coherent(e) && Validator.Warranted(c, e)
            && e.proposal.tool in Validator.FIXED_HANDLERS
            && AcceptedIn(c, steps, e) && ClearedIn(c, steps, e)
  {
    RunWitnessed(c, steps);
    var ev := Run(c, Start, steps).log[i];
    assert ev in Run(c, Start, steps).log && FitIn(c, steps)(ev.envelope, ev.required, true);
  }

  /** What ran under an approval did so under the binding on record. */
  lemma {:induction false} RanWasBound(c: Validator.Config, steps: seq<Step>, i: nat)
    requires i < |Run(c, Start, steps).log| && Run(c, Start, steps).log[i].Ran? && Run(c, Start, steps).log[i].required
    ensures var s := Run(c, Start, steps);
            var ran := s.log[i].envelope;
            ran.approvalId in s.records && s.records[ran.approvalId].binding == Validator.Rebound(ran)
  {
    var s := Run(c, Start, steps);
    RunKeepsInv(c, Start, steps);
    RunWitnessed(c, steps);
    var granted := Granted(s.log[i].envelope.approvalId, Validator.Rebound(s.log[i].envelope));
    assert granted in s.log[..i];
    assert granted in s.log;
  }

  /**
    Nothing that the policy wants approved ever ran without an approval, and
    what ran under one is the action it was granted for: every acceptable
    envelope that the approval's binding describes has the proposal, snapshot,
    risk, task, session, intent, policy and nonce of the one that ran.
   */
  lemma {:induction false} RanActionWasGranted(c: Validator.Config, steps: seq<Step>, i: nat, asked: Envelope)
    requires i < |Run(c, Start, steps).log| && Run(c, Start, steps).log[i].Ran?
    requires Validator.Acceptable(c, asked)
    ensures var s := Run(c, Start, steps);
            var ran := s.log[i].envelope;
            && (s.log[i].required <==> NeedsApproval(c.pipeline, ran.proposal))
            && (s.log[i].required ==> ran.approvalId in s.records && Validator.Describes(s.records[ran.approvalId].binding, ran))
            && (s.log[i].required && Validator.Describes(s.records[ran.approvalId].binding, asked) ==>
                  Validator.SameAction(asked, ran))
  {
    RunWitnessed(c, steps);
    var ev := Run(c, Start, steps).log[i];
    assert ev in Run(c, Start, steps).log && FitIn(c, steps)(ev.envelope, ev.required, true);
    if ev.required {
      RanWasBound(c, steps, i);
      Validator.ReboundDescribes(c, ev.envelope);
      Validator.ReboundDescribes(c, asked);
      if Validator.Rebound(ev.envelope) == Validator.Rebound(asked) {
        Validator.BindingDeterminesAction(c, ev.envelope, asked);
      }
    }
  }

  // ----- what was granted, the operator granted

  type Backing = (string, Binding) -> bool

  /** An approval about to be published was decided, and one that counts as granted was decided and published. */
  ghost predicate Backed(decided: Backing, published: Backing, server: ServerPc, log: seq<Event>) {
    && (server.ServerSaving? && server.record.status == Approval.Approved ==> decided(server.record.id, server.record.binding))
    && (forall ev <- log :: ev.Granted? ==> decided(ev.id, ev.binding) && published(ev.id, ev.binding))
  }

  /** The operator's approving verdict on a record that is loaded as pending and in time. */
  predicate Approves(s: State, step: Step, id: string, b: Binding) {
    && step.ServerDecide? && s.server.ServerLoaded? && s.server.op.Resolve? && s.server.op.approve
    && s.server.record.id == id && s.server.record.binding == b
    && s.server.record.status == Approval.Pending && s.clock < s.server.record.expiresAt
  }

  /** The save that puts an approved record in the directory. */
  predicate Publishes(s: State, step: Step, id: string, b: Binding) {
    && step.ServerSave? && !step.fault.BeforeRename? && s.server.ServerSaving?
    && s.server.record.id == id && s.server.record.binding == b && s.server.record.status == Approval.Approved
  }

  lemma {:induction false} ServerStepBacked(s: State, step: Step, decided: Backing, published: Backing)
    requires Backed(decided, published, s.server, s.log)
    requires forall id, b :: Approves(s, step, id, b) ==> decided(id, b)
    requires forall id, b :: Publishes(s, step, id, b) ==> published(id, b)
    ensures Backed(decided, published, Server(s, step).server, Server(s, step).log)
  {
    if step.ServerDecide? && s.server.ServerLoaded? {
      var r := s.server.record;
      if s.server.op.Resolve? {
        Approval.VerdictStandsIff(r, s.server.op.approve, s.server.op.reason, s.clock);
      } else {
        Approval.ReadingExpiresIff(r, s.clock, s.clock);
      }
      assert Server(s, step).server.ServerSaving? && Server(s, step).server.record.status == Approval.Approved ==> Approves(s, step, r.id, r.binding);
    }
    if step.ServerSave? && s.server.ServerSaving? {
      assert s.server.record.status == Approval.Approved && !step.fault.BeforeRename? ==>
          Publishes(s, step, s.server.record.id, s.server.record.binding);
    }
  }

  lemma {:induction false} StepBacked(c: Validator.Config, s: State, step: Step, decided: Backing, published: Backing)
    requires Backed(decided, published, s.server, s.log)
    requires forall id, b :: Approves(s, step, id, b) ==> decided(id, b)
    requires forall id, b :: Publishes(s, step, id, b) ==> published(id, b)
    ensures Backed(decided, published, Next(c, s, step).server, Next(c, s, step).log)
  {
    ServerStepBacked(s, step, decided, published);
  }

  ghost predicate DecidedIn(c: Validator.Config, steps: seq<Step>, id: string, b: Binding) {
    exists i | 0 <= i < |steps| :: Approves(Run(c, Start, steps[..i]), steps[i], id, b)
  }

  ghost predicate PublishedIn(c: Validator.Config, steps: seq<Step>, id: string, b: Binding) {
    exists i | 0 <= i < |steps| :: Publishes(Run(c, Start, steps[..i]), steps[i], id, b)
  }

  ghost function Decided(c: Validator.Config, steps: seq<Step>): Backing {
    (id: string, b: Binding) => DecidedIn(c, steps, id, b)
  }

  ghost function Published(c: Validator.Config, steps: seq<Step>): Backing {
    (id: string, b: Binding) => PublishedIn(c, steps, id, b)
  }

  lemma {:induction false} BackingGrows(c: Validator.Config, steps: seq<Step>, step: Step, id: string, b: Binding)
    ensures DecidedIn(c, steps, id, b) || Approves(Run(c, Start, steps), step, id, b) ==> DecidedIn(c, steps + [step], id, b)
    ensures PublishedIn(c, steps, id, b) || Publishes(Run(c, Start, steps), step, id, b) ==> PublishedIn(c, steps + [step], id, b)
  {
    var more := steps + [step];
    assert more[..|steps|] == steps && more[|steps|] == step;
    forall i | 0 <= i < |steps|
      ensures more[..i] == steps[..i] && more[i] == steps[i]
    {
    }
  }

  lemma {:induction false} RunBacked(c: Validator.Config, steps: seq<Step>)
    ensures var s := Run(c, Start, steps); Backed(Decided(c, steps), Published(c, steps), s.server, s.log)
    decreases |steps|
  {
    if steps != [] {
      var before, step := steps[..|steps| - 1], steps[|steps| - 1];
      assert steps == before + [step];
      RunBacked(c, before);
      RunSnoc(c, Start, before, step);
      forall id, b
        ensures DecidedIn(c, before, id, b) || Approves(Run(c, Start, before), step, id, b) ==> DecidedIn(c, steps, id, b)
        ensures PublishedIn(c, before, id, b) || Publishes(Run(c, Start, before), step, id, b) ==> PublishedIn(c, steps, id, b)
      {
        BackingGrows(c, before, step, id, b);
      }
      StepBacked(c, Run(c, Start, before), step, Decided(c, steps), Published(c, steps));
    }
  }

  /** Whatever counts as granted in a run was approved at one of its steps by a verdict on the pending record, in time, and published at another. */
  lemma {:induction false} GrantedByVerdict(c: Validator.Config, steps: seq<Step>, i: nat)
    requires i < |Run(c, Start, steps).log| && Run(c, Start, steps).log[i].Granted?
    ensures var ev := Run(c, Start, steps).log[i]; DecidedIn(c, steps, ev.id, ev.binding) && PublishedIn(c, steps, ev.id, ev.binding)
  {
    RunBacked(c, steps);
    var ev := Run(c, Start, steps).log[i];
    assert ev in Run(c, Start, steps).log;
    assert Decided(c, steps)(ev.id, ev.binding) && Published(c, steps)(ev.id, ev.binding);
  }

  /** A crash takes what a process has in hand; the records and the nonce file stay. */
  lemma {:induction false} CrashesForget(c: Validator.Config, s: State)
    ensures Next(c, s, ServerCrash) == s.(server := ServerIdle)
    ensures Next(c, s, ExecutorCrash) == s.(calls := map[], executor := ExecutorIdle, nonces := Nonce.State(s.nonces.file, s.nonces.file))
    ensures forall n :: n !in Next(c, s, Drop(n)).calls || (!s.executor.ExecutorIdle? && s.executor.call == n)
  {
  }

  /** A call that is refused is over: by the approval, by scope or target, by the nonce, or at the attempt to spend. */
  lemma {:induction false} RefusalsEndCalls(c: Validator.Config, s: State, n: nat, fault: Fault)
    requires n in s.calls
    ensures var q := s.calls[n];
            s.executor == ExecutorIdle && q.stage == Checked && q.required
            && Validator.ApprovalReply(s.records, q.envelope.approvalId, Validator.Rebound(q.envelope), s.clock).Err? ==>
              n !in Next(c, s, ValidateApproval(n)).calls
    ensures s.calls[n].stage == Validated ==> n !in Next(c, s, ReserveNonce(n, false, fault)).calls
    ensures var q := s.calls[n];
            q.stage == Validated && Nonce.AfterReserve(s.nonces, q.envelope.nonce, q.envelope.expiresAt, s.clock, fault).1.Err? ==>
              n !in Next(c, s, ReserveNonce(n, true, fault)).calls
    ensures var q := s.calls[n];
            s.executor.ConsumeLoaded? && s.executor.call == n
            && Approval.ConsumeDecision(s.executor.record, Validator.Rebound(q.envelope), s.clock, s.clock).write.None? ==>
              n !in Next(c, s, DecideConsume).calls && Next(c, s, DecideConsume).executor == ExecutorIdle
    ensures s.executor.ConsumeSaving? && s.executor.call == n && !fault.Clean? ==> n !in Next(c, s, SaveConsume(fault)).calls
  {
  }

  /** And a call that is not refused goes on: validated, then with its nonce held in memory and on disk. */
  lemma {:induction false} PassingCallsGoOn(c: Validator.Config, s: State, n: nat)
    requires n in s.calls
    ensures var q := s.calls[n];
            s.executor == ExecutorIdle && q.stage == Checked
            && (q.required ==> Validator.ApprovalReply(s.records, q.envelope.approvalId, Validator.Rebound(q.envelope), s.clock).Ok?) ==>
              Next(c, s, ValidateApproval(n)).calls == s.calls[n := q.(stage := Validated)]
    ensures var q, s' := s.calls[n], Next(c, s, ReserveNonce(n, true, Clean));
            q.stage == Validated && q.envelope.nonce != "" && (q.envelope.nonce in s.nonces.used ==> s.nonces.used[q.envelope.nonce] < s.clock) ==>
              && s'.calls == s.calls[n := q.(stage := Reserved)]
              && Nonce.Holds(s'.nonces, q.envelope.nonce, q.envelope.expiresAt)
  {
    var q := s.calls[n];
    Nonce.ReservedIff(s.nonces, q.envelope.nonce, q.envelope.expiresAt, s.clock, Clean);
  }

  // ----- the bound is reached

  /** Create, approve and save; then one Execute call from start to finish. */
  function GrantSteps(e: Envelope): seq<Step> {
    [ServerCreate(e.approvalId, Validator.Rebound(e), 0, Clean),
     ServerLoad(Resolve(true, ""), e.approvalId), ServerDecide, ServerSave(Clean)]
  }

  const ADMIT_TAIL := [ValidateApproval(0), ReserveNonce(0, true, Clean)]
  const CONSUME_STEPS := [LoadForConsume(0), DecideConsume, SaveConsume(Clean), RunHandler(0)]

  function WholeRun(e: Envelope): seq<Step> {
    GrantSteps(e) + ([Accept(0, e)] + ADMIT_TAIL + CONSUME_STEPS)
  }

  lemma {:induction false} RunAppend(c: Validator.Config, s: State, a: seq<Step>, b: seq<Step>)
    ensures Run(c, s, a + b) == Run(c, Run(c, s, a), b)
    decreases |a|
  {
    if a == [] {
      assert a + b == b;
    } else {
      assert (a + b)[1..] == a[1..] + b;
      RunAppend(c, Next(c, s, a[0]), a[1..], b);
    }
  }

  lemma {:induction false} RunThree(c: Validator.Config, s: State, p1: Step, p2: Step, p3: Step)
    ensures Run(c, s, [p1, p2, p3]) == Next(c, Next(c, Next(c, s, p1), p2), p3)
  {
    assert [p1, p2, p3][1..] == [p2, p3] && [p2, p3][1..] == [p3];
    var s2 := Next(c, Next(c, s, p1), p2);
    assert Run(c, s2, [p3]) == Run(c, Next(c, s2, p3), []);
  }

  lemma {:induction false} RunFour(c: Validator.Config, s: State, p1: Step, p2: Step, p3: Step, p4: Step)
    ensures Run(c, s, [p1, p2, p3, p4]) == Next(c, Next(c, Next(c, Next(c, s, p1), p2), p3), p4)
  {
    assert [p1, p2, p3, p4][1..] == [p2, p3, p4];
    RunThree(c, Next(c, s, p1), p2, p3, p4);
  }

  lemma {:induction false} GrantRun(c: Validator.Config, e: Envelope)
    requires Approval.Complete(Validator.Rebound(e))
    ensures var record := Approval.NewRecord(e.approvalId, Validator.Rebound(e), 0, 0).(status := Approval.Approved, reason := "");
            Run(c, Start, GrantSteps(e)) == Start.(records := map[e.approvalId := record], log := [Granted(e.approvalId, Validator.Rebound(e))])
  {
    var steps := GrantSteps(e);
    RunFour(c, Start, steps[0], steps[1], steps[2], steps[3]);
    var pending := Approval.NewRecord(e.approvalId, Validator.Rebound(e), 0, 0);
    assert Next(c, Start, steps[0]) == Start.(records := map[e.approvalId := pending]);
    assert map[e.approvalId := pending][e.approvalId := pending.(status := Approval.Approved, reason := "")]
        == map[e.approvalId := pending.(status := Approval.Approved, reason := "")];
  }

  lemma {:induction false} AcceptRun(c: Validator.Config, e: Envelope, s: State)
    requires Validator.Check(c, e, s.clock) == Ok(Validator.Validation(Validator.Rebound(e), true))
    requires e.proposal.tool in Validator.FIXED_HANDLERS && s.calls == map[]
    ensures Next(c, s, Accept(0, e)) == s.(calls := map[0 := Request(e, true, Checked)])
  {
    assert Next(c, s, Accept(0, e)).calls == s.calls[0 := Request(e, true, Checked)];
  }

  lemma {:induction false} AdmitRun(c: Validator.Config, e: Envelope, s: State)
    requires s.calls == map[0 := Request(e, true, Checked)] && s.executor == ExecutorIdle && s.nonces.used == map[]
    requires e.nonce != ""
    requires Validator.ApprovalReply(s.records, e.approvalId, Validator.Rebound(e), s.clock).Ok?
    ensures var s' := Next(c, Next(c, s, ADMIT_TAIL[0]), ADMIT_TAIL[1]);
            s' == s.(calls := map[0 := Request(e, true, Reserved)], nonces := s'.nonces)
  {
    var s2 := Next(c, s, ADMIT_TAIL[0]);
    assert s2.calls == map[0 := Request(e, true, Validated)];
    assert Nonce.Pruned(s.nonces.used, s.clock) == map[];
    var s3 := Next(c, s2, ADMIT_TAIL[1]);
    assert s3.calls == map[0 := Request(e, true, Reserved)];
  }

  lemma {:induction false} ConsumeRun(c: Validator.Config, e: Envelope, s: State)
    requires s.calls == map[0 := Request(e, true, Reserved)] && s.executor == ExecutorIdle
    requires Validator.ApprovalReply(s.records, e.approvalId, Validator.Rebound(e), s.clock).Ok?
    ensures Run(c, s, CONSUME_STEPS).log == s.log + [Ran(e, true)]
  {
    RunFour(c, s, CONSUME_STEPS[0], CONSUME_STEPS[1], CONSUME_STEPS[2], CONSUME_STEPS[3]);
    var s2 := Next(c, Next(c, s, CONSUME_STEPS[0]), CONSUME_STEPS[1]);
    ConsumeDecides(c, e, s);
    var s3 := Next(c, s2, CONSUME_STEPS[2]);
    assert s3.calls[0] == Request(e, true, Authorized) && s3.log == s.log;
  }

  lemma {:induction false} ConsumeDecides(c: Validator.Config, e: Envelope, s: State)
    requires s.calls == map[0 := Request(e, true, Reserved)] && s.executor == ExecutorIdle
    requires Validator.ApprovalReply(s.records, e.approvalId, Validator.Rebound(e), s.clock).Ok?
    ensures var s2 := Next(c, Next(c, s, CONSUME_STEPS[0]), CONSUME_STEPS[1]);
            s2.executor.ConsumeSaving? && s2 == s.(executor := s2.executor) && s2.executor.call == 0
  {
    var s1 := Next(c, s, CONSUME_STEPS[0]);
    assert s1 == s.(executor := ConsumeLoaded(0, s.records[e.approvalId]));
  }

  /**
    The protocol does not refuse everything: any envelope that passes the
    checks and needs an approval runs once it is approved. By
    HandlerRunsAtMostOnce no continuation of this run executes it again.
   */
  lemma {:induction false} ApprovedEnvelopeRuns(c: Validator.Config, e: Envelope)
    requires Validator.Check(c, e, 0) == Ok(Validator.Validation(Validator.Rebound(e), true))
    requires Paths.ValidId(e.approvalId) && e.proposal.tool in Validator.FIXED_HANDLERS
    requires Approval.Complete(Validator.Rebound(e))
    ensures Run(c, Start, WholeRun(e)).log == [Granted(e.approvalId, Validator.Rebound(e)), Ran(e, true)]
  {
    var granted := Run(c, Start, GrantSteps(e));
    GrantRun(c, e);
    AcceptRun(c, e, granted);
    AdmitRun(c, e, Next(c, granted, Accept(0, e)));
    assert [Accept(0, e)] + ADMIT_TAIL == [Accept(0, e), ADMIT_TAIL[0], ADMIT_TAIL[1]];
    RunThree(c, granted, Accept(0, e), ADMIT_TAIL[0], ADMIT_TAIL[1]);
    var admitted := Run(c, granted, [Accept(0, e)] + ADMIT_TAIL);
    ConsumeRun(c, e, admitted);
    RunAppend(c, granted, [Accept(0, e)] + ADMIT_TAIL, CONSUME_STEPS);
    RunAppend(c, Start, GrantSteps(e), [Accept(0, e)] + ADMIT_TAIL + CONSUME_STEPS);
  }
}
