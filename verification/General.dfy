/**
  The bounded agent loop. It keeps its working copy of the task in memory and
  stores it at fixed points; the trace is appended to before the task that
  refers to it is stored. Every answer from outside (clock, planner, tools,
  guards, disk faults) comes from an arbitrary world.
 */
module General {
  import opened Wrappers
  import Paths
  import opened Tasks
  import Trace
  import Reducer

  datatype Decision =
    | CallTool(server: string, tool: string, arguments: string)
    | Replan
    | Final(answer: string)
    | ActionRequest(tool: string)

  datatype Reply = Decided(decision: Decision) | TimedOut | Broken

  /** One interaction with the outside; each use reads the fields it needs. */
  datatype Answer = Answer(now: int, fault: Fault, cut: Trace.Cut, draft: Trace.Draft, reply: Reply, allowed: bool, failed: bool, result: string)

  type World = nat -> Answer

  datatype Outcome = Again | Done | Stopped

  const FINALIZATION_RESERVE := 60_000_000_000
  const TOOL_RESULT := "TOOL_RESULT"
  const EXECUTION := "EXECUTION"  // the event types a reference may name: what a tool returned, or what the executor did

  predicate HasEvidence(t: Task) {
    |t.runtime.observations| > 0 && |t.evidence| > 0
  }

  predicate ShouldFinalize(t: Task, now: int) {
    HasEvidence(t) && t.runtime.deadline.Some? && now >= t.runtime.deadline.value - FINALIZATION_RESERVE
  }

  /** replanWithoutEvidence: no conclusion and no action request before there is evidence. */
  function Guarded(d: Decision, t: Task): Decision {
    if (d.Final? || d.ActionRequest?) && !HasEvidence(t) then Replan else d
  }

  // ----- what a task may refer to

  /** Every reference names a result in this task's own log, in strictly increasing order. */
  ghost predicate Grounded(refs: seq<EvidenceRef>, taskId: string, log: seq<Trace.Event>) {
    && (forall i | 0 <= i < |refs| ::
          refs[i].taskId == taskId && 1 <= refs[i].sequence <= |log| && log[refs[i].sequence - 1].typ in {TOOL_RESULT, EXECUTION})
    && (forall i, j | 0 <= i < j < |refs| :: refs[i].sequence < refs[j].sequence)
  }

  lemma {:induction false} GroundedGrows(refs: seq<EvidenceRef>, taskId: string, log: seq<Trace.Event>, longer: seq<Trace.Event>)
    requires Grounded(refs, taskId, log) && log <= longer
    ensures Grounded(refs, taskId, longer)
  {
    assert forall i | 0 <= i < |log| :: longer[i] == log[i];
  }

  lemma {:induction false} GroundedSnoc(refs: seq<EvidenceRef>, taskId: string, log: seq<Trace.Event>, e: Trace.Event)
    requires Grounded(refs, taskId, log) && e.typ in {TOOL_RESULT, EXECUTION}
    ensures Grounded(refs + [EvidenceRef(taskId, |log| + 1)], taskId, log + [e])
  {
    GroundedGrows(refs, taskId, log, log + [e]);
  }

  /** The budget: each tool call is paid for by a call counter, and that by an iteration of its own. */
  ghost predicate WithinBudget(c: Runtime) {
    && c.toolCalls <= c.iterations <= Reducer.MAX_ITERATIONS
    && (c.maxIterations == Reducer.MAX_ITERATIONS || (c.maxIterations == 0 && c.iterations == 0))
    && (c.maxToolCalls == Reducer.MAX_TOOL_CALLS || (c.maxToolCalls == 0 && c.toolCalls == 0))
    && Reducer.CounterOk(c)
  }

  // ----- when the loop has no reason to stop

  /** Nothing fails, every guard agrees, and the planner always decides. */
  ghost predicate Calm(world: World) {
    forall t: nat ::
      world(t).fault.Clean? && world(t).cut.Never? && world(t).allowed && !world(t).failed && world(t).reply.Decided?
  }

  /** The time for finalisation never comes: the deadline is far off, or all happens within a minute of its being set. */
  ghost predicate InTime(world: World, c: Runtime) {
    if c.deadline.Some? then forall t: nat :: world(t).now < c.deadline.value - 60_000_000_000
    else forall t: nat, u: nat :: world(t).now < world(u).now + 60_000_000_000
  }

  /** A budget is used up, or the loop makes no progress. */
  predicate Exhausted(c: Runtime) {
    c.iterations >= c.maxIterations || c.toolCalls >= c.maxToolCalls || c.replans > 3 || c.noProgressRepeats >= 2
  }

  lemma {:induction false} InTimeStays(world: World, c: Runtime, t: nat)
    requires InTime(world, c)
    ensures InTime(world, Reducer.Initialized(c, world(t).now))
  {
    forall u: nat
      ensures c.deadline.None? ==> world(u).now < world(t).now + 60_000_000_000
    {
      assert c.deadline.None? ==> world(u).now < world(t).now + 60_000_000_000;
    }
  }

  /** What the planner answered at one of the interactions in between. */
  ghost predicate Planned(world: World, from: nat, to: nat, d: Decision) {
    exists t: nat :: from <= t < to && world(t).reply == Decided(d)
  }

  lemma {:induction false} PlannedEarlier(world: World, from: nat, later: nat, to: nat, d: Decision)
    requires from <= later
    ensures Planned(world, later, to, d) ==> Planned(world, from, to, d)
  {
  }

  /** With evidence in hand and less than a minute left, only a conclusion is asked for. */
  predicate Finishing(t: Task, now: int) {
    && t.runtime.observations != [] && t.evidence != []
    && t.runtime.deadline.Some? && now >= t.runtime.deadline.value - 60_000_000_000
  }

  /** Before there is an observation and a reference to it, a conclusion or an action request counts as a change of plan. */
  function Effective(d: Decision, t: Task): Decision {
    if (d.Final? || d.ActionRequest?) && (t.runtime.observations == [] || t.evidence == []) then Replan else d
  }

  class Agent {
    const taskId: string
    const world: World
    const writer: Trace.Writer
    /** The task on disk, and the loop's copy of it. */
    var saved: Task
    var value: Task
    /** Interactions so far, and tool calls actually issued, over all runs. */
    var tick: nat
    var issued: nat

    constructor (t: Task, world: World, writer: Trace.Writer)
      requires Paths.ValidId(t.id) && t.runtime == FRESH_RUNTIME && t.evidence == []
      requires Trace.Reads(writer.decode)
      requires Trace.Holds(writer.decode, t.id, Trace.FilesOf(writer.dir, t.id), Trace.LogOf(writer.decode, t.id, Trace.FilesOf(writer.dir, t.id)))
      ensures taskId == t.id && this.world == world && this.writer == writer
      ensures saved == t && value == t && issued == 0 && Valid()
    {
      taskId := t.id;
      this.world := world;
      this.writer := writer;
      saved, value := t, t;
      tick, issued := 0, 0;
    }

    ghost function Log(): seq<Trace.Event>
      reads this, writer
    {
      Trace.LogOf(writer.decode, taskId, Trace.FilesOf(writer.dir, taskId))
    }

    ghost predicate Valid()
      reads this, writer
    {
      && Paths.ValidId(taskId) && saved.id == taskId && value.id == taskId
      && Trace.Reads(writer.decode)
      && Trace.Holds(writer.decode, taskId, Trace.FilesOf(writer.dir, taskId), Log())
      && Grounded(saved.evidence, taskId, Log()) && Grounded(value.evidence, taskId, Log())
      && WithinBudget(saved.runtime) && WithinBudget(value.runtime)
      && issued <= saved.runtime.toolCalls <= value.runtime.toolCalls
      && saved.runtime.iterations <= value.runtime.iterations
    }

    method Ask() returns (a: Answer)
      modifies this`tick
      ensures a == world(old(tick)) && tick == old(tick) + 1
    {
      a := world(tick);
      tick := tick + 1;
    }

    method Save() returns (ok: bool)
      requires Valid()
      modifies this`tick, this`saved
      ensures Valid()
      ensures ok ==> saved == value
      ensures saved == value || saved == old(saved)
      ensures Log() == old(Log())
      ensures tick == old(tick) + 1 && (Calm(world) ==> ok)
    {
      var a := Ask();
      if !a.fault.BeforeRename? {
        saved := value;
      }
      return a.fault.Clean?;
    }

    /** Append one trace event; on success its sequence number is the new length of the log. */
    method Record(typ: string) returns (sequence: Option<nat>)
      requires Valid()
      modifies this`tick, writer
      ensures Valid() && old(Log()) <= Log()
      ensures sequence.Some? ==> sequence.value == |Log()| == |old(Log())| + 1 && Log()[|Log()| - 1].typ == typ
      ensures tick == old(tick) + 1 && (Calm(world) ==> sequence.Some?)
    {
      var a := Ask();
      ghost var log := Log();
      Trace.AppendGrowsLog(writer.decode, taskId, Trace.FilesOf(writer.dir, taskId), a.draft.(typ := typ), a.cut);
      var r := writer.AppendEvent(taskId, a.draft.(typ := typ), a.cut);
      GroundedGrows(saved.evidence, taskId, log, Log());
      GroundedGrows(value.evidence, taskId, log, Log());
      return if r.Ok? then Some(r.value.sequence) else None;
    }

    /** beginGeneralDecision. */
    method BeginDecision(now: int, finalOnly: bool) returns (ok: bool)
      requires Valid()
      modifies this`value
      ensures Valid()
      ensures value == old(value).(runtime := value.runtime)
      ensures value.runtime.observations == old(value).runtime.observations && value.runtime.toolCalls == old(value).runtime.toolCalls
      ensures ok && !finalOnly ==> value.runtime.iterations == old(value).runtime.iterations + 1
      ensures value.runtime.iterations <= old(value).runtime.iterations + 1
      ensures value.runtime.deadline == Some(if old(value).runtime.deadline.Some? then old(value).runtime.deadline.value else now + 120_000_000_000)
      ensures now >= value.runtime.deadline.value ==> !ok
      ensures now < value.runtime.deadline.value ==> (ok <==> finalOnly || !(old(value).runtime.iterations >= value.runtime.maxIterations))
      ensures !ok ==> value.runtime.iterations == old(value).runtime.iterations
      ensures value.runtime.replans == old(value).runtime.replans && value.runtime.noProgressRepeats == old(value).runtime.noProgressRepeats
    {
      value := value.(runtime := Reducer.Initialized(value.runtime, now));
      if now >= value.runtime.deadline.value {
        return false;
      }
      if value.runtime.iterations >= value.runtime.maxIterations {
        return finalOnly;
      }
      value := value.(runtime := value.runtime.(iterations := value.runtime.iterations + 1));
      return true;
    }

    /** Ask the planner, and once more for a conclusion if the time for finalisation has come meanwhile. */
    method Decide(finalOnly: bool) returns (decision: Option<Decision>, final: bool)
      requires finalOnly ==> HasEvidence(value)
      modifies this`tick
      ensures final ==> HasEvidence(value)
      ensures decision.Some? && final ==> decision.value.Final?
      ensures finalOnly ==> final
      ensures tick > old(tick) && (decision.Some? ==> Planned(world, old(tick), tick, decision.value))
      ensures Calm(world) && InTime(world, value.runtime) && value.runtime.deadline.Some? && !finalOnly ==> decision.Some? && !final
    {
      final := finalOnly;
      var a := Ask();
      var reply := a.reply;
      var later := Ask();
      if !finalOnly && ShouldFinalize(value, later.now) && (reply.TimedOut? || (reply.Decided? && !reply.decision.Final?)) {
        final := true;
        a := Ask();
        reply := a.reply;
      }
      if !reply.Decided? || (final && !reply.decision.Final?) {
        return None, final;
      }
      return Some(reply.decision), final;
    }

    /** A change of plan, asked for by the planner or forced by a scope violation: count it, store it, record it. */
    method ChangePlan(violation: bool) returns (outcome: Outcome)
      requires Valid()
      modifies this`tick, this`value, this`saved, writer
      ensures Valid() && old(Log()) <= Log()
      ensures !outcome.Done? && value.runtime == Reducer.Replanned(old(value).runtime) && value.evidence == old(value).evidence
      ensures outcome.Again? ==> saved == value && value.state == Replanning && value.runtime.replans <= Reducer.MAX_REPLANS
      ensures tick >= old(tick) && (Calm(world) && outcome.Stopped? ==> value.runtime.replans > 3)
    {
      value := value.(runtime := Reducer.Replanned(value.runtime));
      var exceeded := value.runtime.replans > Reducer.MAX_REPLANS;
      if exceeded && !violation {
        return Stopped;
      }
      value := value.(state := Replanning);
      var ok := Save();
      if !ok {
        return Stopped;
      }
      outcome := RecordPlan(violation, exceeded);
    }

    /** The trace of a change of plan: a violation is recorded first, and ends the loop when the changes are used up. */
    method RecordPlan(violation: bool, exceeded: bool) returns (outcome: Outcome)
      requires Valid()
      modifies this`tick, writer
      ensures Valid() && old(Log()) <= Log()
      ensures !outcome.Done? && (violation && exceeded ==> outcome.Stopped?)
      ensures tick >= old(tick) && (Calm(world) && outcome.Stopped? ==> violation && exceeded)
    {
      if violation {
        var denied := Record("INTENT_GUARD_RESULT");
        if denied.None? || exceeded {
          return Stopped;
        }
      }
      var recorded := Record("PLAN_CREATED");
      return if recorded.None? then Stopped else Again;
    }

    /** Take in an observation whose trace event is already in the log. */
    method Remember(content: Content, sequence: nat)
      requires Valid() && sequence == |Log()| > 0 && Log()[|Log()| - 1].typ == TOOL_RESULT
      requires Grounded(value.evidence, taskId, Log()[..|Log()| - 1])
      modifies this`value
      ensures Valid() && Log() == old(Log())
      ensures value.runtime == Reducer.Observed(old(value).runtime, Observation(content, EvidenceRef(taskId, sequence)))
      ensures value.evidence == old(value).evidence + [EvidenceRef(taskId, sequence)]
    {
      ghost var log := Log();
      GroundedSnoc(value.evidence, taskId, log[..|log| - 1], log[|log| - 1]);
      assert log == log[..|log| - 1] + [log[|log| - 1]];
      var reference := EvidenceRef(taskId, sequence);
      var observation := Observation(content, reference);
      Reducer.StuckAfterThreeRepeats(value.runtime, observation);
      value := value.(runtime := Reducer.Observed(value.runtime, observation), evidence := value.evidence + [reference]);
    }

    /** Store an observation together with the reference to its event. */
    method Observe(content: Content, sequence: nat) returns (outcome: Outcome)
      requires Valid() && sequence == |Log()| > 0 && Log()[|Log()| - 1].typ == TOOL_RESULT
      requires Grounded(value.evidence, taskId, Log()[..|Log()| - 1])
      modifies this`tick, this`value, this`saved, writer
      ensures Valid() && old(Log()) <= Log()
      ensures !outcome.Done? && value.runtime == Reducer.Observed(old(value).runtime, Observation(content, EvidenceRef(taskId, sequence)))
      ensures value.evidence == old(value).evidence + [EvidenceRef(taskId, sequence)]
      ensures outcome.Again? ==> saved == value && !Reducer.Stuck(value.runtime)
      ensures tick >= old(tick) && (Calm(world) && outcome.Stopped? ==> value.runtime.noProgressRepeats >= 2)
    {
      Remember(content, sequence);
      outcome := StoreFindings();
    }

    method StoreFindings() returns (outcome: Outcome)
      requires Valid()
      modifies this`tick, this`saved, writer
      ensures Valid() && old(Log()) <= Log() && !outcome.Done?
      ensures outcome.Again? ==> saved == value && !Reducer.Stuck(value.runtime)
      ensures tick >= old(tick) && (Calm(world) && outcome.Stopped? ==> value.runtime.noProgressRepeats >= 2)
    {
      var ok := Save();
      if !ok {
        return Stopped;
      }
      var recorded := Record("FINDINGS_UPDATED");
      return if recorded.None? || Reducer.Stuck(value.runtime) then Stopped else Again;
    }

    /** Reserve one tool call, and store the reservation. */
    method PayForCall() returns (ok: bool)
      requires Valid() && value.runtime.toolCalls < value.runtime.iterations
      modifies this`tick, this`value, this`saved
      ensures Valid()
      ensures value == old(value).(runtime := old(value).runtime.(toolCalls := value.runtime.toolCalls))
      ensures ok ==> saved == value && value.runtime.toolCalls == old(value).runtime.toolCalls + 1 <= value.runtime.maxToolCalls
      ensures ok ==> issued < saved.runtime.toolCalls && tick == old(tick) + 1
      ensures tick >= old(tick) && (Calm(world) && !ok ==> value.runtime.toolCalls >= value.runtime.maxToolCalls)
    {
      var reserved := Reducer.ToolCallReserved(value.runtime);
      if reserved.Err? {
        return false;
      }
      value := value.(runtime := reserved.value);
      ok := Save();
    }

    /** The safety pipeline's verdict on a proposed call, between the events that record it. */
    method PassGuards() returns (ok: bool)
      requires Valid()
      modifies this`tick, writer
      ensures Valid() && old(Log()) <= Log()
      ensures ok ==> world(old(tick) + 1).allowed
      ensures tick >= old(tick) && (Calm(world) ==> ok)
    {
      var proposed := Record("ACTION_PROPOSED");
      var guard := Ask();
      if proposed.None? || !guard.allowed {
        return false;
      }
      var called := Record("TOOL_CALL");
      return called.Some?;
    }

    /** A call that may be issued is paid for on disk and passed by the guards. */
    method ReserveCall() returns (ok: bool)
      requires Valid() && value.runtime.toolCalls < value.runtime.iterations
      modifies this`tick, this`value, this`saved, writer
      ensures Valid() && old(Log()) <= Log()
      ensures value.runtime.iterations == old(value).runtime.iterations && value.evidence == old(value).evidence
      ensures ok ==> saved == value && value.runtime.toolCalls == old(value).runtime.toolCalls + 1 <= value.runtime.maxToolCalls
      ensures ok ==> issued < saved.runtime.toolCalls && world(old(tick) + 2).allowed
      ensures value.runtime.deadline == old(value).runtime.deadline
      ensures tick >= old(tick) && (Calm(world) && !ok ==> value.runtime.toolCalls >= value.runtime.maxToolCalls)
    {
      ok := PayForCall();
      if ok {
        ok := PassGuards();
      }
    }

    /** Issue a reserved call and record what came back. */
    method IssueCall(d: Decision) returns (outcome: Outcome)
      requires Valid() && d.CallTool? && issued < saved.runtime.toolCalls
      modifies this`tick, this`value, this`saved, this`issued, writer
      ensures Valid() && old(Log()) <= Log()
      ensures !outcome.Done? && value.runtime.iterations == old(value).runtime.iterations
      ensures issued == old(issued) + 1
      ensures outcome.Again? ==> saved == value && |saved.evidence| == |old(value).evidence| + 1 && |saved.runtime.observations| == |old(value).runtime.observations| + 1
      ensures value.runtime.deadline == old(value).runtime.deadline
      ensures tick >= old(tick) && (Calm(world) && outcome.Stopped? ==> value.runtime.noProgressRepeats >= 2)
    {
      issued := issued + 1;
      var answer := Ask();
      var content := Content(d.server, d.tool, d.arguments, if answer.failed then "error" else answer.result);
      ghost var log := Log();
      var sequence := Record(TOOL_RESULT);
      if sequence.None? {
        return Stopped;
      }
      assert Log()[..|Log()| - 1] == log;
      outcome := Observe(content, sequence.value);
    }

    /** One read tool. */
    method UseTool(d: Decision) returns (outcome: Outcome)
      requires Valid() && d.CallTool?
      requires value.runtime.toolCalls < value.runtime.iterations
      modifies this`tick, this`value, this`saved, this`issued, writer
      ensures Valid() && old(Log()) <= Log()
      ensures !outcome.Done? && value.runtime.iterations == old(value).runtime.iterations
      ensures old(issued) <= issued <= old(issued) + 1
      ensures value.runtime.deadline == old(value).runtime.deadline
      ensures tick >= old(tick) && (Calm(world) && outcome.Stopped? ==> Exhausted(value.runtime))
      ensures issued > old(issued) ==> world(old(tick)).allowed && world(old(tick) + 3).allowed
    {
      var scope := Ask();
      if scope.failed {
        return Stopped;  // unavailable tool, or arguments outside its schema
      }
      if !scope.allowed {
        outcome := ChangePlan(true);
        return;
      }
      var ok := ReserveCall();
      if !ok {
        return Stopped;
      }
      outcome := IssueCall(d);
    }

    /** The start of a pass: read the clock, spend an iteration, store the task. */
    method OpenPass() returns (ok: bool, finalOnly: bool)
      requires Valid()
      modifies this`tick, this`value, this`saved
      ensures Valid() && value.runtime.iterations <= old(value).runtime.iterations + 1
      ensures finalOnly ==> HasEvidence(value)
      ensures ok && !finalOnly ==>
                value.runtime.iterations == old(value).runtime.iterations + 1 && value.runtime.toolCalls < value.runtime.iterations
      ensures finalOnly <==> Finishing(old(value), world(old(tick)).now)
      ensures tick >= old(tick) && value.runtime.deadline.Some?
      ensures InTime(world, old(value).runtime) ==> InTime(world, value.runtime) && !finalOnly
      ensures Calm(world) && InTime(world, old(value).runtime) && !ok ==> value.runtime.iterations >= value.runtime.maxIterations
    {
      ghost var first := value.runtime;
      if InTime(world, first) {
        InTimeStays(world, first, tick);
      }
      var clock := Ask();
      finalOnly := ShouldFinalize(value, clock.now);
      ok := BeginDecision(clock.now, finalOnly);
      if ok {
        value := value.(state := Investigating);
        ok := Save();
      }
    }

    /** The decision of a pass, guarded and recorded. */
    method Choose(finalOnly: bool) returns (chosen: Option<Decision>, ghost planned: Decision)
      requires Valid() && (finalOnly ==> HasEvidence(value))
      modifies this`tick, writer
      ensures Valid() && old(Log()) <= Log()
      ensures chosen.Some? && (chosen.value.Final? || chosen.value.ActionRequest?) ==> HasEvidence(value)
      ensures chosen.Some? && finalOnly ==> chosen.value.Final?
      ensures tick >= old(tick)
      ensures chosen.Some? ==> Planned(world, old(tick), tick, planned) && chosen.value == Effective(planned, value)
      ensures Calm(world) && InTime(world, value.runtime) && value.runtime.deadline.Some? && !finalOnly ==> chosen.Some?
    {
      planned := Replan;
      var decision, final := Decide(finalOnly);
      if decision.None? {
        return None, planned;
      }
      var recorded := Record("DECISION_RECORDED");
      if recorded.None? {
        return None, planned;
      }
      return Some(Guarded(decision.value, value)), decision.value;
    }

    method Act(chosen: Decision) returns (outcome: Outcome)
      requires Valid()
      requires chosen.Final? || chosen.ActionRequest? ==> HasEvidence(value)
      requires chosen.CallTool? ==> value.runtime.toolCalls < value.runtime.iterations
      modifies this`tick, this`value, this`saved, this`issued, writer
      ensures Valid() && old(Log()) <= Log()
      ensures outcome.Again? ==> !chosen.Final? && !chosen.ActionRequest? && value.runtime.iterations == old(value).runtime.iterations
      ensures outcome.Done? ==> saved == value && HasEvidence(saved)
      ensures outcome.Done? ==> (chosen.Final? && saved.state == Completed) || (chosen.ActionRequest? && saved.state == WaitingApproval)
      ensures old(issued) <= issued <= old(issued) + 1 && (issued > old(issued) ==> chosen.CallTool?)
      ensures tick >= old(tick) && value.runtime.deadline == old(value).runtime.deadline
      ensures Calm(world) && outcome.Stopped? ==> Exhausted(value.runtime)
    {
      match chosen {
        case Replan => outcome := ChangePlan(false);
        case CallTool(_, _, _) => outcome := UseTool(chosen);
        case Final(_) => outcome := Conclude(Completed);
        case ActionRequest(_) => outcome := Conclude(WaitingApproval);
      }
    }

    /** One pass of the loop. */
    method Pass() returns (outcome: Outcome, ghost planned: Decision)
      requires Valid()
      modifies this`tick, this`value, this`saved, this`issued, writer
      ensures Valid() && old(Log()) <= Log()
      ensures outcome.Again? ==> value.runtime.iterations == old(value).runtime.iterations + 1
      ensures outcome.Done? ==>
                && saved == value && HasEvidence(saved) && Planned(world, old(tick), tick, planned)
                && ((planned.Final? && saved.state == Completed) || (planned.ActionRequest? && saved.state == WaitingApproval))
      ensures old(issued) <= issued <= old(issued) + 1 && (Finishing(old(value), world(old(tick)).now) ==> issued == old(issued))
      ensures tick >= old(tick)
      ensures Calm(world) && InTime(world, old(value).runtime) ==>
                InTime(world, value.runtime) && (outcome.Stopped? ==> Exhausted(value.runtime))
    {
      planned := Replan;
      var ok, finalOnly := OpenPass();
      if !ok {
        return Stopped, planned;
      }
      var chosen;
      chosen, planned := Choose(finalOnly);
      if chosen.None? {
        return Stopped, planned;
      }
      outcome := Act(chosen.value);
    }

    /** completeGeneral, or the hand-over to an approval. */
    method Conclude(state: State) returns (outcome: Outcome)
      requires Valid() && HasEvidence(value) && (state == Completed || state == WaitingApproval)
      modifies this`tick, this`value, this`saved, writer
      ensures Valid() && old(Log()) <= Log()
      ensures !outcome.Again?
      ensures outcome.Done? ==> saved == value && HasEvidence(saved) && saved.state == state
      ensures value == old(value).(state := state) && issued == old(issued)
      ensures tick >= old(tick) && (Calm(world) ==> outcome.Done?)
    {
      value := value.(state := state);
      var ok := Save();
      if !ok {
        return Stopped;
      }
      var recorded := Record("FINAL");
      return if recorded.None? then Stopped else Done;
    }

    /** The first run of a task fills in its limits and records its plan. */
    method OpenRun() returns (ok: bool)
      requires Valid() && value == saved
      modifies this`tick, this`value, this`saved, writer
      ensures Valid() && old(Log()) <= Log() && tick >= old(tick)
      ensures value.runtime.iterations == old(value).runtime.iterations
      ensures InTime(world, old(value).runtime) ==> InTime(world, value.runtime)
      ensures Calm(world) ==> ok
    {
      if value.intentType != "" {
        return true;
      }
      if InTime(world, value.runtime) {
        InTimeStays(world, value.runtime, tick);
      }
      var clock := Ask();
      value := value.(intentType := "general_bounded_operation", state := Planning, runtime := Reducer.Initialized(value.runtime, clock.now));
      ok := Save();
      if ok {
        ok := RecordStart();
      }
    }

    method RecordStart() returns (ok: bool)
      requires Valid()
      modifies this`tick, writer
      ensures Valid() && old(Log()) <= Log() && tick >= old(tick)
      ensures Calm(world) ==> ok
    {
      var parsed := Record("INTENT_PARSED");
      if parsed.None? {
        return false;
      }
      var recorded := Record("PLAN_CREATED");
      return recorded.Some?;
    }

    /**
      runGeneral from the stored task. It ends within one pass more than the
      iterations left, whatever the world answers.
     */
    method RunGeneral() returns (outcome: Outcome, passes: nat, ghost planned: Decision)
      requires Valid() && value == saved
      modifies this`tick, this`value, this`saved, this`issued, writer
      ensures Valid() && old(Log()) <= Log()
      ensures passes <= Reducer.MAX_ITERATIONS - old(saved).runtime.iterations + 1
      ensures !outcome.Again?
      ensures outcome.Done? ==> saved.runtime.observations != [] && saved.evidence != []
      ensures outcome.Done? ==>
                && Planned(world, old(tick), tick, planned)
                && ((planned.Final? && saved.state == Completed) || (planned.ActionRequest? && saved.state == WaitingApproval))
      ensures Calm(world) && InTime(world, old(saved).runtime) && outcome.Stopped? ==> Exhausted(value.runtime)
    {
      passes := 0;
      planned := Replan;
      outcome := Again;
      ghost var first := value.runtime.iterations;
      var begun := OpenRun();
      if !begun {
        return Stopped, 0, planned;
      }
      while outcome.Again?
        invariant Valid() && old(Log()) <= Log()
        invariant outcome.Again? ==> value.runtime.iterations == first + passes
        invariant passes <= Reducer.MAX_ITERATIONS - first + 1
        invariant tick >= old(tick)
        invariant outcome.Done? ==>
                    && HasEvidence(saved) && Planned(world, old(tick), tick, planned)
                    && ((planned.Final? && saved.state == Completed) || (planned.ActionRequest? && saved.state == WaitingApproval))
        invariant Calm(world) && InTime(world, old(saved).runtime) ==>
                    InTime(world, value.runtime) && (outcome.Stopped? ==> Exhausted(value.runtime))
        decreases outcome.Again?, Reducer.MAX_ITERATIONS - value.runtime.iterations
      {
        ghost var before := tick;
        outcome, planned := Pass();
        PlannedEarlier(world, old(tick), before, tick, planned);
        passes := passes + 1;
      }
    }

    /** What Run's deferred handler does after a failure, if the process is still alive: store the working copy as FAILED. */
    method StoreFailure()
      requires Valid()
      modifies this`tick, this`value, this`saved
      ensures Valid() && value == old(value).(state := Failed)
    {
      value := value.(state := Failed);
      var _ := Save();
    }

    /** A restart: the trace is recovered, the working copy is lost and read back from disk. */
    method Restart()
      requires Valid()
      modifies this`tick, this`value, writer
      ensures Valid() && value == saved && Log() == old(Log())
    {
      var a := Ask();
      ghost var files := Trace.FilesOf(writer.dir, taskId);
      ghost var log := Log();
      var writes := if a.cut.Recovering? then a.cut.writes else Trace.RECOVERY_WRITES;
      Trace.RecoveryKeepsLog(writer.decode, taskId, files, log, writes);
      var _ := writer.RecoverLocked(taskId, writes);
      Trace.LogOfHeld(writer.decode, taskId, Trace.FilesOf(writer.dir, taskId), log);
      value := saved;
    }

    // ----- resuming after an approval

    /** failExecution: the task is stored as FAILED; the two trace events after it may be lost. */
    method FailExecution()
      requires Valid()
      modifies this`tick, this`value, this`saved, writer
      ensures Valid() && old(Log()) <= Log()
      ensures value == old(value).(state := Failed, failure := "execution failed")
    {
      value := value.(state := Failed, failure := "execution failed");
      var ok := Save();
      if ok {
        var _ := Record(EXECUTION);
        var _ := Record("TASK_FAILED");
      }
    }

    /** Store a new state, then record an event. */
    method Advance(state: State, typ: string) returns (ok: bool)
      requires Valid()
      modifies this`tick, this`value, this`saved, writer
      ensures Valid() && old(Log()) <= Log() && value == old(value).(state := state)
      ensures ok ==> saved == value
    {
      value := value.(state := state);
      ok := Save();
      if ok {
        var recorded := Record(typ);
        ok := recorded.Some?;
      }
    }

    /** The extra event of a rollback. */
    method RecordRollback(rollback: bool) returns (ok: bool)
      requires Valid()
      modifies this`tick, writer
      ensures Valid() && old(Log()) <= Log() && tick == old(tick) + if rollback then 1 else 0
    {
      if !rollback {
        return true;
      }
      var recorded := Record("ROLLBACK");
      return recorded.Some?;
    }

    /** Up to the executor call: the resumption is recorded, EXECUTING is stored, the start is recorded. */
    method StartExecution(rollback: bool) returns (started: bool)
      requires Valid()
      modifies this`tick, this`value, this`saved, writer
      ensures Valid() && old(Log()) <= Log() && value.evidence == old(value).evidence
      ensures started ==> saved == value && value.state == Executing
    {
      var resumed := Record("TASK_RESUMED");
      if resumed.None? {
        return false;
      }
      var correlated := Ask();
      if !correlated.allowed {
        FailExecution();
        return false;
      }
      started := Advance(Executing, EXECUTION);
      if started {
        started := RecordRollback(rollback);
      }
    }

    /** Between the executor's answer and the reference to it: store VERIFYING, verify, record the verification. */
    method VerifyExecution(rollback: bool) returns (ok: bool)
      requires Valid()
      modifies this`tick, this`value, this`saved, writer
      ensures Valid() && old(Log()) <= Log() && value.evidence == old(value).evidence
      ensures ok ==> saved == value && value.state == Verifying && world(old(tick) + if rollback then 2 else 1).allowed
    {
      ok := RecordRollback(rollback);
      if ok {
        ok := Verify();
      }
    }

    /** VERIFYING is stored before the verification is looked at, and a failed one fails the task. */
    method Verify() returns (ok: bool)
      requires Valid()
      modifies this`tick, this`value, this`saved, writer
      ensures Valid() && old(Log()) <= Log() && value.evidence == old(value).evidence
      ensures ok ==> saved == value && value.state == Verifying && world(old(tick) + 1).allowed
    {
      value := value.(state := Verifying);
      ok := Save();
      if !ok {
        return;
      }
      var result := Ask();
      if !result.allowed {
        FailExecution();
        return false;
      }
      var verified := Record("VERIFICATION");
      return verified.Some?;
    }

    /** Behind the executor call: verify, then add the reference to the event that recorded it. */
    method FinishExecution(sequence: nat, rollback: bool) returns (outcome: Outcome)
      requires Valid() && sequence == |Log()| > 0 && Log()[|Log()| - 1].typ in {TOOL_RESULT, EXECUTION}
      requires Grounded(value.evidence, taskId, Log()[..|Log()| - 1])
      modifies this`tick, this`value, this`saved, writer
      ensures Valid() && old(Log()) <= Log() && !outcome.Again?
      ensures outcome.Done? ==>
                && saved == value && saved.state == Completed
                && saved.evidence == old(value).evidence + [EvidenceRef(taskId, sequence)]
    {
      ghost var log := Log();
      ghost var evidence := value.evidence + [EvidenceRef(taskId, sequence)];
      GroundedSnoc(value.evidence, taskId, log[..|log| - 1], log[|log| - 1]);
      assert log == log[..|log| - 1] + [log[|log| - 1]];
      var ok := VerifyExecution(rollback);
      if !ok {
        return Stopped;
      }
      GroundedGrows(evidence, taskId, log, Log());
      value := value.(evidence := value.evidence + [EvidenceRef(taskId, sequence)], pendingAction := None, pendingApproval := "");
      outcome := CompleteExecution();
    }

    /** The session is brought up to date, the task stored as COMPLETED, the end recorded. */
    method CompleteExecution() returns (outcome: Outcome)
      requires Valid()
      modifies this`tick, this`value, this`saved, writer
      ensures Valid() && old(Log()) <= Log() && !outcome.Again?
      ensures outcome.Done? ==> saved == value && saved.state == Completed && saved.evidence == old(value).evidence
    {
      var session := Ask();
      if session.failed {
        FailExecution();
        return Stopped;
      }
      var ok := Advance(Completed, "TASK_COMPLETED");
      if !ok {
        return Stopped;
      }
      var final := Record("FINAL");
      return if final.None? then Stopped else Done;
    }

    /** The executor call and what follows it. */
    method Execute(rollback: bool) returns (outcome: Outcome)
      requires Valid()
      modifies this`tick, this`value, this`saved, writer
      ensures Valid() && old(Log()) <= Log() && !outcome.Again?
      ensures outcome.Done? ==> saved == value && saved.state == Completed && |saved.evidence| == |old(value).evidence| + 1
    {
      var executed := Ask();
      if executed.failed {
        FailExecution();
        return Stopped;
      }
      ghost var log := Log();
      var sequence := Record(EXECUTION);
      if sequence.None? {
        return Stopped;
      }
      assert Log()[..|Log()| - 1] == log;
      outcome := FinishExecution(sequence.value, rollback);
    }

    /** executeApproved: a restore also records the start and the end of the rollback. */
    method ExecuteApproved() returns (outcome: Outcome)
      requires Valid()
      modifies this`tick, this`value, this`saved, writer
      ensures Valid() && old(Log()) <= Log() && !outcome.Again?
      ensures outcome.Done? ==> saved == value && saved.state == Completed && |saved.evidence| == |old(value).evidence| + 1
    {
      var rollback := value.pendingAction.Some? && value.pendingAction.value.proposal.tool == "file.restore_quarantine";
      var started := StartExecution(rollback);
      if !started {
        return Stopped;
      }
      outcome := Execute(rollback);
    }

    /** ApprovalResumer.Resume on the stored task, as far as trace and task are concerned. */
    method ResumeApproved() returns (outcome: Outcome)
      requires Valid() && value == saved
      modifies this`tick, this`value, this`saved, writer
      ensures Valid() && old(Log()) <= Log() && !outcome.Again?
      ensures outcome.Done? ==> saved == value && saved.state == Completed && |saved.evidence| == |old(saved).evidence| + 1
      ensures !world(old(tick) + 1).allowed ==>
                outcome.Stopped? && (value == old(value) || value == old(value).(state := Cancelled, pendingAction := None, pendingApproval := ""))
    {
      var resolved := Record("APPROVAL_RESULT");
      if resolved.None? {
        return Stopped;
      }
      var answer := Ask();
      if !answer.allowed {
        value := value.(state := Cancelled, pendingAction := None, pendingApproval := "");
        var _ := Save();
        return Stopped;
      }
      outcome := ExecuteApproved();
    }

    /** One life of the process: what it finds on disk decides what it does. */
    method OneRun()
      requires Valid()
      modifies this`tick, this`value, this`saved, this`issued, writer
      ensures Valid() && old(Log()) <= Log()
    {
      Restart();
      if saved.state == WaitingApproval {
        var _ := ResumeApproved();
      } else if !Terminal(saved.state) {
        var outcome, _, _ := RunGeneral();
        var alive := Ask();
        if outcome.Stopped? && alive.allowed {
          StoreFailure();
        }
      }
    }

    /**
      Any number of runs and approvals of one fresh task, each cut off anywhere
      and resumed from disk: the tool calls issued in all of them together stay within
      the smaller of the two budgets, and the stored evidence stays grounded.
     */
    method RunManyTimes(runs: nat)
      requires Valid()
      modifies this`tick, this`value, this`saved, this`issued, writer
      ensures Valid() && old(Log()) <= Log()
      ensures issued <= Reducer.MAX_ITERATIONS && issued <= Reducer.MAX_TOOL_CALLS
      ensures Grounded(saved.evidence, taskId, Log())
    {
      for k := 0 to runs
        invariant Valid() && old(Log()) <= Log()
      {
        OneRun();
      }
    }
  }
}
