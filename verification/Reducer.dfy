/** The persisted counters of the bounded agent loop. */
module Reducer {
  import opened Wrappers
  import opened Tasks

  const MAX_ITERATIONS := 12
  const MAX_TOOL_CALLS := 30
  const MAX_REPLANS := 3
  const MAX_NO_PROGRESS_REPEATS := 2
  const DEFAULT_TASK_TIMEOUT := 120_000_000_000

  datatype Error = DeadlineReached | IterationLimit | ToolCallLimit | ReplanLimit | NoProgress

  function Initialized(c: Runtime, now: int): Runtime {
    c.(maxIterations := if c.maxIterations == 0 then MAX_ITERATIONS else c.maxIterations,
       maxToolCalls := if c.maxToolCalls == 0 then MAX_TOOL_CALLS else c.maxToolCalls,
       deadline := if c.deadline.None? then Some(now + DEFAULT_TASK_TIMEOUT) else c.deadline)
  }

  function ToolCallReserved(c: Runtime): Result<Runtime, Error> {
    if c.toolCalls >= c.maxToolCalls then Err(ToolCallLimit) else Ok(c.(toolCalls := c.toolCalls + 1))
  }

  function Replanned(c: Runtime): Runtime {
    c.(replans := c.replans + 1)
  }

  function Observed(c: Runtime, o: Observation): Runtime {
    c.(noProgressRepeats := if c.lastProgress == Some(o.content) then c.noProgressRepeats + 1 else 0,
       lastProgress := Some(o.content),
       observations := c.observations + [o])
  }

  predicate Stuck(c: Runtime) {
    c.noProgressRepeats >= MAX_NO_PROGRESS_REPEATS
  }

  /** How many observations at the end have the same content. */
  function TrailingRun(os: seq<Observation>): (n: nat)
    ensures n <= |os|
    ensures os != [] ==> n >= 1
  {
    if os == [] then 0
    else if |os| == 1 || os[|os| - 2].content != os[|os| - 1].content then 1
    else 1 + TrailingRun(os[..|os| - 1])
  }

  /** The progress counter is derived from the observations: it counts the repeats at their end. */
  ghost predicate CounterOk(c: Runtime) {
    if c.observations == [] then c.lastProgress == None && c.noProgressRepeats == 0
    else
      && c.lastProgress == Some(c.observations[|c.observations| - 1].content)
      && c.noProgressRepeats == TrailingRun(c.observations) - 1
  }

  /** The loop is stopped exactly when the last three observations are identical, over any history of the checkpoint. */
  lemma {:induction false} StuckAfterThreeRepeats(c: Runtime, o: Observation)
    requires CounterOk(c)
    ensures CounterOk(Observed(c, o))
    ensures var os := c.observations + [o];
            Stuck(Observed(c, o)) <==> |os| >= 3 && os[|os| - 1].content == os[|os| - 2].content == os[|os| - 3].content
  {
    var os := c.observations + [o];
    assert os[..|os| - 1] == c.observations;
    if |os| >= 2 {
      assert c.observations[|c.observations| - 1] == os[|os| - 2];
      if |os| >= 3 {
        assert c.observations[|c.observations| - 2] == os[|os| - 3];
      }
    }
  }

  /** Limits and deadline are set once: what was there stays, and a second time changes nothing. */
  lemma {:induction false} InitializedOnce(c: Runtime, now: int, later: int)
    ensures var i := Initialized(c, now);
            && Initialized(i, later) == i
            && i.maxIterations == (if c.maxIterations != 0 then c.maxIterations else 12)
            && i.maxToolCalls == (if c.maxToolCalls != 0 then c.maxToolCalls else 30)
            && i.deadline == (if c.deadline.Some? then c.deadline else Some(now + 120_000_000_000))
            && i == c.(maxIterations := i.maxIterations, maxToolCalls := i.maxToolCalls, deadline := i.deadline)
  {
  }

  class Checkpoint {
    var runtime: Runtime

    constructor (runtime: Runtime)
      ensures this.runtime == runtime
    {
      this.runtime := runtime;
    }

    method InitializeRuntime(now: int)
      modifies this
      ensures runtime == Initialized(old(runtime), now)
      ensures runtime.deadline == if old(runtime).deadline.Some? then old(runtime).deadline else Some(now + 120_000_000_000)
    {
      if runtime.maxIterations == 0 {
        runtime := runtime.(maxIterations := MAX_ITERATIONS);
      }
      if runtime.maxToolCalls == 0 {
        runtime := runtime.(maxToolCalls := MAX_TOOL_CALLS);
      }
      if runtime.deadline.None? {
        runtime := runtime.(deadline := Some(now + DEFAULT_TASK_TIMEOUT));
      }
    }

    method ReserveToolCall() returns (e: Option<Error>)
      modifies this
      ensures e.None? <==> ToolCallReserved(old(runtime)).Ok?
      ensures e.None? <==> old(runtime).toolCalls < old(runtime).maxToolCalls
      ensures runtime == old(runtime).(toolCalls := old(runtime).toolCalls + if e.None? then 1 else 0)
      ensures runtime == if e.None? then ToolCallReserved(old(runtime)).value else old(runtime)
    {
      if runtime.toolCalls >= runtime.maxToolCalls {
        return Some(ToolCallLimit);
      }
      runtime := runtime.(toolCalls := runtime.toolCalls + 1);
      return None;
    }

    method RecordReplan() returns (e: Option<Error>)
      modifies this
      ensures runtime == Replanned(old(runtime))
      ensures runtime == old(runtime).(replans := old(runtime).replans + 1)
      ensures e.Some? <==> runtime.replans > 3
    {
      runtime := runtime.(replans := runtime.replans + 1);
      return if runtime.replans > MAX_REPLANS then Some(ReplanLimit) else None;
    }

    method RecordObservation(o: Observation) returns (e: Option<Error>)
      modifies this
      ensures runtime == Observed(old(runtime), o)
      ensures e.Some? <==> Stuck(runtime)
      ensures runtime.observations == old(runtime).observations + [o] && runtime.lastProgress == Some(o.content)
      ensures runtime == old(runtime).(observations := runtime.observations, lastProgress := runtime.lastProgress, noProgressRepeats := runtime.noProgressRepeats)
    {
      if runtime.lastProgress == Some(o.content) {
        runtime := runtime.(noProgressRepeats := runtime.noProgressRepeats + 1);
      } else {
        runtime := runtime.(noProgressRepeats := 0, lastProgress := Some(o.content));
      }
      runtime := runtime.(observations := runtime.observations + [o]);
      return if runtime.noProgressRepeats >= MAX_NO_PROGRESS_REPEATS then Some(NoProgress) else None;
    }
  }
}
