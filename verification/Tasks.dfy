/** Durable tasks and sessions, as stored in one JSON file each. */
module Tasks {
  import opened Wrappers
  import opened Contracts

  datatype State =
    | New | Investigating | Planning | Executing | WaitingApproval
    | Verifying | Replanning | Completed | Failed | Cancelled

  datatype Lease = Lease(owner: string, token: string, fence: nat, expiresAt: int)

  /** "trace://task/sequence". */
  datatype EvidenceRef = EvidenceRef(taskId: string, sequence: nat)

  /** What an observation is compared by: its digest covers everything but the evidence reference. */
  datatype Content = Content(server: string, tool: string, arguments: string, result: string)

  datatype Observation = Observation(content: Content, evidence: EvidenceRef)

  datatype Runtime = Runtime(
    iterations: nat, toolCalls: nat, replans: nat, noProgressRepeats: nat, lastProgress: Option<Content>,
    maxIterations: int, maxToolCalls: int, deadline: Option<int>, observations: seq<Observation>)

  const FRESH_RUNTIME := Runtime(0, 0, 0, 0, None, 0, 0, None, [])

  datatype Task = Task(
    id: string, sessionId: string, request: string, state: State, intentType: string,
    evidence: seq<EvidenceRef>, pendingAction: Option<Envelope>, pendingApproval: string,
    runtime: Runtime, lease: Lease, failure: string)

  datatype Message = Message(id: string, taskId: string, content: string)

  datatype Session = Session(id: string, messages: seq<Message>, rest: string)

  predicate Terminal(s: State) {
    s == Completed || s == Failed || s == Cancelled
  }

  function BoundMessages(messages: seq<Message>, taskId: string): nat {
    if messages == [] then 0
    else (if messages[0].taskId == taskId then 1 else 0) + BoundMessages(messages[1..], taskId)
  }

  /** Counting the messages of a task: there is none of it exactly when the count is zero. */
  lemma {:induction false} NoneBoundIff(messages: seq<Message>, taskId: string)
    ensures BoundMessages(messages, taskId) == 0 <==> forall m <- messages :: m.taskId != taskId
  {
    if messages != [] {
      NoneBoundIff(messages[1..], taskId);
      assert messages == [messages[0]] + messages[1..];
    }
  }

  lemma {:induction false} BoundMessagesAppend(a: seq<Message>, b: seq<Message>, taskId: string)
    ensures BoundMessages(a + b, taskId) == BoundMessages(a, taskId) + BoundMessages(b, taskId)
  {
    if a == [] {
      assert a + b == b;
    } else {
      assert (a + b)[1..] == a[1..] + b;
      BoundMessagesAppend(a[1..], b, taskId);
    }
  }
}
