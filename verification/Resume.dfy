/**
  Resuming an approved task, and recovering unfinished ones.

  A resumer loads a waiting task, stores it as EXECUTING, and only then calls
  the executor. Workers claim other tasks, or the same one, and write through
  their leases. The server may die between any two steps.
 */
module Resume {
  import opened Wrappers
  import Paths
  import opened Contracts
  import opened Tasks
  import Approval
  import FileStore

  datatype ResumerPc =
    | Loaded(record: Approval.Record, value: Task)
    | Started(value: Task, approval: string)
    | Called(value: Task, approval: string)

  datatype State = State(
    tasks: map<string, Task>,
    resumers: map<nat, ResumerPc>,
    workers: map<nat, Task>,
    calls: seq<string>,   // history: the approvals the executor was called for
    issued: set<string>)  // history: the approval identifiers created so far

  datatype Step =
    | Install(value: Task)
    | Begin(resumer: nat, record: Approval.Record)
    | Cancel(resumer: nat, now: int, fault: Fault)
    | Start(resumer: nat, now: int, fault: Fault)
    | Call(resumer: nat)
    | Store(resumer: nat, next: Task, now: int, fault: Fault)
    | Finish(resumer: nat)
    | Claim(worker: nat, id: string, owner: string, token: string, ttl: int, now: int, fault: Fault)
    | Work(worker: nat, next: Task, now: int, fault: Fault)
    | Release(worker: nat, fault: Fault)
    | Crash

  const Empty := State(map[], map[], map[], [], {})

  predicate Waiting(t: Task, approval: string) {
    t.state == WaitingApproval && t.pendingApproval == approval
  }

  /** The pending envelope belongs to this task and this approval. */
  predicate Correlated(t: Task, approval: string) {
    && t.pendingAction.Some?
    && t.pendingAction.value.taskId == t.id
    && t.pendingAction.value.sessionId == t.sessionId
    && t.pendingAction.value.approvalId == approval
  }

  /** A task that may have crossed the execution boundary. */
  predicate InFlight(t: Task) {
    (t.state == Executing || t.state == Verifying) && t.pendingAction.Some?
  }

  /**
    What a process may write over a task it holds in memory: it keeps the
    identity and the lease, and a task is made to wait only for an approval
    created for that purpose. A worker that finds an action in flight may only
    fail the task.
   */
  predicate Writable(s: State, base: Task, next: Task, worker: bool) {
    && next.id == base.id && next.lease == base.lease
    && (next.state == WaitingApproval ==> next.pendingApproval !in s.issued)
    && (worker && InFlight(base) ==> next.state == Failed)
  }

  function Issue(s: State, next: Task): set<string> {
    if next.state == WaitingApproval then s.issued + {next.pendingApproval} else s.issued
  }

  function Marked(t: Task): Task {
    t.(state := Executing)
  }

  function PutTask(tasks: map<string, Task>, v: Task, now: int, fault: Fault): map<string, Task> {
    FileStore.AfterOp(tasks, FileStore.Save(v, now), fault)
  }

  predicate Accepted(tasks: map<string, Task>, v: Task, now: int, fault: Fault) {
    FileStore.Outcome(tasks, FileStore.Save(v, now)).Ok? && fault.Clean?
  }

  /**
    One step. A new task is installed by PrepareTask, or once more, over a newer
    record, by a start that replays its journal. A step that is not enabled
    changes nothing.
   */
  function Next(s: State, step: Step): State {
    match step
    case Install(v) =>
      if v.state == WaitingApproval then s else s.(tasks := s.tasks[v.id := v])
    case Begin(r, record) =>
      if r in s.resumers || record.binding.taskId !in s.tasks || !Waiting(s.tasks[record.binding.taskId], record.id) then s
      else s.(resumers := s.resumers[r := Loaded(record, s.tasks[record.binding.taskId])])
    case Cancel(r, now, fault) =>
      if r !in s.resumers || !s.resumers[r].Loaded? || s.resumers[r].record.status !in {Approval.Rejected, Approval.Expired} then s
      else
        var v := s.resumers[r].value.(state := Cancelled, pendingAction := None, pendingApproval := "");
        s.(resumers := s.resumers - {r}, tasks := PutTask(s.tasks, v, now, fault))
    case Start(r, now, fault) =>
      if r !in s.resumers || !s.resumers[r].Loaded? || s.resumers[r].record.status != Approval.Approved then s
      else
        var base, approval := s.resumers[r].value, s.resumers[r].record.id;
        if !Correlated(base, approval) then
          s.(resumers := s.resumers - {r}, tasks := PutTask(s.tasks, base.(state := Failed), now, fault))
        else
          s.(tasks := PutTask(s.tasks, Marked(base), now, fault),
             resumers := if Accepted(s.tasks, Marked(base), now, fault) then s.resumers[r := Started(Marked(base), approval)] else s.resumers - {r})
    case Call(r) =>
      if r !in s.resumers || !s.resumers[r].Started? then s
      else s.(resumers := s.resumers[r := Called(s.resumers[r].value, s.resumers[r].approval)], calls := s.calls + [s.resumers[r].approval])
    case Store(r, next, now, fault) =>
      if r !in s.resumers || !s.resumers[r].Called? || !Writable(s, s.resumers[r].value, next, false) then s
      else s.(tasks := PutTask(s.tasks, next, now, fault), issued := Issue(s, next), resumers := s.resumers[r := Called(next, s.resumers[r].approval)])
    case Finish(r) => s.(resumers := s.resumers - {r})
    case Claim(w, id, owner, token, ttl, now, fault) =>
      var op := FileStore.Claim(id, owner, token, ttl, now);
      if w in s.workers || FileStore.Outcome(s.tasks, op).Err? then s
      else s.(tasks := FileStore.AfterOp(s.tasks, op, fault),
              workers := if fault.Clean? then s.workers[w := FileStore.Outcome(s.tasks, op).value] else s.workers)
    case Work(w, next, now, fault) =>
      if w !in s.workers || !Writable(s, s.workers[w], next, true) then s
      else s.(tasks := PutTask(s.tasks, next, now, fault), issued := Issue(s, next), workers := s.workers[w := next])
    case Release(w, fault) =>
      if w !in s.workers then s
      else s.(workers := s.workers - {w},
              tasks := FileStore.AfterOp(s.tasks, FileStore.Release(s.workers[w].id, s.workers[w].lease.token, s.workers[w].lease.fence), fault))
    case Crash => s.(resumers := map[], workers := map[])
  }

  function Run(s: State, steps: seq<Step>): State
    decreases |steps|
  {
    if steps == [] then s else Run(Next(s, steps[0]), steps[1..])
  }

  /** A resumer begins only when no other one has loaded its task for the same approval. */
  predicate Sole(s: State, step: Step) {
    step.Begin? && Next(s, step) != s ==>
      forall q <- s.resumers :: s.resumers[q].Loaded? ==> s.resumers[q].record.id != step.record.id
  }

  /** Resumers of different approvals may run side by side, as many as there are. */
  predicate Orderly(s: State, steps: seq<Step>)
    decreases |steps|
  {
    steps == [] || (Sole(s, steps[0]) && Orderly(Next(s, steps[0]), steps[1..]))
  }

  // ----- the invariant

  ghost predicate NobodyWaits(s: State, approval: string) {
    forall id <- s.tasks :: !Waiting(s.tasks[id], approval)
  }

  /** Waiting tasks wait for issued approvals, each for its own. */
  ghost predicate WaitersOk(s: State) {
    && FileStore.WellKeyed(s.tasks)
    && (forall id <- s.tasks :: s.tasks[id].state == WaitingApproval ==> s.tasks[id].pendingApproval in s.issued)
    && (forall a, b | a in s.tasks && b in s.tasks && s.tasks[a].state == WaitingApproval && s.tasks[b].state == WaitingApproval
                      && s.tasks[a].pendingApproval == s.tasks[b].pendingApproval :: a == b)
  }

  ghost predicate Distinct(calls: seq<string>) {
    forall i, j | 0 <= i < j < |calls| :: calls[i] != calls[j]
  }

  ghost predicate CallsOk(s: State) {
    Distinct(s.calls) && forall a <- s.calls :: a in s.issued && NobodyWaits(s, a)
  }

  /** The approval of a resumer that has not called the executor yet. */
  function Claimed(p: ResumerPc): Option<string> {
    if p.Loaded? then Some(p.record.id) else if p.Started? then Some(p.approval) else None
  }

  /** Resumers on their way to the executor have approvals of their own; once one has started nobody waits for its approval any more. */
  ghost predicate ResumerOk(s: State) {
    && (forall r, q | r in s.resumers && q in s.resumers && Claimed(s.resumers[r]).Some? :: Claimed(s.resumers[r]) == Claimed(s.resumers[q]) ==> r == q)
    && (forall r <- s.resumers :: s.resumers[r].Loaded? ==>
          var a := s.resumers[r].record.id;
          && a in s.issued && a !in s.calls
          && forall id <- s.tasks :: Waiting(s.tasks[id], a) ==> id == s.resumers[r].value.id)
    && (forall r <- s.resumers :: s.resumers[r].Started? ==>
          s.resumers[r].approval in s.issued && s.resumers[r].approval !in s.calls && NobodyWaits(s, s.resumers[r].approval))
  }

  ghost predicate Inv(s: State) {
    WaitersOk(s) && CallsOk(s) && ResumerOk(s)
  }

  /** A write that does not make anybody wait for an old approval keeps every promise about waiting tasks. */
  ghost predicate Harmless(s: State, tasks: map<string, Task>, issued: set<string>) {
    && FileStore.WellKeyed(tasks) && s.issued <= issued
    && forall id <- tasks :: tasks[id].state == WaitingApproval ==>
         || (id in s.tasks && s.tasks[id].state == WaitingApproval && s.tasks[id].pendingApproval == tasks[id].pendingApproval)
         || (tasks[id].pendingApproval !in s.issued && tasks[id].pendingApproval in issued)
  }

  ghost predicate OneNewWaiter(s: State, tasks: map<string, Task>) {
    forall a, b | a in tasks && b in tasks && tasks[a].state == WaitingApproval && tasks[b].state == WaitingApproval
                  && tasks[a].pendingApproval !in s.issued && tasks[b].pendingApproval !in s.issued :: a == b
  }

  lemma {:induction false} HarmlessKeepsInv(s: State, tasks: map<string, Task>, issued: set<string>)
    requires Inv(s) && Harmless(s, tasks, issued) && OneNewWaiter(s, tasks)
    ensures Inv(s.(tasks := tasks, issued := issued))
  {
    var s' := s.(tasks := tasks, issued := issued);
    assert forall a | a in s.issued && NobodyWaits(s, a) :: NobodyWaits(s', a);
    assert WaitersOk(s');
    assert CallsOk(s');
    assert ResumerOk(s');
  }

  lemma {:induction false} WriteIsHarmless(s: State, base: Task, next: Task, worker: bool, now: int, fault: Fault)
    requires Inv(s) && Writable(s, base, next, worker)
    ensures Harmless(s, PutTask(s.tasks, next, now, fault), Issue(s, next)) && OneNewWaiter(s, PutTask(s.tasks, next, now, fault))
  {
  }

  lemma {:induction false} LeaseOpIsHarmless(s: State, op: FileStore.Op, fault: Fault)
    requires Inv(s) && !op.Save?
    ensures Harmless(s, FileStore.AfterOp(s.tasks, op, fault), s.issued) && OneNewWaiter(s, FileStore.AfterOp(s.tasks, op, fault))
  {
  }

  lemma {:induction false} BeginKeepsInv(s: State, step: Step)
    requires Inv(s) && step.Begin? && Sole(s, step)
    ensures Inv(Next(s, step))
  {
    var s' := Next(s, step);
    if s' != s {
      assert Waiting(s.tasks[step.record.binding.taskId], step.record.id);
      assert WaitersOk(s') && CallsOk(s');
      assert ResumerOk(s');
    }
  }

  lemma {:induction false} CallKeepsInv(s: State, step: Step)
    requires Inv(s) && step.Call?
    ensures Inv(Next(s, step))
  {
    var s' := Next(s, step);
    if s' != s {
      assert s'.tasks == s.tasks && s'.calls == s.calls + [s.resumers[step.resumer].approval];
      assert CallsOk(s');
      assert ResumerOk(s');
    }
  }

  lemma {:induction false} LeavingKeepsInv(s: State, step: Step)
    requires Inv(s) && (step.Finish? || step.Crash?)
    ensures Inv(Next(s, step))
  {
    var s' := Next(s, step);
    assert s'.tasks == s.tasks && s'.calls == s.calls && s'.issued == s.issued;
    assert forall r <- s'.resumers :: r in s.resumers && s'.resumers[r] == s.resumers[r];
  }

  /** The resumer that stored its task steps on, or gives up. */
  lemma {:induction false} StartedKeepsInv(s: State, r: nat, resumers: map<nat, ResumerPc>)
    requires Inv(s) && r in s.resumers && s.resumers[r].Loaded?
    requires resumers == s.resumers - {r}
             || (NobodyWaits(s, s.resumers[r].record.id) && exists v :: resumers == s.resumers[r := Started(v, s.resumers[r].record.id)])
    ensures Inv(s.(resumers := resumers))
  {
    var s' := s.(resumers := resumers);
    assert WaitersOk(s') && CallsOk(s');
  }

  /** Storing EXECUTING over the waiting task leaves nobody waiting for its approval. */
  lemma {:induction false} StartKeepsInv(s: State, step: Step)
    requires Inv(s) && (step.Start? || step.Cancel?)
    ensures Inv(Next(s, step))
  {
    var s' := Next(s, step);
    if s' != s {
      var r := step.resumer;
      var base := s.resumers[r].value;
      var next := if step.Cancel? then base.(state := Cancelled, pendingAction := None, pendingApproval := "")
                  else if Correlated(base, s.resumers[r].record.id) then Marked(base) else base.(state := Failed);
      WriteIsHarmless(s, base, next, false, step.now, step.fault);
      HarmlessKeepsInv(s, PutTask(s.tasks, next, step.now, step.fault), s.issued);
      StartedKeepsInv(s.(tasks := s'.tasks), r, s'.resumers);
    }
  }

  lemma {:induction false} InstallKeepsInv(s: State, step: Step)
    requires Inv(s) && step.Install?
    ensures Inv(Next(s, step))
  {
    var s' := Next(s, step);
    if s' != s {
      HarmlessKeepsInv(s, s'.tasks, s.issued);
    }
  }

  /** A resumer that has called, and any worker, may hold whatever they like. */
  lemma {:induction false} MemoryIsFree(s: State, resumers: map<nat, ResumerPc>, workers: map<nat, Task>)
    requires Inv(s) && resumers.Keys == s.resumers.Keys
    requires forall r <- resumers :: resumers[r] == s.resumers[r] || resumers[r].Called?
    ensures Inv(s.(resumers := resumers, workers := workers))
  {
    var s' := s.(resumers := resumers, workers := workers);
    assert WaitersOk(s') && CallsOk(s');
  }

  lemma {:induction false} WritesKeepInv(s: State, step: Step)
    requires Inv(s) && (step.Store? || step.Work?)
    ensures Inv(Next(s, step))
  {
    var s' := Next(s, step);
    if s' != s {
      WriteIsHarmless(s, if step.Store? then s.resumers[step.resumer].value else s.workers[step.worker], step.next, step.Work?, step.now, step.fault);
      HarmlessKeepsInv(s, s'.tasks, s'.issued);
      MemoryIsFree(s.(tasks := s'.tasks, issued := s'.issued), s'.resumers, s'.workers);
    }
  }

  lemma {:induction false} LeasesKeepInv(s: State, step: Step)
    requires Inv(s) && (step.Claim? || step.Release?)
    ensures Inv(Next(s, step))
  {
    var s' := Next(s, step);
    if s' != s {
      var op := if step.Claim? then FileStore.Claim(step.id, step.owner, step.token, step.ttl, step.now)
                else FileStore.Release(s.workers[step.worker].id, s.workers[step.worker].lease.token, s.workers[step.worker].lease.fence);
      LeaseOpIsHarmless(s, op, step.fault);
      HarmlessKeepsInv(s, s'.tasks, s.issued);
      MemoryIsFree(s.(tasks := s'.tasks), s.resumers, s'.workers);
    }
  }

  lemma {:induction false} StepKeepsInv(s: State, step: Step)
    requires Inv(s) && Sole(s, step)
    ensures Inv(Next(s, step))
  {
    match step {
      case Begin(_, _) => BeginKeepsInv(s, step);
      case Call(_) => CallKeepsInv(s, step);
      case Finish(_) => LeavingKeepsInv(s, step);
      case Crash => LeavingKeepsInv(s, step);
      case Start(_, _, _) => StartKeepsInv(s, step);
      case Cancel(_, _, _) => StartKeepsInv(s, step);
      case Install(_) => InstallKeepsInv(s, step);
      case Claim(_, _, _, _, _, _, _) => LeasesKeepInv(s, step);
      case Release(_, _) => LeasesKeepInv(s, step);
      case _ => WritesKeepInv(s, step);
    }
  }

  lemma {:induction false} RunKeepsInv(s: State, steps: seq<Step>)
    requires Inv(s) && Orderly(s, steps)
    ensures Inv(Run(s, steps))
    decreases |steps|
  {
    if steps != [] {
      StepKeepsInv(s, steps[0]);
      RunKeepsInv(Next(s, steps[0]), steps[1..]);
    }
  }

  /**
    With any number of resumers at work, as long as no two of them have loaded
    a task for the same approval, any number of workers, and server crashes
    anywhere: the executor is called at most once per approval, and once it
    has been called no task waits for that approval again.
   */
  lemma {:induction false} ExecutorCalledAtMostOnce(steps: seq<Step>)
    requires Orderly(Empty, steps)
    ensures Distinct(Run(Empty, steps).calls) && forall a <- Run(Empty, steps).calls :: NobodyWaits(Run(Empty, steps), a)
  {
    RunKeepsInv(Empty, steps);
  }

  // ----- two resumers of one approval

  /** The store takes EXECUTING over this task, and would take it again. */
  predicate Admitted(tasks: map<string, Task>, t: Task, now: int) {
    Accepted(tasks, Marked(t), now, Clean) && (t.lease.token != "" ==> now < t.lease.expiresAt)
  }

  /** The resumer holds an approved record and the task that belongs to it, under a lease that still admits it. */
  predicate Ready(s: State, r: nat, approval: string, now: int) {
    && r in s.resumers && s.resumers[r].Loaded?
    && s.resumers[r].record.id == approval && s.resumers[r].record.status == Approval.Approved
    && Correlated(s.resumers[r].value, approval) && Admitted(s.tasks, s.resumers[r].value, now)
  }

  /** Both store EXECUTING, then both call. */
  function Race(r: nat, q: nat, now: int): seq<Step> {
    [Start(r, now, Clean), Start(q, now, Clean), Call(r), Call(q)]
  }

  lemma {:induction false} RunFour(s: State, p1: Step, p2: Step, p3: Step, p4: Step)
    ensures Run(s, [p1, p2, p3, p4]) == Next(Next(Next(Next(s, p1), p2), p3), p4)
  {
    assert [p1, p2, p3, p4][1..] == [p2, p3, p4] && [p2, p3, p4][1..] == [p3, p4] && [p3, p4][1..] == [p4];
    var s1 := Next(s, p1);
    var s2 := Next(s1, p2);
    var s3 := Next(s2, p3);
    assert Run(s3, [p4]) == Run(Next(s3, p4), []);
    assert Run(s2, [p3, p4]) == Run(s3, [p4]);
    assert Run(s1, [p2, p3, p4]) == Run(s2, [p3, p4]);
  }

  lemma {:induction false} BothStart(s: State, r: nat, q: nat, approval: string, now: int) returns (s2: State)
    requires r != q && Ready(s, r, approval, now) && Ready(s, q, approval, now)
    requires s.resumers[r].value.lease == s.resumers[q].value.lease
    ensures s2 == Next(Next(s, Start(r, now, Clean)), Start(q, now, Clean))
    ensures s2.calls == s.calls && r in s2.resumers && q in s2.resumers
    ensures s2.resumers[r] == Started(Marked(s.resumers[r].value), approval) && s2.resumers[q] == Started(Marked(s.resumers[q].value), approval)
  {
    var s1 := Next(s, Start(r, now, Clean));
    assert s1.tasks == s.tasks[s.resumers[r].value.id := Marked(s.resumers[r].value)];
    assert Accepted(s1.tasks, Marked(s.resumers[q].value), now, Clean);
    s2 := Next(s1, Start(q, now, Clean));
  }

  /**
    The order of the steps is not enough on its own. From any state with two
    such resumers of one approval, both writes of EXECUTING are accepted,
    because a write is checked against the lease and not against the state it
    replaces, and both call the executor.
   */
  lemma {:induction false} TwoLoadedCallTwice(s: State, r: nat, q: nat, approval: string, now: int)
    requires r != q && Ready(s, r, approval, now) && Ready(s, q, approval, now)
    requires s.resumers[r].value.lease == s.resumers[q].value.lease
    ensures Run(s, Race(r, q, now)).calls == s.calls + [approval, approval]
    ensures Orderly(s, Race(r, q, now))
  {
    RunFour(s, Start(r, now, Clean), Start(q, now, Clean), Call(r), Call(q));
    var s2 := BothStart(s, r, q, approval, now);
    var s3 := Next(s2, Call(r));
    assert s3.calls == s.calls + [approval] && s3.resumers[q] == s2.resumers[q];
    assert Next(s3, Call(q)).calls == s3.calls + [approval];
    RaceIsOrderly(s, r, q, now);
  }

  lemma {:induction false} RaceIsOrderly(s: State, r: nat, q: nat, now: int)
    ensures Orderly(s, Race(r, q, now))
  {
    var race := Race(r, q, now);
    assert race[1..] == [Start(q, now, Clean), Call(r), Call(q)];
    assert race[1..][1..] == [Call(r), Call(q)] && race[1..][1..][1..] == [Call(q)] && race[1..][1..][1..][1..] == [];
    var s3 := Next(Next(Next(s, race[0]), race[1]), race[2]);
    assert Orderly(s3, [Call(q)]) by { assert [Call(q)][1..] == []; }
    assert Orderly(Next(Next(s, race[0]), race[1]), race[1..][1..]);
  }

  /** Any waiting task with an approved record can be caught in it: two resumers begin, then race. */
  lemma {:induction false} ConcurrentResumersCallTwice(s: State, record: Approval.Record, r: nat, q: nat, now: int)
    requires r != q && r !in s.resumers && q !in s.resumers
    requires var id := record.binding.taskId; id in s.tasks && Waiting(s.tasks[id], record.id)
    requires var t := s.tasks[record.binding.taskId]; record.status == Approval.Approved && Correlated(t, record.id) && Admitted(s.tasks, t, now)
    ensures var both := Next(Next(s, Begin(r, record)), Begin(q, record));
            Run(both, Race(r, q, now)).calls == s.calls + [record.id, record.id]
  {
    var both := Next(Next(s, Begin(r, record)), Begin(q, record));
    assert both == s.(resumers := s.resumers[r := Loaded(record, s.tasks[record.binding.taskId])][q := Loaded(record, s.tasks[record.binding.taskId])]);
    TwoLoadedCallTwice(both, r, q, record.id, now);
  }

  /**
    Exactly when it is safe to begin: whatever happens afterwards, in order,
    the executor is called at most once per approval, if and only if no other
    resumer has loaded the task for this approval. The loaded ones are assumed
    to hold what is stored.
   */
  lemma {:induction false} BeginIsSafeIff(s: State, q: nat, record: Approval.Record, now: int)
    requires Inv(s) && q !in s.resumers
    requires var id := record.binding.taskId; id in s.tasks && Waiting(s.tasks[id], record.id)
    requires var t := s.tasks[record.binding.taskId]; record.status == Approval.Approved && Correlated(t, record.id) && Admitted(s.tasks, t, now)
    requires forall r <- s.resumers :: s.resumers[r].Loaded? && s.resumers[r].record.id == record.id ==>
               s.resumers[r] == Loaded(record, s.tasks[record.binding.taskId])
    ensures Sole(s, Begin(q, record))
            <==> forall steps | Orderly(Next(s, Begin(q, record)), steps) :: Distinct(Run(Next(s, Begin(q, record)), steps).calls)
  {
    var s' := Next(s, Begin(q, record));
    var t := s.tasks[record.binding.taskId];
    assert s' == s.(resumers := s.resumers[q := Loaded(record, t)]) && s' != s by { assert q in s'.resumers; }
    if Sole(s, Begin(q, record)) {
      StepKeepsInv(s, Begin(q, record));
      forall steps | Orderly(s', steps)
        ensures Distinct(Run(s', steps).calls)
      {
        RunKeepsInv(s', steps);
      }
    } else {
      var r :| r in s.resumers && s.resumers[r].Loaded? && s.resumers[r].record.id == record.id;
      TwoLoadedCallTwice(s', r, q, record.id, now);
      TwiceIsNotDistinct(s.calls, record.id);
    }
  }

  lemma {:induction false} TwiceIsNotDistinct(calls: seq<string>, a: string)
    ensures !Distinct(calls + [a, a])
  {
    var more := calls + [a, a];
    assert more[|calls|] == more[|calls| + 1];
  }

  // ----- the resumer itself

  datatype Error =
    | NotFound | BindingMismatch | NotWaiting | TraceFailed | NotResolved | CorrelationMismatch
    | ExecutorFailed | NotVerified | StoreFailed(cause: FileStore.Error)

  /** What one Resume call meets: trace appends that succeed, the executor's answer, and the saves in order. */
  datatype World = World(appends: nat, executed: bool, verified: bool, event: nat, now: int, faults: (Fault, Fault, Fault))

  const APPENDS_BEFORE_CALL := 3

  /** A restore also records the start and the end of the rollback. */
  predicate IsRollback(e: Envelope) {
    e.proposal.tool == "file.restore_quarantine"
  }

  /** How many events precede the call. */
  function BeforeCall(e: Envelope): nat {
    if IsRollback(e) then APPENDS_BEFORE_CALL + 1 else APPENDS_BEFORE_CALL
  }

  /** How many precede the save of VERIFYING; the verification itself, the completion and the answer follow it. */
  function BeforeVerifying(e: Envelope): nat {
    BeforeCall(e) + if IsRollback(e) then 2 else 1
  }

  /** Exactly when one Resume call reaches the executor. */
  predicate Reaches(tasks: map<string, Task>, record: Approval.Record, w: World) {
    var id := record.binding.taskId;
    && Paths.ValidId(id) && id in tasks && tasks[id].id == id
    && Waiting(tasks[id], record.id)
    && record.status == Approval.Approved
    && Correlated(tasks[id], record.id)
    && Accepted(tasks, Marked(tasks[id]), w.now, w.faults.0)
    && w.appends >= BeforeCall(tasks[id].pendingAction.value)
  }

  function CalledOff(t: Task): Task {
    t.(pendingAction := None, pendingApproval := "", failure := "approval not granted", state := Cancelled)
  }

  function Failing(t: Task): Task {
    t.(state := Failed, failure := "execution failed")
  }

  function Finished(t: Task, event: nat): Task {
    t.(pendingAction := None, pendingApproval := "", evidence := t.evidence + [EvidenceRef(t.id, event)], state := Completed)
  }

  /** The tasks with EXECUTING stored, as the executor is called. */
  function StartStored(tasks: map<string, Task>, t: Task, w: World): map<string, Task> {
    PutTask(tasks, Marked(t), w.now, w.faults.0)
  }

  /** The stored tasks once the executor has answered for a task marked as executing. */
  function AfterCall(started: map<string, Task>, t: Task, w: World): map<string, Task>
    requires t.pendingAction.Some?
  {
    var verifying := t.(state := Verifying);
    if !w.executed then PutTask(started, Failing(t), w.now, w.faults.1)
    else if w.appends < BeforeVerifying(t.pendingAction.value) then started
    else
      var stored := PutTask(started, verifying, w.now, w.faults.1);
      if !Accepted(started, verifying, w.now, w.faults.1) then stored
      else if !w.verified then PutTask(stored, Failing(verifying), w.now, w.faults.2)
      else if w.appends < BeforeVerifying(t.pendingAction.value) + 1 then stored
      else PutTask(stored, Finished(verifying, w.event), w.now, w.faults.2)
  }

  /** Exactly when a resumption that reached the executor is reported as a success. */
  predicate Completes(started: map<string, Task>, t: Task, w: World)
    requires t.pendingAction.Some?
  {
    var verifying := t.(state := Verifying);
    && w.executed && w.verified
    && w.appends >= BeforeVerifying(t.pendingAction.value) + 3
    && Accepted(started, verifying, w.now, w.faults.1)
    && Accepted(PutTask(started, verifying, w.now, w.faults.1), Finished(verifying, w.event), w.now, w.faults.2)
  }

  // ----- what a resumption comes to, said without the functions above

  /** The lease a task carries still admits its writes. */
  predicate Admits(t: Task, now: int) {
    t.lease.token == "" || now < t.lease.expiresAt
  }

  /** How many events precede the save of VERIFYING. */
  function EventsBehindCall(e: Envelope): nat {
    if e.proposal.tool == "file.restore_quarantine" then 6 else 4
  }

  /**
    A called task is stored as COMPLETED only for a verified execution, with
    one reference to its event and nothing pending. A failed call or
    verification leaves it FAILED with the action still recorded, and whatever
    breaks off leaves it in between.
   */
  ghost predicate EndsAs(t: Task, after: Task, w: World)
    requires t.pendingAction.Some?
  {
    var recorded := w.appends >= EventsBehindCall(t.pendingAction.value);
    && (after.state == Completed <==>
          && w.executed && w.verified && w.appends > EventsBehindCall(t.pendingAction.value)
          && w.faults.1.Clean? && !w.faults.2.BeforeRename?)
    && (after.state == Completed ==>
          after == t.(state := Completed, pendingAction := None, pendingApproval := "", evidence := t.evidence + [EvidenceRef(t.id, w.event)]))
    && (after.state == Failed <==>
          || (!w.executed && !w.faults.1.BeforeRename?)
          || (w.executed && recorded && w.faults.1.Clean? && !w.verified && !w.faults.2.BeforeRename?))
    && (after.state == Executing <==> w.faults.1.BeforeRename? || (w.executed && !recorded))
    && (after.state != Completed ==>
          after.state in {Executing, Verifying, Failed} && after == t.(state := after.state, failure := after.failure))
  }

  lemma {:induction false} AcceptedIff(tasks: map<string, Task>, v: Task, now: int, fault: Fault)
    requires Paths.ValidId(v.id) && v.id in tasks && tasks[v.id].lease == v.lease
    ensures Accepted(tasks, v, now, fault) <==> Admits(v, now) && fault.Clean?
    ensures PutTask(tasks, v, now, fault) == if Admits(v, now) && !fault.BeforeRename? then tasks[v.id := v] else tasks
  {
  }

  /** Exactly when the executor is called: an approved record, the waiting task and the envelope that belong to it, and a start that is stored and recorded. */
  lemma {:induction false} ReachesIff(tasks: map<string, Task>, record: Approval.Record, w: World)
    requires FileStore.WellKeyed(tasks)
    ensures Reaches(tasks, record, w) <==>
              var id := record.binding.taskId;
              && Paths.ValidId(id) && id in tasks && record.status == Approval.Approved
              && tasks[id].state == WaitingApproval && tasks[id].pendingApproval == record.id
              && tasks[id].pendingAction.Some?
              && var e := tasks[id].pendingAction.value;
                 && e.taskId == id && e.sessionId == tasks[id].sessionId && e.approvalId == record.id
                 && Admits(tasks[id], w.now) && w.faults.0.Clean?
                 && w.appends >= (if e.proposal.tool == "file.restore_quarantine" then 4 else 3)
  {
    var id := record.binding.taskId;
    if Paths.ValidId(id) && id in tasks {
      AcceptedIff(tasks, Marked(tasks[id]), w.now, w.faults.0);
    }
  }

  lemma {:induction false} AfterCallMeans(started: map<string, Task>, t: Task, w: World)
    requires Paths.ValidId(t.id) && t.id in started && started[t.id] == t
    requires t.state == Executing && t.pendingAction.Some? && Admits(t, w.now)
    ensures t.id in AfterCall(started, t, w) && EndsAs(t, AfterCall(started, t, w)[t.id], w)
    ensures Completes(started, t, w) <==>
              AfterCall(started, t, w)[t.id].state == Completed && w.faults.2.Clean? && w.appends >= EventsBehindCall(t.pendingAction.value) + 3
  {
    var verifying := t.(state := Verifying);
    var stored := PutTask(started, verifying, w.now, w.faults.1);
    AcceptedIff(started, verifying, w.now, w.faults.1);
    AcceptedIff(started, Failing(t), w.now, w.faults.1);
    AcceptedIff(stored, Failing(verifying), w.now, w.faults.2);
    AcceptedIff(stored, Finished(verifying, w.event), w.now, w.faults.2);
  }

  lemma {:induction false} CalledEndsAs(tasks: map<string, Task>, record: Approval.Record, w: World)
    requires Reaches(tasks, record, w)
    ensures var t := tasks[record.binding.taskId];
            var after := AfterCall(StartStored(tasks, t, w), Marked(t), w);
            && t.id in after && EndsAs(Marked(t), after[t.id], w)
            && (Completes(StartStored(tasks, t, w), Marked(t), w) <==>
                  after[t.id].state == Completed && w.faults.2.Clean? && w.appends >= EventsBehindCall(t.pendingAction.value) + 3)
  {
    var t := tasks[record.binding.taskId];
    AcceptedIff(tasks, Marked(t), w.now, w.faults.0);
    AfterCallMeans(StartStored(tasks, t, w), Marked(t), w);
  }

  class Resumer {
    const store: FileStore.Store
    /** The envelopes sent to the executor, oldest first. */
    var sent: seq<Envelope>

    constructor (store: FileStore.Store)
      ensures this.store == store && sent == []
    {
      this.store := store;
      sent := [];
    }

    /** failExecution: the task is stored as FAILED, if the store takes it. */
    method FailExecution(value: Task, cause: Error, now: int, fault: Fault) returns (r: Result<Task, Error>)
      modifies store`tasks
      ensures r.Err?
      ensures store.tasks == PutTask(old(store.tasks), value.(state := Failed, failure := "execution failed"), now, fault)
    {
      var _ := store.SaveTask(value.(state := Failed, failure := "execution failed"), now, fault);
      return Err(cause);
    }

    method Resume(record: Approval.Record, w: World) returns (r: Result<Task, Error>)
      requires FileStore.WellKeyed(store.tasks)
      modifies this, store`tasks
      ensures Reaches(old(store.tasks), record, w) ==>
                && sent == old(sent) + [old(store.tasks)[record.binding.taskId].pendingAction.value]
                && record.binding.taskId in store.tasks
                && !Waiting(store.tasks[record.binding.taskId], record.id)
                && var t := old(store.tasks)[record.binding.taskId];
                   store.tasks == AfterCall(StartStored(old(store.tasks), t, w), Marked(t), w)
      ensures var id := record.binding.taskId;
              Paths.ValidId(id) && id in old(store.tasks) && Waiting(old(store.tasks)[id], record.id) ==>
                var t := old(store.tasks)[id];
                if w.appends >= 1 && (record.status == Approval.Rejected || record.status == Approval.Expired) then
                  && store.tasks == PutTask(old(store.tasks), CalledOff(t), w.now, w.faults.0)
                  && (r.Ok? <==> w.appends >= 2 && Accepted(old(store.tasks), CalledOff(t), w.now, w.faults.0))
                else if w.appends >= 2 && record.status == Approval.Approved then
                  && (r.Ok? <==> Reaches(old(store.tasks), record, w) && Completes(StartStored(old(store.tasks), t, w), Marked(t), w))
                  && (!Correlated(t, record.id) ==> store.tasks == PutTask(old(store.tasks), Failing(t), w.now, w.faults.0))
                  && (Correlated(t, record.id) && !Reaches(old(store.tasks), record, w) ==>
                        store.tasks == StartStored(old(store.tasks), t, w))
                else r.Err? && store.tasks == old(store.tasks)
      ensures var id := record.binding.taskId;
              Paths.ValidId(id) && id in old(store.tasks) && !Waiting(old(store.tasks)[id], record.id) ==>
                && store.tasks == old(store.tasks)
                && (r.Ok? <==> old(store.tasks)[id].pendingApproval == record.id && Terminal(old(store.tasks)[id].state))
      ensures Reaches(old(store.tasks), record, w) ==>
                EndsAs(Marked(old(store.tasks)[record.binding.taskId]), store.tasks[record.binding.taskId], w)
      ensures var id := record.binding.taskId;
              Paths.ValidId(id) && id in old(store.tasks) && Waiting(old(store.tasks)[id], record.id)
              && record.status in {Approval.Rejected, Approval.Expired} && w.appends >= 1 ==>
                store.tasks[id] ==
                  if Admits(old(store.tasks)[id], w.now) && !w.faults.0.BeforeRename?
                  then old(store.tasks)[id].(state := Cancelled, pendingAction := None, pendingApproval := "", failure := "approval not granted")
                  else old(store.tasks)[id]
      ensures !Paths.ValidId(record.binding.taskId) || record.binding.taskId !in old(store.tasks) ==> r.Err? && store.tasks == old(store.tasks)
      ensures !Reaches(old(store.tasks), record, w) ==> sent == old(sent)
      ensures r.Ok? && sent != old(sent) ==>
                && store.tasks[record.binding.taskId].state == Completed
                && store.tasks[record.binding.taskId].pendingAction == None
      ensures forall id | id != record.binding.taskId ::
                (id in store.tasks <==> id in old(store.tasks)) && (id in store.tasks ==> store.tasks[id] == old(store.tasks)[id])
    {
      var id := record.binding.taskId;
      if !Paths.ValidId(id) || id !in store.tasks {
        return Err(NotFound);
      }
      var value := store.tasks[id];
      if value.pendingApproval != record.id {
        return Err(BindingMismatch);
      }
      if value.state != WaitingApproval {
        return if Terminal(value.state) then Ok(value) else Err(NotWaiting);
      }
      if w.appends < 1 {
        return Err(TraceFailed);
      }
      if record.status == Approval.Rejected || record.status == Approval.Expired {
        value := value.(pendingAction := None, pendingApproval := "", failure := "approval not granted", state := Cancelled);
        var saved := store.SaveTask(value, w.now, w.faults.0);
        return if saved.Err? then Err(StoreFailed(saved.error)) else if w.appends < 2 then Err(TraceFailed) else Ok(value);
      }
      if record.status != Approval.Approved {
        return Err(NotResolved);
      }
      if w.appends < 2 {
        return Err(TraceFailed);
      }
      r := ExecuteApproved(value, record, w);
    }

    method ExecuteApproved(loaded: Task, record: Approval.Record, w: World) returns (r: Result<Task, Error>)
      requires FileStore.WellKeyed(store.tasks) && Paths.ValidId(loaded.id)
      requires loaded.id == record.binding.taskId && loaded.id in store.tasks && store.tasks[loaded.id] == loaded
      requires Waiting(loaded, record.id) && record.status == Approval.Approved
      modifies this, store`tasks
      ensures Reaches(old(store.tasks), record, w) ==>
                sent == old(sent) + [loaded.pendingAction.value]
                && loaded.id in store.tasks && store.tasks[loaded.id].state != WaitingApproval
                && store.tasks == AfterCall(StartStored(old(store.tasks), loaded, w), Marked(loaded), w)
      ensures r.Ok? <==> Reaches(old(store.tasks), record, w) && Completes(StartStored(old(store.tasks), loaded, w), Marked(loaded), w)
      ensures !Correlated(loaded, record.id) ==> r.Err? && store.tasks == PutTask(old(store.tasks), Failing(loaded), w.now, w.faults.0)
      ensures Correlated(loaded, record.id) && !Reaches(old(store.tasks), record, w) ==>
                store.tasks == StartStored(old(store.tasks), loaded, w)
      ensures !Reaches(old(store.tasks), record, w) ==> sent == old(sent)
      ensures Reaches(old(store.tasks), record, w) ==>
                && EndsAs(Marked(loaded), store.tasks[loaded.id], w)
                && (r.Ok? <==> store.tasks[loaded.id].state == Completed && w.faults.2.Clean? && w.appends >= EventsBehindCall(loaded.pendingAction.value) + 3)
      ensures r.Ok? ==> sent != old(sent) && store.tasks[loaded.id].state == Completed && store.tasks[loaded.id].pendingAction == None
      ensures forall id | id != loaded.id ::
                (id in store.tasks <==> id in old(store.tasks)) && (id in store.tasks ==> store.tasks[id] == old(store.tasks)[id])
    {
      if !Correlated(loaded, record.id) {
        r := FailExecution(loaded, CorrelationMismatch, w.now, w.faults.0);
        return;
      }
      var envelope := loaded.pendingAction.value;
      var value := loaded.(state := Executing);
      var saved := store.SaveTask(value, w.now, w.faults.0);
      if saved.Err? {
        return Err(StoreFailed(saved.error));
      }
      if w.appends < BeforeCall(envelope) {
        return Err(TraceFailed);
      }
      sent := sent + [envelope];
      CalledEndsAs(old(store.tasks), record, w);
      r := FinishApproved(value, w);
    }

    /** What follows the call, on a task stored as EXECUTING. */
    method FinishApproved(executing: Task, w: World) returns (r: Result<Task, Error>)
      requires FileStore.WellKeyed(store.tasks) && Paths.ValidId(executing.id) && executing.pendingAction.Some?
      requires executing.id in store.tasks && store.tasks[executing.id].state != WaitingApproval && executing.state != WaitingApproval
      modifies store`tasks
      ensures store.tasks == AfterCall(old(store.tasks), executing, w)
      ensures executing.id in store.tasks && store.tasks[executing.id].state != WaitingApproval
      ensures r.Ok? <==> Completes(old(store.tasks), executing, w)
      ensures r.Ok? ==> store.tasks[executing.id].state == Completed && store.tasks[executing.id].pendingAction == None
    {
      var envelope := executing.pendingAction.value;
      var value := executing;
      if !w.executed {
        r := FailExecution(value, ExecutorFailed, w.now, w.faults.1);
        return;
      }
      if w.appends < BeforeCall(envelope) + 1 {
        return Err(TraceFailed);
      }
      if IsRollback(envelope) && w.appends < BeforeCall(envelope) + 2 {
        return Err(TraceFailed);
      }
      value := value.(state := Verifying);
      var saved := store.SaveTask(value, w.now, w.faults.1);
      if saved.Err? {
        return Err(StoreFailed(saved.error));
      }
      if !w.verified {
        r := FailExecution(value, NotVerified, w.now, w.faults.2);
        return;
      }
      if w.appends < BeforeVerifying(envelope) + 1 {
        return Err(TraceFailed);
      }
      value := value.(pendingAction := None, pendingApproval := "", evidence := value.evidence + [EvidenceRef(value.id, w.event)], state := Completed);
      saved := store.SaveTask(value, w.now, w.faults.2);
      if saved.Err? {
        return Err(StoreFailed(saved.error));
      }
      if w.appends < BeforeVerifying(envelope) + 3 {
        return Err(TraceFailed);
      }
      return Ok(value);
    }
  }

  /**
    Not every approved task runs. A worker that died while its task was
    already waiting leaves its lease behind, and the task can be started
    exactly as long as that lease has not expired: afterwards every save is
    refused, and nobody claims a waiting task.
   */
  lemma {:induction false} LeftoverLeaseStrandsApproval(tasks: map<string, Task>, record: Approval.Record, w: World)
    requires var id := record.binding.taskId;
             && Paths.ValidId(id) && id in tasks && tasks[id].id == id
             && Waiting(tasks[id], record.id) && record.status == Approval.Approved && Correlated(tasks[id], record.id)
             && w.appends >= BeforeCall(tasks[id].pendingAction.value) && w.faults.0.Clean?
    ensures Reaches(tasks, record, w)
            <==> tasks[record.binding.taskId].lease.token == "" || w.now < tasks[record.binding.taskId].lease.expiresAt
  {
    var t := tasks[record.binding.taskId];
    assert Marked(t).lease == t.lease && Marked(t).id == t.id;
  }

  // ----- recovery

  /** One write of a record: the clock reading it meets and how it ends. */
  datatype Writing = Writing(now: int, fault: Fault)

  /** What one Run meets: the token it draws, then its writes in order. A write that a timeout cuts off fails before its rename. */
  datatype Passage = Passage(token: string, claim: Writing, saves: nat -> Writing, fail: Writing, release: Fault)

  /** The body of Run behind the claim: the snapshots it stores in turn, and the one it gives up with, if it does. */
  datatype Plan = Plan(saves: seq<Task>, abandoned: Option<Task>)

  type Workflow = Task -> Plan

  /** Who claims: the configured name and lease duration, with their defaults. */
  datatype Worker = Worker(owner: string, ttl: int)

  const DEFAULT_OWNER := "safeops-worker"
  const DEFAULT_LEASE_TTL := 180_000_000_000

  function ClaimBy(worker: Worker, id: string, p: Passage): FileStore.Op {
    FileStore.Claim(id, if Trim(worker.owner) == "" then DEFAULT_OWNER else Trim(worker.owner), p.token,
                    if worker.ttl <= 0 then DEFAULT_LEASE_TTL else worker.ttl, p.claim.now)
  }

  /** The workflow's saves from the k-th on; the first one that fails ends them. */
  function SavesFrom(tasks: map<string, Task>, saves: seq<Task>, k: nat, writes: nat -> Writing): (map<string, Task>, Option<Task>)
    requires k <= |saves|
    decreases |saves| - k
  {
    if k == |saves| then (tasks, None)
    else
      var w := writes(k);
      if Accepted(tasks, saves[k], w.now, w.fault) then SavesFrom(PutTask(tasks, saves[k], w.now, w.fault), saves, k + 1, writes)
      else (PutTask(tasks, saves[k], w.now, w.fault), Some(saves[k]))
  }

  /** The tasks behind the work, and the snapshot that is to be stored as FAILED. An action in flight is not worked on. */
  function Worked(workflow: Workflow, tasks: map<string, Task>, t: Task, p: Passage): (map<string, Task>, Option<Task>) {
    if InFlight(t) then (tasks, Some(t))
    else
      var plan := workflow(t);
      var (stored, cut) := SavesFrom(tasks, plan.saves, 0, p.saves);
      (stored, if cut.Some? then cut else plan.abandoned)
  }

  function Concluded(workflow: Workflow, tasks: map<string, Task>, t: Task, p: Passage): map<string, Task> {
    var (stored, given) := Worked(workflow, tasks, t, p);
    if given.None? then stored else PutTask(stored, Failing(given.value), p.fail.now, p.fail.fault)
  }

  /** Claim, work or fail closed, release. */
  function AfterRun(workflow: Workflow, worker: Worker, tasks: map<string, Task>, id: string, p: Passage): map<string, Task>
    requires id in tasks
  {
    var claim := ClaimBy(worker, id, p);
    var claimed := FileStore.AfterOp(tasks, claim, p.claim.fault);
    if Terminal(tasks[id].state) || tasks[id].state == WaitingApproval then tasks
    else if FileStore.Outcome(tasks, claim).Err? || !p.claim.fault.Clean? then claimed
    else
      var mine := FileStore.Outcome(tasks, claim).value;
      FileStore.AfterOp(Concluded(workflow, claimed, mine, p), FileStore.Release(id, mine.lease.token, mine.lease.fence), p.release)
  }

  /** Run reports no error: there was nothing to do, or everything was done and the lease given back. */
  predicate RunSucceeds(workflow: Workflow, worker: Worker, tasks: map<string, Task>, id: string, p: Passage)
    requires id in tasks
  {
    || Terminal(tasks[id].state) || tasks[id].state == WaitingApproval
    || var claim := ClaimBy(worker, id, p);
       var claimed := FileStore.AfterOp(tasks, claim, p.claim.fault);
       && FileStore.Outcome(tasks, claim).Ok? && p.claim.fault.Clean? && p.release.Clean?
       && var mine := FileStore.Outcome(tasks, claim).value;
          && Worked(workflow, claimed, mine, p).1.None?
          && FileStore.Outcome(Concluded(workflow, claimed, mine, p), FileStore.Release(id, mine.lease.token, mine.lease.fence)).Ok?
  }

  /** A workflow works on the task it was given, under its lease. */
  ghost predicate Faithful(workflow: Workflow) {
    forall t: Task :: Kept(workflow(t), t)
  }

  ghost predicate Kept(plan: Plan, t: Task) {
    && (forall v <- plan.saves :: v.id == t.id && v.lease == t.lease)
    && (plan.abandoned.Some? ==> plan.abandoned.value.id == t.id && plan.abandoned.value.lease == t.lease)
  }

  /** The claim is admitted and every later write succeeds while the lease lives. */
  ghost predicate Smooth(worker: Worker, t: Task, p: Passage) {
    var claim := ClaimBy(worker, t.id, p);
    && Paths.ValidId(t.id) && Trim(claim.token) != "" && claim.ttl <= FileStore.MAX_LEASE_TTL
    && (t.lease.token == "" || claim.now >= t.lease.expiresAt)
    && p.claim.fault.Clean? && p.fail.fault.Clean? && p.release.Clean? && p.fail.now < claim.now + claim.ttl
    && forall k: nat :: p.saves(k).fault.Clean? && p.saves(k).now < claim.now + claim.ttl
  }

  /** The task as its claim stores it. */
  function Mine(worker: Worker, t: Task, p: Passage): Task {
    var claim := ClaimBy(worker, t.id, p);
    t.(lease := Lease(Trim(claim.owner), Trim(claim.token), t.lease.fence + 1, claim.now + claim.ttl))
  }

  /** How a run without faults leaves a task: as its workflow left it, released, one fence higher. */
  function WellLeft(workflow: Workflow, worker: Worker, t: Task, p: Passage): Task {
    if t.state in {Completed, Failed, Cancelled, WaitingApproval} then t
    else Ended(workflow, Mine(worker, t, p)).(lease := Lease("", "", t.lease.fence + 1, 0))
  }

  /**
    How Run may leave a task, whatever fails on the way: a finished or waiting
    one untouched; one with an action in flight as it was, or failed, with the
    action still recorded.
   */
  ghost predicate KeptBy(before: Task, after: Task) {
    && (before.state in {Completed, Failed, Cancelled, WaitingApproval} ==> after == before)
    && before.lease.fence <= after.lease.fence <= before.lease.fence + 1
    && (before.state in {Executing, Verifying} && before.pendingAction.Some? ==>
          && (after.state == before.state || after.state == Failed)
          && after == before.(state := after.state, lease := after.lease, failure := after.failure))
  }

  /** The snapshot a run without faults ends with: the last one stored, failed if the workflow gave up. */
  function Ended(workflow: Workflow, t: Task): Task {
    var plan := workflow(t);
    if t.state in {Executing, Verifying} && t.pendingAction.Some? then t.(state := Failed, failure := "execution failed")
    else if plan.abandoned.Some? then plan.abandoned.value.(state := Failed, failure := "execution failed")
    else if plan.saves == [] then t
    else plan.saves[|plan.saves| - 1]
  }

  // ----- what a run does to its task and to the others

  /** Two directories that differ in one task at most. */
  ghost predicate Beside(before: map<string, Task>, after: map<string, Task>, id: string) {
    id in after && after == before[id := after[id]]
  }

  lemma {:induction false} PutBeside(tasks: map<string, Task>, v: Task, now: int, fault: Fault)
    requires v.id in tasks
    ensures Beside(tasks, PutTask(tasks, v, now, fault), v.id)
    ensures PutTask(tasks, v, now, fault)[v.id] == v || PutTask(tasks, v, now, fault) == tasks
  {
    assert tasks == tasks[v.id := tasks[v.id]];
  }

  lemma {:induction false} SavesKeep(tasks: map<string, Task>, saves: seq<Task>, k: nat, writes: nat -> Writing, t: Task)
    requires k <= |saves| && t.id in tasks && tasks[t.id].lease == t.lease && (forall v <- saves :: v.id == t.id && v.lease == t.lease)
    ensures var (after, cut) := SavesFrom(tasks, saves, k, writes);
            && Beside(tasks, after, t.id) && after[t.id].lease == t.lease
            && (cut.Some? ==> cut.value.id == t.id && cut.value.lease == t.lease)
    decreases |saves| - k
  {
    if k == |saves| {
      assert tasks == tasks[t.id := tasks[t.id]];
    } else {
      var w := writes(k);
      assert saves[k] in saves;
      PutBeside(tasks, saves[k], w.now, w.fault);
      SavesKeep(PutTask(tasks, saves[k], w.now, w.fault), saves, k + 1, writes, t);
    }
  }

  lemma {:induction false} ConcludedKeeps(workflow: Workflow, tasks: map<string, Task>, t: Task, p: Passage)
    requires Faithful(workflow) && t.id in tasks && tasks[t.id].lease == t.lease
    ensures var after := Concluded(workflow, tasks, t, p);
            && Beside(tasks, after, t.id) && after[t.id].lease == t.lease
            && (InFlight(t) ==> after[t.id] == tasks[t.id] || after[t.id] == Failing(t))
  {
    assert tasks == tasks[t.id := tasks[t.id]];
    assert Kept(workflow(t), t);
    if !InFlight(t) {
      SavesKeep(tasks, workflow(t).saves, 0, p.saves, t);
    }
    var (stored, given) := Worked(workflow, tasks, t, p);
    if given.Some? {
      PutBeside(stored, Failing(given.value), p.fail.now, p.fail.fault);
    }
  }

  /** Whatever fails, no action in flight is lost or started again, and no other task is touched. */
  lemma {:induction false} RunKeeps(workflow: Workflow, worker: Worker, tasks: map<string, Task>, id: string, p: Passage)
    requires Faithful(workflow) && id in tasks && tasks[id].id == id
    ensures var after := AfterRun(workflow, worker, tasks, id, p);
            Beside(tasks, after, id) && KeptBy(tasks[id], after[id])
  {
    var claim := ClaimBy(worker, id, p);
    var claimed := FileStore.AfterOp(tasks, claim, p.claim.fault);
    assert tasks == tasks[id := tasks[id]];
    if FileStore.Outcome(tasks, claim).Ok? && p.claim.fault.Clean? {
      var mine := FileStore.Outcome(tasks, claim).value;
      ConcludedKeeps(workflow, claimed, mine, p);
    }
  }

  /** The first save that fails is the last one: the snapshot before it stays, and the run is left with the one it could not store. */
  lemma {:induction false} FirstFailureEnds(tasks: map<string, Task>, saves: seq<Task>, k: nat, j: nat, writes: nat -> Writing, t: Task)
    requires k <= j < |saves| && Paths.ValidId(t.id) && t.id in tasks && tasks[t.id].lease == t.lease
    requires forall v <- saves :: v.id == t.id && v.lease == t.lease
    requires forall i: nat | k <= i < j :: writes(i).fault.Clean? && Admits(t, writes(i).now)
    requires !(writes(j).fault.Clean? && Admits(t, writes(j).now))
    ensures var (after, cut) := SavesFrom(tasks, saves, k, writes);
            && cut == Some(saves[j]) && t.id in after
            && after[t.id] == if !writes(j).fault.BeforeRename? && Admits(t, writes(j).now) then saves[j] else if j > k then saves[j - 1] else tasks[t.id]
    decreases j - k
  {
    assert saves[k] in saves;
    AcceptedIff(tasks, saves[k], writes(k).now, writes(k).fault);
    if k < j {
      FirstFailureEnds(PutTask(tasks, saves[k], writes(k).now, writes(k).fault), saves, k + 1, j, writes, t);
    }
  }

  /** Who claims, and for how long: what is configured, or else the worker's default name and three minutes. */
  lemma {:induction false} ClaimIsConfigured(worker: Worker, id: string, p: Passage)
    ensures var claim := ClaimBy(worker, id, p);
            && claim.Claim? && claim.id == id && claim.token == p.token && claim.now == p.claim.now
            && (Trim(worker.owner) != "" ==> Trim(claim.owner) == Trim(worker.owner))
            && (Trim(worker.owner) == "" ==> Trim(claim.owner) == "safeops-worker")
            && claim.ttl > 0 && (worker.ttl > 0 ==> claim.ttl == worker.ttl) && (worker.ttl <= 0 ==> claim.ttl == 180_000_000_000)
  {
    TrimmedAgain(worker.owner);
  }

  lemma {:induction false} SavesLand(tasks: map<string, Task>, saves: seq<Task>, k: nat, writes: nat -> Writing, t: Task)
    requires k <= |saves| && Paths.ValidId(t.id) && t.id in tasks && tasks[t.id].lease == t.lease && t.lease.token != ""
    requires forall v <- saves :: v.id == t.id && v.lease == t.lease
    requires forall j: nat :: writes(j).fault.Clean? && writes(j).now < t.lease.expiresAt
    ensures SavesFrom(tasks, saves, k, writes) == (if k == |saves| then tasks else tasks[t.id := saves[|saves| - 1]], None)
    decreases |saves| - k
  {
    if k < |saves| {
      var w := writes(k);
      assert saves[k] in saves;
      var stored := PutTask(tasks, saves[k], w.now, w.fault);
      assert stored == tasks[t.id := saves[k]];
      SavesLand(stored, saves, k + 1, writes, t);
      assert stored[t.id := saves[|saves| - 1]] == tasks[t.id := saves[|saves| - 1]];
    }
  }

  lemma {:induction false} WorkLands(workflow: Workflow, tasks: map<string, Task>, t: Task, p: Passage)
    requires Faithful(workflow) && Paths.ValidId(t.id) && t.id in tasks && tasks[t.id] == t && t.lease.token != ""
    requires p.fail.fault.Clean? && p.fail.now < t.lease.expiresAt
    requires forall j: nat :: p.saves(j).fault.Clean? && p.saves(j).now < t.lease.expiresAt
    ensures Concluded(workflow, tasks, t, p) == tasks[t.id := Ended(workflow, t)]
    ensures Ended(workflow, t).lease == t.lease && Ended(workflow, t).id == t.id
    ensures Worked(workflow, tasks, t, p).1.None? <==>
              !(t.state in {Executing, Verifying} && t.pendingAction.Some?) && workflow(t).abandoned.None?
  {
    assert Kept(workflow(t), t);
    if InFlight(t) {
      assert PutTask(tasks, Failing(t), p.fail.now, p.fail.fault) == tasks[t.id := Failing(t)];
    } else {
      var plan := workflow(t);
      SavesLand(tasks, plan.saves, 0, p.saves, t);
      assert plan.saves != [] ==> plan.saves[|plan.saves| - 1] in plan.saves;
      assert tasks == tasks[t.id := t];
    }
  }

  lemma {:induction false} TrimmedAgain(s: string)
    ensures Trim(Trim(s)) == Trim(s)
    decreases |s|
  {
    if s != "" && Space(s[0]) {
      TrimmedAgain(s[1..]);
    } else if s != "" && Space(s[|s| - 1]) {
      TrimmedAgain(s[..|s| - 1]);
    }
  }

  lemma {:induction false} SmoothClaims(worker: Worker, tasks: map<string, Task>, id: string, p: Passage)
    requires id in tasks && tasks[id].id == id && Smooth(worker, tasks[id], p)
    ensures FileStore.Outcome(tasks, ClaimBy(worker, id, p)) == Ok(Mine(worker, tasks[id], p))
    ensures FileStore.AfterOp(tasks, ClaimBy(worker, id, p), p.claim.fault) == tasks[id := Mine(worker, tasks[id], p)]
    ensures Mine(worker, tasks[id], p).lease.token != ""
  {
    TrimmedAgain(worker.owner);
  }

  /** Without faults the task ends as its workflow left it, released, one fence higher; one in flight fails without it. */
  lemma {:induction false} RunCompletes(workflow: Workflow, worker: Worker, tasks: map<string, Task>, id: string, p: Passage)
    requires Faithful(workflow) && id in tasks && tasks[id].id == id && Smooth(worker, tasks[id], p)
    ensures AfterRun(workflow, worker, tasks, id, p) == tasks[id := WellLeft(workflow, worker, tasks[id], p)]
  {
    var t := tasks[id];
    if Terminal(t.state) || t.state == WaitingApproval {
      assert tasks == tasks[id := t];
    } else {
      SmoothClaims(worker, tasks, id, p);
      var mine := Mine(worker, t, p);
      var claimed := tasks[id := mine];
      WorkLands(workflow, claimed, mine, p);
      ReleasedAfter(tasks, claimed, Ended(workflow, mine));
    }
  }

  /** Without faults a run fails exactly for an action in flight and for a workflow that gives up. */
  lemma {:induction false} SmoothSucceedsIff(workflow: Workflow, worker: Worker, tasks: map<string, Task>, id: string, p: Passage)
    requires Faithful(workflow) && id in tasks && tasks[id].id == id && Smooth(worker, tasks[id], p)
    ensures RunSucceeds(workflow, worker, tasks, id, p) <==>
              || tasks[id].state in {Completed, Failed, Cancelled, WaitingApproval}
              || (!(tasks[id].state in {Executing, Verifying} && tasks[id].pendingAction.Some?)
                  && workflow(Mine(worker, tasks[id], p)).abandoned.None?)
  {
    SmoothClaims(worker, tasks, id, p);
    WorkLands(workflow, tasks[id := Mine(worker, tasks[id], p)], Mine(worker, tasks[id], p), p);
  }

  /** A run that reports success on a task it had to work on has stored all of the workflow's snapshots and given the lease back. */
  lemma {:induction false} SuccessMeans(workflow: Workflow, worker: Worker, tasks: map<string, Task>, id: string, p: Passage)
    requires Faithful(workflow) && id in tasks && tasks[id].id == id && RunSucceeds(workflow, worker, tasks, id, p)
    requires tasks[id].state !in {Completed, Failed, Cancelled, WaitingApproval}
    ensures var mine := Mine(worker, tasks[id], p);
            var after := AfterRun(workflow, worker, tasks, id, p);
            && !(tasks[id].state in {Executing, Verifying} && tasks[id].pendingAction.Some?)
            && p.claim.fault.Clean? && (tasks[id].lease.token == "" || p.claim.now >= tasks[id].lease.expiresAt)
            && workflow(mine).abandoned.None?
            && SavesFrom(tasks[id := mine], workflow(mine).saves, 0, p.saves).1.None?
            && id in after && after[id].lease == Lease("", "", tasks[id].lease.fence + 1, 0)
  {
    var claim := ClaimBy(worker, id, p);
    var mine := FileStore.Outcome(tasks, claim).value;
    assert mine == Mine(worker, tasks[id], p);
    ConcludedKeeps(workflow, tasks[id := mine], mine, p);
  }

  lemma {:induction false} ReleasedAfter(tasks: map<string, Task>, claimed: map<string, Task>, v: Task)
    requires Paths.ValidId(v.id) && v.id in claimed && claimed == tasks[v.id := claimed[v.id]]
    ensures FileStore.AfterOp(claimed[v.id := v], FileStore.Release(v.id, v.lease.token, v.lease.fence), Clean)
            == tasks[v.id := v.(lease := Lease("", "", v.lease.fence, 0))]
  {
  }

  /** The claim comes no earlier than the end of a lease that was left behind. */
  function Waited(t: Task, p: Passage): Passage {
    if t.lease.token != "" && p.claim.now < t.lease.expiresAt then p.(claim := p.claim.(now := t.lease.expiresAt)) else p
  }

  /** The claim is then admitted, and it is not put off any longer than that. */
  lemma {:induction false} WaitingIsEnough(t: Task, p: Passage)
    ensures var start := Waited(t, p).claim.now;
            && (t.lease.token == "" || start >= t.lease.expiresAt)
            && (start == p.claim.now || (t.lease.token != "" && start == t.lease.expiresAt > p.claim.now))
            && Waited(t, p) == p.(claim := p.claim.(now := start))
  {
  }

  /** One task after its turn in a recovery. */
  ghost predicate Recovered(workflow: Workflow, worker: Worker, before: Task, after: Task, p: Passage) {
    && KeptBy(before, after)
    && (Smooth(worker, before, Waited(before, p)) ==> after == WellLeft(workflow, worker, before, Waited(before, p)))
  }

  /** The first k listed tasks have changed as they may, and every other task is as it was. */
  ghost predicate ChangedUpTo(
      before: map<string, Task>, after: map<string, Task>, ids: seq<string>, k: nat, fits: (nat, Task, Task) -> bool)
  {
    && k <= |ids| && after.Keys == before.Keys
    && (forall i | 0 <= i < k :: ids[i] in before && fits(i, before[ids[i]], after[ids[i]]))
    && (forall id <- before :: id !in ids[..k] ==> after[id] == before[id])
  }

  lemma {:induction false} OneMoreChanged(
      before: map<string, Task>, here: map<string, Task>, after: map<string, Task>, ids: seq<string>, k: nat, fits: (nat, Task, Task) -> bool)
    requires k < |ids| && ChangedUpTo(before, here, ids, k, fits)
    requires ids[k] in before && ids[k] !in ids[..k]
    requires Beside(here, after, ids[k]) && fits(k, here[ids[k]], after[ids[k]])
    ensures ChangedUpTo(before, after, ids, k + 1, fits)
  {
    assert ids[..k + 1] == ids[..k] + [ids[k]];
    forall i | 0 <= i < k
      ensures fits(i, before[ids[i]], after[ids[i]])
    {
      assert ids[i] in ids[..k];
      assert after[ids[i]] == here[ids[i]];
    }
  }

  /** What its turn in a recovery makes of the k-th listed task. */
  ghost function TurnOf(workflow: Workflow, worker: Worker, passages: nat -> Passage): (nat, Task, Task) -> bool {
    (i: nat, before: Task, after: Task) => Recovered(workflow, worker, before, after, passages(i))
  }

  class Orchestrator {
    const store: FileStore.Store
    const workflow: Workflow
    const worker: Worker

    constructor (store: FileStore.Store, workflow: Workflow, worker: Worker)
      ensures this.store == store && this.workflow == workflow && this.worker == worker
    {
      this.store := store;
      this.workflow := workflow;
      this.worker := worker;
    }

    /** What the claim holder makes of its task: fail closed, or store what the workflow makes of it until a save fails. */
    method Conclude(t: Task, p: Passage) returns (ok: bool)
      modifies store`tasks
      ensures store.tasks == Concluded(workflow, old(store.tasks), t, p)
      ensures ok <==> Worked(workflow, old(store.tasks), t, p).1.None?
    {
      var given: Option<Task> := None;
      if (t.state == Executing || t.state == Verifying) && t.pendingAction.Some? {
        given := Some(t);
      } else {
        var plan := workflow(t);
        var k := 0;
        while k < |plan.saves| && given.None?
          invariant k <= |plan.saves|
          invariant given.None? ==> SavesFrom(old(store.tasks), plan.saves, 0, p.saves) == SavesFrom(store.tasks, plan.saves, k, p.saves)
          invariant given.Some? ==> SavesFrom(old(store.tasks), plan.saves, 0, p.saves) == (store.tasks, given)
          decreases |plan.saves| - k
        {
          var saved := store.SaveTask(plan.saves[k], p.saves(k).now, p.saves(k).fault);
          if saved.Err? {
            given := Some(plan.saves[k]);
          }
          k := k + 1;
        }
        if given.None? {
          given := plan.abandoned;
        }
      }
      if given.Some? {
        var _ := store.SaveTask(given.value.(state := Failed, failure := "execution failed"), p.fail.now, p.fail.fault);
      }
      return given.None?;
    }

    /** Run on a prepared task: claim, fail closed or work, release. */
    method Run(id: string, p: Passage) returns (ok: bool)
      requires id in store.tasks && store.tasks[id].id == id && Faithful(workflow)
      modifies store`tasks
      ensures store.tasks == AfterRun(workflow, worker, old(store.tasks), id, p)
      ensures Beside(old(store.tasks), store.tasks, id) && KeptBy(old(store.tasks)[id], store.tasks[id])
      ensures Smooth(worker, old(store.tasks)[id], p) ==> store.tasks[id] == WellLeft(workflow, worker, old(store.tasks)[id], p)
      ensures ok <==> RunSucceeds(workflow, worker, old(store.tasks), id, p)
      ensures Smooth(worker, old(store.tasks)[id], p) ==>
                (ok <==>
                   || old(store.tasks)[id].state in {Completed, Failed, Cancelled, WaitingApproval}
                   || (!(old(store.tasks)[id].state in {Executing, Verifying} && old(store.tasks)[id].pendingAction.Some?)
                       && workflow(Mine(worker, old(store.tasks)[id], p)).abandoned.None?))
      ensures old(store.tasks)[id].state in {Executing, Verifying} && old(store.tasks)[id].pendingAction.Some? ==> !ok
    {
      RunKeeps(workflow, worker, store.tasks, id, p);
      ghost var before := store.tasks;
      if Smooth(worker, before[id], p) {
        RunCompletes(workflow, worker, before, id, p);
        SmoothSucceedsIff(workflow, worker, before, id, p);
      }
      var t := store.tasks[id];
      if Terminal(t.state) || t.state == WaitingApproval {
        return true;
      }
      var claim := ClaimBy(worker, id, p);
      var claimed := store.ClaimTask(id, claim.owner, claim.token, claim.ttl, claim.now, p.claim.fault);
      if claimed.Err? {
        return false;
      }
      t := claimed.value;
      ok := Conclude(t, p);
      var released := store.ReleaseTask(id, t.lease.token, t.lease.fence, p.release);
      ok := ok && released.Ok?;
    }

    /** RecoverIncomplete first waits for a lease that a lost worker left behind. */
    method RunWhenFree(id: string, p: Passage)
      requires id in store.tasks && store.tasks[id].id == id && Faithful(workflow)
      modifies store`tasks
      ensures Beside(old(store.tasks), store.tasks, id)
      ensures Recovered(workflow, worker, old(store.tasks)[id], store.tasks[id], p)
    {
      var value := store.tasks[id];
      if Terminal(value.state) || value.state == WaitingApproval {
        assert store.tasks == store.tasks[id := value];
        return;
      }
      var at := p.claim.now;
      if value.lease.token != "" && at < value.lease.expiresAt {
        at := value.lease.expiresAt;
      }
      var _ := Run(id, p.(claim := p.claim.(now := at)));
    }

    /**
      RecoverIncomplete over a listing, until it is cancelled: finished and
      waiting tasks are left alone, an action in flight is never started again
      and stays recorded for reconciliation, and a run that meets no fault
      completes, however long a lost worker's lease still had to live.
     */
    method RecoverIncomplete(ids: seq<string>, passages: nat -> Passage, cancelled: nat)
      requires forall id <- ids :: id in store.tasks && store.tasks[id].id == id
      requires forall i, j | 0 <= i < j < |ids| :: ids[i] != ids[j]
      requires Faithful(workflow)
      modifies store`tasks
      ensures ChangedUpTo(old(store.tasks), store.tasks, ids, if cancelled < |ids| then cancelled else |ids|, TurnOf(workflow, worker, passages))
    {
      var k := 0;
      while k < |ids| && k < cancelled
        invariant k <= cancelled
        invariant ChangedUpTo(old(store.tasks), store.tasks, ids, k, TurnOf(workflow, worker, passages))
      {
        assert ids[k] in ids && ids[k] !in ids[..k];
        ghost var before := store.tasks;
        RunWhenFree(ids[k], passages(k));
        OneMoreChanged(old(store.tasks), before, store.tasks, ids, k, TurnOf(workflow, worker, passages));
        k := k + 1;
      }
    }
  }
}
