/**
  The JSON store: fenced worker leases on tasks, and a two-record journal that
  installs a task and its message together.
 */
module FileStore {
  import opened Wrappers
  import opened Paths
  import opened Tasks
  import Contracts

  datatype Preparation = Preparation(schemaVersion: int, task: Task, session: Session)

  /** The three directories of the store. A journal is named after its task. */
  datatype Disk = Disk(tasks: map<string, Task>, sessions: map<string, Session>, journal: map<string, Preparation>)

  datatype Error =
    | InvalidId | NotFound | TaskLeased | LeaseConflict | LeaseExpired | MissingWorker | BadTtl
    | TaskExists | MutationRefused | SessionChanged | NotOneMessage | InvalidJournal | IoFailure

  const MAX_LEASE_TTL := 600_000_000_000

  // ----- leases

  /** validateTaskWrite: which snapshot may replace the stored task. */
  function TaskWriteError(current: Lease, next: Lease, now: int): Option<Error> {
    if current.token == "" then
      if next.token != "" || next.fence < current.fence then Some(LeaseConflict) else None
    else if next.token != current.token || next.fence != current.fence then Some(LeaseConflict)
    else if now >= current.expiresAt then Some(LeaseExpired)
    else None
  }

  function ClaimError(current: Lease, now: int): Option<Error> {
    if current.token != "" && now < current.expiresAt then Some(TaskLeased) else None
  }

  function ReleaseError(current: Lease, token: string, fence: nat): Option<Error> {
    if current.token != token || current.fence != fence then Some(LeaseConflict) else None
  }

  datatype Op =
    | Save(value: Task, now: int)
    | Claim(id: string, owner: string, token: string, ttl: int, now: int)
    | Release(id: string, token: string, fence: nat)

  function Target(op: Op): string {
    match op
    case Save(v, _) => v.id
    case Claim(id, _, _, _, _) => id
    case Release(id, _, _) => id
  }

  /** The record an accepted operation writes, or the reason it is refused. */
  function Outcome(tasks: map<string, Task>, op: Op): Result<Task, Error> {
    if !ValidId(Target(op)) then Err(InvalidId)
    else match op
      case Save(v, now) =>
        if v.id in tasks && TaskWriteError(tasks[v.id].lease, v.lease, now).Some?
        then Err(TaskWriteError(tasks[v.id].lease, v.lease, now).value)
        else Ok(v)
      case Claim(id, owner, token, ttl, now) =>
        if Contracts.Trim(owner) == "" || Contracts.Trim(token) == "" then Err(MissingWorker)
        else if ttl <= 0 || ttl > MAX_LEASE_TTL then Err(BadTtl)
        else if id !in tasks then Err(NotFound)
        else if ClaimError(tasks[id].lease, now).Some? then Err(TaskLeased)
        else Ok(tasks[id].(lease := Lease(Contracts.Trim(owner), Contracts.Trim(token), tasks[id].lease.fence + 1, now + ttl)))
      case Release(id, token, fence) =>
        if id !in tasks then Err(NotFound)
        else if ReleaseError(tasks[id].lease, token, fence).Some? then Err(LeaseConflict)
        else Ok(tasks[id].(lease := Lease("", "", tasks[id].lease.fence, 0)))
  }

  function AfterOp(tasks: map<string, Task>, op: Op, fault: Fault): map<string, Task> {
    match Outcome(tasks, op)
    case Err(_) => tasks
    case Ok(v) => Stored(tasks, Target(op), v, fault)
  }

  function AfterOps(tasks: map<string, Task>, ops: seq<(Op, Fault)>): map<string, Task>
    decreases |ops|
  {
    if ops == [] then tasks else AfterOps(AfterOp(tasks, ops[0].0, ops[0].1), ops[1..])
  }

  ghost predicate FenceAtLeast(tasks: map<string, Task>, id: string, fence: nat) {
    id in tasks && tasks[id].lease.fence >= fence
  }

  ghost predicate WellKeyed(tasks: map<string, Task>) {
    forall id <- tasks :: tasks[id].id == id
  }

  /** No operation lowers a fence, and a successful claim raises it by exactly one. */
  lemma {:induction false} OpKeepsFence(tasks: map<string, Task>, op: Op, fault: Fault, id: string, fence: nat)
    requires FenceAtLeast(tasks, id, fence)
    ensures FenceAtLeast(AfterOp(tasks, op, fault), id, fence)
    ensures op.Claim? && Target(op) == id && Outcome(tasks, op).Ok? && !fault.BeforeRename? ==>
              AfterOp(tasks, op, fault)[id].lease.fence == tasks[id].lease.fence + 1
  {
    assert op.Save? && Outcome(tasks, op).Ok? && op.value.id == id ==> op.value.lease.fence >= tasks[id].lease.fence;
  }

  lemma {:induction false} OpsKeepFence(tasks: map<string, Task>, ops: seq<(Op, Fault)>, id: string, fence: nat)
    requires FenceAtLeast(tasks, id, fence)
    ensures FenceAtLeast(AfterOps(tasks, ops), id, fence)
    decreases |ops|
  {
    if ops != [] {
      OpKeepsFence(tasks, ops[0].0, ops[0].1, id, fence);
      OpsKeepFence(AfterOp(tasks, ops[0].0, ops[0].1), ops[1..], id, fence);
    }
  }

  /**
    Fencing: once a claim has been stored, no later save that carries an
    earlier fence is accepted, whatever any worker claims, saves or releases
    in between, and whether or not the stale snapshot carries a token. What
    prepared tasks and restarts do to this is said by StaleSaveRefusedIff.
   */
  lemma {:induction false} StaleSaveRefused(tasks: map<string, Task>, claim: Op, fault: Fault, between: seq<(Op, Fault)>, stale: Task, now: int)
    requires claim.Claim? && Outcome(tasks, claim).Ok? && !fault.BeforeRename?
    requires stale.id == claim.id && stale.lease.fence <= tasks[claim.id].lease.fence
    ensures Outcome(AfterOps(AfterOp(tasks, claim, fault), between), Save(stale, now)).Err?
  {
    var fence := tasks[claim.id].lease.fence + 1;
    OpsKeepFence(AfterOp(tasks, claim, fault), between, claim.id, fence);
  }

  /**
    While a lease is live nobody else writes: a save is accepted exactly when
    it carries the holder's token and fence, and a second claim is refused.
   */
  lemma {:induction false} LiveLeaseIsExclusive(tasks: map<string, Task>, v: Task, owner: string, token: string, ttl: int, now: int)
    requires ValidId(v.id) && v.id in tasks && tasks[v.id].lease.token != ""
    ensures now < tasks[v.id].lease.expiresAt ==>
              && (Outcome(tasks, Save(v, now)).Ok? <==> v.lease.token == tasks[v.id].lease.token && v.lease.fence == tasks[v.id].lease.fence)
              && Outcome(tasks, Claim(v.id, owner, token, ttl, now)).Err?
    ensures now >= tasks[v.id].lease.expiresAt ==> Outcome(tasks, Save(v, now)).Err?
  {
    assert TaskWriteError(tasks[v.id].lease, v.lease, now).None? ==> now < tasks[v.id].lease.expiresAt;
  }

  /** A lease holds its task exactly until it expires. */
  predicate Held(t: Task, now: int) {
    t.lease.token != "" && now < t.lease.expiresAt
  }

  /**
    A claim by a named worker is accepted exactly when nobody holds the task:
    it was never claimed, or it was released, or the lease of whoever had it has
    expired. The new lease lasts as long as asked, and nothing else changes.
   */
  lemma {:induction false} ClaimAcceptedIff(tasks: map<string, Task>, id: string, owner: string, token: string, ttl: int, now: int)
    requires ValidId(id) && id in tasks
    requires Contracts.Trim(owner) != "" && Contracts.Trim(token) != "" && 0 < ttl <= 600_000_000_000
    ensures var r := Outcome(tasks, Claim(id, owner, token, ttl, now));
            && (r.Ok? <==> !Held(tasks[id], now))
            && (r.Ok? ==>
                  && r.value == tasks[id].(lease := r.value.lease)
                  && r.value.lease == Lease(Contracts.Trim(owner), Contracts.Trim(token), tasks[id].lease.fence + 1, now + ttl)
                  && forall later: int :: Held(r.value, later) <==> later < now + ttl)
  {
  }

  /** And no other claim is: one without a name or a token, for no time or too long, or of a task there is not. */
  lemma {:induction false} OtherClaimsRefused(tasks: map<string, Task>, id: string, owner: string, token: string, ttl: int, now: int)
    requires !ValidId(id) || id !in tasks || Contracts.Trim(owner) == "" || Contracts.Trim(token) == "" || ttl <= 0 || ttl > 600_000_000_000
    ensures Outcome(tasks, Claim(id, owner, token, ttl, now)).Err?
  {
  }

  /** A worker that is lost holds its task up until its lease expires, and no longer: then the next one gets it. */
  lemma {:induction false} LostWorkerIsReplaced(
      tasks: map<string, Task>, first: Op, second: Op, fault: Fault)
    requires first.Claim? && second.Claim? && first.id == second.id && Outcome(tasks, first).Ok? && !fault.BeforeRename?
    requires Contracts.Trim(second.owner) != "" && Contracts.Trim(second.token) != "" && 0 < second.ttl <= 600_000_000_000
    ensures Outcome(AfterOp(tasks, first, fault), second).Ok? <==> second.now >= first.now + first.ttl
  {
    var claimed := AfterOp(tasks, first, fault);
    ClaimAcceptedIff(tasks, first.id, first.owner, first.token, first.ttl, first.now);
    ClaimAcceptedIff(claimed, second.id, second.owner, second.token, second.ttl, second.now);
  }

  /** A save is accepted exactly when the task is new, or unclaimed and not newer, or held by the one who saves; it stores what it is given. */
  lemma {:induction false} SaveAcceptedIff(tasks: map<string, Task>, v: Task, now: int)
    requires ValidId(v.id)
    ensures var r := Outcome(tasks, Save(v, now));
            && (r.Ok? <==>
                  || v.id !in tasks
                  || (tasks[v.id].lease.token == "" && v.lease.token == "" && tasks[v.id].lease.fence <= v.lease.fence)
                  || (Held(tasks[v.id], now) && v.lease.token == tasks[v.id].lease.token && v.lease.fence == tasks[v.id].lease.fence))
            && (r.Ok? ==> r.value == v)
  {
  }

  /** A release is accepted exactly from the holder, expired or not; the task is free at once, and its fence stays. */
  lemma {:induction false} ReleaseAcceptedIff(tasks: map<string, Task>, id: string, token: string, fence: nat)
    requires ValidId(id) && id in tasks
    ensures var r := Outcome(tasks, Release(id, token, fence));
            && (r.Ok? <==> tasks[id].lease.token == token && tasks[id].lease.fence == fence)
            && (r.Ok? ==> r.value == tasks[id].(lease := r.value.lease) && r.value.lease.fence == fence && forall now: int :: !Held(r.value, now))
  {
  }

  /** An operation writes its own task only, and nothing unless it is accepted and its save gets as far as the rename. */
  lemma {:induction false} OpWrites(tasks: map<string, Task>, op: Op, fault: Fault)
    ensures var after := AfterOp(tasks, op, fault);
            if Outcome(tasks, op).Err? || fault.BeforeRename? then after == tasks
            else after == tasks[(if op.Save? then op.value.id else op.id) := Outcome(tasks, op).value]
  {
  }

  // ----- preparing a task

  const PREPARE_WRITES := 4
  const REPLAY_WRITES := 3

  /** The disk after the first n of the four atomic writes of PrepareTask: journal, task, session, journal removed. */
  function Prepared(d: Disk, task: Task, session: Session, n: nat): Disk {
    var d1 := if n >= 1 then d.(journal := d.journal[task.id := Preparation(1, task, session)]) else d;
    var d2 := if n >= 2 then d1.(tasks := d1.tasks[task.id := task]) else d1;
    var d3 := if n >= 3 then d2.(sessions := d2.sessions[session.id := session]) else d2;
    if n >= 4 then d3.(journal := d3.journal - {task.id}) else d3
  }

  /** One directory after the other: the journal first and last, and in between the task and then the session. */
  lemma {:induction false} PreparedStepByStep(d: Disk, task: Task, session: Session)
    ensures Prepared(d, task, session, 0) == d
    ensures Prepared(d, task, session, 1) == d.(journal := d.journal[task.id := Preparation(1, task, session)])
    ensures Prepared(d, task, session, 2) == Prepared(d, task, session, 1).(tasks := d.tasks[task.id := task])
    ensures Prepared(d, task, session, 3) == Prepared(d, task, session, 2).(sessions := d.sessions[session.id := session])
    ensures Prepared(d, task, session, 4) == Prepared(d, task, session, 3).(journal := d.journal - {task.id})
    ensures forall n: nat | n > 4 :: Prepared(d, task, session, n) == Prepared(d, task, session, 4)
  {
    assert d.journal[task.id := Preparation(1, task, session)] - {task.id} == d.journal - {task.id};
  }

  function PrepareError(d: Disk, task: Task, mutate: Session -> Option<Session>): Option<Error> {
    if !ValidId(task.id) || !ValidId(task.sessionId) then Some(InvalidId)
    else if task.id in d.tasks then Some(TaskExists)
    else if task.sessionId !in d.sessions then Some(NotFound)
    else match mutate(d.sessions[task.sessionId])
      case None => Some(MutationRefused)
      case Some(s) =>
        if s.id != task.sessionId then Some(SessionChanged)
        else if BoundMessages(s.messages, task.id) != 1 then Some(NotOneMessage)
        else None
  }

  predicate ValidPreparation(p: Preparation) {
    p.schemaVersion == 1 && ValidId(p.task.id) && ValidId(p.session.id) && p.task.sessionId == p.session.id
  }

  /** The disk after the first n of the three writes that replay one journal: task, session, journal removed. */
  function Replayed(d: Disk, p: Preparation, n: nat): Disk {
    var d1 := if n >= 1 then d.(tasks := d.tasks[p.task.id := p.task]) else d;
    var d2 := if n >= 2 then d1.(sessions := d1.sessions[p.session.id := p.session]) else d1;
    if n >= 3 then d2.(journal := d2.journal - {p.task.id}) else d2
  }

  /** The same for a replay: the task, then its session, then the journal. */
  lemma {:induction false} ReplayedStepByStep(d: Disk, p: Preparation)
    ensures Replayed(d, p, 0) == d
    ensures Replayed(d, p, 1) == d.(tasks := d.tasks[p.task.id := p.task])
    ensures Replayed(d, p, 2) == Replayed(d, p, 1).(sessions := d.sessions[p.session.id := p.session])
    ensures Replayed(d, p, 3) == Replayed(d, p, 2).(journal := d.journal - {p.task.id})
  {
  }

  /** The journals that exist, in directory order. */
  function Listing(names: seq<string>, journal: map<string, Preparation>): (r: seq<string>)
    ensures forall n <- r :: n in journal && n in names
    ensures forall n <- names :: n in journal ==> n in r
  {
    if names == [] then []
    else (if names[0] in journal then [names[0]] else []) + Listing(names[1..], journal)
  }

  datatype Recovery = Recovery(disk: Disk, ok: bool)

  /** recoverTaskPreparationsLocked, cut off after a number of writes. */
  function Replay(d: Disk, keys: seq<string>, writes: nat): Recovery
    decreases |keys|
  {
    if keys == [] then Recovery(d, true)
    else if keys[0] !in d.journal || !ValidPreparation(d.journal[keys[0]]) then Recovery(d, false)
    else if writes < REPLAY_WRITES then Recovery(Replayed(d, d.journal[keys[0]], writes), false)
    else if d.journal[keys[0]].task.id !in d.journal then Recovery(Replayed(d, d.journal[keys[0]], 2), false)
    else Replay(Replayed(d, d.journal[keys[0]], REPLAY_WRITES), keys[1..], writes - REPLAY_WRITES)
  }

  /** A recovery that is not interrupted. */
  function Recover(d: Disk, keys: seq<string>): Recovery {
    Replay(d, keys, REPLAY_WRITES * |keys|)
  }

  /** A store opens exactly when every journal is of the known schema and names one task and that task's session. */
  lemma {:induction false} OpensIff(d: Disk, keys: seq<string>)
    requires Listed(d, keys)
    ensures Recover(d, keys).ok <==>
              forall k <- keys ::
                var p := d.journal[k];
                p.schemaVersion == 1 && p.task.sessionId == p.session.id && ValidId(p.task.id) && ValidId(p.session.id)
    decreases |keys|
  {
    if keys != [] && ValidPreparation(d.journal[keys[0]]) {
      var d1 := Replayed(d, d.journal[keys[0]], REPLAY_WRITES);
      ListedTail(d, keys);
      RecoverStep(d, keys);
      OpensIff(d1, keys[1..]);
      assert keys[0] in keys && forall k <- keys[1..] :: k in keys && k != keys[0] && d1.journal[k] == d.journal[k];
    } else if keys != [] {
      assert keys[0] in keys;
    }
  }

  lemma {:induction false} ListingWhole(keys: seq<string>, journal: map<string, Preparation>)
    requires forall k <- keys :: k in journal
    ensures Listing(keys, journal) == keys
  {
    if keys != [] {
      assert keys[0] in keys;
      assert forall k <- keys[1..] :: k in keys;
      ListingWhole(keys[1..], journal);
    }
  }

  /** Recovery only removes journals, and only of the keys it is given. */
  lemma {:induction false} ReplayShrinksJournal(d: Disk, keys: seq<string>, writes: nat)
    ensures Replay(d, keys, writes).disk.journal.Keys <= d.journal.Keys
    decreases |keys|
  {
    if keys != [] && keys[0] in d.journal && writes >= REPLAY_WRITES {
      ReplayShrinksJournal(Replayed(d, d.journal[keys[0]], REPLAY_WRITES), keys[1..], writes - REPLAY_WRITES);
    }
  }

  /** Distinct listed journals, each named after its task. */
  ghost predicate Listed(d: Disk, keys: seq<string>) {
    && (forall k <- keys :: k in d.journal && d.journal[k].task.id == k)
    && (forall i, j | 0 <= i < j < |keys| :: keys[i] != keys[j])
  }

  lemma {:induction false} ListedTail(d: Disk, keys: seq<string>)
    requires Listed(d, keys) && keys != []
    ensures Listed(Replayed(d, d.journal[keys[0]], REPLAY_WRITES), keys[1..])
  {
    assert forall i | 0 <= i < |keys[1..]| :: keys[1..][i] == keys[i + 1];
  }

  /** One whole journal, then the rest. */
  lemma {:induction false} RecoverStep(d: Disk, keys: seq<string>)
    requires Listed(d, keys) && keys != [] && ValidPreparation(d.journal[keys[0]])
    ensures Recover(d, keys) == Recover(Replayed(d, d.journal[keys[0]], REPLAY_WRITES), keys[1..])
  {
    assert keys[0] in keys;
    assert REPLAY_WRITES * |keys| - REPLAY_WRITES == REPLAY_WRITES * |keys[1..]|;
  }

  lemma {:induction false} CutInsideOneJournal(d: Disk, keys: seq<string>, writes: nat)
    requires Listed(d, keys) && keys != [] && ValidPreparation(d.journal[keys[0]]) && writes < REPLAY_WRITES
    ensures var d' := Replayed(d, d.journal[keys[0]], writes);
            Listed(d', keys) && Listing(keys, d'.journal) == keys && Recover(d', keys) == Recover(d, keys)
  {
    var p := d.journal[keys[0]];
    var d' := Replayed(d, p, writes);
    assert d'.journal == d.journal;
    ListingWhole(keys, d'.journal);
    assert Replayed(d', p, REPLAY_WRITES) == Replayed(d, p, REPLAY_WRITES) by {
      assert d.tasks[p.task.id := p.task][p.task.id := p.task] == d.tasks[p.task.id := p.task];
      assert d.sessions[p.session.id := p.session][p.session.id := p.session] == d.sessions[p.session.id := p.session];
    }
    RecoverStep(d, keys);
    RecoverStep(d', keys);
  }

  lemma {:induction false} CutBehindOneJournal(d: Disk, keys: seq<string>, d': Disk)
    requires Listed(d, keys) && keys != [] && ValidPreparation(d.journal[keys[0]])
    requires d'.journal.Keys <= d.journal.Keys - {keys[0]}
    requires Listed(d', Listing(keys[1..], d'.journal))
    requires Recover(d', Listing(keys[1..], d'.journal)) == Recover(Replayed(d, d.journal[keys[0]], REPLAY_WRITES), keys[1..])
    ensures Listed(d', Listing(keys, d'.journal)) && Recover(d', Listing(keys, d'.journal)) == Recover(d, keys)
  {
    RecoverStep(d, keys);
    assert Listing(keys, d'.journal) == Listing(keys[1..], d'.journal);
  }

  /**
    A recovery that is interrupted after any number of writes and started
    again ends like one that was never interrupted, for any set of journals,
    overlapping ones and invalid ones included.
   */
  lemma {:induction false} InterruptionAbsorbed(d: Disk, keys: seq<string>, writes: nat)
    requires Listed(d, keys)
    ensures Listed(Replay(d, keys, writes).disk, Listing(keys, Replay(d, keys, writes).disk.journal))
    ensures Recover(Replay(d, keys, writes).disk, Listing(keys, Replay(d, keys, writes).disk.journal)) == Recover(d, keys)
    decreases |keys|
  {
    if keys == [] || !ValidPreparation(d.journal[keys[0]]) {
      assert Replay(d, keys, writes).disk == d;
      ListingWhole(keys, d.journal);
    } else if writes < REPLAY_WRITES {
      CutInsideOneJournal(d, keys, writes);
    } else {
      var d1 := Replayed(d, d.journal[keys[0]], REPLAY_WRITES);
      ListedTail(d, keys);
      InterruptionAbsorbed(d1, keys[1..], writes - REPLAY_WRITES);
      ReplayShrinksJournal(d1, keys[1..], writes - REPLAY_WRITES);
      var d' := Replay(d1, keys[1..], writes - REPLAY_WRITES).disk;
      assert Replay(d, keys, writes).disk == d' by { assert keys[0] in keys; }
      assert d1.journal.Keys == d.journal.Keys - {keys[0]} by { assert keys[0] in keys; }
      CutBehindOneJournal(d, keys, d');
    }
  }

  /** Opening the store again and again, each time interrupted, and at last to the end. */
  function Reopen(d: Disk, keys: seq<string>, cuts: seq<nat>): Recovery
    decreases |cuts|
  {
    if cuts == [] then Recover(d, keys)
    else
      var d' := Replay(d, keys, cuts[0]).disk;
      Reopen(d', Listing(keys, d'.journal), cuts[1..])
  }

  lemma {:induction false} ReopenIsRecover(d: Disk, keys: seq<string>, cuts: seq<nat>)
    requires Listed(d, keys)
    ensures Reopen(d, keys, cuts) == Recover(d, keys)
    decreases |cuts|
  {
    if cuts != [] {
      InterruptionAbsorbed(d, keys, cuts[0]);
      var d' := Replay(d, keys, cuts[0]).disk;
      ReopenIsRecover(d', Listing(keys, d'.journal), cuts[1..]);
    }
  }

  /** The journals a crash after n writes of PrepareTask leaves, on a store that had none. */
  function LeftBehind(id: string, n: nat): seq<string> {
    if 1 <= n < PREPARE_WRITES then [id] else []
  }

  /**
    On a store without leftover journals PrepareTask is all or nothing:
    whichever of its writes a crash follows, and however often the recovery is
    itself cut short, the store reopens either exactly as it was or with exactly
    the task and its session installed, all other records untouched, no journal
    left, and one message bound to the task.
   */
  lemma {:induction false} PrepareAlone(d: Disk, task: Task, mutate: Session -> Option<Session>, n: nat, cuts: seq<nat>)
    requires d.journal == map[] && PrepareError(d, task, mutate).None?
    ensures var session := mutate(d.sessions[task.sessionId]).value;
            var r := Reopen(Prepared(d, task, session, n), LeftBehind(task.id, n), cuts);
            && r.ok
            && r.disk == (if n == 0 then d else Disk(d.tasks[task.id := task], d.sessions[task.sessionId := session], map[]))
            && (n == 0 ==> task.id !in r.disk.tasks)
            && (n > 0 ==> BoundMessages(r.disk.sessions[task.sessionId].messages, task.id) == 1)
  {
    var session := mutate(d.sessions[task.sessionId]).value;
    var crashed := Prepared(d, task, session, n);
    ReopenIsRecover(crashed, LeftBehind(task.id, n), cuts);
    var whole := Disk(d.tasks[task.id := task], d.sessions[task.sessionId := session], map[]);
    assert map[task.id := Preparation(1, task, session)] - {task.id} == map[];
    if 1 <= n < PREPARE_WRITES {
      assert crashed.journal[task.id] == Preparation(1, task, session);
      RecoverStep(crashed, [task.id]);
      assert Replayed(crashed, Preparation(1, task, session), REPLAY_WRITES) == whole;
    }
  }

  /** Orchestrator.Prepare: append the request as one message bound to the new task. */
  function AppendRequest(message: Message): Session -> Option<Session> {
    (s: Session) => Some(s.(messages := s.messages + [message]))
  }

  /** A request is accepted exactly when its session has no message for that task yet, so a refused or lost one leaves none. */
  lemma {:induction false} RequestInstallsOneMessage(d: Disk, task: Task, message: Message)
    requires message.taskId == task.id && ValidId(task.id) && ValidId(task.sessionId)
    requires task.id !in d.tasks && task.sessionId in d.sessions && d.sessions[task.sessionId].id == task.sessionId
    ensures PrepareError(d, task, AppendRequest(message)).None?
            <==> BoundMessages(d.sessions[task.sessionId].messages, task.id) == 0
    ensures var s := d.sessions[task.sessionId]; AppendRequest(message)(s) == Some(s.(messages := s.messages + [message]))
  {
    var s := d.sessions[task.sessionId];
    BoundMessagesAppend(s.messages, [message], task.id);
  }

  /** What a complete recovery makes of the task directory, journal by journal. */
  lemma {:induction false} RecoveredTasks(d: Disk, keys: seq<string>)
    requires Listed(d, keys) && forall k <- keys :: ValidPreparation(d.journal[k])
    ensures Recover(d, keys).ok
    ensures forall id :: id in Recover(d, keys).disk.tasks <==> id in d.tasks || id in keys
    ensures forall id <- keys :: Recover(d, keys).disk.tasks[id] == d.journal[id].task
    ensures forall id <- d.tasks :: id !in keys ==> Recover(d, keys).disk.tasks[id] == d.tasks[id]
    decreases |keys|
  {
    if keys != [] {
      assert keys[0] in keys && forall k <- keys[1..] :: k in keys && k != keys[0];
      var d1 := Replayed(d, d.journal[keys[0]], REPLAY_WRITES);
      assert forall k <- keys[1..] :: d1.journal[k] == d.journal[k];
      ListedTail(d, keys);
      RecoverStep(d, keys);
      RecoveredTasks(d1, keys[1..]);
      assert forall k :: k in keys <==> k == keys[0] || k in keys[1..];
    }
  }

  /** The last journal that will be replayed over a session. */
  function LastOver(d: Disk, keys: seq<string>, sid: string): Option<string>
    requires forall k <- keys :: k in d.journal
  {
    if keys == [] then None
    else
      var k := keys[|keys| - 1];
      if d.journal[k].session.id == sid then Some(k) else LastOver(d, keys[..|keys| - 1], sid)
  }

  /** What a complete recovery makes of a session: the copy in the last journal over it, or what was stored. */
  function SessionAfter(d: Disk, keys: seq<string>, sid: string): Option<Session>
    requires forall k <- keys :: k in d.journal
  {
    var last := LastOver(d, keys, sid);
    if last.Some? && last.value in d.journal then Some(d.journal[last.value].session)
    else if sid in d.sessions then Some(d.sessions[sid]) else None
  }

  lemma {:induction false} LastIsListed(d: Disk, keys: seq<string>, sid: string)
    requires forall k <- keys :: k in d.journal
    ensures LastOver(d, keys, sid).Some? ==> LastOver(d, keys, sid).value in keys && d.journal[LastOver(d, keys, sid).value].session.id == sid
    ensures LastOver(d, keys, sid).None? ==> forall k <- keys :: d.journal[k].session.id != sid
  {
    if keys != [] {
      var before := keys[..|keys| - 1];
      assert keys == before + [keys[|keys| - 1]];
      LastIsListed(d, before, sid);
    }
  }

  /** The first journal decides only when no later one is over the same session. */
  lemma {:induction false} LastOfTail(d: Disk, d1: Disk, keys: seq<string>, sid: string)
    requires keys != [] && (forall k <- keys :: k in d.journal)
    requires forall k <- keys[1..] :: k in d1.journal && d1.journal[k] == d.journal[k]
    ensures LastOver(d, keys, sid) ==
              if LastOver(d1, keys[1..], sid).Some? then LastOver(d1, keys[1..], sid)
              else if d.journal[keys[0]].session.id == sid then Some(keys[0]) else None
  {
    if |keys| > 1 {
      var before := keys[..|keys| - 1];
      assert keys[1..][..|keys[1..]| - 1] == before[1..];
      assert forall k <- before :: k in keys;
      assert forall k <- before[1..] :: k in keys[1..];
      LastOfTail(d, d1, before, sid);
    }
  }

  lemma {:induction false} RecoveredSessions(d: Disk, keys: seq<string>, sid: string)
    requires Listed(d, keys) && forall k <- keys :: ValidPreparation(d.journal[k])
    ensures var after := Recover(d, keys).disk.sessions;
            (sid in after <==> SessionAfter(d, keys, sid).Some?) && (sid in after ==> SessionAfter(d, keys, sid) == Some(after[sid]))
    decreases |keys|
  {
    if keys != [] {
      assert keys[0] in keys && forall k <- keys[1..] :: k in keys;
      var d1 := Replayed(d, d.journal[keys[0]], REPLAY_WRITES);
      ListedTail(d, keys);
      RecoverStep(d, keys);
      JournalBehind(d, keys);
      RecoveredSessions(d1, keys[1..], sid);
      LastOfTail(d, d1, keys, sid);
      LastIsListed(d1, keys[1..], sid);
    }
  }

  lemma {:induction false} JournalBehind(d: Disk, keys: seq<string>)
    requires Listed(d, keys) && keys != []
    ensures var d1 := Replayed(d, d.journal[keys[0]], REPLAY_WRITES);
            d1.journal == d.journal - {keys[0]} && forall k <- keys[1..] :: k in d1.journal && d1.journal[k] == d.journal[k]
  {
    assert keys[0] in keys;
    assert forall i | 0 <= i < |keys[1..]| :: keys[1..][i] == keys[i + 1];
  }

  lemma {:induction false} RecoveredJournal(d: Disk, keys: seq<string>)
    requires Listed(d, keys) && forall k <- keys :: ValidPreparation(d.journal[k])
    ensures forall k :: k in Recover(d, keys).disk.journal <==> k in d.journal && k !in keys
    decreases |keys|
  {
    if keys != [] {
      assert keys[0] in keys && forall k <- keys[1..] :: k in keys;
      ListedTail(d, keys);
      RecoverStep(d, keys);
      JournalBehind(d, keys);
      RecoveredJournal(Replayed(d, d.journal[keys[0]], REPLAY_WRITES), keys[1..]);
      assert forall k :: k in keys <==> k == keys[0] || k in keys[1..];
    }
  }

  /**
    The message a task is bound to survives a recovery exactly when no journal
    over its session is left, or the last of them has the message too.
   */
  lemma {:induction false} MessageSurvivesIff(d: Disk, keys: seq<string>, taskId: string, sid: string)
    requires Listed(d, keys) && forall k <- keys :: ValidPreparation(d.journal[k])
    requires sid in d.sessions && BoundMessages(d.sessions[sid].messages, taskId) == 1
    ensures var last := LastOver(d, keys, sid);
            && sid in Recover(d, keys).disk.sessions
            && (BoundMessages(Recover(d, keys).disk.sessions[sid].messages, taskId) == 1
                <==> last.None? || (last.value in d.journal && BoundMessages(d.journal[last.value].session.messages, taskId) == 1))
  {
    RecoveredSessions(d, keys, sid);
    LastIsListed(d, keys, sid);
  }

  /**
    PrepareTask on any store, journals of other calls included: whichever of
    its writes a crash follows and however often recovery is cut short, the
    store reopens without a journal, either as if the call had never been made,
    or with the task installed; every other task is what it was or what its
    journal says, and every session is what the last journal over it says.
   */
  lemma {:induction false} PrepareIsAtomic(d: Disk, task: Task, mutate: Session -> Option<Session>, n: nat, keys: seq<string>, cuts: seq<nat>)
    requires PrepareError(d, task, mutate).None?
    requires forall k <- d.journal :: d.journal[k].task.id == k && ValidPreparation(d.journal[k])
    requires var crashed := Prepared(d, task, mutate(d.sessions[task.sessionId]).value, n);
             Listed(crashed, keys) && forall k <- crashed.journal :: k in keys
    ensures var crashed := Prepared(d, task, mutate(d.sessions[task.sessionId]).value, n);
            var r := Reopen(crashed, keys, cuts);
            && r.ok && r.disk.journal == map[]
            && (n == 0 ==> r == Recover(d, keys))
            && (n > 0 ==> task.id in r.disk.tasks && r.disk.tasks[task.id] == task)
            && (forall id | id != task.id :: id in r.disk.tasks <==> id in d.tasks || id in d.journal)
            && (forall id | id != task.id && id in r.disk.tasks :: r.disk.tasks[id] == if id in d.journal then d.journal[id].task else d.tasks[id])
            && (forall sid :: sid in r.disk.sessions <==> SessionAfter(crashed, keys, sid).Some?)
            && (forall sid <- r.disk.sessions :: SessionAfter(crashed, keys, sid) == Some(r.disk.sessions[sid]))
  {
    var session := mutate(d.sessions[task.sessionId]).value;
    var crashed := Prepared(d, task, session, n);
    PreparedTasks(d, task, session, n, keys);
    ReopenIsRecover(crashed, keys, cuts);
    RecoveredJournal(crashed, keys);
    assert Recover(crashed, keys).disk.journal == map[];
    forall sid
      ensures var after := Recover(crashed, keys).disk.sessions;
              (sid in after <==> SessionAfter(crashed, keys, sid).Some?) && (sid in after ==> SessionAfter(crashed, keys, sid) == Some(after[sid]))
    {
      RecoveredSessions(crashed, keys, sid);
    }
  }

  lemma {:induction false} PreparedTasks(d: Disk, task: Task, session: Session, n: nat, keys: seq<string>)
    requires ValidId(task.id) && ValidId(session.id) && task.sessionId == session.id
    requires forall k <- d.journal :: d.journal[k].task.id == k && ValidPreparation(d.journal[k])
    requires Listed(Prepared(d, task, session, n), keys) && forall k <- Prepared(d, task, session, n).journal :: k in keys
    ensures var r := Recover(Prepared(d, task, session, n), keys);
            && r.ok && (forall k <- keys :: ValidPreparation(Prepared(d, task, session, n).journal[k]))
            && (n > 0 ==> task.id in r.disk.tasks && r.disk.tasks[task.id] == task)
            && (forall id | id != task.id :: id in r.disk.tasks <==> id in d.tasks || id in d.journal)
            && (forall id | id != task.id && id in r.disk.tasks :: r.disk.tasks[id] == if id in d.journal then d.journal[id].task else d.tasks[id])
  {
    PreparedJournal(d, task, session, n);
    RecoveredTasks(Prepared(d, task, session, n), keys);
  }

  lemma {:induction false} PreparedJournal(d: Disk, task: Task, session: Session, n: nat)
    requires ValidId(task.id) && ValidId(session.id) && task.sessionId == session.id
    requires forall k <- d.journal :: d.journal[k].task.id == k && ValidPreparation(d.journal[k])
    ensures var crashed := Prepared(d, task, session, n);
            && (forall k <- crashed.journal :: crashed.journal[k].task.id == k && ValidPreparation(crashed.journal[k]))
            && (forall k | k != task.id :: (k in crashed.journal <==> k in d.journal) && (k in d.journal ==> crashed.journal[k] == d.journal[k]))
            && (task.id in crashed.journal && n > 0 ==> crashed.journal[task.id].task == task)
            && (n > 0 ==> task.id in crashed.tasks || task.id in crashed.journal)
            && (n >= 2 ==> crashed.tasks == d.tasks[task.id := task]) && (n < 2 ==> crashed.tasks == d.tasks)
            && (1 <= n < PREPARE_WRITES ==> task.id in crashed.journal)
  {
  }

  /**
    The case in which a message is lost: the journal of a call that failed in a
    live process is replayed by the next start over the session of a later call
    that succeeded. The later task stays, its message is gone.
   */
  lemma {:induction false} LeftoverJournalDropsMessage(d: Disk, first: Preparation, task: Task, message: Message)
    requires d.journal == map[first.task.id := first] && ValidPreparation(first) && first.task.id != task.id
    requires PrepareError(d, task, AppendRequest(message)).None?
    requires first.session.id == task.sessionId && BoundMessages(first.session.messages, task.id) == 0
    ensures var done := Prepared(d, task, AppendRequest(message)(d.sessions[task.sessionId]).value, PREPARE_WRITES);
            var after := Recover(done, [first.task.id]).disk;
            && BoundMessages(done.sessions[task.sessionId].messages, task.id) == 1
            && task.id in after.tasks && after.tasks[task.id] == task
            && task.sessionId in after.sessions && BoundMessages(after.sessions[task.sessionId].messages, task.id) == 0
  {
    var session := AppendRequest(message)(d.sessions[task.sessionId]).value;
    var done := Prepared(d, task, session, PREPARE_WRITES);
    var keys := [first.task.id];
    assert done.journal[first.task.id] == first;
    RecoveredTasks(done, keys);
    RecoveredSessions(done, keys, task.sessionId);
    assert keys[|keys| - 1] == first.task.id && LastOver(done, keys, task.sessionId) == Some(first.task.id);
  }

  /**
    Reopening can undo claims. It keeps a task's fence exactly when the task
    has no journal, or one that is not behind the stored record.
   */
  lemma {:induction false} ReopenKeepsFence(d: Disk, keys: seq<string>, id: string)
    requires Listed(d, keys) && (forall k <- keys :: ValidPreparation(d.journal[k])) && id in d.tasks
    ensures FenceAtLeast(Recover(d, keys).disk.tasks, id, d.tasks[id].lease.fence)
            <==> (id in keys ==> d.journal[id].task.lease.fence >= d.tasks[id].lease.fence)
  {
    RecoveredTasks(d, keys);
  }

  /**
    The case is reachable in a live process: PrepareTask fails to remove its
    journal and reports an error, a worker claims the task that was installed
    all the same, and the next start replays the journal over the claim.
   */
  lemma {:induction false} FailedPrepareRollsBackClaim(d: Disk, task: Task, session: Session, claim: Op)
    requires d.journal == map[] && ValidPreparation(Preparation(1, task, session))
    requires claim.Claim? && claim.id == task.id && Outcome(Prepared(d, task, session, 3).tasks, claim).Ok?
    ensures var failed := Prepared(d, task, session, 3);
            var claimed := failed.(tasks := AfterOp(failed.tasks, claim, Clean));
            && claimed.tasks[task.id].lease.fence == task.lease.fence + 1
            && task.id in Recover(claimed, [task.id]).disk.tasks
            && Recover(claimed, [task.id]).disk.tasks[task.id] == task
  {
    var failed := Prepared(d, task, session, 3);
    var claimed := failed.(tasks := AfterOp(failed.tasks, claim, Clean));
    RecoveredTasks(claimed, [task.id]);
  }

  // ----- fencing over whole runs

  /** Anything that happens to a store: an operation on a task, a PrepareTask, a restart that replays every journal. */
  datatype Deed =
    | Working(op: Op, fault: Fault)
    | Preparing(task: Task, session: Session, landed: nat)
    | Restarting(keys: seq<string>, writes: nat)

  ghost predicate Whole(d: Disk, keys: seq<string>) {
    Listed(d, keys) && forall k <- d.journal :: k in keys
  }

  /** A deed that the store refuses, or a listing that is not the directory's, changes nothing. */
  ghost function AfterDeed(d: Disk, deed: Deed): Disk {
    match deed
    case Working(op, fault) => d.(tasks := AfterOp(d.tasks, op, fault))
    case Preparing(task, session, landed) =>
      if PrepareError(d, task, _ => Some(session)).Some? then d else Prepared(d, task, session, landed)
    case Restarting(keys, writes) => if Whole(d, keys) then Replay(d, keys, writes).disk else d
  }

  ghost function AfterDeeds(d: Disk, deeds: seq<Deed>): Disk
    decreases |deeds|
  {
    if deeds == [] then d else AfterDeeds(AfterDeed(d, deeds[0]), deeds[1..])
  }

  /** Every journal is well formed and named after its task. */
  ghost predicate Sound(d: Disk) {
    forall k <- d.journal :: d.journal[k].task.id == k && ValidPreparation(d.journal[k])
  }

  /** Neither the record of a task nor a journal over it is behind a fence. */
  ghost predicate Guarded(d: Disk, id: string, fence: nat) {
    Sound(d) && FenceAtLeast(d.tasks, id, fence) && (id in d.journal ==> d.journal[id].task.lease.fence >= fence)
  }

  lemma {:induction false} ReplayKeepsGuard(d: Disk, keys: seq<string>, writes: nat, id: string, fence: nat)
    requires Guarded(d, id, fence) && Listed(d, keys)
    ensures Guarded(Replay(d, keys, writes).disk, id, fence)
    decreases |keys|
  {
    if keys != [] {
      var p := d.journal[keys[0]];
      assert keys[0] in keys && Guarded(Replayed(d, p, writes), id, fence) && Guarded(Replayed(d, p, REPLAY_WRITES), id, fence);
      if writes >= REPLAY_WRITES {
        ListedTail(d, keys);
        ReplayKeepsGuard(Replayed(d, p, REPLAY_WRITES), keys[1..], writes - REPLAY_WRITES, id, fence);
      }
    }
  }

  lemma {:induction false} DeedKeepsGuard(d: Disk, deed: Deed, id: string, fence: nat)
    requires Guarded(d, id, fence)
    ensures Guarded(AfterDeed(d, deed), id, fence)
  {
    match deed {
      case Working(op, fault) => OpKeepsFence(d.tasks, op, fault, id, fence);
      case Preparing(task, session, landed) =>
      case Restarting(keys, writes) =>
        if Whole(d, keys) {
          ReplayKeepsGuard(d, keys, writes, id, fence);
        }
    }
  }

  lemma {:induction false} DeedsKeepGuard(d: Disk, deeds: seq<Deed>, id: string, fence: nat)
    requires Guarded(d, id, fence)
    ensures Guarded(AfterDeeds(d, deeds), id, fence)
    decreases |deeds|
  {
    if deeds != [] {
      DeedKeepsGuard(d, deeds[0], id, fence);
      DeedsKeepGuard(AfterDeed(d, deeds[0]), deeds[1..], id, fence);
    }
  }

  /** A restart that replays a journal which is behind brings a snapshot back that may then be saved. */
  lemma {:induction false} JournalRevivesSnapshot(d: Disk, keys: seq<string>, id: string)
    requires Sound(d) && Whole(d, keys) && id in d.journal && id in d.tasks
    ensures var stale := d.journal[id].task;
            Outcome(AfterDeeds(d, [Restarting(keys, REPLAY_WRITES * |keys|)]).tasks, Save(stale, stale.lease.expiresAt - 1)).Ok?
  {
    RecoveredTasks(d, keys);
    var deed := Restarting(keys, REPLAY_WRITES * |keys|);
    assert AfterDeeds(d, [deed]) == AfterDeeds(AfterDeed(d, deed), []) == Recover(d, keys).disk;
  }

  /**
    Fencing over every run, tasks prepared and interrupted restarts included:
    once a claim is stored, all saves with an earlier fence are refused in all
    continuations exactly when no journal left over the task is behind the claim.
   */
  lemma {:induction false} StaleSaveRefusedIff(d: Disk, claim: Op, fault: Fault, keys: seq<string>)
    requires Sound(d) && Whole(d, keys)
    requires claim.Claim? && Outcome(d.tasks, claim).Ok? && !fault.BeforeRename?
    ensures var fence := d.tasks[claim.id].lease.fence;
            var claimed := d.(tasks := AfterOp(d.tasks, claim, fault));
            (forall between: seq<Deed>, stale: Task, now: int | stale.id == claim.id && stale.lease.fence <= fence ::
               Outcome(AfterDeeds(claimed, between).tasks, Save(stale, now)).Err?)
            <==> (claim.id in d.journal ==> d.journal[claim.id].task.lease.fence > fence)
  {
    var id, fence := claim.id, d.tasks[claim.id].lease.fence;
    var claimed := d.(tasks := AfterOp(d.tasks, claim, fault));
    if id in d.journal && d.journal[id].task.lease.fence <= fence {
      var stale := d.journal[id].task;
      JournalRevivesSnapshot(claimed, keys, id);
      assert Outcome(AfterDeeds(claimed, [Restarting(keys, REPLAY_WRITES * |keys|)]).tasks, Save(stale, stale.lease.expiresAt - 1)).Ok?;
    } else {
      forall between: seq<Deed>, stale: Task, now: int | stale.id == id && stale.lease.fence <= fence
        ensures Outcome(AfterDeeds(claimed, between).tasks, Save(stale, now)).Err?
      {
        DeedsKeepGuard(claimed, between, id, fence + 1);
      }
    }
  }

  // ----- the store itself

  class Store {
    var tasks: map<string, Task>
    var sessions: map<string, Session>
    var journal: map<string, Preparation>

    constructor (d: Disk)
      ensures Now() == d
    {
      tasks, sessions, journal := d.tasks, d.sessions, d.journal;
    }

    function Now(): Disk
      reads this
    {
      Disk(tasks, sessions, journal)
    }

    method SaveTask(value: Task, now: int, fault: Fault) returns (r: Result<Task, Error>)
      modifies this`tasks
      ensures tasks == AfterOp(old(tasks), Save(value, now), fault)
      ensures r.Ok? <==> Outcome(old(tasks), Save(value, now)).Ok? && fault.Clean?
      ensures Outcome(old(tasks), Save(value, now)).Err? ==> r == Outcome(old(tasks), Save(value, now))
    {
      if !ValidId(value.id) {
        return Err(InvalidId);
      }
      if value.id in tasks {
        var refused := TaskWriteError(tasks[value.id].lease, value.lease, now);
        if refused.Some? {
          return Err(refused.value);
        }
      }
      tasks := Stored(tasks, value.id, value, fault);
      return if fault.Clean? then Ok(value) else Err(IoFailure);
    }

    method ClaimTask(id: string, owner: string, token: string, ttl: int, now: int, fault: Fault) returns (r: Result<Task, Error>)
      modifies this`tasks
      ensures tasks == AfterOp(old(tasks), Claim(id, owner, token, ttl, now), fault)
      ensures r.Ok? <==> Outcome(old(tasks), Claim(id, owner, token, ttl, now)).Ok? && fault.Clean?
      ensures r.Ok? ==> id in old(tasks) && r.value == tasks[id] && r.value.lease.fence == old(tasks)[id].lease.fence + 1
    {
      if !ValidId(id) {
        return Err(InvalidId);
      }
      if Contracts.Trim(owner) == "" || Contracts.Trim(token) == "" {
        return Err(MissingWorker);
      }
      if ttl <= 0 || ttl > MAX_LEASE_TTL {
        return Err(BadTtl);
      }
      if id !in tasks {
        return Err(NotFound);
      }
      var value := tasks[id];
      if value.lease.token != "" && now < value.lease.expiresAt {
        return Err(TaskLeased);
      }
      value := value.(lease := Lease(Contracts.Trim(owner), Contracts.Trim(token), value.lease.fence + 1, now + ttl));
      tasks := Stored(tasks, id, value, fault);
      return if fault.Clean? then Ok(value) else Err(IoFailure);
    }

    method ReleaseTask(id: string, token: string, fence: nat, fault: Fault) returns (r: Result<Task, Error>)
      modifies this`tasks
      ensures tasks == AfterOp(old(tasks), Release(id, token, fence), fault)
      ensures r.Ok? <==> Outcome(old(tasks), Release(id, token, fence)).Ok? && fault.Clean?
    {
      if !ValidId(id) {
        return Err(InvalidId);
      }
      if id !in tasks {
        return Err(NotFound);
      }
      var value := tasks[id];
      if value.lease.token != token || value.lease.fence != fence {
        return Err(LeaseConflict);
      }
      value := value.(lease := Lease("", "", value.lease.fence, 0));
      tasks := Stored(tasks, id, value, fault);
      return if fault.Clean? then Ok(value) else Err(IoFailure);
    }

    /**
      landed is the number of the four writes that reach the disk before the
      call fails or the process dies; five or more mean that nothing fails.
     */
    method PrepareTask(task: Task, mutate: Session -> Option<Session>, landed: nat) returns (r: Result<Session, Error>)
      modifies this
      ensures var refused := PrepareError(old(Now()), task, mutate);
              if refused.Some? then Now() == old(Now()) && r == Err(refused.value)
              else
                var session := mutate(old(sessions)[task.sessionId]).value;
                && Now() == Prepared(old(Now()), task, session, landed)
                && r == if landed > PREPARE_WRITES then Ok(session) else Err(IoFailure)
    {
      if !ValidId(task.id) || !ValidId(task.sessionId) {
        return Err(InvalidId);
      }
      if task.id in tasks {
        return Err(TaskExists);
      }
      if task.sessionId !in sessions {
        return Err(NotFound);
      }
      var mutated := mutate(sessions[task.sessionId]);
      if mutated.None? {
        return Err(MutationRefused);
      }
      var prepared := mutated.value;
      if prepared.id != task.sessionId {
        return Err(SessionChanged);
      }
      if BoundMessages(prepared.messages, task.id) != 1 {
        return Err(NotOneMessage);
      }
      if landed == 0 {
        return Err(IoFailure);
      }
      journal := journal[task.id := Preparation(1, task, prepared)];
      if landed == 1 {
        return Err(IoFailure);
      }
      tasks := tasks[task.id := task];
      if landed == 2 {
        return Err(IoFailure);
      }
      sessions := sessions[prepared.id := prepared];
      if landed == 3 {
        return Err(IoFailure);
      }
      journal := journal - {task.id};
      if landed == PREPARE_WRITES {
        return Err(IoFailure);
      }
      return Ok(prepared);
    }

    /** One journal: its task, its session, and then the journal itself is removed. */
    method ReplayJournal(key: string, writes: nat) returns (done: bool)
      requires key in journal && journal[key].task.id == key
      modifies this
      ensures var p := old(journal)[key];
              if ValidPreparation(p) then Now() == Replayed(old(Now()), p, writes) && (done <==> writes >= REPLAY_WRITES)
              else Now() == old(Now()) && !done
    {
      var p := journal[key];
      if p.schemaVersion != 1 || !ValidId(p.task.id) || !ValidId(p.session.id) || p.task.sessionId != p.session.id {
        return false;
      }
      if writes == 0 {
        return false;
      }
      tasks := tasks[p.task.id := p.task];
      if writes == 1 {
        return false;
      }
      sessions := sessions[p.session.id := p.session];
      if writes == 2 {
        return false;
      }
      journal := journal - {p.task.id};
      return true;
    }

    /** recoverTaskPreparationsLocked over a directory listing, with a budget of writes. */
    method RecoverPreparations(keys: seq<string>, writes: nat) returns (ok: bool)
      requires Listed(Now(), keys)
      modifies this
      ensures Now() == Replay(old(Now()), keys, writes).disk
      ensures ok == Replay(old(Now()), keys, writes).ok
    {
      var left: nat := writes;
      var k := 0;
      while k < |keys|
        invariant 0 <= k <= |keys|
        invariant Listed(Now(), keys[k..])
        invariant Replay(old(Now()), keys, writes) == Replay(Now(), keys[k..], left)
      {
        assert keys[k] in keys[k..] && keys[k..][1..] == keys[k + 1..];
        ListedTail(Now(), keys[k..]);
        var done := ReplayJournal(keys[k], left);
        if !done {
          return false;
        }
        left := left - REPLAY_WRITES;
        k := k + 1;
      }
      return true;
    }
  }
}
