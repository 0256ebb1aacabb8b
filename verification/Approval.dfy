/**
  Approval records.

  Two processes share the record directory and have no common lock, so every
  operation is a load followed by a decision and, when the decision says so, a
  save. The decisions are functions of the loaded record and the clock; the
  store's methods and the interleaved protocol both use them.
 */
module Approval {
  import opened Wrappers
  import opened Paths
  import opened Contracts
  import Ordering

  datatype Status = Pending | Approved | Rejected | Consumed | Expired

  datatype Record = Record(
    id: string, binding: Binding, status: Status, reason: string,
    createdAt: int, expiresAt: int, resolvedAt: int, consumedAt: int)

  datatype Refusal =
    | InvalidId | NotFound | IncompleteBinding | ApprovalExpired
    | WrongStatus(status: Status) | BindingMismatch | SaveFailed

  datatype Decision = Decision(write: Option<Record>, reply: Result<Record, Refusal>)

  const DEFAULT_TTL := 600_000_000_000

  predicate Complete(b: Binding) {
    b.taskId != "" && b.proposalDigest != NoDigest && b.snapshotDigest != NoDigest
    && b.intentDigest != NoDigest && b.policyVersion != "" && b.tool != ""
  }

  function NewRecord(id: string, b: Binding, ttl: int, now: int): Record {
    Record(id, b, Pending, "", now, now + (if ttl <= 0 then DEFAULT_TTL else ttl), 0, 0)
  }

  /** Resolve, after the load. Expiry is tested first, whatever the status. */
  function ResolveDecision(r: Record, approve: bool, reason: string, now: int): Decision {
    var desired := if approve then Approved else Rejected;
    if now >= r.expiresAt then Decision(Some(r.(status := Expired, resolvedAt := now)), Err(ApprovalExpired))
    else if r.status == desired then Decision(None, Ok(r))
    else if r.status != Pending then Decision(None, Err(WrongStatus(r.status)))
    else
      var r' := r.(status := desired, reason := Trim(reason), resolvedAt := now);
      Decision(Some(r'), Ok(r'))
  }

  /** expire, after the load; the timestamp is a second, later reading of the clock. */
  function ExpireDecision(r: Record, now: int, later: int): Decision {
    if r.status != Pending || now < r.expiresAt then Decision(None, Ok(r))
    else
      var r' := r.(status := Expired, resolvedAt := later);
      Decision(Some(r'), Ok(r'))
  }

  function ValidateReply(r: Record, b: Binding, now: int): Result<Record, Refusal> {
    if now > r.expiresAt then Err(ApprovalExpired)
    else if r.status != Approved then Err(WrongStatus(r.status))
    else if r.binding != b then Err(BindingMismatch)
    else Ok(r)
  }

  /** Consume, after the load: the checks of Validate once more, then the write. */
  function ConsumeDecision(r: Record, b: Binding, now: int, later: int): Decision {
    match ValidateReply(r, b, now)
    case Err(e) => Decision(None, Err(e))
    case Ok(_) =>
      var r' := r.(status := Consumed, consumedAt := later);
      Decision(Some(r'), Ok(r'))
  }

  function Saved(files: map<string, Record>, r: Record, fault: Fault): map<string, Record> {
    Stored(files, r.id, r, fault)
  }

  function Written(files: map<string, Record>, d: Decision, fault: Fault): map<string, Record> {
    if d.write.None? then files else Saved(files, d.write.value, fault)
  }

  /** What the caller is told: a failed save turns success into failure and leaves a failure alone. */
  function Replied(d: Decision, fault: Fault): Result<Record, Refusal> {
    if d.write.Some? && d.reply.Ok? && !fault.Clean? then Err(SaveFailed) else d.reply
  }

  ghost predicate WellKeyed(files: map<string, Record>) {
    forall id <- files :: files[id].id == id
  }

  /** The states from which no operation leads to a usable approval. */
  predicate Settled(s: Status) {
    s != Pending && s != Approved
  }

  /** Every write keeps identity and binding, and only a live pending record becomes approved. */
  lemma {:induction false} DecisionsPreserve(r: Record, approve: bool, reason: string, b: Binding, now: int, later: int)
    ensures forall d <- [ResolveDecision(r, approve, reason, now), ExpireDecision(r, now, later), ConsumeDecision(r, b, now, later)] ::
              d.write.Some? ==>
                && d.write.value.id == r.id
                && d.write.value.binding == r.binding
                && d.write.value.expiresAt == r.expiresAt
                && d.write.value.status != Pending
                && (d.write.value.status == Approved ==> r.status == Pending && now < r.expiresAt)
                && (Settled(r.status) ==> d.write.value.status == Expired)
  {
    forall d | d in [ResolveDecision(r, approve, reason, now), ExpireDecision(r, now, later), ConsumeDecision(r, b, now, later)] && d.write.Some?
      ensures d.write.value.status == Approved ==> r.status == Pending && now < r.expiresAt
      ensures Settled(r.status) ==> d.write.value.status == Expired
    {
      assert d == ResolveDecision(r, approve, reason, now) || d == ExpireDecision(r, now, later) || d == ConsumeDecision(r, b, now, later);
    }
  }

  /**
    Resolve and Consume disagree about the instant of expiry, and only there:
    an approved record that Resolve already reports expired can still be
    consumed exactly when the clock equals its expiry.
   */
  lemma {:induction false} ExpiryBoundary(r: Record, approve: bool, reason: string, now: int)
    requires r.status == Approved
    ensures ResolveDecision(r, approve, reason, now).reply == Err(ApprovalExpired)
              && ConsumeDecision(r, r.binding, now, now).reply.Ok?
            <==> now == r.expiresAt
  {
    assert ConsumeDecision(r, r.binding, now, now).reply.Ok? <==> now <= r.expiresAt;
  }

  /** CONSUMED is not final: after expiry a Resolve call rewrites it as EXPIRED. */
  lemma {:induction false} ConsumedIsOverwritten(r: Record, now: int)
    requires r.status == Consumed
    ensures ResolveDecision(r, true, "", now).write.Some? <==> now >= r.expiresAt
    ensures now >= r.expiresAt ==> ResolveDecision(r, true, "", now).write.value.status == Expired
  {
    assert r.status != Approved && r.status != Pending;
  }

  // ----- what each decision comes to

  /** A new approval waits for a verdict for the lifetime asked for, ten minutes by default. */
  lemma {:induction false} NewRecordMeans(id: string, b: Binding, ttl: int, now: int)
    ensures var r := NewRecord(id, b, ttl, now);
            && r.id == id && r.binding == b && r.status == Pending && r.createdAt == now
            && r.expiresAt - r.createdAt == (if ttl > 0 then ttl else 600_000_000_000)
            && r.expiresAt > r.createdAt
  {
  }

  /** A verdict stands exactly when it comes in time and no other one has been given; a second one alike changes nothing. */
  lemma {:induction false} VerdictStandsIff(r: Record, approve: bool, reason: string, now: int)
    ensures var d := ResolveDecision(r, approve, reason, now);
            var verdict := if approve then Approved else Rejected;
            && (d.reply.Ok? <==> now < r.expiresAt && (r.status == Pending || r.status == verdict))
            && (d.reply.Ok? ==> d.reply.value.status == verdict && (r.status == verdict ==> d.reply.value == r))
            && (d.reply == Err(ApprovalExpired) <==> now >= r.expiresAt)
            && (d.write.Some? <==> now >= r.expiresAt || r.status == Pending)
            && (d.write.Some? && now >= r.expiresAt ==> d.write.value == r.(status := Expired, resolvedAt := now))
            && (d.write.Some? && now < r.expiresAt ==> d.write == Some(r.(status := verdict, reason := Trim(reason), resolvedAt := now)) && d.reply == Ok(d.write.value))
  {
  }

  /** Looking at a record expires it exactly when it waits and is overdue, and shows what is then stored. */
  lemma {:induction false} ReadingExpiresIff(r: Record, now: int, later: int)
    ensures var d := ExpireDecision(r, now, later);
            && (d.write.Some? <==> r.status == Pending && now >= r.expiresAt)
            && (d.write.Some? ==> d.write == Some(r.(status := Expired, resolvedAt := later)))
            && d.reply == Ok(if d.write.Some? then d.write.value else r)
  {
  }

  /** An approval can be spent exactly when it was granted for this binding and its time is not past. */
  lemma {:induction false} SpendableIff(r: Record, b: Binding, now: int, later: int)
    ensures var d := ConsumeDecision(r, b, now, later);
            && (d.reply.Ok? <==> r.status == Approved && r.binding == b && now <= r.expiresAt)
            && (d.write.Some? <==> d.reply.Ok?)
            && (d.write.Some? ==> d.write == Some(r.(status := Consumed, consumedAt := later)) && d.reply == Ok(d.write.value))
            && (ValidateReply(r, b, now) == Ok(r) <==> d.reply.Ok?)
  {
  }

  /** What is reported as a success is on disk, and what is reported as a failure changes nothing unless a save broke off. */
  lemma {:induction false} ReportedIsStored(files: map<string, Record>, id: string, d: Decision, fault: Fault)
    requires id in files && files[id].id == id
    requires d.write.None? ==> d.reply.Err? || d.reply == Ok(files[id])
    requires d.write.Some? ==> d.write.value.id == id && (d.reply.Ok? ==> d.reply == Ok(d.write.value))
    ensures var after := Written(files, d, fault);
            && after.Keys == files.Keys
            && (Replied(d, fault).Ok? ==> after[id] == Replied(d, fault).value)
            && (Replied(d, fault).Ok? <==> d.reply.Ok? && (d.write.Some? ==> fault.Clean?))
            && (d.reply.Err? ==> Replied(d, fault) == d.reply)
            && (fault.BeforeRename? || d.write.None? ==> after == files)
            && (!fault.BeforeRename? && d.write.Some? ==> after == files[id := d.write.value])
  {
  }

  /** What anybody can do to a record that is on disk: give a verdict, look at it after its time, or spend it. */
  datatype Act =
    | Judge(approve: bool, reason: string, now: int, fault: Fault)
    | Look(now: int, later: int, fault: Fault)
    | Spend(binding: Binding, now: int, later: int, fault: Fault)

  function Acted(r: Record, act: Act): Record {
    var d := match act
      case Judge(approve, reason, now, _) => ResolveDecision(r, approve, reason, now)
      case Look(now, later, _) => ExpireDecision(r, now, later)
      case Spend(b, now, later, _) => ConsumeDecision(r, b, now, later);
    if d.write.Some? && !act.fault.BeforeRename? then d.write.value else r
  }

  function ActedAll(r: Record, acts: seq<Act>): Record
    decreases |acts|
  {
    if acts == [] then r else ActedAll(Acted(r, acts[0]), acts[1..])
  }

  /** Each act has its effect, unless its save fails before the rename. */
  lemma {:induction false} ActsTakeEffect(r: Record, reason: string, now: int, later: int)
    ensures r.status == Pending && now < r.expiresAt ==>
              && Acted(r, Judge(true, reason, now, Clean)).status == Approved
              && Acted(r, Judge(false, reason, now, Clean)).status == Rejected
    ensures r.status == Pending && now >= r.expiresAt ==> Acted(r, Look(now, later, Clean)).status == Expired
    ensures r.status == Approved && now <= r.expiresAt ==> Acted(r, Spend(r.binding, now, later, Clean)).status == Consumed
    ensures forall act: Act :: act.fault.BeforeRename? ==> Acted(r, act) == r
    ensures forall act: Act :: Acted(r, act.(fault := AfterRename)) == Acted(r, act.(fault := Clean))
  {
    forall act: Act
      ensures Acted(r, act.(fault := AfterRename)) == Acted(r, act.(fault := Clean))
    {
      match act {
        case Judge(_, _, _, _) =>
        case Look(_, _, _) =>
        case Spend(_, _, _, _) =>
      }
    }
  }

  /** However a record is acted on, it keeps its identity, its binding and its expiry. */
  lemma {:induction false} ActsKeep(r: Record, acts: seq<Act>)
    ensures var after := ActedAll(r, acts);
            && after.id == r.id && after.binding == r.binding && after.expiresAt == r.expiresAt
            && (Settled(r.status) ==> Settled(after.status))
    decreases |acts|
  {
    if acts != [] {
      ActsKeep(Acted(r, acts[0]), acts[1..]);
    }
  }

  /** The two clock readings of one expire call: to decide, and for the timestamp. */
  datatype Readings = Readings(decided: int, stamped: int)

  /** What the scan makes of one record. */
  function Swept(r: Record, clock: Readings): Record {
    if r.status == Pending && clock.decided >= r.expiresAt then r.(status := Expired, resolvedAt := clock.stamped) else r
  }

  /** The directory after the first k names of a listing have been scanned, each at its own time. */
  function SweptUpTo(files: map<string, Record>, names: seq<string>, k: nat, clock: nat -> Readings): map<string, Record>
    requires k <= |names| && forall n <- names :: n in files
    ensures SweptUpTo(files, names, k, clock).Keys == files.Keys
  {
    if k == 0 then files
    else
      var before := SweptUpTo(files, names, k - 1, clock);
      before[names[k - 1] := Swept(before[names[k - 1]], clock(k - 1))]
  }

  /** What the scan hands back of the first k names. */
  function SweptRecords(files: map<string, Record>, names: seq<string>, k: nat, clock: nat -> Readings): seq<Record>
    requires k <= |names| && forall n <- names :: n in files
  {
    if k == 0 then [] else SweptRecords(files, names, k - 1, clock) + [Swept(files[names[k - 1]], clock(k - 1))]
  }

  lemma {:induction false} SweptRecordAt(files: map<string, Record>, names: seq<string>, k: nat, clock: nat -> Readings, i: nat)
    requires i < k <= |names| && forall n <- names :: n in files
    ensures |SweptRecords(files, names, k, clock)| == k && SweptRecords(files, names, k, clock)[i] == Swept(files[names[i]], clock(i))
  {
    if k > 1 {
      SweptRecordAt(files, names, k - 1, clock, if i < k - 1 then i else 0);
    }
  }

  ghost predicate NoRepeats(names: seq<string>) {
    forall i, j | 0 <= i < j < |names| :: names[i] != names[j]
  }

  /** Scanning changes a record once, when its turn comes, and only an overdue pending one. */
  lemma {:induction false} SweepAt(files: map<string, Record>, names: seq<string>, k: nat, clock: nat -> Readings, i: nat)
    requires k <= |names| && i < |names| && NoRepeats(names) && forall n <- names :: n in files
    ensures SweptUpTo(files, names, k, clock)[names[i]] == if i < k then Swept(files[names[i]], clock(i)) else files[names[i]]
  {
    if k > 0 {
      SweepAt(files, names, k - 1, clock, i);
      assert names[k - 1] == names[i] <==> k - 1 == i;
    }
  }

  lemma {:induction false} SweepElsewhere(files: map<string, Record>, names: seq<string>, k: nat, clock: nat -> Readings, id: string)
    requires k <= |names| && id in files && id !in names && forall n <- names :: n in files
    ensures SweptUpTo(files, names, k, clock)[id] == files[id]
  {
    if k > 0 {
      SweepElsewhere(files, names, k - 1, clock, id);
    }
  }

  /** One call of expire takes the scan one name further, unless its save fails before the rename. */
  lemma {:induction false} SweepStep(files: map<string, Record>, names: seq<string>, k: nat, clock: nat -> Readings, fault: Fault)
    requires WellKeyed(files) && NoRepeats(names) && k < |names| && forall n <- names :: n in files
    ensures var here := SweptUpTo(files, names, k, clock);
            var d := ExpireDecision(files[names[k]], clock(k).decided, clock(k).stamped);
            && here[names[k]] == files[names[k]]
            && Written(here, d, fault) == (if fault.BeforeRename? then here else SweptUpTo(files, names, k + 1, clock))
            && d.reply == Ok(Swept(files[names[k]], clock(k)))
  {
    SweepAt(files, names, k, clock, k);
    var here := SweptUpTo(files, names, k, clock);
    assert here[names[k] := here[names[k]]] == here;
  }

  predicate Newer(a: Record, b: Record) {
    a.createdAt > b.createdAt
  }

  lemma {:induction false} NewestFirst(records: seq<Record>)
    ensures multiset(Ordering.Sorted(records, Newer)) == multiset(records)
    ensures Ordering.Ordered(Ordering.Sorted(records, Newer), Newer)
  {
    Ordering.SortedHolds(records, Newer);
    Ordering.SortedIsOrdered(records, Newer, set r | r in records);
  }

  /** One process's handle on the shared directory, with no other process running. */
  class Store {
    var files: map<string, Record>

    constructor ()
      ensures files == map[]
    {
      files := map[];
    }

    method Load(id: string) returns (r: Result<Record, Refusal>)
      ensures r == if !ValidId(id) then Err(InvalidId) else if id in files then Ok(files[id]) else Err(NotFound)
    {
      if !ValidId(id) {
        return Err(InvalidId);
      }
      if id !in files {
        return Err(NotFound);
      }
      return Ok(files[id]);
    }

    method Save(record: Record, fault: Fault) returns (ok: bool)
      modifies this
      ensures files == Saved(old(files), record, fault)
      ensures ok == fault.Clean?
    {
      if fault.BeforeRename? {
        return false;
      }
      files := files[record.id := record];
      return fault.Clean?;
    }

    method Create(id: string, binding: Binding, ttl: int, now: int, fault: Fault) returns (r: Result<Record, Refusal>)
      modifies this
      ensures !Complete(binding) ==> files == old(files) && r == Err(IncompleteBinding)
      ensures r == Err(IncompleteBinding) <==>
                || "" in {binding.taskId, binding.policyVersion, binding.tool}
                || NoDigest in {binding.proposalDigest, binding.snapshotDigest, binding.intentDigest}
      ensures Complete(binding) ==>
                && files == Saved(old(files), NewRecord(id, binding, ttl, now), fault)
                && r == if fault.Clean? then Ok(NewRecord(id, binding, ttl, now)) else Err(SaveFailed)
    {
      if binding.taskId == "" || binding.proposalDigest == NoDigest || binding.snapshotDigest == NoDigest
         || binding.intentDigest == NoDigest || binding.policyVersion == "" || binding.tool == ""
      {
        return Err(IncompleteBinding);
      }
      var lifetime := ttl;
      if lifetime <= 0 {
        lifetime := DEFAULT_TTL;
      }
      var record := Record(id, binding, Pending, "", now, now + lifetime, 0, 0);
      var ok := Save(record, fault);
      if !ok {
        return Err(SaveFailed);
      }
      return Ok(record);
    }

    method Expire(record: Record, clock: Readings, fault: Fault) returns (r: Result<Record, Refusal>)
      modifies this
      ensures files == Written(old(files), ExpireDecision(record, clock.decided, clock.stamped), fault)
      ensures r == Replied(ExpireDecision(record, clock.decided, clock.stamped), fault)
    {
      if record.status != Pending || clock.decided < record.expiresAt {
        return Ok(record);
      }
      var expired := record.(status := Expired, resolvedAt := clock.stamped);
      var ok := Save(expired, fault);
      return if ok then Ok(expired) else Err(SaveFailed);
    }

    method Get(id: string, clock: Readings, fault: Fault) returns (r: Result<Record, Refusal>)
      modifies this
      ensures !ValidId(id) ==> files == old(files) && r == Err(InvalidId)
      ensures ValidId(id) && id !in old(files) ==> files == old(files) && r == Err(NotFound)
      ensures ValidId(id) && id in old(files) ==>
                var d := ExpireDecision(old(files)[id], clock.decided, clock.stamped);
                files == Written(old(files), d, fault) && r == Replied(d, fault)
    {
      r := Load(id);
      if r.Ok? {
        r := Expire(r.value, clock, fault);
      }
    }

    /** One turn of List's loop. */
    method ScanOne(ghost before: map<string, Record>, names: seq<string>, k: nat, clock: nat -> Readings, fault: Fault) returns (r: Result<Record, Refusal>, ghost wrote: bool)
      requires WellKeyed(before) && NoRepeats(names) && k < |names| && forall n <- names :: n in before
      requires files == SweptUpTo(before, names, k, clock)
      modifies this
      ensures r.Ok? ==> wrote && r.value == Swept(before[names[k]], clock(k))
      ensures files == SweptUpTo(before, names, if wrote then k + 1 else k, clock)
    {
      SweepStep(before, names, k, clock, fault);
      SweepStep(before, names, k, clock, Clean);
      r := Expire(files[names[k]], clock(k), fault);
      wrote := r.Ok? || !fault.BeforeRename?;
    }

    /**
      List loads every record, expires the overdue pending ones on the way, and
      returns them newest first; the order of records of one age is open. names
      is the directory listing; a save that fails ends the scan there, with a
      prefix of the directory swept.
     */
    method List(names: seq<string>, clock: nat -> Readings, faults: nat -> Fault) returns (r: Result<seq<Record>, Refusal>, ghost scanned: nat)
      requires WellKeyed(files) && NoRepeats(names)
      requires forall n <- names :: n in files && ValidId(n)
      modifies this
      ensures scanned <= |names| && files == SweptUpTo(old(files), names, scanned, clock)
      ensures r.Ok? ==>
                && scanned == |names|
                && multiset(r.value) == multiset(SweptRecords(old(files), names, |names|, clock))
                && Ordering.Ordered(r.value, Newer)
    {
      var out := [];
      ghost var before := files;
      scanned := 0;
      for k := 0 to |names|
        invariant scanned == k && files == SweptUpTo(before, names, k, clock)
        invariant out == SweptRecords(before, names, k, clock)
      {
        var record, wrote := ScanOne(before, names, k, clock, faults(k));
        if record.Err? {
          return Err(record.error), if wrote then k + 1 else k;
        }
        scanned := k + 1;
        out := out + [record.value];
      }
      NewestFirst(out);
      return Ok(Ordering.Sorted(out, Newer)), scanned;
    }

    method Resolve(id: string, approve: bool, reason: string, now: int, fault: Fault) returns (r: Result<Record, Refusal>)
      modifies this
      ensures !ValidId(id) ==> files == old(files) && r == Err(InvalidId)
      ensures ValidId(id) && id !in old(files) ==> files == old(files) && r == Err(NotFound)
      ensures ValidId(id) && id in old(files) ==>
                var d := ResolveDecision(old(files)[id], approve, reason, now);
                files == Written(old(files), d, fault) && r == Replied(d, fault)
    {
      r := Load(id);
      if r.Err? {
        return;
      }
      var record := r.value;
      if now >= record.expiresAt {
        var _ := Save(record.(status := Expired, resolvedAt := now), fault);
        return Err(ApprovalExpired);
      }
      var desired := Rejected;
      if approve {
        desired := Approved;
      }
      if record.status == desired {
        return Ok(record);
      }
      if record.status != Pending {
        return Err(WrongStatus(record.status));
      }
      record := record.(status := desired, reason := Trim(reason), resolvedAt := now);
      var ok := Save(record, fault);
      return if ok then Ok(record) else Err(SaveFailed);
    }

    method Validate(id: string, binding: Binding, now: int) returns (r: Result<Record, Refusal>)
      ensures !ValidId(id) ==> r == Err(InvalidId)
      ensures ValidId(id) && id !in files ==> r == Err(NotFound)
      ensures ValidId(id) && id in files ==> r == ValidateReply(files[id], binding, now)
    {
      r := Load(id);
      if r.Err? {
        return;
      }
      if now > r.value.expiresAt {
        return Err(ApprovalExpired);
      }
      if r.value.status != Approved {
        return Err(WrongStatus(r.value.status));
      }
      if r.value.binding != binding {
        return Err(BindingMismatch);
      }
    }

    method Consume(id: string, binding: Binding, now: int, later: int, fault: Fault) returns (r: Result<Record, Refusal>)
      modifies this
      ensures !ValidId(id) ==> files == old(files) && r == Err(InvalidId)
      ensures ValidId(id) && id !in old(files) ==> files == old(files) && r == Err(NotFound)
      ensures ValidId(id) && id in old(files) ==>
                var d := ConsumeDecision(old(files)[id], binding, now, later);
                files == Written(old(files), d, fault) && r == Replied(d, fault)
    {
      r := Validate(id, binding, now);
      if r.Err? {
        return;
      }
      var record := r.value.(status := Consumed, consumedAt := later);
      var ok := Save(record, fault);
      return if ok then Ok(record) else Err(SaveFailed);
    }
  }
}
