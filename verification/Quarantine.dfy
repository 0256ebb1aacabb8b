/**
  The quarantine: a file is moved out of the way by one atomic rename between
  two writes of a manifest, and moved back by another.

  The disk is a map from locations to file objects and a map of manifest files.
  A quarantine identifier is a free constructor over task, nonce and snapshot,
  and every object slot belongs to one identifier.
 */
module Quarantine {
  import opened Wrappers
  import opened Paths
  import opened Contracts

  datatype Object = Object(identity: Identity, regular: bool)

  datatype Status = Prepared | Committed | Restored

  datatype Manifest = Manifest(id: QuarantineId, original: Location, snapshot: Snapshot, status: Status)

  /** The first write of a manifest is not atomic, so a crash can leave it unreadable. */
  datatype ManifestFile = Torn | Record(manifest: Manifest)

  datatype Disk = Disk(files: map<Location, Object>, manifests: map<QuarantineId, ManifestFile>)

  datatype Error =
    | Incomplete | NotFound | OutsideLab | TargetChanged | ObjectExists | ManifestExists | TornManifest
    | WrongStatus | TargetMismatch | DiffersFromManifest | ParentUnavailable | Occupied | Io

  /** Where an operation stops, by a crash or by a call that fails. */
  datatype Cut = Never | InSaveNew(torn: bool) | BeforeRename | AfterRename | AtCommit | AfterCommit

  /** What goes wrong in one operation: where it stops, an outside write just before the rename, a rollback rename that fails too. */
  datatype Trouble = Trouble(cut: Cut, touch: Option<Identity>, rollbackFails: bool)

  const NO_TROUBLE := Trouble(Never, None, false)

  predicate Matches(o: Object, s: Snapshot) {
    o.regular && o.identity == s.identity
  }

  predicate InLab(l: Location, roots: seq<Path>) {
    l.At? && WithinAny(l.path, roots)
  }

  /** rename(2) onto a vacant name. */
  function Moved(files: map<Location, Object>, from: Location, to: Location): map<Location, Object>
    requires from in files
  {
    (files - {from})[to := files[from]]
  }

  function Touched(files: map<Location, Object>, at: Location, touch: Option<Identity>): map<Location, Object>
    requires at in files
  {
    if touch.None? then files else files[at := files[at].(identity := touch.value)]
  }

  // ----- the operations, as functions of the disk

  function QuarantineRefused(d: Disk, roots: seq<Path>, taskId: string, nonce: string, s: Snapshot): Option<Error> {
    if s.typ != "file" || s.location.None? || taskId == "" || nonce == "" then Some(Incomplete)
    else if s.location.value !in d.files then Some(NotFound)
    else if !InLab(s.location.value, roots) then Some(OutsideLab)
    else if !Matches(d.files[s.location.value], s) then Some(TargetChanged)
    else if Slot(QuarantineId(taskId, nonce, s)) in d.files then Some(ObjectExists)
    else if QuarantineId(taskId, nonce, s) in d.manifests then Some(ManifestExists)
    else None
  }

  function AfterQuarantine(d: Disk, roots: seq<Path>, taskId: string, nonce: string, s: Snapshot, t: Trouble): (Disk, Result<Manifest, Error>) {
    var refused := QuarantineRefused(d, roots, taskId, nonce, s);
    if refused.Some? then (d, Err(refused.value))
    else
      var id := QuarantineId(taskId, nonce, s);
      var source, slot := s.location.value, Slot(id);
      var prepared := Manifest(id, source, s, Prepared);
      if t.cut.InSaveNew? then (if t.cut.torn then d.(manifests := d.manifests[id := Torn]) else d, Err(Io))
      else
        var d1 := d.(manifests := d.manifests[id := Record(prepared)]);
        if t.cut.BeforeRename? then (d1, Err(Io))
        else
          var touched := Touched(d1.files, source, t.touch);
          var d2 := d1.(files := Moved(touched, source, slot));
          var back := d1.(files := touched);
          if t.cut.AfterRename? then (d2, Err(Io))
          else if !Matches(d2.files[slot], s) then (if t.rollbackFails then d2 else back, Err(TargetChanged))
          else if t.cut.AtCommit? then (if t.rollbackFails then d2 else back, Err(Io))
          else
            var committed := prepared.(status := Committed);
            (d2.(manifests := d2.manifests[id := Record(committed)]), if t.cut.AfterCommit? then Err(Io) else Ok(committed))
  }

  function RestoreRefused(d: Disk, roots: seq<Path>, id: QuarantineId, s: Snapshot, parentExists: bool): Option<Error> {
    if id !in d.manifests then Some(NotFound)
    else if d.manifests[id].Torn? then Some(TornManifest)
    else
      var m := d.manifests[id].manifest;
      if m.status != Committed then Some(WrongStatus)
      else if s.typ != "file" || s.location != Some(Slot(id)) then Some(TargetMismatch)
      else if Slot(id) !in d.files || !Matches(d.files[Slot(id)], s) then Some(TargetChanged)
      else if s.identity != m.snapshot.identity then Some(DiffersFromManifest)
      else if !parentExists || !m.original.At? || m.original.path == []
              || !WithinAny(m.original.path[..|m.original.path| - 1], roots) then Some(ParentUnavailable)
      else if m.original in d.files then Some(Occupied)
      else None
  }

  function AfterRestore(d: Disk, roots: seq<Path>, id: QuarantineId, s: Snapshot, parentExists: bool, t: Trouble): (Disk, Result<Manifest, Error>) {
    if id in d.manifests && d.manifests[id].Record? && d.manifests[id].manifest.status == Restored then (d, Ok(d.manifests[id].manifest))
    else
      var refused := RestoreRefused(d, roots, id, s, parentExists);
      if refused.Some? then (d, Err(refused.value))
      else if t.cut.InSaveNew? || t.cut.BeforeRename? then (d, Err(Io))
      else
        var m := d.manifests[id].manifest;
        var touched := Touched(d.files, Slot(id), t.touch);
        var d1 := d.(files := Moved(touched, Slot(id), m.original));
        var back := d.(files := touched);
        if t.cut.AfterRename? then (d1, Err(Io))
        else if !Matches(d1.files[m.original], m.snapshot) then (if t.rollbackFails then d1 else back, Err(TargetChanged))
        else if t.cut.AtCommit? then (if t.rollbackFails then d1 else back, Err(Io))
        else
          var restored := m.(status := Restored);
          (d1.(manifests := d1.manifests[id := Record(restored)]), if t.cut.AfterCommit? then Err(Io) else Ok(restored))
  }

  /** What Recover does with one manifest: it may be dropped, committed or left, and left ones that are not settled are reported. */
  function RecoverOne(d: Disk, id: QuarantineId, ioFails: bool): (Disk, bool) {
    if id !in d.manifests || d.manifests[id].Torn? then (d, false)
    else
      var m := d.manifests[id].manifest;
      var source, slot := m.original in d.files, Slot(id) in d.files;
      if m.status != Prepared then (d, true)
      else if source && !slot then
        if ioFails then (d, false) else (d.(manifests := d.manifests - {id}), true)
      else if !source && slot && Matches(d.files[Slot(id)], m.snapshot) then
        if ioFails then (d, false) else (d.(manifests := d.manifests[id := Record(m.(status := Committed))]), true)
      else (d, false)
  }

  /** Recover over a directory listing; a crash leaves a prefix of it processed. */
  function AfterRecover(d: Disk, ids: seq<QuarantineId>, failing: set<QuarantineId>): (Disk, bool)
    decreases |ids|
  {
    if ids == [] then (d, true)
    else
      var (d1, ok) := RecoverOne(d, ids[0], ids[0] in failing);
      var (d2, rest) := AfterRecover(d1, ids[1..], failing);
      (d2, ok && rest)
  }

  // ----- when the operations are admitted, and what they come to

  /** Exactly which quarantines are admitted: a regular file, unchanged, under a lab root, not quarantined like this before. */
  lemma {:induction false} QuarantineAdmittedIff(d: Disk, roots: seq<Path>, taskId: string, nonce: string, s: Snapshot)
    ensures QuarantineRefused(d, roots, taskId, nonce, s).None? <==>
              && s.typ == "file" && s.location.Some? && taskId != "" && nonce != ""
              && s.location.value.At? && s.location.value in d.files && (exists root <- roots :: Inside(root, s.location.value.path))
              && d.files[s.location.value].regular && d.files[s.location.value].identity == s.identity
              && Slot(QuarantineId(taskId, nonce, s)) !in d.files && QuarantineId(taskId, nonce, s) !in d.manifests
  {
  }

  /** Exactly which restores are admitted: a committed manifest, the object it names, a vacant place in a directory under a lab root. */
  lemma {:induction false} RestoreAdmittedIff(d: Disk, roots: seq<Path>, id: QuarantineId, s: Snapshot, parentExists: bool)
    ensures RestoreRefused(d, roots, id, s, parentExists).None? <==>
              && id in d.manifests && d.manifests[id].Record?
              && var m := d.manifests[id].manifest;
              && m.status == Committed
              && s.typ == "file" && s.location == Some(Slot(id)) && s.identity == m.snapshot.identity
              && Slot(id) in d.files && d.files[Slot(id)].regular && d.files[Slot(id)].identity == s.identity
              && parentExists && m.original.At? && m.original !in d.files
              && m.original.path != [] && exists root <- roots :: Inside(root, m.original.path[..|m.original.path| - 1])
  {
  }

  /** An admitted quarantine that nothing disturbs moves the file into its slot and commits its manifest. */
  lemma {:induction false} QuarantineCommits(d: Disk, roots: seq<Path>, taskId: string, nonce: string, s: Snapshot)
    requires QuarantineRefused(d, roots, taskId, nonce, s).None?
    ensures var (d', reply) := AfterQuarantine(d, roots, taskId, nonce, s, NO_TROUBLE);
            var id := QuarantineId(taskId, nonce, s);
            && reply.Ok? && reply.value == Manifest(id, s.location.value, s, Committed)
            && d'.manifests == d.manifests[id := Record(reply.value)]
            && Slot(id) in d'.files && d'.files[Slot(id)] == d.files[s.location.value] && s.location.value !in d'.files
            && d'.files - {Slot(id)} == d.files - {s.location.value, Slot(id)}
  {
    var id := QuarantineId(taskId, nonce, s);
    var prepared := Manifest(id, s.location.value, s, Prepared);
    assert d.manifests[id := Record(prepared)][id := Record(prepared.(status := Committed))]
        == d.manifests[id := Record(prepared.(status := Committed))];
  }

  /** A second Restore of what is restored is a success that changes nothing. */
  lemma {:induction false} RestoredAgain(d: Disk, roots: seq<Path>, id: QuarantineId, s: Snapshot, parentExists: bool, t: Trouble)
    requires id in d.manifests && d.manifests[id].Record? && d.manifests[id].manifest.status == Restored
    ensures AfterRestore(d, roots, id, s, parentExists, t) == (d, Ok(d.manifests[id].manifest))
  {
  }

  /** A file that was changed from outside between the check and the rename is put back where it was, as it then is, and nothing is committed. */
  lemma {:induction false} ChangedFileIsPutBack(d: Disk, roots: seq<Path>, taskId: string, nonce: string, s: Snapshot, t: Trouble)
    requires QuarantineRefused(d, roots, taskId, nonce, s).None? && t.cut.Never? && !t.rollbackFails
    requires t.touch.Some? && t.touch.value != s.identity
    ensures var (d', reply) := AfterQuarantine(d, roots, taskId, nonce, s, t);
            && reply == Err(TargetChanged)
            && d'.files == d.files[s.location.value := d.files[s.location.value].(identity := t.touch.value)]
            && d'.manifests == d.manifests[QuarantineId(taskId, nonce, s) := Record(Manifest(QuarantineId(taskId, nonce, s), s.location.value, s, Prepared))]
  {
  }

  /** The same on the way back: the object returns to its slot, and its manifest stays committed. */
  lemma {:induction false} ChangedObjectIsPutBack(d: Disk, roots: seq<Path>, id: QuarantineId, s: Snapshot, parentExists: bool, t: Trouble)
    requires RestoreRefused(d, roots, id, s, parentExists).None? && t.cut.Never? && !t.rollbackFails
    requires t.touch.Some? && t.touch.value != d.manifests[id].manifest.snapshot.identity
    ensures var (d', reply) := AfterRestore(d, roots, id, s, parentExists, t);
            && reply == Err(TargetChanged)
            && d' == d.(files := d.files[Slot(id) := d.files[Slot(id)].(identity := t.touch.value)])
  {
  }

  /** A crash inside the first write of a manifest leaves it torn, nothing moved, and every Recover reports it. */
  lemma {:induction false} TornManifestIsReported(d: Disk, roots: seq<Path>, taskId: string, nonce: string, s: Snapshot, torn: bool)
    requires QuarantineRefused(d, roots, taskId, nonce, s).None?
    ensures var id := QuarantineId(taskId, nonce, s);
            var d' := AfterQuarantine(d, roots, taskId, nonce, s, NO_TROUBLE.(cut := InSaveNew(torn))).0;
            && d'.files == d.files
            && d'.manifests == (if torn then d.manifests[id := Torn] else d.manifests)
            && (torn ==> RecoverOne(d', id, false) == (d', false))
  {
  }

  /** A write that fails in Recover changes nothing and is reported, unless there was nothing to write. */
  lemma {:induction false} FailedWriteIsReported(d: Disk, id: QuarantineId)
    ensures RecoverOne(d, id, true).0 == d
    ensures RecoverOne(d, id, true).1 <==> id in d.manifests && d.manifests[id].Record? && d.manifests[id].manifest.status in {Committed, Restored}
  {
  }

  /** A commit that fails is rolled back: no file has moved, and only the prepared manifest is left of a quarantine, nothing of a restore. */
  lemma {:induction false} FailedCommitRollsBack(d: Disk, roots: seq<Path>, op: Op)
    requires (op.DoQuarantine? || op.DoRestore?) && op.trouble == Trouble(AtCommit, None, false)
    ensures After(d, roots, op).files == d.files
    ensures op.DoRestore? ==> After(d, roots, op) == d
    ensures op.DoQuarantine? ==>
              var id := QuarantineId(op.taskId, op.nonce, op.snapshot);
              After(d, roots, op) == d || After(d, roots, op).manifests == d.manifests[id := Record(Manifest(id, op.snapshot.location.value, op.snapshot, Prepared))]
  {
  }

  // ----- the invariant

  /** Every object is at one path: no two paths hold one inode. */
  ghost predicate Distinct(files: map<Location, Object>) {
    forall a, b | a in files && b in files && a != b :: files[a].identity.inode != files[b].identity.inode
  }

  /** The objects of one disk, all of them, once each, and nothing else, on another. */
  ghost predicate Conserved(before: map<Location, Object>, after: map<Location, Object>) {
    before.Values == after.Values && |before| == |after|
  }

  ghost predicate ManifestOk(id: QuarantineId, m: Manifest) {
    m.id == id && m.snapshot == id.snapshot && m.snapshot.location == Some(m.original) && m.original.At?
  }

  /** A slot is only ever filled by its own manifest's file, and the manifest says so. */
  ghost predicate SlotOk(d: Disk, id: QuarantineId) {
    Slot(id) in d.files ==>
      && id in d.manifests && d.manifests[id].Record?
      && d.manifests[id].manifest.status != Restored
      && Matches(d.files[Slot(id)], id.snapshot)
  }

  ghost predicate Inv(d: Disk) {
    && Distinct(d.files)
    && (forall id <- d.manifests :: d.manifests[id].Record? ==> ManifestOk(id, d.manifests[id].manifest))
    && (forall id :: SlotOk(d, id))
  }

  /** A manifest that says COMMITTED over an empty slot. */
  predicate Hollow(d: Disk, id: QuarantineId) {
    id in d.manifests && d.manifests[id].Record? && d.manifests[id].manifest.status == Committed && Slot(id) !in d.files
  }

  // ----- one operation

  datatype Op =
    | DoQuarantine(taskId: string, nonce: string, snapshot: Snapshot, trouble: Trouble)
    | DoRestore(id: QuarantineId, snapshot: Snapshot, parentExists: bool, trouble: Trouble)
    | DoRecover(ids: seq<QuarantineId>, failing: set<QuarantineId>)

  function After(d: Disk, roots: seq<Path>, op: Op): Disk {
    match op
    case DoQuarantine(taskId, nonce, s, t) => AfterQuarantine(d, roots, taskId, nonce, s, t).0
    case DoRestore(id, s, parentExists, t) => AfterRestore(d, roots, id, s, parentExists, t).0
    case DoRecover(ids, failing) => AfterRecover(d, ids, failing).0
  }

  predicate Undisturbed(op: Op) {
    (op.DoQuarantine? || op.DoRestore?) ==> op.trouble.touch.None?
  }

  /** A Restore that stops between its rename and its manifest, with the rename not rolled back. */
  predicate InterruptedRestore(op: Op) {
    op.DoRestore? && (op.trouble.cut.AfterRename? || (op.trouble.cut.AtCommit? && op.trouble.rollbackFails))
  }

  /** A Restore that was admitted and stopped between its rename and its manifest, with the rename not rolled back. */
  predicate Hollows(d: Disk, roots: seq<Path>, op: Op, id: QuarantineId) {
    InterruptedRestore(op) && op.id == id && RestoreRefused(d, roots, id, op.snapshot, op.parentExists).None?
  }

  lemma {:induction false} MoveConserves(files: map<Location, Object>, from: Location, to: Location)
    requires Distinct(files) && from in files && to !in files
    ensures Distinct(Moved(files, from, to)) && Conserved(files, Moved(files, from, to))
    ensures Moved(Moved(files, from, to), to, from) == files
  {
    SameObjects(files, from, to);
    MoveBack(files, from, to);
  }

  lemma {:induction false} MoveBack(files: map<Location, Object>, from: Location, to: Location)
    requires from in files && to !in files
    ensures Moved(Moved(files, from, to), to, from) == files
  {
  }

  lemma {:induction false} SameObjects(files: map<Location, Object>, from: Location, to: Location)
    requires from in files && to !in files
    ensures Conserved(files, Moved(files, from, to))
  {
    var after := Moved(files, from, to);
    forall o | o in files.Values
      ensures o in after.Values
    {
      var l :| l in files && files[l] == o;
      var at := if l == from then to else l;
      assert at in after && after[at] == o;
    }
    forall o | o in after.Values
      ensures o in files.Values
    {
      var l :| l in after && after[l] == o;
      var at := if l == to then from else l;
      assert at in files && files[at] == o;
    }
    assert after.Keys == files.Keys - {from} + {to};
  }

  lemma {:induction false} WriteManifestKeeps(d: Disk, id: QuarantineId, f: ManifestFile)
    requires Inv(d)
    requires f.Record? ==> ManifestOk(id, f.manifest)
    requires Slot(id) in d.files ==> f.Record? && f.manifest.status != Restored
    ensures Inv(d.(manifests := d.manifests[id := f]))
  {
    var d' := d.(manifests := d.manifests[id := f]);
    forall other
      ensures SlotOk(d', other)
    {
      assert SlotOk(d, other);
    }
  }

  lemma {:induction false} DropManifestKeeps(d: Disk, id: QuarantineId)
    requires Inv(d) && Slot(id) !in d.files
    ensures Inv(d.(manifests := d.manifests - {id}))
  {
    var d' := d.(manifests := d.manifests - {id});
    forall other
      ensures SlotOk(d', other)
    {
      assert SlotOk(d, other);
    }
  }

  lemma {:induction false} MoveInKeeps(d: Disk, id: QuarantineId, source: Location)
    requires Inv(d) && source.At? && source in d.files && Slot(id) !in d.files
    requires id in d.manifests && d.manifests[id].Record? && d.manifests[id].manifest.status != Restored
    requires Matches(d.files[source], id.snapshot)
    ensures var d' := d.(files := Moved(d.files, source, Slot(id))); Inv(d') && Conserved(d.files, d'.files)
  {
    var d' := d.(files := Moved(d.files, source, Slot(id)));
    MoveConserves(d.files, source, Slot(id));
    forall other
      ensures SlotOk(d', other)
    {
      assert SlotOk(d, other);
    }
  }

  lemma {:induction false} MoveOutKeeps(d: Disk, id: QuarantineId, target: Location)
    requires Inv(d) && Slot(id) in d.files && target.At? && target !in d.files
    ensures var d' := d.(files := Moved(d.files, Slot(id), target)); Inv(d') && Conserved(d.files, d'.files)
    ensures Matches(d.files[Slot(id)], id.snapshot)
  {
    var d' := d.(files := Moved(d.files, Slot(id), target));
    assert SlotOk(d, id);
    MoveConserves(d.files, Slot(id), target);
    forall other
      ensures SlotOk(d', other)
    {
      assert SlotOk(d, other);
    }
  }

  lemma {:induction false} QuarantineKeeps(d: Disk, roots: seq<Path>, taskId: string, nonce: string, s: Snapshot, t: Trouble)
    requires Inv(d) && t.touch.None?
    ensures var d' := AfterQuarantine(d, roots, taskId, nonce, s, t).0;
            && Inv(d') && Conserved(d.files, d'.files)
            && forall id :: Hollow(d', id) ==> Hollow(d, id)
  {
    if QuarantineRefused(d, roots, taskId, nonce, s).None? {
      var id := QuarantineId(taskId, nonce, s);
      var prepared := Manifest(id, s.location.value, s, Prepared);
      if t.cut.InSaveNew? {
        WriteManifestKeeps(d, id, Torn);
      } else {
        WriteManifestKeeps(d, id, Record(prepared));
        var d1 := d.(manifests := d.manifests[id := Record(prepared)]);
        MoveInKeeps(d1, id, s.location.value);
        var d2 := d1.(files := Moved(d1.files, s.location.value, Slot(id)));
        var d3 := d2.(manifests := d2.manifests[id := Record(prepared.(status := Committed))]);
        WriteManifestKeeps(d2, id, Record(prepared.(status := Committed)));
        var d' := AfterQuarantine(d, roots, taskId, nonce, s, t).0;
        assert d' == d1 || d' == d2 || d' == d3;
      }
    }
  }

  lemma {:induction false} RestoreKeeps(d: Disk, roots: seq<Path>, id: QuarantineId, s: Snapshot, parentExists: bool, t: Trouble)
    requires Inv(d) && t.touch.None?
    ensures var d' := AfterRestore(d, roots, id, s, parentExists, t).0;
            && Inv(d') && Conserved(d.files, d'.files)
            && (forall other :: Hollow(d', other) && !Hollow(d, other) <==> Hollows(d, roots, DoRestore(id, s, parentExists, t), other))
            && (Hollow(d', id) && !Hollow(d, id) ==>
                  && d'.manifests[id].manifest.original in d'.files
                  && Matches(d'.files[d'.manifests[id].manifest.original], id.snapshot))
  {
    if RestoreRefused(d, roots, id, s, parentExists).None? {
      var m := d.manifests[id].manifest;
      RestoreLeaves(d, roots, id, s, parentExists, t);
      MoveOutKeeps(d, id, m.original);
      var d1 := d.(files := Moved(d.files, Slot(id), m.original));
      WriteManifestKeeps(d1, id, Record(m.(status := Restored)));
    }
  }

  /** The three disks an admitted Restore can leave. */
  lemma {:induction false} RestoreLeaves(d: Disk, roots: seq<Path>, id: QuarantineId, s: Snapshot, parentExists: bool, t: Trouble)
    requires RestoreRefused(d, roots, id, s, parentExists).None? && t.touch.None?
    ensures var d' := AfterRestore(d, roots, id, s, parentExists, t).0;
            var m := d.manifests[id].manifest;
            var d1 := d.(files := Moved(d.files, Slot(id), m.original));
            || d' == d
            || (d' == d1 && InterruptedRestore(DoRestore(id, s, parentExists, t)))
            || d' == d1.(manifests := d1.manifests[id := Record(m.(status := Restored))])
  {
  }

  lemma {:induction false} RecoverKeeps(d: Disk, ids: seq<QuarantineId>, failing: set<QuarantineId>)
    requires Inv(d)
    ensures var d' := AfterRecover(d, ids, failing).0;
            && Inv(d') && d'.files == d.files
            && forall id :: Hollow(d', id) ==> Hollow(d, id)
    decreases |ids|
  {
    if ids != [] {
      var id := ids[0];
      if id in d.manifests && d.manifests[id].Record? {
        WriteManifestKeeps(d, id, Record(d.manifests[id].manifest.(status := Committed)));
        if Slot(id) !in d.files {
          DropManifestKeeps(d, id);
        }
      }
      RecoverKeeps(RecoverOne(d, id, id in failing).0, ids[1..], failing);
    }
  }

  /**
    Conservation: whatever an operation does and wherever it stops, every file
    object is at exactly one path, unchanged, and none is overwritten. COMMITTED
    over an empty slot comes about exactly when an admitted Restore is
    interrupted behind its rename, and then the object is back at its original
    path.
   */
  lemma {:induction false} OperationKeeps(d: Disk, roots: seq<Path>, op: Op)
    requires Inv(d) && Undisturbed(op)
    ensures var d' := After(d, roots, op);
            && Inv(d') && Conserved(d.files, d'.files)
            && forall id ::
                 && (Hollow(d', id) && !Hollow(d, id) <==> Hollows(d, roots, op, id))
                 && (Hollows(d, roots, op, id) ==>
                       && d'.manifests[id].manifest.original in d'.files
                       && Matches(d'.files[d'.manifests[id].manifest.original], id.snapshot))
  {
    match op
    case DoQuarantine(taskId, nonce, s, t) => QuarantineKeeps(d, roots, taskId, nonce, s, t);
    case DoRestore(id, s, parentExists, t) => RestoreKeeps(d, roots, id, s, parentExists, t);
    case DoRecover(ids, failing) => RecoverKeeps(d, ids, failing);
  }

  // ----- every run

  function AfterAll(d: Disk, roots: seq<Path>, ops: seq<Op>): Disk
    decreases |ops|
  {
    if ops == [] then d else AfterAll(After(d, roots, ops[0]), roots, ops[1..])
  }

  /** Over any operations, each stopped anywhere: conservation, and every hollow manifest is the mark of an interrupted Restore. */
  lemma {:induction false} RunConserves(d: Disk, roots: seq<Path>, ops: seq<Op>)
    requires Inv(d) && forall op <- ops :: Undisturbed(op)
    ensures var d' := AfterAll(d, roots, ops);
            && Inv(d') && Conserved(d.files, d'.files)
            && forall id :: Hollow(d', id) ==> Hollow(d, id) || exists op <- ops :: InterruptedRestore(op) && op.id == id
    decreases |ops|
  {
    if ops != [] {
      assert ops[0] in ops;
      OperationKeeps(d, roots, ops[0]);
      RunConserves(After(d, roots, ops[0]), roots, ops[1..]);
      assert forall op <- ops[1..] :: op in ops;
    }
  }

  /** A disk no quarantine has touched. */
  ghost predicate Untouched(d: Disk) {
    d.manifests == map[] && Distinct(d.files) && forall id :: Slot(id) !in d.files
  }

  /**
    From an untouched disk and with no outside writer: after any operations,
    each stopped anywhere, the same objects are on the disk, each at exactly
    one path; every filled slot has its manifest; and a manifest that says
    COMMITTED over an empty slot was left by an interrupted Restore of it.
   */
  lemma {:induction false} NothingIsLost(d: Disk, roots: seq<Path>, ops: seq<Op>)
    requires Untouched(d) && forall op <- ops :: Undisturbed(op)
    ensures var d' := AfterAll(d, roots, ops);
            && Conserved(d.files, d'.files) && Distinct(d'.files)
            && (forall id :: SlotOk(d', id))
            && forall id :: Hollow(d', id) ==> exists op <- ops :: InterruptedRestore(op) && op.id == id
  {
    forall id
      ensures SlotOk(d, id)
    {
    }
    RunConserves(d, roots, ops);
  }

  // ----- recovery

  /** A manifest that Recover has nothing left to do for. */
  predicate Reconciled(d: Disk, id: QuarantineId) {
    id in d.manifests ==> d.manifests[id].Record? && d.manifests[id].manifest.status != Prepared
  }

  /** A prepared manifest whose file is at neither or at both of its places, or is not the file it names. */
  predicate Irreconcilable(d: Disk, id: QuarantineId) {
    id in d.manifests &&
    (d.manifests[id].Torn?
     || var m := d.manifests[id].manifest;
        && m.status == Prepared
        && (m.original in d.files <==> Slot(id) in d.files))
  }

  lemma {:induction false} RecoverOneSettles(d: Disk, id: QuarantineId)
    requires Inv(d) && id in d.manifests
    ensures var (d', ok) := RecoverOne(d, id, false);
            && d'.files == d.files
            && (forall other | other != id :: SameManifest(d, d', other))
            && (ok <==> !Irreconcilable(d, id))
            && (if ok then Reconciled(d', id) else d' == d)
            && Settled(d, d', id)
  {
    assert SlotOk(d, id);
  }

  lemma {:induction false} RecoverOneKeeps(d: Disk, id: QuarantineId)
    requires Inv(d)
    ensures Inv(RecoverOne(d, id, false).0)
  {
    RecoverKeeps(d, [id], {});
    var d1 := RecoverOne(d, id, false).0;
    assert AfterRecover(d1, [], {}).0 == d1;
  }

  /**
    The verdict of Recover on one manifest, and the manifest afterwards: one that
    cannot be reconciled or needs nothing stays; a prepared one is committed if
    its file is in the slot, and dropped if the file never left.
   */
  ghost predicate Settled(before: Disk, after: Disk, id: QuarantineId) {
    if Irreconcilable(before, id) || id !in before.manifests || before.manifests[id].manifest.status != Prepared then
      SameManifest(before, after, id)
    else if Slot(id) in before.files then
      id in after.manifests && after.manifests[id] == Record(before.manifests[id].manifest.(status := Committed))
    else id !in after.manifests
  }

  ghost predicate SameManifest(before: Disk, after: Disk, id: QuarantineId) {
    (id in after.manifests <==> id in before.manifests) && (id in before.manifests ==> after.manifests[id] == before.manifests[id])
  }

  /**
    An uninterrupted Recover without I/O errors reconciles every manifest it
    can and reports the rest: it succeeds exactly when no manifest is torn or
    irreconcilable, and then none is left in PREPARED; it never moves a file.
   */
  lemma {:induction false} RecoverReconcilesOrReports(d: Disk, ids: seq<QuarantineId>)
    requires Inv(d) && (forall id <- ids :: id in d.manifests) && (forall i, j | 0 <= i < j < |ids| :: ids[i] != ids[j])
    ensures AfterRecover(d, ids, {}).0.files == d.files
    ensures AfterRecover(d, ids, {}).1 <==> forall id <- ids :: !Irreconcilable(d, id)
    ensures forall id <- ids :: Settled(d, AfterRecover(d, ids, {}).0, id)
    ensures forall id | id !in ids :: SameManifest(d, AfterRecover(d, ids, {}).0, id)
    decreases |ids|
  {
    if ids != [] {
      var head, tail := ids[0], ids[1..];
      assert head in ids && head !in tail && forall id :: id in ids <==> id == head || id in tail;
      var d1 := RecoverOne(d, head, false).0;
      RecoverOneSettles(d, head);
      RecoverOneKeeps(d, head);
      forall id | id in tail
        ensures id in d1.manifests && (Irreconcilable(d1, id) <==> Irreconcilable(d, id))
      {
      }
      RecoverReconcilesOrReports(d1, tail);
      var d2 := AfterRecover(d1, tail, {}).0;
      assert AfterRecover(d, ids, {}).0 == d2;
      assert SameManifest(d1, d2, head);
      forall id | id in tail
        ensures Settled(d, d2, id)
      {
        assert Settled(d1, d2, id) && SameManifest(d, d1, id);
      }
      forall id | id !in ids
        ensures SameManifest(d, d2, id)
      {
        assert SameManifest(d1, d2, id) && SameManifest(d, d1, id);
      }
    }
  }

  // ----- undoing

  /** Restore undoes Quarantine: with a matching snapshot of the quarantined object every path holds what it held before. */
  lemma {:induction false} RestoreUndoesQuarantine(d: Disk, roots: seq<Path>, taskId: string, nonce: string, s: Snapshot, again: Snapshot)
    requires Inv(d) && AfterQuarantine(d, roots, taskId, nonce, s, NO_TROUBLE).1.Ok?
    requires again.typ == "file" && again.location == Some(Slot(QuarantineId(taskId, nonce, s))) && again.identity == s.identity
    requires s.location.value.path !in roots && CleanPath(s.location.value.path) && forall root <- roots :: CleanPath(root)
    ensures var id := QuarantineId(taskId, nonce, s);
            var d1 := AfterQuarantine(d, roots, taskId, nonce, s, NO_TROUBLE).0;
            var (d2, reply) := AfterRestore(d1, roots, id, again, true, NO_TROUBLE);
            && Slot(id) in d1.files && s.location.value !in d1.files
            && reply.Ok? && reply.value.status == Restored
            && d2 == Disk(d.files, d.manifests[id := Record(reply.value)])
  {
    QuarantineAtOnce(d, roots, taskId, nonce, s);
    QuarantineChecked(d, roots, taskId, nonce, s);
    RestoreFromSlot(d, roots, QuarantineId(taskId, nonce, s), s.location.value, s, again);
  }

  /** The committed disk, restored. */
  lemma {:induction false} RestoreFromSlot(d: Disk, roots: seq<Path>, id: QuarantineId, source: Location, s: Snapshot, again: Snapshot)
    requires source.At? && source in d.files && Slot(id) !in d.files && Matches(d.files[source], s)
    requires again.typ == "file" && again.location == Some(Slot(id)) && again.identity == s.identity
    requires source.path != [] && WithinAny(source.path[..|source.path| - 1], roots)
    ensures var committed := Manifest(id, source, s, Committed);
            var d1 := Disk(Moved(d.files, source, Slot(id)), d.manifests[id := Record(committed)]);
            var restored := committed.(status := Restored);
            AfterRestore(d1, roots, id, again, true, NO_TROUBLE) == (Disk(d.files, d.manifests[id := Record(restored)]), Ok(restored))
  {
    var committed := Manifest(id, source, s, Committed);
    var d1 := Disk(Moved(d.files, source, Slot(id)), d.manifests[id := Record(committed)]);
    var restored := committed.(status := Restored);
    RestoreAdmitted(d1, roots, id, committed, again);
    RestoreAtOnce(d1, roots, id, committed, again);
    MoveBack(d.files, source, Slot(id));
    assert d.manifests[id := Record(committed)][id := Record(restored)] == d.manifests[id := Record(restored)];
  }

  /** What Quarantine has checked, for the Restore. */
  lemma {:induction false} QuarantineChecked(d: Disk, roots: seq<Path>, taskId: string, nonce: string, s: Snapshot)
    requires QuarantineRefused(d, roots, taskId, nonce, s).None?
    requires s.location.value.path !in roots && CleanPath(s.location.value.path) && forall root <- roots :: CleanPath(root)
    ensures var path := s.location.value.path; path != [] && WithinAny(path[..|path| - 1], roots)
  {
    ParentInLab(s.location.value.path, roots);
  }

  lemma {:induction false} QuarantineAtOnce(d: Disk, roots: seq<Path>, taskId: string, nonce: string, s: Snapshot)
    requires QuarantineRefused(d, roots, taskId, nonce, s).None?
    ensures var id := QuarantineId(taskId, nonce, s);
            var committed := Manifest(id, s.location.value, s, Committed);
            AfterQuarantine(d, roots, taskId, nonce, s, NO_TROUBLE)
              == (Disk(Moved(d.files, s.location.value, Slot(id)), d.manifests[id := Record(committed)]), Ok(committed))
  {
    var id := QuarantineId(taskId, nonce, s);
    var prepared := Manifest(id, s.location.value, s, Prepared);
    assert d.manifests[id := Record(prepared)][id := Record(prepared.(status := Committed))]
        == d.manifests[id := Record(prepared.(status := Committed))];
  }

  /** The parent of a file in a lab root is in that root too; a root itself is a directory. */
  lemma {:induction false} ParentInLab(path: Path, roots: seq<Path>)
    requires CleanPath(path) && (forall root <- roots :: CleanPath(root)) && path !in roots && WithinAny(path, roots)
    ensures path != [] && WithinAny(path[..|path| - 1], roots)
  {
    var root :| root in roots && Inside(root, path);
    InsideIsPrefix(root, path);
    var parent := path[..|path| - 1];
    assert root != path;
    assert root == path[..|root|] == parent[..|root|];
    InsideIsPrefix(root, parent);
  }

  lemma {:induction false} RestoreAdmitted(d1: Disk, roots: seq<Path>, id: QuarantineId, m: Manifest, s: Snapshot)
    requires id in d1.manifests && d1.manifests[id] == Record(m) && m.status == Committed && m.original.At?
    requires s.typ == "file" && s.location == Some(Slot(id)) && s.identity == m.snapshot.identity
    requires Slot(id) in d1.files && Matches(d1.files[Slot(id)], m.snapshot) && m.original !in d1.files
    requires m.original.path != [] && WithinAny(m.original.path[..|m.original.path| - 1], roots)
    ensures RestoreRefused(d1, roots, id, s, true).None?
  {
  }

  lemma {:induction false} RestoreAtOnce(d1: Disk, roots: seq<Path>, id: QuarantineId, m: Manifest, s: Snapshot)
    requires RestoreRefused(d1, roots, id, s, true).None? && d1.manifests[id] == Record(m) && Matches(d1.files[Slot(id)], m.snapshot)
    ensures AfterRestore(d1, roots, id, s, true, NO_TROUBLE)
         == (Disk(Moved(d1.files, Slot(id), m.original), d1.manifests[id := Record(m.(status := Restored))]), Ok(m.(status := Restored)))
  {
  }

  /** One task, nonce and snapshot are quarantined once: while the manifest file exists, in whatever state, a second call changes nothing. */
  lemma {:induction false} QuarantinedOnce(d: Disk, roots: seq<Path>, taskId: string, nonce: string, s: Snapshot, t: Trouble)
    requires QuarantineId(taskId, nonce, s) in d.manifests
    ensures AfterQuarantine(d, roots, taskId, nonce, s, t).0 == d && AfterQuarantine(d, roots, taskId, nonce, s, t).1.Err?
  {
    assert QuarantineRefused(d, roots, taskId, nonce, s).Some?;
  }

  /** A hollow manifest is stuck: neither Recover nor Restore changes it. */
  lemma {:induction false} HollowIsStuck(d: Disk, roots: seq<Path>, id: QuarantineId, s: Snapshot, parentExists: bool, t: Trouble)
    requires Hollow(d, id)
    ensures RecoverOne(d, id, false) == (d, true)
    ensures AfterRestore(d, roots, id, s, parentExists, t).0 == d && AfterRestore(d, roots, id, s, parentExists, t).1.Err?
  {
    assert RestoreRefused(d, roots, id, s, parentExists).Some?;
  }

  lemma {:induction false} RecoverLeavesHollow(d: Disk, ids: seq<QuarantineId>, failing: set<QuarantineId>, id: QuarantineId)
    requires Hollow(d, id)
    ensures Hollow(AfterRecover(d, ids, failing).0, id)
    decreases |ids|
  {
    if ids != [] {
      RecoverLeavesHollow(RecoverOne(d, ids[0], ids[0] in failing).0, ids[1..], failing, id);
    }
  }

  lemma {:induction false} OperationLeavesHollow(d: Disk, roots: seq<Path>, op: Op, id: QuarantineId)
    requires Hollow(d, id)
    ensures Hollow(After(d, roots, op), id) && After(d, roots, op).manifests[id] == d.manifests[id]
  {
    match op
    case DoQuarantine(taskId, nonce, s, t) =>
      if QuarantineId(taskId, nonce, s) == id {
        QuarantinedOnce(d, roots, taskId, nonce, s, t);
      }
    case DoRestore(other, s, parentExists, t) =>
      if other == id {
        HollowIsStuck(d, roots, id, s, parentExists, t);
      }
    case DoRecover(ids, failing) =>
      RecoverLeavesHollow(d, ids, failing, id);
      RecoverLeavesRecord(d, ids, failing, id);
  }

  lemma {:induction false} RecoverLeavesRecord(d: Disk, ids: seq<QuarantineId>, failing: set<QuarantineId>, id: QuarantineId)
    requires id in d.manifests && d.manifests[id].Record? && d.manifests[id].manifest.status == Committed
    ensures id in AfterRecover(d, ids, failing).0.manifests && AfterRecover(d, ids, failing).0.manifests[id] == d.manifests[id]
    decreases |ids|
  {
    if ids != [] {
      RecoverLeavesRecord(RecoverOne(d, ids[0], ids[0] in failing).0, ids[1..], failing, id);
    }
  }

  /** A hollow manifest stays as it is for good, over any operations, outside writes included. */
  lemma {:induction false} HollowForGood(d: Disk, roots: seq<Path>, ops: seq<Op>, id: QuarantineId)
    requires Hollow(d, id)
    ensures Hollow(AfterAll(d, roots, ops), id) && AfterAll(d, roots, ops).manifests[id] == d.manifests[id]
    decreases |ops|
  {
    if ops != [] {
      OperationLeavesHollow(d, roots, ops[0], id);
      HollowForGood(After(d, roots, ops[0]), roots, ops[1..], id);
    }
  }

  // ----- the manager itself

  class Manager {
    const roots: seq<Path>
    var files: map<Location, Object>
    var manifests: map<QuarantineId, ManifestFile>

    constructor (roots: seq<Path>, d: Disk)
      ensures this.roots == roots && Now() == d
    {
      this.roots := roots;
      files, manifests := d.files, d.manifests;
    }

    function Now(): Disk
      reads this
    {
      Disk(files, manifests)
    }

    method Rename(from: Location, to: Location)
      requires from in files
      modifies this`files
      ensures files == Moved(old(files), from, to)
    {
      files := (files - {from})[to := files[from]];
    }

    /** What an outside writer does to a file between the check and the rename, if anything. */
    method OutsideWrite(at: Location, touch: Option<Identity>)
      requires at in files
      modifies this`files
      ensures files == Touched(old(files), at, touch)
    {
      if touch.Some? {
        files := files[at := files[at].(identity := touch.value)];
      }
    }

    method Quarantine(taskId: string, nonce: string, expected: Snapshot, t: Trouble) returns (r: Result<Manifest, Error>)
      modifies this
      ensures Now() == AfterQuarantine(old(Now()), roots, taskId, nonce, expected, t).0
      ensures r == AfterQuarantine(old(Now()), roots, taskId, nonce, expected, t).1
    {
      if expected.typ != "file" || expected.location.None? || taskId == "" || nonce == "" {
        return Err(Incomplete);
      }
      var source := expected.location.value;
      if source !in files {
        return Err(NotFound);
      }
      if !InLab(source, roots) {
        return Err(OutsideLab);
      }
      if !Matches(files[source], expected) {
        return Err(TargetChanged);
      }
      var id := QuarantineId(taskId, nonce, expected);
      if Slot(id) in files {
        return Err(ObjectExists);
      }
      if id in manifests {
        return Err(ManifestExists);
      }
      if t.cut.InSaveNew? {
        if t.cut.torn {
          manifests := manifests[id := Torn];
        }
        return Err(Io);
      }
      var manifest := Manifest(id, source, expected, Prepared);
      manifests := manifests[id := Record(manifest)];
      if t.cut.BeforeRename? {
        return Err(Io);
      }
      ghost var before := files;
      OutsideWrite(source, t.touch);
      Rename(source, Slot(id));
      if t.cut.AfterRename? {
        return Err(Io);
      }
      assert Moved(files, Slot(id), source) == Touched(before, source, t.touch);
      if !Matches(files[Slot(id)], expected) {
        if !t.rollbackFails {
          Rename(Slot(id), source);
        }
        return Err(TargetChanged);
      }
      if t.cut.AtCommit? {
        if !t.rollbackFails {
          Rename(Slot(id), source);
        }
        return Err(Io);
      }
      manifest := manifest.(status := Committed);
      manifests := manifests[id := Record(manifest)];
      return if t.cut.AfterCommit? then Err(Io) else Ok(manifest);
    }

    method Restore(id: QuarantineId, expected: Snapshot, parentExists: bool, t: Trouble) returns (r: Result<Manifest, Error>)
      modifies this
      ensures Now() == AfterRestore(old(Now()), roots, id, expected, parentExists, t).0
      ensures r == AfterRestore(old(Now()), roots, id, expected, parentExists, t).1
    {
      if id !in manifests {
        return Err(NotFound);
      }
      if manifests[id].Torn? {
        return Err(TornManifest);
      }
      var manifest := manifests[id].manifest;
      if manifest.status == Restored {
        return Ok(manifest);
      }
      var refused := RestoreRefused(Now(), roots, id, expected, parentExists);
      if refused.Some? {
        return Err(refused.value);
      }
      if t.cut.InSaveNew? || t.cut.BeforeRename? {
        return Err(Io);
      }
      ghost var before := files;
      OutsideWrite(Slot(id), t.touch);
      Rename(Slot(id), manifest.original);
      if t.cut.AfterRename? {
        return Err(Io);
      }
      assert Moved(files, manifest.original, Slot(id)) == Touched(before, Slot(id), t.touch);
      if !Matches(files[manifest.original], manifest.snapshot) {
        if !t.rollbackFails {
          Rename(manifest.original, Slot(id));
        }
        return Err(TargetChanged);
      }
      if t.cut.AtCommit? {
        if !t.rollbackFails {
          Rename(manifest.original, Slot(id));
        }
        return Err(Io);
      }
      manifest := manifest.(status := Restored);
      manifests := manifests[id := Record(manifest)];
      return if t.cut.AfterCommit? then Err(Io) else Ok(manifest);
    }

    method Recover(ids: seq<QuarantineId>, failing: set<QuarantineId>) returns (ok: bool)
      modifies this
      ensures Now() == AfterRecover(old(Now()), ids, failing).0
      ensures ok == AfterRecover(old(Now()), ids, failing).1
    {
      ok := true;
      var k := 0;
      assert ids[0..] == ids;
      while k < |ids|
        invariant 0 <= k <= |ids|
        invariant AfterRecover(old(Now()), ids, failing).0 == AfterRecover(Now(), ids[k..], failing).0
        invariant AfterRecover(old(Now()), ids, failing).1 == (ok && AfterRecover(Now(), ids[k..], failing).1)
      {
        var id := ids[k];
        ghost var before := Now();
        assert ids[k..][1..] == ids[k + 1..];
        if id !in manifests || manifests[id].Torn? {
          ok := false;
        } else if manifests[id].manifest.status == Prepared {
          var m := manifests[id].manifest;
          var source, slot := m.original in files, Slot(id) in files;
          if source && !slot && id !in failing {
            manifests := manifests - {id};
          } else if !source && slot && Matches(files[Slot(id)], m.snapshot) && id !in failing {
            manifests := manifests[id := Record(m.(status := Committed))];
          } else {
            ok := false;
          }
        }
        assert Now() == RecoverOne(before, id, id in failing).0;
        k := k + 1;
      }
    }
  }
}
