# SafeOps: durable protocols, verified

SafeOps is an operations agent. A language model plans; a server keeps tasks,
traces and approvals on disk; a separate privileged process executes the few
actions that change the machine. Everything that makes this safe is a small
durable protocol: a record is loaded, checked, replaced by an atomic rename, and
either process may die between any two of these steps. This project models those
protocols over an explicit disk state and proves what they keep over every run.

The modules follow the program's packages.

| module | what it is |
|---|---|
| `Wrappers`, `Contracts`, `Tasks` | optional values, save faults, the signed envelope and its binding, tasks and sessions |
| `Paths`, `Ordering` | path cleaning, the textual containment test, comparison and sorting of paths |
| `Guard` | the composition of the safety pipeline |
| `Approval`, `Nonce`, `Validator` | the approval records, the nonce file, the executor's checks and its order of effects |
| `Protocol` | server and executor as one state machine with no common lock |
| `Preparer` | how the agent builds envelope, binding and approval |
| `FileStore` | fenced worker leases and the two-record journal |
| `Trace` | the hash-chained log, its head file and its recovery |
| `Quarantine` | manifests around atomic renames |
| `Resume` | resuming approved tasks, recovering unfinished ones |
| `Reducer`, `General` | the persisted budgets and the bounded agent loop |
| `Walk`, `FileScan` | the bounded tree walk and the readers built on it |
| `Hub` | numbered events, replay window, bounded channels |
| `ReadScope`, `Search` | the read-scope validator, the two phrase searches |
| `ManagedRoots` | the roots the server may manage, against the executor's scope |

Imperative code is modelled by classes and loops that are proved against
functions of the old state; the theorems are about those functions, over all
inputs, all interleavings, all crash points and all runs. Digests, signatures and
hashes are free constructors, so "equal hashes mean equal contents" is a property
of the model's data type and is not assumed as an axiom about byte strings.

Save faults are explicit. `BeforeRename` leaves the old file, `AfterRename` leaves
the new file although the call reports an error, and a crash is a run that stops
between two writes. Clock readings, fresh names, answers of the planner, of tools
and of the operator, and the surroundings of the executor (scope, target state,
policy tables) are parameters.

## What the code does where one might expect otherwise

The model follows the code. Where that differs from what a reader may take for
granted, a lemma names the case exactly.

- CONSUMED is not a final status: a `Resolve` after expiry rewrites it as EXPIRED
  (`Approval.ConsumedIsOverwritten`). What holds is that nothing leads back to
  PENDING or APPROVED (`Protocol.SettledForever`).
- At the very instant of expiry `Resolve` says expired while `Consume` still
  succeeds (`Approval.ExpiryBoundary`).
- The nonce does not stop a replay on its own, because `Reserve` prunes with a
  later clock reading than the validator used (`Validator.NonceAloneAllowsReplay`).
  At-most-once execution rests on `Consume` (`Protocol.HandlerRunsAtMostOnce`).
- A failed `Prepare` can leave an approval that may still be granted or spent, in
  exactly three ways: `Create` published its record before it reported failure; the
  withdrawing `Resolve`, whose error is discarded, did not save
  (`Preparer.WithdrawalCanBeLost`); or the operator, who sees the record as soon as it
  is on disk, had already approved it, and an approval cannot be withdrawn
  (`Preparer.VerdictOutlivesFailure`). `Preparer.ActionPreparer.Prepare` says that there
  is no fourth.
- A `PrepareTask` that fails in a live process leaves a journal, and the next start
  replays it over newer data: over claims (`FileStore.FailedPrepareRollsBackClaim`,
  exactly when: `FileStore.ReopenKeepsFence`; a worker that lost its task can then save
  again, exactly when: `FileStore.StaleSaveRefusedIff`), and over the session of a later task,
  whose message is then lost (`FileStore.LeftoverJournalDropsMessage`, exactly when:
  `FileStore.MessageSurvivesIff`).
- The trace is tamper-evident in its events, not in its bytes: a line is decoded and
  the decoded fields are hashed, so an edit passes verification exactly when every
  line still decodes to the same event (`Trace.EditPassesIff`, `Trace.BlankEditPasses`).
- A `Restore` interrupted between its rename and its manifest leaves COMMITTED over
  an empty slot, and no later operation ever changes that again
  (`Quarantine.HollowForGood`); the file itself is safe (`Quarantine.OperationKeeps`).
- A worker that dies while its task already waits for approval leaves its lease on
  it; once the lease has expired the approved action can no longer be started
  (`Resume.LeftoverLeaseStrandsApproval`).
- Two resumers that have loaded the task of one approval both call the executor
  (`Resume.TwoLoadedCallTwice`, exactly when: `Resume.BeginIsSafeIff`); the executor's
  one-time consumption is then what keeps the handler from running twice. Resumers of
  different approvals may run side by side.
- A client that subscribes with event number zero is never told of a gap, even when
  the start of the log is gone (`Hub.FreshClientsAreNotTold`).
- The evidence search skips a whole failed occurrence. It is exact for a reference
  precisely when that reference does not overlap itself behind a character that is
  not a reference character (`Search.SkippingIsExactIff`); the system's own
  references are of the exact kind (`Search.TraceReferencesAreExact`).
- `Usage` reports truncation for too many entries only, never for depth
  (`FileScan.MeasureUsage`).

## Model

| member | source | states |
|---|---|---|
| `Contracts.SignedOrRefused` | contracts/envelope.go:59-92 | with the signature of one envelope no other one verifies: a change of any field breaks it |
| `Contracts.TargetsAgreeIff` | contracts/action.go:96-98 | two targets agree exactly when type and identifier do, but for letter case and blanks at the ends |
| `Guard.EvaluateMeans` | internal/guard/pipeline.go:22-50 | exactly which proposals are denied, allowed, and made to wait for approval, whichever stage decides; and what risk and intent are then reported |
| `Approval.DecisionsPreserve` | internal/approval/store.go:123-200 | whatever is written keeps identity, binding and expiry; only a live pending record becomes approved; a settled one can only become EXPIRED |
| `Approval.VerdictStandsIff` | internal/approval/store.go:123-154 | a verdict stands exactly when it comes before the expiry and no other one was given; a second one alike is a success that writes nothing; and what is written in each case |
| `Approval.ReadingExpiresIff` | internal/approval/store.go:155-162 | a read expires a record exactly when it is pending and overdue, and shows what is then stored |
| `Approval.SpendableIff` | internal/approval/store.go:163-200 | a record can be spent exactly when it is approved for the identical binding and its expiry has not passed |
| `Approval.ReportedIsStored` | internal/approval/store.go:222-265 | a decision that is reported as a success is on disk, and a reported failure has changed the directory only if its save broke off behind the rename |
| `Approval.NewRecordMeans` | internal/approval/store.go:61-76 | a new record is pending for exactly the lifetime asked for, ten minutes by default |
| `Approval.ActsTakeEffect` | internal/approval/store.go:77-200 | a verdict, a read and a consumption have their effect on the stored record whenever their save gets as far as its rename, and none otherwise |
| `Approval.ExpiryBoundary` | internal/approval/store.go:134-191 | an approved record is expired for Resolve and usable for Consume at the same reading exactly when the clock equals its expiry |
| `Approval.ConsumedIsOverwritten` | internal/approval/store.go:134-138 | Resolve rewrites a CONSUMED record as EXPIRED exactly from its expiry on |
| `Approval.Store.Create` | internal/approval/store.go:61-76 | an incomplete binding is refused without a write; otherwise a pending record with the asked or the default lifetime is saved, and reported only if the save was clean |
| `Approval.Store.Get` | internal/approval/store.go:77-91 | a read expires an overdue pending record and touches nothing else |
| `Approval.SweepAt` | internal/approval/store.go:92-162 | a scan changes a record once, when its turn comes, and only if it is pending and overdue at its own clock reading |
| `Approval.Store.List` | internal/approval/store.go:92-122 | the directory after the names scanned so far, each with its own two clock readings; a scan that fails stops at a prefix, a complete one returns every record as swept, newest first |
| `Approval.Store.Resolve` | internal/approval/store.go:123-154 | the effect on the directory and the reply for every status, expiry first, idempotent for the same verdict |
| `Approval.Store.Validate` | internal/approval/store.go:163-180 | accepts only an unexpired, approved record with the identical binding, and writes nothing |
| `Approval.Store.Consume` | internal/approval/store.go:181-200 | the checks of Validate, then one write to CONSUMED; success only if that write was clean |
| `Nonce.ReplayRefusedUntilExpiry` | internal/executor/nonce.go:33-54 | after a successful Reserve, over any calls, failed saves and restarts, the nonce is refused at every reading up to its expiry and accepted at the first one past it |
| `Nonce.HeldUntilExpiry` | internal/executor/nonce.go:33-54 | until then it stays both in memory and in the file |
| `Nonce.ReservedIff` | internal/executor/nonce.go:33-54 | a nonce is taken exactly when it is not blank, no unexpired entry holds it and the save is clean; what memory and file hold after every outcome |
| `Nonce.NonceStore.Prune` | internal/executor/nonce.go:39-44 | the loop forgets exactly the entries whose expiry has passed |
| `Nonce.NonceStore.Reserve` | internal/executor/nonce.go:33-54 | the new map in memory and on disk for every outcome, a failed save included |
| `Validator.CheckIff` | internal/executor/validator.go:39-113 | the chain of checks accepts exactly the envelopes that carry the signature, belong together, are tolerated by the policy with the same risk and intent, and are alive; it rebuilds the one binding that describes the envelope |
| `Validator.AcceptsIff` | internal/executor/validator.go:39-129 | the same for acceptance as a whole, with the approval, the scope, the target and the nonce |
| `Validator.Executor.Validate` | internal/executor/validator.go:39-129 | accepts exactly when the checks pass, a needed approval stands, scope and target agree and the nonce is reserved; a call refused for any other reason uses no nonce up |
| `Validator.Executor.Execute` | internal/executor/executor.go:55-70 | succeeds exactly when a handler exists, the envelope is signed, coherent, warranted by the policy and alive, a needed approval stands and is spent by this call, scope and target agree and the nonce is free and stored; then, and only then, the handler runs, last |
| `Validator.NonceAloneAllowsReplay` | internal/executor/validator.go:44-125 | a second call checked before the expiry gets past the nonce exactly when Reserve reads the clock after it |
| `Validator.BindingDeterminesAction` | internal/executor/validator.go:39-113 | envelopes that pass the checks and rebuild one binding carry the same action, task, session, risk and nonce |
| `Protocol.StepKeepsInv` | internal/approval/store.go:123-200 | every load, decision, save and crash of either process keeps the invariant: what the server is about to approve is still pending, what Consume is about to spend is unspent, a spent approval has at most one call entitled to use it |
| `Protocol.ServerSaveKeepsInv` | internal/approval/store.go:222-265 | a save from a record loaded earlier, with the other process moving in between, revives no settled approval |
| `Protocol.SaveConsumeKeepsInv` | internal/approval/store.go:181-200 | the save of a Consume settles the record and hands the approval to one call, whichever way the save ends |
| `Protocol.HandlerRunsAtMostOnce` | internal/executor/executor.go:55-70 | over every interleaving of server and executor, with crashes, failed saves and replayed envelopes: at most one handler run per approval, and only after that approval was granted for the identical binding |
| `Protocol.RanWasFit` | internal/executor/validator.go:39-129 | over the same runs: whatever ran was signed with the secret, coherent, tolerated by the policy with matching risk and intent, meant for a handler there is, accepted at a step at which it was alive, and cleared by scope, target and a stored nonce |
| `Protocol.GrantedByVerdict` | internal/approval/store.go:123-154 | over the same runs: whatever counts as granted was approved at one step by a verdict on the record while it was pending and in time, and published at another |
| `Protocol.RefusalsEndCalls` | internal/executor/executor.go:55-70 | a call refused by the approval, the scope, the target, the nonce or the consumption is over |
| `Protocol.PassingCallsGoOn` | internal/executor/validator.go:100-129 | a call that passes the approval goes on, and one that passes the nonce holds it in memory and on disk |
| `Protocol.CrashesForget` | internal/executor/nonce.go:20-32 | a crash of either process loses what it has in hand and nothing that is stored |
| `Protocol.RanActionWasGranted` | internal/executor/executor.go:55-70 | over the same runs: what the policy wants approved never ran without an approval, and what ran is the action the approval on record describes, not merely one with its identifier |
| `Protocol.SettledForever` | internal/approval/store.go:123-200 | an approval that is rejected, consumed or expired at some point of a run is never pending or approved after it |
| `Protocol.ApprovedEnvelopeRuns` | internal/executor/executor.go:55-70 | the bound is reached: any envelope that passes the checks and needs an approval has a run in which it is granted and executed |
| `Preparer.PreparableIff` | internal/agent/action_preparer.go:38-101 | exactly which proposals get as far as an approval |
| `Preparer.AskedIsSealed` | internal/agent/action_preparer.go:102-109 | the binding put to the operator describes the envelope that is sealed, and the approval never outlives it |
| `Preparer.SealedSays` | internal/agent/action_preparer.go:102-118 | every field of the sealed envelope, and that it is sealed exactly under a secret of 32 bytes or more |
| `Preparer.PreparedEnvelopeAccepted` | internal/agent/action_preparer.go:38-133 | the binding the agent asks to approve is the one the executor rebuilds, and the executor accepts the envelope exactly while it is alive, within the maximum lifetime, approved, in scope, on an unchanged target and with an unused nonce |
| `Preparer.BoundComponentsAreFixed` | internal/executor/validator.go:100-129 | an envelope that differs from the approved one in any bound component is refused, even if it is correctly signed |
| `Preparer.ActionPreparer.Screen` | internal/agent/action_preparer.go:38-101 | passes exactly when no reason to refuse exists and the trace took every event |
| `Preparer.ActionPreparer.Seal` | internal/agent/action_preparer.go:109-133 | on success the stored task waits with the signed envelope and the approval is untouched; on failure a pending approval is rejected, an overdue one expired, and one already judged stays, each unless the withdrawal itself was not saved; the task directory is determined for every way it can fail |
| `Preparer.ActionPreparer.Prepare` | internal/agent/action_preparer.go:38-133 | exactly when it succeeds; then the stored task waits for the approval, which is as others left it, with the agreed binding; exactly when a failure leaves an approval that can still be granted or spent, whatever is read, judged or consumed in the meantime |
| `Preparer.WithdrawalCanBeLost` | internal/agent/action_preparer.go:113-131 | any call that succeeds becomes one that leaves such an approval if its task save and its withdrawal both fail before their rename |
| `Preparer.VerdictOutlivesFailure` | internal/agent/action_preparer.go:125-131 | any call that could have succeeded leaves an APPROVED record if the operator approves it before the last trace append fails: no write of the approval has to fail for that |
| `FileStore.OpKeepsFence` | internal/storage/file.go:145-205 | no save, claim or release lowers a task's fence; a stored claim raises it by one |
| `FileStore.ClaimAcceptedIff` | internal/storage/file.go:163-186 | a named worker's claim is accepted exactly when nobody holds the task, that is, it is unclaimed, released or its lease has expired; the lease then ends when asked, and nothing else of the task changes |
| `FileStore.OtherClaimsRefused` | internal/storage/file.go:163-186 | a claim without a name or a token, for no time or too long, or of a task there is not, is refused |
| `FileStore.LostWorkerIsReplaced` | internal/storage/file.go:163-186 | behind a stored claim the next one is accepted exactly from the end of the first lease on |
| `FileStore.SaveAcceptedIff` | internal/storage/file.go:273-288 | a save is accepted exactly for a new task, an unclaimed one that is not newer, or one held by the one who saves |
| `FileStore.ReleaseAcceptedIff` | internal/storage/file.go:187-205 | a release is accepted exactly from the holder, expired or not, and frees the task at once |
| `FileStore.OpWrites` | internal/storage/file.go:225-261 | an operation writes its own task only, and nothing unless it is accepted and its save reaches the rename |
| `FileStore.StaleSaveRefused` | internal/storage/file.go:273-288 | once a claim is stored, no save with an earlier fence is accepted again over any saves, claims and releases, with or without a token |
| `FileStore.StaleSaveRefusedIff` | internal/storage/file.go:95-320 | the same over any run, tasks prepared and interrupted restarts included: every continuation refuses such saves exactly when no journal left over the task is behind the claim |
| `FileStore.LiveLeaseIsExclusive` | internal/storage/file.go:163-288 | while a lease lives a save is accepted exactly with its token and fence and a second claim is refused; once it has expired, no save is accepted |
| `FileStore.InterruptionAbsorbed` | internal/storage/file.go:292-320 | a recovery interrupted after any number of writes and started again ends like one that was never interrupted, for any set of journals, invalid ones included |
| `FileStore.OpensIff` | internal/storage/file.go:292-320 | the store opens exactly when every journal has the known schema and names one task and its own session |
| `FileStore.ReopenIsRecover` | internal/storage/file.go:292-320 | the same for any number of interrupted starts |
| `FileStore.PrepareIsAtomic` | internal/storage/file.go:95-144 | on any store, leftover journals of other calls included, after a crash behind any write and any interrupted recoveries: no journal is left, and either the call was never made or its task is installed; every other task is what it was or what its journal says, every session what the last journal over it says |
| `FileStore.PrepareAlone` | internal/storage/file.go:95-144 | without leftover journals: either nothing changed or exactly the task and its session are installed, one message bound to the task, nothing else touched |
| `FileStore.PreparedStepByStep` | internal/storage/file.go:95-144 | the order of the four writes: journal, task, session, journal removed |
| `FileStore.ReplayedStepByStep` | internal/storage/file.go:292-320 | the order of the three writes of a replay: task, session, journal removed |
| `FileStore.RequestInstallsOneMessage` | internal/agent/orchestrator.go:77-94 | a request is accepted exactly when its session has no message for that task yet; it is put behind the others |
| `FileStore.RecoveredTasks` | internal/storage/file.go:292-320 | what a complete recovery makes of every task, journal by journal |
| `FileStore.RecoveredSessions` | internal/storage/file.go:292-320 | what it makes of every session: the copy in the last journal over it, or what was stored |
| `FileStore.MessageSurvivesIff` | internal/storage/file.go:292-320 | the one message of a task survives a recovery exactly when no journal is left over its session, or the last of them has the message too |
| `FileStore.LeftoverJournalDropsMessage` | internal/storage/file.go:131-141 | the reachable case in which it does not: a leftover journal of one task replayed over the session of a later one |
| `FileStore.ReopenKeepsFence` | internal/storage/file.go:292-320 | reopening keeps a task's fence exactly when it has no journal, or one that is not behind |
| `FileStore.FailedPrepareRollsBackClaim` | internal/storage/file.go:131-141 | the reachable case in which it does not: a claim after a PrepareTask whose last removal failed |
| `FileStore.Store.SaveTask` | internal/storage/file.go:145-162 | the record replaced or the refusal, by the fencing rule |
| `FileStore.Store.ClaimTask` | internal/storage/file.go:163-186 | a claim of a free or expired lease stores the trimmed owner and token with the next fence |
| `FileStore.Store.ReleaseTask` | internal/storage/file.go:187-205 | a release by the holder clears the lease and keeps the fence |
| `FileStore.Store.PrepareTask` | internal/storage/file.go:95-144 | the disk after any number of its four writes, and success only if all of them landed |
| `FileStore.Store.RecoverPreparations` | internal/storage/file.go:292-320 | the loop over the journals, cut off after any number of writes |
| `Trace.ParseIff` | internal/trace/trace.go:299-341 | parsing accepts exactly the texts whose lines decode to a chained log, and returns the log |
| `Trace.HashDeterminesLog` | internal/trace/trace.go:299-341 | a hash commits to everything before it |
| `Trace.VerifiedIff` | internal/trace/trace.go:203-225 | verification succeeds exactly when the lines decode to a chained log and the head is its length and last hash |
| `Trace.OneLogPerHead` | internal/trace/trace.go:203-225 | against one head only one log verifies: every edit that changes, deletes, inserts or reorders events is rejected |
| `Trace.EditPassesIff` | internal/trace/trace.go:299-341 | a text in the place of a verified one passes exactly when its lines decode to the same events |
| `Trace.BlankEditPasses` | internal/trace/trace.go:309-313 | under a decoder that ignores blanks, a blank put before the first line passes |
| `Trace.LenientReads` | internal/trace/trace.go:309-313 | that decoder reads what the writer writes |
| `Trace.RecoveryKeepsLog` | internal/trace/trace.go:237-286 | on every disk that holds a log in any spelling, a torn tail and a head that counts a prefix, recovery succeeds, loses nothing and counts the whole log; cut off anywhere it leaves such a disk again |
| `Trace.RecoveryRejectsLostPrefix` | internal/trace/trace.go:237-286 | whatever was done to the event file, recovery accepts it only with the committed log as a prefix |
| `Trace.RecoveryAcceptsIff` | internal/trace/trace.go:237-286 | recovery accepts exactly the files whose head can be read and whose complete lines decode to a chained log that the head counts a prefix of; a head that is gone over event data is refused |
| `Trace.HeadIsNeeded` | internal/trace/trace.go:203-236 | without event data, or with a head that is gone or cannot be read, no trace verifies |
| `Trace.AppendIsAtomic` | internal/trace/trace.go:140-201 | a crash at any point of Append leaves the previous log or that log and exactly one event that says what was submitted; success means the event is stored and the files verify |
| `Trace.AppendGrowsLog` | internal/trace/trace.go:140-201 | an acknowledged event is the new last one, its number is the new length, and its time, type, session and data are those submitted |
| `Trace.AcknowledgedEventsSurvive` | internal/trace/trace.go:140-286 | from an empty directory, over any appends and restarts cut off anywhere: whatever was acknowledged is in the recovered log under the number given, as it was submitted |
| `Trace.AllAppended` | internal/trace/trace.go:140-201 | without failures the log is what was appended, one event for each submission, in order |
| `Trace.AllReceipted` | internal/trace/trace.go:140-201 | and each submission is acknowledged, in order |
| `Trace.Writer.ParseEvents` | internal/trace/trace.go:299-341 | the line loop computes the parse |
| `Trace.Writer.RecoverLocked` | internal/trace/trace.go:237-286 | the files and the head after recovery, cut off after any number of writes; no other task is touched |
| `Trace.Writer.AppendEvent` | internal/trace/trace.go:140-201 | the files and the reply for every point at which it can stop; the event of a success says what was submitted |
| `Trace.Writer.VerifyIntegrity` | internal/trace/trace.go:203-225 | true exactly for a valid identifier whose files verify |
| `Quarantine.MoveConserves` | internal/rollback/quarantine.go:131-145 | a rename onto a vacant name keeps every object, each at one path, and can be undone |
| `Quarantine.OperationKeeps` | internal/rollback/quarantine.go:94-245 | whatever an operation does and wherever it stops, every file object is at exactly one path, unchanged, none overwritten; COMMITTED over an empty slot comes about exactly when an admitted Restore is interrupted behind its rename, its object back at the original path |
| `Quarantine.NothingIsLost` | internal/rollback/quarantine.go:94-245 | the same over any sequence of operations from an untouched disk, every filled slot having its manifest |
| `Quarantine.RecoverReconcilesOrReports` | internal/rollback/quarantine.go:201-245 | Recover moves no file; a prepared manifest is committed if its file is in the slot and dropped if the file never left; every other manifest stays; it succeeds exactly when none is torn or irreconcilable |
| `Quarantine.RestoreUndoesQuarantine` | internal/rollback/quarantine.go:147-199 | Restore with a matching snapshot returns every path to what it held before |
| `Quarantine.QuarantinedOnce` | internal/rollback/quarantine.go:94-130 | a task, nonce and snapshot cannot be quarantined again while their manifest exists, torn or not |
| `Quarantine.QuarantineAdmittedIff` | internal/rollback/quarantine.go:94-130 | exactly which quarantines are admitted |
| `Quarantine.QuarantineCommits` | internal/rollback/quarantine.go:131-145 | an admitted and undisturbed quarantine moves exactly its file into its slot and commits its manifest |
| `Quarantine.RestoreAdmittedIff` | internal/rollback/quarantine.go:147-186 | exactly which restores are admitted |
| `Quarantine.RestoredAgain` | internal/rollback/quarantine.go:161-163 | a repeated Restore succeeds and changes nothing |
| `Quarantine.ChangedFileIsPutBack` | internal/rollback/quarantine.go:131-137 | a file changed from outside between check and rename is put back as it then is, and reported |
| `Quarantine.ChangedObjectIsPutBack` | internal/rollback/quarantine.go:187-192 | the same for a restore: the object returns to its slot and its manifest stays committed |
| `Quarantine.FailedCommitRollsBack` | internal/rollback/quarantine.go:138-145 | when the commit of a quarantine or a restore fails no file has moved |
| `Quarantine.TornManifestIsReported` | internal/rollback/quarantine.go:127-130 | a crash inside the first write moves nothing, and every Recover reports the torn manifest |
| `Quarantine.FailedWriteIsReported` | internal/rollback/quarantine.go:201-245 | a failing write of Recover changes nothing and is reported |
| `Quarantine.HollowForGood` | internal/rollback/quarantine.go:94-245 | COMMITTED over an empty slot stays as it is over any later operations, outside writes included |
| `Quarantine.Manager.Quarantine` | internal/rollback/quarantine.go:94-145 | the disk and the reply at every point at which it can stop, an outside write before the rename included |
| `Quarantine.Manager.Restore` | internal/rollback/quarantine.go:147-199 | the same for Restore |
| `Quarantine.Manager.Recover` | internal/rollback/quarantine.go:201-245 | the same for the loop over the manifests |
| `Resume.ExecutorCalledAtMostOnce` | internal/agent/approval_resume.go:36-104 | with any number of resumers, as long as no two have loaded a task for the same approval, any workers, crashes and replayed journals: the executor is called at most once per approval, and no task waits for an approval it was called for |
| `Resume.TwoLoadedCallTwice` | internal/agent/approval_resume.go:77-104 | from any state with two resumers of one approval that hold its task under an admitting lease, there is a run in which both call the executor |
| `Resume.BeginIsSafeIff` | internal/api/server.go:402-410 | beginning is safe for every orderly continuation exactly when no other resumer has loaded the task for this approval |
| `Resume.ConcurrentResumersCallTwice` | internal/agent/approval_resume.go:36-104 | any waiting task with an approved record can be caught in it, in any state |
| `Resume.ReachesIff` | internal/agent/approval_resume.go:36-104 | exactly when the executor is called: an approved record, the waiting task and the envelope that belong to it, a lease that still admits the start, and every event before the call on record |
| `Resume.LeftoverLeaseStrandsApproval` | internal/agent/approval_resume.go:90-93 | an approved waiting task can be started exactly while it has no lease or one that has not expired |
| `Resume.Resumer.FailExecution` | internal/agent/approval_resume.go:171-180 | the task is stored as FAILED if the store takes it, and the caller gets an error either way |
| `Resume.Resumer.Resume` | internal/agent/approval_resume.go:36-75 | the executor gets the pending envelope exactly when it may; the task is then COMPLETED only for a verified execution, FAILED with its action still recorded for a failed one, or in between; a rejected or expired approval cancels it, a mismatched envelope fails it; the stored tasks and the success of the call are determined in every case |
| `Resume.Resumer.ExecuteApproved` | internal/agent/approval_resume.go:77-169 | success exactly when the call was made, verified, and every save and trace append behind it went through; COMPLETED means one more reference, to the event of this execution, and nothing pending; the state after each failed call, append, verification or save |
| `Resume.Orchestrator.Conclude` | internal/agent/orchestrator.go:113-153 | a task with an action in flight fails closed and its workflow is not entered; any other is stored as its workflow goes along, and as failed if the workflow gives up or a save fails |
| `Resume.Orchestrator.Run` | internal/agent/orchestrator.go:96-160 | the tasks and the reply for every way claim, saves and release can end; whatever fails, a finished or waiting task is left alone and an action in flight stays recorded; without faults the task ends as its workflow left it, released, one fence higher |
| `Resume.RunKeeps` | internal/agent/orchestrator.go:96-160 | under any faults a run changes no other task, moves the fence by at most one, and leaves an action in flight as it was or failed, never started again |
| `Resume.RunCompletes` | internal/agent/orchestrator.go:96-160 | if the task is unclaimed or its lease has expired, and all writes fall within the new lease, the run ends with the last snapshot of the workflow, failed if it gave up, and the lease given back |
| `Resume.FirstFailureEnds` | internal/agent/orchestrator.go:96-160 | the first save that fails is the run's last: the snapshot before it stays, and the one it could not store is what is to be stored as failed |
| `Resume.SuccessMeans` | internal/agent/orchestrator.go:96-160 | a run that reports success on an unfinished task had no action in flight, claimed a free task, stored every snapshot and gave the lease back |
| `Resume.SmoothSucceedsIff` | internal/agent/orchestrator.go:96-160 | without faults a run fails exactly for an action in flight and for a workflow that gives up |
| `Resume.WaitingIsEnough` | internal/agent/orchestrator.go:322-333 | a recovery waits exactly as long as the lease that was left behind still lives |
| `Resume.ClaimIsConfigured` | internal/agent/orchestrator.go:119-127 | who claims and for how long: the configuration or its defaults |
| `Resume.Orchestrator.RecoverIncomplete` | internal/agent/orchestrator.go:313-343 | up to the point of cancellation every listed task has had its run, under any faults and behind any lease a lost worker left; no action in flight is started again; every other task is untouched |
| `Reducer.StuckAfterThreeRepeats` | internal/agent/reducer.go:64-81 | the loop is stopped for lack of progress exactly when the last three observations have the same content |
| `Reducer.InitializedOnce` | internal/agent/reducer.go:21-34 | limits and deadline that are set stay, missing ones get their defaults, and a second time changes nothing |
| `Reducer.Checkpoint.InitializeRuntime` | internal/agent/reducer.go:21-34 | limits and deadline are filled in once and never changed again |
| `Reducer.Checkpoint.ReserveToolCall` | internal/agent/reducer.go:48-54 | a call is reserved exactly while the limit is not reached |
| `Reducer.Checkpoint.RecordReplan` | internal/agent/reducer.go:56-62 | the change of plan is counted even when it is refused |
| `Reducer.Checkpoint.RecordObservation` | internal/agent/reducer.go:64-81 | the observation is kept even when it ends the loop |
| `General.GroundedSnoc` | internal/agent/general.go:274-288 | a reference to the event just appended keeps all references grounded and strictly increasing |
| `General.Agent.BeginDecision` | internal/agent/general.go:304-317 | a pass that may use tools pays one iteration; past the limit only a conclusion is allowed |
| `General.Agent.ChangePlan` | internal/agent/general.go:140-199 | every change of plan is counted, asked for or forced; the loop goes on only within the limit and with the count on disk |
| `General.Agent.Observe` | internal/agent/general.go:274-295 | the observation and the reference to its event are stored together; the loop goes on only while it makes progress |
| `General.Agent.ReserveCall` | internal/agent/general.go:200-247 | a call that may be issued has been paid for on disk |
| `General.Agent.IssueCall` | internal/agent/general.go:248-298 | one call, its result appended to the trace before the task that refers to it is stored |
| `General.Agent.Act` | internal/agent/general.go:140-199 | an answer ends in COMPLETED, an action request in WAITING_APPROVAL, nothing else ends the loop, and only a tool decision issues a call |
| `General.Agent.Choose` | internal/agent/general.go:95-139 | the decision acted on is one the planner gave in this pass, turned into a change of plan exactly if it concludes or requests before there is evidence |
| `General.Agent.RunGeneral` | internal/agent/general.go:26-298 | ends within one pass more than the iterations left, whatever the world answers; it completes the task for an answer and makes it wait for an action request, each given by the planner in this run and with an observation and a reference stored; while nothing fails and time does not run out it stops only for a used-up budget or lack of progress |
| `General.Agent.FinishExecution` | internal/agent/approval_resume.go:106-158 | after an approved execution the stored task gains exactly the reference to the event that recorded it |
| `General.Agent.ResumeApproved` | internal/agent/approval_resume.go:36-169 | a completed resumption adds one reference, and no outcome leaves an ungrounded one |
| `General.Agent.Restart` | internal/agent/orchestrator.go:313-343 | the trace is recovered without loss and the working copy is read back from disk |
| `General.Agent.RunManyTimes` | internal/agent/general.go:67-119 | over any number of runs and resumptions cut off anywhere, the tool calls issued stay within the smaller of the two budgets and every stored reference names a result event of the task's own trace, in increasing order |
| `Paths.InsideIsPrefix` | internal/agent/general_scope.go:272-280 | the string test on the relative path says exactly that one path's components are a prefix of the other's |
| `Paths.WithinAnyIsPrefix` | internal/executor/target.go:190-200 | the same for a list of roots |
| `Paths.CleanedIsClean` | internal/agent/general_scope.go:225 | cleaning an absolute path leaves neither empty, "." nor ".." components |
| `Paths.CleanedUndoesText` | internal/executor/config.go:467-488 | cleaning leaves the text of a clean path alone |
| `Paths.CleanedStep` | internal/agent/general_scope.go:225 | one component at a time: a name goes down, ".." goes up but not beyond the root, "." and nothing stay |
| `Paths.IdNamesOneFile` | internal/approval/store.go:201-207 | a valid identifier is one path component without a backslash, and its record lies directly in the directory |
| `Paths.RootsOfOnePathAreNested` | internal/safefs/secure_linux.go:95-116 | of two roots of one path, the one with the longer text is the deeper one |
| `Ordering.TextIsInjective` | internal/safefs/reader.go:259-264 | clean paths with the same text are the same path |
| `Ordering.BeforeIff` | internal/safefs/reader.go:259-264 | the comparison is lexicographic: a proper prefix, or the smaller character at the first difference |
| `Ordering.SortedIsOrdered` | internal/safefs/reader.go:259-264 | sorting puts no element before one that belongs before it |
| `Ordering.OneOrderedArrangement` | internal/safefs/reader.go:259-264 | under an order without ties an unstable sort has one possible result |
| `Walk.WalkDirectory` | internal/safefs/secure_linux.go:196-263 | the recursion with its local stop computes the specified walk |
| `Walk.WalkIsFold` | internal/safefs/secure_linux.go:196-263 | although a stop ends one directory only, the walk gathers what one pass over the whole tree gathers, for every visitor that keeps stopping |
| `Walk.UnmarkedWalkIsFold` | internal/safefs/secure_linux.go:196-263 | a visitor that marks its stop is marked by the walk precisely when the plain pass marks it, and agrees with it otherwise |
| `Walk.PlacesDistinct` | internal/safefs/secure_linux.go:196-263 | no node is visited twice |
| `Walk.ShallowPlaces` | internal/safefs/secure_linux.go:240-258 | not entering directories at a depth visits exactly the nodes of the whole tree down to that depth |
| `Walk.NothingLeftOut` | internal/safefs/secure_linux.go:240-258 | a pass that met no directory it would not enter has met the whole tree |
| `FileScan.WalkCovers` | internal/safefs/reader.go:349-393 | a snapshot has one line for each of the first `limit` nodes that need one, hashed bytes equal the sizes of the entries and stay within the total, every skip has its true reason, and it is truncated exactly when a node was met with the lines used up or a directory was too deep |
| `FileScan.SnapshotIsComplete` | internal/safefs/reader.go:329-400 | not truncated means exactly one line for every node of the tree that is not a directory |
| `FileScan.LinesInOrder` | internal/safefs/reader.go:397-398 | the lines come out in path order, without ties |
| `FileScan.TakeSnapshot` | internal/safefs/reader.go:329-400 | the bounds, their defaults, and the arranged snapshot |
| `FileScan.FindIsWanted` | internal/safefs/reader.go:242-254 | the files found are those of the whole tree filtered by depth and size |
| `FileScan.WantedIff` | internal/safefs/reader.go:242-254 | a file is wanted exactly when it is a regular file of the tree of at least that size and not below the depth |
| `FileScan.FindLarge` | internal/safefs/reader.go:227-270 | the largest `limit` of them in rank order, truncated exactly when there are more |
| `FileScan.LargestAreKept` | internal/safefs/reader.go:259-269 | the ranking, by size and then by path, determines the result, and no file left out outranks one that is kept |
| `FileScan.UsageIsTally` | internal/safefs/reader.go:275-327 | usage is the count of the tree down to the depth bound when the entries fit, and truncated when they do not |
| `FileScan.MeasureUsage` | internal/safefs/reader.go:275-327 | truncated exactly for too many entries, never for depth; otherwise files, directories, bytes and skips are those of the tree down to the depth bound |
| `FileScan.RootFor` | internal/safefs/secure_linux.go:95-116 | the deepest root that contains the path, or none when no root does |
| `Hub.ResumedIsWhatIsLeft` | internal/api/hub.go:45-67 | the replay is the retained events after the named one; an event after it was evicted exactly when the retained ones do not reach back that far |
| `Hub.RunTracks` | internal/api/hub.go:27-43 | after any run, what is retained of a task is exactly its last 200 events, numbered without a hole |
| `Hub.RetainedIsTheEnd` | internal/api/hub.go:27-36 | what is retained is all of a log, or its last 200 events |
| `Hub.ReplayThenLive` | internal/api/hub.go:27-67 | replay and live events never repeat or reorder; without overflow they are one contiguous run, starting right after the named event exactly when no gap was reported |
| `Hub.SubscriptionSeesTheLog` | internal/api/hub.go:27-67 | the same for a subscription made after any run and followed by any run of publications, subscriptions, cancellations and receptions |
| `Hub.DroppedIff` | internal/api/hub.go:37-42 | a subscriber misses an event exactly when one is published while its channel is registered and full |
| `Hub.NextIsDelivered` | internal/api/hub.go:37-42 | the next publication is delivered exactly to a registered channel that has room |
| `Hub.RegisteredUntilCancelled` | internal/api/hub.go:45-66 | a channel stays registered exactly until its own cancellation, whatever other subscribers do |
| `Hub.PublishTouches` | internal/api/hub.go:27-43 | a publication numbers its own task's next event, reaches the registered channels that have room, and changes nothing of any other task |
| `Hub.RegistryTouches` | internal/api/hub.go:45-66 | subscribing and cancelling change the registration of one channel and no other |
| `Hub.ReceptionTouches` | internal/api/hub.go:27-66 | a reception takes the oldest event out of its own channel |
| `Hub.FreshClientsAreNotTold` | internal/api/hub.go:53-55 | with event number zero no gap is reported, although events are gone exactly when more than 200 were published |
| `Hub.EventHub.Publish` | internal/api/hub.go:27-43 | numbers the event, caps the history, offers it to every open channel of the task |
| `Hub.EventHub.Deliver` | internal/api/hub.go:37-42 | a channel with room gets the event at its end, a full one loses it |
| `Hub.EventHub.Subscribe` | internal/api/hub.go:45-66 | the window holds the retained later events; a gap is reported exactly when the client is ahead of the log or a later event was evicted |
| `Hub.EventHub.Unsubscribe` | internal/api/hub.go:66 | the channel is no longer offered events |
| `ReadScope.AvoidsUntouched` | internal/agent/general_scope.go:226-235 | nothing the call can look at is excluded exactly when the path is not in an excluded one and, for a traversing tool, contains none |
| `ReadScope.ReachesAuthorized` | internal/agent/general_scope.go:239-243 | everything the call can look at is authorised exactly when its path is |
| `ReadScope.ValidateReadScope` | internal/agent/general_scope.go:192-250 | a decision passes exactly when everything its call can look at, every descendant for a traversing tool, is in scope; and exactly which violation is reported |
| `Search.ContainsAsciiPhrase` | internal/agent/general_scope.go:151-167 | true exactly when the phrase occurs as a word of its own, for every text and phrase |
| `Search.IsWordIff` | internal/agent/general_scope.go:169-171 | which characters belong to a word |
| `Search.SearchFor` | internal/llm/openai.go:189-213 | the loop over occurrences |
| `Search.FoundIsMentioned` | internal/llm/openai.go:189-213 | what is found is there |
| `Search.SkippingIsExactIff` | internal/llm/openai.go:189-213 | skipping a whole occurrence is right for all answers exactly when the reference does not overlap itself behind a non-reference character |
| `Search.SkipFallsIn` | internal/llm/openai.go:189-213 | for every other reference, an answer that cites it and is not recognised |
| `Search.ReferencesAreFound` | internal/llm/openai.go:189-217 | for references of reference characters only the search is exact |
| `Search.ReferenceNamesOneEvent` | internal/agent/general.go:278 | two references are the same text exactly when they name the same event of the same task |
| `Search.DecimalReadsBack` | internal/agent/general.go:278 | an event number is written in digits only, without a zero in front, and reads back |
| `Search.TraceReferencesAreExact` | internal/agent/general.go:278 | the system's own references are found wherever cited, and an event number is not taken for a longer one |
| `Search.ValidateDecisionForRequest` | internal/llm/openai.go:157-187 | what is accepted answers the request; with references that do not overlap, exactly that is accepted |
| `ManagedRoots.NormalizedIff` | internal/executor/config.go:467-488 | exactly which values are roots, and that a root is the resolved path where it exists |
| `ManagedRoots.ReadableIff` | internal/executor/config.go:443-465 | exactly which values may be read, the file system as a whole included |
| `ManagedRoots.NormalizeRoots` | internal/executor/config.go:425-441 | all values or none; the result is clean, without duplicates, apart from quarantine, and made of exactly the resolved values |
| `ManagedRoots.NormalizeReadOnlyRoots` | internal/executor/config.go:443-465 | all values or none, the whole file system by default; the result is without duplicates and made of exactly the resolved values |
| `ManagedRoots.ValidateRootsWithin` | internal/executor/config.go:490-504 | true exactly when every root lies under one of the maximum roots |
| `ManagedRoots.LoadConfig` | internal/executor/config.go:79-117 | a file is accepted exactly when its schema is known, every root resolves, no managed root overlaps quarantine, and all of them lie under the allowed roots, which the result keeps together with the read-only roots and the allowlists |
| `ManagedRoots.ServerStaysInScope` | internal/executor/target.go:163-200 | every path the server accepts is the administrator's or in quarantine, and the executor's scope accepts it too |
| `ManagedRoots.ServerAcceptsLess` | internal/executor/target.go:163-200 | the server's own test on a path's text accepts nothing that the executor's test rejects |
| `ManagedRoots.QuarantineIsApart` | internal/executor/config.go:425-441 | no path lies both under a managed root and in quarantine |
| `ManagedRoots.ConfigManager.UpdateManagedRoots` | internal/executor/config.go:150-171 | accepted exactly when every value passes the checks and the save is clean, and then saved and in force with the targets agreeing; a refused one changes nothing in force, and the saved file only if its rename had happened |
| `ManagedRoots.NewConfigManager` | internal/executor/config.go:119-142 | starts exactly when the saved roots, or else the configured ones, pass the checks of an update, and then in a valid state |
| `ManagedRoots.SavedRootIsReadBack` | internal/executor/config.go:347-368 | a root that is no link and has no blanks at its ends survives a restart |
| `ManagedRoots.SavedRootsAreReadBack` | internal/executor/config.go:347-368 | the list an update saved stands for the same roots at the next start |
| `ManagedRoots.Serve` | internal/executor/config.go:119-171 | after any updates, failed saves and restarts the roots are safe and the targets accept exactly those |

## Left out

- HTTP handlers, event-stream writing, the web interface, MCP servers, registry processes and the model client: input and output around these cores.
- JSON, YAML and hexadecimal encoding, HMAC and SHA-256: free constructors and symbol sequences; errors of the codecs and size limits of scanner buffers do not occur.
- Temporary files, directory syncing and the order in which unsynced writes reach the disk: a save either publishes its file or does not.
- Symbolic link resolution, openat2 and file descriptors: paths are resolved and clean, the tree is fixed during a walk, and a path that is itself a link was refused before.
- Policy tables, risk scores, keyword and regular-expression routing: `Guard` takes them as parameters, `ReadScope` starts from a derived scope.
- Text of error messages and of summaries; the order of task listings; session reads and updates apart from the one message of a new task.
- Fresh identifiers are assumed fresh; one server and one executor process; clock readings do not decrease within a call.
- The feedback list kept for the planner and the planner's repair attempts.
- Liveness: nothing says that an approved task eventually runs, and one case in which it cannot is named above.
- Content hashes of snapshot entries and modification times; a failing read ends the real walk with an error.
- Preparer.ActionPreparer.Prepare: what others do in the meantime is modelled on the approval; a resumer that starts before the call ends is a step of the machine in Resume.
- Approval.Store.Consume: on one process's view of the directory; what the other process does between its load and its save is modelled in Protocol.
- Trace.OneLogPerHead: does not promise equal files, because a line is hashed as decoded; what of a file is free is said by EditPassesIff. The payload of an event is taken in its compact form.
- Resume.BeginIsSafeIff: the resumers already loaded are taken to hold what is stored; one with an outdated lease or another record may be unable to call.
- Resume.Resumer.ExecuteApproved: without session updates, like Resume.
- Resume.Orchestrator.RecoverIncomplete: nobody else works on the tasks meanwhile; other workers are steps of the machine in the same module.
- Resume.Orchestrator.Run: its workflow is a function that keeps the task's identity and lease; the trace appends before the claim and the match with the request are left out.
- Resume.Resumer.Resume: without the continuation of multi-step workflows; the machine's store step covers what a continuation may write.
- General.Agent.RunGeneral: handing an action request to the preparer is one step of it; Preparer models that step on its own.
- General.Agent.FinishExecution: session updates and continuations are one answer that succeeds or fails.
- Hub.EventHub.Unsubscribe: closing the channel itself; what is still in it can be received.
- Search.SearchFor: text is a sequence of characters, so byte offsets and decoding of multi-byte characters do not occur; letters and digits beyond ASCII are a parameter.
- ManagedRoots.ConfigManager.UpdateManagedRoots: the status report it returns.
