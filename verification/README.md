# Run-once and job-state protocols, verified

A Dafny model of the platform's run-once and job-state protocols, with proofs over every run. Postgres, the network,
the clock, the LLM phases and crashes appear as steps that may go any way the code has to cope with.

| module | what it models |
|---|---|
| `RunLedger`, `RunStore`, `LedgerRuns` | the leased, fenced ledger of agent invocations: an abstract machine, the SQL statements that refine it, and theorems over all runs of any number of workers and the collector |
| `InvokeGate`, `MemoryEvents` | the invoke gate above the ledger: the pre-flight half and the return half, the stored envelopes, and the insert-or-ignore event log keyed by attempt |
| `SimpleLedger` (with `Numerals`) | the in-memory ledger of the test suites, and its simulation of the real one |
| `JobStore`, `NestedMerge`, `JobRows`, `JobPatches` | the jobs table: guarded updates, the read-modify-write patch over a JSON tree, cancellation, sweeps, and what each leaves in the rows |
| `JobHistories`, `RowLock`, `HumanInTheLoop` | serial histories, the row-locked transaction steps that every interleaving reduces to, and the pause and answer calls |
| `Fencing` | tokens minted as read-back increments, checked against a high-water mark |
| `LossyClient` | the retrying client, over a network that loses answers and delays requests, composed with the store |
| `AuditChain`, `AuditRuns`, `AuditActivities` | the at-least-once audit phases, each guarded write split from its check, racing the timebox timer and the stale-job sweep |
| `CircuitBreaker`, `DeliveryDedup`, `Redaction` | the per-team circuit breaker, the bounded webhook table, the recursive redactor |
| `JsonValues`, `Texts`, `Wrappers` | JSON data with Python's `bool`/`int` relation; letter case and Postgres booleans; option and result types |

Code that changes state is a class whose methods are proved equal to a specification function; the theorems are about
that function, folded over event sequences (`After`, `Serial`, `RunBoth`, `Request`). `dafny verify dfyconfig.toml`
checks everything.

## Where the code and its documentation disagree

- Block events: malformed audit entries are skipped but still counted in the numbering of later ones, so a block
  event can get a number already used and be ignored. `MemoryEvents.BlockEventStoredExactlyWhen` says exactly when.
- The test ledger accepts a second completion under the same token and overwrites the outcome; the real one ignores
  it. `SimpleLedger.FakeCompletionFaithfulExactlyWhen` says exactly when the two agree.
- Sweeps: with a waiting field other than the default, a job waiting for answers is swept
  (`JobHistories.OtherWaitingFieldSweepsPausedJob`).
- Circuit breaker: half-open is described as letting one request through; every caller is admitted
  (`CircuitBreaker.HalfOpenAdmitsEveryone`).
- Audit timeout: it raises so that a retry can repair a state it could not write, but the retry finds the job already
  failed and does nothing; the state stays unended for good (`AuditRuns.TimeoutEndsTheStateExactlyWhen`).
- Audit persistence: the guard that keeps an abandoned phase from overwriting a decided audit is a check followed by a
  write, and so is the timeout handler. A write that comes late overrules what happened in between
  (`AuditRuns.LateWriteUnendsTheAudit`, `AuditRuns.LateTimeoutLosesAPhase`, `AuditRuns.LateJobWritesOverrule`);
  `AuditRuns.DecidedJobIsFinalExactlyWhen`, `AuditRuns.EndedStateIsFinalExactlyWhen` and
  `AuditRuns.PhaseResultLostExactlyWhen` say exactly when.
- Redaction: a sanitized value stored as a field and sanitized again can lose its deepest level
  (`Redaction.WrappedStaysExactlyWhen` says exactly which inputs do not). A truncated string is longer than 512
  characters by the marker (`Redaction.CutStringsExceedTheLimit`), and mapping keys are not shortened at all
  (`Redaction.AnyKeyPassesWhole`, `Redaction.KeysBoundedExactlyWhen`).

## Model

| member | source | states |
|---|---|---|
| `RunStore.Table.ClaimRun` | backend/agents/agent_cognition/context.py:371-434 | the insert-or-reclaim statement and the classification after it claim, replay or conflict exactly as the abstract ledger says, leasing for at least 30 s |
| `RunStore.Table.CompleteRun` | backend/agents/agent_cognition/context.py:437-543 | completes only the in-flight row held under this token; a stale token is a tolerated no-op, a missing row, an empty token and a bad status are the three errors |
| `RunStore.Table.ReplayRun` | backend/agents/agent_cognition/context.py:546-567 | returns the stored envelope of a terminal row, nothing otherwise |
| `RunStore.Table.AbandonRun` | backend/agents/agent_cognition/context.py:570-607 | deletes only the in-flight row held under this token, and says whether it did |
| `RunStore.Table.GcTerminalRuns` | backend/agents/agent_cognition/context.py:610-650 | deletes exactly the terminal rows past their time to live and returns their number |
| `LedgerRuns.OtherKeysUntouched` | backend/agents/agent_cognition/context.py:347-369 | over every run, a row changes only through a call that names its key or a collection that was due |
| `LedgerRuns.EveryRowHasAnAuthor` | backend/agents/agent_cognition/context.py:417-434 | every in-flight row is the latest successful claim's, every terminal row the completion's, untouched since |
| `LedgerRuns.TerminalRowStays` | backend/agents/agent_cognition/context.py:491-507 | a terminal row never changes while it exists |
| `LedgerRuns.AtMostOneCompletion` | backend/agents/agent_cognition/context.py:491-517 | between insertion and deletion of a row at most one completion takes effect |
| `LedgerRuns.ClaimSucceedsExactlyWhen` | backend/agents/agent_cognition/context.py:347-362 | a claim succeeds if and only if there is no row, or the owner asked for the same body and both its lease and 30 s have passed |
| `LedgerRuns.EffectNeedsLatestClaim` | backend/agents/agent_cognition/context.py:491-517 | a completion or abandonment takes effect only under the token of the latest claim |
| `LedgerRuns.StaleTokenIsInert` | backend/agents/agent_cognition/context.py:599-607 | once a key was claimed again, the earlier claimer's token changes nothing |
| `LedgerRuns.HashNeverChanges` | backend/agents/agent_cognition/context.py:347-362 | the request hash never changes while the row exists |
| `LedgerRuns.ReplayIsTheCompletersResponse` | backend/agents/agent_cognition/context.py:417-434 | a claim replays a response if and only if a completion stored it for the same body and the row was not deleted since |
| `LedgerRuns.DifferentBodyConflicts` | backend/agents/agent_cognition/context.py:404-434 | a different body conflicts whatever the row's status or age, and leaves the table unchanged |
| `LedgerRuns.LeaseHolds` | backend/agents/agent_cognition/context.py:351-361 | until it is released, a claim is the owner or was outlived by its lease |
| `LedgerRuns.LeaseExclusion` | backend/agents/agent_cognition/context.py:351-361 | no second claim of a key before the first lease, at least 30 s, has run out, unless the first was completed or abandoned |
| `LedgerRuns.ReplayWindow` | backend/agents/agent_cognition/context.py:347-362 | any interleaving keeps a stored outcome claimable as a replay for the whole time to live |
| `SimpleLedger.FakeRunLedger.ClaimRun` | backend/agents/agent_cognition/testing.py:100-123 | the test ledger's claim, with its own call-numbered tokens |
| `SimpleLedger.FakeRunLedger.CompleteRun` | backend/agents/agent_cognition/testing.py:125-130 | overwrites status and response under a matching token, whatever the row's status; the missing row and the stale token are the two errors |
| `SimpleLedger.FakeRunLedger.AbandonRun` | backend/agents/agent_cognition/testing.py:132-139 | deletes only the owned in-progress row |
| `SimpleLedger.FakeTokensDistinct` | backend/agents/agent_cognition/testing.py:101-106 | different claim calls mint different tokens |
| `SimpleLedger.StepsAgree` | backend/agents/agent_cognition/testing.py:100-139 | each claim, owned completion, abandon and clock move gives the same answer on both ledgers and keeps them related |
| `SimpleLedger.FakeSimulatesLedger` | backend/agents/agent_cognition/testing.py:80-139 | every run of claims, owned single completions and abandons looks the same on the test ledger and on the real one |
| `SimpleLedger.FakeCompletionFaithfulExactlyWhen` | backend/agents/agent_cognition/testing.py:125-130 | a completion keeps the two ledgers in step if and only if the caller owns the run in flight or repeats the stored outcome verbatim |
| `SimpleLedger.SecondCompletionDiverges` | backend/agents/agent_cognition/testing.py:125-130 | the failing case: a second completion under the same token overwrites the test ledger's outcome but not the real one's |
| `MemoryEvents.ScopedIdsNeverCollide` | backend/agents/agent_cognition/invoke_gate.py:181-190 | the attempt-scoped id determines both the run id and the attempt, even when the run id contains `#` |
| `MemoryEvents.EventFindsItsLedgerRow` | backend/agents/agent_cognition/context.py:260-268 | cutting an event's run id at the last `#` recovers the ledger key |
| `MemoryEvents.HashInTokenCollides` | backend/agents/agent_cognition/invoke_gate.py:181-190 | why the token must not contain `#`: two attempts would share one id |
| `MemoryEvents.AppendEvents` | backend/agents/agent_cognition/memory/store.py:118-153 | inserts the events whose key is new, ignores the rest, and returns the number inserted |
| `MemoryEvents.InsertAllKeys` | backend/agents/agent_cognition/memory/store.py:118-153 | an append adds exactly the keys of its events and changes no stored row |
| `MemoryEvents.ResendAddsNothing` | backend/agents/agent_cognition/context.py:236-307 | persisting the same writeback again is a no-op |
| `MemoryEvents.UnseenAttemptKeepsAll` | backend/agents/agent_cognition/memory/store.py:118-153 | every event of an attempt not seen before is stored when its sequence numbers are distinct |
| `MemoryEvents.ReexecutionKeepsAllEvents` | backend/agents/agent_cognition/invoke_gate.py:181-190 | over any history of attempts, under any keys, `#` included, every event of every attempt is in the table: re-sent or re-executed, none is dropped against another attempt |
| `MemoryEvents.EventStoredExactlyWhenSent` | backend/agents/agent_cognition/context.py:245-272 | the table holds an event under an attempt if and only if that attempt sent it |
| `MemoryEvents.AuditEventsAreThePositions` | backend/agents/agent_cognition/invoke_gate.py:951-981 | the audit events are the well-formed entries, each numbered by its position and carrying that entry |
| `MemoryEvents.BlockSequenceContiguous` | backend/agents/agent_cognition/invoke_gate.py:792-804 | when every audit entry validates, a block's events are numbered 0 to n |
| `MemoryEvents.BlockEventStoredExactlyWhen` | backend/agents/agent_cognition/invoke_gate.py:792-804 | the block event of a new attempt is stored if and only if no valid audit entry sits at the position equal to the number of valid entries |
| `MemoryEvents.SkippedEntryLosesBlockEvent` | backend/agents/agent_cognition/invoke_gate.py:951-981 | the failing case: one malformed entry between two good ones loses the block event |
| `InvokeGate.EnvelopeRestoresAnswer` | backend/agents/agent_cognition/invoke_gate.py:1009-1063 | every stored envelope, mapped back, is the answer it was stored for, but for the replay mark and the event count |
| `InvokeGate.ReplayEqualsFreshAnswer` | backend/agents/agent_cognition/invoke_gate.py:722-753 | over every ledger run, a same-key same-body retry gets the answer of the original call while the row exists |
| `InvokeGate.RetryWithinWindowGetsTheSameAnswer` | backend/agents/agent_cognition/invoke_gate.py:360-631 | from claim to retry: a worker that finishes within its lease stores its answer, and every same-body retry within the time to live gets that answer without executing |
| `InvokeGate.LeaseProtects` | backend/agents/agent_cognition/context.py:347-362 | within the lease, workers without this claim's token leave its row as it is |
| `InvokeGate.Interleave` | backend/agents/agent_cognition/context.py:371-650 | any sequence of other workers' calls on the table is the ledger run of those calls |
| `InvokeGate.PrepareExitsMatchLedger` | backend/agents/agent_cognition/invoke_gate.py:360-508 | let through leaves the row in flight under this token, blocked leaves the blocked envelope, too large leaves no row, every other exit leaves the ledger unchanged |
| `InvokeGate.Gate.PrepareInvoke` | backend/agents/agent_cognition/invoke_gate.py:328-508 | the whole pre-flight half, with other workers acting after the claim: which exit it takes, the ledger and events it leaves, under which key; an outage refuses exactly the agents that require a key, and such an agent never proceeds unclaimed |
| `InvokeGate.Gate.PassGate` | backend/agents/agent_cognition/invoke_gate.py:454-508 | blocked exactly by the precondition, refused exactly when the wrapped body is over the cap, which releases the claim |
| `InvokeGate.Gate.RecordBlock` | backend/agents/agent_cognition/invoke_gate.py:767-825 | writes the audit and block events and, for a claimed run, the blocked envelope |
| `InvokeGate.Gate.CollectAudit` | backend/agents/agent_cognition/invoke_gate.py:951-981 | the tool-call events of the valid audit entries |
| `InvokeGate.Gate.CollectWriteback` | backend/agents/agent_cognition/invoke_gate.py:934-948 | the decodable writeback events, in order |
| `InvokeGate.DecodedInOrder` | backend/agents/agent_cognition/invoke_gate.py:934-948 | each writeback entry yields its event, in its place, or nothing |
| `InvokeGate.Gate.FinalizeInvoke` | backend/agents/agent_cognition/invoke_gate.py:511-631 | a 2xx run is blocked exactly when the agent has rules that reject the object under `output`, `{}` when there is none, and completed with an envelope that replays its answer; any other status passes through and leaves the ledger; kept are the audit in `detail` of a failure, the audit and a block event of a block, the agent's own events of a pass |
| `InvokeGate.Gate.AbandonInvoke` | backend/agents/agent_cognition/invoke_gate.py:828-852 | releases the claim if and only if it is still owned |
| `InvokeGate.RefusalStatuses` | backend/agents/agent_cognition/invoke_gate.py:173-178 | 409, 400, 503 and 413 for the four refusals, with the reason as the body |
| `NestedMerge.SplitIsExact` | backend/job_service/db.py:411-416 | cutting a dotted path at its dots loses nothing and leaves no dot |
| `NestedMerge.MergedValue` | backend/job_service/db.py:411-424 | at the path: the old value overlaid by the new one |
| `NestedMerge.OverlaySays` | backend/job_service/db.py:417-424 | two objects are merged field by field, the new fields winning; anything else is replaced |
| `NestedMerge.MergeFrame` | backend/job_service/db.py:411-424 | every path neither above nor below the merged one keeps its value |
| `NestedMerge.MergeKeepsContainers` | backend/job_service/db.py:411-424 | the objects above the path stay objects and gain at most the next key |
| `NestedMerge.MergeFailsExactlyWhen` | backend/job_service/db.py:411-424 | a merge raises if and only if a proper prefix of the path holds something other than an object |
| `NestedMerge.UnrelatedMergesCommute` | backend/job_service/db.py:411-424 | merges at two paths, neither a prefix of the other, commute in what they store and in whether they fail |
| `JobStore.JobTable.CreateJob` | backend/job_service/db.py:133-160 | upsert; on conflict the creation time stays |
| `JobStore.JobTable.ReplaceJob` | backend/job_service/db.py:163-188 | the whole row is replaced, `pending` when the payload names no status; a status that is no string writes nothing |
| `JobStore.JobTable.DeleteJob` | backend/job_service/db.py:200-203 | the row is gone; the answer says whether it was there |
| `JobStore.JobTable.PrepareUpdateFields` | backend/job_service/db.py:222-255 | separates the status from the fields, drops the column names, stamps the activity time |
| `JobStore.JobTable.ExecuteStatusUpdate` | backend/job_service/db.py:258-299 | writes exactly one existing row, not a cancelled one when guarded, and says whether it matched |
| `JobStore.JobTable.UpdateJob` | backend/job_service/db.py:302-317 | unguarded update of one row; a non-string status raises |
| `JobStore.JobTable.UpdateJobIfNotCancelled` | backend/job_service/db.py:320-370 | guarded update: written, cancelled and missing told apart |
| `JobStore.JobTable.ApplyPatch` | backend/job_service/db.py:373-460 | merge fields, nested merges, appends, increments, activity stamp, one write, and the row read back; missing and failing jobs write nothing |
| `JobStore.JobTable.MergeNestedFields` | backend/job_service/db.py:411-424 | the merges in order, stopping at the first that fails |
| `JobStore.JobTable.AppendToLists` | backend/job_service/db.py:425-434 | the appends in order; a missing or non-list field counts as empty |
| `JobStore.JobTable.IncrementFields` | backend/job_service/db.py:435-441 | the increments in order; a non-number counts as zero |
| `JobStore.JobTable.CancelActiveJob` | backend/job_service/db.py:463-491 | cancels exactly a pending or running job |
| `JobStore.JobTable.AppendEvent` | backend/job_service/db.py:494-550 | appends to the event list, optionally with a new status |
| `JobStore.JobTable.Heartbeat` | backend/job_service/db.py:553-561 | stamps an existing row |
| `JobStore.JobTable.MarkStaleActiveJobsFailed` | backend/job_service/db.py:564-606 | fails the stale active jobs of the team that wait for nobody |
| `JobStore.JobTable.MarkAllActiveJobsFailed` | backend/job_service/db.py:609-631 | fails the active jobs of the team that wait for nobody |
| `JobStore.JobTable.MarkAllActiveJobsInterrupted` | backend/job_service/db.py:634-656 | interrupts the active jobs of the team that wait for nobody |
| `JobPatches.PatchStores` | backend/job_service/db.py:393-460 | a patch whose nested merges run through answers the row it wrote: status, times, and every field it does not append to or increment as the last merge left it; no other row changes |
| `JobPatches.PatchFailsExactlyWhen` | backend/job_service/db.py:393-460 | a patch fails, writing nothing, if and only if its status is no string or one of its merges raises after the earlier ones |
| `JobPatches.MergedFieldsAreStored` | backend/job_service/db.py:405-409 | merged top-level fields hold their new values unless the same patch goes on to change them |
| `JobPatches.PatchMergesAtPath` | backend/job_service/db.py:411-424 | at a path unrelated to the patch's other changes the row holds the old value overlaid by the new one |
| `JobPatches.UnrelatedPatchFailsExactlyWhen` | backend/job_service/db.py:411-424 | with pairwise unrelated paths a patch fails if and only if its status is no string or something other than an object stands on the way to one of the paths in the row |
| `JobPatches.IncrementSays` | backend/job_service/db.py:435-441 | integers, booleans and floats are added to; anything else counts as zero |
| `JobRows.UpdateStores` | backend/job_service/db.py:302-317 | an update writes exactly an existing row: the given status and fields over the old ones, the activity and update times; it fails exactly on a status that is neither a string nor null |
| `JobRows.GuardedUpdateStores` | backend/job_service/db.py:320-370 | the same unless the row is cancelled, and refusing to cancel; written, cancelled, missing and refused told apart both ways |
| `JobRows.StaleSweepTakesExactly` | backend/job_service/db.py:564-606 | the stale sweep fails exactly the silent pending or running jobs of its team that wait for nobody, and changes only their status, error, activity text and update time |
| `JobRows.FullSweepTakesExactly` | backend/job_service/db.py:609-656 | the two other sweeps take exactly the pending or running jobs of the team that wait for nobody |
| `Texts.BooleanWords` | backend/job_service/db.py:577-656 | the spellings that cast to true and to false, blanks and letter case aside |
| `JobHistories.CancelledIsAbsorbing` | backend/job_service/db.py:284-299 | guarded updates, heartbeats, sweeps, status-free events and patches never undo a cancellation |
| `JobHistories.CancelOncePerActivation` | backend/job_service/db.py:476-491 | between two successful cancellations some call rewrote the status |
| `JobHistories.SweepChangesWhatItReturns` | backend/job_service/db.py:577-656 | a sweep changes exactly the rows it returns, all of its team and active, to the status it names |
| `JobHistories.SweepTwiceIsOnce` | backend/job_service/db.py:577-656 | repeating a sweep changes and returns nothing |
| `JobHistories.SweepSparesWaitingJobs` | backend/job_service/db.py:577-656 | with the default waiting field no job paused for user input is touched |
| `JobHistories.OtherWaitingFieldSweepsPausedJob` | backend/job_service/db.py:564-606 | the failing case: any other waiting field sweeps a job waiting for answers |
| `JobHistories.HeartbeatNeverGoesBack` | backend/job_service/db.py:553-561 | until its row is created again, replaced or deleted, a job keeps its creation time and its heartbeat never goes back |
| `JobHistories.HeartbeatKeepsJobAlive` | backend/job_service/db.py:564-606 | after a heartbeat no stale sweep with an earlier cutoff touches the job, whatever happened in between |
| `JobHistories.LogIsComplete` | backend/job_service/db.py:494-550 | over every history the event log is its start plus every appended event, in commit order |
| `JobHistories.PatchCounts` | backend/job_service/db.py:435-441 | a patch adds to a counter exactly the sum of its increments |
| `JobHistories.PatchAppends` | backend/job_service/db.py:425-434 | a patch appends to a list exactly its items, in order |
| `JobHistories.CounterIsTheSum` | backend/job_service/db.py:373-460 | over every history a counter is its start plus all committed increments |
| `JobHistories.ListIsTheConcatenation` | backend/job_service/db.py:373-460 | over every history a list is its start plus all committed items, in commit order |
| `RowLock.EveryRunIsSerial` | backend/job_service/db.py:393-460 | every interleaving of lock, write, read-back, commit, crash and single statements equals the serial run in commit order, in the table and in every answer |
| `RowLock.NoLostIncrement` | backend/job_service/db.py:393-460 | whatever the interleaving, no increment is lost |
| `RowLock.NoLostAppend` | backend/job_service/db.py:393-460 | whatever the interleaving, no appended item is lost |
| `RowLock.NoLostEvent` | backend/job_service/db.py:494-550 | whatever the interleaving with patches, no appended event is lost |
| `RowLock.CancelSurvivesPatches` | backend/job_service/db.py:393-460 | a committed cancellation survives every later status-free call |
| `HumanInTheLoop.AnswersAccumulate` | backend/agents/job_service_client.py:794-858 | over a serial history `submitted_answers` is the concatenation of all submissions in commit order |
| `HumanInTheLoop.PauseHistoryIsKept` | backend/agents/job_service_client.py:794-858 | under every interleaving of row-locked patches the answers are all submissions in commit order, and the pending questions are those asked since the last submission that closed the pause |
| `HumanInTheLoop.SubmitEndsPauseAppendKeepsIt` | backend/agents/job_service_client.py:821-858 | submitting clears the questions and the flag; appending keeps every other field; neither changes the status |
| `HumanInTheLoop.PauseIsOneWrite` | backend/agents/job_service_client.py:794-818 | the flag, the resume token and the questions appear in one write |
| `Fencing.MarkIsTheMaximum` | backend/shared/fencing.py:57-92 | the recorded mark is the largest token presented for the key |
| `Fencing.AcceptedExactlyWhen` | backend/shared/fencing.py:77-92 | a write is accepted if and only if no earlier write of its key presented a higher token |
| `Fencing.AcceptedTokensNonDecreasing` | backend/shared/fencing.py:77-92 | accepted tokens never go down, and writers sharing the newest token are all accepted |
| `Fencing.TokenIsTheTotal` | backend/job_service/db.py:435-460 | the read-back token is the start plus all increments committed so far |
| `Fencing.TokensStrictlyIncrease` | backend/agents/job_service_client.py:490-518 | minted tokens are distinct and increase in commit order |
| `Fencing.InterleavedTokensIncrease` | backend/job_service/db.py:393-460 | the same under every interleaving of row-locked patches |
| `Fencing.OlderIncarnationFenced` | backend/shared/fencing.py:57-92 | after a newer incarnation's first write no older one's write is accepted |
| `LossyClient.Channel.Send` | backend/agents/job_service_client.py:174-254 | the retry loop does, attempt by attempt, what the request over a lossy network is specified to do |
| `LossyClient.ReplyExactlyWhen` | backend/agents/job_service_client.py:217-254 | the call returns if and only if an attempt gets a response and every earlier one was never sent, or was lost with a harmless method; it raises the status error exactly when one gets that first, otherwise the transport error; it notes an ambiguity exactly when an attempt it made was lost |
| `LossyClient.Channel.DeleteJob` | backend/agents/job_service_client.py:278-312 | reports `True` when the server deleted the row or an attempt was ambiguous |
| `LossyClient.NonIdempotentAtMostOnce` | backend/agents/job_service_client.py:217-254 | a POST or PATCH is executed at most once, counting copies still in flight; exactly once when it returns; not at all when nothing was sent |
| `LossyClient.IncrementExactlyOnce` | backend/agents/job_service_client.py:520-522 | a counter incremented through the lossy network gains the delta at most once, and exactly once when the call returns, besides the increments of other patches that went through, whatever else those patches merge |
| `LossyClient.DeleteReturns` | backend/agents/job_service_client.py:307-312 | when a delete returns the row is absent; `False` means no attempt removed it; an unambiguous `True` means this call did |
| `LossyClient.DeleteAnswersExactlyWhen` | backend/agents/job_service_client.py:278-312 | a delete answers if and only if an attempt gets a response after retried ones, and then `True` if and only if the row was there for that attempt or an earlier one was lost |
| `LossyClient.DeleteReportsExistingRow` | backend/agents/job_service_client.py:307-312 | absent other deleters, a row that existed at the start is reported deleted |
| `LossyClient.NeverExistedMayReportDeleted` | backend/agents/job_service_client.py:278-312 | the accepted limitation: a job that never existed, whose answer was lost, is reported deleted |
| `CircuitBreaker.Breaker.GetCircuit` | backend/unified_api/circuit_breaker.py:71-74 | the team's circuit, created closed on first use |
| `CircuitBreaker.Breaker.IsOpen` | backend/unified_api/circuit_breaker.py:76-97 | rejects while open and recent; an open circuit past its timeout becomes half-open and admits |
| `CircuitBreaker.Breaker.GetState` | backend/unified_api/circuit_breaker.py:99-102 | the team's state |
| `CircuitBreaker.Breaker.RecordSuccess` | backend/unified_api/circuit_breaker.py:104-117 | closes the circuit and clears the count |
| `CircuitBreaker.Breaker.RecordFailure` | backend/unified_api/circuit_breaker.py:119-140 | counts the failure; opens at the threshold, or at once when half-open |
| `CircuitBreaker.CircuitsAreFaithful` | backend/unified_api/circuit_breaker.py:76-140 | after any history the circuit is what the failures since the last success say |
| `CircuitBreaker.RejectedExactlyWhen` | backend/unified_api/circuit_breaker.py:76-97 | a request is rejected if and only if the failures since the team's last success reach the threshold and the last is more recent than the timeout |
| `CircuitBreaker.ClosedExactlyWhen` | backend/unified_api/circuit_breaker.py:104-140 | closed if and only if those failures are below the threshold |
| `CircuitBreaker.TeamsAreIndependent` | backend/unified_api/circuit_breaker.py:71-140 | after any history a team's circuit is the one its own calls alone would have left |
| `CircuitBreaker.HalfOpenAdmitsEveryone` | backend/unified_api/circuit_breaker.py:76-97 | once admitted, every caller is admitted until the next outcome is recorded |
| `DeliveryDedup.Deliveries.IsDuplicateDelivery` | backend/unified_api/github_events_handler.py:380-417 | `True` exactly for an unexpired entry; otherwise records the delivery and evicts the oldest half of the cap when over it |
| `DeliveryDedup.Deliveries.EvictOldest` | backend/unified_api/github_events_handler.py:411-416 | the eviction loop drops exactly the oldest entries |
| `DeliveryDedup.Deliveries.ForgetDelivery` | backend/unified_api/github_events_handler.py:420-433 | removes the entry; an empty id is ignored |
| `DeliveryDedup.TableBoundedAndOrdered` | backend/unified_api/github_events_handler.py:403-417 | after any run the table holds at most the cap, one entry per delivery, and insertion order is expiry order |
| `DeliveryDedup.EntryHasARecording` | backend/unified_api/github_events_handler.py:403-417 | every entry was put there by a recording that nothing has undone since |
| `DeliveryDedup.DuplicateWasRecorded` | backend/unified_api/github_events_handler.py:380-417 | a `True` answer implies a recording within the time to live, not forgotten since |
| `DeliveryDedup.RedeliveryIsRecognized` | backend/unified_api/github_events_handler.py:403-417 | a delivery not forgotten and followed by at most cap − cap/2 recordings is still detected within its time to live |
| `DeliveryDedup.OneMoreRecordingCanLoseTheEntry` | backend/unified_api/github_events_handler.py:403-417 | the bound is tight for every cap: one recording more, and the redelivery is processed again |
| `DeliveryDedup.ForgottenIsNotDuplicate` | backend/unified_api/github_events_handler.py:420-433 | a forgotten delivery is processed again |
| `Redaction.ContainsSomewhere` | backend/agents/agent_cognition/redaction.py:87-89 | the substring test holds if and only if the hint occurs at some position |
| `Redaction.SecretKeysAreSpelled` | backend/agents/agent_cognition/redaction.py:87-89 | a key is secret if and only if some position spells one of the nine hints, up to letter case |
| `Redaction.SanitizeForMemory` | backend/agents/agent_cognition/redaction.py:61-84 | the recursive sanitizer, filling a result dictionary in a loop, computes the sanitized value |
| `Redaction.SanitizedIsSafe` | backend/agents/agent_cognition/redaction.py:61-84 | for every value the result is safe: JSON types only, at most 50 entries, strings of at most 512 characters plus the marker, secret keys starred, nothing below depth four |
| `Redaction.LastEntryWins` | backend/agents/agent_cognition/redaction.py:65-75 | when keys coincide as text, the last of the kept entries stays |
| `Redaction.KeptEntryIsStored` | backend/agents/agent_cognition/redaction.py:65-75 | a kept entry is stored with `***` if its key names a secret, and with its sanitized value otherwise |
| `Redaction.StoredEntryWasKept` | backend/agents/agent_cognition/redaction.py:65-75 | every stored entry comes from a kept one in this way |
| `Redaction.UnchangedExactlyWhenSafe` | backend/agents/agent_cognition/redaction.py:61-84 | sanitizing leaves a value alone if and only if it is safe |
| `Redaction.SanitizingTwice` | backend/agents/agent_cognition/context.py:293-307 | sanitizing again at the same depth or above changes nothing |
| `Redaction.SafeBelowExactlyWhenShallow` | backend/agents/agent_cognition/redaction.py:61-84 | the sanitized value is safe one level deeper if and only if the input's kept part reaches level three only with the depth marker |
| `Redaction.WrappedStaysExactlyWhen` | backend/agents/agent_cognition/context.py:293-307 | as one field of an event's data the sanitized value survives the second pass if and only if the input's kept part reaches level three only with the depth marker |
| `Redaction.WrappingLosesALevel` | backend/agents/agent_cognition/redaction.py:61-64 | a value that passes whole at the top is not safe one level deeper |
| `Redaction.SanitizedIsBounded` | backend/agents/agent_cognition/redaction.py:61-84 | the result has at most 6377551 nodes and depth at most four |
| `Redaction.CutStringsExceedTheLimit` | backend/agents/agent_cognition/redaction.py:78-84 | a string stays within 512 characters if and only if it was; a longer one is stored with 524, beginning as it did |
| `Redaction.AnyKeyPassesWhole` | backend/agents/agent_cognition/redaction.py:65-75 | a mapping key of any length is stored whole |
| `Redaction.KeysBoundedExactlyWhen` | backend/agents/agent_cognition/redaction.py:65-75 | every key of the result is within a limit if and only if every kept key of the input above depth four is |
| `Redaction.SecretsDoNotLeak` | backend/agents/agent_cognition/redaction.py:65-75 | two values that differ only under secret keys sanitize to the same value |
| `AuditChain.FinalizeAuditResult` | backend/agents/accessibility_audit_team/audit_execution.py:463-514 | the counting loop yields the four severity counts; the report phase is recorded once; the audit succeeds |
| `AuditChain.CountsAddUp` | backend/agents/accessibility_audit_team/audit_execution.py:498-507 | the four severity counts add up to the total |
| `AuditChain.CountIsPositions` | backend/agents/accessibility_audit_team/audit_execution.py:498-507 | each count is the number of findings of that severity |
| `AuditActivities.AuditJob.PersistAuditState` | backend/agents/accessibility_audit_team/audit_execution.py:329-370 | answers whether the write was acknowledged |
| `AuditActivities.AuditJob.PersistUnlessJobTerminal` | backend/agents/accessibility_audit_team/audit_execution.py:373-407 | a decided job is left alone, and that is no failure; otherwise the write lands, whatever others made of the job and the state since the check |
| `AuditActivities.AuditJob.RunIntakeStep` | backend/agents/accessibility_audit_team/audit_execution.py:517-588 | starts from a fresh state unless intake was already recorded or failed |
| `AuditActivities.AuditJob.RunDiscoveryStep` | backend/agents/accessibility_audit_team/audit_execution.py:591-652 | needs an audit plan; hands back a state already past discovery or failed |
| `AuditActivities.AuditJob.RunVerificationStep` | backend/agents/accessibility_audit_team/audit_execution.py:655-712 | needs a discovery result; hands back a state already past verification or failed |
| `AuditActivities.AuditJob.RunReportPackagingStep` | backend/agents/accessibility_audit_team/audit_execution.py:715-773 | needs a verification result; hands back a state already packaged or failed |
| `AuditActivities.AuditJob.FinalizeAuditStep` | backend/agents/accessibility_audit_team/audit_execution.py:776-818 | needs a report; hands back a finalized state; does not look at the failure reason |
| `AuditActivities.AuditJob.RunPhase` | backend/agents/accessibility_audit_team/temporal/activities.py:176-299 | one activity attempt, with anything happening between its three checks and their writes, is the interleaving model's events in a row; it passes exactly when the step answered without a failure reason |
| `AuditActivities.AttemptDecidesTheJob` | backend/agents/accessibility_audit_team/temporal/activities.py:263-299 | whatever happens in the gaps: an answer with a failure reason, a finalized audit and a raise on the last attempt leave a decided job, failed or completed as the answer says unless it was decided meanwhile |
| `AuditActivities.BrokenPhaseFailsTheJob` | backend/agents/accessibility_audit_team/temporal/activities.py:286-298 | with nothing in the way, a phase that breaks stores its reason and fails the job with the stored state |
| `AuditActivities.AuditJob.FinalizeActivity` | backend/agents/accessibility_audit_team/temporal/activities.py:398-475 | likewise for the finalize activity, which decides the job; it passes exactly when the job was completed or the step answered a success |
| `AuditActivities.FinalizedAuditCompletesTheJob` | backend/agents/accessibility_audit_team/temporal/activities.py:461-475 | with nothing in the way, finalizing completes the job with the report's findings, counted by severity |
| `AuditActivities.AuditJob.MarkAuditTimedOut` | backend/agents/accessibility_audit_team/audit_execution.py:826-908 | leaves a decided job or an ended state alone, otherwise fails the job and writes back what it saw, flipped, whatever the phases did meanwhile; raises exactly when it decided and the state was unreadable or its write not acknowledged |
| `AuditActivities.AuditJob.RunAuditJob` | backend/agents/accessibility_audit_team/audit_execution.py:186-256 | runs the pipeline only when neither the job nor the stored state is ended; the job is completed or failed as the result, or the state found ended, succeeded or not |
| `AuditActivities.EndedPipelineIsNotRunAgain` | backend/agents/accessibility_audit_team/audit_execution.py:186-256 | over any sequence of attempts, once one left an ended state or a decided job no later one runs the orchestrator, and the job becomes the stored verdict or stays |
| `AuditRuns.StepKeepsValid` | backend/agents/accessibility_audit_team/audit_execution.py:398-407 | every look, check, write, load, report, crash and sweep keeps the chain's invariant; only the timeout's write can lose a phase or overwrite a success |
| `AuditRuns.CompletedPhasesAreAPrefix` | backend/agents/accessibility_audit_team/audit_execution.py:548-588 | over every run the recorded phases are a duplicate-free initial part of the chain, and exactly they have results |
| `AuditRuns.SuccessMeansAllFour` | backend/agents/accessibility_audit_team/audit_execution.py:797-818 | over every run a stored success has all four phases |
| `AuditRuns.PhaseResultNeverChanges` | backend/agents/accessibility_audit_team/audit_execution.py:615-652 | over every run a persisted phase result is never replaced by another: wherever the phase is recorded again it has that result |
| `AuditRuns.PhaseResultLostExactlyWhen` | backend/agents/accessibility_audit_team/audit_execution.py:866-908 | in every reachable world a step loses a phase result if and only if it is the timeout writing back what it saw before the phase was persisted |
| `AuditRuns.DecidedJobIsFinalExactlyWhen` | backend/agents/accessibility_audit_team/audit_execution.py:398-407 | in every reachable world with a decided job nothing that can still happen changes job or state, if and only if no guarded write that would change something is pending |
| `AuditRuns.EndedStateIsFinalExactlyWhen` | backend/agents/accessibility_audit_team/audit_execution.py:797-818 | in every reachable world an ended state can no longer change, if and only if no persist is past its check, no timeout past its look at a state, and it is a success or, as a finished report under a failure reason, guarded by a decided job |
| `AuditRuns.UndisturbedRunGrows` | backend/agents/accessibility_audit_team/audit_execution.py:548-588 | when nothing decides the job or writes the state between another writer's look and its write, phases and results only accumulate and a success stays |
| `AuditRuns.FirstOutcomeWins` | backend/agents/accessibility_audit_team/audit_execution.py:797-818 | under that condition so far, a stored success or failure reason never changes again |
| `AuditRuns.DecidedJobFreezesEverything` | backend/agents/accessibility_audit_team/audit_execution.py:398-407 | under that condition so far, a completed or failed job and its stored state never change again |
| `AuditRuns.CompletedJobHasTheStoredResult` | backend/agents/accessibility_audit_team/temporal/activities.py:461-475 | under that condition, a completed job carries the stored success of all four phases |
| `AuditRuns.TimeoutEndsTheStateExactlyWhen` | backend/agents/accessibility_audit_team/audit_execution.py:866-908 | the timeout's write, outside the worker's windows, ends the job for good, and the unended stored state with it if and only if the look found a state and the write was not refused |
| `AuditRuns.TimeoutInTheWindowIsUndone` | backend/agents/accessibility_audit_team/audit_execution.py:398-407 | a timeout inside the window of a persist is undone by the write: the state is ended afterwards if and only if the held state is an outcome of its own |
| `AuditRuns.LateWriteUnendsTheAudit` | backend/agents/accessibility_audit_team/audit_execution.py:398-407 | the failing case: from the start, discovery passes its check, the timeout ends the audit, the late write un-ends it |
| `AuditRuns.LateTimeoutLosesAPhase` | backend/agents/accessibility_audit_team/audit_execution.py:866-908 | the failing case the other way round: discovery is persisted inside the timeout handler, which then writes the state without it |
| `AuditRuns.LateJobWritesOverrule` | backend/agents/accessibility_audit_team/temporal/activities.py:202-206 | the same for the job: a late `running` write revives a failed job, a late verdict replaces the failure |
| `AuditActivities.UndisturbedChainCompletes` | backend/agents/accessibility_audit_team/temporal/activities.py:176-299 | with nothing in the way the five activities complete the job and keep each phase's result and the counts |

## Left out

- FastAPI routes, HTTP encoding, SSE, Slack and GitHub calls, Temporal's scheduler and the LLM phases: plumbing, or arbitrary outcomes here.
- Postgres: statements are atomic and row locks are held to commit, as documented there.
- Retry backoff sleeps and logging of the job client: no effect on what is served.
- Storage failures of best-effort writers: the step is taken not to have happened; theorems are about the steps that did.
- SHA-256, canonical JSON encoding and event decoding: arbitrary functions of the gate.
- Rule predicates, rollups and context assembly: arbitrary predicates and an arbitrary context.
- Wording of refusal messages, and stripping of the idempotency header: the gate takes the stripped key.
- Timestamps: integers (microseconds in the ledger) or reals; ISO text and time zones are not modelled.
- JobStore.JobTable.ApplyPatch: nested dictionaries are values, so aliasing between a patch's value and the stored tree is not captured.
- JobStore.JobTable.UpdateJobIfNotCancelled: the SELECT that tells cancelled from missing is taken together with the update.
- JobStore.JobTable.MarkStaleActiveJobsFailed: the order in which SQL evaluates the conditions is not modelled; any cast error on an active job of the team fails the sweep.
- LossyClient.Channel.DeleteJob: fixed to the client's four attempts; `Send` takes any number.
- DeliveryDedup: the lock is left out, each call being one step; the dispatch conditions around it are not modelled.
- Redaction: non-ASCII case folding of keys; an object outside the JSON types is known only by its `repr`, which is not searched for secrets.
- InvokeGate.Gate.FinalizeInvoke: redaction, identifiers and normalised times of the persisted events are not carried in the event payloads.
- AuditActivities.AuditJob.MarkAuditTimedOut: its look at the job and the state is one step, and so are its two writes; retries of one activity do not overlap.
- AuditActivities.AuditJob.RunAuditJob: the orchestrator's inner phases are one step with an arbitrary result.
- The cancelled and interrupted statuses of an audit job, the retest activity and the job row's progress fields.
- Credential storage, integration settings, WCAG tables and team configuration: data or thin wrappers.
