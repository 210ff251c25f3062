# Audit log: verified model

This project models the parts of the audit log on which its evidence rests, and proves what
they promise. A row key is `(created_at in microseconds, id)` under one total order (`Keys`),
a table is a finite map from keys to entries (`Rows`), and ordered, limited selection is
`Pages`.

- **Durable stream** (`StreamProtocol`, `StreamTheorems`, `StreamRunner`, `PostgresStore`,
  `StreamDeadLetters`, `StreamLostLetter`).
  The runner, its checkpoint store, sink, dead-letter store and a table that keeps changing
  are a state machine in which every call may succeed, fail, or take effect and then report
  failure, and the process may die anywhere. `StreamRunner` is the imperative code, a
  generator class and the delivery loops, proved to take only steps of that machine.
- **Transactions** (`AtomicProtocol`, `AtomicHandlers`, `Preimages`, `PreimageHistory`,
  `BatchDeletes`, `ManualTransaction`, `Projection`). Handlers, lifecycles and concurrent log
  calls are interleaved steps; the handler methods refine them. `Preimages` adds row locks and other
  transactions for single records, `PreimageHistory` says what a committed record tells about
  the history it comes from, `BatchDeletes` has the deleteMany and its `where`.
- **Nested writes** (`NestedWrites`). Arguments are a heap that may be shared or cyclic.
- **Values** (`Keyed`, `Values`, `Diff`). JavaScript values with insertion-ordered keys, the
  stable serialization, redaction and change sets.
- **Translations** (`Wildcard`, `CanonicalJson`, `JsonGraph`, `JsonReader`, `Csv`, `Base64Url`,
  `Calendar`, `Cursor`, `Pagination`). Each translation is proved against an independent reading of its output:
  a matcher with one wildcard, a parser for section 2 of RFC 4180, a reader of RFC 8259, a
  base64url decoder, the calendar, the whole sorted list.
- **Retention** (`Partitions`, `Retention`, `StreamRetention`). Prune and the partition plan,
  and the bridge back to the stream's theorems.

Where a promise holds only under a condition, the condition is stated and a lemma shows a
concrete failure without it: rows that commit behind the scan position (`LateRowIsMissed`),
dead letters stored once per batch id (`RowLostBehindLetter`, `LateRowMissesDeadLetter`), a
stored watermark whose rows were removed (`StallIsReached`), writes and lifecycles that are
not awaited (`UnawaitedWriteCommitsWithoutRow`, `UnawaitedLifecycleSuppresses`), two handlers
in flight on one row (`InterleavedHandlersFail`), a batch whose matches change before
they are locked (`SwappedBatchCommits`), cyclic arguments (`CyclicDataHidesWrite`), a record
without a key of its successor (`UpdateComposesNeedsKeys`), partition bounds inside a
millisecond (`UnalignedBoundOutrunsStream`), and a checkpoint that names no moment
(`NilCheckpointGuardsNothing`).

At least once is proved twice. `StreamTheorems.AtLeastOnce` takes the dead-letter store at its
interface: a write that takes effect accepts the whole batch. The PostgreSQL table keeps only
the first batch of an id, which a replay after a failed checkpoint save can share with a
longer batch; `StreamDeadLetters` states what that table still guarantees over every history,
and the condition under which nothing is lost.

Times in `Retention` and `Cursor` count from 0001-01-01T00:00:00Z, so a JavaScript date is
its millisecond on that line. In classes that stand for the outside world a call's outcome is
chosen arbitrarily (`:= *`), so the contracts hold for every behaviour of the database, the
sink and other sessions. Ghost fields (`faults`, `answers`) record what was answered, so that a
method that fails or gives up can be held to a reason. An `Interfere` method stands for an await: its contract allows any
history of the others, and its callers rely on nothing else.

Check the project with `dafny verify dfyconfig.toml`.

## Model

| member | source | states |
|---|---|---|
| `StreamTheorems.AtLeastOnce` | src/stream/audit-stream.ts:112-180 | With the sink and the dead-letter store taken at their interfaces (what takes effect takes the whole batch), over every history of inserts, removals, deliveries, lost acknowledgements, failed saves, crashes and restarts: a matching row at or before the stored checkpoint was taken, unless it counts as late, and then some step inserted it behind the scan position of that moment; the checkpoint is at or before the stored watermark |
| `StreamTheorems.MissedExactly` | src/stream/audit-stream.ts:112-180 | When no key is inserted twice, such a row was taken if and only if it does not count as late: the late rows are exactly the missed ones |
| `StreamDeadLetters.StoredAtLeastOnce` | src/stream/postgres-store.ts:65-85 | With the dead-letter table as it is, which keeps the first batch of each batch id, and ids that never name two rows, over the same histories: such a row is with the sink or in a stored dead letter, unless it is late or lies between the ends of a dead letter that was written without it |
| `StreamDeadLetters.UndisturbedAtLeastOnce` | src/stream/postgres-store.ts:65-85 | Without that last exception as long as rows above the checkpoint stay and no matching row arrives between the ends of a batch in flight, or of a dead letter, that is not full and not yet passed |
| `StreamLostLetter.RowLostBehindLetter` | src/stream/postgres-store.ts:82 | The exception is real: from an empty store, a history in which the checkpoint passes a row that is not late and that neither the sink nor a dead letter has |
| `StreamTheorems.LateOrigin` | src/stream/audit-stream.ts:138-140 | A row counts as late only if some step of the history really inserted it behind the scan position |
| `StreamTheorems.CheckpointMonotone` | src/stream/audit-stream.ts:163-170 | From any reachable state on, the stored checkpoint never moves back |
| `StreamTheorems.LateRowIsMissed` | src/stream/audit-stream.ts:138-140 | The exception is real: a concrete history in which a row commits behind the checkpoint and is passed undelivered |
| `StreamTheorems.RunEndsAtWatermark` | src/services/audit-scan.service.ts:80-136 | While nothing above the checkpoint is removed, a run that finishes over a non-empty range leaves the checkpoint at the watermark it fixed at its start, with no watermark pending |
| `StreamTheorems.RunDeliversItsRange` | src/services/audit-scan.service.ts:80-136 | Under the same condition a run that finishes has delivered every matching row its watermark query saw from the checkpoint up to the watermark |
| `StreamTheorems.AheadRowsAreDelivered` | src/stream/audit-stream.ts:134-171 | Under the same condition a matching row that is ahead of the checkpoint stays ahead until it is accepted: no history loses it |
| `StreamTheorems.ResumeFindsRows` | src/stream/audit-stream.ts:119-129 | Under the same condition a restart with a stored watermark always finds rows to deliver |
| `StreamTheorems.EmptyRangeStalls` | src/stream/audit-stream.ts:136 | The condition is needed: once the range up to a stored watermark is empty, every history that leaves that range alone keeps the state and delivers nothing, however many runs it has |
| `StreamTheorems.StallIsReached` | src/stream/audit-stream.ts:136-141 | A concrete history from an empty store ends in such a state: a run saves its watermark and dies, and the rows up to it are removed |
| `StreamTheorems.ReplayIsTheSameBatch` | src/stream/audit-stream.ts:137-170 | After a lost checkpoint save, and if nothing was inserted or removed between checkpoint and stored watermark, the next delivery has the same entries in the same order and the same batch id, whatever arrived beyond the watermark |
| `StreamProtocol.StepKeepsInv` | src/stream/audit-stream.ts:112-180 | Every step of the protocol keeps the invariant behind at-least-once, and no step moves the checkpoint back |
| `StreamProtocol.CutPage` | src/services/audit-scan.service.ts:121-134 | Cutting the one extra row off a query's answer leaves a page of the range, with all other rows after its last key |
| `StreamRunner.World.Load` | src/stream/audit-stream.ts:114-117 | Reads the stored state and starts the run in the protocol's state for it |
| `StreamRunner.World.Save` | src/stream/postgres-store.ts:51-63 | An acknowledged save is the store's state; a failed one stops the run, with or without having taken effect |
| `StreamRunner.World.QueryWatermark` | src/services/audit-scan.service.ts:198-244 | The answer is the greatest matching key of the run's range as the table stands at the query, or none when the range is empty |
| `StreamRunner.World.QueryPage` | src/services/audit-scan.service.ts:96-123 | The answer is the ordered, limited selection of the matching keys between checkpoint and watermark as the table stands at the query |
| `StreamRunner.World.SinkDeliver` | src/stream/audit-stream.ts:191-226 | One attempt: acknowledged, retried, dead-lettered or stopped exactly as the protocol allows for the attempt count and the error's kind |
| `StreamRunner.World.DeadLetterWrite` | src/stream/audit-stream.ts:213-217 | A write that takes effect inserts the batch under its id unless the id is there; an acknowledged one acknowledges the page, a failed one stops the run |
| `StreamRunner.PageScan.ResolveHighWatermark` | src/services/audit-scan.service.ts:64-78 | The watermark is the greatest matching key in the caller's range; a run never asks with both ends equal, so the shortcut for that case is not taken |
| `StreamRunner.PageScan.PageConditions` | src/services/audit-scan.service.ts:85-96 | The conditions pushed for a page select exactly the matching rows after the last key and up to the watermark |
| `StreamRunner.PageScan.FetchRows` | src/services/audit-scan.service.ts:97-113 | The page query from the pushed conditions; it may throw and stop the run, otherwise the run stands at the page of its answer |
| `StreamRunner.PageScan.Fetch` | src/services/audit-scan.service.ts:97-134 | One turn of the page loop: a non-empty page within the batch size that ends at its checkpoint, or the end of the scan |
| `StreamRunner.PageScan.Next` | src/services/audit-scan.service.ts:59-136 | The generator: first the watermark, then pages, then exhaustion; it refines the protocol step by step |
| `StreamRunner.DeliverPage` | src/stream/audit-stream.ts:182-243 | At most `maxRetries + 1` attempts, all but the last answered by a retryable error; delivered means that the sink acknowledged the page and has all its keys, dead-lettered that its batch id is in the dead letters after a terminal answer; it gives up only when the attempts are used up, on a terminal answer without dead letters, or when something else went wrong |
| `StreamRunner.ProcessPage` | src/stream/audit-stream.ts:137-170 | Watermark saved before the first delivery, checkpoint only after the acknowledgement; the page is with the sink or in the dead letters as reported; without a fault it succeeds |
| `StreamRunner.Complete` | src/stream/audit-stream.ts:157-170 | A processed page is added to the acknowledged pages, and its keys to the delivered or the dead-lettered count, whichever it was |
| `StreamRunner.Turn` | src/stream/audit-stream.ts:134-171 | One turn of the delivery loop keeps the tally of what was acknowledged and stored |
| `StreamRunner.StartState` | src/stream/audit-stream.ts:112-132 | Loads the state and saves it without its watermark when the checkpoint has reached it; the checkpoint does not change |
| `StreamRunner.RunPages` | src/stream/audit-stream.ts:134-171 | The delivery loop ends, with every page acknowledged and stored before the next is asked for |
| `StreamRunner.RunOnce` | src/stream/audit-stream.ts:112-180 | The imperative run refines the protocol and ends without a result only after a fault; its acknowledged keys are strictly ascending, accepted and passed by the checkpoint; they split into those the sink has, which `deliveredEntries` counts, and those of dead-lettered pages, which `deadLetteredEntries` counts (none without a dead-letter store); `batches` counts the pages |
| `StreamRunner.SunkIsDelivered` | src/stream/audit-stream.ts:157-161 | Every key counted as delivered is with the sink |
| `StreamRunner.TakenSplit` | src/stream/audit-stream.ts:157-161 | Every acknowledged key is counted exactly once |
| `PostgresStore.WriteOnce` | src/stream/postgres-store.ts:65-85 | Repeating a dead-letter write changes nothing; after a write the letter of the batch's id holds all its entries exactly when the id is new or its letter held them before |
| `PostgresStore.ReplayedDeadLetter` | src/stream/postgres-store.ts:74-83 | A replayed batch with the same ends is covered by the dead letter kept from the first time exactly when no row arrived between its ends; a full batch always is |
| `PostgresStore.LateRowMissesDeadLetter` | src/stream/postgres-store.ts:82 | The failing case: a row between the ends of a short, already dead-lettered batch is not in the stored letter |
| `Rows.BuildScanConditions` | src/services/audit-scan.service.ts:154-196 | The pushed conditions hold of a row exactly when it matches the scan filter and lies in the range |
| `Pages.SelectPage` | src/services/audit-scan.service.ts:106-109 | Ordered, limited selection: ascending, within the limit, and what is left out comes after |
| `Pages.PageUnique` | src/services/audit-scan.service.ts:106-109 | Such a selection has exactly one answer |
| `AtomicProtocol.CommittedMeansComplete` | src/prisma/audit-extension.ts:135-149 | When the transaction commits and every started handler had settled before the callback returned, each mutation whose query succeeded has exactly its rows: one row saying created, updated or deleted, which shows the preimage that was found, or for a deleteMany one per affected record, which show the captured records in order. The exceptions are suppressed deletes and, only with `ignoreTimestampOnlyUpdates`, updates and upserts that found a record and left every field equal but the schema's updated-at fields |
| `AtomicProtocol.EvidenceExactly` | src/prisma/audit-extension.ts:135-149 | Call by call, at any moment of any history and whatever else was not awaited: a mutation that is not exempt has exactly its rows if and only if its handler has settled with success |
| `AtomicProtocol.CommittedWithoutOption` | src/prisma/audit-extension/operation-handlers/update.ts:136-144 | Without that option only suppressed deletes go without their rows |
| `AtomicProtocol.FailureForcesRollback` | src/prisma/audit-extension.ts:139-146 | A failure marked while the callback runs stays the first one and nothing commits: the callback's end rolls back with it, unless the callback itself throws or the host fails first |
| `AtomicProtocol.FailureAfterMutationIsMarked` | src/prisma/audit-extension/audit-errors.ts:34-42 | A handler that fails after its query succeeded has marked the transaction |
| `AtomicProtocol.SummariesNeverRun` | src/prisma/audit-extension/operation-handlers/bulk.ts:40-60 | Audited createMany and updateMany calls never reach their query in this mode, in any history |
| `AtomicProtocol.SuppressedIffLifecycleSucceeded` | src/prisma/audit-extension.ts:167-207 | With the lifecycles inside it ended, an outer delete goes without a row exactly when at least one lifecycle that named its model and operation succeeded |
| `AtomicProtocol.StepKeepsInv` | src/prisma/audit-extension.ts:100-150 | Every handler, lifecycle and outcome step keeps the account of owed rows and tokens |
| `AtomicProtocol.UnawaitedWriteCommitsWithoutRow` | src/prisma/audit-extension.ts:138-146 | The failing side, committed: a create that is not awaited has run its query, its handler has not settled, and it has no row |
| `AtomicProtocol.UnawaitedLifecycleSuppresses` | src/prisma/audit-extension.ts:177-206 | A lifecycle still running at the end of the query suppresses although it may fail later |
| `AtomicHandlers.TransactionScope.ReportAuditError` | src/prisma/audit-extension/audit-errors.ts:34-70 | Marks first, and only the first failure is kept |
| `AtomicHandlers.TransactionScope.Enter` | src/prisma/audit-extension/operation-handlers/create.ts:38-52 | Entry of a handler: the actor may fail and mark the scope, otherwise the operation starts in its first phase |
| `AtomicHandlers.TransactionScope.ReadBefore` | src/prisma/audit-extension/operation-handlers/update.ts:64-83 | Pre-read of one record or none, handed on as the locked re-read found it; a failure ends the handler before its query |
| `AtomicHandlers.TransactionScope.ReadBatch` | src/prisma/audit-extension/operation-handlers/bulk.ts:200-243 | Pre-read of a batch in the shared scope: ends the handler before its query exactly if something failed or more than `limit` records matched, else hands on the records read again; which records they are is `BatchDeletes` |
| `AtomicHandlers.TransactionScope.RunQuery` | src/prisma/audit-extension/operation-handlers/bulk.ts:245-310 | After the query: suppressed, stopped by a count mismatch, or rows owed |
| `AtomicHandlers.TransactionScope.HandleCreate` | src/prisma/audit-extension/operation-handlers/create.ts:37-127 | A create ends settled with its result; on success its rows are exactly one that says created and shows no preimage; it fails exactly if something failed on its way, and a failure after its query is marked |
| `AtomicHandlers.TransactionScope.HandleUpdateUpsertDelete` | src/prisma/audit-extension/operation-handlers/upsert.ts:45-187 | An update, upsert or delete ends settled with its result; on success its rows are exactly one with the record the locked re-read found, saying deleted, created for an upsert that found nothing, else updated; it goes without a row exactly if suppressed or if only timestamps changed, and fails exactly if something failed on its way |
| `AtomicHandlers.TransactionScope.HandleDeleteMany` | src/prisma/audit-extension/operation-handlers/bulk.ts:183-345 | A deleteMany ends settled with its result; on success it was suppressed or has one deleted row per record read again, in order and at most `limit`; it fails exactly if something failed, too many records matched, or the query changed another number of records |
| `AtomicHandlers.TransactionScope.WriteBatch` | src/prisma/audit-extension/operation-handlers/bulk.ts:311-341 | The per-record loop writes the owed rows in order |
| `AtomicHandlers.TransactionScope.AfterCallback` | src/prisma/audit-extension.ts:139-146 | Throws the first failure exactly when one was marked; when it does not throw and every handler had settled, each mutation that succeeded has its evidence |
| `AtomicHandlers.SettledRun` | src/prisma/audit-extension.ts:135-149 | What is settled is final: no later step of any handler, lifecycle or outcome changes an operation's result or its rows |
| `AtomicHandlers.TransactionScope.AwaitAll` | src/prisma/audit-extension.ts:135-149 | A callback that awaits any calls one after another, whatever it does with their results: when its end does not throw, each call that succeeded has its evidence and no other changed a record |
| `BatchDeletes.CommittedBatch` | src/prisma/audit-extension/operation-handlers/bulk.ts:200-341 | A committed deleteMany has as many audit rows as it deleted records; each that names a deleted record shows it as it was; and the rows name exactly the deleted records if and only if every captured record, as read again under its lock, still matches `where` |
| `BatchDeletes.SameCountSameRecords` | src/prisma/audit-extension/operation-handlers/bulk.ts:303-310 | What the comparison of counts is worth: with equal counts the captured and the deleted keys are the same exactly when every captured record matches |
| `BatchDeletes.SwappedBatchCommits` | src/prisma/audit-extension/audit-database.ts:124-133 | The condition is needed: another transaction changes one matched row and inserts another between find and lock; the counts agree, a row that was not deleted is audited and a deleted one is not |
| `BatchDeletes.Session.LockAndRefresh` | src/prisma/audit-extension/audit-database.ts:124-133 | Each record is locked and read again by key; kept are exactly the found records that are still there, locked and current |
| `BatchDeletes.Session.DeleteMany` | src/prisma/audit-extension/operation-handlers/bulk.ts:200-310 | Find, lock, re-read, delete, compare: it fails exactly if more than `limit` rows match at the find or the deleted rows are not as many as the found ones still there; on success the records are those found and still there, as deleted, and exactly the deleted ones if and only if all of them still match |
| `BatchDeletes.UndisturbedBatch` | src/prisma/audit-extension/operation-handlers/bulk.ts:200-310 | Without a disturbance every batch within the limit succeeds with exactly the matching rows as its records |
| `PreimageHistory.BeforeIsOverwrittenExactly` | src/prisma/audit-extension/audit-database.ts:65-98 | In every history of transactions with row locks and any handlers in flight: a committed `before` that a locked re-read found is what its mutation overwrote if and only if the changes that the handler's own transaction made to the row between that re-read and the query, if any, left the row at that version |
| `PreimageHistory.BeforeContinuesExactly` | src/prisma/audit-extension/operation-handlers/update.ts:64-159 | In every history: such a `before` is the `after` of the row's previous committed record if and only if the changes of the handler's own transaction between writing that record (or its beginning, if another transaction wrote it) and the re-read, whichever came first, left the row at the version it had |
| `PreimageHistory.UndisturbedRecord` | src/prisma/audit-extension/operation-handlers/update.ts:64-159 | Both hold when, at the re-read, no other handler of the transaction stands between query and record on the row, and none runs its query or writes its record for it before this record is written |
| `PreimageHistory.CommittedRecordsChain` | src/prisma/audit-extension/audit-database.ts:65-98 | So both hold for every record of a history in which no transaction has two handlers in flight on one row |
| `PreimageHistory.InterleavedHandlersFail` | src/prisma/audit-extension/operation-handlers/update.ts:64-87 | The failing case: two updates of one row in flight in one transaction, where the first leaves the row at another version between the second one's re-read and query |
| `Preimages.LastRecordIsCurrent` | src/prisma/audit-extension/audit-database.ts:65-98 | In every history the last committed record of a row shows the row as it is stored |
| `Preimages.StepKeepsInv` | src/prisma/audit-extension/operation-handlers/update.ts:64-159 | Every step of handlers and transactions keeps locks, rows and records together: records show what was written, and only a mutation still without its record may differ |
| `Preimages.InterleavedHandlersLosePreimages` | src/prisma/audit-extension/operation-handlers/update.ts:64-87 | The concrete history of that case and its committed log, whose last `before` was never overwritten |
| `ManualTransaction.FulfilledMeansAllWritten` | src/services/manual-audit-transaction.ts:131-143 | The host call resolves only with the callback's own result and after every started write was done |
| `ManualTransaction.RefusedMeansFirstFailure` | src/services/manual-audit-transaction.ts:120-143 | Unless the host itself failed, a rejection carries the callback's error if it threw, else the first failure to settle, be it null or undefined |
| `ManualTransaction.InnerVerdict` | src/services/manual-audit-transaction.ts:131-143 | The verdict after the drain, exactly, in every interleaving of calls, settlements and the callback's end |
| `ManualTransaction.ClosedForGood` | src/services/manual-audit-transaction.ts:110-117 | Once writes are refused no further write is started, by any later step |
| `ManualTransaction.SettledMeansRevoked` | src/services/manual-audit-transaction.ts:149-156 | When the host call has settled, also on a host timeout, the scope is inactive and refuses writes |
| `ManualTransaction.AlwaysFinishes` | src/services/manual-audit-transaction.ts:137-143 | From every reachable state in which the callback and all started writes have settled, it is done or finishes with its next steps |
| `ManualTransaction.Scope.Log` | src/services/manual-audit-transaction.ts:110-127 | Starts a write exactly while the scope accepts them |
| `ManualTransaction.Scope.OnSettled` | src/services/manual-audit-transaction.ts:120-125 | Keeps the first failure |
| `ManualTransaction.Scope.AfterCallback` | src/services/manual-audit-transaction.ts:131-139 | Closes the scope whichever way the callback ended |
| `ManualTransaction.Scope.AfterDrain` | src/services/manual-audit-transaction.ts:140-143 | Callback's error, else first failure, else the result, also when the host has given up before |
| `ManualTransaction.Scope.Revoke` | src/services/manual-audit-transaction.ts:149-156 | Closes and deactivates the scope when the host settles |
| `Projection.AuditedQuery` | src/prisma/audit-extension/audit-database.ts:137-173 | With the primary key added to the projection and taken out of the result, the audit sees the key and the caller gets exactly the fields it asked for |
| `Projection.Arguments.InjectPk` | src/prisma/audit-extension/audit-database.ts:137-166 | Shows the key, changes no other field, and reports exactly whether it had to |
| `NestedWrites.Walker.Visit` | src/prisma/audit-extension/mutation-policy.ts:220-273 | The recursion with its shared ancestor set terminates on cyclic data too, reports what the specification says, and restores the set |
| `NestedWrites.Walker.VisitField` | src/prisma/audit-extension/mutation-policy.ts:242-270 | One relation field: skipped, followed through an excluded model, or reported |
| `NestedWrites.Walker.VisitOperations` | src/prisma/audit-extension/mutation-policy.ts:260-266 | Every payload of an excluded relation's operations is visited in order |
| `NestedWrites.ChildrenMeaning` | src/prisma/audit-extension/mutation-policy.ts:195-218 | The data an operation's payload carries, stated independently as envelopes |
| `NestedWrites.TestsAgree` | src/prisma/audit-extension/mutation-policy.ts:186-193 | The walk's tests on a relation's value and its target model say what the documentation says: a known write key, and a tracked or not ignored model |
| `NestedWrites.WalkMeaning` | src/prisma/audit-extension/mutation-policy.ts:220-273 | On any data: a relation is reported exactly when a trail of relation fields and envelopes through excluded models leads to it without visiting a node twice |
| `NestedWrites.AcyclicDetection` | src/prisma/audit-extension/mutation-policy.ts:220-273 | On acyclic data: exactly when any such trail leads to it |
| `NestedWrites.CyclicDataHidesWrite` | src/prisma/audit-extension/mutation-policy.ts:227-229 | On cyclic data a trail can exist that is not reported |
| `NestedWrites.EnforceNestedWrites` | src/prisma/audit-extension/mutation-policy.ts:275-297 | In atomic-required mode a call is refused exactly when auditing is on, some model can be tracked and its data (both halves for an upsert) hides such a write |
| `Values.TextPrefix` | src/prisma/diff.ts:71-86 | Serialized values are a prefix code: printed text followed by a delimiter or the end can be read in only one way |
| `Values.StableIsText` | src/prisma/diff.ts:71-86 | Stable text is the text of the value with keys sorted at every depth |
| `Values.StableMeaning` | src/prisma/diff.ts:71-86 | Equal stable text exactly for values equal up to key order |
| `Values.DeepEqualMeaning` | src/prisma/diff.ts:88-97 | `isDeepEqual` is structural equality up to key order |
| `Values.DeepEqualEquivalence` | src/prisma/diff.ts:88-97 | It is reflexive, symmetric and transitive |
| `Diff.RedactCompose` | src/prisma/diff.ts:31-50 | Redacting by one list and then another is redacting by both |
| `Diff.RedactIdempotent` | src/prisma/diff.ts:31-50 | Redacting twice changes nothing more |
| `Diff.RedactShowsOutside` | src/prisma/diff.ts:31-50 | Two values redact alike exactly when they agree outside the sensitive positions |
| `Diff.RedactMasks` | src/prisma/diff.ts:31-50 | The redacted value is the value with `[REDACTED]` under every sensitive key at every depth, and nothing else changed |
| `Diff.ComputeCreateChanges` | src/prisma/diff.ts:113-124 | The loop computes the create changes |
| `Diff.ComputeUpdateChanges` | src/prisma/diff.ts:126-145 | The loop computes the update changes |
| `Diff.ComputeDeleteChanges` | src/prisma/diff.ts:147-158 | The loop computes the delete changes |
| `Diff.ChangesShow` | src/prisma/diff.ts:113-158 | Which keys the three change sets name, and that before and after show the old and the new value, hidden or masked |
| `Diff.UpdateReplays` | src/prisma/diff.ts:126-145 | Without sensitive fields, applying the `after` sides to the old record gives the new one and the `before` sides undo it, on every non-ignored key of the new record |
| `Diff.UpdateComposesExactly` | src/prisma/diff.ts:126-145 | Every key changed from a to c is changed from a to b or from b to c if and only if no non-ignored key of c that b lacks reads as undefined in c and as something else in a |
| `Diff.UpdateComposes` | src/prisma/diff.ts:126-145 | In particular so when b has all keys of c |
| `Diff.UpdateComposesNeedsKeys` | src/prisma/diff.ts:137 | Otherwise it can fail: a concrete triple of records |
| `Diff.NoChangesMeaning` | src/prisma/diff.ts:126-145 | An update is empty exactly when all non-ignored fields are equal |
| `Diff.ChangedKeysIgnoreRedaction` | src/prisma/diff.ts:137-142 | Which keys an update reports never depends on the sensitive list |
| `Diff.ChangesAgreeWithRedactObject` | src/prisma/diff.ts:57-69 | Create and delete changes agree field by field with `redactObject` |
| `Wildcard.EscapeFirst` | src/services/audit-cursor.ts:49-54 | The successive escaping passes never touch each other's output |
| `Wildcard.PgLikeIsGlob` | src/services/audit-query.service.ts:58-61 | PostgreSQL: the LIKE pattern holds exactly when the text matches with `*` as the only wildcard, and never ends in a dangling escape |
| `Wildcard.MsLikeIsGlob` | src/services/audit-sqlserver-query.ts:43-48 | SQL Server: the same with character classes escaped |
| `Wildcard.ActionFilterMeaning` | src/services/audit-scan.service.ts:163-170 | Whichever predicate is chosen, both databases accept exactly the matching actions |
| `Rows.MatchesMeaning` | src/services/audit-query.service.ts:49-83 | What a filter asks for, condition by condition: empty texts do not count, a tenant always does, dates include their ends |
| `Rows.BuildQueryConditions` | src/services/audit-query.service.ts:49-83 | The pushed conditions hold of a row exactly when it matches the filter, in both dialects |
| `Csv.DocumentParses` | src/services/audit-csv.ts:77-99 | A parser for section 2 of RFC 4180 reads a document back as the 14 column names and, row by row, the 14 guarded cells, whatever quotes, commas or line breaks they hold |
| `Csv.RecordsShowRows` | src/services/audit-csv.ts:81-99 | A reader finds under each of the 14 columns the field of that name, under the guard; `changes` and `metadata` as JSON that reads back as the value |
| `Csv.HeaderIsFirst` | src/services/audit-csv.ts:3-18 | The first record is the documented list of columns |
| `Csv.NoCellIsFormula` | src/services/audit-csv.ts:66-68 | A reader gets one record per row and the header, and no cell of any of them matches the formula prefix |
| `Csv.GuardMeaning` | src/services/audit-csv.ts:20-20 | The guard is an apostrophe before exactly the texts that start, after blanks and line breaks only, with one of the four formula signs |
| `Csv.QuotesOnlyIfNeeded` | src/services/audit-csv.ts:66-71 | A cell without quotes, commas and line breaks is not quoted |
| `Csv.PlainCellsComeBack` | src/services/audit-csv.ts:66-71 | A cell without that prefix comes back unchanged |
| `Csv.KeyOrderDoesNotShow` | src/services/audit-csv.ts:94-95 | Rows that differ only in the key order of their JSON export as identical lines |
| `Csv.CsvChunks` | src/services/audit-scan.service.ts:138-152 | The chunks put together are the optional byte order mark, the header and the lines of all pages in order |
| `CanonicalJson.JsonTextMeaning` | src/services/audit-csv.ts:22-64 | Two values have the same canonical JSON exactly when JSON keeps the same of both up to key order |
| `JsonReader.JsonTextReads` | src/services/audit-csv.ts:22-64 | A reader of RFC 8259 accepts the canonical JSON of every value and reads back what JSON keeps of it: null for undefined and the text of a date, of an object exactly its defined members |
| `JsonReader.TextRead` | src/services/audit-csv.ts:62-64 | Any printed value is read back as that value, whatever text follows |
| `CanonicalJson.EquivView` | src/services/audit-csv.ts:46-58 | Reordering keys does not change what JSON keeps |
| `CanonicalJson.KeysInOrder` | src/services/audit-csv.ts:50 | Keys are printed as array indexes in ascending order, then the others sorted |
| `JsonGraph.Serialize` | src/services/audit-csv.ts:22-64 | On objects that may be shared or circular: refused exactly when some object contains itself, otherwise the text is that of the value as a tree, and reads back as it |
| `JsonGraph.Canonicalizer.Visit` | src/services/audit-csv.ts:22-60 | The recursion with its shared set of open objects yields the canonical form of the tree the value is, or a path back to an open object, and leaves the set as it was |
| `JsonGraph.Canonicalizer.VisitMembers` | src/services/audit-csv.ts:46-58 | Dropping undefined members while walking the sorted keys gives the canonical object |
| `JsonGraph.CircleHasNoTree` | src/services/audit-csv.ts:36-47 | A value in which an object contains itself is no finite tree |
| `Base64Url.DecodeEncode` | src/services/audit-cursor.ts:16-25 | Base64url of section 5 of RFC 4648 decodes to the bytes that were encoded |
| `Base64Url.FooVector` | src/services/audit-cursor.ts:16-21 | A test vector of section 10 of RFC 4648 |
| `Base64Url.GroupIsNumber` | src/services/audit-cursor.ts:16-21 | Three bytes and their four digits are the same 24 bits |
| `Base64Url.BothAlphabets` | src/services/audit-cursor.ts:23-27 | Decoding is lenient: both base64 alphabets mean the same |
| `Cursor.CursorRoundTrip` | src/services/audit-cursor.ts:7-46 | Exactly the well-formed pairs are encoded, as the text `v1`, timestamp and lower-cased id between bars, and they decode to timestamp and id |
| `Cursor.MicroShape` | src/services/audit-cursor.ts:2 | The shape of a PostgreSQL cursor's timestamp, character by character |
| `Cursor.UuidShape` | src/services/audit-cursor.ts:3-4 | The shape of an id: hexadecimal digits in lower case in groups of 8, 4, 4, 4 and 12 |
| `Cursor.DecodeCursorMeaning` | src/services/audit-cursor.ts:23-46 | A cursor decodes to a pair exactly when the pair is well formed and the payload is its text |
| `Cursor.AcceptedCursorIsEncodable` | src/services/audit-cursor.ts:23-46 | Whatever is accepted stands for a pair that can be encoded again |
| `Cursor.SqlServerRoundTrip` | src/services/audit-sqlserver-cursor.ts:12-34 | The same round trip, with `mssql1`, real dates and seven digits |
| `Cursor.ValidTimestampMeaning` | src/services/audit-sqlserver-cursor.ts:2-9 | Those timestamps are exactly the texts of that shape that name a day of a month that has it, after year 0, and a time of day |
| `Cursor.SqlServerCursorIsCanonical` | src/services/audit-sqlserver-cursor.ts:21-34 | SQL Server: a text is accepted exactly when it is the encoding of what it decodes to |
| `Cursor.CursorsAreApart` | src/services/audit-sqlserver-cursor.ts:26-30 | No text is a cursor of both databases |
| `Cursor.ComparePartsIsKeyOrder` | src/services/audit-scan.service.ts:331-338 | And where the timestamps name real moments it is comparing the row keys the cursors name |
| `Cursor.ComparePartsIsNumberOrder` | src/services/audit-scan.service.ts:331-338 | For all decoded cursors, real moments or not: comparing the texts is comparing timestamp digits and then ids as numbers |
| `Cursor.TextOrderIsNumberOrder` | src/services/audit-scan.service.ts:331-338 | Texts of one fixed-width template compare as the numbers they show |
| `Calendar.MicrosOrder` | src/services/audit-scan.service.ts:104-105 | Timestamps read as decimal numbers are ordered as moments in time |
| `Pagination.CursorConditions` | src/services/audit-query.service.ts:86-94 | PostgreSQL's bound plus row comparison and SQL Server's written-out comparison select the rows after the cursor in the page order |
| `Pagination.PageEntries` | src/services/audit-query.service.ts:233-255 | From one row more than the page: entries, whether there is more, and the next cursor |
| `Pagination.ValidatePagination` | src/services/audit-query.service.ts:209-231 | Accepts exactly the valid combinations of cursor, offset and limit |
| `Pagination.RunQuery` | src/services/audit-query.service.ts:40-160 | A query answers with the matching rows after its cursor, newest first: from the row at its offset on, or from the front without one, 50 of them unless it gives a limit; with whether there is more, the next cursor, and the number of matching rows as total |
| `Pagination.WalkDescends` | src/services/audit-query.service.ts:233-255 | Following `nextCursor` is strictly newest-first, whatever happens to the table in between |
| `Pagination.EachRowOnce` | src/services/audit-query.service.ts:85-160 | Every matching row present throughout is returned exactly once despite concurrent changes |
| `Pagination.WalkIsSound` | src/services/audit-query.service.ts:85-160 | Everything returned was a matching row of the table its request met |
| `Pagination.StaticPagesAreTheList` | src/services/audit-query.service.ts:85-160 | On a table that does not change the pages are the whole list, as long as `total` |
| `Pagination.OffsetPagesAreTheList` | src/services/audit-query.service.ts:100-112 | On a table that does not change, the pages at the offsets 0, `limit`, 2 * `limit` and so on put together are the whole list |
| `Pagination.WalkEnds` | src/services/audit-query.service.ts:233-255 | On a table that does not change, following `nextCursor` comes to an end, whatever the page size |
| `Pagination.PagesAreNewestFirst` | src/services/audit-sqlserver-query.ts:60-77 | For any id order of the database, no later entry is newer |
| `Retention.ValidateCheckpoints` | src/services/audit-maintenance.service.ts:256-271 | Accepts exactly when every checkpoint decodes and none names a millisecond before the cutoff; otherwise the error is that of the first that does not |
| `Retention.ParseRollsOver` | src/services/audit-maintenance.service.ts:264 | Days after a month's end run over into the next month, and 24:00 is the next day |
| `Retention.EncodedCursorNames` | src/services/audit-maintenance.service.ts:262-263 | The cursor encoded from a row's timestamp text and id is a checkpoint that names the row's key |
| `Retention.GuardIsExact` | src/services/audit-maintenance.service.ts:262-269 | For a stream's checkpoint the truncation loses nothing: the cutoff is accepted exactly when it is not after the checkpoint |
| `Retention.OlderRowsAreBehind` | src/services/audit-maintenance.service.ts:262-269 | Every row older than an accepted cutoff lies before every required checkpoint |
| `Retention.GuardsNothing` | src/services/audit-maintenance.service.ts:262-269 | An accepted cursor holds no cutoff back at all exactly when its text names no moment that `Date.parse` reads |
| `Retention.NilCheckpointGuardsNothing` | src/services/audit-maintenance.service.ts:264 | There is such a cursor: the encoded cursor of month 0 of year 0 and the nil uuid lets every cutoff through |
| `Retention.PartitionedTable.FindTargets` | src/services/audit-maintenance.service.ts:73-82 | The targets are the partitions whose readable upper bound is not after the cutoff |
| `Retention.TargetPositions` | src/services/audit-maintenance.service.ts:73-82 | The targets are the expired partitions, all of them, in the table's order |
| `Retention.PartitionedTable.RemoveAll` | src/services/audit-maintenance.service.ts:94-112 | Removes all targets in order unless a step fails, and then stops there |
| `Retention.PartitionedTable.Prune` | src/services/audit-maintenance.service.ts:54-121 | Refused and dry runs change nothing; a failing step leaves exactly the earlier targets removed and reports them; with bounds at whole milliseconds no row goes that is not before every required checkpoint |
| `Retention.UnalignedBoundOutrunsStream` | src/services/audit-maintenance.service.ts:79 | Any other bound breaks this: an accepted prune that removes a row not before the checkpoint |
| `Retention.PlannedPartitionsAreWhole` | src/sql/index.ts:189-193 | Planned partitions end at whole milliseconds |
| `Retention.FlatTable.CommitDelete` | src/services/audit-maintenance.service.ts:192-225 | The maintenance transaction: all or nothing, enforcement restored, nothing only if a step failed |
| `Retention.FlatTable.Prune` | src/services/audit-maintenance.service.ts:151-234 | Deletes exactly the rows older than the cutoff or nothing, and fails exactly if a checkpoint refuses or a step fails; leaves append-only enforcement as it was, and removes no row that is not before every required checkpoint |
| `StreamRetention.PruneIsGuarded` | src/services/audit-maintenance.service.ts:256-271 | A prune that requires a checkpoint the stream had at any time up to then meets the condition of the stream's theorems |
| `Partitions.PlanTiles` | src/sql/index.ts:195-216 | Planned partitions have distinct names, follow each other without gap or overlap across year ends, and cover exactly the moments from this month to the last planned one |
| `Partitions.PartitionHoldsItsMonth` | src/sql/index.ts:201-213 | A planned partition holds exactly the rows of the month in its name |
| `Partitions.NamesIdentify` | src/sql/index.ts:204-209 | Equal names mean equal months |
| `Partitions.NameReads` | src/sql/index.ts:204-209 | A name is the table's, `_y` with the year, `m` with the month in two digits |
| `Calendar.MonthLengths` | src/sql/index.ts:185-193 | The months' lengths, stated by the alternation of 30 and 31 days and the leap rule |
| `Partitions.CurrentMonthIsPlanned` | src/sql/index.ts:199-202 | A row written now has its partition |
| `Partitions.AddMonths` | src/sql/index.ts:185-187 | Adds months across year ends |
| `Partitions.Catalog.CreateMissing` | src/sql/index.ts:326-343 | Looks, creates, tolerates a concurrent creator, fails exactly if a CREATE fails; reports exactly the partitions this call created |
| `Partitions.Catalog.EnsurePartitions` | src/sql/index.ts:302-346 | Refused for a negative `ahead` and a table that is not partitioned, failing otherwise only if a CREATE fails; on success every planned partition exists, and the report names exactly those this call created |

## Left out

- HTTP, Datadog, Splunk and object-storage sinks, Nest modules, interceptors, decorators and context storage: the sink is only its answer, and actor and tenant are parameters.
- Best-effort mode, metrics, observers, timings, retry delays and error texts; the audit errors keep only the rule that a failure is marked before it is thrown.
- SQL and DDL text, triggers and SQL Server's installers; a query is a selection from a finite table, a trigger or rule only what it does to DELETE.
- Option validation, configuration cloning, table-name patterns, and the caller's `redact` hook of a stream, which must keep the entry's id.
- Audit row contents besides their preimage: `buildAuditInsertParams` assembles fields without branching on the protocol.
- Two runners on one stream at a time: the machine has one runner that may crash and restart.
- A table concurrently changed by other sessions inside one `prune` or one history query: each works on one state of the table.
- AtomicHandlers.TransactionScope.HandleUpdateUpsertDelete: a row carries its action and the preimage or none; the changes computed from them are `Diff`.
- AtomicHandlers.TransactionScope.ReadBatch: the records of a batch are arbitrary here; that they are locked and read again by key is `BatchDeletes`, which in turn excludes other handlers of the same transaction that write rows of the batch between its pre-read and its query.
- AtomicProtocol.SummariesNeverRun: calls under `noAudit` and of untracked models, which go to the database without any of this, are not part of the protocol.
- Preimages: a create is one step that writes the row and its record together, and the records of a deleteMany are not part of the chains.
- Preimages for an upsert whose pre-read found no row, and for writes selected by fields other than the key, where the row mutated may differ from the row locked; timestamp-only updates are not skipped and keys are never reused in that model.
- Values: numbers and dates are their printed text, so NaN and infinities, class instances other than dates, array holes, `__proto__` keys and prototype properties are outside; strings are sequences of characters without surrogate pairs; a number's text follows section 6 of RFC 8259.
- JsonGraph.Serialize: getters, `toJSON` and bigint values are outside; an audit entry's own values come from the database and are trees.
- Csv.DocumentParses: does not undo the formula guard, because a cell that begins with the guard's apostrophe prints like a guarded one; TEXTDATA is read as any character without a role in the grammar.
- Cursor.DecodeCursorMeaning: a lenient decoder also skips padding characters in the middle of a text; bytes outside ASCII are one replacement character each, and every text with one is refused.
- Cursor.ComparePartsIsKeyOrder: is about timestamps that name a real moment, because the PostgreSQL cursor checks only the shape of the text.
- Partitions.AddMonths: years below 100, which `Date.UTC` moves to the twentieth century, are excluded.
- Rows.BuildScanConditions: an option given as an empty string counts as not given, as in the code; `tenantId` counts whenever it is present.
- Pagination.RunQuery: takes the decoded cursor, whose codec is `Cursor`; PostgreSQL totals beyond the safe integers would be rounded.
