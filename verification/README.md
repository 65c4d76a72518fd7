# GovControl: a Dafny model of its protocols and kernels

GovControl is a set of services joined by transactional outboxes and one Redis stream. This
project models the step-by-step protocols between them and the counting and arithmetic kernels
inside them, and proves what they keep over every run.

| file | what it models |
|---|---|
| `ReadModel.dfy`, `Projection.dfy`, `ProjectedColumns.dfy` | the insights projection: which fields an event carries, de-duplication, the last-writer-wins merge, the checkpoint counters; every column in terms of the events delivered |
| `Pipeline.dfy`, `PipelineOrder.dfy`, `PipelineCounts.dfy`, `PipelineWorker.dfy` | outbox, stream, consumer group with pending entries, dead letters and their retry, as a state machine; the worker loops as they are written |
| `DashboardCache.dfy` | the version-keyed dashboard cache, its readers racing with commits |
| `Backfill.dfy` | the resumable snapshot import, its rebuild and its reconciliation |
| `Contracts.dfy`, `ContractFields.dfy`, `ContractDrain.dfy`, `EndToEnd.dfy` | one contract, its status history, value and events; where each of its fields comes from; the drained projection, and the drained pipeline, against the contract row |
| `Documents.dfy`, `DocumentHistory.dfy` | one document, its versions, uploads under the row lock, object storage and the malware scan |
| `Delivery.dfy`, `Ingest.dfy`, `IngestHistory.dfy` | notification deliveries with back-off and admin retries; idempotent ingest and due schedules |
| `Exports.dfy` | report runs and export artifacts, the worker's two paths, clean-up and downloads |
| `RateLimit.dfy` | the gateway's fixed-window counter |
| `Analytics.dfy`, `Penalties.dfy`, `Csv.dfy` | the monthly running count, penalty exposure in Python and SQL, the CSV text |

How to read it. A protocol is a `State`, a set of `Action`s and a `Step` function, one step for
each database commit and each Redis or storage call; `Run` is any sequence of steps, several
processes interleaved, and a crash is a step that drops what a process had not committed. Main
results are lemmas about every `Run`. The imperative code is a class beside the state machine:
its methods perform the same calls in the same order and loops as the code, with parameters that
say where the process dies or what a dependency answers, and their contracts give the new state
or the exact calls made. Clocks, generated identifiers, template and scan results are parameters.

Where a property one might expect is false of the code, the code is kept, an input or a run shows
that it fails, and the exact condition is proved:

| what fails | shown by | exact condition |
|---|---|---|
| events take effect in the order of their commits | `PipelineOrder.OvertakingRun`, `PipelineOrder.ReversedBatch` | `PipelineOrder.OrderExactly`, `PipelineOrder.PublishingDecides`, `PipelineOrder.ProcessingDecides` |
| optional columns converge under reordering | `ReadModel.GreatestEarly` | `ReadModel.OrderIndependence` |
| the projected amount and due date follow amendments | `ContractDrain.AmendmentNotShown` | `ContractDrain.DrainRefinesContract`: the value changes since the last full event add up to 0; the end date was not amended since, or was amended back |
| a contract is signed by its end | `ContractService.AmendmentEndsBeforeSigning` | `ContractService.AmendmentSignedInTime`, `ContractService.SignedLateExactly` |
| a scan completion keeps the row on its version | `DocumentService.StaleCompletionBreaks` | `DocumentService.StaleCompletion` |
| a download that passed its check finds its object | `ReportExports.GoneRun` | `ReportExports.DownloadGoneExactly` |
| a window lets no more than its limit pass | `RateLimit.LateRequestsPass` | `RateLimit.OrdinalExactly`, `RateLimit.PassesByCounted` |
| the chart shows the direct count | `MonthlyActivity.ChartDiffers` | `MonthlyActivity.Chart` |
| a downloaded table is read back | rows without cells | `CsvDownload.RoundTrip` |

`ReportExports.RunningForGood`, `ReportExports.OrphansStay` and `NotificationIngest.HeadOfLine` state
what the code does not recover from.

`dafny verify dfyconfig.toml` verifies the project.

## Model

| member | source | states |
|---|---|---|
| `ReadModel.RowStamp` | apps/insights-api/insights_app/projections.py:226-244 | After any history of deliveries a row exists exactly if some event was delivered for its key, and its (version, event time) is that of an accepted event and at least that of every distinct delivered event |
| `ReadModel.ColumnSource` | apps/insights-api/insights_app/projections.py:226-244 | For any order and duplication, each column of a row is that of the last accepted delivery carrying it, or the insert default |
| `ReadModel.LastAccepted` | apps/insights-api/insights_app/projections.py:226-232 | A new delivery is accepted exactly if the stored (version, event time) does not outrank it |
| `ReadModel.Convergence` | apps/insights-api/insights_app/projections.py:214-244 | Whatever the order and duplication in which a set of events of one key with distinct stamps is delivered, the row ends with the greatest stamp and with every column the greatest event carries |
| `ReadModel.OrderIndependence` | apps/insights-api/insights_app/projections.py:189-244 | Optional columns do not converge in general: a column is independent of the delivery order if and only if the greatest event carries it, or all events that carry it write the default |
| `ReadModel.InOrderColumn` | apps/insights-api/insights_app/projections.py:226-244 | Under in-order delivery a column holds what the last event carrying it said |
| `ReadModel.DrainedColumn` | apps/insights-api/insights_app/projections.py:226-244 | The same for a source whose writes are delivered in order with repetitions: its last write carrying the column decides |
| `ReadModel.CountersExact` | apps/insights-api/insights_app/projections.py:245-275 | processed_count is the number of processed-event rows and projection_version the number of those that map to a module, after any history |
| `ReadModel.DuplicatesIgnored` | apps/insights-api/insights_app/projections.py:214-215 | Redelivering anything already processed changes neither rows nor counters |
| `ReadModel.OtherRowsUntouched` | apps/insights-api/insights_app/projections.py:217-244 | An event leaves every row but its own alone |
| `ProjectedColumns.WrittenTo` | apps/insights-api/insights_app/projections.py:119-176 | An event writes exactly if it maps to a module, to the row of the kind and source its payload names, else of its aggregate, with the version it names but at least 1 |
| `ProjectedColumns.TakenExactly` | apps/insights-api/insights_app/projections.py:226-232 | A delivery is taken exactly if its event is new and its row is too, or of a lower version, or of the same version and no younger |
| `ProjectedColumns.DeletedColumn` | apps/insights-api/insights_app/projections.py:203-206 | Over any history a row is shown as deleted exactly if the last delivery taken that speaks of deletion is of a deleting event or carries a truthy flag, and live if none speaks of it |
| `ProjectedColumns.PayloadColumn` | apps/insights-api/insights_app/projections.py:177-199 | Label, department, responsible user, due date, amount and currency each show what the last delivery taken that has its key says under it, null included, and null if none has it |
| `ProjectedColumns.IdentifierColumn` | apps/insights-api/insights_app/projections.py:135-190 | The identifier is the last one said, or the contract number said in its place |
| `ProjectedColumns.StatusColumn` | apps/insights-api/insights_app/projections.py:136-192 | The status is what the strongest truthy key of the last delivery taken that speaks of it says |
| `ProjectedColumns.AlwaysWritten` | apps/insights-api/insights_app/projections.py:169-176 | Occurrence time and link are those of the last delivery taken: as its payload names them, else the event time and the route of the row |
| `ProjectedColumns.AttributesColumn` | apps/insights-api/insights_app/projections.py:200-202 | The attributes are exactly the unreserved entries of the last delivery taken that has any, never a mix of two |
| `Projection.StatusPrecedence` | apps/insights-api/insights_app/projections.py:136-199 | The status shown is what the first truthy of the five keys says; when none is truthy it is carried, as null, exactly if the last of them is there and not null |
| `Projection.AlwaysWrittenConverge` | apps/insights-api/insights_app/projections.py:169-176 | The stamp, the occurrence time and the link, which every mapped event writes, converge to the greatest event's |
| `Projection.Store.SetColumns` | apps/insights-api/insights_app/projections.py:242-244 | Setting the carried columns one by one overrides exactly those columns |
| `Projection.Store.ApplyEvent` | apps/insights-api/insights_app/projections.py:211-276 | The stored table, processed set and checkpoint become exactly the merge of the event, and the result tells whether it was new |
| `Pipeline.NoLoss` | apps/insights-api/insights_app/worker.py:113-181 | In every run, with a crash possible between any two commits or stream calls, every committed outbox event is unpublished, in an unacknowledged stream entry, processed, or in the dead-letter stream |
| `Pipeline.KeptByStep` | apps/insights-api/insights_app/worker.py:113-181 | No single step loses an event: an effect, a dead letter nobody is about to delete, or an owed entry nobody is about to acknowledge remains |
| `Pipeline.RunKeeps` | apps/contracts-api/contracts_app/worker.py:48-65 | Every row added to the stream, its publishing committed or not, is kept in every reachable state |
| `Pipeline.AtMostOnce` | apps/insights-api/insights_app/projections.py:214-275 | In every run, dead-letter retries included, no event's effect is committed twice, an event counts as processed exactly if its effect was committed, and the counter counts them |
| `Pipeline.DrainedExactlyOnce` | apps/insights-api/insights_app/worker.py:113-181 | When a run drains, the committed effects are the outbox events, each once, and the projection is their fold |
| `Pipeline.DrainedConverges` | apps/insights-api/insights_app/worker.py:136-181 | However the run interleaved and retried, a drained pipeline shows the greatest event of every row |
| `PipelineOrder.OrderExactly` | apps/insights-api/insights_app/worker.py:113-181 | Over every run, the committed effects are the first so many outbox events in order if and only if no step gave an event its effect before every earlier event had its own |
| `PipelineOrder.OrderlyNeverOvertakes` | apps/insights-api/insights_app/worker.py:136-148 | Publishing in the order of the commits and processing in the order of the stream is one way to meet that condition, redeliveries and crashes included |
| `PipelineOrder.ProjectionIsPrefixFold` | apps/insights-api/insights_app/worker.py:113-181 | In those runs the projection is at every moment the fold of the first so many outbox events, and of all of them once the run is drained |
| `PipelineOrder.PublishingDecides` | apps/contracts-api/contracts_app/worker.py:48-65 | In every reachable state in which the effects came in the order of the stream, they are the first so many outbox events in order if and only if each of them was published after all events committed before it |
| `PipelineOrder.ProcessingDecides` | apps/insights-api/insights_app/worker.py:136-181 | In every reachable state in which the stream follows the order of the commits, they are if and only if each took effect after all events published before it |
| `PipelineOrder.ReversedBatch` | apps/contracts-api/contracts_app/worker.py:50-65 | Publishing need not follow the commits: an event created before one that committed earlier is published first by the batch that finds both |
| `PipelineOrder.OvertakingRun` | apps/insights-api/insights_app/worker.py:113-148 | The order is not kept by itself: with two events published in order, a first read that fails and a second read by the same loop, the second event alone has taken effect |
| `PipelineWorker.System.PublishBatch` | apps/contracts-api/contracts_app/worker.py:48-65 | Adds the free rows created first, up to the limit, to the stream in the order of creation time and id and marks them published in one commit; a crash before it leaves all unpublished |
| `PipelineWorker.OldestRows` | apps/contracts-api/contracts_app/worker.py:50-58 | The selected rows are free, without repetition, within the limit and ordered by creation time and id; a free row is left out only when the limit is reached, and goes before none of the selected |
| `PipelineWorker.System.ProcessMessage` | apps/insights-api/insights_app/worker.py:113-133 | Performs exactly the calls of its script, cut off where the process dies, and finishes exactly if nothing raised and every call happened |
| `PipelineWorker.System.BuryMessage` | apps/insights-api/insights_app/worker.py:122-133 | Dead-letters, acknowledges and counts the failure, in that order, cut off where the process dies |
| `PipelineWorker.System.ConsumeNew` | apps/insights-api/insights_app/worker.py:136-148 | Reads up to the batch size and performs exactly the scripts of the entries in order, up to the first that raises or dies; on a normal end none of them is pending |
| `PipelineWorker.System.RecoverPending` | apps/insights-api/insights_app/worker.py:151-181 | Claims each entry once, gives up those delivered more than the maximum, processes the others, in order, up to the first that raises or dies |
| `PipelineWorker.System.RetryDeadLetter` | apps/insights-api/insights_app/api.py:525-556 | Re-adds the event, then deletes the dead letter; garbage is not found and a crash in between leaves both |
| `PipelineWorker.ConsumedExactly` | apps/insights-api/insights_app/worker.py:113-148 | Of the new entries of a batch that was worked through exactly the invalid and rejected ones are dead-lettered and exactly the others take effect |
| `PipelineWorker.RecoveredExactly` | apps/insights-api/insights_app/worker.py:151-181 | In recovery so are exactly those delivered more than the maximum number of times, this delivery included, or invalid or rejected |
| `PipelineCounts.FailuresExact` | apps/insights-api/insights_app/worker.py:117-133 | Over every run the failure counter is the number of counted failures, and every dead letter written is counted, about to be, or left uncounted by a worker that died |
| `PipelineCounts.DeliveriesExact` | apps/insights-api/insights_app/worker.py:151-170 | The delivery count of a pending entry is the number of times it was handed out |
| `PipelineCounts.LastEventShown` | apps/insights-api/insights_app/projections.py:253-273 | The checkpoint shows the time of the last event that took effect |
| `DashboardCache.VersionCounts` | apps/insights-api/insights_app/projections.py:253-275 | The projection version equals the number of event-driven changes committed so far |
| `DashboardCache.ServedIsFresh` | apps/insights-api/insights_app/api.py:76-126 | Every query behind a dashboard served to a reader ran on a projection holding every event-driven change committed when the reader read the version, whoever computed it |
| `DashboardCache.VersionMoves` | apps/insights-api/insights_app/projections.py:264-274 | An event moves the version exactly if it maps to a module |
| `DashboardCache.Service.CachedDashboard` | apps/insights-api/insights_app/api.py:76-126 | A hit answers from the cache; a miss, or a cache that does not answer, answers from its own queries and stores them if the cache takes them; either way nothing committed before the request is missing |
| `Backfill.FoldLaw` | apps/insights-api/insights_app/backfill.py:80-104 | After any list of upserts a key holds the last record of greatest version if that is at least the old row's version, else the old row |
| `Backfill.FoldIdempotent` | apps/insights-api/insights_app/backfill.py:80-104 | Folding the same list again changes nothing |
| `Backfill.FoldUnmentioned` | apps/insights-api/insights_app/backfill.py:80-104 | A key no record mentions keeps its row |
| `Backfill.RebuildExact` | apps/insights-api/insights_app/backfill.py:66-144 | A rebuild's counts agree if and only if every non-deleted record is the surviving record of its key |
| `Backfill.RebuildBijection` | apps/insights-api/insights_app/backfill.py:66-144 | Then each scope's live rows and the snapshot's non-deleted records of the scope correspond one to one, and other scopes are untouched |
| `Backfill.RebuiltRow` | apps/insights-api/insights_app/backfill.py:66-104 | A rebuild leaves of every row the final record of its key, or nothing if the snapshot covers its tenant and module, else the row as it was |
| `Backfill.RebuildReconciles` | apps/insights-api/insights_app/backfill.py:66-144 | A rebuild reconciles exactly if no record that is not deleted is superseded within the snapshot |
| `Backfill.FirstImportReconciles` | apps/insights-api/insights_app/backfill.py:112-139 | So does a first import without a rebuild |
| `Backfill.LaterImportReconciles` | apps/insights-api/insights_app/backfill.py:112-139 | A later import reconciles whenever no record that is not deleted is superseded by a record or a stored row, however many more live rows there are |
| `Backfill.ResumedImport` | apps/insights-api/insights_app/backfill.py:43-110 | Any sequence of crashed and restarted imports, with any batch sizes, upserts the records in order at most once, and exactly once when it succeeds, ending in the table of one fold |
| `Backfill.Importer.Prepare` | apps/insights-api/insights_app/backfill.py:53-75 | Creates or resets the import state and clears the scopes of a rebuild, one commit each, keeping the cursor of an interrupted import |
| `Backfill.Importer.ImportBatches` | apps/insights-api/insights_app/backfill.py:77-110 | The batches upsert exactly the records from the old to the new cursor, whatever the batch size and wherever it is cut off |
| `Backfill.Importer.Mismatches` | apps/insights-api/insights_app/backfill.py:112-139 | Finds a mismatch exactly if some scope's live count differs, or without a rebuild is too small |
| `Backfill.Importer.Reconcile` | apps/insights-api/insights_app/backfill.py:132-200 | Commits the verdict of the counts; only a success moves the checkpoint, by the number of records |
| `Backfill.Importer.Import` | apps/insights-api/insights_app/backfill.py:35-201 | One attempt is either already done, or extends the import by whole records; a rebuild that does not die succeeds exactly if every non-deleted record survives |
| `ContractService.ReachableSound` | apps/contracts-api/contracts_app/service.py:181-311 | After any calls and failures the value is positive, start does not follow end, event ids are distinct, and the history is an unbroken path of allowed transitions from DRAFT to the current status |
| `ContractService.TerminalAbsorbs` | apps/contracts-api/contracts_app/service.py:50-66 | No call moves the status of a completed, terminated or cancelled contract again |
| `ContractService.ValueConserved` | apps/contracts-api/contracts_app/service.py:288-438 | The value is the last value set outright plus every later amendment, over every sequence of calls |
| `ContractFields.UpdateSets` | apps/contracts-api/contracts_app/service.py:288-311 | A committed update sets every field it gives to the value given, null included, and leaves every other field, number, status and history |
| `ContractFields.FieldLaw` | apps/contracts-api/contracts_app/service.py:236-438 | Over every sequence of calls each field is as the last committed call that gives it gave it, and as created if none does; the number never changes |
| `ContractFields.UpdateAccepted` | apps/contracts-api/contracts_app/service.py:288-311 | An update goes through exactly if what it sets is well formed and there is a row with its fields set as asked and its dates in order |
| `ContractFields.AmendmentAccepted` | apps/contracts-api/contracts_app/service.py:410-438 | An amendment goes through exactly if the contract still ends after it starts and keeps a value, and changes value and end by exactly what it says |
| `ContractFields.StatusAccepted` | apps/contracts-api/contracts_app/service.py:50-66 | A status change goes through exactly along the ten allowed transitions |
| `ContractFields.CreationAccepted` | apps/contracts-api/contracts_app/schemas.py:36-66 | What creation demands, field by field |
| `ContractFields.LifePath` | apps/contracts-api/contracts_app/service.py:236-286 | Over any calls a contract is or was in force exactly if it was put into force from review, which happens once, and is completed only from being active |
| `ContractService.EntryEffect` | apps/contracts-api/contracts_app/service.py:410-438 | One call changes the value by at most one entry: set outright, or amended by a difference |
| `ContractService.AmendmentSignedInTime` | apps/contracts-api/contracts_app/service.py:410-438 | An amendment does not recheck the signing date: it stays within the contract if and only if the amended end date does not precede it |
| `ContractService.SignedLateExactly` | apps/contracts-api/contracts_app/service.py:288-438 | Over every sequence of calls a contract is signed after its end if and only if some amendment moved the end before the signing date and no later update or amendment of the end followed |
| `ContractService.AmendmentEndsBeforeSigning` | apps/contracts-api/contracts_app/service.py:410-438 | A concrete contract an amendment leaves signed after its end |
| `ContractService.Record.ChangeStatusCall` | apps/contracts-api/contracts_app/service.py:236-286 | The stored contract becomes the specified one: status, one history row and one event, or no change on an error |
| `ContractService.Record.RecordChange` | apps/contracts-api/contracts_app/service.py:686-717 | Appends exactly one event of the contract, or nothing when the commit fails on a duplicate event id |
| `ContractService.Record.UpdateCall` | apps/contracts-api/contracts_app/service.py:288-311 | The same for partial updates, checks before assignments, explicit nulls included |
| `ContractService.Record.AddAmendmentCall` | apps/contracts-api/contracts_app/service.py:410-438 | The same for amendments, whose event names neither amount nor end date |
| `ContractDrain.DrainShowsAnnounced` | apps/contracts-api/contracts_app/service.py:686-733 | Once a contract's events were delivered in order, with repetitions, the projected row shows every described column as the last created, updated or status-changed event announced it |
| `ContractDrain.DrainRefinesContract` | apps/contracts-api/contracts_app/service.py:181-311 | The projected status, label, number, currency and assignments are the contract row's; the amount lacks the value changes of the committed amendments after the last create, update or status change, and agrees if and only if they add up to 0; the due date is the end date as of that call, and agrees if and only if the end was not amended since or was last amended back to it |
| `ContractDrain.AmendedSince` | apps/contracts-api/contracts_app/service.py:236-438 | Over any calls the announced row is the contract as of the last full call, the value has moved from it by the sum of the amendments since, and the end date is the one last amended since |
| `EndToEnd.DrainedPipelineShowsContract` | apps/contracts-api/contracts_app/service.py:686-733 | Over every run of the pipeline, once it is drained and the contract's effects were committed in the order of its calls, the projected row refines the contract row as above |
| `EndToEnd.OrderlyPipelineShowsContract` | apps/contracts-api/contracts_app/worker.py:48-65 | The same from the run alone: if no event took effect before an earlier one, the order of the calls suffices |
| `ContractDrain.DrainShowsOccurrence` | apps/contracts-api/contracts_app/service.py:686-733 | The projected occurrence time is the start as of the last full event unless an amendment or new party followed, whose commit time then replaces it; the link is always the contract's |
| `ContractDrain.ReachableTracked` | apps/contracts-api/contracts_app/service.py:686-733 | In every reachable state some outbox event describes the announced row in full and no later one touches the description |
| `ContractDrain.ChildEventElsewhere` | apps/contracts-api/contracts_app/service.py:736-775 | Events of milestones, obligations and payments never write the contract's own row |
| `ContractDrain.AmendmentNotShown` | apps/contracts-api/contracts_app/service.py:410-438 | A contract of 100 amended by 50, both events delivered in order: the projected amount is 100, the contract's value 150 |
| `DocumentService.AlwaysConsistent` | apps/documents-api/documents_app/service.py:107-296 | In every reachable interleaving version numbers are exactly 1 to current, contents are distinct, every version's object is in storage, the row shows its current version's state with a running scan read as quarantine, and claims are exclusive |
| `DocumentService.CommitKeeps` | apps/documents-api/documents_app/service.py:275-296 | Committing an added version keeps all of it |
| `DocumentService.ClaimKeeps` | apps/documents-api/documents_app/worker.py:49-61 | Claiming quarantined versions keeps all of it |
| `DocumentService.CompleteKeeps` | apps/documents-api/documents_app/worker.py:76-85 | A scan verdict keeps all of it |
| `DocumentService.ReleaseKeeps` | apps/documents-api/documents_app/worker.py:69-75 | Releasing a version on a dependency error keeps all of it |
| `DocumentService.VerdictsFinal` | apps/documents-api/documents_app/worker.py:46-119 | Whatever happens later, versions are never removed or altered and a verdict once given stays |
| `DocumentService.NoLostUpdate` | apps/documents-api/documents_app/service.py:225-229 | An upload or edit naming the lock version its caller read goes through only if the row is what the caller read in every field but its condition, which scan verdicts set without touching the lock |
| `DocumentService.DownloadServesClearedContent` | apps/documents-api/documents_app/service.py:366-390 | A download succeeds exactly for an available version of a document that is not deleted, and serves content that was trusted or found clean and is in storage |
| `DocumentService.StaleCompletion` | apps/documents-api/documents_app/worker.py:76-85 | A completion with a stale current version number keeps the row on its version if and only if the staleness makes no difference |
| `DocumentService.StaleCompletionBreaks` | apps/documents-api/documents_app/worker.py:76-85 | A reachable run in which it does make one: a version uploaded during the scan of the one before leaves the row available on a quarantined version |
| `DocumentHistory.LifecycleExactly` | apps/documents-api/documents_app/service.py:470-496 | On a row nobody holds, deletion goes through exactly if there is no retention date later than the day; archive and restore always do, other actions never |
| `DocumentHistory.ProtectedStaysUndeleted` | apps/documents-api/documents_app/service.py:482-486 | No step of any kind deletes a document whose retention date is later than the day of the step |
| `DocumentHistory.DeletedExactly` | apps/documents-api/documents_app/service.py:470-496 | Over any run a document is deleted exactly if the last of its creation, deletions and restorations is a deletion |
| `DocumentHistory.ArchivedExactly` | apps/documents-api/documents_app/service.py:479-481 | It is archived exactly if it was ever archived: a restore does not undo it |
| `DocumentHistory.RetentionExactly` | apps/documents-api/documents_app/service.py:392-415 | The retention date is the one last set or cleared since creation |
| `DocumentHistory.LockCounts` | apps/documents-api/documents_app/service.py:275-410 | The lock version counts the creation and every committed upload, edit, link and lifecycle change; the versions are as many as creation and uploads |
| `DocumentHistory.UploadBeginsExactly` | apps/documents-api/documents_app/service.py:225-246 | An upload may begin exactly if none is open, the document is there and not deleted, the lock version is the one named, and no version has the content |
| `DocumentHistory.ConditionLaw` | apps/documents-api/documents_app/worker.py:46-119 | Over any run every version stands as the last step that says something of it said: its making, a claim, a release or a verdict |
| `DocumentService.Service.AddVersion` | apps/documents-api/documents_app/service.py:216-296 | The errors in their order; on success one appended version, the row on it with its lock bumped, and its object; nothing changes when storage refuses the object, and after a failed commit the object is gone |
| `DocumentService.Service.UpdateMetadata` | apps/documents-api/documents_app/service.py:392-415 | Goes through exactly under the lock version the caller read, sets or clears the retention date and bumps the lock |
| `DocumentService.Service.SetLifecycle` | apps/documents-api/documents_app/service.py:470-496 | Archive, delete and restore set exactly their fields and bump the lock; a retention date later than the day blocks deletion and nothing else does |
| `DocumentService.UploadEnded` | apps/documents-api/documents_app/service.py:250-296 | How the upload a verdict waits for ends: a commit has added its version and made it current, anything else has left versions and row as they were |
| `DocumentService.Service.ScanOne` | apps/documents-api/documents_app/worker.py:62-85 | One scan returns the version to quarantine or gives its verdict, the row following if it is current, and touches nothing else; a verdict on the current version first waits for an open upload to commit, roll back or break off |
| `DocumentService.Service.ScanBatch` | apps/documents-api/documents_app/worker.py:46-119 | After a batch cut off anywhere the scanned versions hold their verdicts and the others read as scanning, claimed by nobody; no other version changed, and an upload open at the start is still open or ended with at most its own version |
| `DeliveryRetry.AttemptsBounded` | apps/notifications-api/notifications_app/scheduler.py:99-153 | Recorded attempts never exceed the maximum plus the admin retries made from the dead letters; FAILED means below and DEAD_LETTER at least the maximum; a next attempt is set exactly if PENDING or FAILED |
| `DeliveryRetry.BoundAttained` | apps/notifications-api/notifications_app/scheduler.py:99-153 | For any number of revivals some run records exactly the maximum plus that many attempts |
| `DeliveryRetry.BackOff` | apps/notifications-api/notifications_app/scheduler.py:100-153 | Without admin retries the n-th attempt comes at least base * (2^(n-1) - 1) after the first, and there are at most the maximum |
| `DeliveryRetry.WaitsBetweenAttempts` | apps/notifications-api/notifications_app/scheduler.py:147-153 | Between two attempts with no admin retry in between the full back-off passed |
| `DeliveryRetry.DeliveredOnce` | apps/notifications-api/notifications_app/scheduler.py:86-114 | At most one recorded attempt succeeded, the last, and nothing is sent after it |
| `DeliveryRetry.NothingUnaccounted` | apps/notifications-api/notifications_app/scheduler.py:82-203 | Sends beyond the recorded attempts are exactly those lost in crashes, and every recorded dead letter has its stream entry |
| `DeliveryRetry.InAppNeverSent` | apps/notifications-api/notifications_app/service.py:376-384 | An in-app delivery is never attempted and never changes |
| `DeliveryRetry.BuriedExact` | apps/notifications-api/notifications_app/scheduler.py:189-201 | A batch adds one dead-letter entry for each delivery it gives up and none for any other |
| `DeliveryRetry.AttemptExactly` | apps/notifications-api/notifications_app/scheduler.py:82-96 | An attempt is open exactly, with none in progress, from creation if none was recorded, from the retry if one was queued since, and else if the last failed, the maximum is not reached and the back-off has passed |
| `DeliveryRetry.RetryExactly` | apps/notifications-api/notifications_app/service.py:517-534 | An admin retry is open exactly, with no attempt in progress, if the last recorded attempt failed and the delivery is not queued already |
| `DeliveryRetry.Scheduler.ProcessDeliveries` | apps/notifications-api/notifications_app/scheduler.py:82-203 | A batch that reaches its commit records exactly one attempt of each row; one that dies before it, after the last row included, records none, and its dead-letter entries remain |
| `DeliveryRetry.Scheduler.RetryDelivery` | apps/notifications-api/notifications_app/service.py:517-534 | Accepted exactly for failed and dead deliveries, which become pending at once with their attempt count kept |
| `NotificationIngest.OneNotificationPerEvent` | apps/notifications-api/notifications_app/service.py:313-464 | In every interleaving with crashes, redeliveries and races at most one notification exists per source event and per tenant and deduplication key, and an event counts as processed exactly if its notification exists |
| `NotificationIngest.MarkedScheduleNotified` | apps/notifications-api/notifications_app/scheduler.py:28-62 | A schedule marked processed has exactly one notification of its tenant, and keeps it |
| `IngestHistory.EveryNotificationJustified` | apps/notifications-api/notifications_app/service.py:313-464 | In every interleaving each notification repeats a request that was made, by a call or a schedule: tenant, event, key and template, the template having been active and taken its variables |
| `IngestHistory.MarkedWasDue` | apps/notifications-api/notifications_app/scheduler.py:28-62 | A schedule marked processed was due when a scheduler picked it, and stands as it was put |
| `NotificationIngest.RestartEqualsOneRun` | apps/notifications-api/notifications_app/scheduler.py:28-62 | Any number of schedulers stopped one after the other anywhere in an acceptable batch, and a last one that works through the rows left unmarked, end where one uninterrupted scheduler ends |
| `NotificationIngest.StillAcceptable` | apps/notifications-api/notifications_app/scheduler.py:44-61 | After any stop every row of the batch can still be ingested |
| `NotificationIngest.HeadOfLine` | apps/notifications-api/notifications_app/scheduler.py:30-61 | One due schedule that cannot be ingested holds up every schedule behind it |
| `NotificationIngest.RunExtends` | apps/notifications-api/notifications_app/service.py:313-496 | Notifications, processed events and schedule marks are never undone |
| `NotificationIngest.Service.Ingest` | apps/notifications-api/notifications_app/service.py:313-464 | Succeeds exactly if the event is processed with a notification of the tenant, or is new with a usable template and a free key; adds at most one notification, makes earlier marks durable, and an error loses the session's marks |
| `NotificationIngest.Service.ProcessDueSchedules` | apps/notifications-api/notifications_app/scheduler.py:28-62 | Exactly the leading rows that can be ingested in the process's lifetime get their notifications; all are marked if the batch completed, else all of those but the last |
| `ReportExports.OneClosingEvent` | apps/insights-api/insights_app/exports.py:49-262 | A run has a closing event exactly if it succeeded or failed, never two, carrying its row count within the limit or its error |
| `ReportExports.OnePathPerRun` | apps/insights-api/insights_app/exports.py:156-164 | An idle worker can take a queued run by exactly one path: the export path if it has an artifact, else the report path |
| `ReportExports.SelectionHolds` | apps/insights-api/insights_app/exports.py:253-262 | A run chosen for a path stays so until the worker takes it or cleans up |
| `ReportExports.SucceededExport` | apps/insights-api/insights_app/exports.py:88-126 | An artifact stands where its run stands; a succeeded one had its object stored and its run succeed within the limit, and the object is there until it expires |
| `ReportExports.DownloadGoneExactly` | apps/insights-api/insights_app/api.py:312-326 | For a download whose check of the row passed, whatever happens before its read from storage: the object is gone exactly if the clean-up deleted it in between, and then the artifact expired in between |
| `ReportExports.GoneRun` | apps/insights-api/insights_app/api.py:312-326 | A reachable run in which that happens |
| `ReportExports.DownloadNeverGone` | apps/insights-api/insights_app/api.py:312-326 | With nothing in between, a download is served exactly for a succeeded artifact that is not expired, and never finds its object gone |
| `ReportExports.OrphansStay` | apps/insights-api/insights_app/exports.py:167-198 | An object whose upload was not recorded is never cleaned up |
| `ReportExports.RunningForGood` | apps/insights-api/insights_app/exports.py:72-130 | A run the worker left between its two commits stays running and is never announced |
| `ReportExports.RefusedExactly` | apps/insights-api/insights_app/api.py:312-326 | A download is refused as not found, not ready or expired exactly as the artifact's row says |
| `ReportExports.RowStays` | apps/insights-api/insights_app/exports.py:167-198 | An artifact's row is never changed in run or expiry and is removed only once it has expired |
| `ReportExports.CountingEnds` | apps/insights-api/insights_app/exports.py:201-250 | A counted run succeeds exactly with its report there and a count within the limit, and each error code has its exact cause |
| `ReportExports.Worker.QueueReportRun` | apps/insights-api/insights_app/service.py:489-540 | Run and artifact are queued in one commit, or nothing is if the report is not found |
| `ReportExports.Worker.ProcessExport` | apps/insights-api/insights_app/exports.py:49-153 | Every way an export ends, each status and error code with its exact cause: both rows, the events and whether an object was stored |
| `ReportExports.Worker.ProcessReportRun` | apps/insights-api/insights_app/exports.py:201-250 | Counting records the outcome and exactly its event; an error other than a timeout leaves the run queued |
| `ReportExports.Worker.ProcessReportRuns` | apps/insights-api/insights_app/worker.py:203-204 | The loop takes the selected runs in order, each with its own outcome and event, up to the first whose counting raises; that one and all later ones stay queued, and no other run, artifact, object or event changes |
| `ReportExports.RunsAfterExactly` | apps/insights-api/insights_app/worker.py:203-204 | Each run the loop took is as its own counting leaves it, and every other run is as before |
| `ReportExports.Worker.CleanupExpired` | apps/insights-api/insights_app/exports.py:167-198 | Deletes the stored objects of the expired artifacts it reached, and their rows in one commit at the end |
| `RateLimit.BudgetExactly` | apps/gateway/gateway_app/middleware.py:38-130 | Which of the seven budgets a request draws on, from its path and verb alone |
| `RateLimit.ChangesLimited` | apps/gateway/gateway_app/middleware.py:83-136 | A change of notifications that comes in time passes exactly if Redis answers and its place among the changes of its subject and window is within their budget, whatever else is requested |
| `RateLimit.CountersExact` | apps/gateway/gateway_app/middleware.py:104-109 | After any history, late increments and faults included, a counter holds the increments of its key since it began and expires a second and a window after it began |
| `RateLimit.PassesByCounted` | apps/gateway/gateway_app/middleware.py:83-136 | For any history, a request passes exactly if Redis answers and the increments of its window, scope and subject since the counter began are within the limit |
| `RateLimit.OrdinalExactly` | apps/gateway/gateway_app/middleware.py:104-109 | An increment counts all increments of its window if and only if it takes effect before the expiry the first of them set |
| `RateLimit.PassesByOrdinal` | apps/gateway/gateway_app/middleware.py:83-136 | A request that takes effect before that expiry passes exactly if Redis answers and its place among the requests of its window, scope and subject is within the limit |
| `RateLimit.PromptInTime` | apps/gateway/gateway_app/middleware.py:88-109 | An increment within a second of the end of its window always takes effect before that expiry |
| `RateLimit.AtMostTwice` | apps/gateway/gateway_app/middleware.py:86-136 | If the requests of a scope and subject do, any half-open interval as long as the window lets at most twice the limit pass |
| `RateLimit.TwiceAttained` | apps/gateway/gateway_app/middleware.py:86-136 | The bound is attained around the turn of a window |
| `RateLimit.LateRequestsPass` | apps/gateway/gateway_app/middleware.py:104-109 | Later increments do break the bounds: three requests of one second pass where one is allowed |
| `RateLimit.Gateway.LimitFor` | apps/gateway/gateway_app/middleware.py:89-128 | The chain that picks the limit agrees with the chain that picks the scope |
| `RateLimit.Gateway.Dispatch` | apps/gateway/gateway_app/middleware.py:83-136 | Health probes pass uncounted; any other request is counted under its scope, window and subject, and a change of notifications is judged by its place among its subject's changes |
| `MonthlyActivity.ShiftExact` | apps/api/app/services/analytics.py:32-34 | Shifting moves the month index by exactly the months asked for and fails exactly outside the years a date can have |
| `MonthlyActivity.MonthlyPoints` | apps/api/app/services/analytics.py:219-243 | For arbitrary inputs: one point a month, each active count being the running sum minus the least of zero and the sums so far; fails exactly in the last month a date can have |
| `MonthlyActivity.GroupExact` | apps/api/app/repositories/analytics.py:267-296 | A month's group counts exactly the dates of the period in that month |
| `MonthlyActivity.RunningAgainstDirect` | apps/api/app/repositories/analytics.py:237-301 | For arbitrary records the running sum is the direct count plus those closed before the period they were created in minus those closed before they were created |
| `MonthlyActivity.LowestIsShortfall` | apps/api/app/services/analytics.py:231-233 | How far the clamp has raised the count so far, in terms of the records |
| `MonthlyActivity.NeverBelowZero` | apps/api/app/services/analytics.py:231-233 | If nothing closes before it is created the clamp never acts |
| `MonthlyActivity.Chart` | apps/api/app/services/analytics.py:219-243 | For any records a month's created and completed counts are those created and first closed in it; its active count is the direct count with those contradictory records on top, raised by the clamp; it equals the number of obligations created by the month's end, capped at the period's, and not closed by then, if and only if these cancel, and always if nothing closes before it is created |
| `MonthlyActivity.ChartDiffers` | apps/api/app/services/analytics.py:219-243 | A record for which the chart and the direct count differ |
| `Penalties.SqlAgrees` | apps/api/app/repositories/analytics.py:152-167 | For every rule, accepted by the schema or not, the SQL expression is the Python amount, or zero where Python raises |
| `Penalties.AddsUpDaily` | apps/api/app/services/penalties.py:22-30 | The exposure is the rate of each day in force, added up |
| `Penalties.Monotone` | apps/api/app/services/penalties.py:22-30 | The exposure of an accepted rule never falls and is constant from the end on |
| `Penalties.SplitAt` | apps/api/app/services/penalties.py:22-30 | Cutting a rule at a date into two changes no exposure |
| `Penalties.LaterRulesDoNotCount` | apps/api/app/repositories/analytics.py:169-182 | Leaving out the rules that start later changes no total |
| `Penalties.DepartmentsMakeTotal` | apps/api/app/repositories/analytics.py:359-392 | Every rule is in exactly one department's amount: unrounded they add up to the total |
| `Penalties.DepartmentExactly` | apps/api/app/repositories/analytics.py:359-392 | The report has a line for a department exactly if one of its rules has started, holding what all rules of that department and no others come to |
| `Penalties.OwedForDaysInForce` | apps/api/app/services/penalties.py:22-30 | An accepted rule owes its daily amount, or a hundredth of its base for each per cent, for every day in force |
| `Penalties.NearestCent` | apps/api/app/repositories/analytics.py:182 | Rounding goes to the nearest cent, from the middle between two to the even one |
| `Penalties.ReportAddsUp` | apps/api/app/repositories/analytics.py:359-392 | The rounded department amounts add up to the rounded total within 0.005 * (departments + 1) |
| `Penalties.WholeCentsAddUpExactly` | apps/api/app/repositories/analytics.py:359-392 | They add up to the cent if no department's amount has a fraction of a cent |
| `CsvDownload.RoundTrip` | apps/web/lib/legal.ts:73-77 | A downloaded table is read back exactly by the rules of section 2 of RFC 4180, with a bare LF as record break, if and only if none of its rows is empty |
| `CsvDownload.Unambiguous` | apps/web/lib/legal.ts:73-77 | Two tables without empty rows never share their text |
| `CsvDownload.ReadRow` | apps/web/lib/legal.ts:74 | A written row is read back cell by cell whatever follows it |

## Left out

- The stream id, heartbeat and started-at columns: bookkeeping no property depends on.
- Truncation of projected texts and amounts, and the tables that map event types and aggregates to modules and links to allowed routes: an event comes with its module, a payload value with what its parser makes of it.
- The idempotency-key record of document creation, document links' own rows, categories and classifications: an edit is a lock-checked change of the row.
- Audit rows everywhere, and the outbox events of documents, deliveries and imports.
- Commits whose outcome is unknown to the process: a commit happens or does not, and the process knows which.
- Projection.Store.ApplyEvent: the transaction is one step although it reads the row without a lock: two consumers applying events of one row at once are not modelled, and two inserting the same event, where one fails on the unique key and is redelivered, appear as one after the other.
- DocumentService.AlwaysConsistent: a scan completion and a link change are one step each although they read the row without a lock; `DocumentService.StaleCompletion` says what a stale read does.
- DocumentService.Service.ScanBatch: the versions a claim picks are a parameter; their order and the batch limit are not modelled.
- RateLimit.PassesByOrdinal: the requests are taken in the order their increments take effect, by one clock, and the setting of a counter's expiry is noted together with the increment that causes it, with its own time; the skew between the clocks of gateways and Redis is not modelled, nor are the checks of origin and body size before the counter.
- ReportExports.OnePathPerRun: holds for the one worker that is deployed; several workers selecting runs at once are not modelled. Which rows a report selects is a parameter.
- NotificationIngest.Service.ProcessDueSchedules: no other session runs between the rows of the batch; the interleavings are in `NotificationIngest.OneNotificationPerEvent` and `NotificationIngest.MarkedScheduleNotified`. Recipients, preferences and rendering are reduced to whether the template accepts the variables.
- DashboardCache.ServedIsFresh: changes by snapshot imports, which count in a checkpoint of their own, are not seen by the version.
- ContractDrain.DrainRefinesContract: one contract and its own events, the database clock not going back between its calls; other sources' events may stand between them.
- MonthlyActivity.Chart: times are reduced to dates, and the tenant, department and court filters to the rows they select.
- Penalties.DepartmentExactly: the number of rules in a line of the report, its label and the order of the lines.
- Penalties.ReportAddsUp: amounts are exact reals; the digits the database keeps in a division are not modelled. One currency.
- CsvDownload.RoundTrip: cells are the texts that numbers are turned into; a text is a sequence of characters, not of UTF-16 units.
- The notification worker's retry keys and dead letters, and the publishers of the other services: the same shape as the pipeline. The insights service orders its own outbox by creation time alone.
- The status machine of legal obligations and those of milestones, contract obligations and payments: the same shape as the contract's, with other tables.
- NotificationIngest.MarkedScheduleNotified: the scheduler's deletion of notifications past their expiry date is not modelled; no code path sets that date.
- ContractDrain.ChildEventShown: a milestone's, obligation's or payment's event is modelled with its caption and status only, not its identifier, dates, amount and link.
- ContractFields.AmendmentAccepted: the database's refusal of a value beyond eighteen digits.
- ContractService.ReachableSound: the calls on a contract come one after the other; two sessions that read its row at once, which the code does not lock, are not modelled. A currency comes stripped and in upper case, and every character beyond ASCII counts as a letter.
- Reminder creation, the classification of subscribed events, formula-safe cells of server exports, search and report sorting: each is one function without state.
- Expiry of Redis keys other than the rate-limit key and cached dashboards, and trimming of streams.
- HTTP, authentication, mail, ClamAV, S3 and Redis clients.
- Row objects of one database session: the classes keep rows as values and a method replaces them, so aliasing between a session's objects is not modelled; the classes of `Documents.dfy`, `Exports.dfy`, `Ingest.dfy`, `Backfill.dfy`, `DashboardCache.dfy` and `PipelineWorker.dfy` hold their tables as one value.
