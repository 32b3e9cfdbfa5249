# Asyncable retry scheduler, in Dafny

A model of the durable retry scheduler of a case-management application,
and of the code built on it.

- `Asyncable` is mixed into persistent models that stand for in-flight calls
  to unreliable external services. Each row has six scheduling fields:
  `last_submitted_at`, `submitted_at`, `attempted_at`, `processed_at`,
  `canceled_at` and `error`. The scheduler gives:
  - selection scopes over the table, built from timestamp windows around
    `now`: a 3-hour retry interval and a 4-day expiry window;
  - `?` predicates on one row;
  - `!` transitions that stamp the fields.
- `UploadDocumentToVbms` uses the scheduler for one external call. It
  submits, uploads to VBMS unless an earlier run already did, and stamps
  `processed_at`. On a failure it records the message and raises the same
  exception again.
- `TaskTimer` narrows the polling query to timers whose task is still active.
- Two small client-side pieces are included: the team-management Redux
  reducer, and the index of the hearing docket's cut-off line.

Files:

- `wrappers.dfy`: `Option`.
- `query.dfy`: the two relational operations the scopes use. `Filter` is a
  WHERE clause. `OrderBy` is `ORDER BY` on a nullable timestamp, ascending,
  with NULLs last.
- `asyncable.dfy`: the `WorkItem` row and its predicates, the scopes as row
  predicates, and the three queries a poller runs. Each transition is a
  function on rows, and also a method of the `AsyncableRecord` class that
  updates its fields in place.
- `upload_document_to_vbms.dfy`: the document (`VbmsUploadedDocument`) and
  the workflow object (`UploadDocumentToVbms`). Each private step is a
  method, proved against a step function. `call` is proved against
  `CallSpec`. The S3 location strings are also here.
- `task_timer.dfy`: `TaskTimer.requires_processing` and `with_active_tasks`.
- `team_management_reducer.dfy`: `initialState` and `teamManagementReducer`.
- `docket_line.dfy`: `getIndexOfDocketLine` and the index clamp at the top of
  `docketCutoffLineStyle`.

Conventions:

- Times are whole seconds. `Time.zone.now` is a parameter `now`.
- A NULL column is `None`. A comparison with NULL drops the row, as in SQL.
- The two durations are a `Config`. `DEFAULT_CONFIG` is 3 hours and 4 days,
  and TaskTimer uses it unchanged.
- The `delay:` of `submit_for_processing!` is `Seconds(d)` or `At(t)`:
  - `Seconds(0)` starts now;
  - any other number of seconds starts at `now + d − 3h`;
  - a point in time `t` starts at `t + 1 minute − 3h`.
- The `?` predicates are the members `IsProcessed`, `IsAttempted`,
  `IsSubmitted`, `IsCanceled`, `IsSubmittedAndReady`,
  `IsSubmittedNotProcessed` and `IsExpiredWithoutProcessing` of `WorkItem`.
  The lemmas below state their properties.

The model follows the code where a reading of the mixin's intent differs:

- `restart!` keeps `submitted_at`, so `submitted?` stays as it was.
- `never_attempted` has no cancellation filter; only `attemptable` excludes
  canceled rows.
- A point-in-time delay gains exactly one minute. Nothing clamps it to the
  future.
- Neither `processed!` nor the workflow's success path clears `error`.
- `upload_to_vbms!` stamps `uploaded_to_vbms_at` only after VBMS returns, so
  delivery is at least once, not exactly once. A process that dies between
  the call and the stamp, or a VBMS call that raises after storing the
  document, leads to a second upload on the retry.
- A restarted or freshly submitted item (with no delay) becomes due one
  retry interval later, not at once.

## Model

| member | source | states |
|---|---|---|
| `Query.OrderBy` | app/models/concerns/asyncable.rb:88-90 | `order_by_oldest_submitted`: the result is a permutation of the rows, ascending by `last_submitted_at`, with NULLs last |
| `Asyncable.RequiresProcessing` | app/models/concerns/asyncable.rb:84-94 | a row is returned iff it is processable, attemptable and unexpired, as often as it occurs; every returned row has `last_submitted_at`, in ascending order |
| `Asyncable.ExpiredWithoutProcessing` | app/models/concerns/asyncable.rb:96-99 | a row is returned iff `processed_at` is NULL and `last_submitted_at` is at or before now − 4 days |
| `Asyncable.PotentiallyStuck` | app/models/concerns/asyncable.rb:101-115 | a row is returned iff it is processable and not canceled, or attempted but never submitted, or carries an error; ordered by `last_submitted_at`, NULLs last |
| `Asyncable.RetryInterval` | app/models/concerns/asyncable.rb:30-32 | `processing_retry_interval_hours` in seconds: 3 hours under the default windows |
| `Asyncable.RetryCutoff` | app/models/concerns/asyncable.rb:76 | `processing_retry_interval_hours.hours.ago`: now less one retry interval (also used at line 81) |
| `Asyncable.RequiresProcessingUntil` | app/models/concerns/asyncable.rb:34-36 | `requires_processing_until`: now less the expiry window, 4 days under the default windows |
| `Asyncable.WorkItem.IsProcessed` | app/models/concerns/asyncable.rb:158-160 | `processed?`: true iff `processed_at` is set |
| `Asyncable.WorkItem.IsAttempted` | app/models/concerns/asyncable.rb:162-164 | `attempted?`: true iff `attempted_at` is set |
| `Asyncable.WorkItem.IsSubmitted` | app/models/concerns/asyncable.rb:166-168 | `submitted?`: true iff `submitted_at` is set |
| `Asyncable.WorkItem.IsCanceled` | app/models/concerns/asyncable.rb:170-172 | `canceled?`: true iff `canceled_at` is set |
| `Asyncable.WorkItem.IsSubmittedAndReady` | app/models/concerns/asyncable.rb:183-185 | a row ready now has been submitted |
| `Asyncable.WorkItem.IsSubmittedNotProcessed` | app/models/concerns/asyncable.rb:187-189 | `submitted?` and not `processed?` |
| `Asyncable.WorkItem.IsExpiredWithoutProcessing` | app/models/concerns/asyncable.rb:174-181 | an expired row is unprocessed and was submitted; `ExpiredPredicateAgainstScope` relates it to the scope |
| `Asyncable.WorkItem.SortByLastSubmittedAt` | app/models/concerns/asyncable.rb:191-193 | the in-memory key; `SortKeyAgreesWithOrder` states where it agrees with ORDER BY |
| `Asyncable.Unexpired` | app/models/concerns/asyncable.rb:62-64 | a row that was never submitted is never unexpired (a comparison with NULL fails) |
| `Asyncable.Canceled` | app/models/concerns/asyncable.rb:66-68 | `canceled`: the rows whose `canceled_at` is set |
| `Asyncable.Processable` | app/models/concerns/asyncable.rb:70-72 | a processable row is unprocessed and has been submitted |
| `Asyncable.NeverAttempted` | app/models/concerns/asyncable.rb:74-78 | a row in `never_attempted` was not attempted and has been submitted |
| `Asyncable.PreviouslyAttemptedReadyForRetry` | app/models/concerns/asyncable.rb:80-82 | a row ready for retry has been attempted |
| `Asyncable.Attemptable` | app/models/concerns/asyncable.rb:84-86 | an attemptable row is not canceled; an attempted row is attemptable iff it is ready for retry and not canceled |
| `Asyncable.AttemptedWithoutBeingSubmitted` | app/models/concerns/asyncable.rb:101-103 | such a row is attempted but is neither processable nor unexpired under any windows, so `requires_processing` never picks it up |
| `Asyncable.WithError` | app/models/concerns/asyncable.rb:105-107 | `with_error`: the rows whose `error` is set |
| `Asyncable.ProcessedOrCanceledNeverSelected` | app/models/concerns/asyncable.rb:70-94 | a processed row is never processable; a canceled row is never attemptable; neither is ever returned by `requires_processing` |
| `Asyncable.CanceledCanBeNeverAttempted` | app/models/concerns/asyncable.rb:74-86 | a canceled row can satisfy `never_attempted`; only `attemptable` excludes it |
| `Asyncable.RetryThresholds` | app/models/concerns/asyncable.rb:74-86 | a submitted, uncanceled row that was never attempted is attemptable iff now ≥ last submission + interval; an attempted one iff now > attempt + interval (strict) |
| `Asyncable.UnexpiredOrExpired` | app/models/concerns/asyncable.rb:62-99 | an unprocessed submitted row is in exactly one of `unexpired` and `expired_without_processing` |
| `Asyncable.RequiresProcessingDisjointFromExpired` | app/models/concerns/asyncable.rb:92-99 | no row is returned by both `requires_processing` and `expired_without_processing` |
| `Asyncable.ExpiredPredicateAgainstScope` | app/models/concerns/asyncable.rb:174-181 | `expired_without_processing?` implies the scope; they differ exactly for an unprocessed row submitted at the cutoff instant itself |
| `Asyncable.SubmitBecomesDueAtRequestedStart` | app/models/concerns/asyncable.rb:118-132 | after submitting a row that was never attempted, it satisfies `never_attempted` exactly from the requested start on: now + d for a non-zero delay, t + 1 minute for a point in time, now + 3h for no delay |
| `Asyncable.SubmittedItemSelectionWindow` | app/models/concerns/asyncable.rb:118-132 | a submitted row, not attempted and not canceled, is due for processing from the requested start until 4 days after its recorded start |
| `Asyncable.ProcessedIdempotent` | app/models/concerns/asyncable.rb:134-136 | a second `processed!` keeps the first `processed_at` |
| `Asyncable.RestartClearsOutcome` | app/models/concerns/asyncable.rb:203-211 | after `restart!`, the row is not processed, attempted or canceled and has no error; `submitted?` is what it was |
| `Asyncable.RestartSelectionWindow` | app/models/concerns/asyncable.rb:203-211 | a row restarted at t is due for processing exactly from t + 3h until t + 4 days |
| `Asyncable.NoProcessingRequiredIsFinal` | app/models/concerns/asyncable.rb:147-156 | after `no_processing_required!` the row is processed, attempted and submitted, is never due again, and is never reported expired |
| `Asyncable.RequiresProcessingWithinPotentiallyStuck` | app/models/concerns/asyncable.rb:92-115 | every row due for processing is also reported by `potentially_stuck` |
| `Asyncable.SortKeyAgreesWithOrder` | app/models/concerns/asyncable.rb:191-193 | a never-submitted row gets the key now; the key orders submitted rows like ORDER BY, and disagrees with it exactly when one row is unsubmitted and the other was submitted after now (at or after now when the unsubmitted row is first) |
| `Asyncable.SortKeyDisagreesOnUnsubmittedRow` | app/models/concerns/asyncable.rb:191-193 | a never-submitted row sorts before a row submitted one second from now by the key, and after it in ORDER BY |
| `Asyncable.WhenToStart` | app/models/concerns/asyncable.rb:119-125 | no delay starts now; any other delay starts one retry interval before the requested start (now + d, or t + 1 minute) |
| `Asyncable.AfterSubmitForProcessing` | app/models/concerns/asyncable.rb:127-131 | `last_submitted_at` = `submitted_at` = the computed start, not processed; `attempted_at`, `canceled_at` and `error` kept |
| `Asyncable.AfterProcessed` | app/models/concerns/asyncable.rb:134-136 | processed afterwards; an already processed row is unchanged; only `processed_at` can change |
| `Asyncable.AfterAttempted` | app/models/concerns/asyncable.rb:138-140 | `attempted_at` is now; nothing else changes |
| `Asyncable.AfterCanceled` | app/models/concerns/asyncable.rb:142-144 | `canceled_at` is now, and the row is not attemptable at any later time under any windows; nothing else changes |
| `Asyncable.AfterNoProcessingRequired` | app/models/concerns/asyncable.rb:147-156 | the four timestamps are now; `canceled_at` and `error` kept |
| `Asyncable.AfterUpdateError` | app/models/concerns/asyncable.rb:195-201 | `error` is the given value (NULL for `clear_error!`), so `with_error` holds iff a message was given; nothing else changes |
| `Asyncable.AfterRestart` | app/models/concerns/asyncable.rb:203-211 | `last_submitted_at` is now, `submitted_at` kept, the four outcome columns NULL |
| `Asyncable.AsyncableRecord.SubmitForProcessing` | app/models/concerns/asyncable.rb:118-132 | sets `last_submitted_at` = `submitted_at` = the computed start and nulls `processed_at`; `attempted_at`, `canceled_at` and `error` are unchanged |
| `Asyncable.AsyncableRecord.Processed` | app/models/concerns/asyncable.rb:134-136 | stamps `processed_at` only when it was NULL; nothing else changes |
| `Asyncable.AsyncableRecord.Attempted` | app/models/concerns/asyncable.rb:138-140 | stamps `attempted_at` only |
| `Asyncable.AsyncableRecord.Canceled` | app/models/concerns/asyncable.rb:142-144 | stamps `canceled_at` only |
| `Asyncable.AsyncableRecord.NoProcessingRequired` | app/models/concerns/asyncable.rb:147-156 | sets the four timestamps to one instant; `canceled_at` and `error` are unchanged |
| `Asyncable.AsyncableRecord.ClearError` | app/models/concerns/asyncable.rb:195-197 | nulls `error` only |
| `Asyncable.AsyncableRecord.UpdateError` | app/models/concerns/asyncable.rb:199-201 | sets `error` only |
| `Asyncable.AsyncableRecord.Restart` | app/models/concerns/asyncable.rb:203-211 | sets `last_submitted_at` to now and nulls `processed_at`, `attempted_at`, `canceled_at` and `error`; `submitted_at` is unchanged |
| `TaskTimer.WithActiveTasks` | app/models/task_timer.rb:17-19 | keeps exactly the timers whose task status is not inactive |
| `TaskTimer.RequiresProcessing` | app/models/task_timer.rb:11-15 | a timer is returned iff its task is active and it is processable, attemptable and unexpired under the default windows; oldest `last_submitted_at` first |
| `TaskTimer.NeverReturnsInactiveCanceledOrProcessed` | app/models/task_timer.rb:11-19 | a timer whose task is inactive, or that is canceled or processed, is never returned |
| `TaskTimer.WithinGenericRequiresProcessing` | app/models/task_timer.rb:11-15 | every returned timer is returned by the generic `requires_processing` over the same rows |
| `VbmsUpload.AfterSubmit` | app/workflows/upload_document_to_vbms.rb:46-55 | the three submit stamps are now and the row is not processed but submitted and ready; `canceled_at`, `error` and the marker are kept |
| `VbmsUpload.UploadStep` | app/workflows/upload_document_to_vbms.rb:57-62 | with the marker set, VBMS is skipped and nothing changes; otherwise the marker is stamped now iff VBMS returns normally, and any raise leaves the document unchanged |
| `VbmsUpload.AfterSetProcessedAt` | app/workflows/upload_document_to_vbms.rb:64-66 | `processed_at` is now, whatever it held; nothing else changes |
| `VbmsUpload.AfterSaveRescuedError` | app/workflows/upload_document_to_vbms.rb:68-70 | `error` is the message; nothing else changes |
| `VbmsUpload.CallSpec` | app/workflows/upload_document_to_vbms.rb:12-21 | returns without change iff already processed. Otherwise the three submit stamps equal now. On success `processed_at` is now and `error` is kept; the upload marker is now when VBMS was called and is unchanged otherwise; VBMS was called iff neither column was set and it returned normally. A raise from VBMS is re-raised with its message, stored in `error`, and leaves `processed_at` and the marker NULL |
| `VbmsUpload.UploadDocumentToVbms.constructor` | app/workflows/upload_document_to_vbms.rb:8-10 | `initialize(document:)`: the workflow keeps the document it is given |
| `VbmsUpload.UploadDocumentToVbms.Call` | app/workflows/upload_document_to_vbms.rb:12-21 | the document and the outcome after the step sequence are those of `CallSpec` |
| `VbmsUpload.UploadDocumentToVbms.SubmitForProcessing` | app/workflows/upload_document_to_vbms.rb:46-55 | sets `last_submitted_at`, `submitted_at` and `attempted_at` to one instant and nulls `processed_at`; nothing else changes |
| `VbmsUpload.UploadDocumentToVbms.UploadToVbms` | app/workflows/upload_document_to_vbms.rb:57-62 | skips VBMS when `uploaded_to_vbms_at` is set; otherwise stamps it exactly when the upload succeeds |
| `VbmsUpload.UploadDocumentToVbms.SetProcessedAtToCurrentTime` | app/workflows/upload_document_to_vbms.rb:64-66 | stamps `processed_at` only |
| `VbmsUpload.UploadDocumentToVbms.SaveRescuedError` | app/workflows/upload_document_to_vbms.rb:68-70 | stores the message in `error` only |
| `VbmsUpload.SubmitIsSchedulerSubmitPlusAttempt` | app/workflows/upload_document_to_vbms.rb:46-55 | the workflow's submit is the mixin's `submit_for_processing!` with no delay plus an `attempted_at` stamp |
| `VbmsUpload.CompletedCallIsFinal` | app/workflows/upload_document_to_vbms.rb:12-21 | after success a new `call` returns at once without change, and the document is never again due or expired |
| `VbmsUpload.FailedCallRetryWindow` | app/workflows/upload_document_to_vbms.rb:12-21 | after a failure at t, an uncanceled document is due again exactly when t + 3h < now < t + 4 days |
| `VbmsUpload.StaleErrorAfterRecovery` | app/workflows/upload_document_to_vbms.rb:12-21 | a failed call followed by a successful one completes and leaves the first message in `error` |
| `VbmsUpload.AfterRun` | app/workflows/upload_document_to_vbms.rb:12-21 | VBMS stores the document in a run iff the document was neither processed nor marked, VBMS stores it, and the run got past the submit step. A set marker stays set. A run that stores the document without dying between the VBMS call and the stamp, and without VBMS raising, leaves the marker set; one that dies between them leaves it NULL and the row unprocessed |
| `VbmsUpload.NoSecondUploadAfterCrash` | app/workflows/upload_document_to_vbms.rb:57-62 | after a run that died once the marker was stamped, the next call completes without calling VBMS |
| `VbmsUpload.SecondUploadAfterDeathBeforeStamp` | app/workflows/upload_document_to_vbms.rb:57-62 | a run that dies after VBMS returns and before the stamp, then a run to the end: the second call calls VBMS again, and VBMS stores the document twice |
| `VbmsUpload.SecondUploadAfterLateFailure` | app/workflows/upload_document_to_vbms.rb:12-21 | when VBMS stores the document and raises, the call raises and a retry that succeeds stores the document a second time |
| `VbmsUpload.UploadsBoundedByUnsafeRuns` | app/workflows/upload_document_to_vbms.rb:12-62 | over any sequence of runs, VBMS stores the document at most once (none if it was marked uploaded before) plus once per run that died between the VBMS call and the stamp or where VBMS raised after storing it |
| `VbmsUpload.AtMostOneUpload` | app/workflows/upload_document_to_vbms.rb:57-62 | if no run dies between the VBMS call and the stamp and VBMS never raises after storing, VBMS stores the document at most once, and never if it was marked uploaded before |
| `VbmsUpload.PdfName` | app/workflows/upload_document_to_vbms.rb:80-82 | the name is "appeal-", the external id, "-doc-", the decimal id and ".pdf", in that order |
| `VbmsUpload.Decimal` | app/workflows/upload_document_to_vbms.rb:81 | `#{document.id}`: at least one decimal digit, no leading zero; `DecimalRoundTrip` reads it back |
| `VbmsUpload.S3Location` | app/workflows/upload_document_to_vbms.rb:72-74 | the location is "idt-uploaded-documents/" followed by the PDF name |
| `VbmsUpload.DecimalRoundTrip` | app/workflows/upload_document_to_vbms.rb:80-82 | the decimal digits written for a document id read back as that id |
| `VbmsUpload.S3LocationDeterminesDocument` | app/workflows/upload_document_to_vbms.rb:72-82 | within one appeal, two documents share an S3 location only if they have the same id |
| `TeamManagement.InitialState` | client/app/queue/teamManagement/reducers.js:4-8 | the three lists start empty |
| `TeamManagement.Reduce` | client/app/queue/teamManagement/reducers.js:10-29 | an undefined state starts from the initial state. A team list replaces all three lists. A new judge team or VSO is appended at the end of its own list, and the other lists are unchanged. Any other action returns the state unchanged |
| `TeamManagement.NewJudgeTeamsAppendInOrder` | client/app/queue/teamManagement/reducers.js:18-21 | judge teams received one by one are appended in order; the VSO and other lists are unchanged |
| `TeamManagement.TeamListForgetsHistory` | client/app/queue/teamManagement/reducers.js:12-17 | after a team list, the state is the payload's three lists, whatever came before |
| `TeamManagement.UnrecognisedActionsIgnored` | client/app/queue/teamManagement/reducers.js:26-27 | any number of unrecognised actions leave the state unchanged |
| `DocketLine.IsAodOrCavcRemand` | client/app/hearingSchedule/components/AssignHearingsDocketLine.jsx:57-60 | the filter condition: a CAVC remand or an AOD appeal |
| `DocketLine.AodAndCavcCount` | client/app/hearingSchedule/components/AssignHearingsDocketLine.jsx:57-60 | the count is at most the number of appeals, and is 0 iff no appeal is AOD or a CAVC remand |
| `DocketLine.AodAndCavcCountedOnce` | client/app/hearingSchedule/components/AssignHearingsDocketLine.jsx:57-60 | the count is CAVC remands + AOD appeals − appeals that are both, so none is counted twice |
| `DocketLine.GetIndexOfDocketLine` | client/app/hearingSchedule/components/AssignHearingsDocketLine.jsx:55-65 | the index is ≥ −1, and is −1 iff the docket range is empty and no appeal is AOD or a CAVC remand |
| `DocketLine.CutoffRow` | client/app/hearingSchedule/components/AssignHearingsDocketLine.jsx:7-9 | a negative index means "empty"; the row index used is the index clamped to 0 |
| `DocketLine.CutoffLineForDocket` | client/app/hearingSchedule/components/AssignHearingsDocketLine.jsx:55-65 | the line is "empty" exactly for an empty docket with no AOD or CAVC appeals; otherwise its row + 1 is the number of appeals counted |

## Left out

- Persistence: `update!`, `where`, `arel_table` and `or` are modelled as
  values and filters. Storage errors, row locking and concurrent pollers are
  not modelled.
- Column-name overrides (`*_column`) are not modelled: the fields have fixed
  names. The two durations are configurable.
- `PROCESS_DELAY_VBMS_OFFSET_HOURS` is declared in the mixin but never used.
- `asyncable_ui_hash` is UI serialisation. `RunAsyncable` is not part of this
  model.
- Time zones, calendar arithmetic and sub-second precision are not modelled:
  `3.hours.ago` and `4.days.ago` are fixed numbers of seconds.
- NULL ordering in `potentially_stuck` is up to the database. The model puts
  NULLs last, as PostgreSQL does. Ties between equal timestamps may come in
  any order; the contracts say only "sorted, and a permutation".
- `VbmsUpload.UploadDocumentToVbms.Call`: all steps of one `call` use a
  single `now`. The source reads the clock once per step.
- The external services behind the upload are one input: the VBMS response.
  This covers `VBMSService.upload_document_to_vbms`, `S3Service.fetch_file`
  and `store_file`, `Base64.decode64`, and `Document.type_id`. A call
  that raises after VBMS stored the document is one of the responses.
- `pdf_location`, `output_location`, `cache_file`, `source` and
  `document_type_id` are not modelled. They build file paths or call the
  services above.
- `TaskTimer.WithActiveTasks`: every timer is assumed to belong to a task
  with a non-NULL status. In the source, a timer whose task row is missing or
  whose status is NULL fails the `NOT IN` test of the outer join and is
  dropped; the model's status is a string and cannot express either case.
- `Task.inactive_statuses` is a parameter, the set of inactive statuses.
  `TaskTimer#veteran` is not modelled.
- `LEGACY_APPEAL_TYPES_BY_ID` is not part of this model. The CAVC-remand case
  type is a constructor of its own.
- An organisation in the reducer is an abstract value. The payload is assumed
  to carry all three lists. `concat` with an array argument would flatten it;
  the model appends the one organisation.
- The CSS built by `docketCutoffLineStyle` is rendering. Only the empty test
  and the index clamp are modelled.
