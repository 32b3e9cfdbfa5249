/** UploadDocumentToVbms: the workflow that uploads one document to VBMS on
    top of the retry scheduler. `call` is a guarded step sequence over the
    document's columns: submit, upload unless already uploaded, stamp
    `processed_at`; on a failure it records the message in `error` and
    raises the same exception again.

    The upload itself (`VBMSService.upload_document_to_vbms`, with the S3
    download behind it) is an input: the response the service gives. */
module VbmsUpload {
  import opened Wrappers
  import Asyncable

  const S3_SUB_BUCKET := "idt-uploaded-documents"

  /** What the external upload does when it is called: it stores the
      document and returns, it raises without storing it, or it stores the
      document and raises all the same (a timeout after the write, say). */
  datatype VbmsResponse = Accepted | Failed(message: string) | AcceptedThenFailed(message: string)

  /** Whether VBMS kept the document, whatever the call returned. */
  predicate Stores(vbms: VbmsResponse) {
    vbms.Accepted? || vbms.AcceptedThenFailed?
  }

  /** How `upload_to_vbms!` ends. */
  datatype UploadResult = UploadSkipped | Uploaded | UploadFailed(message: string)

  /** How `call` ends: an early return, a normal return (saying whether VBMS
      was called), or the re-raised exception, identified by its message. */
  datatype CallOutcome = AlreadyProcessed | Completed(vbmsCalled: bool) | Raised(message: string)

  /** The document's scheduling columns and its upload marker. */
  datatype DocumentState = DocumentState(row: Asyncable.WorkItem, uploadedToVbmsAt: Option<int>)

  // ---------------------------------------------------------------------
  // The steps of `call`, as functions from the document before to after.

  /** The workflow's own `submit_for_processing!`: submitted and attempted
      now, not processed; the error, the cancellation and the upload marker
      are kept. */
  function AfterSubmit(d: DocumentState, now: int): (r: DocumentState)
    ensures r.row.lastSubmittedAt == r.row.submittedAt == r.row.attemptedAt == Some(now)
    ensures !r.row.IsProcessed() && r.row.IsSubmittedAndReady(now)
    ensures r.row.id == d.row.id && r.row.canceledAt == d.row.canceledAt && r.row.error == d.row.error
    ensures r.uploadedToVbmsAt == d.uploadedToVbmsAt
  {
    d.(row := d.row.(lastSubmittedAt := Some(now), submittedAt := Some(now), processedAt := None, attemptedAt := Some(now)))
  }

  /** `upload_to_vbms!`: VBMS is called only when the marker is unset, and
      the marker is stamped exactly when the call returns normally. */
  function UploadStep(d: DocumentState, now: int, vbms: VbmsResponse): (r: (DocumentState, UploadResult))
    ensures r.0.row == d.row
    ensures d.uploadedToVbmsAt.Some? ==> r == (d, UploadSkipped)
    ensures d.uploadedToVbmsAt.None? ==>
      (r.1 == Uploaded <==> vbms.Accepted?) && (r.1 == Uploaded ==> r.0.uploadedToVbmsAt == Some(now))
      && (r.1 != Uploaded ==> r.1 == UploadFailed(vbms.message) && r.0 == d)
  {
    if d.uploadedToVbmsAt.Some? then (d, UploadSkipped)
    else if vbms.Accepted? then (d.(uploadedToVbmsAt := Some(now)), Uploaded)
    else (d, UploadFailed(vbms.message))
  }

  /** `set_processed_at_to_current_time`: stamps `processed_at` whatever it
      held, and nothing else. */
  function AfterSetProcessedAt(d: DocumentState, now: int): (r: DocumentState)
    ensures r.row.processedAt == Some(now) && r.row.IsProcessed()
    ensures r.row.(processedAt := d.row.processedAt) == d.row && r.uploadedToVbmsAt == d.uploadedToVbmsAt
  {
    d.(row := d.row.(processedAt := Some(now)))
  }

  /** `save_rescued_error!`: records the message, and nothing else. */
  function AfterSaveRescuedError(d: DocumentState, message: string): (r: DocumentState)
    ensures r.row.error == Some(message)
    ensures r.row.(error := d.row.error) == d.row && r.uploadedToVbmsAt == d.uploadedToVbmsAt
  {
    d.(row := d.row.(error := Some(message)))
  }

  /** `call`: the document afterwards and how the call ends. */
  function CallSpec(d: DocumentState, now: int, vbms: VbmsResponse): (r: (DocumentState, CallOutcome))
    ensures r.1 == AlreadyProcessed <==> d.row.processedAt.Some?
    ensures r.1 == AlreadyProcessed ==> r.0 == d
    ensures r.0.row.id == d.row.id && r.0.row.canceledAt == d.row.canceledAt
    ensures r.1 != AlreadyProcessed ==>
      r.0.row.lastSubmittedAt == r.0.row.submittedAt == r.0.row.attemptedAt == Some(now)
    ensures r.1.Completed? ==>
      r.0.row.processedAt == Some(now) && r.0.uploadedToVbmsAt.Some? && r.0.row.error == d.row.error
    ensures r.1 == Completed(true) <==> d.row.processedAt.None? && d.uploadedToVbmsAt.None? && vbms == Accepted
    ensures r.1 == Completed(true) ==> r.0.uploadedToVbmsAt == Some(now)
    ensures r.1 == Completed(false) ==> r.0.uploadedToVbmsAt == d.uploadedToVbmsAt
    ensures r.1.Raised? ==>
      !vbms.Accepted? && vbms.message == r.1.message && d.uploadedToVbmsAt.None?
      && r.0.row.error == Some(r.1.message) && r.0.row.processedAt.None? && r.0.uploadedToVbmsAt.None?
    ensures d.row.processedAt.None? && d.uploadedToVbmsAt.None? && !vbms.Accepted? ==> r.1 == Raised(vbms.message)
  {
    if d.row.processedAt.Some? then (d, AlreadyProcessed)
    else
      var submitted := AfterSubmit(d, now);
      var (uploaded, result) := UploadStep(submitted, now, vbms);
      match result
      case UploadFailed(m) => (AfterSaveRescuedError(uploaded, m), Raised(m))
      case _ => (AfterSetProcessedAt(uploaded, now), Completed(result == Uploaded))
  }

  // ---------------------------------------------------------------------
  // The document record and the workflow object.

  /** The document being uploaded: the appeal it belongs to, its scheduling
      columns (with its id) and its upload marker. */
  class VbmsUploadedDocument {
    const appealExternalId: string
    var row: Asyncable.WorkItem
    var uploadedToVbmsAt: Option<int>

    function State(): DocumentState
      reads this
    {
      DocumentState(row, uploadedToVbmsAt)
    }

    constructor (id: nat, appealExternalId: string)
      ensures this.appealExternalId == appealExternalId
      ensures State() == DocumentState(Asyncable.WorkItem(id, None, None, None, None, None, None), None)
    {
      this.appealExternalId := appealExternalId;
      row := Asyncable.WorkItem(id, None, None, None, None, None, None);
      uploadedToVbmsAt := None;
    }
  }

  class UploadDocumentToVbms {
    const document: VbmsUploadedDocument

    constructor (document: VbmsUploadedDocument)
      ensures this.document == document
    {
      this.document := document;
    }

    /** `call` */
    method Call(now: int, vbms: VbmsResponse) returns (outcome: CallOutcome)
      modifies document
      ensures (document.State(), outcome) == CallSpec(old(document.State()), now, vbms)
    {
      if document.row.processedAt.Some? {
        return AlreadyProcessed;
      }
      SubmitForProcessing(now);
      var result := UploadToVbms(now, vbms);
      if result.UploadFailed? {
        SaveRescuedError(result.message);
        return Raised(result.message);
      }
      SetProcessedAtToCurrentTime(now);
      outcome := Completed(result == Uploaded);
    }

    /** The workflow's `submit_for_processing!`: unlike the scheduler's, it
        also stamps `attempted_at`. */
    method SubmitForProcessing(now: int)
      modifies document
      ensures document.row.lastSubmittedAt == document.row.submittedAt == document.row.attemptedAt == Some(now)
      ensures document.row.processedAt == None
      ensures document.row.canceledAt == old(document.row.canceledAt) && document.row.error == old(document.row.error)
      ensures document.uploadedToVbmsAt == old(document.uploadedToVbmsAt)
      ensures document.State() == AfterSubmit(old(document.State()), now)
    {
      document.row := document.row.(lastSubmittedAt := Some(now), submittedAt := Some(now),
        processedAt := None, attemptedAt := Some(now));
    }

    /** `upload_to_vbms!`: calls VBMS only when `uploaded_to_vbms_at` is not
        set, and stamps it after the call returns. */
    method UploadToVbms(now: int, vbms: VbmsResponse) returns (result: UploadResult)
      modifies document
      ensures old(document.uploadedToVbmsAt).Some? ==> result == UploadSkipped
      ensures result == Uploaded ==> document.uploadedToVbmsAt == Some(now)
      ensures result != Uploaded ==> document.uploadedToVbmsAt == old(document.uploadedToVbmsAt)
      ensures (document.State(), result) == UploadStep(old(document.State()), now, vbms)
    {
      if document.uploadedToVbmsAt.Some? {
        return UploadSkipped;
      }
      if !vbms.Accepted? {
        return UploadFailed(vbms.message);
      }
      document.uploadedToVbmsAt := Some(now);
      return Uploaded;
    }

    /** `set_processed_at_to_current_time` */
    method SetProcessedAtToCurrentTime(now: int)
      modifies document
      ensures document.row.processedAt == Some(now)
      ensures document.State() == AfterSetProcessedAt(old(document.State()), now)
    {
      document.row := document.row.(processedAt := Some(now));
    }

    /** `save_rescued_error!` */
    method SaveRescuedError(message: string)
      modifies document
      ensures document.row.error == Some(message)
      ensures document.State() == AfterSaveRescuedError(old(document.State()), message)
    {
      document.row := document.row.(error := Some(message));
    }
  }

  // ---------------------------------------------------------------------
  // Where the document is kept in S3: `s3_location` and `pdf_name`.

  function DigitChar(d: int): (c: char)
    requires 0 <= d < 10
    ensures '0' <= c <= '9' && c as int - '0' as int == d
  {
    ('0' as int + d) as char
  }

  predicate AllDigits(s: string) {
    forall i :: 0 <= i < |s| ==> '0' <= s[i] <= '9'
  }

  /** Ruby's `Integer#to_s` for a non-negative id: its decimal digits. */
  function Decimal(n: nat): (s: string)
    ensures |s| >= 1 && AllDigits(s)
    ensures n > 0 ==> s[0] != '0'
  {
    if n < 10 then [DigitChar(n)] else Decimal(n / 10) + [DigitChar(n % 10)]
  }

  /** The number a string of decimal digits denotes. */
  function DecimalValue(s: string): nat
    requires AllDigits(s)
  {
    if s == [] then 0 else DecimalValue(s[..|s| - 1]) * 10 + (s[|s| - 1] as int - '0' as int)
  }

  lemma {:induction false} DecimalRoundTrip(n: nat)
    ensures DecimalValue(Decimal(n)) == n
  {
    if n >= 10 {
      var s := Decimal(n);
      assert s[..|s| - 1] == Decimal(n / 10);
      DecimalRoundTrip(n / 10);
    }
  }

  /** `pdf_name`: "appeal-<appeal external id>-doc-<document id>.pdf". */
  function PdfName(appealExternalId: string, documentId: nat): (r: string)
    ensures |r| == 16 + |appealExternalId| + |Decimal(documentId)|
    ensures r[..7] == "appeal-"
    ensures r[7..7 + |appealExternalId|] == appealExternalId
    ensures r[7 + |appealExternalId|..12 + |appealExternalId|] == "-doc-"
    ensures r[12 + |appealExternalId|..|r| - 4] == Decimal(documentId)
    ensures r[|r| - 4..] == ".pdf"
  {
    "appeal-" + appealExternalId + "-doc-" + Decimal(documentId) + ".pdf"
  }

  /** `s3_location`: the PDF name under the "idt-uploaded-documents" sub-bucket. */
  function S3Location(appealExternalId: string, documentId: nat): (r: string)
    ensures |r| == |S3_SUB_BUCKET| + 1 + |PdfName(appealExternalId, documentId)|
    ensures r[..|S3_SUB_BUCKET| + 1] == S3_SUB_BUCKET + "/"
    ensures r[|S3_SUB_BUCKET| + 1..] == PdfName(appealExternalId, documentId)
  {
    S3_SUB_BUCKET + "/" + PdfName(appealExternalId, documentId)
  }

  /** Equal strings with the same prefix and suffix have the same middle. */
  lemma SameMiddle(prefix: string, a: string, b: string, suffix: string)
    requires prefix + a + suffix == prefix + b + suffix
    ensures a == b
  {
    var whole := prefix + a + suffix;
    assert |a| == |b|;
    assert whole[|prefix|..|prefix| + |a|] == a;
    assert (prefix + b + suffix)[|prefix|..|prefix| + |b|] == b;
  }

  /** Within one appeal, the S3 location names the document: two documents
      with different ids never share a location. */
  lemma S3LocationDeterminesDocument(appealExternalId: string, i: nat, j: nat)
    requires S3Location(appealExternalId, i) == S3Location(appealExternalId, j)
    ensures i == j
  {
    var prefix := S3_SUB_BUCKET + "/" + "appeal-" + appealExternalId + "-doc-";
    assert S3Location(appealExternalId, i) == prefix + Decimal(i) + ".pdf";
    assert S3Location(appealExternalId, j) == prefix + Decimal(j) + ".pdf";
    SameMiddle(prefix, Decimal(i), Decimal(j), ".pdf");
    DecimalRoundTrip(i);
    DecimalRoundTrip(j);
  }

  // ---------------------------------------------------------------------
  // Properties of the workflow.

  /** The workflow's submit is the scheduler's `submit_for_processing!` with
      no delay, plus an `attempted_at` stamp at the same instant. */
  lemma SubmitIsSchedulerSubmitPlusAttempt(d: DocumentState, cfg: Asyncable.Config, now: int)
    ensures AfterSubmit(d, now).row ==
      Asyncable.AfterSubmitForProcessing(d.row, Asyncable.Seconds(0), cfg, now).(attemptedAt := Some(now))
  {
  }

  /** A successful call is final: calling again returns at once and changes
      nothing, and the document is neither due nor expired at any later time. */
  lemma CompletedCallIsFinal(d: DocumentState, now: int, vbms: VbmsResponse, later: int, again: VbmsResponse)
    requires CallSpec(d, now, vbms).1.Completed?
    ensures var done := CallSpec(d, now, vbms).0;
      CallSpec(done, later, again) == (done, AlreadyProcessed)
      && !Asyncable.RequiresProcessingWhere(done.row, Asyncable.DEFAULT_CONFIG, later)
      && !Asyncable.ExpiredWithoutProcessingWhere(done.row, Asyncable.DEFAULT_CONFIG, later)
  {
  }

  /** After a failed call the scheduler picks the document up again strictly
      after one retry interval (3 hours) and until its submission expires
      (4 days), provided it is not canceled. */
  lemma FailedCallRetryWindow(d: DocumentState, now: int, vbms: VbmsResponse, later: int)
    requires CallSpec(d, now, vbms).1.Raised?
    requires d.row.canceledAt.None?
    ensures Asyncable.RequiresProcessingWhere(CallSpec(d, now, vbms).0.row, Asyncable.DEFAULT_CONFIG, later) <==>
      now + 3 * Asyncable.SECONDS_PER_HOUR < later && later < now + 4 * Asyncable.SECONDS_PER_DAY
  {
  }

  /** A failed call followed by a successful one completes the upload and
      leaves the first failure's message in `error`. */
  lemma StaleErrorAfterRecovery(d: DocumentState, first: int, message: string, second: int)
    requires d.row.processedAt.None? && d.uploadedToVbmsAt.None?
    ensures var (failed, o1) := CallSpec(d, first, Failed(message));
      var (done, o2) := CallSpec(failed, second, Accepted);
      o1 == Raised(message) && o2 == Completed(true)
      && done.row.processedAt == Some(second) && done.row.error == Some(message)
  {
  }

  /** Where a run of `call` ends: it runs to the end, or the process dies
      (no rescue runs) after the submit step, after VBMS has returned but
      before `uploaded_to_vbms_at` is stamped, or after the upload step. A
      call to VBMS that raises goes to the rescue clause wherever the run
      would have died. */
  datatype Stop = RunsToEnd | DiesAfterSubmit | DiesAfterVbmsCall | DiesAfterUpload

  datatype Run = Run(now: int, vbms: VbmsResponse, stop: Stop)

  /** A run after which VBMS may hold the document while the marker is
      still unset: it died between the VBMS call and the stamp, or VBMS
      stored the document and raised. */
  predicate Unsafe(run: Run) {
    run.stop == DiesAfterVbmsCall || run.vbms.AcceptedThenFailed?
  }

  /** The document after one run, and whether VBMS stored the document in
      that run. */
  function AfterRun(d: DocumentState, run: Run): (r: (DocumentState, bool))
    ensures r.1 <==> (d.row.processedAt.None? && d.uploadedToVbmsAt.None? && Stores(run.vbms) && run.stop != DiesAfterSubmit)
    ensures d.uploadedToVbmsAt.Some? ==> r.0.uploadedToVbmsAt.Some?
    ensures r.1 && !Unsafe(run) ==> r.0.uploadedToVbmsAt.Some?
    ensures r.1 && run.stop == DiesAfterVbmsCall && run.vbms.Accepted? ==>
      r.0.uploadedToVbmsAt.None? && r.0.row.processedAt.None?
  {
    if d.row.processedAt.Some? then (d, false)
    else
      var submitted := AfterSubmit(d, run.now);
      var (uploaded, result) := UploadStep(submitted, run.now, run.vbms);
      var stored := d.uploadedToVbmsAt.None? && Stores(run.vbms);
      if run.stop == DiesAfterSubmit then (submitted, false)
      else if result.UploadFailed? || run.stop == RunsToEnd then (CallSpec(d, run.now, run.vbms).0, stored)
      else if run.stop == DiesAfterVbmsCall then (submitted, stored)
      else (uploaded, stored)
  }

  /** The number of runs in `runs`, started from `d`, in which VBMS stored
      the document. */
  function Uploads(d: DocumentState, runs: seq<Run>): nat
    decreases runs
  {
    if runs == [] then 0
    else
      var (next, uploaded) := AfterRun(d, runs[0]);
      (if uploaded then 1 else 0) + Uploads(next, runs[1..])
  }

  function CountUnsafe(runs: seq<Run>): nat
    decreases runs
  {
    if runs == [] then 0 else (if Unsafe(runs[0]) then 1 else 0) + CountUnsafe(runs[1..])
  }

  /** A run that died after the marker was stamped is finished by the next
      call without uploading again, whatever VBMS would answer. */
  lemma NoSecondUploadAfterCrash(d: DocumentState, crashed: Run, now: int, vbms: VbmsResponse)
    requires crashed.stop == DiesAfterUpload && AfterRun(d, crashed).1 && crashed.vbms.Accepted?
    ensures var (state, _) := AfterRun(d, crashed);
      var (done, outcome) := CallSpec(state, now, vbms);
      outcome == Completed(false) && done.uploadedToVbmsAt == state.uploadedToVbmsAt
      && done.row.processedAt == Some(now)
  {
  }

  /** Delivery is at least once, not exactly once: a run that dies after
      VBMS returned and before the marker is stamped leaves the document
      unprocessed and unmarked, so the next call uploads it again. */
  lemma SecondUploadAfterDeathBeforeStamp(d: DocumentState, first: int, second: int)
    requires d.row.processedAt.None? && d.uploadedToVbmsAt.None?
    ensures var runs := [Run(first, Accepted, DiesAfterVbmsCall), Run(second, Accepted, RunsToEnd)];
      var (crashed, _) := AfterRun(d, runs[0]);
      CallSpec(crashed, second, Accepted).1 == Completed(true) && Uploads(d, runs) == 2
  {
    var runs := [Run(first, Accepted, DiesAfterVbmsCall), Run(second, Accepted, RunsToEnd)];
    var (crashed, _) := AfterRun(d, runs[0]);
    assert runs[1..] == [runs[1]] && runs[1..][1..] == [];
    var (done, uploaded) := AfterRun(crashed, runs[1]);
    assert uploaded;
    assert Uploads(crashed, runs[1..]) == 1 + Uploads(done, []);
  }

  /** The same happens when VBMS stores the document and raises: the rescue
      records the error, the marker stays unset, and the retry uploads the
      document again. */
  lemma SecondUploadAfterLateFailure(d: DocumentState, first: int, message: string, second: int)
    requires d.row.processedAt.None? && d.uploadedToVbmsAt.None?
    ensures var runs := [Run(first, AcceptedThenFailed(message), RunsToEnd), Run(second, Accepted, RunsToEnd)];
      var (failed, outcome) := CallSpec(d, first, AcceptedThenFailed(message));
      outcome == Raised(message) && CallSpec(failed, second, Accepted).1 == Completed(true)
      && Uploads(d, runs) == 2
  {
    var runs := [Run(first, AcceptedThenFailed(message), RunsToEnd), Run(second, Accepted, RunsToEnd)];
    var (failed, _) := AfterRun(d, runs[0]);
    assert runs[1..] == [runs[1]] && runs[1..][1..] == [];
    var (done, uploaded) := AfterRun(failed, runs[1]);
    assert uploaded;
    assert Uploads(failed, runs[1..]) == 1 + Uploads(done, []);
  }

  /** However runs are retried and wherever they die, VBMS stores the
      document at most once more than the number of unsafe runs, and never
      beyond those when it was marked uploaded before. */
  lemma {:induction false} UploadsBoundedByUnsafeRuns(d: DocumentState, runs: seq<Run>)
    ensures Uploads(d, runs) <= (if d.uploadedToVbmsAt.None? then 1 else 0) + CountUnsafe(runs)
    decreases runs
  {
    if runs != [] {
      var (next, uploaded) := AfterRun(d, runs[0]);
      UploadsBoundedByUnsafeRuns(next, runs[1..]);
    }
  }

  /** When no run dies between the VBMS call and the stamp, and VBMS never
      raises after storing the document, the document is stored at most
      once, and never when it was marked uploaded before. */
  lemma {:induction false} AtMostOneUpload(d: DocumentState, runs: seq<Run>)
    requires forall i :: 0 <= i < |runs| ==> !Unsafe(runs[i])
    ensures Uploads(d, runs) <= if d.uploadedToVbmsAt.None? then 1 else 0
    decreases runs
  {
    if runs != [] {
      var (next, uploaded) := AfterRun(d, runs[0]);
      assert forall i :: 0 <= i < |runs[1..]| ==> !Unsafe(runs[1..][i]) by {
        forall i | 0 <= i < |runs[1..]| ensures !Unsafe(runs[1..][i]) {
          assert runs[1..][i] == runs[i + 1];
        }
      }
      AtMostOneUpload(next, runs[1..]);
    }
  }
}
