/** The retry scheduler that Asyncable mixes into a persistent model: a work
    item's six scheduling fields, the selection scopes a poller runs over the
    table, the instance predicates, and the transitions that stamp the fields.

    Times are whole seconds; `now` (the database clock `Time.zone.now`) is a
    parameter. A NULL column is `None`. */
module Asyncable {
  import opened Wrappers
  import opened Query

  const SECONDS_PER_MINUTE := 60
  const SECONDS_PER_HOUR := 3600
  const SECONDS_PER_DAY := 86400

  const REQUIRES_PROCESSING_WINDOW_DAYS := 4
  const DEFAULT_REQUIRES_PROCESSING_RETRY_WINDOW_HOURS := 3

  /** The two durations a consuming model may override: the back-off between
      attempts, and the window after which an unprocessed item has expired. */
  datatype Config = Config(processingRetryIntervalHours: nat, requiresProcessingWindowDays: nat)

  const DEFAULT_CONFIG := Config(DEFAULT_REQUIRES_PROCESSING_RETRY_WINDOW_HOURS, REQUIRES_PROCESSING_WINDOW_DAYS)

  function RetryInterval(cfg: Config): int {
    cfg.processingRetryIntervalHours * SECONDS_PER_HOUR
  }

  /** `processing_retry_interval_hours.hours.ago` */
  function RetryCutoff(cfg: Config, now: int): int {
    now - RetryInterval(cfg)
  }

  /** `requires_processing_until`, that is `REQUIRES_PROCESSING_WINDOW_DAYS.days.ago` */
  function RequiresProcessingUntil(cfg: Config, now: int): int {
    now - cfg.requiresProcessingWindowDays * SECONDS_PER_DAY
  }

  /** One row of a model that includes Asyncable, reduced to its primary key
      and the columns the scheduler reads and writes. */
  datatype WorkItem = WorkItem(
    id: int,
    lastSubmittedAt: Option<int>,
    submittedAt: Option<int>,
    attemptedAt: Option<int>,
    processedAt: Option<int>,
    canceledAt: Option<int>,
    error: Option<string>)
  {
    /** `processed?` */
    predicate IsProcessed() { processedAt.Some? }

    /** `attempted?` */
    predicate IsAttempted() { attemptedAt.Some? }

    /** `submitted?` */
    predicate IsSubmitted() { submittedAt.Some? }

    /** `canceled?` */
    predicate IsCanceled() { canceledAt.Some? }

    /** `submitted_and_ready?` */
    predicate IsSubmittedAndReady(now: int)
      ensures IsSubmittedAndReady(now) ==> IsSubmitted()
    {
      submittedAt.Some? && submittedAt.value <= now
    }

    /** `submitted_not_processed?` */
    predicate IsSubmittedNotProcessed() {
      IsSubmitted() && !IsProcessed()
    }

    /** `expired_without_processing?`: false when processed, false when never
        submitted, otherwise strictly before the expiry cutoff. */
    predicate IsExpiredWithoutProcessing(cfg: Config, now: int)
      ensures IsExpiredWithoutProcessing(cfg, now) ==> !IsProcessed() && lastSubmittedAt.Some?
    {
      if IsProcessed() then false
      else if lastSubmittedAt.None? then false
      else lastSubmittedAt.value < RequiresProcessingUntil(cfg, now)
    }

    /** `sort_by_last_submitted_at`: the in-memory sort key, with a row that
        was never submitted treated as submitted now. */
    function SortByLastSubmittedAt(now: int): int {
      if lastSubmittedAt.Some? then lastSubmittedAt.value else now
    }
  }

  // ---------------------------------------------------------------------
  // Scopes. Each is the WHERE condition of one class-level scope; the
  // composition `a.b` of scopes is their conjunction and `a.or(b)` their
  // disjunction.

  /** `unexpired`: a row never submitted is never unexpired. */
  predicate Unexpired(w: WorkItem, cfg: Config, now: int)
    ensures Unexpired(w, cfg, now) ==> w.lastSubmittedAt.Some?
  {
    SqlGt(w.lastSubmittedAt, RequiresProcessingUntil(cfg, now))
  }

  predicate Canceled(w: WorkItem) {
    w.canceledAt.Some?
  }

  /** `processable`: only submitted, unprocessed rows. */
  predicate Processable(w: WorkItem, now: int)
    ensures Processable(w, now) ==> !w.IsProcessed() && w.lastSubmittedAt.Some?
  {
    SqlLteq(w.lastSubmittedAt, now) && w.processedAt.None?
  }

  /** `never_attempted`: rows not attempted and submitted at least one
      retry interval ago. */
  predicate NeverAttempted(w: WorkItem, cfg: Config, now: int)
    ensures NeverAttempted(w, cfg, now) ==> !w.IsAttempted() && w.lastSubmittedAt.Some?
  {
    w.attemptedAt.None? && SqlLteq(w.lastSubmittedAt, RetryCutoff(cfg, now))
  }

  /** `previously_attempted_ready_for_retry`: rows attempted more than one
      retry interval ago. */
  predicate PreviouslyAttemptedReadyForRetry(w: WorkItem, cfg: Config, now: int)
    ensures PreviouslyAttemptedReadyForRetry(w, cfg, now) ==> w.IsAttempted()
  {
    SqlLt(w.attemptedAt, RetryCutoff(cfg, now))
  }

  /** `attemptable`: ready for retry or never attempted, and not canceled.
      An attempted row can only be attemptable through the retry branch. */
  predicate Attemptable(w: WorkItem, cfg: Config, now: int)
    ensures Attemptable(w, cfg, now) ==> !w.IsCanceled()
    ensures w.IsAttempted() ==> (Attemptable(w, cfg, now) <==> PreviouslyAttemptedReadyForRetry(w, cfg, now) && !w.IsCanceled())
  {
    (PreviouslyAttemptedReadyForRetry(w, cfg, now) || NeverAttempted(w, cfg, now)) && w.canceledAt.None?
  }

  /** The condition of `requires_processing`: `processable.attemptable.unexpired`. */
  predicate RequiresProcessingWhere(w: WorkItem, cfg: Config, now: int) {
    Processable(w, now) && Attemptable(w, cfg, now) && Unexpired(w, cfg, now)
  }

  /** The condition of `expired_without_processing`. */
  predicate ExpiredWithoutProcessingWhere(w: WorkItem, cfg: Config, now: int) {
    w.processedAt.None? && SqlLteq(w.lastSubmittedAt, RequiresProcessingUntil(cfg, now))
  }

  /** `attempted_without_being_submitted`: rows the poller can never pick
      up, since they are neither processable nor unexpired. */
  predicate AttemptedWithoutBeingSubmitted(w: WorkItem, now: int)
    ensures AttemptedWithoutBeingSubmitted(w, now) ==> w.IsAttempted() && !Processable(w, now)
    ensures forall cfg :: AttemptedWithoutBeingSubmitted(w, now) ==> !Unexpired(w, cfg, now)
  {
    SqlLteq(w.attemptedAt, now) && w.lastSubmittedAt.None?
  }

  /** `with_error` */
  predicate WithError(w: WorkItem) {
    w.error.Some?
  }

  /** The condition of `potentially_stuck`:
      `processable.where(canceled_at: nil).or(attempted_without_being_submitted).or(with_error)`. */
  predicate PotentiallyStuckWhere(w: WorkItem, now: int) {
    (Processable(w, now) && w.canceledAt.None?) || AttemptedWithoutBeingSubmitted(w, now) || WithError(w)
  }

  /** The column of `order_by_oldest_submitted`. */
  function LastSubmittedAt(w: WorkItem): Option<int> {
    w.lastSubmittedAt
  }

  // ---------------------------------------------------------------------
  // The queries a poller runs over the whole table `items`.

  /** `requires_processing`: the items due for an attempt, oldest
      `last_submitted_at` first. */
  function RequiresProcessing(items: seq<WorkItem>, cfg: Config, now: int): (r: seq<WorkItem>)
    ensures forall w :: w in r <==>
      w in items && Processable(w, now) && Attemptable(w, cfg, now) && Unexpired(w, cfg, now)
    ensures forall w :: multiset(r)[w] == if RequiresProcessingWhere(w, cfg, now) then multiset(items)[w] else 0
    ensures forall i :: 0 <= i < |r| ==> r[i].lastSubmittedAt.Some?
    ensures forall i, j :: 0 <= i < j < |r| ==> r[i].lastSubmittedAt.value <= r[j].lastSubmittedAt.value
  {
    var due := w => RequiresProcessingWhere(w, cfg, now);
    OrderedSelectionAscends(items, due, LastSubmittedAt);
    OrderBy(Filter(items, due), LastSubmittedAt)
  }

  /** `expired_without_processing`: the unprocessed items whose last
      submission is at or before the expiry cutoff (unordered). */
  function ExpiredWithoutProcessing(items: seq<WorkItem>, cfg: Config, now: int): (r: seq<WorkItem>)
    ensures forall w :: w in r <==>
      w in items && w.processedAt.None? && w.lastSubmittedAt.Some?
      && w.lastSubmittedAt.value <= RequiresProcessingUntil(cfg, now)
    ensures forall w :: multiset(r)[w] == if ExpiredWithoutProcessingWhere(w, cfg, now) then multiset(items)[w] else 0
  {
    Filter(items, w => ExpiredWithoutProcessingWhere(w, cfg, now))
  }

  /** `potentially_stuck`: the diagnostic superset for operators, oldest
      `last_submitted_at` first and never-submitted rows last. */
  function PotentiallyStuck(items: seq<WorkItem>, now: int): (r: seq<WorkItem>)
    ensures forall w :: w in r <==>
      w in items && ((Processable(w, now) && w.canceledAt.None?) || AttemptedWithoutBeingSubmitted(w, now) || w.error.Some?)
    ensures forall w :: multiset(r)[w] == if PotentiallyStuckWhere(w, now) then multiset(items)[w] else 0
    ensures SortedBy(r, LastSubmittedAt)
  {
    OrderBy(Filter(items, w => PotentiallyStuckWhere(w, now)), LastSubmittedAt)
  }

  // ---------------------------------------------------------------------
  // Transitions, as functions from the row before to the row after.

  /** The `delay:` argument of `submit_for_processing!`: a number of seconds
      (an integer or a duration; 0 is the default) or a point in time. */
  datatype Delay = Seconds(amount: int) | At(time: int)

  /** `when_to_start`: a point in time gains one minute; any delay other than
      0 is pulled back by one retry interval, so that the back-off in
      `never_attempted` does not add to the delay the caller asked for. */
  function WhenToStart(delay: Delay, cfg: Config, now: int): (r: int)
    ensures delay == Seconds(0) ==> r == now
    ensures delay != Seconds(0) ==> r + RetryInterval(cfg) == RequestedStart(delay, cfg, now)
  {
    var start := match delay
      case Seconds(d) => now + d
      case At(t) => t + SECONDS_PER_MINUTE;
    if delay != Seconds(0) then start - RetryInterval(cfg) else start
  }

  /** The moment the caller of `submit_for_processing!` asks the item to
      become due: `now + delay`, one minute after a requested point in time,
      and one retry interval from now when there is no delay. */
  function RequestedStart(delay: Delay, cfg: Config, now: int): int {
    match delay
    case Seconds(d) => if d == 0 then now + RetryInterval(cfg) else now + d
    case At(t) => t + SECONDS_PER_MINUTE
  }

  /** `submit_for_processing!` on the row: submitted at the computed start,
      not processed; attempts, cancellation and error are kept. */
  function AfterSubmitForProcessing(w: WorkItem, delay: Delay, cfg: Config, now: int): (r: WorkItem)
    ensures r.lastSubmittedAt == r.submittedAt == Some(WhenToStart(delay, cfg, now)) && !r.IsProcessed()
    ensures r.(lastSubmittedAt := w.lastSubmittedAt, submittedAt := w.submittedAt, processedAt := w.processedAt) == w
  {
    var start := WhenToStart(delay, cfg, now);
    w.(lastSubmittedAt := Some(start), submittedAt := Some(start), processedAt := None)
  }

  /** `processed!` on the row: processed afterwards, with the first
      timestamp kept; nothing else changes. */
  function AfterProcessed(w: WorkItem, now: int): (r: WorkItem)
    ensures r.IsProcessed()
    ensures w.IsProcessed() ==> r == w
    ensures r.(processedAt := w.processedAt) == w
  {
    if w.IsProcessed() then w else w.(processedAt := Some(now))
  }

  /** `attempted!` on the row. */
  function AfterAttempted(w: WorkItem, now: int): (r: WorkItem)
    ensures r.IsAttempted() && r.attemptedAt == Some(now)
    ensures r.(attemptedAt := w.attemptedAt) == w
  {
    w.(attemptedAt := Some(now))
  }

  /** `canceled!` on the row: never attemptable again until restarted. */
  function AfterCanceled(w: WorkItem, now: int): (r: WorkItem)
    ensures r.IsCanceled() && r.canceledAt == Some(now)
    ensures forall cfg, later :: !Attemptable(r, cfg, later)
    ensures r.(canceledAt := w.canceledAt) == w
  {
    w.(canceledAt := Some(now))
  }

  /** `no_processing_required!` on the row. */
  function AfterNoProcessingRequired(w: WorkItem, now: int): (r: WorkItem)
    ensures r.lastSubmittedAt == r.submittedAt == r.attemptedAt == r.processedAt == Some(now)
    ensures r.canceledAt == w.canceledAt && r.error == w.error && r.id == w.id
  {
    w.(lastSubmittedAt := Some(now), submittedAt := Some(now), attemptedAt := Some(now), processedAt := Some(now))
  }

  /** `update_error!` and, with `None`, `clear_error!` on the row. */
  function AfterUpdateError(w: WorkItem, err: Option<string>): (r: WorkItem)
    ensures r.error == err && (err.Some? <==> WithError(r))
    ensures r.(error := w.error) == w
  {
    w.(error := err)
  }

  /** `restart!` on the row. */
  function AfterRestart(w: WorkItem, now: int): (r: WorkItem)
    ensures r.lastSubmittedAt == Some(now) && r.submittedAt == w.submittedAt && r.id == w.id
    ensures r.processedAt.None? && r.attemptedAt.None? && r.canceledAt.None? && r.error.None?
  {
    w.(lastSubmittedAt := Some(now), processedAt := None, attemptedAt := None, canceledAt := None, error := None)
  }

  /** A persisted record that includes Asyncable. Each `!` method is one
      `update!` of the record's columns. */
  class AsyncableRecord {
    const id: int
    var lastSubmittedAt: Option<int>
    var submittedAt: Option<int>
    var attemptedAt: Option<int>
    var processedAt: Option<int>
    var canceledAt: Option<int>
    var error: Option<string>

    function Row(): WorkItem
      reads this
    {
      WorkItem(id, lastSubmittedAt, submittedAt, attemptedAt, processedAt, canceledAt, error)
    }

    /** A new record: nothing submitted, attempted, processed or canceled. */
    constructor (id: int)
      ensures Row() == WorkItem(id, None, None, None, None, None, None)
    {
      this.id := id;
      lastSubmittedAt, submittedAt, attemptedAt, processedAt, canceledAt := None, None, None, None, None;
      error := None;
    }

    /** `submit_for_processing!(delay:)` */
    method SubmitForProcessing(delay: Delay, cfg: Config, now: int)
      modifies this
      ensures lastSubmittedAt == submittedAt == Some(WhenToStart(delay, cfg, now))
      ensures processedAt == None
      ensures attemptedAt == old(attemptedAt) && canceledAt == old(canceledAt) && error == old(error)
      ensures Row() == AfterSubmitForProcessing(old(Row()), delay, cfg, now)
    {
      var whenToStart := match delay
        case Seconds(d) => now + d
        case At(t) => t + SECONDS_PER_MINUTE;
      if delay != Seconds(0) {
        whenToStart := whenToStart - RetryInterval(cfg);
      }
      lastSubmittedAt, submittedAt, processedAt := Some(whenToStart), Some(whenToStart), None;
    }

    /** `processed!`: stamps `processed_at` unless it is already set. */
    method Processed(now: int)
      modifies this
      ensures processedAt == if old(processedAt).Some? then old(processedAt) else Some(now)
      ensures lastSubmittedAt == old(lastSubmittedAt) && submittedAt == old(submittedAt)
      ensures attemptedAt == old(attemptedAt) && canceledAt == old(canceledAt) && error == old(error)
      ensures Row() == AfterProcessed(old(Row()), now)
    {
      if !Row().IsProcessed() {
        processedAt := Some(now);
      }
    }

    /** `attempted!` */
    method Attempted(now: int)
      modifies this
      ensures attemptedAt == Some(now)
      ensures lastSubmittedAt == old(lastSubmittedAt) && submittedAt == old(submittedAt)
      ensures processedAt == old(processedAt) && canceledAt == old(canceledAt) && error == old(error)
      ensures Row() == AfterAttempted(old(Row()), now)
    {
      attemptedAt := Some(now);
    }

    /** `canceled!` */
    method Canceled(now: int)
      modifies this
      ensures canceledAt == Some(now)
      ensures lastSubmittedAt == old(lastSubmittedAt) && submittedAt == old(submittedAt)
      ensures attemptedAt == old(attemptedAt) && processedAt == old(processedAt) && error == old(error)
      ensures Row() == AfterCanceled(old(Row()), now)
    {
      canceledAt := Some(now);
    }

    /** `no_processing_required!`: submitted, attempted and processed at one instant. */
    method NoProcessingRequired(now: int)
      modifies this
      ensures lastSubmittedAt == submittedAt == attemptedAt == processedAt == Some(now)
      ensures canceledAt == old(canceledAt) && error == old(error)
      ensures Row() == AfterNoProcessingRequired(old(Row()), now)
    {
      lastSubmittedAt, submittedAt, attemptedAt, processedAt := Some(now), Some(now), Some(now), Some(now);
    }

    /** `clear_error!` */
    method ClearError()
      modifies this
      ensures error == None
      ensures lastSubmittedAt == old(lastSubmittedAt) && submittedAt == old(submittedAt)
      ensures attemptedAt == old(attemptedAt) && processedAt == old(processedAt) && canceledAt == old(canceledAt)
      ensures Row() == AfterUpdateError(old(Row()), None)
    {
      error := None;
    }

    /** `update_error!(err)` */
    method UpdateError(err: string)
      modifies this
      ensures error == Some(err)
      ensures lastSubmittedAt == old(lastSubmittedAt) && submittedAt == old(submittedAt)
      ensures attemptedAt == old(attemptedAt) && processedAt == old(processedAt) && canceledAt == old(canceledAt)
      ensures Row() == AfterUpdateError(old(Row()), Some(err))
    {
      error := Some(err);
    }

    /** `restart!`: resubmits now and clears every outcome; `submitted_at` is kept. */
    method Restart(now: int)
      modifies this
      ensures lastSubmittedAt == Some(now)
      ensures processedAt == None && attemptedAt == None && canceledAt == None && error == None
      ensures submittedAt == old(submittedAt)
      ensures Row() == AfterRestart(old(Row()), now)
    {
      lastSubmittedAt, processedAt, attemptedAt, canceledAt, error := Some(now), None, None, None, None;
    }
  }

  // ---------------------------------------------------------------------
  // Properties of the scopes and transitions.

  /** A processed item is never processable, a canceled one never
      attemptable, and neither is ever due for processing. */
  lemma ProcessedOrCanceledNeverSelected(items: seq<WorkItem>, w: WorkItem, cfg: Config, now: int)
    requires w.IsProcessed() || w.IsCanceled()
    ensures w.IsProcessed() ==> !Processable(w, now)
    ensures w.IsCanceled() ==> !Attemptable(w, cfg, now)
    ensures w !in RequiresProcessing(items, cfg, now)
  {
  }

  /** `never_attempted` has no cancellation filter of its own: a canceled
      item can satisfy it; only `attemptable` excludes it. */
  lemma CanceledCanBeNeverAttempted()
    ensures var w := WorkItem(1, Some(0), Some(0), None, None, Some(0), None);
      var now := 3 * SECONDS_PER_HOUR;
      NeverAttempted(w, DEFAULT_CONFIG, now) && Canceled(w) && !Attemptable(w, DEFAULT_CONFIG, now)
  {
  }

  /** The retry back-off: an item never attempted becomes due exactly one
      retry interval after its last submission; an attempted one strictly
      more than one retry interval after its attempt. */
  lemma RetryThresholds(w: WorkItem, cfg: Config, now: int)
    requires w.lastSubmittedAt.Some? && w.canceledAt.None?
    ensures w.attemptedAt.None? ==>
      (Attemptable(w, cfg, now) <==> now >= w.lastSubmittedAt.value + RetryInterval(cfg))
    ensures w.attemptedAt.Some? ==>
      (Attemptable(w, cfg, now) <==> now > w.attemptedAt.value + RetryInterval(cfg))
  {
  }

  /** Of the unprocessed submitted items, each is either unexpired or
      expired without processing, never both. */
  lemma UnexpiredOrExpired(w: WorkItem, cfg: Config, now: int)
    requires w.processedAt.None? && w.lastSubmittedAt.Some?
    ensures Unexpired(w, cfg, now) <==> !ExpiredWithoutProcessingWhere(w, cfg, now)
  {
  }

  /** The polling query and the expiry report never share an item. */
  lemma {:induction false} RequiresProcessingDisjointFromExpired(items: seq<WorkItem>, cfg: Config, now: int)
    ensures forall w :: !(w in RequiresProcessing(items, cfg, now) && w in ExpiredWithoutProcessing(items, cfg, now))
  {
  }

  /** The instance predicate `expired_without_processing?` implies the scope;
      the two disagree exactly for an unprocessed item whose last submission
      is the expiry cutoff itself, which the scope includes (`<=`) and the
      predicate does not (`<`). */
  lemma ExpiredPredicateAgainstScope(w: WorkItem, cfg: Config, now: int)
    ensures w.IsExpiredWithoutProcessing(cfg, now) ==> ExpiredWithoutProcessingWhere(w, cfg, now)
    ensures (ExpiredWithoutProcessingWhere(w, cfg, now) && !w.IsExpiredWithoutProcessing(cfg, now)) <==>
      (w.processedAt.None? && w.lastSubmittedAt == Some(RequiresProcessingUntil(cfg, now)))
  {
  }

  /** After `submit_for_processing!` on an item never attempted, it first
      satisfies `never_attempted` exactly at the moment the caller asked for. */
  lemma SubmitBecomesDueAtRequestedStart(w: WorkItem, delay: Delay, cfg: Config, now: int, later: int)
    requires w.attemptedAt.None?
    ensures var s := AfterSubmitForProcessing(w, delay, cfg, now);
      NeverAttempted(s, cfg, later) <==> later >= RequestedStart(delay, cfg, now)
  {
  }

  /** A submitted item that was neither attempted nor canceled is due for
      processing from the requested start until its submission expires. */
  lemma SubmittedItemSelectionWindow(w: WorkItem, delay: Delay, cfg: Config, now: int, later: int)
    requires w.attemptedAt.None? && w.canceledAt.None?
    ensures var s := AfterSubmitForProcessing(w, delay, cfg, now);
      RequiresProcessingWhere(s, cfg, later) <==>
        RequestedStart(delay, cfg, now) <= later
        && later < WhenToStart(delay, cfg, now) + cfg.requiresProcessingWindowDays * SECONDS_PER_DAY
  {
  }

  /** `processed!` is idempotent: a second call keeps the first timestamp. */
  lemma ProcessedIdempotent(w: WorkItem, first: int, second: int)
    ensures AfterProcessed(AfterProcessed(w, first), second) == AfterProcessed(w, first)
    ensures AfterProcessed(w, first).IsProcessed()
  {
  }

  /** `restart!` clears every outcome, so none of the `?` predicates but
      `submitted?` holds afterwards, and `submitted?` is what it was. */
  lemma RestartClearsOutcome(w: WorkItem, now: int)
    ensures var r := AfterRestart(w, now);
      !r.IsProcessed() && !r.IsAttempted() && !r.IsCanceled() && r.error.None?
      && r.IsSubmitted() == w.IsSubmitted() && r.IsSubmittedNotProcessed() == w.IsSubmitted()
  {
  }

  /** A restarted item is not due at once: the back-off of `never_attempted`
      applies from the restart, and the expiry window too. */
  lemma RestartSelectionWindow(w: WorkItem, cfg: Config, now: int, later: int)
    ensures RequiresProcessingWhere(AfterRestart(w, now), cfg, later) <==>
      now + RetryInterval(cfg) <= later && later < now + cfg.requiresProcessingWindowDays * SECONDS_PER_DAY
  {
  }

  /** After `no_processing_required!` the item is done: processed, never
      again selected, never reported as expired. */
  lemma NoProcessingRequiredIsFinal(w: WorkItem, cfg: Config, now: int, later: int)
    ensures var r := AfterNoProcessingRequired(w, now);
      r.IsProcessed() && r.IsAttempted() && r.IsSubmittedAndReady(now)
      && !RequiresProcessingWhere(r, cfg, later) && !ExpiredWithoutProcessingWhere(r, cfg, later)
      && !r.IsExpiredWithoutProcessing(cfg, later)
  {
  }

  /** Every item due for processing is also reported by `potentially_stuck`. */
  lemma {:induction false} RequiresProcessingWithinPotentiallyStuck(items: seq<WorkItem>, cfg: Config, now: int)
    ensures forall w :: w in RequiresProcessing(items, cfg, now) ==> w in PotentiallyStuck(items, now)
  {
  }

  /** The in-memory sort key against the database's `ORDER BY` (ascending,
      NULLs last). A row never submitted sorts as if submitted now, so the
      two orders agree on submitted rows and disagree exactly when one row
      was never submitted and the other was submitted after now (or at now,
      when the unsubmitted row comes first): the key puts the unsubmitted
      row before it, the database after it. */
  lemma SortKeyAgreesWithOrder(a: WorkItem, b: WorkItem, now: int)
    ensures a.lastSubmittedAt.None? ==> a.SortByLastSubmittedAt(now) == now
    ensures a.lastSubmittedAt.Some? && b.lastSubmittedAt.Some? ==>
      (AscNullsLast(LastSubmittedAt(a), LastSubmittedAt(b)) <==> a.SortByLastSubmittedAt(now) <= b.SortByLastSubmittedAt(now))
    ensures (AscNullsLast(LastSubmittedAt(a), LastSubmittedAt(b)) != (a.SortByLastSubmittedAt(now) <= b.SortByLastSubmittedAt(now))) <==>
      (a.lastSubmittedAt.None? && b.lastSubmittedAt.Some? && now <= b.lastSubmittedAt.value)
      || (a.lastSubmittedAt.Some? && b.lastSubmittedAt.None? && a.lastSubmittedAt.value > now)
  {
  }

  /** A never-submitted row and a row submitted one second from now: the
      key sorts the unsubmitted row first, the database last. */
  lemma SortKeyDisagreesOnUnsubmittedRow(now: int)
    ensures var never := WorkItem(1, None, None, None, None, None, None);
      var soon := WorkItem(2, Some(now + 1), Some(now + 1), None, None, None, None);
      never.SortByLastSubmittedAt(now) < soon.SortByLastSubmittedAt(now)
      && !AscNullsLast(LastSubmittedAt(never), LastSubmittedAt(soon))
  {
  }
}
