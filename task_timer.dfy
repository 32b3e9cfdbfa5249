/** TaskTimer: an Asyncable row that wakes its owning task after a delay.
    Its polling query is the scheduler's, narrowed to timers whose task is
    still active. */
module TaskTimer {
  import opened Wrappers
  import opened Query
  import Asyncable

  /** A timer row joined with the status of the task it belongs to. */
  datatype TimerRow = TimerRow(timer: Asyncable.WorkItem, taskStatus: string)

  /** TaskTimer overrides neither the column names nor the two durations. */
  const CONFIG := Asyncable.DEFAULT_CONFIG

  /** The timer's column of `order_by_oldest_submitted`. */
  function TimerLastSubmittedAt(row: TimerRow): Option<int> {
    row.timer.lastSubmittedAt
  }

  function Timers(rows: seq<TimerRow>): (r: seq<Asyncable.WorkItem>)
    ensures |r| == |rows|
    ensures forall i :: 0 <= i < |rows| ==> r[i] == rows[i].timer
  {
    seq(|rows|, i requires 0 <= i < |rows| => rows[i].timer)
  }

  /** `with_active_tasks`: the timers whose task status is not one of
      `Task.inactive_statuses`, here the parameter `inactiveStatuses`. */
  function WithActiveTasks(rows: seq<TimerRow>, inactiveStatuses: set<string>): (r: seq<TimerRow>)
    ensures forall row :: row in r <==> row in rows && row.taskStatus !in inactiveStatuses
    ensures forall row :: multiset(r)[row] == (if row.taskStatus !in inactiveStatuses then multiset(rows)[row] else 0)
  {
    Filter(rows, (row: TimerRow) => row.taskStatus !in inactiveStatuses)
  }

  /** The condition of `TaskTimer.requires_processing`:
      `with_active_tasks.processable.attemptable.unexpired`. */
  predicate RequiresProcessingWhere(row: TimerRow, inactiveStatuses: set<string>, now: int) {
    row.taskStatus !in inactiveStatuses && Asyncable.RequiresProcessingWhere(row.timer, CONFIG, now)
  }

  /** `TaskTimer.requires_processing`: the due timers of active tasks, oldest
      `last_submitted_at` first. */
  function RequiresProcessing(rows: seq<TimerRow>, inactiveStatuses: set<string>, now: int): (r: seq<TimerRow>)
    ensures forall row :: row in r <==>
      row in rows && row.taskStatus !in inactiveStatuses
      && Asyncable.Processable(row.timer, now) && Asyncable.Attemptable(row.timer, CONFIG, now)
      && Asyncable.Unexpired(row.timer, CONFIG, now)
    ensures forall row :: multiset(r)[row] == (if RequiresProcessingWhere(row, inactiveStatuses, now) then multiset(rows)[row] else 0)
    ensures forall i :: 0 <= i < |r| ==> r[i].timer.lastSubmittedAt.Some?
    ensures forall i, j :: 0 <= i < j < |r| ==>
      r[i].timer.lastSubmittedAt.value <= r[j].timer.lastSubmittedAt.value
  {
    var active := WithActiveTasks(rows, inactiveStatuses);
    var due := (row: TimerRow) => Asyncable.RequiresProcessingWhere(row.timer, CONFIG, now);
    OrderedSelectionAscends(active, due, TimerLastSubmittedAt);
    OrderBy(Filter(active, due), TimerLastSubmittedAt)
  }

  /** A timer whose task is inactive, canceled or already processed is
      never returned. */
  lemma NeverReturnsInactiveCanceledOrProcessed(rows: seq<TimerRow>, inactiveStatuses: set<string>, now: int, row: TimerRow)
    requires row.taskStatus in inactiveStatuses || row.timer.IsCanceled() || row.timer.IsProcessed()
    ensures row !in RequiresProcessing(rows, inactiveStatuses, now)
  {
  }

  /** The timers returned are among those the scheduler's generic
      `requires_processing` returns over the same rows. */
  lemma {:induction false} WithinGenericRequiresProcessing(rows: seq<TimerRow>, inactiveStatuses: set<string>, now: int)
    ensures forall row :: row in RequiresProcessing(rows, inactiveStatuses, now) ==>
      row.timer in Asyncable.RequiresProcessing(Timers(rows), Asyncable.DEFAULT_CONFIG, now)
  {
    var ts := Timers(rows);
    forall row | row in RequiresProcessing(rows, inactiveStatuses, now)
      ensures row.timer in Asyncable.RequiresProcessing(ts, Asyncable.DEFAULT_CONFIG, now)
    {
      var i :| 0 <= i < |rows| && rows[i] == row;
      assert ts[i] == row.timer;
    }
  }
}
