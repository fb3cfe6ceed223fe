/** Task states and the transition table of nexus/core/constants.py, together with the
    row-level effect of `set_task_status` and `try_schedule_retry` (nexus/tasks/lifecycle.py). */
module Lifecycle {
  import opened Wrappers

  type TaskId = string
  type WorkerId = string

  /** The twelve registered states, and `FatalError`, which dispatch writes directly. */
  datatype Status =
    | Waiting
    | AwaitingApproval
    | Queued
    | Processing
    | Serving
    | Preempted
    | Disrupted
    | Cancelled
    | Retrying
    | Completed
    | Failed
    | LeaseExpired
    | FatalError

  predicate Registered(s: Status) {
    s != FatalError
  }

  predicate Terminal(s: Status) {
    s.Completed? || s.Failed? || s.Cancelled? || s.Disrupted?
  }

  /** The table of legal transitions. `FatalError` has no row in it. */
  predicate Allowed(from: Status, to: Status) {
    match from
    case Waiting => to.Queued? || to.AwaitingApproval? || to.Cancelled?
    case AwaitingApproval => to.Queued? || to.Cancelled?
    case Queued => to.Processing? || to.Cancelled? || to.Retrying?
    case Processing =>
      to.Completed? || to.Failed? || to.Preempted? || to.Disrupted? || to.LeaseExpired? || to.Cancelled?
      || to.Retrying? || to.Serving?
    case Serving => to.Completed? || to.Failed? || to.Preempted? || to.Disrupted? || to.Cancelled?
    case Preempted => to.Retrying? || to.Queued? || to.Failed?
    case LeaseExpired => to.Retrying? || to.Queued? || to.Failed?
    case Retrying => to.Queued? || to.Cancelled? || to.Failed?
    case Failed => to.Retrying? || to.Queued?
    case Completed => to.Queued?
    case Cancelled => false
    case Disrupted => to.Retrying? || to.Queued? || to.Failed?
    case FatalError => false
  }

  /** Whether `set_task_status` reports success. */
  predicate MayMove(from: Status, to: Status, force: bool) {
    Registered(to) && (force || Allowed(from, to))
  }

  /** One row of the task table; `intact` says whether the payload still matches its signature. */
  datatype Task = Task(
    status: Status,
    worker: Option<WorkerId>,
    checkpoint: Option<Bytes>,
    intact: bool,
    retryMax: nat,
    retryCount: nat,
    parent: string,
    deps: seq<TaskId>)

  /** The row after `set_task_status`: unchanged when the move is refused. */
  function SetStatus(row: Task, to: Status, force: bool): Task {
    if MayMove(row.status, to, force) then row.(status := to) else row
  }

  predicate CanRetry(row: Task) {
    row.retryCount < row.retryMax
  }

  /** The row after a successful `try_schedule_retry`, which forces the move. */
  function Retry(row: Task): Task {
    row.(status := Retrying, retryCount := row.retryCount + 1)
  }

  /** When the release pass finds dependencies met: `len(dep_records) == len(deps)` and all of them
      completed. The rows come back once each, so that a repeated dependency fails the first test. */
  predicate Met(deps: seq<TaskId>, done: set<TaskId>) {
    Distinct(deps) && forall d <- deps :: d in done
  }
}
