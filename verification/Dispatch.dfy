/** The master side of task dispatch: task rows, consent offers, strikes and the disrupted set,
    and what every handler does to them. A handler that answers with an error leaves the grid
    as it was. A handler that runs under several locks is split into one step per lock section. */
module Dispatch {
  import opened Wrappers
  import opened Lifecycle

  /** An offer is an object: `id` is its identity, kept when it is popped and put back. */
  datatype Offer = Offer(id: nat, worker: WorkerId)

  /** An accept request that has popped an offer and not yet taken its second lock. */
  datatype Accept = Accept(task: TaskId, offer: Offer, who: WorkerId)

  /** A committed assignment whose bundle is still being built from the captured payload. */
  datatype Bundle = Bundle(task: TaskId, worker: WorkerId, intact: bool)

  datatype Closing =
    | Superseded
    | Overwritten
    | Expired
    | Declined(who: WorkerId)
    | Lapsed

  /** The audit and timeline entries the handlers write. */
  datatype Event =
    | Created(task: TaskId, status: Status)
    | Moved(task: TaskId, from: Status, to: Status, forced: bool)
    | Blocked(task: TaskId)
    | Deleted(task: TaskId)
    | Offered(offer: nat, task: TaskId, worker: WorkerId)
    | Popped(offer: nat, who: WorkerId)
    | Reinserted(offer: nat, task: TaskId, worker: WorkerId)
    | Closed(offer: nat, task: TaskId, worker: WorkerId, how: Closing)
    | Assigned(task: TaskId, worker: WorkerId, via: Option<nat>, bundle: nat)
    | Released(bundle: nat, task: TaskId, worker: WorkerId)
    | Withheld(bundle: nat)

  datatype Grid = Grid(
    limit: int,
    tasks: map<TaskId, Task>,
    offers: map<TaskId, Offer>,
    strikes: map<(TaskId, WorkerId), nat>,
    disrupted: set<TaskId>,
    accepts: map<nat, Accept>,
    bundles: map<nat, Bundle>,
    nextOffer: nat,
    nextAccept: nat,
    nextBundle: nat,
    audit: seq<Event>)

  /** What most handlers leave alone: the limit, the disrupted set, and which tasks exist. */
  ghost predicate SameScope(g: Grid, h: Grid) {
    h.limit == g.limit && h.disrupted == g.disrupted && g.tasks.Keys <= h.tasks.Keys
  }

  /** `int(setting or 3)`: a setting of zero means three. */
  function EffectiveLimit(setting: int): int {
    if setting == 0 then 3 else setting
  }

  function Start(setting: int): Grid {
    Grid(EffectiveLimit(setting), map[], map[], map[], {}, map[], map[], 0, 0, 0, [])
  }

  function StrikesOf(strikes: map<(TaskId, WorkerId), nat>, t: TaskId, w: WorkerId): nat {
    if (t, w) in strikes then strikes[(t, w)] else 0
  }

  function AddStrike(strikes: map<(TaskId, WorkerId), nat>, t: TaskId, w: WorkerId): map<(TaskId, WorkerId), nat> {
    strikes[(t, w) := StrikesOf(strikes, t, w) + 1]
  }

  function ClearStrikes(strikes: map<(TaskId, WorkerId), nat>, t: TaskId): map<(TaskId, WorkerId), nat> {
    map k | k in strikes && k.0 != t :: strikes[k]
  }

  /** Store a row. A changed status is logged, and a terminal one clears the task's strikes. */
  function Write(g: Grid, t: TaskId, row: Task, forced: bool): (h: Grid)
    requires t in g.tasks
    ensures SameScope(g, h)
  {
    var was := g.tasks[t].status;
    if row.status == was then
      g.(tasks := g.tasks[t := row])
    else
      g.(tasks := g.tasks[t := row],
         strikes := if Terminal(row.status) then ClearStrikes(g.strikes, t) else g.strikes,
         audit := g.audit + [Moved(t, was, row.status, forced)])
  }

  /** Take the offer for `t` out of the map for good. */
  function CloseOffer(g: Grid, t: TaskId, how: Closing): (h: Grid)
    requires t in g.offers
    ensures SameScope(g, h)
  {
    g.(offers := g.offers - {t},
       audit := g.audit + [Closed(g.offers[t].id, t, g.offers[t].worker, how)])
  }

  function IssueOffer(g: Grid, t: TaskId, w: WorkerId): (h: Grid)
    ensures SameScope(g, h)
  {
    g.(offers := g.offers[t := Offer(g.nextOffer, w)],
       nextOffer := g.nextOffer + 1,
       audit := g.audit + [Offered(g.nextOffer, t, w)])
  }

  /** Commit the lease and start building the bundle. */
  function Assign(g: Grid, t: TaskId, w: WorkerId, via: Option<nat>): (h: Grid)
    requires t in g.tasks
    ensures SameScope(g, h)
  {
    g.(tasks := g.tasks[t := g.tasks[t].(status := Processing, worker := Some(w))],
       bundles := g.bundles[g.nextBundle := Bundle(t, w, g.tasks[t].intact)],
       nextBundle := g.nextBundle + 1,
       audit := g.audit + [Assigned(t, w, via, g.nextBundle)])
  }

  // ---- pop_task ----

  /** What survives the three filters of `pop_task`: queued, not already offered to this worker,
      and below the strike limit when there is one. */
  predicate Candidate(g: Grid, t: TaskId, w: WorkerId) {
    && t in g.tasks && g.tasks[t].status == Queued
    && !(t in g.offers && g.offers[t].worker == w)
    && (g.limit > 0 ==> StrikesOf(g.strikes, t, w) < g.limit)
  }

  /** The scheduler picks nothing or a candidate. */
  function PopTask(g: Grid, w: WorkerId, consent: bool, pick: Option<TaskId>): (h: Grid)
    ensures SameScope(g, h)
  {
    if pick.None? || !Candidate(g, pick.value, w) then g
    else
      var t := pick.value;
      var k := if t in g.offers then CloseOffer(g, t, Superseded) else g;
      if consent then IssueOffer(k, t, w) else Assign(k, t, w, None)
  }

  // ---- accept_offer, decline_offer, expiry ----

  function AcceptPop(g: Grid, t: TaskId, w: WorkerId): (h: Grid)
    ensures SameScope(g, h)
  {
    if t !in g.offers then g
    else
      g.(offers := g.offers - {t},
         accepts := g.accepts[g.nextAccept := Accept(t, g.offers[t], w)],
         nextAccept := g.nextAccept + 1,
         audit := g.audit + [Popped(g.offers[t].id, w)])
  }

  /** The second lock section: put a stranger's offer back, or turn one's own into an assignment. */
  function AcceptFinish(g: Grid, r: nat): (h: Grid)
    ensures SameScope(g, h)
  {
    if r !in g.accepts then g
    else
      var a := g.accepts[r];
      var h := g.(accepts := g.accepts - {r});
      if a.offer.worker != a.who then Reinsert(h, a)
      else if a.task in h.tasks && h.tasks[a.task].status == Queued then
        Assign(h, a.task, a.who, Some(a.offer.id))
      else
        h.(audit := h.audit + [Closed(a.offer.id, a.task, a.offer.worker, Lapsed)])
  }

  function Reinsert(g: Grid, a: Accept): (h: Grid)
    ensures SameScope(g, h)
  {
    var h := if a.task in g.offers then CloseOffer(g, a.task, Overwritten) else g;
    h.(offers := h.offers[a.task := a.offer],
       audit := h.audit + [Reinserted(a.offer.id, a.task, a.offer.worker)])
  }

  /** Any worker may decline; the strike goes to the one who does. */
  function DeclineOffer(g: Grid, t: TaskId, w: WorkerId): (h: Grid)
    ensures SameScope(g, h)
  {
    if t !in g.offers then g
    else CloseOffer(g, t, Declined(w)).(strikes := AddStrike(g.strikes, t, w))
  }

  function ExpireOffer(g: Grid, t: TaskId): (h: Grid)
    ensures SameScope(g, h)
  {
    if t !in g.offers then g
    else CloseOffer(g, t, Expired).(strikes := AddStrike(g.strikes, t, g.offers[t].worker))
  }

  // ---- bundles and results ----

  /** The payload check runs after the assignment was committed, in a session of its own. */
  function BuildBundle(g: Grid, b: nat): (h: Grid)
    ensures SameScope(g, h)
  {
    if b !in g.bundles then g
    else
      var u := g.bundles[b];
      var h := g.(bundles := g.bundles - {b});
      if u.intact then h.(audit := h.audit + [Released(b, u.task, u.worker)])
      else
        var k := h.(audit := h.audit + [Withheld(b)]);
        if u.task !in k.tasks then k
        else
          k.(tasks := k.tasks[u.task := k.tasks[u.task].(status := FatalError)],
             audit := k.audit + [Blocked(u.task)])
  }

  /** What a worker reports. Over the relay a failing result may replace the stored payload. */
  datatype Outcome =
    | Success
    | WasPreempted(checkpoint: Bytes)
    | Failure(payload: Option<bool>)

  /** The row before the status decision. */
  function Received(row: Task, outcome: Outcome): Task {
    match outcome
    case Success => row
    case WasPreempted(bytes) => row.(checkpoint := Some(bytes), worker := None)
    case Failure(payload) =>
      row.(worker := None, intact := if payload.Some? then payload.value else row.intact)
  }

  function Concluded(row: Task, outcome: Outcome): Task {
    if outcome.Success? then SetStatus(row, Completed, false)
    else if CanRetry(row) then Retry(row)
    else SetStatus(row, Failed, false)
  }

  predicate RetryForced(row: Task, outcome: Outcome) {
    !outcome.Success? && CanRetry(row)
  }

  function DropIdleWorker(row: Task): Task {
    if row.status != Processing then row.(worker := None) else row
  }

  function SubmitResult(g: Grid, t: TaskId, outcome: Outcome): (h: Grid)
    ensures SameScope(g, h)
  {
    if t !in g.tasks || t in g.disrupted || Terminal(g.tasks[t].status) then g
    else
      var row := Received(g.tasks[t], outcome);
      Write(g, t, DropIdleWorker(Concluded(row, outcome)), RetryForced(row, outcome))
  }

  // ---- operator actions ----

  function AddTask(g: Grid, t: TaskId, deps: seq<TaskId>, parent: string, retryMax: nat): (h: Grid)
    ensures SameScope(g, h)
  {
    if t in g.tasks then g
    else
      var status := if deps == [] then Queued else Waiting;
      g.(tasks := g.tasks[t := Task(status, None, None, true, retryMax, 0, parent, deps)],
         audit := g.audit + [Created(t, status)])
  }

  function Requeue(g: Grid, t: TaskId): (h: Grid)
    ensures h.limit == g.limit
  {
    if t !in g.tasks then g
    else Write(g, t, SetStatus(g.tasks[t], Queued, true).(worker := None), true).(disrupted := g.disrupted - {t})
  }

  function Cancel(g: Grid, t: TaskId): (h: Grid)
    ensures h.limit == g.limit
  {
    if t !in g.tasks || g.tasks[t].status == Processing || Terminal(g.tasks[t].status) then g
    else Write(g, t, SetStatus(g.tasks[t], Disrupted, true).(worker := None), true).(disrupted := g.disrupted + {t})
  }

  function Disrupt(g: Grid, t: TaskId): (h: Grid)
    ensures h.limit == g.limit
  {
    if t !in g.tasks || g.tasks[t].status != Processing then g
    else Write(g, t, SetStatus(g.tasks[t], Disrupted, true).(worker := None), true).(disrupted := g.disrupted + {t})
  }

  function Delete(g: Grid, t: TaskId): (h: Grid)
    ensures h.limit == g.limit
  {
    if t !in g.tasks || !Terminal(g.tasks[t].status) then g
    else
      g.(tasks := g.tasks - {t},
         disrupted := g.disrupted - {t},
         audit := g.audit + [Deleted(t)])
  }

  function Approve(g: Grid, t: TaskId): (h: Grid)
    ensures SameScope(g, h)
  {
    if t !in g.tasks || g.tasks[t].status != AwaitingApproval then g
    else Write(g, t, SetStatus(g.tasks[t], Queued, false), false)
  }

  predicate Resumable(s: Status) {
    s.Failed? || s.Disrupted? || s.Cancelled?
  }

  /** Every dependency is a completed task of the same workflow. */
  predicate DepsDone(g: Grid, row: Task) {
    forall d <- row.deps :: d in g.tasks && g.tasks[d].parent == row.parent && g.tasks[d].status == Completed
  }

  /** One row of `resume_workflow`. The disrupted set is not touched. */
  function Resume(g: Grid, t: TaskId): (h: Grid)
    ensures SameScope(g, h)
  {
    if t !in g.tasks || !Resumable(g.tasks[t].status) then g
    else if DepsDone(g, g.tasks[t]) then
      Write(g, t, SetStatus(g.tasks[t], Queued, true).(worker := None), true)
    else
      Write(g, t, SetStatus(g.tasks[t], Waiting, true), true)
  }

  // ---- background loops ----

  function CompletedTasks(g: Grid): set<TaskId> {
    set t | t in g.tasks && g.tasks[t].status == Completed
  }

  predicate DepsMet(g: Grid, row: Task) {
    Met(row.deps, CompletedTasks(g))
  }

  function ReleaseReady(g: Grid, t: TaskId, gate: bool): (h: Grid)
    ensures SameScope(g, h)
  {
    if t !in g.tasks || g.tasks[t].status != Waiting then g
    else if g.tasks[t].deps == [] then Write(g, t, SetStatus(g.tasks[t], Queued, false), false)
    else if !DepsMet(g, g.tasks[t]) then g
    else Write(g, t, SetStatus(g.tasks[t], if gate then AwaitingApproval else Queued, false), false)
  }

  function RetryElapsed(g: Grid, t: TaskId): (h: Grid)
    ensures SameScope(g, h)
  {
    if t !in g.tasks || g.tasks[t].status != Retrying then g
    else Write(g, t, SetStatus(g.tasks[t], Queued, false), false)
  }

  function Recovered(row: Task): Task {
    if CanRetry(row) then Retry(row) else SetStatus(row, Failed, true)
  }

  function SweepDeadWorker(g: Grid, t: TaskId, w: WorkerId): (h: Grid)
    ensures SameScope(g, h)
  {
    if t !in g.tasks || g.tasks[t].status != Processing || g.tasks[t].worker != Some(w) then g
    else Write(g, t, Recovered(g.tasks[t].(worker := None)), true)
  }

  function SweepLease(g: Grid, t: TaskId): (h: Grid)
    ensures SameScope(g, h)
  {
    if t !in g.tasks || g.tasks[t].status != Processing then g
    else
      var row := SetStatus(g.tasks[t].(worker := None), LeaseExpired, true);
      Write(Write(g, t, row, true), t, Recovered(row), true)
  }

  function QueueTimeout(g: Grid, t: TaskId): (h: Grid)
    ensures SameScope(g, h)
  {
    if t !in g.tasks || g.tasks[t].status != Queued then g
    else Write(g, t, SetStatus(g.tasks[t], Failed, true), true)
  }

  // ---- runs ----

  datatype Step =
    | DoAddTask(t: TaskId, deps: seq<TaskId>, parent: string, retryMax: nat)
    | DoPopTask(w: WorkerId, consent: bool, pick: Option<TaskId>)
    | DoAcceptPop(t: TaskId, w: WorkerId)
    | DoAcceptFinish(r: nat)
    | DoDecline(t: TaskId, w: WorkerId)
    | DoExpire(t: TaskId)
    | DoBuildBundle(b: nat)
    | DoSubmit(t: TaskId, outcome: Outcome)
    | DoRequeue(t: TaskId)
    | DoCancel(t: TaskId)
    | DoDisrupt(t: TaskId)
    | DoDelete(t: TaskId)
    | DoApprove(t: TaskId)
    | DoResume(t: TaskId)
    | DoRelease(t: TaskId, gate: bool)
    | DoRetryElapsed(t: TaskId)
    | DoSweepDead(t: TaskId, w: WorkerId)
    | DoSweepLease(t: TaskId)
    | DoQueueTimeout(t: TaskId)

  function Apply(g: Grid, s: Step): (h: Grid)
    ensures h.limit == g.limit
  {
    match s
    case DoAddTask(t, deps, parent, retryMax) => AddTask(g, t, deps, parent, retryMax)
    case DoPopTask(w, consent, pick) => PopTask(g, w, consent, pick)
    case DoAcceptPop(t, w) => AcceptPop(g, t, w)
    case DoAcceptFinish(r) => AcceptFinish(g, r)
    case DoDecline(t, w) => DeclineOffer(g, t, w)
    case DoExpire(t) => ExpireOffer(g, t)
    case DoBuildBundle(b) => BuildBundle(g, b)
    case DoSubmit(t, outcome) => SubmitResult(g, t, outcome)
    case DoRequeue(t) => Requeue(g, t)
    case DoCancel(t) => Cancel(g, t)
    case DoDisrupt(t) => Disrupt(g, t)
    case DoDelete(t) => Delete(g, t)
    case DoApprove(t) => Approve(g, t)
    case DoResume(t) => Resume(g, t)
    case DoRelease(t, gate) => ReleaseReady(g, t, gate)
    case DoRetryElapsed(t) => RetryElapsed(g, t)
    case DoSweepDead(t, w) => SweepDeadWorker(g, t, w)
    case DoSweepLease(t) => SweepLease(g, t)
    case DoQueueTimeout(t) => QueueTimeout(g, t)
  }

  /** The grid after any interleaving of handlers. */
  function Exec(g: Grid, steps: seq<Step>): (h: Grid)
    ensures h.limit == g.limit
  {
    if steps == [] then g else Apply(Exec(g, steps[..|steps| - 1]), steps[|steps| - 1])
  }
}
