/** What a step does to one task, told by effect and not by handler: what puts a task into a status, uses
    up a retry, stores a checkpoint, makes or takes an offer, and adds a strike. */
module DispatchEffects {
  import opened Wrappers
  import opened Lifecycle
  import opened Dispatch
  import opened DispatchSafety

  predicate In(g: Grid, t: TaskId, status: Status) {
    t in g.tasks && g.tasks[t].status == status
  }

  // ---- causes ----

  /** A result for the task is taken note of. */
  predicate Heard(g: Grid, t: TaskId) {
    t in g.tasks && t !in g.disrupted && !Terminal(g.tasks[t].status)
  }

  predicate Succeeds(g: Grid, s: Step, t: TaskId) {
    s == DoSubmit(t, Success) && Heard(g, t) && (In(g, t, Processing) || In(g, t, Serving))
  }

  predicate Falters(g: Grid, s: Step, t: TaskId) {
    s.DoSubmit? && s.t == t && !s.outcome.Success? && Heard(g, t)
  }

  /** The worker of a processing task is dead, or its lease ran out. */
  predicate LosesWorker(g: Grid, s: Step, t: TaskId) {
    In(g, t, Processing) && (s == DoSweepLease(t) || (s.DoSweepDead? && s.t == t && g.tasks[t].worker == Some(s.w)))
  }

  predicate Retries(g: Grid, s: Step, t: TaskId) {
    (Falters(g, s, t) || LosesWorker(g, s, t)) && CanRetry(g.tasks[t])
  }

  /** Out of retries, or queued too long. A failing result for a task that was never handed out is no
      legal failure. */
  predicate Fails(g: Grid, s: Step, t: TaskId) {
    || (Falters(g, s, t) && !CanRetry(g.tasks[t]) && !In(g, t, Waiting) && !In(g, t, AwaitingApproval)
        && !In(g, t, Queued) && !In(g, t, FatalError))
    || (LosesWorker(g, s, t) && !CanRetry(g.tasks[t]))
    || (s == DoQueueTimeout(t) && In(g, t, Queued))
  }

  predicate Stops(g: Grid, s: Step, t: TaskId) {
    || (s == DoCancel(t) && t in g.tasks && !Terminal(g.tasks[t].status) && !In(g, t, Processing))
    || (s == DoDisrupt(t) && In(g, t, Processing))
  }

  predicate Queues(g: Grid, s: Step, t: TaskId) {
    || (s.DoAddTask? && s.t == t && t !in g.tasks && s.deps == [])
    || (s == DoRequeue(t) && t in g.tasks)
    || (s == DoApprove(t) && In(g, t, AwaitingApproval))
    || (s == DoRetryElapsed(t) && In(g, t, Retrying))
    || (s == DoResume(t) && t in g.tasks && Resumable(g.tasks[t].status) && DepsDone(g, g.tasks[t]))
    || (s.DoRelease? && s.t == t && In(g, t, Waiting)
        && (g.tasks[t].deps == [] || (!s.gate && DepsMet(g, g.tasks[t]))))
  }

  predicate Waits(g: Grid, s: Step, t: TaskId) {
    || (s.DoAddTask? && s.t == t && t !in g.tasks && s.deps != [])
    || (s == DoResume(t) && t in g.tasks && Resumable(g.tasks[t].status) && !DepsDone(g, g.tasks[t]))
  }

  predicate Gates(g: Grid, s: Step, t: TaskId) {
    s == DoRelease(t, true) && In(g, t, Waiting) && g.tasks[t].deps != [] && DepsMet(g, g.tasks[t])
  }

  function OfferOf(g: Grid, t: TaskId): Option<Offer> {
    if t in g.offers then Some(g.offers[t]) else None
  }

  predicate Asked(g: Grid, t: TaskId, w: WorkerId) {
    OfferOf(g, t).Some? && OfferOf(g, t).value.worker == w
  }

  /** Queued, not already offered to this worker, and below the limit where there is one. */
  predicate Eligible(g: Grid, t: TaskId, w: WorkerId) {
    In(g, t, Queued) && !Asked(g, t, w) && (g.limit > 0 ==> StrikesOf(g.strikes, t, w) < g.limit)
  }

  /** The worker that a step hands the task to. */
  function Receives(g: Grid, s: Step, t: TaskId): Option<WorkerId> {
    if s.DoPopTask? && !s.consent && s.pick == Some(t) && Eligible(g, t, s.w) then Some(s.w)
    else if s.DoAcceptFinish? && s.r in g.accepts && g.accepts[s.r].task == t
            && g.accepts[s.r].offer.worker == g.accepts[s.r].who && In(g, t, Queued) then Some(g.accepts[s.r].who)
    else None
  }

  predicate Blocks(g: Grid, s: Step, t: TaskId) {
    s.DoBuildBundle? && s.b in g.bundles && g.bundles[s.b].task == t && !g.bundles[s.b].intact && t in g.tasks
  }

  predicate Deletes(g: Grid, s: Step, t: TaskId) {
    s == DoDelete(t) && t in g.tasks && Terminal(g.tasks[t].status)
  }

  /** The status a task has after a step, by what caused it. */
  function After(g: Grid, s: Step, t: TaskId): Option<Status> {
    if Succeeds(g, s, t) then Some(Completed)
    else if Retries(g, s, t) then Some(Retrying)
    else if Fails(g, s, t) then Some(Failed)
    else if Stops(g, s, t) then Some(Disrupted)
    else if Queues(g, s, t) then Some(Queued)
    else if Waits(g, s, t) then Some(Waiting)
    else if Gates(g, s, t) then Some(AwaitingApproval)
    else if Receives(g, s, t).Some? then Some(Processing)
    else if Blocks(g, s, t) then Some(FatalError)
    else if Deletes(g, s, t) then None
    else RowStatus(g, t)
  }

  // ---- statuses, handler by handler ----

  lemma PopTaskAfter(g: Grid, w: WorkerId, consent: bool, pick: Option<TaskId>, t: TaskId)
    ensures RowStatus(PopTask(g, w, consent, pick), t) == After(g, DoPopTask(w, consent, pick), t)
  {
  }

  lemma AcceptPopAfter(g: Grid, u: TaskId, w: WorkerId, t: TaskId)
    ensures RowStatus(AcceptPop(g, u, w), t) == After(g, DoAcceptPop(u, w), t)
  {
  }

  lemma DeclineAfter(g: Grid, u: TaskId, w: WorkerId, t: TaskId)
    ensures RowStatus(DeclineOffer(g, u, w), t) == After(g, DoDecline(u, w), t)
  {
  }

  lemma ExpireAfter(g: Grid, u: TaskId, t: TaskId)
    ensures RowStatus(ExpireOffer(g, u), t) == After(g, DoExpire(u), t)
  {
  }

  lemma AcceptFinishAfter(g: Grid, r: nat, t: TaskId)
    ensures RowStatus(AcceptFinish(g, r), t) == After(g, DoAcceptFinish(r), t)
  {
  }

  lemma BundleAfter(g: Grid, b: nat, t: TaskId)
    ensures RowStatus(BuildBundle(g, b), t) == After(g, DoBuildBundle(b), t)
  {
  }

  /** The status decision of a result, row by row. */
  lemma ConcludedStatus(row: Task, outcome: Outcome)
    requires !Terminal(row.status)
    ensures DropIdleWorker(Concluded(Received(row, outcome), outcome)).status ==
            if outcome.Success? then
              if row.status == Processing || row.status == Serving then Completed else row.status
            else if CanRetry(row) then Retrying
            else if row.status in {Waiting, AwaitingApproval, Queued, FatalError} then row.status
            else Failed
  {
  }

  lemma SubmitElsewhere(g: Grid, u: TaskId, outcome: Outcome, t: TaskId)
    requires t != u || !Heard(g, t)
    ensures RowStatus(SubmitResult(g, u, outcome), t) == RowStatus(g, t) == After(g, DoSubmit(u, outcome), t)
  {
  }

  lemma SubmitHeard(g: Grid, u: TaskId, outcome: Outcome)
    requires Heard(g, u)
    ensures RowStatus(SubmitResult(g, u, outcome), u) ==
            Some(DropIdleWorker(Concluded(Received(g.tasks[u], outcome), outcome)).status)
  {
  }

  lemma AfterHeard(g: Grid, u: TaskId, outcome: Outcome)
    requires Heard(g, u)
    ensures var row := g.tasks[u];
            After(g, DoSubmit(u, outcome), u) ==
            Some(if outcome.Success? then
                   if row.status == Processing || row.status == Serving then Completed else row.status
                 else if CanRetry(row) then Retrying
                 else if row.status in {Waiting, AwaitingApproval, Queued, FatalError} then row.status
                 else Failed)
  {
  }

  lemma SubmitAfter(g: Grid, u: TaskId, outcome: Outcome, t: TaskId)
    ensures RowStatus(SubmitResult(g, u, outcome), t) == After(g, DoSubmit(u, outcome), t)
  {
    if t != u || !Heard(g, t) {
      SubmitElsewhere(g, u, outcome, t);
    } else {
      ConcludedStatus(g.tasks[u], outcome);
      SubmitHeard(g, u, outcome);
      AfterHeard(g, u, outcome);
    }
  }

  lemma AddAfter(g: Grid, u: TaskId, deps: seq<TaskId>, parent: string, retryMax: nat, t: TaskId)
    ensures RowStatus(AddTask(g, u, deps, parent, retryMax), t) == After(g, DoAddTask(u, deps, parent, retryMax), t)
  {
  }

  lemma RequeueElsewhere(g: Grid, u: TaskId, t: TaskId)
    requires t != u
    ensures RowStatus(Requeue(g, u), t) == RowStatus(g, t) == After(g, DoRequeue(u), t)
  {
  }

  lemma RequeueAfter(g: Grid, u: TaskId, t: TaskId)
    ensures RowStatus(Requeue(g, u), t) == After(g, DoRequeue(u), t)
  {
    if t != u { RequeueElsewhere(g, u, t); }
  }

  lemma CancelAfter(g: Grid, u: TaskId, t: TaskId)
    ensures RowStatus(Cancel(g, u), t) == After(g, DoCancel(u), t)
  {
  }

  lemma DisruptAfter(g: Grid, u: TaskId, t: TaskId)
    ensures RowStatus(Disrupt(g, u), t) == After(g, DoDisrupt(u), t)
  {
  }

  lemma DeleteAfter(g: Grid, u: TaskId, t: TaskId)
    ensures RowStatus(Delete(g, u), t) == After(g, DoDelete(u), t)
  {
  }

  lemma ApproveAfter(g: Grid, u: TaskId, t: TaskId)
    ensures RowStatus(Approve(g, u), t) == After(g, DoApprove(u), t)
  {
  }

  lemma RetryElapsedAfter(g: Grid, u: TaskId, t: TaskId)
    ensures RowStatus(RetryElapsed(g, u), t) == After(g, DoRetryElapsed(u), t)
  {
  }

  lemma ResumeElsewhere(g: Grid, u: TaskId, t: TaskId)
    requires t != u
    ensures RowStatus(Resume(g, u), t) == RowStatus(g, t) == After(g, DoResume(u), t)
  {
  }

  lemma ResumeAfter(g: Grid, u: TaskId, t: TaskId)
    ensures RowStatus(Resume(g, u), t) == After(g, DoResume(u), t)
  {
    if t != u { ResumeElsewhere(g, u, t); }
  }

  lemma ReleaseElsewhere(g: Grid, u: TaskId, gate: bool, t: TaskId)
    requires t != u || !In(g, t, Waiting)
    ensures RowStatus(ReleaseReady(g, u, gate), t) == RowStatus(g, t) == After(g, DoRelease(u, gate), t)
  {
  }

  lemma ReleaseAfter(g: Grid, u: TaskId, gate: bool, t: TaskId)
    ensures RowStatus(ReleaseReady(g, u, gate), t) == After(g, DoRelease(u, gate), t)
  {
    if t != u || !In(g, t, Waiting) { ReleaseElsewhere(g, u, gate, t); }
  }

  lemma SweepDeadAfter(g: Grid, u: TaskId, w: WorkerId, t: TaskId)
    ensures RowStatus(SweepDeadWorker(g, u, w), t) == After(g, DoSweepDead(u, w), t)
  {
  }

  lemma SweepLeaseAfter(g: Grid, u: TaskId, t: TaskId)
    ensures RowStatus(SweepLease(g, u), t) == After(g, DoSweepLease(u), t)
  {
  }

  lemma QueueTimeoutAfter(g: Grid, u: TaskId, t: TaskId)
    ensures RowStatus(QueueTimeout(g, u), t) == After(g, DoQueueTimeout(u), t)
  {
  }

  /** The steps of handing out tasks. */
  predicate Dispatches(s: Step) {
    s.DoPopTask? || s.DoAcceptPop? || s.DoAcceptFinish? || s.DoDecline? || s.DoExpire? || s.DoBuildBundle?
  }

  lemma DispatchAfter(g: Grid, s: Step, t: TaskId)
    requires Dispatches(s)
    ensures RowStatus(Apply(g, s), t) == After(g, s, t)
  {
    match s
    case DoPopTask(w, consent, pick) => PopTaskAfter(g, w, consent, pick, t);
    case DoAcceptPop(u, w) => AcceptPopAfter(g, u, w, t);
    case DoAcceptFinish(r) => AcceptFinishAfter(g, r, t);
    case DoDecline(u, w) => DeclineAfter(g, u, w, t);
    case DoExpire(u) => ExpireAfter(g, u, t);
    case DoBuildBundle(b) => BundleAfter(g, b, t);
  }

  predicate ByOperator(s: Step) {
    s.DoAddTask? || s.DoRequeue? || s.DoCancel? || s.DoDisrupt? || s.DoDelete? || s.DoApprove? || s.DoResume?
  }

  lemma OperatorAfter(g: Grid, s: Step, t: TaskId)
    requires ByOperator(s)
    ensures RowStatus(Apply(g, s), t) == After(g, s, t)
  {
    match s
    case DoAddTask(u, deps, parent, retryMax) => AddAfter(g, u, deps, parent, retryMax, t);
    case DoRequeue(u) => RequeueAfter(g, u, t);
    case DoCancel(u) => CancelAfter(g, u, t);
    case DoDisrupt(u) => DisruptAfter(g, u, t);
    case DoDelete(u) => DeleteAfter(g, u, t);
    case DoApprove(u) => ApproveAfter(g, u, t);
    case DoResume(u) => ResumeAfter(g, u, t);
  }

  lemma LoopAfter(g: Grid, s: Step, t: TaskId)
    requires !Dispatches(s) && !ByOperator(s)
    ensures RowStatus(Apply(g, s), t) == After(g, s, t)
  {
    match s
    case DoSubmit(u, outcome) => SubmitAfter(g, u, outcome, t);
    case DoRelease(u, gate) => ReleaseAfter(g, u, gate, t);
    case DoRetryElapsed(u) => RetryElapsedAfter(g, u, t);
    case DoSweepDead(u, w) => SweepDeadAfter(g, u, w, t);
    case DoSweepLease(u) => SweepLeaseAfter(g, u, t);
    case DoQueueTimeout(u) => QueueTimeoutAfter(g, u, t);
  }

  /** Every step, every task: the status afterwards is the one its cause calls for. */
  lemma StatusAfter(g: Grid, s: Step, t: TaskId)
    ensures RowStatus(Apply(g, s), t) == After(g, s, t)
  {
    if Dispatches(s) {
      DispatchAfter(g, s, t);
    } else if ByOperator(s) {
      OperatorAfter(g, s, t);
    } else {
      LoopAfter(g, s, t);
    }
  }

  // ---- the rest of the row ----

  /** The checkpoint a result brings. */
  function Brings(s: Step, t: TaskId): Option<Bytes> {
    if s.DoSubmit? && s.t == t && s.outcome.WasPreempted? then Some(s.outcome.checkpoint) else None
  }

  /** Whether the payload a result brings is intact. */
  function Replaces(s: Step, t: TaskId): Option<bool> {
    if s.DoSubmit? && s.t == t && s.outcome.Failure? then s.outcome.payload else None
  }

  /** How a row comes out of a step, apart from status and worker. */
  predicate Becomes(was: Task, now: Task, retried: bool, saved: Option<Bytes>, payload: Option<bool>) {
    && now.deps == was.deps && now.parent == was.parent && now.retryMax == was.retryMax
    && now.retryCount == was.retryCount + (if retried then 1 else 0)
    && now.checkpoint == (if saved.Some? then saved else was.checkpoint)
    && now.intact == (if payload.Some? then payload.value else was.intact)
  }

  ghost predicate Follows(g: Grid, s: Step, t: TaskId, h: Grid) {
    t in g.tasks && t in h.tasks ==>
      Becomes(g.tasks[t], h.tasks[t], Retries(g, s, t),
              if Heard(g, t) then Brings(s, t) else None, if Heard(g, t) then Replaces(s, t) else None)
  }

  /** Nothing but status and worker of surviving rows has changed. */
  ghost predicate Plain(g: Grid, h: Grid, t: TaskId) {
    t in g.tasks && t in h.tasks ==>
      h.tasks[t] == g.tasks[t].(status := h.tasks[t].status, worker := h.tasks[t].worker)
  }

  lemma PopTaskPlain(g: Grid, w: WorkerId, consent: bool, pick: Option<TaskId>, t: TaskId)
    ensures Plain(g, PopTask(g, w, consent, pick), t)
  {
  }

  lemma AnswerPlain(g: Grid, s: Step)
    requires s.DoAcceptPop? || s.DoDecline? || s.DoExpire?
    ensures Apply(g, s).tasks == g.tasks
  {
  }

  lemma AcceptFinishPlain(g: Grid, r: nat, t: TaskId)
    ensures Plain(g, AcceptFinish(g, r), t)
  {
  }

  lemma BundlePlain(g: Grid, b: nat, t: TaskId)
    ensures Plain(g, BuildBundle(g, b), t)
  {
  }

  lemma ExistencePlain(g: Grid, s: Step, t: TaskId)
    requires s.DoAddTask? || s.DoDelete?
    ensures Plain(g, Apply(g, s), t)
  {
  }

  lemma WritePlain(g: Grid, u: TaskId, row: Task, forced: bool, t: TaskId)
    requires u in g.tasks && row == g.tasks[u].(status := row.status, worker := row.worker)
    ensures Plain(g, Write(g, u, row, forced), t)
  {
  }

  lemma StopPlain(g: Grid, u: TaskId, t: TaskId)
    ensures Plain(g, Cancel(g, u), t) && Plain(g, Disrupt(g, u), t)
  {
    if u in g.tasks { WritePlain(g, u, SetStatus(g.tasks[u], Disrupted, true).(worker := None), true, t); }
  }

  lemma QueuePlain(g: Grid, u: TaskId, t: TaskId)
    ensures Plain(g, Approve(g, u), t) && Plain(g, RetryElapsed(g, u), t)
  {
    if u in g.tasks { WritePlain(g, u, SetStatus(g.tasks[u], Queued, false), false, t); }
  }

  lemma RequeuePlain(g: Grid, u: TaskId, t: TaskId)
    ensures Plain(g, Requeue(g, u), t)
  {
    if u in g.tasks { WritePlain(g, u, SetStatus(g.tasks[u], Queued, true).(worker := None), true, t); }
  }

  lemma ResumePlain(g: Grid, u: TaskId, t: TaskId)
    ensures Plain(g, Resume(g, u), t)
  {
    if u in g.tasks {
      WritePlain(g, u, SetStatus(g.tasks[u], Queued, true).(worker := None), true, t);
      WritePlain(g, u, SetStatus(g.tasks[u], Waiting, true), true, t);
    }
  }

  lemma ReleasePlain(g: Grid, u: TaskId, gate: bool, t: TaskId)
    ensures Plain(g, ReleaseReady(g, u, gate), t)
  {
    if u in g.tasks {
      WritePlain(g, u, SetStatus(g.tasks[u], Queued, false), false, t);
      WritePlain(g, u, SetStatus(g.tasks[u], if gate then AwaitingApproval else Queued, false), false, t);
    }
  }

  lemma QueueTimeoutPlain(g: Grid, u: TaskId, t: TaskId)
    ensures Plain(g, QueueTimeout(g, u), t)
  {
    if u in g.tasks { WritePlain(g, u, SetStatus(g.tasks[u], Failed, true), true, t); }
  }

  lemma PlainFollows(g: Grid, s: Step, t: TaskId, h: Grid)
    requires Plain(g, h, t) && !s.DoSubmit? && !s.DoSweepDead? && !s.DoSweepLease?
    ensures Follows(g, s, t, h)
  {
  }

  lemma ConcludedBecomes(row: Task, outcome: Outcome)
    ensures Becomes(row, DropIdleWorker(Concluded(Received(row, outcome), outcome)), !outcome.Success? && CanRetry(row),
                    if outcome.WasPreempted? then Some(outcome.checkpoint) else None,
                    if outcome.Failure? then outcome.payload else None)
  {
  }

  lemma SubmitRows(g: Grid, t: TaskId, outcome: Outcome)
    ensures SubmitResult(g, t, outcome).tasks ==
            if Heard(g, t) then g.tasks[t := DropIdleWorker(Concluded(Received(g.tasks[t], outcome), outcome))] else g.tasks
  {
  }

  lemma SubmitFollows(g: Grid, u: TaskId, outcome: Outcome, t: TaskId, h: Grid)
    requires h.tasks == if Heard(g, u) then g.tasks[u := DropIdleWorker(Concluded(Received(g.tasks[u], outcome), outcome))]
                        else g.tasks
    ensures Follows(g, DoSubmit(u, outcome), t, h)
  {
    if t == u && Heard(g, t) { ConcludedBecomes(g.tasks[t], outcome); }
  }

  /** The rows after a sweep that finds the worker of `t` gone, or does not. */
  lemma SweepRows(g: Grid, t: TaskId, w: WorkerId)
    ensures SweepDeadWorker(g, t, w).tasks ==
            if LosesWorker(g, DoSweepDead(t, w), t) then g.tasks[t := Recovered(g.tasks[t].(worker := None))] else g.tasks
  {
  }

  lemma SweepLeaseRows(g: Grid, t: TaskId)
    ensures SweepLease(g, t).tasks ==
            if In(g, t, Processing) then g.tasks[t := Recovered(g.tasks[t].(worker := None, status := LeaseExpired))] else g.tasks
  {
  }

  lemma SweepFollows(g: Grid, s: Step, status: Status, t: TaskId, h: Grid)
    requires s.DoSweepDead? || s.DoSweepLease?
    requires h.tasks == if LosesWorker(g, s, s.t) then g.tasks[s.t := Recovered(g.tasks[s.t].(worker := None, status := status))]
                        else g.tasks
    ensures Follows(g, s, t, h)
  {
  }

  lemma PlainStep(g: Grid, s: Step, t: TaskId)
    requires !s.DoSubmit? && !s.DoSweepDead? && !s.DoSweepLease?
    ensures Plain(g, Apply(g, s), t)
  {
    if s.DoPopTask? {
      PopTaskPlain(g, s.w, s.consent, s.pick, t);
    } else if s.DoAcceptPop? || s.DoDecline? || s.DoExpire? {
      AnswerPlain(g, s);
    } else if s.DoAddTask? || s.DoDelete? {
      ExistencePlain(g, s, t);
    } else {
      match s
      case DoAcceptFinish(r) => AcceptFinishPlain(g, r, t);
      case DoBuildBundle(b) => BundlePlain(g, b, t);
      case DoRequeue(u) => RequeuePlain(g, u, t);
      case DoCancel(u) => StopPlain(g, u, t);
      case DoDisrupt(u) => StopPlain(g, u, t);
      case DoApprove(u) => QueuePlain(g, u, t);
      case DoResume(u) => ResumePlain(g, u, t);
      case DoRelease(u, gate) => ReleasePlain(g, u, gate, t);
      case DoRetryElapsed(u) => QueuePlain(g, u, t);
      case DoQueueTimeout(u) => QueueTimeoutPlain(g, u, t);
    }
  }

  /** Every step, every task: retries are counted one by one, a checkpoint or a payload is stored exactly
      when a result that is heard brings one, and what a task is does not change. */
  lemma RowFollows(g: Grid, s: Step, t: TaskId)
    ensures Follows(g, s, t, Apply(g, s))
  {
    if !s.DoSubmit? && !s.DoSweepDead? && !s.DoSweepLease? {
      PlainStep(g, s, t);
      PlainFollows(g, s, t, Apply(g, s));
    } else {
      match s
      case DoSubmit(u, outcome) =>
        SubmitRows(g, u, outcome);
        SubmitFollows(g, u, outcome, t, Apply(g, s));
      case DoSweepDead(u, w) =>
        SweepRows(g, u, w);
        SweepFollows(g, s, Processing, t, Apply(g, s));
      case DoSweepLease(u) =>
        SweepLeaseRows(g, u);
        SweepFollows(g, s, LeaseExpired, t, Apply(g, s));
    }
  }

  // ---- offers ----

  /** An offer put back by the accept of somebody it was not made to. */
  function PutBackBy(g: Grid, s: Step, t: TaskId): Option<Offer> {
    if s.DoAcceptFinish? && s.r in g.accepts && g.accepts[s.r].task == t && g.accepts[s.r].offer.worker != g.accepts[s.r].who
    then Some(g.accepts[s.r].offer)
    else None
  }

  predicate Picks(g: Grid, s: Step, t: TaskId) {
    s.DoPopTask? && s.pick == Some(t) && Eligible(g, t, s.w)
  }

  /** The offer of a task that is out after a step. */
  function OfferAfter(g: Grid, s: Step, t: TaskId): Option<Offer> {
    if Picks(g, s, t) then if s.consent then Some(Offer(g.nextOffer, s.w)) else None
    else if (s.DoAcceptPop? || s.DoDecline? || s.DoExpire?) && s.t == t then None
    else if PutBackBy(g, s, t).Some? then PutBackBy(g, s, t)
    else OfferOf(g, t)
  }

  lemma PopTaskOffer(g: Grid, w: WorkerId, consent: bool, pick: Option<TaskId>, t: TaskId)
    ensures OfferOf(PopTask(g, w, consent, pick), t) == OfferAfter(g, DoPopTask(w, consent, pick), t)
  {
  }

  lemma AcceptFinishOffer(g: Grid, r: nat, t: TaskId)
    ensures OfferOf(AcceptFinish(g, r), t) == OfferAfter(g, DoAcceptFinish(r), t)
  {
  }

  /** The step ended the task. */
  predicate Ended(g: Grid, h: Grid, t: TaskId) {
    RowStatus(h, t).Some? && Terminal(RowStatus(h, t).value) && RowStatus(h, t) != RowStatus(g, t)
  }

  /** Nothing about offers, accepts under way, bundles and strikes has changed, except that the strikes of
      a task that ended are gone. */
  ghost predicate SameTraffic(g: Grid, h: Grid, t: TaskId) {
    && h.offers == g.offers && h.accepts == g.accepts && h.bundles == g.bundles
    && h.nextOffer == g.nextOffer && h.nextAccept == g.nextAccept && h.nextBundle == g.nextBundle
    && h.strikes == if Ended(g, h, t) then ClearStrikes(g.strikes, t) else g.strikes
  }

  lemma WriteTraffic(g: Grid, t: TaskId, row: Task, forced: bool)
    requires t in g.tasks
    ensures SameTraffic(g, Write(g, t, row, forced), t)
  {
  }

  lemma SubmitTraffic(g: Grid, t: TaskId, outcome: Outcome)
    ensures SameTraffic(g, SubmitResult(g, t, outcome), t)
  {
    if Heard(g, t) {
      var row := Received(g.tasks[t], outcome);
      WriteTraffic(g, t, DropIdleWorker(Concluded(row, outcome)), RetryForced(row, outcome));
    }
  }

  lemma ExistenceTraffic(g: Grid, s: Step)
    requires s.DoAddTask? || s.DoDelete?
    ensures SameTraffic(g, Apply(g, s), s.t)
  {
  }

  lemma RequeueTraffic(g: Grid, t: TaskId)
    ensures SameTraffic(g, Requeue(g, t), t)
  {
    if t in g.tasks { WriteTraffic(g, t, SetStatus(g.tasks[t], Queued, true).(worker := None), true); }
  }

  lemma CancelTraffic(g: Grid, t: TaskId)
    ensures SameTraffic(g, Cancel(g, t), t)
  {
    if t in g.tasks { WriteTraffic(g, t, SetStatus(g.tasks[t], Disrupted, true).(worker := None), true); }
  }

  lemma DisruptTraffic(g: Grid, t: TaskId)
    ensures SameTraffic(g, Disrupt(g, t), t)
  {
    if t in g.tasks { WriteTraffic(g, t, SetStatus(g.tasks[t], Disrupted, true).(worker := None), true); }
  }

  lemma QueueTraffic(g: Grid, t: TaskId)
    ensures SameTraffic(g, Approve(g, t), t) && SameTraffic(g, RetryElapsed(g, t), t)
  {
    if t in g.tasks { WriteTraffic(g, t, SetStatus(g.tasks[t], Queued, false), false); }
  }

  lemma ResumeTraffic(g: Grid, t: TaskId)
    ensures SameTraffic(g, Resume(g, t), t)
  {
    if t in g.tasks {
      WriteTraffic(g, t, SetStatus(g.tasks[t], Queued, true).(worker := None), true);
      WriteTraffic(g, t, SetStatus(g.tasks[t], Waiting, true), true);
    }
  }

  lemma ReleaseTraffic(g: Grid, t: TaskId, gate: bool)
    ensures SameTraffic(g, ReleaseReady(g, t, gate), t)
  {
    if t in g.tasks {
      WriteTraffic(g, t, SetStatus(g.tasks[t], Queued, false), false);
      WriteTraffic(g, t, SetStatus(g.tasks[t], if gate then AwaitingApproval else Queued, false), false);
    }
  }

  lemma SweepDeadTraffic(g: Grid, t: TaskId, w: WorkerId)
    ensures SameTraffic(g, SweepDeadWorker(g, t, w), t)
  {
    if t in g.tasks { WriteTraffic(g, t, Recovered(g.tasks[t].(worker := None)), true); }
  }

  lemma SweepLeaseTraffic(g: Grid, t: TaskId)
    ensures SameTraffic(g, SweepLease(g, t), t)
  {
    if In(g, t, Processing) {
      var row := SetStatus(g.tasks[t].(worker := None), LeaseExpired, true);
      WriteTraffic(g, t, row, true);
      WriteTraffic(Write(g, t, row, true), t, Recovered(row), true);
    }
  }

  lemma QueueTimeoutTraffic(g: Grid, t: TaskId)
    ensures SameTraffic(g, QueueTimeout(g, t), t)
  {
    if t in g.tasks { WriteTraffic(g, t, SetStatus(g.tasks[t], Failed, true), true); }
  }

  /** Results, operators and loops leave offers and bundles alone. */
  lemma OtherTraffic(g: Grid, s: Step)
    requires !Dispatches(s)
    ensures SameTraffic(g, Apply(g, s), s.t)
  {
    if s.DoAddTask? || s.DoDelete? {
      ExistenceTraffic(g, s);
    } else {
      match s
      case DoSubmit(t, outcome) => SubmitTraffic(g, t, outcome);
      case DoRequeue(t) => RequeueTraffic(g, t);
      case DoCancel(t) => CancelTraffic(g, t);
      case DoDisrupt(t) => DisruptTraffic(g, t);
      case DoApprove(t) => QueueTraffic(g, t);
      case DoResume(t) => ResumeTraffic(g, t);
      case DoRelease(t, gate) => ReleaseTraffic(g, t, gate);
      case DoRetryElapsed(t) => QueueTraffic(g, t);
      case DoSweepDead(t, w) => SweepDeadTraffic(g, t, w);
      case DoSweepLease(t) => SweepLeaseTraffic(g, t);
      case DoQueueTimeout(t) => QueueTimeoutTraffic(g, t);
    }
  }

  lemma AnswerOffer(g: Grid, s: Step, t: TaskId)
    requires s.DoAcceptPop? || s.DoDecline? || s.DoExpire? || s.DoBuildBundle?
    ensures OfferOf(Apply(g, s), t) == OfferAfter(g, s, t)
  {
  }

  /** Every step, every task: which offer of it is out. */
  lemma OfferAfterStep(g: Grid, s: Step, t: TaskId)
    ensures OfferOf(Apply(g, s), t) == OfferAfter(g, s, t)
  {
    if s.DoPopTask? {
      PopTaskOffer(g, s.w, s.consent, s.pick, t);
    } else if s.DoAcceptFinish? {
      AcceptFinishOffer(g, s.r, t);
    } else if Dispatches(s) {
      AnswerOffer(g, s, t);
    } else {
      OtherTraffic(g, s);
    }
  }

  // ---- strikes, accepts under way, bundles, and the disrupted set ----

  /** A refusal: `w` declined an offer of the task, or let its own expire. */
  predicate StrikesOut(g: Grid, s: Step, t: TaskId, w: WorkerId) {
    OfferOf(g, t).Some? && (s == DoDecline(t, w) || (s == DoExpire(t) && Asked(g, t, w)))
  }

  lemma KeepsStrikes(g: Grid, s: Step)
    requires s.DoPopTask? || s.DoAcceptPop? || s.DoBuildBundle?
    ensures Apply(g, s).strikes == g.strikes
  {
  }

  lemma AcceptKeepsStrikes(g: Grid, r: nat)
    ensures AcceptFinish(g, r).strikes == g.strikes
  {
  }

  lemma RefusalStrikes(g: Grid, s: Step, t: TaskId, w: WorkerId)
    requires s.DoDecline? || s.DoExpire?
    ensures StrikesOf(Apply(g, s).strikes, t, w) ==
            StrikesOf(g.strikes, t, w) + if StrikesOut(g, s, t, w) then 1 else 0
  {
  }

  lemma DispatchStrikeAfter(g: Grid, s: Step, t: TaskId, w: WorkerId)
    requires Dispatches(s)
    ensures StrikesOf(Apply(g, s).strikes, t, w) ==
            StrikesOf(g.strikes, t, w) + if StrikesOut(g, s, t, w) then 1 else 0
  {
    if s.DoDecline? || s.DoExpire? {
      RefusalStrikes(g, s, t, w);
    } else if s.DoAcceptFinish? {
      AcceptKeepsStrikes(g, s.r);
    } else {
      KeepsStrikes(g, s);
    }
  }

  lemma AfterDispatch(g: Grid, s: Step, t: TaskId)
    requires Dispatches(s)
    ensures After(g, s, t) == RowStatus(g, t) || After(g, s, t) == Some(Processing) || After(g, s, t) == Some(FatalError)
  {
  }

  lemma AfterElsewhere(g: Grid, s: Step, t: TaskId)
    requires !Dispatches(s) && t != s.t
    ensures After(g, s, t) == RowStatus(g, t)
  {
  }

  lemma EndedOnlyBy(g: Grid, h: Grid, t: TaskId, status: Option<Status>)
    requires RowStatus(h, t) == status
    requires status == RowStatus(g, t) || status == Some(Processing) || status == Some(FatalError)
    ensures !Ended(g, h, t)
  {
  }

  lemma DispatchEndsNothing(g: Grid, s: Step, t: TaskId)
    requires Dispatches(s)
    ensures !Ended(g, Apply(g, s), t)
  {
    StatusAfter(g, s, t);
    AfterDispatch(g, s, t);
    EndedOnlyBy(g, Apply(g, s), t, After(g, s, t));
  }

  lemma OthersElsewhere(g: Grid, s: Step, t: TaskId)
    requires !Dispatches(s) && t != s.t
    ensures RowStatus(Apply(g, s), t) == RowStatus(g, t)
  {
    StatusAfter(g, s, t);
    AfterElsewhere(g, s, t);
  }

  lemma OtherStrikeAfter(g: Grid, h: Grid, u: TaskId, t: TaskId, w: WorkerId)
    requires SameTraffic(g, h, u) && (t != u ==> RowStatus(h, t) == RowStatus(g, t))
    ensures StrikesOf(h.strikes, t, w) == if Ended(g, h, t) then 0 else StrikesOf(g.strikes, t, w)
  {
  }

  /** Every step: a strike more exactly for a refusal, and none left exactly when the task ends. */
  lemma StrikesAfter(g: Grid, s: Step, t: TaskId, w: WorkerId)
    ensures StrikesOf(Apply(g, s).strikes, t, w) ==
            if Ended(g, Apply(g, s), t) then 0
            else StrikesOf(g.strikes, t, w) + if StrikesOut(g, s, t, w) then 1 else 0
  {
    if Dispatches(s) {
      DispatchStrikeAfter(g, s, t, w);
      DispatchEndsNothing(g, s, t);
    } else {
      OtherTraffic(g, s);
      if t != s.t { OthersElsewhere(g, s, t); }
      OtherStrikeAfter(g, Apply(g, s), s.t, t, w);
    }
  }

  lemma PopAccepts(g: Grid, w: WorkerId, consent: bool, pick: Option<TaskId>)
    ensures PopTask(g, w, consent, pick).accepts == g.accepts
  {
  }

  lemma OtherAccepts(g: Grid, s: Step)
    requires s.DoDecline? || s.DoExpire? || s.DoBuildBundle?
    ensures Apply(g, s).accepts == g.accepts
  {
  }

  lemma FinishAccepts(g: Grid, r: nat)
    ensures AcceptFinish(g, r).accepts == g.accepts - {r}
  {
  }

  lemma AcceptsAfter(g: Grid, s: Step)
    ensures Apply(g, s).accepts ==
            if s.DoAcceptPop? && OfferOf(g, s.t).Some? then
              g.accepts[g.nextAccept := Accept(s.t, OfferOf(g, s.t).value, s.w)]
            else if s.DoAcceptFinish? then g.accepts - {s.r}
            else g.accepts
  {
    if !Dispatches(s) {
      OtherTraffic(g, s);
    } else if s.DoPopTask? {
      PopAccepts(g, s.w, s.consent, s.pick);
    } else if s.DoAcceptFinish? {
      FinishAccepts(g, s.r);
    } else if !s.DoAcceptPop? {
      OtherAccepts(g, s);
    }
  }

  /** The task a step hands to a worker. */
  function HandedOut(g: Grid, s: Step): Option<TaskId> {
    var t := if s.DoPopTask? then s.pick
             else if s.DoAcceptFinish? && s.r in g.accepts then Some(g.accepts[s.r].task)
             else None;
    if t.Some? && Receives(g, s, t.value).Some? then t else None
  }

  lemma PopBundles(g: Grid, w: WorkerId, consent: bool, t: TaskId)
    ensures PopTask(g, w, consent, Some(t)).bundles ==
            if !consent && Eligible(g, t, w) then g.bundles[g.nextBundle := Bundle(t, w, g.tasks[t].intact)] else g.bundles
  {
  }

  lemma AcceptBundles(g: Grid, r: nat)
    requires r in g.accepts
    ensures var a := g.accepts[r];
            AcceptFinish(g, r).bundles ==
            if a.offer.worker == a.who && In(g, a.task, Queued) then
              g.bundles[g.nextBundle := Bundle(a.task, a.who, g.tasks[a.task].intact)]
            else g.bundles
  {
  }

  lemma DispatchBundles(g: Grid, s: Step)
    requires s.DoAcceptPop? || s.DoDecline? || s.DoExpire?
    ensures Apply(g, s).bundles == g.bundles
  {
  }

  /** A bundle begins exactly when a task is handed out, captures the payload as it is then, and ends when
      it is built. */
  lemma BundlesAfter(g: Grid, s: Step)
    ensures Apply(g, s).bundles ==
            if s.DoBuildBundle? then g.bundles - {s.b}
            else if HandedOut(g, s).Some? then
              var t := HandedOut(g, s).value;
              g.bundles[g.nextBundle := Bundle(t, Receives(g, s, t).value, g.tasks[t].intact)]
            else g.bundles
  {
    if !Dispatches(s) {
      OtherTraffic(g, s);
    } else if s.DoAcceptPop? || s.DoDecline? || s.DoExpire? {
      DispatchBundles(g, s);
    } else if s.DoPopTask? && s.pick.Some? {
      PopBundles(g, s.w, s.consent, s.pick.value);
    } else if s.DoAcceptFinish? && s.r in g.accepts {
      AcceptBundles(g, s.r);
    }
  }

  /** A bundle that was intact when it was captured is handed over, any other is withheld. */
  lemma BuildIsAnswered(g: Grid, b: nat)
    requires b in g.bundles
    ensures var u, h := g.bundles[b], BuildBundle(g, b);
            g.audit + [if u.intact then Released(b, u.task, u.worker) else Withheld(b)] <= h.audit
  {
  }

  lemma StopsSet(g: Grid, u: TaskId)
    ensures Cancel(g, u).disrupted == g.disrupted + if Stops(g, DoCancel(u), u) then {u} else {}
    ensures Disrupt(g, u).disrupted == g.disrupted + if Stops(g, DoDisrupt(u), u) then {u} else {}
  {
  }

  lemma ClearsSet(g: Grid, u: TaskId)
    ensures Requeue(g, u).disrupted == g.disrupted - if u in g.tasks then {u} else {}
    ensures Delete(g, u).disrupted == g.disrupted - if Deletes(g, DoDelete(u), u) then {u} else {}
  {
  }

  lemma OthersKeepSet(g: Grid, s: Step)
    requires !s.DoCancel? && !s.DoDisrupt? && !s.DoRequeue? && !s.DoDelete?
    ensures Apply(g, s).disrupted == g.disrupted
  {
  }

  /** A task enters the disrupted set exactly when it is stopped, and leaves it by a requeue or a deletion. */
  lemma DisruptedAfter(g: Grid, s: Step, t: TaskId)
    ensures t in Apply(g, s).disrupted <==>
            || Stops(g, s, t)
            || (t in g.disrupted && !(s == DoRequeue(t) && t in g.tasks) && !Deletes(g, s, t))
  {
    if s.DoCancel? || s.DoDisrupt? {
      StopsSet(g, s.t);
    } else if s.DoRequeue? || s.DoDelete? {
      ClearsSet(g, s.t);
    } else {
      OthersKeepSet(g, s);
    }
  }

  // ---- endings ----

  predicate Ends(g: Grid, s: Step, t: TaskId) {
    Succeeds(g, s, t) || Fails(g, s, t) || Stops(g, s, t)
  }

  lemma AfterEnds(g: Grid, s: Step, t: TaskId)
    ensures Ends(g, s, t) <==>
            After(g, s, t).Some? && Terminal(After(g, s, t).value) && After(g, s, t) != RowStatus(g, t)
  {
  }

  /** A step ends a task exactly when it completes, fails or stops it. */
  lemma EndedIff(g: Grid, s: Step, t: TaskId)
    ensures Ended(g, Apply(g, s), t) <==> Ends(g, s, t)
  {
    StatusAfter(g, s, t);
    AfterEnds(g, s, t);
  }
}
