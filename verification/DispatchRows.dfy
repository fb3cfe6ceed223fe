/** What stays true of the task rows themselves over every run: who holds a task. */
module DispatchRows {
  import opened Wrappers
  import opened Lifecycle
  import opened Dispatch
  import opened DispatchLog
  import opened DispatchTheorems

  // ---- workers ----

  /** A processing task is held by the worker it was last assigned to; no other row but a
      blocked one has a worker; and four registered states are never seen at rest. */
  ghost predicate RowOk(row: Task, last: Option<WorkerId>) {
    && (row.status == Processing ==> row.worker.Some? && row.worker == last)
    && (row.worker.Some? ==> row.status == Processing || row.status == FatalError)
    && !row.status.Serving? && !row.status.Preempted? && !row.status.Cancelled? && !row.status.LeaseExpired?
    && row.retryCount <= row.retryMax
  }

  ghost predicate RowsOk(g: Grid) {
    forall t <- g.tasks :: RowOk(g.tasks[t], LastAssignee(g.audit, t))
  }

  lemma LastAssigneeSnoc(log: Log, e: Event)
    ensures forall t :: LastAssignee(log + [e], t) ==
                        if AssignsTask(e, t) then Some(e.worker) else LastAssignee(log, t)
  {
    Snoc(log, e);
  }

  /** Log entries that assign nothing leave every row as good as it was. */
  lemma QuietRows(g: Grid, h: Grid, e: Event)
    requires RowsOk(g) && !e.Assigned?
    requires h.audit == g.audit + [e]
    requires forall t <- h.tasks :: t in g.tasks && h.tasks[t] == g.tasks[t]
    ensures RowsOk(h)
  {
    LastAssigneeSnoc(g.audit, e);
  }

  ghost predicate OthersOk(g: Grid, t: TaskId) {
    forall u <- g.tasks :: u != t ==> RowOk(g.tasks[u], LastAssignee(g.audit, u))
  }

  lemma WriteOthers(g: Grid, t: TaskId, row: Task, forced: bool)
    requires OthersOk(g, t) && t in g.tasks
    ensures OthersOk(Write(g, t, row, forced), t)
    ensures LastAssignee(Write(g, t, row, forced).audit, t) == LastAssignee(g.audit, t)
  {
    LastAssigneeSnoc(g.audit, Moved(t, g.tasks[t].status, row.status, forced));
  }

  lemma WriteRows(g: Grid, t: TaskId, row: Task, forced: bool)
    requires OthersOk(g, t) && t in g.tasks && RowOk(row, LastAssignee(g.audit, t))
    ensures RowsOk(Write(g, t, row, forced))
  {
    WriteOthers(g, t, row, forced);
  }

  lemma AssignRows(g: Grid, t: TaskId, w: WorkerId, via: Option<nat>)
    requires RowsOk(g) && t in g.tasks
    ensures RowsOk(Assign(g, t, w, via))
  {
    LastAssigneeSnoc(g.audit, Assigned(t, w, via, g.nextBundle));
  }

  lemma CloseRows(g: Grid, t: TaskId, how: Closing)
    requires RowsOk(g) && t in g.offers
    ensures RowsOk(CloseOffer(g, t, how))
  {
    QuietRows(g, CloseOffer(g, t, how), Closed(g.offers[t].id, t, g.offers[t].worker, how));
  }

  lemma PopTaskRows(g: Grid, w: WorkerId, consent: bool, pick: Option<TaskId>)
    requires RowsOk(g)
    ensures RowsOk(PopTask(g, w, consent, pick))
  {
    if pick.Some? && Candidate(g, pick.value, w) {
      var t := pick.value;
      var h := if t in g.offers then CloseOffer(g, t, Superseded) else g;
      if t in g.offers { CloseRows(g, t, Superseded); }
      if consent {
        QuietRows(h, IssueOffer(h, t, w), Offered(h.nextOffer, t, w));
      } else {
        AssignRows(h, t, w, None);
      }
    }
  }

  lemma AcceptFinishRows(g: Grid, r: nat)
    requires RowsOk(g)
    ensures RowsOk(AcceptFinish(g, r))
  {
    if r in g.accepts {
      var a := g.accepts[r];
      var h := g.(accepts := g.accepts - {r});
      if a.offer.worker != a.who {
        var k := if a.task in h.offers then CloseOffer(h, a.task, Overwritten) else h;
        if a.task in h.offers { CloseRows(h, a.task, Overwritten); }
        QuietRows(k, Reinsert(h, a), Reinserted(a.offer.id, a.task, a.offer.worker));
      } else if a.task in h.tasks && h.tasks[a.task].status == Queued {
        AssignRows(h, a.task, a.who, Some(a.offer.id));
      } else {
        QuietRows(h, AcceptFinish(g, r), Closed(a.offer.id, a.task, a.offer.worker, Lapsed));
      }
    }
  }

  lemma BuildBundleRows(g: Grid, b: nat)
    requires RowsOk(g)
    ensures RowsOk(BuildBundle(g, b))
  {
    if b in g.bundles {
      var u := g.bundles[b];
      var h := g.(bundles := g.bundles - {b});
      if u.intact {
        QuietRows(h, BuildBundle(g, b), Released(b, u.task, u.worker));
      } else {
        var k := h.(audit := h.audit + [Withheld(b)]);
        QuietRows(h, k, Withheld(b));
        if u.task in k.tasks { LastAssigneeSnoc(k.audit, Blocked(u.task)); }
      }
    }
  }

  lemma OfferRows(g: Grid, s: Step)
    requires RowsOk(g) && (s.DoDecline? || s.DoExpire? || s.DoAcceptPop?)
    ensures RowsOk(Apply(g, s))
  {
    if s.t in g.offers {
      match s
      case DoAcceptPop(t, w) => QuietRows(g, AcceptPop(g, t, w), Popped(g.offers[t].id, w));
      case DoDecline(t, w) => CloseRows(g, t, Declined(w));
      case DoExpire(t) => CloseRows(g, t, Expired);
    }
  }

  lemma ExistenceRows(g: Grid, s: Step)
    requires RowsOk(g) && (s.DoAddTask? || s.DoDelete?)
    ensures RowsOk(Apply(g, s))
  {
    var h := Apply(g, s);
    if h != g {
      LastAssigneeSnoc(g.audit, h.audit[|g.audit|]);
    }
  }

  lemma SubmitRows(g: Grid, t: TaskId, outcome: Outcome)
    requires RowsOk(g)
    ensures RowsOk(SubmitResult(g, t, outcome))
  {
    if t in g.tasks && t !in g.disrupted && !Terminal(g.tasks[t].status) {
      var row := Received(g.tasks[t], outcome);
      WriteRows(g, t, DropIdleWorker(Concluded(row, outcome)), RetryForced(row, outcome));
    }
  }

  lemma RequeueRows(g: Grid, t: TaskId)
    requires RowsOk(g)
    ensures RowsOk(Requeue(g, t))
  {
    if t in g.tasks { WriteRows(g, t, SetStatus(g.tasks[t], Queued, true).(worker := None), true); }
  }

  lemma ApproveRows(g: Grid, t: TaskId)
    requires RowsOk(g)
    ensures RowsOk(Approve(g, t))
  {
    if t in g.tasks && g.tasks[t].status == AwaitingApproval {
      WriteRows(g, t, SetStatus(g.tasks[t], Queued, false), false);
    }
  }

  lemma StopRows(g: Grid, t: TaskId)
    requires RowsOk(g)
    ensures RowsOk(Cancel(g, t)) && RowsOk(Disrupt(g, t))
  {
    if t in g.tasks { WriteRows(g, t, SetStatus(g.tasks[t], Disrupted, true).(worker := None), true); }
  }

  lemma ResumeRows(g: Grid, t: TaskId)
    requires RowsOk(g)
    ensures RowsOk(Resume(g, t))
  {
    if t in g.tasks && Resumable(g.tasks[t].status) {
      if DepsDone(g, g.tasks[t]) {
        WriteRows(g, t, SetStatus(g.tasks[t], Queued, true).(worker := None), true);
      } else {
        WriteRows(g, t, SetStatus(g.tasks[t], Waiting, true), true);
      }
    }
  }

  lemma ReleaseRows(g: Grid, t: TaskId, gate: bool)
    requires RowsOk(g)
    ensures RowsOk(ReleaseReady(g, t, gate))
  {
    if t in g.tasks && g.tasks[t].status == Waiting {
      if g.tasks[t].deps == [] {
        WriteRows(g, t, SetStatus(g.tasks[t], Queued, false), false);
      } else {
        WriteRows(g, t, SetStatus(g.tasks[t], if gate then AwaitingApproval else Queued, false), false);
      }
    }
  }

  /** The lease sweep passes through `lease_expired` without leaving it at rest. */
  lemma SweepLeaseRows(g: Grid, t: TaskId)
    requires RowsOk(g)
    ensures RowsOk(SweepLease(g, t))
  {
    if t in g.tasks && g.tasks[t].status == Processing {
      var row := g.tasks[t].(worker := None, status := LeaseExpired);
      WriteOthers(g, t, row, true);
      WriteRows(Write(g, t, row, true), t, Recovered(row), true);
    }
  }

  lemma RetryElapsedRows(g: Grid, t: TaskId)
    requires RowsOk(g)
    ensures RowsOk(RetryElapsed(g, t))
  {
    if t in g.tasks && g.tasks[t].status == Retrying {
      WriteRows(g, t, SetStatus(g.tasks[t], Queued, false), false);
    }
  }

  lemma SweepDeadRows(g: Grid, t: TaskId, w: WorkerId)
    requires RowsOk(g)
    ensures RowsOk(SweepDeadWorker(g, t, w))
  {
    if t in g.tasks && g.tasks[t].status == Processing {
      WriteRows(g, t, Recovered(g.tasks[t].(worker := None)), true);
    }
  }

  lemma QueueTimeoutRows(g: Grid, t: TaskId)
    requires RowsOk(g)
    ensures RowsOk(QueueTimeout(g, t))
  {
    if t in g.tasks && g.tasks[t].status == Queued {
      WriteRows(g, t, SetStatus(g.tasks[t], Failed, true), true);
    }
  }

  lemma ApplyRows(g: Grid, s: Step)
    requires RowsOk(g)
    ensures RowsOk(Apply(g, s))
  {
    if s.DoDecline? || s.DoExpire? || s.DoAcceptPop? {
      OfferRows(g, s);
    } else if s.DoAddTask? || s.DoDelete? {
      ExistenceRows(g, s);
    } else {
      match s
      case DoPopTask(w, consent, pick) => PopTaskRows(g, w, consent, pick);
      case DoAcceptFinish(r) => AcceptFinishRows(g, r);
      case DoBuildBundle(b) => BuildBundleRows(g, b);
      case DoSubmit(t, outcome) => SubmitRows(g, t, outcome);
      case DoRequeue(t) => RequeueRows(g, t);
      case DoApprove(t) => ApproveRows(g, t);
      case DoCancel(t) => StopRows(g, t);
      case DoDisrupt(t) => StopRows(g, t);
      case DoResume(t) => ResumeRows(g, t);
      case DoRelease(t, gate) => ReleaseRows(g, t, gate);
      case DoSweepLease(t) => SweepLeaseRows(g, t);
      case DoRetryElapsed(t) => RetryElapsedRows(g, t);
      case DoSweepDead(t, w) => SweepDeadRows(g, t, w);
      case DoQueueTimeout(t) => QueueTimeoutRows(g, t);
    }
  }

  lemma {:induction false} ExecRows(g: Grid, steps: seq<Step>)
    requires RowsOk(g)
    ensures RowsOk(Exec(g, steps))
  {
    if steps == [] {
    } else {
      ExecRows(g, steps[..|steps| - 1]);
      ApplyRows(Exec(g, steps[..|steps| - 1]), steps[|steps| - 1]);
    }
  }

  /** Worker and status correspond in every reachable grid. */
  lemma WorkerCorrespondence(setting: int, steps: seq<Step>, t: TaskId)
    requires t in Run(setting, steps).tasks
    ensures RowOk(Run(setting, steps).tasks[t], LastAssignee(Run(setting, steps).audit, t))
  {
    ExecRows(Start(setting), steps);
  }
}
