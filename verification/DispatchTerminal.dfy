/** Terminal tasks and the disrupted set over every run. */
module DispatchTerminal {
  import opened Wrappers
  import opened Lifecycle
  import opened Dispatch
  import opened DispatchLog
  import opened DispatchSafety
  import opened DispatchEffects
  import opened DispatchTheorems

  // ---- terminal tasks ----

  /** Whether a step is an operator's request to revive or remove the task. */
  predicate Revives(s: Step, t: TaskId) {
    (s.DoRequeue? || s.DoResume? || s.DoDelete?) && s.t == t
  }

  /** A bundle of the task is still being built from a payload that will fail its check. */
  ghost predicate TamperedInFlight(g: Grid, t: TaskId) {
    exists b :: b in g.bundles && g.bundles[b].task == t && !g.bundles[b].intact
  }

  ghost function Assignments(log: Log, t: TaskId): nat {
    if log == [] then 0
    else Assignments(log[..|log| - 1], t) + if AssignsTask(log[|log| - 1], t) then 1 else 0
  }

  lemma AssignmentsSnoc(log: Log, e: Event)
    ensures forall t :: Assignments(log + [e], t) == Assignments(log, t) + if AssignsTask(e, t) then 1 else 0
  {
    Snoc(log, e);
  }

  ghost predicate Settled(g: Grid, t: TaskId) {
    t in g.tasks && Terminal(g.tasks[t].status) && !TamperedInFlight(g, t)
  }

  /** Nothing about a settled task has changed from `g` to `h`. */
  ghost predicate Untouched(g: Grid, h: Grid, t: TaskId) {
    && Settled(h, t) && t in g.tasks && h.tasks[t] == g.tasks[t]
    && Assignments(h.audit, t) == Assignments(g.audit, t)
  }

  /** A step that logs one event and leaves this row and the bundles of this task alone. */
  lemma OneEvent(g: Grid, h: Grid, e: Event, t: TaskId)
    requires Settled(g, t) && !AssignsTask(e, t)
    requires t in h.tasks && h.tasks[t] == g.tasks[t] && h.audit == g.audit + [e]
    requires forall b :: b in h.bundles && h.bundles[b].task == t ==> b in g.bundles && h.bundles[b] == g.bundles[b]
    ensures Untouched(g, h, t)
  {
    AssignmentsSnoc(g.audit, e);
  }

  lemma WriteElsewhere(g: Grid, u: TaskId, row: Task, forced: bool, t: TaskId)
    requires Settled(g, t) && u in g.tasks && u != t
    ensures Untouched(g, Write(g, u, row, forced), t)
  {
    if row.status != g.tasks[u].status {
      OneEvent(g, Write(g, u, row, forced), Moved(u, g.tasks[u].status, row.status, forced), t);
    }
  }

  lemma CloseUntouched(g: Grid, u: TaskId, how: Closing, t: TaskId)
    requires Settled(g, t) && u in g.offers
    ensures Untouched(g, CloseOffer(g, u, how), t)
  {
    OneEvent(g, CloseOffer(g, u, how), Closed(g.offers[u].id, u, g.offers[u].worker, how), t);
  }

  lemma AssignUntouched(g: Grid, u: TaskId, w: WorkerId, via: Option<nat>, t: TaskId)
    requires Settled(g, t) && u in g.tasks && u != t
    ensures Untouched(g, Assign(g, u, w, via), t)
  {
    OneEvent(g, Assign(g, u, w, via), Assigned(u, w, via, g.nextBundle), t);
  }

  lemma IssueUntouched(g: Grid, u: TaskId, w: WorkerId, t: TaskId)
    requires Settled(g, t)
    ensures Untouched(g, IssueOffer(g, u, w), t)
  {
    OneEvent(g, IssueOffer(g, u, w), Offered(g.nextOffer, u, w), t);
  }

  lemma PopTaskUntouched(g: Grid, w: WorkerId, consent: bool, pick: Option<TaskId>, t: TaskId)
    requires Settled(g, t)
    ensures Untouched(g, PopTask(g, w, consent, pick), t)
  {
    if pick.Some? && Candidate(g, pick.value, w) {
      var u := pick.value;
      var k := if u in g.offers then CloseOffer(g, u, Superseded) else g;
      if u in g.offers { CloseUntouched(g, u, Superseded, t); }
      if consent { IssueUntouched(k, u, w, t); } else { AssignUntouched(k, u, w, None, t); }
    }
  }

  lemma AcceptFinishUntouched(g: Grid, r: nat, t: TaskId)
    requires Settled(g, t)
    ensures Untouched(g, AcceptFinish(g, r), t)
  {
    if r in g.accepts {
      var a := g.accepts[r];
      var h := g.(accepts := g.accepts - {r});
      assert Settled(h, t);
      if a.offer.worker != a.who {
        var k := if a.task in h.offers then CloseOffer(h, a.task, Overwritten) else h;
        if a.task in h.offers { CloseUntouched(h, a.task, Overwritten, t); }
        OneEvent(k, Reinsert(h, a), Reinserted(a.offer.id, a.task, a.offer.worker), t);
      } else if a.task in h.tasks && h.tasks[a.task].status == Queued {
        AssignUntouched(h, a.task, a.who, Some(a.offer.id), t);
      } else {
        OneEvent(h, AcceptFinish(g, r), Closed(a.offer.id, a.task, a.offer.worker, Lapsed), t);
      }
    }
  }

  lemma FinishBundleUntouched(g: Grid, b: nat, e: Event, t: TaskId)
    requires Settled(g, t) && b in g.bundles && !e.Assigned?
    ensures Untouched(g, g.(bundles := g.bundles - {b}, audit := g.audit + [e]), t)
  {
    OneEvent(g, g.(bundles := g.bundles - {b}, audit := g.audit + [e]), e, t);
  }

  lemma BlockUntouched(g: Grid, u: TaskId, t: TaskId)
    requires Settled(g, t) && u in g.tasks && u != t
    ensures Untouched(g, g.(tasks := g.tasks[u := g.tasks[u].(status := FatalError)], audit := g.audit + [Blocked(u)]), t)
  {
    OneEvent(g, g.(tasks := g.tasks[u := g.tasks[u].(status := FatalError)], audit := g.audit + [Blocked(u)]), Blocked(u), t);
  }

  lemma BuildBundleUntouched(g: Grid, b: nat, t: TaskId)
    requires Settled(g, t)
    ensures Untouched(g, BuildBundle(g, b), t)
  {
    if b in g.bundles {
      var u := g.bundles[b];
      if u.intact {
        FinishBundleUntouched(g, b, Released(b, u.task, u.worker), t);
      } else {
        assert u.task != t;
        FinishBundleUntouched(g, b, Withheld(b), t);
        if u.task in g.tasks {
          BlockUntouched(g.(bundles := g.bundles - {b}, audit := g.audit + [Withheld(b)]), u.task, t);
        }
      }
    }
  }

  lemma OfferUntouched(g: Grid, s: Step, t: TaskId)
    requires Settled(g, t) && (s.DoDecline? || s.DoExpire? || s.DoAcceptPop?)
    ensures Untouched(g, Apply(g, s), t)
  {
    if s.t in g.offers {
      var o := g.offers[s.t];
      match s
      case DoAcceptPop(u, w) => OneEvent(g, AcceptPop(g, u, w), Popped(o.id, w), t);
      case DoDecline(u, w) => OneEvent(g, DeclineOffer(g, u, w), Closed(o.id, u, o.worker, Declined(w)), t);
      case DoExpire(u) => OneEvent(g, ExpireOffer(g, u), Closed(o.id, u, o.worker, Expired), t);
    }
  }

  lemma ExistenceUntouched(g: Grid, s: Step, t: TaskId)
    requires Settled(g, t) && (s.DoAddTask? || (s.DoDelete? && s.t != t))
    ensures Untouched(g, Apply(g, s), t)
  {
    var h := Apply(g, s);
    if h != g { OneEvent(g, h, h.audit[|g.audit|], t); }
  }

  lemma SubmitUntouched(g: Grid, u: TaskId, outcome: Outcome, t: TaskId)
    requires Settled(g, t)
    ensures Untouched(g, SubmitResult(g, u, outcome), t)
  {
    if u in g.tasks && u != t {
      var row := Received(g.tasks[u], outcome);
      WriteElsewhere(g, u, DropIdleWorker(Dispatch.Concluded(row, outcome)), RetryForced(row, outcome), t);
    }
  }

  lemma OperatorUntouched(g: Grid, s: Step, t: TaskId)
    requires Settled(g, t) && (s.DoRequeue? || s.DoCancel? || s.DoDisrupt?) && !Revives(s, t)
    ensures Untouched(g, Apply(g, s), t)
  {
    if s.t in g.tasks && s.t != t {
      WriteElsewhere(g, s.t, SetStatus(g.tasks[s.t], if s.DoRequeue? then Queued else Disrupted, true).(worker := None), true, t);
    }
  }

  lemma ResumeUntouched(g: Grid, u: TaskId, t: TaskId)
    requires Settled(g, t) && u != t
    ensures Untouched(g, Resume(g, u), t)
  {
    if u in g.tasks && Resumable(g.tasks[u].status) {
      if DepsDone(g, g.tasks[u]) {
        WriteElsewhere(g, u, SetStatus(g.tasks[u], Queued, true).(worker := None), true, t);
      } else {
        WriteElsewhere(g, u, SetStatus(g.tasks[u], Waiting, true), true, t);
      }
    }
  }

  lemma ReadyUntouched(g: Grid, u: TaskId, gate: bool, t: TaskId)
    requires Settled(g, t)
    ensures Untouched(g, ReleaseReady(g, u, gate), t)
  {
    if u in g.tasks && u != t {
      var row := g.tasks[u];
      WriteElsewhere(g, u, SetStatus(row, Queued, false), false, t);
      WriteElsewhere(g, u, SetStatus(row, if gate then AwaitingApproval else Queued, false), false, t);
    }
  }

  lemma ReleaseUntouched(g: Grid, s: Step, t: TaskId)
    requires Settled(g, t) && (s.DoApprove? || s.DoResume? || s.DoRelease?) && !Revives(s, t)
    ensures Untouched(g, Apply(g, s), t)
  {
    match s
    case DoApprove(u) =>
      if u in g.tasks && u != t { WriteElsewhere(g, u, SetStatus(g.tasks[u], Queued, false), false, t); }
    case DoResume(u) => ResumeUntouched(g, u, t);
    case DoRelease(u, gate) => ReadyUntouched(g, u, gate, t);
  }

  lemma RetryElapsedUntouched(g: Grid, u: TaskId, t: TaskId)
    requires Settled(g, t)
    ensures Untouched(g, RetryElapsed(g, u), t)
  {
    if u in g.tasks && u != t { WriteElsewhere(g, u, SetStatus(g.tasks[u], Queued, false), false, t); }
  }

  lemma QueueTimeoutUntouched(g: Grid, u: TaskId, t: TaskId)
    requires Settled(g, t)
    ensures Untouched(g, QueueTimeout(g, u), t)
  {
    if u in g.tasks && u != t { WriteElsewhere(g, u, SetStatus(g.tasks[u], Failed, true), true, t); }
  }

  lemma SweepDeadUntouched(g: Grid, u: TaskId, w: WorkerId, t: TaskId)
    requires Settled(g, t)
    ensures Untouched(g, SweepDeadWorker(g, u, w), t)
  {
    if u in g.tasks && u != t { WriteElsewhere(g, u, Recovered(g.tasks[u].(worker := None)), true, t); }
  }

  lemma SweepLeaseUntouched(g: Grid, u: TaskId, t: TaskId)
    requires Settled(g, t)
    ensures Untouched(g, SweepLease(g, u), t)
  {
    if u in g.tasks && u != t && g.tasks[u].status == Processing {
      var row := SetStatus(g.tasks[u].(worker := None), LeaseExpired, true);
      WriteElsewhere(g, u, row, true, t);
      WriteElsewhere(Write(g, u, row, true), u, Recovered(row), true, t);
    }
  }

  lemma StepUntouched(g: Grid, s: Step, t: TaskId)
    requires Settled(g, t) && !Revives(s, t)
    ensures Untouched(g, Apply(g, s), t)
  {
    if s.DoDecline? || s.DoExpire? || s.DoAcceptPop? {
      OfferUntouched(g, s, t);
    } else if s.DoRequeue? || s.DoCancel? || s.DoDisrupt? {
      OperatorUntouched(g, s, t);
    } else if s.DoApprove? || s.DoResume? || s.DoRelease? {
      ReleaseUntouched(g, s, t);
    } else if s.DoAddTask? || s.DoDelete? {
      ExistenceUntouched(g, s, t);
    } else {
      match s
      case DoPopTask(w, consent, pick) => PopTaskUntouched(g, w, consent, pick, t);
      case DoAcceptFinish(r) => AcceptFinishUntouched(g, r, t);
      case DoBuildBundle(b) => BuildBundleUntouched(g, b, t);
      case DoSubmit(u, outcome) => SubmitUntouched(g, u, outcome, t);
      case DoRetryElapsed(u) => RetryElapsedUntouched(g, u, t);
      case DoSweepDead(u, w) => SweepDeadUntouched(g, u, w, t);
      case DoQueueTimeout(u) => QueueTimeoutUntouched(g, u, t);
      case DoSweepLease(u) => SweepLeaseUntouched(g, u, t);
    }
  }

  predicate NeverRevives(steps: seq<Step>, t: TaskId) {
    forall s <- steps :: !Revives(s, t)
  }

  /** Terminal states absorb: until an operator revives or removes the task, its whole row stays
      and it is never assigned, whatever results, accepts and sweeps arrive. */
  lemma {:induction false} TerminalAbsorbs(g: Grid, steps: seq<Step>, t: TaskId)
    requires Settled(g, t) && NeverRevives(steps, t)
    ensures Untouched(g, Exec(g, steps), t)
  {
    if steps == [] {
    } else {
      var front := steps[..|steps| - 1];
      assert NeverRevives(front, t);
      TerminalAbsorbs(g, front, t);
      StepUntouched(Exec(g, front), steps[|steps| - 1], t);
    }
  }

  /** What it means for a terminal row to be safe from everything but an operator. */
  ghost predicate Absorbed(g: Grid, t: TaskId)
    requires t in g.tasks
  {
    forall steps :: NeverRevives(steps, t) ==> t in Exec(g, steps).tasks && Exec(g, steps).tasks[t] == g.tasks[t]
  }

  /** A terminal row is safe exactly when no tampered bundle of the task is still being built:
      that late check writes `fatal_error` over any status. */
  lemma AbsorbedIff(g: Grid, t: TaskId)
    requires t in g.tasks && Terminal(g.tasks[t].status)
    ensures Absorbed(g, t) <==> !TamperedInFlight(g, t)
  {
    if TamperedInFlight(g, t) {
      var b :| b in g.bundles && g.bundles[b].task == t && !g.bundles[b].intact;
      var steps := [DoBuildBundle(b)];
      ExecSnoc(g, [], DoBuildBundle(b));
      assert [] + steps == steps;
      assert Exec(g, steps).tasks[t].status == FatalError;
      assert NeverRevives(steps, t);
    } else {
      forall steps | NeverRevives(steps, t)
        ensures t in Exec(g, steps).tasks && Exec(g, steps).tasks[t] == g.tasks[t]
      {
        TerminalAbsorbs(g, steps, t);
      }
    }
  }

  // ---- the disrupted set ----

  /** The disrupted set holds existing tasks, all of them disrupted. */
  ghost predicate DisruptedOk(g: Grid) {
    forall t <- g.disrupted :: t in g.tasks && g.tasks[t].status == Disrupted
  }

  /** The two handlers that change a status and leave the set alone: a workflow resume, and the
      late check of a tampered bundle. */
  predicate StrandsTask(g: Grid, s: Step) {
    || (s.DoResume? && s.t in g.disrupted)
    || (s.DoBuildBundle? && s.b in g.bundles && !g.bundles[s.b].intact && g.bundles[s.b].task in g.disrupted)
  }

  lemma AfterInSet(g: Grid, s: Step, t: TaskId)
    requires In(g, t, Disrupted) && t in g.disrupted && s != DoRequeue(t) && !Deletes(g, s, t)
    ensures After(g, s, t) == Some(Disrupted) <==> s != DoResume(t) && !Blocks(g, s, t)
  {
  }

  lemma StepKeepsMember(g: Grid, s: Step, t: TaskId)
    requires DisruptedOk(g) && t in Apply(g, s).disrupted && s != DoResume(t) && !Blocks(g, s, t)
    ensures RowStatus(Apply(g, s), t) == Some(Disrupted)
  {
    DisruptedAfter(g, s, t);
    StatusAfter(g, s, t);
    if !Stops(g, s, t) { AfterInSet(g, s, t); }
  }

  lemma StepStrands(g: Grid, s: Step, t: TaskId)
    requires DisruptedOk(g) && t in g.disrupted && (s == DoResume(t) || Blocks(g, s, t))
    ensures t in Apply(g, s).disrupted && RowStatus(Apply(g, s), t) != Some(Disrupted)
  {
    DisruptedAfter(g, s, t);
    StatusAfter(g, s, t);
    AfterInSet(g, s, t);
  }

  /** A step keeps the meaning of the disrupted set exactly when it strands no task. */
  lemma DisruptedStepIff(g: Grid, s: Step)
    requires DisruptedOk(g)
    ensures DisruptedOk(Apply(g, s)) <==> !StrandsTask(g, s)
  {
    if StrandsTask(g, s) {
      var t := if s.DoResume? then s.t else g.bundles[s.b].task;
      StepStrands(g, s, t);
    } else {
      forall t | t in Apply(g, s).disrupted
        ensures RowStatus(Apply(g, s), t) == Some(Disrupted)
      {
        StepKeepsMember(g, s, t);
      }
    }
  }
}
