/** Dependencies come first: a task is queued only once everything it depends on has been completed,
    and which steps let a task jump that queue. */
module DispatchOrder {
  import opened Wrappers
  import opened Lifecycle
  import opened Dispatch
  import opened DispatchLog
  import opened DispatchSafety
  import opened DispatchTheorems
  import opened DispatchEffects
  import DispatchStrikes
  import Workflow
  import WorkflowNames
  import WorkflowGraph

  predicate Completes(e: Event, t: TaskId) {
    e.Moved? && e.task == t && e.to == Completed
  }

  /** The log has a completion of this task. */
  ghost predicate EverCompleted(log: Log, t: TaskId) {
    log != [] && (Completes(log[|log| - 1], t) || EverCompleted(log[..|log| - 1], t))
  }

  lemma EverCompletedSnoc(log: Log, e: Event, t: TaskId)
    ensures EverCompleted(log + [e], t) <==> EverCompleted(log, t) || Completes(e, t)
  {
    assert (log + [e])[..|log|] == log;
  }

  lemma {:induction false} CompletedWasMoved(log: Log, limit: int, t: TaskId)
    requires LegalLog(log, limit) && StatusIn(log, t) == Some(Completed)
    ensures EverCompleted(log, t)
  {
    if !Completes(log[|log| - 1], t) {
      CompletedWasMoved(log[..|log| - 1], limit, t);
    }
  }

  /** All these tasks have been completed at some time. */
  ghost predicate Cleared(log: Log, deps: seq<TaskId>) {
    forall d <- deps :: EverCompleted(log, d)
  }

  lemma ClearedSnoc(log: Log, e: Event, deps: seq<TaskId>)
    ensures Cleared(log, deps) ==> Cleared(log + [e], deps)
    ensures (e.Moved? ==> e.to != Completed) ==> (Cleared(log + [e], deps) <==> Cleared(log, deps))
  {
    forall d | d in deps
      ensures EverCompleted(log + [e], d) <==> EverCompleted(log, d) || Completes(e, d)
    {
      EverCompletedSnoc(log, e, d);
    }
  }

  lemma ClearedGrows(was: Log, now: Log, deps: seq<TaskId>)
    requires DispatchStrikes.Grows(was, now) && Cleared(was, deps)
    ensures Cleared(now, deps)
  {
    if e :| now == was + [e] && !DispatchStrikes.Supersedes(e) {
      ClearedSnoc(was, e, deps);
    } else if d, e :| DispatchStrikes.Opens(d, e) && now == was + [d] + [e] && !DispatchStrikes.Supersedes(e) {
      ClearedSnoc(was, d, deps);
      ClearedSnoc(was + [d], e, deps);
    }
  }

  /** The states of a task whose turn has come. */
  predicate Started(s: Status) {
    s.AwaitingApproval? || s.Queued? || s.Processing? || s.Serving? || s.Preempted? || s.LeaseExpired? || s.Retrying?
  }

  /** If the task's turn has come, everything it depends on has been completed. */
  ghost predicate InTurn(g: Grid, t: TaskId) {
    t in g.tasks && Started(g.tasks[t].status) ==> Cleared(g.audit, g.tasks[t].deps)
  }

  /** The steps that start a task before its turn: an operator queues it by hand, or a failing result
      arrives for a task that was never handed out, and a retry is scheduled for it. */
  ghost predicate Jumps(g: Grid, s: Step, t: TaskId) {
    && t in g.tasks && !Cleared(g.audit, g.tasks[t].deps)
    && (|| s == DoRequeue(t)
        || (&& s.DoSubmit? && s.t == t && !s.outcome.Success? && t !in g.disrupted
            && !Terminal(g.tasks[t].status) && CanRetry(g.tasks[t])))
  }

  // ---- steps that start nothing ----

  /** The task's row is new and waiting, gone, or as started as before. */
  predicate StartsNothing(g: Grid, h: Grid, t: TaskId) {
    t in h.tasks && Started(h.tasks[t].status) ==>
      && t in g.tasks && h.tasks[t].deps == g.tasks[t].deps && Started(g.tasks[t].status)
  }

  lemma StaysInTurn(g: Grid, h: Grid, t: TaskId)
    requires InTurn(g, t) && StartsNothing(g, h, t) && DispatchStrikes.Grows(g.audit, h.audit)
    ensures InTurn(h, t)
  {
    if t in h.tasks && Started(h.tasks[t].status) {
      ClearedGrows(g.audit, h.audit, h.tasks[t].deps);
    }
  }

  // ---- steps that may start a task ----

  lemma AddInTurn(g: Grid, u: TaskId, deps: seq<TaskId>, parent: string, retryMax: nat, t: TaskId)
    requires InTurn(g, t)
    ensures InTurn(AddTask(g, u, deps, parent, retryMax), t)
  {
    if u != t {
      DispatchStrikes.StepGrows(g, DoAddTask(u, deps, parent, retryMax));
      StaysInTurn(g, AddTask(g, u, deps, parent, retryMax), t);
    }
  }

  lemma DoneIsCleared(g: Grid, deps: seq<TaskId>)
    requires LegalLog(g.audit, g.limit) && StatusAgrees(g)
    requires forall d <- deps :: d in g.tasks && g.tasks[d].status == Completed
    ensures Cleared(g.audit, deps)
  {
    forall d | d in deps
      ensures EverCompleted(g.audit, d)
    {
      CompletedWasMoved(g.audit, g.limit, d);
    }
  }

  /** A write that starts a task whose dependencies are cleared, or starts nothing. */
  lemma WriteInTurnIff(g: Grid, u: TaskId, row: Task, forced: bool, t: TaskId)
    requires InTurn(g, t) && u in g.tasks && row.deps == g.tasks[u].deps
    ensures InTurn(Write(g, u, row, forced), t) <==>
            u != t || !Started(row.status) || row.status == g.tasks[u].status || Cleared(g.audit, row.deps)
  {
    var h := Write(g, u, row, forced);
    if u == t {
      if row.status != g.tasks[u].status { ClearedSnoc(g.audit, Moved(t, g.tasks[t].status, row.status, forced), row.deps); }
    } else {
      DispatchStrikes.WriteGrows(g, u, row, forced);
      StaysInTurn(g, h, t);
    }
  }

  lemma ReleaseInTurn(g: Grid, u: TaskId, gate: bool, t: TaskId)
    requires LegalLog(g.audit, g.limit) && StatusAgrees(g) && InTurn(g, t)
    ensures InTurn(ReleaseReady(g, u, gate), t)
  {
    if u in g.tasks && g.tasks[u].status == Waiting {
      var row := g.tasks[u];
      WriteInTurnIff(g, u, SetStatus(row, Queued, false), false, t);
      WriteInTurnIff(g, u, SetStatus(row, if gate then AwaitingApproval else Queued, false), false, t);
      if DepsMet(g, row) { DoneIsCleared(g, row.deps); }
    }
  }

  lemma ResumeInTurn(g: Grid, u: TaskId, t: TaskId)
    requires LegalLog(g.audit, g.limit) && StatusAgrees(g) && InTurn(g, t)
    ensures InTurn(Resume(g, u), t)
  {
    if u in g.tasks && Resumable(g.tasks[u].status) {
      var row := g.tasks[u];
      WriteInTurnIff(g, u, SetStatus(row, Queued, true).(worker := None), true, t);
      WriteInTurnIff(g, u, SetStatus(row, Waiting, true), true, t);
      if DepsDone(g, row) { DoneIsCleared(g, row.deps); }
    }
  }

  lemma RequeueInTurnIff(g: Grid, u: TaskId, t: TaskId)
    requires InTurn(g, t)
    ensures InTurn(Requeue(g, u), t) <==> !Jumps(g, DoRequeue(u), t)
  {
    if u in g.tasks {
      WriteInTurnIff(g, u, SetStatus(g.tasks[u], Queued, true).(worker := None), true, t);
    }
  }

  /** What a result does to the status of a task it is not ignored for. */
  lemma ConcludedStarts(row: Task, outcome: Outcome)
    requires !Terminal(row.status)
    ensures var done := DropIdleWorker(Concluded(Received(row, outcome), outcome));
            && done.deps == row.deps
            && (Started(done.status) && done.status != row.status ==> !outcome.Success? && CanRetry(row))
            && (!outcome.Success? && CanRetry(row) ==> done.status == Retrying)
  {
  }

  lemma SubmitInTurnIff(g: Grid, u: TaskId, outcome: Outcome, t: TaskId)
    requires InTurn(g, t)
    ensures InTurn(SubmitResult(g, u, outcome), t) <==> !Jumps(g, DoSubmit(u, outcome), t)
  {
    if u in g.tasks && u !in g.disrupted && !Terminal(g.tasks[u].status) {
      var row := Received(g.tasks[u], outcome);
      ConcludedStarts(g.tasks[u], outcome);
      WriteInTurnIff(g, u, DropIdleWorker(Concluded(row, outcome)), RetryForced(row, outcome), t);
    }
  }

  lemma AfterStartsNothing(g: Grid, s: Step, t: TaskId)
    requires !s.DoRequeue? && !s.DoSubmit? && !s.DoResume? && !s.DoRelease? && !s.DoAddTask?
    ensures After(g, s, t).Some? && Started(After(g, s, t).value) ==> t in g.tasks && Started(g.tasks[t].status)
  {
  }

  lemma StepStartsNothing(g: Grid, s: Step, t: TaskId)
    requires !s.DoRequeue? && !s.DoSubmit? && !s.DoResume? && !s.DoRelease? && !s.DoAddTask?
    ensures StartsNothing(g, Apply(g, s), t)
  {
    StatusAfter(g, s, t);
    AfterStartsNothing(g, s, t);
    RowFollows(g, s, t);
  }

  lemma OtherStepInTurn(g: Grid, s: Step, t: TaskId)
    requires InTurn(g, t)
    requires !s.DoRequeue? && !s.DoSubmit? && !s.DoResume? && !s.DoRelease? && !s.DoAddTask?
    ensures InTurn(Apply(g, s), t)
  {
    DispatchStrikes.StepGrows(g, s);
    StepStartsNothing(g, s, t);
    StaysInTurn(g, Apply(g, s), t);
  }

  /** A step keeps a task in turn exactly when it does not let it jump. */
  lemma StepInTurnIff(g: Grid, s: Step, t: TaskId)
    requires LegalLog(g.audit, g.limit) && StatusAgrees(g) && InTurn(g, t)
    ensures InTurn(Apply(g, s), t) <==> !Jumps(g, s, t)
  {
    if s.DoRequeue? {
      RequeueInTurnIff(g, s.t, t);
    } else if s.DoSubmit? {
      SubmitInTurnIff(g, s.t, s.outcome, t);
    } else if s.DoResume? {
      ResumeInTurn(g, s.t, t);
    } else if s.DoRelease? {
      ReleaseInTurn(g, s.t, s.gate, t);
    } else if s.DoAddTask? {
      AddInTurn(g, s.t, s.deps, s.parent, s.retryMax, t);
    } else {
      OtherStepInTurn(g, s, t);
    }
  }

  // ---- runs ----

  ghost predicate NeverJumps(setting: int, steps: seq<Step>, t: TaskId)
    decreases |steps|
  {
    steps == [] ||
    (NeverJumps(setting, steps[..|steps| - 1], t) && !Jumps(Run(setting, steps[..|steps| - 1]), steps[|steps| - 1], t))
  }

  ghost predicate AlwaysInTurn(setting: int, steps: seq<Step>, t: TaskId)
    decreases |steps|
  {
    InTurn(Run(setting, steps), t) && (steps == [] || AlwaysInTurn(setting, steps[..|steps| - 1], t))
  }

  /** Throughout a run a task is started only after everything it depends on was completed, exactly when
      no step of the run lets it jump. */
  lemma {:induction false} RunInTurnIff(setting: int, steps: seq<Step>, t: TaskId)
    ensures AlwaysInTurn(setting, steps, t) <==> NeverJumps(setting, steps, t)
    decreases |steps|
  {
    if steps == [] {
      assert Run(setting, steps) == Start(setting);
    } else {
      var front := steps[..|steps| - 1];
      RunInTurnIff(setting, front, t);
      RunInv(setting, front);
      if AlwaysInTurn(setting, front, t) { StepInTurnIff(Run(setting, front), steps[|steps| - 1], t); }
    }
  }

  /** The same said of a workflow: in a run that lets no task jump, a task of an expanded workflow that is
      queued has behind it the completion of every task of every step its step depends on. */
  lemma StepsInTurn(setting: int, run: seq<Step>, wf: string, steps: seq<Workflow.Step>, x: nat, y: nat)
    requires WorkflowNames.WellFormed(wf, steps) && x < WorkflowGraph.Total(steps) && y < WorkflowGraph.Total(steps)
    requires (WorkflowGraph.Owner(steps, x), WorkflowGraph.Owner(steps, y)) in WorkflowGraph.StepEdges(steps)
    requires var g, row := Run(setting, run), WorkflowGraph.RowAt(wf, steps, y);
             && NeverJumps(setting, run, row.id)
             && row.id in g.tasks && g.tasks[row.id].deps == Workflow.ParseDeps(row.dependsOn) && g.tasks[row.id].status == Queued
    ensures EverCompleted(Run(setting, run).audit, WorkflowGraph.RowAt(wf, steps, x).id)
  {
    RunInTurnIff(setting, run, WorkflowGraph.RowAt(wf, steps, y).id);
    WorkflowGraph.EdgeIff(wf, steps, x, y);
  }

  /** A task that was never handed out jumps on a failing result, for it is retried at once. */
  lemma UnaskedResultJumps(setting: int, t: TaskId, d: TaskId)
    requires t != d
    ensures var g := AddTask(Start(setting), t, [d], "", 1);
            Reachable(setting, g) && InTurn(g, t) && Jumps(g, DoSubmit(t, Failure(None)), t)
  {
    assert Run(setting, []) == Start(setting);
    Reach(setting, Start(setting), DoAddTask(t, [d], "", 1));
    EverCompletedSnoc([], Created(t, Waiting), d);
    assert [] + [Created(t, Waiting)] == [Created(t, Waiting)];
  }
}
