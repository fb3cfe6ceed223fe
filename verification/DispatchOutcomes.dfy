/** What becomes of a task: what completes, fails or retries it, who is handed it, and the runs in which
    it is done and lets the next one go. */
module DispatchOutcomes {
  import opened Wrappers
  import opened Lifecycle
  import opened Dispatch
  import opened DispatchLog
  import opened DispatchSafety
  import opened DispatchTheorems
  import opened DispatchRows
  import opened DispatchEffects
  import opened DispatchStrikes

  // ---- statuses ----

  /** What puts a task into a status; four registered statuses are never entered. */
  predicate Causes(g: Grid, s: Step, t: TaskId, status: Status) {
    match status
    case Completed => Succeeds(g, s, t)
    case Retrying => Retries(g, s, t)
    case Failed => Fails(g, s, t)
    case Disrupted => Stops(g, s, t)
    case Queued => Queues(g, s, t)
    case Waiting => Waits(g, s, t)
    case AwaitingApproval => Gates(g, s, t)
    case Processing => Receives(g, s, t).Some?
    case FatalError => Blocks(g, s, t)
    case _ => false
  }

  predicate EndOrRetry(status: Status) {
    status.Completed? || status.Retrying? || status.Failed? || status.Disrupted?
  }

  lemma AfterEndIff(g: Grid, s: Step, t: TaskId, status: Status)
    requires RowStatus(g, t) != Some(status) && EndOrRetry(status)
    ensures After(g, s, t) == Some(status) <==> Causes(g, s, t, status)
  {
  }

  lemma AfterQueuedIff(g: Grid, s: Step, t: TaskId, status: Status)
    requires RowStatus(g, t) != Some(status) && (status.Queued? || status.Waiting?)
    ensures After(g, s, t) == Some(status) <==> Causes(g, s, t, status)
  {
  }

  lemma AfterOtherIff(g: Grid, s: Step, t: TaskId, status: Status)
    requires RowStatus(g, t) != Some(status) && !EndOrRetry(status) && !status.Queued? && !status.Waiting?
    ensures After(g, s, t) == Some(status) <==> Causes(g, s, t, status)
  {
  }

  /** A task enters a status exactly by what causes it. */
  lemma EntersIff(g: Grid, s: Step, t: TaskId, status: Status)
    requires RowStatus(g, t) != Some(status)
    ensures RowStatus(Apply(g, s), t) == Some(status) <==> Causes(g, s, t, status)
  {
    StatusAfter(g, s, t);
    if EndOrRetry(status) {
      AfterEndIff(g, s, t, status);
    } else if status.Queued? || status.Waiting? {
      AfterQueuedIff(g, s, t, status);
    } else {
      AfterOtherIff(g, s, t, status);
    }
  }

  lemma AfterCompleted(g: Grid, s: Step, t: TaskId)
    requires RowStatus(g, t) != Some(Completed) && RowStatus(g, t) != Some(Serving)
    ensures After(g, s, t) == Some(Completed) <==>
            s == DoSubmit(t, Success) && t in g.tasks && g.tasks[t].status == Processing && t !in g.disrupted
  {
  }

  lemma CompletedBy(g: Grid, s: Step, t: TaskId)
    requires RowStatus(g, t) != Some(Completed) && RowStatus(g, t) != Some(Serving)
    ensures RowStatus(Apply(g, s), t) == Some(Completed) <==>
            s == DoSubmit(t, Success) && t in g.tasks && g.tasks[t].status == Processing && t !in g.disrupted
  {
    StatusAfter(g, s, t);
    AfterCompleted(g, s, t);
  }

  lemma NeverServing(setting: int, steps: seq<Step>, t: TaskId)
    ensures RowStatus(Run(setting, steps), t) != Some(Serving)
  {
    if t in Run(setting, steps).tasks { WorkerCorrespondence(setting, steps, t); }
  }

  /** In every run: a task is completed exactly by a success for it while it is processing and not in the
      disrupted set. */
  lemma CompletedIff(setting: int, steps: seq<Step>, s: Step, t: TaskId)
    requires var g := Run(setting, steps); RowStatus(g, t) != Some(Completed)
    ensures var g := Run(setting, steps);
            RowStatus(Apply(g, s), t) == Some(Completed) <==>
            s == DoSubmit(t, Success) && t in g.tasks && g.tasks[t].status == Processing && t !in g.disrupted
  {
    NeverServing(setting, steps, t);
    CompletedBy(Run(setting, steps), s, t);
  }

  /** A failing or preempted result of a processing task uses up a retry while there is one, and fails the
      task otherwise; the checkpoint it brings is stored in either case. */
  lemma FailingResult(g: Grid, t: TaskId, outcome: Outcome)
    requires In(g, t, Processing) && t !in g.disrupted && !outcome.Success?
    ensures var was, now := g.tasks[t], SubmitResult(g, t, outcome).tasks[t];
            && (if was.retryCount < was.retryMax then now.status == Retrying && now.retryCount == was.retryCount + 1
                else now.status == Failed && now.retryCount == was.retryCount)
            && now.checkpoint == (if outcome.WasPreempted? then Some(outcome.checkpoint) else was.checkpoint)
            && now.worker.None?
  {
    StatusAfter(g, DoSubmit(t, outcome), t);
    RowFollows(g, DoSubmit(t, outcome), t);
  }

  /** Whatever happens, a checkpoint changes only by a preempted result for its task. */
  lemma CheckpointChangesIff(g: Grid, s: Step, t: TaskId)
    requires t in g.tasks && t in Apply(g, s).tasks
    ensures Apply(g, s).tasks[t].checkpoint != g.tasks[t].checkpoint <==>
            Heard(g, t) && Brings(s, t).Some? && Brings(s, t) != g.tasks[t].checkpoint
  {
    RowFollows(g, s, t);
  }

  /** A waiting task is let go exactly when it has no dependencies, or they are distinct and all of them are
      completed; behind a gate it then waits for approval. */
  lemma ReleasedIff(g: Grid, t: TaskId, gate: bool)
    requires In(g, t, Waiting)
    ensures var deps := g.tasks[t].deps;
            RowStatus(ReleaseReady(g, t, gate), t) ==
              if deps == [] then Some(Queued)
              else if Distinct(deps) && (forall d <- deps :: In(g, d, Completed)) then
                Some(if gate then AwaitingApproval else Queued)
              else Some(Waiting)
  {
    StatusAfter(g, DoRelease(t, gate), t);
  }

  /** Resuming queues a failed, disrupted or cancelled task exactly when everything it depends on is
      completed in the same workflow, and else has it wait; it leaves any other task alone. */
  lemma ResumedIff(g: Grid, t: TaskId)
    requires t in g.tasks
    ensures var row := g.tasks[t];
            RowStatus(Resume(g, t), t) ==
              if row.status !in {Failed, Disrupted, Cancelled} then Some(row.status)
              else if forall d <- row.deps :: In(g, d, Completed) && g.tasks[d].parent == row.parent then Some(Queued)
              else Some(Waiting)
  {
    StatusAfter(g, DoResume(t), t);
  }

  /** A new task: queued or waiting, nobody's, intact, and as it was described. */
  lemma AddedRow(g: Grid, t: TaskId, deps: seq<TaskId>, parent: string, retryMax: nat)
    requires t !in g.tasks
    ensures var row := AddTask(g, t, deps, parent, retryMax).tasks[t];
            && row.status == (if |deps| == 0 then Queued else Waiting) && row.worker.None? && row.checkpoint.None?
            && row.intact && row.retryCount == 0 && row.retryMax == retryMax && row.parent == parent && row.deps == deps
  {
  }

  /** What a task is stays as long as it is not deleted, and retries only go up. */
  ghost predicate SameTask(g: Grid, h: Grid, t: TaskId) {
    && t in g.tasks && t in h.tasks && h.tasks[t].deps == g.tasks[t].deps && h.tasks[t].parent == g.tasks[t].parent
    && h.tasks[t].retryMax == g.tasks[t].retryMax && h.tasks[t].retryCount >= g.tasks[t].retryCount
  }

  lemma AfterStays(g: Grid, s: Step, t: TaskId)
    requires t in g.tasks && s != DoDelete(t)
    ensures After(g, s, t).Some?
  {
  }

  lemma {:induction false} TaskIsKept(g: Grid, steps: seq<Step>, t: TaskId)
    requires t in g.tasks && DoDelete(t) !in steps
    ensures SameTask(g, Exec(g, steps), t)
  {
    if steps == [] {
    } else {
      var front, s := steps[..|steps| - 1], steps[|steps| - 1];
      TaskIsKept(g, front, t);
      StatusAfter(Exec(g, front), s, t);
      AfterStays(Exec(g, front), s, t);
      RowFollows(Exec(g, front), s, t);
    }
  }

  // ---- who is handed a task ----

  /** The step offers the task to `w` anew or assigns it. */
  predicate Handed(g: Grid, h: Grid, t: TaskId, w: WorkerId) {
    || OfferOf(h, t) == Some(Offer(g.nextOffer, w))
    || (RowStatus(g, t) == Some(Queued) && RowStatus(h, t) == Some(Processing) && h.tasks[t].worker == Some(w))
  }

  ghost predicate FreshNumbers(g: Grid) {
    forall t <- g.offers :: g.offers[t].id < g.nextOffer
  }

  lemma RunFreshNumbers(setting: int, steps: seq<Step>)
    ensures FreshNumbers(Run(setting, steps))
  {
    RunInv(setting, steps);
  }

  lemma PopWorker(g: Grid, w: WorkerId, consent: bool, t: TaskId)
    requires Eligible(g, t, w)
    ensures if consent then PopTask(g, w, consent, Some(t)).tasks == g.tasks
            else PopTask(g, w, consent, Some(t)).tasks == g.tasks[t := g.tasks[t].(status := Processing, worker := Some(w))]
  {
  }

  lemma PopHands(g: Grid, w: WorkerId, consent: bool, t: TaskId)
    requires FreshNumbers(g)
    ensures Handed(g, PopTask(g, w, consent, Some(t)), t, w) <==> Eligible(g, t, w)
  {
    OfferAfterStep(g, DoPopTask(w, consent, Some(t)), t);
    StatusAfter(g, DoPopTask(w, consent, Some(t)), t);
    if Eligible(g, t, w) { PopWorker(g, w, consent, t); }
  }

  /** In every run: a pop for which the scheduler picks a task hands it to the worker exactly when it is
      queued, not on offer to that worker already, and not refused too often where there is a limit. */
  lemma PopHandsIff(setting: int, steps: seq<Step>, w: WorkerId, consent: bool, t: TaskId)
    ensures var g := Run(setting, steps);
            Handed(g, PopTask(g, w, consent, Some(t)), t, w) <==>
            && t in g.tasks && g.tasks[t].status == Queued
            && !(t in g.offers && g.offers[t].worker == w)
            && (EffectiveLimit(setting) > 0 ==> StrikesIn(g.audit, t, w) < EffectiveLimit(setting))
  {
    var g := Run(setting, steps);
    RunInv(setting, steps);
    RunFreshNumbers(setting, steps);
    PopHands(g, w, consent, t);
  }

  /** A worker that polls again while it holds an offer keeps it, and is not assigned the task unasked. */
  lemma OwnOfferStays(g: Grid, w: WorkerId, consent: bool, pick: Option<TaskId>, t: TaskId)
    requires t in g.offers && g.offers[t].worker == w
    ensures var h := PopTask(g, w, consent, pick);
            OfferOf(h, t) == OfferOf(g, t) && RowStatus(h, t) == RowStatus(g, t)
  {
    OfferAfterStep(g, DoPopTask(w, consent, pick), t);
    StatusAfter(g, DoPopTask(w, consent, pick), t);
  }

  // ---- superseded offers ----

  /** Every superseded offer is followed at once by an offer or an assignment to somebody else. */
  ghost predicate Redirected(log: Log) {
    forall i :: 0 <= i < |log| && Supersedes(log[i]) ==>
      i + 1 < |log| && HandsToAnother(log[i + 1], log[i].task, log[i].worker)
  }

  lemma RedirectedSnoc(log: Log, e: Event)
    requires Redirected(log) && !Supersedes(e)
    ensures Redirected(log + [e])
  {
  }

  lemma RedirectedPair(log: Log, e: Event, f: Event)
    requires Redirected(log) && Supersedes(e) && HandsToAnother(f, e.task, e.worker)
    ensures Redirected(log + [e] + [f])
  {
    var now := log + [e] + [f];
    forall i | 0 <= i < |now| && Supersedes(now[i])
      ensures i + 1 < |now| && HandsToAnother(now[i + 1], now[i].task, now[i].worker)
    {
      if i < |log| { assert now[i] == log[i] && now[i + 1] == log[i + 1]; }
    }
  }

  lemma GrowsRedirected(was: Log, now: Log)
    requires Redirected(was) && Grows(was, now)
    ensures Redirected(now)
  {
    if e :| now == was + [e] && !Supersedes(e) {
      RedirectedSnoc(was, e);
    } else if d, e :| Opens(d, e) && now == was + [d] + [e] && !Supersedes(e) {
      if Supersedes(d) {
        RedirectedPair(was, d, e);
      } else {
        RedirectedSnoc(was, d);
        RedirectedSnoc(was + [d], e);
      }
    }
  }

  /** In every run an offer is superseded only by handing its task to another worker in the same step. */
  lemma {:induction false} SupersededIsRedirected(setting: int, steps: seq<Step>)
    ensures Redirected(Run(setting, steps).audit)
    decreases |steps|
  {
    if steps == [] {
    } else {
      var front := steps[..|steps| - 1];
      SupersededIsRedirected(setting, front);
      StepGrows(Run(setting, front), steps[|steps| - 1]);
      GrowsRedirected(Run(setting, front).audit, Run(setting, steps).audit);
    }
  }

  // ---- a task done, and the next one let go ----

  /** Whoever may be handed a task directly can complete it. */
  lemma HandedThenDone(g: Grid, t: TaskId, w: WorkerId)
    requires Eligible(g, t, w) && t !in g.disrupted
    ensures RowStatus(SubmitResult(PopTask(g, w, false, Some(t)), t, Success), t) == Some(Completed)
  {
    var pop := DoPopTask(w, false, Some(t));
    StatusAfter(g, pop, t);
    DisruptedAfter(g, pop, t);
    StatusAfter(PopTask(g, w, false, Some(t)), DoSubmit(t, Success), t);
  }

  /** Whoever holds an offer of a queued task can accept and complete it. */
  lemma AcceptedThenDone(g: Grid, t: TaskId, w: WorkerId)
    requires In(g, t, Queued) && Asked(g, t, w) && t !in g.disrupted
    ensures var k := AcceptFinish(AcceptPop(g, t, w), g.nextAccept);
            && RowStatus(k, t) == Some(Processing) && k.tasks[t].worker == Some(w)
            && RowStatus(SubmitResult(k, t, Success), t) == Some(Completed)
  {
    var h := AcceptPop(g, t, w);
    var k := AcceptFinish(h, g.nextAccept);
    assert h.tasks == g.tasks && h.accepts[g.nextAccept] == Accept(t, g.offers[t], w);
    AcceptAssigns(h, g.nextAccept, t, w);
    StatusAfter(k, DoSubmit(t, Success), t);
  }

  lemma AcceptAssigns(g: Grid, r: nat, t: TaskId, w: WorkerId)
    requires In(g, t, Queued) && r in g.accepts && g.accepts[r] == Accept(t, Offer(g.accepts[r].offer.id, w), w)
    ensures var h := AcceptFinish(g, r); In(h, t, Processing) && h.tasks[t].worker == Some(w) && h.disrupted == g.disrupted
  {
  }

  /** A task in this status, one that waits for it, and nothing in the way of either. */
  predicate Chain(g: Grid, t: TaskId, d: TaskId, status: Status) {
    && In(g, t, status) && In(g, d, Waiting) && g.tasks[d].deps == [t]
    && OfferOf(g, t).None? && g.strikes == map[] && g.disrupted == {}
  }

  lemma ReachChain(setting: int, t: TaskId, d: TaskId) returns (g: Grid)
    requires t != d
    ensures Reachable(setting, g) && Chain(g, t, d, Queued)
  {
    assert Run(setting, []) == Start(setting);
    var a, b := DoAddTask(t, [], "", 0), DoAddTask(d, [t], "", 0);
    Reach(setting, Start(setting), a);
    var k := AddTask(Start(setting), t, [], "", 0);
    Reach(setting, k, b);
    g := AddTask(k, d, [t], "", 0);
  }

  lemma ReachHanded(setting: int, g: Grid, t: TaskId, d: TaskId, w: WorkerId) returns (h: Grid)
    requires t != d && Reachable(setting, g) && Chain(g, t, d, Queued)
    ensures Reachable(setting, h) && Chain(h, t, d, Processing)
  {
    Reach(setting, g, DoPopTask(w, false, Some(t)));
    h := PopTask(g, w, false, Some(t));
  }

  lemma ReachDone(setting: int, g: Grid, t: TaskId, d: TaskId) returns (h: Grid)
    requires t != d && Reachable(setting, g) && Chain(g, t, d, Processing)
    ensures Reachable(setting, h) && In(h, t, Completed) && In(h, d, Waiting) && h.tasks[d].deps == [t]
  {
    var s := DoSubmit(t, Success);
    Reach(setting, g, s);
    StatusAfter(g, s, t);
    StatusAfter(g, s, d);
    RowFollows(g, s, d);
    h := Apply(g, s);
  }

  /** A run in which a worker is handed a task and completes it, and the task that waited for it is queued. */
  lemma DoneInARun(setting: int, t: TaskId, d: TaskId, w: WorkerId) returns (steps: seq<Step>)
    requires t != d
    ensures var g := Run(setting, steps + [DoRelease(d, false)]); In(g, t, Completed) && In(g, d, Queued)
  {
    var g := ReachChain(setting, t, d);
    g := ReachHanded(setting, g, t, d, w);
    g := ReachDone(setting, g, t, d);
    steps :| Run(setting, steps) == g;
    ReleaseNext(setting, steps, g, t, d);
  }

  lemma ReleaseFacts(g: Grid, t: TaskId, d: TaskId)
    requires In(g, t, Completed) && In(g, d, Waiting) && g.tasks[d].deps == [t]
    ensures var h := ReleaseReady(g, d, false); In(h, t, Completed) && In(h, d, Queued)
  {
    ReleasedIff(g, d, false);
  }

  lemma ReleaseNext(setting: int, steps: seq<Step>, g: Grid, t: TaskId, d: TaskId)
    requires Run(setting, steps) == g && In(g, t, Completed) && In(g, d, Waiting) && g.tasks[d].deps == [t]
    ensures var h := Run(setting, steps + [DoRelease(d, false)]); In(h, t, Completed) && In(h, d, Queued)
  {
    ExecSnoc(Start(setting), steps, DoRelease(d, false));
    ReleaseFacts(g, t, d);
  }
}
