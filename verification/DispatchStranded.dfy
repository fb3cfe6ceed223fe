/** What becomes of a task that is queued again while it is still in the disrupted set, and the
    runs in which this cannot happen. */
module DispatchStranded {
  import opened Wrappers
  import opened Lifecycle
  import opened Dispatch
  import opened DispatchEffects
  import opened DispatchTheorems
  import opened DispatchTerminal

  /** Leaving the disrupted set takes a re-queue or a deletion. */
  predicate Clears(s: Step, t: TaskId) {
    (s.DoRequeue? || s.DoDelete?) && s.t == t
  }

  ghost predicate Stranded(g: Grid, t: TaskId) {
    t in g.disrupted && t in g.tasks && g.tasks[t].status != Completed
  }

  lemma AfterStranded(g: Grid, s: Step, t: TaskId)
    requires Stranded(g, t) && !Clears(s, t)
    ensures After(g, s, t).Some? && After(g, s, t) != Some(Completed)
  {
  }

  lemma StepStranded(g: Grid, s: Step, t: TaskId)
    requires Stranded(g, t) && !Clears(s, t)
    ensures Stranded(Apply(g, s), t)
  {
    StatusAfter(g, s, t);
    AfterStranded(g, s, t);
    DisruptedAfter(g, s, t);
  }

  /** A task queued again while in the disrupted set never completes: every result a worker sends
      is discarded until the task is re-queued by hand or deleted. */
  lemma {:induction false} StrandedNeverCompletes(g: Grid, steps: seq<Step>, t: TaskId)
    requires Stranded(g, t) && forall s <- steps :: !Clears(s, t)
    ensures Stranded(Exec(g, steps), t)
  {
    if steps == [] {
    } else {
      var front, s := steps[..|steps| - 1], steps[|steps| - 1];
      StrandedNeverCompletes(g, front, t);
      StepStranded(Exec(g, front), s, t);
    }
  }

  /** Resuming a workflow strands every task the operator had disrupted or cancelled before. */
  lemma ResumeStrands(g: Grid, t: TaskId, steps: seq<Step>)
    requires DisruptedOk(g) && t in g.disrupted
    requires forall s <- steps :: !Clears(s, t)
    ensures Resume(g, t).tasks[t].status in {Queued, Waiting}
    ensures t in Exec(Resume(g, t), steps).tasks && Exec(Resume(g, t), steps).tasks[t].status != Completed
  {
    StrandedNeverCompletes(Resume(g, t), steps, t);
  }

  // ---- runs that strand nothing ----

  ghost predicate AllIntact(g: Grid) {
    (forall t <- g.tasks :: g.tasks[t].intact) && (forall b <- g.bundles :: g.bundles[b].intact)
  }

  /** No workflow is resumed and no failing result replaces a payload. */
  predicate Clean(s: Step) {
    !s.DoResume? && !(s.DoSubmit? && s.outcome == Failure(Some(false)))
  }

  lemma RowStaysIntact(g: Grid, s: Step, t: TaskId)
    requires AllIntact(g) && Clean(s) && t in Apply(g, s).tasks
    ensures Apply(g, s).tasks[t].intact
  {
    if t in g.tasks {
      RowFollows(g, s, t);
    } else {
      StatusAfter(g, s, t);
      AddedByAdd(g, s, t);
    }
  }

  /** A row that is new was added. */
  lemma AddedByAdd(g: Grid, s: Step, t: TaskId)
    requires t !in g.tasks && After(g, s, t).Some?
    ensures s.DoAddTask? && s.t == t
  {
  }

  lemma StepKeepsIntact(g: Grid, s: Step)
    requires AllIntact(g) && Clean(s)
    ensures AllIntact(Apply(g, s))
  {
    BundlesAfter(g, s);
    forall t | t in Apply(g, s).tasks
      ensures Apply(g, s).tasks[t].intact
    {
      RowStaysIntact(g, s, t);
    }
  }

  lemma {:induction false} CleanExec(g: Grid, steps: seq<Step>)
    requires AllIntact(g) && DisruptedOk(g) && forall s <- steps :: Clean(s)
    ensures AllIntact(Exec(g, steps)) && DisruptedOk(Exec(g, steps))
  {
    if steps == [] {
    } else {
      var front, s := steps[..|steps| - 1], steps[|steps| - 1];
      CleanExec(g, front);
      StepKeepsIntact(Exec(g, front), s);
      DisruptedStepIff(Exec(g, front), s);
    }
  }

  /** Over every clean run the disrupted set means what it says. */
  lemma DisruptedMeansDisrupted(setting: int, steps: seq<Step>)
    requires forall s <- steps :: Clean(s)
    ensures DisruptedOk(Run(setting, steps))
  {
    CleanExec(Start(setting), steps);
  }

  lemma AddedNew(setting: int)
    ensures Run(setting, [DoAddTask("t", [], "f", 0)]) == AddTask(Start(setting), "t", [], "f", 0)
  {
    ExecSnoc(Start(setting), [], DoAddTask("t", [], "f", 0));
    assert [] + [DoAddTask("t", [], "f", 0)] == [DoAddTask("t", [], "f", 0)];
  }

  lemma CancelledNew(setting: int)
    ensures var g := Run(setting, [DoAddTask("t", [], "f", 0), DoCancel("t")]);
            DisruptedOk(g) && StrandsTask(g, DoResume("t"))
  {
    var a, c := DoAddTask("t", [], "f", 0), DoCancel("t");
    AddedNew(setting);
    ExecSnoc(Start(setting), [a], c);
    assert [a] + [c] == [a, c];
  }

  /** Without the condition it does not: cancel a task, then resume its workflow. */
  lemma ResumeBreaksDisrupted(setting: int)
    ensures !DisruptedOk(Run(setting, [DoAddTask("t", [], "f", 0), DoCancel("t"), DoResume("t")]))
  {
    var a, c, r := DoAddTask("t", [], "f", 0), DoCancel("t"), DoResume("t");
    CancelledNew(setting);
    ExecSnoc(Start(setting), [a, c], r);
    assert [a, c] + [r] == [a, c, r];
    DisruptedStepIff(Run(setting, [a, c]), r);
  }

  // ---- a late check after a terminal move ----

  /** One task, with this status and payload, and the bundles in flight. */
  predicate Alone(g: Grid, t: TaskId, status: Status, intact: bool, bundles: map<nat, Bundle>) {
    && g.tasks.Keys == {t} && g.tasks[t].status == status && g.tasks[t].intact == intact
    && t !in g.offers && g.strikes == map[] && g.disrupted == {}
    && g.bundles == bundles && g.nextBundle == |bundles|
  }

  lemma ReachAdded(setting: int, t: TaskId) returns (h: Grid)
    ensures Reachable(setting, h) && Alone(h, t, Queued, true, map[]) && CanRetry(h.tasks[t])
  {
    assert Run(setting, []) == Start(setting);
    Reach(setting, Start(setting), DoAddTask(t, [], "", 1));
    h := AddTask(Start(setting), t, [], "", 1);
  }

  lemma ReachAssigned(setting: int, g: Grid, t: TaskId, w: WorkerId, intact: bool, bundles: map<nat, Bundle>) returns (h: Grid)
    requires Reachable(setting, g) && Alone(g, t, Queued, intact, bundles) && |bundles| !in bundles
    ensures Reachable(setting, h) && Alone(h, t, Processing, intact, bundles[|bundles| := Bundle(t, w, intact)])
    ensures CanRetry(h.tasks[t]) == CanRetry(g.tasks[t])
  {
    Reach(setting, g, DoPopTask(w, false, Some(t)));
    h := PopTask(g, w, false, Some(t));
  }

  lemma ReachRetrying(setting: int, g: Grid, t: TaskId, bundles: map<nat, Bundle>) returns (h: Grid)
    requires Reachable(setting, g) && Alone(g, t, Processing, true, bundles) && CanRetry(g.tasks[t])
    ensures Reachable(setting, h) && Alone(h, t, Retrying, false, bundles)
  {
    h := SubmitResult(g, t, Failure(Some(false)));
    FailsToRetry(g, t, bundles);
    ReachResult(setting, g, t, Failure(Some(false)));
  }

  lemma ReachResult(setting: int, g: Grid, t: TaskId, outcome: Outcome)
    requires Reachable(setting, g)
    ensures Reachable(setting, SubmitResult(g, t, outcome))
  {
    Reach(setting, g, DoSubmit(t, outcome));
  }

  lemma FailsToRetry(g: Grid, t: TaskId, bundles: map<nat, Bundle>)
    requires Alone(g, t, Processing, true, bundles) && CanRetry(g.tasks[t])
    ensures Alone(SubmitResult(g, t, Failure(Some(false))), t, Retrying, false, bundles)
  {
  }

  lemma ReachRetried(setting: int, g: Grid, t: TaskId, bundles: map<nat, Bundle>) returns (h: Grid)
    requires Reachable(setting, g) && Alone(g, t, Retrying, false, bundles)
    ensures Reachable(setting, h) && Alone(h, t, Queued, false, bundles)
  {
    h := RetryElapsed(g, t);
    RetryQueues(g, t, bundles);
    ReachElapsed(setting, g, t);
  }

  lemma ReachElapsed(setting: int, g: Grid, t: TaskId)
    requires Reachable(setting, g)
    ensures Reachable(setting, RetryElapsed(g, t))
  {
    Reach(setting, g, DoRetryElapsed(t));
  }

  lemma RetryQueues(g: Grid, t: TaskId, bundles: map<nat, Bundle>)
    requires Alone(g, t, Retrying, false, bundles)
    ensures Alone(RetryElapsed(g, t), t, Queued, false, bundles)
  {
  }

  lemma ReachDisrupted(setting: int, g: Grid, t: TaskId, bundles: map<nat, Bundle>) returns (h: Grid)
    requires Reachable(setting, g) && Alone(g, t, Processing, false, bundles)
    ensures Reachable(setting, h) && h.tasks.Keys == {t} && h.tasks[t].status == Disrupted
    ensures h.disrupted == {t} && h.bundles == bundles
  {
    Reach(setting, g, DoDisrupt(t));
    h := Disrupt(g, t);
  }

  /** Assigned, failed with another payload, retried, assigned again and disrupted. */
  lemma ReachTampered(setting: int, t: TaskId, w: WorkerId) returns (h: Grid)
    ensures Reachable(setting, h) && h.tasks.Keys == {t} && h.tasks[t].status == Disrupted && h.disrupted == {t}
    ensures 1 in h.bundles && h.bundles[1] == Bundle(t, w, false)
  {
    h := ReachAdded(setting, t);
    h := ReachAssigned(setting, h, t, w, true, map[]);
    h := ReachAgain(setting, h, t, w, map[0 := Bundle(t, w, true)]);
  }

  lemma ReachAgain(setting: int, g: Grid, t: TaskId, w: WorkerId, bundles: map<nat, Bundle>) returns (h: Grid)
    requires Reachable(setting, g) && Alone(g, t, Processing, true, bundles) && CanRetry(g.tasks[t])
    requires bundles.Keys == {0}
    ensures Reachable(setting, h) && h.tasks.Keys == {t} && h.tasks[t].status == Disrupted && h.disrupted == {t}
    ensures 1 in h.bundles && h.bundles[1] == Bundle(t, w, false)
  {
    assert |bundles| == |bundles.Keys| == 1;
    h := ReachRetrying(setting, g, t, bundles);
    h := ReachRetried(setting, h, t, bundles);
    h := ReachAssigned(setting, h, t, w, false, bundles);
    h := ReachDisrupted(setting, h, t, bundles[1 := Bundle(t, w, false)]);
  }

  lemma CheckOverwrites(g: Grid, t: TaskId, w: WorkerId)
    requires g.tasks.Keys == {t} && g.tasks[t].status == Disrupted && g.disrupted == {t}
    requires 1 in g.bundles && g.bundles[1] == Bundle(t, w, false)
    ensures TamperedInFlight(g, t) && DisruptedOk(g)
    ensures var h := BuildBundle(g, 1); t in h.tasks && h.tasks[t].status == FatalError && !DisruptedOk(h)
  {
    var h := BuildBundle(g, 1);
    assert t in h.disrupted;
  }

  /** A run reaches a terminal row with a tampered bundle in flight; the check of that bundle then writes
      over the row and leaves the task in the disrupted set. */
  lemma LateCheckOverwrites(setting: int, t: TaskId, w: WorkerId) returns (steps: seq<Step>)
    ensures var g, h := Run(setting, steps), Run(setting, steps + [DoBuildBundle(1)]);
            && t in g.tasks && Terminal(g.tasks[t].status) && TamperedInFlight(g, t) && !Absorbed(g, t) && DisruptedOk(g)
            && t in h.tasks && h.tasks[t].status == FatalError && !DisruptedOk(h)
  {
    var g := ReachTampered(setting, t, w);
    CheckOverwrites(g, t, w);
    AbsorbedIff(g, t);
    steps :| Run(setting, steps) == g;
    ExecSnoc(Start(setting), steps, DoBuildBundle(1));
  }
}
