/** The master node as the program has it: one object whose handlers update its tables in place.
    Each handler is proved to do exactly the step of the same name. */
module DispatchNode {
  import opened Wrappers
  import opened Lifecycle
  import opened Dispatch
  import opened DispatchTheorems

  /** Row edits before or after a status change are part of the same write. */
  lemma EditAfterWrite(g: Grid, t: TaskId, row: Task, edited: Task, forced: bool)
    requires t in g.tasks && edited.status == row.status
    ensures var h := Write(g, t, row, forced);
            h.(tasks := h.tasks[t := edited]) == Write(g, t, edited, forced)
  {
    assert g.tasks[t := row][t := edited] == g.tasks[t := edited];
  }

  lemma EditBeforeWrite(g: Grid, t: TaskId, edited: Task, row: Task, forced: bool)
    requires t in g.tasks && edited.status == g.tasks[t].status
    ensures Write(g.(tasks := g.tasks[t := edited]), t, row, forced) == Write(g, t, row, forced)
  {
    assert g.tasks[t := edited][t := row] == g.tasks[t := row];
  }

  /** What a resume leaves alone, and so may be planned for before any row is written. */
  ghost predicate SamePlan(was: map<TaskId, Task>, now: map<TaskId, Task>) {
    && now.Keys == was.Keys
    && forall t <- was :: now[t].parent == was[t].parent && now[t].deps == was[t].deps
                          && (now[t].status == Completed <==> was[t].status == Completed)
  }

  lemma SameDeps(g: Grid, h: Grid, row: Task)
    requires SamePlan(g.tasks, h.tasks)
    ensures DepsDone(g, row) == DepsDone(h, row)
  {
  }

  ghost function ResumeSteps(list: seq<TaskId>): seq<Step> {
    if list == [] then [] else ResumeSteps(list[..|list| - 1]) + [DoResume(list[|list| - 1])]
  }

  /** Distinct stalled rows, all with their dependencies done or all without. */
  ghost predicate Stalled(g: Grid, list: seq<TaskId>, queue: bool) {
    && Distinct(list)
    && forall t <- list :: t in g.tasks && Resumable(g.tasks[t].status) && DepsDone(g, g.tasks[t]) == queue
  }

  lemma ResumeStepsNext(g: Grid, list: seq<TaskId>, i: nat)
    requires i < |list|
    ensures Exec(g, ResumeSteps(list[..i + 1])) == Resume(Exec(g, ResumeSteps(list[..i])), list[i])
  {
    assert list[..i + 1][..i] == list[..i];
    ExecSnoc(g, ResumeSteps(list[..i]), DoResume(list[i]));
  }

  ghost function ApproveSteps(list: seq<TaskId>): seq<Step> {
    if list == [] then [] else ApproveSteps(list[..|list| - 1]) + [DoApprove(list[|list| - 1])]
  }

  lemma ApproveStepsNext(g: Grid, list: seq<TaskId>, i: nat)
    requires i < |list|
    ensures Exec(g, ApproveSteps(list[..i + 1])) == Approve(Exec(g, ApproveSteps(list[..i])), list[i])
  {
    assert list[..i + 1][..i] == list[..i];
    ExecSnoc(g, ApproveSteps(list[..i]), DoApprove(list[i]));
  }

  /** Distinct steps that wait for approval. */
  ghost predicate Gated(g: Grid, list: seq<TaskId>) {
    Distinct(list) && forall t <- list :: t in g.tasks && g.tasks[t].status == AwaitingApproval
  }

  ghost predicate Opened(was: map<TaskId, Task>, now: map<TaskId, Task>, list: seq<TaskId>) {
    now.Keys == was.Keys && forall t <- was :: if t in list then now[t].status == Queued else now[t] == was[t]
  }

  lemma ApproveOne(g: Grid, t: TaskId) returns (row: Task)
    requires t in g.tasks && g.tasks[t].status == AwaitingApproval
    ensures Approve(g, t).tasks == g.tasks[t := row] && row.status == Queued
  {
    row := SetStatus(g.tasks[t], Queued, false);
  }

  lemma OpenedNext(was: map<TaskId, Task>, mid: map<TaskId, Task>, list: seq<TaskId>, row: Task)
    requires list != [] && list[|list| - 1] in was && row.status == Queued && Opened(was, mid, list[..|list| - 1])
    ensures Opened(was, mid[list[|list| - 1] := row], list)
  {
    assert list == list[..|list| - 1] + [list[|list| - 1]];
  }

  /** Approving gated rows queues them and changes nothing else. */
  lemma {:induction false} ApproveExec(g: Grid, list: seq<TaskId>)
    requires Gated(g, list)
    ensures Opened(g.tasks, Exec(g, ApproveSteps(list)).tasks, list)
  {
    if list == [] {
    } else {
      var front, t := list[..|list| - 1], list[|list| - 1];
      ApproveExec(g, front);
      var k := Exec(g, ApproveSteps(front));
      assert t in list && t !in front && k.tasks[t] == g.tasks[t];
      var row := ApproveOne(k, t);
      OpenedNext(g.tasks, k.tasks, list, row);
      assert list[..|list|] == list;
      ApproveStepsNext(g, list, |list| - 1);
    }
  }

  lemma ResumeOne(g: Grid, t: TaskId, queue: bool) returns (row: Task)
    requires t in g.tasks && Resumable(g.tasks[t].status) && DepsDone(g, g.tasks[t]) == queue
    ensures Resume(g, t).tasks == g.tasks[t := row]
    ensures row.status == (if queue then Queued else Waiting)
    ensures row.parent == g.tasks[t].parent && row.deps == g.tasks[t].deps
  {
    row := if queue then SetStatus(g.tasks[t], Queued, true).(worker := None) else SetStatus(g.tasks[t], Waiting, true);
    assert Resume(g, t) == Write(g, t, row, true);
  }

  ghost predicate Resumed(was: map<TaskId, Task>, now: map<TaskId, Task>, list: seq<TaskId>, queue: bool) {
    forall t <- was :: t in now && if t in list then now[t].status == (if queue then Queued else Waiting) else now[t] == was[t]
  }

  lemma ResumedNext(was: map<TaskId, Task>, mid: map<TaskId, Task>, list: seq<TaskId>, queue: bool, row: Task)
    requires list != []
    requires var t := list[|list| - 1];
             && t in was && mid.Keys == was.Keys
             && row.parent == was[t].parent && row.deps == was[t].deps
             && was[t].status != Completed && row.status == if queue then Queued else Waiting
    requires SamePlan(was, mid) && Resumed(was, mid, list[..|list| - 1], queue)
    ensures SamePlan(was, mid[list[|list| - 1] := row])
    ensures Resumed(was, mid[list[|list| - 1] := row], list, queue)
  {
    assert list == list[..|list| - 1] + [list[|list| - 1]];
  }

  /** Resuming stalled rows changes them and nothing else, whatever the order. */
  lemma {:induction false} ResumeExec(g: Grid, list: seq<TaskId>, queue: bool)
    requires Stalled(g, list, queue)
    ensures SamePlan(g.tasks, Exec(g, ResumeSteps(list)).tasks)
    ensures Resumed(g.tasks, Exec(g, ResumeSteps(list)).tasks, list, queue)
  {
    if list == [] {
    } else {
      var front, t := list[..|list| - 1], list[|list| - 1];
      ResumeExec(g, front, queue);
      var k := Exec(g, ResumeSteps(front));
      assert t in list && t !in front && k.tasks[t] == g.tasks[t];
      SameDeps(g, k, g.tasks[t]);
      var row := ResumeOne(k, t, queue);
      ResumedNext(g.tasks, k.tasks, list, queue, row);
      assert list[..|list|] == list;
      ResumeStepsNext(g, list, |list| - 1);
    }
  }

  /** The next row is still as it was when its turn comes. */
  lemma ApproveReady(g: Grid, list: seq<TaskId>, i: nat)
    requires Gated(g, list) && i < |list|
    ensures var k := Exec(g, ApproveSteps(list[..i]));
            && list[i] in k.tasks && k.tasks[list[i]].status == AwaitingApproval
            && Exec(g, ApproveSteps(list[..i + 1])) == Approve(k, list[i])
  {
    assert Gated(g, list[..i]);
    ApproveExec(g, list[..i]);
    ApproveStepsNext(g, list, i);
    assert list[i] in list && list[i] !in list[..i];
  }

  lemma ResumeReady(g: Grid, list: seq<TaskId>, queue: bool, i: nat)
    requires Stalled(g, list, queue) && i < |list|
    ensures var k, t := Exec(g, ResumeSteps(list[..i])), list[i];
            && t in k.tasks && Resumable(k.tasks[t].status) && DepsDone(k, k.tasks[t]) == queue
            && Exec(g, ResumeSteps(list[..i + 1])) == Resume(k, t)
  {
    assert Stalled(g, list[..i], queue);
    ResumeExec(g, list[..i], queue);
    ResumeStepsNext(g, list, i);
    assert list[i] in list && list[i] !in list[..i];
    SameDeps(g, Exec(g, ResumeSteps(list[..i])), g.tasks[list[i]]);
  }

  class MasterNode {
    const limit: int
    var tasks: map<TaskId, Task>
    var offers: map<TaskId, Offer>
    var strikes: map<(TaskId, WorkerId), nat>
    var disrupted: set<TaskId>
    var accepts: map<nat, Accept>
    var bundles: map<nat, Bundle>
    var nextOffer: nat
    var nextAccept: nat
    var nextBundle: nat
    var audit: seq<Event>

    ghost function State(): Grid
      reads this
    {
      Grid(limit, tasks, offers, strikes, disrupted, accepts, bundles, nextOffer, nextAccept, nextBundle, audit)
    }

    constructor (setting: int)
      ensures State() == Start(setting)
    {
      limit := EffectiveLimit(setting);
      tasks, offers, strikes, disrupted, accepts, bundles := map[], map[], map[], {}, map[], map[];
      nextOffer, nextAccept, nextBundle := 0, 0, 0;
      audit := [];
    }

    /** Drop the strike entries of a task, key by key. */
    method ClearTaskStrikes(t: TaskId)
      modifies this`strikes
      ensures strikes == ClearStrikes(old(strikes), t)
    {
      var stale := set k | k in strikes && k.0 == t;
      while stale != {}
        invariant forall k <- stale :: k in old(strikes) && k.0 == t
        invariant strikes == map k | k in old(strikes) && (k.0 != t || k in stale) :: old(strikes)[k]
        decreases |stale|
      {
        var k :| k in stale;
        strikes := strikes - {k};
        stale := stale - {k};
      }
    }

    /** `set_task_status`, keeping the row edits already made to the task object. */
    method SetTaskStatus(t: TaskId, to: Status, force: bool) returns (ok: bool)
      requires t in tasks
      modifies this`tasks, this`strikes, this`audit
      ensures ok == MayMove(old(tasks[t].status), to, force)
      ensures State() == Write(old(State()), t, SetStatus(old(tasks[t]), to, force), force)
    {
      var was := tasks[t].status;
      if !MayMove(was, to, force) {
        return false;
      }
      if was == to {
        assert tasks == tasks[t := tasks[t]];
        return true;
      }
      tasks := tasks[t := tasks[t].(status := to)];
      audit := audit + [Moved(t, was, to, force)];
      if Terminal(to) {
        ClearTaskStrikes(t);
      }
      return true;
    }

    /** `try_schedule_retry`. */
    method TryScheduleRetry(t: TaskId) returns (ok: bool)
      requires t in tasks
      modifies this`tasks, this`strikes, this`audit
      ensures ok == CanRetry(old(tasks[t]))
      ensures State() == if ok then Write(old(State()), t, Retry(old(tasks[t])), true) else old(State())
    {
      if tasks[t].retryCount >= tasks[t].retryMax {
        return false;
      }
      ghost var row := tasks[t];
      tasks := tasks[t := tasks[t].(retryCount := tasks[t].retryCount + 1)];
      EditBeforeWrite(old(State()), t, row.(retryCount := row.retryCount + 1), Retry(row), true);
      var _ := SetTaskStatus(t, Retrying, true);
      return true;
    }

    /** The filters of `pop_task` over the task table, in its order. */
    method Candidates(rows: seq<TaskId>, w: WorkerId) returns (queue: seq<TaskId>)
      requires forall t :: t in rows <==> t in tasks
      ensures forall t :: t in queue <==> Candidate(State(), t, w)
    {
      queue := [];
      for i := 0 to |rows|
        invariant forall t :: t in queue <==> t in rows[..i] && Candidate(State(), t, w)
      {
        var t := rows[i];
        assert rows[..i + 1] == rows[..i] + [t];
        if tasks[t].status == Queued && !(t in offers && offers[t].worker == w)
           && (limit <= 0 || StrikesOf(strikes, t, w) < limit) {
          queue := queue + [t];
        }
      }
      assert rows[..|rows|] == rows;
    }

    /** Direct dispatch or a consent offer; `pick` is the scheduler's answer, taken only if it is
        one of the tasks it was given. */
    method PopTask(rows: seq<TaskId>, w: WorkerId, consent: bool, pick: Option<TaskId>)
      requires forall t :: t in rows <==> t in tasks
      modifies this
      ensures State() == Dispatch.PopTask(old(State()), w, consent, pick)
    {
      var queue := Candidates(rows, w);
      if pick.None? || pick.value !in queue {
        return;
      }
      var t := pick.value;
      if t in offers {
        audit := audit + [Closed(offers[t].id, t, offers[t].worker, Superseded)];
        offers := offers - {t};
      }
      if consent {
        offers := offers[t := Offer(nextOffer, w)];
        audit := audit + [Offered(nextOffer, t, w)];
        nextOffer := nextOffer + 1;
      } else {
        AssignTask(t, w, None);
      }
    }

    method AssignTask(t: TaskId, w: WorkerId, via: Option<nat>)
      requires t in tasks
      modifies this`tasks, this`bundles, this`nextBundle, this`audit
      ensures State() == Assign(old(State()), t, w, via)
    {
      bundles := bundles[nextBundle := Bundle(t, w, tasks[t].intact)];
      tasks := tasks[t := tasks[t].(status := Processing, worker := Some(w))];
      audit := audit + [Assigned(t, w, via, nextBundle)];
      nextBundle := nextBundle + 1;
    }

    /** First lock section of `accept_offer`. */
    method AcceptPop(t: TaskId, w: WorkerId) returns (request: Option<nat>)
      modifies this
      ensures State() == Dispatch.AcceptPop(old(State()), t, w)
      ensures request == if t in old(offers) then Some(old(nextAccept)) else None
    {
      if t !in offers {
        return None;
      }
      var offer := offers[t];
      offers := offers - {t};
      accepts := accepts[nextAccept := Accept(t, offer, w)];
      audit := audit + [Popped(offer.id, w)];
      request := Some(nextAccept);
      nextAccept := nextAccept + 1;
    }

    /** Second lock section of `accept_offer`. */
    method AcceptFinish(r: nat)
      modifies this
      ensures State() == Dispatch.AcceptFinish(old(State()), r)
    {
      if r !in accepts {
        return;
      }
      var a := accepts[r];
      accepts := accepts - {r};
      if a.offer.worker != a.who {
        if a.task in offers {
          audit := audit + [Closed(offers[a.task].id, a.task, offers[a.task].worker, Overwritten)];
        }
        offers := offers[a.task := a.offer];
        audit := audit + [Reinserted(a.offer.id, a.task, a.offer.worker)];
        ghost var g := old(State()).(accepts := old(accepts) - {r});
        assert (g.offers - {a.task})[a.task := a.offer] == g.offers[a.task := a.offer];
      } else if a.task in tasks && tasks[a.task].status == Queued {
        AssignTask(a.task, a.who, Some(a.offer.id));
      } else {
        audit := audit + [Closed(a.offer.id, a.task, a.offer.worker, Lapsed)];
      }
    }

    method DeclineOffer(t: TaskId, w: WorkerId)
      modifies this
      ensures State() == Dispatch.DeclineOffer(old(State()), t, w)
    {
      if t in offers {
        audit := audit + [Closed(offers[t].id, t, offers[t].worker, Declined(w))];
        offers := offers - {t};
        strikes := AddStrike(strikes, t, w);
      }
    }

    /** The payload check that ends a dispatch. */
    method BuildBundle(b: nat) returns (released: bool)
      modifies this
      ensures State() == Dispatch.BuildBundle(old(State()), b)
      ensures released == (b in old(bundles) && old(bundles)[b].intact)
    {
      if b !in bundles {
        return false;
      }
      var u := bundles[b];
      bundles := bundles - {b};
      if u.intact {
        audit := audit + [Released(b, u.task, u.worker)];
        return true;
      }
      audit := audit + [Withheld(b)];
      if u.task in tasks {
        tasks := tasks[u.task := tasks[u.task].(status := FatalError)];
        audit := audit + [Blocked(u.task)];
      }
      return false;
    }

    /** `submit_result` after the signature check. */
    method SubmitResult(t: TaskId, outcome: Outcome)
      modifies this
      ensures State() == Dispatch.SubmitResult(old(State()), t, outcome)
    {
      if t !in tasks || t in disrupted || Terminal(tasks[t].status) {
        return;
      }
      ghost var row := Received(tasks[t], outcome);
      ghost var forced := RetryForced(row, outcome);
      if outcome.Success? {
        var _ := SetTaskStatus(t, Completed, false);
      } else {
        FailTask(t, outcome);
      }
      EditAfterWrite(old(State()), t, Concluded(row, outcome), DropIdleWorker(Concluded(row, outcome)), forced);
      if tasks[t].status != Processing {
        tasks := tasks[t := tasks[t].(worker := None)];
      }
      assert disrupted - {t} == disrupted;
      disrupted := disrupted - {t};
    }

    /** The preempted and failed branches: keep what came back, then retry or fail. */
    method FailTask(t: TaskId, outcome: Outcome)
      requires t in tasks && !outcome.Success?
      modifies this
      ensures var row := Received(old(tasks[t]), outcome);
              State() == Write(old(State()), t, Concluded(row, outcome), RetryForced(row, outcome))
    {
      ghost var row := Received(tasks[t], outcome);
      EditBeforeWrite(State(), t, row, Concluded(row, outcome), RetryForced(row, outcome));
      tasks := tasks[t := Received(tasks[t], outcome)];
      var retried := TryScheduleRetry(t);
      if !retried {
        var _ := SetTaskStatus(t, Failed, false);
      }
    }

    method Requeue(t: TaskId)
      modifies this
      ensures State() == Dispatch.Requeue(old(State()), t)
    {
      if t in tasks {
        ghost var row := SetStatus(tasks[t], Queued, true);
        EditAfterWrite(State(), t, row, row.(worker := None), true);
        var _ := SetTaskStatus(t, Queued, true);
        tasks := tasks[t := tasks[t].(worker := None)];
        disrupted := disrupted - {t};
      }
    }

    method Cancel(t: TaskId)
      modifies this
      ensures State() == Dispatch.Cancel(old(State()), t)
    {
      if t in tasks && tasks[t].status != Processing && !Terminal(tasks[t].status) {
        ghost var row := SetStatus(tasks[t], Disrupted, true);
        EditAfterWrite(State(), t, row, row.(worker := None), true);
        var _ := SetTaskStatus(t, Disrupted, true);
        tasks := tasks[t := tasks[t].(worker := None)];
        disrupted := disrupted + {t};
      }
    }

    method Disrupt(t: TaskId)
      modifies this
      ensures State() == Dispatch.Disrupt(old(State()), t)
    {
      if t in tasks && tasks[t].status == Processing {
        disrupted := disrupted + {t};
        var _ := SetTaskStatus(t, Disrupted, true);
        tasks := tasks[t := tasks[t].(worker := None)];
      }
    }

    method Delete(t: TaskId)
      modifies this
      ensures State() == Dispatch.Delete(old(State()), t)
    {
      if t in tasks && Terminal(tasks[t].status) {
        tasks := tasks - {t};
        disrupted := disrupted - {t};
        audit := audit + [Deleted(t)];
      }
    }

    method ApproveRow(t: TaskId)
      requires t in tasks && tasks[t].status == AwaitingApproval
      modifies this`tasks, this`strikes, this`audit
      ensures State() == Approve(old(State()), t)
      ensures tasks == old(tasks)[t := tasks[t]] && tasks[t].status == Queued
    {
      var _ := SetTaskStatus(t, Queued, false);
    }

    /** `approve_step`: release every gated step the query returned. */
    method ApproveStep(rows: seq<TaskId>)
      requires Gated(State(), rows)
      modifies this`tasks, this`strikes, this`audit
      ensures State() == Exec(old(State()), ApproveSteps(rows))
      ensures Opened(old(tasks), tasks, rows)
    {
      for i := 0 to |rows|
        invariant State() == Exec(old(State()), ApproveSteps(rows[..i]))
      {
        ApproveReady(old(State()), rows, i);
        ApproveRow(rows[i]);
      }
      assert rows[..|rows|] == rows;
      ApproveExec(old(State()), rows);
    }

    /** `plan_workflow_resume`: which stalled steps to queue and which to make wait again. */
    method PlanResume(workflow: string, rows: seq<TaskId>) returns (requeue: seq<TaskId>, rearm: seq<TaskId>)
      requires forall t :: t in rows <==> t in tasks && tasks[t].parent == workflow
      requires Distinct(rows)
      ensures Distinct(requeue) && Distinct(rearm)
      ensures forall t :: t in requeue <==> t in rows && Resumable(tasks[t].status) && DepsDone(State(), tasks[t])
      ensures forall t :: t in rearm <==> t in rows && Resumable(tasks[t].status) && !DepsDone(State(), tasks[t])
    {
      requeue, rearm := [], [];
      for i := 0 to |rows|
        invariant Distinct(requeue) && Distinct(rearm)
        invariant forall t :: t in requeue <==> t in rows[..i] && Resumable(tasks[t].status) && DepsDone(State(), tasks[t])
        invariant forall t :: t in rearm <==> t in rows[..i] && Resumable(tasks[t].status) && !DepsDone(State(), tasks[t])
      {
        var t := rows[i];
        assert t !in rows[..i] && rows[..i + 1] == rows[..i] + [t];
        if Resumable(tasks[t].status) {
          if forall d <- tasks[t].deps :: d in rows && tasks[d].status == Completed {
            requeue := requeue + [t];
          } else {
            rearm := rearm + [t];
          }
        }
      }
      assert rows[..|rows|] == rows;
    }

    /** One row of a resume; the decision is the one planned. */
    method ResumeRow(t: TaskId, queue: bool)
      requires t in tasks && Resumable(tasks[t].status) && queue == DepsDone(State(), tasks[t])
      modifies this`tasks, this`strikes, this`audit
      ensures State() == Resume(old(State()), t)
      ensures tasks == old(tasks)[t := tasks[t]] && tasks[t].parent == old(tasks[t].parent) && tasks[t].deps == old(tasks[t].deps)
      ensures tasks[t].status == if queue then Queued else Waiting
    {
      if queue {
        ghost var row := SetStatus(tasks[t], Queued, true);
        EditAfterWrite(State(), t, row, row.(worker := None), true);
        var _ := SetTaskStatus(t, Queued, true);
        tasks := tasks[t := tasks[t].(worker := None)];
      } else {
        var _ := SetTaskStatus(t, Waiting, true);
      }
    }

    /** Resume the listed rows one by one. */
    method ResumeRows(list: seq<TaskId>, queue: bool)
      requires Stalled(State(), list, queue)
      modifies this`tasks, this`strikes, this`audit
      ensures State() == Exec(old(State()), ResumeSteps(list))
    {
      for i := 0 to |list|
        invariant State() == Exec(old(State()), ResumeSteps(list[..i]))
      {
        ResumeReady(old(State()), list, queue, i);
        ResumeRow(list[i], queue);
      }
      assert list[..|list|] == list;
    }

    /** `resume_workflow`: plan once, then write the rows. Every stalled step ends up queued or
        waiting as its dependencies say, nothing else changes, and the disrupted set is kept. */
    method ResumeWorkflow(workflow: string, rows: seq<TaskId>)
      requires forall t :: t in rows <==> t in tasks && tasks[t].parent == workflow
      requires Distinct(rows)
      modifies this`tasks, this`strikes, this`audit
      ensures exists requeue, rearm :: State() == Exec(Exec(old(State()), ResumeSteps(requeue)), ResumeSteps(rearm))
      ensures tasks.Keys == old(tasks.Keys)
      ensures forall t <- tasks ::
                if t in rows && Resumable(old(tasks)[t].status)
                then tasks[t].status == (if DepsDone(old(State()), old(tasks)[t]) then Queued else Waiting)
                else tasks[t] == old(tasks)[t]
    {
      var requeue, rearm := PlanResume(workflow, rows);
      ResumeExec(State(), requeue, true);
      ResumeRows(requeue, true);
      assert Stalled(State(), rearm, false) by {
        forall t | t in rearm
          ensures t in tasks && Resumable(tasks[t].status) && !DepsDone(State(), tasks[t])
        {
          SameDeps(old(State()), State(), old(tasks)[t]);
        }
      }
      ResumeExec(State(), rearm, false);
      ResumeRows(rearm, false);
    }
  }
}
