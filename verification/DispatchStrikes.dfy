/** Strikes and refusals over whole runs: when strikes fall, how often a worker can refuse a task, and
    that no smaller bound holds. */
module DispatchStrikes {
  import opened Wrappers
  import opened Lifecycle
  import opened Dispatch
  import opened DispatchLog
  import opened DispatchEffects
  import opened DispatchTheorems

  // ---- when strikes fall ----

  predicate Fall(g: Grid, h: Grid, t: TaskId, w: WorkerId) {
    StrikesOf(h.strikes, t, w) < StrikesOf(g.strikes, t, w)
  }

  /** A worker's strikes for a task fall in a step exactly when there are some and the step ends the task. */
  lemma StrikesFallIff(g: Grid, s: Step, t: TaskId, w: WorkerId)
    ensures Fall(g, Apply(g, s), t, w) <==> Ends(g, s, t) && StrikesOf(g.strikes, t, w) > 0
  {
    StrikesAfter(g, s, t, w);
    EndedIff(g, s, t);
  }

  /** They rise exactly when the worker declines an offer of the task or lets its own expire. */
  lemma StrikesRiseIff(g: Grid, s: Step, t: TaskId, w: WorkerId)
    ensures StrikesOf(Apply(g, s).strikes, t, w) > StrikesOf(g.strikes, t, w) <==> StrikesOut(g, s, t, w)
  {
    StrikesAfter(g, s, t, w);
    EndedIff(g, s, t);
  }

  // ---- the bound over a whole run ----

  /** Refusals, put-backs and terminal moves in the whole log. */
  ghost function AllRefusals(log: Log, t: TaskId, w: WorkerId): nat {
    if log == [] then 0 else AllRefusals(log[..|log| - 1], t, w) + if Refuses(log[|log| - 1], t, w) then 1 else 0
  }

  ghost function AllPutBacks(log: Log, t: TaskId, w: WorkerId): nat {
    if log == [] then 0 else AllPutBacks(log[..|log| - 1], t, w) + if PutsBack(log[|log| - 1], t, w) then 1 else 0
  }

  ghost function Endings(log: Log, t: TaskId): nat {
    if log == [] then 0 else Endings(log[..|log| - 1], t) + if Wipes(log[|log| - 1], t) then 1 else 0
  }

  /** What was refused before the last terminal move. */
  ghost function Earlier(log: Log, t: TaskId, w: WorkerId): int {
    AllRefusals(log, t, w) - RefusalsIn(log, t, w)
  }

  ghost predicate EarlierBounded(log: Log, t: TaskId, w: WorkerId, limit: nat) {
    Earlier(log, t, w) <= limit * Endings(log, t) + AllPutBacks(log, t, w) - PutBacksIn(log, t, w)
  }

  ghost predicate PeriodBounded(log: Log, t: TaskId, w: WorkerId, limit: nat) {
    RefusalsIn(log, t, w) <= limit + PutBacksIn(log, t, w)
  }

  lemma EarlierSnoc(log: Log, e: Event, t: TaskId, w: WorkerId, limit: nat)
    requires EarlierBounded(log, t, w, limit) && PeriodBounded(log, t, w, limit)
    ensures EarlierBounded(log + [e], t, w, limit)
  {
    assert (log + [e])[..|log|] == log;
    assert limit * (Endings(log, t) + 1) == limit * Endings(log, t) + limit;
  }

  /** Events that neither refuse, nor put back, nor end. */
  predicate Neutral(e: Event) {
    !(e.Closed? && (e.how.Declined? || e.how.Expired?)) && !e.Reinserted? && !(e.Moved? && Terminal(e.to))
  }

  predicate Supersedes(e: Event) {
    e.Closed? && e.how == Superseded
  }

  /** The event hands the task to a worker other than `v`. */
  predicate HandsToAnother(e: Event, t: TaskId, v: WorkerId) {
    (e.Offered? || (e.Assigned? && e.via.None?)) && e.task == t && e.worker != v
  }

  /** The first of two events a step adds: neutral, and a superseded offer goes to somebody else at once. */
  predicate Opens(d: Event, e: Event) {
    Neutral(d) && (Supersedes(d) ==> HandsToAnother(e, d.task, d.worker))
  }

  /** A step adds nothing, one event, or two. */
  ghost predicate Grows(was: Log, now: Log) {
    || now == was
    || (exists e :: now == was + [e] && !Supersedes(e))
    || (exists d, e :: Opens(d, e) && now == was + [d] + [e] && !Supersedes(e))
  }

  lemma WriteGrows(g: Grid, t: TaskId, row: Task, forced: bool)
    requires t in g.tasks
    ensures Grows(g.audit, Write(g, t, row, forced).audit)
  {
    var e := Moved(t, g.tasks[t].status, row.status, forced);
    assert !Supersedes(e) && Write(g, t, row, forced).audit in {g.audit, g.audit + [e]};
  }

  lemma PopTaskGrows(g: Grid, w: WorkerId, consent: bool, pick: Option<TaskId>)
    ensures Grows(g.audit, PopTask(g, w, consent, pick).audit)
  {
    if pick.Some? && Candidate(g, pick.value, w) {
      var t := pick.value;
      var e := if consent then Offered(g.nextOffer, t, w) else Assigned(t, w, None, g.nextBundle);
      if t in g.offers {
        var d := Closed(g.offers[t].id, t, g.offers[t].worker, Superseded);
        assert Opens(d, e) && !Supersedes(e) && PopTask(g, w, consent, pick).audit == g.audit + [d] + [e];
      } else {
        assert !Supersedes(e) && PopTask(g, w, consent, pick).audit == g.audit + [e];
      }
    }
  }

  lemma AcceptFinishGrows(g: Grid, r: nat)
    ensures Grows(g.audit, AcceptFinish(g, r).audit)
  {
    if r in g.accepts {
      var a := g.accepts[r];
      var h := AcceptFinish(g, r);
      if a.offer.worker != a.who && a.task in g.offers {
        var d := Closed(g.offers[a.task].id, a.task, g.offers[a.task].worker, Overwritten);
        var e := Reinserted(a.offer.id, a.task, a.offer.worker);
        assert Opens(d, e) && !Supersedes(e) && h.audit == g.audit + [d] + [e];
      } else {
        var e := h.audit[|h.audit| - 1];
        assert !Supersedes(e) && h.audit == g.audit + [e];
      }
    }
  }

  lemma BuildBundleGrows(g: Grid, b: nat)
    ensures Grows(g.audit, BuildBundle(g, b).audit)
  {
    if b in g.bundles {
      var u, h := g.bundles[b], BuildBundle(g, b);
      if !u.intact && u.task in g.tasks {
        assert Opens(Withheld(b), Blocked(u.task)) && h.audit == g.audit + [Withheld(b)] + [Blocked(u.task)];
        assert !Supersedes(Blocked(u.task));
      } else {
        var e := h.audit[|h.audit| - 1];
        assert !Supersedes(e) && h.audit == g.audit + [e];
      }
    }
  }

  lemma SweepLeaseGrows(g: Grid, t: TaskId)
    ensures Grows(g.audit, SweepLease(g, t).audit)
  {
    if t in g.tasks && g.tasks[t].status == Processing {
      var row := SetStatus(g.tasks[t].(worker := None), LeaseExpired, true);
      var d, e := Moved(t, Processing, LeaseExpired, true), Moved(t, LeaseExpired, Recovered(row).status, true);
      assert Opens(d, e) && !Supersedes(e) && SweepLease(g, t).audit == g.audit + [d] + [e];
    }
  }

  lemma SingleGrows(g: Grid, s: Step)
    requires s.DoAddTask? || s.DoAcceptPop? || s.DoDecline? || s.DoExpire? || s.DoDelete?
    ensures Grows(g.audit, Apply(g, s).audit)
  {
    var h := Apply(g, s);
    if h.audit != g.audit {
      var e := h.audit[|h.audit| - 1];
      assert !Supersedes(e) && h.audit == g.audit + [e];
    }
  }

  lemma SubmitGrows(g: Grid, t: TaskId, outcome: Outcome)
    ensures Grows(g.audit, SubmitResult(g, t, outcome).audit)
  {
    if t in g.tasks {
      var row := Received(g.tasks[t], outcome);
      WriteGrows(g, t, DropIdleWorker(Concluded(row, outcome)), RetryForced(row, outcome));
    }
  }

  lemma SweepDeadGrows(g: Grid, t: TaskId, w: WorkerId)
    ensures Grows(g.audit, SweepDeadWorker(g, t, w).audit)
  {
    if t in g.tasks { WriteGrows(g, t, Recovered(g.tasks[t].(worker := None)), true); }
  }

  lemma StopGrows(g: Grid, t: TaskId)
    ensures Grows(g.audit, Cancel(g, t).audit) && Grows(g.audit, Disrupt(g, t).audit)
  {
    if t in g.tasks { WriteGrows(g, t, SetStatus(g.tasks[t], Disrupted, true).(worker := None), true); }
  }

  lemma QueueTimeoutGrows(g: Grid, t: TaskId)
    ensures Grows(g.audit, QueueTimeout(g, t).audit)
  {
    if t in g.tasks { WriteGrows(g, t, SetStatus(g.tasks[t], Failed, true), true); }
  }

  lemma RequeueGrows(g: Grid, t: TaskId)
    ensures Grows(g.audit, Requeue(g, t).audit)
  {
    if t in g.tasks { WriteGrows(g, t, SetStatus(g.tasks[t], Queued, true).(worker := None), true); }
  }

  lemma QueueGrows(g: Grid, t: TaskId)
    ensures Grows(g.audit, Approve(g, t).audit) && Grows(g.audit, RetryElapsed(g, t).audit)
  {
    if t in g.tasks { WriteGrows(g, t, SetStatus(g.tasks[t], Queued, false), false); }
  }

  lemma ResumeGrows(g: Grid, t: TaskId)
    ensures Grows(g.audit, Resume(g, t).audit)
  {
    if t in g.tasks {
      WriteGrows(g, t, SetStatus(g.tasks[t], Queued, true).(worker := None), true);
      WriteGrows(g, t, SetStatus(g.tasks[t], Waiting, true), true);
    }
  }

  lemma ReleaseGrows(g: Grid, t: TaskId, gate: bool)
    ensures Grows(g.audit, ReleaseReady(g, t, gate).audit)
  {
    if t in g.tasks {
      WriteGrows(g, t, SetStatus(g.tasks[t], Queued, false), false);
      WriteGrows(g, t, SetStatus(g.tasks[t], if gate then AwaitingApproval else Queued, false), false);
    }
  }

  lemma StepGrows(g: Grid, s: Step)
    ensures Grows(g.audit, Apply(g, s).audit)
  {
    if s.DoAddTask? || s.DoAcceptPop? || s.DoDecline? || s.DoExpire? || s.DoDelete? {
      SingleGrows(g, s);
    } else if s.DoPopTask? {
      PopTaskGrows(g, s.w, s.consent, s.pick);
    } else if s.DoAcceptFinish? {
      AcceptFinishGrows(g, s.r);
    } else if s.DoBuildBundle? {
      BuildBundleGrows(g, s.b);
    } else if s.DoSweepLease? {
      SweepLeaseGrows(g, s.t);
    } else if s.DoSubmit? {
      SubmitGrows(g, s.t, s.outcome);
    } else if s.DoSweepDead? {
      SweepDeadGrows(g, s.t, s.w);
    } else if s.DoResume? {
      ResumeGrows(g, s.t);
    } else if s.DoRelease? {
      ReleaseGrows(g, s.t, s.gate);
    } else if s.DoRequeue? {
      RequeueGrows(g, s.t);
    } else if s.DoApprove? || s.DoRetryElapsed? {
      QueueGrows(g, s.t);
    } else if s.DoQueueTimeout? {
      QueueTimeoutGrows(g, s.t);
    } else {
      StopGrows(g, s.t);
    }
  }

  lemma EarlierGrows(was: Log, now: Log, t: TaskId, w: WorkerId, limit: nat)
    requires EarlierBounded(was, t, w, limit) && PeriodBounded(was, t, w, limit) && Grows(was, now)
    ensures EarlierBounded(now, t, w, limit)
  {
    if e :| now == was + [e] && !Supersedes(e) {
      EarlierSnoc(was, e, t, w, limit);
    } else if d, e :| Opens(d, e) && now == was + [d] + [e] && !Supersedes(e) {
      EarlierSnoc(was, d, t, w, limit);
      NeutralPeriod(was, d, t, w, limit);
      EarlierSnoc(was + [d], e, t, w, limit);
    }
  }

  lemma NeutralPeriod(log: Log, d: Event, t: TaskId, w: WorkerId, limit: nat)
    requires PeriodBounded(log, t, w, limit) && Neutral(d)
    ensures PeriodBounded(log + [d], t, w, limit)
  {
    assert (log + [d])[..|log|] == log;
  }

  lemma {:induction false} RunEarlierBounded(setting: int, steps: seq<Step>, t: TaskId, w: WorkerId)
    requires EffectiveLimit(setting) > 0
    ensures EarlierBounded(Run(setting, steps).audit, t, w, EffectiveLimit(setting))
    decreases |steps|
  {
    if steps == [] {
    } else {
      var front := steps[..|steps| - 1];
      RunEarlierBounded(setting, front, t, w);
      RefusalBound(setting, front, t, w);
      StepGrows(Run(setting, front), steps[|steps| - 1]);
      EarlierGrows(Run(setting, front).audit, Run(setting, steps).audit, t, w, EffectiveLimit(setting));
    }
  }

  /** In any run a worker refuses a task at most limit times, and as often again for every terminal move
      of the task, plus once for every time a stranger's accept put its offer back. */
  lemma RunRefusalBound(setting: int, steps: seq<Step>, t: TaskId, w: WorkerId)
    requires EffectiveLimit(setting) > 0
    ensures var log := Run(setting, steps).audit;
            AllRefusals(log, t, w) <= EffectiveLimit(setting) * (1 + Endings(log, t)) + AllPutBacks(log, t, w)
  {
    RunEarlierBounded(setting, steps, t, w);
    RefusalBound(setting, steps, t, w);
    var log := Run(setting, steps).audit;
    assert EffectiveLimit(setting) * (1 + Endings(log, t)) == EffectiveLimit(setting) + EffectiveLimit(setting) * Endings(log, t);
  }

  /** Where the setting is zero, the limit is three. */
  lemma ThreeByDefault(steps: seq<Step>, t: TaskId, w: WorkerId)
    ensures var log := Run(0, steps).audit;
            AllRefusals(log, t, w) <= 3 * (1 + Endings(log, t)) + AllPutBacks(log, t, w)
  {
    RunRefusalBound(0, steps, t, w);
  }

  /** Without put-backs the limit bounds the refusals of each period between terminal moves. */
  lemma RefusalBoundAtomic(setting: int, steps: seq<Step>, t: TaskId, w: WorkerId)
    requires EffectiveLimit(setting) > 0 && AllPutBacks(Run(setting, steps).audit, t, w) == 0
    ensures var log := Run(setting, steps).audit;
            AllRefusals(log, t, w) <= EffectiveLimit(setting) * (1 + Endings(log, t))
  {
    RunRefusalBound(setting, steps, t, w);
  }

  // ---- the bound is reached ----

  /** Refusals, put-backs and terminal moves so far. */
  datatype Tally = Tally(refusals: nat, putBacks: nat, endings: nat)

  ghost function TallyOf(g: Grid, t: TaskId, w: WorkerId): Tally {
    Tally(AllRefusals(g.audit, t, w), AllPutBacks(g.audit, t, w), Endings(g.audit, t))
  }

  function Add(c: Tally, e: Event, t: TaskId, w: WorkerId): Tally {
    Tally(c.refusals + if Refuses(e, t, w) then 1 else 0,
          c.putBacks + if PutsBack(e, t, w) then 1 else 0,
          c.endings + if Wipes(e, t) then 1 else 0)
  }

  lemma TallySnoc(g: Grid, h: Grid, e: Event, t: TaskId, w: WorkerId)
    requires h.audit == g.audit + [e]
    ensures TallyOf(h, t, w) == Add(TallyOf(g, t, w), e, t, w)
  {
    assert h.audit[..|h.audit| - 1] == g.audit;
  }

  /** The task is queued and not offered, and the worker has this many strikes. */
  predicate Idle(g: Grid, t: TaskId, w: WorkerId, strikes: nat) {
    t in g.tasks && g.tasks[t].status == Queued && t !in g.offers && StrikesOf(g.strikes, t, w) == strikes
  }

  lemma OfferIdle(g: Grid, t: TaskId, w: WorkerId, n: nat)
    requires Idle(g, t, w, n) && n < g.limit
    ensures var h := PopTask(g, w, true, Some(t));
            && h.offers == g.offers[t := Offer(g.nextOffer, w)] && h.tasks == g.tasks && h.strikes == g.strikes
            && h.accepts == g.accepts && h.nextAccept == g.nextAccept && TallyOf(h, t, w) == TallyOf(g, t, w)
  {
    TallySnoc(g, PopTask(g, w, true, Some(t)), Offered(g.nextOffer, t, w), t, w);
  }

  /** A queued task offered to `w`, which has `n` strikes on it. */
  predicate OutTo(g: Grid, t: TaskId, w: WorkerId, n: nat) {
    && t in g.tasks && g.tasks[t].status == Queued && t in g.offers && g.offers[t].worker == w
    && StrikesOf(g.strikes, t, w) == n
  }

  lemma DeclineOwn(g: Grid, t: TaskId, w: WorkerId, n: nat)
    requires OutTo(g, t, w, n)
    ensures var h, c := DeclineOffer(g, t, w), TallyOf(g, t, w);
            && Idle(h, t, w, n + 1) && h.accepts == g.accepts && h.nextAccept == g.nextAccept
            && TallyOf(h, t, w) == c.(refusals := c.refusals + 1)
  {
    TallySnoc(g, DeclineOffer(g, t, w), Closed(g.offers[t].id, t, w, Declined(w)), t, w);
  }

  lemma ReachOffered(setting: int, g: Grid, t: TaskId, w: WorkerId, n: nat) returns (h: Grid)
    requires Reachable(setting, g) && Idle(g, t, w, n) && n < EffectiveLimit(setting)
    ensures Reachable(setting, h) && OutTo(h, t, w, n) && h.offers[t].id == g.nextOffer
    ensures h.accepts == g.accepts && h.nextAccept == g.nextAccept && TallyOf(h, t, w) == TallyOf(g, t, w)
  {
    Reach(setting, g, DoPopTask(w, true, Some(t)));
    OfferIdle(g, t, w, n);
    h := PopTask(g, w, true, Some(t));
  }

  lemma ReachDeclined(setting: int, g: Grid, t: TaskId, w: WorkerId, n: nat) returns (h: Grid)
    requires Reachable(setting, g) && OutTo(g, t, w, n)
    ensures Reachable(setting, h) && Idle(h, t, w, n + 1) && h.accepts == g.accepts && h.nextAccept == g.nextAccept
    ensures var c := TallyOf(g, t, w); TallyOf(h, t, w) == c.(refusals := c.refusals + 1)
  {
    Reach(setting, g, DoDecline(t, w));
    DeclineOwn(g, t, w, n);
    h := DeclineOffer(g, t, w);
  }

  /** One offer made and declined. */
  lemma Refuse(setting: int, g: Grid, t: TaskId, w: WorkerId, n: nat) returns (h: Grid)
    requires Reachable(setting, g) && Idle(g, t, w, n) && n < EffectiveLimit(setting)
    ensures Reachable(setting, h) && Idle(h, t, w, n + 1) && h.accepts == g.accepts && h.nextAccept == g.nextAccept
    ensures TallyOf(h, t, w) == TallyOf(g, t, w).(refusals := TallyOf(g, t, w).refusals + 1)
  {
    var k := ReachOffered(setting, g, t, w, n);
    h := ReachDeclined(setting, k, t, w, n);
  }

  lemma {:induction false} RefuseMany(setting: int, g: Grid, t: TaskId, w: WorkerId, n: nat, m: nat) returns (h: Grid)
    requires Reachable(setting, g) && Idle(g, t, w, n) && n + m <= EffectiveLimit(setting)
    ensures Reachable(setting, h) && Idle(h, t, w, n + m) && h.accepts == g.accepts && h.nextAccept == g.nextAccept
    ensures TallyOf(h, t, w) == TallyOf(g, t, w).(refusals := TallyOf(g, t, w).refusals + m)
    decreases m
  {
    if m == 0 {
      h := g;
    } else {
      var k := Refuse(setting, g, t, w, n);
      h := RefuseMany(setting, k, t, w, n + 1, m - 1);
    }
  }

  // ---- offers held by a stranger ----

  function Stranger(w: WorkerId): (x: WorkerId)
    ensures x != w
  {
    w + "'"
  }

  /** Requests `base` to `base + k` each hold an offer of `t` to `w` for somebody else. */
  predicate Holding(accepts: map<nat, Accept>, t: TaskId, w: WorkerId, base: nat, k: nat) {
    forall r :: base <= r < base + k ==>
      r in accepts && accepts[r] == Accept(t, Offer(accepts[r].offer.id, w), Stranger(w))
  }

  lemma HoldOffer(g: Grid, t: TaskId, w: WorkerId, n: nat)
    requires OutTo(g, t, w, n)
    ensures var h := AcceptPop(g, t, Stranger(w));
            && Idle(h, t, w, n) && TallyOf(h, t, w) == TallyOf(g, t, w) && h.nextAccept == g.nextAccept + 1
            && h.accepts == g.accepts[g.nextAccept := Accept(t, g.offers[t], Stranger(w))]
  {
    TallySnoc(g, AcceptPop(g, t, Stranger(w)), Popped(g.offers[t].id, Stranger(w)), t, w);
  }

  /** An offer made and popped by a stranger's accept. */
  lemma HoldOne(setting: int, g: Grid, t: TaskId, w: WorkerId) returns (h: Grid)
    requires Reachable(setting, g) && Idle(g, t, w, 0) && EffectiveLimit(setting) > 0
    ensures Reachable(setting, h) && Idle(h, t, w, 0) && TallyOf(h, t, w) == TallyOf(g, t, w)
    ensures h.nextAccept == g.nextAccept + 1
    ensures h.accepts == g.accepts[g.nextAccept := Accept(t, Offer(g.nextOffer, w), Stranger(w))]
  {
    var k := ReachOffered(setting, g, t, w, 0);
    Reach(setting, k, DoAcceptPop(t, Stranger(w)));
    HoldOffer(k, t, w, 0);
    h := AcceptPop(k, t, Stranger(w));
  }

  lemma HoldingOneMore(accepts: map<nat, Accept>, t: TaskId, w: WorkerId, base: nat, k: nat, id: nat)
    requires k > 0 && Holding(accepts, t, w, base, k - 1)
    ensures Holding(accepts[base + k - 1 := Accept(t, Offer(id, w), Stranger(w))], t, w, base, k)
  {
  }

  lemma HoldNext(setting: int, g: Grid, t: TaskId, w: WorkerId, base: nat, k: nat) returns (h: Grid)
    requires Reachable(setting, g) && Idle(g, t, w, 0) && EffectiveLimit(setting) > 0
    requires k > 0 && Holding(g.accepts, t, w, base, k - 1) && g.nextAccept == base + k - 1
    ensures Reachable(setting, h) && Idle(h, t, w, 0) && TallyOf(h, t, w) == TallyOf(g, t, w)
    ensures Holding(h.accepts, t, w, base, k) && h.nextAccept == base + k
  {
    HoldingOneMore(g.accepts, t, w, base, k, g.nextOffer);
    h := HoldOne(setting, g, t, w);
  }

  lemma {:induction false} HoldMany(setting: int, g: Grid, t: TaskId, w: WorkerId, k: nat) returns (h: Grid)
    requires Reachable(setting, g) && Idle(g, t, w, 0) && EffectiveLimit(setting) > 0
    ensures Reachable(setting, h) && Idle(h, t, w, 0) && TallyOf(h, t, w) == TallyOf(g, t, w)
    ensures Holding(h.accepts, t, w, g.nextAccept, k) && h.nextAccept == g.nextAccept + k
    decreases k
  {
    if k == 0 {
      h := g;
    } else {
      var f := HoldMany(setting, g, t, w, k - 1);
      h := HoldNext(setting, f, t, w, g.nextAccept, k);
    }
  }

  lemma PutBack(g: Grid, t: TaskId, w: WorkerId, n: nat, r: nat)
    requires Idle(g, t, w, n) && Holding(g.accepts, t, w, r, 1)
    ensures var h, c := AcceptFinish(g, r), TallyOf(g, t, w);
            && t in h.offers && h.offers[t].worker == w && h.tasks == g.tasks && h.strikes == g.strikes
            && h.accepts == g.accepts - {r} && TallyOf(h, t, w) == c.(putBacks := c.putBacks + 1)
  {
    TallySnoc(g, AcceptFinish(g, r), Reinserted(g.accepts[r].offer.id, t, w), t, w);
  }

  lemma ReachPutBack(setting: int, g: Grid, t: TaskId, w: WorkerId, n: nat, r: nat) returns (h: Grid)
    requires Reachable(setting, g) && Idle(g, t, w, n) && Holding(g.accepts, t, w, r, 1)
    ensures Reachable(setting, h) && OutTo(h, t, w, n) && h.accepts == g.accepts - {r}
    ensures var c := TallyOf(g, t, w); TallyOf(h, t, w) == c.(putBacks := c.putBacks + 1)
  {
    Reach(setting, g, DoAcceptFinish(r));
    PutBack(g, t, w, n, r);
    h := AcceptFinish(g, r);
  }

  lemma ReturnOne(setting: int, g: Grid, t: TaskId, w: WorkerId, n: nat, r: nat) returns (h: Grid)
    requires Reachable(setting, g) && Idle(g, t, w, n) && Holding(g.accepts, t, w, r, 1)
    ensures Reachable(setting, h) && Idle(h, t, w, n + 1) && h.accepts == g.accepts - {r}
    ensures var c := TallyOf(g, t, w); TallyOf(h, t, w) == c.(refusals := c.refusals + 1, putBacks := c.putBacks + 1)
  {
    var k := ReachPutBack(setting, g, t, w, n, r);
    h := ReachDeclined(setting, k, t, w, n);
  }

  /** The held offers put back and declined, the last first. */
  lemma {:induction false} ReturnMany(setting: int, g: Grid, t: TaskId, w: WorkerId, n: nat, base: nat, k: nat) returns (h: Grid)
    requires Reachable(setting, g) && Idle(g, t, w, n) && Holding(g.accepts, t, w, base, k)
    ensures Reachable(setting, h)
    ensures var c := TallyOf(g, t, w); TallyOf(h, t, w) == c.(refusals := c.refusals + k, putBacks := c.putBacks + k)
    decreases k
  {
    if k == 0 {
      h := g;
    } else {
      var f := ReturnOne(setting, g, t, w, n, base + k - 1);
      h := ReturnMany(setting, f, t, w, n + 1, base, k - 1);
    }
  }

  // ---- cancelled and queued again ----

  lemma CancelIdle(g: Grid, t: TaskId, w: WorkerId, n: nat)
    requires Idle(g, t, w, n)
    ensures var h := Cancel(g, t);
            && t in h.tasks && h.tasks[t].status == Disrupted && t !in h.offers && StrikesOf(h.strikes, t, w) == 0
            && h.accepts == g.accepts && h.nextAccept == g.nextAccept
            && TallyOf(h, t, w) == TallyOf(g, t, w).(endings := TallyOf(g, t, w).endings + 1)
  {
    TallySnoc(g, Cancel(g, t), Moved(t, Queued, Disrupted, true), t, w);
  }

  lemma RequeueDisrupted(g: Grid, t: TaskId, w: WorkerId)
    requires t in g.tasks && g.tasks[t].status == Disrupted && t !in g.offers && StrikesOf(g.strikes, t, w) == 0
    ensures var h := Requeue(g, t);
            Idle(h, t, w, 0) && h.accepts == g.accepts && h.nextAccept == g.nextAccept && TallyOf(h, t, w) == TallyOf(g, t, w)
  {
    TallySnoc(g, Requeue(g, t), Moved(t, Disrupted, Queued, true), t, w);
  }

  lemma ReachCancelled(setting: int, g: Grid, t: TaskId, w: WorkerId, n: nat) returns (h: Grid)
    requires Reachable(setting, g) && Idle(g, t, w, n)
    ensures Reachable(setting, h) && h == Cancel(g, t)
  {
    Reach(setting, g, DoCancel(t));
    h := Cancel(g, t);
  }

  lemma ReachRequeued(setting: int, g: Grid, t: TaskId) returns (h: Grid)
    requires Reachable(setting, g)
    ensures Reachable(setting, h) && h == Requeue(g, t)
  {
    Reach(setting, g, DoRequeue(t));
    h := Requeue(g, t);
  }

  lemma Revive(setting: int, g: Grid, t: TaskId, w: WorkerId, n: nat) returns (h: Grid)
    requires Reachable(setting, g) && Idle(g, t, w, n)
    ensures Reachable(setting, h) && Idle(h, t, w, 0) && h.accepts == g.accepts && h.nextAccept == g.nextAccept
    ensures TallyOf(h, t, w) == TallyOf(g, t, w).(endings := TallyOf(g, t, w).endings + 1)
  {
    CancelIdle(g, t, w, n);
    var k := ReachCancelled(setting, g, t, w, n);
    RequeueDisrupted(k, t, w);
    h := ReachRequeued(setting, k, t);
  }

  /** The limit used up once more, after one terminal move. */
  function OneMore(c: Tally, limit: nat): Tally {
    c.(refusals := c.refusals + limit, endings := c.endings + 1)
  }

  /** The tally once the limit has been used up, and `m` times again after a terminal move. */
  function UsedUp(c: Tally, limit: nat, m: nat): Tally {
    if m == 0 then c.(refusals := c.refusals + limit)
    else OneMore(UsedUp(c, limit, m - 1), limit)
  }

  lemma {:induction false} UsedUpIs(c: Tally, limit: nat, m: nat)
    ensures UsedUp(c, limit, m) == Tally(c.refusals + limit * (1 + m), c.putBacks, c.endings + m)
  {
    if m == 0 {
    } else {
      UsedUpIs(c, limit, m - 1);
      assert limit * m + limit == limit * (1 + m);
    }
  }

  lemma RefuseAll(setting: int, g: Grid, t: TaskId, w: WorkerId, limit: nat) returns (h: Grid)
    requires limit == EffectiveLimit(setting) && Reachable(setting, g) && Idle(g, t, w, 0)
    ensures Reachable(setting, h) && Idle(h, t, w, limit) && h.accepts == g.accepts && h.nextAccept == g.nextAccept
    ensures TallyOf(h, t, w) == UsedUp(TallyOf(g, t, w), limit, 0)
  {
    h := RefuseMany(setting, g, t, w, 0, limit);
  }

  /** A cancel and a requeue, and the limit used up once more. */
  lemma ReviveAndRefuse(setting: int, g: Grid, t: TaskId, w: WorkerId, limit: nat) returns (h: Grid)
    requires limit == EffectiveLimit(setting) && Reachable(setting, g) && Idle(g, t, w, limit)
    ensures Reachable(setting, h) && Idle(h, t, w, limit) && h.accepts == g.accepts && h.nextAccept == g.nextAccept
    ensures TallyOf(h, t, w) == OneMore(TallyOf(g, t, w), limit)
  {
    var k := Revive(setting, g, t, w, limit);
    h := RefuseMany(setting, k, t, w, 0, limit);
  }

  /** The limit used up, and so often again after a cancel and a requeue. */
  lemma {:induction false} RefuseThrough(setting: int, g: Grid, t: TaskId, w: WorkerId, m: nat, limit: nat) returns (h: Grid)
    requires limit == EffectiveLimit(setting) && Reachable(setting, g) && Idle(g, t, w, 0)
    ensures Reachable(setting, h) && Idle(h, t, w, limit) && h.accepts == g.accepts && h.nextAccept == g.nextAccept
    ensures TallyOf(h, t, w) == UsedUp(TallyOf(g, t, w), limit, m)
    decreases m
  {
    if m == 0 {
      h := RefuseAll(setting, g, t, w, limit);
    } else {
      var f := RefuseThrough(setting, g, t, w, m - 1, limit);
      h := ReviveAndRefuse(setting, f, t, w, limit);
    }
  }

  lemma FreshTask(setting: int, t: TaskId, w: WorkerId) returns (g: Grid)
    ensures Reachable(setting, g) && Idle(g, t, w, 0) && TallyOf(g, t, w) == Tally(0, 0, 0)
  {
    assert Run(setting, []) == Start(setting);
    Reach(setting, Start(setting), DoAddTask(t, [], "", 0));
    g := AddTask(Start(setting), t, [], "", 0);
    TallySnoc(Start(setting), g, Created(t, Queued), t, w);
  }

  /** For every limit and every number of terminal moves and put-backs there is a run that reaches the bound. */
  lemma BoundIsReached(setting: int, t: TaskId, w: WorkerId, endings: nat, putBacks: nat) returns (steps: seq<Step>)
    requires EffectiveLimit(setting) > 0
    ensures TallyOf(Run(setting, steps), t, w) == Tally(EffectiveLimit(setting) * (1 + endings) + putBacks, putBacks, endings)
  {
    var a := FreshTask(setting, t, w);
    var b := HoldMany(setting, a, t, w, putBacks);
    var c := RefuseThrough(setting, b, t, w, endings, EffectiveLimit(setting));
    var d := ReturnMany(setting, c, t, w, EffectiveLimit(setting), a.nextAccept, putBacks);
    UsedUpIs(Tally(0, 0, 0), EffectiveLimit(setting), endings);
    steps :| Run(setting, steps) == d;
  }

  /** The limit itself bounds the refusals in all runs with so many terminal moves and put-backs exactly
      when there are none of either. */
  lemma LimitBoundsIff(setting: int, t: TaskId, w: WorkerId, endings: nat, putBacks: nat)
    requires EffectiveLimit(setting) > 0
    ensures (forall steps ::
               var c := TallyOf(Run(setting, steps), t, w);
               c.endings == endings && c.putBacks == putBacks ==> c.refusals <= EffectiveLimit(setting))
            <==> endings == 0 && putBacks == 0
  {
    var reached := BoundIsReached(setting, t, w, endings, putBacks);
    assert TallyOf(Run(setting, reached), t, w).putBacks == putBacks;
    if endings > 0 { assert EffectiveLimit(setting) * (1 + endings) >= 2 * EffectiveLimit(setting); }
    if endings == 0 && putBacks == 0 {
      forall steps | TallyOf(Run(setting, steps), t, w).endings == 0 && TallyOf(Run(setting, steps), t, w).putBacks == 0
        ensures TallyOf(Run(setting, steps), t, w).refusals <= EffectiveLimit(setting)
      {
        RunRefusalBound(setting, steps, t, w);
      }
    }
  }

  lemma CancelNext(setting: int, steps: seq<Step>, g: Grid, t: TaskId, w: WorkerId, n: nat)
    requires Run(setting, steps) == g && Idle(g, t, w, n)
    ensures StrikesOf(Run(setting, steps + [DoCancel(t)]).strikes, t, w) == 0
  {
    CancelIdle(g, t, w, n);
    ExecSnoc(Start(setting), steps, DoCancel(t));
  }

  lemma RefusedOnce(setting: int, t: TaskId, w: WorkerId) returns (steps: seq<Step>)
    requires EffectiveLimit(setting) > 0
    ensures Idle(Run(setting, steps), t, w, 1)
  {
    var g := FreshTask(setting, t, w);
    g := Refuse(setting, g, t, w, 0);
    steps :| Run(setting, steps) == g;
  }

  /** Strikes do fall in a run: whenever a task that was refused is cancelled. */
  lemma StrikesFallInARun(setting: int, t: TaskId, w: WorkerId) returns (steps: seq<Step>)
    requires EffectiveLimit(setting) > 0
    ensures StrikesOf(Run(setting, steps).strikes, t, w) == 1
    ensures StrikesOf(Run(setting, steps + [DoCancel(t)]).strikes, t, w) == 0
  {
    steps := RefusedOnce(setting, t, w);
    CancelNext(setting, steps, Run(setting, steps), t, w, 1);
  }
}
