/** Every run of dispatch keeps the tables in agreement with the log, and the log legal. */
module DispatchSafety {
  import opened Wrappers
  import opened Lifecycle
  import opened Dispatch
  import opened DispatchLog

  function RowStatus(g: Grid, t: TaskId): Option<Status> {
    if t in g.tasks then Some(g.tasks[t].status) else None
  }

  ghost predicate StatusAgrees(g: Grid) {
    forall t :: StatusIn(g.audit, t) == RowStatus(g, t)
  }

  /** The offer map holds exactly the pending offers. */
  ghost predicate PendingAgrees(g: Grid) {
    && (forall t <- g.offers :: PlaceIn(g.audit, g.offers[t].id) == Pending(t, g.offers[t].worker))
    && (forall id :: PlaceIn(g.audit, id).Pending? ==>
          var p := PlaceIn(g.audit, id);
          p.task in g.offers && g.offers[p.task] == Offer(id, p.worker))
  }

  ghost predicate HeldBy(g: Grid, id: nat, r: nat) {
    && r in g.accepts && g.accepts[r].offer.id == id
    && PlaceIn(g.audit, id) == Held(g.accepts[r].task, g.accepts[r].offer.worker, g.accepts[r].who)
  }

  /** The in-flight accepts hold exactly the held offers, each offer in one accept. */
  ghost predicate HeldAgrees(g: Grid) {
    && (forall r <- g.accepts :: r < g.nextAccept && HeldBy(g, g.accepts[r].offer.id, r))
    && (forall id :: PlaceIn(g.audit, id).Held? ==> exists r :: HeldBy(g, id, r))
    && (forall id, r, q :: HeldBy(g, id, r) && HeldBy(g, id, q) ==> r == q)
  }

  ghost predicate IssuedAgrees(g: Grid) {
    forall id: nat :: PlaceIn(g.audit, id).Unissued? <==> g.nextOffer <= id
  }

  ghost predicate OffersAgree(g: Grid) {
    PendingAgrees(g) && HeldAgrees(g) && IssuedAgrees(g)
  }

  ghost predicate BundlesAgree(g: Grid) {
    && (forall b <- g.bundles :: StageIn(g.audit, b) == Building(g.bundles[b].task, g.bundles[b].worker))
    && (forall b :: StageIn(g.audit, b).Building? ==> b in g.bundles)
    && (forall b: nat :: StageIn(g.audit, b).Unbuilt? <==> g.nextBundle <= b)
  }

  ghost predicate StrikesAgree(g: Grid) {
    forall t, w :: StrikesOf(g.strikes, t, w) == StrikesIn(g.audit, t, w)
  }

  function Names(g: Grid, t: TaskId, w: WorkerId): nat {
    if t in g.offers && g.offers[t].worker == w then 1 else 0
  }

  /** Refusals used up, plus the one an outstanding offer may still bring. */
  ghost predicate WithinBudget(g: Grid) {
    g.limit > 0 ==>
      forall t, w :: RefusalsIn(g.audit, t, w) + Names(g, t, w) <= g.limit + PutBacksIn(g.audit, t, w)
  }

  ghost predicate Inv(g: Grid) {
    && LegalLog(g.audit, g.limit)
    && StatusAgrees(g)
    && OffersAgree(g)
    && BundlesAgree(g)
    && StrikesAgree(g)
    && WithinBudget(g)
  }

  lemma StartInv(setting: int)
    ensures Inv(Start(setting))
  {
  }

  // ---- one event at a time, one table at a time ----

  ghost predicate Extends(g: Grid, h: Grid, e: Event) {
    h.limit == g.limit && h.audit == g.audit + [e]
  }

  lemma ExtendStatus(g: Grid, h: Grid, e: Event)
    requires StatusAgrees(g) && Extends(g, h, e)
    requires forall t :: RowStatus(h, t) == NextStatus(RowStatus(g, t), e, t)
    ensures StatusAgrees(h)
  {
    SnocStatus(g.audit, e);
  }

  lemma ExtendStrikes(g: Grid, h: Grid, e: Event)
    requires StrikesAgree(g) && Extends(g, h, e)
    requires forall t, w :: StrikesOf(h.strikes, t, w) ==
                            if Wipes(e, t) then 0 else StrikesOf(g.strikes, t, w) + if Strikes(e, t, w) then 1 else 0
    ensures StrikesAgree(h)
  {
    SnocStrikes(g.audit, e);
  }

  /** No event but an offer uses budget that was not set aside or put back. */
  lemma ExtendBudget(g: Grid, h: Grid, e: Event)
    requires WithinBudget(g) && Extends(g, h, e)
    requires forall t, w :: Names(h, t, w) + (if Refuses(e, t, w) then 1 else 0)
                            <= Names(g, t, w) + (if PutsBack(e, t, w) then 1 else 0)
    ensures WithinBudget(h)
  {
    SnocBudget(g.audit, e);
  }

  predicate TouchesOffers(e: Event) {
    e.Offered? || e.Popped? || e.Reinserted? || e.Closed? || (e.Assigned? && e.via.Some?)
  }

  predicate TouchesBundles(e: Event) {
    e.Assigned? || e.Released? || e.Withheld?
  }

  lemma HeldFrame(g: Grid, h: Grid)
    requires HeldAgrees(g)
    requires h.accepts == g.accepts && h.nextAccept == g.nextAccept
    requires forall id :: PlaceIn(h.audit, id).Held? || PlaceIn(g.audit, id).Held? ==> PlaceIn(h.audit, id) == PlaceIn(g.audit, id)
    ensures HeldAgrees(h)
  {
    assert forall id, r :: HeldBy(h, id, r) <==> HeldBy(g, id, r);
  }

  lemma OffersFrame(g: Grid, h: Grid, e: Event)
    requires OffersAgree(g) && Extends(g, h, e) && !TouchesOffers(e)
    requires h.offers == g.offers && h.accepts == g.accepts
    requires h.nextAccept == g.nextAccept && h.nextOffer == g.nextOffer
    ensures OffersAgree(h)
  {
    SnocPlace(g.audit, e);
    HeldFrame(g, h);
  }

  lemma BundlesFrame(g: Grid, h: Grid, e: Event)
    requires BundlesAgree(g) && Extends(g, h, e) && !TouchesBundles(e)
    requires h.bundles == g.bundles && h.nextBundle == g.nextBundle
    ensures BundlesAgree(h)
  {
    SnocStage(g.audit, e);
  }

  // ---- the building blocks ----

  lemma WriteInv(g: Grid, t: TaskId, row: Task, forced: bool)
    requires Inv(g) && t in g.tasks
    requires row.status == g.tasks[t].status || MayMove(g.tasks[t].status, row.status, forced)
    ensures Inv(Write(g, t, row, forced))
  {
    var h := Write(g, t, row, forced);
    if row.status == g.tasks[t].status {
      assert StatusAgrees(h);
      HeldFrame(g, h);
    } else {
      var e := Moved(t, g.tasks[t].status, row.status, forced);
      Snoc(g.audit, e);
      ExtendStatus(g, h, e);
      OffersFrame(g, h, e);
      BundlesFrame(g, h, e);
      ExtendStrikes(g, h, e);
      ExtendBudget(g, h, e);
    }
  }

  lemma CloseOffers(g: Grid, t: TaskId, how: Closing)
    requires OffersAgree(g) && t in g.offers
    ensures OffersAgree(CloseOffer(g, t, how))
  {
    SnocPlace(g.audit, Closed(g.offers[t].id, t, g.offers[t].worker, how));
    HeldFrame(g, CloseOffer(g, t, how));
  }

  /** An offer closed with or without a strike, as its closing demands. */
  lemma CloseInv(g: Grid, t: TaskId, how: Closing, h: Grid)
    requires Inv(g) && t in g.offers && how != Lapsed
    requires h == CloseOffer(g, t, how).(strikes := h.strikes)
    requires h.strikes == match how
                          case Declined(w) => AddStrike(g.strikes, t, w)
                          case Expired => AddStrike(g.strikes, t, g.offers[t].worker)
                          case _ => g.strikes
    ensures Inv(h)
  {
    var e := Closed(g.offers[t].id, t, g.offers[t].worker, how);
    Snoc(g.audit, e);
    ExtendStatus(g, h, e);
    CloseOffers(g, t, how);
    HeldFrame(CloseOffer(g, t, how), h);
    BundlesFrame(g, h, e);
    ExtendStrikes(g, h, e);
    ExtendBudget(g, h, e);
  }

  lemma IssueOffers(g: Grid, t: TaskId, w: WorkerId)
    requires OffersAgree(g) && t !in g.offers
    ensures OffersAgree(IssueOffer(g, t, w))
  {
    SnocPlace(g.audit, Offered(g.nextOffer, t, w));
    HeldFrame(g, IssueOffer(g, t, w));
  }

  /** A fresh offer is within budget because the worker is still below the limit. */
  lemma IssueBudget(g: Grid, t: TaskId, w: WorkerId)
    requires WithinBudget(g) && StrikesAgree(g) && t !in g.offers
    requires BelowLimit(StrikesOf(g.strikes, t, w), g.limit)
    ensures WithinBudget(IssueOffer(g, t, w))
  {
    SnocBudget(g.audit, Offered(g.nextOffer, t, w));
    RefusalsAreStrikes(g.audit, t, w);
  }

  lemma IssueInv(g: Grid, t: TaskId, w: WorkerId)
    requires Inv(g) && t !in g.offers
    requires t in g.tasks && g.tasks[t].status == Queued
    requires BelowLimit(StrikesOf(g.strikes, t, w), g.limit)
    ensures Inv(IssueOffer(g, t, w))
  {
    var e := Offered(g.nextOffer, t, w);
    var h := IssueOffer(g, t, w);
    Snoc(g.audit, e);
    ExtendStatus(g, h, e);
    IssueOffers(g, t, w);
    BundlesFrame(g, h, e);
    ExtendStrikes(g, h, e);
    IssueBudget(g, t, w);
  }

  lemma AssignBundles(g: Grid, t: TaskId, w: WorkerId, via: Option<nat>)
    requires BundlesAgree(g) && t in g.tasks
    ensures BundlesAgree(Assign(g, t, w, via))
  {
    SnocStage(g.audit, Assigned(t, w, via, g.nextBundle));
  }

  lemma DirectAssignInv(g: Grid, t: TaskId, w: WorkerId)
    requires Inv(g) && t in g.tasks && g.tasks[t].status == Queued
    requires BelowLimit(StrikesOf(g.strikes, t, w), g.limit)
    ensures Inv(Assign(g, t, w, None))
  {
    var e := Assigned(t, w, None, g.nextBundle);
    var h := Assign(g, t, w, None);
    Snoc(g.audit, e);
    ExtendStatus(g, h, e);
    OffersFrame(g, h, e);
    AssignBundles(g, t, w, None);
    ExtendStrikes(g, h, e);
    ExtendBudget(g, h, e);
  }

  // ---- the handlers ----

  lemma PopTaskInv(g: Grid, w: WorkerId, consent: bool, pick: Option<TaskId>)
    requires Inv(g)
    ensures Inv(PopTask(g, w, consent, pick))
  {
    if pick.Some? && Candidate(g, pick.value, w) {
      var t := pick.value;
      var h := if t in g.offers then CloseOffer(g, t, Superseded) else g;
      if t in g.offers { CloseInv(g, t, Superseded, h); }
      if consent { IssueInv(h, t, w); } else { DirectAssignInv(h, t, w); }
    }
  }

  lemma AcceptPopHeld(g: Grid, t: TaskId, w: WorkerId)
    requires OffersAgree(g) && t in g.offers
    ensures HeldAgrees(AcceptPop(g, t, w))
  {
    SnocPlace(g.audit, Popped(g.offers[t].id, w));
    var h := AcceptPop(g, t, w);
    forall id | PlaceIn(h.audit, id).Held?
      ensures exists r :: HeldBy(h, id, r)
    {
      if id == g.offers[t].id {
        assert HeldBy(h, id, g.nextAccept);
      } else {
        var r :| HeldBy(g, id, r);
        assert HeldBy(h, id, r);
      }
    }
    forall id, r, q | HeldBy(h, id, r) && HeldBy(h, id, q)
      ensures r == q
    {
      assert r != g.nextAccept ==> HeldBy(g, id, r);
      assert q != g.nextAccept ==> HeldBy(g, id, q);
    }
  }

  lemma AcceptPopOffers(g: Grid, t: TaskId, w: WorkerId)
    requires OffersAgree(g) && t in g.offers
    ensures OffersAgree(AcceptPop(g, t, w))
  {
    SnocPlace(g.audit, Popped(g.offers[t].id, w));
    AcceptPopHeld(g, t, w);
  }

  lemma AcceptPopInv(g: Grid, t: TaskId, w: WorkerId)
    requires Inv(g)
    ensures Inv(AcceptPop(g, t, w))
  {
    if t in g.offers {
      var e := Popped(g.offers[t].id, w);
      var h := AcceptPop(g, t, w);
      Snoc(g.audit, e);
      ExtendStatus(g, h, e);
      AcceptPopOffers(g, t, w);
      BundlesFrame(g, h, e);
      ExtendStrikes(g, h, e);
      ExtendBudget(g, h, e);
    }
  }

  /** An accept goes away together with the held place of its offer. */
  lemma DropAcceptHeld(g: Grid, r: nat, h: Grid)
    requires HeldAgrees(g) && r in g.accepts
    requires h.accepts == g.accepts - {r} && h.nextAccept == g.nextAccept
    requires !PlaceIn(h.audit, g.accepts[r].offer.id).Held?
    requires forall id :: id != g.accepts[r].offer.id && (PlaceIn(h.audit, id).Held? || PlaceIn(g.audit, id).Held?)
                          ==> PlaceIn(h.audit, id) == PlaceIn(g.audit, id)
    ensures HeldAgrees(h)
  {
    assert HeldBy(g, g.accepts[r].offer.id, r);
    forall q | q in h.accepts
      ensures q < h.nextAccept && HeldBy(h, h.accepts[q].offer.id, q)
    {
      assert HeldBy(g, g.accepts[q].offer.id, q);
    }
    forall id | PlaceIn(h.audit, id).Held?
      ensures exists q :: HeldBy(h, id, q)
    {
      var q :| HeldBy(g, id, q);
      assert HeldBy(h, id, q);
    }
    forall id, p, q | HeldBy(h, id, p) && HeldBy(h, id, q)
      ensures p == q
    {
      assert HeldBy(g, id, p) && HeldBy(g, id, q);
    }
  }

  /** One accept resolved by one event about its offer; `place` is where the offer goes. */
  lemma ResolveOffers(g: Grid, r: nat, h: Grid, e: Event)
    requires OffersAgree(g) && r in g.accepts && Extends(g, h, e)
    requires h.accepts == g.accepts - {r} && h.nextAccept == g.nextAccept && h.nextOffer == g.nextOffer
    requires h.offers == if e.Reinserted? then g.offers[g.accepts[r].task := g.accepts[r].offer] else g.offers
    requires e.Reinserted? ==> g.accepts[r].task !in g.offers
    requires e == Reinserted(g.accepts[r].offer.id, g.accepts[r].task, g.accepts[r].offer.worker)
          || (e.Assigned? && e.via == Some(g.accepts[r].offer.id))
          || (e.Closed? && e.offer == g.accepts[r].offer.id)
    ensures OffersAgree(h)
  {
    assert HeldBy(g, g.accepts[r].offer.id, r);
    SnocPlace(g.audit, e);
    DropAcceptHeld(g, r, h);
  }

  lemma PutBackInv(g: Grid, r: nat)
    requires Inv(g) && r in g.accepts
    requires g.accepts[r].task !in g.offers && g.accepts[r].who != g.accepts[r].offer.worker
    ensures Inv(Reinsert(g.(accepts := g.accepts - {r}), g.accepts[r]))
  {
    var a := g.accepts[r];
    var e := Reinserted(a.offer.id, a.task, a.offer.worker);
    var h := Reinsert(g.(accepts := g.accepts - {r}), a);
    assert HeldBy(g, a.offer.id, r);
    Snoc(g.audit, e);
    ExtendStatus(g, h, e);
    ResolveOffers(g, r, h, e);
    BundlesFrame(g, h, e);
    ExtendStrikes(g, h, e);
    ExtendBudget(g, h, e);
  }

  lemma ReinsertInv(g: Grid, r: nat)
    requires Inv(g) && r in g.accepts && g.accepts[r].who != g.accepts[r].offer.worker
    ensures Inv(Reinsert(g.(accepts := g.accepts - {r}), g.accepts[r]))
  {
    var t := g.accepts[r].task;
    if t in g.offers {
      var k := CloseOffer(g, t, Overwritten);
      CloseInv(g, t, Overwritten, k);
      PutBackInv(k, r);
      assert Reinsert(k.(accepts := k.accepts - {r}), k.accepts[r]) == Reinsert(g.(accepts := g.accepts - {r}), g.accepts[r]);
    } else {
      PutBackInv(g, r);
    }
  }

  lemma ConsentAssignInv(g: Grid, r: nat)
    requires Inv(g) && r in g.accepts && g.accepts[r].who == g.accepts[r].offer.worker
    requires g.accepts[r].task in g.tasks && g.tasks[g.accepts[r].task].status == Queued
    ensures Inv(Assign(g.(accepts := g.accepts - {r}), g.accepts[r].task, g.accepts[r].who, Some(g.accepts[r].offer.id)))
  {
    var a := g.accepts[r];
    var e := Assigned(a.task, a.who, Some(a.offer.id), g.nextBundle);
    var h := Assign(g.(accepts := g.accepts - {r}), a.task, a.who, Some(a.offer.id));
    assert HeldBy(g, a.offer.id, r);
    Snoc(g.audit, e);
    ExtendStatus(g, h, e);
    ResolveOffers(g, r, h, e);
    AssignBundles(g, a.task, a.who, Some(a.offer.id));
    ExtendStrikes(g, h, e);
    ExtendBudget(g, h, e);
  }

  lemma LapseInv(g: Grid, r: nat)
    requires Inv(g) && r in g.accepts && g.accepts[r].who == g.accepts[r].offer.worker
    ensures Inv(g.(accepts := g.accepts - {r},
                   audit := g.audit + [Closed(g.accepts[r].offer.id, g.accepts[r].task, g.accepts[r].offer.worker, Lapsed)]))
  {
    var a := g.accepts[r];
    var e := Closed(a.offer.id, a.task, a.offer.worker, Lapsed);
    var h := g.(accepts := g.accepts - {r}, audit := g.audit + [e]);
    assert HeldBy(g, a.offer.id, r);
    Snoc(g.audit, e);
    ExtendStatus(g, h, e);
    ResolveOffers(g, r, h, e);
    BundlesFrame(g, h, e);
    ExtendStrikes(g, h, e);
    ExtendBudget(g, h, e);
  }

  lemma AcceptFinishInv(g: Grid, r: nat)
    requires Inv(g)
    ensures Inv(AcceptFinish(g, r))
  {
    if r in g.accepts {
      if g.accepts[r].offer.worker != g.accepts[r].who {
        ReinsertInv(g, r);
      } else if g.accepts[r].task in g.tasks && g.tasks[g.accepts[r].task].status == Queued {
        ConsentAssignInv(g, r);
      } else {
        LapseInv(g, r);
      }
    }
  }

  /** A bundle leaves the table by one event of its own. */
  lemma FinishBundleInv(g: Grid, b: nat, e: Event)
    requires Inv(g) && b in g.bundles
    requires e == Released(b, g.bundles[b].task, g.bundles[b].worker) || e == Withheld(b)
    ensures Inv(g.(bundles := g.bundles - {b}, audit := g.audit + [e]))
  {
    var h := g.(bundles := g.bundles - {b}, audit := g.audit + [e]);
    Snoc(g.audit, e);
    ExtendStatus(g, h, e);
    OffersFrame(g, h, e);
    SnocStage(g.audit, e);
    assert BundlesAgree(h);
    ExtendStrikes(g, h, e);
    ExtendBudget(g, h, e);
  }

  lemma BuildBundleInv(g: Grid, b: nat)
    requires Inv(g)
    ensures Inv(BuildBundle(g, b))
  {
    if b in g.bundles {
      var u := g.bundles[b];
      if u.intact {
        FinishBundleInv(g, b, Released(b, u.task, u.worker));
      } else {
        var k := g.(bundles := g.bundles - {b}, audit := g.audit + [Withheld(b)]);
        FinishBundleInv(g, b, Withheld(b));
        if u.task in k.tasks {
          RowEventInv(k, BuildBundle(g, b), Blocked(u.task));
        }
      }
    }
  }

  /** Events that only create, block or delete a row. */
  lemma RowEventInv(g: Grid, h: Grid, e: Event)
    requires Inv(g) && (e.Created? || e.Blocked? || e.Deleted?) && Legal(g.audit, e, g.limit)
    requires h == g.(tasks := h.tasks, disrupted := h.disrupted, audit := g.audit + [e])
    requires forall t :: RowStatus(h, t) == NextStatus(RowStatus(g, t), e, t)
    ensures Inv(h)
  {
    Snoc(g.audit, e);
    ExtendStatus(g, h, e);
    OffersFrame(g, h, e);
    BundlesFrame(g, h, e);
    ExtendStrikes(g, h, e);
    ExtendBudget(g, h, e);
  }

  /** The disrupted set plays no part in the log. */
  lemma DisruptedFrame(g: Grid, disrupted: set<TaskId>)
    requires Inv(g)
    ensures Inv(g.(disrupted := disrupted))
  {
    var h := g.(disrupted := disrupted);
    assert forall t :: RowStatus(h, t) == RowStatus(g, t);
    HeldFrame(g, h);
    assert forall t, w :: Names(h, t, w) == Names(g, t, w);
  }

  lemma SubmitInv(g: Grid, t: TaskId, outcome: Outcome)
    requires Inv(g)
    ensures Inv(SubmitResult(g, t, outcome))
  {
    if t in g.tasks && t !in g.disrupted && !Terminal(g.tasks[t].status) {
      var row := Received(g.tasks[t], outcome);
      WriteInv(g, t, DropIdleWorker(Concluded(row, outcome)), RetryForced(row, outcome));
    }
  }

  lemma RequeueInv(g: Grid, t: TaskId)
    requires Inv(g)
    ensures Inv(Requeue(g, t))
  {
    if t in g.tasks {
      var row := SetStatus(g.tasks[t], Queued, true).(worker := None);
      WriteInv(g, t, row, true);
      DisruptedFrame(Write(g, t, row, true), g.disrupted - {t});
    }
  }

  lemma StopInv(g: Grid, t: TaskId)
    requires Inv(g)
    ensures Inv(Cancel(g, t))
    ensures Inv(Disrupt(g, t))
  {
    if t in g.tasks {
      var row := SetStatus(g.tasks[t], Disrupted, true).(worker := None);
      WriteInv(g, t, row, true);
      DisruptedFrame(Write(g, t, row, true), g.disrupted + {t});
    }
  }

  lemma ApproveInv(g: Grid, t: TaskId)
    requires Inv(g)
    ensures Inv(Approve(g, t))
  {
    if t in g.tasks { WriteInv(g, t, SetStatus(g.tasks[t], Queued, false), false); }
  }

  lemma ResumeInv(g: Grid, t: TaskId)
    requires Inv(g)
    ensures Inv(Resume(g, t))
  {
    if t in g.tasks {
      if DepsDone(g, g.tasks[t]) {
        WriteInv(g, t, SetStatus(g.tasks[t], Queued, true).(worker := None), true);
      } else {
        WriteInv(g, t, SetStatus(g.tasks[t], Waiting, true), true);
      }
    }
  }

  lemma ReleaseInv(g: Grid, t: TaskId, gate: bool)
    requires Inv(g)
    ensures Inv(ReleaseReady(g, t, gate))
  {
    if t in g.tasks {
      if g.tasks[t].deps == [] {
        WriteInv(g, t, SetStatus(g.tasks[t], Queued, false), false);
      } else {
        WriteInv(g, t, SetStatus(g.tasks[t], if gate then AwaitingApproval else Queued, false), false);
      }
    }
  }

  lemma RetryElapsedInv(g: Grid, t: TaskId)
    requires Inv(g)
    ensures Inv(RetryElapsed(g, t))
  {
    if t in g.tasks { WriteInv(g, t, SetStatus(g.tasks[t], Queued, false), false); }
  }

  lemma SweepDeadInv(g: Grid, t: TaskId, w: WorkerId)
    requires Inv(g)
    ensures Inv(SweepDeadWorker(g, t, w))
  {
    if t in g.tasks { WriteInv(g, t, Recovered(g.tasks[t].(worker := None)), true); }
  }

  lemma SweepLeaseInv(g: Grid, t: TaskId)
    requires Inv(g)
    ensures Inv(SweepLease(g, t))
  {
    if t in g.tasks && g.tasks[t].status == Processing {
      var row := SetStatus(g.tasks[t].(worker := None), LeaseExpired, true);
      WriteInv(g, t, row, true);
      WriteInv(Write(g, t, row, true), t, Recovered(row), true);
    }
  }

  lemma QueueTimeoutInv(g: Grid, t: TaskId)
    requires Inv(g)
    ensures Inv(QueueTimeout(g, t))
  {
    if t in g.tasks { WriteInv(g, t, SetStatus(g.tasks[t], Failed, true), true); }
  }

  lemma AddInv(g: Grid, t: TaskId, deps: seq<TaskId>, parent: string, retryMax: nat)
    requires Inv(g)
    ensures Inv(AddTask(g, t, deps, parent, retryMax))
  {
    if t !in g.tasks {
      assert StatusIn(g.audit, t) == RowStatus(g, t);
      RowEventInv(g, AddTask(g, t, deps, parent, retryMax), Created(t, if deps == [] then Queued else Waiting));
    }
  }

  lemma DeleteInv(g: Grid, t: TaskId)
    requires Inv(g)
    ensures Inv(Delete(g, t))
  {
    if t in g.tasks && Terminal(g.tasks[t].status) {
      assert StatusIn(g.audit, t) == RowStatus(g, t);
      RowEventInv(g, Delete(g, t), Deleted(t));
    }
  }

  lemma OfferInv(g: Grid, s: Step)
    requires Inv(g) && (s.DoDecline? || s.DoExpire?)
    ensures Inv(Apply(g, s))
  {
    if s.t in g.offers {
      CloseInv(g, s.t, if s.DoDecline? then Declined(s.w) else Expired, Apply(g, s));
    }
  }

  predicate ByWorker(s: Step) {
    s.DoPopTask? || s.DoAcceptPop? || s.DoAcceptFinish? || s.DoBuildBundle? || s.DoSubmit?
  }

  predicate ByOperator(s: Step) {
    s.DoRequeue? || s.DoCancel? || s.DoDisrupt? || s.DoApprove? || s.DoResume?
  }

  predicate ByLoop(s: Step) {
    s.DoRelease? || s.DoRetryElapsed? || s.DoQueueTimeout?
  }

  lemma WorkerInv(g: Grid, s: Step)
    requires Inv(g) && ByWorker(s)
    ensures Inv(Apply(g, s))
  {
    match s
    case DoPopTask(w, consent, pick) => PopTaskInv(g, w, consent, pick);
    case DoAcceptPop(t, w) => AcceptPopInv(g, t, w);
    case DoAcceptFinish(r) => AcceptFinishInv(g, r);
    case DoBuildBundle(b) => BuildBundleInv(g, b);
    case DoSubmit(t, outcome) => SubmitInv(g, t, outcome);
  }

  lemma OperatorInv(g: Grid, s: Step)
    requires Inv(g) && ByOperator(s)
    ensures Inv(Apply(g, s))
  {
    match s
    case DoRequeue(t) => RequeueInv(g, t);
    case DoCancel(t) => StopInv(g, t);
    case DoDisrupt(t) => StopInv(g, t);
    case DoApprove(t) => ApproveInv(g, t);
    case DoResume(t) => ResumeInv(g, t);
  }

  lemma LoopInv(g: Grid, s: Step)
    requires Inv(g) && ByLoop(s)
    ensures Inv(Apply(g, s))
  {
    match s
    case DoRelease(t, gate) => ReleaseInv(g, t, gate);
    case DoRetryElapsed(t) => RetryElapsedInv(g, t);
    case DoQueueTimeout(t) => QueueTimeoutInv(g, t);
  }

  lemma SweepInv(g: Grid, s: Step)
    requires Inv(g) && (s.DoSweepDead? || s.DoSweepLease?)
    ensures Inv(Apply(g, s))
  {
    match s
    case DoSweepDead(t, w) => SweepDeadInv(g, t, w);
    case DoSweepLease(t) => SweepLeaseInv(g, t);
  }

  /** Every handler keeps the tables and the log in agreement. */
  lemma ApplyInv(g: Grid, s: Step)
    requires Inv(g)
    ensures Inv(Apply(g, s))
  {
    if ByWorker(s) {
      WorkerInv(g, s);
    } else if ByOperator(s) {
      OperatorInv(g, s);
    } else if ByLoop(s) {
      LoopInv(g, s);
    } else if s.DoSweepDead? || s.DoSweepLease? {
      SweepInv(g, s);
    } else if s.DoDecline? || s.DoExpire? {
      OfferInv(g, s);
    } else if s.DoAddTask? {
      AddInv(g, s.t, s.deps, s.parent, s.retryMax);
    } else {
      DeleteInv(g, s.t);
    }
  }

  /** Every run keeps the tables and the log in agreement. */
  lemma {:induction false} ExecInv(g: Grid, steps: seq<Step>)
    requires Inv(g)
    ensures Inv(Exec(g, steps))
  {
    if steps == [] {
    } else {
      ExecInv(g, steps[..|steps| - 1]);
      ApplyInv(Exec(g, steps[..|steps| - 1]), steps[|steps| - 1]);
    }
  }
}
