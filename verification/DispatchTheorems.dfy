/** What dispatch promises over every run. */
module DispatchTheorems {
  import opened Wrappers
  import opened Lifecycle
  import opened Dispatch
  import opened DispatchLog
  import opened DispatchSafety

  function Run(setting: int, steps: seq<Step>): Grid {
    Exec(Start(setting), steps)
  }

  lemma RunInv(setting: int, steps: seq<Step>)
    ensures Inv(Run(setting, steps))
    ensures Run(setting, steps).limit == EffectiveLimit(setting)
  {
    StartInv(setting);
    ExecInv(Start(setting), steps);
  }

  predicate AssignsTask(e: Event, t: TaskId) {
    e.Assigned? && e.task == t
  }

  /** Exclusive dispatch: between two assignments of one task, something queued it again. */
  lemma ExclusiveDispatch(setting: int, steps: seq<Step>, t: TaskId, i: nat, j: nat)
    requires i < j < |Run(setting, steps).audit|
    requires AssignsTask(Run(setting, steps).audit[i], t)
    requires AssignsTask(Run(setting, steps).audit[j], t)
    ensures exists k :: i < k < j && EntersQueue(Run(setting, steps).audit[k], t)
  {
    var g := Run(setting, steps);
    RunInv(setting, steps);
    LegalPrefix(g.audit, j, g.limit);
    QueuedAgain(g.audit, i, j, t);
  }

  /** The log is the history of the rows: replayed, it gives every row's status; every change starts
      from the status the task had and, unless forced, follows the transition table; and a task is
      assigned only while it is queued. */
  lemma HistoryFollowsTable(setting: int, steps: seq<Step>, i: nat)
    requires i < |Run(setting, steps).audit|
    ensures var g := Run(setting, steps);
            && (forall t :: StatusIn(g.audit, t) == if t in g.tasks then Some(g.tasks[t].status) else None)
            && match g.audit[i]
               case Moved(t, from, to, forced) =>
                 StatusIn(g.audit[..i], t) == Some(from) && Registered(to) && (forced || Allowed(from, to))
               case Assigned(t, _, _, _) => StatusIn(g.audit[..i], t) == Some(Queued) && Allowed(Queued, Processing)
               case _ => true
  {
    var g := Run(setting, steps);
    RunInv(setting, steps);
    LegalPrefix(g.audit, i, g.limit);
  }

  // ---- offers ----

  predicate InMap(g: Grid, id: nat, t: TaskId) {
    t in g.offers && g.offers[t].id == id
  }

  predicate InFlight(g: Grid, id: nat, r: nat) {
    r in g.accepts && g.accepts[r].offer.id == id
  }

  predicate AssignsVia(e: Event, id: nat) {
    e.Assigned? && e.via == Some(id)
  }

  predicate Closes(e: Event, id: nat) {
    e.Closed? && e.offer == id
  }

  /** How an offer ended is written in the log exactly once. */
  lemma {:induction false} EndingInLog(log: Log, limit: int, id: nat)
    requires LegalLog(log, limit)
    ensures PlaceIn(log, id).Accepted? <==> exists k :: 0 <= k < |log| && AssignsVia(log[k], id)
    ensures PlaceIn(log, id).Gone? <==> exists k :: 0 <= k < |log| && Closes(log[k], id)
    ensures forall j, k :: 0 <= j < k < |log| && (AssignsVia(log[j], id) || Closes(log[j], id))
                           ==> !AssignsVia(log[k], id) && !Closes(log[k], id)
  {
    if log == [] {
    } else {
      var front, e := log[..|log| - 1], log[|log| - 1];
      EndingInLog(front, limit, id);
      assert forall k :: 0 <= k < |front| ==> front[k] == log[k];
      if AssignsVia(e, id) || Closes(e, id) {
        assert forall k :: 0 <= k < |front| ==> !AssignsVia(log[k], id) && !Closes(log[k], id);
      }
    }
  }

  /** The four things that can have become of an offer. */
  ghost predicate OnlyOne(a: bool, b: bool, c: bool, d: bool) {
    (a && !b && !c && !d) || (!a && b && !c && !d) || (!a && !b && c && !d) || (!a && !b && !c && d)
  }

  /** Offers are conserved: every offer ever issued is in the map, with one in-flight accept,
      turned into one assignment, or closed, and only one of these. */
  lemma OfferConservation(setting: int, steps: seq<Step>, id: nat)
    ensures var g := Run(setting, steps);
            id < g.nextOffer ==>
              OnlyOne(exists t :: InMap(g, id, t),
                      exists r :: InFlight(g, id, r),
                      exists k :: 0 <= k < |g.audit| && AssignsVia(g.audit[k], id),
                      exists k :: 0 <= k < |g.audit| && Closes(g.audit[k], id))
    ensures var g := Run(setting, steps);
            && (forall t, u :: InMap(g, id, t) && InMap(g, id, u) ==> t == u)
            && (forall r, q :: InFlight(g, id, r) && InFlight(g, id, q) ==> r == q)
  {
    var g := Run(setting, steps);
    RunInv(setting, steps);
    EndingInLog(g.audit, g.limit, id);
    forall t | InMap(g, id, t)
      ensures PlaceIn(g.audit, id) == Pending(t, g.offers[t].worker)
    {
    }
    forall r | InFlight(g, id, r)
      ensures HeldBy(g, id, r)
    {
      assert HeldBy(g, g.accepts[r].offer.id, r);
    }
    match PlaceIn(g.audit, id)
    case Pending(t, w) => assert InMap(g, id, t);
    case Held(t, w, who) =>
      var r :| HeldBy(g, id, r);
      assert InFlight(g, id, r);
    case _ =>
  }

  /** Each offer backs at most one assignment, and that assignment goes to the task and the
      worker the offer named. */
  lemma ConsentIsHonoured(setting: int, steps: seq<Step>, i: nat)
    requires i < |Run(setting, steps).audit|
    requires Run(setting, steps).audit[i].Assigned? && Run(setting, steps).audit[i].via.Some?
    ensures var log := Run(setting, steps).audit;
            var id := log[i].via.value;
            && (exists k :: 0 <= k < i && log[k] == Offered(id, log[i].task, log[i].worker))
            && (forall j :: 0 <= j < |log| && AssignsVia(log[j], id) ==> j == i)
  {
    var g := Run(setting, steps);
    var id := g.audit[i].via.value;
    RunInv(setting, steps);
    LegalPrefix(g.audit, i, g.limit);
    var k := OutWasOffered(g.audit[..i], g.limit, id);
    assert g.audit[k] == Offered(id, g.audit[i].task, g.audit[i].worker);
    EndingInLog(g.audit, g.limit, id);
    assert AssignsVia(g.audit[i], id);
  }

  // ---- bundles ----

  predicate Releases(e: Event, b: nat) {
    e.Released? && e.bundle == b
  }

  /** A bundle is handed out at most once, to the worker of the assignment it was built for. */
  lemma BundleReleasedOnce(setting: int, steps: seq<Step>, i: nat)
    requires i < |Run(setting, steps).audit| && Run(setting, steps).audit[i].Released?
    ensures var log := Run(setting, steps).audit;
            var b := log[i].bundle;
            && (exists k :: 0 <= k < i && log[k].Assigned? && log[k].bundle == b
                            && log[k].task == log[i].task && log[k].worker == log[i].worker)
            && (forall j :: i < j < |log| ==> !Releases(log[j], b))
  {
    var g := Run(setting, steps);
    var b := g.audit[i].bundle;
    RunInv(setting, steps);
    LegalPrefix(g.audit, i, g.limit);
    var k := BuildingWasAssigned(g.audit[..i], g.limit, b);
    assert g.audit[k] == g.audit[..i][k];
    forall j | i < j < |g.audit|
      ensures !Releases(g.audit[j], b)
    {
      LegalPrefix(g.audit, j, g.limit);
      LegalPrefix(g.audit, i + 1, g.limit);
      assert g.audit[..i + 1] == g.audit[..i] + [g.audit[i]];
      SnocStage(g.audit[..i], g.audit[i]);
      assert g.audit[..j][..i + 1] == g.audit[..i + 1];
      StageStays(g.audit[..j], g.limit, i + 1, b);
    }
  }

  // ---- strikes ----

  /** The strikes on record are exactly the declines and expiries since the task was last terminal. */
  lemma StrikesAreCounted(setting: int, steps: seq<Step>, t: TaskId, w: WorkerId)
    ensures var g := Run(setting, steps);
            StrikesOf(g.strikes, t, w) == StrikesIn(g.audit, t, w)
  {
    RunInv(setting, steps);
  }

  /** A worker at the limit is neither offered the task nor directly assigned it. */
  lemma LimitIsRespected(setting: int, steps: seq<Step>, i: nat)
    requires EffectiveLimit(setting) > 0
    requires i < |Run(setting, steps).audit|
    ensures var log := Run(setting, steps).audit;
            match log[i]
            case Offered(_, t, w) => StrikesIn(log[..i], t, w) < EffectiveLimit(setting)
            case Assigned(t, w, via, _) => via.None? ==> StrikesIn(log[..i], t, w) < EffectiveLimit(setting)
            case _ => true
  {
    RunInv(setting, steps);
    LegalPrefix(Run(setting, steps).audit, i, EffectiveLimit(setting));
  }

  /** Between two terminal moves of a task, a worker refuses it at most as often as the limit
      allows, plus once for every time a stranger's accept put its offer back. */
  lemma RefusalBound(setting: int, steps: seq<Step>, t: TaskId, w: WorkerId)
    requires EffectiveLimit(setting) > 0
    ensures var log := Run(setting, steps).audit;
            RefusalsIn(log, t, w) <= EffectiveLimit(setting) + PutBacksIn(log, t, w)
  {
    RunInv(setting, steps);
  }

  lemma ExecSnoc(g: Grid, steps: seq<Step>, s: Step)
    ensures Exec(g, steps + [s]) == Apply(Exec(g, steps), s)
  {
    assert (steps + [s])[..|steps|] == steps;
  }

  /** Some run leads to this grid. */
  ghost predicate Reachable(setting: int, g: Grid) {
    exists steps :: Run(setting, steps) == g
  }

  lemma Reach(setting: int, g: Grid, s: Step)
    requires Reachable(setting, g)
    ensures Reachable(setting, Apply(g, s)) && Apply(g, s).limit == EffectiveLimit(setting) == g.limit
  {
    var steps :| Run(setting, steps) == g;
    ExecSnoc(Start(setting), steps, s);
    assert Run(setting, steps + [s]) == Apply(g, s);
  }

  /** The run in which a stranger's accept holds the first offer while a second is declined. */
  function PutBackRun(): seq<Step> {
    [DoAddTask("t", [], "f", 0)] + [DoPopTask("w", true, Some("t"))] + [DoAcceptPop("t", "x")]
    + [DoPopTask("w", true, Some("t"))] + [DoDecline("t", "w")] + [DoAcceptFinish(0)] + [DoDecline("t", "w")]
  }

  /** While the stranger's accept holds the first offer, a second one is out. */
  predicate TwoOffersOut(g: Grid) {
    && g.offers == map["t" := Offer(1, "w")] && g.accepts == map[0 := Accept("t", Offer(0, "w"), "x")]
    && g.audit == [Created("t", Queued)] + [Offered(0, "t", "w")] + [Popped(0, "x")] + [Offered(1, "t", "w")]
  }

  lemma PutBackOpening()
    ensures var s1 := [DoAddTask("t", [], "f", 0)];
            var s4 := s1 + [DoPopTask("w", true, Some("t"))] + [DoAcceptPop("t", "x")] + [DoPopTask("w", true, Some("t"))];
            TwoOffersOut(Exec(Start(1), s4))
  {
    var g0 := Start(1);
    var s1 := [DoAddTask("t", [], "f", 0)];
    ExecSnoc(g0, [], s1[0]);
    assert [] + s1 == s1;
    var s2 := s1 + [DoPopTask("w", true, Some("t"))];
    ExecSnoc(g0, s1, DoPopTask("w", true, Some("t")));
    ExecSnoc(g0, s2, DoAcceptPop("t", "x"));
    ExecSnoc(g0, s2 + [DoAcceptPop("t", "x")], DoPopTask("w", true, Some("t")));
  }

  lemma PutBackClosing(g: Grid)
    requires TwoOffersOut(g)
    ensures DeclineOffer(AcceptFinish(DeclineOffer(g, "t", "w"), 0), "t", "w").audit ==
            g.audit + [Closed(1, "t", "w", Declined("w"))] + [Reinserted(0, "t", "w")] + [Closed(0, "t", "w", Declined("w"))]
  {
  }

  lemma PutBackLog()
    ensures Run(1, PutBackRun()).audit ==
            [Created("t", Queued)] + [Offered(0, "t", "w")] + [Popped(0, "x")] + [Offered(1, "t", "w")]
            + [Closed(1, "t", "w", Declined("w"))] + [Reinserted(0, "t", "w")] + [Closed(0, "t", "w", Declined("w"))]
  {
    PutBackOpening();
    var s1 := [DoAddTask("t", [], "f", 0)];
    var s4 := s1 + [DoPopTask("w", true, Some("t"))] + [DoAcceptPop("t", "x")] + [DoPopTask("w", true, Some("t"))];
    var s5 := s4 + [DoDecline("t", "w")];
    var s6 := s5 + [DoAcceptFinish(0)];
    PutBackClosing(Exec(Start(1), s4));
    ExecSnoc(Start(1), s4, DoDecline("t", "w"));
    ExecSnoc(Start(1), s5, DoAcceptFinish(0));
    ExecSnoc(Start(1), s6, DoDecline("t", "w"));
    assert s6 + [DoDecline("t", "w")] == PutBackRun();
  }

  /** With a put-back the limit is really exceeded: under a limit of one the worker refuses twice. */
  lemma PutBackExceedsLimit()
    ensures EffectiveLimit(1) == 1
    ensures RefusalsIn(Run(1, PutBackRun()).audit, "t", "w") == 2
  {
    PutBackLog();
    var l1 := [Created("t", Queued)];
    var l2 := l1 + [Offered(0, "t", "w")];
    var l3 := l2 + [Popped(0, "x")];
    var l4 := l3 + [Offered(1, "t", "w")];
    var l5 := l4 + [Closed(1, "t", "w", Declined("w"))];
    var l6 := l5 + [Reinserted(0, "t", "w")];
    assert RefusalsIn(l1, "t", "w") == 0;
    SnocBudget(l1, Offered(0, "t", "w"));
    SnocBudget(l2, Popped(0, "x"));
    SnocBudget(l3, Offered(1, "t", "w"));
    SnocBudget(l4, Closed(1, "t", "w", Declined("w")));
    SnocBudget(l5, Reinserted(0, "t", "w"));
    SnocBudget(l6, Closed(0, "t", "w", Declined("w")));
  }
}
