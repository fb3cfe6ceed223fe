/** What a dispatch log says, read on its own: the status of a task, the whereabouts of an
    offer, the fate of a bundle and the strikes of a worker, and what makes a log legal. */
module DispatchLog {
  import opened Wrappers
  import opened Lifecycle
  import opened Dispatch

  type Log = seq<Event>

  ghost function NextStatus(before: Option<Status>, e: Event, t: TaskId): Option<Status> {
    match e
    case Created(u, status) => if u == t then Some(status) else before
    case Moved(u, _, to, _) => if u == t then Some(to) else before
    case Assigned(u, _, _, _) => if u == t then Some(Processing) else before
    case Blocked(u) => if u == t then Some(FatalError) else before
    case Deleted(u) => if u == t then None else before
    case _ => before
  }

  /** The status a log leaves a task in; `None` while it does not exist. */
  ghost function StatusIn(log: Log, t: TaskId): Option<Status> {
    if log == [] then None else NextStatus(StatusIn(log[..|log| - 1], t), log[|log| - 1], t)
  }

  /** Where an offer is. It is in one place at a time, and never comes back from the last two. */
  datatype Place =
    | Unissued
    | Pending(task: TaskId, worker: WorkerId)
    | Held(task: TaskId, worker: WorkerId, who: WorkerId)
    | Accepted
    | Gone(how: Closing)

  ghost function NextPlace(before: Place, e: Event, id: nat): Place {
    match e
    case Offered(o, t, w) => if o == id then Pending(t, w) else before
    case Popped(o, who) => if o == id && before.Pending? then Held(before.task, before.worker, who) else before
    case Reinserted(o, t, w) => if o == id then Pending(t, w) else before
    case Closed(o, _, _, how) => if o == id then Gone(how) else before
    case Assigned(_, _, via, _) => if via == Some(id) then Accepted else before
    case _ => before
  }

  ghost function PlaceIn(log: Log, id: nat): Place {
    if log == [] then Unissued else NextPlace(PlaceIn(log[..|log| - 1], id), log[|log| - 1], id)
  }

  datatype Stage =
    | Unbuilt
    | Building(task: TaskId, worker: WorkerId)
    | Delivered
    | Refused

  ghost function NextStage(before: Stage, e: Event, b: nat): Stage {
    match e
    case Assigned(t, w, _, c) => if c == b then Building(t, w) else before
    case Released(c, _, _) => if c == b then Delivered else before
    case Withheld(c) => if c == b then Refused else before
    case _ => before
  }

  ghost function StageIn(log: Log, b: nat): Stage {
    if log == [] then Unbuilt else NextStage(StageIn(log[..|log| - 1], b), log[|log| - 1], b)
  }

  /** Whether an event wipes the strikes of a task. */
  predicate Wipes(e: Event, t: TaskId) {
    e.Moved? && e.task == t && Terminal(e.to)
  }

  /** A strike against `w`: it declined an offer of `t`, or let its own expire. */
  predicate Strikes(e: Event, t: TaskId, w: WorkerId) {
    && e.Closed? && e.task == t
    && (e.how == Declined(w) || (e.how == Expired && e.worker == w))
  }

  /** A refusal by `w`: an offer of `t` that named `w` was declined by `w` or expired. */
  predicate Refuses(e: Event, t: TaskId, w: WorkerId) {
    e.Closed? && e.task == t && e.worker == w && (e.how == Declined(w) || e.how == Expired)
  }

  predicate PutsBack(e: Event, t: TaskId, w: WorkerId) {
    e.Reinserted? && e.task == t && e.worker == w
  }

  /** Strikes, refusals and put-backs since the task last became terminal. */
  ghost function StrikesIn(log: Log, t: TaskId, w: WorkerId): nat {
    if log == [] then 0
    else if Wipes(log[|log| - 1], t) then 0
    else StrikesIn(log[..|log| - 1], t, w) + if Strikes(log[|log| - 1], t, w) then 1 else 0
  }

  ghost function RefusalsIn(log: Log, t: TaskId, w: WorkerId): nat {
    if log == [] then 0
    else if Wipes(log[|log| - 1], t) then 0
    else RefusalsIn(log[..|log| - 1], t, w) + if Refuses(log[|log| - 1], t, w) then 1 else 0
  }

  ghost function PutBacksIn(log: Log, t: TaskId, w: WorkerId): nat {
    if log == [] then 0
    else if Wipes(log[|log| - 1], t) then 0
    else PutBacksIn(log[..|log| - 1], t, w) + if PutsBack(log[|log| - 1], t, w) then 1 else 0
  }

  /** The worker the task was last assigned to. */
  ghost function LastAssignee(log: Log, t: TaskId): Option<WorkerId> {
    if log == [] then None
    else
      var e := log[|log| - 1];
      if e.Assigned? && e.task == t then Some(e.worker) else LastAssignee(log[..|log| - 1], t)
  }

  predicate BelowLimit(strikes: nat, limit: int) {
    limit > 0 ==> strikes < limit
  }

  /** When an event may follow a log. */
  ghost predicate Legal(log: Log, e: Event, limit: int) {
    match e
    case Created(t, status) => StatusIn(log, t) == None && status in {Waiting, Queued}
    case Moved(t, from, to, forced) =>
      StatusIn(log, t) == Some(from) && from != to && MayMove(from, to, forced)
    case Blocked(t) => StatusIn(log, t).Some?
    case Deleted(t) => StatusIn(log, t).Some? && Terminal(StatusIn(log, t).value)
    case Offered(o, t, w) =>
      PlaceIn(log, o) == Unissued && StatusIn(log, t) == Some(Queued) && BelowLimit(StrikesIn(log, t, w), limit)
    case Popped(o, _) => PlaceIn(log, o).Pending?
    case Reinserted(o, t, w) =>
      PlaceIn(log, o).Held? && PlaceIn(log, o) == Held(t, w, PlaceIn(log, o).who) && PlaceIn(log, o).who != w
    case Closed(o, t, w, how) =>
      if how == Lapsed then PlaceIn(log, o) == Held(t, w, w) else PlaceIn(log, o) == Pending(t, w)
    case Assigned(t, w, via, b) =>
      && StatusIn(log, t) == Some(Queued)
      && StageIn(log, b) == Unbuilt
      && (via.None? ==> BelowLimit(StrikesIn(log, t, w), limit))
      && (via.Some? ==> PlaceIn(log, via.value) == Held(t, w, w))
    case Released(b, t, w) => StageIn(log, b) == Building(t, w)
    case Withheld(b) => StageIn(log, b).Building?
  }

  ghost predicate LegalLog(log: Log, limit: int) {
    log == [] || (LegalLog(log[..|log| - 1], limit) && Legal(log[..|log| - 1], log[|log| - 1], limit))
  }

  // ---- a log extended by one event ----

  lemma Snoc(log: Log, e: Event)
    ensures (log + [e])[..|log + [e]| - 1] == log
    ensures (log + [e])[|log + [e]| - 1] == e
    ensures forall limit :: LegalLog(log + [e], limit) <==> LegalLog(log, limit) && Legal(log, e, limit)
  {
    assert (log + [e])[..|log + [e]| - 1] == log;
  }

  lemma SnocStatus(log: Log, e: Event)
    ensures forall t :: StatusIn(log + [e], t) == NextStatus(StatusIn(log, t), e, t)
  {
    Snoc(log, e);
  }

  lemma SnocPlace(log: Log, e: Event)
    ensures forall id :: PlaceIn(log + [e], id) == NextPlace(PlaceIn(log, id), e, id)
  {
    Snoc(log, e);
  }

  lemma SnocStage(log: Log, e: Event)
    ensures forall b :: StageIn(log + [e], b) == NextStage(StageIn(log, b), e, b)
  {
    Snoc(log, e);
  }

  lemma SnocStrikes(log: Log, e: Event)
    ensures forall t, w :: StrikesIn(log + [e], t, w) ==
                           if Wipes(e, t) then 0 else StrikesIn(log, t, w) + if Strikes(e, t, w) then 1 else 0
  {
    Snoc(log, e);
  }

  lemma SnocBudget(log: Log, e: Event)
    ensures forall t, w :: RefusalsIn(log + [e], t, w) ==
                           if Wipes(e, t) then 0 else RefusalsIn(log, t, w) + if Refuses(e, t, w) then 1 else 0
    ensures forall t, w :: PutBacksIn(log + [e], t, w) ==
                           if Wipes(e, t) then 0 else PutBacksIn(log, t, w) + if PutsBack(e, t, w) then 1 else 0
  {
    Snoc(log, e);
  }

  lemma {:induction false} LegalPrefix(log: Log, i: nat, limit: int)
    requires LegalLog(log, limit) && i <= |log|
    ensures LegalLog(log[..i], limit)
    ensures i < |log| ==> Legal(log[..i], log[i], limit)
    decreases |log|
  {
    if i == |log| {
      assert log[..i] == log;
    } else if i < |log| - 1 {
      LegalPrefix(log[..|log| - 1], i, limit);
      assert log[..|log| - 1][..i] == log[..i];
    }
  }

  // ---- what legal logs never do ----

  predicate EntersQueue(e: Event, t: TaskId) {
    e == Created(t, Queued) || (e.Moved? && e.task == t && e.to == Queued)
  }

  /** After an assignment a task is queued again only because something queued it. */
  lemma {:induction false} QueuedAgain(log: Log, i: nat, j: nat, t: TaskId)
    requires i < j <= |log|
    requires log[i].Assigned? && log[i].task == t
    requires StatusIn(log[..j], t) == Some(Queued)
    ensures exists k :: i < k < j && EntersQueue(log[k], t)
    decreases j
  {
    SnocStatus(log[..j - 1], log[j - 1]);
    assert log[..j] == log[..j - 1] + [log[j - 1]];
    if !EntersQueue(log[j - 1], t) {
      assert i != j - 1;
      QueuedAgain(log, i, j - 1, t);
    }
  }

  /** A bundle that was handed out or withheld stays that way. */
  lemma {:induction false} StageStays(log: Log, limit: int, i: nat, b: nat)
    requires LegalLog(log, limit) && i <= |log|
    requires StageIn(log[..i], b).Delivered? || StageIn(log[..i], b).Refused?
    ensures StageIn(log, b) == StageIn(log[..i], b)
    decreases |log|
  {
    if i == |log| {
      assert log[..i] == log;
    } else {
      var front := log[..|log| - 1];
      assert front[..i] == log[..i];
      StageStays(front, limit, i, b);
    }
  }

  /** A bundle under construction was assigned, to that worker and for that task. */
  lemma {:induction false} BuildingWasAssigned(log: Log, limit: int, b: nat) returns (i: nat)
    requires LegalLog(log, limit) && StageIn(log, b).Building?
    ensures i < |log| && log[i].Assigned? && log[i].bundle == b
    ensures log[i].task == StageIn(log, b).task && log[i].worker == StageIn(log, b).worker
  {
    var e := log[|log| - 1];
    if e.Assigned? && e.bundle == b {
      i := |log| - 1;
    } else {
      i := BuildingWasAssigned(log[..|log| - 1], limit, b);
    }
  }

  /** An offer out in the world was issued, for that task and to that worker. */
  lemma {:induction false} OutWasOffered(log: Log, limit: int, id: nat) returns (i: nat)
    requires LegalLog(log, limit)
    requires PlaceIn(log, id).Pending? || PlaceIn(log, id).Held?
    ensures i < |log| && log[i] == Offered(id, PlaceIn(log, id).task, PlaceIn(log, id).worker)
  {
    var e := log[|log| - 1];
    if e.Offered? && e.offer == id {
      i := |log| - 1;
    } else {
      i := OutWasOffered(log[..|log| - 1], limit, id);
    }
  }

  lemma {:induction false} RefusalsAreStrikes(log: Log, t: TaskId, w: WorkerId)
    ensures RefusalsIn(log, t, w) <= StrikesIn(log, t, w)
  {
    if log == [] {
    } else {
      RefusalsAreStrikes(log[..|log| - 1], t, w);
    }
  }
}
