/** The revisioned cache behind the network view: polls, rebuilds, invalidations and restarts. */
module NetworkCache {
  import opened Wrappers

  type Content = string
  type Client = nat

  const TTL := 1.0

  /** Revisions start again in every process; `process` says which one a snapshot comes from. The
      clients do not see it. */
  datatype Snapshot = Snapshot(process: nat, revision: nat, content: Content)

  datatype Cache = Cache(process: nat, data: Option<Snapshot>, ts: real, revision: nat)

  datatype Reply = Unchanged(revision: nat) | Full(snapshot: Snapshot)

  function Empty(process: nat): Cache {
    Cache(process, None, 0.0, 0)
  }

  predicate Warm(c: Cache, now: real) {
    c.data.Some? && now - c.ts < TTL
  }

  /** What a poll is answered with at once; `None` means that a rebuild begins. */
  function Lookup(c: Cache, since: int, now: real): Option<Reply> {
    if !Warm(c, now) then None
    else if since > 0 && since >= c.revision then Some(Unchanged(c.revision))
    else Some(Full(c.data.value))
  }

  /** The end of a rebuild. */
  function Store(c: Cache, content: Content, now: real): Cache {
    Cache(c.process, Some(Snapshot(c.process, c.revision + 1, content)), now, c.revision + 1)
  }

  function Invalidate(c: Cache): Cache {
    c.(ts := 0.0)
  }

  /** The cache as the handlers keep it. */
  class Shared {
    const process: nat
    var data: Option<Snapshot>
    var ts: real
    var revision: nat

    ghost function State(): Cache
      reads this
    {
      Cache(process, data, ts, revision)
    }

    constructor (process: nat)
      ensures State() == Empty(process)
    {
      this.process := process;
      data, ts, revision := None, 0.0, 0;
    }

    /** The head of `local_get_network_graph`. */
    method Answer(since: int, now: real) returns (reply: Option<Reply>)
      ensures reply == Lookup(State(), since, now)
    {
      var current := revision;
      if since > 0 && since >= current && data.Some? && now - ts < TTL { return Some(Unchanged(current)); }
      if data.Some? && now - ts < TTL { return Some(Full(data.value)); }
      return None;
    }

    /** Its tail, once the content has been gathered. */
    method Commit(content: Content, now: real) returns (result: Snapshot)
      modifies this
      ensures State() == Store(old(State()), content, now)
      ensures State().data == Some(result)
    {
      revision := revision + 1;
      result := Snapshot(process, revision, content);
      data := Some(result);
      ts := now;
    }

    /** `broadcast_ui_update` of a state change. */
    method StateChanged()
      modifies this
      ensures State() == Invalidate(old(State()))
    {
      ts := 0.0;
    }
  }

  // ---- runs ----

  /** A rebuild under way, and how many changes there had been when it read the first of its content. */
  datatype Rebuild = Rebuild(client: Client, oldest: Option<nat>)

  /** A stored snapshot, the rebuild that stored it, and when that rebuild began to read. */
  datatype Entry = Entry(snapshot: Snapshot, rebuild: nat, oldest: nat)

  /** The cache, what the current process has stored in it, what each client has ever been sent, the
      rebuilds under way, and the number of changes so far. */
  datatype Server = Server(
    cache: Cache,
    stored: seq<Entry>,
    received: map<Client, set<Snapshot>>,
    rebuilds: map<nat, Rebuild>,
    nextRebuild: nat,
    changes: nat)

  /** A poll answers or begins a rebuild; a rebuild reads for a while and then commits in one go. A
      restart loses the cache and the rebuilds, but not what the clients hold. */
  datatype Step =
    | Poll(client: Client, since: int, now: real)
    | Gather(rebuild: nat)
    | Rebuilt(rebuild: nat, content: Content, now: real)
    | Changed
    | Restart

  function Held(g: Server, client: Client): set<Snapshot> {
    if client in g.received then g.received[client] else {}
  }

  function Receive(g: Server, client: Client, s: Snapshot): Server {
    g.(received := g.received[client := Held(g, client) + {s}])
  }

  function Begin(g: Server, client: Client): Server {
    g.(rebuilds := g.rebuilds[g.nextRebuild := Rebuild(client, None)], nextRebuild := g.nextRebuild + 1)
  }

  function Finish(g: Server, id: nat, content: Content, now: real): Server
    requires Reading(g, id)
  {
    var c, r := Store(g.cache, content, now), g.rebuilds[id];
    Receive(g.(cache := c, stored := g.stored + [Entry(c.data.value, id, r.oldest.value)], rebuilds := g.rebuilds - {id}),
            r.client, c.data.value)
  }

  /** The rebuild is under way and has begun to read. */
  predicate Reading(g: Server, id: nat) {
    id in g.rebuilds && g.rebuilds[id].oldest.Some?
  }

  function Apply(g: Server, s: Step): Server {
    match s
    case Poll(client, since, now) =>
      var reply := Lookup(g.cache, since, now);
      if reply.None? then Begin(g, client)
      else if reply.value.Full? then Receive(g, client, reply.value.snapshot)
      else g
    case Gather(id) =>
      if id in g.rebuilds && !Reading(g, id)
      then g.(rebuilds := g.rebuilds[id := Rebuild(g.rebuilds[id].client, Some(g.changes))])
      else g
    case Rebuilt(id, content, now) => if Reading(g, id) then Finish(g, id, content, now) else g
    case Changed => g.(cache := Invalidate(g.cache), changes := g.changes + 1)
    case Restart => g.(cache := Empty(g.cache.process + 1), stored := [], rebuilds := map[])
  }

  function Exec(g: Server, steps: seq<Step>): Server
    decreases |steps|
  {
    if steps == [] then g else Apply(Exec(g, steps[..|steps| - 1]), steps[|steps| - 1])
  }

  lemma ExecSnoc(g: Server, steps: seq<Step>, s: Step)
    ensures Exec(g, steps + [s]) == Apply(Exec(g, steps), s)
  {
    assert (steps + [s])[..|steps|] == steps;
  }

  const START := Server(Empty(0), [], map[], map[], 0, 0)

  /** Stored snapshot number `i` bears revision `i + 1`, and the cache holds the newest one. */
  ghost predicate StoredOk(g: Server) {
    && g.cache.revision == |g.stored|
    && (forall i :: 0 <= i < |g.stored| ==>
          g.stored[i].snapshot.revision == i + 1 && g.stored[i].snapshot.process == g.cache.process)
    && g.cache.data == (if g.stored == [] then None else Some(g.stored[|g.stored| - 1].snapshot))
  }

  ghost predicate InStore(g: Server, s: Snapshot, i: int) {
    0 <= i < |g.stored| && g.stored[i].snapshot == s
  }

  /** What a client holds was stored by this process or an earlier one. */
  ghost predicate HeldOk(g: Server) {
    forall client <- g.received, s <- g.received[client] ::
      s.process <= g.cache.process && s.revision > 0 && (s.process == g.cache.process ==> exists i :: InStore(g, s, i))
  }

  ghost predicate Ok(g: Server) {
    StoredOk(g) && HeldOk(g)
  }

  lemma ReceiveOk(g: Server, client: Client, s: Snapshot, i: int)
    requires Ok(g) && InStore(g, s, i)
    ensures Ok(Receive(g, client, s))
  {
    var h := Receive(g, client, s);
    forall c, x | c in h.received && x in h.received[c]
      ensures x.process <= h.cache.process && x.revision > 0 && (x.process == h.cache.process ==> exists k :: InStore(h, x, k))
    {
      if x == s {
        assert InStore(h, x, i);
      } else {
        assert c in g.received && x in g.received[c];
        if x.process == g.cache.process {
          var k :| InStore(g, x, k);
          assert InStore(h, x, k);
        }
      }
    }
  }

  lemma StoreOk(g: Server, h: Server, e: Entry)
    requires Ok(g) && h.received == g.received && h.stored == g.stored + [e]
    requires h.cache.process == g.cache.process == e.snapshot.process
    requires h.cache.revision == e.snapshot.revision == |g.stored| + 1 && h.cache.data == Some(e.snapshot)
    ensures Ok(h) && InStore(h, e.snapshot, |g.stored|)
  {
    forall c, x | c in h.received && x in h.received[c] && x.process == h.cache.process
      ensures exists k :: InStore(h, x, k)
    {
      var k :| InStore(g, x, k);
      assert InStore(h, x, k);
    }
  }

  lemma ApplyOk(g: Server, s: Step)
    requires Ok(g)
    ensures Ok(Apply(g, s))
  {
    match s
    case Poll(client, since, now) =>
      var reply := Lookup(g.cache, since, now);
      if reply.Some? && reply.value.Full? {
        ReceiveOk(g, client, reply.value.snapshot, |g.stored| - 1);
      } else {
        assert forall x, i :: InStore(Apply(g, s), x, i) <==> InStore(g, x, i);
      }
    case Gather(id) =>
      assert forall x, i :: InStore(Apply(g, s), x, i) <==> InStore(g, x, i);
    case Rebuilt(id, content, now) =>
      if Reading(g, id) {
        var c, r := Store(g.cache, content, now), g.rebuilds[id];
        var e := Entry(c.data.value, id, r.oldest.value);
        var h := g.(cache := c, stored := g.stored + [e], rebuilds := g.rebuilds - {id});
        StoreOk(g, h, e);
        ReceiveOk(h, r.client, e.snapshot, |g.stored|);
      }
    case Changed =>
      assert forall x, i :: InStore(Apply(g, s), x, i) <==> InStore(g, x, i);
    case Restart =>
  }

  lemma {:induction false} ExecOk(steps: seq<Step>)
    ensures Ok(Exec(START, steps))
    decreases |steps|
  {
    if steps == [] {
    } else {
      ExecOk(steps[..|steps| - 1]);
      ApplyOk(Exec(START, steps[..|steps| - 1]), steps[|steps| - 1]);
    }
  }

  /** Within a process revisions increase from one rebuild to the next, and a revision names one snapshot. */
  lemma RevisionsNameSnapshots(steps: seq<Step>, i: nat, j: nat)
    requires i < |Exec(START, steps).stored| && j < |Exec(START, steps).stored|
    ensures var stored := Exec(START, steps).stored;
            && (i < j ==> stored[i].snapshot.revision < stored[j].snapshot.revision)
            && (stored[i].snapshot.revision == stored[j].snapshot.revision ==> stored[i] == stored[j])
  {
    ExecOk(steps);
  }

  /** In every run, restarts included: a client that is told `unchanged` about a snapshot it holds holds
      the cached one exactly when it had that snapshot from the current process. */
  lemma UnchangedIsTruthfulIff(steps: seq<Step>, client: Client, s: Snapshot, now: real)
    requires var g := Exec(START, steps);
             && s in Held(g, client) && Lookup(g.cache, s.revision, now).Some?
             && Lookup(g.cache, s.revision, now).value.Unchanged?
    ensures var c := Exec(START, steps).cache;
            c.data == Some(s) <==> s.process == c.process
  {
    ExecOk(steps);
    var g := Exec(START, steps);
    if s.process == g.cache.process {
      var i :| InStore(g, s, i);
    }
  }

  /** A client that holds an outdated snapshot of the current process is sent the cached one. */
  lemma OutdatedIsReplaced(steps: seq<Step>, client: Client, s: Snapshot, now: real)
    requires var g := Exec(START, steps);
             && s in Held(g, client) && s.process == g.cache.process
             && g.cache.data != Some(s) && Warm(g.cache, now)
    ensures var c := Exec(START, steps).cache;
            Lookup(c, s.revision, now) == Some(Full(c.data.value)) && s.revision < c.revision
  {
    ExecOk(steps);
    var g := Exec(START, steps);
    var i :| InStore(g, s, i);
  }

  /** Where a client stands: with nothing to name, or with a snapshot of the current process. */
  ghost predicate Honest(g: Server, client: Client, since: int) {
    since <= 0 || exists s :: s in Held(g, client) && s.process == g.cache.process && s.revision == since
  }

  /** In every run, whoever polls a warm cache with nothing, or with the revision of a snapshot it holds from
      this process, holds the cached snapshot afterwards. */
  lemma PollDelivers(steps: seq<Step>, client: Client, since: int, now: real)
    requires Warm(Exec(START, steps).cache, now) && Honest(Exec(START, steps), client, since)
    ensures var g := Exec(START, steps); g.cache.data.value in Held(Apply(g, Poll(client, since, now)), client)
  {
    ExecOk(steps);
    var g := Exec(START, steps);
    if since > 0 && since >= g.cache.revision {
      var s :| s in Held(g, client) && s.process == g.cache.process && s.revision == since;
      var i :| InStore(g, s, i);
    }
  }

  /** A client with nothing to name is never told `unchanged`: it gets the data, or a rebuild begins for it. */
  lemma FirstPollIsAnswered(g: Server, client: Client, now: real)
    ensures var h, reply := Apply(g, Poll(client, 0, now)), Lookup(g.cache, 0, now);
            if g.cache.data.Some? && now - g.cache.ts < 1.0 then
              reply == Some(Full(g.cache.data.value)) && g.cache.data.value in Held(h, client)
            else
              && reply.None? && g.nextRebuild in h.rebuilds && h.rebuilds[g.nextRebuild].client == client
              && !Reading(h, g.nextRebuild)
  {
  }

  /** The rebuild reads once, and what it has read reaches the client it was begun for under the next
      revision, and everybody who polls within the lifetime. */
  lemma RebuildDelivers(g: Server, id: nat, content: Content, now: real, other: Client, later: real)
    requires id in g.rebuilds && now <= later < now + 1.0
    ensures var k := Apply(g, Gather(id));
            var h := Apply(k, Rebuilt(id, content, now));
            var s := Snapshot(g.cache.process, g.cache.revision + 1, content);
            && s in Held(h, g.rebuilds[id].client) && id !in h.rebuilds
            && s in Held(Apply(h, Poll(other, 0, later)), other)
  {
  }

  // ---- a restart makes `unchanged` untrue ----

  lemma Then(steps: seq<Step>, s: Step) returns (more: seq<Step>)
    ensures Exec(START, more) == Apply(Exec(START, steps), s)
  {
    more := steps + [s];
    ExecSnoc(START, steps, s);
  }

  /** A poll of a cold cache, and the rebuild it starts reading. */
  lemma ThenBegin(steps: seq<Step>) returns (more: seq<Step>)
    requires !Warm(Exec(START, steps).cache, 5.0)
    ensures var g, h := Exec(START, steps), Exec(START, more);
            && h.cache == g.cache && h.received == g.received
            && Reading(h, g.nextRebuild) && h.rebuilds[g.nextRebuild].client == 0
  {
    var id := Exec(START, steps).nextRebuild;
    more := Then(steps, Poll(0, 0, 5.0));
    more := Then(more, Gather(id));
  }

  /** One rebuild: client 0 polls a cold cache, and is sent the content. */
  lemma ThenRebuild(steps: seq<Step>, content: Content) returns (more: seq<Step>)
    requires !Warm(Exec(START, steps).cache, 5.0)
    ensures var g, h := Exec(START, steps), Exec(START, more);
            var s := Snapshot(g.cache.process, g.cache.revision + 1, content);
            h.cache == Cache(g.cache.process, Some(s), 5.0, g.cache.revision + 1) && Held(h, 0) == Held(g, 0) + {s}
  {
    var id := Exec(START, steps).nextRebuild;
    more := ThenBegin(steps);
    more := Then(more, Rebuilt(id, content, 5.0));
  }

  /** A client told `unchanged` about a snapshot of an earlier process while another one is cached. */
  ghost predicate Misled(g: Server, client: Client, s: Snapshot, now: real) {
    && s in Held(g, client) && Lookup(g.cache, s.revision, now) == Some(Unchanged(g.cache.revision))
    && g.cache.data.Some? && g.cache.data.value.content != s.content
  }

  /** After a restart the new process reaches the client's revision with another snapshot. */
  lemma RestartEqualRevision()
    ensures exists steps, s ::
              var g := Exec(START, steps);
              Misled(g, 0, s, 5.0) && s.revision == g.cache.revision
  {
    var steps := ThenRebuild([], "old");
    steps := Then(steps, Restart);
    steps := ThenRebuild(steps, "new");
    assert Misled(Exec(START, steps), 0, Snapshot(0, 1, "old"), 5.0);
  }

  /** Or it is still below that revision. */
  lemma RestartHigherRevision()
    ensures exists steps, s ::
              var g := Exec(START, steps);
              Misled(g, 0, s, 5.0) && s.revision > g.cache.revision
  {
    var steps := ThenRebuild([], "old");
    steps := Then(steps, Changed);
    steps := ThenRebuild(steps, "older");
    steps := Then(steps, Restart);
    steps := ThenRebuild(steps, "new");
    assert Misled(Exec(START, steps), 0, Snapshot(0, 2, "older"), 5.0);
  }

  // ---- what is served after a change ----

  /** The entry was read altogether after change number `b.changes`, unless its rebuild was reading then. */
  ghost predicate ReadAfter(b: Server, e: Entry) {
    e.oldest > b.changes <==> !Reading(b, e.rebuild)
  }

  /** How a later state relates to the state `b` in which a change happened: the rebuilds that read since,
      and the cache, which is cold or was filled since. */
  ghost predicate Since(b: Server, g: Server) {
    && b.changes < g.changes && b.nextRebuild <= g.nextRebuild
    && (forall id <- b.rebuilds :: id < b.nextRebuild)
    && (forall id <- g.rebuilds ::
          && id < g.nextRebuild
          && (g.rebuilds[id].oldest.Some? ==> ReadAfter(b, Entry(Snapshot(0, 0, ""), id, g.rebuilds[id].oldest.value)))
          && (g.rebuilds[id].oldest.None? ==> !Reading(b, id)))
    && g.cache.data.Some? == (g.stored != [])
    && (g.stored != [] ==> g.cache.ts == 0.0 || ReadAfter(b, g.stored[|g.stored| - 1]))
  }

  ghost predicate Numbered(g: Server) {
    forall id <- g.rebuilds ::
      id < g.nextRebuild && (g.rebuilds[id].oldest.Some? ==> g.rebuilds[id].oldest.value <= g.changes)
  }

  lemma {:induction false} ExecNumbered(steps: seq<Step>)
    ensures Numbered(Exec(START, steps))
    decreases |steps|
  {
    if steps == [] {
    } else {
      ExecNumbered(steps[..|steps| - 1]);
    }
  }

  lemma SinceStep(b: Server, g: Server, s: Step)
    requires Since(b, g)
    ensures Since(b, Apply(g, s))
  {
  }

  lemma {:induction false} SinceRun(before: seq<Step>, after: seq<Step>)
    ensures Since(Exec(START, before), Exec(START, before + [Changed] + after))
    decreases |after|
  {
    var all := before + [Changed] + after;
    if after == [] {
      ExecNumbered(before);
      ExecOk(before);
      ExecSnoc(START, before, Changed);
      assert all == before + [Changed];
    } else {
      SinceRun(before, after[..|after| - 1]);
      assert all[..|all| - 1] == before + [Changed] + after[..|after| - 1];
      SinceStep(Exec(START, before), Exec(START, all[..|all| - 1]), after[|after| - 1]);
    }
  }

  /** What is served after a change, in any run and as long as the clock reads at least the lifetime, was
      read altogether after that change exactly when its rebuild was not reading when the change came. */
  lemma ServedFreshIff(before: seq<Step>, after: seq<Step>, since: int, now: real)
    requires now >= TTL
    requires Lookup(Exec(START, before + [Changed] + after).cache, since, now).Some?
    ensures var b, g := Exec(START, before), Exec(START, before + [Changed] + after);
            && g.stored != [] && g.cache.data == Some(g.stored[|g.stored| - 1].snapshot)
            && (var e := g.stored[|g.stored| - 1]; e.oldest > b.changes <==> !Reading(b, e.rebuild))
  {
    SinceRun(before, after);
    ExecOk(before + [Changed] + after);
  }

  /** A rebuild that was reading when the change came can fill the cache with what it had read before. */
  lemma StaleServed()
    ensures var before, after := [Poll(0, 0, 5.0)] + [Gather(0)], [Rebuilt(0, "old", 6.0)];
            var g := Exec(START, before + [Changed] + after);
            && Lookup(g.cache, 0, 6.0).Some? && g.stored != []
            && g.stored[|g.stored| - 1].oldest <= Exec(START, before).changes
  {
    var a, b, c, d := Poll(0, 0, 5.0), Gather(0), Changed, Rebuilt(0, "old", 6.0);
    ExecSnoc(START, [], a);
    ExecSnoc(START, [a], b);
    ExecSnoc(START, [a] + [b], c);
    ExecSnoc(START, [a] + [b] + [c], d);
    assert [] + [a] == [a];
  }
}
