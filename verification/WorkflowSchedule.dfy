/** Running an expanded workflow: release rows whose dependencies are completed, complete them,
    repeat. When that finishes every task, for any rows and for the rows of any workflow. */
module WorkflowSchedule {
  import opened Wrappers
  import opened Graphs
  import opened Text
  import opened Workflow
  import opened WorkflowNames
  import opened WorkflowGraph

  /** The ids of the rows completed so far. */
  ghost function Ids(rows: seq<Row>, order: seq<nat>): set<string> {
    set x | x in order && x < |rows| :: rows[x].id
  }

  /** An order in which rows can be completed: each one is released by those before it. */
  ghost predicate Schedule(rows: seq<Row>, order: seq<nat>) {
    order == [] ||
    (var front, x := order[..|order| - 1], order[|order| - 1];
     && Schedule(rows, front) && x < |rows| && x !in front
     && Releasable(rows[x], Ids(rows, front)))
  }

  ghost predicate Stuck(rows: seq<Row>, order: seq<nat>) {
    Schedule(rows, order) && forall x: nat :: !Schedule(rows, order + [x])
  }

  predicate Complete(rows: seq<Row>, order: seq<nat>) {
    forall x :: 0 <= x < |rows| ==> x in order
  }

  /** Whatever is done in whatever order, it only stops when everything is done. */
  ghost predicate AlwaysFinishes(rows: seq<Row>) {
    forall order :: Stuck(rows, order) ==> Complete(rows, order)
  }

  // ---- schedules are finite ----

  ghost function Elements(order: seq<nat>): (s: set<nat>)
    ensures forall x :: x in s <==> x in order
  {
    if order == [] then {} else
    var s := Elements(order[..|order| - 1]) + {order[|order| - 1]};
    assert order == order[..|order| - 1] + [order[|order| - 1]];
    s
  }

  lemma {:induction false} ScheduleBounds(rows: seq<Row>, order: seq<nat>)
    requires Schedule(rows, order)
    ensures |order| == |Elements(order)| && Elements(order) <= UpTo(|rows|)
  {
    if order == [] {
    } else {
      var front, x := order[..|order| - 1], order[|order| - 1];
      ScheduleBounds(rows, front);
      assert x !in Elements(front);
    }
  }

  lemma ScheduleLength(rows: seq<Row>, order: seq<nat>)
    requires Schedule(rows, order)
    ensures |order| <= |rows|
  {
    ScheduleBounds(rows, order);
    SubsetSize(Elements(order), UpTo(|rows|));
  }

  /** Every schedule can be carried on until it is stuck. */
  lemma {:induction false} RunToEnd(rows: seq<Row>, order: seq<nat>) returns (end: seq<nat>)
    requires Schedule(rows, order)
    ensures Stuck(rows, end)
    decreases |rows| - |order|
  {
    ScheduleLength(rows, order);
    if x: nat :| Schedule(rows, order + [x]) {
      ScheduleLength(rows, order + [x]);
      end := RunToEnd(rows, order + [x]);
    } else {
      end := order;
    }
  }

  // ---- any table of rows ----

  ghost predicate UniqueIds(rows: seq<Row>) {
    forall x, y :: 0 <= x < |rows| && 0 <= y < |rows| && rows[x].id == rows[y].id ==> x == y
  }

  /** Every id a row waits for is the id of a row. */
  ghost predicate DepsExist(rows: seq<Row>) {
    forall x :: 0 <= x < |rows| ==> forall d <- ParseDeps(rows[x].dependsOn) :: d in RowIds(rows)
  }

  /** No row waits for the same id twice. */
  predicate DepsDistinct(rows: seq<Row>) {
    forall x :: 0 <= x < |rows| ==> Distinct(ParseDeps(rows[x].dependsOn))
  }

  ghost function Pending(rows: seq<Row>, order: seq<nat>): set<nat> {
    set x | x in UpTo(|rows|) && x !in order
  }

  /** Among pending rows one that waits for none of them can be released. */
  lemma NextRow(rows: seq<Row>, order: seq<nat>, x: nat) returns (z: nat)
    requires DepsExist(rows) && DepsDistinct(rows) && Acyclic(RowEdges(rows))
    requires Schedule(rows, order) && x < |rows| && x !in order
    ensures Schedule(rows, order + [z])
  {
    z := FirstAmong(RowEdges(rows), Pending(rows, order), x);
    forall d | d in ParseDeps(rows[z].dependsOn)
      ensures d in Ids(rows, order)
    {
      var row :| row in rows && row.id == d;
      var y :| 0 <= y < |rows| && rows[y] == row;
      assert (y, z) in RowEdges(rows);
      assert y !in Pending(rows, order);
    }
    assert (order + [z])[..|order|] == order;
  }

  lemma GoodRowsFinish(rows: seq<Row>)
    requires DepsExist(rows) && DepsDistinct(rows) && Acyclic(RowEdges(rows))
    ensures AlwaysFinishes(rows)
  {
    forall order, x | Stuck(rows, order) && 0 <= x < |rows|
      ensures x in order
    {
      if x !in order {
        var z := NextRow(rows, order, x);
        assert false;
      }
    }
  }

  lemma {:induction false} NeverReleased(rows: seq<Row>, order: seq<nat>, x: nat)
    requires Schedule(rows, order) && x < |rows| && forall done :: done <= RowIds(rows) ==> !Releasable(rows[x], done)
    ensures x !in order
  {
    if order == [] {
    } else {
      var front := order[..|order| - 1];
      NeverReleased(rows, front, x);
      assert order == front + [order[|order| - 1]];
      assert Ids(rows, front) <= RowIds(rows);
    }
  }

  lemma NeverReleasedStalls(rows: seq<Row>, x: nat)
    requires x < |rows| && forall done :: done <= RowIds(rows) ==> !Releasable(rows[x], done)
    ensures !AlwaysFinishes(rows)
  {
    var end := RunToEnd(rows, []);
    NeverReleased(rows, end, x);
    assert !Complete(rows, end);
  }

  lemma MissingStalls(rows: seq<Row>)
    requires !DepsExist(rows)
    ensures !AlwaysFinishes(rows)
  {
    var x :| 0 <= x < |rows| && exists d <- ParseDeps(rows[x].dependsOn) :: d !in RowIds(rows);
    NeverReleasedStalls(rows, x);
  }

  /** A row that lists an id twice is never released. */
  lemma RepeatsStall(rows: seq<Row>)
    requires !DepsDistinct(rows)
    ensures !AlwaysFinishes(rows)
  {
    var x :| 0 <= x < |rows| && !Distinct(ParseDeps(rows[x].dependsOn));
    NeverReleasedStalls(rows, x);
  }

  lemma CycleNotNext(rows: seq<Row>, p: seq<nat>, front: seq<nat>, x: nat)
    requires UniqueIds(rows) && Path(RowEdges(rows), p) && p[0] == p[|p| - 1] && Schedule(rows, front + [x])
    requires forall y <- front :: y !in p
    ensures x !in p
  {
    assert (front + [x])[..|front|] == front;
    if x in p { NotYetReleasable(rows, p, front, x); }
  }

  lemma {:induction false} CycleNeverStarts(rows: seq<Row>, p: seq<nat>, order: seq<nat>)
    requires UniqueIds(rows) && Path(RowEdges(rows), p) && p[0] == p[|p| - 1] && Schedule(rows, order)
    ensures forall x <- order :: x !in p
  {
    if order == [] {
    } else {
      var front, x := order[..|order| - 1], order[|order| - 1];
      CycleNeverStarts(rows, p, front);
      assert order == front + [x];
      CycleNotNext(rows, p, front, x);
    }
  }

  lemma NotYetReleasable(rows: seq<Row>, p: seq<nat>, done: seq<nat>, x: nat)
    requires UniqueIds(rows) && Path(RowEdges(rows), p) && p[0] == p[|p| - 1] && x in p && x < |rows|
    requires forall y <- done :: y !in p
    ensures !Releasable(rows[x], Ids(rows, done))
  {
    var y := CycleBefore(RowEdges(rows), p, x);
    assert rows[y].id !in Ids(rows, done);
  }

  /** Rows on a cycle are never released. */
  lemma CycleStalls(rows: seq<Row>)
    requires UniqueIds(rows) && !Acyclic(RowEdges(rows))
    ensures !AlwaysFinishes(rows)
  {
    var x: nat :| Reaches(RowEdges(rows), x, x);
    var p :| Path(RowEdges(rows), p) && p[0] == x && p[|p| - 1] == x;
    PathEdge(RowEdges(rows), p, 1);
    var end := RunToEnd(rows, []);
    CycleNeverStarts(rows, p, end);
    assert x in p;
    assert !Complete(rows, end);
  }

  /** A table of rows with different ids always runs to the end exactly when every id waited for is there,
      no row waits for one twice, and there is no cycle. */
  lemma RowsFinishIff(rows: seq<Row>)
    requires UniqueIds(rows)
    ensures AlwaysFinishes(rows) <==> DepsExist(rows) && DepsDistinct(rows) && Acyclic(RowEdges(rows))
  {
    if !DepsExist(rows) {
      MissingStalls(rows);
    } else if !DepsDistinct(rows) {
      RepeatsStall(rows);
    } else if !Acyclic(RowEdges(rows)) {
      CycleStalls(rows);
    } else {
      GoodRowsFinish(rows);
    }
  }

  // ---- the same of the steps ----

  lemma RowsUnique(wf: string, steps: seq<Step>)
    requires DistinctIds(steps) && NoClash(steps)
    ensures UniqueIds(Rows(wf, steps))
  {
    RowCount(wf, steps);
    forall x, y | 0 <= x < |Rows(wf, steps)| && 0 <= y < |Rows(wf, steps)| && Rows(wf, steps)[x].id == Rows(wf, steps)[y].id
      ensures x == y
    {
      RowIdsDistinct(wf, steps, x, y);
    }
  }

  /** Every dependency names a step whose slices are settled by then, or spells out a slice. */
  ghost predicate AllResolve(steps: seq<Step>) {
    forall k :: 0 <= k < |steps| ==> forall d <- steps[k].deps :: Resolvable(steps, k, d)
  }

  lemma StepDepsExistIff(wf: string, steps: seq<Step>, k: nat)
    requires DistinctIds(steps) && NoClash(steps) && k < |steps|
    ensures (forall id <- DepsOf(wf, steps, k) :: id in RowIds(Rows(wf, steps))) <==>
            (forall d <- steps[k].deps :: Resolvable(steps, k, d))
  {
    var ids := RowIds(Rows(wf, steps));
    if forall d <- steps[k].deps :: Resolvable(steps, k, d) {
      forall id | id in DepsOf(wf, steps, k)
        ensures id in ids
      {
        DepIdsIff(wf, steps, k, steps[k].deps, id);
        var d :| d in steps[k].deps && id in Resolved(wf, steps, k, d);
        DependencyResolvesIff(wf, steps, k, d);
      }
    }
    if forall id <- DepsOf(wf, steps, k) :: id in ids {
      forall d | d in steps[k].deps
        ensures Resolvable(steps, k, d)
      {
        forall id | id in Resolved(wf, steps, k, d)
          ensures id in ids
        {
          DepIdsIff(wf, steps, k, steps[k].deps, id);
        }
        DependencyResolvesIff(wf, steps, k, d);
      }
    }
  }

  lemma DepsExistIff(wf: string, steps: seq<Step>)
    requires Legible(wf, steps)
    ensures DepsExist(Rows(wf, steps)) <==> AllResolve(steps)
  {
    var rows := Rows(wf, steps);
    RowCount(wf, steps);
    forall x | 0 <= x < |rows|
      ensures (forall d <- ParseDeps(rows[x].dependsOn) :: d in RowIds(rows)) <==>
              (forall d <- steps[Owner(steps, x)].deps :: Resolvable(steps, Owner(steps, x), d))
    {
      RowReads(wf, steps, x);
      StepDepsExistIff(wf, steps, Owner(steps, x));
    }
    if DepsExist(rows) {
      forall k | 0 <= k < |steps|
        ensures forall d <- steps[k].deps :: Resolvable(steps, k, d)
      {
        var x := FirstRow(steps, k);
      }
    }
  }

  // ---- repeated dependencies ----

  lemma DistinctJoin(a: seq<string>, b: seq<string>)
    ensures Distinct(a + b) <==> Distinct(a) && Distinct(b) && forall i, j :: 0 <= i < |a| && 0 <= j < |b| ==> a[i] != b[j]
  {
    var c := a + b;
    if Distinct(c) {
      forall i, j | 0 <= i < j < |a| ensures a[i] != a[j] { assert c[i] == a[i] && c[j] == a[j]; }
      forall i, j | 0 <= i < j < |b| ensures b[i] != b[j] { assert c[|a| + i] == b[i] && c[|a| + j] == b[j]; }
      forall i, j | 0 <= i < |a| && 0 <= j < |b| ensures a[i] != b[j] { assert c[i] == a[i] && c[|a| + j] == b[j]; }
    }
  }

  lemma DistinctSnoc(a: seq<string>, b: seq<string>)
    ensures Distinct(a + b) <==> Distinct(a) && Distinct(b) && !Share(a, b)
  {
    DistinctJoin(a, b);
    if !Share(a, b) {
      forall i, j | 0 <= i < |a| && 0 <= j < |b|
        ensures a[i] != b[j]
      {
        assert a[i] in a && b[j] in b;
      }
    }
  }

  lemma TaskIdsDistinct(wf: string, steps: seq<Step>, k: nat)
    requires DistinctIds(steps) && NoClash(steps) && k < |steps|
    ensures Distinct(TaskIds(wf, steps[k]))
  {
    forall i, j | 0 <= i < j < Width(steps[k])
      ensures TaskIds(wf, steps[k])[i] != TaskIds(wf, steps[k])[j]
    {
      if TaskIds(wf, steps[k])[i] == TaskIds(wf, steps[k])[j] {
        TaskIdUnique(wf, steps, k, i, k, j);
      }
    }
  }

  lemma ResolvedDistinct(wf: string, steps: seq<Step>, k: nat, d: string)
    requires DistinctIds(steps) && NoClash(steps) && k < |steps|
    ensures Distinct(Resolved(wf, steps, k, d))
  {
    var j := ResolvedShape(wf, steps, k, d);
    if IsName(steps[..k], d) { TaskIdsDistinct(wf, steps, j); }
  }

  /** No two of these dependencies of step `k` overlap. */
  predicate Apart(steps: seq<Step>, k: nat, deps: seq<string>)
    requires k < |steps|
  {
    forall a, b :: 0 <= a < b < |deps| ==> !Overlap(steps, k, deps[a], deps[b])
  }

  predicate MeetsNone(steps: seq<Step>, k: nat, front: seq<string>, d: string)
    requires k < |steps|
  {
    forall e <- front :: !Overlap(steps, k, e, d)
  }

  lemma ApartSnoc(steps: seq<Step>, k: nat, front: seq<string>, d: string)
    requires k < |steps|
    ensures Apart(steps, k, front + [d]) <==> Apart(steps, k, front) && MeetsNone(steps, k, front, d)
  {
    var deps := front + [d];
    if Apart(steps, k, deps) {
      forall e | e in front
        ensures !Overlap(steps, k, e, d)
      {
        var a :| 0 <= a < |front| && front[a] == e;
        assert deps[a] == e && deps[|front|] == d;
      }
      assert forall a :: 0 <= a < |front| ==> deps[a] == front[a];
    } else if Apart(steps, k, front) {
      var a, b :| 0 <= a < b < |deps| && Overlap(steps, k, deps[a], deps[b]);
      assert b == |front| && deps[a] in front;
    }
  }

  lemma FrontShareIff(wf: string, steps: seq<Step>, k: nat, front: seq<string>, d: string)
    requires DistinctIds(steps) && NoClash(steps) && k < |steps|
    ensures Share(DepIds(wf, SliceMap(wf, steps[..k]), front), Resolved(wf, steps, k, d)) <==>
            !MeetsNone(steps, k, front, d)
  {
    var ids := DepIds(wf, SliceMap(wf, steps[..k]), front);
    if x :| x in ids && x in Resolved(wf, steps, k, d) {
      DepIdsIff(wf, steps, k, front, x);
      var e :| e in front && x in Resolved(wf, steps, k, e);
      ShareIff(wf, steps, k, e, d);
    }
    if e :| e in front && Overlap(steps, k, e, d) {
      ShareIff(wf, steps, k, e, d);
      var x :| x in Resolved(wf, steps, k, e) && x in Resolved(wf, steps, k, d);
      DepIdsIff(wf, steps, k, front, x);
    }
  }

  lemma DepIdsDistinctSnoc(wf: string, steps: seq<Step>, k: nat, front: seq<string>, d: string)
    requires DistinctIds(steps) && NoClash(steps) && k < |steps|
    ensures Distinct(DepIds(wf, SliceMap(wf, steps[..k]), front + [d])) <==>
            Distinct(DepIds(wf, SliceMap(wf, steps[..k]), front)) && MeetsNone(steps, k, front, d)
  {
    assert (front + [d])[..|front|] == front;
    ResolvedDistinct(wf, steps, k, d);
    FrontShareIff(wf, steps, k, front, d);
    DistinctSnoc(DepIds(wf, SliceMap(wf, steps[..k]), front), Resolved(wf, steps, k, d));
  }

  lemma {:induction false} DepIdsDistinctIff(wf: string, steps: seq<Step>, k: nat, deps: seq<string>)
    requires DistinctIds(steps) && NoClash(steps) && k < |steps|
    ensures Distinct(DepIds(wf, SliceMap(wf, steps[..k]), deps)) <==> Apart(steps, k, deps)
  {
    if deps == [] {
    } else {
      var front, d := deps[..|deps| - 1], deps[|deps| - 1];
      DepIdsDistinctIff(wf, steps, k, front);
      DepIdsDistinctSnoc(wf, steps, k, front, d);
      ApartSnoc(steps, k, front, d);
      assert deps == front + [d];
    }
  }

  /** No step has a repeated dependency, nor one on a step beside one on a slice of it. */
  predicate NoRepeats(steps: seq<Step>) {
    forall k :: 0 <= k < |steps| ==> Apart(steps, k, steps[k].deps)
  }

  lemma DepsDistinctIff(wf: string, steps: seq<Step>)
    requires Legible(wf, steps)
    ensures DepsDistinct(Rows(wf, steps)) <==> NoRepeats(steps)
  {
    var rows := Rows(wf, steps);
    RowCount(wf, steps);
    forall x | 0 <= x < |rows|
      ensures Distinct(ParseDeps(rows[x].dependsOn)) <==> Apart(steps, Owner(steps, x), steps[Owner(steps, x)].deps)
    {
      RowReads(wf, steps, x);
      DepIdsDistinctIff(wf, steps, Owner(steps, x), steps[Owner(steps, x)].deps);
    }
    if DepsDistinct(rows) {
      forall k | 0 <= k < |steps|
        ensures Apart(steps, k, steps[k].deps)
      {
        var x := FirstRow(steps, k);
      }
    }
  }

  // ---- cycles ----

  /** Step `k` waits for some task of step `j`, by the step's name or by a slice's. */
  ghost function WaitEdges(steps: seq<Step>): Edges {
    set j, k | j in UpTo(|steps|) && k in UpTo(|steps|) && Blocks(steps, j, k) :: (j, k)
  }

  ghost predicate Blocks(steps: seq<Step>, j: nat, k: nat) {
    exists i: nat :: WaitsFor(steps, k, j, i)
  }

  lemma RowEdgeWaits(wf: string, steps: seq<Step>, x: nat, y: nat)
    requires Legible(wf, steps) && x < Total(steps) && y < Total(steps) && (x, y) in RowEdges(Rows(wf, steps))
    ensures (Owner(steps, x), Owner(steps, y)) in WaitEdges(steps)
  {
    RowEdgeIff(wf, steps, x, y);
    assert Blocks(steps, Owner(steps, x), Owner(steps, y));
  }

  lemma RowsOverWaits(wf: string, steps: seq<Step>)
    requires Legible(wf, steps)
    ensures Over(Rows(wf, steps), steps, WaitEdges(steps))
  {
    RowCount(wf, steps);
    var rows, waits := Rows(wf, steps), WaitEdges(steps);
    forall x, y | 0 <= x < |rows| && 0 <= y < |rows| && (x, y) in RowEdges(rows)
      ensures (Owner(steps, x), Owner(steps, y)) in waits
    {
      RowEdgeWaits(wf, steps, x, y);
    }
  }

  /** All rows of step `k` wait for row `x` of step `j`. */
  ghost predicate Common(steps: seq<Step>, edges: Edges, x: nat, j: nat, k: nat) {
    && x < Total(steps) && Owner(steps, x) == j
    && forall y: nat :: y < Total(steps) && Owner(steps, y) == k ==> (x, y) in edges
  }

  ghost predicate Uniform(steps: seq<Step>, edges: Edges, waits: Edges) {
    forall j, k :: (j, k) in waits ==> exists x :: Common(steps, edges, x, j, k)
  }

  lemma RowsUniform(wf: string, steps: seq<Step>)
    requires Legible(wf, steps)
    ensures Uniform(steps, RowEdges(Rows(wf, steps)), WaitEdges(steps))
  {
    var edges := RowEdges(Rows(wf, steps));
    forall j, k | (j, k) in WaitEdges(steps)
      ensures exists x :: Common(steps, edges, x, j, k)
    {
      var i: nat :| WaitsFor(steps, k, j, i);
      var x := RowOf(steps, j, i);
      forall y: nat | y < Total(steps) && Owner(steps, y) == k
        ensures (x, y) in edges
      {
        RowEdgeIff(wf, steps, x, y);
      }
      assert Common(steps, edges, x, j, k);
    }
  }

  /** A walk over steps is walked by rows, to a row for which all rows of the last step wait. */
  lemma {:induction false} LiftPath(steps: seq<Step>, edges: Edges, waits: Edges, q: seq<nat>, y: nat) returns (p: seq<nat>, x: nat)
    requires Uniform(steps, edges, waits) && Path(waits, q) && y < Total(steps) && Owner(steps, y) == q[|q| - 1]
    ensures Path(edges, p) && p[|p| - 1] == y && p[|p| - 2] == x && Common(steps, edges, x, q[|q| - 2], q[|q| - 1])
    ensures p[0] < Total(steps) && Owner(steps, p[0]) == q[0]
    decreases |q|
  {
    x :| Common(steps, edges, x, q[|q| - 2], q[|q| - 1]);
    if |q| == 2 {
      p := [x, y];
    } else {
      var p', _ := LiftPath(steps, edges, waits, q[..|q| - 1], x);
      p := p' + [y];
      assert p[..|p| - 1] == p';
    }
  }

  lemma CycleLifts(steps: seq<Step>, edges: Edges, waits: Edges, q: seq<nat>, y: nat)
    requires Uniform(steps, edges, waits) && Path(waits, q) && q[0] == q[|q| - 1]
    requires y < Total(steps) && Owner(steps, y) == q[0]
    ensures !Acyclic(edges)
  {
    var p, x := LiftPath(steps, edges, waits, q, y);
    var c := p[..|p| - 1] + [p[0]];
    assert c[|c| - 2] == x && (x, p[0]) in edges;
    assert c[..|c| - 1] == p[..|p| - 1];
    assert Path(edges, c) && c[0] == c[|c| - 1] == p[0];
    assert Reaches(edges, c[0], c[0]);
  }

  lemma AcyclicIff(wf: string, steps: seq<Step>)
    requires Legible(wf, steps)
    ensures Acyclic(RowEdges(Rows(wf, steps))) <==> Acyclic(WaitEdges(steps))
  {
    RowsOverWaits(wf, steps);
    if x: nat :| Reaches(RowEdges(Rows(wf, steps)), x, x) {
      var p :| Path(RowEdges(Rows(wf, steps)), p) && p[0] == x && p[|p| - 1] == x;
      var q := OwnersOfPath(Rows(wf, steps), steps, WaitEdges(steps), p);
      assert Reaches(WaitEdges(steps), q[0], q[0]);
    }
    if k: nat :| Reaches(WaitEdges(steps), k, k) {
      var q :| Path(WaitEdges(steps), q) && q[0] == k && q[|q| - 1] == k;
      PathEdge(WaitEdges(steps), q, 1);
      var y := FirstRow(steps, k);
      RowsUniform(wf, steps);
      CycleLifts(steps, RowEdges(Rows(wf, steps)), WaitEdges(steps), q, y);
    }
  }

  /** A workflow whose names are legible always runs to the end exactly when every dependency resolves,
      none repeats another, and there is no cycle. */
  lemma FinishesIff(wf: string, steps: seq<Step>)
    requires Legible(wf, steps)
    ensures AlwaysFinishes(Rows(wf, steps)) <==> AllResolve(steps) && NoRepeats(steps) && Acyclic(WaitEdges(steps))
  {
    RowsUnique(wf, steps);
    RowsFinishIff(Rows(wf, steps));
    DepsExistIff(wf, steps);
    DepsDistinctIff(wf, steps);
    AcyclicIff(wf, steps);
  }

  // ---- well-formed workflows ----

  lemma WellFormedWaits(wf: string, steps: seq<Step>)
    requires WellFormed(wf, steps)
    ensures WaitEdges(steps) == StepEdges(steps)
  {
    forall j, k | j in UpTo(|steps|) && k in UpTo(|steps|)
      ensures Blocks(steps, j, k) <==> steps[j].id in steps[k].deps
    {
      WaitsForNamed(wf, steps, k, j, 0);
      if i: nat :| WaitsFor(steps, k, j, i) { WaitsForNamed(wf, steps, k, j, i); }
    }
  }

  lemma WellFormedApartIff(wf: string, steps: seq<Step>, k: nat)
    requires WellFormed(wf, steps) && k < |steps|
    ensures Apart(steps, k, steps[k].deps) <==> Distinct(steps[k].deps)
  {
    var deps := steps[k].deps;
    forall a, b | 0 <= a < |deps| && 0 <= b < |deps|
      ensures Overlap(steps, k, deps[a], deps[b]) <==> deps[a] == deps[b]
    {
      assert IsName(steps, deps[a]) && IsName(steps, deps[b]);
      NamesDoNotOverlap(steps, k, deps[a], deps[b], Find(steps, deps[b]));
      NamesDoNotOverlap(steps, k, deps[b], deps[a], Find(steps, deps[a]));
    }
  }

  /** A well-formed workflow always runs to the end exactly when it has no cycle and no step lists the
      same dependency twice. */
  lemma WellFormedFinishesIff(wf: string, steps: seq<Step>)
    requires WellFormed(wf, steps)
    ensures AlwaysFinishes(Rows(wf, steps)) <==>
            Acyclic(StepEdges(steps)) && forall k :: 0 <= k < |steps| ==> Distinct(steps[k].deps)
  {
    WellFormedLegible(wf, steps);
    FinishesIff(wf, steps);
    WellFormedWaits(wf, steps);
    forall k, d | 0 <= k < |steps| && d in steps[k].deps
      ensures Resolvable(steps, k, d)
    {
      WellFormedResolves(wf, steps, k, d);
    }
    forall k | 0 <= k < |steps|
      ensures Apart(steps, k, steps[k].deps) <==> Distinct(steps[k].deps)
    {
      WellFormedApartIff(wf, steps, k);
    }
  }

  // ---- workflows that stall ----

  /** Step `a` depends on this name; step `b` has so many slices. */
  function TwoSteps(dep: string, slices: int): seq<Step> {
    [Step("a", [dep], 1), Step("b", [], slices)]
  }

  lemma TwoStepsLegible(dep: string, slices: int)
    requires CleanName(dep)
    ensures Legible("w", TwoSteps(dep, slices))
  {
    var steps := TwoSteps(dep, slices);
    assert steps[0].id == "a" && steps[1].id == "b";
    assert forall i: nat :: |"b" + "_p" + Decimal(i)| > 1;
  }

  lemma TwoStepsStall(dep: string, slices: int)
    requires CleanName(dep) && !Resolvable(TwoSteps(dep, slices), 0, dep)
    ensures !AlwaysFinishes(Rows("w", TwoSteps(dep, slices)))
  {
    var steps := TwoSteps(dep, slices);
    TwoStepsLegible(dep, slices);
    assert dep in steps[0].deps;
    FinishesIff("w", steps);
  }

  /** A dependency on a sliced step that is listed later stalls the workflow. */
  lemma LaterSlicedStalls()
    ensures Names(TwoSteps("b", 2), "b", 1) && !AlwaysFinishes(Rows("w", TwoSteps("b", 2)))
  {
    var steps := TwoSteps("b", 2);
    assert steps[0].id == "a" && steps[1].id == "b";
    assert forall i: nat :: |"b" + "_p" + Decimal(i)| > 1;
    TwoStepsStall("b", 2);
  }

  /** So does one on a step that does not exist. */
  lemma UnknownStalls()
    ensures !IsName(TwoSteps("x", 2), "x") && !AlwaysFinishes(Rows("w", TwoSteps("x", 2)))
  {
    var steps := TwoSteps("x", 2);
    assert steps[0].id == "a" && steps[1].id == "b";
    assert forall i: nat :: |"b" + "_p" + Decimal(i)| > 1;
    TwoStepsStall("x", 2);
  }

  // ---- why dependency names must be legible ----

  lemma SpacedRows()
    ensures Rows("w", TwoSteps("b ", 1)) == [Row("w_a", "w_b ", true), Row("w_b", "", false)]
  {
    var steps := TwoSteps("b ", 1);
    assert BaseId("w", "a") == "w_a" && BaseId("w", "b") == "w_b" && BaseId("w", "b ") == "w_b ";
    var a := steps[..1];
    assert a == [steps[0]] && a[..0] == [] && steps[0].deps[..0] == [];
    assert Rows("w", []) == [] && SliceMap("w", []) == map[];
    assert DepIds("w", map[], []) == [];
    assert DepIds("w", map[], steps[0].deps) == [] + ["w_b "] == ["w_b "];
    assert Join(["w_b "], ',') == "w_b " && Join([], ',') == "";
    assert TaskIds("w", steps[0]) == ["w_a"] && TaskIds("w", steps[1]) == ["w_b"];
    assert StepRows("w", steps[0], map[]) == [Row("w_a", "w_b ", true)];
    assert DepIds("w", SliceMap("w", a), steps[1].deps) == [];
    assert Rows("w", a) == [] + StepRows("w", steps[0], map[]);
    assert StepRows("w", steps[1], SliceMap("w", a)) == [Row("w_b", "", false)];
    assert Rows("w", steps) == Rows("w", a) + StepRows("w", steps[1], SliceMap("w", a));
  }

  lemma SpacedParse()
    ensures ParseDeps("w_b ") == ["w_b"] && ParseDeps("") == []
  {
    assert ',' !in "w_b ";
    SplitPiece("w_b ", ',');
    assert IsSpace(' ') && !IsSpace('b') && !IsSpace('w');
    assert "w_b "[..3] == "w_b";
    assert Strip("w_b ") == "w_b";
    assert NonBlank([]) == [] && ["w_b "][1..] == [];
    assert Strip("") == "" && Split("", ',') == [""] && [""][1..] == [];
  }

  lemma OneEdge(e: Edges)
    requires e <= {(1, 0)}
    ensures Acyclic(e)
  {
    forall x: nat
      ensures !Reaches(e, x, x)
    {
      if p :| Path(e, p) && p[0] == x && p[|p| - 1] == x {
        PathEdge(e, p, 1);
      }
    }
  }

  lemma TwoRowsFinish(a: Row, b: Row)
    requires ParseDeps(a.dependsOn) == [b.id] && ParseDeps(b.dependsOn) == [] && a.id != b.id
    ensures AlwaysFinishes([a, b])
  {
    var rows := [a, b];
    assert rows[0] == a && rows[1] == b && b in rows;
    OneEdge(RowEdges(rows));
    GoodRowsFinish(rows);
  }

  lemma SpacedFinish()
    ensures AlwaysFinishes(Rows("w", TwoSteps("b ", 1)))
  {
    SpacedRows();
    SpacedParse();
    assert "w_a"[2] != "w_b"[2];
    TwoRowsFinish(Row("w_a", "w_b ", true), Row("w_b", "", false));
  }

  /** A trailing space is lost when the list is read back, so that a dependency that names nothing can
      still be met. */
  lemma SpacedNameFinishes()
    ensures var steps := TwoSteps("b ", 1);
            && DistinctIds(steps) && NoClash(steps) && Clean("w", steps)
            && !Resolvable(steps, 0, "b ") && AlwaysFinishes(Rows("w", steps))
  {
    var steps := TwoSteps("b ", 1);
    assert steps[0].id == "a" && steps[1].id == "b";
    SpacedFinish();
  }
}
