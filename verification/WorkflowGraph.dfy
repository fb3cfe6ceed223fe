/** The expanded task graph means what the step graph means. */
module WorkflowGraph {
  import opened Graphs
  import opened Text
  import opened Workflow
  import opened WorkflowNames

  // ---- which step and slice a row belongs to ----

  function Total(steps: seq<Step>): nat {
    if steps == [] then 0 else Total(steps[..|steps| - 1]) + Width(steps[|steps| - 1])
  }

  function Owner(steps: seq<Step>, x: nat): (k: nat)
    requires x < Total(steps)
    ensures k < |steps|
  {
    if x < Total(steps[..|steps| - 1]) then Owner(steps[..|steps| - 1], x) else |steps| - 1
  }

  function Slice(steps: seq<Step>, x: nat): (i: nat)
    requires x < Total(steps)
    ensures i < Width(steps[Owner(steps, x)])
  {
    if x < Total(steps[..|steps| - 1]) then Slice(steps[..|steps| - 1], x) else x - Total(steps[..|steps| - 1])
  }

  /** The first row of a step. */
  lemma {:induction false} FirstRow(steps: seq<Step>, k: nat) returns (x: nat)
    requires k < |steps|
    ensures x < Total(steps) && Owner(steps, x) == k
  {
    if k == |steps| - 1 {
      x := Total(steps[..k]);
    } else {
      x := FirstRow(steps[..|steps| - 1], k);
    }
  }

  lemma {:induction false} RowOf(steps: seq<Step>, k: nat, i: nat) returns (x: nat)
    requires k < |steps| && i < Width(steps[k])
    ensures x < Total(steps) && Owner(steps, x) == k && Slice(steps, x) == i
  {
    if k == |steps| - 1 {
      x := Total(steps[..k]) + i;
    } else {
      x := RowOf(steps[..|steps| - 1], k, i);
    }
  }

  lemma {:induction false} SamePosition(steps: seq<Step>, x: nat, y: nat)
    requires x < Total(steps) && y < Total(steps)
    requires Owner(steps, x) == Owner(steps, y) && Slice(steps, x) == Slice(steps, y)
    ensures x == y
  {
    var front := steps[..|steps| - 1];
    if x < Total(front) && y < Total(front) {
      SamePosition(front, x, y);
    }
  }

  /** As many rows as the steps have slices, at least one each. */
  lemma {:induction false} RowCount(wf: string, steps: seq<Step>)
    ensures |Rows(wf, steps)| == Total(steps)
  {
    if steps == [] {
    } else {
      RowCount(wf, steps[..|steps| - 1]);
    }
  }

  function RowAt(wf: string, steps: seq<Step>, x: nat): Row
    requires x < Total(steps)
  {
    RowCount(wf, steps);
    Rows(wf, steps)[x]
  }

  lemma {:induction false} RowShape(wf: string, steps: seq<Step>, x: nat)
    requires x < Total(steps)
    ensures |Rows(wf, steps)| == Total(steps)
    ensures var k := Owner(steps, x);
            Rows(wf, steps)[x] == StepRows(wf, steps[k], SliceMap(wf, steps[..k]))[Slice(steps, x)]
  {
    RowCount(wf, steps);
    var front := steps[..|steps| - 1];
    RowCount(wf, front);
    if x < Total(front) {
      RowShape(wf, front, x);
      var k := Owner(front, x);
      assert front[..k] == steps[..k];
    }
  }

  /** Row ids are distinct, so the table accepts them all. */
  lemma RowIdsDistinct(wf: string, steps: seq<Step>, x: nat, y: nat)
    requires DistinctIds(steps) && NoClash(steps)
    requires x < Total(steps) && y < Total(steps)
    ensures |Rows(wf, steps)| == Total(steps)
    ensures Rows(wf, steps)[x].id == Rows(wf, steps)[y].id ==> x == y
  {
    RowShape(wf, steps, x);
    RowShape(wf, steps, y);
    if Rows(wf, steps)[x].id == Rows(wf, steps)[y].id {
      TaskIdUnique(wf, steps, Owner(steps, x), Slice(steps, x), Owner(steps, y), Slice(steps, y));
      SamePosition(steps, x, y);
    }
  }

  // ---- the stored list is read back as written ----

  predicate Storable(id: string) {
    id != "" && ',' !in id && Stripped(id)
  }

  lemma {:induction false} NonBlankKeeps(parts: seq<string>)
    requires forall i :: 0 <= i < |parts| ==> Storable(parts[i])
    ensures NonBlank(parts) == parts
  {
    if parts == [] {
    } else {
      NonBlankKeeps(parts[1..]);
      StripIff(parts[0]);
      assert [parts[0]] + parts[1..] == parts;
    }
  }

  /** Storing a list of clean ids and parsing it back returns the list. */
  lemma StoredDeps(deps: seq<string>)
    requires forall i :: 0 <= i < |deps| ==> Storable(deps[i])
    ensures ParseDeps(Join(deps, ',')) == deps
  {
    if deps != [] {
      assert forall p <- deps :: ',' !in p;
      SplitJoin(deps, ',');
      NonBlankKeeps(deps);
    } else {
      assert Strip("") == "";
    }
  }

  lemma {:induction false} ParsedAreStorable(parts: seq<string>)
    requires forall i :: 0 <= i < |parts| ==> ',' !in parts[i]
    ensures forall i :: 0 <= i < |NonBlank(parts)| ==> Storable(NonBlank(parts)[i])
  {
    if parts == [] {
    } else {
      ParsedAreStorable(parts[1..]);
    }
  }

  /** The stored list is read back as written exactly when every id in it is clean. */
  lemma StoredDepsIff(deps: seq<string>)
    ensures ParseDeps(Join(deps, ',')) == deps <==> forall i :: 0 <= i < |deps| ==> Storable(deps[i])
  {
    if forall i :: 0 <= i < |deps| ==> Storable(deps[i]) {
      StoredDeps(deps);
    } else {
      var parts := Split(Join(deps, ','), ',');
      assert forall i :: 0 <= i < |parts| ==> parts[i] in parts;
      ParsedAreStorable(parts);
    }
  }

  lemma TaskIdStorable(wf: string, steps: seq<Step>, k: nat, i: nat)
    requires Clean(wf, steps) && k < |steps| && i < Width(steps[k])
    ensures Storable(TaskIds(wf, steps[k])[i])
  {
    var s := steps[k];
    var id := TaskIds(wf, s)[i];
    assert s in steps;
    assert !IsSpace('_');
    if s.slices > 1 {
      var n := Decimal(i);
      assert IsDigit(n[|n| - 1]);
      assert id == wf + "_" + s.id + "_p" + n;
      assert id[|id| - 1] == n[|n| - 1];
      assert ',' !in n by {
        assert !IsDigit(',');
      }
    }
  }

  lemma BaseStorable(wf: string, steps: seq<Step>, d: string)
    requires Clean(wf, steps) && CleanName(d)
    ensures Storable(BaseId(wf, d))
  {
    var id := BaseId(wf, d);
    assert !IsSpace('_');
    assert id[|id| - 1] == if d == "" then '_' else d[|d| - 1];
  }

  lemma ResolvedStorable(wf: string, steps: seq<Step>, k: nat, d: string, id: string)
    requires DistinctIds(steps) && Clean(wf, steps) && CleanName(d) && k < |steps| && id in Resolved(wf, steps, k, d)
    ensures Storable(id)
  {
    var j := ResolvedShape(wf, steps, k, d);
    if IsName(steps[..k], d) {
      var i :| 0 <= i < Width(steps[j]) && TaskIds(wf, steps[j])[i] == id;
      TaskIdStorable(wf, steps, j, i);
    } else {
      BaseStorable(wf, steps, d);
    }
  }

  /** The ids a step's dependencies turn into. */
  function DepsOf(wf: string, steps: seq<Step>, k: nat): seq<string>
    requires k < |steps|
  {
    DepIds(wf, SliceMap(wf, steps[..k]), steps[k].deps)
  }

  /** What the scheduler reads from a row: what the dependencies of its step turn into. */
  lemma RowReads(wf: string, steps: seq<Step>, x: nat)
    requires Legible(wf, steps) && x < Total(steps)
    ensures |Rows(wf, steps)| == Total(steps)
    ensures var k, row := Owner(steps, x), Rows(wf, steps)[x];
            && ParseDeps(row.dependsOn) == DepsOf(wf, steps, k) && row.waiting == (steps[k].deps != [])
            && row.id == TaskIds(wf, steps[k])[Slice(steps, x)]
  {
    var k := Owner(steps, x);
    RowShape(wf, steps, x);
    var ids := DepsOf(wf, steps, k);
    forall i | 0 <= i < |ids|
      ensures Storable(ids[i])
    {
      assert ids[i] in ids;
      DepIdsIff(wf, steps, k, steps[k].deps, ids[i]);
      var d :| d in steps[k].deps && ids[i] in Resolved(wf, steps, k, d);
      assert steps[k] in steps;
      ResolvedStorable(wf, steps, k, d, ids[i]);
    }
    StoredDeps(ids);
    NonEmptyDeps(wf, SliceMap(wf, steps[..k]), steps[k].deps, steps, k);
  }

  lemma NonEmptyDeps(wf: string, slices: map<string, seq<string>>, deps: seq<string>, steps: seq<Step>, k: nat)
    requires DistinctIds(steps) && k < |steps| && slices == SliceMap(wf, steps[..k])
    ensures DepIds(wf, slices, deps) == [] <==> deps == []
  {
    if deps != [] {
      var _ := ResolvedShape(wf, steps, k, deps[|deps| - 1]);
      assert |Resolved(wf, steps, k, deps[|deps| - 1])| > 0;
    }
  }

  // ---- edges and reachability ----

  /** Step `k` names step `j` as a dependency. */
  ghost function StepEdges(steps: seq<Step>): Edges {
    set j, k | j in UpTo(|steps|) && k in UpTo(|steps|) && steps[j].id in steps[k].deps :: (j, k)
  }

  /** Row `y` waits for row `x`. */
  ghost function RowEdges(rows: seq<Row>): Edges {
    set x, y | x in UpTo(|rows|) && y in UpTo(|rows|) && rows[x].id in ParseDeps(rows[y].dependsOn) :: (x, y)
  }

  /** Some dependency of step `k` means task `i` of step `j`. */
  ghost predicate WaitsFor(steps: seq<Step>, k: nat, j: nat, i: nat) {
    k < |steps| && j < |steps| && i < Width(steps[j]) && exists d <- steps[k].deps :: Gives(steps, k, d, j, i)
  }

  /** A row waits for another exactly when a dependency of its step means that task. */
  lemma RowEdgeIff(wf: string, steps: seq<Step>, x: nat, y: nat)
    requires Legible(wf, steps) && x < Total(steps) && y < Total(steps)
    ensures (x, y) in RowEdges(Rows(wf, steps)) <==> WaitsFor(steps, Owner(steps, y), Owner(steps, x), Slice(steps, x))
  {
    RowReads(wf, steps, x);
    RowReads(wf, steps, y);
    var k, id := Owner(steps, y), Rows(wf, steps)[x].id;
    DepIdsIff(wf, steps, k, steps[k].deps, id);
    forall d | d in steps[k].deps
      ensures id in Resolved(wf, steps, k, d) <==> Gives(steps, k, d, Owner(steps, x), Slice(steps, x))
    {
      ResolvedIff(wf, steps, k, d, Owner(steps, x), Slice(steps, x));
    }
  }

  /** In a well-formed workflow a task waits for another exactly when its step depends on the other's step. */
  lemma EdgeIff(wf: string, steps: seq<Step>, x: nat, y: nat)
    requires WellFormed(wf, steps) && x < Total(steps) && y < Total(steps)
    ensures (x, y) in RowEdges(Rows(wf, steps)) <==> (Owner(steps, x), Owner(steps, y)) in StepEdges(steps)
  {
    WellFormedLegible(wf, steps);
    RowEdgeIff(wf, steps, x, y);
    WaitsForNamed(wf, steps, Owner(steps, y), Owner(steps, x), Slice(steps, x));
  }

  lemma WaitsForNamed(wf: string, steps: seq<Step>, k: nat, j: nat, i: nat)
    requires WellFormed(wf, steps) && k < |steps| && j < |steps| && i < Width(steps[j])
    ensures WaitsFor(steps, k, j, i) <==> steps[j].id in steps[k].deps
  {
    forall d | d in steps[k].deps
      ensures Gives(steps, k, d, j, i) <==> steps[j].id == d
    {
      var n :| 0 <= n < |steps[k].deps| && steps[k].deps[n] == d;
      assert IsName(steps, steps[k].deps[n]);
      var _ := Find(steps, d);
    }
  }

  ghost function RowIds(rows: seq<Row>): set<string> {
    set row | row in rows :: row.id
  }

  /** Some row carries this id. */
  ghost predicate IsTask(wf: string, steps: seq<Step>, id: string, j: int, i: int) {
    0 <= j < |steps| && 0 <= i < Width(steps[j]) && TaskIds(wf, steps[j])[i] == id
  }

  lemma RowIdsIff(wf: string, steps: seq<Step>, id: string)
    ensures id in RowIds(Rows(wf, steps)) <==> exists j, i :: IsTask(wf, steps, id, j, i)
  {
    var rows := Rows(wf, steps);
    RowCount(wf, steps);
    if j, i :| IsTask(wf, steps, id, j, i) {
      var x := RowOf(steps, j, i);
      RowShape(wf, steps, x);
      assert rows[x] in rows && rows[x].id == id;
    }
    if row :| row in rows && row.id == id {
      var x :| 0 <= x < |rows| && rows[x] == row;
      RowShape(wf, steps, x);
      assert IsTask(wf, steps, id, Owner(steps, x), Slice(steps, x));
    }
  }

  /** The dependency names a step that is not sliced or is listed earlier. */
  predicate NamesEarlier(steps: seq<Step>, k: nat, d: string) {
    exists j :: 0 <= j < |steps| && steps[j].id == d && (steps[j].slices <= 1 || j < k)
  }

  /** The dependency spells out one slice of a sliced step. */
  predicate NamesSlice(steps: seq<Step>, d: string) {
    exists j :: 0 <= j < |steps| && steps[j].slices > 1 && IsSliceOf(steps[j], d)
  }

  predicate Resolvable(steps: seq<Step>, k: nat, d: string) {
    NamesEarlier(steps, k, d) || NamesSlice(steps, d)
  }

  /** The ids a dependency turns into are all ids of rows exactly when it names a step whose slices are
      settled by then, or a slice by its own name. */
  lemma DependencyResolvesIff(wf: string, steps: seq<Step>, k: nat, d: string)
    requires DistinctIds(steps) && NoClash(steps) && k < |steps|
    ensures (forall id <- Resolved(wf, steps, k, d) :: id in RowIds(Rows(wf, steps))) <==> Resolvable(steps, k, d)
  {
    var j := ResolvedShape(wf, steps, k, d);
    if IsName(steps[..k], d) {
      assert NamesEarlier(steps, k, d);
      forall id | id in TaskIds(wf, steps[j])
        ensures id in RowIds(Rows(wf, steps))
      {
        RowIdsIff(wf, steps, id);
        var i :| 0 <= i < Width(steps[j]) && TaskIds(wf, steps[j])[i] == id;
        assert IsTask(wf, steps, id, j, i);
      }
    } else {
      RowIdsIff(wf, steps, BaseId(wf, d));
      BaseIsRowIff(wf, steps, k, d);
      assert [BaseId(wf, d)][0] in [BaseId(wf, d)];
    }
  }

  lemma BaseIsRowIff(wf: string, steps: seq<Step>, k: nat, d: string)
    requires k < |steps| && !IsName(steps[..k], d)
    ensures (exists j, i :: IsTask(wf, steps, BaseId(wf, d), j, i)) <==> Resolvable(steps, k, d)
  {
    if j, i :| IsTask(wf, steps, BaseId(wf, d), j, i) {
      BaseIsTaskIff(wf, steps, d, j, i);
      assert steps[j].slices > 1 ==> IsSliceOf(steps[j], d);
    }
    if NamesEarlier(steps, k, d) {
      var j :| 0 <= j < |steps| && steps[j].id == d && (steps[j].slices <= 1 || j < k);
      assert !Names(steps[..k], d, j);
      assert IsTask(wf, steps, BaseId(wf, d), j, 0);
    }
    if NamesSlice(steps, d) {
      var j :| 0 <= j < |steps| && steps[j].slices > 1 && IsSliceOf(steps[j], d);
      var i :| 0 <= i < steps[j].slices && d == steps[j].id + "_p" + Decimal(i);
      BaseIsTaskIff(wf, steps, d, j, i);
      assert IsTask(wf, steps, BaseId(wf, d), j, i);
    }
  }

  /** Every id a row of a well-formed workflow waits for is the id of a row. */
  lemma DependenciesExist(wf: string, steps: seq<Step>, y: nat, id: string)
    requires WellFormed(wf, steps) && y < |Rows(wf, steps)| && id in ParseDeps(Rows(wf, steps)[y].dependsOn)
    ensures id in RowIds(Rows(wf, steps))
  {
    WellFormedLegible(wf, steps);
    RowCount(wf, steps);
    RowReads(wf, steps, y);
    var k := Owner(steps, y);
    DepIdsIff(wf, steps, k, steps[k].deps, id);
    var d :| d in steps[k].deps && id in Resolved(wf, steps, k, d);
    DependencyResolvesIff(wf, steps, k, d);
    WellFormedResolves(wf, steps, k, d);
  }

  lemma WellFormedResolves(wf: string, steps: seq<Step>, k: nat, d: string)
    requires WellFormed(wf, steps) && k < |steps| && d in steps[k].deps
    ensures Resolvable(steps, k, d)
  {
    var n :| 0 <= n < |steps[k].deps| && steps[k].deps[n] == d;
    assert IsName(steps, steps[k].deps[n]);
    var j := Find(steps, d);
    assert steps[j].slices <= 1 || j < k;
  }

  /** The row graph is the step graph blown up. */
  ghost predicate Mirrors(rows: seq<Row>, steps: seq<Step>) {
    && |rows| == Total(steps)
    && forall x, y :: 0 <= x < |rows| && 0 <= y < |rows| ==>
         ((x, y) in RowEdges(rows) <==> (Owner(steps, x), Owner(steps, y)) in StepEdges(steps))
  }

  lemma RowsMirror(wf: string, steps: seq<Step>)
    requires WellFormed(wf, steps)
    ensures Mirrors(Rows(wf, steps), steps)
  {
    RowCount(wf, steps);
    forall x, y | 0 <= x < |Rows(wf, steps)| && 0 <= y < |Rows(wf, steps)|
      ensures (x, y) in RowEdges(Rows(wf, steps)) <==> (Owner(steps, x), Owner(steps, y)) in StepEdges(steps)
    {
      EdgeIff(wf, steps, x, y);
    }
  }

  lemma PathSnoc(edges: Edges, p: seq<nat>, y: nat)
    requires Path(edges, p) && (p[|p| - 1], y) in edges
    ensures Path(edges, p + [y])
  {
    assert (p + [y])[..|p|] == p;
  }

  lemma MirroredEdge(rows: seq<Row>, steps: seq<Step>, x: nat, y: nat)
    requires Mirrors(rows, steps) && x < |rows| && y < |rows|
    requires (Owner(steps, x), Owner(steps, y)) in StepEdges(steps)
    ensures (x, y) in RowEdges(rows)
  {
  }

  lemma {:induction false} RowsAlongPath(rows: seq<Row>, steps: seq<Step>, q: seq<nat>, x: nat, y: nat) returns (p: seq<nat>)
    requires Mirrors(rows, steps) && Path(StepEdges(steps), q)
    requires x < |rows| && y < |rows| && Owner(steps, x) == q[0] && Owner(steps, y) == q[|q| - 1]
    ensures Path(RowEdges(rows), p) && p[0] == x && p[|p| - 1] == y
    decreases |q|
  {
    if |q| == 2 {
      p := [x, y];
      MirroredEdge(rows, steps, x, y);
    } else {
      var z := FirstRow(steps, q[|q| - 2]);
      var front := RowsAlongPath(rows, steps, q[..|q| - 1], x, z);
      MirroredEdge(rows, steps, z, y);
      p := front + [y];
      PathSnoc(RowEdges(rows), front, y);
    }
  }

  /** A row graph whose edges lie over edges of a step graph has its walks over walks. */
  ghost predicate Over(rows: seq<Row>, steps: seq<Step>, edges: Edges) {
    && |rows| == Total(steps)
    && forall x, y :: 0 <= x < |rows| && 0 <= y < |rows| && (x, y) in RowEdges(rows) ==>
         (Owner(steps, x), Owner(steps, y)) in edges
  }

  lemma OwnerEdge(rows: seq<Row>, steps: seq<Step>, edges: Edges, x: nat, y: nat)
    requires Over(rows, steps, edges) && (x, y) in RowEdges(rows)
    ensures x < |rows| && y < |rows| && (Owner(steps, x), Owner(steps, y)) in edges
  {
  }

  lemma {:induction false} OwnersOfPath(rows: seq<Row>, steps: seq<Step>, edges: Edges, p: seq<nat>) returns (q: seq<nat>)
    requires Over(rows, steps, edges) && Path(RowEdges(rows), p)
    ensures Path(edges, q)
    ensures p[0] < |rows| && p[|p| - 1] < |rows|
    ensures q[0] == Owner(steps, p[0]) && q[|q| - 1] == Owner(steps, p[|p| - 1])
    decreases |p|
  {
    var x, y := p[|p| - 2], p[|p| - 1];
    OwnerEdge(rows, steps, edges, x, y);
    if |p| == 2 {
      q := [Owner(steps, x), Owner(steps, y)];
    } else {
      var front := OwnersOfPath(rows, steps, edges, p[..|p| - 1]);
      q := front + [Owner(steps, y)];
      PathSnoc(edges, front, Owner(steps, y));
    }
  }

  /** Expansion preserves meaning: one task comes before another exactly when its step does. */
  lemma ReachIff(wf: string, steps: seq<Step>, x: nat, y: nat)
    requires WellFormed(wf, steps) && x < Total(steps) && y < Total(steps)
    ensures Reaches(RowEdges(Rows(wf, steps)), x, y) <==> Reaches(StepEdges(steps), Owner(steps, x), Owner(steps, y))
  {
    var rows := Rows(wf, steps);
    RowsMirror(wf, steps);
    if Reaches(RowEdges(rows), x, y) {
      var p :| Path(RowEdges(rows), p) && p[0] == x && p[|p| - 1] == y;
      var q := OwnersOfPath(rows, steps, StepEdges(steps), p);
    }
    if Reaches(StepEdges(steps), Owner(steps, x), Owner(steps, y)) {
      var q :| Path(StepEdges(steps), q) && q[0] == Owner(steps, x) && q[|q| - 1] == Owner(steps, y);
      var p := RowsAlongPath(rows, steps, q, x, y);
    }
  }
}
