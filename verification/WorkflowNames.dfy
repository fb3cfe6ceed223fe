/** The names the expansion gives to tasks, and the list of dependencies it stores. */
module WorkflowNames {
  import opened Text
  import opened Workflow

  // ---- what a submitter has to respect ----

  predicate DistinctIds(steps: seq<Step>) {
    forall i, j :: 0 <= i < j < |steps| ==> steps[i].id != steps[j].id
  }

  predicate Names(steps: seq<Step>, d: string, j: int) {
    0 <= j < |steps| && steps[j].id == d
  }

  ghost predicate IsName(steps: seq<Step>, d: string) {
    exists j :: Names(steps, d, j)
  }

  ghost predicate AllNames(steps: seq<Step>, deps: seq<string>) {
    forall i :: 0 <= i < |deps| ==> IsName(steps, deps[i])
  }

  /** Every dependency names a step. */
  ghost predicate Known(steps: seq<Step>) {
    forall k :: 0 <= k < |steps| ==> AllNames(steps, steps[k].deps)
  }

  ghost function Find(steps: seq<Step>, d: string): (j: nat)
    requires IsName(steps, d)
    ensures Names(steps, d, j)
  {
    var j :| Names(steps, d, j);
    j
  }

  /** A step that is sliced is listed before the steps that depend on it. */
  predicate SlicedFirst(steps: seq<Step>) {
    forall j, k :: 0 <= j < |steps| && 0 <= k < |steps| && steps[j].id in steps[k].deps && steps[j].slices > 1 ==> j < k
  }

  /** No step is named like a slice of another. */
  predicate NoClash(steps: seq<Step>) {
    forall j, k, i :: 0 <= j < |steps| && 0 <= k < |steps| && steps[k].slices > 1 && 0 <= i < steps[k].slices
                      ==> steps[j].id != steps[k].id + "_p" + Decimal(i)
  }

  /** A name that survives being stored at the end of an id in a comma-separated list. */
  predicate CleanName(name: string) {
    ',' !in name && (name != "" ==> !IsSpace(name[|name| - 1]))
  }

  predicate Clean(wf: string, steps: seq<Step>) {
    && ',' !in wf && (wf != "" ==> !IsSpace(wf[0]))
    && forall s <- steps :: CleanName(s.id)
  }

  predicate CleanDeps(steps: seq<Step>) {
    forall s <- steps, d <- s.deps :: CleanName(d)
  }

  /** Steps whose rows can be told apart and whose dependencies are read back as written. */
  predicate Legible(wf: string, steps: seq<Step>) {
    DistinctIds(steps) && NoClash(steps) && Clean(wf, steps) && CleanDeps(steps)
  }

  ghost predicate WellFormed(wf: string, steps: seq<Step>) {
    DistinctIds(steps) && Known(steps) && SlicedFirst(steps) && NoClash(steps) && Clean(wf, steps)
  }

  lemma WellFormedLegible(wf: string, steps: seq<Step>)
    requires WellFormed(wf, steps)
    ensures Legible(wf, steps)
  {
    forall s, d | s in steps && d in s.deps
      ensures CleanName(d)
    {
      var k :| 0 <= k < |steps| && steps[k] == s;
      var i :| 0 <= i < |s.deps| && s.deps[i] == d;
      assert IsName(steps, steps[k].deps[i]);
      var j := Find(steps, d);
      assert steps[j] in steps;
    }
  }

  // ---- names are unambiguous ----

  lemma BaseInjective(wf: string, a: string, b: string)
    requires BaseId(wf, a) == BaseId(wf, b)
    ensures a == b
  {
    assert BaseId(wf, a)[|wf| + 1..] == a;
    assert BaseId(wf, b)[|wf| + 1..] == b;
  }

  lemma DigitsOnly(i: nat)
    ensures forall k :: 0 <= k < |Decimal(i)| ==> Decimal(i)[k] != 'p'
  {
    forall k | 0 <= k < |Decimal(i)|
      ensures Decimal(i)[k] != 'p'
    {
      assert IsDigit(Decimal(i)[k]);
    }
  }

  /** A slice suffix can be read off from the right. */
  lemma SuffixInjective(x: string, i: nat, y: string, j: nat)
    requires x + "_p" + Decimal(i) == y + "_p" + Decimal(j)
    ensures x == y && i == j
  {
    var s := x + "_p" + Decimal(i);
    var m, n := |Decimal(i)|, |Decimal(j)|;
    DigitsOnly(i);
    DigitsOnly(j);
    assert s[|s| - m - 1] == 'p' && s[|s| - n - 1] == 'p';
    if m != n {
      assert false;
    }
    assert s[|s| - m..] == Decimal(i) && s[|s| - n..] == Decimal(j);
    assert s[..|s| - m - 2] == x && s[..|s| - n - 2] == y;
  }

  lemma SubShape(wf: string, id: string, i: nat)
    ensures SubId(wf, id, i) == BaseId(wf, id + "_p" + Decimal(i))
  {
  }

  lemma SubInjective(wf: string, a: string, i: nat, b: string, j: nat)
    requires SubId(wf, a, i) == SubId(wf, b, j)
    ensures a == b && i == j
  {
    SubShape(wf, a, i);
    SubShape(wf, b, j);
    BaseInjective(wf, a + "_p" + Decimal(i), b + "_p" + Decimal(j));
    SuffixInjective(a, i, b, j);
  }

  /** One id names one task: the same step and the same slice. */
  lemma TaskIdUnique(wf: string, steps: seq<Step>, j: nat, a: nat, k: nat, b: nat)
    requires DistinctIds(steps) && NoClash(steps)
    requires j < |steps| && a < Width(steps[j]) && k < |steps| && b < Width(steps[k])
    requires TaskIds(wf, steps[j])[a] == TaskIds(wf, steps[k])[b]
    ensures j == k && a == b
  {
    if steps[j].slices > 1 && steps[k].slices > 1 {
      SubInjective(wf, steps[j].id, a, steps[k].id, b);
    } else if steps[j].slices > 1 {
      SubShape(wf, steps[j].id, a);
      BaseInjective(wf, steps[j].id + "_p" + Decimal(a), steps[k].id);
      assert false;
    } else if steps[k].slices > 1 {
      SubShape(wf, steps[k].id, b);
      BaseInjective(wf, steps[j].id, steps[k].id + "_p" + Decimal(b));
      assert false;
    } else {
      BaseInjective(wf, steps[j].id, steps[k].id);
    }
  }

  // ---- the slice map and the dependency list ----

  lemma {:induction false} SliceMapKeys(wf: string, steps: seq<Step>, d: string)
    ensures BaseId(wf, d) in SliceMap(wf, steps) <==> IsName(steps, d)
  {
    if steps == [] {
    } else {
      var front, s := steps[..|steps| - 1], steps[|steps| - 1];
      SliceMapKeys(wf, front, d);
      assert forall j :: Names(front, d, j) ==> Names(steps, d, j);
      assert forall j :: Names(steps, d, j) ==> Names(front, d, j) || j == |steps| - 1;
      if BaseId(wf, d) == BaseId(wf, s.id) {
        BaseInjective(wf, d, s.id);
        assert Names(steps, d, |steps| - 1);
      }
    }
  }

  lemma {:induction false} SliceMapValue(wf: string, steps: seq<Step>, j: nat)
    requires DistinctIds(steps) && j < |steps|
    ensures BaseId(wf, steps[j].id) in SliceMap(wf, steps)
    ensures SliceMap(wf, steps)[BaseId(wf, steps[j].id)] == TaskIds(wf, steps[j])
  {
    if j < |steps| - 1 {
      SliceMapValue(wf, steps[..|steps| - 1], j);
      if BaseId(wf, steps[j].id) == BaseId(wf, steps[|steps| - 1].id) {
        BaseInjective(wf, steps[j].id, steps[|steps| - 1].id);
        assert false;
      }
    }
  }

  // ---- what a dependency turns into ----

  /** The ids that dependency `d` of step `k` turns into. */
  function Resolved(wf: string, steps: seq<Step>, k: nat, d: string): seq<string>
    requires k < |steps|
  {
    var known := SliceMap(wf, steps[..k]);
    if BaseId(wf, d) in known then known[BaseId(wf, d)] else [BaseId(wf, d)]
  }

  /** By its name, dependency `d` of step `k` means task `i` of step `j`: it names that step, whose slices
      are settled by then, or it spells out that very slice. */
  predicate Gives(steps: seq<Step>, k: nat, d: string, j: nat, i: nat)
    requires j < |steps|
  {
    || (steps[j].id == d && (j < k || steps[j].slices <= 1))
    || (steps[j].slices > 1 && d == steps[j].id + "_p" + Decimal(i))
  }

  /** A dependency on an earlier step turns into all its tasks, any other into one id. */
  lemma ResolvedShape(wf: string, steps: seq<Step>, k: nat, d: string) returns (j: nat)
    requires DistinctIds(steps) && k < |steps|
    ensures IsName(steps[..k], d) ==> j < k && steps[j].id == d && Resolved(wf, steps, k, d) == TaskIds(wf, steps[j])
    ensures !IsName(steps[..k], d) ==> Resolved(wf, steps, k, d) == [BaseId(wf, d)]
  {
    SliceMapKeys(wf, steps[..k], d);
    j := 0;
    if IsName(steps[..k], d) {
      j := Find(steps[..k], d);
      SliceMapValue(wf, steps[..k], j);
    }
  }

  lemma BaseIsTaskIff(wf: string, steps: seq<Step>, d: string, j: nat, i: nat)
    requires j < |steps| && i < Width(steps[j])
    ensures TaskIds(wf, steps[j])[i] == BaseId(wf, d) <==>
            if steps[j].slices > 1 then d == steps[j].id + "_p" + Decimal(i) else d == steps[j].id
  {
    if steps[j].slices > 1 {
      SubShape(wf, steps[j].id, i);
      if TaskIds(wf, steps[j])[i] == BaseId(wf, d) { BaseInjective(wf, steps[j].id + "_p" + Decimal(i), d); }
    } else if TaskIds(wf, steps[j])[i] == BaseId(wf, d) {
      BaseInjective(wf, steps[j].id, d);
    }
  }

  lemma InTaskIdsIff(wf: string, steps: seq<Step>, j: nat, i: nat, k: nat)
    requires DistinctIds(steps) && NoClash(steps) && j < |steps| && i < Width(steps[j]) && k < |steps|
    ensures TaskIds(wf, steps[j])[i] in TaskIds(wf, steps[k]) <==> j == k
  {
    if TaskIds(wf, steps[j])[i] in TaskIds(wf, steps[k]) {
      var l :| 0 <= l < Width(steps[k]) && TaskIds(wf, steps[k])[l] == TaskIds(wf, steps[j])[i];
      TaskIdUnique(wf, steps, j, i, k, l);
    }
  }

  /** A dependency turns into the id of a task exactly when its name means that task. */
  lemma ResolvedIff(wf: string, steps: seq<Step>, k: nat, d: string, j: nat, i: nat)
    requires DistinctIds(steps) && NoClash(steps) && k < |steps| && j < |steps| && i < Width(steps[j])
    ensures TaskIds(wf, steps[j])[i] in Resolved(wf, steps, k, d) <==> Gives(steps, k, d, j, i)
  {
    var e := ResolvedShape(wf, steps, k, d);
    if IsName(steps[..k], d) {
      InTaskIdsIff(wf, steps, j, i, e);
    } else {
      BaseIsTaskIff(wf, steps, d, j, i);
      assert j < k ==> (Names(steps[..k], d, j) <==> steps[j].id == d);
      NotBothNames(steps, d, j, i);
    }
  }

  lemma NotBothNames(steps: seq<Step>, d: string, j: nat, i: nat)
    requires NoClash(steps) && j < |steps| && i < Width(steps[j])
    ensures steps[j].id == d && steps[j].slices > 1 ==> d != steps[j].id + "_p" + Decimal(i)
  {
  }

  lemma {:induction false} DepIdsIff(wf: string, steps: seq<Step>, k: nat, deps: seq<string>, id: string)
    requires k < |steps|
    ensures id in DepIds(wf, SliceMap(wf, steps[..k]), deps) <==> exists d <- deps :: id in Resolved(wf, steps, k, d)
  {
    if deps == [] {
    } else {
      var front, d := deps[..|deps| - 1], deps[|deps| - 1];
      DepIdsIff(wf, steps, k, front, id);
      assert deps == front + [d] && d in deps;
      assert DepIds(wf, SliceMap(wf, steps[..k]), deps) == DepIds(wf, SliceMap(wf, steps[..k]), front) + Resolved(wf, steps, k, d);
    }
  }

  // ---- dependencies that overlap ----

  /** One of the two names an earlier step and the other a slice of it. */
  predicate SliceOfNamed(steps: seq<Step>, k: nat, d: string, e: string)
    requires k < |steps|
  {
    exists j :: 0 <= j < k && steps[j].id == d && steps[j].slices > 1 && IsSliceOf(steps[j], e)
  }

  predicate IsSliceOf(s: Step, e: string) {
    exists i :: 0 <= i < s.slices && e == s.id + "_p" + Decimal(i)
  }

  predicate Overlap(steps: seq<Step>, k: nat, d: string, e: string)
    requires k < |steps|
  {
    d == e || SliceOfNamed(steps, k, d, e) || SliceOfNamed(steps, k, e, d)
  }

  predicate Share(a: seq<string>, b: seq<string>) {
    exists x <- a :: x in b
  }

  lemma NamedAndUnnamed(wf: string, steps: seq<Step>, k: nat, d: string, e: string, j: nat)
    requires DistinctIds(steps) && NoClash(steps) && k < |steps| && j < k && steps[j].id == d && !IsName(steps[..k], e)
    ensures BaseId(wf, e) in TaskIds(wf, steps[j]) <==> SliceOfNamed(steps, k, d, e)
    ensures !SliceOfNamed(steps, k, e, d) && d != e
  {
    assert Names(steps[..k], d, j);
    if BaseId(wf, e) in TaskIds(wf, steps[j]) {
      var i :| 0 <= i < Width(steps[j]) && TaskIds(wf, steps[j])[i] == BaseId(wf, e);
      BaseIsTaskIff(wf, steps, e, j, i);
      assert IsSliceOf(steps[j], e);
    }
    if SliceOfNamed(steps, k, d, e) {
      var i :| 0 <= i < steps[j].slices && e == steps[j].id + "_p" + Decimal(i);
      BaseIsTaskIff(wf, steps, e, j, i);
    }
    assert forall l :: 0 <= l < k && steps[l].id == e ==> Names(steps[..k], e, l);
  }

  lemma NamesDoNotOverlap(steps: seq<Step>, k: nat, d: string, e: string, j: nat)
    requires NoClash(steps) && k < |steps| && j < |steps| && steps[j].id == e
    ensures !SliceOfNamed(steps, k, d, e)
  {
  }

  /** Two dependencies turn into a common id exactly when their names overlap. */
  lemma ShareIff(wf: string, steps: seq<Step>, k: nat, d: string, e: string)
    requires DistinctIds(steps) && NoClash(steps) && k < |steps|
    ensures Share(Resolved(wf, steps, k, d), Resolved(wf, steps, k, e)) <==> Overlap(steps, k, d, e)
  {
    var i := ResolvedShape(wf, steps, k, d);
    var j := ResolvedShape(wf, steps, k, e);
    if IsName(steps[..k], d) && IsName(steps[..k], e) {
      NamesDoNotOverlap(steps, k, d, e, j);
      NamesDoNotOverlap(steps, k, e, d, i);
      SameTasksIff(wf, steps, i, j);
    } else if IsName(steps[..k], d) {
      NamedAndUnnamed(wf, steps, k, d, e, i);
      assert BaseId(wf, e) in [BaseId(wf, e)];
    } else if IsName(steps[..k], e) {
      NamedAndUnnamed(wf, steps, k, e, d, j);
      assert BaseId(wf, d) in [BaseId(wf, d)];
    } else {
      NeitherNamed(wf, steps, k, d, e);
    }
  }

  lemma SameTasksIff(wf: string, steps: seq<Step>, i: nat, j: nat)
    requires DistinctIds(steps) && NoClash(steps) && i < |steps| && j < |steps|
    ensures Share(TaskIds(wf, steps[i]), TaskIds(wf, steps[j])) <==> steps[i].id == steps[j].id
  {
    if x :| x in TaskIds(wf, steps[i]) && x in TaskIds(wf, steps[j]) {
      var l :| 0 <= l < Width(steps[i]) && TaskIds(wf, steps[i])[l] == x;
      InTaskIdsIff(wf, steps, i, l, j);
    }
    if steps[i].id == steps[j].id {
      assert i == j;
      assert TaskIds(wf, steps[i])[0] in TaskIds(wf, steps[j]);
    }
  }

  lemma NeitherNamed(wf: string, steps: seq<Step>, k: nat, d: string, e: string)
    requires k < |steps| && !IsName(steps[..k], d) && !IsName(steps[..k], e)
    ensures Share([BaseId(wf, d)], [BaseId(wf, e)]) <==> Overlap(steps, k, d, e)
  {
    assert forall l :: 0 <= l < k && steps[l].id == e ==> Names(steps[..k], e, l);
    assert forall l :: 0 <= l < k && steps[l].id == d ==> Names(steps[..k], d, l);
    if BaseId(wf, d) == BaseId(wf, e) { BaseInjective(wf, d, e); }
    assert BaseId(wf, d) in [BaseId(wf, d)];
  }
}
