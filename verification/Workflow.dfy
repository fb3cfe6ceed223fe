/** Expansion of a workflow of steps with slice counts into a flat table of task rows. */
module Workflow {
  import opened Text
  import Lifecycle

  /** One step of the submitted workflow; `slices` is its `slice_count`. */
  datatype Step = Step(id: string, deps: seq<string>, slices: int)

  /** What is stored of an expanded task. */
  datatype Row = Row(id: string, dependsOn: string, waiting: bool)

  function BaseId(wf: string, id: string): string {
    wf + "_" + id
  }

  function SubId(wf: string, id: string, i: nat): string {
    BaseId(wf, id) + "_p" + Decimal(i)
  }

  /** A step stands for at least one task. */
  function Width(s: Step): nat {
    if s.slices > 1 then s.slices else 1
  }

  function TaskIds(wf: string, s: Step): (ids: seq<string>)
    ensures |ids| == Width(s)
  {
    if s.slices > 1 then seq(s.slices, i requires 0 <= i < s.slices => SubId(wf, s.id, i)) else [BaseId(wf, s.id)]
  }

  /** `slice_map` once these steps have been expanded. */
  function SliceMap(wf: string, steps: seq<Step>): map<string, seq<string>> {
    if steps == [] then map[]
    else
      var s := steps[|steps| - 1];
      SliceMap(wf, steps[..|steps| - 1])[BaseId(wf, s.id) := TaskIds(wf, s)]
  }

  /** The dependency ids of a step, given the slices known so far. */
  function DepIds(wf: string, slices: map<string, seq<string>>, deps: seq<string>): seq<string> {
    if deps == [] then []
    else
      var base := BaseId(wf, deps[|deps| - 1]);
      DepIds(wf, slices, deps[..|deps| - 1]) + if base in slices then slices[base] else [base]
  }

  function StepRows(wf: string, s: Step, slices: map<string, seq<string>>): (rows: seq<Row>)
    ensures |rows| == Width(s)
  {
    var deps := DepIds(wf, slices, s.deps);
    var ids := TaskIds(wf, s);
    seq(|ids|, i requires 0 <= i < |ids| => Row(ids[i], Join(deps, ','), deps != []))
  }

  /** The rows of a workflow, in the order they are inserted. */
  function Rows(wf: string, steps: seq<Step>): seq<Row> {
    if steps == [] then []
    else
      var front := steps[..|steps| - 1];
      Rows(wf, front) + StepRows(wf, steps[|steps| - 1], SliceMap(wf, front))
  }

  /** Replace each dependency by the slices known for it. */
  method ResolveDeps(wf: string, slices: map<string, seq<string>>, names: seq<string>) returns (deps: seq<string>)
    ensures deps == DepIds(wf, slices, names)
  {
    deps := [];
    for j := 0 to |names|
      invariant deps == DepIds(wf, slices, names[..j])
    {
      assert names[..j + 1][..j] == names[..j];
      var parent := BaseId(wf, names[j]);
      if parent in slices {
        deps := deps + slices[parent];
      } else {
        deps := deps + [parent];
      }
    }
    assert names[..|names|] == names;
  }

  /** Emit the rows of one step: one per slice, or a single one. */
  method EmitStep(wf: string, s: Step, deps: seq<string>) returns (ids: seq<string>, rows: seq<Row>)
    ensures ids == TaskIds(wf, s)
    ensures |rows| == |ids| && forall i :: 0 <= i < |ids| ==> rows[i] == Row(ids[i], Join(deps, ','), deps != [])
  {
    var base := BaseId(wf, s.id);
    if s.slices > 1 {
      ids, rows := [], [];
      for i := 0 to s.slices
        invariant |rows| == |ids| == i
        invariant forall k :: 0 <= k < i ==> ids[k] == SubId(wf, s.id, k) && rows[k] == Row(ids[k], Join(deps, ','), deps != [])
      {
        var id := base + "_p" + Decimal(i);
        ids := ids + [id];
        rows := rows + [Row(id, Join(deps, ','), deps != [])];
      }
    } else {
      ids := [base];
      rows := [Row(base, Join(deps, ','), deps != [])];
    }
  }

  lemma ExpandSnoc(wf: string, steps: seq<Step>, k: nat)
    requires k < |steps|
    ensures Rows(wf, steps[..k + 1]) == Rows(wf, steps[..k]) + StepRows(wf, steps[k], SliceMap(wf, steps[..k]))
    ensures SliceMap(wf, steps[..k + 1]) == SliceMap(wf, steps[..k])[BaseId(wf, steps[k].id) := TaskIds(wf, steps[k])]
  {
    assert steps[..k + 1][..k] == steps[..k];
  }

  /** The rows of one step, given what its dependencies turn into. */
  method ExpandStep(wf: string, s: Step, slices: map<string, seq<string>>) returns (ids: seq<string>, rows: seq<Row>)
    ensures ids == TaskIds(wf, s) && rows == StepRows(wf, s, slices)
  {
    var deps := ResolveDeps(wf, slices, s.deps);
    ids, rows := EmitStep(wf, s, deps);
  }

  /** The expansion loop of `local_add_workflow`. */
  method Expand(wf: string, steps: seq<Step>) returns (rows: seq<Row>)
    ensures rows == Rows(wf, steps)
  {
    rows := [];
    var slices: map<string, seq<string>> := map[];
    for k := 0 to |steps|
      invariant rows == Rows(wf, steps[..k])
      invariant slices == SliceMap(wf, steps[..k])
    {
      ExpandSnoc(wf, steps, k);
      var ids, emitted := ExpandStep(wf, steps[k], slices);
      slices := slices[BaseId(wf, steps[k].id) := ids];
      rows := rows + emitted;
    }
    assert steps[..|steps|] == steps;
  }

  /** How the scheduler reads a stored dependency list back. */
  function ParseDeps(dependsOn: string): seq<string> {
    NonBlank(Split(dependsOn, ','))
  }

  function NonBlank(parts: seq<string>): seq<string> {
    if parts == [] then []
    else (if Strip(parts[0]) != "" then [Strip(parts[0])] else []) + NonBlank(parts[1..])
  }

  /** When the release pass lets a waiting row go. */
  predicate Releasable(row: Row, done: set<string>) {
    Lifecycle.Met(ParseDeps(row.dependsOn), done)
  }
}
