/** Finite directed graphs on the natural numbers: walks, cycles, and first elements. */
module Graphs {
  type Edges = set<(nat, nat)>

  ghost function UpTo(n: nat): (s: set<nat>)
    ensures |s| == n && forall x: nat :: x in s <==> x < n
  {
    if n == 0 then {} else UpTo(n - 1) + {n - 1}
  }

  lemma SubsetSize(a: set<nat>, b: set<nat>)
    requires a <= b
    ensures |a| <= |b|
  {
    assert b == a + (b - a);
  }

  /** A walk of at least one edge. */
  predicate Path(e: Edges, p: seq<nat>) {
    && |p| >= 2 && (p[|p| - 2], p[|p| - 1]) in e
    && (|p| > 2 ==> Path(e, p[..|p| - 1]))
  }

  ghost predicate Reaches(e: Edges, x: nat, y: nat) {
    exists p :: Path(e, p) && p[0] == x && p[|p| - 1] == y
  }

  ghost predicate Acyclic(e: Edges) {
    forall x: nat :: !Reaches(e, x, x)
  }

  lemma {:induction false} PathsJoin(e: Edges, p: seq<nat>, q: seq<nat>)
    requires Path(e, p) && Path(e, q) && p[|p| - 1] == q[0]
    ensures Path(e, p + q[1..])
    decreases |q|
  {
    var r := p + q[1..];
    assert r[|r| - 2] == q[|q| - 2];
    if |q| == 2 {
      assert r[..|r| - 1] == p;
    } else {
      PathsJoin(e, p, q[..|q| - 1]);
      assert r[..|r| - 1] == p + q[..|q| - 1][1..];
    }
  }

  lemma ReachTransitive(e: Edges, x: nat, y: nat, z: nat)
    requires Reaches(e, x, y) && Reaches(e, y, z)
    ensures Reaches(e, x, z)
  {
    var p :| Path(e, p) && p[0] == x && p[|p| - 1] == y;
    var q :| Path(e, q) && q[0] == y && q[|q| - 1] == z;
    PathsJoin(e, p, q);
    var r := p + q[1..];
    assert Path(e, r) && r[0] == x && r[|r| - 1] == z;
  }

  lemma EdgeReaches(e: Edges, x: nat, y: nat)
    requires (x, y) in e
    ensures Reaches(e, x, y)
  {
    assert Path(e, [x, y]) && [x, y][0] == x;
  }

  lemma {:induction false} PathEdge(e: Edges, p: seq<nat>, i: nat)
    requires Path(e, p) && 0 < i < |p|
    ensures (p[i - 1], p[i]) in e
    decreases |p|
  {
    if i < |p| - 1 {
      PathEdge(e, p[..|p| - 1], i);
    }
  }

  /** On a cycle everyone has a predecessor on the cycle. */
  lemma CycleBefore(e: Edges, p: seq<nat>, y: nat) returns (x: nat)
    requires Path(e, p) && p[0] == p[|p| - 1] && y in p
    ensures x in p && (x, y) in e
  {
    var i :| 0 <= i < |p| && p[i] == y;
    var l := if i == 0 then |p| - 1 else i;
    PathEdge(e, p, l);
    x := p[l - 1];
  }

  ghost function Ancestors(e: Edges, among: set<nat>, y: nat): set<nat> {
    set x | x in among && Reaches(e, x, y)
  }

  /** In a graph without cycles every set has an element with no predecessor in it. */
  lemma {:induction false} FirstAmong(e: Edges, among: set<nat>, y: nat) returns (m: nat)
    requires Acyclic(e) && y in among
    ensures m in among && forall x <- among :: (x, m) !in e
    decreases |Ancestors(e, among, y)|
  {
    if x :| x in among && (x, y) in e {
      EdgeReaches(e, x, y);
      var mine, its := Ancestors(e, among, y), Ancestors(e, among, x);
      forall i | i in its
        ensures i in mine
      {
        ReachTransitive(e, i, x, y);
      }
      assert x in mine && x !in its;
      assert its <= mine - {x};
      SubsetSize(its, mine - {x});
      m := FirstAmong(e, among, x);
    } else {
      m := y;
    }
  }
}
