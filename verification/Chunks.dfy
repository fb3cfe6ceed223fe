/** Cutting a sequence into pieces of a fixed size and putting the pieces together again. */
module Chunks {
  import opened Wrappers

  /** `(total + n - 1) // n`. */
  function ChunkCount(total: nat, n: nat): nat
    requires n > 0
  {
    (total + n - 1) / n
  }

  /** The piece of length at most `n` starting at `from`, as a slice that stops at the end. */
  function Piece(s: Bytes, n: nat, from: nat): Bytes
    requires from <= |s|
  {
    if from + n <= |s| then s[from..from + n] else s[from..]
  }

  function Cut(s: Bytes, n: nat): (parts: seq<Bytes>)
    requires n > 0
    ensures forall i :: 0 <= i < |parts| ==> 0 < |parts[i]| <= n
    ensures forall i :: 0 <= i < |parts| - 1 ==> |parts[i]| == n
    decreases |s|
  {
    if s == [] then [] else [Piece(s, n, 0)] + Cut(s[|Piece(s, n, 0)|..], n)
  }

  function Flatten(parts: seq<Bytes>): Bytes {
    if parts == [] then [] else parts[0] + Flatten(parts[1..])
  }

  lemma {:induction false} FlattenCut(s: Bytes, n: nat)
    requires n > 0
    ensures Flatten(Cut(s, n)) == s
    decreases |s|
  {
    if s == [] {
    } else {
      FlattenCut(s[|Piece(s, n, 0)|..], n);
      assert Cut(s, n)[1..] == Cut(s[|Piece(s, n, 0)|..], n);
    }
  }

  lemma CountStep(total: nat, n: nat)
    requires n > 0
    ensures total == 0 ==> ChunkCount(total, n) == 0
    ensures 0 < total <= n ==> ChunkCount(total, n) == 1
    ensures total > n ==> ChunkCount(total, n) == ChunkCount(total - n, n) + 1
  {
    if total == 0 {
      DivideUnique(n - 1, n, 0, n - 1);
    } else if total <= n {
      DivideUnique(total + n - 1, n, 1, total - 1);
    } else {
      DivideOnce(total - 1, n);
    }
  }

  /** The pieces are as many as the ceiling division says. */
  lemma {:induction false} CutCount(s: Bytes, n: nat)
    requires n > 0
    ensures |Cut(s, n)| == ChunkCount(|s|, n)
    decreases |s|
  {
    CountStep(|s|, n);
    if s == [] {
    } else {
      CutCount(s[|Piece(s, n, 0)|..], n);
      CountStep(|s| - |Piece(s, n, 0)|, n);
    }
  }

  lemma DivideOnce(x: nat, n: nat)
    requires n > 0
    ensures (x + n) / n == x / n + 1
  {
    var q, r := x / n, x % n;
    assert x + n == (q + 1) * n + r;
    DivideUnique(x + n, n, q + 1, r);
  }

  lemma DivideUnique(x: nat, n: nat, q: nat, r: nat)
    requires n > 0 && x == q * n + r && r < n
    ensures x / n == q && x % n == r
  {
    var p, t := x / n, x % n;
    assert p * n + t == q * n + r;
    if p < q {
      assert (q - p) * n == q * n - p * n;
      assert (q - p) * n >= n by { Multiply(q - p, n); }
    } else if q < p {
      assert (p - q) * n == p * n - q * n;
      assert (p - q) * n >= n by { Multiply(p - q, n); }
    }
  }

  lemma Multiply(k: nat, n: nat)
    requires k >= 1
    ensures k * n >= n
  {
    assert k * n == (k - 1) * n + n;
  }

  /** Pieces of full length, the last one shorter but not empty. */
  predicate Regular(parts: seq<Bytes>, n: nat) {
    && (forall i :: 0 <= i < |parts| ==> 0 < |parts[i]| <= n)
    && (forall i :: 0 <= i < |parts| - 1 ==> |parts[i]| == n)
  }

  /** Cutting the concatenation of regular pieces gives the pieces back. */
  lemma {:induction false} CutFlatten(parts: seq<Bytes>, n: nat)
    requires n > 0 && Regular(parts, n)
    ensures Cut(Flatten(parts), n) == parts
  {
    if parts == [] {
    } else {
      CutFlatten(parts[1..], n);
      var s := Flatten(parts);
      assert Piece(s, n, 0) == parts[0] by {
        if |parts| == 1 { assert Flatten(parts[1..]) == []; }
      }
      assert s[|parts[0]|..] == Flatten(parts[1..]);
    }
  }

  /** `i * n`, one step at a time. */
  function Offset(i: nat, n: nat): nat {
    if i == 0 then 0 else Offset(i - 1, n) + n
  }

  lemma {:induction false} OffsetIs(i: nat, n: nat)
    ensures Offset(i, n) == i * n
  {
    if i == 0 {
    } else {
      OffsetIs(i - 1, n);
      assert i * n == (i - 1) * n + n;
    }
  }

  /** There is a piece at every index whose offset lies inside, and only there. */
  lemma {:induction false} InsideIff(s: Bytes, n: nat, i: nat)
    requires n > 0
    ensures Offset(i, n) < |s| <==> i < |Cut(s, n)|
    decreases i
  {
    if i == 0 {
    } else {
      InsideIff(s[|Piece(s, n, 0)|..], n, i - 1);
    }
  }

  /** The piece at an index, by position instead of by repeated cutting. */
  lemma {:induction false} CutAt(s: Bytes, n: nat, i: nat)
    requires n > 0 && i < |Cut(s, n)|
    ensures Offset(i, n) < |s|
    ensures Cut(s, n)[i] == Piece(s, n, Offset(i, n))
    decreases i
  {
    InsideIff(s, n, i);
    if i == 0 {
    } else {
      CutAt(s[|Piece(s, n, 0)|..], n, i - 1);
    }
  }

  /** The loop that slices a downloaded blob back into chunks. */
  method Reslice(blob: Bytes, n: nat) returns (chunks: seq<Bytes>)
    requires n > 0
    ensures chunks == Cut(blob, n)
  {
    chunks := [];
    var idx := 0;
    InsideIff(blob, n, 0);
    while idx * n < |blob|
      invariant idx <= |Cut(blob, n)|
      invariant idx * n == Offset(idx, n)
      invariant Offset(idx, n) < |blob| <==> idx < |Cut(blob, n)|
      invariant chunks == Cut(blob, n)[..idx]
      decreases |Cut(blob, n)| - idx
    {
      CutAt(blob, n, idx);
      InsideIff(blob, n, idx + 1);
      OffsetIs(idx + 1, n);
      var end := (idx + 1) * n;
      chunks := chunks + [if end <= |blob| then blob[idx * n..end] else blob[idx * n..]];
      idx := idx + 1;
    }
  }
}
